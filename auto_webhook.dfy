/**
 * The decision logic of `AutoWebhook::autoEnableWebhook`, with its Drupal
 * and SDK calls turned into parameters and results: the host check is a
 * boolean, the config bag a map in and a map out, the clock a number, the
 * shuffle a rearranged alphabet, the listing calls a sequence of responses,
 * and the final `create`/`edit` call the action the run returns.
 */
module AutoWebhookCore {
  import opened WebhookTypes
  import opened WebhookSecret
  import opened Pagination
  import opened Reconcile

  /** `$key == null` in PHP: true of null and of the empty string. */
  predicate LooselyNull(key: Option<string>) {
    key.None? || key.value == ""
  }

  class AutoWebhook {
    /** The `supportedWebhookEvents` property; nothing assigns it after construction. */
    const supportedWebhookEvents: map<string, bool>
    /** The `defaultWebhookEvents` property, which the merge updates in place. */
    var defaultWebhookEvents: map<string, bool>

    constructor ()
      ensures supportedWebhookEvents == SupportedWebhookEvents
      ensures defaultWebhookEvents == DefaultWebhookEvents
    {
      supportedWebhookEvents := SupportedWebhookEvents;
      defaultWebhookEvents := DefaultWebhookEvents;
    }

    /** The supported-event check as the source writes it. */
    function AsWritten(): EventFilter {
      ValuesLooselyContain(supportedWebhookEvents)
    }

    /**
     * The inner `foreach` over one matching item's events: every event that
     * is enabled and passes the `in_array` check is set to true in the property.
     */
    method MergeWebhookEvents(events: seq<EventFlag>)
      modifies this
      ensures defaultWebhookEvents == MergeEvents(old(defaultWebhookEvents), events, AsWritten())
    {
      for j := 0 to |events|
        invariant defaultWebhookEvents == MergeEvents(old(defaultWebhookEvents), events[..j], AsWritten())
      {
        assert events[..j + 1][..j] == events[..j];
        var evnt := events[j];
        if evnt.enabled && InArray(evnt.name, supportedWebhookEvents) {
          defaultWebhookEvents := defaultWebhookEvents[evnt.name := true];
        }
      }
      assert events[..|events|] == events;
    }

    /**
     * The outer `foreach` over the collected items: strict url match, merge
     * of the enabled events into the property, and the last match's id.
     */
    method MatchAndMerge(webhookItems: seq<WebhookItem>, webhookUrl: string)
      returns (webhookExist: bool, webhookId: Option<string>)
      modifies this
      ensures var st := Scan(webhookItems, webhookUrl, old(defaultWebhookEvents), AsWritten());
        webhookExist == st.webhookExist && webhookId == st.webhookId && defaultWebhookEvents == st.events
    {
      webhookExist := false;
      webhookId := None;
      if |webhookItems| > 0 {
        for i := 0 to |webhookItems|
          invariant ScanState(webhookExist, webhookId, defaultWebhookEvents)
                 == Scan(webhookItems[..i], webhookUrl, old(defaultWebhookEvents), AsWritten())
        {
          ghost var prev := Scan(webhookItems[..i], webhookUrl, old(defaultWebhookEvents), AsWritten());
          assert webhookItems[..i + 1][..i] == webhookItems[..i];
          var value := webhookItems[i];
          assert Scan(webhookItems[..i + 1], webhookUrl, old(defaultWebhookEvents), AsWritten())
              == if value.url == webhookUrl
                 then ScanState(true, Some(value.id), MergeEvents(prev.events, value.events, AsWritten()))
                 else prev;
          if value.url == webhookUrl {
            MergeWebhookEvents(value.events);
            webhookExist := true;
            webhookId := Some(value.id);
          }
        }
      }
      assert webhookItems[..|webhookItems|] == webhookItems;
    }

    /**
     * One run of `autoEnableWebhook`. `hostIsPublic` is the outcome of the
     * host-address check; `storedFlags` the `razorpay_flags` bag before the
     * run and `savedFlags` the bag the run writes; `now` is `time()`;
     * `order` is the rearrangement `str_shuffle` makes; `responses[k]` answers the
     * k-th listing call.
     */
    method AutoEnableWebhook(hostIsPublic: bool, keyId: Option<string>, keySecret: Option<string>,
                             storedFlags: map<string, FlagValue>, now: int, order: seq<int>,
                             webhookUrl: string, responses: seq<Response>)
      returns (savedFlags: Option<map<string, FlagValue>>, requests: seq<ListOptions>, outcome: Outcome)
      requires IsShuffleOrder(order)
      requires hostIsPublic && !LooselyNull(keyId) && !LooselyNull(keySecret) ==> Ends(responses)
      modifies this
      // A private or reserved host address: nothing is saved, listed or sent.
      ensures !hostIsPublic ==>
        savedFlags == None && requests == [] && outcome == LocalhostRejected
        && defaultWebhookEvents == old(defaultWebhookEvents)
      // Otherwise the bag is replaced by exactly {secret, time}, before the credentials are looked at.
      ensures hostIsPublic ==> savedFlags == Some(SavedFlags(ChooseSecret(storedFlags, order), now))
      // Missing credentials: no remote call at all.
      ensures hostIsPublic && (LooselyNull(keyId) || LooselyNull(keySecret)) ==>
        requests == [] && outcome == MissingCredentials && defaultWebhookEvents == old(defaultWebhookEvents)
      // Credentials present: page through the listing, then edit the last match or create.
      ensures hostIsPublic && !LooselyNull(keyId) && !LooselyNull(keySecret) ==>
        && |requests| == FirstStop(responses) + 1
        && (forall k :: 0 <= k < |requests| ==> requests[k] == ListOptions(PageSize, PageSize * k))
        && match ListAll(responses) {
             case ListingFailed(message) =>
               outcome == RemoteError(message) && defaultWebhookEvents == old(defaultWebhookEvents)
             case ListingOk(items) =>
               var st := Scan(items, webhookUrl, old(defaultWebhookEvents), AsWritten());
               var body := RequestBody(webhookUrl, true, old(defaultWebhookEvents), ChooseSecret(storedFlags, order));
               && defaultWebhookEvents == st.events
               && outcome == Submitted(if st.webhookExist then Edit(body, st.webhookId.value) else Create(body))
           }
    {
      requests := [];
      if !hostIsPublic {
        savedFlags := None;
        outcome := LocalhostRejected;
        return;
      }

      var webhookSecret := ChooseSecret(storedFlags, order);
      var settingFlags := SavedFlags(webhookSecret, now);
      savedFlags := Some(settingFlags);

      if LooselyNull(keyId) || LooselyNull(keySecret) {
        outcome := MissingCredentials;
        return;
      }

      var listing;
      requests, listing := FetchAllWebhooks(responses);
      if listing.ListingFailed? {
        outcome := RemoteError(listing.message);
        return;
      }

      // PHP copies the array here: later writes to the property do not reach the body.
      var requestBody := RequestBody(webhookUrl, true, defaultWebhookEvents, webhookSecret);

      var webhookExist, webhookId := MatchAndMerge(listing.items, webhookUrl);

      if webhookExist {
        outcome := Submitted(Edit(requestBody, webhookId.value));
      } else {
        outcome := Submitted(Create(requestBody));
      }
    }
  }

  /** The listing answer holding only `MixedWebhook(url)`, reported with count 1. */
  function MixedListing(url: string): seq<Response> {
    [Listed(Page(1, [MixedWebhook(url)]))]
  }

  /** One request fetches that listing, and the run collects exactly the one webhook. */
  lemma MixedListingFetched(url: string)
    ensures Ends(MixedListing(url)) && FirstStop(MixedListing(url)) == 0
    ensures ListAll(MixedListing(url)) == ListingOk([MixedWebhook(url)])
  {
    var responses := MixedListing(url);
    assert Stops(responses[0]);
    assert responses[..1] == responses;
    assert responses[..0] == [];
    assert Accumulated(responses[..0]) == [];
    assert Appended(responses[0]) == [MixedWebhook(url)];
  }

  /**
   * Scanning that webhook, as written, finds it under its id and switches
   * "order.paid" on; scanning it again from the result finds it again.
   */
  lemma MixedWebhookScanned(url: string)
    ensures var once := Scan([MixedWebhook(url)], url, DefaultWebhookEvents, ValuesLooselyContain(SupportedWebhookEvents));
      && once.webhookExist && once.webhookId == Some("hook_1")
      && "order.paid" in once.events && once.events["order.paid"]
      && Scan([MixedWebhook(url)], url, once.events, ValuesLooselyContain(SupportedWebhookEvents)).webhookId == Some("hook_1")
  {
    var items := [MixedWebhook(url)];
    var filter := ValuesLooselyContain(SupportedWebhookEvents);
    UnsupportedEventMergedAsWritten(url);
    var once := Scan(items, url, DefaultWebhookEvents, filter);
    var i :| LastMatch(items, url, i) && once.webhookId.value == items[i].id;
    var twice := Scan(items, url, once.events, filter);
    var i' :| LastMatch(items, url, i') && twice.webhookId.value == items[i'].id;
  }

  /**
   * Two runs on one object against a listing holding `MixedWebhook(url)`:
   * the first edits it with the default events only, while the merge
   * it performs persists on the object, so the second sends "order.paid"
   * as well, under the same secret. `keyId` and `keySecret` are any
   * credentials that are present.
   */
  method RepeatedRunSendsMergedEvents(url: string, keyId: string, keySecret: string, order: seq<int>, now: int)
    returns (first: Outcome, second: Outcome)
    requires keyId != "" && keySecret != ""
    requires IsShuffleOrder(order)
    ensures first.Submitted? && first.action == Edit(first.action.body, "hook_1")
    ensures first.action.body.events == DefaultWebhookEvents
    ensures second.Submitted? && second.action == Edit(second.action.body, "hook_1")
    ensures "order.paid" in second.action.body.events && second.action.body.events["order.paid"]
    ensures second.action.body.secret == first.action.body.secret
  {
    var responses := MixedListing(url);
    MixedListingFetched(url);
    MixedWebhookScanned(url);
    SecretStableAcrossRuns(map[], order, order, now);

    var hook := new AutoWebhook();
    assert hook.AsWritten() == ValuesLooselyContain(SupportedWebhookEvents);
    var secret := ChooseSecret(map[], order);
    var once := Scan([MixedWebhook(url)], url, DefaultWebhookEvents, ValuesLooselyContain(SupportedWebhookEvents));
    var saved, requests;
    saved, requests, first := hook.AutoEnableWebhook(true, Some(keyId), Some(keySecret), map[], now, order, url, responses);
    assert hook.defaultWebhookEvents == once.events;
    assert first == Submitted(Edit(RequestBody(url, true, DefaultWebhookEvents, secret), "hook_1"));
    saved, requests, second := hook.AutoEnableWebhook(true, Some(keyId), Some(keySecret), saved.value, now, order, url, responses);
    assert second == Submitted(Edit(RequestBody(url, true, once.events, secret), "hook_1"));
  }
}
