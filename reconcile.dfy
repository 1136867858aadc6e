/**
 * Matching the listed webhooks against the notification URL and merging
 * their enabled events into the event map, as the nested `foreach` of
 * `autoEnableWebhook` does it.
 */
module Reconcile {
  import opened WebhookTypes

  /** The initial value of the `supportedWebhookEvents` property. */
  const SupportedWebhookEvents: map<string, bool> := map["payment.authorized" := true, "refund.created" := true]

  /** The initial value of the `defaultWebhookEvents` property. */
  const DefaultWebhookEvents: map<string, bool> := map["payment.authorized" := true, "refund.created" := true]

  /**
   * PHP's conversion of an event key to bool. A key such as "5" becomes the
   * integer 5 (true) and "0" the integer 0 (false); every other string is
   * true unless it is "".
   */
  predicate Truthy(key: string) {
    key != "" && key != "0"
  }

  /** `in_array($key, $haystack)`: loose comparison of the key with the boolean VALUES of the array. */
  predicate InArray(key: string, haystack: map<string, bool>) {
    exists k :: k in haystack && haystack[k] == Truthy(key)
  }

  /** Two readings of "this event is supported". */
  datatype EventFilter =
    | ValuesLooselyContain(supported: map<string, bool>)  // `in_array($evntkey, $this->supportedWebhookEvents)`, as written
    | KeysContain(supported: map<string, bool>)           // the event name is a key of the supported map

  predicate Accepts(filter: EventFilter, name: string) {
    match filter
    case ValuesLooselyContain(supported) => InArray(name, supported)
    case KeysContain(supported) => name in supported
  }

  /**
   * The check as written accepts exactly the names PHP deems true: any
   * event name other than "" and "0", supported or not.
   */
  lemma InArrayAcceptsTruthyNames(name: string)
    ensures Accepts(ValuesLooselyContain(SupportedWebhookEvents), name) <==> Truthy(name)
  {
    if Truthy(name) {
      assert SupportedWebhookEvents["payment.authorized"] == Truthy(name);
    }
  }

  /** The names a remote `events` array enables (`== 1`) and the filter accepts. */
  function EnabledNames(remote: seq<EventFlag>, filter: EventFilter): set<string> {
    set j | 0 <= j < |remote| && remote[j].enabled && Accepts(filter, remote[j].name) :: remote[j].name
  }

  /** `events` with every key of `keys` set to true and nothing else changed. */
  function SetTrue(events: map<string, bool>, keys: set<string>): map<string, bool> {
    map k | k in events.Keys + keys :: if k in keys then true else events[k]
  }

  /** Setting keys to true in two steps is setting their union to true. */
  lemma SetTrueTwice(events: map<string, bool>, a: set<string>, b: set<string>)
    ensures SetTrue(SetTrue(events, a), b) == SetTrue(events, a + b)
  {
  }

  /**
   * The inner `foreach ($value['events'] ...)`: every enabled, accepted
   * name is set to true in the event map, in order.
   */
  function MergeEvents(events: map<string, bool>, remote: seq<EventFlag>, filter: EventFilter): (merged: map<string, bool>)
    ensures merged == SetTrue(events, EnabledNames(remote, filter))
    decreases |remote|
  {
    if remote == [] then events
    else
      var prev := MergeEvents(events, remote[..|remote| - 1], filter);
      var e := remote[|remote| - 1];
      assert EnabledNames(remote, filter) ==
        EnabledNames(remote[..|remote| - 1], filter) + (if e.enabled && Accepts(filter, e.name) then {e.name} else {}) by {
        assert forall j :: 0 <= j < |remote| - 1 ==> remote[..|remote| - 1][j] == remote[j];
      }
      SetTrueTwice(events, EnabledNames(remote[..|remote| - 1], filter),
                   if e.enabled && Accepts(filter, e.name) then {e.name} else {});
      if e.enabled && Accepts(filter, e.name) then prev[e.name := true] else prev
  }

  /** The state the outer `foreach` keeps: `$webhookExist`, `$webhookId` and the event map. */
  datatype ScanState = ScanState(webhookExist: bool, webhookId: Option<string>, events: map<string, bool>)

  /** `items[i]` is the last item whose url is strictly equal to `url`. */
  predicate LastMatch(items: seq<WebhookItem>, url: string, i: int) {
    0 <= i < |items| && items[i].url == url && forall j :: i < j < |items| ==> items[j].url != url
  }

  /** Every name enabled on some item at `url` and accepted by the filter. */
  function MatchedNames(items: seq<WebhookItem>, url: string, filter: EventFilter): set<string> {
    set i, j | 0 <= i < |items| && items[i].url == url && 0 <= j < |items[i].events|
                 && items[i].events[j].enabled && Accepts(filter, items[i].events[j].name)
      :: items[i].events[j].name
  }

  /** Scanning one more item adds its enabled names when its url matches. */
  lemma MatchedNamesSnoc(items: seq<WebhookItem>, url: string, filter: EventFilter)
    requires items != []
    ensures var last := items[|items| - 1];
      MatchedNames(items, url, filter) ==
        MatchedNames(items[..|items| - 1], url, filter)
        + (if last.url == url then EnabledNames(last.events, filter) else {})
  {
    var n := |items| - 1;
    var last := items[n];
    var lhs := MatchedNames(items, url, filter);
    var rhs := MatchedNames(items[..n], url, filter) + (if last.url == url then EnabledNames(last.events, filter) else {});
    forall name | name in lhs ensures name in rhs {
      var i, j :| 0 <= i < |items| && items[i].url == url && 0 <= j < |items[i].events|
                  && items[i].events[j].enabled && Accepts(filter, items[i].events[j].name)
                  && name == items[i].events[j].name;
      if i < n {
        assert items[..n][i] == items[i];
      }
    }
    forall name | name in rhs ensures name in lhs {
      if name in MatchedNames(items[..n], url, filter) {
        var i, j :| 0 <= i < n && items[..n][i].url == url && 0 <= j < |items[..n][i].events|
                    && items[..n][i].events[j].enabled && Accepts(filter, items[..n][i].events[j].name)
                    && name == items[..n][i].events[j].name;
        assert items[..n][i] == items[i];
      } else {
        var j :| 0 <= j < |last.events| && last.events[j].enabled && Accepts(filter, last.events[j].name)
                 && name == last.events[j].name;
        assert items[n].events[j].name == name;
      }
    }
  }

  /**
   * The outer `foreach ($webhookItems ...)` without `break`: every item whose
   * url is strictly equal to `url` sets `webhookExist`, overwrites
   * `webhookId` and merges its enabled events.
   */
  function Scan(items: seq<WebhookItem>, url: string, events: map<string, bool>, filter: EventFilter): (st: ScanState)
    ensures st.webhookExist <==> exists i :: 0 <= i < |items| && items[i].url == url
    ensures st.webhookExist <==> st.webhookId.Some?
    ensures st.webhookId.Some? ==> exists i :: LastMatch(items, url, i) && st.webhookId.value == items[i].id
    ensures st.events == SetTrue(events, MatchedNames(items, url, filter))
    decreases |items|
  {
    if items == [] then ScanState(false, None, events)
    else
      var n := |items| - 1;
      var prev := Scan(items[..n], url, events, filter);
      var item := items[n];
      MatchedNamesSnoc(items, url, filter);
      assert forall i :: 0 <= i < n ==> items[..n][i] == items[i];
      if item.url == url then
        SetTrueTwice(events, MatchedNames(items[..n], url, filter), EnabledNames(item.events, filter));
        assert LastMatch(items, url, n);
        ScanState(true, Some(item.id), MergeEvents(prev.events, item.events, filter))
      else
        assert prev.webhookId.Some? ==> exists i :: LastMatch(items, url, i) && prev.webhookId.value == items[i].id by {
          if prev.webhookId.Some? {
            var i :| LastMatch(items[..n], url, i) && prev.webhookId.value == items[..n][i].id;
            assert LastMatch(items, url, i);
          }
        }
        prev
  }

  /** The merge only moves entries towards true: no key is removed and no true entry turns false. */
  lemma ScanOnlyTowardsTrue(items: seq<WebhookItem>, url: string, events: map<string, bool>, filter: EventFilter)
    ensures var merged := Scan(items, url, events, filter).events;
      && (forall k :: k in events ==> k in merged && (events[k] ==> merged[k]))
      && (forall k :: k in merged && !merged[k] ==> k in events && !events[k])
      && (forall k :: k in merged && k !in events ==> k in MatchedNames(items, url, filter))
  {
  }

  /** At most one item is the last match. */
  lemma LastMatchUnique(items: seq<WebhookItem>, url: string, i: int, i': int)
    requires LastMatch(items, url, i) && LastMatch(items, url, i')
    ensures i == i'
  {
  }

  /**
   * A second run over the same listing, starting from the map the first run
   * left behind, changes nothing more.
   */
  lemma ScanIdempotent(items: seq<WebhookItem>, url: string, events: map<string, bool>, filter: EventFilter)
    ensures var once := Scan(items, url, events, filter);
      Scan(items, url, once.events, filter) == once
  {
    var once := Scan(items, url, events, filter);
    var twice := Scan(items, url, once.events, filter);
    var names := MatchedNames(items, url, filter);
    SetTrueTwice(events, names, names);
    assert names + names == names;
    assert twice.events == once.events;
    if twice.webhookId.Some? {
      var i :| LastMatch(items, url, i) && twice.webhookId.value == items[i].id;
      var i' :| LastMatch(items, url, i') && once.webhookId.value == items[i'].id;
      LastMatchUnique(items, url, i, i');
    }
  }

  /** Every event enabled on an item at `url` is supported, or is named "" or "0". */
  predicate OnlySupportedEnabled(items: seq<WebhookItem>, url: string) {
    forall i, j :: 0 <= i < |items| && items[i].url == url && 0 <= j < |items[i].events| && items[i].events[j].enabled ==>
      (items[i].events[j].name in SupportedWebhookEvents || !Truthy(items[i].events[j].name))
  }

  /**
   * The two readings of the supported-event check give the same scan as
   * long as every event enabled on a matching item is supported, or is
   * named "" or "0".
   */
  lemma FiltersAgreeOnSupportedEvents(items: seq<WebhookItem>, url: string, events: map<string, bool>)
    requires OnlySupportedEnabled(items, url)
    ensures Scan(items, url, events, ValuesLooselyContain(SupportedWebhookEvents))
         == Scan(items, url, events, KeysContain(SupportedWebhookEvents))
  {
    var asWritten := ValuesLooselyContain(SupportedWebhookEvents);
    var intended := KeysContain(SupportedWebhookEvents);
    forall i, j | 0 <= i < |items| && items[i].url == url && 0 <= j < |items[i].events| && items[i].events[j].enabled
      ensures Accepts(asWritten, items[i].events[j].name) == Accepts(intended, items[i].events[j].name)
    {
      InArrayAcceptsTruthyNames(items[i].events[j].name);
    }
    assert MatchedNames(items, url, asWritten) == MatchedNames(items, url, intended);
    var first := Scan(items, url, events, asWritten);
    var second := Scan(items, url, events, intended);
    if first.webhookId.Some? {
      var i :| LastMatch(items, url, i) && first.webhookId.value == items[i].id;
      var i' :| LastMatch(items, url, i') && second.webhookId.value == items[i'].id;
      LastMatchUnique(items, url, i, i');
    }
  }

  /**
   * The merge with the intended check adds no event outside the supported
   * map, and leaves every supported event enabled on a matching item set
   * to true.
   */
  lemma IntendedMergeStaysSupported(items: seq<WebhookItem>, url: string, events: map<string, bool>)
    ensures var merged := Scan(items, url, events, KeysContain(SupportedWebhookEvents)).events;
      && merged.Keys <= events.Keys + SupportedWebhookEvents.Keys
      && forall i, j :: 0 <= i < |items| && items[i].url == url && 0 <= j < |items[i].events|
           && items[i].events[j].enabled && items[i].events[j].name in SupportedWebhookEvents
           ==> items[i].events[j].name in merged && merged[items[i].events[j].name]
  {
    var names := MatchedNames(items, url, KeysContain(SupportedWebhookEvents));
    forall i, j | 0 <= i < |items| && items[i].url == url && 0 <= j < |items[i].events|
      && items[i].events[j].enabled && items[i].events[j].name in SupportedWebhookEvents
      ensures items[i].events[j].name in names
    {
    }
  }

  /** A webhook at `url` enabling one supported event, disabling another, and enabling "order.paid". */
  function MixedWebhook(url: string): WebhookItem {
    WebhookItem("hook_1", url, [EventFlag("payment.authorized", true), EventFlag("refund.created", false),
                                EventFlag("order.paid", true)])
  }

  /**
   * As written, the merge switches on "order.paid", which is not a supported
   * event; with the intended check the default map comes out unchanged.
   */
  lemma UnsupportedEventMergedAsWritten(url: string)
    ensures var asWritten := Scan([MixedWebhook(url)], url, DefaultWebhookEvents, ValuesLooselyContain(SupportedWebhookEvents)).events;
      "order.paid" in asWritten && asWritten["order.paid"] && "order.paid" !in SupportedWebhookEvents
    ensures Scan([MixedWebhook(url)], url, DefaultWebhookEvents, KeysContain(SupportedWebhookEvents)).events == DefaultWebhookEvents
  {
    var items := [MixedWebhook(url)];
    InArrayAcceptsTruthyNames("order.paid");
    assert items[0].events[2].name == "order.paid";
    assert "order.paid" in MatchedNames(items, url, ValuesLooselyContain(SupportedWebhookEvents));
    var intended := MatchedNames(items, url, KeysContain(SupportedWebhookEvents));
    forall name | name in intended ensures name in DefaultWebhookEvents && DefaultWebhookEvents[name] {
      var i, j :| 0 <= i < |items| && items[i].url == url && 0 <= j < |items[i].events|
                  && items[i].events[j].enabled && items[i].events[j].name in SupportedWebhookEvents
                  && name == items[i].events[j].name;
    }
    assert SetTrue(DefaultWebhookEvents, intended) == DefaultWebhookEvents;
  }
}
