/**
 * The listing loop of `autoEnableWebhook`: request pages of ten webhooks,
 * skipping ten more each time, append every page's items, and stop after
 * the first page whose reported count is not exactly ten.
 *
 * The remote client is a sequence of responses: `responses[k]` is what
 * `webhook->all` answers to the k-th request of a run.
 */
module Pagination {
  import opened WebhookTypes

  /** The `$count` of every request, and the step of `$skip`. */
  const PageSize: int := 10

  /** A response after which the loop requests nothing more: an exception, or a short page. */
  predicate Stops(r: Response) {
    r.Failed? || r.page.count != PageSize
  }

  /** The loop ends within these responses (the source loops forever otherwise). */
  predicate Ends(responses: seq<Response>) {
    exists k :: 0 <= k < |responses| && Stops(responses[k])
  }

  /** Index of the response that ends the loop: the first one that stops it. */
  function FirstStop(responses: seq<Response>): (k: nat)
    requires Ends(responses)
    ensures k < |responses| && Stops(responses[k])
    ensures forall j :: 0 <= j < k ==> !Stops(responses[j])
    decreases |responses|
  {
    if Stops(responses[0]) then 0
    else
      assert Ends(responses[1..]) by {
        var k :| 0 <= k < |responses| && Stops(responses[k]);
        assert k != 0 && Stops(responses[1..][k - 1]);
      }
      1 + FirstStop(responses[1..])
  }

  /** What one response contributes to `$webhookItems`: the items of a page whose count is positive. */
  function Appended(r: Response): seq<WebhookItem> {
    if r.Listed? && r.page.count > 0 then r.page.items else []
  }

  /** `$webhookItems` after the given responses have been processed, in order. */
  function Accumulated(responses: seq<Response>): seq<WebhookItem>
    decreases |responses|
  {
    if responses == [] then []
    else Accumulated(responses[..|responses| - 1]) + Appended(responses[|responses| - 1])
  }

  /** The result of the whole listing phase. */
  datatype Listing = ListingOk(items: seq<WebhookItem>) | ListingFailed(message: string)

  /**
   * The listing a run obtains: the exception of the response that ends the
   * loop, or everything accumulated up to and including that response.
   */
  function ListAll(responses: seq<Response>): Listing
    requires Ends(responses)
  {
    var k := FirstStop(responses);
    if responses[k].Failed? then ListingFailed(responses[k].message)
    else ListingOk(Accumulated(responses[..k + 1]))
  }

  /**
   * The do..while loop. `requests` records the options of every
   * `webhook->all` call in order; the k-th call is answered by `responses[k]`.
   */
  method FetchAllWebhooks(responses: seq<Response>) returns (requests: seq<ListOptions>, listing: Listing)
    requires Ends(responses)
    ensures |requests| == FirstStop(responses) + 1
    ensures forall k :: 0 <= k < |requests| ==> requests[k] == ListOptions(PageSize, PageSize * k)
    ensures listing == ListAll(responses)
  {
    var skip := 0;
    var count := PageSize;
    var webhookItems: seq<WebhookItem> := [];
    requests := [];
    var fetched := 0;
    while true
      invariant 0 <= fetched <= FirstStop(responses)
      invariant skip == PageSize * fetched
      invariant |requests| == fetched
      invariant forall k :: 0 <= k < fetched ==> requests[k] == ListOptions(PageSize, PageSize * k)
      invariant webhookItems == Accumulated(responses[..fetched])
      decreases FirstStop(responses) - fetched
    {
      var options := ListOptions(count, skip);
      requests := requests + [options];
      var response := responses[fetched];
      if response.Failed? {
        listing := ListingFailed(response.message);
        return;
      }
      var webhooks := response.page;
      skip := skip + 10;
      ghost var before := webhookItems;
      if webhooks.count > 0 {
        for i := 0 to |webhooks.items|
          invariant webhookItems == before + webhooks.items[..i]
        {
          webhookItems := webhookItems + [webhooks.items[i]];
        }
      }
      assert responses[..fetched + 1][..fetched] == responses[..fetched];
      fetched := fetched + 1;
      if webhooks.count != count {
        listing := ListingOk(webhookItems);
        return;
      }
    }
  }

  /** Accumulation distributes over consecutive runs of responses: order is preserved. */
  lemma {:induction false} AccumulatedAppend(a: seq<Response>, b: seq<Response>)
    ensures Accumulated(a + b) == Accumulated(a) + Accumulated(b)
    decreases |b|
  {
    if b != [] {
      var b' := b[..|b| - 1];
      assert (a + b)[..|a + b| - 1] == a + b';
      AccumulatedAppend(a, b');
    } else {
      assert a + b == a;
    }
  }

  /** A page whose reported count is zero adds nothing, whatever items it carries. */
  lemma ZeroCountAddsNothing(before: seq<Response>, items: seq<WebhookItem>)
    ensures Accumulated(before + [Listed(Page(0, items))]) == Accumulated(before)
  {
    assert (before + [Listed(Page(0, items))])[..|before|] == before;
  }

  /**
   * The k-th page a well-behaved processor returns for a collection `all`:
   * the items at positions 10k up to 10k + 10, with their number as count.
   */
  function PageAt(all: seq<WebhookItem>, k: nat): Page
    requires PageSize * k <= |all|
  {
    var lo := PageSize * k;
    var hi := if lo + PageSize <= |all| then lo + PageSize else |all|;
    Page(hi - lo, all[lo..hi])
  }

  /** The answers of a well-behaved processor holding `all`, one per request the loop makes. */
  function HonestResponses(all: seq<WebhookItem>): seq<Response> {
    seq(|all| / PageSize + 1, k requires 0 <= k <= |all| / PageSize => Listed(PageAt(all, k)))
  }

  /** Against a well-behaved processor every page before the last is full. */
  lemma {:induction false} HonestPrefix(all: seq<WebhookItem>, n: nat)
    requires n <= |all| / PageSize
    ensures Accumulated(HonestResponses(all)[..n]) == all[..PageSize * n]
  {
    if n > 0 {
      var rs := HonestResponses(all);
      HonestPrefix(all, n - 1);
      assert rs[..n][..n - 1] == rs[..n - 1];
      assert all[..PageSize * n] == all[..PageSize * (n - 1)] + all[PageSize * (n - 1)..PageSize * n];
    }
  }

  /**
   * Against a well-behaved processor the loop makes |all| / 10 + 1 requests
   * (one more, answered with count 0, when |all| is a multiple of ten) and
   * collects the whole collection, in order; with no webhooks at all, it
   * makes one request and collects nothing.
   */
  lemma HonestListing(all: seq<WebhookItem>)
    ensures Ends(HonestResponses(all))
    ensures FirstStop(HonestResponses(all)) == |all| / PageSize
    ensures ListAll(HonestResponses(all)) == ListingOk(all)
  {
    var rs := HonestResponses(all);
    var q := |all| / PageSize;
    assert PageSize * q <= |all| < PageSize * q + PageSize;
    assert rs[q] == Listed(Page(|all| - PageSize * q, all[PageSize * q..]));
    forall j | 0 <= j < q ensures !Stops(rs[j]) {
      assert PageSize * j + PageSize <= |all|;
      assert rs[j].page.count == PageSize;
    }
    assert FirstStop(rs) == q;
    HonestPrefix(all, q);
    assert rs[..q + 1][..q] == rs[..q];
    assert all == all[..PageSize * q] + all[PageSize * q..];
  }
}
