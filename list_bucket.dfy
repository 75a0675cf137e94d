/**
 * The key lister: lists one page of a bucket and, while the JSON form of the page is longer
 * than the result budget, asks again for half as many keys as the oversized page had.
 */
module ListBucket {
  import opened Wrappers

  /** Default page size; a power of two, since it may be halved repeatedly. */
  const MaxKeys: nat := 1024
  /** Largest result a state machine task may pass on, in characters. */
  const MaxDataSize: nat := 32000
  const SafetyMarginPercent: nat := 10
  /** The budget: the data size less the safety margin, 28800. */
  const MaxResultLength: nat := MaxDataSize * (100 - SafetyMarginPercent) / 100
  const DefaultPrefix: string := ""

  /**
   * The handler's input: the event's string fields (among them `listBucket`, which names the
   * field holding the bucket), `listResult.token` (absent or null are both None), `maxKeys`, `prefix`.
   */
  datatype Event = Event(fields: map<string, string>, token: Option<string>, maxKeys: Option<nat>, prefix: Option<string>)

  /** The arguments of `list_objects_v2`; `continuationToken` is None when the argument is not sent. */
  datatype Request = Request(bucket: string, maxKeys: nat, prefix: string, continuationToken: Option<string>)

  datatype ObjectSummary = ObjectSummary(key: string)

  /** The fields of a `list_objects_v2` response that the handler reads. */
  datatype Response = Response(contents: Option<seq<ObjectSummary>>, nextToken: Option<string>)

  /** The handler's output `{'keys': [...], 'token': ...}`. */
  datatype ListResult = ListResult(keys: seq<string>, token: string)

  datatype Failure = MissingField(name: string) | DownsizedToZero

  const ListBucketField := "listBucket"

  /** `response.get('Contents', [])` */
  function Contents(response: Response): seq<ObjectSummary> {
    response.contents.GetOr([])
  }

  /** The storage backend never returns more keys than asked for. */
  ghost predicate Bounded(backend: Request -> Response) {
    forall q :: |Contents(backend(q))| <= q.maxKeys
  }

  /** The result built from one response. */
  function ResultOf(response: Response): (result: ListResult)
    ensures |result.keys| == |Contents(response)|
    ensures forall i :: 0 <= i < |result.keys| ==> result.keys[i] == Contents(response)[i].key
    ensures response.nextToken.None? ==> result.token == ""
    ensures response.nextToken.Some? ==> result.token == response.nextToken.value
  {
    var contents := Contents(response);
    ListResult(seq(|contents|, i requires 0 <= i < |contents| => contents[i].key), response.nextToken.GetOr(""))
  }

  /** Two requests ask for the same listing, page size aside. */
  predicate SameListing(a: Request, b: Request) {
    a.bucket == b.bucket && a.prefix == b.prefix && a.continuationToken == b.continuationToken
  }

  /** The first request the handler builds from its event, with the defaults for missing fields. */
  function FirstRequest(event: Event): (r: Result<Request, Failure>)
    ensures r.Success? <==> ListBucketField in event.fields && event.fields[ListBucketField] in event.fields
    ensures r.Success? ==> r.value.bucket == event.fields[event.fields[ListBucketField]]
    ensures r.Success? ==> r.value.maxKeys == (if event.maxKeys.Some? then event.maxKeys.value else MaxKeys)
    ensures r.Success? ==> r.value.prefix == (if event.prefix.Some? then event.prefix.value else DefaultPrefix)
    // the continuation token is sent only when it is non-empty
    ensures r.Success? ==> (r.value.continuationToken.Some? <==> event.token.Some? && event.token.value != "")
    ensures r.Success? && r.value.continuationToken.Some? ==> event.token == r.value.continuationToken
  {
    if ListBucketField !in event.fields then Failure(MissingField(ListBucketField))
    else
      var bucketToList := event.fields[ListBucketField];
      if bucketToList !in event.fields then Failure(MissingField(bucketToList))
      else
        var token := event.token.GetOr("");
        Success(Request(
          event.fields[bucketToList],
          event.maxKeys.GetOr(MaxKeys),
          event.prefix.GetOr(DefaultPrefix),
          if token != "" then Some(token) else None))
  }

  /** The JSON length `size` of the result of request `q` is within the budget. */
  predicate FitsAt(backend: Request -> Response, size: ListResult -> nat, q: Request) {
    size(ResultOf(backend(q))) <= MaxResultLength
  }

  /** The retry loop as a recursion on the page size. */
  function Listing(backend: Request -> Response, size: ListResult -> nat, q: Request): (r: Result<ListResult, Failure>)
    requires Bounded(backend)
    ensures r.Success? ==> size(r.value) <= MaxResultLength
    ensures r.Failure? ==> r.error == DownsizedToZero
    decreases q.maxKeys
  {
    var result := ResultOf(backend(q));
    if size(result) <= MaxResultLength then Success(result)
    else
      var m := |result.keys| / 2;
      if m == 0 then Failure(DownsizedToZero) else Listing(backend, size, q.(maxKeys := m))
  }

  /**
   * A result is the page listed at some page size no larger than the one asked for; the only
   * failure follows an oversized page with fewer than two keys, which cannot be halved.
   */
  lemma {:induction false} ListingIsAPage(backend: Request -> Response, size: ListResult -> nat, q: Request)
    requires Bounded(backend)
    ensures var r := Listing(backend, size, q);
      && (r.Success? ==> exists m: nat :: m <= q.maxKeys && r.value == ResultOf(backend(q.(maxKeys := m))))
      && (r.Failure? ==> exists m: nat :: m <= q.maxKeys && !FitsAt(backend, size, q.(maxKeys := m))
                                          && |Contents(backend(q.(maxKeys := m)))| < 2)
    decreases q.maxKeys
  {
    var r := Listing(backend, size, q);
    assert q.(maxKeys := q.maxKeys) == q;
    var result := ResultOf(backend(q));
    var m := |result.keys| / 2;
    if size(result) > MaxResultLength && m > 0 {
      ListingIsAPage(backend, size, q.(maxKeys := m));
      assert forall n: nat :: q.(maxKeys := m).(maxKeys := n) == q.(maxKeys := n);
    }
  }

  /** When no oversized page has fewer than two keys, the listing always returns a result. */
  lemma {:induction false} ListingSucceeds(backend: Request -> Response, size: ListResult -> nat, q: Request)
    requires Bounded(backend)
    requires forall m: nat :: m <= q.maxKeys && !FitsAt(backend, size, q.(maxKeys := m)) ==>
               |Contents(backend(q.(maxKeys := m)))| >= 2
    ensures Listing(backend, size, q).Success?
    decreases q.maxKeys
  {
    assert q.(maxKeys := q.maxKeys) == q;
    if !FitsAt(backend, size, q) {
      var m := |ResultOf(backend(q)).keys| / 2;
      assert forall n: nat :: q.(maxKeys := m).(maxKeys := n) == q.(maxKeys := n);
      ListingSucceeds(backend, size, q.(maxKeys := m));
    }
  }

  /** One round of the retry loop: an oversized page is asked for again at half its key count. */
  lemma ListingRetries(backend: Request -> Response, size: ListResult -> nat, q: Request)
    requires Bounded(backend) && !FitsAt(backend, size, q)
    ensures var m := |ResultOf(backend(q)).keys| / 2;
      && (m == 0 ==> Listing(backend, size, q) == Failure(DownsizedToZero))
      && (m > 0 ==> m < q.maxKeys && Listing(backend, size, q) == Listing(backend, size, q.(maxKeys := m)))
  {
  }

  /** Request `next` is the retry after `prev`: the page of `prev` did not fit, and `next` asks for half its keys. */
  predicate RetryOf(backend: Request -> Response, size: ListResult -> nat, prev: Request, next: Request) {
    !FitsAt(backend, size, prev) && next.maxKeys == |ResultOf(backend(prev)).keys| / 2
  }

  /**
   * The requests of the retry loop so far: they start with `first`, ask for the same listing, and
   * each retry follows a page that did not fit, asking for half its keys, fewer than before.
   */
  predicate RetryLog(backend: Request -> Response, size: ListResult -> nat, first: Request, requests: seq<Request>) {
    && (requests != [] ==> requests[0] == first)
    && (forall i :: 0 <= i < |requests| ==> SameListing(requests[i], first))
    && (forall i :: 0 < i < |requests| ==>
          requests[i].maxKeys < requests[i - 1].maxKeys && RetryOf(backend, size, requests[i - 1], requests[i]))
  }

  /** Sending the next request of the loop extends the log. */
  lemma RetryLogAppend(backend: Request -> Response, size: ListResult -> nat, first: Request,
                       requests: seq<Request>, q: Request)
    requires RetryLog(backend, size, first, requests) && SameListing(q, first)
    requires requests == [] ==> q == first
    requires requests != [] ==>
      q.maxKeys < requests[|requests| - 1].maxKeys && RetryOf(backend, size, requests[|requests| - 1], q)
    ensures RetryLog(backend, size, first, requests + [q])
  {
    var log := requests + [q];
    forall i | 0 < i < |log|
      ensures log[i].maxKeys < log[i - 1].maxKeys && RetryOf(backend, size, log[i - 1], log[i])
    {
      if i < |requests| {
        assert log[i] == requests[i] && log[i - 1] == requests[i - 1];
      }
    }
  }

  /**
   * The retry loop of the `handler` from its first request: returns the result, and the requests
   * it sent, in order.
   */
  method ListWithRetries(backend: Request -> Response, size: ListResult -> nat, first: Request)
    returns (r: Result<ListResult, Failure>, requests: seq<Request>)
    requires Bounded(backend)
    ensures r == Listing(backend, size, first)
    ensures |requests| > 0 && requests[0] == first
    ensures forall i :: 0 <= i < |requests| ==> SameListing(requests[i], first)
    // each retry follows a page that did not fit and asks for half the keys that page held,
    // fewer than the request before it
    ensures forall i :: 0 < i < |requests| ==>
      requests[i].maxKeys < requests[i - 1].maxKeys && RetryOf(backend, size, requests[i - 1], requests[i])
    ensures r.Success? ==> r.value == ResultOf(backend(requests[|requests| - 1]))
  {
    var q := first;
    requests := [];
    while true
      invariant Listing(backend, size, q) == Listing(backend, size, first)
      invariant SameListing(q, first)
      invariant RetryLog(backend, size, first, requests)
      invariant requests == [] ==> q == first
      invariant requests != [] ==>
        q.maxKeys < requests[|requests| - 1].maxKeys && RetryOf(backend, size, requests[|requests| - 1], q)
      decreases q.maxKeys
    {
      RetryLogAppend(backend, size, first, requests, q);
      requests := requests + [q];
      var response := backend(q);
      var result := ResultOf(response);
      if size(result) <= MaxResultLength {
        return Success(result), requests;
      }
      var m := |result.keys| / 2;  // ask for half the number of keys received
      ListingRetries(backend, size, q);
      if m == 0 {
        return Failure(DownsizedToZero), requests;
      }
      q := q.(maxKeys := m);
    }
  }

  /** The `handler`: builds the first request from the event, then lists with retries. */
  method Handler(event: Event, backend: Request -> Response, size: ListResult -> nat)
    returns (r: Result<ListResult, Failure>, requests: seq<Request>)
    requires Bounded(backend)
    ensures r.Success? ==> size(r.value) <= MaxResultLength
    ensures FirstRequest(event).Failure? ==> r == Failure(FirstRequest(event).error) && requests == []
    ensures FirstRequest(event).Success? ==>
      && r == Listing(backend, size, FirstRequest(event).value)
      && |requests| > 0 && requests[0] == FirstRequest(event).value
    ensures r.Success? ==> |requests| > 0 && r.value == ResultOf(backend(requests[|requests| - 1]))
  {
    var start := FirstRequest(event);
    if start.Failure? {
      return Failure(start.error), [];
    }
    r, requests := ListWithRetries(backend, size, start.value);
  }
}
