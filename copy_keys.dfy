/**
 * The key synchronizer: for each listed key, compare the source and destination head responses
 * and write a redirect, copy the object, skip it, or raise.
 */
module CopyKeys {
  import opened Wrappers
  import opened S3

  /** Worker threads per invocation. */
  const ThreadParallelism: nat := 10

  /** The response fields whose values make up an object's comparable metadata. */
  const MetadataKeys: seq<string> :=
    ["CacheControl", "ContentDisposition", "ContentEncoding", "ContentLanguage",
     "ContentType", "Expires", "Metadata"]

  /**
   * The metadata of a response: the metadata fields it has, with their values. The source
   * compares these as JSON text written with sorted keys, which is equal exactly when the
   * dictionaries are equal.
   */
  function Metadata(response: Response): map<string, Attr> {
    map f | f in MetadataKeys && f in response :: response[f]
  }

  /** `collect_metadata`: fills a fresh dictionary field by field. */
  method CollectMetadata(response: Response) returns (metadata: map<string, Attr>)
    ensures metadata == Metadata(response)
  {
    metadata := map[];
    for i := 0 to |MetadataKeys|
      invariant metadata == map f | f in MetadataKeys[..i] && f in response :: response[f]
    {
      var key := MetadataKeys[i];
      if key in response {
        metadata := metadata[key := response[key]];
      }
      assert MetadataKeys[..i + 1] == MetadataKeys[..i] + [key];
    }
    assert MetadataKeys[..|MetadataKeys|] == MetadataKeys;
  }

  /** Two responses have the same metadata exactly when they agree on every metadata field. */
  lemma MetadataDependsOnlyOnMetadataFields(a: Response, b: Response)
    ensures Metadata(a) == Metadata(b) <==> forall f :: f in MetadataKeys ==> Get(a, f) == Get(b, f)
  {
    if Metadata(a) == Metadata(b) {
      forall f | f in MetadataKeys ensures Get(a, f) == Get(b, f) {
        assert f in a <==> f in Metadata(a);
        assert f in b <==> f in Metadata(b);
      }
    }
  }

  /** Changing or dropping a field outside the metadata fields (ETag, redirect, ...) keeps the metadata. */
  lemma MetadataIgnoresOtherFields(response: Response, f: string, v: Attr)
    requires f !in MetadataKeys
    ensures Metadata(response[f := v]) == Metadata(response)
    ensures Metadata(response - {f}) == Metadata(response)
  {
    MetadataDependsOnlyOnMetadataFields(response[f := v], response);
    MetadataDependsOnlyOnMetadataFields(response - {f}, response);
  }

  /** What the worker does with one key. */
  datatype Decision = WriteRedirect(target: Attr) | Copy | Skip | Raise(code: int)

  /** The decision of `KeySynchronizer.run` for one key, from the two head outcomes. */
  function Decide(source: Head, destination: Head): (d: Decision)
    // a failing source head is not caught; a destination head failure other than 404 is re-raised
    ensures d.Raise? <==> source.Failed? || (destination.Failed? && destination.code != NotFound)
    ensures d.Raise? ==> d.code == if source.Failed? then source.code else destination.code
    // a source redirect is written as a redirect to the same target and never copied
    ensures d.WriteRedirect? ==> source.Found? && Get(source.response, RedirectField) == Some(d.target)
    ensures d.Copy? ==> source.Found? && RedirectField !in source.response
    // a missing destination is always written
    ensures source.Found? && destination == Failed(NotFound) ==> d.WriteRedirect? || d.Copy?
    // a redirect is rewritten exactly when the destination's redirect differs (or is absent)
    ensures source.Found? && destination.Found? && RedirectField in source.response ==>
      (d.WriteRedirect? <==> Get(destination.response, RedirectField) != Get(source.response, RedirectField))
    // any other object is copied exactly when the ETags or the metadata differ
    ensures source.Found? && destination.Found? && RedirectField !in source.response ==>
      (d.Copy? <==> Get(source.response, ETagField) != Get(destination.response, ETagField)
                    || Metadata(source.response) != Metadata(destination.response))
    ensures d.Skip? ==> source.Found? && destination.Found?
  {
    match source
    case Failed(code) => Raise(code)
    case Found(s) =>
      match destination
      case Failed(code) =>
        if code != NotFound then Raise(code)
        else if RedirectField in s then WriteRedirect(s[RedirectField])
        else Copy
      case Found(t) =>
        if RedirectField in s then
          if Some(s[RedirectField]) != Get(t, RedirectField) then WriteRedirect(s[RedirectField]) else Skip
        else if Get(s, ETagField) != Get(t, ETagField) then Copy
        else if Metadata(s) != Metadata(t) then Copy
        else Skip
  }

  /** The destination objects after carrying out decision `d` for key `k`. */
  function Effect(source: map<Key, Response>, objects: map<Key, Response>, k: Key, d: Decision): map<Key, Response>
    requires d.Copy? ==> k in source
  {
    match d
    case WriteRedirect(target) => objects[k := RedirectObject(target)]
    case Copy => objects[k := source[k]]
    case _ => objects
  }

  /** The write requests decision `d` for key `k` sends. */
  function Emitted(k: Key, d: Decision): seq<Request> {
    match d
    case WriteRedirect(target) => [PutRequest(k, target)]
    case Copy => [CopyRequest(k)]
    case _ => []
  }

  /** The decision for key `k` against the current destination objects. */
  function DecisionFor(source: map<Key, Response>, sourceFaults: map<Key, FaultCode>,
                       objects: map<Key, Response>, destinationFaults: map<Key, FaultCode>, k: Key): (d: Decision)
    ensures d.Copy? ==> k in source
    // whether the worker raises does not depend on the destination's objects
    ensures d.Raise? <==> Raises(source, sourceFaults, destinationFaults, k)
  {
    Decide(HeadObject(source, sourceFaults, k), HeadObject(objects, destinationFaults, k))
  }

  /** One worker iteration on key `k`. */
  function Step(source: map<Key, Response>, sourceFaults: map<Key, FaultCode>,
                destinationFaults: map<Key, FaultCode>, st: PoolState, k: Key): PoolState
    requires st.workers > 0
  {
    var d := DecisionFor(source, sourceFaults, st.objects, destinationFaults, k);
    st.(objects := Effect(source, st.objects, k, d),
        requests := st.requests + Emitted(k, d),
        failures := if d.Raise? then st.failures + [KeyFailure(k, d.code)] else st.failures,
        workers := if d.Raise? then st.workers - 1 else st.workers)
  }

  /** The pool run over the queued keys, in queue order, until the queue is empty or no worker is left. */
  function Run(source: map<Key, Response>, sourceFaults: map<Key, FaultCode>,
               destinationFaults: map<Key, FaultCode>, st: PoolState, keys: seq<Key>): PoolState
    decreases |keys|
  {
    if keys == [] then st
    else if st.workers == 0 then st.(unprocessed := keys)
    else Run(source, sourceFaults, destinationFaults, Step(source, sourceFaults, destinationFaults, st, keys[0]), keys[1..])
  }

  /** A head request for `k` fails with a code other than 404, or the source lacks `k`. */
  predicate Raises(source: map<Key, Response>, sourceFaults: map<Key, FaultCode>,
                   destinationFaults: map<Key, FaultCode>, k: Key)
  {
    k in sourceFaults || k !in source || k in destinationFaults
  }

  /**
   * How many queued keys a pool of `workers` workers dequeues: all of them, or those up to and
   * including the key whose raise ends the last worker.
   */
  function Processed(source: map<Key, Response>, sourceFaults: map<Key, FaultCode>,
                     destinationFaults: map<Key, FaultCode>, keys: seq<Key>, workers: nat): (n: nat)
    ensures n <= |keys|
    ensures workers > 0 && keys != [] ==> n > 0
    decreases |keys|
  {
    if keys == [] || workers == 0 then 0
    else
      var left := if Raises(source, sourceFaults, destinationFaults, keys[0]) then workers - 1 else workers;
      1 + Processed(source, sourceFaults, destinationFaults, keys[1..], left)
  }

  /** The keys a run leaves unprocessed are the queue after the first `Processed` keys. */
  lemma {:induction false} RunUnprocessed(source: map<Key, Response>, sourceFaults: map<Key, FaultCode>,
                                          destinationFaults: map<Key, FaultCode>, st: PoolState, keys: seq<Key>)
    requires st.unprocessed == []
    ensures Run(source, sourceFaults, destinationFaults, st, keys).unprocessed ==
            keys[Processed(source, sourceFaults, destinationFaults, keys, st.workers)..]
    decreases |keys|
  {
    if keys != [] && st.workers > 0 {
      var next := Step(source, sourceFaults, destinationFaults, st, keys[0]);
      RunUnprocessed(source, sourceFaults, destinationFaults, next, keys[1..]);
      var n := Processed(source, sourceFaults, destinationFaults, keys[1..], next.workers);
      assert keys[1..][n..] == keys[1 + n..];
    }
  }

  /** The body of `KeySynchronizer.run` for one dequeued key; returns the code of the raised error, if any. */
  method SynchronizeKey(source: map<Key, Response>, sourceFaults: map<Key, FaultCode>,
                        destination: Bucket, destinationFaults: map<Key, FaultCode>, k: Key)
    returns (raised: Option<int>)
    modifies destination
    ensures var d := DecisionFor(source, sourceFaults, old(destination.objects), destinationFaults, k);
      && raised == (if d.Raise? then Some(d.code) else None)
      && destination.objects == Effect(source, old(destination.objects), k, d)
      && destination.requests == old(destination.requests) + Emitted(k, d)
  {
    var sourceHead := HeadObject(source, sourceFaults, k);
    if sourceHead.Failed? {
      return Some(sourceHead.code);
    }
    var s := sourceHead.response;
    var destinationHead := destination.Head(destinationFaults, k);
    if destinationHead.Failed? {
      if destinationHead.code == NotFound {
        if RedirectField in s {
          destination.PutObject(k, s[RedirectField]);
        } else {
          destination.CopyObject(k, s);
        }
        return None;
      }
      return Some(destinationHead.code);
    }
    var t := destinationHead.response;
    if RedirectField in s {
      if Some(s[RedirectField]) != Get(t, RedirectField) {
        destination.PutObject(k, s[RedirectField]);
      }
      return None;
    }
    if Get(s, ETagField) != Get(t, ETagField) {
      destination.CopyObject(k, s);
      return None;
    }
    var sourceMetadata := CollectMetadata(s);
    var destinationMetadata := CollectMetadata(t);
    if sourceMetadata != destinationMetadata {
      destination.CopyObject(k, s);
    }
    return None;
  }

  /** `sync_keys`: queue every key, then let the workers drain the queue. */
  method SyncKeys(source: map<Key, Response>, sourceFaults: map<Key, FaultCode>,
                  destination: Bucket, destinationFaults: map<Key, FaultCode>, keys: seq<Key>)
    returns (failures: seq<KeyFailure>, unprocessed: seq<Key>)
    modifies destination
    ensures var r := Run(source, sourceFaults, destinationFaults,
                         Start(old(destination.objects), old(destination.requests), ThreadParallelism), keys);
      && destination.objects == r.objects
      && destination.requests == r.requests
      && failures == r.failures
      && unprocessed == r.unprocessed
  {
    ghost var initial := Start(destination.objects, destination.requests, ThreadParallelism);
    var i := 0;
    var workers: nat := ThreadParallelism;
    failures := [];
    while i < |keys| && workers > 0
      invariant 0 <= i <= |keys|
      invariant Run(source, sourceFaults, destinationFaults,
                    PoolState(destination.objects, destination.requests, failures, workers, []), keys[i..])
             == Run(source, sourceFaults, destinationFaults, initial, keys)
    {
      ghost var before := PoolState(destination.objects, destination.requests, failures, workers, []);
      assert keys[i..][1..] == keys[i + 1..];
      var raised := SynchronizeKey(source, sourceFaults, destination, destinationFaults, keys[i]);
      if raised.Some? {
        failures := failures + [KeyFailure(keys[i], raised.value)];
        workers := workers - 1;
      }
      assert Step(source, sourceFaults, destinationFaults, before, keys[i])
          == PoolState(destination.objects, destination.requests, failures, workers, []);
      i := i + 1;
    }
    unprocessed := keys[i..];
    assert i == |keys| ==> keys[i..] == [];
  }

  // Properties of a whole run

  /** A run only appends to the request log. */
  lemma {:induction false} RunExtendsLog(source: map<Key, Response>, sourceFaults: map<Key, FaultCode>,
                                         destinationFaults: map<Key, FaultCode>, st: PoolState, keys: seq<Key>)
    ensures var r := Run(source, sourceFaults, destinationFaults, st, keys);
      |st.requests| <= |r.requests| && r.requests[..|st.requests|] == st.requests
    decreases |keys|
  {
    if keys != [] && st.workers > 0 {
      var next := Step(source, sourceFaults, destinationFaults, st, keys[0]);
      RunExtendsLog(source, sourceFaults, destinationFaults, next, keys[1..]);
      assert next.requests[..|st.requests|] == st.requests;
    }
  }

  /** The requests a run adds to the log. */
  function NewRequests(source: map<Key, Response>, sourceFaults: map<Key, FaultCode>,
                       destinationFaults: map<Key, FaultCode>, st: PoolState, keys: seq<Key>): seq<Request>
  {
    RunExtendsLog(source, sourceFaults, destinationFaults, st, keys);
    Run(source, sourceFaults, destinationFaults, st, keys).requests[|st.requests|..]
  }

  /** The requests of one step followed by those of the rest of the run. */
  lemma NewRequestsUnfold(source: map<Key, Response>, sourceFaults: map<Key, FaultCode>,
                          destinationFaults: map<Key, FaultCode>, st: PoolState, keys: seq<Key>)
    requires keys != [] && st.workers > 0
    ensures var next := Step(source, sourceFaults, destinationFaults, st, keys[0]);
      NewRequests(source, sourceFaults, destinationFaults, st, keys)
      == Emitted(keys[0], DecisionFor(source, sourceFaults, st.objects, destinationFaults, keys[0]))
         + NewRequests(source, sourceFaults, destinationFaults, next, keys[1..])
  {
    var next := Step(source, sourceFaults, destinationFaults, st, keys[0]);
    RunExtendsLog(source, sourceFaults, destinationFaults, next, keys[1..]);
  }

  /**
   * Each queued key causes at most one write, and only queued keys are written: the keys of the
   * new requests, counted with multiplicity, are among the queued keys.
   */
  lemma {:induction false} RunWritesAtMostOncePerKey(source: map<Key, Response>, sourceFaults: map<Key, FaultCode>,
                                                     destinationFaults: map<Key, FaultCode>, st: PoolState, keys: seq<Key>)
    ensures multiset(RequestKeys(NewRequests(source, sourceFaults, destinationFaults, st, keys))) <= multiset(keys)
    decreases |keys|
  {
    if keys != [] && st.workers > 0 {
      var k := keys[0];
      var next := Step(source, sourceFaults, destinationFaults, st, k);
      var emitted := Emitted(k, DecisionFor(source, sourceFaults, st.objects, destinationFaults, k));
      var rest := NewRequests(source, sourceFaults, destinationFaults, next, keys[1..]);
      NewRequestsUnfold(source, sourceFaults, destinationFaults, st, keys);
      RunWritesAtMostOncePerKey(source, sourceFaults, destinationFaults, next, keys[1..]);
      EmittedKeys(k, DecisionFor(source, sourceFaults, st.objects, destinationFaults, k));
      RequestKeysAppend(emitted, rest);
      WithinQueue(RequestKeys(emitted), RequestKeys(rest), keys);
    }
  }

  /** A decision writes its own key at most once. */
  lemma EmittedKeys(k: Key, d: Decision)
    ensures RequestKeys(Emitted(k, d)) == [] || RequestKeys(Emitted(k, d)) == [k]
  {
  }

  lemma RequestKeysAppend(a: seq<Request>, b: seq<Request>)
    ensures RequestKeys(a + b) == RequestKeys(a) + RequestKeys(b)
  {
  }

  /** Keys written for the head of the queue and for its tail stay within the queue. */
  lemma WithinQueue(first: seq<Key>, rest: seq<Key>, keys: seq<Key>)
    requires keys != [] && (first == [] || first == [keys[0]])
    requires multiset(rest) <= multiset(keys[1..])
    ensures multiset(first + rest) <= multiset(keys)
  {
    assert keys == [keys[0]] + keys[1..];
    assert multiset(keys) == multiset([keys[0]]) + multiset(keys[1..]);
  }

  /** A write request agrees with the source: a redirect to the source's target, or a copy of a non-redirect. */
  predicate AgreesWithSource(source: map<Key, Response>, q: Request) {
    q.key in source &&
    match q
    case PutRequest(k, target) => Get(source[k], RedirectField) == Some(target)
    case CopyRequest(k) => RedirectField !in source[k]
    case DeleteRequest(_) => false
  }

  /** Redirect precedence: a source redirect is never copied, and every redirect written is the source's. */
  lemma {:induction false} RunRespectsRedirects(source: map<Key, Response>, sourceFaults: map<Key, FaultCode>,
                                                destinationFaults: map<Key, FaultCode>, st: PoolState, keys: seq<Key>)
    ensures forall q :: q in NewRequests(source, sourceFaults, destinationFaults, st, keys) ==> AgreesWithSource(source, q)
    decreases |keys|
  {
    if keys != [] && st.workers > 0 {
      var next := Step(source, sourceFaults, destinationFaults, st, keys[0]);
      NewRequestsUnfold(source, sourceFaults, destinationFaults, st, keys);
      RunRespectsRedirects(source, sourceFaults, destinationFaults, next, keys[1..]);
    }
  }

  /** Keys that are not queued are left as they were. */
  lemma {:induction false} RunLeavesUnlistedKeys(source: map<Key, Response>, sourceFaults: map<Key, FaultCode>,
                                                 destinationFaults: map<Key, FaultCode>, st: PoolState, keys: seq<Key>, k: Key)
    requires k !in keys
    ensures Get(Run(source, sourceFaults, destinationFaults, st, keys).objects, k) == Get(st.objects, k)
    decreases |keys|
  {
    if keys != [] && st.workers > 0 {
      var next := Step(source, sourceFaults, destinationFaults, st, keys[0]);
      assert Get(next.objects, k) == Get(st.objects, k);
      RunLeavesUnlistedKeys(source, sourceFaults, destinationFaults, next, keys[1..], k);
    }
  }

  /** A key is settled when processing it again would write nothing. */
  predicate Settled(source: map<Key, Response>, sourceFaults: map<Key, FaultCode>,
                    objects: map<Key, Response>, destinationFaults: map<Key, FaultCode>, k: Key)
  {
    var d := DecisionFor(source, sourceFaults, objects, destinationFaults, k);
    d.Skip? || d.Raise?
  }

  /** After a worker has processed key `k`, `k` is settled. */
  lemma StepSettles(source: map<Key, Response>, sourceFaults: map<Key, FaultCode>,
                    destinationFaults: map<Key, FaultCode>, st: PoolState, k: Key)
    requires st.workers > 0
    ensures Settled(source, sourceFaults, Step(source, sourceFaults, destinationFaults, st, k).objects, destinationFaults, k)
  {
    var d := DecisionFor(source, sourceFaults, st.objects, destinationFaults, k);
    var after := Step(source, sourceFaults, destinationFaults, st, k).objects;
    match d
    case Copy =>
      assert HeadObject(after, destinationFaults, k) == Found(source[k]);
    case WriteRedirect(target) =>
      assert HeadObject(after, destinationFaults, k) == Found(RedirectObject(target));
    case _ =>
  }

  /** Processing another key leaves `k` as settled as it was. */
  lemma StepKeepsOtherKeys(source: map<Key, Response>, sourceFaults: map<Key, FaultCode>,
                           destinationFaults: map<Key, FaultCode>, st: PoolState, j: Key, k: Key)
    requires st.workers > 0 && j != k
    ensures Get(Step(source, sourceFaults, destinationFaults, st, j).objects, k) == Get(st.objects, k)
    ensures Settled(source, sourceFaults, st.objects, destinationFaults, k) ==>
            Settled(source, sourceFaults, Step(source, sourceFaults, destinationFaults, st, j).objects, destinationFaults, k)
  {
    var after := Step(source, sourceFaults, destinationFaults, st, j).objects;
    assert HeadObject(after, destinationFaults, k) == HeadObject(st.objects, destinationFaults, k);
  }

  /** The first `n + 1` keys are the first key followed by the first `n` of the rest. */
  lemma TakeCons<T>(s: seq<T>, n: nat)
    requires n < |s|
    ensures s[..n + 1] == [s[0]] + s[1..][..n]
  {
  }

  /** Every key a run dequeues, and every key settled before, is settled after the run. */
  lemma {:induction false} RunSettles(source: map<Key, Response>, sourceFaults: map<Key, FaultCode>,
                                      destinationFaults: map<Key, FaultCode>, st: PoolState, keys: seq<Key>, settled: set<Key>)
    requires forall k :: k in settled ==> Settled(source, sourceFaults, st.objects, destinationFaults, k)
    ensures var r := Run(source, sourceFaults, destinationFaults, st, keys);
      var n := Processed(source, sourceFaults, destinationFaults, keys, st.workers);
      forall k :: k in settled || k in keys[..n] ==> Settled(source, sourceFaults, r.objects, destinationFaults, k)
    decreases |keys|
  {
    if keys != [] && st.workers > 0 {
      var k0 := keys[0];
      var next := Step(source, sourceFaults, destinationFaults, st, k0);
      StepSettles(source, sourceFaults, destinationFaults, st, k0);
      forall k | k in settled && k != k0 ensures Settled(source, sourceFaults, next.objects, destinationFaults, k) {
        StepKeepsOtherKeys(source, sourceFaults, destinationFaults, st, k0, k);
      }
      RunSettles(source, sourceFaults, destinationFaults, next, keys[1..], settled + {k0});
      var n := Processed(source, sourceFaults, destinationFaults, keys[1..], next.workers);
      TakeCons(keys, n);
    }
  }

  /** A run whose dequeued keys are all settled writes nothing. */
  lemma {:induction false} RunOverSettledKeys(source: map<Key, Response>, sourceFaults: map<Key, FaultCode>,
                                              destinationFaults: map<Key, FaultCode>, st: PoolState, keys: seq<Key>)
    requires var n := Processed(source, sourceFaults, destinationFaults, keys, st.workers);
      forall k :: k in keys[..n] ==> Settled(source, sourceFaults, st.objects, destinationFaults, k)
    ensures var r := Run(source, sourceFaults, destinationFaults, st, keys);
      r.objects == st.objects && r.requests == st.requests
    decreases |keys|
  {
    if keys != [] && st.workers > 0 {
      var next := Step(source, sourceFaults, destinationFaults, st, keys[0]);
      var n := Processed(source, sourceFaults, destinationFaults, keys[1..], next.workers);
      TakeCons(keys, n);
      assert Settled(source, sourceFaults, st.objects, destinationFaults, keys[0]);
      assert next.objects == st.objects && next.requests == st.requests;
      RunOverSettledKeys(source, sourceFaults, destinationFaults, next, keys[1..]);
    }
  }

  /**
   * Idempotence: a second run over the same keys, with the source and the failing requests
   * unchanged, writes nothing and changes nothing. Its workers raise on the same keys as the
   * first run's, so it dequeues the same keys, and those the first run has settled.
   */
  lemma SecondRunWritesNothing(source: map<Key, Response>, sourceFaults: map<Key, FaultCode>,
                               destinationFaults: map<Key, FaultCode>, objects: map<Key, Response>, keys: seq<Key>)
    ensures var first := Run(source, sourceFaults, destinationFaults, Start(objects, [], ThreadParallelism), keys);
      var second := Run(source, sourceFaults, destinationFaults, Start(first.objects, first.requests, ThreadParallelism), keys);
      second.objects == first.objects && second.requests == first.requests
  {
    var first := Run(source, sourceFaults, destinationFaults, Start(objects, [], ThreadParallelism), keys);
    RunSettles(source, sourceFaults, destinationFaults, Start(objects, [], ThreadParallelism), keys, {});
    RunOverSettledKeys(source, sourceFaults, destinationFaults, Start(first.objects, first.requests, ThreadParallelism), keys);
  }

  /** Keys present in the source whose head requests all succeed (a missing destination is fine). */
  predicate Reachable(source: map<Key, Response>, sourceFaults: map<Key, FaultCode>,
                      destinationFaults: map<Key, FaultCode>, keys: seq<Key>)
  {
    forall k :: k in keys ==> k in source && k !in sourceFaults && k !in destinationFaults
  }

  /**
   * Without failing requests every queued key is processed and ends up current: the destination
   * holds it, and comparing it with the source again decides to skip it.
   */
  lemma {:induction false} RunWithoutFaultsSynchronizesAll(source: map<Key, Response>, sourceFaults: map<Key, FaultCode>,
                                                           destinationFaults: map<Key, FaultCode>, st: PoolState, keys: seq<Key>)
    requires Reachable(source, sourceFaults, destinationFaults, keys)
    requires st.workers > 0 && st.unprocessed == []
    ensures var r := Run(source, sourceFaults, destinationFaults, st, keys);
      && r.failures == st.failures && r.unprocessed == []
      && forall k :: k in keys ==> k in r.objects && Decide(Found(source[k]), Found(r.objects[k])) == Skip
    decreases |keys|
  {
    var r := Run(source, sourceFaults, destinationFaults, st, keys);
    if keys != [] {
      var next := Step(source, sourceFaults, destinationFaults, st, keys[0]);
      assert !DecisionFor(source, sourceFaults, st.objects, destinationFaults, keys[0]).Raise?;
      assert Reachable(source, sourceFaults, destinationFaults, keys[1..]);
      RunWithoutFaultsSynchronizesAll(source, sourceFaults, destinationFaults, next, keys[1..]);
      RunSettles(source, sourceFaults, destinationFaults, st, keys, {});
      RunUnprocessed(source, sourceFaults, destinationFaults, st, keys);
      assert keys[..Processed(source, sourceFaults, destinationFaults, keys, st.workers)] == keys;
      forall k | k in keys ensures k in r.objects && Decide(Found(source[k]), Found(r.objects[k])) == Skip {
        assert Settled(source, sourceFaults, r.objects, destinationFaults, k);
      }
    }
  }
}
