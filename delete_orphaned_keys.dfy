/**
 * The orphan deleter: for each listed key, ask the source bucket whether it still has it and
 * delete the key from the destination bucket when it does not.
 */
module DeleteOrphanedKeys {
  import opened Wrappers
  import opened S3

  /** Worker threads per invocation. */
  const ThreadParallelism: nat := 10

  /** What the worker does with one key. */
  datatype Decision = Keep | Delete | Raise(code: int)

  /** The decision of `ObsoleteKeyDeleter.run` for one key, from the source head outcome only. */
  function Decide(source: Head): (d: Decision)
    ensures d == Keep <==> source.Found?
    ensures d == Delete <==> source == Failed(NotFound)
    ensures d.Raise? <==> source.Failed? && source.code != NotFound
    ensures d.Raise? ==> d.code == source.code
  {
    match source
    case Found(_) => Keep
    case Failed(code) => if code == NotFound then Delete else Raise(code)
  }

  /** One worker iteration on key `k`. */
  function Step(source: map<Key, Response>, sourceFaults: map<Key, FaultCode>, st: PoolState, k: Key): PoolState
    requires st.workers > 0
  {
    match Decide(HeadObject(source, sourceFaults, k))
    case Keep => st
    case Delete => st.(objects := st.objects - {k}, requests := st.requests + [DeleteRequest(k)])
    case Raise(code) => st.(failures := st.failures + [KeyFailure(k, code)], workers := st.workers - 1)
  }

  /** The pool run over the queued keys, in queue order, until the queue is empty or no worker is left. */
  function Run(source: map<Key, Response>, sourceFaults: map<Key, FaultCode>, st: PoolState, keys: seq<Key>): PoolState
    decreases |keys|
  {
    if keys == [] then st
    else if st.workers == 0 then st.(unprocessed := keys)
    else Run(source, sourceFaults, Step(source, sourceFaults, st, keys[0]), keys[1..])
  }

  /** The body of `ObsoleteKeyDeleter.run` for one dequeued key; returns the code of the raised error, if any. */
  method DeleteIfOrphaned(source: map<Key, Response>, sourceFaults: map<Key, FaultCode>, destination: Bucket, k: Key)
    returns (raised: Option<int>)
    modifies destination
    ensures var d := Decide(HeadObject(source, sourceFaults, k));
      && raised == (if d.Raise? then Some(d.code) else None)
      && destination.objects == (if d == Delete then old(destination.objects) - {k} else old(destination.objects))
      && destination.requests == old(destination.requests) + (if d == Delete then [DeleteRequest(k)] else [])
  {
    var sourceHead := HeadObject(source, sourceFaults, k);
    raised := None;
    if sourceHead.Failed? {
      if sourceHead.code == NotFound {
        destination.DeleteObject(k);
      } else {
        raised := Some(sourceHead.code);
      }
    }
  }

  /** `delete_obsolete_keys`: queue every key, then let the workers drain the queue. */
  method DeleteObsoleteKeys(source: map<Key, Response>, sourceFaults: map<Key, FaultCode>,
                            destination: Bucket, keys: seq<Key>)
    returns (failures: seq<KeyFailure>, unprocessed: seq<Key>)
    modifies destination
    ensures var r := Run(source, sourceFaults, Start(old(destination.objects), old(destination.requests), ThreadParallelism), keys);
      && destination.objects == r.objects
      && destination.requests == r.requests
      && failures == r.failures
      && unprocessed == r.unprocessed
  {
    ghost var initial := Start(destination.objects, destination.requests, ThreadParallelism);
    var i := 0;
    var workers: nat := ThreadParallelism;
    failures := [];
    while i < |keys| && workers > 0
      invariant 0 <= i <= |keys|
      invariant Run(source, sourceFaults, PoolState(destination.objects, destination.requests, failures, workers, []), keys[i..])
             == Run(source, sourceFaults, initial, keys)
    {
      assert keys[i..][1..] == keys[i + 1..];
      ghost var before := PoolState(destination.objects, destination.requests, failures, workers, []);
      var raised := DeleteIfOrphaned(source, sourceFaults, destination, keys[i]);
      if raised.Some? {
        failures := failures + [KeyFailure(keys[i], raised.value)];
        workers := workers - 1;
      }
      assert Step(source, sourceFaults, before, keys[i])
          == PoolState(destination.objects, destination.requests, failures, workers, []);
      i := i + 1;
    }
    unprocessed := keys[i..];
  }

  // Properties of a whole run

  /**
   * The keys a run deletes, given the number of live workers. It depends on the source alone,
   * never on the destination.
   */
  function Deleted(source: map<Key, Response>, sourceFaults: map<Key, FaultCode>, keys: seq<Key>, workers: nat): (ks: set<Key>)
    ensures forall k :: k in ks ==> k in keys && k !in source && k !in sourceFaults
    decreases |keys|
  {
    if keys == [] || workers == 0 then {}
    else
      var d := Decide(HeadObject(source, sourceFaults, keys[0]));
      var rest := Deleted(source, sourceFaults, keys[1..], if d.Raise? then workers - 1 else workers);
      if d == Delete then {keys[0]} + rest else rest
  }

  /** A run removes exactly the deleted keys from the destination and changes no other entry. */
  lemma {:induction false} RunDeletes(source: map<Key, Response>, sourceFaults: map<Key, FaultCode>, st: PoolState, keys: seq<Key>)
    ensures Run(source, sourceFaults, st, keys).objects == st.objects - Deleted(source, sourceFaults, keys, st.workers)
    decreases |keys|
  {
    if keys != [] && st.workers > 0 {
      var next := Step(source, sourceFaults, st, keys[0]);
      RunDeletes(source, sourceFaults, next, keys[1..]);
      var d := Decide(HeadObject(source, sourceFaults, keys[0]));
      var rest := Deleted(source, sourceFaults, keys[1..], next.workers);
      if d == Delete {
        assert st.objects - {keys[0]} - rest == st.objects - ({keys[0]} + rest);
      }
    }
  }

  /** Without failing source requests every listed key absent from the source is deleted, and no other. */
  lemma {:induction false} DeletedAreTheOrphans(source: map<Key, Response>, sourceFaults: map<Key, FaultCode>,
                                                keys: seq<Key>, workers: nat)
    requires workers > 0
    requires forall k :: k in keys ==> k !in sourceFaults
    ensures Deleted(source, sourceFaults, keys, workers) == set k | k in keys && k !in source
    decreases |keys|
  {
    if keys != [] {
      DeletedAreTheOrphans(source, sourceFaults, keys[1..], workers);
      assert forall k :: k in keys <==> k == keys[0] || k in keys[1..];
    }
  }

  /** The requests a run sends are deletions of listed keys that the source lacks. */
  lemma {:induction false} RunRequestsDeleteOrphans(source: map<Key, Response>, sourceFaults: map<Key, FaultCode>,
                                                    st: PoolState, keys: seq<Key>)
    ensures var r := Run(source, sourceFaults, st, keys);
      && |st.requests| <= |r.requests| && r.requests[..|st.requests|] == st.requests
      && forall i :: |st.requests| <= i < |r.requests| ==>
           r.requests[i].DeleteRequest? && r.requests[i].key in keys && r.requests[i].key !in source
    decreases |keys|
  {
    if keys != [] && st.workers > 0 {
      var next := Step(source, sourceFaults, st, keys[0]);
      RunRequestsDeleteOrphans(source, sourceFaults, next, keys[1..]);
      assert next.requests[..|st.requests|] == st.requests;
    }
  }

  /**
   * Idempotence: a second run over the same keys, with the source unchanged, leaves the
   * destination exactly as the first run left it.
   */
  lemma SecondRunChangesNothing(source: map<Key, Response>, sourceFaults: map<Key, FaultCode>,
                                objects: map<Key, Response>, keys: seq<Key>)
    ensures var first := Run(source, sourceFaults, Start(objects, [], ThreadParallelism), keys);
      var second := Run(source, sourceFaults, Start(first.objects, first.requests, ThreadParallelism), keys);
      second.objects == first.objects
  {
    var first := Run(source, sourceFaults, Start(objects, [], ThreadParallelism), keys);
    RunDeletes(source, sourceFaults, Start(objects, [], ThreadParallelism), keys);
    RunDeletes(source, sourceFaults, Start(first.objects, first.requests, ThreadParallelism), keys);
    var gone := Deleted(source, sourceFaults, keys, ThreadParallelism);
    assert objects - gone - gone == objects - gone;
  }
}
