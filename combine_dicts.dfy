/** Merging a list of dictionaries into one, later dictionaries overriding earlier ones. */
module CombineDicts {
  import opened Wrappers
  import Json

  type Dict = map<string, Json.Value>

  datatype Failure = AssertionFailed | NotADict(index: nat)

  /**
   * `result` is the merge of `dicts`: it has exactly the keys of the dictionaries, and each key
   * has its value in the last dictionary that has the key.
   */
  ghost predicate MergedFrom(result: Dict, dicts: seq<Dict>) {
    && (forall k :: k in result <==> exists i :: 0 <= i < |dicts| && k in dicts[i])
    && (forall i, k :: 0 <= i < |dicts| && k in dicts[i] && (forall j :: i < j < |dicts| ==> k !in dicts[j])
         ==> result[k] == dicts[i][k])
  }

  /** Updating the merge of some dictionaries with one more gives the merge of them all. */
  lemma MergeStep(result: Dict, dicts: seq<Dict>, next: Dict)
    requires MergedFrom(result, dicts)
    ensures MergedFrom(result + next, dicts + [next])
  {
    var all := dicts + [next];
    forall k ensures k in result + next <==> exists i :: 0 <= i < |all| && k in all[i] {
      if k in result {
        var i :| 0 <= i < |dicts| && k in dicts[i];
        assert all[i] == dicts[i];
      }
      if k in next {
        assert all[|dicts|] == next;
      }
      if exists i :: 0 <= i < |all| && k in all[i] {
        var i :| 0 <= i < |all| && k in all[i];
        if i < |dicts| { assert all[i] == dicts[i]; }
      }
    }
    forall i, k | 0 <= i < |all| && k in all[i] && (forall j :: i < j < |all| ==> k !in all[j])
      ensures (result + next)[k] == all[i][k]
    {
      if i < |dicts| {
        assert all[|dicts|] == next;
        assert all[i] == dicts[i];
        assert forall j :: i < j < |dicts| ==> all[j] == dicts[j];
      }
    }
  }

  /** The dictionaries a list of objects denotes. */
  function Dicts(items: seq<Json.Value>): (ds: seq<Dict>)
    requires forall i :: 0 <= i < |items| ==> items[i].Object?
    ensures |ds| == |items|
    ensures forall i :: 0 <= i < |items| ==> ds[i] == Json.Dict(items[i].fields)
  {
    seq(|items|, i requires 0 <= i < |items| => Json.Dict(items[i].fields))
  }

  /** Merging in the next item of the list extends the merge of the items before it. */
  lemma MergeItem(result: Dict, items: seq<Json.Value>, n: nat)
    requires n < |items| && forall i :: 0 <= i <= n ==> items[i].Object?
    requires MergedFrom(result, Dicts(items[..n]))
    ensures MergedFrom(result + Json.Dict(items[n].fields), Dicts(items[..n + 1]))
  {
    MergeStep(result, Dicts(items[..n]), Json.Dict(items[n].fields));
    assert Dicts(items[..n + 1]) == Dicts(items[..n]) + [Json.Dict(items[n].fields)];
  }

  /** The `handler`: the event must be a list, and each element a dictionary. */
  method Handler(event: Json.Value) returns (r: Result<Dict, Failure>)
    ensures !event.Array? ==> r == Failure(AssertionFailed)
    ensures event.Array? ==> (r.Success? <==> forall i :: 0 <= i < |event.items| ==> event.items[i].Object?)
    ensures r.Success? ==> event.Array? && MergedFrom(r.value, Dicts(event.items))
  {
    if !event.Array? {
      return Failure(AssertionFailed);
    }
    var items := event.items;
    var result: Dict := map[];
    for n := 0 to |items|
      invariant forall i :: 0 <= i < n ==> items[i].Object?
      invariant MergedFrom(result, Dicts(items[..n]))
    {
      var item := items[n];
      if !item.Object? {
        return Failure(NotADict(n));
      }
      MergeItem(result, items, n);
      result := result + Json.Dict(item.fields);
    }
    assert items[..|items|] == items;
    return Success(result);
  }

  /** An empty list merges to an empty dictionary, and the merge of a list is unique. */
  lemma MergeIsUnique(a: Dict, b: Dict, dicts: seq<Dict>)
    requires MergedFrom(a, dicts) && MergedFrom(b, dicts)
    ensures a == b
    ensures dicts == [] ==> a == map[]
  {
    forall k | k in a ensures k in b && a[k] == b[k] {
      var i :| 0 <= i < |dicts| && k in dicts[i];
      var last := LastHolder(dicts, k, i);
      assert a[k] == dicts[last][k] == b[k];
    }
    assert a.Keys == b.Keys;
  }

  /** The last dictionary at or after `i` that has key `k`. */
  lemma LastHolder(dicts: seq<Dict>, k: string, i: nat) returns (last: nat)
    requires i < |dicts| && k in dicts[i]
    ensures i <= last < |dicts| && k in dicts[last]
    ensures forall j :: last < j < |dicts| ==> k !in dicts[j]
    decreases |dicts| - i
  {
    if exists j :: i < j < |dicts| && k in dicts[j] {
      var j :| i < j < |dicts| && k in dicts[j];
      last := LastHolder(dicts, k, j);
    } else {
      last := i;
    }
  }
}
