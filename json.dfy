/** Values of a decoded JSON document (a Lambda event, a CloudFormation fragment). */
module Json {

  /**
   * An object keeps its fields in document order, as a list of name/value pairs;
   * numbers are integers (floating point is not modelled).
   */
  datatype Value =
    | Null
    | Bool(b: bool)
    | Number(n: int)
    | Str(s: string)
    | Array(items: seq<Value>)
    | Object(fields: seq<(string, Value)>)

  /** The name of a field appears at position `i` and at no later position. */
  predicate LastWithName(fields: seq<(string, Value)>, i: nat) {
    i < |fields| && forall j :: i < j < |fields| ==> fields[j].0 != fields[i].0
  }

  /** The names of an object's fields. */
  function Names(fields: seq<(string, Value)>): set<string> {
    set i | 0 <= i < |fields| :: fields[i].0
  }

  /** The dictionary an object denotes: a later field with the same name wins. */
  function Dict(fields: seq<(string, Value)>): (d: map<string, Value>)
    ensures d.Keys == Names(fields)
    ensures forall i :: 0 <= i < |fields| && LastWithName(fields, i) ==> d[fields[i].0] == fields[i].1
    decreases |fields|
  {
    if fields == [] then map[]
    else
      var rest := fields[1..];
      var d := map[fields[0].0 := fields[0].1] + Dict(rest);
      NamesCons(fields);
      forall i | 0 <= i < |fields| && LastWithName(fields, i) ensures d[fields[i].0] == fields[i].1 {
        LastWithNameCons(fields, i);
      }
      d
  }

  lemma NamesCons(fields: seq<(string, Value)>)
    requires fields != []
    ensures Names(fields) == {fields[0].0} + Names(fields[1..])
  {
    var rest := fields[1..];
    forall name | name in Names(fields) ensures name in {fields[0].0} + Names(rest) {
      var i :| 0 <= i < |fields| && fields[i].0 == name;
      if i > 0 { assert rest[i - 1].0 == name; }
    }
    forall name | name in Names(rest) ensures name in Names(fields) {
      var i :| 0 <= i < |rest| && rest[i].0 == name;
      assert fields[i + 1].0 == name;
    }
  }

  /** The last field with its name is the first field, or the last with its name in the rest. */
  lemma LastWithNameCons(fields: seq<(string, Value)>, i: nat)
    requires LastWithName(fields, i)
    ensures i == 0 ==> fields[0].0 !in Names(fields[1..])
    ensures i > 0 ==> LastWithName(fields[1..], i - 1) && fields[1..][i - 1] == fields[i]
  {
  }
}
