/**
 * The bucket-location function: pick the bucket name out of the event, look up its location
 * constraint and turn the constraint into a region name.
 */
module GetBucketLocation {
  import opened Wrappers
  import opened Text
  import Json

  datatype Failure = AssertionFailed | NoFields

  /** The field name contains "bucket", ignoring case. */
  predicate NamesBucket(name: string) {
    Contains(Lower(name), "bucket")
  }

  /** The index of the first field whose name contains "bucket", if any. */
  function FirstBucketField(fields: seq<(string, Json.Value)>, from: nat): (i: Option<nat>)
    requires from <= |fields|
    ensures i.Some? ==> from <= i.value < |fields| && NamesBucket(fields[i.value].0)
                        && forall j :: from <= j < i.value ==> !NamesBucket(fields[j].0)
    ensures i.None? ==> forall j :: from <= j < |fields| ==> !NamesBucket(fields[j].0)
    decreases |fields| - from
  {
    if from == |fields| then None
    else if NamesBucket(fields[from].0) then Some(from)
    else FirstBucketField(fields, from + 1)
  }

  /** The field the handler takes the bucket from: the first naming a bucket, else the first field. */
  function BucketField(fields: seq<(string, Json.Value)>): (i: nat)
    requires |fields| > 0
    ensures i < |fields|
    ensures NamesBucket(fields[i].0) ==> forall j :: 0 <= j < i ==> !NamesBucket(fields[j].0)
    ensures !NamesBucket(fields[i].0) ==> i == 0 && forall j :: 0 <= j < |fields| ==> !NamesBucket(fields[j].0)
  {
    match FirstBucketField(fields, 0)
    case Some(i) => i
    case None => 0
  }

  /** The bucket name: a string event as it is, or the value of the chosen field of an object event. */
  function SelectBucket(event: Json.Value): (r: Result<string, Failure>)
    // the name must be a non-empty string
    ensures r.Success? ==> r.value != ""
    ensures event.Str? ==> r == if event.s != "" then Success(event.s) else Failure(AssertionFailed)
    // the chosen name is looked up in the event's dictionary, where its last occurrence wins
    ensures event.Object? && |event.fields| > 0 ==>
      var name := event.fields[BucketField(event.fields)].0;
      name in Json.Dict(event.fields) &&
      var v := Json.Dict(event.fields)[name];
      r == if v.Str? && v.s != "" then Success(v.s) else Failure(AssertionFailed)
    // an empty object has no first key
    ensures event.Object? && |event.fields| == 0 ==> r == Failure(NoFields)
    // any other event fails the type assertion
    ensures !event.Str? && !event.Object? ==> r == Failure(AssertionFailed)
  {
    match event
    case Str(s) => if s != "" then Success(s) else Failure(AssertionFailed)
    case Object(fields) =>
      if |fields| == 0 then Failure(NoFields)
      else
        var i := BucketField(fields);
        assert fields[i].0 in Json.Names(fields);
        var v := Json.Dict(fields)[fields[i].0];
        if v.Str? && v.s != "" then Success(v.s) else Failure(AssertionFailed)
    case _ => Failure(AssertionFailed)
  }

  /** A repeated bucket field gives the value of its last occurrence, as the event's dictionary holds it. */
  lemma SelectBucketRepeatedField()
    ensures SelectBucket(Json.Object([("bucket", Json.Str("a")), ("bucket", Json.Str("b"))])) == Success("b")
  {
    var fields := [("bucket", Json.Str("a")), ("bucket", Json.Str("b"))];
    assert NamesBucket(fields[0].0) by {
      assert OccursAt(Lower("bucket"), "bucket", 0);
    }
    assert Json.LastWithName(fields, 1);
  }

  /** The region name for a bucket's `LocationConstraint` (None when absent or null). */
  function Region(locationConstraint: Option<string>): (region: string)
    ensures locationConstraint.None? ==> region == "us-east-1"
    ensures locationConstraint == Some("EU") ==> region == "eu-west-1"
    ensures locationConstraint.Some? && locationConstraint.value != "EU" ==> region == locationConstraint.value
  {
    match locationConstraint
    case None => "us-east-1"
    case Some(c) => if c == "EU" then "eu-west-1" else c
  }

  /** The mapping never yields the legacy name and is a normal form: mapping a region again keeps it. */
  lemma RegionIsNormal(locationConstraint: Option<string>)
    ensures Region(locationConstraint) != "EU"
    ensures Region(Some(Region(locationConstraint))) == Region(locationConstraint)
  {
  }

  /** The `handler`, with `get_bucket_location` given as the constraint lookup. */
  function Handler(event: Json.Value, locationConstraintOf: string -> Option<string>): (r: Result<string, Failure>)
    ensures r.Success? <==> SelectBucket(event).Success?
    ensures r.Success? ==> r.value == Region(locationConstraintOf(SelectBucket(event).value))
  {
    match SelectBucket(event)
    case Success(bucket) => Success(Region(locationConstraintOf(bucket)))
    case Failure(e) => Failure(e)
  }
}
