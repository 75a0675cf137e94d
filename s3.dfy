/**
 * The storage side shared by the copy and delete workers: a bucket as a map from key to the
 * head-object response of that key, head requests that may fail with an error code, and the
 * destination bucket as an object that records the write requests it receives.
 */
module S3 {
  import opened Wrappers

  type Key = string

  /** A field of a head-object response: a plain value, or the user metadata dictionary. */
  datatype Attr = Text(text: string) | Pairs(pairs: map<string, string>)

  /** A head-object response, field name to value. */
  type Response = map<string, Attr>

  const ETagField := "ETag"
  const RedirectField := "WebsiteRedirectLocation"

  /** The error code of a head request on a missing key. */
  const NotFound := 404

  /** An injected head failure: any error code other than "not found". */
  type FaultCode = c: int | c != NotFound witness 500

  /** The outcome of `head_object`: the response, or the error code of the raised `ClientError`. */
  datatype Head = Found(response: Response) | Failed(code: int)

  /** `head_object` on a bucket whose requests for the keys in `faults` fail with the given code. */
  function HeadObject(objects: map<Key, Response>, faults: map<Key, FaultCode>, k: Key): (h: Head)
    ensures h.Found? <==> k !in faults && k in objects
    ensures h.Found? ==> h.response == objects[k]
    ensures h == Failed(NotFound) <==> k !in faults && k !in objects
  {
    if k in faults then Failed(faults[k]) else if k in objects then Found(objects[k]) else Failed(NotFound)
  }

  /** The object `put_object(Key=k, WebsiteRedirectLocation=target)` creates: a redirect and nothing else. */
  function RedirectObject(target: Attr): Response {
    map[RedirectField := target]
  }

  /** A write request sent to the destination bucket. */
  datatype Request = PutRequest(key: Key, target: Attr) | CopyRequest(key: Key) | DeleteRequest(key: Key)

  function RequestKeys(requests: seq<Request>): (keys: seq<Key>)
    ensures |keys| == |requests|
    ensures forall i :: 0 <= i < |requests| ==> keys[i] == requests[i].key
  {
    seq(|requests|, i requires 0 <= i < |requests| => requests[i].key)
  }

  /** A key whose processing raised, with the error code. */
  datatype KeyFailure = KeyFailure(key: Key, code: int)

  /**
   * A worker pool run over a queue, one key at a time: the destination objects and its request
   * log, the failures so far, the worker threads still alive (a raise ends its thread) and the
   * keys left in the queue once no worker is alive.
   */
  datatype PoolState = PoolState(
    objects: map<Key, Response>,
    requests: seq<Request>,
    failures: seq<KeyFailure>,
    workers: nat,
    unprocessed: seq<Key>)

  function Start(objects: map<Key, Response>, requests: seq<Request>, workers: nat): PoolState {
    PoolState(objects, requests, [], workers, [])
  }

  /** The destination bucket, written through `put_object`, `copy_object` and `delete_object`. */
  class Bucket {
    var objects: map<Key, Response>
    var requests: seq<Request>

    constructor (objects: map<Key, Response>)
      ensures this.objects == objects && requests == []
    {
      this.objects := objects;
      requests := [];
    }

    function Head(faults: map<Key, FaultCode>, k: Key): Head
      reads this
    {
      HeadObject(objects, faults, k)
    }

    /** `put_object(Key=k, WebsiteRedirectLocation=target)` */
    method PutObject(k: Key, target: Attr)
      modifies this
      ensures objects == old(objects)[k := RedirectObject(target)]
      ensures requests == old(requests) + [PutRequest(k, target)]
    {
      objects := objects[k := RedirectObject(target)];
      requests := requests + [PutRequest(k, target)];
    }

    /** `copy_object` of key `k` whose source head response is `source`: the copy carries it over. */
    method CopyObject(k: Key, source: Response)
      modifies this
      ensures objects == old(objects)[k := source]
      ensures requests == old(requests) + [CopyRequest(k)]
    {
      objects := objects[k := source];
      requests := requests + [CopyRequest(k)];
    }

    /** `delete_object(Key=k)`; deleting a missing key succeeds and changes nothing. */
    method DeleteObject(k: Key)
      modifies this
      ensures objects == old(objects) - {k}
      ensures requests == old(requests) + [DeleteRequest(k)]
    {
      objects := objects - {k};
      requests := requests + [DeleteRequest(k)];
    }
  }
}
