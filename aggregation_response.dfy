/** The responses of aggregations: the lenient `AggregationResponse`, which
    wraps each element of `buckets` in a `Bucket`, and the strict
    `BucketAggregationResponse`, which refuses a body without `buckets` and
    builds one `AggregationResponse` per element. */
module AggregationResponses {
  import opened Wrappers
  import opened Php
  import opened Buckets
  import PartialResponses

  datatype AggregationResponse = AggregationResponse(aggregationName: string, body: Entries, buckets: seq<Bucket>) {

    /** `get($name)` on the raw body. */
    function Get(name: string): (r: Value)
      ensures r != Null <==> IsSet(body, ArrayKey(name))
      ensures r != Null ==> (ArrayKey(name), r) in body
    {
      PartialResponses.Get(body, name)
    }

    /** `hasBuckets()` */
    predicate HasBuckets() {
      buckets != []
    }
  }

  /** The elements `parseBuckets` visits: none when `empty($body['buckets'])`. */
  function BucketItems(body: Entries): seq<Value> {
    var b := IssetOr(body, StrKey("buckets"), Null);
    if !Truthy(b) then [] else Elements(b)
  }

  /** `new Bucket($data)` */
  function BucketOf(data: Entries): Result<Bucket, Exception> {
    Ok(Bucket(data))
  }

  /** The error `new Bucket($data)` raises for an element that is not an
      array. */
  const BucketNotArray := TypeError("Bucket::__construct() expects an array")

  /** `parseBuckets($body)` */
  method ParseBuckets(body: Entries) returns (r: Result<seq<Bucket>, Exception>)
    ensures r == MapArrays(BucketItems(body), BucketOf, BucketNotArray)
  {
    var ret: seq<Bucket> := [];
    var b := IssetOr(body, StrKey("buckets"), Null);
    if !Truthy(b) {
      return Ok(ret);
    }
    var items := Elements(b);
    assert items[0..] == items;
    PrependEmpty(MapArrays(items, BucketOf, BucketNotArray));
    var i := 0;
    while i < |items|
      invariant 0 <= i <= |items|
      invariant Prepend(ret, MapArrays(items[i..], BucketOf, BucketNotArray)) == MapArrays(items, BucketOf, BucketNotArray)
    {
      MapArraysStep(items, BucketOf, BucketNotArray, ret, i);
      if !items[i].Arr? {
        return Err(BucketNotArray);
      }
      ret := ret + [Bucket(items[i].entries)];
      i := i + 1;
    }
    PrependDone(ret, items, BucketOf, BucketNotArray);
    r := Ok(ret);
  }

  /** The response `new AggregationResponse($name, $body)` builds. */
  function Build(name: string, body: Entries): Result<AggregationResponse, Exception> {
    match MapArrays(BucketItems(body), BucketOf, BucketNotArray)
    case Err(e) => Err(e)
    case Ok(buckets) => Ok(AggregationResponse(name, body, buckets))
  }

  /** `new AggregationResponse($name, $body)` */
  method New(name: string, body: Entries) returns (r: Result<AggregationResponse, Exception>)
    ensures r == Build(name, body)
  {
    var buckets := ParseBuckets(body);
    if buckets.Err? {
      return Err(buckets.error);
    }
    r := Ok(AggregationResponse(name, body, buckets.value));
  }

  /** The name and body are kept as given, and there is one bucket per
      element of `buckets`, wrapping that element, in order; the only error
      is an element that is not an array. */
  lemma BuildBuckets(name: string, body: Entries)
    ensures Build(name, body).Ok? <==> forall i :: 0 <= i < |BucketItems(body)| ==> BucketItems(body)[i].Arr?
    ensures Build(name, body).Ok? ==>
      var r := Build(name, body).value;
      && r.aggregationName == name && r.body == body
      && |r.buckets| == |BucketItems(body)|
      && forall i :: 0 <= i < |r.buckets| ==> r.buckets[i] == Bucket(BucketItems(body)[i].entries)
  {
    MapArraysOk(BucketItems(body), BucketOf, BucketNotArray);
  }

  /** A missing or empty `buckets` entry is no error: there are no buckets. */
  lemma NoBuckets(name: string, body: Entries)
    requires !IsSet(body, StrKey("buckets")) || Lookup(body, StrKey("buckets")) == Some(Arr([]))
    ensures Build(name, body) == Ok(AggregationResponse(name, body, []))
    ensures !Build(name, body).value.HasBuckets()
  {
  }

  // ---------------------------------------------------------------------
  // Bucket aggregation responses

  /** `buckets` stays null when no element was appended. */
  datatype BucketAggregationResponse = BucketAggregationResponse(aggregationName: string, buckets: Option<seq<AggregationResponse>>) {

    /** `hasBuckets()`: `!empty($this->buckets)` */
    predicate HasBuckets() {
      buckets.Some? && buckets.value != []
    }
  }

  /** The error for a body without `buckets`. */
  const NotBucketResponse := InvalidArgumentException("given response body is not a response bucket")

  /** The error `new AggregationResponse(..., $data)` raises for an element
      that is not an array. */
  const ResponseNotArray := TypeError("AggregationResponse::__construct() expects an array")

  /** `new AggregationResponse($name, $data)`, as a function of `$data`. */
  function ResponseOf(name: string): Entries -> Result<AggregationResponse, Exception> {
    data => Build(name, data)
  }

  /** The list `buckets` holds: null until something is appended. */
  function Listed(buckets: Option<seq<AggregationResponse>>): seq<AggregationResponse> {
    if buckets.Some? then buckets.value else []
  }

  /** The response `new BucketAggregationResponse($aggregation, $body)` builds. */
  function BuildBucketResponse(name: string, body: Entries): Result<BucketAggregationResponse, Exception> {
    if !IsSet(body, StrKey("buckets")) then Err(NotBucketResponse)
    else
      match MapArrays(Elements(Lookup(body, StrKey("buckets")).value), ResponseOf(name), ResponseNotArray)
      case Err(e) => Err(e)
      case Ok(rs) => Ok(BucketAggregationResponse(name, if rs == [] then None else Some(rs)))
  }

  /** `new BucketAggregationResponse($aggregation, $body)` for an aggregation
      named `name`. */
  method NewBucketResponse(name: string, body: Entries) returns (r: Result<BucketAggregationResponse, Exception>)
    ensures r == BuildBucketResponse(name, body)
  {
    if !IsSet(body, StrKey("buckets")) {
      return Err(NotBucketResponse);
    }
    var buckets: Option<seq<AggregationResponse>> := None;
    var items := Elements(Lookup(body, StrKey("buckets")).value);
    assert items[0..] == items;
    PrependEmpty(MapArrays(items, ResponseOf(name), ResponseNotArray));
    var i := 0;
    while i < |items|
      invariant 0 <= i <= |items|
      invariant buckets.Some? ==> buckets.value != []
      invariant Prepend(Listed(buckets), MapArrays(items[i..], ResponseOf(name), ResponseNotArray))
             == MapArrays(items, ResponseOf(name), ResponseNotArray)
    {
      MapArraysStep(items, ResponseOf(name), ResponseNotArray, Listed(buckets), i);
      if !items[i].Arr? {
        return Err(ResponseNotArray);
      }
      var response := New(name, items[i].entries);
      if response.Err? {
        return Err(response.error);
      }
      buckets := Some(Listed(buckets) + [response.value]);
      i := i + 1;
    }
    PrependDone(Listed(buckets), items, ResponseOf(name), ResponseNotArray);
    r := Ok(BucketAggregationResponse(name, buckets));
  }

  /** Every element is an array that builds a nested response. */
  predicate AllBuild(name: string, items: seq<Value>) {
    forall i :: 0 <= i < |items| ==> items[i].Arr? && Build(name, items[i].entries).Ok?
  }

  /** The only error a nested response raises is an element of its
      `buckets` that is not an array. */
  lemma BuildError(name: string, body: Entries)
    ensures Build(name, body).Err? ==> Build(name, body).error == BucketNotArray
  {
    MapArraysError(BucketItems(body), BucketOf, BucketNotArray, {BucketNotArray});
  }

  /** A body is refused as not a bucket response exactly when it has no
      `buckets`; with `buckets`, the build succeeds exactly when every
      element is an array that builds a nested response, and then every
      element is a nested response named after the aggregation, in order,
      and an empty list leaves `buckets` null. */
  lemma BucketResponseShape(name: string, body: Entries)
    ensures BuildBucketResponse(name, body) == Err(NotBucketResponse) <==> !IsSet(body, StrKey("buckets"))
    ensures IsSet(body, StrKey("buckets")) ==>
      (BuildBucketResponse(name, body).Ok? <==> AllBuild(name, Elements(Lookup(body, StrKey("buckets")).value)))
    ensures BuildBucketResponse(name, body).Ok? ==>
      var items := Elements(Lookup(body, StrKey("buckets")).value);
      var r := BuildBucketResponse(name, body).value;
      && r.aggregationName == name
      && (r.HasBuckets() <==> items != [])
      && |Listed(r.buckets)| == |items|
      && forall i :: 0 <= i < |items| ==>
           items[i].Arr? && Build(name, items[i].entries).Ok? && Listed(r.buckets)[i] == Build(name, items[i].entries).value
  {
    if IsSet(body, StrKey("buckets")) {
      var items := Elements(Lookup(body, StrKey("buckets")).value);
      MapArraysOk(items, ResponseOf(name), ResponseNotArray);
      forall i | 0 <= i < |items| && items[i].Arr? ensures ResponseOf(name)(items[i].entries) == Build(name, items[i].entries) { }
      forall d | ResponseOf(name)(d).Err? ensures ResponseOf(name)(d).error in {ResponseNotArray, BucketNotArray} {
        BuildError(name, d);
      }
      MapArraysError(items, ResponseOf(name), ResponseNotArray, {ResponseNotArray, BucketNotArray});
    }
  }
}
