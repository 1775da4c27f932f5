/** A search response: its raw body, the total hit count, the maximum score
    and one document per hit. */
module Responses {
  import opened Wrappers
  import opened Php
  import opened Documents
  import PartialResponses

  datatype Response = Response(body: Entries, docCount: Option<int>, maxScore: Option<int>, documents: seq<Document>) {

    /** `get($name)` on the raw body. */
    function Get(name: string): (r: Value)
      ensures r != Null <==> IsSet(body, ArrayKey(name))
      ensures r != Null ==> (ArrayKey(name), r) in body
    {
      PartialResponses.Get(body, name)
    }

    /** `getDocCount()`: the parsed total, or the body's own `doc_count`
        when no total was parsed. */
    function GetDocCount(): (r: Value)
      ensures docCount.Some? ==> r == Int(docCount.value)
      ensures docCount.None? ==> r == Get("doc_count")
    {
      if docCount.None? then Get("doc_count") else Int(docCount.value)
    }

    /** `getMaxScore()`: null when no maximum score was parsed. */
    function GetMaxScore(): (r: Value)
      ensures r != Null <==> maxScore.Some?
      ensures maxScore.Some? ==> r == Int(maxScore.value)
    {
      if maxScore.Some? then Int(maxScore.value) else Null
    }

    /** `hasHits()` */
    predicate HasHits() {
      documents != []
    }
  }

  /** `$body['hits']` as `isset` sees it. */
  function Hits(body: Entries): Value {
    IssetOr(body, StrKey("hits"), Null)
  }

  /** `(int)$hits[$k]` under `isset($hits[$k])`. */
  function CountIfSet(hits: Value, k: Key): (r: Option<int>)
    ensures r.Some? <==> IsSetIn(hits, k)
    ensures r.Some? ==> hits.Arr? && r.value == ToInt(Lookup(hits.entries, k).value)
  {
    if IsSetIn(hits, k) then Some(ToInt(Lookup(hits.entries, k).value)) else None
  }

  /** The elements `parseHits` turns into documents: those of `hits.hits`
      when it is set. */
  function HitList(body: Entries): seq<Value> {
    var hits := Hits(body);
    if IsSetIn(hits, StrKey("hits")) then Elements(Lookup(hits.entries, StrKey("hits")).value) else []
  }

  /** `new Document($hit)` */
  function DocumentOf(hit: Entries): Result<Document, Exception> {
    Ok(FromHit(hit))
  }

  /** The error `new Document($hit)` raises for a hit that is not an array. */
  const HitNotArray := TypeError("Document::__construct() expects an array")

  /** The response the constructor builds from a raw body. */
  function Parse(body: Entries): Result<Response, Exception> {
    var hits := Hits(body);
    match MapArrays(HitList(body), DocumentOf, HitNotArray)
    case Err(e) => Err(e)
    case Ok(docs) => Ok(Response(body, CountIfSet(hits, StrKey("total")), CountIfSet(hits, StrKey("max_score")), docs))
  }

  /** `new Response($body)`, which runs `parseHits($body)`. */
  method New(body: Entries) returns (r: Result<Response, Exception>)
    ensures r == Parse(body)
  {
    var hits := Hits(body);
    var docCount: Option<int> := None;
    var maxScore: Option<int> := None;
    if IsSetIn(hits, StrKey("total")) {
      docCount := Some(ToInt(Lookup(hits.entries, StrKey("total")).value));
    }
    if IsSetIn(hits, StrKey("max_score")) {
      maxScore := Some(ToInt(Lookup(hits.entries, StrKey("max_score")).value));
    }
    var documents: seq<Document> := [];
    if IsSetIn(hits, StrKey("hits")) {
      var items := Elements(Lookup(hits.entries, StrKey("hits")).value);
      assert items == HitList(body);
      assert items[0..] == items;
      PrependEmpty(MapArrays(items, DocumentOf, HitNotArray));
      var i := 0;
      while i < |items|
        invariant 0 <= i <= |items|
        invariant Prepend(documents, MapArrays(items[i..], DocumentOf, HitNotArray)) == MapArrays(items, DocumentOf, HitNotArray)
      {
        MapArraysStep(items, DocumentOf, HitNotArray, documents, i);
        if !items[i].Arr? {
          return Err(HitNotArray);
        }
        documents := documents + [FromHit(items[i].entries)];
        i := i + 1;
      }
      PrependDone(documents, items, DocumentOf, HitNotArray);
    }
    r := Ok(Response(body, docCount, maxScore, documents));
  }

  /** Parsing succeeds exactly when every hit is an array, and then there is
      one document per hit, in order. */
  lemma ParsedDocuments(body: Entries)
    ensures Parse(body).Ok? <==> forall i :: 0 <= i < |HitList(body)| ==> HitList(body)[i].Arr?
    ensures Parse(body).Ok? ==>
      var docs := Parse(body).value.documents;
      |docs| == |HitList(body)| && forall i :: 0 <= i < |docs| ==> docs[i] == FromHit(HitList(body)[i].entries)
  {
    MapArraysOk(HitList(body), DocumentOf, HitNotArray);
  }

  /** `hasHits()` holds exactly when `hits.hits` has elements. */
  lemma HasHitsIff(body: Entries)
    requires Parse(body).Ok?
    ensures Parse(body).value.HasHits() <==> HitList(body) != []
  {
    ParsedDocuments(body);
  }

  /** The total count is the int cast of `hits.total` when that is set, and
      `getDocCount()` falls back to `doc_count` otherwise. */
  lemma DocCount(body: Entries)
    requires Parse(body).Ok?
    ensures var hits := Hits(body);
      && (IsSetIn(hits, StrKey("total")) ==>
            Parse(body).value.GetDocCount() == Int(ToInt(Lookup(hits.entries, StrKey("total")).value)))
      && (!IsSetIn(hits, StrKey("total")) ==>
            Parse(body).value.GetDocCount() == PartialResponses.Get(body, "doc_count"))
  {
  }

  /** The maximum score is the int cast of `hits.max_score` when that is
      set, and null otherwise. */
  lemma MaxScore(body: Entries)
    requires Parse(body).Ok?
    ensures var hits := Hits(body);
      && (IsSetIn(hits, StrKey("max_score")) ==>
            Parse(body).value.GetMaxScore() == Int(ToInt(Lookup(hits.entries, StrKey("max_score")).value)))
      && (!IsSetIn(hits, StrKey("max_score")) ==> Parse(body).value.GetMaxScore() == Null)
  {
  }

  /** A body without hits gives an empty response that keeps the body. */
  lemma NoHits(body: Entries)
    requires !IsSet(body, StrKey("hits"))
    ensures Parse(body) == Ok(Response(body, None, None, []))
  {
  }
}
