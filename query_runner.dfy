/** Turns a query and the incoming request into the parameters of a search
    call: runs the facet callbacks, reads the page and the full-text term
    from the request, renders the query and adds the paging entries. The
    call itself is not part of this model. */
module Runner {
  import opened Wrappers
  import opened Php
  import opened Lucene
  import opened Aggregations
  import opened Queries

  /** The request parameter read as the full-text term by default. */
  const PARAM_FULLTEXT_QUERY := "s"
  /** The request parameter read as the page by default. */
  const PARAM_PAGE := "page"
  /** The default roaming and fuzziness of the full-text term. */
  const DEFAULT_ROAMING: real := 0.8
  /** The default page size. */
  const DEFAULT_LIMIT := 100

  /** The error for a runner without an index. */
  const NoIndex := RuntimeException("You must set an index")

  /** `getQueryParam($request, $name, $default)`: the parameter when the key
      exists (even holding null), the default otherwise. */
  function GetQueryParam(request: Request, name: string, default: Value): (r: Value)
    ensures ArrayKey(name) in Keys(request) ==> (ArrayKey(name), r) in request
    ensures ArrayKey(name) !in Keys(request) ==> r == default
  {
    LookupFound(request, ArrayKey(name));
    match Lookup(request, ArrayKey(name))
    case Some(v) => v
    case None => default
  }

  /** `getPageFromRequest($request)`: the page parameter, 0 when absent,
      plus the page delta; an array parameter cannot be added to. */
  function PageFromRequest(request: Request, pageParameterName: string, pageDelta: int): (r: Result<int, Exception>)
    ensures r.Err? <==> GetQueryParam(request, pageParameterName, Int(0)).Arr?
    ensures ArrayKey(pageParameterName) !in Keys(request) ==> r == Ok(pageDelta)
  {
    match ToNumber(GetQueryParam(request, pageParameterName, Int(0)))
    case Err(e) => Err(e)
    case Ok(n) => Ok(n + pageDelta)
  }

  /** The offset of a page: `max([0, $page - 1]) * $limit`. */
  function Offset(page: int, limit: int): int {
    (if page - 1 > 0 then page - 1 else 0) * limit
  }

  /** `size` when the limit is not empty, then `from` when the page is not
      zero either. */
  function Paging(data: Entries, limit: Value, page: int): Result<Entries, Exception> {
    if !Truthy(limit) then Ok(data)
    else
      var withSize := Put(data, StrKey("size"), Int(ToInt(limit)));
      if page == 0 then Ok(withSize)
      else
        match ToNumber(limit)
        case Err(e) => Err(e)
        case Ok(l) => Ok(Put(withSize, StrKey("from"), Int(Offset(page, l))))
  }

  /** The search parameters for a rendered body. */
  function Assemble(index: Value, body: Entries, limit: Value, page: int): Result<Entries, Exception> {
    Paging([(StrKey("index"), index), (StrKey("type"), Str("node")), (StrKey("body"), Arr(body))], limit, page)
  }

  /** The facet callbacks of `aggs` applied in order. */
  function ApplyAll(aggs: seq<Aggregation>, c: Clauses, request: Request): Clauses
    reads aggs
    decreases |aggs|
  {
    if aggs == [] then c
    else
      var n := |aggs| - 1;
      aggs[n].Apply(ApplyAll(aggs[..n], c, request), request)
  }

  /** Aggregations without callbacks leave the clauses alone. */
  lemma {:induction false} NoCallbacks(aggs: seq<Aggregation>, c: Clauses, request: Request)
    requires forall i :: 0 <= i < |aggs| ==> aggs[i].callback.None?
    ensures ApplyAll(aggs, c, request) == c
    decreases |aggs|
  {
    if aggs != [] {
      NoCallbacks(aggs[..|aggs| - 1], c, request);
    }
  }

  /** The search parameters: index, type `node` and body first, then `size`
      exactly when the limit is not empty, then `from` when the page is not
      zero either; only an array limit that must be multiplied fails. */
  lemma PagingShape(index: Value, body: Entries, limit: Value, page: int)
    ensures var data := [(StrKey("index"), index), (StrKey("type"), Str("node")), (StrKey("body"), Arr(body))];
      && (Assemble(index, body, limit, page).Err? <==> Truthy(limit) && page != 0 && limit.Arr?)
      && (Assemble(index, body, limit, page).Ok? ==>
            Assemble(index, body, limit, page).value
            == data
               + (if Truthy(limit) then [(StrKey("size"), Int(ToInt(limit)))] else [])
               + (if Truthy(limit) && page != 0 then [(StrKey("from"), Int(Offset(page, ToInt(limit))))] else []))
  {
    var data := [(StrKey("index"), index), (StrKey("type"), Str("node")), (StrKey("body"), Arr(body))];
    assert Keys(data) == [StrKey("index"), StrKey("type"), StrKey("body")];
    if Truthy(limit) {
      var withSize := Put(data, StrKey("size"), Int(ToInt(limit)));
      PutNew(data, StrKey("size"), Int(ToInt(limit)));
      assert Keys(withSize) == [StrKey("index"), StrKey("type"), StrKey("body"), StrKey("size")];
      PutNew(withSize, StrKey("from"), Int(Offset(page, ToInt(limit))));
    }
  }

  /** Page 3 of the request with the default delta and a limit of 20 starts
      at offset 60. */
  lemma ThirdPage(index: Value, body: Entries)
    ensures PageFromRequest([(StrKey("page"), Int(3))], PARAM_PAGE, 1) == Ok(4)
    ensures Assemble(index, body, Int(20), 4) == Ok([
      (StrKey("index"), index), (StrKey("type"), Str("node")), (StrKey("body"), Arr(body)),
      (StrKey("size"), Int(20)), (StrKey("from"), Int(60))])
  {
    PagingShape(index, body, Int(20), 4);
    assert ArrayKey(PARAM_PAGE) == StrKey("page");
    assert Offset(4, 20) == 60;
    var a := Assemble(index, body, Int(20), 4);
    assert a.Ok?;
    assert a.value == [(StrKey("index"), index), (StrKey("type"), Str("node")), (StrKey("body"), Arr(body))]
      + [(StrKey("size"), Int(20))] + [(StrKey("from"), Int(60))];
    assert [(StrKey("index"), index), (StrKey("type"), Str("node")), (StrKey("body"), Arr(body))]
      + [(StrKey("size"), Int(20))] + [(StrKey("from"), Int(60))]
      == [(StrKey("index"), index), (StrKey("type"), Str("node")), (StrKey("body"), Arr(body)),
          (StrKey("size"), Int(20)), (StrKey("from"), Int(60))];
  }

  /** Without a page parameter the default delta selects page 1, which
      starts at offset 0. */
  lemma FirstPage(request: Request, index: Value, body: Entries, limit: int)
    requires StrKey("page") !in Keys(request) && limit != 0
    ensures PageFromRequest(request, PARAM_PAGE, 1) == Ok(1)
    ensures Assemble(index, body, Int(limit), 1) == Ok([
      (StrKey("index"), index), (StrKey("type"), Str("node")), (StrKey("body"), Arr(body)),
      (StrKey("size"), Int(limit)), (StrKey("from"), Int(0))])
  {
    assert ArrayKey(PARAM_PAGE) == StrKey("page");
    PagingShape(index, body, Int(limit), 1);
    assert Offset(1, limit) == 0;
    var a := Assemble(index, body, Int(limit), 1);
    assert a.Ok?;
    assert a.value == [(StrKey("index"), index), (StrKey("type"), Str("node")), (StrKey("body"), Arr(body))]
      + [(StrKey("size"), Int(limit))] + [(StrKey("from"), Int(0))];
    assert [(StrKey("index"), index), (StrKey("type"), Str("node")), (StrKey("body"), Arr(body))]
      + [(StrKey("size"), Int(limit))] + [(StrKey("from"), Int(0))]
      == [(StrKey("index"), index), (StrKey("type"), Str("node")), (StrKey("body"), Arr(body)),
          (StrKey("size"), Int(limit)), (StrKey("from"), Int(0))];
  }

  class QueryRunner {
    var index: Value
    var limit: Value
    var page: Value
    var fulltextParameterName: string
    var fulltextRoaming: real
    var fulltextField: Value
    var pageParameterName: string
    var pageDelta: int

    /** `new QueryRunner()`: no index, a limit of 100, page 1, the `s` and
        `page` parameters, a roaming of 0.8 and a page delta of 1. */
    constructor ()
      ensures index == Null && limit == Int(DEFAULT_LIMIT) && page == Int(1)
      ensures fulltextParameterName == PARAM_FULLTEXT_QUERY && fulltextRoaming == DEFAULT_ROAMING
      ensures fulltextField == Null && pageParameterName == PARAM_PAGE && pageDelta == 1
    {
      index := Null;
      limit := Int(DEFAULT_LIMIT);
      page := Int(1);
      fulltextParameterName := PARAM_FULLTEXT_QUERY;
      fulltextRoaming := DEFAULT_ROAMING;
      fulltextField := Null;
      pageParameterName := PARAM_PAGE;
      pageDelta := 1;
    }

    method SetLimit(limit: Value)
      modifies this`limit
      ensures this.limit == limit
    {
      this.limit := limit;
    }

    method SetPage(page: Value)
      modifies this`page
      ensures this.page == page
    {
      this.page := page;
    }

    method SetIndex(index: Value)
      modifies this`index
      ensures this.index == index
    {
      this.index := index;
    }

    method SetFulltextParameterName(name: string)
      modifies this`fulltextParameterName
      ensures fulltextParameterName == name
    {
      fulltextParameterName := name;
    }

    method SetFulltextRoaming(value: real)
      modifies this`fulltextRoaming
      ensures fulltextRoaming == value
    {
      fulltextRoaming := value;
    }

    method SetFulltextField(field: Value)
      modifies this`fulltextField
      ensures fulltextField == field
    {
      fulltextField := field;
    }

    /** `setPageDelta($value)` stores `(int)$value`. */
    method SetPageDelta(value: Value)
      modifies this`pageDelta
      ensures pageDelta == ToInt(value)
    {
      pageDelta := ToInt(value);
    }

    method SetPageParameter(name: string)
      modifies this`pageParameterName
      ensures pageParameterName == name
    {
      pageParameterName := name;
    }

    /** The clauses after the full-text step of `prepare`: the term is
        matched on the main clause only when the request's value is truthy. */
    function WithTerm(c: Clauses, request: Request, matchTerm: MatchTerm): (r: Clauses)
      reads this`fulltextParameterName, this`fulltextField, this`fulltextRoaming
      ensures r.filter == c.filter && r.postFilter == c.postFilter
      ensures !Truthy(GetQueryParam(request, fulltextParameterName, Null)) ==> r == c
    {
      var value := GetQueryParam(request, fulltextParameterName, Null);
      if Truthy(value)
      then c.(query := matchTerm(c.query, TermMatch(fulltextField, value, Null, fulltextRoaming)))
      else c
    }

    /** The facet loop of `toArray`: every top-level aggregation's `apply`,
        in order. */
    method ApplyFacets(query: Query, request: Request)
      requires query.Valid()
      modifies query`clauses
      ensures query.Valid()
      ensures query.clauses == ApplyAll(query.aggregations, old(query.clauses), request)
    {
      var aggs := query.aggregations;
      var i := 0;
      while i < |aggs|
        invariant 0 <= i <= |aggs|
        invariant query.aggregations == aggs && query.Valid()
        invariant query.clauses == ApplyAll(aggs[..i], old(query.clauses), request)
      {
        assert aggs[..i + 1][..i] == aggs[..i];
        query.clauses := aggs[i].Apply(query.clauses, request);
        i := i + 1;
      }
      assert aggs[..i] == aggs;
    }

    /** `prepare($query, $request)`: the page from the request becomes the
        runner's page, then the full-text term is matched. */
    method Prepare(query: Query, request: Request, matchTerm: MatchTerm) returns (o: Outcome<Exception>)
      requires query.Valid()
      modifies this`page, query`clauses
      ensures query.Valid()
      ensures var p := PageFromRequest(request, pageParameterName, pageDelta);
        && (p.Err? ==> o == Fail(p.error) && page == old(page) && query.clauses == old(query.clauses))
        && (p.Ok? ==> o == Pass && page == Int(p.value) && query.clauses == WithTerm(old(query.clauses), request, matchTerm))
    {
      var p := PageFromRequest(request, pageParameterName, pageDelta);
      if p.Err? {
        return Fail(p.error);
      }
      SetPage(Int(p.value));
      var value := GetQueryParam(request, fulltextParameterName, Null);
      if Truthy(value) {
        query.clauses := query.clauses.(query := matchTerm(query.clauses.query, TermMatch(fulltextField, value, Null, fulltextRoaming)));
      }
      o := Pass;
    }

    /** `toArray($query, $request)`: refuses a runner without an index before
        touching anything; otherwise runs the facet callbacks, then
        `prepare`, then renders the query and adds the paging entries. */
    method ToArray(query: Query, request: Request, matchTerm: MatchTerm) returns (r: Result<Entries, Exception>)
      requires query.Valid()
      modifies this`page, query`clauses
      ensures query.Valid()
      ensures !Truthy(index) ==> r == Err(NoIndex) && page == old(page) && query.clauses == old(query.clauses)
      ensures Truthy(index) ==>
        var faceted := ApplyAll(query.aggregations, old(query.clauses), request);
        var p := PageFromRequest(request, pageParameterName, pageDelta);
        && (p.Err? ==> r == Err(p.error) && page == old(page) && query.clauses == faceted)
        && (p.Ok? ==> page == Int(p.value) && query.clauses == WithTerm(faceted, request, matchTerm)
                      && r == Assemble(index, query.Body([]), limit, p.value))
    {
      if !Truthy(index) {
        return Err(NoIndex);
      }
      r := Search(query, request, matchTerm);
    }

    /** What `toArray` does once the index is known: facets, `prepare`,
        then the rendered body with its paging entries. */
    method Search(query: Query, request: Request, matchTerm: MatchTerm) returns (r: Result<Entries, Exception>)
      requires query.Valid()
      modifies this`page, query`clauses
      ensures query.Valid()
      ensures var faceted := ApplyAll(query.aggregations, old(query.clauses), request);
        var p := PageFromRequest(request, pageParameterName, pageDelta);
        && (p.Err? ==> r == Err(p.error) && page == old(page) && query.clauses == faceted)
        && (p.Ok? ==> page == Int(p.value) && query.clauses == WithTerm(faceted, request, matchTerm)
                      && r == Assemble(index, query.Body([]), limit, p.value))
    {
      ApplyFacets(query, request);
      ghost var faceted := query.clauses;
      var prepared := Prepare(query, request, matchTerm);
      ghost var p := PageFromRequest(request, pageParameterName, pageDelta);
      assert faceted == ApplyAll(query.aggregations, old(query.clauses), request);
      if prepared.Fail? {
        return Err(prepared.error);
      }
      var body := query.ToArray();
      r := AddPaging(body);
    }

    /** The last step of `toArray`: index, type and body, then `size` when
        the limit is not empty, then `from` when the page is not empty
        either. */
    method AddPaging(body: Entries) returns (r: Result<Entries, Exception>)
      requires page.Int?
      ensures r == Assemble(index, body, limit, page.i)
    {
      var d := [(StrKey("index"), index), (StrKey("type"), Str("node")), (StrKey("body"), Arr(body))];
      if Truthy(limit) {
        d := Put(d, StrKey("size"), Int(ToInt(limit)));
        if Truthy(page) {
          var l := ToNumber(limit);
          if l.Err? {
            return Err(l.error);
          }
          d := Put(d, StrKey("from"), Int(Offset(page.i, l.value)));
        }
      }
      r := Ok(d);
    }
  }
}
