/** A search query under construction: its three clauses, its sorts, the
    source fields to fetch, its top-level aggregations, and the search body
    it renders to. */
module Queries {
  import opened Wrappers
  import opened Php
  import opened Lucene
  import opened Sorts
  import opened Aggregations
  import ArrayUtil

  /** The `_source` fields to fetch: `false` once disabled, a list otherwise. */
  datatype SourceFields = Disabled | Fields(names: seq<Value>)

  /** What `addSourceFields($fields)` iterates: a list's values, or the one
      scalar. */
  function FieldItems(fields: Value): seq<Value> {
    if fields.Arr? then Values(fields.entries) else [fields]
  }

  /** The list `addSourceFields` starts from: the current one, or `[]` after
      `disableSource()`. */
  function Started(s: SourceFields): seq<Value> {
    if s.Fields? then s.names else []
  }

  /** `names` with each item of `items` that `in_array` does not find
      appended, in order; `in_array` compares loosely, so `'1e1'` is not
      added after `'10'`, nor `'1'` after `1`. */
  function AddNew(names: seq<Value>, items: seq<Value>): seq<Value>
    decreases |items|
  {
    if items == [] then names
    else
      var n := |items| - 1;
      var prev := AddNew(names, items[..n]);
      if InArray(items[n], prev) then prev else prev + [items[n]]
  }

  /** The existing names stay first, in their order. */
  lemma {:induction false} AddNewKeepsPrefix(names: seq<Value>, items: seq<Value>)
    ensures |names| <= |AddNew(names, items)| && AddNew(names, items)[..|names|] == names
    decreases |items|
  {
    if items != [] {
      var n := |items| - 1;
      AddNewKeepsPrefix(names, items[..n]);
      var prev := AddNew(names, items[..n]);
      assert (prev + [items[n]])[..|names|] == prev[..|names|];
    }
  }

  /** Afterwards only existing names and given items are listed, and
      `in_array` finds every given item. */
  lemma {:induction false} AddNewMembers(names: seq<Value>, items: seq<Value>)
    ensures forall x :: x in AddNew(names, items) ==> x in names || x in items
    ensures forall j :: 0 <= j < |items| ==> InArray(items[j], AddNew(names, items))
    decreases |items|
  {
    if items != [] {
      var n := |items| - 1;
      AddNewMembers(names, items[..n]);
      var prev := AddNew(names, items[..n]);
      var next := AddNew(names, items);
      assert items == items[..n] + [items[n]];
      forall j | 0 <= j < |items| ensures InArray(items[j], next) {
        if j < n {
          assert items[j] == items[..n][j];
          var i :| 0 <= i < |prev| && LooseEq(items[j], prev[i]);
          assert next[..|prev|] == prev;
          assert next[i] == prev[i];
        } else if !InArray(items[n], prev) {
          assert next[|prev|] == items[n];
        }
      }
    }
  }

  /** Every appended name differs, even loosely, from each name before it;
      in particular no name is listed twice. */
  lemma {:induction false} AddNewDistinct(names: seq<Value>, items: seq<Value>)
    ensures var r := AddNew(names, items);
      forall i, j :: 0 <= i < j < |r| && |names| <= j ==> !LooseEq(r[j], r[i])
    ensures Distinct(names) ==> Distinct(AddNew(names, items))
    decreases |items|
  {
    if items != [] {
      var n := |items| - 1;
      AddNewDistinct(names, items[..n]);
      AddNewKeepsPrefix(names, items[..n]);
      var prev := AddNew(names, items[..n]);
      if !InArray(items[n], prev) {
        var next := prev + [items[n]];
        forall i, j | 0 <= i < j < |next| && |names| <= j ensures !LooseEq(next[j], next[i]) {
          if j == |prev| { assert next[i] == prev[i]; }
        }
        if Distinct(names) {
          forall i, j | 0 <= i < j < |next| ensures next[i] != next[j] {
            if j == |prev| { assert next[i] == prev[i]; assert !LooseEq(next[j], next[i]); }
          }
        }
      }
    }
  }

  /** `['query_string' => ['query' => $text]]` */
  function QueryString(text: string): Value {
    Arr([(StrKey("query_string"), Arr([(StrKey("query"), Str(text))]))])
  }

  /** `['fquery' => ['query' => query_string($text), '_cache' => true]]` */
  function FQuery(text: string): Value {
    Arr([(StrKey("fquery"), Arr([(StrKey("query"), QueryString(text)), (StrKey("_cache"), Bool(true))]))])
  }

  /** The `query` part when neither the main query nor the filter has clauses. */
  const MatchAll: Entries := [(StrKey("query"), Arr([(StrKey("match_all"), Arr([]))]))]

  /** The `query` part of the body, by whether the main query and the filter
      are empty: `match_all` when both are, a `query_string` on the main
      query when only the filter is, a `constant_score` over the filter when
      only the main query is, and `filtered` when neither is. */
  function QueryPart(c: Clauses): (r: Entries)
    ensures Keys(r) == [StrKey("query")]
    ensures r == MatchAll <==> c.query.isEmpty && c.filter.isEmpty
  {
    if c.filter.isEmpty then
      if c.query.isEmpty then MatchAll
      else [(StrKey("query"), QueryString(c.query.rendered))]
    else
      if c.query.isEmpty then
        [(StrKey("query"), Arr([(StrKey("constant_score"), Arr([(StrKey("filter"), FQuery(c.filter.rendered))]))]))]
      else
        [(StrKey("query"), Arr([(StrKey("filtered"), Arr([
          (StrKey("query"), QueryString(c.query.rendered)),
          (StrKey("filter"), FQuery(c.filter.rendered))]))]))]
  }

  /** A sort in the `sort` list: the bare field name when it has no options,
      `[field => options]` otherwise. This is the reference definition that
      `SortList`, `ApplySorts` and `BodyShape` build on; its contract only
      names the two cases. */
  function SortEntry(s: Sort): (v: Value)
    reads s
    ensures s.ToArray() == [] ==> v == Str(s.field)
    ensures s.ToArray() != [] ==> v == Arr([(ArrayKey(s.field), Arr(s.ToArray()))])
  {
    var options := s.ToArray();
    if options == [] then Str(s.field) else Arr([(ArrayKey(s.field), Arr(options))])
  }

  /** The entries of the `sort` list, in insertion order. */
  function SortList(sorts: seq<Sort>): (r: seq<Value>)
    reads sorts
    ensures |r| == |sorts|
    ensures forall i :: 0 <= i < |sorts| ==> r[i] == SortEntry(sorts[i])
  {
    seq(|sorts|, i reads sorts requires 0 <= i < |sorts| => SortEntry(sorts[i]))
  }

  class Query {
    var clauses: Clauses
    var sorts: seq<Sort>
    var sourceFields: SourceFields
    var aggregations: seq<Aggregation>
    /** The aggregations at every depth. */
    ghost var Repr: set<Aggregation>

    /** The aggregations form well-formed trees with unique top-level
        names. */
    ghost predicate Valid()
      reads this, Repr
    {
      UniqueNames(aggregations) && AllValid(aggregations, Repr)
    }

    /** `new Query()`: three empty clauses and nothing else. */
    constructor ()
      ensures Valid()
      ensures clauses == Clauses(EmptyClause, EmptyClause, EmptyClause)
      ensures sorts == [] && sourceFields == Fields([]) && aggregations == [] && Repr == {}
    {
      clauses := Clauses(EmptyClause, EmptyClause, EmptyClause);
      sorts := [];
      sourceFields := Fields([]);
      aggregations := [];
      Repr := {};
    }

    /** `addSort($field = '_score', $order = null, $mode = null, $missing = null)`
        appends a new sort. */
    method AddSort(field: string := FIELD_SCORE, order: Value := Null, mode: Value := Null, missing: Value := Null)
      requires Valid()
      modifies this`sorts
      ensures Valid()
      ensures |sorts| == |old(sorts)| + 1 && sorts[..|old(sorts)|] == old(sorts)
      ensures var s := sorts[|old(sorts)|];
        fresh(s) && s.field == field && s.order == order && s.mode == mode && s.missing == missing
    {
      var s := new Sort(field, order, mode, missing);
      sorts := sorts + [s];
    }

    /** `addSourceFields($fields)`: each given name not yet listed is
        appended; after `disableSource()` the list starts again from `[]`. */
    method AddSourceFields(fields: Value)
      requires Valid()
      modifies this`sourceFields
      ensures Valid()
      ensures sourceFields == Fields(AddNew(Started(old(sourceFields)), FieldItems(fields)))
    {
      if !sourceFields.Fields? {
        sourceFields := Fields([]);
      }
      var items := FieldItems(fields);
      ghost var start := sourceFields.names;
      var i := 0;
      while i < |items|
        invariant 0 <= i <= |items|
        invariant sourceFields == Fields(AddNew(start, items[..i]))
      {
        assert items[..i + 1][..i] == items[..i];
        if !InArray(items[i], sourceFields.names) {
          sourceFields := Fields(sourceFields.names + [items[i]]);
        }
        i := i + 1;
      }
      assert items[..i] == items;
    }

    /** `disableSource()` */
    method DisableSource()
      requires Valid()
      modifies this`sourceFields
      ensures Valid() && sourceFields == Disabled
    {
      sourceFields := Disabled;
    }

    /** `hasAggregations()` */
    predicate HasAggregations()
      reads this
    {
      aggregations != []
    }

    /** `addAggregation($aggregation)`: a fresh name is appended; a name
        already present throws and leaves the aggregations as they were. */
    method AddAggregation(a: Aggregation) returns (o: Outcome<Exception>)
      requires Valid() && a.Valid()
      modifies this`aggregations, this`Repr
      ensures Valid()
      ensures o == if NameTaken(old(aggregations), a.name) then Fail(DuplicateName(a.name)) else Pass
      ensures aggregations == if o.Pass? then old(aggregations) + [a] else old(aggregations)
      ensures Repr == if o.Pass? then old(Repr) + {a} + a.Repr else old(Repr)
    {
      if NameTaken(aggregations, a.name) {
        return Fail(DuplicateName(a.name));
      }
      assert NameKeys(aggregations + [a]) == NameKeys(aggregations) + [ArrayKey(a.name)];
      aggregations := aggregations + [a];
      Repr := Repr + {a} + a.Repr;
      o := Pass;
    }

    /** `applySorts()`: a list with one entry per sort, in insertion order. */
    method ApplySorts() returns (r: Entries)
      ensures r == ListOf(SortList(sorts))
    {
      r := [];
      var i := 0;
      while i < |sorts|
        invariant 0 <= i <= |sorts|
        invariant r == ListOf(SortList(sorts)[..i])
      {
        var s := sorts[i];
        var options := s.ToArray();
        var entry := if options == [] then Str(s.field) else Arr([(ArrayKey(s.field), Arr(options))]);
        PushList(SortList(sorts)[..i], entry);
        assert SortList(sorts)[..i] + [entry] == SortList(sorts)[..i + 1];
        r := Push(r, entry);
        i := i + 1;
      }
      assert SortList(sorts)[..i] == SortList(sorts);
    }

    /** `applyAggregations()`: each top-level aggregation rendered under its
        name, in insertion order. */
    method ApplyAggregations() returns (r: Entries)
      requires Valid()
      ensures r == Named(aggregations, Repr)
    {
      r := [];
      var i := 0;
      while i < |aggregations|
        invariant 0 <= i <= |aggregations|
        invariant AllValid(aggregations[..i], Repr)
        invariant r == Named(aggregations[..i], Repr)
      {
        var a := aggregations[i];
        var sub := a.ToArray();
        AllValidPrefix(aggregations, Repr, i + 1);
        NamedKeys(aggregations[..i], Repr);
        UniquePrefix(aggregations, i);
        PutNew(r, ArrayKey(a.name), Arr(sub));
        assert aggregations[..i + 1][..i] == aggregations[..i];
        r := Put(r, ArrayKey(a.name), Arr(sub));
        i := i + 1;
      }
      assert aggregations[..i] == aggregations;
    }

    /** `toArray($overrides)` as a value: the query part, then `post_filter`
        when the post-filter is not empty, `sort` when there are sorts,
        `aggs` when there are aggregations, and the overrides merged in last
        when there are any. */
    ghost function Body(overrides: Entries): Entries
      reads this, sorts, Repr
      requires Valid()
    {
      var b0 := QueryPart(clauses);
      var b1 := if !clauses.postFilter.isEmpty
        then PutPath(b0, [StrKey("post_filter"), StrKey("query_string"), StrKey("query")], Str(clauses.postFilter.rendered))
        else b0;
      var b2 := if sorts != [] then Put(b1, StrKey("sort"), Arr(ListOf(SortList(sorts)))) else b1;
      var b3 := if HasAggregations() then Put(b2, StrKey("aggs"), Arr(Named(aggregations, Repr))) else b2;
      if overrides != [] then ArrayUtil.DeepMerge(b3, overrides) else b3
    }

    /** `toArray($overrides = [])`; the query itself is left untouched. */
    method ToArray(overrides: Entries := []) returns (r: Entries)
      requires Valid()
      ensures r == Body(overrides)
    {
      r := QueryPart(clauses);
      if !clauses.postFilter.isEmpty {
        r := PutPath(r, [StrKey("post_filter"), StrKey("query_string"), StrKey("query")], Str(clauses.postFilter.rendered));
      }
      if sorts != [] {
        var s := ApplySorts();
        r := Put(r, StrKey("sort"), Arr(s));
      }
      if HasAggregations() {
        var a := ApplyAggregations();
        r := Put(r, StrKey("aggs"), Arr(a));
      }
      if overrides != [] {
        r := ArrayUtil.Merge(r, overrides);
      }
    }

    /** The body without overrides: the `query` entry first, then
        `post_filter` exactly when the post-filter is not empty, `sort`
        exactly when there are sorts and `aggs` exactly when there are
        aggregations, in that order. */
    lemma BodyShape()
      requires Valid()
      ensures Body([]) == QueryPart(clauses)
        + (if !clauses.postFilter.isEmpty
           then [(StrKey("post_filter"), Arr([(StrKey("query_string"), Arr([(StrKey("query"), Str(clauses.postFilter.rendered))]))]))]
           else [])
        + (if sorts != [] then [(StrKey("sort"), Arr(ListOf(SortList(sorts))))] else [])
        + (if aggregations != [] then [(StrKey("aggs"), Arr(Named(aggregations, Repr)))] else [])
    {
      var path := [StrKey("post_filter"), StrKey("query_string"), StrKey("query")];
      var b0 := QueryPart(clauses);
      var b1 := if !clauses.postFilter.isEmpty then PutPath(b0, path, Str(clauses.postFilter.rendered)) else b0;
      if !clauses.postFilter.isEmpty {
        PutPathNew(b0, path, Str(clauses.postFilter.rendered));
        assert path[1..] == [StrKey("query_string"), StrKey("query")];
        assert path[1..][1..] == [StrKey("query")];
        assert path[1..][1..][1..] == [];
        var v := Str(clauses.postFilter.rendered);
        assert Nest([StrKey("query")], v) == Arr([(StrKey("query"), v)]) by {
          assert [StrKey("query")][1..] == [];
        }
        assert Nest(path[1..], v) == Arr([(StrKey("query_string"), Nest([StrKey("query")], v))]);
        assert Keys(b1) == [StrKey("query"), StrKey("post_filter")];
      }
      assert StrKey("sort") !in Keys(b1);
      var b2 := if sorts != [] then Put(b1, StrKey("sort"), Arr(ListOf(SortList(sorts)))) else b1;
      if sorts != [] {
        PutNew(b1, StrKey("sort"), Arr(ListOf(SortList(sorts))));
        PutKeys(b1, StrKey("sort"), Arr(ListOf(SortList(sorts))));
      }
      var pf := if !clauses.postFilter.isEmpty
        then [(StrKey("post_filter"), Arr([(StrKey("query_string"), Arr([(StrKey("query"), Str(clauses.postFilter.rendered))]))]))]
        else [];
      var sp := if sorts != [] then [(StrKey("sort"), Arr(ListOf(SortList(sorts))))] else [];
      assert b1 == b0 + pf;
      assert b2 == b0 + pf + sp;
      assert StrKey("aggs") !in Keys(b2);
      if aggregations != [] {
        PutNew(b2, StrKey("aggs"), Arr(Named(aggregations, Repr)));
      }
    }

    /** Overrides are merged over the body that has none, and no overrides
        leave it as it is. */
    lemma BodyOverrides(overrides: Entries)
      requires Valid()
      ensures Body(overrides) == ArrayUtil.DeepMerge(Body([]), overrides)
    {
      if overrides == [] {
        ArrayUtil.MergeEmptyOverride(Body([]));
      }
    }
  }

  /** The source fields of the library's admin-listing test: `_id`, then
      `_id`, `title` and `created`, gives each name once. */
  lemma SourceFieldsExample()
    ensures AddNew(AddNew([], FieldItems(Str("_id"))), [Str("_id"), Str("title"), Str("created")])
         == [Str("_id"), Str("title"), Str("created")]
  {
    var id, title, created := Str("_id"), Str("title"), Str("created");
    IdThenTitle();
    assert AddNew([], FieldItems(id)) == [id] by {
      AddNewSnoc([], [], id);
      assert [] + [id] == [id];
    }
    assert !InArray(created, [id, title]) by {
      WordNotNumeric("created");
      LooseStrings("created", "_id");
      LooseStrings("created", "title");
      assert !LooseEq(created, [id, title][0]) && !LooseEq(created, [id, title][1]);
    }
    AddNewSnoc([id], [id, title], created);
    assert [id, title] + [created] == [id, title, created];
  }

  /** `_id` is found again and `title` is added after it. */
  lemma IdThenTitle()
    ensures AddNew([Str("_id")], [Str("_id"), Str("title")]) == [Str("_id"), Str("title")]
  {
    var id, title := Str("_id"), Str("title");
    assert AddNew([id], [id]) == [id] by {
      AddNewSnoc([id], [], id);
      assert [] + [id] == [id];
      assert LooseEq(id, [id][0]);
    }
    assert !InArray(title, [id]) by {
      WordNotNumeric("title");
      LooseStrings("title", "_id");
      assert !LooseEq(title, [id][0]);
    }
    AddNewSnoc([id], [id], title);
    assert [id] + [title] == [id, title];
  }

  /** One more item is appended unless `in_array` finds it among the names
      so far. */
  lemma AddNewSnoc(names: seq<Value>, items: seq<Value>, x: Value)
    ensures AddNew(names, items + [x])
         == if InArray(x, AddNew(names, items)) then AddNew(names, items) else AddNew(names, items) + [x]
  {
    assert (items + [x])[..|items|] == items;
  }

  /** Two items from an empty list: the second is added unless `in_array`
      finds it next to the first. */
  lemma AddNewPair(x: Value, y: Value)
    ensures AddNew([], [x, y]) == if InArray(y, [x]) then [x] else [x, y]
  {
    assert AddNew([], [x]) == [x] by {
      assert [x][..0] == [];
      assert !InArray(x, []);
    }
    assert [x, y][..1] == [x];
  }

  /** `in_array` compares loosely: `'1e1'` after `'10'` is found and not
      added. */
  lemma LooseSourceFieldsNumeric()
    ensures AddNew([], [Str("10"), Str("1e1")]) == [Str("10")]
  {
    AddNewPair(Str("10"), Str("1e1"));
    LooseNumbers();
    assert LooseEq(Str("1e1"), [Str("10")][0]);
  }

  /** `'1'` after `1` is found and not added. */
  lemma LooseSourceFieldsInteger()
    ensures AddNew([], [Int(1), Str("1")]) == [Int(1)]
  {
    AddNewPair(Int(1), Str("1"));
    LooseNumbers();
    assert LooseEq(Str("1"), [Int(1)][0]);
  }

  /** `'title'` after `0` is found, as the number 0, and not added. */
  lemma LooseSourceFieldsWord()
    ensures AddNew([], [Int(0), Str("title")]) == [Int(0)]
  {
    AddNewPair(Int(0), Str("title"));
    LooseWord();
    assert LooseEq(Str("title"), [Int(0)][0]);
  }

  /** The body of the library's admin-listing test: a main query and a
      filter give `filtered`, and one sort with an order gives a one-entry
      list holding `[field => [order => ...]]`. */
  lemma AdminListingBody(q: Query, main: string, filter: string)
    requires q.Valid()
    requires q.clauses == Clauses(Clause(false, main), Clause(false, filter), EmptyClause)
    requires |q.sorts| == 1 && q.sorts[0].field == "updated"
    requires q.sorts[0].order == Str(ORDER_DESC) && q.sorts[0].mode == Null && q.sorts[0].missing == Null
    requires q.aggregations == []
    ensures q.Body([]) == [
      (StrKey("query"), Arr([(StrKey("filtered"), Arr([
        (StrKey("query"), Arr([(StrKey("query_string"), Arr([(StrKey("query"), Str(main))]))])),
        (StrKey("filter"), Arr([(StrKey("fquery"), Arr([
          (StrKey("query"), Arr([(StrKey("query_string"), Arr([(StrKey("query"), Str(filter))]))])),
          (StrKey("_cache"), Bool(true))]))]))]))])),
      (StrKey("sort"), Arr([(IntKey(0), Arr([(StrKey("updated"), Arr([(StrKey("order"), Str("desc"))]))]))]))]
  {
    q.BodyShape();
    var s := q.sorts[0];
    OptionsShape(s.order, s.mode, s.missing);
    assert s.ToArray() == [(StrKey("order"), Str("desc"))];
    assert ArrayKey("updated") == StrKey("updated");
    assert SortList(q.sorts) == [Arr([(StrKey("updated"), Arr([(StrKey("order"), Str("desc"))]))])];
    assert ListOf(SortList(q.sorts)) == [(IntKey(0), Arr([(StrKey("updated"), Arr([(StrKey("order"), Str("desc"))]))]))];
  }

  /** A new query renders as `match_all` alone. */
  method EmptyQueryExample() returns (r: Entries)
    ensures r == MatchAll
  {
    var q := new Query();
    r := q.ToArray();
    q.BodyShape();
  }

  /** The body of a query with no clauses and just one sort without
      options. */
  lemma BareSortBody(q: Query, field: string)
    requires q.Valid() && q.clauses == Clauses(EmptyClause, EmptyClause, EmptyClause)
    requires |q.sorts| == 1 && q.sorts[0].field == field && q.sorts[0].ToArray() == []
    requires q.aggregations == []
    ensures q.Body([]) == MatchAll + [(StrKey("sort"), Arr([(IntKey(0), Str(field))]))]
  {
    q.BodyShape();
    assert QueryPart(q.clauses) == MatchAll;
    assert SortList(q.sorts) == [Str(field)];
    assert ListOf([Str(field)]) == [(IntKey(0), Str(field))];
  }

  /** The body of a query with no clauses and no sorts and one top-level
      aggregation. */
  lemma SingleAggregationBody(q: Query, a: Aggregation)
    requires q.Valid() && q.clauses == Clauses(EmptyClause, EmptyClause, EmptyClause)
    requires q.sorts == [] && q.aggregations == [a]
    ensures a.Valid()
    ensures q.Body([]) == MatchAll + [(StrKey("aggs"), Arr([(ArrayKey(a.name), Arr(a.Render()))]))]
  {
    q.BodyShape();
    assert QueryPart(q.clauses) == MatchAll;
    assert [a][..0] == [];
    assert Named([a], q.Repr) == [(ArrayKey(a.name), Arr(a.Render()))];
  }

  /** A sort on `foo` without options is listed as the bare field name,
      after the `query` entry. */
  method SortInQueryExample() returns (r: Entries)
    ensures r == MatchAll + [(StrKey("sort"), Arr([(IntKey(0), Str("foo"))]))]
  {
    var q := new Query();
    q.AddSort("foo");
    r := q.ToArray();
    BareSortBody(q, "foo");
  }

  /** The tree of the sub-aggregation tests, added to a query, is rendered
      under `aggs` by its name, after the `query` entry. */
  method AggregationInQueryExample() returns (r: Entries)
    ensures r == MatchAll + [(StrKey("aggs"), Arr([(StrKey("a"), Arr(SubAggregationBody("pouet")))]))]
  {
    var a, _ := SubAggregationTree("pouet");
    ghost var rendered := a.Render();
    var q := new Query();
    var added := q.AddAggregation(a);
    assert a.Render() == rendered;
    r := q.ToArray();
    SingleAggregationBody(q, a);
    assert ArrayKey("a") == StrKey("a");
  }

  /** A bare sort on `foo` followed by a descending sort on `bar` gives a
      mixed list: the bare name first, then `[bar => [order => desc]]`. */
  method MixedSortExample() returns (r: Entries)
    ensures r == [(IntKey(0), Str("foo")), (IntKey(1), Arr([(StrKey("bar"), Arr([(StrKey("order"), Str("desc"))]))]))]
  {
    var q := new Query();
    q.AddSort("foo");
    q.AddSort("bar", Str(ORDER_DESC));
    r := q.ApplySorts();
    MixedSorts(q.sorts);
  }

  lemma MixedSorts(sorts: seq<Sort>)
    requires |sorts| == 2 && sorts[0].field == "foo" && sorts[0].ToArray() == []
    requires sorts[1].field == "bar" && sorts[1].order == Str(ORDER_DESC) && sorts[1].mode == Null && sorts[1].missing == Null
    ensures ListOf(SortList(sorts))
         == [(IntKey(0), Str("foo")), (IntKey(1), Arr([(StrKey("bar"), Arr([(StrKey("order"), Str("desc"))]))]))]
  {
    OptionsShape(sorts[1].order, sorts[1].mode, sorts[1].missing);
    assert ArrayKey("bar") == StrKey("bar");
    assert SortList(sorts) == [Str("foo"), Arr([(StrKey("bar"), Arr([(StrKey("order"), Str("desc"))]))])];
  }
}
