/** Aggregation requests: a named, typed node with a body, optional meta data,
    an optional facet callback and an ordered map of uniquely named
    sub-aggregations, rendered recursively into the search body. The
    library's abstract base class and its data-driven `GenericAggregation`
    are one class here: a node without a callback behaves as the base
    class, whose `apply` does nothing. */
module Aggregations {
  import opened Wrappers
  import opened Php
  import opened Lucene
  import AggregationResponses

  /** The incoming request: its query-string parameters. */
  type Request = Entries

  /** A facet callback: what it makes of the query's clauses, given the
      request. */
  type Hook = (Clauses, Request) -> Clauses

  // ---------------------------------------------------------------------
  // The ordered child map shared by queries and aggregations

  /** The keys the children are stored under: `$this->aggregations[$name]`. */
  function NameKeys(aggs: seq<Aggregation>): (ks: seq<Key>)
    ensures |ks| == |aggs|
    ensures forall i :: 0 <= i < |aggs| ==> ks[i] == ArrayKey(aggs[i].name)
  {
    seq(|aggs|, i requires 0 <= i < |aggs| => ArrayKey(aggs[i].name))
  }

  /** `isset($this->aggregations[$name])` */
  predicate NameTaken(aggs: seq<Aggregation>, name: string) {
    ArrayKey(name) in NameKeys(aggs)
  }

  /** No two children share a key. */
  ghost predicate UniqueNames(aggs: seq<Aggregation>) {
    Distinct(NameKeys(aggs))
  }

  /** The error `addAggregation` throws for a name already in use. */
  function DuplicateName(name: string): Exception {
    InvalidArgumentException("Sub-aggregation with name " + name + " is already set")
  }

  /** Every aggregation of `aggs` is well formed and lies inside `repr`. */
  ghost predicate AllValid(aggs: seq<Aggregation>, repr: set<Aggregation>)
    reads repr
  {
    forall c :: c in aggs ==> c in repr && c.Repr <= repr && c.Valid()
  }

  /** The children rendered under their names, in insertion order. */
  function Named(aggs: seq<Aggregation>, repr: set<Aggregation>): (r: Entries)
    reads repr
    requires AllValid(aggs, repr)
    ensures |r| == |aggs|
    decreases |aggs|
  {
    if aggs == [] then []
    else
      var n := |aggs| - 1;
      Named(aggs[..n], repr) + [(ArrayKey(aggs[n].name), Arr(aggs[n].Render()))]
  }

  lemma {:induction false} NamedAt(aggs: seq<Aggregation>, repr: set<Aggregation>, i: nat)
    requires AllValid(aggs, repr) && i < |aggs|
    ensures Named(aggs, repr)[i] == (ArrayKey(aggs[i].name), Arr(aggs[i].Render()))
    decreases |aggs|
  {
    var n := |aggs| - 1;
    if i < n {
      NamedAt(aggs[..n], repr, i);
    } else if n > 0 {
      NamedAt(aggs[..n], repr, 0);
    } else {
      assert aggs[..n] == [];
    }
  }

  /** The rendered children are keyed exactly as the child map is. */
  lemma NamedKeys(aggs: seq<Aggregation>, repr: set<Aggregation>)
    requires AllValid(aggs, repr)
    ensures Keys(Named(aggs, repr)) == NameKeys(aggs)
  {
    if aggs != [] {
      forall i | 0 <= i < |aggs| ensures Keys(Named(aggs, repr))[i] == NameKeys(aggs)[i] {
        NamedAt(aggs, repr, i);
      }
    }
  }

  lemma AllValidPrefix(aggs: seq<Aggregation>, repr: set<Aggregation>, i: nat)
    requires AllValid(aggs, repr) && i <= |aggs|
    ensures AllValid(aggs[..i], repr)
  {
    forall c | c in aggs[..i] ensures c in aggs {
      var j :| 0 <= j < i && aggs[..i][j] == c;
      assert aggs[j] == c;
    }
  }

  lemma UniquePrefix(aggs: seq<Aggregation>, i: nat)
    requires UniqueNames(aggs) && i < |aggs|
    ensures ArrayKey(aggs[i].name) !in NameKeys(aggs[..i])
  {
    var ks := NameKeys(aggs);
    forall j | 0 <= j < i ensures NameKeys(aggs[..i])[j] != ArrayKey(aggs[i].name) {
      assert ks[j] != ks[i];
    }
  }

  class Aggregation {
    const name: string
    const typeTag: string
    var postFilter: bool
    var body: Entries
    var meta: Entries
    var callback: Option<Hook>
    var aggregations: seq<Aggregation>
    /** The sub-aggregations at every depth. */
    ghost var Repr: set<Aggregation>

    /** The sub-aggregation tree is finite and acyclic and every child map
        has unique names. */
    ghost predicate Valid()
      reads this, Repr
      decreases Repr
    {
      && this !in Repr
      && UniqueNames(aggregations)
      && forall c :: c in aggregations ==> c in Repr && c.Repr <= Repr && c !in c.Repr && c.Valid()
    }

    /** `new GenericAggregation($name, $type, $body = [], $meta = [])` */
    constructor (name: string, typeTag: string, body: Entries := [], meta: Entries := [])
      ensures Valid()
      ensures this.name == name && this.typeTag == typeTag
      ensures this.body == body && this.meta == meta
      ensures !postFilter && callback == None && aggregations == [] && Repr == {}
    {
      this.name := name;
      this.typeTag := typeTag;
      this.body := body;
      this.meta := meta;
      postFilter := false;
      callback := None;
      aggregations := [];
      Repr := {};
    }

    /** `applyOnPostFilter($toggle = true)` stores `(bool)$toggle`. */
    method ApplyOnPostFilter(toggle: Value := Bool(true))
      requires Valid()
      modifies this`postFilter
      ensures Valid() && postFilter == Truthy(toggle)
    {
      postFilter := Truthy(toggle);
    }

    /** `setBody($body = [])` replaces the body wholesale. */
    method SetBody(body: Entries := [])
      requires Valid()
      modifies this`body
      ensures Valid() && this.body == body
    {
      this.body := body;
    }

    /** `setMeta($meta = [])` replaces the meta data wholesale. */
    method SetMeta(meta: Entries := [])
      requires Valid()
      modifies this`meta
      ensures Valid() && this.meta == meta
    {
      this.meta := meta;
    }

    /** `setApplyCallback($callback)` replaces any previous callback. */
    method SetApplyCallback(hook: Hook)
      requires Valid()
      modifies this`callback
      ensures Valid() && callback == Some(hook)
    {
      callback := Some(hook);
    }

    /** `apply($query, $request)`: the callback's effect on the query's
        clauses when one is set, otherwise nothing changes. */
    function Apply(state: Clauses, request: Request): (r: Clauses)
      reads this
      ensures callback.None? ==> r == state
    {
      if callback.Some? then callback.value(state, request) else state
    }

    /** `getResponse($data)`: the response to this aggregation, from the raw
        data the search returned for it. */
    method GetResponse(data: Entries) returns (r: Result<AggregationResponses.AggregationResponse, Exception>)
      ensures r == AggregationResponses.Build(name, data)
    {
      r := AggregationResponses.New(name, data);
    }

    /** `hasAggregations()` */
    predicate HasAggregations()
      reads this
    {
      aggregations != []
    }

    /** `addAggregation($aggregation)`: a fresh name is appended to the child
        map; a name already present throws and leaves the map as it was. */
    method AddAggregation(a: Aggregation) returns (o: Outcome<Exception>)
      requires Valid() && a.Valid() && a != this && this !in a.Repr
      modifies this`aggregations, this`Repr
      ensures Valid()
      ensures o == if NameTaken(old(aggregations), a.name) then Fail(DuplicateName(a.name)) else Pass
      ensures aggregations == if o.Pass? then old(aggregations) + [a] else old(aggregations)
      ensures Repr == if o.Pass? then old(Repr) + {a} + a.Repr else old(Repr)
    {
      if NameTaken(aggregations, a.name) {
        return Fail(DuplicateName(a.name));
      }
      assert NameKeys(aggregations + [a]) == NameKeys(aggregations) + [ArrayKey(a.name)];
      aggregations := aggregations + [a];
      Repr := Repr + {a} + a.Repr;
      o := Pass;
    }

    /** `toArray()` as a value: the type mapped to the body, then `meta`
        when there is meta data, then each child under `aggs`. */
    function Render(): Entries
      reads this, Repr
      requires Valid()
      decreases Repr, 1
    {
      var head := [(ArrayKey(typeTag), Arr(body))];
      var withMeta := if meta != [] then Put(head, StrKey("meta"), Arr(meta)) else head;
      RenderChildren(withMeta, 0)
    }

    /** `$body['aggs'][$name] = $aggregation->toArray()` for the children
        from the `i`-th on. */
    function RenderChildren(acc: Entries, i: nat): Entries
      reads this, Repr
      requires Valid() && i <= |aggregations|
      decreases Repr, 0, |aggregations| - i
    {
      if i == |aggregations| then acc
      else
        var c := aggregations[i];
        RenderChildren(PutPath(acc, [StrKey("aggs"), ArrayKey(c.name)], Arr(c.Render())), i + 1)
    }

    /** The `i`-th child is valid and owns a strictly smaller footprint. */
    lemma Child(i: nat)
      requires Valid() && i < |aggregations|
      ensures aggregations[i] in Repr && aggregations[i].Valid() && aggregations[i].Repr < Repr
    {
      assert aggregations[i] in aggregations;
    }

    /** `toArray()` */
    method ToArray() returns (r: Entries)
      requires Valid()
      ensures r == Render()
      decreases Repr
    {
      r := [(ArrayKey(typeTag), Arr(body))];
      if meta != [] {
        r := Put(r, StrKey("meta"), Arr(meta));
      }
      if HasAggregations() {
        var i := 0;
        while i < |aggregations|
          invariant 0 <= i <= |aggregations|
          invariant RenderChildren(r, i) == Render()
        {
          var c := aggregations[i];
          Child(i);
          var sub := c.ToArray();
          r := PutPath(r, [StrKey("aggs"), ArrayKey(c.name)], Arr(sub));
          i := i + 1;
        }
      }
    }

    /** Once the `aggs` entry holds the first `i` children, the remaining
        children are appended to it. */
    lemma {:induction false} RenderChildrenFrom(base: Entries, i: nat)
      requires Valid() && 0 < i <= |aggregations|
      requires StrKey("aggs") !in Keys(base)
      ensures AllValid(aggregations, Repr)
      ensures RenderChildren(base + [(StrKey("aggs"), Arr(Named(aggregations[..i], Repr)))], i)
           == base + [(StrKey("aggs"), Arr(Named(aggregations, Repr)))]
      decreases |aggregations| - i
    {
      var aggs := aggregations;
      if i == |aggs| {
        assert aggs[..i] == aggs;
      } else {
        var c := aggs[i];
        var k := ArrayKey(c.name);
        var x := Named(aggs[..i], Repr);
        var acc := base + [(StrKey("aggs"), Arr(x))];
        LookupAppendNew(base, StrKey("aggs"), Arr(x));
        NamedKeys(aggs[..i], Repr);
        UniquePrefix(aggs, i);
        PutNew(x, k, Arr(c.Render()));
        PutAppendLast(base, StrKey("aggs"), Arr(x), Arr(x + [(k, Arr(c.Render()))]));
        assert [StrKey("aggs"), k][1..] == [k];
        assert PutPath(acc, [StrKey("aggs"), k], Arr(c.Render())) == base + [(StrKey("aggs"), Arr(x + [(k, Arr(c.Render()))]))];
        assert aggs[..i + 1][..i] == aggs[..i];
        assert Named(aggs[..i + 1], Repr) == x + [(k, Arr(c.Render()))];
        RenderChildrenFrom(base, i + 1);
      }
    }

    /** The children end up, in order and under their names, in one `aggs`
        entry appended after everything before it; without children
        nothing is added. */
    lemma RenderChildrenShape(base: Entries)
      requires Valid() && StrKey("aggs") !in Keys(base)
      ensures AllValid(aggregations, Repr)
      ensures RenderChildren(base, 0)
           == base + if aggregations != [] then [(StrKey("aggs"), Arr(Named(aggregations, Repr)))] else []
    {
      var aggs := aggregations;
      if aggs != [] {
        var c := aggs[0];
        var k := ArrayKey(c.name);
        PutPathNew(base, [StrKey("aggs"), k], Arr(c.Render()));
        assert [StrKey("aggs"), k][1..] == [k];
        assert aggs[..1][..0] == [];
        assert Named(aggs[..1], Repr) == [(k, Arr(c.Render()))];
        RenderChildrenFrom(base, 1);
      }
    }

    /** The shape of `toArray()`: the type mapped to the body first, `meta`
        next exactly when there is meta data, `aggs` last exactly when there
        are children, holding each child's rendering under its name in
        insertion order. (A type named `meta` or `aggs` would share a key
        with those entries.) */
    lemma RenderShape()
      requires Valid()
      requires ArrayKey(typeTag) != StrKey("meta") && ArrayKey(typeTag) != StrKey("aggs")
      ensures AllValid(aggregations, Repr)
      ensures Render() == [(ArrayKey(typeTag), Arr(body))]
                          + (if meta != [] then [(StrKey("meta"), Arr(meta))] else [])
                          + (if aggregations != [] then [(StrKey("aggs"), Arr(Named(aggregations, Repr)))] else [])
    {
      var head := [(ArrayKey(typeTag), Arr(body))];
      assert Keys(head) == [ArrayKey(typeTag)];
      var withMeta := if meta != [] then Put(head, StrKey("meta"), Arr(meta)) else head;
      if meta != [] {
        PutNew(head, StrKey("meta"), Arr(meta));
        assert Keys(withMeta) == [ArrayKey(typeTag), StrKey("meta")];
      }
      RenderChildrenShape(withMeta);
    }
  }

  // ---------------------------------------------------------------------
  // The library's own aggregation tests

  /** A body set after construction and meta data render as the type
      mapped to the body followed by `meta`; a body passed to the
      constructor and no meta data render as the type alone. */
  method GenericBuildExample() returns (withMeta: Entries, bare: Entries)
    ensures withMeta == [
      (StrKey("some_type"), Arr([(StrKey("some"), Str("value")), (StrKey("and"), Arr([(StrKey("other"), Str("value"))]))])),
      (StrKey("meta"), Arr([(StrKey("some"), Str("meta"))]))]
    ensures bare == [
      (StrKey("some_type"), Arr([(StrKey("some"), Str("value")), (StrKey("and"), Arr([(StrKey("other"), Str("value"))]))]))]
  {
    var body := [(StrKey("some"), Str("value")), (StrKey("and"), Arr([(StrKey("other"), Str("value"))]))];
    assert ArrayKey("some_type") == StrKey("some_type");
    var a := new Aggregation("some_agg", "some_type");
    a.SetBody(body);
    a.SetMeta([(StrKey("some"), Str("meta"))]);
    withMeta := a.ToArray();
    a.RenderShape();
    var b := new Aggregation("some_agg", "some_type", body);
    bare := b.ToArray();
    b.RenderShape();
  }

  /** The expected rendering of the sub-aggregation tests, whose parent's
      body is the one-element list `[item]`. */
  function SubAggregationBody(item: string): Entries {
    [(StrKey("type_a"), Arr([(IntKey(0), Str(item))])),
     (StrKey("aggs"), Arr([
       (StrKey("b"), Arr([(StrKey("type_b"), Arr([(StrKey("value_b"), Str("foo"))]))])),
       (StrKey("c"), Arr([(StrKey("type_c"), Arr([(StrKey("value_c"), Str("bar"))]))]))]))]
  }

  /** A leaf renders as its type mapped to its body. */
  lemma LeafRender(x: Aggregation, typeTag: string, body: Entries)
    requires x.Valid() && x.typeTag == typeTag && x.body == body && x.meta == [] && x.aggregations == []
    requires ArrayKey(typeTag) == StrKey(typeTag) && typeTag != "meta" && typeTag != "aggs"
    ensures x.Render() == [(StrKey(typeTag), Arr(body))]
  {
    x.RenderShape();
  }

  /** The parent `a` with leaves `b` and `c`, as the tests build it. */
  lemma SubAggregationRender(a: Aggregation, b: Aggregation, c: Aggregation, item: string)
    requires a.Valid() && a.aggregations == [b, c]
    requires a.typeTag == "type_a" && a.body == [(IntKey(0), Str(item))] && a.meta == []
    requires b.name == "b" && b.typeTag == "type_b" && b.body == [(StrKey("value_b"), Str("foo"))]
    requires c.name == "c" && c.typeTag == "type_c" && c.body == [(StrKey("value_c"), Str("bar"))]
    requires b.meta == [] && b.aggregations == [] && c.meta == [] && c.aggregations == []
    ensures a.Render() == SubAggregationBody(item)
  {
    assert ArrayKey("b") == StrKey("b") && ArrayKey("c") == StrKey("c");
    assert ArrayKey("type_a") == StrKey("type_a");
    LeafRender(b, "type_b", b.body);
    LeafRender(c, "type_c", c.body);
    a.RenderShape();
    assert [b, c][..1] == [b] && [b][..0] == [];
    assert Named([b], a.Repr) == [(StrKey("b"), Arr(b.Render()))];
    assert Named([b, c], a.Repr) == [(StrKey("b"), Arr(b.Render())), (StrKey("c"), Arr(c.Render()))];
  }

  /** Children `b` and `c` are rendered under `aggs` in the order they were
      added, and a second child named `b` is refused. */
  method SubAggregationExample() returns (dup: Outcome<Exception>, r: Entries)
    ensures dup == Fail(DuplicateName("b"))
    ensures r == SubAggregationBody("a")
  {
    var a, d := SubAggregationTree("a");
    dup := d;
    r := a.ToArray();
  }

  /** Builds the tests' tree: a parent `a` of type `type_a` whose body is
      `[item]`, with the children `b` and `c`, then tries to add a second
      `b`. */
  method SubAggregationTree(item: string) returns (a: Aggregation, dup: Outcome<Exception>)
    ensures a.Valid() && a.name == "a" && a.Render() == SubAggregationBody(item)
    ensures dup == Fail(DuplicateName("b"))
  {
    var b, c;
    a, b, c := ParentOfTwo(item);
    SubAggregationRender(a, b, c, item);
    var again := new Aggregation("b", "type_b", [(StrKey("value_b"), Str("foo"))]);
    dup := a.AddAggregation(again);
  }

  /** The parent `a` with the leaves `b` and `c` added in that order. */
  method ParentOfTwo(item: string) returns (a: Aggregation, b: Aggregation, c: Aggregation)
    ensures fresh(a) && a.Valid() && a.aggregations == [b, c] && a.name == "a"
    ensures a.typeTag == "type_a" && a.body == [(IntKey(0), Str(item))] && a.meta == []
    ensures b.name == "b" && b.typeTag == "type_b" && b.body == [(StrKey("value_b"), Str("foo"))]
    ensures c.name == "c" && c.typeTag == "type_c" && c.body == [(StrKey("value_c"), Str("bar"))]
    ensures b.meta == [] && b.aggregations == [] && c.meta == [] && c.aggregations == []
  {
    a := new Aggregation("a", "type_a", [(IntKey(0), Str(item))]);
    b := new Aggregation("b", "type_b", [(StrKey("value_b"), Str("foo"))]);
    c := new Aggregation("c", "type_c", [(StrKey("value_c"), Str("bar"))]);
    assert ArrayKey("b") == StrKey("b") && ArrayKey("c") == StrKey("c");
    var added := a.AddAggregation(b);
    added := a.AddAggregation(c);
  }
}
