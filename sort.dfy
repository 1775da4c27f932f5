/** One entry of a search's sort list: a field with an optional order, mode
    for multi-valued fields and behaviour for documents missing the field. */
module Sorts {
  import opened Wrappers
  import opened Php

  const MODE_MIN := "min"
  const MODE_MAX := "max"
  const MODE_AVG := "avg"
  const MODE_SUM := "sum"
  const MODE_MED := "median"
  const ORDER_ASC := "asc"
  const ORDER_DESC := "desc"
  const MISSING_FIRST := "_first"
  const MISSING_LAST := "_last"

  /** The field sorted on when none is given: the relevance score. */
  const FIELD_SCORE := "_score"

  /** The keys of `Options(order, mode, missing)` that are present: one per
      truthy option, in the order order, mode, missing. */
  function OptionKeys(order: Value, mode: Value, missing: Value): seq<Key> {
    (if Truthy(order) then [StrKey("order")] else [])
    + (if Truthy(mode) then [StrKey("mode")] else [])
    + (if Truthy(missing) then [StrKey("missing")] else [])
  }

  /** `Sort::toArray()` for the given options: each one is written under its
      own key when it is truthy. */
  function Options(order: Value, mode: Value, missing: Value): (r: Entries)
    ensures Keys(r) == OptionKeys(order, mode, missing)
    ensures Lookup(r, StrKey("order")) == if Truthy(order) then Some(order) else None
    ensures Lookup(r, StrKey("mode")) == if Truthy(mode) then Some(mode) else None
    ensures Lookup(r, StrKey("missing")) == if Truthy(missing) then Some(missing) else None
    ensures r == [] <==> !Truthy(order) && !Truthy(mode) && !Truthy(missing)
  {
    var b0: Entries := [];
    var b1 := if Truthy(order) then Put(b0, StrKey("order"), order) else b0;
    var b2 := if Truthy(mode) then Put(b1, StrKey("mode"), mode) else b1;
    var b3 := if Truthy(missing) then Put(b2, StrKey("missing"), missing) else b2;
    OptionsShape(order, mode, missing);
    assert Keys(b3) == OptionKeys(order, mode, missing);
    OptionsLookup(b0, order, mode, missing, StrKey("order"));
    OptionsLookup(b0, order, mode, missing, StrKey("mode"));
    OptionsLookup(b0, order, mode, missing, StrKey("missing"));
    b3
  }

  lemma OptionsShape(order: Value, mode: Value, missing: Value)
    ensures
      var b0: Entries := [];
      var b1 := if Truthy(order) then Put(b0, StrKey("order"), order) else b0;
      var b2 := if Truthy(mode) then Put(b1, StrKey("mode"), mode) else b1;
      var b3 := if Truthy(missing) then Put(b2, StrKey("missing"), missing) else b2;
      && b1 == (if Truthy(order) then [(StrKey("order"), order)] else [])
      && b2 == b1 + (if Truthy(mode) then [(StrKey("mode"), mode)] else [])
      && b3 == b2 + (if Truthy(missing) then [(StrKey("missing"), missing)] else [])
  {
    var b0: Entries := [];
    var b1 := if Truthy(order) then Put(b0, StrKey("order"), order) else b0;
    var b2 := if Truthy(mode) then Put(b1, StrKey("mode"), mode) else b1;
    if Truthy(mode) {
      assert Keys(b1) == if Truthy(order) then [StrKey("order")] else [];
      PutNew(b1, StrKey("mode"), mode);
    }
    if Truthy(missing) {
      assert Keys(b2) == (if Truthy(order) then [StrKey("order")] else []) + (if Truthy(mode) then [StrKey("mode")] else []);
      PutNew(b2, StrKey("missing"), missing);
    }
  }

  lemma OptionsLookup(b0: Entries, order: Value, mode: Value, missing: Value, k: Key)
    requires b0 == []
    ensures
      var b1 := if Truthy(order) then Put(b0, StrKey("order"), order) else b0;
      var b2 := if Truthy(mode) then Put(b1, StrKey("mode"), mode) else b1;
      var b3 := if Truthy(missing) then Put(b2, StrKey("missing"), missing) else b2;
      Lookup(b3, k) ==
        if k == StrKey("missing") && Truthy(missing) then Some(missing)
        else if k == StrKey("mode") && Truthy(mode) then Some(mode)
        else if k == StrKey("order") && Truthy(order) then Some(order)
        else None
  {
    var b1 := if Truthy(order) then Put(b0, StrKey("order"), order) else b0;
    var b2 := if Truthy(mode) then Put(b1, StrKey("mode"), mode) else b1;
    if Truthy(order) { PutLookup(b0, StrKey("order"), order, k); }
    if Truthy(mode) { PutLookup(b1, StrKey("mode"), mode, k); }
    if Truthy(missing) { PutLookup(b2, StrKey("missing"), missing, k); }
  }

  class Sort {
    const field: string
    const order: Value
    var mode: Value
    var missing: Value

    /** `new Sort($field = '_score', $order = null, $mode = null, $missing = null)` */
    constructor (field: string := FIELD_SCORE, order: Value := Null, mode: Value := Null, missing: Value := Null)
      ensures this.field == field && this.order == order
      ensures this.mode == mode && this.missing == missing
    {
      this.field := field;
      this.order := order;
      this.mode := mode;
      this.missing := missing;
    }

    /** `setMode($mode)`: only the mode changes. */
    method SetMode(mode: Value)
      modifies this`mode
      ensures this.mode == mode && missing == old(missing)
    {
      this.mode := mode;
    }

    /** `setMissing($missing)`: only the missing-field behaviour changes. */
    method SetMissing(missing: Value)
      modifies this`missing
      ensures this.missing == missing && mode == old(mode)
    {
      this.missing := missing;
    }

    /** `toArray()`: the sort options that are set. */
    function ToArray(): (r: Entries)
      reads this
      ensures Keys(r) == OptionKeys(order, mode, missing)
      ensures r == [] <==> !Truthy(order) && !Truthy(mode) && !Truthy(missing)
    {
      Options(order, mode, missing)
    }
  }

  /** A sort with nothing but a field renders as the empty array. */
  lemma BareSortIsEmpty()
    ensures Options(Null, Null, Null) == []
  {
  }

  /** With every option set the keys come in the order order, mode, missing. */
  lemma FullSortOrder()
    ensures Options(Str(ORDER_ASC), Str(MODE_MAX), Str(MISSING_FIRST))
         == [(StrKey("order"), Str("asc")), (StrKey("mode"), Str("max")), (StrKey("missing"), Str("_first"))]
  {
    OptionsShape(Str(ORDER_ASC), Str(MODE_MAX), Str(MISSING_FIRST));
  }
}
