/** One hit of a search response. */
module Documents {
  import opened Wrappers
  import opened Php

  datatype Document = Document(index: Value, docType: Value, id: Value, score: Value, source: Value) {

    /** `get($name)`: the source field when it is set, or the character at
        that offset when the source is a string, and null otherwise. */
    function Get(name: string): (r: Value)
      ensures source.Arr? ==> (r != Null <==> IsSet(source.entries, ArrayKey(name)))
      ensures source.Arr? && r != Null ==> (ArrayKey(name), r) in source.entries
      ensures source.Str? ==> (r != Null <==> StringOffset(source.s, name).Some?)
      ensures source.Str? && r != Null ==> r == Str([source.s[StringOffset(source.s, name).value]])
      ensures !source.Arr? && !source.Str? ==> r == Null
    {
      if source.Str? then
        match StringOffset(source.s, name)
        case Some(o) => Str([source.s[o]])
        case None => Null
      else if !IsSetIn(source, ArrayKey(name)) then Null
      else
        LookupFound(source.entries, ArrayKey(name));
        Lookup(source.entries, ArrayKey(name)).value
    }

    /** `getSourceFieldNames()`: the source's keys in order; `array_keys` of
        a source that is not an array gives null. */
    function SourceFieldNames(): (r: Option<seq<Key>>)
      ensures r.Some? <==> source.Arr?
      ensures r.Some? ==> |r.value| == |source.entries|
      ensures r.Some? ==> forall i :: 0 <= i < |source.entries| ==> r.value[i] == source.entries[i].0
    {
      if source.Arr? then Some(Keys(source.entries)) else None
    }
  }

  /** `new Document($hit)`: index, type and id are copied when set and stay
      null otherwise; the score defaults to 1 and the source to `[]`. */
  function FromHit(hit: Entries): (d: Document)
    ensures d.index != Null <==> IsSet(hit, StrKey("_index"))
    ensures d.docType != Null <==> IsSet(hit, StrKey("_type"))
    ensures d.id != Null <==> IsSet(hit, StrKey("_id"))
    ensures IsSet(hit, StrKey("_index")) ==> (StrKey("_index"), d.index) in hit
    ensures IsSet(hit, StrKey("_type")) ==> (StrKey("_type"), d.docType) in hit
    ensures IsSet(hit, StrKey("_id")) ==> (StrKey("_id"), d.id) in hit
    ensures IsSet(hit, StrKey("_score")) ==> (StrKey("_score"), d.score) in hit
    ensures !IsSet(hit, StrKey("_score")) ==> d.score == Int(1)
    ensures IsSet(hit, StrKey("_source")) ==> (StrKey("_source"), d.source) in hit
    ensures !IsSet(hit, StrKey("_source")) ==> d.source == Arr([])
  {
    Document(
      IssetOr(hit, StrKey("_index"), Null),
      IssetOr(hit, StrKey("_type"), Null),
      IssetOr(hit, StrKey("_id"), Null),
      IssetOr(hit, StrKey("_score"), Int(1)),
      IssetOr(hit, StrKey("_source"), Arr([])))
  }

  /** `new Document()`: every field at its default. */
  lemma EmptyHit()
    ensures FromHit([]) == Document(Null, Null, Null, Int(1), Arr([]))
  {
  }

  /** A string source answers integer names with one character, counting
      from the end for a negative name, and every other name with null. */
  lemma StringSourceGet()
    ensures Document(Null, Null, Null, Int(1), Str("abc")).Get("0") == Str("a")
    ensures Document(Null, Null, Null, Int(1), Str("abc")).Get("-1") == Str("c")
    ensures Document(Null, Null, Null, Int(1), Str("abc")).Get("3") == Null
    ensures Document(Null, Null, Null, Int(1), Str("abc")).Get("title") == Null
  {
    assert SkipSpace("0") == "0" && SkipSpace("-1") == "-1" && SkipSpace("3") == "3";
    assert SkipSpace("title") == "title";
    assert "-1"[1..] == "1";
    assert DigitPrefix("0") == "0" by { assert "0"[1..] == []; }
    assert DigitPrefix("1") == "1" by { assert "1"[1..] == []; }
    assert DigitPrefix("3") == "3" by { assert "3"[1..] == []; }
    assert DigitsValue("0") == 0 && DigitsValue("1") == 1 && DigitsValue("3") == 3 by {
      assert "0"[..0] == [] && "1"[..0] == [] && "3"[..0] == [];
    }
    assert !AllDigits("title") by { assert !IsDigit("title"[0]); }
  }

  /** A field of the source that a hit sets is what `get` returns. */
  lemma GetSourceField(hit: Entries, name: string, i: nat)
    requires IsSet(hit, StrKey("_source"))
    requires var s := FromHit(hit).source;
      s.Arr? && UniqueKeys(s.entries) && i < |s.entries| && s.entries[i].0 == ArrayKey(name) && s.entries[i].1 != Null
    ensures FromHit(hit).Get(name) == FromHit(hit).source.entries[i].1
  {
    LookupUnique(FromHit(hit).source.entries, i);
  }
}
