/** `ArrayUtil::merge`: the recursive merge that applies the overrides of a
    query body. Every key of the override array is written into the base
    array in the override's order; two arrays under one key are merged
    recursively, any other clash lets the override win. */
module ArrayUtil {
  import opened Wrappers
  import opened Php

  /** The value the merge stores under a key of the override, given what the
      base (as merged so far) holds under that key. */
  function Combine(base: Option<Value>, v: Value): Value
    decreases v, 2, 0
  {
    if base.Some? && base.value.Arr? && v.Arr? then Arr(DeepMerge(base.value.entries, v.entries)) else v
  }

  /** The result of `ArrayUtil::merge($a, $b)`. */
  function DeepMerge(a: Entries, b: Entries): Entries
    decreases Arr(b), 1, 0
  {
    MergeFrom(a, b, 0)
  }

  /** The base after the keys `b[i..]` of the override have been written into
      `acc`, one after the other. */
  function MergeFrom(acc: Entries, b: Entries, i: nat): Entries
    requires i <= |b|
    decreases Arr(b), 0, |b| - i
  {
    if i == |b| then acc
    else
      assert b[i] in b;
      MergeFrom(Put(acc, b[i].0, Combine(Lookup(acc, b[i].0), b[i].1)), b, i + 1)
  }

  /** The keys of `ks` that are not in `seen`, in the order of `ks`. */
  function Fresh(ks: seq<Key>, seen: seq<Key>): seq<Key> {
    if ks == [] then []
    else (if ks[0] in seen then [] else [ks[0]]) + Fresh(ks[1..], seen)
  }

  /** `ArrayUtil::merge`: a loop over the override that writes into a copy
      of the base, recursing where two arrays meet. */
  method Merge(a: Entries, b: Entries) returns (r: Entries)
    ensures r == DeepMerge(a, b)
    decreases Arr(b)
  {
    r := a;
    var i := 0;
    while i < |b|
      invariant i <= |b|
      invariant MergeFrom(r, b, i) == DeepMerge(a, b)
    {
      var (k, v) := b[i];
      var current := Lookup(r, k);
      if current.Some? && current.value.Arr? && v.Arr? {
        assert b[i] in b;
        var sub := Merge(current.value.entries, v.entries);
        r := Put(r, k, Arr(sub));
      } else {
        r := Put(r, k, v);
      }
      i := i + 1;
    }
  }

  // ---------------------------------------------------------------------
  // Identity laws

  /** Merging with an empty override returns the base. */
  lemma MergeEmptyOverride(a: Entries)
    ensures DeepMerge(a, []) == a
  {
  }

  lemma {:induction false} MergeIntoPrefix(b: Entries, i: nat)
    requires UniqueKeys(b) && i <= |b|
    ensures MergeFrom(b[..i], b, i) == b
    decreases |b| - i
  {
    if i < |b| {
      assert b[i].0 !in Keys(b[..i]) by {
        forall j | 0 <= j < i ensures Keys(b[..i])[j] != b[i].0 {
          assert Keys(b)[j] != Keys(b)[i];
        }
      }
      LookupFound(b[..i], b[i].0);
      PutNew(b[..i], b[i].0, b[i].1);
      assert b[..i] + [b[i]] == b[..i + 1];
      MergeIntoPrefix(b, i + 1);
    }
  }

  /** Merging into an empty base returns the override. */
  lemma MergeIntoEmpty(b: Entries)
    requires UniqueKeys(b)
    ensures DeepMerge([], b) == b
  {
    MergeIntoPrefix(b, 0);
    assert b[..0] == [];
  }

  // ---------------------------------------------------------------------
  // What the merge stores under each key

  lemma UniqueSuffix(b: Entries, i: nat)
    requires UniqueKeys(b) && i < |b|
    ensures b[i].0 !in Keys(b[i + 1..])
    ensures UniqueKeys(b[i + 1..])
  {
    var ks := Keys(b[i + 1..]);
    forall j | 0 <= j < |ks| ensures ks[j] != b[i].0 {
      assert Keys(b)[i] != Keys(b)[i + 1 + j];
    }
    forall x, y | 0 <= x < y < |ks| ensures ks[x] != ks[y] {
      assert Keys(b)[i + 1 + x] != Keys(b)[i + 1 + y];
    }
  }

  lemma {:induction false} MergeFromLookup(acc: Entries, b: Entries, i: nat, k: Key)
    requires UniqueKeys(b) && i <= |b|
    ensures Lookup(MergeFrom(acc, b, i), k) ==
            if Lookup(b[i..], k).Some? then Some(Combine(Lookup(acc, k), Lookup(b[i..], k).value))
            else Lookup(acc, k)
    decreases |b| - i
  {
    if i < |b| {
      var k0 := b[i].0;
      var acc' := Put(acc, k0, Combine(Lookup(acc, k0), b[i].1));
      MergeFromLookup(acc', b, i + 1, k);
      PutLookup(acc, k0, Combine(Lookup(acc, k0), b[i].1), k);
      assert b[i..][0] == b[i] && b[i..][1..] == b[i + 1..];
      if k == k0 {
        UniqueSuffix(b, i);
        LookupFound(b[i + 1..], k);
      }
    }
  }

  /** Under a key of the override the result holds the recursive merge when
      both sides are arrays and the override's value otherwise; under any
      other key it holds what the base holds. */
  lemma MergeLookup(a: Entries, b: Entries, k: Key)
    requires UniqueKeys(b)
    ensures Lookup(DeepMerge(a, b), k) ==
            if Lookup(b, k).Some? then
              if Lookup(a, k).Some? && Lookup(a, k).value.Arr? && Lookup(b, k).value.Arr?
              then Some(Arr(DeepMerge(Lookup(a, k).value.entries, Lookup(b, k).value.entries)))
              else Some(Lookup(b, k).value)
            else Lookup(a, k)
  {
    MergeFromLookup(a, b, 0, k);
    assert b[0..] == b;
  }

  // ---------------------------------------------------------------------
  // Key order

  lemma {:induction false} FreshIgnores(ks: seq<Key>, seen: seq<Key>, k: Key)
    requires k !in ks
    ensures Fresh(ks, seen + [k]) == Fresh(ks, seen)
  {
    if ks != [] {
      FreshIgnores(ks[1..], seen, k);
    }
  }

  lemma {:induction false} FreshMembers(ks: seq<Key>, seen: seq<Key>, k: Key)
    ensures k in Fresh(ks, seen) <==> k in ks && k !in seen
  {
    if ks != [] {
      FreshMembers(ks[1..], seen, k);
      assert ks == [ks[0]] + ks[1..];
    }
  }

  lemma FreshUnfold(ks: seq<Key>, i: nat, seen: seq<Key>)
    requires i < |ks|
    ensures Fresh(ks[i..], seen) == (if ks[i] in seen then [] else [ks[i]]) + Fresh(ks[i + 1..], seen)
  {
    assert ks[i..][0] == ks[i] && ks[i..][1..] == ks[i + 1..];
  }

  lemma DistinctLater(ks: seq<Key>, i: nat)
    requires Distinct(ks) && i < |ks|
    ensures ks[i] !in ks[i + 1..]
  {
    forall j | i + 1 <= j < |ks| ensures ks[j] != ks[i] {
    }
  }

  /** Writing a new key `k` and then keys that do not include it adds `k`
      followed by the new keys among the rest. */
  lemma FreshCons(k: Key, rest: seq<Key>, seen: seq<Key>)
    requires k !in rest && k !in seen
    ensures (seen + [k]) + Fresh(rest, seen + [k]) == seen + ([k] + Fresh(rest, seen))
  {
    FreshIgnores(rest, seen, k);
  }

  lemma {:induction false} MergeFromKeys(acc: Entries, b: Entries, i: nat)
    requires UniqueKeys(b) && i <= |b|
    ensures Keys(MergeFrom(acc, b, i)) == Keys(acc) + Fresh(Keys(b)[i..], Keys(acc))
    decreases |b| - i
  {
    if i == |b| {
      assert Keys(b)[i..] == [];
    } else {
      var k0 := b[i].0;
      var v := Combine(Lookup(acc, k0), b[i].1);
      MergeFromKeys(Put(acc, k0, v), b, i + 1);
      PutKeys(acc, k0, v);
      FreshUnfold(Keys(b), i, Keys(acc));
      if k0 !in Keys(acc) {
        DistinctLater(Keys(b), i);
        FreshCons(k0, Keys(b)[i + 1..], Keys(acc));
      }
    }
  }

  /** Keys of the base keep their positions; keys only in the override follow,
      in the override's order. */
  lemma MergeKeys(a: Entries, b: Entries)
    requires UniqueKeys(b)
    ensures Keys(DeepMerge(a, b)) == Keys(a) + Fresh(Keys(b), Keys(a))
  {
    MergeFromKeys(a, b, 0);
    assert Keys(b)[0..] == Keys(b);
  }

  /** The keys of the result are those of the base and those of the override. */
  lemma MergeKeySet(a: Entries, b: Entries, k: Key)
    requires UniqueKeys(b)
    ensures k in Keys(DeepMerge(a, b)) <==> k in Keys(a) || k in Keys(b)
  {
    MergeKeys(a, b);
    FreshMembers(Keys(b), Keys(a), k);
  }

  lemma {:induction false} MergeFromKeepsBase(acc: Entries, b: Entries, i: nat, j: nat)
    requires i <= |b| && j < |acc| && acc[j].0 !in Keys(b)[i..]
    ensures j < |MergeFrom(acc, b, i)| && MergeFrom(acc, b, i)[j] == acc[j]
    decreases |b| - i
  {
    if i < |b| {
      var acc' := Put(acc, b[i].0, Combine(Lookup(acc, b[i].0), b[i].1));
      assert Keys(b)[i..][0] == b[i].0 && Keys(b)[i..][1..] == Keys(b)[i + 1..];
      PutAt(acc, b[i].0, Combine(Lookup(acc, b[i].0), b[i].1), j);
      MergeFromKeepsBase(acc', b, i + 1, j);
    }
  }

  /** An entry of the base whose key the override does not mention survives
      with its value, at its position. */
  lemma MergeKeepsBase(a: Entries, b: Entries, j: nat)
    requires j < |a| && a[j].0 !in Keys(b)
    ensures j < |DeepMerge(a, b)| && DeepMerge(a, b)[j] == a[j]
  {
    assert Keys(b)[0..] == Keys(b);
    MergeFromKeepsBase(a, b, 0, j);
  }

  lemma {:induction false} MergeFromUnique(acc: Entries, b: Entries, i: nat)
    requires UniqueKeys(acc) && i <= |b|
    ensures UniqueKeys(MergeFrom(acc, b, i))
    decreases |b| - i
  {
    if i < |b| {
      PutUnique(acc, b[i].0, Combine(Lookup(acc, b[i].0), b[i].1));
      MergeFromUnique(Put(acc, b[i].0, Combine(Lookup(acc, b[i].0), b[i].1)), b, i + 1);
    }
  }

  /** The result is a well-formed PHP array when the base is. */
  lemma MergeUnique(a: Entries, b: Entries)
    requires UniqueKeys(a)
    ensures UniqueKeys(DeepMerge(a, b))
  {
    MergeFromUnique(a, b, 0);
  }

  // ---------------------------------------------------------------------
  // The merge in the library's own test

  /** The nested `touloulou` arrays of the library's test merge key by key. */
  lemma MergeExampleNested()
    ensures DeepMerge(ExampleInnerBase, ExampleInnerOverride) == ExampleInner
  {
    var innerBase := ExampleInnerBase;
    var innerOverride := ExampleInnerOverride;
    var i2 := [(StrKey("a"), Int(12)), (StrKey("b"), Int(24)), (StrKey("d"), Int(78))];
    var inner := i2 + [(StrKey("e"), Int(1))];
    assert Lookup(innerBase, StrKey("b")) == Some(Int(24));
    assert Put(innerBase, StrKey("b"), Int(24)) == innerBase;
    assert MergeFrom(innerBase, innerOverride, 0) == MergeFrom(innerBase, innerOverride, 1);
    assert Lookup(innerBase, StrKey("d")) == Some(Int(137));
    assert Put(innerBase, StrKey("d"), Int(78)) == i2;
    assert MergeFrom(innerBase, innerOverride, 1) == MergeFrom(i2, innerOverride, 2);
    assert MergeFrom(i2, innerOverride, 2) == MergeFrom(inner, innerOverride, 3);
  }

  // The arrays of the library's test, and the states the merge passes through.
  const ExampleInnerBase: Entries := [(StrKey("a"), Int(12)), (StrKey("b"), Int(24)), (StrKey("d"), Int(137))]
  const ExampleInnerOverride: Entries := [(StrKey("b"), Int(24)), (StrKey("d"), Int(78)), (StrKey("e"), Int(1))]
  const ExampleInner: Entries := [(StrKey("a"), Int(12)), (StrKey("b"), Int(24)), (StrKey("d"), Int(78)), (StrKey("e"), Int(1))]
  const ExampleBase: Entries := [
    (IntKey(0), Str("b")),
    (IntKey(137), Int(12)),
    (StrKey("touloulou"), Arr(ExampleInnerBase))]
  const ExampleOverride: Entries := [
    (IntKey(0), Arr([(StrKey("c"), Bool(false))])),
    (IntKey(1), Str("b")),
    (IntKey(2), Str("12")),
    (StrKey("touloulou"), Arr(ExampleInnerOverride))]
  const ExampleStep1: Entries := [
    (IntKey(0), Arr([(StrKey("c"), Bool(false))])),
    (IntKey(137), Int(12)),
    (StrKey("touloulou"), Arr(ExampleInnerBase))]
  const ExampleStep2: Entries := ExampleStep1 + [(IntKey(1), Str("b"))]
  const ExampleStep3: Entries := ExampleStep2 + [(IntKey(2), Str("12"))]
  const ExampleMerged: Entries := [
    (IntKey(0), Arr([(StrKey("c"), Bool(false))])),
    (IntKey(137), Int(12)),
    (StrKey("touloulou"), Arr(ExampleInner)),
    (IntKey(1), Str("b")),
    (IntKey(2), Str("12"))]

  /** The merge of the library's test: a list merges position by position
      with a list (the scalar at 0 is replaced by an array, positions 1 and
      2 are appended after the base's keys) while the nested `touloulou`
      arrays merge key by key. */
  lemma MergeExample()
    ensures DeepMerge(ExampleBase, ExampleOverride) == ExampleMerged
  {
    ExampleFirst();
    ExampleAppend(ExampleStep1, 1, ExampleStep2);
    ExampleAppend(ExampleStep2, 2, ExampleStep3);
    ExampleLast();
  }

  lemma ExampleFirst()
    ensures MergeFrom(ExampleBase, ExampleOverride, 0) == MergeFrom(ExampleStep1, ExampleOverride, 1)
  {
    assert Lookup(ExampleBase, IntKey(0)) == Some(Str("b"));
    assert Put(ExampleBase, IntKey(0), ExampleOverride[0].1) == ExampleStep1;
  }

  lemma ExampleAppend(acc: Entries, i: nat, next: Entries)
    requires 0 < i < 3 && next == acc + [ExampleOverride[i]]
    requires forall j :: 0 <= j < |acc| ==> acc[j].0 != ExampleOverride[i].0
    ensures MergeFrom(acc, ExampleOverride, i) == MergeFrom(next, ExampleOverride, i + 1)
  {
    var k := ExampleOverride[i].0;
    LookupFound(acc, k);
    PutNew(acc, k, ExampleOverride[i].1);
  }

  lemma ExampleLast()
    ensures MergeFrom(ExampleStep3, ExampleOverride, 3) == ExampleMerged
  {
    MergeExampleNested();
    var s3 := ExampleStep3;
    var k := StrKey("touloulou");
    assert s3[2] == (k, Arr(ExampleInnerBase));
    assert Lookup(s3, k) == Lookup(s3[1..], k) == Lookup(s3[2..], k) == Some(Arr(ExampleInnerBase));
    assert Put(s3[2..], k, Arr(ExampleInner)) == [(k, Arr(ExampleInner))] + s3[3..];
    assert Put(s3, k, Arr(ExampleInner)) == ExampleMerged;
    assert MergeFrom(ExampleMerged, ExampleOverride, 4) == ExampleMerged;
  }
}
