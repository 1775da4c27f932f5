/** PHP's ordered arrays and the few language rules the library leans on:
    `isset`, truthiness (`if ($x)`, `empty($x)`), the `(int)` cast, the
    assignments `$a[$k] = $v` and `$a[] = $v`, and the normalisation of
    string keys that look like integers. */
module Php {
  import opened Wrappers

  /** An array key after PHP's normalisation: an integer or a string. */
  datatype Key = IntKey(i: int) | StrKey(s: string)

  /** The values that flow through the library. Floats are left out. */
  datatype Value =
    | Null
    | Bool(b: bool)
    | Int(i: int)
    | Str(s: string)
    | Arr(entries: seq<(Key, Value)>)

  /** The contents of a PHP array: key/value pairs in insertion order. */
  type Entries = seq<(Key, Value)>

  /** The exceptions the library throws, the TypeError PHP 7 raises on a
      type-hinted parameter, and the Error it raises on an array operand of
      arithmetic. */
  datatype Exception =
    | InvalidArgumentException(message: string)
    | RuntimeException(message: string)
    | TypeError(message: string)
    | Error(message: string)

  const PHP_INT_MAX: int := 0x7FFF_FFFF_FFFF_FFFF
  const PHP_INT_MIN: int := -PHP_INT_MAX - 1

  ghost predicate Distinct<T>(s: seq<T>) {
    forall i, j :: 0 <= i < j < |s| ==> s[i] != s[j]
  }

  /** `array_keys($a)` */
  function Keys(e: Entries): (ks: seq<Key>)
    ensures |ks| == |e|
    ensures forall i :: 0 <= i < |e| ==> ks[i] == e[i].0
  {
    seq(|e|, i requires 0 <= i < |e| => e[i].0)
  }

  /** Every PHP array has pairwise distinct keys. */
  ghost predicate UniqueKeys(e: Entries) {
    Distinct(Keys(e))
  }

  /** `$a[$k]` when the key exists. */
  function Lookup(e: Entries, k: Key): Option<Value> {
    if e == [] then None
    else if e[0].0 == k then Some(e[0].1)
    else Lookup(e[1..], k)
  }

  /** `isset($a[$k])`: the key exists and does not hold null. */
  predicate IsSet(e: Entries, k: Key) {
    Lookup(e, k).Some? && Lookup(e, k).value != Null
  }

  /** `isset($e[$k]) ? $e[$k] : $default` */
  function IssetOr(e: Entries, k: Key, default: Value): (r: Value)
    ensures IsSet(e, k) ==> r != Null && (k, r) in e
    ensures !IsSet(e, k) ==> r == default
  {
    if IsSet(e, k) then
      LookupFound(e, k);
      Lookup(e, k).value
    else default
  }

  /** `isset($v[$k])` where `$v` is an array or a value that is neither an
      array nor a string; every caller that passes a value that may be a
      string uses a fixed key that is not numeric, which no string offset
      matches (string offsets with a key from the caller are
      `StringOffset`). */
  predicate IsSetIn(v: Value, k: Key) {
    v.Arr? && IsSet(v.entries, k)
  }

  /** `isset($s[$k])` for a string `$s` and a string `$k` (PHP 7.1 and
      later): `$k` must be an integer numeric string (leading whitespace, an
      optional sign, digits and nothing else, within the 64-bit range), and
      its number, counted from the end when negative, must fall inside the
      string; the result is the offset read for `$s[$k]`. */
  function StringOffset(s: string, k: string): (r: Option<nat>)
    ensures r.Some? ==> r.value < |s|
  {
    var t := SkipSpace(k);
    var u := if t != [] && (t[0] == '-' || t[0] == '+') then t[1..] else t;
    if u == [] || !AllDigits(u) then None
    else
      var n := LeadingInt(k);
      var o := if n < 0 then n + |s| else n;
      if PHP_INT_MIN <= n <= PHP_INT_MAX && 0 <= o < |s| then Some(o) else None
  }

  /** `$a[$k] = $v`: an existing key keeps its position, a new key is
      appended. */
  function Put(e: Entries, k: Key, v: Value): Entries {
    if e == [] then [(k, v)]
    else if e[0].0 == k then [(k, v)] + e[1..]
    else [e[0]] + Put(e[1..], k, v)
  }

  /** `$a[$k1][$k2]...[$kn] = $v`: every missing or null level along the path
      springs into existence as an empty array. (Every level this library
      writes through is absent or an array already; a scalar level is
      replaced by a fresh array.) */
  function PutPath(e: Entries, path: seq<Key>, v: Value): Entries
    requires |path| >= 1
    decreases |path|
  {
    if |path| == 1 then Put(e, path[0], v)
    else
      var slot := Lookup(e, path[0]);
      var inside := if slot.Some? && slot.value.Arr? then slot.value.entries else [];
      Put(e, path[0], Arr(PutPath(inside, path[1..], v)))
  }

  /** The value `PutPath` builds below a level that did not exist: one
      single-entry array per remaining key. */
  function Nest(path: seq<Key>, v: Value): Value {
    if path == [] then v else Arr([(path[0], Nest(path[1..], v))])
  }

  function NextAfter(k: Key): int {
    if k.IntKey? && k.i >= 0 then k.i + 1 else 0
  }

  /** The key `$a[] = $v` uses: one past the largest integer key, and 0 when
      there is no non-negative integer key. */
  function NextIndex(e: Entries): nat {
    if e == [] then 0
    else
      var rest := NextIndex(e[..|e| - 1]);
      var last := NextAfter(e[|e| - 1].0);
      if rest < last then last else rest
  }

  /** `$a[] = $v` */
  function Push(e: Entries, v: Value): Entries {
    e + [(IntKey(NextIndex(e)), v)]
  }

  /** The values of an array in order: what `foreach ($a as $v)` visits. */
  function Values(e: Entries): (vs: seq<Value>)
    ensures |vs| == |e|
    ensures forall i :: 0 <= i < |e| ==> vs[i] == e[i].1
  {
    seq(|e|, i requires 0 <= i < |e| => e[i].1)
  }

  /** What `foreach ($v as $x)` visits on any value: an array's values, and
      nothing for a scalar (PHP only warns about it). */
  function Elements(v: Value): seq<Value> {
    if v.Arr? then Values(v.entries) else []
  }

  /** `foreach ($items as $x) { $out[] = new C($x); }` where the constructor
      `C(array $x)` may itself throw: the first element that is not an array
      raises `notArray`, the first failing construction raises its error. */
  function MapArrays<T>(items: seq<Value>, f: Entries -> Result<T, Exception>, notArray: Exception): Result<seq<T>, Exception>
  {
    if items == [] then Ok([])
    else if !items[0].Arr? then Err(notArray)
    else
      match f(items[0].entries)
      case Err(e) => Err(e)
      case Ok(x) =>
        match MapArrays(items[1..], f, notArray)
        case Err(e) => Err(e)
        case Ok(xs) => Ok([x] + xs)
  }

  /** `out` followed by the outcome of the remaining elements. */
  function Prepend<T>(out: seq<T>, r: Result<seq<T>, Exception>): Result<seq<T>, Exception> {
    if r.Ok? then Ok(out + r.value) else r
  }

  lemma PrependEmpty<T>(r: Result<seq<T>, Exception>)
    ensures Prepend([], r) == r
  {
    if r.Ok? { assert [] + r.value == r.value; }
  }

  lemma PrependDone<T>(out: seq<T>, items: seq<Value>, f: Entries -> Result<T, Exception>, notArray: Exception)
    ensures Prepend(out, MapArrays(items[|items|..], f, notArray)) == Ok(out)
  {
    assert items[|items|..] == [];
    assert out + [] == out;
  }

  /** One step of the loop that `MapArrays` describes. */
  lemma MapArraysStep<T>(items: seq<Value>, f: Entries -> Result<T, Exception>, notArray: Exception, out: seq<T>, i: nat)
    requires i < |items|
    ensures items[i].Arr? && f(items[i].entries).Ok? ==>
      Prepend(out, MapArrays(items[i..], f, notArray))
      == Prepend(out + [f(items[i].entries).value], MapArrays(items[i + 1..], f, notArray))
    ensures !items[i].Arr? ==> MapArrays(items[i..], f, notArray) == Err(notArray)
    ensures items[i].Arr? && f(items[i].entries).Err? ==>
      MapArrays(items[i..], f, notArray) == Err(f(items[i].entries).error)
  {
    assert items[i..][1..] == items[i + 1..];
    var rest := MapArrays(items[i + 1..], f, notArray);
    if items[i].Arr? && f(items[i].entries).Ok? && rest.Ok? {
      var x := f(items[i].entries).value;
      assert out + ([x] + rest.value) == (out + [x]) + rest.value;
    }
  }

  /** A failed construction raises `notArray` or an error of one of the
      constructions, so it raises nothing outside a set holding both. */
  lemma {:induction false} MapArraysError<T>(items: seq<Value>, f: Entries -> Result<T, Exception>, notArray: Exception, allowed: set<Exception>)
    requires notArray in allowed
    requires forall d :: f(d).Err? ==> f(d).error in allowed
    ensures MapArrays(items, f, notArray).Err? ==> MapArrays(items, f, notArray).error in allowed
    decreases |items|
  {
    if items != [] && items[0].Arr? && f(items[0].entries).Ok? {
      MapArraysError(items[1..], f, notArray, allowed);
    }
  }

  /** The construction succeeds exactly when every element is an array that
      constructs, and then yields one object per element, in order. */
  lemma {:induction false} MapArraysOk<T>(items: seq<Value>, f: Entries -> Result<T, Exception>, notArray: Exception)
    ensures MapArrays(items, f, notArray).Ok? <==>
      forall i :: 0 <= i < |items| ==> items[i].Arr? && f(items[i].entries).Ok?
    ensures MapArrays(items, f, notArray).Ok? ==>
      var out := MapArrays(items, f, notArray).value;
      |out| == |items| && forall i :: 0 <= i < |items| ==> out[i] == f(items[i].entries).value
  {
    if items != [] {
      MapArraysOk(items[1..], f, notArray);
      if items[0].Arr? && f(items[0].entries).Ok? && MapArrays(items[1..], f, notArray).Ok? {
        var out := MapArrays(items, f, notArray).value;
        forall i | 0 <= i < |items| ensures out[i] == f(items[i].entries).value {
          if i > 0 { assert items[1..][i - 1] == items[i]; }
        }
      } else if !(items[0].Arr? && f(items[0].entries).Ok?) {
      } else {
        var i :| 0 <= i < |items[1..]| && !(items[1..][i].Arr? && f(items[1..][i].entries).Ok?);
        assert items[i + 1] == items[1..][i];
      }
    }
  }

  /** A PHP list: keys 0, 1, 2, ... in order. */
  ghost predicate IsList(e: Entries) {
    forall i :: 0 <= i < |e| ==> e[i].0 == IntKey(i)
  }

  /** The list `[v0, v1, ...]`. */
  function ListOf(vs: seq<Value>): Entries {
    seq(|vs|, i requires 0 <= i < |vs| => (IntKey(i), vs[i]))
  }

  /** PHP truthiness: what `if ($v)` accepts and `empty($v)` rejects. */
  predicate Truthy(v: Value) {
    match v
    case Null => false
    case Bool(b) => b
    case Int(i) => i != 0
    case Str(s) => s != "" && s != "0"
    case Arr(e) => e != []
  }

  predicate IsDigit(c: char) {
    '0' <= c <= '9'
  }

  predicate AllDigits(s: string) {
    forall i :: 0 <= i < |s| ==> IsDigit(s[i])
  }

  /** The number a string of decimal digits denotes. */
  function DigitsValue(s: string): nat
    requires AllDigits(s)
  {
    if s == [] then 0
    else DigitsValue(s[..|s| - 1]) * 10 + (s[|s| - 1] as int - '0' as int)
  }

  /** The longest prefix of `s` made of decimal digits. */
  function DigitPrefix(s: string): (p: string)
    ensures AllDigits(p) && |p| <= |s| && p == s[..|p|]
  {
    if s != [] && IsDigit(s[0]) then [s[0]] + DigitPrefix(s[1..]) else []
  }

  predicate IsSpace(c: char) {
    c == ' ' || c == '\t' || c == '\n' || c == '\r' || c == '\U{0B}' || c == '\U{0C}'
  }

  function SkipSpace(s: string): string {
    if s != [] && IsSpace(s[0]) then SkipSpace(s[1..]) else s
  }

  /** `(int)$s` for a string: leading whitespace, an optional sign and the
      leading decimal digits; 0 when there are none. */
  function LeadingInt(s: string): int {
    var t := SkipSpace(s);
    if t != [] && t[0] == '-' then 0 - DigitsValue(DigitPrefix(t[1..]))
    else if t != [] && t[0] == '+' then DigitsValue(DigitPrefix(t[1..]))
    else DigitsValue(DigitPrefix(t))
  }

  /** `(int)$v` */
  function ToInt(v: Value): int {
    match v
    case Null => 0
    case Bool(b) => if b then 1 else 0
    case Int(i) => i
    case Str(s) => LeadingInt(s)
    case Arr(e) => if e == [] then 0 else 1
  }

  /** The operand of `+`, `-` or `*`: an array raises PHP 7's `Error`, every
      other value is converted as `(int)` does. */
  function ToNumber(v: Value): Result<int, Exception> {
    if v.Arr? then Err(Error("Unsupported operand types")) else Ok(ToInt(v))
  }

  // ---------------------------------------------------------------------
  // Loose comparison (`==`) as PHP 7 defines it

  function Pow10(n: nat): (r: nat)
    ensures r >= 1
  {
    if n == 0 then 1 else 10 * Pow10(n - 1)
  }

  /** A number read at the start of a string: how many characters it
      takes (0 when there is none) and its exact value. */
  datatype Scan = Scan(len: nat, value: real)

  /** An exponent `e`/`E`, an optional sign and at least one digit; an `e`
      without digits after it is not part of the number. */
  function ScanExponent(t: string): (r: (nat, int))
    ensures r.0 <= |t|
  {
    if t == [] || (t[0] != 'e' && t[0] != 'E') then (0, 0)
    else
      var u := t[1..];
      var signed := u != [] && (u[0] == '-' || u[0] == '+');
      var ds := DigitPrefix(if signed then u[1..] else u);
      if ds == [] then (0, 0)
      else
        var n := DigitsValue(ds);
        (1 + (if signed then 1 else 0) + |ds|, if signed && u[0] == '-' then 0 - n else n)
  }

  /** The number PHP 7 reads at the start of `t`: an optional sign, then
      digits with an optional `.` and fraction digits (or a `.` and at
      least one digit), then an optional exponent. */
  function ScanNumber(t: string): (r: Scan)
    ensures r.len <= |t|
    ensures r.len == 0 ==> r.value == 0.0
  {
    var signed := t != [] && (t[0] == '-' || t[0] == '+');
    var u := if signed then t[1..] else t;
    var ip := DigitPrefix(u);
    var rest := u[|ip|..];
    var dot := rest != [] && rest[0] == '.';
    var fp := if dot then DigitPrefix(rest[1..]) else [];
    if ip == [] && fp == [] then Scan(0, 0.0)
    else
      var mlen := |ip| + (if dot then 1 + |fp| else 0);
      var mantissa := DigitsValue(ip) as real + DigitsValue(fp) as real / Pow10(|fp|) as real;
      var e := ScanExponent(u[mlen..]);
      var magnitude := if e.1 >= 0 then mantissa * Pow10(e.1) as real else mantissa / Pow10(0 - e.1) as real;
      Scan((if signed then 1 else 0) + mlen + e.0, if signed && t[0] == '-' then 0.0 - magnitude else magnitude)
  }

  /** A numeric string under PHP 7: leading whitespace, then a number that
      takes up the rest (trailing whitespace is not allowed). */
  predicate IsNumeric(s: string) {
    var t := SkipSpace(s);
    var n := ScanNumber(t);
    n.len > 0 && n.len == |t|
  }

  /** The number a string stands for when it meets a number: the number at
      its start after whitespace, 0 when there is none. */
  function NumericPrefix(s: string): real {
    ScanNumber(SkipSpace(s)).value
  }

  /** `$a == $b` under PHP 7. A boolean compares truthiness; `null` equals
      only `""` among strings and a falsy value otherwise; an integer and a
      string compare as numbers, reading the number at the string's start;
      two strings compare as numbers when both are numeric and character by
      character otherwise; two arrays are equal when they have as many
      entries and every key of the first holds a loosely equal value in the
      second; an array equals no integer or string. */
  predicate LooseEq(a: Value, b: Value)
    decreases a
  {
    if a == b then true
    else if a.Bool? then a.b == Truthy(b)
    else if b.Bool? then Truthy(a) == b.b
    else if a.Null? && b.Str? then b.s == ""
    else if a.Str? && b.Null? then a.s == ""
    else if a.Null? then !Truthy(b)
    else if b.Null? then !Truthy(a)
    else if a.Int? && b.Str? then a.i as real == NumericPrefix(b.s)
    else if a.Str? && b.Int? then NumericPrefix(a.s) == b.i as real
    else if a.Str? && b.Str? then IsNumeric(a.s) && IsNumeric(b.s) && NumericPrefix(a.s) == NumericPrefix(b.s)
    else if a.Arr? && b.Arr? then
      && |a.entries| == |b.entries|
      && forall i :: 0 <= i < |a.entries| ==>
           var found := Lookup(b.entries, a.entries[i].0);
           found.Some? && LooseEq(a.entries[i].1, found.value)
    else false
  }

  /** `in_array($x, $list)` without its strict flag. */
  predicate InArray(x: Value, list: seq<Value>) {
    exists i :: 0 <= i < |list| && LooseEq(x, list[i])
  }

  /** A string that starts with a letter or `_` has no number at its start. */
  lemma WordNotNumeric(s: string)
    requires s != [] && ('a' <= s[0] <= 'z' || 'A' <= s[0] <= 'Z' || s[0] == '_')
    ensures !IsNumeric(s) && NumericPrefix(s) == 0.0
  {
    assert SkipSpace(s) == s;
    assert DigitPrefix(s) == [];
    assert s[0..] == s;
  }

  /** Two strings compare character by character when one of them is not
      numeric. */
  lemma LooseStrings(s: string, t: string)
    requires !IsNumeric(s) || !IsNumeric(t)
    ensures LooseEq(Str(s), Str(t)) <==> s == t
  {
  }

  /** `'10'` and `'1e1'` are both numeric and both the number 10. */
  lemma TenTwoWays()
    ensures IsNumeric("10") && NumericPrefix("10") == 10.0
    ensures IsNumeric("1e1") && NumericPrefix("1e1") == 10.0
  {
    assert SkipSpace("10") == "10" && SkipSpace("1e1") == "1e1";
    assert DigitPrefix("0") == "0" by { assert DigitPrefix("0"[1..]) == []; }
    assert DigitPrefix("10") == "10" by { assert "10"[1..] == "0"; }
    assert DigitsValue("10") == 10 by { assert "10"[..1] == "1"; assert "1"[..0] == []; }
    assert "10"[2..] == [];
    assert DigitPrefix("1e1") == "1" by { assert "1e1"[1..] == "e1"; assert DigitPrefix("e1") == []; }
    assert DigitsValue("1") == 1 by { assert "1"[..0] == []; }
    assert "1e1"[1..] == "e1" && "e1"[1..] == "1";
    assert DigitPrefix("1") == "1" by { assert "1"[1..] == []; }
    assert ScanExponent("e1") == (2, 1);
  }

  /** `'1'` reads as the number 1. */
  lemma OneReadsAsOne()
    ensures NumericPrefix("1") == 1.0
  {
    assert SkipSpace("1") == "1";
    assert DigitPrefix("1") == "1" by { assert "1"[1..] == []; }
    assert DigitsValue("1") == 1 by { assert "1"[..0] == []; }
    assert "1"[1..] == [];
  }

  /** PHP 7 finds equal what strict equality does not: a number written
      two ways, and an integer and its string. */
  lemma LooseNumbers()
    ensures LooseEq(Str("1e1"), Str("10"))
    ensures LooseEq(Str("1"), Int(1)) && LooseEq(Int(1), Str("1"))
  {
    TenTwoWays();
    OneReadsAsOne();
  }

  /** A word meets an integer as the number 0, and a `true` as truthy. */
  lemma LooseWord()
    ensures LooseEq(Str("title"), Int(0)) && LooseEq(Int(0), Str("title"))
    ensures LooseEq(Bool(true), Str("title"))
    ensures !LooseEq(Str("title"), Str("Title"))
  {
    WordNotNumeric("title");
    LooseStrings("title", "Title");
  }

  /** `null` equals `0` and `[]`, but not `'0'`; `[]` does not equal `0`. */
  lemma LooseNull()
    ensures LooseEq(Null, Int(0)) && LooseEq(Arr([]), Null)
    ensures !LooseEq(Null, Str("0")) && !LooseEq(Arr([]), Int(0))
  {
  }

  /** A string PHP reads as an integer key: "0", or an optional minus sign
      followed by digits without a leading zero. */
  predicate IsCanonicalDecimal(s: string) {
    || s == "0"
    || (|s| >= 1 && '1' <= s[0] <= '9' && AllDigits(s))
    || (|s| >= 2 && s[0] == '-' && '1' <= s[1] <= '9' && AllDigits(s[1..]))
  }

  function DecimalValue(s: string): int
    requires IsCanonicalDecimal(s)
  {
    if s[0] == '-' then 0 - DigitsValue(s[1..]) else DigitsValue(s)
  }

  /** The key `$a[$s]` uses for a string `$s`: canonical decimal integers in
      the 64-bit range become integer keys, everything else stays a string. */
  function ArrayKey(s: string): Key {
    if IsCanonicalDecimal(s) && PHP_INT_MIN <= DecimalValue(s) <= PHP_INT_MAX
    then IntKey(DecimalValue(s))
    else StrKey(s)
  }

  // ---------------------------------------------------------------------
  // Lemmas about lookup and assignment

  lemma {:induction false} LookupFound(e: Entries, k: Key)
    ensures Lookup(e, k).Some? <==> k in Keys(e)
    ensures Lookup(e, k).Some? ==> (k, Lookup(e, k).value) in e
  {
    if e != [] {
      LookupFound(e[1..], k);
      assert Keys(e) == [e[0].0] + Keys(e[1..]);
    }
  }

  lemma {:induction false} LookupUnique(e: Entries, i: nat)
    requires UniqueKeys(e) && i < |e|
    ensures Lookup(e, e[i].0) == Some(e[i].1)
  {
    if i > 0 {
      assert Keys(e)[0] != Keys(e)[i];
      assert UniqueKeys(e[1..]) by {
        forall a, b | 0 <= a < b < |e| - 1 ensures Keys(e[1..])[a] != Keys(e[1..])[b] {
          assert Keys(e)[a + 1] != Keys(e)[b + 1];
        }
      }
      LookupUnique(e[1..], i - 1);
    }
  }

  lemma {:induction false} PutLookup(e: Entries, k: Key, v: Value, k': Key)
    ensures Lookup(Put(e, k, v), k') == if k' == k then Some(v) else Lookup(e, k')
  {
    if e != [] && e[0].0 != k {
      PutLookup(e[1..], k, v, k');
    }
  }

  lemma {:induction false} PutKeys(e: Entries, k: Key, v: Value)
    ensures Keys(Put(e, k, v)) == if k in Keys(e) then Keys(e) else Keys(e) + [k]
  {
    if e != [] {
      var t := e[1..];
      KeysCons(e[0], t);
      assert e == [e[0]] + t;
      if e[0].0 != k {
        PutKeys(t, k, v);
        KeysCons(e[0], Put(t, k, v));
        assert (k in Keys(e)) == (k in Keys(t));
      } else {
        KeysCons((k, v), t);
      }
    }
  }

  lemma KeysCons(x: (Key, Value), r: Entries)
    ensures Keys([x] + r) == [x.0] + Keys(r)
  {
  }

  lemma {:induction false} PutAt(e: Entries, k: Key, v: Value, j: nat)
    requires j < |e| && e[j].0 != k
    ensures j < |Put(e, k, v)| && Put(e, k, v)[j] == e[j]
  {
    if j > 0 && e[0].0 != k {
      PutAt(e[1..], k, v, j - 1);
    }
  }

  lemma PutNew(e: Entries, k: Key, v: Value)
    requires k !in Keys(e)
    ensures Put(e, k, v) == e + [(k, v)]
  {
    if e != [] {
      assert Keys(e)[0] == e[0].0;
      assert k !in Keys(e[1..]) by {
        forall i | 0 <= i < |e| - 1 ensures Keys(e[1..])[i] != k {
          assert Keys(e)[i + 1] == Keys(e[1..])[i];
        }
      }
      PutNew(e[1..], k, v);
    }
  }

  /** Writing through a path whose first key is new appends the nested
      arrays at the end. */
  lemma {:induction false} PutPathNew(e: Entries, path: seq<Key>, v: Value)
    requires |path| >= 1 && path[0] !in Keys(e)
    ensures PutPath(e, path, v) == e + [(path[0], Nest(path[1..], v))]
    decreases |path|
  {
    LookupFound(e, path[0]);
    if |path| > 1 {
      var rest := path[1..];
      assert Keys([]) == [];
      PutPathNew([], rest, v);
      assert PutPath([], rest, v) == [(rest[0], Nest(rest[1..], v))];
      assert Nest(rest, v) == Arr([(rest[0], Nest(rest[1..], v))]);
      assert PutPath(e, path, v) == Put(e, path[0], Arr(PutPath([], rest, v)));
    }
    PutNew(e, path[0], Nest(path[1..], v));
  }

  /** `$a[$k] = $v` on a key already present at index `i`: the entry is
      replaced where it stands. */
  lemma {:induction false} PutExisting(e: Entries, i: nat, v: Value)
    requires UniqueKeys(e) && i < |e|
    ensures Put(e, e[i].0, v) == e[..i] + [(e[i].0, v)] + e[i + 1..]
  {
    if i > 0 {
      var k, t := e[i].0, e[1..];
      UniqueFirst(e, i);
      UniqueTail(e);
      PutExisting(t, i - 1, v);
      assert t[i - 1] == e[i];
      assert Put(e, k, v) == [e[0]] + Put(t, k, v);
      SpliceCons(e, i, (k, v));
    }
  }

  lemma UniqueFirst(e: Entries, i: nat)
    requires UniqueKeys(e) && 0 < i < |e|
    ensures e[0].0 != e[i].0
  {
    assert Keys(e)[0] != Keys(e)[i];
  }

  /** Replacing entry `i` of `e` is keeping the head and replacing entry
      `i - 1` of the tail. */
  lemma SpliceCons(e: Entries, i: nat, x: (Key, Value))
    requires 0 < i < |e|
    ensures [e[0]] + (e[1..][..i - 1] + [x] + e[1..][i..]) == e[..i] + [x] + e[i + 1..]
  {
    assert e[1..][..i - 1] == e[1..i] && e[1..][i..] == e[i + 1..];
    assert [e[0]] + e[1..i] == e[..i];
  }

  lemma UniqueTail(e: Entries)
    requires UniqueKeys(e) && e != []
    ensures UniqueKeys(e[1..])
  {
    forall a, b | 0 <= a < b < |e| - 1 ensures Keys(e[1..])[a] != Keys(e[1..])[b] {
      assert Keys(e)[a + 1] != Keys(e)[b + 1];
    }
  }

  /** Looking up the key of a new last entry finds that entry. */
  lemma {:induction false} LookupAppendNew(e: Entries, k: Key, v: Value)
    requires k !in Keys(e)
    ensures Lookup(e + [(k, v)], k) == Some(v)
  {
    if e != [] {
      assert Keys(e)[0] == e[0].0;
      assert k !in Keys(e[1..]) by {
        forall i | 0 <= i < |e| - 1 ensures Keys(e[1..])[i] != k {
          assert Keys(e)[i + 1] == Keys(e[1..])[i];
        }
      }
      assert (e + [(k, v)])[1..] == e[1..] + [(k, v)];
      LookupAppendNew(e[1..], k, v);
    }
  }

  /** Reassigning the key of the last entry, when no earlier entry has it,
      replaces that last entry. */
  lemma {:induction false} PutAppendLast(e: Entries, k: Key, v: Value, w: Value)
    requires k !in Keys(e)
    ensures Put(e + [(k, v)], k, w) == e + [(k, w)]
  {
    if e != [] {
      assert Keys(e)[0] == e[0].0;
      assert k !in Keys(e[1..]) by {
        forall i | 0 <= i < |e| - 1 ensures Keys(e[1..])[i] != k {
          assert Keys(e)[i + 1] == Keys(e[1..])[i];
        }
      }
      assert (e + [(k, v)])[1..] == e[1..] + [(k, v)];
      PutAppendLast(e[1..], k, v, w);
    }
  }

  lemma PutUnique(e: Entries, k: Key, v: Value)
    requires UniqueKeys(e)
    ensures UniqueKeys(Put(e, k, v))
  {
    PutKeys(e, k, v);
  }

  lemma {:induction false} NextIndexOfList(vs: seq<Value>)
    ensures NextIndex(ListOf(vs)) == |vs|
  {
    if vs != [] {
      var n := |vs| - 1;
      assert ListOf(vs)[..n] == ListOf(vs[..n]);
      NextIndexOfList(vs[..n]);
    }
  }

  /** Appending to a list with `$a[] = $v` extends the list. */
  lemma PushList(vs: seq<Value>, v: Value)
    ensures Push(ListOf(vs), v) == ListOf(vs + [v])
  {
    NextIndexOfList(vs);
  }
}
