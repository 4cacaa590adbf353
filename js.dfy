/** The slice of JavaScript semantics that the scripts and pages rely on:
    parsed JSON values with their truthiness, property reads, the `||`
    fallback chains, String() and Number() conversion, a few string methods
    (`includes`, `toLowerCase`, `split('.').pop()`) and the array methods
    `filter`, `find`, `some`, `map` and `slice`. */
module Js {

  datatype Option<T> = None | Some(value: T)

  /** A value as produced by `JSON.parse` (plus `undefined` for an absent
      property). Objects are keyed by property name. */
  datatype Value =
    | Undef
    | Null
    | Bool(b: bool)
    | Num(n: real)
    | Str(s: string)
    | Arr(items: seq<Value>)
    | Obj(fields: map<string, Value>)

  /** JavaScript truthiness (NaN is not a value of this model). */
  predicate Truthy(v: Value) {
    match v
    case Undef => false
    case Null => false
    case Bool(b) => b
    case Num(n) => n != 0.0
    case Str(s) => s != ""
    case Arr(_) => true
    case Obj(_) => true
  }

  /** `v === undefined || v === null` */
  predicate Nullish(v: Value) {
    v.Undef? || v.Null?
  }

  /** `a || b`: the first operand when it is truthy, else the second. */
  function Or(a: Value, b: Value): Value {
    if Truthy(a) then a else b
  }

  /** `v.key`; reading a property of a non-object yields undefined. */
  function Get(v: Value, key: string): Value {
    if v.Obj? && key in v.fields then v.fields[key] else Undef
  }

  // ---------------------------------------------------------------------
  // Numbers as text

  function DigitChar(d: int): char
    requires 0 <= d < 10
  {
    "0123456789"[d]
  }

  /** Decimal digits of a natural number, most significant first. */
  function NatText(n: nat): (r: string)
    ensures |r| > 0
    decreases n
  {
    if n < 10 then [DigitChar(n)] else NatText(n / 10) + [DigitChar(n % 10)]
  }

  function IntText(n: int): string {
    if n < 0 then "-" + NatText(-n) else NatText(n)
  }

  /** At most `fuel` decimal digits of a fraction in [0, 1), stopping as soon
      as the remainder is zero. */
  function FractionDigits(f: real, fuel: nat): string
    requires 0.0 <= f < 1.0
    decreases fuel
  {
    if f == 0.0 || fuel == 0 then ""
    else
      var d := (f * 10.0).Floor;
      [DigitChar(d)] + FractionDigits(f * 10.0 - d as real, fuel - 1)
  }

  /** String(n) for a number with at most 20 decimal places. */
  function NumberText(n: real): string
    decreases if n < 0.0 then 1 else 0
  {
    if n < 0.0 then "-" + NumberText(-n)
    else
      var whole := n.Floor;
      var frac := n - whole as real;
      if frac == 0.0 then NatText(whole) else NatText(whole) + "." + FractionDigits(frac, 20)
  }

  /** String(v) and the text a template literal or `join` writes for v. */
  function Text(v: Value): string {
    match v
    case Undef => "undefined"
    case Null => "null"
    case Bool(b) => if b then "true" else "false"
    case Num(n) => NumberText(n)
    case Str(s) => s
    case Arr(items) =>
      Join(seq(|items|, i requires 0 <= i < |items| => if Nullish(items[i]) then "" else Text(items[i])))
    case Obj(_) => "[object Object]"
  }

  // ---------------------------------------------------------------------
  // Numbers from text

  predicate IsDigit(c: char) {
    '0' <= c <= '9'
  }

  predicate AllDigits(s: string) {
    forall i :: 0 <= i < |s| ==> IsDigit(s[i])
  }

  /** The value of a run of decimal digits. */
  function DigitsValue(s: string): nat
    requires AllDigits(s)
    decreases |s|
  {
    if s == [] then 0 else DigitsValue(s[..|s| - 1]) * 10 + (s[|s| - 1] as int - '0' as int)
  }

  function Pow10(n: nat): (p: nat)
    ensures p > 0
  {
    if n == 0 then 1 else 10 * Pow10(n - 1)
  }

  /** The position of the first '.', or the length when there is none. */
  function DotAt(s: string): (k: nat)
    ensures k <= |s|
    ensures forall i :: 0 <= i < k ==> s[i] != '.'
    ensures k < |s| ==> s[k] == '.'
    decreases |s|
  {
    if s == [] || s[0] == '.' then 0 else 1 + DotAt(s[1..])
  }

  /** An unsigned decimal literal: digits, optionally a '.' and more digits,
      with at least one digit in all. */
  function UnsignedDecimal(s: string): Option<real> {
    var k := DotAt(s);
    var whole := s[..k];
    var frac := if k < |s| then s[k + 1..] else [];
    if AllDigits(whole) && AllDigits(frac) && |whole| + |frac| > 0 then
      Some(DigitsValue(whole) as real + DigitsValue(frac) as real / Pow10(|frac|) as real)
    else None
  }

  predicate IsSpace(c: char) {
    c == ' ' || c == '\t' || c == '\n' || c == '\r' || c == '\U{B}' || c == '\U{C}'
  }

  function TrimStart(s: string): string
    decreases |s|
  {
    if s != [] && IsSpace(s[0]) then TrimStart(s[1..]) else s
  }

  function TrimEnd(s: string): string
    decreases |s|
  {
    if s != [] && IsSpace(s[|s| - 1]) then TrimEnd(s[..|s| - 1]) else s
  }

  /** `Number(s)` for a string, None standing for NaN: blank text is 0, an
      optional sign followed by an unsigned decimal literal is its value. */
  function StringToNumber(s: string): Option<real> {
    var t := TrimEnd(TrimStart(s));
    if t == [] then Some(0.0)
    else if t[0] == '-' then
      (match UnsignedDecimal(t[1..])
       case Some(x) => Some(-x)
       case None => None)
    else if t[0] == '+' then UnsignedDecimal(t[1..])
    else UnsignedDecimal(t)
  }

  /** `Number(v)`, None standing for NaN. An array converts through its
      text; an object's text is never numeric. */
  function ToNumber(v: Value): Option<real> {
    match v
    case Undef => None
    case Null => Some(0.0)
    case Bool(b) => Some(if b then 1.0 else 0.0)
    case Num(n) => Some(n)
    case Str(s) => StringToNumber(s)
    case Arr(_) => StringToNumber(Text(v))
    case Obj(_) => None
  }

  lemma DigitCharValue(d: int)
    requires 0 <= d < 10
    ensures IsDigit(DigitChar(d)) && DigitChar(d) as int - '0' as int == d
  {
    assert "0123456789"[0] == '0' && "0123456789"[1] == '1' && "0123456789"[2] == '2';
    assert "0123456789"[3] == '3' && "0123456789"[4] == '4' && "0123456789"[5] == '5';
    assert "0123456789"[6] == '6' && "0123456789"[7] == '7' && "0123456789"[8] == '8';
    assert "0123456789"[9] == '9';
  }

  /** The decimal text of a natural number reads back as that number. */
  lemma {:induction false} DigitsOfNatText(n: nat)
    ensures AllDigits(NatText(n)) && DigitsValue(NatText(n)) == n
    decreases n
  {
    if n < 10 {
      DigitCharValue(n);
    } else {
      DigitsOfNatText(n / 10);
      DigitCharValue(n % 10);
      var s := NatText(n);
      assert s[..|s| - 1] == NatText(n / 10);
    }
  }

  /** Trimming leaves a run of digits as it is. */
  lemma TrimDigits(s: string)
    requires AllDigits(s) && s != []
    ensures TrimEnd(TrimStart(s)) == s
  {
    assert IsDigit(s[0]) && IsDigit(s[|s| - 1]);
  }

  /** A run of digits reads as an unsigned decimal literal with no fraction. */
  lemma UnsignedDigits(s: string)
    requires AllDigits(s) && s != []
    ensures UnsignedDecimal(s) == Some(DigitsValue(s) as real)
  {
    DotAtDigits(s);
    assert s[..|s|] == s;
    assert DigitsValue([]) == 0 && Pow10(0) == 1;
  }

  /** A run of digits has no '.'. */
  lemma DotAtDigits(s: string)
    requires AllDigits(s)
    ensures DotAt(s) == |s|
  {
    assert forall i :: 0 <= i < |s| ==> s[i] != '.';
  }

  /** `Number(String(n))` gives `n` back for a natural number. */
  lemma NatTextRoundTrip(n: nat)
    ensures StringToNumber(NatText(n)) == Some(n as real)
  {
    var s := NatText(n);
    DigitsOfNatText(n);
    TrimDigits(s);
    UnsignedDigits(s);
    assert IsDigit(s[0]);
  }

  // ---------------------------------------------------------------------
  // Strings

  predicate StartsWith(s: string, prefix: string) {
    |prefix| <= |s| && s[..|prefix|] == prefix
  }

  /** `s.includes(sub)` */
  predicate Includes(s: string, sub: string)
    decreases |s|
  {
    StartsWith(s, sub) || (s != [] && Includes(s[1..], sub))
  }

  /** `sub` occurs in `s` starting at position i. */
  predicate OccursAt(s: string, sub: string, i: int) {
    0 <= i && i + |sub| <= |s| && s[i..i + |sub|] == sub
  }

  lemma {:induction false} IncludesAt(s: string, sub: string, i: nat)
    requires OccursAt(s, sub, i)
    ensures Includes(s, sub)
    decreases i
  {
    if i == 0 {
      assert s[..|sub|] == s[0..|sub|];
    } else {
      assert s[1..][i - 1..i - 1 + |sub|] == s[i..i + |sub|];
      IncludesAt(s[1..], sub, i - 1);
    }
  }

  lemma {:induction false} IncludesWitness(s: string, sub: string) returns (i: nat)
    requires Includes(s, sub)
    ensures OccursAt(s, sub, i)
    decreases |s|
  {
    if StartsWith(s, sub) {
      i := 0;
      assert s[0..|sub|] == s[..|sub|];
    } else {
      var j := IncludesWitness(s[1..], sub);
      i := j + 1;
      assert s[i..i + |sub|] == s[1..][j..j + |sub|];
    }
  }

  /** `includes` means: occurs at some position. */
  lemma IncludesIffOccurs(s: string, sub: string)
    ensures Includes(s, sub) <==> exists i :: OccursAt(s, sub, i)
  {
    if Includes(s, sub) {
      var i := IncludesWitness(s, sub);
    }
    if exists i :: OccursAt(s, sub, i) {
      var i :| OccursAt(s, sub, i);
      IncludesAt(s, sub, i);
    }
  }

  /** Every string includes itself, so an exact match is also a substring match. */
  lemma IncludesSelf(s: string)
    ensures Includes(s, s)
  {
    assert StartsWith(s, s);
  }

  function LowerChar(c: char): char {
    if 'A' <= c <= 'Z' then (c as int + 32) as char else c
  }

  /** `s.toLowerCase()` on the ASCII letters. */
  function Lower(s: string): (r: string)
    ensures |r| == |s|
    ensures forall i :: 0 <= i < |s| ==> r[i] == LowerChar(s[i])
  {
    seq(|s|, i requires 0 <= i < |s| => LowerChar(s[i]))
  }

  /** `s.split('.').pop()`: the text after the last '.', or all of s. */
  function LastSegment(s: string): string
    decreases |s|
  {
    if s == [] then ""
    else if s[|s| - 1] == '.' then ""
    else LastSegment(s[..|s| - 1]) + [s[|s| - 1]]
  }

  /** The last segment is a dot-free suffix that is either the whole text or
      starts right after a dot. */
  lemma {:induction false} LastSegmentIsLastPart(s: string)
    ensures var r := LastSegment(s);
      && |r| <= |s| && s[|s| - |r|..] == r && '.' !in r
      && (|r| == |s| || s[|s| - |r| - 1] == '.')
    decreases |s|
  {
    if s != [] && s[|s| - 1] != '.' {
      var p := s[..|s| - 1];
      LastSegmentIsLastPart(p);
      var r := LastSegment(p);
      assert s[|s| - |r| - 1..] == p[|p| - |r|..] + [s[|s| - 1]];
    }
  }

  // ---------------------------------------------------------------------
  // Arrays

  /** `xs.filter(p)` */
  function Filter<T>(xs: seq<T>, p: T -> bool): seq<T>
    decreases |xs|
  {
    if xs == [] then [] else (if p(xs[0]) then [xs[0]] else []) + Filter(xs[1..], p)
  }

  /** A filter keeps exactly the elements satisfying the test and never
      grows the array. */
  lemma {:induction false} FilterMembers<T>(xs: seq<T>, p: T -> bool)
    ensures |Filter(xs, p)| <= |xs|
    ensures forall x :: x in Filter(xs, p) <==> x in xs && p(x)
    decreases |xs|
  {
    if xs != [] {
      FilterMembers(xs[1..], p);
      assert xs == [xs[0]] + xs[1..];
    }
  }

  /** Filtering distributes over concatenation: relative order is kept. */
  lemma {:induction false} FilterConcat<T>(xs: seq<T>, ys: seq<T>, p: T -> bool)
    ensures Filter(xs + ys, p) == Filter(xs, p) + Filter(ys, p)
    decreases |xs|
  {
    if xs != [] {
      assert (xs + ys)[1..] == xs[1..] + ys;
      FilterConcat(xs[1..], ys, p);
    } else {
      assert xs + ys == ys;
    }
  }

  /** Filtering an array extended by one element. */
  lemma FilterSnoc<T>(xs: seq<T>, x: T, p: T -> bool)
    ensures Filter(xs + [x], p) == Filter(xs, p) + (if p(x) then [x] else [])
  {
    FilterConcat(xs, [x], p);
    assert Filter([x], p) == (if p(x) then [x] else []) + Filter([], p);
  }

  /** A filter whose test holds everywhere keeps the whole array. */
  lemma {:induction false} FilterAll<T>(xs: seq<T>, p: T -> bool)
    requires forall x :: x in xs ==> p(x)
    ensures Filter(xs, p) == xs
    decreases |xs|
  {
    if xs != [] {
      FilterAll(xs[1..], p);
    }
  }

  /** A filter whose test fails everywhere keeps nothing. */
  lemma {:induction false} FilterNone<T>(xs: seq<T>, p: T -> bool)
    requires forall x :: x in xs ==> !p(x)
    ensures Filter(xs, p) == []
    decreases |xs|
  {
    if xs != [] {
      assert xs[0] in xs;
      FilterNone(xs[1..], p);
    }
  }

  /** `xs.find(p)` */
  function Find<T>(xs: seq<T>, p: T -> bool): Option<T>
    decreases |xs|
  {
    if xs == [] then None else if p(xs[0]) then Some(xs[0]) else Find(xs[1..], p)
  }

  /** `find` returns the first element passing the test, or nothing when no
      element passes. */
  lemma {:induction false} FindFirst<T>(xs: seq<T>, p: T -> bool)
    ensures Find(xs, p).None? <==> forall x :: x in xs ==> !p(x)
    ensures Find(xs, p).Some? ==>
      exists i :: (0 <= i < |xs| && xs[i] == Find(xs, p).value && p(xs[i])
                   && forall j :: 0 <= j < i ==> !p(xs[j]))
    decreases |xs|
  {
    if xs != [] && !p(xs[0]) {
      FindFirst(xs[1..], p);
      if Find(xs, p).Some? {
        var i :| 0 <= i < |xs[1..]| && xs[1..][i] == Find(xs, p).value && p(xs[1..][i])
                 && forall j :: 0 <= j < i ==> !p(xs[1..][j]);
        assert xs[i + 1] == Find(xs, p).value;
        forall j | 0 <= j < i + 1 ensures !p(xs[j]) {
          if j > 0 { assert xs[j] == xs[1..][j - 1]; }
        }
      }
    } else if xs != [] {
      assert xs[0] == Find(xs, p).value;
    }
  }

  /** A found element is an element of the array. */
  lemma FoundIsMember<T>(xs: seq<T>, p: T -> bool)
    ensures Find(xs, p).Some? ==> Find(xs, p).value in xs && p(Find(xs, p).value)
  {
    FindFirst(xs, p);
  }

  /** Filtering twice by the same test changes nothing. */
  lemma {:induction false} FilterIdempotent<T>(xs: seq<T>, p: T -> bool)
    ensures Filter(Filter(xs, p), p) == Filter(xs, p)
    decreases |xs|
  {
    if xs != [] {
      FilterIdempotent(xs[1..], p);
      var head := if p(xs[0]) then [xs[0]] else [];
      FilterConcat(head, Filter(xs[1..], p), p);
      if p(xs[0]) {
        assert Filter(head, p) == [xs[0]] + Filter([], p);
      }
    }
  }

  /** `xs[i]` for any element type, absent past either end. */
  function Nth<T>(xs: seq<T>, i: int): (r: Option<T>)
    ensures r.Some? <==> 0 <= i < |xs|
    ensures r.Some? ==> r.value == xs[i]
  {
    if 0 <= i < |xs| then Some(xs[i]) else None
  }

  /** `a || b` where both operands are an object or undefined. */
  function OrElse<T>(a: Option<T>, b: Option<T>): Option<T> {
    if a.Some? then a else b
  }

  /** `xs[i]`, undefined past the end. */
  function At(xs: seq<Value>, i: int): Value {
    if 0 <= i < |xs| then xs[i] else Undef
  }

  /** `xs.find(p)` on values: the element, or undefined. */
  function FindValue(xs: seq<Value>, p: Value -> bool): Value {
    match Find(xs, p)
    case Some(v) => v
    case None => Undef
  }

  /** `[...xs].reverse()` */
  function Reverse<T>(xs: seq<T>): (r: seq<T>)
    ensures |r| == |xs|
  {
    seq(|xs|, i requires 0 <= i < |xs| => xs[|xs| - 1 - i])
  }

  /** Searching the reversed array finds the LAST element passing the test. */
  lemma FindInReverseIsLast<T>(xs: seq<T>, p: T -> bool)
    ensures Find(Reverse(xs), p).None? <==> forall x :: x in xs ==> !p(x)
    ensures Find(Reverse(xs), p).Some? ==>
      exists i :: (0 <= i < |xs| && xs[i] == Find(Reverse(xs), p).value && p(xs[i])
                   && forall j :: i < j < |xs| ==> !p(xs[j]))
  {
    var r := Reverse(xs);
    FindFirst(r, p);
    assert forall x :: x in xs <==> x in r by {
      forall x | x in xs ensures x in r {
        var k :| 0 <= k < |xs| && xs[k] == x;
        assert r[|xs| - 1 - k] == x;
      }
    }
    if Find(r, p).Some? {
      var k :| 0 <= k < |r| && r[k] == Find(r, p).value && p(r[k]) && forall j :: 0 <= j < k ==> !p(r[j]);
      var i := |xs| - 1 - k;
      assert xs[i] == r[k];
      forall j | i < j < |xs| ensures !p(xs[j]) {
        assert xs[j] == r[|xs| - 1 - j];
      }
    }
  }

  /** Elements passing and elements failing a test together make up the
      whole array, so a filter pair never loses or duplicates a row. */
  lemma {:induction false} FilterPartition<T>(xs: seq<T>, p: T -> bool, q: T -> bool)
    requires forall x :: q(x) <==> !p(x)
    ensures |Filter(xs, p)| + |Filter(xs, q)| == |xs|
    decreases |xs|
  {
    if xs != [] {
      FilterPartition(xs[1..], p, q);
    }
  }

  /** `xs.some(p)` */
  predicate Some_<T>(xs: seq<T>, p: T -> bool) {
    exists i :: 0 <= i < |xs| && p(xs[i])
  }

  /** `xs.map(f)` */
  function Map<T, U>(xs: seq<T>, f: T -> U): (r: seq<U>)
    ensures |r| == |xs|
    ensures forall i :: 0 <= i < |xs| ==> r[i] == f(xs[i])
  {
    seq(|xs|, i requires 0 <= i < |xs| => f(xs[i]))
  }

  /** Mapping an array extended by one element. */
  lemma MapSnoc<T, U>(xs: seq<T>, x: T, f: T -> U)
    ensures Map(xs + [x], f) == Map(xs, f) + [f(x)]
  {
    assert Map(xs + [x], f)[|xs|] == f(x);
  }

  /** Where `slice` starts or ends for a possibly negative argument. */
  function SliceIndex(k: int, len: nat): (r: nat)
    ensures r <= len
  {
    if k < 0 then (if len + k < 0 then 0 else len + k) else if k < len then k else len
  }

  /** `xs.slice(start, end)` with JavaScript's handling of negative and
      out-of-range arguments. */
  function Slice<T>(xs: seq<T>, start: int, end: int): (r: seq<T>)
    ensures |r| <= |xs|
  {
    var a := SliceIndex(start, |xs|);
    var b := SliceIndex(end, |xs|);
    if a < b then xs[a..b] else []
  }

  /** `xs.slice(start)` */
  function SliceFrom<T>(xs: seq<T>, start: int): (r: seq<T>)
    ensures |r| <= |xs|
  {
    xs[SliceIndex(start, |xs|)..]
  }

  /** The comma-separated text `xs.join(",")`. */
  function Join(xs: seq<string>): string
    decreases |xs|
  {
    if xs == [] then "" else if |xs| == 1 then xs[0] else xs[0] + "," + Join(xs[1..])
  }
}
