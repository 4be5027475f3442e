/**
 * The Python built-ins the spawn tooling relies on, stated over Dafny values:
 * `int()`, membership of a value in a set of ints, `str.replace(p, "")`,
 * `str.title()`, `round(x, n)` and `sorted()` of a set of enum codes.
 */
module Builtins {
  import opened Wrappers

  /** A scalar as it arrives from a parsed JSON document or from a caller. */
  datatype Value = Int(i: int) | Float(x: real) | Str(s: string) | Bool(b: bool) | Null

  /** The exceptions the core raises. */
  datatype PyError = ValueError | TypeError | KeyError

  // ---------------------------------------------------------------- int()

  /** The characters that `int()` strips from both ends of a string. */
  predicate IsSpace(c: char) {
    || c == ' '
    || '\t' <= c <= '\r'
    || '\U{1C}' <= c <= '\U{1F}'
    || c == '\U{85}' || c == '\U{A0}' || c == '\U{1680}'
    || '\U{2000}' <= c <= '\U{200A}'
    || c == '\U{2028}' || c == '\U{2029}' || c == '\U{202F}' || c == '\U{205F}' || c == '\U{3000}'
  }

  predicate IsDigit(c: char) { '0' <= c <= '9' }

  function DigitValue(c: char): nat { if IsDigit(c) then c as int - '0' as int else 0 }

  function TrimStart(s: string): (r: string)
    ensures |r| <= |s| && r == s[|s| - |r|..]
    ensures r != [] ==> !IsSpace(r[0])
  {
    if s != [] && IsSpace(s[0]) then TrimStart(s[1..]) else s
  }

  function TrimEnd(s: string): (r: string)
    ensures |r| <= |s| && r == s[..|r|]
    ensures r != [] ==> !IsSpace(r[|r| - 1])
  {
    if s != [] && IsSpace(s[|s| - 1]) then TrimEnd(s[..|s| - 1]) else s
  }

  /** A digit run as `int()` accepts it: digits, with single underscores between digits. */
  predicate WellFormedDigits(d: string) {
    && |d| > 0 && IsDigit(d[0]) && IsDigit(d[|d| - 1])
    && (forall i :: 0 <= i < |d| ==> IsDigit(d[i]) || d[i] == '_')
    && (forall i :: 0 <= i < |d| - 1 && d[i] == '_' ==> d[i + 1] != '_')
  }

  /** The decimal value of the digits of d; underscores are skipped. */
  function DigitsValue(d: string): nat {
    if d == [] then 0
    else if d[|d| - 1] == '_' then DigitsValue(d[..|d| - 1])
    else DigitsValue(d[..|d| - 1]) * 10 + DigitValue(d[|d| - 1])
  }

  /** `int(s)` for a string: Some(n), or None where `int()` raises ValueError. */
  function ParseInt(s: string): Option<int> {
    var t := TrimEnd(TrimStart(s));
    if |t| > 0 && (t[0] == '+' || t[0] == '-') then
      if WellFormedDigits(t[1..]) then
        var n: int := DigitsValue(t[1..]);
        Some(if t[0] == '-' then -n else n)
      else None
    else if WellFormedDigits(t) then Some(DigitsValue(t))
    else None
  }

  /** A string that starts with a letter is never an integer literal. */
  lemma ParseIntRejectsLetterStart(s: string)
    requires s != [] && ('A' <= s[0] <= 'Z' || 'a' <= s[0] <= 'z')
    ensures ParseInt(s) == None
  {
    assert TrimStart(s) == s;
    var t := TrimEnd(s);
    assert t != [] ==> t[0] == s[0];
  }

  /** The integer toward which `int()` truncates a float. */
  function Trunc(x: real): (n: int)
    ensures 0.0 <= x ==> n as real <= x < n as real + 1.0
    ensures x < 0.0 ==> n as real - 1.0 < x <= n as real
  {
    if x >= 0.0 then x.Floor else -((-x).Floor)
  }

  /** `int(v)`: the integer, or the exception `int()` raises. */
  function PyInt(v: Value): (r: Result<int, PyError>)
    ensures v.Null? ==> r == Err(TypeError)
    ensures v.Int? ==> r == Ok(v.i)
    ensures v.Bool? ==> r == Ok(if v.b then 1 else 0)
    ensures v.Float? ==> r == Ok(Trunc(v.x))
    ensures v.Str? && ParseInt(v.s).Some? ==> r == Ok(ParseInt(v.s).value)
    ensures r.Err? ==> (r.error == TypeError <==> v.Null?)
    ensures r.Err? ==> (r.error == ValueError <==> v.Str?)
    ensures v.Str? ==> (r.Ok? <==> ParseInt(v.s).Some?)
  {
    match v
    case Int(i) => Ok(i)
    case Bool(b) => Ok(if b then 1 else 0)
    case Float(x) => Ok(Trunc(x))
    case Str(s) => (match ParseInt(s) case Some(n) => Ok(n) case None => Err(ValueError))
    case Null => Err(TypeError)
  }

  /**
   * The integer a value is equal to (with equal hash) under Python's `==`,
   * if any: this is what `v in some_set_of_ints` compares. Strings and None
   * never equal an int.
   */
  function NumericKey(v: Value): Option<int> {
    match v
    case Int(i) => Some(i)
    case Bool(b) => Some(if b then 1 else 0)
    case Float(x) => if x == x.Floor as real then Some(x.Floor) else None
    case _ => None
  }

  /** `v in s` for a set of ints s. */
  predicate PyIn(v: Value, s: set<int>) {
    NumericKey(v).Some? && NumericKey(v).value in s
  }

  /** A value equal to an int converts to that very int. */
  lemma NumericKeyConverts(v: Value)
    requires NumericKey(v).Some?
    ensures PyInt(v) == Ok(NumericKey(v).value)
  {
    if v.Float? && v.x < 0.0 {
      var k := v.x.Floor;
      assert (-v.x) == (-k) as real;
      assert (-v.x).Floor == -k;
    }
  }

  // ------------------------------------------------------ str.replace(p, "")

  /** s.replace(pat, ""): every non-overlapping occurrence of pat, scanned left to right, is removed. */
  function RemoveAll(s: string, pat: string): (r: string)
    requires pat != []
    ensures |r| <= |s|
    decreases |s|
  {
    if |pat| <= |s| && s[..|pat|] == pat then RemoveAll(s[|pat|..], pat)
    else if s == [] then []
    else [s[0]] + RemoveAll(s[1..], pat)
  }

  /** A string lacking some character of pat holds no occurrence of pat and is left unchanged. */
  lemma {:induction false} RemoveAllAbsent(s: string, pat: string, c: char)
    requires pat != [] && c in pat && c !in s
    ensures RemoveAll(s, pat) == s
    decreases |s|
  {
    if |pat| <= |s| {
      assert c !in s[..|pat|];
    }
    if s != [] {
      RemoveAllAbsent(s[1..], pat, c);
      assert s == [s[0]] + s[1..];
    }
  }

  /** A leading occurrence of pat is removed. */
  lemma RemoveAllLeading(pat: string, s: string)
    requires pat != []
    ensures RemoveAll(pat + s, pat) == RemoveAll(s, pat)
  {
    assert (pat + s)[..|pat|] == pat;
    assert (pat + s)[|pat|..] == s;
  }

  /** Removing a single character distributes over concatenation. */
  lemma {:induction false} RemoveCharAppend(a: string, b: string, c: char)
    ensures RemoveAll(a + b, [c]) == RemoveAll(a, [c]) + RemoveAll(b, [c])
    decreases |a|
  {
    if a != [] {
      assert (a + b)[..1] == [a[0]];
      assert (a + b)[1..] == a[1..] + b;
      RemoveCharAppend(a[1..], b, c);
    } else {
      assert a + b == b;
    }
  }

  // -------------------------------------------------------------- str.strip(cs)

  /** s.lstrip(cs): leading characters drawn from cs are dropped. */
  function StripLeading(s: string, cs: set<char>): (r: string)
    ensures |r| <= |s| && r == s[|s| - |r|..]
    ensures r != [] ==> r[0] !in cs
  {
    if s != [] && s[0] in cs then StripLeading(s[1..], cs) else s
  }

  /** s.rstrip(cs): trailing characters drawn from cs are dropped. */
  function StripTrailing(s: string, cs: set<char>): (r: string)
    ensures |r| <= |s| && r == s[..|r|]
    ensures r != [] ==> r[|r| - 1] !in cs
  {
    if s != [] && s[|s| - 1] in cs then StripTrailing(s[..|s| - 1], cs) else s
  }

  /** s.strip(cs): characters drawn from cs are dropped from both ends. */
  function Strip(s: string, cs: set<char>): string {
    StripTrailing(StripLeading(s, cs), cs)
  }

  // ------------------------------------------------------------- str.title()

  predicate IsUpper(c: char) { 'A' <= c <= 'Z' }
  predicate IsLower(c: char) { 'a' <= c <= 'z' }
  predicate IsCased(c: char) { IsUpper(c) || IsLower(c) }

  function ToUpper(c: char): char { if IsLower(c) then (c as int - 32) as char else c }
  function ToLower(c: char): char { if IsUpper(c) then (c as int + 32) as char else c }

  /** How str.title() treats one character, given whether the character before it is cased. */
  function TitleChar(prevCased: bool, c: char): char {
    if prevCased then ToLower(c) else ToUpper(c)
  }

  /** str.title() on ASCII text: a cased letter after a non-cased character (or at the start) is upper-cased, every other one lower-cased. */
  function Title(s: string): string { TitleAfter(s, false) }

  function TitleAfter(s: string, prevCased: bool): (r: string)
    ensures |r| == |s|
    ensures forall i :: 0 <= i < |s| ==> IsCased(r[i]) == IsCased(s[i])
    ensures forall i :: 0 <= i < |s| ==>
      r[i] == TitleChar(if i == 0 then prevCased else IsCased(s[i - 1]), s[i])
  {
    if s == [] then [] else [TitleChar(prevCased, s[0])] + TitleAfter(s[1..], IsCased(s[0]))
  }

  /** A lower-case word is title-cased by upper-casing its first letter only. */
  lemma TitleLowerWord(s: string)
    requires s != [] && forall i :: 0 <= i < |s| ==> IsLower(s[i])
    ensures Title(s) == [ToUpper(s[0])] + s[1..]
  {
    var t, w := Title(s), [ToUpper(s[0])] + s[1..];
    forall i | 0 <= i < |s| ensures t[i] == w[i] {
      if i > 0 {
        assert IsCased(s[i - 1]);
      }
    }
  }

  // ------------------------------------------------------------ round(x, n)

  function Pow10(n: nat): (r: nat)
    ensures r >= 1
  {
    if n == 0 then 1 else 10 * Pow10(n - 1)
  }

  /** The integer nearest to y; a tie goes to the even neighbour, as in Python's round(). */
  function RoundHalfEven(y: real): (n: int)
    ensures y - 0.5 <= n as real <= y + 0.5
  {
    var f := y.Floor;
    var frac := y - f as real;
    if frac > 0.5 then f + 1
    else if frac < 0.5 then f
    else if f % 2 == 0 then f else f + 1
  }

  /** x rounded to the nearest multiple of 1/scale, ties to even. */
  function RoundScaled(x: real, scale: real): real
    requires scale > 0.0
  {
    RoundHalfEven(x * scale) as real / scale
  }

  /** round(x, digits) over exact reals. */
  function Round(x: real, digits: nat): real {
    RoundScaled(x, Pow10(digits) as real)
  }

  /** Multiplication by a positive number keeps an order. */
  lemma MultiplyMonotone(a: real, b: real, p: real)
    requires a <= b && p > 0.0
    ensures a * p <= b * p
  {
    assert b * p - a * p == (b - a) * p;
  }

  /** Division by a positive number keeps an order. */
  lemma DivideMonotone(a: real, b: real, p: real)
    requires a <= b && p > 0.0
    ensures a / p <= b / p
  {
    assert b / p - a / p == (b - a) / p;
  }

  lemma RoundScaledError(x: real, p: real)
    requires p > 0.0
    ensures x - 0.5 / p <= RoundScaled(x, p) <= x + 0.5 / p
  {
    var y := x * p;
    var n := RoundHalfEven(y) as real;
    assert y - 0.5 <= n <= y + 0.5;
    DivideMonotone(y - 0.5, n, p);
    DivideMonotone(n, y + 0.5, p);
    assert (y - 0.5) / p == y / p - 0.5 / p;
    assert (y + 0.5) / p == y / p + 0.5 / p;
    assert y / p == x;
  }

  /** Rounding moves a value by at most half a unit of the last kept digit. */
  lemma RoundError(x: real, digits: nat)
    ensures x - 0.5 / Pow10(digits) as real <= Round(x, digits) <= x + 0.5 / Pow10(digits) as real
  {
    RoundScaledError(x, Pow10(digits) as real);
  }

  /** A value that is already a multiple of 1/p is unchanged by rounding. */
  lemma RoundScaledExact(x: real, p: real)
    requires p > 0.0 && x * p == (x * p).Floor as real
    ensures RoundScaled(x, p) == x
  {
    assert RoundHalfEven(x * p) as real == x * p;
    assert x * p / p == x;
  }

  /** Rounding to the nearest integer never reverses an order. */
  lemma RoundHalfEvenMonotone(x: real, y: real)
    requires x <= y
    ensures RoundHalfEven(x) <= RoundHalfEven(y)
  {
    if x.Floor < y.Floor {
      assert RoundHalfEven(x) <= x.Floor + 1 <= y.Floor <= RoundHalfEven(y);
    }
  }

  lemma RoundScaledMonotone(x: real, y: real, p: real)
    requires x <= y && p > 0.0
    ensures RoundScaled(x, p) <= RoundScaled(y, p)
  {
    MultiplyMonotone(x, y, p);
    RoundHalfEvenMonotone(x * p, y * p);
    DivideMonotone(RoundHalfEven(x * p) as real, RoundHalfEven(y * p) as real, p);
  }

  /** round(x, digits) never reverses an order. */
  lemma RoundMonotone(x: real, y: real, digits: nat)
    requires x <= y
    ensures Round(x, digits) <= Round(y, digits)
  {
    RoundScaledMonotone(x, y, Pow10(digits) as real);
  }

  // ----------------------------------------------------------------- sorted()

  /** Strictly increasing: sorted and free of duplicates. */
  predicate Ascending(r: seq<int>) {
    forall i, j :: 0 <= i < j < |r| ==> r[i] < r[j]
  }

  /** The codes c of s with 1 <= c < hi, in ascending order. */
  function CodesBelow(s: set<int>, hi: int): (r: seq<int>)
    ensures Ascending(r)
    ensures forall c :: c in r <==> c in s && 1 <= c < hi
    decreases hi
  {
    if hi <= 1 then []
    else
      var prefix := CodesBelow(s, hi - 1);
      assert forall i :: 0 <= i < |prefix| ==> prefix[i] < hi - 1 by {
        forall i | 0 <= i < |prefix| ensures prefix[i] < hi - 1 {
          assert prefix[i] in prefix;
        }
      }
      prefix + (if hi - 1 in s then [hi - 1] else [])
  }

  /** sorted(s) for a set s of enum codes drawn from 1..n. */
  function SortedCodes(s: set<int>, n: int): seq<int> {
    CodesBelow(s, n + 1)
  }

  /** Every enum code 1..n, as `set(int(x) + 1 for x in range(n))` builds it. */
  function AllCodes(n: nat): (r: set<int>)
    ensures forall c :: c in r <==> 1 <= c <= n
  {
    CodeListContents(n);
    set c | c in CodeList(n)
  }

  /** The list `[int(x) + 1 for x in range(n)]`. */
  function CodeList(n: nat): (r: seq<int>) {
    seq(n, i => i + 1)
  }

  /** The list 1..n holds exactly the codes 1..n. */
  lemma CodeListContents(n: nat)
    ensures forall c :: c in CodeList(n) <==> 1 <= c <= n
  {
    forall c | 1 <= c <= n ensures c in CodeList(n) {
      assert CodeList(n)[c - 1] == c;
    }
  }

  /** Two ascending sequences with the same elements are the same sequence. */
  lemma {:induction false} AscendingUnique(a: seq<int>, b: seq<int>)
    requires Ascending(a) && Ascending(b)
    requires forall c :: c in a <==> c in b
    ensures a == b
    decreases |a|
  {
    if a != [] {
      assert a[0] in a;
    }
    if b != [] {
      assert b[0] in b;
    }
    if a != [] && b != [] {
      // the heads are the minima of the same set
      assert a[0] in a && b[0] in b;
      assert a[0] in b;
      assert b[0] in a;
      assert a[0] == b[0];
      forall c ensures c in a[1..] <==> c in b[1..] {
        if c in a[1..] {
          assert c in b && c != b[0];
        }
        if c in b[1..] {
          assert c in a && c != a[0];
        }
      }
      AscendingUnique(a[1..], b[1..]);
      assert a == [a[0]] + a[1..] && b == [b[0]] + b[1..];
    }
  }

  /** sorted() of a set of codes within 1..n lists exactly that set, in ascending order. */
  lemma SortedCodesExact(s: set<int>, n: int, r: seq<int>)
    requires forall c :: c in s ==> 1 <= c <= n
    requires Ascending(r) && forall c :: c in r <==> c in s
    ensures SortedCodes(s, n) == r
  {
    AscendingUnique(SortedCodes(s, n), r);
  }

  /** sorted() of every code 1..n is the list 1..n. */
  lemma SortedAllCodes(n: nat)
    ensures SortedCodes(AllCodes(n), n) == CodeList(n)
  {
    var r := CodeList(n);
    forall c ensures c in r <==> c in AllCodes(n) {
      if 1 <= c <= n {
        assert r[c - 1] == c;
      }
    }
    SortedCodesExact(AllCodes(n), n, r);
  }
}
