/**
 * The identifier of a world: a 128-bit UUID, stored as its canonical text
 * (str(UUID)) and read back from text the way UUID(hex) reads it.
 */
module Uuids {
  import opened Wrappers
  import opened Builtins

  /** A UUID is its 128-bit integer value, below 16^32 = 2^128. */
  type Uuid = n: nat | n < Pow16(32)

  predicate IsHexDigit(c: char) { '0' <= c <= '9' || 'a' <= c <= 'f' || 'A' <= c <= 'F' }
  predicate IsLowerHexDigit(c: char) { '0' <= c <= '9' || 'a' <= c <= 'f' }

  function HexValue(c: char): nat
    requires IsHexDigit(c)
  {
    if '0' <= c <= '9' then c as int - '0' as int
    else if 'a' <= c <= 'f' then c as int - 'a' as int + 10
    else c as int - 'A' as int + 10
  }

  /** The lower-case hex digit of d. */
  function HexChar(d: nat): (c: char)
    requires d < 16
    ensures IsLowerHexDigit(c) && HexValue(c) == d
  {
    if d < 10 then (48 + d) as char else (87 + d) as char
  }

  function Pow16(n: nat): (r: nat)
    ensures r >= 1
  {
    if n == 0 then 1 else 16 * Pow16(n - 1)
  }

  /** The w lowest hex digits of n, most significant first, in lower case (format(n, '0wx') when n < 16^w). */
  function ToHex(n: nat, w: nat): (r: string)
    ensures |r| == w
    ensures forall i :: 0 <= i < w ==> IsLowerHexDigit(r[i])
  {
    if w == 0 then [] else ToHex(n / 16, w - 1) + [HexChar(n % 16)]
  }

  /** int(s, 16) for a string of plain hex digits in either case; None where a character is no hex digit. */
  function FromHex(s: string): (r: Option<nat>)
    ensures r.Some? <==> forall i :: 0 <= i < |s| ==> IsHexDigit(s[i])
    ensures r.Some? ==> r.value < Pow16(|s|)
  {
    if s == [] then Some(0)
    else
      var last := s[|s| - 1];
      match FromHex(s[..|s| - 1])
      case None => None
      case Some(h) => if IsHexDigit(last) then Some(h * 16 + HexValue(last)) else None
  }

  /** Division by m has a unique quotient and remainder. */
  lemma ModUnique(n: nat, m: nat, q: nat, t: nat)
    requires 0 <= t < m && n == m * q + t
    ensures n % m == t
  {
    var q', t' := n / m, n % m;
    assert m * (q - q') == t' - t;
    MulBound(m, q - q');
  }

  /** A nonzero multiple of m is at least m away from zero. */
  lemma MulBound(m: nat, k: int)
    ensures k >= 1 ==> m * k >= m
    ensures k <= -1 ==> m * k + m <= 0
  {
    if k >= 1 {
      assert m * k == m * (k - 1) + m;
    } else if k <= -1 {
      assert m * k == m * (k + 1) - m;
    }
  }

  /** The digits of n below 16^w are those of n / 16 below 16^(w-1), followed by n's last digit. */
  lemma ModShift(n: nat, p: nat)
    requires p >= 1
    ensures n % (16 * p) == (n / 16 % p) * 16 + n % 16
  {
    var q, b := n / 16 / p, n / 16 % p;
    assert n / 16 == p * q + b;
    assert n == 16 * (n / 16) + n % 16;
    assert n == (16 * p) * q + (b * 16 + n % 16);
    ModUnique(n, 16 * p, q, b * 16 + n % 16);
  }

  /** Reading the w digits written for n gives back n modulo 16^w. */
  lemma {:induction false} HexRoundTrip(n: nat, w: nat)
    ensures FromHex(ToHex(n, w)) == Some(n % Pow16(w))
  {
    if w > 0 {
      var s := ToHex(n, w);
      var p := Pow16(w - 1);
      assert s[..|s| - 1] == ToHex(n / 16, w - 1);
      assert s[|s| - 1] == HexChar(n % 16);
      HexRoundTrip(n / 16, w - 1);
      assert FromHex(s) == Some((n / 16 % p) * 16 + n % 16);
      ModShift(n, p);
    }
  }

  /** str(UUID): the 32 hex digits in groups of 8-4-4-4-12 joined by hyphens. */
  function Format(u: Uuid): (r: string)
    ensures |r| == 36
    ensures r[8] == '-' && r[13] == '-' && r[18] == '-' && r[23] == '-'
    ensures forall i :: 0 <= i < 36 && i != 8 && i != 13 && i != 18 && i != 23 ==> IsLowerHexDigit(r[i])
  {
    Hyphenate(ToHex(u, 32))
  }

  /** The 32 digits in groups of 8-4-4-4-12, joined by hyphens. */
  function Hyphenate(h: string): string
    requires |h| == 32
  {
    h[..8] + ("-" + (h[8..12] + ("-" + (h[12..16] + ("-" + (h[16..20] + ("-" + h[20..])))))))
  }

  /**
   * UUID(hex=s): the "urn:" and "uuid:" prefixes are removed wherever they
   * occur, braces stripped from both ends and hyphens removed; what is left
   * must be exactly 32 hex digits, otherwise ValueError.
   */
  function Parse(s: string): (r: Result<Uuid, PyError>)
    ensures r.Err? ==> r.error == ValueError
    ensures r.Ok? ==> FromHex(Digits(s)) == Some(r.value as nat) && |Digits(s)| == 32
  {
    var h := Digits(s);
    if |h| != 32 then Err(ValueError)
    else match FromHex(h)
      case None => Err(ValueError)
      case Some(n) => Ok(n)
  }

  /** The hex payload that UUID(hex) reads from s. */
  function Digits(s: string): string {
    var t := RemoveAll(RemoveAll(s, "urn:"), "uuid:");
    RemoveAll(Strip(t, {'{', '}'}), "-")
  }

  /** Hyphens are the only separators of the canonical text: removing them leaves the 32 digits. */
  lemma HyphenateDigits(h: string)
    requires |h| == 32 && '-' !in h
    ensures RemoveAll(Hyphenate(h), "-") == h
  {
    var a, b, c, d, e := h[..8], h[8..12], h[12..16], h[16..20], h[20..];
    RemoveAllAbsent(e, "-", '-');
    JoinHyphen(d, e);
    JoinHyphen(c, d + ("-" + e));
    JoinHyphen(b, c + ("-" + (d + ("-" + e))));
    JoinHyphen(a, b + ("-" + (c + ("-" + (d + ("-" + e))))));
    assert h == a + (b + (c + (d + e)));
  }

  /** Removing hyphens from x + "-" + y, where x holds none, keeps x and drops the joining hyphen. */
  lemma JoinHyphen(x: string, y: string)
    requires '-' !in x
    ensures RemoveAll(x + ("-" + y), "-") == x + RemoveAll(y, "-")
  {
    RemoveCharAppend(x, "-" + y, '-');
    RemoveAllAbsent(x, "-", '-');
    RemoveAllLeading("-", y);
  }

  /** The canonical text holds no ':', brace or other character outside the hex digits and '-'. */
  lemma FormatAlphabet(u: Uuid)
    ensures ':' !in Format(u) && 'r' !in Format(u) && '{' !in Format(u) && '}' !in Format(u)
  {
  }

  /** Stripping braces leaves a string that neither starts nor ends with one unchanged. */
  lemma StripUnchanged(s: string, cs: set<char>)
    requires s != [] && s[0] !in cs && s[|s| - 1] !in cs
    ensures Strip(s, cs) == s
  {
  }

  /** Reading back the canonical text of a UUID gives that UUID. */
  lemma ParseFormat(u: Uuid)
    ensures Parse(Format(u)) == Ok(u)
  {
    var h := ToHex(u, 32);
    FormatPayload(u);
    HexRoundTrip(u, 32);
    ModUnique(u, Pow16(32), 0, u);
    assert FromHex(h) == Some(u as nat);
    assert Digits(Format(u)) == h && |h| == 32;
  }

  /** The payload that UUID(hex) reads from the canonical text is the 32 digits. */
  lemma FormatPayload(u: Uuid)
    ensures Digits(Format(u)) == ToHex(u, 32)
  {
    var f := Format(u);
    var h := ToHex(u, 32);
    FormatAlphabet(u);
    RemoveAllAbsent(f, "urn:", ':');
    RemoveAllAbsent(f, "uuid:", ':');
    StripUnchanged(f, {'{', '}'});
    assert '-' !in h by { assert !IsLowerHexDigit('-'); }
    HyphenateDigits(h);
  }

  /** Braces around a text free of braces and colons are stripped before the digits are read. */
  lemma DigitsBraced(f: string)
    requires f != [] && ':' !in f && '{' !in f && '}' !in f
    ensures Digits("{" + f + "}") == Digits(f)
  {
    var braced := "{" + f + "}";
    assert ':' !in braced;
    RemoveAllAbsent(braced, "urn:", ':');
    RemoveAllAbsent(braced, "uuid:", ':');
    RemoveAllAbsent(f, "urn:", ':');
    RemoveAllAbsent(f, "uuid:", ':');
    StripBraces(f);
  }

  /** Stripping braces from a braced text free of braces leaves the text. */
  lemma StripBraces(f: string)
    requires f != [] && '{' !in f && '}' !in f
    ensures Strip("{" + f + "}", {'{', '}'}) == f
  {
    var braced := "{" + f + "}";
    assert StripLeading(braced, {'{', '}'}) == f + "}" by {
      assert braced[1..] == f + "}";
    }
    assert StripTrailing(f + "}", {'{', '}'}) == f by {
      assert (f + "}")[..|f|] == f;
    }
    StripUnchanged(f, {'{', '}'});
  }

  /** The braced spelling of a UUID reads back to the same UUID. */
  lemma ParseBraced(u: Uuid)
    ensures Parse("{" + Format(u) + "}") == Ok(u)
  {
    FormatAlphabet(u);
    DigitsBraced(Format(u));
    ParseFormat(u);
  }

  /** The URN spelling of a UUID reads back to the same UUID. */
  lemma ParseUrn(u: Uuid)
    ensures Parse("urn:uuid:" + Format(u)) == Ok(u)
  {
    var f := Format(u);
    var urn := "urn:uuid:" + f;
    FormatAlphabet(u);
    assert urn == "urn:" + ("uuid:" + f);
    RemoveAllLeading("urn:", "uuid:" + f);
    RemoveAllAbsent("uuid:" + f, "urn:", 'r');
    RemoveAllLeading("uuid:", f);
    assert Digits(urn) == Digits(f) by {
      RemoveAllAbsent(f, "urn:", ':');
      RemoveAllAbsent(f, "uuid:", ':');
    }
    ParseFormat(u);
  }

  /** Parsing is canonical: the text of a parsed UUID reads back to the same UUID. */
  lemma ParseCanonical(s: string)
    requires Parse(s).Ok?
    ensures Parse(Format(Parse(s).value)) == Parse(s)
  {
    ParseFormat(Parse(s).value);
  }
}
