/**
 * String helpers in the shape of the .NET string API the program calls.
 * Case-insensitive ("OrdinalIgnoreCase", ToUpperInvariant) comparison is
 * modelled by ASCII case folding.
 */
module Text {
  import opened Wrappers

  function Upper(c: char): (u: char)
    ensures 'a' <= c <= 'z' ==> u as int == c as int - 32
    ensures !('a' <= c <= 'z') ==> u == c
  {
    if 'a' <= c <= 'z' then (c as int - 32) as char else c
  }

  function ToUpper(s: string): (r: string)
    ensures |r| == |s|
    ensures forall i :: 0 <= i < |s| ==> r[i] == Upper(s[i])
  {
    seq(|s|, i requires 0 <= i < |s| => Upper(s[i]))
  }

  lemma ToUpperAppend(a: string, b: string)
    ensures ToUpper(a + b) == ToUpper(a) + ToUpper(b)
  {
    assert forall k :: 0 <= k < |a + b| ==> ToUpper(a + b)[k] == (ToUpper(a) + ToUpper(b))[k];
  }

  lemma ToUpperSlice(s: string, i: nat, j: nat)
    requires i <= j <= |s|
    ensures ToUpper(s[i..j]) == ToUpper(s)[i..j]
  {
    assert forall k :: 0 <= k < j - i ==> ToUpper(s[i..j])[k] == ToUpper(s)[i..j][k];
  }

  /** String.Equals(a, b, StringComparison.OrdinalIgnoreCase). */
  predicate EqualsIgnoreCase(a: string, b: string) {
    ToUpper(a) == ToUpper(b)
  }

  predicate StartsWith(s: string, prefix: string) {
    |prefix| <= |s| && s[..|prefix|] == prefix
  }

  predicate EndsWith(s: string, suffix: string) {
    |suffix| <= |s| && s[|s| - |suffix|..] == suffix
  }

  predicate StartsWithIgnoreCase(s: string, prefix: string) {
    StartsWith(ToUpper(s), ToUpper(prefix))
  }

  predicate EndsWithIgnoreCase(s: string, suffix: string) {
    EndsWith(ToUpper(s), ToUpper(suffix))
  }

  predicate OccursAt(s: string, sub: string, i: nat) {
    i + |sub| <= |s| && s[i..i + |sub|] == sub
  }

  /** String.IndexOf(sub, from) with ordinal comparison: the first position at or after from, else -1. */
  function IndexOfFrom(s: string, sub: string, from: nat): (r: int)
    ensures r == -1 || (from <= r && OccursAt(s, sub, r))
    ensures r == -1 ==> forall i :: from <= i <= |s| ==> !OccursAt(s, sub, i)
    ensures r >= 0 ==> forall i :: from <= i < r ==> !OccursAt(s, sub, i)
    decreases |s| - from
  {
    if from + |sub| > |s| then -1
    else if s[from..from + |sub|] == sub then from
    else IndexOfFrom(s, sub, from + 1)
  }

  function IndexOf(s: string, sub: string): (r: int)
    ensures r == -1 || (r >= 0 && OccursAt(s, sub, r))
    ensures r == -1 <==> forall i :: 0 <= i <= |s| ==> !OccursAt(s, sub, i)
  {
    IndexOfFrom(s, sub, 0)
  }

  predicate Contains(s: string, sub: string) {
    IndexOf(s, sub) >= 0
  }

  /** Culture-invariant upper-case containment, the source's `ToUpperInvariant().Contains(...)`. */
  predicate ContainsIgnoreCase(s: string, sub: string) {
    Contains(ToUpper(s), ToUpper(sub))
  }

  /** The first index of a character, else -1. */
  function IndexOfChar(s: string, c: char): (r: int)
    ensures -1 <= r < |s|
    ensures r >= 0 ==> s[r] == c && forall i :: 0 <= i < r ==> s[i] != c
    ensures r == -1 ==> forall i :: 0 <= i < |s| ==> s[i] != c
  {
    if s == [] then -1
    else if s[0] == c then 0
    else var k := IndexOfChar(s[1..], c); if k == -1 then -1 else k + 1
  }

  /**
   * char.IsWhiteSpace: the Unicode space separators (Zs), the line and
   * paragraph separators, and the controls U+0009 to U+000D and U+0085.
   */
  predicate IsWhiteSpace(c: char) {
    || c == ' ' || ('\t' <= c <= '\r') || c == '\U{0085}' || c == '\U{00A0}'
    || c == '\U{1680}' || ('\U{2000}' <= c <= '\U{200A}') || c == '\U{2028}' || c == '\U{2029}'
    || c == '\U{202F}' || c == '\U{205F}' || c == '\U{3000}'
  }

  /** string.IsNullOrWhiteSpace for a non-null string. */
  predicate IsBlank(s: string) {
    forall i :: 0 <= i < |s| ==> IsWhiteSpace(s[i])
  }

  function TrimStart(s: string): (r: string)
    ensures |r| <= |s| && r == s[|s| - |r|..]
    ensures r == [] || !IsWhiteSpace(r[0])
    ensures forall i :: 0 <= i < |s| - |r| ==> IsWhiteSpace(s[i])
  {
    if s == [] then s
    else if IsWhiteSpace(s[0]) then TrimStart(s[1..])
    else s
  }

  function TrimEnd(s: string): (r: string)
    ensures |r| <= |s| && r == s[..|r|]
    ensures r == [] || !IsWhiteSpace(r[|r| - 1])
    ensures forall i :: |r| <= i < |s| ==> IsWhiteSpace(s[i])
  {
    if s == [] then s
    else if IsWhiteSpace(s[|s| - 1]) then TrimEnd(s[..|s| - 1])
    else s
  }

  function Trim(s: string): (r: string)
    ensures r == [] || (!IsWhiteSpace(r[0]) && !IsWhiteSpace(r[|r| - 1]))
  {
    TrimEnd(TrimStart(s))
  }

  lemma TrimOfBlank(s: string)
    ensures IsBlank(s) <==> Trim(s) == []
  {
    var t := TrimStart(s);
    assert t != [] ==> t[0] == s[|s| - |t|];
    if !IsBlank(s) {
      var i :| 0 <= i < |s| && !IsWhiteSpace(s[i]);
      assert i >= |s| - |t|;
      assert t != [];
      assert t[0] == s[|s| - |t|];
    }
  }

  /** string.Split(sep) without options: every piece between separators, empty ones included. */
  function Split(s: string, sep: char): (parts: seq<string>)
    ensures |parts| >= 1
    ensures forall p :: p in parts ==> sep !in p
    decreases |s|
  {
    var k := IndexOfChar(s, sep);
    if k == -1 then [s] else [s[..k]] + Split(s[k + 1..], sep)
  }

  function RemoveEmpty(parts: seq<string>): (r: seq<string>)
    ensures forall p :: p in r ==> p in parts && p != []
    ensures forall p :: p in parts && p != [] ==> p in r
    ensures |r| <= |parts|
  {
    if parts == [] then []
    else if parts[0] == [] then RemoveEmpty(parts[1..])
    else [parts[0]] + RemoveEmpty(parts[1..])
  }

  predicate IsDigit(c: char) { '0' <= c <= '9' }

  predicate AllDigits(s: string) {
    forall i :: 0 <= i < |s| ==> IsDigit(s[i])
  }

  function DigitsValue(s: string): (n: nat)
    requires AllDigits(s)
  {
    if s == [] then 0 else DigitsValue(s[..|s| - 1]) * 10 + (s[|s| - 1] as int - '0' as int)
  }

  const IntMin: int := -0x8000_0000
  const IntMax: int := 0x7FFF_FFFF

  predicate InInt32(n: int) { IntMin <= n <= IntMax }

  /**
   * int.TryParse with the default NumberStyles.Integer: optional surrounding
   * white space, an optional sign, at least one digit, and a value inside the
   * 32-bit range.
   */
  function ParseInt(s: string): (r: Option<int>)
    ensures r.Some? ==> InInt32(r.value)
  {
    SignedInt(Trim(s))
  }

  /** A trimmed int: an optional sign, then at least one digit, in range. */
  function SignedInt(t: string): (r: Option<int>)
    ensures r.Some? ==> InInt32(r.value)
  {
    if t == [] then None
    else
      var neg := t[0] == '-';
      var body := if t[0] == '-' || t[0] == '+' then t[1..] else t;
      if body == [] || !AllDigits(body) then None
      else
        var v: int := if neg then -(DigitsValue(body) as int) else DigitsValue(body);
        if InInt32(v) then Some(v) else None
  }

  function DigitChar(d: nat): (c: char)
    requires d < 10
    ensures IsDigit(c) && c as int - '0' as int == d
  {
    ('0' as int + d) as char
  }

  /** The decimal text of a natural number, as int.ToString() prints it. */
  function NatToString(n: nat): (s: string)
    ensures s != [] && AllDigits(s)
    ensures DigitsValue(s) == n
    ensures |s| > 1 ==> s[0] != '0'
    decreases n
  {
    if n < 10 then [DigitChar(n)]
    else
      var s := NatToString(n / 10) + [DigitChar(n % 10)];
      assert s[..|s| - 1] == NatToString(n / 10);
      s
  }

  function IntToString(n: int): (s: string)
  {
    if n < 0 then "-" + NatToString(-n) else NatToString(n)
  }

  lemma TrimOfTrimmed(s: string)
    requires s != [] && !IsWhiteSpace(s[0]) && !IsWhiteSpace(s[|s| - 1])
    ensures Trim(s) == s
  {
    assert TrimStart(s) == s;
  }

  /** Digits without a sign parse to their value. */
  lemma ParseIntOfDigits(d: string)
    requires d != [] && AllDigits(d) && InInt32(DigitsValue(d))
    ensures ParseInt(d) == Some(DigitsValue(d))
  {
    assert IsDigit(d[0]) && IsDigit(d[|d| - 1]);
    TrimOfTrimmed(d);
  }

  /** A minus sign and digits parse to the negated value. */
  lemma ParseIntOfNegatedDigits(s: string)
    requires |s| >= 2 && s[0] == '-' && AllDigits(s[1..]) && InInt32(-(DigitsValue(s[1..]) as int))
    ensures ParseInt(s) == Some(-(DigitsValue(s[1..]) as int))
  {
    assert IsDigit(s[1..][|s| - 2]);
    TrimOfTrimmed(s);
  }

  /** Parsing the text of an int gives the int back. */
  lemma ParseIntToString(n: int)
    requires InInt32(n)
    ensures ParseInt(IntToString(n)) == Some(n)
  {
    if n < 0 {
      var d := NatToString(-n);
      assert IntToString(n)[1..] == d;
      ParseIntOfNegatedDigits(IntToString(n));
    } else {
      ParseIntOfDigits(NatToString(n));
    }
  }

  function Pow10(k: nat): (r: nat)
    ensures r >= 1
  {
    if k == 0 then 1 else 10 * Pow10(k - 1)
  }

  /**
   * double.TryParse restricted to plain decimal notation: optional surrounding
   * white space, an optional sign, digits with at most one '.', and at least
   * one digit. Exponents, thousands separators and culture-specific decimal
   * marks are not modelled.
   */
  function ParseReal(s: string): (r: Option<real>)
  {
    SignedDecimal(Trim(s))
  }

  /** A trimmed number: an optional sign, then an unsigned decimal. */
  function SignedDecimal(t: string): (r: Option<real>)
  {
    if t == [] then None
    else
      var body := if t[0] == '-' || t[0] == '+' then t[1..] else t;
      match UnsignedDecimal(body)
      case None => None
      case Some(v) => Some(if t[0] == '-' then -v else v)
  }

  /** Digits with at most one '.'. */
  function UnsignedDecimal(body: string): (r: Option<real>)
  {
    var k := IndexOfChar(body, '.');
    if k == -1 then DecimalParts(body, [])
    else DecimalParts(body[..k], body[k + 1..])
  }

  function DecimalParts(whole: string, frac: string): (r: Option<real>)
    ensures r.Some? <==> |whole| + |frac| > 0 && AllDigits(whole) && AllDigits(frac)
  {
    if |whole| + |frac| == 0 || !AllDigits(whole) || !AllDigits(frac) then None
    else Some(DigitsValue(whole) as real + DigitsValue(frac) as real / Pow10(|frac|) as real)
  }

  lemma DigitsValueBound(s: string)
    requires AllDigits(s)
    ensures DigitsValue(s) < Pow10(|s|)
  {
    if s != [] {
      DigitsValueBound(s[..|s| - 1]);
    }
  }

  /** Splitting digits at their '.' gives the two digit runs. */
  lemma UnsignedDecimalSplit(whole: string, frac: string)
    requires AllDigits(whole)
    ensures UnsignedDecimal(whole + "." + frac) == DecimalParts(whole, frac)
  {
    var s := whole + "." + frac;
    assert IndexOfChar(s, '.') == |whole| by {
      assert s[|whole|] == '.';
      assert forall i :: 0 <= i < |whole| ==> s[i] == whole[i];
    }
    assert s[..|whole|] == whole && s[|whole| + 1..] == frac;
  }

  /** The fraction of a decimal is below 1. */
  lemma DecimalPartsBound(whole: string, frac: string)
    requires AllDigits(whole) && AllDigits(frac) && |whole| + |frac| > 0
    ensures DecimalParts(whole, frac).Some?
    ensures DigitsValue(whole) as real <= DecimalParts(whole, frac).value < DigitsValue(whole) as real + 1.0
  {
    DigitsValueBound(frac);
    FractionBelowOne(DigitsValue(frac), Pow10(|frac|));
  }

  /** Digits around a '.' carry no surrounding white space or sign. */
  lemma DecimalTextEnds(whole: string, frac: string)
    requires AllDigits(whole) && AllDigits(frac)
    ensures var s := whole + "." + frac;
      s != [] && s[0] != '-' && s[0] != '+' && !IsWhiteSpace(s[0]) && !IsWhiteSpace(s[|s| - 1])
  {
    var s := whole + "." + frac;
    if whole == [] { assert s[0] == '.'; } else { assert s[0] == whole[0]; }
    if frac == [] { assert s[|s| - 1] == '.'; } else { assert s[|s| - 1] == frac[|frac| - 1]; }
  }

  /** A parsed decimal lies within one unit of its whole part: the fraction is below 1. */
  lemma ParseRealWhole(s: string, whole: string, frac: string)
    requires AllDigits(whole) && AllDigits(frac) && |whole| + |frac| > 0
    requires s == whole + "." + frac
    ensures ParseReal(s).Some?
    ensures DigitsValue(whole) as real <= ParseReal(s).value < DigitsValue(whole) as real + 1.0
  {
    DecimalTextEnds(whole, frac);
    TrimOfTrimmed(s);
    UnsignedDecimalSplit(whole, frac);
    assert ParseReal(s) == DecimalParts(whole, frac);
    DecimalPartsBound(whole, frac);
  }

  lemma FractionBelowOne(a: nat, b: nat)
    requires a < b
    ensures 0.0 <= a as real / b as real < 1.0
  {
  }

  /** A run of digits with no '.' reads as its value. */
  lemma UnsignedDecimalOfDigits(d: string)
    requires d != [] && AllDigits(d)
    ensures UnsignedDecimal(d) == Some(DigitsValue(d) as real)
  {
    assert IndexOfChar(d, '.') == -1;
  }

  /** A minus sign and digits parse to the negated value. */
  lemma ParseRealOfNegatedDigits(s: string)
    requires |s| >= 2 && s[0] == '-' && AllDigits(s[1..])
    ensures ParseReal(s) == Some(-(DigitsValue(s[1..]) as real))
  {
    assert IsDigit(s[1..][|s| - 2]);
    TrimOfTrimmed(s);
    UnsignedDecimalOfDigits(s[1..]);
  }

  /** Digits without a sign parse to their value. */
  lemma ParseRealOfDigits(d: string)
    requires d != [] && AllDigits(d)
    ensures ParseReal(d) == Some(DigitsValue(d) as real)
  {
    assert IsDigit(d[0]) && IsDigit(d[|d| - 1]);
    TrimOfTrimmed(d);
    UnsignedDecimalOfDigits(d);
  }

  /** The text of an int parses back as that number. */
  lemma ParseRealOfInt(n: int)
    ensures ParseReal(IntToString(n)) == Some(n as real)
  {
    if n < 0 {
      assert IntToString(n)[1..] == NatToString(-n);
      ParseRealOfNegatedDigits(IntToString(n));
    } else {
      ParseRealOfDigits(NatToString(n));
    }
  }
}
