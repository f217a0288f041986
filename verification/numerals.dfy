/** Python's `int(text)` and `float(text)` as the configuration parser uses
    them on an already-stripped value, and the decimal rendering of token
    counts in the metadata line. Only ASCII digits are modelled. */
module Numerals {
  import opened Outcomes
  import opened Text

  predicate IsDigit(c: char) {
    '0' <= c <= '9'
  }

  predicate DigitsOrUnderscores(s: string) {
    forall i :: 0 <= i < |s| ==> IsDigit(s[i]) || s[i] == '_'
  }

  /** A Python decimal digit group: digits, with single underscores allowed
      between two digits (`1_000`). */
  predicate IsDigitGroup(s: string) {
    && |s| > 0
    && IsDigit(s[0])
    && IsDigit(s[|s| - 1])
    && DigitsOrUnderscores(s)
    && forall i :: 0 <= i < |s| - 1 ==> !(s[i] == '_' && s[i + 1] == '_')
  }

  function DigitValue(c: char): nat
    requires IsDigit(c)
  {
    c as int - '0' as int
  }

  function DigitChar(d: nat): (c: char)
    requires d < 10
    ensures IsDigit(c) && DigitValue(c) == d
  {
    ('0' as int + d) as char
  }

  /** The value of a digit group, underscores ignored. */
  function DigitsValue(s: string): nat
    requires DigitsOrUnderscores(s)
    decreases |s|
  {
    if |s| == 0 then 0
    else if s[|s| - 1] == '_' then DigitsValue(s[..|s| - 1])
    else 10 * DigitsValue(s[..|s| - 1]) + DigitValue(s[|s| - 1])
  }

  /** Python's `str(n)` for a non-negative integer. */
  function NatToDecimal(n: nat): (r: string)
    ensures |r| > 0
    ensures forall i :: 0 <= i < |r| ==> IsDigit(r[i])
  {
    if n < 10 then [DigitChar(n)] else NatToDecimal(n / 10) + [DigitChar(n % 10)]
  }

  /** Python's `str(n)` for any integer. */
  function IntToDecimal(n: int): string {
    if n < 0 then "-" + NatToDecimal(-n) else NatToDecimal(n)
  }

  predicate IsSign(c: char) {
    c == '+' || c == '-'
  }

  /** Python's `int(text)` on a stripped value: an optional sign followed by a
      digit group; anything else raises `ValueError`, modelled as `None`. */
  function ParseInt(s: string): (r: Option<int>)
    ensures r.Some? ==> |s| > 0 && !IsSpace(s[0]) && !IsSpace(s[|s| - 1])
  {
    if |s| > 0 && IsSign(s[0]) then
      if IsDigitGroup(s[1..]) then
        var v: int := DigitsValue(s[1..]);
        Some(if s[0] == '-' then -v else v)
      else None
    else if IsDigitGroup(s) then Some(DigitsValue(s))
    else None
  }

  lemma {:induction false} DigitsValueOfDecimal(n: nat)
    ensures DigitsValue(NatToDecimal(n)) == n
  {
    var r := NatToDecimal(n);
    if n >= 10 {
      DigitsValueOfDecimal(n / 10);
      assert r[..|r| - 1] == NatToDecimal(n / 10);
    }
  }

  /** `int(str(n)) == n`: the integer parser reads back every rendered integer. */
  lemma ParseIntOfDecimal(n: int)
    ensures ParseInt(IntToDecimal(n)) == Some(n)
  {
    var d := NatToDecimal(if n < 0 then -n else n);
    DigitsValueOfDecimal(if n < 0 then -n else n);
    assert IsDigitGroup(d);
    if n < 0 {
      assert IntToDecimal(n)[1..] == d;
    }
  }

  function LowerAscii(s: string): (r: string)
    ensures |r| == |s|
  {
    seq(|s|, i requires 0 <= i < |s| => AsciiLower(s[i]))
  }

  /** The index of the first `e` or `E` at or after `from`. */
  function ExponentIndex(b: string, from: nat): (r: Option<nat>)
    requires from <= |b|
    ensures r.Some? ==> from <= r.value < |b| && (b[r.value] == 'e' || b[r.value] == 'E')
    ensures r.None? ==> forall i :: from <= i < |b| ==> b[i] != 'e' && b[i] != 'E'
    decreases |b| - from
  {
    if from == |b| then None
    else if b[from] == 'e' || b[from] == 'E' then Some(from)
    else ExponentIndex(b, from + 1)
  }

  /** Digits with an optional fraction: `12`, `12.`, `12.5` or `.5`. */
  predicate IsMantissa(m: string) {
    match Find(m, ".")
    case None => IsDigitGroup(m)
    case Some(j) =>
      || (IsDigitGroup(m[..j]) && (j + 1 == |m| || IsDigitGroup(m[j + 1..])))
      || (j == 0 && IsDigitGroup(m[j + 1..]))
  }

  predicate IsExponent(x: string) {
    if |x| > 0 && IsSign(x[0]) then IsDigitGroup(x[1..]) else IsDigitGroup(x)
  }

  predicate IsDecimalFloat(b: string) {
    match ExponentIndex(b, 0)
    case None => IsMantissa(b)
    case Some(i) => IsMantissa(b[..i]) && IsExponent(b[i + 1..])
  }

  /** What Python's `float(text)` accepts on a stripped value: an optional
      sign, then `inf`, `infinity` or `nan` in any letter case, or a decimal
      literal with optional fraction and exponent. */
  predicate IsFloatLiteral(s: string) {
    var b := if |s| > 0 && IsSign(s[0]) then s[1..] else s;
    || LowerAscii(b) == "inf"
    || LowerAscii(b) == "infinity"
    || LowerAscii(b) == "nan"
    || IsDecimalFloat(b)
  }

  lemma DigitGroupIsDecimalFloat(g: string)
    requires IsDigitGroup(g)
    ensures IsDecimalFloat(g)
  {
    assert forall i :: 0 <= i < |g| ==> g[i] != 'e' && g[i] != 'E' && g[i] != '.';
    assert ExponentIndex(g, 0).None?;
    forall i | 0 <= i <= |g|
      ensures !OccursAt(g, ".", i)
    {
      if i + 1 <= |g| {
        assert g[i..i + 1][0] == g[i];
      }
    }
    assert Find(g, ".").None?;
  }

  /** Whatever `int()` accepts, `float()` accepts too. */
  lemma IntLiteralIsFloatLiteral(s: string)
    requires ParseInt(s).Some?
    ensures IsFloatLiteral(s)
  {
    var b := if |s| > 0 && IsSign(s[0]) then s[1..] else s;
    DigitGroupIsDecimalFloat(b);
  }
}
