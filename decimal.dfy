/**
 * Decimal digit strings and the part of JavaScript's `parseFloat` the decoder
 * needs: unsigned decimal literals such as "48", "07.038" or ".5", read as
 * exact reals. Everything else reads as NaN.
 */
module Decimal {
  import opened Wrappers

  predicate IsDigit(c: char) { '0' <= c <= '9' }

  predicate IsDigits(s: string) { forall i :: 0 <= i < |s| ==> IsDigit(s[i]) }

  function Pow10(n: nat): (r: nat)
    ensures r >= 1
  {
    if n == 0 then 1 else 10 * Pow10(n - 1)
  }

  function DigitValue(c: char): (d: nat)
    requires IsDigit(c)
    ensures d < 10
  {
    c as int - '0' as int
  }

  function DigitChar(d: nat): (c: char)
    requires d < 10
    ensures IsDigit(c) && DigitValue(c) == d
  {
    ('0' as int + d) as char
  }

  /** The number a digit string denotes in base ten; it has |s| digits, so it is below 10^|s|. */
  function DigitsValue(s: string): (v: nat)
    requires IsDigits(s)
    ensures v < Pow10(|s|)
    decreases |s|
  {
    if s == [] then 0
    else
      var init := s[..|s| - 1];
      var v' := DigitsValue(init);
      var d := DigitValue(s[|s| - 1]);
      assert v' * 10 + d < 10 * Pow10(|init|) by {
        assert v' + 1 <= Pow10(|init|);
        assert (v' + 1) * 10 <= Pow10(|init|) * 10;
      }
      v' * 10 + d
  }

  /** d written in exactly w digits, with leading zeros (as a receiver writes "011" for 11 degrees). */
  function PadDigits(d: nat, w: nat): (s: string)
    requires d < Pow10(w)
    ensures |s| == w && IsDigits(s)
    ensures DigitsValue(s) == d
    decreases w
  {
    if w == 0 then []
    else
      var init := PadDigits(d / 10, w - 1);
      var s := init + [DigitChar(d % 10)];
      assert s[..|s| - 1] == init;
      s
  }

  /** The value of the literal `whole.frac`. */
  function Value(whole: string, frac: string): real
    requires IsDigits(whole) && IsDigits(frac)
  {
    DigitsValue(whole) as real + DigitsValue(frac) as real / Pow10(|frac|) as real
  }

  /** The position of the first c in s. */
  function IndexOf(s: string, c: char): (k: nat)
    requires c in s
    ensures k < |s| && s[k] == c && c !in s[..k]
  {
    if s[0] == c then 0
    else
      var k := 1 + IndexOf(s[1..], c);
      assert s[..k] == [s[0]] + s[1..][..k - 1];
      k
  }

  /**
   * An unsigned decimal literal: digits, optionally a point and more digits,
   * with at least one digit in all. "7.", ".5" and "48" are literals; "",
   * ".", "1.2.3" and "4x" are not.
   */
  function ParseDecimal(s: string): (r: Option<real>)
    ensures r.Some? ==> r.value >= 0.0
  {
    if '.' !in s then
      if IsDigits(s) && s != [] then Some(DigitsValue(s) as real) else None
    else
      var k := IndexOf(s, '.');
      var whole, frac := s[..k], s[k + 1..];
      if IsDigits(whole) && IsDigits(frac) && |whole| + |frac| > 0 then Some(Value(whole, frac))
      else None
  }

  /** A non-empty run of digits reads as the number it denotes. */
  lemma ParseDigits(w: string)
    requires IsDigits(w) && w != []
    ensures ParseDecimal(w) == Some(DigitsValue(w) as real)
  {
    assert forall i :: 0 <= i < |w| ==> w[i] != '.';
  }

  /** `whole.frac` reads as whole + frac / 10^|frac|. */
  lemma ParsePointed(whole: string, frac: string)
    requires IsDigits(whole) && IsDigits(frac) && |whole| + |frac| > 0
    ensures ParseDecimal(whole + "." + frac) == Some(Value(whole, frac))
  {
    var s := whole + "." + frac;
    assert s[|whole|] == '.';
    var k := IndexOf(s, '.');
    assert forall i :: 0 <= i < |whole| ==> s[i] == whole[i] && s[i] != '.';
    assert k == |whole|;
    assert s[..k] == whole && s[k + 1..] == frac;
  }

  /** A string that reads as a number consists of digits and points only. */
  lemma ParsedIsLiteral(s: string)
    requires ParseDecimal(s).Some?
    ensures forall i :: 0 <= i < |s| ==> IsDigit(s[i]) || s[i] == '.'
  {
    if '.' in s {
      var k := IndexOf(s, '.');
      var whole, frac := s[..k], s[k + 1..];
      forall i | 0 <= i < |s| ensures IsDigit(s[i]) || s[i] == '.' {
        if i < k {
          assert s[i] == whole[i];
        } else if i > k {
          assert s[i] == frac[i - k - 1];
        }
      }
    }
  }

  /**
   * White space and line terminators as ECMAScript defines them: `parseFloat`
   * skips these before it starts reading a number.
   */
  predicate IsJsWhiteSpace(c: char)
  {
    || c == '\t' || c == '\n' || c == '\U{0B}' || c == '\U{0C}' || c == '\r' || c == ' '
    || c == '\U{A0}' || c == '\U{1680}' || '\U{2000}' <= c <= '\U{200A}'
    || c == '\U{2028}' || c == '\U{2029}' || c == '\U{202F}' || c == '\U{205F}'
    || c == '\U{3000}' || c == '\U{FEFF}'
  }

  /**
   * The characters `parseFloat` can find first in a string it reads a number
   * from: white space it skips, a sign, the start of "Infinity", a digit or a
   * point. A string that starts with any other character is NaN.
   */
  predicate MayOpenNumber(c: char)
  {
    IsJsWhiteSpace(c) || c == '+' || c == '-' || c == 'I' || IsDigit(c) || c == '.'
  }

  /** A character other than a digit or a point makes the string unreadable (parseFloat's NaN). */
  lemma ParseRejects(s: string, i: nat)
    requires i < |s| && !IsDigit(s[i]) && s[i] != '.'
    ensures ParseDecimal(s) == None
  {
    if ParseDecimal(s).Some? {
      ParsedIsLiteral(s);
    }
  }

  /** The fractional part of a literal is below one. */
  lemma FractionBelowOne(whole: string, frac: string)
    requires IsDigits(whole) && IsDigits(frac)
    ensures DigitsValue(whole) as real <= Value(whole, frac) < DigitsValue(whole) as real + 1.0
  {
    QuotientBelowOne(DigitsValue(frac) as real, Pow10(|frac|) as real);
  }

  lemma QuotientBelowOne(f: real, p: real)
    requires 0.0 <= f < p
    ensures 0.0 <= f / p < 1.0
  {
    assert f / p * p == f;
  }

  /**
   * A JavaScript number as far as the model's decoder can produce one: the
   * strict reader yields no infinity, and the exact arithmetic has no -0.
   */
  datatype Num = Finite(value: real) | NaN

  /** `parseFloat` on the strings a receiver sends; NaN where there is no literal. */
  function ParseFloat(s: string): (n: Num)
    ensures n.Finite? ==> n.value >= 0.0
  {
    match ParseDecimal(s)
    case Some(v) => Finite(v)
    case None => NaN
  }

  /** `x + y`; NaN is absorbing. */
  function Plus(x: Num, y: Num): Num
  {
    if x.Finite? && y.Finite? then Finite(x.value + y.value) else NaN
  }

  /** `x / d` for a non-zero constant d; NaN is absorbing. */
  function Over(x: Num, d: real): Num
    requires d != 0.0
  {
    if x.Finite? then Finite(x.value / d) else NaN
  }

  /** Unary minus; `-NaN` is NaN. */
  function Negate(x: Num): Num
  {
    if x.Finite? then Finite(-x.value) else NaN
  }
}
