/**
  The conversions between text and numbers that the engine borrows from JavaScript,
  restricted to what the engine feeds them: `parseInt` of a digit string, `toString` of a
  natural number, and `Number(token)` / `isNaN` on the tokens of the keypad (digits and '.').
 */
module Numbers {

  predicate IsDigit(ch: char) { '0' <= ch <= '9' }

  predicate AllDigits(s: string) { forall i :: 0 <= i < |s| ==> IsDigit(s[i]) }

  function DigitChar(d: nat): (ch: char)
    requires d < 10
    ensures IsDigit(ch) && ch as int - 48 == d
  {
    (d + 48) as char
  }

  /** `parseInt(s)` for a non-empty string of decimal digits (leading zeros allowed). */
  function DigitsValue(s: string): nat
    requires AllDigits(s)
  {
    if s == [] then 0 else DigitsValue(s[..|s| - 1]) * 10 + (s[|s| - 1] as int - 48)
  }

  /** `n.toString()` for a natural number: decimal digits without leading zeros. */
  function NatToDecimal(n: nat): (s: string)
    ensures 1 <= |s| && AllDigits(s)
    ensures s[0] == '0' ==> n == 0
  {
    if n < 10 then [DigitChar(n)] else NatToDecimal(n / 10) + [DigitChar(n % 10)]
  }

  /** `parseInt` reads back what `toString` wrote. */
  lemma {:induction false} DigitsValueOfNatToDecimal(n: nat)
    ensures DigitsValue(NatToDecimal(n)) == n
  {
    if n >= 10 {
      var s := NatToDecimal(n / 10) + [DigitChar(n % 10)];
      assert s[..|s| - 1] == NatToDecimal(n / 10);
      DigitsValueOfNatToDecimal(n / 10);
    }
  }

  /** `toString` writes back a digit string that `parseInt` read, if it has no leading zero. */
  lemma {:induction false} NatToDecimalOfDigitsValue(s: string)
    requires 1 <= |s| && AllDigits(s) && (s[0] == '0' ==> |s| == 1)
    ensures NatToDecimal(DigitsValue(s)) == s
  {
    if |s| > 1 {
      var init := s[..|s| - 1];
      NatToDecimalOfDigitsValue(init);
      DigitsValueAtLeast(init);
      var n := DigitsValue(s);
      assert n / 10 == DigitsValue(init) && n % 10 == s[|s| - 1] as int - 48;
      assert n >= 10;
    }
  }

  /** A digit string without leading zero of length k is at least 10^(k-1). */
  lemma {:induction false} DigitsValueAtLeast(s: string)
    requires 1 <= |s| && AllDigits(s) && s[0] != '0'
    ensures DigitsValue(s) >= 1
  {
    if |s| > 1 {
      DigitsValueAtLeast(s[..|s| - 1]);
    }
  }

  // ---------------------------------------------------------------------------
  // Number(token) on keypad tokens
  // ---------------------------------------------------------------------------

  /** How many '.' characters s holds. */
  function DotCount(s: string): nat { multiset(s)['.'] }

  predicate OnlyDigitsAndDots(s: string) { forall i :: 0 <= i < |s| ==> IsDigit(s[i]) || s[i] == '.' }

  /**
    `!isNaN(Number(token))` for tokens over the keypad alphabet: digits with at most one '.'
    and at least one digit, so "12", "1." and ".5" are numbers and "." is not.
   */
  predicate IsNumber(token: string)
  {
    OnlyDigitsAndDots(token) && DotCount(token) <= 1 && DotCount(token) < |token|
  }

  /** The digits of s read as one natural number, ignoring the '.' */
  function MantissaValue(s: string): nat
  {
    if s == [] then 0
    else if s[|s| - 1] == '.' then MantissaValue(s[..|s| - 1])
    else MantissaValue(s[..|s| - 1]) * 10 + (if IsDigit(s[|s| - 1]) then s[|s| - 1] as int - 48 else 0)
  }

  /** How many characters follow the first '.' of s (0 when there is none). */
  function FractionDigits(s: string): nat
  {
    if s == [] then 0 else if s[0] == '.' then |s| - 1 else FractionDigits(s[1..])
  }

  function Pow10(n: nat): (p: real)
    ensures p >= 1.0
  {
    if n == 0 then 1.0 else 10.0 * Pow10(n - 1)
  }

  /** `Number(token)` for a keypad number: "12.5" is 125 / 10. */
  function NumberValue(token: string): real
    requires IsNumber(token)
  {
    MantissaValue(token) as real / Pow10(FractionDigits(token))
  }

  lemma IntegerValueExamples()
    ensures NumberValue("12") == 12.0 && NumberValue("0") == 0.0
  {
    assert "12"[..1] == "1" && "1"[..0] == "";
    assert MantissaValue("1") == 1;
    assert FractionDigits("12") == FractionDigits("2") == FractionDigits("") == 0 by {
      assert "12"[1..] == "2" && "2"[1..] == "";
    }
  }

  lemma FractionValueExamples()
    ensures NumberValue("1.5") == 1.5
  {
    assert "1.5"[..2] == "1." && "1."[..1] == "1" && "1"[..0] == "" && "1.5"[1..] == ".5";
  }

  lemma DotValueExamples()
    ensures NumberValue("1.") == 1.0 && NumberValue(".5") == 0.5
  {
    assert "1."[..1] == "1" && "1"[..0] == "" && ".5"[..1] == ".";
  }

  lemma NoNumberExamples()
    ensures !IsNumber(".") && !IsNumber("") && !IsNumber("1.2.3") && !IsNumber("+")
  {
    assert "1.2.3"[..4] == "1.2." && "1.2."[..3] == "1.2" && "1.2"[..2] == "1.";
  }
}
