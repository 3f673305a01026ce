/** The join code of a new group: `Math.floor(10000 + Math.random() * 90000).toString()`,
    with the random draw given as the integer `draw = floor(random * 90000)`. */
module JoinCode {

  predicate IsDigit(c: char) {
    '0' <= c <= '9'
  }

  predicate AllDigits(s: string) {
    forall i :: 0 <= i < |s| ==> IsDigit(s[i])
  }

  function DigitChar(d: nat): (c: char)
    requires d < 10
    ensures IsDigit(c) && c as int - '0' as int == d
  {
    ('0' as int + d) as char
  }

  /** The plain decimal numeral of a natural number. `Number.prototype.toString` writes this
      form for integers below 10^21 (from there on it switches to exponent notation), which
      covers every join code. */
  function DecimalString(n: nat): (s: string)
    ensures |s| >= 1 && AllDigits(s)
    ensures s[0] == '0' <==> n == 0
    decreases n
  {
    if n < 10 then [DigitChar(n)] else DecimalString(n / 10) + [DigitChar(n % 10)]
  }

  /** The number a string of decimal digits denotes. */
  function DigitsValue(s: string): nat
    requires AllDigits(s)
  {
    if s == [] then 0 else DigitsValue(s[..|s| - 1]) * 10 + (s[|s| - 1] as int - '0' as int)
  }

  function Pow10(k: nat): nat {
    if k == 0 then 1 else 10 * Pow10(k - 1)
  }

  /** Reading a numeral back gives the number. */
  lemma {:induction false} DecimalRoundTrip(n: nat)
    ensures DigitsValue(DecimalString(n)) == n
    decreases n
  {
    if n >= 10 {
      DecimalRoundTrip(n / 10);
      var s := DecimalString(n);
      assert s[..|s| - 1] == DecimalString(n / 10);
    }
  }

  /** A number with k digits has a numeral of length k. */
  lemma {:induction false} DecimalLength(n: nat, k: nat)
    requires 1 <= k && n < Pow10(k)
    requires k == 1 || Pow10(k - 1) <= n
    ensures |DecimalString(n)| == k
  {
    if k > 1 {
      assert Pow10(k) == 10 * Pow10(k - 1);
      if k > 2 {
        assert Pow10(k - 1) == 10 * Pow10(k - 2);
      }
      DecimalLength(n / 10, k - 1);
    }
  }

  /** Conversely, the numeral's length bounds the number. */
  lemma {:induction false} DecimalLengthBounds(n: nat)
    ensures n < Pow10(|DecimalString(n)|)
    ensures |DecimalString(n)| > 1 ==> Pow10(|DecimalString(n)| - 1) <= n
    decreases n
  {
    if n >= 10 {
      DecimalLengthBounds(n / 10);
      var k := |DecimalString(n / 10)|;
      assert |DecimalString(n)| == k + 1;
      assert Pow10(k + 1) == 10 * Pow10(k);
      if k > 1 {
        assert Pow10(k) == 10 * Pow10(k - 1);
      }
    }
  }

  /** A numeral without a superfluous leading zero is the numeral of its value. */
  lemma {:induction false} CanonicalRoundTrip(s: string)
    requires |s| >= 1 && AllDigits(s)
    requires |s| > 1 ==> s[0] != '0'
    ensures DecimalString(DigitsValue(s)) == s
    decreases |s|
  {
    if |s| > 1 {
      var p := s[..|s| - 1];
      var d := s[|s| - 1] as int - '0' as int;
      LeadingDigitPositive(p);
      CanonicalRoundTrip(p);
      assert DigitsValue(s) / 10 == DigitsValue(p) && DigitsValue(s) % 10 == d;
      assert s == p + [s[|s| - 1]];
    }
  }

  lemma {:induction false} LeadingDigitPositive(s: string)
    requires |s| >= 1 && AllDigits(s) && s[0] != '0'
    ensures DigitsValue(s) > 0
    decreases |s|
  {
    if |s| > 1 {
      LeadingDigitPositive(s[..|s| - 1]);
    }
  }

  /** `generateJoinCode`: five decimal digits, no leading zero, denoting `10000 + draw`. */
  function GenerateJoinCode(draw: nat): (code: string)
    requires draw < 90000
    ensures |code| == 5 && AllDigits(code) && code[0] != '0'
    ensures DigitsValue(code) == 10000 + draw
  {
    DecimalLength(10000 + draw, 5);
    DecimalRoundTrip(10000 + draw);
    DecimalString(10000 + draw)
  }

  /** Every five-digit code without a leading zero is the result of exactly one draw, so a
      uniform draw gives a uniform code. */
  lemma JoinCodeCoversAllCodes(code: string)
    requires |code| == 5 && AllDigits(code) && code[0] != '0'
    ensures 10000 <= DigitsValue(code) < 100000
    ensures GenerateJoinCode(DigitsValue(code) - 10000) == code
  {
    CanonicalRoundTrip(code);
    DecimalLengthBounds(DigitsValue(code));
    assert Pow10(4) == 10000 && Pow10(5) == 100000;
  }

  /** Distinct draws give distinct codes. */
  lemma JoinCodeInjective(a: nat, b: nat)
    requires a < 90000 && b < 90000
    requires GenerateJoinCode(a) == GenerateJoinCode(b)
    ensures a == b
  {
  }
}
