/**
 * Java's `Integer.parseInt(String)` with radix 10: an optional leading '-' or '+',
 * one or more decimal digits, and a value that fits in a 32-bit `int`; anything
 * else raises NumberFormatException, which is `None` here.
 */
module JavaInt {
  import opened Wrappers

  const MinInt: int := -0x8000_0000
  const MaxInt: int := 0x7fff_ffff

  predicate IsDigit(c: char) { '0' <= c <= '9' }

  predicate AllDigits(s: string) { forall i :: 0 <= i < |s| ==> IsDigit(s[i]) }

  function DigitValue(c: char): (n: nat)
    requires IsDigit(c)
    ensures n < 10
  {
    c as int - '0' as int
  }

  function DigitChar(n: nat): (c: char)
    requires n < 10
    ensures IsDigit(c) && DigitValue(c) == n
  {
    ('0' as int + n) as char
  }

  /** The sign `parseInt` accepts in front of the digits, if any. */
  function SignLength(s: string): (k: nat)
    ensures k <= |s|
  {
    if |s| > 0 && (s[0] == '-' || s[0] == '+') then 1 else 0
  }

  /** An optional sign followed by one or more ASCII digits. */
  predicate IsNumeral(s: string)
  {
    |s[SignLength(s)..]| > 0 && AllDigits(s[SignLength(s)..])
  }

  /** The value of a run of decimal digits, most significant first. */
  function DigitsValue(s: string): nat
    requires AllDigits(s)
  {
    if |s| == 0 then 0 else DigitsValue(s[..|s| - 1]) * 10 + DigitValue(s[|s| - 1])
  }

  /** `Integer.parseInt(s)`; `None` when it throws NumberFormatException. */
  function ParseInt(s: string): (r: Option<int>)
    ensures r.Some? ==> MinInt <= r.value <= MaxInt
    ensures r.Some? ==> exists i :: 0 <= i < |s| && IsDigit(s[i])
  {
    if |s| == 0 then None
    else
      var negative := s[0] == '-';
      var start := if s[0] == '-' || s[0] == '+' then 1 else 0;
      var digits := s[start..];
      if |digits| == 0 || !AllDigits(digits) then None
      else
        assert IsDigit(s[start]) by { assert digits[0] == s[start]; }
        var magnitude: int := DigitsValue(digits);
        var v := if negative then -magnitude else magnitude;
        if MinInt <= v <= MaxInt then Some(v) else None
  }

  /** The shortest decimal spelling of a natural number. */
  function NatToDecimal(n: nat): (s: string)
    ensures |s| > 0 && AllDigits(s)
  {
    if n < 10 then [DigitChar(n)] else NatToDecimal(n / 10) + [DigitChar(n % 10)]
  }

  /** `Integer.toString(n)`. */
  function IntToDecimal(n: int): string
  {
    if n < 0 then "-" + NatToDecimal(-n) else NatToDecimal(n)
  }

  lemma {:induction false} NatToDecimalValue(n: nat)
    ensures DigitsValue(NatToDecimal(n)) == n
  {
    var s := NatToDecimal(n);
    if n >= 10 {
      assert s[..|s| - 1] == NatToDecimal(n / 10);
      NatToDecimalValue(n / 10);
    }
  }

  /** Every integer, written in decimal, parses back to itself exactly when it fits in an `int`. */
  lemma ParseIntOfDecimal(n: int)
    ensures ParseInt(IntToDecimal(n)) == if MinInt <= n <= MaxInt then Some(n) else None
  {
    var m: nat := if n < 0 then -n else n;
    var d := NatToDecimal(m);
    NatToDecimalValue(m);
    assert IsDigit(d[0]);
    var s := IntToDecimal(n);
    if n < 0 {
      assert s == "-" + d && s[0] == '-' && s[1..] == d;
    } else {
      assert s == d && s[0] != '-' && s[0] != '+' && s[0..] == d;
    }
  }

  /** Text that is not a numeral raises NumberFormatException. */
  lemma ParseIntRejectsNonNumeral(s: string)
    requires !IsNumeral(s)
    ensures ParseInt(s) == None
  {
  }

  /** A leading zero does not change the value of a run of digits. */
  lemma {:induction false} DigitsValueLeadingZero(d: string)
    requires AllDigits(d)
    ensures AllDigits("0" + d) && DigitsValue("0" + d) == DigitsValue(d)
  {
    var z := "0" + d;
    assert forall i :: 0 < i < |z| ==> z[i] == d[i - 1];
    if |d| > 0 {
      assert z[..|z| - 1] == "0" + d[..|d| - 1];
      assert z[|z| - 1] == d[|d| - 1];
      DigitsValueLeadingZero(d[..|d| - 1]);
    }
  }

  /** `parseInt` ignores a leading '+' and leading zeros: "+3", "03" and "3" all give 3. */
  lemma ParseIntNonCanonical(d: string)
    requires |d| > 0 && AllDigits(d)
    ensures ParseInt("+" + d) == ParseInt(d)
    ensures ParseInt("0" + d) == ParseInt(d)
    ensures ParseInt("-0" + d) == ParseInt("-" + d)
  {
    DigitsValueLeadingZero(d);
    assert ("+" + d)[1..] == d;
    assert ("-" + d)[1..] == d;
    assert ("-0" + d)[1..] == "0" + d;
    assert d[0..] == d;
    assert ("0" + d)[0..] == "0" + d;
  }
}
