/** `strconv.Itoa`: the decimal text of an integer, with a leading '-' for a
    negative one. The status code and the duration of a log record, and the
    line number of a call site, are written this way. */
module Decimal {
  import opened Wrappers

  function DigitChar(d: nat): (c: char)
    requires d < 10
    ensures '0' <= c <= '9'
  {
    "0123456789"[d]
  }

  function CharDigit(c: char): nat
    requires '0' <= c <= '9'
  {
    (c as int - '0' as int) as nat
  }

  predicate IsDigits(s: string)
  {
    forall i :: 0 <= i < |s| ==> '0' <= s[i] <= '9'
  }

  /** Decimal digits of `n`, most significant first, no leading zero. */
  function NatToDecimal(n: nat): string
    decreases n
  {
    if n < 10 then [DigitChar(n)]
    else NatToDecimal(n / 10) + [DigitChar(n % 10)]
  }

  function Itoa(n: int): string
  {
    if n < 0 then "-" + NatToDecimal(-n) else NatToDecimal(n)
  }

  /** The value of a digit string, most significant digit first. */
  function DigitsValue(s: string): nat
    requires IsDigits(s)
  {
    if s == [] then 0
    else DigitsValue(s[..|s| - 1]) * 10 + CharDigit(s[|s| - 1])
  }

  /** `strconv.Atoi` restricted to what `Itoa` produces: an optional '-'
      followed by at least one digit. */
  function Atoi(s: string): Option<int>
  {
    if |s| > 0 && s[0] == '-' then
      (if |s| > 1 && IsDigits(s[1..]) then Some(0 - DigitsValue(s[1..]) as int) else None)
    else if |s| > 0 && IsDigits(s) then Some(DigitsValue(s))
    else None
  }

  /** The digits of a natural number are digits, at least one of them, and
      read back as the number. */
  lemma {:induction false} NatToDecimalValue(n: nat)
    ensures |NatToDecimal(n)| > 0 && IsDigits(NatToDecimal(n))
    ensures DigitsValue(NatToDecimal(n)) == n
  {
    var s := NatToDecimal(n);
    if n < 10 {
      assert s[..|s| - 1] == [];
    } else {
      NatToDecimalValue(n / 10);
      var prefix := NatToDecimal(n / 10);
      assert s == prefix + [DigitChar(n % 10)];
      assert s[..|s| - 1] == prefix;
      assert CharDigit(DigitChar(n % 10)) == n % 10;
    }
  }

  /** The decimal text of `n` has three digits exactly for 100 <= n < 1000,
      and then its first digit is the hundreds. */
  lemma ThreeDigits(n: nat)
    ensures |NatToDecimal(n)| == 3 <==> 100 <= n < 1000
    ensures 100 <= n < 1000 ==> NatToDecimal(n)[0] == DigitChar(n / 100)
  {
    if n >= 1000 {
      var tens := n / 10;
      var hundreds := tens / 10;
      assert hundreds >= 10;
      NatToDecimalValue(hundreds / 10);
      assert |NatToDecimal(hundreds)| == |NatToDecimal(hundreds / 10)| + 1 >= 2;
      assert |NatToDecimal(tens)| == |NatToDecimal(hundreds)| + 1 >= 3;
      assert |NatToDecimal(n)| == |NatToDecimal(tens)| + 1 >= 4;
    } else if 100 <= n {
      assert n / 10 / 10 == n / 100;
      assert NatToDecimal(n / 10) == [DigitChar(n / 100), DigitChar(n / 10 % 10)];
    } else if 10 <= n {
      assert |NatToDecimal(n)| == 2;
    }
  }

  /** `Atoi` of a non-empty digit string is its value. */
  lemma AtoiDigits(s: string)
    requires |s| > 0 && IsDigits(s)
    ensures Atoi(s) == Some(DigitsValue(s) as int)
  {
    assert s[0] != '-';
  }

  /** `Atoi` of '-' followed by a non-empty digit string is minus its value. */
  lemma AtoiNegative(digits: string)
    requires |digits| > 0 && IsDigits(digits)
    ensures Atoi("-" + digits) == Some(0 - DigitsValue(digits) as int)
  {
    var s := "-" + digits;
    assert s[0] == '-' && s[1..] == digits;
  }

  /** `Itoa` loses nothing: its text parses back to the same integer. */
  lemma ItoaRoundTrip(n: int)
    ensures Atoi(Itoa(n)) == Some(n)
  {
    if n < 0 {
      NatToDecimalValue(-n);
      AtoiNegative(NatToDecimal(-n));
    } else {
      NatToDecimalValue(n);
      AtoiDigits(NatToDecimal(n));
    }
  }
}
