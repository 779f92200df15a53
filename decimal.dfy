/** Decimal text of non-negative integers: the behaviour of `std::to_string`
    on a non-negative `int` and of `std::stoi` on a token made only of digits. */
module Decimal {

  predicate IsDigit(c: char) {
    '0' <= c <= '9'
  }

  predicate AllDigits(s: string) {
    forall i :: 0 <= i < |s| ==> IsDigit(s[i])
  }

  function DigitValue(c: char): (d: nat)
    requires IsDigit(c)
    ensures d < 10
  {
    c as int - '0' as int
  }

  function DigitChar(d: nat): (c: char)
    requires d < 10
    ensures IsDigit(c) && DigitValue(c) == d
  {
    ('0' as int + d) as char
  }

  /** `std::to_string(n)` for n >= 0: the shortest decimal numeral of n. */
  function ToDecimal(n: nat): (s: string)
    ensures AllDigits(s) && |s| >= 1
    ensures n < 10 <==> |s| == 1
    ensures n < 100 <==> |s| <= 2
    ensures |s| > 1 ==> s[0] != '0'
  {
    if n < 10 then [DigitChar(n)] else ToDecimal(n / 10) + [DigitChar(n % 10)]
  }

  function Pow10(k: nat): (p: nat)
    ensures p >= 1
  {
    if k == 0 then 1 else 10 * Pow10(k - 1)
  }

  /** `std::stoi(s)` for a token of digits only: leading zeros are allowed,
      and k digits denote a number below 10^k. */
  function FromDecimal(s: string): (n: nat)
    requires AllDigits(s)
    ensures n < Pow10(|s|)
  {
    if s == [] then 0 else FromDecimal(s[..|s| - 1]) * 10 + DigitValue(s[|s| - 1])
  }

  /** Reading back what `ToDecimal` writes gives the number again. */
  lemma {:induction false} FromToDecimal(n: nat)
    ensures FromDecimal(ToDecimal(n)) == n
  {
    if n >= 10 {
      var s := ToDecimal(n);
      assert s[..|s| - 1] == ToDecimal(n / 10);
      FromToDecimal(n / 10);
    }
  }

  /** A leading zero does not change the value a numeral denotes. */
  lemma {:induction false} FromDecimalLeadingZero(s: string)
    requires AllDigits(s)
    ensures AllDigits("0" + s) && FromDecimal("0" + s) == FromDecimal(s)
  {
    if s != [] {
      var t := "0" + s;
      assert t[..|t| - 1] == "0" + s[..|s| - 1];
      assert t[|t| - 1] == s[|s| - 1];
      FromDecimalLeadingZero(s[..|s| - 1]);
    } else {
      assert FromDecimal("0") == FromDecimal("") * 10 + DigitValue('0');
    }
  }

  /** Distinct numbers have distinct numerals, and every numeral without a
      superfluous leading zero is the numeral of its value. */
  lemma {:induction false} ToFromDecimal(s: string)
    requires AllDigits(s) && |s| >= 1 && (|s| > 1 ==> s[0] != '0')
    ensures ToDecimal(FromDecimal(s)) == s
  {
    var n := FromDecimal(s);
    var init := s[..|s| - 1];
    var last := DigitValue(s[|s| - 1]);
    if |s| == 1 {
      assert init == [];
      assert n == last;
      assert ToDecimal(n) == [DigitChar(last)];
    } else {
      assert init[0] == s[0];
      ToFromDecimal(init);
      var m := FromDecimal(init);
      assert ToDecimal(0)[0] == '0';
      assert m != 0;
      assert n == m * 10 + last;
      DivModTen(m, last);
      assert DigitChar(last) == s[|s| - 1];
      assert s == init + [s[|s| - 1]];
    }
  }

  lemma DivModTen(m: nat, d: nat)
    requires d < 10
    ensures (m * 10 + d) / 10 == m && (m * 10 + d) % 10 == d
  {
  }
}
