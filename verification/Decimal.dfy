/** Decimal numerals of natural numbers. */
module Decimal {
  predicate IsDigit(c: char) {
    '0' <= c <= '9'
  }

  predicate AllDigits(s: string) {
    forall c | c in s :: IsDigit(c)
  }

  predicate IsNumeral(s: string) {
    s != "" && AllDigits(s)
  }

  function Numeral(n: nat): string {
    var last := [('0' as int + n % 10) as char];
    if n < 10 then last else Numeral(n / 10) + last
  }

  function Value(s: string): nat
    requires AllDigits(s)
  {
    if s == "" then 0
    else
      assert IsDigit(s[|s| - 1]);
      Value(s[..|s| - 1]) * 10 + (s[|s| - 1] as int - '0' as int)
  }

  lemma {:induction false} NumeralValue(n: nat)
    ensures IsNumeral(Numeral(n)) && Value(Numeral(n)) == n
  {
    var s := Numeral(n);
    if n < 10 {
      assert s[..0] == "";
    } else {
      NumeralValue(n / 10);
      assert s[..|s| - 1] == Numeral(n / 10);
    }
  }

  /** The numeral is the shortest one: it has no leading zero, except for zero itself. */
  lemma {:induction false} NumeralIsShortest(n: nat)
    ensures Numeral(n) != "" && (Numeral(n)[0] == '0' <==> n == 0) && (n == 0 ==> Numeral(n) == "0")
  {
    if n >= 10 {
      NumeralIsShortest(n / 10);
    }
  }

  lemma ValueOfOneMore(s: string, c: char)
    requires AllDigits(s) && IsDigit(c)
    ensures AllDigits(s + [c]) && Value(s + [c]) == Value(s) * 10 + (c as int - '0' as int)
  {
    assert (s + [c])[..|s|] == s;
  }
}
