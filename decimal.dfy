/** The `%d` conversion of `printf` for the non-negative values kilo.c
    prints, and the parser that reads such a numeral back. */
module Decimal {

  /** The numeral characters '0' to '9'. */
  predicate IsDigit(ch: char)
  {
    '0' <= ch <= '9'
  }

  predicate AllDigits(s: string)
  {
    forall i :: 0 <= i < |s| ==> IsDigit(s[i])
  }

  /** A numeral as `%d` writes one: at least one digit and no leading zero
      unless the numeral is "0" itself. */
  predicate Canonical(s: string)
  {
    |s| > 0 && AllDigits(s) && (s[0] == '0' ==> |s| == 1)
  }

  function DigitChar(d: nat): (ch: char)
    requires d < 10
    ensures IsDigit(ch)
  {
    ('0' as int + d) as char
  }

  function DigitValue(ch: char): (d: nat)
    requires IsDigit(ch)
    ensures d < 10
  {
    ch as int - '0' as int
  }

  /** `printf("%d", n)` for `n >= 0`: the most significant digit first. */
  function DecimalString(n: nat): (s: string)
    ensures Canonical(s)
    ensures n < 10 <==> |s| == 1
    decreases n
  {
    if n < 10 then [DigitChar(n)] else DecimalString(n / 10) + [DigitChar(n % 10)]
  }

  /** The value of a string of digits, read most significant digit first. */
  function ParseDecimal(s: string): nat
    requires AllDigits(s)
    decreases |s|
  {
    if s == [] then 0 else ParseDecimal(s[..|s| - 1]) * 10 + DigitValue(s[|s| - 1])
  }

  /** Reading back what `%d` wrote gives the number printed. */
  lemma {:induction false} ParseDecimalString(n: nat)
    ensures ParseDecimal(DecimalString(n)) == n
    decreases n
  {
    var s := DecimalString(n);
    if n < 10 {
      assert s[..|s| - 1] == [];
    } else {
      ParseDecimalString(n / 10);
      assert s[..|s| - 1] == DecimalString(n / 10);
    }
  }

  /** A numeral of two or more digits with no leading zero is at least 10. */
  lemma {:induction false} ParseDecimalBounds(s: string)
    requires AllDigits(s) && |s| > 0 && s[0] != '0'
    ensures ParseDecimal(s) >= 1
    ensures |s| >= 2 ==> ParseDecimal(s) >= 10
    decreases |s|
  {
    if |s| >= 2 {
      var p := s[..|s| - 1];
      ParseDecimalBounds(p);
    }
  }

  // Solver aid only: the non-linear division fact used by the round trip.
  lemma DivModTen(q: nat, d: nat)
    requires d < 10
    ensures (q * 10 + d) / 10 == q && (q * 10 + d) % 10 == d
  {
  }

  /** Printing the value of a canonical numeral gives the numeral back, so
      `DecimalString` is a bijection onto the canonical numerals. */
  lemma {:induction false} DecimalStringParse(s: string)
    requires Canonical(s)
    ensures DecimalString(ParseDecimal(s)) == s
    decreases |s|
  {
    var n := ParseDecimal(s);
    if |s| == 1 {
      assert ParseDecimal(s[..0]) == 0 by { assert s[..0] == []; }
      assert n == DigitValue(s[0]);
      assert DigitChar(n) == s[0];
    } else {
      var p := s[..|s| - 1];
      ParseDecimalBounds(s);
      assert p[0] == s[0];
      DivModTen(ParseDecimal(p), DigitValue(s[|s| - 1]));
      DecimalStringParse(p);
      assert s == p + [s[|s| - 1]];
    }
  }
}
