/**
 Natural numbers in decimal, as `str` and `int` write and read them.
 */
module Decimal {

  predicate IsDigit(c: char) {
    '0' <= c <= '9'
  }

  predicate IsDigits(s: string) {
    s != "" && forall c :: c in s ==> IsDigit(c)
  }

  function Digit(d: nat): (c: char)
    requires d < 10
    ensures IsDigit(c)
  {
    ('0' as int + d) as char
  }

  function Print(n: nat): (s: string)
    ensures IsDigits(s)
  {
    if n < 10 then [Digit(n)] else Print(n / 10) + [Digit(n % 10)]
  }

  function Value(c: char): (d: nat)
    requires IsDigit(c)
    ensures d < 10
  {
    c as int - '0' as int
  }

  function Parse(s: string): nat
    requires IsDigits(s)
  {
    var last := s[|s| - 1];
    if |s| == 1 then Value(last) else Parse(s[..|s| - 1]) * 10 + Value(last)
  }

  lemma {:induction false} ParsePrint(n: nat)
    ensures Parse(Print(n)) == n
  {
    if n >= 10 {
      ParsePrint(n / 10);
      assert Print(n)[..|Print(n)| - 1] == Print(n / 10);
    }
  }

  lemma PrintInjective(m: nat, n: nat)
    requires Print(m) == Print(n)
    ensures m == n
  {
    ParsePrint(m);
    ParsePrint(n);
  }

  /** Printing writes no leading zero, so nothing that reads as the number is shorter. */
  lemma {:induction false} PrintShortest(s: string)
    requires IsDigits(s)
    ensures |Print(Parse(s))| <= |s|
  {
    if |s| > 1 {
      PrintShortest(s[..|s| - 1]);
      if Parse(s) >= 10 {
        assert Parse(s) / 10 == Parse(s[..|s| - 1]);
      }
    }
  }
}
