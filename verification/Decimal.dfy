/** Decimal rendering of integers, as fmt's %d prints them. */
module Decimal {

  function Digit(d: nat): char
    requires d < 10
  {
    '0' + d as char
  }

  function Digits(n: nat): (s: string)
    ensures |s| > 0
    ensures forall c :: c in s ==> '0' <= c <= '9'
  {
    if n < 10 then [Digit(n)] else Digits(n / 10) + [Digit(n % 10)]
  }

  function Itoa(n: int): (s: string)
    ensures |s| > 0
    ensures forall c :: c in s ==> c == '-' || '0' <= c <= '9'
  {
    if n < 0 then "-" + Digits(-n) else Digits(n)
  }

  /** Reads a digit string back. */
  function Value(s: string): int {
    if s == "" then 0 else 10 * Value(s[..|s| - 1]) + (s[|s| - 1] as int - '0' as int)
  }

  lemma {:induction false} ValueOfDigits(n: nat)
    ensures Value(Digits(n)) == n
  {
    if n < 10 {
      assert Digits(n)[..0] == "";
    } else {
      ValueOfDigits(n / 10);
      assert Digits(n)[..|Digits(n)| - 1] == Digits(n / 10);
    }
  }

  /** Decimal rendering is the usual one: it reads back as the number, without leading zeros, after a sign if any. */
  lemma {:induction false} ItoaReadsBack(n: int)
    ensures n >= 0 ==> Value(Itoa(n)) == n && (|Itoa(n)| > 1 ==> Itoa(n)[0] != '0')
    ensures n < 0 ==> Itoa(n)[0] == '-' && Value(Itoa(n)[1..]) == -n && Itoa(n)[1] != '0'
  {
    var m := if n < 0 then -n else n;
    ValueOfDigits(m);
    NoLeadingZero(m);
    if n < 0 {
      assert Itoa(n)[1..] == Digits(m);
    }
  }

  lemma {:induction false} NoLeadingZero(n: nat)
    ensures n > 0 ==> Digits(n)[0] != '0'
  {
    if n >= 10 {
      NoLeadingZero(n / 10);
      assert Digits(n)[0] == Digits(n / 10)[0];
    }
  }

  /** Different numbers never print alike. */
  lemma ItoaInjective(m: int, n: int)
    requires Itoa(m) == Itoa(n)
    ensures m == n
  {
    if m >= 0 && n >= 0 {
      ValueOfDigits(m);
      ValueOfDigits(n);
    } else if m < 0 && n < 0 {
      assert Itoa(m)[1..] == Digits(-m) && Itoa(n)[1..] == Digits(-n);
      ValueOfDigits(-m);
      ValueOfDigits(-n);
    } else if m < 0 {
      SignsDiffer(m, n);
    } else {
      SignsDiffer(n, m);
    }
  }

  lemma SignsDiffer(m: int, n: int)
    requires m < 0 <= n
    ensures Itoa(m) != Itoa(n)
  {
    assert Itoa(m)[0] == '-';
    assert Itoa(n)[0] in Digits(n);
  }
}
