/** Decimal notation of integers, as JavaScript's `String` prints them. */
module Decimal {
  function Digit(d: nat): char
    requires d < 10
  {
    ('0' as int + d) as char
  }

  function OfNat(n: nat): string
    decreases n
  {
    if n < 10 then [Digit(n)] else OfNat(n / 10) + [Digit(n % 10)]
  }

  function OfInt(n: int): string {
    if n < 0 then "-" + OfNat(-n) else OfNat(n)
  }

  function ValueOf(s: string): int {
    if s == "" then 0 else 10 * ValueOf(s[..|s| - 1]) + (s[|s| - 1] as int - '0' as int)
  }

  lemma {:induction false} ValueOfNat(n: nat)
    ensures ValueOf(OfNat(n)) == n
    decreases n
  {
    if n < 10 {
      assert ValueOf([Digit(n)][..0]) == 0;
    } else {
      ValueOfNat(n / 10);
      var front := OfNat(n / 10);
      assert (front + [Digit(n % 10)])[..|front|] == front;
    }
  }

  /** Two numbers never share their notation. */
  lemma OfNatInjective(m: nat, n: nat)
    requires OfNat(m) == OfNat(n)
    ensures m == n
  {
    ValueOfNat(m);
    ValueOfNat(n);
  }

  predicate IsDigit(c: char) {
    '0' <= c <= '9'
  }

  /** Digits only, and no leading zero but zero's own. */
  lemma {:induction false} OfNatIsPlain(n: nat)
    ensures OfNat(n) != "" && forall c <- OfNat(n) :: IsDigit(c)
    ensures OfNat(n)[0] == '0' <==> n == 0
    decreases n
  {
    if n >= 10 {
      OfNatIsPlain(n / 10);
    }
  }
}
