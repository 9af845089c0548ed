/** Decimal numerals as strconv.Itoa writes them. */
module Decimal {

  function Digit(d: nat): char
    requires d < 10
  {
    ('0' as int + d) as char
  }

  function Natural(n: nat): (s: string)
    ensures s != "" && s[0] != '-'
  {
    if n < 10 then [Digit(n)] else Natural(n / 10) + [Digit(n % 10)]
  }

  function Itoa(n: int): string {
    if n < 0 then "-" + Natural(-n) else Natural(n)
  }

  function Value(s: string): int {
    if s == "" then 0 else Value(s[..|s| - 1]) * 10 + (s[|s| - 1] as int - '0' as int)
  }

  lemma {:induction false} ValueOfNatural(n: nat)
    ensures Value(Natural(n)) == n
  {
    if n < 10 {
      assert [Digit(n)][..0] == "";
    } else {
      ValueOfNatural(n / 10);
      assert Natural(n)[..|Natural(n)| - 1] == Natural(n / 10);
    }
  }

  lemma ItoaIsInjective(m: int, n: int)
    requires Itoa(m) == Itoa(n)
    ensures m == n
  {
    if m < 0 && n < 0 {
      assert ("-" + Natural(-m))[1..] == Natural(-m);
      assert ("-" + Natural(-n))[1..] == Natural(-n);
      ValueOfNatural(-m);
      ValueOfNatural(-n);
    } else if m >= 0 && n >= 0 {
      ValueOfNatural(m);
      ValueOfNatural(n);
    }
  }
}
