/** The hash that assigns a namespace name to one of the shard hashes. */
module NameHash {

  const INT_MAX := 0x7FFF_FFFF_FFFF_FFFF
  const MAX_RUNE := 0x10FFFF

  /** A 64-bit machine integer after wrap-around. */
  function Wrap(x: int): int {
    (x + INT_MAX + 1) % (2 * INT_MAX + 2) - INT_MAX - 1
  }

  /** The remainder that takes the sign of the dividend. */
  function Remainder(a: int, b: int): int
    requires b > 0
  {
    if a >= 0 then a % b else -((-a) % b)
  }

  /** The code points of the string as digits to the base 33. */
  function Polynomial(s: string): nat {
    if s == "" then 0 else Polynomial(s[..|s| - 1]) * 33 + s[|s| - 1] as int
  }

  /** The loop of the source on machine integers. */
  function Machine(s: string, mod: int): int
    requires mod > 0
  {
    if s == "" then 0 else Step(Machine(s[..|s| - 1], mod), s[|s| - 1] as int, mod)
  }

  function Step(hash: int, c: int, mod: int): int
    requires mod > 0
  {
    Remainder(Wrap(Wrap(hash * 33) + c), mod)
  }

  method Hash(str: string, mod: int) returns (hash: int)
    requires 0 < mod <= INT_MAX
    ensures hash == Machine(str, mod) && -mod < hash < mod
    ensures Fits(mod) ==> hash == Polynomial(str) % mod
  {
    hash := 0;
    for i := 0 to |str|
      invariant hash == Machine(str[..i], mod) && -mod < hash < mod
    {
      assert str[..i + 1][..i] == str[..i];
      hash := Wrap(Wrap(hash * 33) + str[i] as int);
      hash := Remainder(hash, mod);
    }
    assert str[..|str|] == str;
    if Fits(mod) {
      MachineIsPolynomial(str, mod);
    }
  }

  /** The largest intermediate value is a machine integer. */
  predicate Fits(mod: int) {
    33 * (mod - 1) + MAX_RUNE <= INT_MAX
  }

  lemma {:induction false} MachineIsPolynomial(s: string, mod: int)
    requires 0 < mod && Fits(mod)
    ensures HashesWell(s, mod)
  {
    if s == "" {
      SmallRemainder(0, mod);
    } else {
      MachineIsPolynomial(s[..|s| - 1], mod);
      LastStepHashesWell(s[..|s| - 1], s[|s| - 1], mod);
      assert s == s[..|s| - 1] + [s[|s| - 1]];
    }
  }

  lemma LastStepHashesWell(front: string, c: char, mod: int)
    requires 0 < mod && Fits(mod) && HashesWell(front, mod)
    ensures HashesWell(front + [c], mod)
  {
    LastStep(front, c, mod);
    StepIsHorner(Polynomial(front), Machine(front, mod), c as int, mod);
  }

  ghost predicate HashesWell(s: string, mod: int)
    requires mod > 0
  {
    Machine(s, mod) == Polynomial(s) % mod
  }

  lemma LastStep(front: string, c: char, mod: int)
    requires mod > 0
    ensures Machine(front + [c], mod) == Step(Machine(front, mod), c as int, mod)
    ensures Polynomial(front + [c]) == Polynomial(front) * 33 + c as int
  {
    assert (front + [c])[..|front|] == front;
  }

  /** Every number below the modulus is the hash of some string, on the machine as well. */
  lemma {:induction false} StringFor(h: nat, mod: int) returns (s: string)
    requires h < mod <= INT_MAX
    ensures Polynomial(s) == h && Machine(s, mod) == h
    decreases h
  {
    if h == 0 {
      s := "";
    } else {
      var q, d := h / 33, h % 33;
      var front := StringFor(q, mod);
      s := front + [d as char];
      assert s[..|s| - 1] == front && s[|s| - 1] as int == d && q * 33 + d == h;
      WrapSmall(q * 33);
      WrapSmall(h);
      SmallRemainder(h, mod);
    }
  }

  lemma SmallRemainder(x: int, mod: int)
    requires 0 <= x < mod
    ensures Remainder(x, mod) == x
  {
  }

  /** A step that leaves the machine integers from below the modulus makes the hash negative or zero. */
  lemma OverflowIsNegative(h: nat, c: nat, mod: int)
    requires h < mod <= INT_MAX && c <= MAX_RUNE && INT_MAX < h * 33 + c < 2 * INT_MAX + 2
    ensures Step(h, c, mod) <= 0
  {
    var y := h * 33 + c;
    WrapOver(h * 33, c);
    assert Wrap(y) == y - 2 * INT_MAX - 2;
    NegativeRemainder(Wrap(y), mod);
  }

  lemma WrapOver(x: int, c: nat)
    requires 0 <= x && c <= MAX_RUNE && x + c < 2 * INT_MAX + 2
    ensures Wrap(Wrap(x) + c) == Wrap(x + c)
  {
    if x <= INT_MAX {
      WrapSmall(x);
    } else {
      assert Wrap(x) == x - 2 * INT_MAX - 2;
    }
  }

  lemma NegativeRemainder(x: int, mod: int)
    requires x < 0 && mod > 0
    ensures Remainder(x, mod) <= 0
  {
  }

  /** A step that overflows, and whose polynomial is not a multiple of the modulus. */
  lemma OverflowingStep(mod: int) returns (h: nat, c: char)
    requires 0 < mod <= INT_MAX && !Fits(mod)
    ensures h < mod && INT_MAX < h * 33 + c as int < 2 * INT_MAX + 2 && (h * 33 + c as int) % mod != 0
  {
    h, c := INT_MAX / 33 + 1, 0 as char;
    if h < mod {
      if (h * 33) % mod == 0 {
        c := 1 as char;
        AddMultiple(1, h * 33 / mod, mod);
        assert h * 33 == h * 33 / mod * mod;
      }
    } else {
      h, c := mod - 1, MAX_RUNE as char;
      AddMultiple(MAX_RUNE - 33, 33, mod);
      assert h * 33 + c as int == 33 * mod + (MAX_RUNE - 33);
      SmallRemainder(MAX_RUNE - 33, mod);
    }
  }

  lemma OverflowingString(mod: int) returns (s: string)
    requires 0 < mod <= INT_MAX && !Fits(mod)
    ensures !HashesWell(s, mod)
  {
    var h, c := OverflowingStep(mod);
    var front := StringFor(h, mod);
    s := front + [c];
    LastStep(front, c, mod);
    OverflowIsNegative(h, c as int, mod);
  }

  /** The loop computes the remainder of the polynomial for all strings exactly when no step can overflow. */
  lemma HashesWellIff(mod: int)
    requires 0 < mod <= INT_MAX
    ensures (forall s: string :: HashesWell(s, mod)) <==> Fits(mod)
  {
    if Fits(mod) {
      forall s: string
        ensures HashesWell(s, mod)
      {
        MachineIsPolynomial(s, mod);
      }
    } else {
      var s := OverflowingString(mod);
      assert !HashesWell(s, mod);
    }
  }

  lemma SmallStaysSmall(hash: int, c: int, mod: int)
    requires 0 <= hash < mod && 0 <= c <= MAX_RUNE && 33 * (mod - 1) + MAX_RUNE <= INT_MAX
    ensures Wrap(Wrap(hash * 33) + c) == hash * 33 + c
    ensures Remainder(hash * 33 + c, mod) == (hash * 33 + c) % mod
  {
    WrapSmall(hash * 33);
    WrapSmall(hash * 33 + c);
  }

  lemma StepIsHorner(p: nat, hash: int, c: nat, mod: int)
    requires 0 < mod && hash == p % mod && c <= MAX_RUNE && 33 * (mod - 1) + MAX_RUNE <= INT_MAX
    ensures Step(hash, c, mod) == (p * 33 + c) % mod
  {
    SmallStaysSmall(hash, c, mod);
    HornerStep(p, 33, c, mod);
  }

  lemma WrapSmall(x: int)
    requires 0 <= x <= INT_MAX
    ensures Wrap(x) == x
  {
  }

  /** Taking the remainder before a step of Horner's rule does not change the remainder after it. */
  lemma HornerStep(p: nat, b: nat, c: nat, mod: nat)
    requires mod > 0
    ensures (p % mod * b + c) % mod == (p * b + c) % mod
  {
    var q, r := p / mod, p % mod;
    assert p * b == (q * b) * mod + r * b by {
      assert p == q * mod + r;
      assert (q * mod + r) * b == (q * mod) * b + r * b;
      assert (q * mod) * b == (q * b) * mod;
    }
    AddMultiple(r * b + c, q * b, mod);
  }

  lemma AddMultiple(x: nat, k: nat, mod: nat)
    requires mod > 0
    ensures (k * mod + x) % mod == x % mod
  {
    var a := k * mod + x;
    var q, r, d := x / mod, x % mod, a / mod - k - x / mod;
    assert x == q * mod + r;
    assert a == (a / mod) * mod + a % mod;
    assert d * mod == r - a % mod by {
      assert d * mod == (a / mod) * mod - k * mod - q * mod;
    }
    MultipleIsFar(d, mod);
  }

  lemma MultipleIsFar(d: int, mod: int)
    requires -mod < d * mod < mod
    ensures d == 0
  {
    if d > 0 {
      AtLeastOnce(d, mod);
    }
  }

  lemma {:induction false} AtLeastOnce(k: nat, mod: int)
    requires k > 0 && mod > 0
    ensures k * mod >= mod
    decreases k
  {
    if k > 1 {
      AtLeastOnce(k - 1, mod);
      assert k * mod == (k - 1) * mod + mod;
    }
  }

  // ----- Modulus 32 -----

  const DEFAULT_SHARDING_SIZE := 32

  function CodeSum(s: string): nat {
    if s == "" then 0 else CodeSum(s[..|s| - 1]) + s[|s| - 1] as int
  }

  lemma StepMod32(p: nat, sum: nat, c: nat)
    requires p % 32 == sum % 32
    ensures (p * 33 + c) % 32 == (sum + c) % 32
  {
    assert p * 33 + c == p * 32 + (p + c);
    AddMultiple(p + c, p, 32);
    assert p == p / 32 * 32 + p % 32 && sum == sum / 32 * 32 + sum % 32;
    AddMultiple(p % 32 + c, p / 32, 32);
    AddMultiple(sum % 32 + c, sum / 32, 32);
  }

  lemma {:induction false} PolynomialMod32(s: string)
    ensures Polynomial(s) % 32 == CodeSum(s) % 32
  {
    if s != "" {
      var front, c := s[..|s| - 1], s[|s| - 1] as int;
      PolynomialMod32(front);
      StepMod32(Polynomial(front), CodeSum(front), c);
    }
  }

  lemma {:induction false} CodeSumConcat(s: string, t: string)
    ensures CodeSum(s + t) == CodeSum(s) + CodeSum(t)
  {
    if t == "" {
      assert s + t == s;
    } else {
      assert (s + t)[..|s + t| - 1] == s + t[..|t| - 1];
      CodeSumConcat(s, t[..|t| - 1]);
    }
  }

  lemma RemoveOne(t: string, i: nat)
    requires i < |t|
    ensures multiset(t[..i] + t[i + 1..]) == multiset(t) - multiset{t[i]}
  {
    assert t == t[..i] + ([t[i]] + t[i + 1..]);
  }

  lemma CodeSumWithoutOne(t: string, i: nat)
    requires i < |t|
    ensures CodeSum(t) == CodeSum(t[..i] + t[i + 1..]) + t[i] as int
  {
    var a, c, b := t[..i], [t[i]], t[i + 1..];
    assert t == a + (c + b);
    CodeSumConcat(a, b);
    CodeSumConcat(a, c + b);
    CodeSumConcat(c, b);
    assert c[..0] == "" && CodeSum(c) == t[i] as int;
  }

  lemma {:induction false} CodeSumPermutes(s: string, t: string)
    requires multiset(s) == multiset(t)
    ensures CodeSum(s) == CodeSum(t)
    decreases |s|
  {
    if s == "" {
      assert |multiset(t)| == 0;
    } else {
      var front, c := s[..|s| - 1], s[|s| - 1];
      assert s == front + [c];
      assert c in multiset(t);
      var i :| 0 <= i < |t| && t[i] == c;
      RemoveOne(t, i);
      CodeSumWithoutOne(t, i);
      CodeSumPermutes(front, t[..i] + t[i + 1..]);
    }
  }

  /** At the modulus in use the position of a character does not matter: names that are permutations of each
      other always land on the same shard hash. */
  lemma PermutedNamesCollide(s: string, t: string)
    requires multiset(s) == multiset(t)
    ensures Polynomial(s) % DEFAULT_SHARDING_SIZE == Polynomial(t) % DEFAULT_SHARDING_SIZE
  {
    PolynomialMod32(s);
    PolynomialMod32(t);
    CodeSumPermutes(s, t);
  }
}
