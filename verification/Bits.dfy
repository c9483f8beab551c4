/**
 * Powers of two and the binary digits of a natural number. A number below a power of two is
 * determined by that many digits, which is what makes the cubes of a search a partition; shifting
 * and halving move digits by one place.
 */
module Bits {

  function Pow2(n: nat): (r: nat)
    ensures r > 0
  {
    if n == 0 then 1 else 2 * Pow2(n - 1)
  }

  /** `i >> b` */
  function Shr(i: nat, b: nat): nat {
    if b == 0 then i else Shr(i / 2, b - 1)
  }

  /** `(i >> b) & 1 == 1` */
  predicate Bit(i: nat, b: nat) {
    Shr(i, b) % 2 == 1
  }

  lemma BitOfHalf(i: nat, b: nat)
    ensures Bit(i / 2, b) == Bit(i, b + 1)
  {
  }

  lemma {:induction false} Pow2Monotone(a: nat, b: nat)
    requires a <= b
    ensures Pow2(a) <= Pow2(b)
    ensures a < b ==> 2 * Pow2(a) <= Pow2(b)
    decreases b
  {
    if a < b {
      Pow2Monotone(a, b - 1);
    }
  }

  lemma {:induction false} Pow2Sum(a: nat, b: nat)
    ensures Pow2(a + b) == Pow2(a) * Pow2(b)
    decreases b
  {
    if b > 0 {
      Pow2Sum(a, b - 1);
      assert a + b - 1 == a + (b - 1);
    }
  }

  /** Two numbers below 2^d that agree on their lowest d bits are equal. */
  lemma {:induction false} BitsDetermine(i: nat, j: nat, d: nat)
    requires i < Pow2(d) && j < Pow2(d)
    requires forall b :: 0 <= b < d ==> Bit(i, b) == Bit(j, b)
    ensures i == j
  {
    if d > 0 {
      assert Bit(i, 0) == Bit(j, 0);
      forall b | 0 <= b < d - 1
        ensures Bit(i / 2, b) == Bit(j / 2, b)
      {
        BitOfHalf(i, b);
        BitOfHalf(j, b);
        assert Bit(i, b + 1) == Bit(j, b + 1);
      }
      BitsDetermine(i / 2, j / 2, d - 1);
    }
  }
}
