/**
 * Polynomials over GF(2) as coefficient bitmaps: addition is xor, multiplication carry-less. Here
 * are the laws the rest needs: xor is a group in which every element is its own inverse, the
 * product is commutative and distributes over xor, degrees add, congruence modulo a polynomial is
 * an equivalence that respects xor, and a residue below the degree is unique.
 */
module BinaryPoly {
  import opened Bits

  function Xor(a: nat, b: nat): nat
    decreases a + b
  {
    if a == 0 && b == 0 then 0 else (if a % 2 == b % 2 then 0 else 1) + 2 * Xor(a / 2, b / 2)
  }

  /** `x << i` */
  function Shl(x: nat, i: nat): nat {
    if i == 0 then x else 2 * Shl(x, i - 1)
  }

  /** The number formed by the i lowest bits of x. */
  function Low(x: nat, i: nat): nat {
    if i == 0 then 0 else x % 2 + 2 * Low(x / 2, i - 1)
  }

  function BitLength(x: nat): (n: nat)
    ensures x < Pow2(n)
    ensures x > 0 ==> n > 0 && Pow2(n - 1) <= x
  {
    if x == 0 then 0 else 1 + BitLength(x / 2)
  }

  /** Carry-less product. */
  function Clmul(a: nat, b: nat): nat
    decreases b
  {
    if b == 0 then 0 else Xor(if b % 2 == 1 then a else 0, 2 * Clmul(a, b / 2))
  }

  /* ---------- Xor ---------- */

  lemma {:induction false} XorZero(a: nat)
    ensures Xor(a, 0) == a && Xor(0, a) == a
  {
    if a > 0 { XorZero(a / 2); }
  }

  lemma {:induction false} XorSelf(a: nat)
    ensures Xor(a, a) == 0
  {
    if a > 0 { XorSelf(a / 2); }
  }

  lemma {:induction false} XorComm(a: nat, b: nat)
    ensures Xor(a, b) == Xor(b, a)
    decreases a + b
  {
    if a + b > 0 { XorComm(a / 2, b / 2); }
  }

  lemma Split(bit: nat, half: nat)
    requires bit < 2
    ensures (bit + 2 * half) % 2 == bit && (bit + 2 * half) / 2 == half
  {}

  /** A number is its lowest bit and its half. */
  lemma SameHalves(x: nat, y: nat)
    requires x % 2 == y % 2 && x / 2 == y / 2
    ensures x == y
  {}

  lemma {:induction false} XorHalves(a: nat, b: nat)
    ensures Xor(a, b) % 2 == (if a % 2 == b % 2 then 0 else 1)
    ensures Xor(a, b) / 2 == Xor(a / 2, b / 2)
  {
    if a != 0 || b != 0 {
      Split(if a % 2 == b % 2 then 0 else 1, Xor(a / 2, b / 2));
    }
  }

  lemma {:induction false} XorAssoc(a: nat, b: nat, c: nat)
    ensures Xor(Xor(a, b), c) == Xor(a, Xor(b, c))
    decreases a + b + c
  {
    if a + b + c > 0 {
      XorHalves(a, b);
      XorHalves(b, c);
      XorHalves(Xor(a, b), c);
      XorHalves(a, Xor(b, c));
      XorAssoc(a / 2, b / 2, c / 2);
      var l, r := Xor(Xor(a, b), c), Xor(a, Xor(b, c));
      assert l % 2 == r % 2;
      assert l == l % 2 + 2 * (l / 2) && r == r % 2 + 2 * (r / 2);
    } else {
      XorZero(0);
    }
  }

  /** (a + b) + (c + d) == (a + c) + (b + d) */
  lemma {:induction false} XorSwap(a: nat, b: nat, c: nat, d: nat)
    ensures Xor(Xor(a, b), Xor(c, d)) == Xor(Xor(a, c), Xor(b, d))
  {
    XorAssoc(a, b, Xor(c, d));
    XorAssoc(b, c, d);
    XorComm(b, c);
    XorAssoc(c, b, d);
    XorAssoc(a, c, Xor(b, d));
  }

  lemma {:induction false} XorCancel(a: nat, b: nat)
    ensures Xor(a, Xor(a, b)) == b
  {
    XorAssoc(a, a, b);
    XorSelf(a);
    XorZero(b);
  }

  lemma {:induction false} XorZeroIff(a: nat, b: nat)
    ensures Xor(a, b) == 0 <==> a == b
  {
    XorSelf(a);
    if Xor(a, b) == 0 {
      XorCancel(a, b);
      XorZero(a);
    }
  }

  lemma XorDouble(a: nat, b: nat)
    ensures Xor(2 * a, 2 * b) == 2 * Xor(a, b)
  {
  }

  lemma {:induction false} XorShl(a: nat, b: nat, i: nat)
    ensures Xor(Shl(a, i), Shl(b, i)) == Shl(Xor(a, b), i)
    decreases i
  {
    if i > 0 {
      XorShl(a, b, i - 1);
      XorDouble(Shl(a, i - 1), Shl(b, i - 1));
    }
  }

  lemma {:induction false} XorBelow(a: nat, b: nat, n: nat)
    requires a < Pow2(n) && b < Pow2(n)
    ensures Xor(a, b) < Pow2(n)
  {
    if n > 0 { XorBelow(a / 2, b / 2, n - 1); }
  }

  /** A leading bit that only one operand has survives; one both have cancels. */
  lemma {:induction false} XorTop(a: nat, b: nat, n: nat)
    requires Pow2(n) <= b < Pow2(n + 1)
    requires a < Pow2(n + 1)
    ensures a < Pow2(n) ==> Pow2(n) <= Xor(a, b) < Pow2(n + 1)
    ensures a >= Pow2(n) ==> Xor(a, b) < Pow2(n)
  {
    if n > 0 { XorTop(a / 2, b / 2, n - 1); }
  }

  /* ---------- Shifts and low bits ---------- */

  lemma {:induction false} ShlOne(i: nat)
    ensures Shl(1, i) == Pow2(i)
  {
    if i > 0 { ShlOne(i - 1); }
  }

  lemma {:induction false} ShlZero(i: nat)
    ensures Shl(0, i) == 0
  {
    if i > 0 { ShlZero(i - 1); }
  }

  lemma {:induction false} ShlDouble(x: nat, i: nat)
    ensures Shl(2 * x, i) == 2 * Shl(x, i)
  {
    if i > 0 { ShlDouble(x, i - 1); }
  }

  lemma {:induction false} ShlShl(x: nat, i: nat, j: nat)
    ensures Shl(Shl(x, i), j) == Shl(x, i + j)
    decreases j
  {
    if j > 0 { ShlShl(x, i, j - 1); }
  }

  lemma {:induction false} ShlBounds(x: nat, n: nat, i: nat)
    ensures x < Pow2(n) ==> Shl(x, i) < Pow2(n + i)
    ensures x >= Pow2(n) ==> Shl(x, i) >= Pow2(n + i)
    decreases i
  {
    if i > 0 {
      ShlBounds(x, n, i - 1);
      assert n + i - 1 == n + (i - 1);
    }
  }

  lemma {:induction false} ShlTop(x: nat, k: nat, i: nat, n: nat)
    requires Pow2(k) <= x < Pow2(k + 1) && n == k + i
    ensures Pow2(n) <= Shl(x, i) < Pow2(n + 1)
  {
    ShlBounds(x, k, i);
    ShlBounds(x, k + 1, i);
    assert k + 1 + i == n + 1;
  }

  lemma {:induction false} LowAll(x: nat, i: nat)
    requires x < Pow2(i)
    ensures Low(x, i) == x
  {
    if i > 0 { LowAll(x / 2, i - 1); }
  }

  lemma {:induction false} LowBelow(x: nat, i: nat)
    ensures Low(x, i) < Pow2(i)
  {
    if i > 0 { LowBelow(x / 2, i - 1); }
  }

  function BitValue(x: nat, i: nat): nat {
    if Bit(x, i) then Pow2(i) else 0
  }

  lemma {:induction false} LowHalves(x: nat, i: nat)
    requires i > 0
    ensures Low(x, i) % 2 == x % 2 && Low(x, i) / 2 == Low(x / 2, i - 1)
  {
    Split(x % 2, Low(x / 2, i - 1));
  }

  lemma {:induction false} BitValueHalves(x: nat, i: nat)
    requires i > 0
    ensures BitValue(x, i) % 2 == 0 && BitValue(x, i) / 2 == BitValue(x / 2, i - 1)
  {
    BitOfHalf(x, i - 1);
    assert BitValue(x, i) == 2 * BitValue(x / 2, i - 1);
    Split(0, BitValue(x / 2, i - 1));
  }

  lemma {:induction false} LowStep(x: nat, i: nat)
    ensures Low(x, i + 1) == Xor(Low(x, i), BitValue(x, i))
  {
    if i == 0 {
      XorZero(BitValue(x, 0));
      assert Low(x / 2, 0) == 0;
    } else {
      LowStep(x / 2, i - 1);
      BitOfHalf(x, i - 1);
      XorHalves(Low(x, i), BitValue(x, i));
      BitValueHalves(x, i);
      LowHalves(x, i);
      LowHalves(x, i + 1);
      SameHalves(Low(x, i + 1), Xor(Low(x, i), BitValue(x, i)));
    }
  }

  /** The top bit of a number of known length is set. */
  lemma {:induction false} TopBit(x: nat, n: nat)
    requires Pow2(n) <= x < Pow2(n + 1)
    ensures Bit(x, n)
  {
    if n > 0 {
      TopBit(x / 2, n - 1);
      BitOfHalf(x, n - 1);
    }
  }

  lemma {:induction false} BitAbove(x: nat, n: nat)
    requires x < Pow2(n)
    ensures !Bit(x, n)
  {
    if n > 0 {
      BitAbove(x / 2, n - 1);
      BitOfHalf(x, n - 1);
    }
  }

  /* ---------- Carry-less product ---------- */

  lemma {:induction false} ClmulLeftLinear(a: nat, a': nat, b: nat)
    ensures Clmul(Xor(a, a'), b) == Xor(Clmul(a, b), Clmul(a', b))
    decreases b
  {
    XorZero(0);
    if b > 0 {
      ClmulLeftLinear(a, a', b / 2);
      var l, r := Clmul(a, b / 2), Clmul(a', b / 2);
      XorDouble(l, r);
      var u := if b % 2 == 1 then a else 0;
      var u' := if b % 2 == 1 then a' else 0;
      XorSwap(u, u', 2 * l, 2 * r);
    }
  }

  lemma {:induction false} ClmulUnfold(a: nat, b: nat)
    ensures Clmul(a, b) == Xor(if b % 2 == 1 then a else 0, 2 * Clmul(a, b / 2))
  {
    XorZero(0);
  }

  lemma {:induction false} ClmulRightLinear(a: nat, b: nat, b': nat)
    ensures Clmul(a, Xor(b, b')) == Xor(Clmul(a, b), Clmul(a, b'))
    decreases b + b'
  {
    if b + b' == 0 {
      XorZero(0);
    } else {
      ClmulRightLinear(a, b / 2, b' / 2);
      XorHalves(b, b');
      ClmulUnfold(a, b);
      ClmulUnfold(a, b');
      ClmulUnfold(a, Xor(b, b'));
      var u := if b % 2 == 1 then a else 0;
      var u' := if b' % 2 == 1 then a else 0;
      var l, r := Clmul(a, b / 2), Clmul(a, b' / 2);
      XorDouble(l, r);
      XorSwap(u, u', 2 * l, 2 * r);
      XorSelf(a);
      XorZero(a);
    }
  }

  lemma {:induction false} ClmulZero(b: nat)
    ensures Clmul(0, b) == 0
  {
    XorZero(0);
    if b > 0 { ClmulZero(b / 2); }
  }

  lemma {:induction false} ClmulDouble(a: nat, b: nat)
    ensures Clmul(2 * a, b) == 2 * Clmul(a, b)
    decreases b
  {
    if b > 0 {
      ClmulDouble(a, b / 2);
      XorDouble(if b % 2 == 1 then a else 0, 2 * Clmul(a, b / 2));
    }
  }

  lemma {:induction false} ClmulOne(a: nat)
    ensures Clmul(a, 1) == a
  {
    XorZero(a);
    assert Clmul(a, 0) == 0;
  }

  lemma {:induction false} ClmulComm(a: nat, b: nat)
    ensures Clmul(a, b) == Clmul(b, a)
    decreases b
  {
    if b == 0 {
      ClmulZero(a);
    } else {
      ClmulComm(a, b / 2);
      ClmulDouble(b / 2, a);
      ClmulByHalves(b, a);
      ClmulUnfold(a, b);
    }
  }

  lemma {:induction false} OneClmul(a: nat)
    ensures Clmul(1, a) == a
  {
    if a > 0 {
      OneClmul(a / 2);
      XorHalves(a % 2, 2 * (a / 2));
      XorZero(a / 2);
    }
  }

  /** Multiplying by X^i is a shift. */
  /** b is its lowest bit and the rest, without carries. */
  lemma {:induction false} BitAndRest(b: nat)
    ensures Xor(b % 2, 2 * (b / 2)) == b
  {
    Split(0, b / 2);
    XorHalves(b % 2, 2 * (b / 2));
    XorZero(b / 2);
    SameHalves(Xor(b % 2, 2 * (b / 2)), b);
  }

  lemma {:induction false} ClmulByHalves(b: nat, a: nat)
    ensures Clmul(b, a) == Xor(if b % 2 == 1 then a else 0, Clmul(2 * (b / 2), a))
  {
    BitAndRest(b);
    ClmulLeftLinear(b % 2, 2 * (b / 2), a);
    if b % 2 == 1 { OneClmul(a); } else { ClmulZero(a); }
  }

  lemma {:induction false} ClmulPow2(a: nat, i: nat)
    ensures Clmul(a, Pow2(i)) == Shl(a, i)
    decreases i
  {
    if i == 0 {
      ClmulOne(a);
    } else {
      ClmulPow2(a, i - 1);
      ClmulUnfold(a, Pow2(i));
      XorZero(2 * Shl(a, i - 1));
    }
  }

  /** Adding one more bit of the right factor adds one shifted copy of the left. */
  lemma {:induction false} ClmulLowStep(a: nat, b: nat, i: nat)
    ensures Clmul(a, Low(b, i + 1)) == Xor(Clmul(a, Low(b, i)), if Bit(b, i) then Shl(a, i) else 0)
  {
    LowStep(b, i);
    ClmulRightLinear(a, Low(b, i), BitValue(b, i));
    ClmulPow2(a, i);
  }

  /** Degrees add. */
  lemma {:induction false} TopOfSum(low: nat, half: nat, n: nat)
    requires n > 0 && low < Pow2(n) && Pow2(n - 1) <= half < Pow2(n)
    ensures Pow2(n) <= Xor(low, 2 * half) < Pow2(n + 1)
  {
    XorTop(low, 2 * half, n);
  }

  lemma {:induction false} DegreeStep(a: nat, k: nat, b: nat, m: nat)
    requires m > 0 && a < Pow2(k + 1) && Pow2(k + m - 1) <= Clmul(a, b / 2) < Pow2(k + m)
    ensures Pow2(k + m) <= Clmul(a, b) < Pow2(k + m + 1)
  {
    var half := Clmul(a, b / 2);
    ClmulUnfold(a, b);
    Pow2Monotone(k + 1, k + m);
    TopOfSum(if b % 2 == 1 then a else 0, half, k + m);
  }

  lemma {:induction false} ClmulDegree(a: nat, k: nat, b: nat, m: nat)
    requires Pow2(k) <= a < Pow2(k + 1)
    requires Pow2(m) <= b < Pow2(m + 1)
    ensures Pow2(k + m) <= Clmul(a, b) < Pow2(k + m + 1)
    decreases m
  {
    if m == 0 {
      ClmulOne(a);
    } else {
      assert k + (m - 1) == k + m - 1 && k + m - 1 + 1 == k + m;
      ClmulDegree(a, k, b / 2, m - 1);
      DegreeStep(a, k, b, m);
    }
  }

  lemma {:induction false} ClmulBelow(a: nat, b: nat, k: nat)
    requires k >= 1 && a < Pow2(k) && b < Pow2(k)
    ensures Clmul(a, b) < Pow2(2 * k - 1)
  {
    if a == 0 {
      ClmulZero(b);
    } else if b > 0 {
      var m, n := BitLength(a) - 1, BitLength(b) - 1;
      if m >= k { Pow2Monotone(k, m); }
      if n >= k { Pow2Monotone(k, n); }
      ClmulDegree(a, m, b, n);
      Pow2Monotone(m + n + 1, 2 * k - 1);
    }
  }

  /* ---------- Residues ---------- */

  /** x and y differ by a multiple of P. */
  ghost predicate Congruent(x: nat, y: nat, P: nat) {
    exists q: nat :: Xor(x, y) == Clmul(P, q)
  }

  lemma MakeCongruent(x: nat, y: nat, P: nat, q: nat)
    requires Xor(x, y) == Clmul(P, q)
    ensures Congruent(x, y, P)
  {
  }

  lemma {:induction false} CongruentRefl(x: nat, P: nat)
    ensures Congruent(x, x, P)
  {
    XorSelf(x);
    assert Clmul(P, 0) == 0;
    MakeCongruent(x, x, P, 0);
  }

  /** Congruence is compatible with addition; transitivity and symmetry are special cases. */
  lemma {:induction false} CongruentXor(x: nat, x': nat, y: nat, y': nat, P: nat)
    requires Congruent(x, x', P) && Congruent(y, y', P)
    ensures Congruent(Xor(x, y), Xor(x', y'), P)
  {
    var q: nat :| Xor(x, x') == Clmul(P, q);
    var q': nat :| Xor(y, y') == Clmul(P, q');
    XorSwap(x, y, x', y');
    ClmulRightLinear(P, q, q');
    MakeCongruent(Xor(x, y), Xor(x', y'), P, Xor(q, q'));
  }

  lemma {:induction false} CongruentTrans(x: nat, y: nat, z: nat, P: nat)
    requires Congruent(x, y, P) && Congruent(y, z, P)
    ensures Congruent(x, z, P)
  {
    var q: nat :| Xor(x, y) == Clmul(P, q);
    var q': nat :| Xor(y, z) == Clmul(P, q');
    XorSwap(x, y, y, z);
    XorComm(x, y);
    XorAssoc(x, y, Xor(y, z));
    XorCancel(y, z);
    ClmulRightLinear(P, q, q');
    MakeCongruent(x, z, P, Xor(q, q'));
  }

  lemma {:induction false} CongruentSymm(x: nat, y: nat, P: nat)
    requires Congruent(x, y, P)
    ensures Congruent(y, x, P)
  {
    var q: nat :| Xor(x, y) == Clmul(P, q);
    XorComm(x, y);
    MakeCongruent(y, x, P, q);
  }

  /** Subtracting a shifted copy of the modulus does not change the residue class. */
  lemma {:induction false} CongruentReduce(x: nat, P: nat, i: nat)
    ensures Congruent(Xor(x, Shl(P, i)), x, P)
  {
    ClmulPow2(P, i);
    XorComm(x, Shl(P, i));
    XorAssoc(Shl(P, i), x, x);
    XorSelf(x);
    XorZero(Shl(P, i));
    MakeCongruent(Xor(x, Shl(P, i)), x, P, Pow2(i));
  }

  function Degree(P: nat): nat
    requires P > 0
  {
    BitLength(P) - 1
  }

  ghost predicate IsResidue(r: nat, x: nat, P: nat)
    requires P > 0
  {
    r < Pow2(Degree(P)) && Congruent(r, x, P)
  }

  /** Each residue class has one member of degree below the modulus. */
  lemma {:induction false} ResidueUnique(r: nat, r': nat, x: nat, P: nat)
    requires P > 0 && IsResidue(r, x, P) && IsResidue(r', x, P)
    ensures r == r'
  {
    var k := Degree(P);
    CongruentSymm(r', x, P);
    CongruentTrans(r, x, r', P);
    var q: nat :| Xor(r, r') == Clmul(P, q);
    XorBelow(r, r', k);
    if q > 0 {
      var m := BitLength(q) - 1;
      ClmulDegree(P, k, q, m);
      Pow2Monotone(k, k + m);
      assert false;
    }
    XorZeroIff(r, r');
  }
}
