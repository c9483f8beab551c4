/** Arithmetic modulo a binary polynomial, three ways. */
module BinaryField {
  import opened Bits
  import opened BinaryPoly

  // Long division on bitmaps, convolution and long division in a coefficient array, and the
  // bit-vector circuits emitted for an SMT solver: all are proved against one residue function.

  /** The residue of x modulo P. */
  function Rem(x: nat, P: nat): (r: nat)
    requires P > 0
    ensures r < Pow2(Degree(P))
    decreases x
  {
    if BitLength(x) < BitLength(P) then
      Pow2Monotone(BitLength(x), Degree(P));
      x
    else
      ReduceDecreases(x, P);
      Rem(Xor(x, Shl(P, BitLength(x) - BitLength(P))), P)
  }

  lemma {:induction false} ReduceDecreases(x: nat, P: nat)
    requires P > 0 && BitLength(x) >= BitLength(P)
    ensures Xor(x, Shl(P, BitLength(x) - BitLength(P))) < x
  {
    var n, i := BitLength(x) - 1, BitLength(x) - BitLength(P);
    ShlTop(P, Degree(P), i, n);
    XorTop(x, Shl(P, i), n);
  }

  lemma {:induction false} RemIsResidue(x: nat, P: nat)
    requires P > 0
    ensures IsResidue(Rem(x, P), x, P)
    decreases x
  {
    if BitLength(x) < BitLength(P) {
      CongruentRefl(x, P);
    } else {
      var i := BitLength(x) - BitLength(P);
      ReduceDecreases(x, P);
      RemIsResidue(Xor(x, Shl(P, i)), P);
      CongruentReduce(x, P, i);
      CongruentTrans(Rem(x, P), Xor(x, Shl(P, i)), x, P);
    }
  }

  lemma {:induction false} RemFromCongruent(r: nat, x: nat, P: nat)
    requires P > 0 && r < Pow2(Degree(P)) && Congruent(r, x, P)
    ensures r == Rem(x, P)
  {
    RemIsResidue(x, P);
    ResidueUnique(r, Rem(x, P), x, P);
  }

  lemma {:induction false} RemXor(x: nat, y: nat, P: nat)
    requires P > 0
    ensures Rem(Xor(x, y), P) == Xor(Rem(x, P), Rem(y, P))
  {
    RemIsResidue(x, P);
    RemIsResidue(y, P);
    CongruentXor(Rem(x, P), x, Rem(y, P), y, P);
    XorBelow(Rem(x, P), Rem(y, P), Degree(P));
    RemFromCongruent(Xor(Rem(x, P), Rem(y, P)), Xor(x, y), P);
  }

  lemma {:induction false} RemSmall(x: nat, P: nat)
    requires P > 0 && x < Pow2(Degree(P))
    ensures Rem(x, P) == x
  {
    CongruentRefl(x, P);
    RemFromCongruent(x, x, P);
  }

  /** The product of the field (or ring, when P is reducible): the residue of a * b. */
  function MulMod(a: nat, b: nat, P: nat): (r: nat)
    requires P > 0
    ensures r < Pow2(Degree(P))
  {
    Rem(Clmul(a, b), P)
  }

  /* ---------- `remainder`: long division on bitmaps ---------- */

  method Remainder(value: nat, P: nat) returns (r: nat)
    requires P > 0
    ensures r == Rem(value, P)
    ensures IsResidue(r, value, P)
  {
    r := value;
    while BitLength(r) >= BitLength(P)
      invariant Rem(r, P) == Rem(value, P)
      decreases r
    {
      ReduceDecreases(r, P);
      r := Xor(r, Shl(P, BitLength(r) - BitLength(P)));
    }
    RemIsResidue(value, P);
  }

  /* ---------- `mul`: convolution and long division in place ---------- */

  function Value(c: seq<bool>): nat {
    if c == [] then 0 else (if c[0] then 1 else 0) + 2 * Value(c[1..])
  }

  lemma {:induction false} ValueHalves(c: seq<bool>)
    requires c != []
    ensures Value(c) % 2 == (if c[0] then 1 else 0) && Value(c) / 2 == Value(c[1..])
  {
    Split(if c[0] then 1 else 0, Value(c[1..]));
  }

  lemma {:induction false} ValueFlip(c: seq<bool>, m: nat, flip: bool)
    requires m < |c|
    ensures Value(c[m := c[m] != flip]) == Xor(Value(c), if flip then Pow2(m) else 0)
  {
    var d := c[m := c[m] != flip];
    if !flip {
      assert d == c;
      XorZero(Value(c));
    } else {
      ValueHalves(c);
      ValueHalves(d);
      XorHalves(Value(c), Pow2(m));
      if m == 0 {
        assert d[1..] == c[1..];
        XorZero(Value(c[1..]));
      } else {
        ValueFlip(c[1..], m - 1, flip);
        assert d[1..] == c[1..][m - 1 := c[1..][m - 1] != flip];
        Split(0, Pow2(m - 1));
      }
      SameHalves(Value(d), Xor(Value(c), Pow2(m)));
    }
  }

  lemma {:induction false} ValueOfPrefix(c: seq<bool>, k: nat)
    requires k <= |c| && forall m :: k <= m < |c| ==> !c[m]
    ensures Value(c) == Value(c[..k]) < Pow2(k)
    decreases |c|
  {
    if c == [] {
      assert c[..k] == c;
    } else if k == 0 {
      ValueOfPrefix(c[1..], 0);
      assert c[..k] == [] && c[1..][..0] == [];
    } else {
      ValueOfPrefix(c[1..], k - 1);
      assert c[..k][1..] == c[1..][..k - 1];
    }
  }

  /** Add the `len` lowest bits of x, if enabled, into the array from `offset` on. */
  method XorInto(c: array<bool>, offset: nat, enabled: bool, x: nat, len: nat)
    requires offset + len <= c.Length
    modifies c
    ensures Value(c[..]) == Xor(Value(old(c[..])), if enabled then Shl(Low(x, len), offset) else 0)
    ensures forall m :: 0 <= m < c.Length ==>
              c[m] == (old(c[m]) != (enabled && offset <= m < offset + len && Bit(x, m - offset)))
  {
    ShlZero(offset);
    XorZero(Value(c[..]));
    for j := 0 to len
      invariant Value(c[..]) == Xor(Value(old(c[..])), if enabled then Shl(Low(x, j), offset) else 0)
      invariant forall m :: 0 <= m < c.Length ==>
                  c[m] == (old(c[m]) != (enabled && offset <= m < offset + j && Bit(x, m - offset)))
    {
      ghost var before := c[..];
      var flip := enabled && Bit(x, j);
      c[offset + j] := c[offset + j] != flip;
      assert c[..] == before[offset + j := before[offset + j] != flip];
      ValueFlip(before, offset + j, flip);
      AddBit(Value(old(c[..])), x, j, offset, enabled);
    }
  }

  lemma {:induction false} AddBit(v: nat, x: nat, j: nat, offset: nat, enabled: bool)
    ensures Xor(Xor(v, if enabled then Shl(Low(x, j), offset) else 0), if enabled && Bit(x, j) then Pow2(offset + j) else 0)
         == Xor(v, if enabled then Shl(Low(x, j + 1), offset) else 0)
  {
    XorZero(0);
    if enabled {
      LowStep(x, j);
      XorShl(Low(x, j), BitValue(x, j), offset);
      ShlOne(j);
      ShlShl(1, j, offset);
      ShlOne(offset + j);
      ShlZero(offset);
      XorAssoc(v, Shl(Low(x, j), offset), Shl(BitValue(x, j), offset));
    } else {
      XorZero(v);
    }
  }

  /** One round of the long division: if coefficient i is set, subtract the modulus shifted under it. */
  method ClearCoefficient(c: array<bool>, i: nat, P: nat, ghost product: nat)
    requires P > 0 && Degree(P) <= i < c.Length
    requires Congruent(Value(c[..]), product, P)
    requires forall m :: i < m < c.Length ==> !c[m]
    modifies c
    ensures Congruent(Value(c[..]), product, P)
    ensures forall m :: i <= m < c.Length ==> !c[m]
  {
    var k := BitLength(P) - 1;
    if c[i] {
      ghost var before := Value(c[..]);
      LowAll(P, k + 1);
      TopBit(P, k);
      XorInto(c, i - k, true, P, k + 1);
      assert Value(c[..]) == Xor(before, Shl(P, i - k));
      CongruentReduce(before, P, i - k);
      CongruentTrans(Xor(before, Shl(P, i - k)), before, product, P);
    }
  }

  /** The convolution: the partial products of the bits of a, added up in place. */
  method Convolve(c: array<bool>, a: nat, b: nat, k: nat)
    requires c.Length == 2 * k + 1 && forall m :: 0 <= m < c.Length ==> !c[m]
    modifies c
    ensures Value(c[..]) == Clmul(Low(b, k), Low(a, k))
    ensures forall m :: 2 * k - 1 <= m < 2 * k + 1 && m >= 0 ==> !c[m]
  {
    ghost var low := Low(b, k);
    assert Clmul(low, 0) == 0;
    ValueOfPrefix(c[..], 0);
    for i := 0 to k
      invariant Value(c[..]) == Clmul(low, Low(a, i))
      invariant forall m :: 2 * k - 1 <= m < 2 * k + 1 && m >= 0 ==> !c[m]
    {
      XorInto(c, i, Bit(a, i), b, k);
      ClmulLowStep(low, a, i);
    }
  }

  /** The coefficient array's product is the residue of the product of the low k bits of a and b. */
  method Mul(a: nat, b: nat, P: nat) returns (r: nat)
    requires P > 0
    ensures r == MulMod(Low(a, Degree(P)), Low(b, Degree(P)), P)
    ensures a < Pow2(Degree(P)) && b < Pow2(Degree(P)) ==> IsResidue(r, Clmul(a, b), P)
  {
    var k := BitLength(P) - 1;
    var coefficients := new bool[2 * k + 1](_ => false);
    Convolve(coefficients, a, b, k);
    ghost var product := Clmul(Low(b, k), Low(a, k));
    CongruentRefl(product, P);
    var i := 2 * k - 1;
    while i >= k
      invariant k - 1 <= i <= 2 * k - 1
      invariant Congruent(Value(coefficients[..]), product, P)
      invariant forall m :: i < m < 2 * k + 1 ==> m < 0 || !coefficients[m]
    {
      ClearCoefficient(coefficients, i, P, product);
      i := i - 1;
    }
    ValueOfPrefix(coefficients[..], k);
    assert coefficients[..][..k] == coefficients[..k];
    r := Value(coefficients[..k]);
    ClmulComm(Low(a, k), Low(b, k));
    RemFromCongruent(r, product, P);
    if a < Pow2(k) && b < Pow2(k) {
      LowAll(a, k);
      LowAll(b, k);
    }
  }

  /* ---------- The emitted bit-vector circuits ---------- */

  /** Terms over the two k-bit arguments; widths are those of the emitted sorts. */
  datatype Bv =
    | ArgA
    | ArgB
    | Const(value: nat)
    | IfBit(bit: nat, of: Bv, thn: Bv, els: Bv)
    | BvXor(left: Bv, right: Bv)
    | BvShl(arg: Bv, amount: nat, width: nat)
    | Extract(low: Bv, count: nat)

  function Eval(t: Bv, a: nat, b: nat): nat {
    match t
    case ArgA => a
    case ArgB => b
    case Const(v) => v
    case IfBit(i, of, thn, els) => if Bit(Eval(of, a, b), i) then Eval(thn, a, b) else Eval(els, a, b)
    case BvXor(l, r) => Xor(Eval(l, a, b), Eval(r, a, b))
    case BvShl(x, i, w) => Low(Shl(Eval(x, a, b), i), w)
    case Extract(x, n) => Low(Eval(x, a, b), n)
  }

  /** `(ite (= bit i of b) (bvshl a i) 0)` at width 2k. */
  function Piece(i: nat, k: nat): Bv {
    IfBit(i, ArgB, BvShl(ArgA, i, 2 * k), Const(0))
  }

  lemma {:induction false} PieceValue(i: nat, k: nat, a: nat, b: nat)
    requires i < k && a < Pow2(k)
    ensures Eval(Piece(i, k), a, b) == if Bit(b, i) then Shl(a, i) else 0
  {
    ShlBounds(a, k, i);
    Pow2Monotone(k + i, 2 * k);
    LowAll(Shl(a, i), 2 * k);
    assert Eval(BvShl(ArgA, i, 2 * k), a, b) == Low(Shl(a, i), 2 * k);
  }

  /** One stage of the reduction: clear bit i with a shifted copy of the modulus. */
  function Stage(r: Bv, i: nat, k: nat, P: nat): Bv
    requires i >= k
  {
    IfBit(i, r, BvXor(r, Const(Shl(P, i - k))), r)
  }

  /** Clearing bit i of v with the modulus shifted under it. */
  lemma {:induction false} BitCleared(v: nat, i: nat, P: nat, x: nat)
    requires P > 0 && i >= Degree(P) && v < Pow2(i + 1) && Congruent(v, x, P)
    ensures var r := if Bit(v, i) then Xor(v, Shl(P, i - Degree(P))) else v;
      r < Pow2(i) && Congruent(r, x, P)
  {
    if v < Pow2(i) {
      BitAbove(v, i);
    } else {
      var s := Shl(P, i - Degree(P));
      TopBit(v, i);
      ShlTop(P, Degree(P), i - Degree(P), i);
      XorTop(v, s, i);
      CongruentReduce(v, P, i - Degree(P));
      CongruentTrans(Xor(v, s), v, x, P);
    }
  }

  lemma {:induction false} StageValue(r: Bv, i: nat, k: nat, P: nat, a: nat, b: nat, x: nat)
    requires P > 0 && k == Degree(P) && i >= k
    requires Eval(r, a, b) < Pow2(i + 1) && Congruent(Eval(r, a, b), x, P)
    ensures Eval(Stage(r, i, k, P), a, b) < Pow2(i)
    ensures Congruent(Eval(Stage(r, i, k, P), a, b), x, P)
  {
    var v, s := Eval(r, a, b), Shl(P, i - k);
    BitCleared(v, i, P, x);
    assert Eval(BvXor(r, Const(s)), a, b) == Xor(v, s);
    assert Eval(Stage(r, i, k, P), a, b) == if Bit(v, i) then Xor(v, s) else v;
  }

  /** On k-bit arguments r is the product of a with the low i bits of b. */
  ghost predicate PartialProduct(r: Bv, k: nat, i: nat) {
    forall a: nat, b: nat :: a < Pow2(k) && b < Pow2(k) ==> Eval(r, a, b) == Clmul(a, Low(b, i))
  }

  lemma {:induction false} FirstPiece(k: nat)
    requires k > 0
    ensures PartialProduct(Piece(0, k), k, 1)
  {
    forall a: nat, b: nat | a < Pow2(k) && b < Pow2(k)
      ensures Eval(Piece(0, k), a, b) == Clmul(a, Low(b, 1))
    {
      PieceValue(0, k, a, b);
      ClmulLowStep(a, b, 0);
      XorZero(if Bit(b, 0) then Shl(a, 0) else 0);
    }
  }

  lemma {:induction false} NextPiece(r: Bv, k: nat, i: nat)
    requires i < k && PartialProduct(r, k, i)
    ensures PartialProduct(BvXor(r, Piece(i, k)), k, i + 1)
  {
    forall a: nat, b: nat | a < Pow2(k) && b < Pow2(k)
      ensures Eval(BvXor(r, Piece(i, k)), a, b) == Clmul(a, Low(b, i + 1))
    {
      PieceValue(i, k, a, b);
      ClmulLowStep(a, b, i);
      assert Eval(BvXor(r, Piece(i, k)), a, b) == Xor(Eval(r, a, b), Eval(Piece(i, k), a, b));
    }
  }

  /** On k-bit arguments r is below 2^i and congruent to the product. */
  ghost predicate PartlyReduced(r: Bv, P: nat, i: nat)
    requires P > 0
  {
    forall a: nat, b: nat :: a < Pow2(Degree(P)) && b < Pow2(Degree(P)) ==>
      Eval(r, a, b) < Pow2(i) && Congruent(Eval(r, a, b), Clmul(a, b), P)
  }

  lemma {:induction false} Unreduced(v: nat, a: nat, b: nat, P: nat)
    requires P > 1 && a < Pow2(Degree(P)) && b < Pow2(Degree(P)) && v == Clmul(a, Low(b, Degree(P)))
    ensures v < Pow2(2 * Degree(P) - 1) && Congruent(v, Clmul(a, b), P)
  {
    LowAll(b, Degree(P));
    ClmulBelow(a, b, Degree(P));
    CongruentRefl(v, P);
  }

  lemma {:induction false} ProductUnreduced(r: Bv, P: nat)
    requires P > 1 && PartialProduct(r, Degree(P), Degree(P))
    ensures PartlyReduced(r, P, 2 * Degree(P) - 1)
  {
    var k := Degree(P);
    forall a: nat, b: nat | a < Pow2(k) && b < Pow2(k)
      ensures Eval(r, a, b) < Pow2(2 * k - 1) && Congruent(Eval(r, a, b), Clmul(a, b), P)
    {
      Unreduced(Eval(r, a, b), a, b, P);
    }
  }

  lemma {:induction false} NextStage(r: Bv, P: nat, i: nat)
    requires P > 1 && i >= Degree(P) && PartlyReduced(r, P, i + 1)
    ensures PartlyReduced(Stage(r, i, Degree(P), P), P, i)
  {
    var k := Degree(P);
    forall a: nat, b: nat | a < Pow2(k) && b < Pow2(k)
      ensures Eval(Stage(r, i, k, P), a, b) < Pow2(i) && Congruent(Eval(Stage(r, i, k, P), a, b), Clmul(a, b), P)
    {
      StageValue(r, i, k, P, a, b, Clmul(a, b));
    }
  }

  lemma {:induction false} LowHalfIsProduct(r: Bv, P: nat)
    requires P > 1 && PartlyReduced(r, P, Degree(P))
    ensures forall a: nat, b: nat :: a < Pow2(Degree(P)) && b < Pow2(Degree(P)) ==>
              Eval(Extract(r, Degree(P)), a, b) == MulMod(a, b, P)
  {
    var k := Degree(P);
    forall a: nat, b: nat | a < Pow2(k) && b < Pow2(k)
      ensures Eval(Extract(r, k), a, b) == MulMod(a, b, P)
    {
      LowAll(Eval(r, a, b), k);
      RemFromCongruent(Eval(r, a, b), Clmul(a, b), P);
      assert Eval(Extract(r, k), a, b) == Low(Eval(r, a, b), k);
    }
  }

  /** The first half of the circuit: the xor of all pieces. */
  method SumPieces(k: nat) returns (r: Bv)
    requires k > 0
    ensures PartialProduct(r, k, k)
  {
    r := Piece(0, k);
    FirstPiece(k);
    for i := 1 to k
      invariant PartialProduct(r, k, i)
    {
      NextPiece(r, k, i);
      r := BvXor(r, Piece(i, k));
    }
  }

  /** The second half: one stage for every bit from the top of the product down to the degree. */
  method ReduceProduct(product: Bv, P: nat) returns (r: Bv)
    requires P > 1 && PartlyReduced(product, P, 2 * Degree(P) - 1)
    ensures PartlyReduced(r, P, Degree(P))
  {
    var k := BitLength(P) - 1;
    r := product;
    var i := 2 * k - 2;
    while i >= k
      invariant k - 1 <= i <= 2 * k - 2
      invariant PartlyReduced(r, P, i + 1)
    {
      NextStage(r, P, i);
      r := Stage(r, i, k, P);
      i := i - 1;
    }
  }

  /** The `multiply` circuit computes the residue of the product, for every modulus and operands. */
  method MultiplyCircuit(P: nat) returns (t: Bv)
    requires P > 1
    ensures forall a: nat, b: nat :: a < Pow2(Degree(P)) && b < Pow2(Degree(P)) ==> Eval(t, a, b) == MulMod(a, b, P)
  {
    var k := BitLength(P) - 1;
    var r := SumPieces(k);
    ProductUnreduced(r, P);
    r := ReduceProduct(r, P);
    t := Extract(r, k);
    LowHalfIsProduct(r, P);
  }

  /** Squaring is additive: the cross terms cancel. */
  lemma {:induction false} SquareXor(x: nat, y: nat)
    ensures Clmul(Xor(x, y), Xor(x, y)) == Xor(Clmul(x, x), Clmul(y, y))
  {
    var z := Xor(x, y);
    ClmulLeftLinear(x, y, z);
    ClmulRightLinear(x, x, y);
    ClmulRightLinear(y, x, y);
    ClmulComm(x, y);
    var c := Clmul(x, y);
    XorComm(c, Clmul(y, y));
    XorSwap(Clmul(x, x), c, Clmul(y, y), c);
    XorSelf(c);
    XorZero(Xor(Clmul(x, x), Clmul(y, y)));
  }

  lemma {:induction false} SquareModXor(x: nat, y: nat, P: nat)
    requires P > 0
    ensures MulMod(Xor(x, y), Xor(x, y), P) == Xor(MulMod(x, x, P), MulMod(y, y, P))
  {
    SquareXor(x, y);
    RemXor(Clmul(x, x), Clmul(y, y), P);
  }

  /** X^i squared is X^(2i). */
  lemma {:induction false} SquarePow2(i: nat)
    ensures Clmul(Pow2(i), Pow2(i)) == Pow2(2 * i)
  {
    ClmulPow2(Pow2(i), i);
    ShlOne(i);
    ShlShl(1, i, i);
    ShlOne(2 * i);
  }

  lemma {:induction false} SquareBit(a: nat, i: nat, P: nat)
    requires P > 0
    ensures MulMod(Low(a, i + 1), Low(a, i + 1), P)
         == Xor(MulMod(Low(a, i), Low(a, i), P), if Bit(a, i) then Rem(Pow2(2 * i), P) else 0)
  {
    LowStep(a, i);
    SquareModXor(Low(a, i), BitValue(a, i), P);
    SquarePow2(i);
    RemSmall(0, P);
    ClmulZero(0);
  }

  /** The linear Frobenius circuit equals multiplication of the argument by itself. */
  method SquareCircuit(P: nat) returns (t: Bv)
    requires P > 1
    ensures forall a: nat, b: nat :: a < Pow2(Degree(P)) ==> Eval(t, a, b) == MulMod(a, a, P)
  {
    var k := BitLength(P) - 1;
    var r := Remainder(Pow2(0), P);
    t := IfBit(0, ArgA, Const(r), Const(0));
    forall a: nat, b: nat
      ensures Eval(t, a, b) == MulMod(Low(a, 1), Low(a, 1), P)
    {
      SquareBit(a, 0, P);
      RemSmall(0, P);
      ClmulZero(0);
      XorZero(Eval(t, a, b));
    }
    for i := 1 to k
      invariant forall a: nat, b: nat :: Eval(t, a, b) == MulMod(Low(a, i), Low(a, i), P)
    {
      var residue := Remainder(Pow2(2 * i), P);
      var t' := BvXor(t, IfBit(i, ArgA, Const(residue), Const(0)));
      forall a: nat, b: nat
        ensures Eval(t', a, b) == MulMod(Low(a, i + 1), Low(a, i + 1), P)
      {
        SquareBit(a, i, P);
        assert Eval(IfBit(i, ArgA, Const(residue), Const(0)), a, b) == if Bit(a, i) then residue else 0;
      }
      t := t';
    }
    forall a: nat, b: nat | a < Pow2(k)
      ensures Eval(t, a, b) == MulMod(a, a, P)
    {
      LowAll(a, k);
    }
  }
}
