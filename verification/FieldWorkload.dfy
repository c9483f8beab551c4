/** The binary-field workloads and their expected answers. */
module FieldWorkload {
  import opened Bits
  import opened BinaryPoly
  import opened BinaryField

  // Iterated squaring chains, planted equations over a DAG of field operations, and the inconsistent
  // equation, whose target exists because x^2 + x never takes every value.

  /* ---------- Squaring chains ---------- */

  function Iterated(x: nat, depth: nat, P: nat): nat
    requires P > 0
  {
    if depth == 0 then x else Xor(MulMod(Iterated(x, depth - 1, P), Iterated(x, depth - 1, P), P), 1)
  }

  lemma {:induction false} IteratedBelow(x: nat, depth: nat, P: nat)
    requires P > 1 && x < Pow2(Degree(P))
    ensures Iterated(x, depth, P) < Pow2(Degree(P))
  {
    if depth > 0 {
      var y := Iterated(x, depth - 1, P);
      Pow2Monotone(1, Degree(P));
      XorBelow(MulMod(y, y, P), 1, Degree(P));
    }
  }

  method Iterate(x: nat, depth: nat, P: nat) returns (r: nat)
    requires P > 1 && x < Pow2(Degree(P))
    ensures r == Iterated(x, depth, P)
  {
    r := x;
    for i := 0 to depth
      invariant r == Iterated(x, i, P)
    {
      IteratedBelow(x, i, P);
      var square := Mul(r, r, P);
      LowAll(r, Degree(P));
      r := Xor(square, 1);
    }
  }

  /** The emitted chain `s_i = square(s_(i-1)) xor 1` over a given squaring circuit. */
  function ChainValue(square: Bv, x: nat, depth: nat): nat {
    if depth == 0 then x else Xor(Eval(square, ChainValue(square, x, depth - 1), 0), 1)
  }

  /** A root of the emitted chain equation is a root of the coefficient-array oracle's, and conversely. */
  lemma {:induction false} ChainMatchesIterate(square: Bv, x: nat, depth: nat, P: nat)
    requires P > 1 && x < Pow2(Degree(P))
    requires forall a: nat, b: nat :: a < Pow2(Degree(P)) ==> Eval(square, a, b) == MulMod(a, a, P)
    ensures ChainValue(square, x, depth) == Iterated(x, depth, P)
  {
    if depth > 0 {
      ChainMatchesIterate(square, x, depth - 1, P);
      IteratedBelow(x, depth - 1, P);
      var y := Iterated(x, depth - 1, P);
      assert Eval(square, y, 0) == MulMod(y, y, P);
    }
  }

  /* ---------- x^2 + x is never onto ---------- */

  function ArtinSchreier(x: nat, P: nat): nat
    requires P > 0
  {
    Xor(MulMod(x, x, P), x)
  }

  lemma ArtinSchreierAdditive(x: nat, y: nat, P: nat)
    requires P > 0
    ensures ArtinSchreier(Xor(x, y), P) == Xor(ArtinSchreier(x, P), ArtinSchreier(y, P))
  {
    SquareModXor(x, y, P);
    XorSwap(MulMod(x, x, P), MulMod(y, y, P), x, y);
  }

  /** 0 and 1 are both roots of x^2 + x. */
  lemma {:induction false} ArtinSchreierKernel(P: nat)
    requires P > 1
    ensures ArtinSchreier(0, P) == 0 && ArtinSchreier(1, P) == 0
  {
    Pow2Monotone(1, Degree(P));
    ClmulZero(0);
    ClmulOne(1);
    RemSmall(0, P);
    RemSmall(1, P);
    XorSelf(0);
    XorSelf(1);
  }

  function Image(lo: nat, hi: nat, P: nat): set<nat>
    requires P > 0
  {
    set a: nat | lo <= a < hi :: ArtinSchreier(a, P)
  }

  function Range(n: nat): (r: set<nat>)
    ensures forall a :: a in r <==> 0 <= a < n
  {
    if n == 0 then {} else Range(n - 1) + {n - 1}
  }

  lemma {:induction false} RangeSize(n: nat)
    ensures |Range(n)| == n
  {
    if n > 0 {
      RangeSize(n - 1);
    }
  }

  lemma {:induction false} ImageSnoc(lo: nat, hi: nat, P: nat)
    requires P > 0 && lo <= hi
    ensures Image(lo, hi + 1, P) == Image(lo, hi, P) + {ArtinSchreier(hi, P)}
  {}

  lemma {:induction false} ImageSize(lo: nat, hi: nat, P: nat)
    requires P > 0 && lo <= hi
    ensures |Image(lo, hi, P)| <= hi - lo
    decreases hi
  {
    if lo < hi {
      ImageSize(lo, hi - 1, P);
      ImageSnoc(lo, hi - 1, P);
    } else {
      assert Image(lo, hi, P) == {};
    }
  }

  /** The image over the whole field is closed under addition. */
  lemma {:induction false} ImageClosed(s: nat, t: nat, P: nat)
    requires P > 1 && s in Image(0, Pow2(Degree(P)), P) && t in Image(0, Pow2(Degree(P)), P)
    ensures Xor(s, t) in Image(0, Pow2(Degree(P)), P)
  {
    var q := Pow2(Degree(P));
    var x: nat :| x < q && s == ArtinSchreier(x, P);
    var y: nat :| y < q && t == ArtinSchreier(y, P);
    ArtinSchreierAdditive(x, y, P);
    XorBelow(x, y, Degree(P));
  }

  /** Zero's value is taken again at one, so the image is that of one element fewer. */
  lemma {:induction false} ImageOmitsZero(P: nat)
    requires P > 1
    ensures Image(0, Pow2(Degree(P)), P) == Image(1, Pow2(Degree(P)), P)
    ensures Pow2(Degree(P)) >= 2
  {
    var q := Pow2(Degree(P));
    Pow2Monotone(1, Degree(P));
    ArtinSchreierKernel(P);
    assert ArtinSchreier(1, P) in Image(1, q, P);
  }

  lemma {:induction false} ImageBelow(s: nat, q: nat, P: nat)
    requires P > 1 && q == Pow2(Degree(P)) && s in Image(0, q, P)
    ensures s < q
  {
    var x: nat :| x < q && s == ArtinSchreier(x, P);
    XorBelow(MulMod(x, x, P), x, Degree(P));
  }

  lemma {:induction false} ImageSizeBelow(q: nat, P: nat)
    requires P > 1 && q == Pow2(Degree(P))
    ensures |Image(0, q, P)| < q
  {
    ImageOmitsZero(P);
    ImageSize(1, q, P);
  }

  lemma {:induction false} FewerIsProper(s: set<nat>, q: nat)
    requires |s| < q && forall m :: m in s ==> m < q
    ensures s < Range(q)
  {
    RangeSize(q);
    assert s <= Range(q);
    assert s != Range(q);
  }

  /** ... and it misses an element of the field. */
  lemma {:induction false} ImageProper(q: nat, P: nat)
    requires P > 1 && q == Pow2(Degree(P))
    ensures Image(0, q, P) < Range(q)
  {
    forall s | s in Image(0, q, P) ensures s < q {
      ImageBelow(s, q, P);
    }
    ImageSizeBelow(q, P);
    FewerIsProper(Image(0, q, P), q);
  }

  /** The `unsat` target: the elements of the field outside the image, in order, one of them picked by the seed. */
  method MissingTarget(P: nat, seed: nat) returns (target: nat)
    requires P > 1
    ensures target < Pow2(Degree(P))
    ensures forall x: nat :: x < Pow2(Degree(P)) ==> ArtinSchreier(x, P) != target
    ensures PickedBy(seed, target, Image(0, Pow2(Degree(P)), P), Pow2(Degree(P)))
  {
    var q := Pow2(BitLength(P) - 1);
    var image := Image(0, q, P);
    ImageProper(q, P);
    target := PickOutside(image, q, seed);
    forall x: nat | x < q ensures ArtinSchreier(x, P) != target {
      assert ArtinSchreier(x, P) in image;
    }
  }

  /** How many numbers below v are not taken. */
  function Free(taken: set<nat>, v: nat): nat {
    if v == 0 then 0 else Free(taken, v - 1) + if v - 1 in taken then 0 else 1
  }

  lemma {:induction false} SomeFree(taken: set<nat>, m: nat, v: nat)
    requires m < v && m !in taken
    ensures Free(taken, v) > 0
  {
    if m < v - 1 {
      SomeFree(taken, m, v - 1);
    }
  }

  /** The element of the field outside `taken` with `seed` modulo their number of them below it. */
  predicate PickedBy(seed: nat, target: nat, taken: set<nat>, q: nat) {
    && target < q && target !in taken
    && Free(taken, q) > 0 && Free(taken, target) == seed % Free(taken, q)
  }

  method PickOutside(taken: set<nat>, q: nat, seed: nat) returns (target: nat)
    requires taken < Range(q)
    ensures PickedBy(seed, target, taken, q)
  {
    var missing: seq<nat> := [];
    for v := 0 to q
      invariant |missing| == Free(taken, v)
      invariant forall i :: 0 <= i < |missing| ==> missing[i] < v && missing[i] !in taken && Free(taken, missing[i]) == i
    {
      if v !in taken {
        missing := missing + [v];
      }
    }
    ghost var m :| m in Range(q) && m !in taken;
    SomeFree(taken, m, q);
    target := missing[seed % |missing|];
  }

  /* ---------- Equations over a DAG of field operations ---------- */

  datatype Name = X | Y | T(index: nat)

  datatype Operand = Constant(value: nat) | Var(name: Name)

  datatype Op = Add | Times

  datatype Node = Node(op: Op, left: Operand, right: Operand)

  datatype Equation = Equation(root: Name, equal: bool, target: nat)

  datatype Expected = Expected(P: nat, nodes: seq<Node>, equations: seq<Equation>, satisfiable: bool, x: nat, y: nat)

  datatype Kind = Coupled | RankDeficient | Inconsistent | Nonlinear | Disequality

  /** Node i defines T(i) and refers only to x, y and earlier nodes. */
  predicate Known(o: Operand, i: nat) {
    o.Var? && o.name.T? ==> o.name.index < i
  }

  predicate Grounded(nodes: seq<Node>) {
    forall i :: 0 <= i < |nodes| ==> Known(nodes[i].left, i) && Known(nodes[i].right, i)
  }

  function OperandValue(o: Operand, nodes: seq<Node>, x: nat, y: nat, P: nat): nat
    requires P > 0 && Grounded(nodes) && Known(o, |nodes|)
    decreases |nodes|, 0
  {
    match o
    case Constant(v) => v
    case Var(X) => x
    case Var(Y) => y
    case Var(T(i)) => NodeValue(nodes[..i + 1], x, y, P)
  }

  /** The value of the last node. */
  function NodeValue(nodes: seq<Node>, x: nat, y: nat, P: nat): nat
    requires P > 0 && Grounded(nodes) && nodes != []
    decreases |nodes| - 1, 1
  {
    var n := nodes[|nodes| - 1];
    var before := nodes[..|nodes| - 1];
    var l, r := OperandValue(n.left, before, x, y, P), OperandValue(n.right, before, x, y, P);
    Combine(n.op, l, r, P)
  }

  predicate EquationHolds(e: Expected, eq: Equation, x: nat, y: nat)
    requires e.P > 0 && Grounded(e.nodes) && Known(Var(eq.root), |e.nodes|)
  {
    (OperandValue(Var(eq.root), e.nodes, x, y, e.P) == eq.target) == eq.equal
  }

  predicate WellFormed(e: Expected) {
    && e.P > 1 && Grounded(e.nodes)
    && forall k :: 0 <= k < |e.equations| ==> Known(Var(e.equations[k].root), |e.nodes|)
  }

  /** What `check_values` asserts of a candidate solution. */
  predicate Solves(e: Expected, x: nat, y: nat)
    requires WellFormed(e)
  {
    && x < Pow2(Degree(e.P)) && y < Pow2(Degree(e.P))
    && forall k :: 0 <= k < |e.equations| ==> EquationHolds(e, e.equations[k], x, y)
  }

  /** The dictionary of values, filled node by node. */
  method Evaluate(nodes: seq<Node>, x: nat, y: nat, P: nat) returns (values: map<Name, nat>)
    requires P > 0 && Grounded(nodes)
    ensures forall n :: n in values <==> Known(Var(n), |nodes|)
    ensures forall n :: n in values ==> values[n] == OperandValue(Var(n), nodes, x, y, P)
  {
    values := map[X := x, Y := y];
    for i := 0 to |nodes|
      invariant forall n :: n in values <==> Known(Var(n), i)
      invariant forall n :: n in values ==> values[n] == OperandValue(Var(n), nodes, x, y, P)
    {
      var left := if nodes[i].left.Constant? then nodes[i].left.value else values[nodes[i].left.name];
      var right := if nodes[i].right.Constant? then nodes[i].right.value else values[nodes[i].right.name];
      var value;
      if nodes[i].op == Add {
        value := Xor(left, right);
      } else {
        value := Mul(left, right, P);
      }
      NodeAt(nodes, i, x, y, P);
      values := values[T(i) := value];
    }
  }

  lemma {:induction false} OperandPrefix(o: Operand, nodes: seq<Node>, i: nat, x: nat, y: nat, P: nat)
    requires P > 0 && Grounded(nodes) && i <= |nodes| && Known(o, i)
    ensures OperandValue(o, nodes, x, y, P) == OperandValue(o, nodes[..i], x, y, P)
  {
    if o.Var? && o.name.T? {
      assert nodes[..i][..o.name.index + 1] == nodes[..o.name.index + 1];
    }
  }

  function Combine(op: Op, l: nat, r: nat, P: nat): nat
    requires P > 0
  {
    if op == Add then Xor(l, r) else MulMod(Low(l, Degree(P)), Low(r, Degree(P)), P)
  }

  /** Node i combines its operands' values. */
  lemma {:induction false} NodeAt(nodes: seq<Node>, i: nat, x: nat, y: nat, P: nat)
    requires P > 0 && Grounded(nodes) && i < |nodes|
    ensures OperandValue(Var(T(i)), nodes, x, y, P)
         == Combine(nodes[i].op, OperandValue(nodes[i].left, nodes, x, y, P), OperandValue(nodes[i].right, nodes, x, y, P), P)
  {
    OperandPrefix(nodes[i].left, nodes, i, x, y, P);
    OperandPrefix(nodes[i].right, nodes, i, x, y, P);
    assert nodes[..i + 1][..i] == nodes[..i];
  }

  method CheckValues(e: Expected, x: nat, y: nat) returns (ok: bool)
    requires WellFormed(e)
    ensures ok <==> Solves(e, x, y)
  {
    var q := Pow2(BitLength(e.P) - 1);
    if x >= q || y >= q {
      return false;
    }
    var values := Evaluate(e.nodes, x, y, e.P);
    ok := forall k :: 0 <= k < |e.equations| ==>
      (values[e.equations[k].root] == e.equations[k].target) == e.equations[k].equal;
    assert forall k :: 0 <= k < |e.equations| ==>
      (EquationHolds(e, e.equations[k], x, y) <==>
        (values[e.equations[k].root] == e.equations[k].target) == e.equations[k].equal);
  }

  /** The coupled recurrences u' = u^2 + 2v, v' = u + v^2 from u = x, v = y; 2 is the element X. */
  function CoupledValue(depth: nat, x: nat, y: nat, P: nat): (nat, nat)
    requires P > 0
  {
    if depth == 0 then (x, y)
    else
      var (u, v) := CoupledValue(depth - 1, x, y, P);
      (Xor(MulMod(u, u, P), MulMod(2, v, P)), Xor(u, MulMod(v, v, P)))
  }

  lemma {:induction false} StageBelow(u: nat, v: nat, P: nat)
    requires P > 0 && u < Pow2(Degree(P)) && v < Pow2(Degree(P))
    ensures Xor(MulMod(u, u, P), MulMod(2, v, P)) < Pow2(Degree(P)) && Xor(u, MulMod(v, v, P)) < Pow2(Degree(P))
  {
    XorBelow(MulMod(u, u, P), MulMod(2, v, P), Degree(P));
    XorBelow(u, MulMod(v, v, P), Degree(P));
  }

  lemma {:induction false} CoupledBelow(depth: nat, x: nat, y: nat, P: nat)
    requires P > 0 && x < Pow2(Degree(P)) && y < Pow2(Degree(P))
    ensures CoupledValue(depth, x, y, P).0 < Pow2(Degree(P)) && CoupledValue(depth, x, y, P).1 < Pow2(Degree(P))
  {
    if depth > 0 {
      var (u, v) := CoupledValue(depth - 1, x, y, P);
      CoupledBelow(depth - 1, x, y, P);
      StageBelow(u, v, P);
      assert CoupledValue(depth, x, y, P) == (Xor(MulMod(u, u, P), MulMod(2, v, P)), Xor(u, MulMod(v, v, P)));
    }
  }

  function CoupledStage(n: nat, u: Name, v: Name): seq<Node> {
    [Node(Times, Var(u), Var(u)),
     Node(Times, Constant(2), Var(v)),
     Node(Add, Var(T(n)), Var(T(n + 1))),
     Node(Times, Var(v), Var(v)),
     Node(Add, Var(u), Var(T(n + 3)))]
  }

  /** u and v name the recurrences' values after `depth` stages. */
  ghost predicate NamesCoupled(nodes: seq<Node>, u: Name, v: Name, depth: nat, P: nat)
    requires P > 0
  {
    && Grounded(nodes) && Known(Var(u), |nodes|) && Known(Var(v), |nodes|)
    && forall x: nat, y: nat :: x < Pow2(Degree(P)) && y < Pow2(Degree(P)) ==> NamesCoupledAt(nodes, u, v, depth, P, x, y)
  }

  ghost predicate NamesCoupledAt(nodes: seq<Node>, u: Name, v: Name, depth: nat, P: nat, x: nat, y: nat)
    requires P > 0 && Grounded(nodes) && Known(Var(u), |nodes|) && Known(Var(v), |nodes|)
  {
    (OperandValue(Var(u), nodes, x, y, P), OperandValue(Var(v), nodes, x, y, P)) == CoupledValue(depth, x, y, P)
  }

  /** The fifth and the third node of a stage, from the values of u and v. */
  lemma {:induction false} StageNodes(nodes: seq<Node>, u: Name, v: Name, x: nat, y: nat, P: nat)
    requires P > 0 && Grounded(nodes) && Known(Var(u), |nodes|) && Known(Var(v), |nodes|)
    ensures var n, all := |nodes|, nodes + CoupledStage(|nodes|, u, v);
      var a, b := OperandValue(Var(u), nodes, x, y, P), OperandValue(Var(v), nodes, x, y, P);
      && Grounded(all)
      && OperandValue(Var(T(n + 2)), all, x, y, P) == Xor(Combine(Times, a, a, P), Combine(Times, 2, b, P))
      && OperandValue(Var(T(n + 4)), all, x, y, P) == Xor(a, Combine(Times, b, b, P))
  {
    var n, all := |nodes|, nodes + CoupledStage(|nodes|, u, v);
    assert all[..n] == nodes;
    OperandPrefix(Var(u), all, n, x, y, P);
    OperandPrefix(Var(v), all, n, x, y, P);
    NodeAt(all, n, x, y, P);
    NodeAt(all, n + 1, x, y, P);
    NodeAt(all, n + 2, x, y, P);
    NodeAt(all, n + 3, x, y, P);
    NodeAt(all, n + 4, x, y, P);
  }

  /** Reduced operands multiply to the residue of their product. */
  lemma {:induction false} ReducedTimes(l: nat, r: nat, P: nat)
    requires P > 0 && l < Pow2(Degree(P)) && r < Pow2(Degree(P))
    ensures Combine(Times, l, r, P) == MulMod(l, r, P)
  {
    LowAll(l, Degree(P));
    LowAll(r, Degree(P));
  }

  lemma {:induction false} StageValues(nodes: seq<Node>, u: Name, v: Name, depth: nat, x: nat, y: nat, P: nat)
    requires P >= 4 && NamesCoupled(nodes, u, v, depth, P) && x < Pow2(Degree(P)) && y < Pow2(Degree(P))
    ensures var n, all := |nodes|, nodes + CoupledStage(|nodes|, u, v);
      Grounded(all) && NamesCoupledAt(all, T(n + 2), T(n + 4), depth + 1, P, x, y)
  {
    var (a, b) := CoupledValue(depth, x, y, P);
    assert NamesCoupledAt(nodes, u, v, depth, P, x, y);
    StageNodes(nodes, u, v, x, y, P);
    CoupledBelow(depth, x, y, P);
    TwoReduced(P);
    ReducedTimes(a, a, P);
    ReducedTimes(2, b, P);
    ReducedTimes(b, b, P);
  }

  lemma {:induction false} TwoReduced(P: nat)
    requires P >= 4
    ensures 2 < 4 <= Pow2(Degree(P))
  {
    assert Pow2(2) == 4;
    Pow2Monotone(2, Degree(P));
  }

  lemma {:induction false} StageCoupled(nodes: seq<Node>, u: Name, v: Name, depth: nat, P: nat)
    requires P >= 4 && NamesCoupled(nodes, u, v, depth, P)
    ensures NamesCoupled(nodes + CoupledStage(|nodes|, u, v), T(|nodes| + 2), T(|nodes| + 4), depth + 1, P)
  {
    var all, u', v' := nodes + CoupledStage(|nodes|, u, v), T(|nodes| + 2), T(|nodes| + 4);
    var next := depth + 1;
    StageNodes(nodes, u, v, 0, 0, P);
    forall x: nat, y: nat | x < Pow2(Degree(P)) && y < Pow2(Degree(P))
      ensures NamesCoupledAt(all, u', v', next, P, x, y)
    {
      StageValues(nodes, u, v, depth, x, y, P);
    }
  }

  /** The nodes of the coupled recurrences. */
  method CoupledNodes(depth: nat, ghost P: nat) returns (nodes: seq<Node>, u: Name, v: Name)
    requires P >= 4
    ensures NamesCoupled(nodes, u, v, depth, P)
  {
    nodes, u, v := [], X, Y;
    for i := 0 to depth
      invariant NamesCoupled(nodes, u, v, i, P)
    {
      StageCoupled(nodes, u, v, i, P);
      var n := |nodes|;
      nodes := nodes + CoupledStage(n, u, v);
      u, v := T(n + 2), T(n + 4);
    }
  }

  /** What each equation of the kind has on its left, and whether it is one. */
  function Roots(kind: Kind, depth: nat, x: nat, y: nat, P: nat): seq<(nat, bool)>
    requires P > 0
  {
    match kind
    case Coupled => [(CoupledValue(depth, x, y, P).0, true), (CoupledValue(depth, x, y, P).1, true)]
    case RankDeficient => [(Xor(ArtinSchreier(x, P), ArtinSchreier(y, P)), true)]
    case Inconsistent => [(Xor(ArtinSchreier(x, P), ArtinSchreier(y, P)), true)]
    case Nonlinear => [(MulMod(x, y, P), true), (Xor(x, y), true)]
    case Disequality => [(ArtinSchreier(x, P), false), (y, true)]
  }

  /** The nodes and the named roots denote the kind's left-hand sides, on the whole field. */
  ghost predicate Denotes(kind: Kind, depth: nat, P: nat, nodes: seq<Node>, roots: seq<(Name, bool)>)
    requires P > 0
  {
    && Grounded(nodes) && (forall i :: 0 <= i < |roots| ==> Known(Var(roots[i].0), |nodes|))
    && forall x: nat, y: nat :: x < Pow2(Degree(P)) && y < Pow2(Degree(P)) ==>
         RootsAt(kind, depth, P, nodes, roots, x, y)
  }

  ghost predicate RootsAt(kind: Kind, depth: nat, P: nat, nodes: seq<Node>, roots: seq<(Name, bool)>, x: nat, y: nat)
    requires P > 0 && Grounded(nodes) && (forall i :: 0 <= i < |roots| ==> Known(Var(roots[i].0), |nodes|))
  {
    var rs := Roots(kind, depth, x, y, P);
    && |roots| == |rs|
    && forall i :: 0 <= i < |roots| ==> (OperandValue(Var(roots[i].0), nodes, x, y, P), roots[i].1) == rs[i]
  }

  /** x^2 + x + y^2 + y, the one equation of the rank-deficient and the inconsistent kind. */
  const ARTIN_SCHREIER_SUM: seq<Node> :=
    [Node(Times, Var(X), Var(X)), Node(Add, Var(T(0)), Var(X)),
     Node(Times, Var(Y), Var(Y)), Node(Add, Var(T(2)), Var(Y)),
     Node(Add, Var(T(1)), Var(T(3)))]

  lemma {:induction false} ArtinSchreierSumValue(x: nat, y: nat, P: nat)
    requires P > 1 && x < Pow2(Degree(P)) && y < Pow2(Degree(P))
    ensures Grounded(ARTIN_SCHREIER_SUM)
    ensures OperandValue(Var(T(4)), ARTIN_SCHREIER_SUM, x, y, P)
         == Xor(ArtinSchreier(x, P), ArtinSchreier(y, P)) == ArtinSchreier(Xor(x, y), P)
  {
    var ns := ARTIN_SCHREIER_SUM;
    LowAll(x, Degree(P));
    LowAll(y, Degree(P));
    NodeAt(ns, 0, x, y, P);
    NodeAt(ns, 1, x, y, P);
    NodeAt(ns, 2, x, y, P);
    NodeAt(ns, 3, x, y, P);
    NodeAt(ns, 4, x, y, P);
    ArtinSchreierAdditive(x, y, P);
  }

  /** A planted value lies in the upper quarter of the field. */
  lemma UpperQuarter(q: nat, s: nat)
    requires q >= 4
    ensures 3 * q / 4 <= 3 * q / 4 + s % (q / 4) < q
  {
  }

  /** The value itself for an equation, another one for a disequality. */
  function PlantedTarget(value: nat, equal: bool): nat {
    if equal then value else Xor(value, 1)
  }

  /** Each root's value at the plants becomes its target; a disequality's target is moved off it. */
  method PlantedEquations(nodes: seq<Node>, roots: seq<(Name, bool)>, x: nat, y: nat, P: nat)
    returns (equations: seq<Equation>)
    requires P > 0 && Grounded(nodes) && forall i :: 0 <= i < |roots| ==> Known(Var(roots[i].0), |nodes|)
    ensures |equations| == |roots|
    ensures forall i :: 0 <= i < |roots| ==>
      && equations[i].root == roots[i].0 && equations[i].equal == roots[i].1
      && equations[i].target == PlantedTarget(OperandValue(Var(roots[i].0), nodes, x, y, P), roots[i].1)
      && ((OperandValue(Var(roots[i].0), nodes, x, y, P) == equations[i].target) == roots[i].1)
  {
    var values := Evaluate(nodes, x, y, P);
    equations := [];
    for i := 0 to |roots|
      invariant |equations| == i
      invariant forall j :: 0 <= j < i ==>
        && equations[j].root == roots[j].0 && equations[j].equal == roots[j].1
        && equations[j].target == PlantedTarget(OperandValue(Var(roots[j].0), nodes, x, y, P), roots[j].1)
        && ((OperandValue(Var(roots[j].0), nodes, x, y, P) == equations[j].target) == roots[j].1)
    {
      var value := values[roots[i].0];
      XorCancel(value, 1);
      XorSelf(value);
      equations := equations + [Equation(roots[i].0, roots[i].1, PlantedTarget(value, roots[i].1))];
    }
  }

  lemma {:induction false} CoupledDenotes(nodes: seq<Node>, u: Name, v: Name, depth: nat, P: nat)
    requires P > 0 && NamesCoupled(nodes, u, v, depth, P)
    ensures Denotes(Coupled, depth, P, nodes, [(u, true), (v, true)])
  {
    var roots := [(u, true), (v, true)];
    forall x: nat, y: nat | x < Pow2(Degree(P)) && y < Pow2(Degree(P))
      ensures RootsAt(Coupled, depth, P, nodes, roots, x, y)
    {
      assert NamesCoupledAt(nodes, u, v, depth, P, x, y);
    }
  }

  lemma {:induction false} SumDenotes(kind: Kind, depth: nat, P: nat)
    requires P > 1 && (kind == RankDeficient || kind == Inconsistent)
    ensures Denotes(kind, depth, P, ARTIN_SCHREIER_SUM, [(T(4), true)])
  {
    forall x: nat, y: nat | x < Pow2(Degree(P)) && y < Pow2(Degree(P))
      ensures RootsAt(kind, depth, P, ARTIN_SCHREIER_SUM, [(T(4), true)], x, y)
    {
      ArtinSchreierSumValue(x, y, P);
    }
  }

  const NONLINEAR_NODES: seq<Node> := [Node(Times, Var(X), Var(Y)), Node(Add, Var(X), Var(Y))]

  lemma {:induction false} NonlinearDenotes(depth: nat, P: nat)
    requires P > 1
    ensures Denotes(Nonlinear, depth, P, NONLINEAR_NODES, [(T(0), true), (T(1), true)])
  {
    forall x: nat, y: nat | x < Pow2(Degree(P)) && y < Pow2(Degree(P))
      ensures RootsAt(Nonlinear, depth, P, NONLINEAR_NODES, [(T(0), true), (T(1), true)], x, y)
    {
      NodeAt(NONLINEAR_NODES, 0, x, y, P);
      NodeAt(NONLINEAR_NODES, 1, x, y, P);
      LowAll(x, Degree(P));
      LowAll(y, Degree(P));
    }
  }

  const SQUARE_PLUS: seq<Node> := [Node(Times, Var(X), Var(X)), Node(Add, Var(T(0)), Var(X))]

  lemma {:induction false} DisequalityDenotes(depth: nat, P: nat)
    requires P > 1
    ensures Denotes(Disequality, depth, P, SQUARE_PLUS, [(T(1), false), (Y, true)])
  {
    forall x: nat, y: nat | x < Pow2(Degree(P)) && y < Pow2(Degree(P))
      ensures RootsAt(Disequality, depth, P, SQUARE_PLUS, [(T(1), false), (Y, true)], x, y)
    {
      NodeAt(SQUARE_PLUS, 0, x, y, P);
      NodeAt(SQUARE_PLUS, 1, x, y, P);
      LowAll(x, Degree(P));
    }
  }

  /** The nodes and root relations of each planted kind. */
  method KindNodes(kind: Kind, depth: nat, ghost P: nat) returns (nodes: seq<Node>, roots: seq<(Name, bool)>)
    requires kind != Inconsistent && P >= 4
    ensures Denotes(kind, depth, P, nodes, roots)
  {
    match kind {
      case Coupled =>
        var u, v;
        nodes, u, v := CoupledNodes(depth, P);
        roots := [(u, true), (v, true)];
        CoupledDenotes(nodes, u, v, depth, P);
      case RankDeficient =>
        nodes, roots := ARTIN_SCHREIER_SUM, [(T(4), true)];
        SumDenotes(kind, depth, P);
      case Nonlinear =>
        nodes, roots := NONLINEAR_NODES, [(T(0), true), (T(1), true)];
        NonlinearDenotes(depth, P);
      case Disequality =>
        nodes, roots := SQUARE_PLUS, [(T(1), false), (Y, true)];
        DisequalityDenotes(depth, P);
    }
  }

  ghost predicate ClosedUnderXor(s: set<nat>) {
    0 in s && forall a, b {:trigger HasSum(s, a, b)} :: a in s && b in s ==> HasSum(s, a, b)
  }

  predicate HasSum(s: set<nat>, a: nat, b: nat) {
    Xor(a, b) in s
  }

  lemma {:induction false} ImageIsClosed(P: nat)
    requires P > 1
    ensures ClosedUnderXor(Image(0, Pow2(Degree(P)), P))
  {
    var image := Image(0, Pow2(Degree(P)), P);
    ArtinSchreierKernel(P);
    assert ArtinSchreier(0, P) in image;
    forall a, b | a in image && b in image ensures HasSum(image, a, b) {
      ImageClosed(a, b, P);
    }
  }

  predicate IsSum(image: set<nat>, s: nat) {
    exists a, b :: a in image && b in image && s == Xor(a, b)
  }

  /** The set of the sums of two elements. */
  method AllSums(image: set<nat>) returns (sums: set<nat>)
    ensures forall s {:trigger IsSum(image, s)} :: s in sums <==> IsSum(image, s)
  {
    sums := set a, b | a in image && b in image :: Xor(a, b);
  }

  lemma {:induction false} SumsOfClosed(sums: set<nat>, image: set<nat>)
    requires ClosedUnderXor(image)
    requires forall s {:trigger IsSum(image, s)} :: s in sums <==> IsSum(image, s)
    ensures sums == image
  {
    forall s | s in sums ensures s in image {
      assert IsSum(image, s);
      var a, b :| a in image && b in image && s == Xor(a, b);
      assert HasSum(image, a, b);
    }
    forall s | s in image ensures s in sums {
      XorZero(s);
      assert s == Xor(s, 0);
      assert IsSum(image, s);
    }
  }

  lemma {:induction false} NoSolution(target: nat, P: nat)
    requires P > 1 && target !in Image(0, Pow2(Degree(P)), P)
    ensures forall x: nat, y: nat :: x < Pow2(Degree(P)) && y < Pow2(Degree(P)) ==>
              ArtinSchreier(Xor(x, y), P) != target
  {
    forall x: nat, y: nat | x < Pow2(Degree(P)) && y < Pow2(Degree(P)) ensures ArtinSchreier(Xor(x, y), P) != target {
      XorBelow(x, y, Degree(P));
      assert ArtinSchreier(Xor(x, y), P) in Image(0, Pow2(Degree(P)), P);
    }
  }

  /** The inconsistent kind: a target outside the sums of two image elements always exists. */
  method InconsistentEquation(P: nat, seed: nat) returns (equation: Equation)
    requires P > 1
    ensures equation.root == T(4) && equation.equal
    ensures forall x: nat, y: nat :: x < Pow2(Degree(P)) && y < Pow2(Degree(P)) ==>
              ArtinSchreier(Xor(x, y), P) != equation.target
    ensures PickedBy(seed, equation.target, Image(0, Pow2(Degree(P)), P), Pow2(Degree(P)))
  {
    var q := Pow2(BitLength(P) - 1);
    ImageIsClosed(P);
    var sums := AllSums(Image(0, q, P));
    SumsOfClosed(sums, Image(0, q, P));
    ImageProper(q, P);
    var target := PickOutside(sums, q, seed);
    equation := Equation(T(4), true, target);
    NoSolution(target, P);
  }

  function RootsOf(es: seq<Equation>): (roots: seq<(Name, bool)>)
    ensures |roots| == |es|
  {
    seq(|es|, k requires 0 <= k < |es| => (es[k].root, es[k].equal))
  }

  /** The targets are the kind's left-hand sides at the plants, a disequality's moved off it. */
  ghost predicate TargetsPlanted(kind: Kind, depth: nat, e: Expected)
    requires e.P > 0
  {
    var rs := Roots(kind, depth, e.x, e.y, e.P);
    && |e.equations| == |rs|
    && forall k :: 0 <= k < |rs| ==> e.equations[k].target == if rs[k].1 then rs[k].0 else Xor(rs[k].0, 1)
  }

  /**
   * The generator: its equations are the kind's. Planted kinds have the plants' values as targets
   * and are solved by the plants; the inconsistent kind always finds a target and no pair of field
   * elements solves it.
   */
  method Generate(kind: Kind, P: nat, depth: nat, seed: nat) returns (e: Expected)
    requires P >= 4
    ensures WellFormed(e) && e.P == P && Denotes(kind, depth, P, e.nodes, RootsOf(e.equations))
    ensures var q := Pow2(Degree(P));
      && q >= 4
      && e.x == 3 * q / 4 + (seed * 7 + 3) % (q / 4) < q
      && e.y == 3 * q / 4 + (seed * 11 + 1) % (q / 4) < q
    ensures e.satisfiable <==> kind != Inconsistent
    ensures e.satisfiable ==> TargetsPlanted(kind, depth, e) && Solves(e, e.x, e.y)
    ensures !e.satisfiable ==> TargetMissing(e, seed) && forall x: nat, y: nat :: !Solves(e, x, y)
  {
    var k := BitLength(P) - 1;
    var q := Pow2(k);
    assert k >= 2 && Pow2(2) == 4;
    Pow2Monotone(2, k);
    UpperQuarter(q, seed * 7 + 3);
    UpperQuarter(q, seed * 11 + 1);
    var x, y := 3 * q / 4 + (seed * 7 + 3) % (q / 4), 3 * q / 4 + (seed * 11 + 1) % (q / 4);
    if kind == Inconsistent {
      e := InconsistentWorkload(P, depth, seed, x, y);
    } else {
      e := PlantedWorkload(kind, P, depth, x, y);
    }
  }

  /** The one equation's target is the missing value the seed picks. */
  ghost predicate TargetMissing(e: Expected, seed: nat)
    requires e.P > 0
  {
    var q := Pow2(Degree(e.P));
    |e.equations| == 1 && PickedBy(seed, e.equations[0].target, Image(0, q, e.P), q)
  }

  method InconsistentWorkload(P: nat, ghost depth: nat, seed: nat, x: nat, y: nat) returns (e: Expected)
    requires P >= 4
    ensures WellFormed(e) && e.P == P && !e.satisfiable && e.x == x && e.y == y
    ensures Denotes(Inconsistent, depth, P, e.nodes, RootsOf(e.equations))
    ensures TargetMissing(e, seed) && forall x: nat, y: nat :: !Solves(e, x, y)
  {
    var equation := InconsistentEquation(P, seed);
    e := Expected(P, ARTIN_SCHREIER_SUM, [equation], false, x, y);
    SumDenotes(Inconsistent, depth, P);
    assert RootsOf(e.equations) == [(T(4), true)];
    forall x: nat, y: nat ensures !Solves(e, x, y) {
      if x < Pow2(Degree(P)) && y < Pow2(Degree(P)) {
        ArtinSchreierSumValue(x, y, P);
        assert !EquationHolds(e, e.equations[0], x, y);
      }
    }
  }

  method PlantedWorkload(kind: Kind, P: nat, depth: nat, x: nat, y: nat) returns (e: Expected)
    requires P >= 4 && kind != Inconsistent && x < Pow2(Degree(P)) && y < Pow2(Degree(P))
    ensures WellFormed(e) && e.P == P && e.satisfiable && e.x == x && e.y == y
    ensures Denotes(kind, depth, P, e.nodes, RootsOf(e.equations))
    ensures TargetsPlanted(kind, depth, e) && Solves(e, x, y)
  {
    var nodes, roots := KindNodes(kind, depth, P);
    var equations := PlantedEquations(nodes, roots, x, y, P);
    e := Expected(P, nodes, equations, true, x, y);
    assert RootsOf(equations) == roots;
    assert RootsAt(kind, depth, P, nodes, roots, x, y);
  }
}
