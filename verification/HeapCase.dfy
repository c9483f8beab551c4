/**
 * Exact heap problems: heaplets over integer terms, a DAG of Boolean combinations, scoped
 * constraints, and the checker that judges a candidate heap.
 */
module HeapCase {
  import opened Wrappers

  datatype Term = Var(i: nat) | Offset(base: nat, delta: int)

  datatype CellValue = Constant(c: int) | TermValue(t: nat)

  /** An address, by term index, and what is stored there. */
  datatype Cell = Cell(location: nat, value: CellValue)

  type Heaplet = seq<Cell>

  datatype Node = HeapAtom(h: nat) | Not(f: nat) | And(fs: seq<nat>) | Or(fs: seq<nat>)

  datatype Constraint = Bound(t: nat, lo: int, hi: int) | Eq(s: nat, t: nat) | Assert(f: nat, polarity: bool)

  datatype Case = Case(count: nat, terms: seq<Term>, heaps: seq<Heaplet>, formulas: seq<Node>, checks: seq<seq<Constraint>>)

  /* ---------- Well-formedness: every reference is to something declared before ---------- */

  predicate TermsOk(terms: seq<Term>, count: nat) {
    forall k :: 0 <= k < |terms| ==>
      match terms[k] case Var(i) => i < count case Offset(b, _) => b < k
  }

  predicate CellOk(c: Cell, terms: nat) {
    c.location < terms && (c.value.TermValue? ==> c.value.t < terms)
  }

  predicate HeapletOk(cells: Heaplet, terms: nat) {
    forall k :: 0 <= k < |cells| ==> CellOk(cells[k], terms)
  }

  predicate NodeOk(n: Node, formulas: nat, heaps: nat) {
    match n
    case HeapAtom(h) => h < heaps
    case Not(f) => f < formulas
    case And(fs) => forall k :: 0 <= k < |fs| ==> fs[k] < formulas
    case Or(fs) => forall k :: 0 <= k < |fs| ==> fs[k] < formulas
  }

  predicate ConstraintOk(c: Constraint, terms: nat, formulas: nat) {
    match c
    case Bound(t, lo, hi) => t < terms && lo <= hi
    case Eq(s, t) => s < terms && t < terms
    case Assert(f, _) => f < formulas
  }

  predicate ConstraintsOk(cs: seq<Constraint>, terms: nat, formulas: nat) {
    forall k :: 0 <= k < |cs| ==> ConstraintOk(cs[k], terms, formulas)
  }

  predicate WellFormed(c: Case) {
    && TermsOk(c.terms, c.count)
    && (forall k :: 0 <= k < |c.heaps| ==> HeapletOk(c.heaps[k], |c.terms|))
    && (forall k :: 0 <= k < |c.formulas| ==> NodeOk(c.formulas[k], k, |c.heaps|))
    && (forall k :: 0 <= k < |c.checks| ==> ConstraintsOk(c.checks[k], |c.terms|, |c.formulas|))
  }

  /* ---------- The checker ---------- */

  /** The terms' values, each from its predecessors'. */
  function TermValues(terms: seq<Term>, xs: seq<int>): (ts: seq<int>)
    requires TermsOk(terms, |xs|)
    ensures |ts| == |terms|
  {
    if terms == [] then []
    else
      var before := TermValues(terms[..|terms| - 1], xs);
      before + [match terms[|terms| - 1] case Var(i) => xs[i] case Offset(b, k) => before[b] + k]
  }

  function Address(c: Cell, ts: seq<int>): int
    requires CellOk(c, |ts|)
  {
    ts[c.location]
  }

  function Stored(c: Cell, ts: seq<int>): int
    requires CellOk(c, |ts|)
  {
    match c.value case Constant(v) => v case TermValue(t) => ts[t]
  }

  /** The cells with their terms evaluated: addresses and contents. */
  function Resolve(cells: Heaplet, ts: seq<int>): (ps: seq<(int, int)>)
    requires HeapletOk(cells, |ts|)
    ensures |ps| == |cells|
  {
    seq(|cells|, k requires 0 <= k < |cells| => (Address(cells[k], ts), Stored(cells[k], ts)))
  }

  type Heap = map<int, int>

  /** The heap the pairs spell, unless one is at null or two share an address. */
  function HeapOf(ps: seq<(int, int)>): Option<Heap> {
    if ps == [] then Some(map[])
    else
      var (a, v) := ps[|ps| - 1];
      match HeapOf(ps[..|ps| - 1])
      case None => None
      case Some(h) => if a == 0 || a in h then None else Some(h[a := v])
  }

  function Concrete(cells: Heaplet, ts: seq<int>): Option<Heap>
    requires HeapletOk(cells, |ts|)
  {
    HeapOf(Resolve(cells, ts))
  }

  method BuildConcrete(cells: Heaplet, ts: seq<int>) returns (r: Option<Heap>)
    requires HeapletOk(cells, |ts|)
    ensures r == Concrete(cells, ts)
  {
    ghost var ps := Resolve(cells, ts);
    var heap: Heap := map[];
    for k := 0 to |cells|
      invariant HeapOf(ps[..k]) == Some(heap)
    {
      assert ps[..k + 1][..k] == ps[..k];
      var address := Address(cells[k], ts);
      if address == 0 || address in heap {
        NoneStays(ps, k + 1);
        return None;
      }
      heap := heap[address := Stored(cells[k], ts)];
    }
    assert ps[..|cells|] == ps;
    r := Some(heap);
  }

  lemma {:induction false} NoneStays(ps: seq<(int, int)>, k: nat)
    requires k <= |ps| && HeapOf(ps[..k]) == None
    ensures HeapOf(ps) == None
    decreases |ps|
  {
    if k < |ps| {
      assert ps[..|ps| - 1][..k] == ps[..k];
      NoneStays(ps[..|ps| - 1], k);
    } else {
      assert ps[..k] == ps;
    }
  }

  ghost predicate HasAddress(ps: seq<(int, int)>, a: int) {
    exists k :: 0 <= k < |ps| && ps[k].0 == a
  }

  /** Distinct non-null addresses. */
  ghost predicate Separate(ps: seq<(int, int)>) {
    && (forall k :: 0 <= k < |ps| ==> ps[k].0 != 0)
    && (forall j, k :: 0 <= j < k < |ps| ==> ps[j].0 != ps[k].0)
  }

  /** h holds exactly the pairs. */
  ghost predicate Spells(ps: seq<(int, int)>, h: Heap) {
    && Separate(ps)
    && (forall a :: a in h ==> HasAddress(ps, a))
    && (forall k :: 0 <= k < |ps| ==> ps[k].0 in h && h[ps[k].0] == ps[k].1)
  }

  /** Separate pairs spell a heap, in whatever order they come; the others spell none. */
  lemma {:induction false} HeapOfSpells(ps: seq<(int, int)>)
    ensures HeapOf(ps).Some? ==> Spells(ps, HeapOf(ps).value)
    ensures HeapOf(ps).None? ==> !Separate(ps)
  {
    if ps != [] {
      var before, a, v := ps[..|ps| - 1], ps[|ps| - 1].0, ps[|ps| - 1].1;
      HeapOfSpells(before);
      assert forall k :: 0 <= k < |before| ==> before[k] == ps[k];
      if HeapOf(before).None? {
        if Separate(ps) {
          assert Separate(before);
        }
      } else {
        var g := HeapOf(before).value;
        if a != 0 && a in g {
          assert HasAddress(before, a);
          var k :| 0 <= k < |before| && before[k].0 == a;
          assert ps[k].0 == ps[|ps| - 1].0;
        } else if a != 0 {
          var h := g[a := v];
          forall x | x in h ensures HasAddress(ps, x) {
            if x == a {
              assert ps[|ps| - 1].0 == a;
            } else {
              assert HasAddress(before, x);
              var k :| 0 <= k < |before| && before[k].0 == x;
              assert ps[k].0 == x;
            }
          }
        }
      }
    }
  }

  lemma {:induction false} SpellsUnique(ps: seq<(int, int)>, h: Heap, h': Heap)
    requires Spells(ps, h) && Spells(ps, h')
    ensures h == h'
  {
    forall a ensures a in h <==> a in h' {
      if a in h { assert HasAddress(ps, a); }
      if a in h' { assert HasAddress(ps, a); }
    }
    forall a | a in h ensures h[a] == h'[a] {
      assert HasAddress(ps, a);
    }
  }

  /** `concrete` yields h exactly when the cells spell h. */
  lemma {:induction false} HeapOfIff(ps: seq<(int, int)>, h: Heap)
    ensures HeapOf(ps) == Some(h) <==> Spells(ps, h)
  {
    HeapOfSpells(ps);
    if Spells(ps, h) {
      SpellsUnique(ps, h, HeapOf(ps).value);
    }
  }

  lemma {:induction false} HeapOfSize(ps: seq<(int, int)>)
    requires HeapOf(ps).Some?
    ensures |HeapOf(ps).value| == |ps|
  {
    if ps != [] {
      HeapOfSize(ps[..|ps| - 1]);
    }
  }

  /** Which heap predicates hold of the heap: those whose cells spell exactly it. */
  function AtomValues(heaps: seq<Heaplet>, ts: seq<int>, heap: Heap): (vs: seq<bool>)
    requires forall k :: 0 <= k < |heaps| ==> HeapletOk(heaps[k], |ts|)
    ensures |vs| == |heaps|
  {
    seq(|heaps|, k requires 0 <= k < |heaps| => Concrete(heaps[k], ts) == Some(heap))
  }

  /** The formulas' values, each from its predecessors'. */
  function FormulaValues(formulas: seq<Node>, atoms: seq<bool>): (vs: seq<bool>)
    requires forall k :: 0 <= k < |formulas| ==> NodeOk(formulas[k], k, |atoms|)
    ensures |vs| == |formulas|
  {
    if formulas == [] then []
    else
      var vs := FormulaValues(formulas[..|formulas| - 1], atoms);
      vs + [NodeValue(formulas[|formulas| - 1], vs, atoms)]
  }

  /** A node's value from the earlier formulas' and the heap predicates' values. */
  predicate NodeValue(n: Node, vs: seq<bool>, atoms: seq<bool>)
    requires NodeOk(n, |vs|, |atoms|)
  {
    match n
    case HeapAtom(h) => atoms[h]
    case Not(f) => !vs[f]
    case And(fs) => forall k :: 0 <= k < |fs| ==> vs[fs[k]]
    case Or(fs) => exists k :: 0 <= k < |fs| && vs[fs[k]]
  }

  predicate ConstraintHolds(c: Constraint, ts: seq<int>, vs: seq<bool>)
    requires ConstraintOk(c, |ts|, |vs|)
  {
    match c
    case Bound(t, lo, hi) => lo <= ts[t] <= hi
    case Eq(s, t) => ts[s] == ts[t]
    case Assert(f, polarity) => vs[f] == polarity
  }

  /** What `validate` asserts of integer values and a heap, for one check. */
  predicate Validates(c: Case, check: nat, xs: seq<int>, heap: Heap)
    requires WellFormed(c) && check < |c.checks| && |xs| == c.count
  {
    var ts := TermValues(c.terms, xs);
    var vs := FormulaValues(c.formulas, AtomValues(c.heaps, ts, heap));
    && 0 !in heap
    && forall k :: 0 <= k < |c.checks[check]| ==> ConstraintHolds(c.checks[check][k], ts, vs)
  }

  method EvaluateTerms(terms: seq<Term>, xs: seq<int>) returns (ts: seq<int>)
    requires TermsOk(terms, |xs|)
    ensures ts == TermValues(terms, xs)
  {
    ts := [];
    for k := 0 to |terms|
      invariant ts == TermValues(terms[..k], xs)
    {
      assert terms[..k + 1][..k] == terms[..k];
      ts := ts + [match terms[k] case Var(i) => xs[i] case Offset(b, d) => ts[b] + d];
    }
    assert terms[..|terms|] == terms;
  }

  method EvaluateFormulas(formulas: seq<Node>, atoms: seq<bool>) returns (vs: seq<bool>)
    requires forall k :: 0 <= k < |formulas| ==> NodeOk(formulas[k], k, |atoms|)
    ensures vs == FormulaValues(formulas, atoms)
  {
    vs := [];
    for k := 0 to |formulas|
      invariant vs == FormulaValues(formulas[..k], atoms)
    {
      assert formulas[..k + 1][..k] == formulas[..k];
      vs := vs + [NodeValue(formulas[k], vs, atoms)];
    }
    assert formulas[..|formulas|] == formulas;
  }

  /** `validate`, with its assertions' conjunction as the answer. */
  method Validate(c: Case, check: nat, xs: seq<int>, heap: Heap) returns (ok: bool)
    requires WellFormed(c) && check < |c.checks| && |xs| == c.count
    ensures ok == Validates(c, check, xs, heap)
  {
    if 0 in heap {
      return false;
    }
    var ts := EvaluateTerms(c.terms, xs);
    var atoms: seq<bool> := [];
    for k := 0 to |c.heaps|
      invariant |atoms| == k && forall j :: 0 <= j < k ==> atoms[j] == (Concrete(c.heaps[j], ts) == Some(heap))
    {
      var h := BuildConcrete(c.heaps[k], ts);
      atoms := atoms + [h == Some(heap)];
    }
    assert atoms == AtomValues(c.heaps, ts, heap);
    var vs := EvaluateFormulas(c.formulas, atoms);
    for k := 0 to |c.checks[check]|
      invariant forall j :: 0 <= j < k ==> ConstraintHolds(c.checks[check][j], ts, vs)
    {
      if !ConstraintHolds(c.checks[check][k], ts, vs) {
        return false;
      }
    }
    ok := true;
  }

  ghost predicate CheckSatisfiable(c: Case, check: nat)
    requires WellFormed(c) && check < |c.checks|
  {
    exists xs: seq<int>, heap: Heap :: |xs| == c.count && Validates(c, check, xs, heap)
  }
}
