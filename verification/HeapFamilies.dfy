/**
 * The parametric families of heap problems as instruction programs. A program is a head of
 * variables, offset terms, heaplets and constraints, and for some families a tail of disjunctions
 * or nested scopes. Each program is run symbolically, segment by segment, to the case it parses
 * to, for every size.
 */
module HeapFamilies {
  import opened Wrappers
  import opened HeapCase
  import opened HeapProgram

  datatype Family =
    | Allocate | Alias | Values | Permutation | Negative
    | Views | ViewConflict | UnassertedViews
    | FreeViews | SymbolicViews | OffsetViews
    | CacheScopes | BooleanSat | BooleanUnsat | BooleanAlias

  datatype Verdict = Sat | Unsat

  /* ---------- Generators ---------- */

  /** What every program starts with: variables, offset terms, heaplets and unscoped constraints. */
  datatype Head = Head(
    count: nat,
    offsets: seq<(int, int)>,
    symbolic: bool,
    heaps: seq<seq<(int, int)>>,
    constraints: seq<Constraint>)

  function Diagonal(n: nat): (cells: seq<(int, int)>)
    ensures |cells| == n
  {
    seq(n, i requires 0 <= i < n => (i, i))
  }

  function Reversed(s: seq<(int, int)>): (r: seq<(int, int)>)
    ensures |r| == |s|
  {
    seq(|s|, i requires 0 <= i < |s| => s[|s| - 1 - i])
  }

  /** Four cells at consecutive terms storing 0, 1, 2 and `last`. */
  function View(base: int, last: int): seq<(int, int)> {
    [(base, 0), (base + 1, 1), (base + 2, 2), (base + 3, last)]
  }

  function SymbolicView(base: int): seq<(int, int)> {
    [(base, base + 4), (base + 1, base + 5), (base + 2, base + 6), (base + 3, base + 7)]
  }

  /** The cells i+1 -> i for i below 32, starting from i = j mod 32. */
  function Rotated(j: nat): (cells: seq<(int, int)>)
    ensures |cells| == 32
  {
    seq(32, i requires 0 <= i < 32 => ((i + j) % 32 + 1, (i + j) % 32))
  }

  function Asserts(n: nat): (cs: seq<Constraint>)
    ensures |cs| == n
  {
    seq(n, j requires 0 <= j < n => Assert(j, true))
  }

  function Bounds(n: nat, hi: int): (cs: seq<Constraint>)
    ensures |cs| == n
  {
    seq(n, i requires 0 <= i < n => Bound(i, 1, hi))
  }

  function ExactBounds(n: nat): (cs: seq<Constraint>)
    ensures |cs| == 4 * n
  {
    seq(4 * n, m requires 0 <= m < 4 * n => Bound(m, m % 4 + 1, m % 4 + 1))
  }

  /** Eight terms a view, each equal to its counterpart in the first view. */
  function SameViews(n: nat): (cs: seq<Constraint>)
    requires n >= 1
    ensures |cs| == 8 * (n - 1)
  {
    seq(8 * (n - 1), m requires 0 <= m < 8 * (n - 1) => Eq(8 + m, m % 8))
  }

  function AllEqualFirst(n: nat): (cs: seq<Constraint>)
    requires n >= 1
    ensures |cs| == n - 1
  {
    seq(n - 1, m requires 0 <= m < n - 1 => Eq(1 + m, 0))
  }

  function HeapsOfFamily(f: Family, n: nat): (hs: seq<seq<(int, int)>>)
    requires n >= 2
  {
    match f
    case Allocate => [Diagonal(n)]
    case Alias => [Diagonal(n)]
    case Values => [Diagonal(n), Diagonal(n)[n - 1 := (n - 1, n)]]
    case Permutation => [Diagonal(n), Reversed(Diagonal(n))]
    case Negative => seq(n, j requires 0 <= j < n => [(4 * j, 0), (4 * j + 1, 0), (4 * j + 2, 0), (4 * j + 3, 0)])
    case Views => seq(n, j requires 0 <= j < n => View(4 * j, 3))
    case ViewConflict => seq(n, j requires 0 <= j < n => View(4 * j, if j == n - 1 then 4 else 3))
    case UnassertedViews => seq(n, j requires 0 <= j < n => View(4 * j, 3 + j))
    case FreeViews => seq(n, j requires 0 <= j < n => View(4 * j, 3))
    case SymbolicViews => seq(n, j requires 0 <= j < n => SymbolicView(8 * j))
    case OffsetViews => seq(n, j requires 0 <= j < n => View(n + 4 * j, 3))
    case CacheScopes => seq(n, j requires 0 <= j < n => Rotated(j))
    case BooleanSat => seq(n, j requires 0 <= j < n => [(0, j)])
    case BooleanUnsat => seq(n, j requires 0 <= j < n => [(0, j)])
    case BooleanAlias => seq(n, j requires 0 <= j < n => [(0, 7), (1, 9)])
  }

  function ConstraintsOfFamily(f: Family, n: nat): seq<Constraint>
    requires n >= 2
  {
    match f
    case Allocate => Bounds(n, n) + [Assert(0, true)]
    case Alias => Bounds(n, n) + [Eq(0, n - 1)] + [Assert(0, true)]
    case Values => Bounds(n, n) + [Assert(0, true), Assert(1, true)]
    case Permutation => Bounds(n, n) + [Assert(0, true), Assert(1, false)]
    case Negative => seq(n, j requires 0 <= j < n => Assert(j, false))
    case Views => ExactBounds(n) + Asserts(n)
    case ViewConflict => ExactBounds(n) + Asserts(n)
    case UnassertedViews => ExactBounds(n) + Asserts(1)
    case FreeViews => Bounds(4, 4) + Asserts(n)
    case SymbolicViews => Bounds(4, 4) + SameViews(n) + Asserts(n)
    case OffsetViews => [Bound(0, 1, n)] + AllEqualFirst(n) + Asserts(n)
    case CacheScopes => [Bound(0, 1, n + 1), Assert(0, true)]
    case BooleanSat => [Bound(0, 1, n)]
    case BooleanUnsat => [Bound(0, 1, n)]
    case BooleanAlias => [Bound(0, 1, n), Bound(1, 1, n)]
  }

  function CountOf(f: Family, n: nat): nat {
    match f
    case Allocate => n
    case Alias => n
    case Values => n
    case Permutation => n
    case Negative => 4 * n
    case Views => 4 * n
    case ViewConflict => 4 * n
    case UnassertedViews => 4 * n
    case FreeViews => 4 * n
    case SymbolicViews => 8 * n
    case OffsetViews => n
    case CacheScopes => 1
    case BooleanSat => 1
    case BooleanUnsat => 1
    case BooleanAlias => 2
  }

  function OffsetsOf(f: Family, n: nat): seq<(int, int)> {
    if f.OffsetViews? then seq(4 * n, m requires 0 <= m < 4 * n => (m / 4, m % 4))
    else if f.CacheScopes? then seq(32, i requires 0 <= i < 32 => (0, i))
    else []
  }

  function HeadOf(f: Family, n: nat): Head
    requires n >= 2
  {
    Head(CountOf(f, n), OffsetsOf(f, n), f.SymbolicViews?, HeapsOfFamily(f, n), ConstraintsOfFamily(f, n))
  }

  function Indexes(lo: nat, hi: nat): (fs: seq<int>)
    requires lo <= hi
    ensures |fs| == hi - lo
  {
    seq(hi - lo, k requires 0 <= k < hi - lo => lo + k)
  }

  /** Two nested scopes around view j: checked alone, contradicted, and alone again. */
  function ScopeBlock(j: nat): Program {
    [Push, DoAssert(j, true), Check] + [Push, DoAssert(j, false), Check] + [Pop, Check, Pop]
  }

  function ScopeBlocks(n: nat): Program {
    if n == 0 then [] else ScopeBlocks(n - 1) + ScopeBlock(n - 1)
  }

  /** What follows the head. */
  function Tail(f: Family, n: nat): Program
    requires n >= 2
  {
    match f
    case CacheScopes => ScopeBlocks(n)
    case BooleanSat => [DeclOr(Indexes(0, n)), DoAssert(n, true)]
    case BooleanAlias => [DeclOr(Indexes(0, n)), DoAssert(n, true)]
    case BooleanUnsat =>
      [DeclOr(Indexes(0, n / 2)), DoAssert(n, true), DeclOr(Indexes(n / 2, n)), DoAssert(n + 1, true)]
    case _ => []
  }

  function InstrOf(c: Constraint): Instr {
    match c
    case Bound(t, lo, hi) => DoBound(t, lo, hi)
    case Eq(s, t) => DoEq(s, t)
    case Assert(f, p) => DoAssert(f, p)
  }

  function OffsetInstrs(h: Head): (p: Program)
    ensures |p| == |h.offsets|
  {
    seq(|h.offsets|, k requires 0 <= k < |h.offsets| => DeclOffset(h.offsets[k].0, h.offsets[k].1))
  }

  function HeapInstrs(h: Head): (p: Program)
    ensures |p| == |h.heaps|
  {
    seq(|h.heaps|, k requires 0 <= k < |h.heaps| => DeclHeap(h.symbolic, h.heaps[k]))
  }

  function ConstraintInstrs(h: Head): (p: Program)
    ensures |p| == |h.constraints|
  {
    seq(|h.constraints|, k requires 0 <= k < |h.constraints| => InstrOf(h.constraints[k]))
  }

  function HeadProgram(h: Head): Program {
    OffsetInstrs(h) + HeapInstrs(h) + ConstraintInstrs(h)
  }

  function Generate(f: Family, n: nat): Program
    requires n >= 2
  {
    HeadProgram(HeadOf(f, n)) + Tail(f, n)
  }

  /* ---------- What the programs parse to ---------- */

  predicate HeadOk(h: Head) {
    && (forall k :: 0 <= k < |h.offsets| ==> InRange(h.offsets[k].0, h.count))
    && (forall k :: 0 <= k < |h.heaps| ==> CellsInRange(h.heaps[k], h.symbolic, h.count + |h.offsets|))
    && ConstraintsOk(h.constraints, h.count + |h.offsets|, |h.heaps|)
  }

  function HeadTerms(h: Head): (ts: seq<Term>)
    requires HeadOk(h)
    ensures |ts| == h.count + |h.offsets|
  {
    seq(h.count + |h.offsets|, k requires 0 <= k < h.count + |h.offsets| =>
      if k < h.count then Var(k) else Offset(h.offsets[k - h.count].0, h.offsets[k - h.count].1))
  }

  function HeadHeaps(h: Head): (hs: seq<Heaplet>)
    requires HeadOk(h)
    ensures |hs| == |h.heaps|
  {
    seq(|h.heaps|, k requires 0 <= k < |h.heaps| => CellsOf(h.heaps[k], h.symbolic, h.count + |h.offsets|))
  }

  function HeadAtoms(h: Head): (fs: seq<Node>)
    ensures |fs| == |h.heaps|
  {
    seq(|h.heaps|, k requires 0 <= k < |h.heaps| => HeapAtom(k))
  }

  function HeadDecls(h: Head): Decls
    requires HeadOk(h)
  {
    Decls(HeadTerms(h), HeadHeaps(h), HeadAtoms(h), false)
  }

  function AfterHead(h: Head): Marked
    requires HeadOk(h)
  {
    Marked(HeadDecls(h), h.constraints, [], [])
  }

  lemma {:induction false} RunConcat(s: Marked, p: Program, q: Program)
    ensures RunMarked(s, p + q) ==
            match RunMarked(s, p) case None => None case Some(t) => RunMarked(t, q)
    decreases |p|
  {
    if p == [] {
      assert p + q == q;
    } else {
      assert (p + q)[1..] == p[1..] + q;
      if StepMarked(s, p[0]).Some? {
        RunConcat(StepMarked(s, p[0]).value, p[1..], q);
      }
    }
  }

  lemma {:induction false} RunOne(s: Marked, p: Program, k: nat)
    requires k < |p|
    ensures RunMarked(s, p[..k + 1]) ==
            match RunMarked(s, p[..k]) case None => None case Some(t) => StepMarked(t, p[k])
  {
    assert p[..k + 1] == p[..k] + [p[k]];
    RunConcat(s, p[..k], [p[k]]);
    if RunMarked(s, p[..k]).Some? {
      var t := RunMarked(s, p[..k]).value;
      var one: Program := [p[k]];
      assert one[1..] == [];
      assert RunMarked(t, one) == StepMarked(t, p[k]);
    }
  }

  lemma {:induction false} RunOffsets(h: Head, k: nat)
    requires HeadOk(h) && k <= |h.offsets|
    ensures RunMarked(StartMarked(h.count), OffsetInstrs(h)[..k])
         == Some(Marked(Decls(HeadTerms(h)[..h.count + k], [], [], false), [], [], []))
  {
    if k == 0 {
      assert Fresh(h.count).terms == HeadTerms(h)[..h.count];
    } else {
      RunOffsets(h, k - 1);
      RunOne(StartMarked(h.count), OffsetInstrs(h), k - 1);
      var (b, d) := h.offsets[k - 1];
      assert HeadTerms(h)[..h.count + k] == HeadTerms(h)[..h.count + k - 1] + [Offset(b, d)];
    }
  }

  lemma {:induction false} RunHeaps(h: Head, k: nat)
    requires HeadOk(h) && k <= |h.heaps|
    ensures RunMarked(Marked(Decls(HeadTerms(h), [], [], false), [], [], []), HeapInstrs(h)[..k])
         == Some(Marked(Decls(HeadTerms(h), HeadHeaps(h)[..k], HeadAtoms(h)[..k], false), [], [], []))
  {
    if k > 0 {
      RunHeaps(h, k - 1);
      RunOne(Marked(Decls(HeadTerms(h), [], [], false), [], [], []), HeapInstrs(h), k - 1);
      var cells := h.heaps[k - 1];
      assert CellsInRange(cells, h.symbolic, |HeadTerms(h)|);
      assert HeadHeaps(h)[..k] == HeadHeaps(h)[..k - 1] + [CellsOf(cells, h.symbolic, |HeadTerms(h)|)];
      assert HeadAtoms(h)[..k] == HeadAtoms(h)[..k - 1] + [HeapAtom(k - 1)];
    }
  }

  lemma StepConstraint(s: Marked, c: Constraint)
    requires ConstraintOk(c, |s.decls.terms|, |s.decls.formulas|)
    ensures StepMarked(s, InstrOf(c)) == Some(s.(active := s.active + [c]))
  {}

  lemma {:induction false} RunConstraints(h: Head, k: nat)
    requires HeadOk(h) && k <= |h.constraints|
    ensures RunMarked(Marked(HeadDecls(h), [], [], []), ConstraintInstrs(h)[..k])
         == Some(Marked(HeadDecls(h), h.constraints[..k], [], []))
  {
    if k > 0 {
      RunConstraints(h, k - 1);
      RunOne(Marked(HeadDecls(h), [], [], []), ConstraintInstrs(h), k - 1);
      var c := h.constraints[k - 1];
      assert ConstraintOk(c, h.count + |h.offsets|, |h.heaps|);
      StepConstraint(Marked(HeadDecls(h), h.constraints[..k - 1], [], []), c);
      assert h.constraints[..k] == h.constraints[..k - 1] + [c];
    }
  }

  lemma {:induction false} RunAllHeaps(h: Head)
    requires HeadOk(h)
    ensures RunMarked(Marked(Decls(HeadTerms(h), [], [], false), [], [], []), HeapInstrs(h))
         == Some(Marked(HeadDecls(h), [], [], []))
  {
    RunHeaps(h, |h.heaps|);
    assert HeapInstrs(h)[..|h.heaps|] == HeapInstrs(h);
    assert HeadHeaps(h)[..|h.heaps|] == HeadHeaps(h) && HeadAtoms(h)[..|h.heaps|] == HeadAtoms(h);
  }

  lemma {:induction false} RunAllConstraints(h: Head)
    requires HeadOk(h)
    ensures RunMarked(Marked(HeadDecls(h), [], [], []), ConstraintInstrs(h)) == Some(AfterHead(h))
  {
    RunConstraints(h, |h.constraints|);
    assert ConstraintInstrs(h)[..|h.constraints|] == ConstraintInstrs(h);
    assert h.constraints[..|h.constraints|] == h.constraints;
  }

  lemma {:induction false} RunHead(h: Head)
    requires HeadOk(h)
    ensures RunMarked(StartMarked(h.count), HeadProgram(h)) == Some(AfterHead(h))
  {
    var s := StartMarked(h.count);
    RunOffsets(h, |h.offsets|);
    assert OffsetInstrs(h)[..|h.offsets|] == OffsetInstrs(h) && HeadTerms(h)[..h.count + |h.offsets|] == HeadTerms(h);
    RunAllHeaps(h);
    RunAllConstraints(h);
    RunConcat(s, OffsetInstrs(h), HeapInstrs(h));
    RunConcat(s, OffsetInstrs(h) + HeapInstrs(h), ConstraintInstrs(h));
  }

  lemma ConcatOk(a: seq<Constraint>, b: seq<Constraint>, t: nat, f: nat)
    requires ConstraintsOk(a, t, f) && ConstraintsOk(b, t, f)
    ensures ConstraintsOk(a + b, t, f)
  {}

  lemma {:induction false} SymbolicConstraintsOk(n: nat)
    requires n >= 2
    ensures ConstraintsOk(ConstraintsOfFamily(SymbolicViews, n), 8 * n, n)
  {
    ConcatOk(Bounds(4, 4), SameViews(n), 8 * n, n);
    ConcatOk(Bounds(4, 4) + SameViews(n), Asserts(n), 8 * n, n);
  }

  lemma {:induction false} OffsetConstraintsOk(n: nat)
    requires n >= 2
    ensures ConstraintsOk(ConstraintsOfFamily(OffsetViews, n), 5 * n, n)
  {
    ConcatOk([Bound(0, 1, n)], AllEqualFirst(n), 5 * n, n);
    ConcatOk([Bound(0, 1, n)] + AllEqualFirst(n), Asserts(n), 5 * n, n);
  }

  lemma FamilyConstraintsOk(f: Family, n: nat)
    requires n >= 2 && f != SymbolicViews && f != OffsetViews
    ensures ConstraintsOk(ConstraintsOfFamily(f, n), CountOf(f, n) + |OffsetsOf(f, n)|, |HeapsOfFamily(f, n)|)
  {}

  lemma FamilyHeapsOk(f: Family, n: nat)
    requires n >= 2
    ensures forall k :: 0 <= k < |HeapsOfFamily(f, n)| ==>
              CellsInRange(HeapsOfFamily(f, n)[k], f.SymbolicViews?, CountOf(f, n) + |OffsetsOf(f, n)|)
  {}

  /** Every reference a generator writes exists. */
  lemma {:induction false} HeadsOk(f: Family, n: nat)
    requires n >= 2
    ensures HeadOk(HeadOf(f, n))
  {
    FamilyHeapsOk(f, n);
    if f == SymbolicViews {
      SymbolicConstraintsOk(n);
    } else if f == OffsetViews {
      OffsetConstraintsOk(n);
    } else {
      FamilyConstraintsOk(f, n);
    }
  }

  /** The disjunctions declared after the heap predicates. */
  function Disjunctions(f: Family, n: nat): seq<Node>
    requires n >= 2
  {
    match f
    case BooleanSat => [Or(Indices(Indexes(0, n), n))]
    case BooleanAlias => [Or(Indices(Indexes(0, n), n))]
    case BooleanUnsat => [Or(Indices(Indexes(0, n / 2), n)), Or(Indices(Indexes(n / 2, n), n + 1))]
    case _ => []
  }

  /** The checks in each of the first n scope blocks. */
  function ScopeChecks(base: seq<Constraint>, n: nat): (cs: seq<seq<Constraint>>)
    ensures |cs| == 3 * n
  {
    if n == 0 then []
    else
      var inner := base + [Assert(n - 1, true)];
      ScopeChecks(base, n - 1) + [inner, inner + [Assert(n - 1, false)], inner]
  }

  function ChecksOf(f: Family, n: nat): (cs: seq<seq<Constraint>>)
    requires n >= 2
    ensures |cs| > 0
  {
    var base := ConstraintsOfFamily(f, n);
    match f
    case CacheScopes => ScopeChecks(base, n)
    case BooleanSat => [base + [Assert(n, true)]]
    case BooleanAlias => [base + [Assert(n, true)]]
    case BooleanUnsat => [base + [Assert(n, true), Assert(n + 1, true)]]
    case _ => [base]
  }

  /** The case a family's program stands for. */
  function CaseOf(f: Family, n: nat): Case
    requires n >= 2
  {
    HeadsOk(f, n);
    var d := HeadDecls(HeadOf(f, n));
    Case(CountOf(f, n), d.terms, d.heaps, d.formulas + Disjunctions(f, n), ChecksOf(f, n))
  }

  function Then(r: Option<Marked>, i: Instr): Option<Marked> {
    match r case None => None case Some(s) => StepMarked(s, i)
  }

  lemma {:induction false} RunSingle(s: Marked, i: Instr)
    ensures RunMarked(s, [i]) == StepMarked(s, i)
  {
    var p: Program := [i];
    assert p[1..] == [];
  }

  lemma {:induction false} RunTwo(s: Marked, i: Instr, j: Instr)
    ensures RunMarked(s, [i, j]) == Then(StepMarked(s, i), j)
  {
    assert [i, j] == [i] + [j];
    RunConcat(s, [i], [j]);
    RunSingle(s, i);
    if StepMarked(s, i).Some? {
      RunSingle(StepMarked(s, i).value, j);
    }
  }

  lemma {:induction false} RunThree(s: Marked, i: Instr, j: Instr, k: Instr)
    ensures RunMarked(s, [i, j, k]) == Then(Then(StepMarked(s, i), j), k)
  {
    assert [i, j, k] == [i, j] + [k];
    RunConcat(s, [i, j], [k]);
    RunTwo(s, i, j);
    if RunMarked(s, [i, j]).Some? {
      RunSingle(RunMarked(s, [i, j]).value, k);
    }
  }

  /** Opening a scope, asserting and checking. */
  lemma {:induction false} RunScope(s: Marked, j: nat, p: bool)
    requires j < |s.decls.formulas|
    ensures RunMarked(s, [Push, DoAssert(j, p), Check])
         == Some(Marked(s.decls.(closed := true), s.active + [Assert(j, p)], s.scopes + [|s.active|],
                        s.checks + [s.active + [Assert(j, p)]]))
  {
    RunThree(s, Push, DoAssert(j, p), Check);
  }

  /** A block's scopes leave the live constraints as they were. */
  lemma {:induction false} RunScopeBlock(s: Marked, j: nat)
    requires j < |s.decls.formulas|
    ensures var inner := s.active + [Assert(j, true)];
      RunMarked(s, ScopeBlock(j)) == Some(s.(decls := s.decls.(closed := true),
        checks := s.checks + [inner, inner + [Assert(j, false)], inner]))
  {
    var inner := s.active + [Assert(j, true)];
    var first: Program, second: Program, third: Program :=
      [Push, DoAssert(j, true), Check], [Push, DoAssert(j, false), Check], [Pop, Check, Pop];
    RunConcat(s, first + second, third);
    RunConcat(s, first, second);
    RunScope(s, j, true);
    var d := s.decls.(closed := true);
    var s1 := Marked(d, inner, s.scopes + [|s.active|], s.checks + [inner]);
    RunScope(s1, j, false);
    var clash := inner + [Assert(j, false)];
    var s2 := Marked(d, clash, s.scopes + [|s.active|, |inner|], s.checks + [inner, clash]);
    assert s1.scopes + [|inner|] == s2.scopes && s1.checks + [clash] == s2.checks;
    RunPops(s2, s.active, inner, s.scopes);
    assert s2.checks + [inner] == s.checks + [inner, clash, inner];
  }

  lemma {:induction false} RunPops(s: Marked, outer: seq<Constraint>, inner: seq<Constraint>, scopes: seq<nat>)
    requires s.scopes == scopes + [|outer|, |inner|] && outer <= inner <= s.active
    ensures RunMarked(s, [Pop, Check, Pop])
         == Some(Marked(s.decls.(closed := true), outer, scopes, s.checks + [inner]))
  {
    RunThree(s, Pop, Check, Pop);
    assert s.scopes[..|scopes| + 1] == scopes + [|outer|] && s.active[..|inner|] == inner;
    assert (scopes + [|outer|])[..|scopes|] == scopes && inner[..|outer|] == outer;
  }

  lemma {:induction false} RunScopeBlocks(s: Marked, n: nat)
    requires n <= |s.decls.formulas|
    ensures RunMarked(s, ScopeBlocks(n)) == Some(s.(decls := if n == 0 then s.decls else s.decls.(closed := true),
      checks := s.checks + ScopeChecks(s.active, n)))
  {
    if n == 0 {
      assert s.checks + [] == s.checks;
    } else {
      RunScopeBlocks(s, n - 1);
      RunConcat(s, ScopeBlocks(n - 1), ScopeBlock(n - 1));
      RunScopeBlock(RunMarked(s, ScopeBlocks(n - 1)).value, n - 1);
      var inner := s.active + [Assert(n - 1, true)];
      var more := [inner, inner + [Assert(n - 1, false)], inner];
      assert s.checks + ScopeChecks(s.active, n - 1) + more == s.checks + (ScopeChecks(s.active, n - 1) + more);
    }
  }

  /** Declaring a disjunction of earlier formulas and asserting it. */
  lemma {:induction false} RunOr(s: Marked, lo: nat, hi: nat)
    requires lo <= hi <= |s.decls.formulas|
    ensures var k := |s.decls.formulas|;
      RunMarked(s, [DeclOr(Indexes(lo, hi)), DoAssert(k, true)])
      == Some(s.(decls := s.decls.(formulas := s.decls.formulas + [Or(Indices(Indexes(lo, hi), k))]),
                 active := s.active + [Assert(k, true)]))
  {
    RunTwo(s, DeclOr(Indexes(lo, hi)), DoAssert(|s.decls.formulas|, true));
  }

  lemma {:induction false} RunTwoOrs(s: Marked, n: nat)
    requires |s.decls.formulas| == n >= 2
    ensures RunMarked(s, Tail(BooleanUnsat, n))
         == Some(s.(decls := s.decls.(formulas := s.decls.formulas + Disjunctions(BooleanUnsat, n)),
                    active := s.active + [Assert(n, true), Assert(n + 1, true)]))
  {
    var first: Program, second: Program :=
      [DeclOr(Indexes(0, n / 2)), DoAssert(n, true)], [DeclOr(Indexes(n / 2, n)), DoAssert(n + 1, true)];
    assert Tail(BooleanUnsat, n) == first + second;
    RunConcat(s, first, second);
    RunOr(s, 0, n / 2);
    RunOr(RunMarked(s, first).value, n / 2, n);
    assert s.active + [Assert(n, true)] + [Assert(n + 1, true)] == s.active + [Assert(n, true), Assert(n + 1, true)];
    var or1, or2 := Or(Indices(Indexes(0, n / 2), n)), Or(Indices(Indexes(n / 2, n), n + 1));
    assert s.decls.formulas + [or1] + [or2] == s.decls.formulas + [or1, or2];
  }

  lemma {:induction false} RunTail(f: Family, n: nat, s: Marked)
    requires n >= 2 && |s.decls.formulas| == n && s.checks == []
    requires HasTail(f)
    requires s.active == ConstraintsOfFamily(f, n)
    ensures var r := RunMarked(s, Tail(f, n));
      && r.Some? && r.value.scopes == s.scopes
      && r.value.decls.(closed := s.decls.closed) == s.decls.(formulas := s.decls.formulas + Disjunctions(f, n))
      && (if r.value.checks == [] then [r.value.active] else r.value.checks) == ChecksOf(f, n)
  {
    match f
    case CacheScopes =>
      RunScopeBlocks(s, n);
      assert s.decls.formulas + [] == s.decls.formulas && [] + ScopeChecks(s.active, n) == ScopeChecks(s.active, n);
    case BooleanSat => RunOr(s, 0, n);
    case BooleanAlias => RunOr(s, 0, n);
    case BooleanUnsat => RunTwoOrs(s, n);
  }

  predicate HasTail(f: Family) {
    f == CacheScopes || f == BooleanSat || f == BooleanAlias || f == BooleanUnsat
  }

  lemma HeapCount(f: Family, n: nat)
    requires n >= 2 && HasTail(f)
    ensures |HeapsOfFamily(f, n)| == n
  {}

  /** Every family's program is accepted, and this is its case. */
  lemma {:induction false} ParsedIs(f: Family, n: nat)
    requires n >= 2
    ensures Parsed(CountOf(f, n), Generate(f, n)) == Some(CaseOf(f, n))
  {
    HeadsOk(f, n);
    var h := HeadOf(f, n);
    RunHead(h);
    RunConcat(StartMarked(h.count), HeadProgram(h), Tail(f, n));
    if HasTail(f) {
      HeapCount(f, n);
      RunTail(f, n, AfterHead(h));
    } else {
      assert HeadAtoms(h) + [] == HeadAtoms(h);
    }
  }
}
