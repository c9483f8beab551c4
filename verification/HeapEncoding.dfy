/** The array encoding of exact heap problems. */
module HeapEncoding {
  import opened Wrappers
  import opened HeapCase

  // The heap is a domain array and a data function, a heaplet predicate a conjunction over its
  // cells. The encoding is exact in both directions.

  datatype IntTerm = X(i: nat) | Num(k: int) | Plus(t: IntTerm, delta: int)

  /** Arrays from integers to Booleans: the constant false array and stores of true. */
  datatype ArrayTerm = AllFalse | StoreTrue(a: ArrayTerm, index: IntTerm)

  datatype Form =
    | DomainAt(index: IntTerm)
    | DomainIs(a: ArrayTerm)
    | DataIs(location: IntTerm, value: IntTerm)
    | EqInt(left: IntTerm, right: IntTerm)
    | LeInt(left: IntTerm, right: IntTerm)
    | NotF(f: Form)
    | AndF(fs: seq<Form>)
    | OrF(fs: seq<Form>)

  datatype Model = Model(domain: int -> bool, data: int -> int, x: nat -> int)

  function EvalInt(t: IntTerm, m: Model): int {
    match t
    case X(i) => m.x(i)
    case Num(k) => k
    case Plus(u, k) => EvalInt(u, m) + k
  }

  predicate EvalArray(a: ArrayTerm, m: Model, index: int) {
    match a
    case AllFalse => false
    case StoreTrue(b, i) => index == EvalInt(i, m) || EvalArray(b, m, index)
  }

  ghost predicate Eval(f: Form, m: Model) {
    match f
    case DomainAt(i) => m.domain(EvalInt(i, m))
    case DomainIs(a) => forall i: int :: m.domain(i) == EvalArray(a, m, i)
    case DataIs(l, v) => m.data(EvalInt(l, m)) == EvalInt(v, m)
    case EqInt(x, y) => EvalInt(x, m) == EvalInt(y, m)
    case LeInt(x, y) => EvalInt(x, m) <= EvalInt(y, m)
    case NotF(g) => !Eval(g, m)
    case AndF(fs) => forall k :: 0 <= k < |fs| ==> Eval(fs[k], m)
    case OrF(fs) => exists k :: 0 <= k < |fs| && Eval(fs[k], m)
  }

  ghost predicate AllHold(fs: seq<Form>, m: Model) {
    forall k :: 0 <= k < |fs| ==> Eval(fs[k], m)
  }

  lemma {:induction false} AllHoldConcat(a: seq<Form>, b: seq<Form>, m: Model)
    ensures AllHold(a + b, m) <==> AllHold(a, m) && AllHold(b, m)
  {
    if AllHold(a + b, m) {
      forall k | 0 <= k < |a| ensures Eval(a[k], m) { assert Eval((a + b)[k], m); }
      forall k | 0 <= k < |b| ensures Eval(b[k], m) { assert Eval((a + b)[|a| + k], m); }
    }
  }

  /* ---------- Emission ---------- */

  function TermForms(terms: seq<Term>): (fs: seq<IntTerm>)
    requires forall k :: 0 <= k < |terms| && terms[k].Offset? ==> terms[k].base < k
    ensures |fs| == |terms|
  {
    if terms == [] then []
    else
      var before := TermForms(terms[..|terms| - 1]);
      before + [match terms[|terms| - 1] case Var(i) => X(i) case Offset(b, k) => Plus(before[b], k)]
  }

  function Locations(cells: Heaplet, terms: seq<IntTerm>): (ls: seq<IntTerm>)
    requires HeapletOk(cells, |terms|)
    ensures |ls| == |cells|
  {
    seq(|cells|, k requires 0 <= k < |cells| => terms[cells[k].location])
  }

  function Contents(cells: Heaplet, terms: seq<IntTerm>): (vs: seq<IntTerm>)
    requires HeapletOk(cells, |terms|)
    ensures |vs| == |cells|
  {
    seq(|cells|, k requires 0 <= k < |cells| =>
      match cells[k].value case Constant(c) => Num(c) case TermValue(t) => terms[t])
  }

  function Stores(ls: seq<IntTerm>): ArrayTerm {
    if ls == [] then AllFalse else StoreTrue(Stores(ls[..|ls| - 1]), ls[|ls| - 1])
  }

  function NonNull(ls: seq<IntTerm>): seq<Form> {
    seq(|ls|, k requires 0 <= k < |ls| => NotF(EqInt(ls[k], Num(0))))
  }

  function DifferentFrom(l: IntTerm, ls: seq<IntTerm>): seq<Form> {
    seq(|ls|, k requires 0 <= k < |ls| => NotF(EqInt(l, ls[k])))
  }

  /** Every location against all earlier ones. */
  function Distinct(ls: seq<IntTerm>): seq<Form> {
    if ls == [] then []
    else Distinct(ls[..|ls| - 1]) + DifferentFrom(ls[|ls| - 1], ls[..|ls| - 1])
  }

  function DataForms(ls: seq<IntTerm>, vs: seq<IntTerm>): seq<Form>
    requires |ls| == |vs|
  {
    seq(|ls|, k requires 0 <= k < |ls| => DataIs(ls[k], vs[k]))
  }

  function HeapForm(cells: Heaplet, terms: seq<IntTerm>): Form
    requires HeapletOk(cells, |terms|)
  {
    var ls, vs := Locations(cells, terms), Contents(cells, terms);
    AndF([DomainIs(Stores(ls))] + NonNull(ls) + Distinct(ls) + DataForms(ls, vs))
  }

  function HeapForms(heaps: seq<Heaplet>, terms: seq<IntTerm>): seq<Form>
    requires forall k :: 0 <= k < |heaps| ==> HeapletOk(heaps[k], |terms|)
  {
    seq(|heaps|, k requires 0 <= k < |heaps| => HeapForm(heaps[k], terms))
  }

  function NodeForm(n: Node, fs: seq<Form>, atoms: seq<Form>): Form
    requires NodeOk(n, |fs|, |atoms|)
  {
    match n
    case HeapAtom(h) => atoms[h]
    case Not(f) => NotF(fs[f])
    case And(js) => AndF(seq(|js|, k requires 0 <= k < |js| => fs[js[k]]))
    case Or(js) => OrF(seq(|js|, k requires 0 <= k < |js| => fs[js[k]]))
  }

  function FormulaForms(formulas: seq<Node>, atoms: seq<Form>): (fs: seq<Form>)
    requires forall k :: 0 <= k < |formulas| ==> NodeOk(formulas[k], k, |atoms|)
    ensures |fs| == |formulas|
  {
    if formulas == [] then []
    else
      var before := FormulaForms(formulas[..|formulas| - 1], atoms);
      before + [NodeForm(formulas[|formulas| - 1], before, atoms)]
  }

  function ConstraintForm(c: Constraint, terms: seq<IntTerm>, fs: seq<Form>): Form
    requires ConstraintOk(c, |terms|, |fs|)
  {
    match c
    case Bound(t, lo, hi) => AndF([LeInt(Num(lo), terms[t]), LeInt(terms[t], Num(hi))])
    case Eq(s, t) => EqInt(terms[s], terms[t])
    case Assert(f, polarity) => if polarity then fs[f] else NotF(fs[f])
  }

  function ConstraintForms(cs: seq<Constraint>, terms: seq<IntTerm>, fs: seq<Form>): seq<Form>
    requires ConstraintsOk(cs, |terms|, |fs|)
  {
    seq(|cs|, k requires 0 <= k < |cs| => ConstraintForm(cs[k], terms, fs))
  }

  /** The assertions for one check. */
  function Smt(c: Case, check: nat): seq<Form>
    requires WellFormed(c) && check < |c.checks|
  {
    var terms := TermForms(c.terms);
    [NotF(DomainAt(Num(0)))]
    + ConstraintForms(c.checks[check], terms, FormulaForms(c.formulas, HeapForms(c.heaps, terms)))
  }

  method EmitTerms(terms: seq<Term>) returns (fs: seq<IntTerm>)
    requires forall k :: 0 <= k < |terms| && terms[k].Offset? ==> terms[k].base < k
    ensures fs == TermForms(terms)
  {
    fs := [];
    for k := 0 to |terms|
      invariant fs == TermForms(terms[..k])
    {
      assert terms[..k + 1][..k] == terms[..k];
      fs := fs + [match terms[k] case Var(i) => X(i) case Offset(b, d) => Plus(fs[b], d)];
    }
    assert terms[..|terms|] == terms;
  }

  method EmitHeap(cells: Heaplet, terms: seq<IntTerm>) returns (f: Form)
    requires HeapletOk(cells, |terms|)
    ensures f == HeapForm(cells, terms)
  {
    var ls, vs := Locations(cells, terms), Contents(cells, terms);
    var domain := AllFalse;
    for k := 0 to |ls|
      invariant domain == Stores(ls[..k])
    {
      assert ls[..k + 1][..k] == ls[..k];
      domain := StoreTrue(domain, ls[k]);
    }
    assert ls[..|ls|] == ls;
    var distinct: seq<Form> := [];
    for j := 0 to |ls|
      invariant distinct == Distinct(ls[..j])
    {
      assert ls[..j + 1][..j] == ls[..j];
      ghost var before := distinct;
      for k := 0 to j
        invariant distinct == before + DifferentFrom(ls[j], ls[..j])[..k]
      {
        distinct := distinct + [NotF(EqInt(ls[j], ls[k]))];
      }
      assert DifferentFrom(ls[j], ls[..j])[..j] == DifferentFrom(ls[j], ls[..j]);
    }
    f := AndF([DomainIs(domain)] + NonNull(ls) + distinct + DataForms(ls, vs));
  }

  method EmitSmt(c: Case, check: nat) returns (lines: seq<Form>)
    requires WellFormed(c) && check < |c.checks|
    ensures lines == Smt(c, check)
  {
    var terms := EmitTerms(c.terms);
    var heaps: seq<Form> := [];
    for k := 0 to |c.heaps|
      invariant |heaps| == k && forall j :: 0 <= j < k ==> heaps[j] == HeapForm(c.heaps[j], terms)
    {
      var h := EmitHeap(c.heaps[k], terms);
      heaps := heaps + [h];
    }
    assert heaps == HeapForms(c.heaps, terms);
    var formulas: seq<Form> := [];
    for k := 0 to |c.formulas|
      invariant formulas == FormulaForms(c.formulas[..k], heaps)
    {
      assert c.formulas[..k + 1][..k] == c.formulas[..k];
      formulas := formulas + [NodeForm(c.formulas[k], formulas, heaps)];
    }
    assert c.formulas[..|c.formulas|] == c.formulas;
    lines := [NotF(DomainAt(Num(0)))];
    for k := 0 to |c.checks[check]|
      invariant lines == [NotF(DomainAt(Num(0)))] + ConstraintForms(c.checks[check], terms, formulas)[..k]
    {
      lines := lines + [ConstraintForm(c.checks[check][k], terms, formulas)];
    }
  }

  /* ---------- Meaning of the parts ---------- */

  function Values(m: Model, count: nat): (xs: seq<int>)
    ensures |xs| == count
  {
    seq(count, i requires 0 <= i < count => m.x(i))
  }

  lemma {:induction false} TermMeaning(terms: seq<Term>, count: nat, m: Model)
    requires TermsOk(terms, count)
    ensures forall k :: 0 <= k < |terms| ==> EvalInt(TermForms(terms)[k], m) == TermValues(terms, Values(m, count))[k]
  {
    if terms != [] {
      TermMeaning(terms[..|terms| - 1], count, m);
    }
  }

  /** The model's heap is h, on h's domain. */
  ghost predicate Reflects(m: Model, h: Heap) {
    && (forall a :: m.domain(a) <==> a in h)
    && (forall a :: a in h ==> m.data(a) == h[a])
  }

  lemma {:induction false} StoresMeaning(ls: seq<IntTerm>, m: Model, a: int)
    ensures EvalArray(Stores(ls), m, a) <==> exists k :: 0 <= k < |ls| && EvalInt(ls[k], m) == a
  {
    if ls != [] {
      var before := ls[..|ls| - 1];
      StoresMeaning(before, m, a);
      assert forall k :: 0 <= k < |before| ==> before[k] == ls[k];
    }
  }

  lemma {:induction false} DistinctMeaning(ls: seq<IntTerm>, m: Model)
    ensures AllHold(Distinct(ls), m)
       <==> forall j, k :: 0 <= j < k < |ls| ==> EvalInt(ls[j], m) != EvalInt(ls[k], m)
  {
    if ls != [] {
      var before, last := ls[..|ls| - 1], ls[|ls| - 1];
      DistinctMeaning(before, m);
      AllHoldConcat(Distinct(before), DifferentFrom(last, before), m);
      assert forall k :: 0 <= k < |before| ==> before[k] == ls[k];
      forall k | 0 <= k < |before|
        ensures Eval(DifferentFrom(last, before)[k], m) <==> EvalInt(last, m) != EvalInt(before[k], m)
      {
        assert DifferentFrom(last, before)[k] == NotF(EqInt(last, before[k]));
      }
    }
  }

  /** What the conjunction over the cells says, in terms of the evaluated cells. */
  ghost predicate CellsHold(ps: seq<(int, int)>, m: Model) {
    && (forall a :: m.domain(a) <==> HasAddress(ps, a))
    && Separate(ps)
    && (forall k :: 0 <= k < |ps| ==> m.data(ps[k].0) == ps[k].1)
  }

  lemma {:induction false} PartsMeaning(ls: seq<IntTerm>, vs: seq<IntTerm>, ps: seq<(int, int)>, m: Model)
    requires |ls| == |vs| == |ps|
    requires forall k :: 0 <= k < |ps| ==> ps[k] == (EvalInt(ls[k], m), EvalInt(vs[k], m))
    ensures Eval(AndF([DomainIs(Stores(ls))] + NonNull(ls) + Distinct(ls) + DataForms(ls, vs)), m) <==> CellsHold(ps, m)
  {
    var first := [DomainIs(Stores(ls))];
    AllHoldConcat(first + NonNull(ls) + Distinct(ls), DataForms(ls, vs), m);
    AllHoldConcat(first + NonNull(ls), Distinct(ls), m);
    AllHoldConcat(first, NonNull(ls), m);
    DistinctMeaning(ls, m);
    DomainMeaning(ls, vs, ps, m);
    CellMeaning(ls, vs, ps, m);
    assert AllHold(first, m) <==> Eval(first[0], m);
  }

  lemma {:induction false} DomainMeaning(ls: seq<IntTerm>, vs: seq<IntTerm>, ps: seq<(int, int)>, m: Model)
    requires |ls| == |vs| == |ps|
    requires forall k :: 0 <= k < |ps| ==> ps[k] == (EvalInt(ls[k], m), EvalInt(vs[k], m))
    ensures Eval(DomainIs(Stores(ls)), m) <==> forall a :: m.domain(a) <==> HasAddress(ps, a)
  {
    forall a: int ensures EvalArray(Stores(ls), m, a) <==> HasAddress(ps, a) {
      StoresMeaning(ls, m, a);
    }
  }

  lemma {:induction false} CellMeaning(ls: seq<IntTerm>, vs: seq<IntTerm>, ps: seq<(int, int)>, m: Model)
    requires |ls| == |vs| == |ps|
    requires forall k :: 0 <= k < |ps| ==> ps[k] == (EvalInt(ls[k], m), EvalInt(vs[k], m))
    ensures AllHold(NonNull(ls), m) <==> forall k :: 0 <= k < |ps| ==> ps[k].0 != 0
    ensures AllHold(DataForms(ls, vs), m) <==> forall k :: 0 <= k < |ps| ==> m.data(ps[k].0) == ps[k].1
  {
    forall k | 0 <= k < |ls|
      ensures Eval(NonNull(ls)[k], m) <==> ps[k].0 != 0
      ensures Eval(DataForms(ls, vs)[k], m) <==> m.data(ps[k].0) == ps[k].1
    {
      assert NonNull(ls)[k] == NotF(EqInt(ls[k], Num(0)));
      assert DataForms(ls, vs)[k] == DataIs(ls[k], vs[k]);
    }
  }

  lemma {:induction false} CellsReflect(ps: seq<(int, int)>, m: Model)
    ensures CellsHold(ps, m) <==> HeapOf(ps).Some? && Reflects(m, HeapOf(ps).value)
  {
    HeapOfSpells(ps);
    if HeapOf(ps).Some? {
      var h := HeapOf(ps).value;
      forall a ensures a in h <==> HasAddress(ps, a) {
        if HasAddress(ps, a) {
          var k :| 0 <= k < |ps| && ps[k].0 == a;
          assert ps[k].0 in h;
        }
      }
      if CellsHold(ps, m) {
        forall a | a in h ensures m.data(a) == h[a] {
          assert HasAddress(ps, a);
        }
      }
    }
  }

  /** A heaplet predicate holds in a model iff its cells spell the model's heap. */
  lemma {:induction false} HeapMeaning(cells: Heaplet, terms: seq<IntTerm>, ts: seq<int>, m: Model)
    requires HeapletOk(cells, |terms|) && |ts| == |terms|
    requires forall k :: 0 <= k < |terms| ==> EvalInt(terms[k], m) == ts[k]
    ensures Eval(HeapForm(cells, terms), m) <==> Concrete(cells, ts).Some? && Reflects(m, Concrete(cells, ts).value)
  {
    var ls, vs, ps := Locations(cells, terms), Contents(cells, terms), Resolve(cells, ts);
    forall k | 0 <= k < |ps| ensures ps[k] == (EvalInt(ls[k], m), EvalInt(vs[k], m)) {
      assert CellOk(cells[k], |terms|);
    }
    PartsMeaning(ls, vs, ps, m);
    CellsReflect(ps, m);
  }

  /** The heap predicates' truth values in a model. */
  ghost function Phases(c: Case, m: Model): (phases: seq<bool>)
    requires WellFormed(c)
    ensures |phases| == |c.heaps|
  {
    var atoms := HeapForms(c.heaps, TermForms(c.terms));
    seq(|atoms|, k requires 0 <= k < |atoms| => Eval(atoms[k], m))
  }

  lemma {:induction false} FormulaMeaning(formulas: seq<Node>, atoms: seq<Form>, phases: seq<bool>, m: Model)
    requires |phases| == |atoms| && forall k :: 0 <= k < |atoms| ==> phases[k] == Eval(atoms[k], m)
    requires forall k :: 0 <= k < |formulas| ==> NodeOk(formulas[k], k, |atoms|)
    ensures forall k :: 0 <= k < |formulas| ==>
              (Eval(FormulaForms(formulas, atoms)[k], m) <==> FormulaValues(formulas, phases)[k])
  {
    if formulas != [] {
      var before, n := formulas[..|formulas| - 1], formulas[|formulas| - 1];
      FormulaMeaning(before, atoms, phases, m);
      NodeMeaning(n, FormulaForms(before, atoms), FormulaValues(before, phases), atoms, phases, m);
    }
  }

  lemma {:induction false} NodeMeaning(n: Node, fs: seq<Form>, vs: seq<bool>, atoms: seq<Form>, phases: seq<bool>, m: Model)
    requires |fs| == |vs| && |atoms| == |phases| && NodeOk(n, |fs|, |atoms|)
    requires forall k :: 0 <= k < |fs| ==> (Eval(fs[k], m) <==> vs[k])
    requires forall k :: 0 <= k < |atoms| ==> phases[k] == Eval(atoms[k], m)
    ensures Eval(NodeForm(n, fs, atoms), m) <==> NodeValue(n, vs, phases)
  {
    if n.And? || n.Or? {
      var forms := seq(|n.fs|, k requires 0 <= k < |n.fs| => fs[n.fs[k]]);
      assert forall k :: 0 <= k < |n.fs| ==> (Eval(forms[k], m) <==> vs[n.fs[k]]);
      if n.Or? {
        if k :| 0 <= k < |n.fs| && vs[n.fs[k]] {
          assert Eval(forms[k], m);
        }
      } else if Eval(NodeForm(n, fs, atoms), m) {
        forall k | 0 <= k < |n.fs| ensures vs[n.fs[k]] {
          assert Eval(forms[k], m);
        }
      }
    }
  }

  lemma {:induction false} ConstraintMeaning(c: Constraint, terms: seq<IntTerm>, ts: seq<int>, fs: seq<Form>, vs: seq<bool>, m: Model)
    requires |terms| == |ts| && |fs| == |vs| && ConstraintOk(c, |terms|, |fs|)
    requires forall k :: 0 <= k < |terms| ==> EvalInt(terms[k], m) == ts[k]
    requires forall k :: 0 <= k < |fs| ==> (Eval(fs[k], m) <==> vs[k])
    ensures Eval(ConstraintForm(c, terms, fs), m) <==> ConstraintHolds(c, ts, vs)
  {
    if c.Bound? {
      var parts := [LeInt(Num(c.lo), terms[c.t]), LeInt(terms[c.t], Num(c.hi))];
      assert Eval(parts[0], m) <==> c.lo <= ts[c.t];
      assert Eval(parts[1], m) <==> ts[c.t] <= c.hi;
      assert ConstraintForm(c, terms, fs) == AndF(parts);
    }
  }

  ghost predicate Models(c: Case, check: nat, m: Model)
    requires WellFormed(c) && check < |c.checks|
  {
    AllHold(Smt(c, check), m)
  }

  /** A model satisfies the assertions iff null is not in its domain and the constraints hold of its values and phases. */
  lemma {:induction false} ModelsMeaning(c: Case, check: nat, m: Model)
    requires WellFormed(c) && check < |c.checks|
    ensures var ts := TermValues(c.terms, Values(m, c.count));
      var vs := FormulaValues(c.formulas, Phases(c, m));
      Models(c, check, m) <==>
        !m.domain(0) && forall k :: 0 <= k < |c.checks[check]| ==> ConstraintHolds(c.checks[check][k], ts, vs)
  {
    var terms, ts := TermForms(c.terms), TermValues(c.terms, Values(m, c.count));
    var atoms := HeapForms(c.heaps, terms);
    var fs, vs := FormulaForms(c.formulas, atoms), FormulaValues(c.formulas, Phases(c, m));
    var cs := c.checks[check];
    TermMeaning(c.terms, c.count, m);
    FormulaMeaning(c.formulas, atoms, Phases(c, m), m);
    var first := [NotF(DomainAt(Num(0)))];
    AllHoldConcat(first, ConstraintForms(cs, terms, fs), m);
    assert Eval(first[0], m) <==> !m.domain(0);
    assert AllHold(first, m) <==> Eval(first[0], m);
    forall k | 0 <= k < |cs|
      ensures Eval(ConstraintForms(cs, terms, fs)[k], m) <==> ConstraintHolds(cs[k], ts, vs)
    {
      ConstraintMeaning(cs[k], terms, ts, fs, vs, m);
    }
  }

  /* ---------- From a model to a heap ---------- */

  function Fallback(n: nat): (h: Heap)
    ensures |h| == n
    ensures forall a :: a in h <==> 1 <= a <= n
    ensures forall a :: a in h ==> h[a] == 0
  {
    if n == 0 then map[] else Fallback(n - 1)[n := 0]
  }

  function LongestHeap(heaps: seq<Heaplet>): (n: nat)
    ensures forall k :: 0 <= k < |heaps| ==> |heaps[k]| <= n
  {
    if heaps == [] then 0
    else
      var n := LongestHeap(heaps[..|heaps| - 1]);
      assert forall k :: 0 <= k < |heaps| - 1 ==> heaps[k] == heaps[..|heaps| - 1][k];
      if |heaps[|heaps| - 1]| > n then |heaps[|heaps| - 1]| else n
  }

  /** The heaplet of the first true predicate, or a heap larger than every heaplet. */
  function Rebuilt(c: Case, ts: seq<int>, phases: seq<bool>): Option<Heap>
    requires WellFormed(c) && |ts| == |c.terms| && |phases| == |c.heaps|
  {
    if true in phases then Concrete(c.heaps[FirstTrue(phases)], ts)
    else Some(Fallback(LongestHeap(c.heaps) + 1))
  }

  function FirstTrue(phases: seq<bool>): (k: nat)
    requires true in phases
    ensures k < |phases| && phases[k] && forall j :: 0 <= j < k ==> !phases[j]
  {
    if phases[0] then 0 else
      assert true in phases[1..];
      1 + FirstTrue(phases[1..])
  }

  lemma {:induction false} ReflectsUnique(m: Model, h: Heap, h': Heap)
    requires Reflects(m, h) && Reflects(m, h')
    ensures h == h'
  {
    forall a ensures a in h <==> a in h' {
      assert m.domain(a) <==> a in h;
    }
    forall a | a in h ensures h[a] == h'[a] {
      assert a in h';
    }
  }

  /** The rebuilt heap exists, lies off null, and gives every heap predicate its truth value in the model. */
  lemma {:induction false} RebuiltPhases(c: Case, m: Model)
    requires WellFormed(c) && !m.domain(0)
    ensures var ts := TermValues(c.terms, Values(m, c.count));
      var r := Rebuilt(c, ts, Phases(c, m));
      r.Some? && 0 !in r.value && AtomValues(c.heaps, ts, r.value) == Phases(c, m)
  {
    var ts, phases := TermValues(c.terms, Values(m, c.count)), Phases(c, m);
    forall k | 0 <= k < |c.heaps|
      ensures phases[k] <==> Concrete(c.heaps[k], ts).Some? && Reflects(m, Concrete(c.heaps[k], ts).value)
    {
      TermMeaning(c.terms, c.count, m);
      HeapMeaning(c.heaps[k], TermForms(c.terms), ts, m);
    }
    var h := Rebuilt(c, ts, phases).value;
    forall k | 0 <= k < |c.heaps| ensures (Concrete(c.heaps[k], ts) == Some(h)) == phases[k] {
      if true in phases {
        if phases[k] {
          ReflectsUnique(m, Concrete(c.heaps[k], ts).value, h);
        }
      } else if Concrete(c.heaps[k], ts).Some? {
        HeapOfSize(Resolve(c.heaps[k], ts));
      }
    }
  }

  /** From any model of the assertions, the rebuilt heap passes the checker. */
  lemma {:induction false} ModelGivesHeap(c: Case, check: nat, m: Model)
    requires WellFormed(c) && check < |c.checks| && Models(c, check, m)
    ensures var xs := Values(m, c.count);
      var r := Rebuilt(c, TermValues(c.terms, xs), Phases(c, m));
      r.Some? && Validates(c, check, xs, r.value)
  {
    ModelsMeaning(c, check, m);
    RebuiltPhases(c, m);
  }

  /* ---------- From a heap to a model ---------- */

  function ModelOf(xs: seq<int>, heap: Heap): Model {
    Model(a => a in heap, a => if a in heap then heap[a] else 0, (i: nat) => if i < |xs| then xs[i] else 0)
  }

  lemma {:induction false} HeapGivesModel(c: Case, check: nat, xs: seq<int>, heap: Heap)
    requires WellFormed(c) && check < |c.checks| && |xs| == c.count && Validates(c, check, xs, heap)
    ensures Models(c, check, ModelOf(xs, heap))
  {
    var m := ModelOf(xs, heap);
    assert Values(m, c.count) == xs;
    var ts, terms := TermValues(c.terms, xs), TermForms(c.terms);
    assert Reflects(m, heap);
    var atoms := AtomValues(c.heaps, ts, heap);
    assert |atoms| == |c.heaps|;
    forall k | 0 <= k < |c.heaps| ensures Phases(c, m)[k] == atoms[k] {
      TermMeaning(c.terms, c.count, m);
      HeapMeaning(c.heaps[k], terms, ts, m);
      var r := Concrete(c.heaps[k], ts);
      if r.Some? && Reflects(m, r.value) {
        ReflectsUnique(m, r.value, heap);
      }
    }
    assert Phases(c, m) == atoms;
    ModelsMeaning(c, check, m);
  }

  /** The encoding is exact: it has a model iff some values and some null-free finite heap pass the checker. */
  lemma {:induction false} EncodingExact(c: Case, check: nat)
    requires WellFormed(c) && check < |c.checks|
    ensures (exists m: Model :: Models(c, check, m)) <==> CheckSatisfiable(c, check)
  {
    if m: Model :| Models(c, check, m) {
      ModelGivesHeap(c, check, m);
    }
    if CheckSatisfiable(c, check) {
      var xs: seq<int>, heap: Heap :| |xs| == c.count && Validates(c, check, xs, heap);
      HeapGivesModel(c, check, xs, heap);
    }
  }

  /**
   * The reference checker's reconstruction from a solver's answer: it never fails on the
   * values and truth values of a model, and what it returns passes `validate`.
   */
  method ReferenceModel(c: Case, check: nat, xs: seq<int>, phases: seq<bool>, ghost m: Model) returns (heap: Heap)
    requires WellFormed(c) && check < |c.checks| && Models(c, check, m)
    requires xs == Values(m, c.count) && phases == Phases(c, m)
    ensures Validates(c, check, xs, heap)
    ensures AtomValues(c.heaps, TermValues(c.terms, xs), heap) == phases
  {
    ModelGivesHeap(c, check, m);
    ModelsMeaning(c, check, m);
    RebuiltPhases(c, m);
    var ts := TermValues(c.terms, xs);
    var selected := SelectFirst(phases);
    if selected.Some? {
      var r := BuildConcrete(c.heaps[selected.value], ts);
      heap := r.value;
    } else {
      heap := BuildFallback(LongestHeap(c.heaps) + 1);
    }
  }

  method SelectFirst(phases: seq<bool>) returns (r: Option<nat>)
    ensures r == if true in phases then Some(FirstTrue(phases)) else None
  {
    for k := 0 to |phases|
      invariant forall j :: 0 <= j < k ==> !phases[j]
    {
      if phases[k] {
        assert true in phases;
        FirstTrueIs(phases, k);
        return Some(k);
      }
    }
    return None;
  }

  lemma {:induction false} FirstTrueIs(phases: seq<bool>, k: nat)
    requires k < |phases| && phases[k] && forall j :: 0 <= j < k ==> !phases[j]
    ensures FirstTrue(phases) == k
  {
    if k > 0 { FirstTrueIs(phases[1..], k - 1); }
  }

  method BuildFallback(size: nat) returns (heap: Heap)
    ensures heap == Fallback(size)
  {
    heap := map[];
    for i := 0 to size
      invariant heap == Fallback(i)
    {
      heap := heap[i + 1 := 0];
    }
  }
}
