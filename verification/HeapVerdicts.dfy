/**
 * What a check of a heap family says, in terms of the family's own data: evaluated cells, bounds,
 * equalities and disjunctions. A heap does not depend on the order of its cells, and a formula's
 * value is read off the heap predicates' values.
 */
module HeapVerdicts {
  import opened Wrappers
  import opened HeapCase
  import opened HeapProgram
  import opened HeapFamilies

  /* ---------- Heaps do not depend on the order of their cells ---------- */

  lemma {:induction false} CountTwo(s: seq<(int, int)>, j: nat, k: nat)
    requires j < k < |s| && s[j] == s[k]
    ensures multiset(s)[s[k]] >= 2
  {
    var x := s[k];
    assert s == s[..k] + ([x] + s[k + 1..]);
    assert s[..k][j] == x;
    assert x in multiset(s[..k]);
  }

  lemma {:induction false} CountTwoIndexes(s: seq<(int, int)>, x: (int, int)) returns (j: nat, k: nat)
    requires multiset(s)[x] >= 2
    ensures j < k < |s| && s[j] == x && s[k] == x
  {
    var last := |s| - 1;
    assert s == s[..last] + [s[last]];
    if s[last] == x {
      assert x in multiset(s[..last]);
      assert x in s[..last];
      j, k := (var i :| 0 <= i < last && s[..last][i] == x; i), last;
    } else {
      j, k := CountTwoIndexes(s[..last], x);
    }
  }

  lemma {:induction false} SpellsOrderFree(ps: seq<(int, int)>, qs: seq<(int, int)>, h: Heap)
    requires multiset(ps) == multiset(qs) && Spells(ps, h)
    ensures Spells(qs, h)
  {
    forall k | 0 <= k < |qs| ensures qs[k].0 != 0 && qs[k].0 in h && h[qs[k].0] == qs[k].1 {
      assert qs[k] in multiset(ps);
      assert qs[k] in ps;
    }
    forall j, k | 0 <= j < k < |qs| ensures qs[j].0 != qs[k].0 {
      if qs[j].0 == qs[k].0 {
        CountTwo(qs, j, k);
        var a, b := CountTwoIndexes(ps, qs[k]);
      }
    }
    forall a | a in h ensures HasAddress(qs, a) {
      assert HasAddress(ps, a);
      var k :| 0 <= k < |ps| && ps[k].0 == a;
      assert ps[k] in multiset(qs);
      assert ps[k] in qs;
    }
  }

  /** Listing the same cells in another order gives the same heap, or the same failure. */
  lemma {:induction false} HeapOfOrderFree(ps: seq<(int, int)>, qs: seq<(int, int)>)
    requires multiset(ps) == multiset(qs)
    ensures HeapOf(ps) == HeapOf(qs)
  {
    if HeapOf(ps).Some? {
      HeapOfIff(ps, HeapOf(ps).value);
      SpellsOrderFree(ps, qs, HeapOf(ps).value);
      HeapOfIff(qs, HeapOf(ps).value);
    } else if HeapOf(qs).Some? {
      HeapOfIff(qs, HeapOf(qs).value);
      SpellsOrderFree(qs, ps, HeapOf(qs).value);
      HeapOfIff(ps, HeapOf(qs).value);
    }
  }

  /* ---------- What a check of a family says ---------- */

  function Pairs(cells: seq<(int, int)>, symbolic: bool, ts: seq<int>): (ps: seq<(int, int)>)
    requires CellsInRange(cells, symbolic, |ts|)
    ensures |ps| == |cells|
  {
    seq(|cells|, k requires 0 <= k < |cells| => (ts[cells[k].0], if symbolic then ts[cells[k].1] else cells[k].1))
  }

  lemma ResolvePairs(cells: seq<(int, int)>, symbolic: bool, ts: seq<int>)
    requires CellsInRange(cells, symbolic, |ts|)
    ensures HeapletOk(CellsOf(cells, symbolic, |ts|), |ts|)
    ensures Resolve(CellsOf(cells, symbolic, |ts|), ts) == Pairs(cells, symbolic, ts)
  {}

  lemma {:induction false} TermValueAt(terms: seq<Term>, xs: seq<int>, k: nat)
    requires TermsOk(terms, |xs|) && k < |terms|
    ensures TermValues(terms, xs)[k] ==
            match terms[k] case Var(i) => xs[i] case Offset(b, d) => TermValues(terms, xs)[b] + d
  {
    if k < |terms| - 1 {
      TermValueAt(terms[..|terms| - 1], xs, k);
    }
  }

  lemma {:induction false} FormulaValueAt(formulas: seq<Node>, atoms: seq<bool>, k: nat)
    requires forall i :: 0 <= i < |formulas| ==> NodeOk(formulas[i], i, |atoms|)
    requires k < |formulas|
    ensures FormulaValues(formulas, atoms)[k] == NodeValue(formulas[k], FormulaValues(formulas, atoms)[..k], atoms)
  {
    var before := formulas[..|formulas| - 1];
    if k < |formulas| - 1 {
      FormulaValueAt(before, atoms, k);
      assert FormulaValues(formulas, atoms)[..k] == FormulaValues(before, atoms)[..k];
    } else {
      assert FormulaValues(formulas, atoms)[..k] == FormulaValues(before, atoms);
    }
  }

  lemma {:induction false} CasesWellFormed(f: Family, n: nat)
    requires n >= 2
    ensures WellFormed(CaseOf(f, n)) && |CaseOf(f, n).terms| == CountOf(f, n) + |OffsetsOf(f, n)|
    ensures |CaseOf(f, n).heaps| == |HeapsOfFamily(f, n)|
  {
    ParsedIs(f, n);
    ParsedWellFormed(CountOf(f, n), Generate(f, n));
  }

  /** The values of a family's terms: its variables, then its offsets. */
  ghost predicate IsTermValues(f: Family, n: nat, xs: seq<int>, ts: seq<int>) {
    && |xs| == CountOf(f, n) && |ts| == CountOf(f, n) + |OffsetsOf(f, n)|
    && (forall i :: 0 <= i < |xs| ==> ts[i] == xs[i])
    && (forall k :: 0 <= k < |OffsetsOf(f, n)| ==>
          && 0 <= OffsetsOf(f, n)[k].0 < |xs|
          && ts[|xs| + k] == xs[OffsetsOf(f, n)[k].0] + OffsetsOf(f, n)[k].1)
  }

  lemma {:induction false} HeadTermValues(h: Head, xs: seq<int>)
    requires HeadOk(h) && |xs| == h.count
    ensures TermsOk(HeadTerms(h), |xs|)
    ensures var ts := TermValues(HeadTerms(h), xs);
      && (forall i :: 0 <= i < |xs| ==> ts[i] == xs[i])
      && (forall k :: 0 <= k < |h.offsets| ==> InRange(h.offsets[k].0, |xs|) && ts[|xs| + k] == xs[h.offsets[k].0] + h.offsets[k].1)
  {
    var terms := HeadTerms(h);
    assert forall k :: 0 <= k < |h.offsets| ==> InRange(h.offsets[k].0, |xs|);
    var ts := TermValues(terms, xs);
    forall i | 0 <= i < |xs| ensures ts[i] == xs[i] {
      TermValueAt(terms, xs, i);
    }
    forall k | 0 <= k < |h.offsets| ensures ts[|xs| + k] == xs[h.offsets[k].0] + h.offsets[k].1 {
      TermValueAt(terms, xs, |xs| + k);
    }
  }

  lemma {:induction false} FamilyTermValues(f: Family, n: nat, xs: seq<int>)
    requires n >= 2 && |xs| == CountOf(f, n)
    ensures WellFormed(CaseOf(f, n)) && IsTermValues(f, n, xs, TermValues(CaseOf(f, n).terms, xs))
  {
    CasesWellFormed(f, n);
    HeadsOk(f, n);
    HeadTermValues(HeadOf(f, n), xs);
    assert HeadOf(f, n).offsets == OffsetsOf(f, n);
  }

  /** Heap predicate j of the family holds. */
  ghost predicate HeapHolds(f: Family, n: nat, ts: seq<int>, heap: Heap, j: int)
    requires n >= 2 && |ts| == CountOf(f, n) + |OffsetsOf(f, n)|
    requires 0 <= j < |HeapsOfFamily(f, n)|
  {
    FamilyHeapsOk(f, n);
    HeapOf(Pairs(HeapsOfFamily(f, n)[j], f.SymbolicViews?, ts)) == Some(heap)
  }

  /** Formula j of the family holds: a heap predicate or a disjunction of some. */
  ghost predicate FormulaHolds(f: Family, n: nat, ts: seq<int>, heap: Heap, j: int)
    requires n >= 2 && |ts| == CountOf(f, n) + |OffsetsOf(f, n)|
    requires 0 <= j < |HeapsOfFamily(f, n)| + |Disjunctions(f, n)|
  {
    var m := |HeapsOfFamily(f, n)|;
    if j < m then HeapHolds(f, n, ts, heap, j)
    else
      DisjunctionAt(f, n, j);
      var (lo, hi) := GroupOf(f, n, j);
      exists i :: lo <= i < hi && HeapHolds(f, n, ts, heap, i)
  }

  ghost predicate Meets(f: Family, n: nat, ts: seq<int>, heap: Heap, c: Constraint)
    requires n >= 2 && |ts| == CountOf(f, n) + |OffsetsOf(f, n)|
    requires ConstraintOk(c, |ts|, |HeapsOfFamily(f, n)| + |Disjunctions(f, n)|)
  {
    match c
    case Bound(t, lo, hi) => lo <= ts[t] <= hi
    case Eq(s, t) => ts[s] == ts[t]
    case Assert(j, p) => FormulaHolds(f, n, ts, heap, j) == p
  }

  lemma {:induction false} HeapMeaning(f: Family, n: nat, ts: seq<int>, heap: Heap, j: nat)
    requires n >= 2 && |ts| == CountOf(f, n) + |OffsetsOf(f, n)| && j < |HeapsOfFamily(f, n)|
    ensures WellFormed(CaseOf(f, n)) && |CaseOf(f, n).terms| == |ts|
    ensures AtomValues(CaseOf(f, n).heaps, ts, heap)[j] == HeapHolds(f, n, ts, heap, j)
  {
    CasesWellFormed(f, n);
    FamilyHeapsOk(f, n);
    ResolvePairs(HeapsOfFamily(f, n)[j], f.SymbolicViews?, ts);
  }

  lemma {:induction false} AtomMeaning(f: Family, n: nat, ts: seq<int>, heap: Heap, j: nat)
    requires n >= 2 && |ts| == CountOf(f, n) + |OffsetsOf(f, n)| && j < |HeapsOfFamily(f, n)|
    ensures WellFormed(CaseOf(f, n)) && |CaseOf(f, n).terms| == |ts| && |CaseOf(f, n).formulas| > j
    ensures FormulaValues(CaseOf(f, n).formulas, AtomValues(CaseOf(f, n).heaps, ts, heap))[j] == HeapHolds(f, n, ts, heap, j)
  {
    HeapMeaning(f, n, ts, heap, j);
    var c := CaseOf(f, n);
    assert c.formulas[j] == HeapAtom(j);
    FormulaValueAt(c.formulas, AtomValues(c.heaps, ts, heap), j);
  }

  lemma {:induction false} FormulaMeaning(f: Family, n: nat, ts: seq<int>, heap: Heap, j: nat)
    requires n >= 2 && |ts| == CountOf(f, n) + |OffsetsOf(f, n)|
    requires j < |HeapsOfFamily(f, n)| + |Disjunctions(f, n)|
    ensures WellFormed(CaseOf(f, n)) && |CaseOf(f, n).terms| == |ts|
    ensures |CaseOf(f, n).formulas| == |HeapsOfFamily(f, n)| + |Disjunctions(f, n)|
    ensures FormulaValues(CaseOf(f, n).formulas, AtomValues(CaseOf(f, n).heaps, ts, heap))[j]
         == FormulaHolds(f, n, ts, heap, j)
  {
    CasesWellFormed(f, n);
    if j < |HeapsOfFamily(f, n)| {
      AtomMeaning(f, n, ts, heap, j);
    } else {
      DisjunctionMeaning(f, n, ts, heap, j);
    }
  }

  /** The heap predicates that disjunction j ranges over. */
  function GroupOf(f: Family, n: nat, j: nat): (nat, nat) {
    (if j == n then 0 else n / 2, if j == n && f == BooleanUnsat then n / 2 else n)
  }

  lemma {:induction false} DisjunctionAt(f: Family, n: nat, j: nat)
    requires n >= 2 && |HeapsOfFamily(f, n)| <= j < |HeapsOfFamily(f, n)| + |Disjunctions(f, n)|
    ensures HasTail(f) && |HeapsOfFamily(f, n)| == n && |CaseOf(f, n).formulas| > j
    ensures GroupOf(f, n, j).0 <= GroupOf(f, n, j).1 <= n <= j
    ensures CaseOf(f, n).formulas[j] == Or(Indices(Indexes(GroupOf(f, n, j).0, GroupOf(f, n, j).1), j))
  {
    HeapCount(f, n);
  }

  lemma {:induction false} DisjunctionMeaning(f: Family, n: nat, ts: seq<int>, heap: Heap, j: nat)
    requires n >= 2 && |ts| == CountOf(f, n) + |OffsetsOf(f, n)|
    requires |HeapsOfFamily(f, n)| <= j < |HeapsOfFamily(f, n)| + |Disjunctions(f, n)|
    requires WellFormed(CaseOf(f, n)) && |CaseOf(f, n).terms| == |ts|
    ensures |CaseOf(f, n).formulas| > j
    ensures FormulaValues(CaseOf(f, n).formulas, AtomValues(CaseOf(f, n).heaps, ts, heap))[j]
         == FormulaHolds(f, n, ts, heap, j)
  {
    DisjunctionAt(f, n, j);
    var formulas, atoms := CaseOf(f, n).formulas, AtomValues(CaseOf(f, n).heaps, ts, heap);
    var vs := FormulaValues(formulas, atoms);
    var (lo, hi) := GroupOf(f, n, j);
    FormulaValueAt(formulas, atoms, j);
    OrMeaning(lo, hi, vs[..j], atoms);
    forall i | lo <= i < hi ensures vs[..j][i] == HeapHolds(f, n, ts, heap, i) {
      AtomMeaning(f, n, ts, heap, i);
    }
  }

  lemma {:induction false} OrMeaning(lo: nat, hi: nat, vs: seq<bool>, atoms: seq<bool>)
    requires lo <= hi <= |vs|
    ensures NodeValue(Or(Indices(Indexes(lo, hi), |vs|)), vs, atoms) <==> exists i :: lo <= i < hi && vs[i]
  {
    var fs := Indices(Indexes(lo, hi), |vs|);
    if i :| lo <= i < hi && vs[i] {
      assert fs[i - lo] == i;
    }
  }

  lemma {:induction false} ConstraintMeaning(f: Family, n: nat, ts: seq<int>, heap: Heap, vs: seq<bool>, c: Constraint)
    requires n >= 2 && |ts| == CountOf(f, n) + |OffsetsOf(f, n)|
    requires WellFormed(CaseOf(f, n)) && |CaseOf(f, n).terms| == |ts|
    requires vs == FormulaValues(CaseOf(f, n).formulas, AtomValues(CaseOf(f, n).heaps, ts, heap))
    requires |vs| == |HeapsOfFamily(f, n)| + |Disjunctions(f, n)| && ConstraintOk(c, |ts|, |vs|)
    ensures ConstraintHolds(c, ts, vs) <==> Meets(f, n, ts, heap, c)
  {
    if c.Assert? {
      FormulaMeaning(f, n, ts, heap, c.f);
    }
  }

  /** The heap is null-free and meets the constraints of the check. */
  ghost predicate MeetsAll(f: Family, n: nat, ts: seq<int>, heap: Heap, cs: seq<Constraint>)
    requires n >= 2 && |ts| == CountOf(f, n) + |OffsetsOf(f, n)|
    requires ConstraintsOk(cs, |ts|, |HeapsOfFamily(f, n)| + |Disjunctions(f, n)|)
  {
    0 !in heap && forall k :: 0 <= k < |cs| ==> Meets(f, n, ts, heap, cs[k])
  }

  lemma {:induction false} ChecksOk(f: Family, n: nat, check: nat)
    requires n >= 2 && check < |ChecksOf(f, n)|
    ensures WellFormed(CaseOf(f, n)) && |CaseOf(f, n).terms| == CountOf(f, n) + |OffsetsOf(f, n)|
    ensures |CaseOf(f, n).formulas| == |HeapsOfFamily(f, n)| + |Disjunctions(f, n)|
    ensures ConstraintsOk(ChecksOf(f, n)[check], CountOf(f, n) + |OffsetsOf(f, n)|, |HeapsOfFamily(f, n)| + |Disjunctions(f, n)|)
  {
    CasesWellFormed(f, n);
    assert ConstraintsOk(CaseOf(f, n).checks[check], |CaseOf(f, n).terms|, |CaseOf(f, n).formulas|);
  }

  lemma {:induction false} ConstraintsMeaning(f: Family, n: nat, ts: seq<int>, heap: Heap, vs: seq<bool>, cs: seq<Constraint>)
    requires n >= 2 && |ts| == CountOf(f, n) + |OffsetsOf(f, n)|
    requires WellFormed(CaseOf(f, n)) && |CaseOf(f, n).terms| == |ts|
    requires vs == FormulaValues(CaseOf(f, n).formulas, AtomValues(CaseOf(f, n).heaps, ts, heap))
    requires |vs| == |HeapsOfFamily(f, n)| + |Disjunctions(f, n)| && ConstraintsOk(cs, |ts|, |vs|)
    ensures MeetsAll(f, n, ts, heap, cs) <==> 0 !in heap && AllConstraintsHold(cs, ts, vs)
  {
    forall k | 0 <= k < |cs| ensures ConstraintHolds(cs[k], ts, vs) <==> Meets(f, n, ts, heap, cs[k]) {
      ConstraintMeaning(f, n, ts, heap, vs, cs[k]);
    }
  }

  predicate AllConstraintsHold(cs: seq<Constraint>, ts: seq<int>, vs: seq<bool>)
    requires ConstraintsOk(cs, |ts|, |vs|)
  {
    forall k :: 0 <= k < |cs| ==> ConstraintHolds(cs[k], ts, vs)
  }

  lemma ValidatesMeaning(c: Case, check: nat, xs: seq<int>, heap: Heap)
    requires WellFormed(c) && check < |c.checks| && |xs| == c.count
    ensures ConstraintsOk(c.checks[check], |c.terms|, |c.formulas|)
    ensures Validates(c, check, xs, heap) <==>
            0 !in heap && AllConstraintsHold(c.checks[check], TermValues(c.terms, xs),
              FormulaValues(c.formulas, AtomValues(c.heaps, TermValues(c.terms, xs), heap)))
  {}

  /** A check of a family validates iff the heap is null-free and meets its constraints. */
  lemma {:induction false} FamilyValidates(f: Family, n: nat, check: nat, xs: seq<int>, heap: Heap)
    requires n >= 2 && |xs| == CountOf(f, n) && check < |ChecksOf(f, n)|
    ensures WellFormed(CaseOf(f, n))
    ensures var ts := TermValues(CaseOf(f, n).terms, xs);
      && IsTermValues(f, n, xs, ts)
      && ConstraintsOk(ChecksOf(f, n)[check], |ts|, |HeapsOfFamily(f, n)| + |Disjunctions(f, n)|)
      && (Validates(CaseOf(f, n), check, xs, heap) <==> MeetsAll(f, n, ts, heap, ChecksOf(f, n)[check]))
  {
    FamilyTermValues(f, n, xs);
    ChecksOk(f, n, check);
    var c := CaseOf(f, n);
    var ts := TermValues(c.terms, xs);
    var vs := FormulaValues(c.formulas, AtomValues(c.heaps, ts, heap));
    ValidatesMeaning(c, check, xs, heap);
    ConstraintsMeaning(f, n, ts, heap, vs, c.checks[check]);
  }
}
