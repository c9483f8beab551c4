/** What the models of each heap family are, for every size. */
module HeapModels {
  import opened Wrappers
  import opened HeapCase
  import opened HeapProgram
  import opened HeapFamilies
  import opened HeapVerdicts
  import opened HeapOracle

  /* ---------- The models, in terms of the variables' values ---------- */

  predicate Boxed(xs: seq<int>, count: nat, hi: int) {
    count <= |xs| && forall i :: 0 <= i < count ==> 1 <= xs[i] <= hi
  }

  /** The variables hold 1, 2, 3, 4, and so on again. */
  predicate Counting(xs: seq<int>) {
    forall m :: 0 <= m < |xs| ==> xs[m] == m % 4 + 1
  }

  /** The four cells at the variables from `base` on, storing 0, 1, 2 and `last`. */
  ghost predicate Sees(xs: seq<int>, base: nat, last: int, heap: Heap)
    requires base + 3 < |xs|
  {
    Spells([(xs[base], 0), (xs[base + 1], 1), (xs[base + 2], 2), (xs[base + 3], last)], heap)
  }

  ghost predicate View3(xs: seq<int>, j: int, heap: Heap)
    requires 0 <= j && 4 * j + 3 < |xs|
  {
    Sees(xs, 4 * j, 3, heap)
  }

  /** Variable i owns a cell storing i; the last one stores `last`. */
  ghost predicate Owns(xs: seq<int>, last: int, heap: Heap) {
    Spells(seq(|xs|, i requires 0 <= i < |xs| => (xs[i], if i == |xs| - 1 then last else i)), heap)
  }

  ghost predicate OwnsReversed(xs: seq<int>, heap: Heap) {
    Spells(seq(|xs|, i requires 0 <= i < |xs| => (xs[|xs| - 1 - i], |xs| - 1 - i)), heap)
  }

  ghost predicate Sees0(xs: seq<int>, j: nat, heap: Heap)
    requires 4 * j + 3 < |xs|
  {
    Spells([(xs[4 * j], 0), (xs[4 * j + 1], 0), (xs[4 * j + 2], 0), (xs[4 * j + 3], 0)], heap)
  }

  ghost predicate SeesTerms(xs: seq<int>, j: nat, heap: Heap)
    requires 8 * j + 7 < |xs|
  {
    Spells([(xs[8 * j], xs[8 * j + 4]), (xs[8 * j + 1], xs[8 * j + 5]),
            (xs[8 * j + 2], xs[8 * j + 6]), (xs[8 * j + 3], xs[8 * j + 7])], heap)
  }

  ghost predicate SeesFrom(x: int, heap: Heap) {
    Spells([(x, 0), (x + 1, 1), (x + 2, 2), (x + 3, 3)], heap)
  }

  /** The 32 cells from x on, storing their distance from it. */
  ghost predicate SeesBlock(x: int, heap: Heap) {
    Spells(seq(32, i requires 0 <= i < 32 => (x + i, i)), heap)
  }

  ghost predicate SeesOne(x: int, v: int, heap: Heap) {
    Spells([(x, v)], heap)
  }

  ghost predicate Model(f: Family, n: nat, check: nat, xs: seq<int>, heap: Heap)
    requires n >= 2 && |xs| == CountOf(f, n)
  {
    match f
    case Allocate => |xs| == n && Boxed(xs, n, n) && Owns(xs, n - 1, heap)
    case Alias => |xs| == n && Boxed(xs, n, n) && xs[0] == xs[n - 1] && Owns(xs, n - 1, heap)
    case Values => |xs| == n && Boxed(xs, n, n) && Owns(xs, n - 1, heap) && Owns(xs, n, heap)
    case Permutation => |xs| == n && Boxed(xs, n, n) && Owns(xs, n - 1, heap) && !OwnsReversed(xs, heap)
    case Negative => |xs| == 4 * n && forall j :: 0 <= j < n ==> !Sees0(xs, j, heap)
    case Views => |xs| == 4 * n && Counting(xs) && forall j :: 0 <= j < n ==> View3(xs, j, heap)
    case ViewConflict =>
      && |xs| == 4 * n && Counting(xs)
      && (forall j :: 0 <= j < n - 1 ==> View3(xs, j, heap)) && Sees(xs, 4 * n - 4, 4, heap)
    case UnassertedViews => |xs| == 4 * n && Counting(xs) && View3(xs, 0, heap)
    case FreeViews => |xs| == 4 * n && Boxed(xs, 4, 4) && forall j :: 0 <= j < n ==> View3(xs, j, heap)
    case SymbolicViews =>
      && |xs| == 8 * n && Boxed(xs, 4, 4) && (forall m :: 8 <= m < 8 * n ==> xs[m] == xs[m % 8])
      && forall j :: 0 <= j < n ==> SeesTerms(xs, j, heap)
    case OffsetViews =>
      && |xs| == n && Boxed(xs, 1, n) && (forall j :: 1 <= j < n ==> xs[j] == xs[0])
      && forall j :: 0 <= j < n ==> SeesFrom(xs[j], heap)
    case CacheScopes => |xs| == 1 && Boxed(xs, 1, n + 1) && SeesBlock(xs[0], heap) && check % 3 != 1
    case BooleanSat => |xs| == 1 && Boxed(xs, 1, n) && exists j :: 0 <= j < n && SeesOne(xs[0], j, heap)
    case BooleanUnsat =>
      && |xs| == 1 && Boxed(xs, 1, n) && (exists j :: 0 <= j < n / 2 && SeesOne(xs[0], j, heap))
      && exists j :: n / 2 <= j < n && SeesOne(xs[0], j, heap)
    case BooleanAlias => |xs| == 2 && Boxed(xs, 2, n) && Spells([(xs[0], 7), (xs[1], 9)], heap)
  }

  /* ---------- Constraints, list by list ---------- */

  predicate ListOk(f: Family, n: nat, ts: seq<int>, cs: seq<Constraint>)
    requires n >= 2
  {
    && |ts| == CountOf(f, n) + |OffsetsOf(f, n)|
    && ConstraintsOk(cs, |ts|, |HeapsOfFamily(f, n)| + |Disjunctions(f, n)|)
  }

  ghost predicate Met(f: Family, n: nat, ts: seq<int>, heap: Heap, cs: seq<Constraint>)
    requires n >= 2 && ListOk(f, n, ts, cs)
  {
    forall k :: 0 <= k < |cs| ==> Meets(f, n, ts, heap, cs[k])
  }

  lemma {:induction false} PartsOk(f: Family, n: nat, ts: seq<int>, a: seq<Constraint>, b: seq<Constraint>)
    requires n >= 2 && ListOk(f, n, ts, a + b)
    ensures ListOk(f, n, ts, a) && ListOk(f, n, ts, b)
  {
    var m := |HeapsOfFamily(f, n)| + |Disjunctions(f, n)|;
    forall k | 0 <= k < |a| ensures ConstraintOk(a[k], |ts|, m) { assert a[k] == (a + b)[k]; }
    forall k | 0 <= k < |b| ensures ConstraintOk(b[k], |ts|, m) { assert b[k] == (a + b)[|a| + k]; }
  }

  lemma {:induction false} MetConcat(f: Family, n: nat, ts: seq<int>, heap: Heap, a: seq<Constraint>, b: seq<Constraint>)
    requires n >= 2 && ListOk(f, n, ts, a + b)
    ensures ListOk(f, n, ts, a) && ListOk(f, n, ts, b)
    ensures Met(f, n, ts, heap, a + b) <==> Met(f, n, ts, heap, a) && Met(f, n, ts, heap, b)
  {
    PartsOk(f, n, ts, a, b);
    if Met(f, n, ts, heap, a + b) {
      forall k | 0 <= k < |a| ensures Meets(f, n, ts, heap, a[k]) { assert a[k] == (a + b)[k]; }
      forall k | 0 <= k < |b| ensures Meets(f, n, ts, heap, b[k]) { assert b[k] == (a + b)[|a| + k]; }
    }
  }

  lemma {:induction false} MetBounds(f: Family, n: nat, ts: seq<int>, heap: Heap, count: nat, hi: int)
    requires n >= 2 && ListOk(f, n, ts, Bounds(count, hi)) && count <= |ts|
    ensures Met(f, n, ts, heap, Bounds(count, hi)) <==> Boxed(ts, count, hi)
  {
    if Met(f, n, ts, heap, Bounds(count, hi)) {
      forall i | 0 <= i < count ensures 1 <= ts[i] <= hi { assert Bounds(count, hi)[i] == Bound(i, 1, hi); }
    }
  }

  lemma {:induction false} MetOne(f: Family, n: nat, ts: seq<int>, heap: Heap, c: Constraint)
    requires n >= 2 && ListOk(f, n, ts, [c])
    ensures ConstraintOk(c, |ts|, |HeapsOfFamily(f, n)| + |Disjunctions(f, n)|)
    ensures Met(f, n, ts, heap, [c]) <==> Meets(f, n, ts, heap, c)
  {
    assert [c][0] == c;
  }

  lemma {:induction false} MetAsserts(f: Family, n: nat, ts: seq<int>, heap: Heap, count: nat)
    requires n >= 2 && ListOk(f, n, ts, Asserts(count)) && count <= |HeapsOfFamily(f, n)|
    ensures Met(f, n, ts, heap, Asserts(count)) <==> forall j :: 0 <= j < count ==> HeapHolds(f, n, ts, heap, j)
  {
    if Met(f, n, ts, heap, Asserts(count)) {
      forall j | 0 <= j < count ensures HeapHolds(f, n, ts, heap, j) { assert Asserts(count)[j] == Assert(j, true); }
    }
  }

  /* ---------- Heap predicates ---------- */

  lemma {:induction false} HoldsSpells(f: Family, n: nat, ts: seq<int>, heap: Heap, j: nat, ps: seq<(int, int)>)
    requires n >= 2 && |ts| == CountOf(f, n) + |OffsetsOf(f, n)| && j < |HeapsOfFamily(f, n)|
    requires CellsInRange(HeapsOfFamily(f, n)[j], f.SymbolicViews?, |ts|)
    requires Pairs(HeapsOfFamily(f, n)[j], f.SymbolicViews?, ts) == ps
    ensures HeapHolds(f, n, ts, heap, j) <==> Spells(ps, heap)
  {
    HeapOfIff(ps, heap);
  }

  predicate IsOwner(f: Family) {
    f == Allocate || f == Alias || f == Values || f == Permutation
  }

  lemma {:induction false} OwnsMeaning(f: Family, n: nat, ts: seq<int>, heap: Heap)
    requires n >= 2 && |ts| == n && IsOwner(f)
    ensures |HeapsOfFamily(f, n)| > 0 && (HeapHolds(f, n, ts, heap, 0) <==> Owns(ts, n - 1, heap))
  {
    FamilyHeapsOk(f, n);
    HoldsSpells(f, n, ts, heap, 0, seq(n, i requires 0 <= i < n => (ts[i], if i == n - 1 then n - 1 else i)));
  }

  lemma {:induction false} SecondMeaning(n: nat, ts: seq<int>, heap: Heap)
    requires n >= 2 && |ts| == n
    ensures |HeapsOfFamily(Values, n)| == 2 && (HeapHolds(Values, n, ts, heap, 1) <==> Owns(ts, n, heap))
    ensures |HeapsOfFamily(Permutation, n)| == 2 && (HeapHolds(Permutation, n, ts, heap, 1) <==> OwnsReversed(ts, heap))
  {
    FamilyHeapsOk(Values, n);
    FamilyHeapsOk(Permutation, n);
    HoldsSpells(Values, n, ts, heap, 1, seq(n, i requires 0 <= i < n => (ts[i], if i == n - 1 then n else i)));
    HoldsSpells(Permutation, n, ts, heap, 1, seq(n, i requires 0 <= i < n => (ts[n - 1 - i], n - 1 - i)));
  }

  lemma {:induction false} FourMeaning(f: Family, n: nat, ts: seq<int>, heap: Heap, j: nat, base: nat, last: int)
    requires n >= 2 && |ts| == CountOf(f, n) + |OffsetsOf(f, n)| && j < |HeapsOfFamily(f, n)| && !f.SymbolicViews?
    requires HeapsOfFamily(f, n)[j] == View(base, last) && base + 3 < |ts|
    ensures HeapHolds(f, n, ts, heap, j) <==> Sees(ts, base, last, heap)
  {
    HoldsSpells(f, n, ts, heap, j, [(ts[base], 0), (ts[base + 1], 1), (ts[base + 2], 2), (ts[base + 3], last)]);
  }

  lemma {:induction false} ZerosMeaning(n: nat, ts: seq<int>, heap: Heap, j: nat)
    requires n >= 2 && |ts| == 4 * n && j < n
    ensures |HeapsOfFamily(Negative, n)| == n && (HeapHolds(Negative, n, ts, heap, j) <==> Sees0(ts, j, heap))
  {
    FamilyHeapsOk(Negative, n);
    assert HeapsOfFamily(Negative, n)[j] == [(4 * j, 0), (4 * j + 1, 0), (4 * j + 2, 0), (4 * j + 3, 0)];
    HoldsSpells(Negative, n, ts, heap, j, [(ts[4 * j], 0), (ts[4 * j + 1], 0), (ts[4 * j + 2], 0), (ts[4 * j + 3], 0)]);
  }

  lemma {:induction false} TermsMeaning(n: nat, ts: seq<int>, heap: Heap, j: nat)
    requires n >= 2 && |ts| == 8 * n && j < n
    ensures |HeapsOfFamily(SymbolicViews, n)| == n
    ensures HeapHolds(SymbolicViews, n, ts, heap, j) <==> SeesTerms(ts, j, heap)
  {
    FamilyHeapsOk(SymbolicViews, n);
    assert HeapsOfFamily(SymbolicViews, n)[j] == SymbolicView(8 * j);
    HoldsSpells(SymbolicViews, n, ts, heap, j,
      [(ts[8 * j], ts[8 * j + 4]), (ts[8 * j + 1], ts[8 * j + 5]), (ts[8 * j + 2], ts[8 * j + 6]), (ts[8 * j + 3], ts[8 * j + 7])]);
  }

  lemma {:induction false} OneMeaning(f: Family, n: nat, ts: seq<int>, heap: Heap, j: nat)
    requires n >= 2 && |ts| == 1 && j < n && (f == BooleanSat || f == BooleanUnsat)
    ensures |HeapsOfFamily(f, n)| == n && (HeapHolds(f, n, ts, heap, j) <==> SeesOne(ts[0], j, heap))
  {
    FamilyHeapsOk(f, n);
    assert HeapsOfFamily(f, n)[j] == [(0, j)];
    HoldsSpells(f, n, ts, heap, j, [(ts[0], j)]);
  }

  lemma {:induction false} TwoMeaning(n: nat, ts: seq<int>, heap: Heap, j: nat)
    requires n >= 2 && |ts| == 2 && j < n
    ensures |HeapsOfFamily(BooleanAlias, n)| == n
    ensures HeapHolds(BooleanAlias, n, ts, heap, j) <==> Spells([(ts[0], 7), (ts[1], 9)], heap)
  {
    FamilyHeapsOk(BooleanAlias, n);
    assert HeapsOfFamily(BooleanAlias, n)[j] == [(0, 7), (1, 9)];
    HoldsSpells(BooleanAlias, n, ts, heap, j, [(ts[0], 7), (ts[1], 9)]);
  }

  lemma {:induction false} BlockMeaning(n: nat, x: int, ts: seq<int>, heap: Heap, j: nat)
    requires n >= 2 && |ts| == 33 && j < n && forall i :: 1 <= i <= 32 ==> ts[i] == x + i - 1
    ensures |HeapsOfFamily(CacheScopes, n)| == n
    ensures HeapHolds(CacheScopes, n, ts, heap, j) <==> SeesBlock(x, heap)
  {
    FamilyHeapsOk(CacheScopes, n);
    assert HeapsOfFamily(CacheScopes, n)[j] == Rotated(j);
    RotationsAgree(j, x, ts);
    HeapOfIff(BlockCells(x), heap);
    assert BlockCells(x) == seq(32, i requires 0 <= i < 32 => (x + i, i));
  }

  /* ---------- Families ---------- */

  lemma {:induction false} OwnerModels(f: Family, n: nat, ts: seq<int>, heap: Heap)
    requires n >= 2 && (f == Allocate || f == Alias) && ListOk(f, n, ts, ConstraintsOfFamily(f, n))
    ensures Met(f, n, ts, heap, ConstraintsOfFamily(f, n)) <==> Model(f, n, 0, ts, heap)
  {
    var cs := if f == Alias then Bounds(n, n) + [Eq(0, n - 1)] else Bounds(n, n);
    OwnsMeaning(f, n, ts, heap);
    MetConcat(f, n, ts, heap, cs, [Assert(0, true)]);
    MetOne(f, n, ts, heap, Assert(0, true));
    if f == Alias {
      MetConcat(f, n, ts, heap, Bounds(n, n), [Eq(0, n - 1)]);
      MetOne(f, n, ts, heap, Eq(0, n - 1));
    }
    MetBounds(f, n, ts, heap, n, n);
  }

  lemma {:induction false} ValuesModels(n: nat, ts: seq<int>, heap: Heap)
    requires n >= 2 && ListOk(Values, n, ts, ConstraintsOfFamily(Values, n))
    ensures Met(Values, n, ts, heap, ConstraintsOfFamily(Values, n)) <==> Model(Values, n, 0, ts, heap)
  {
    OwnsMeaning(Values, n, ts, heap);
    SecondMeaning(n, ts, heap);
    MetTwo(Values, n, ts, heap, Bounds(n, n), Assert(0, true), Assert(1, true));
    MetBounds(Values, n, ts, heap, n, n);
  }

  lemma {:induction false} PermutationModels(n: nat, ts: seq<int>, heap: Heap)
    requires n >= 2 && ListOk(Permutation, n, ts, ConstraintsOfFamily(Permutation, n))
    ensures Met(Permutation, n, ts, heap, ConstraintsOfFamily(Permutation, n)) <==> Model(Permutation, n, 0, ts, heap)
  {
    OwnsMeaning(Permutation, n, ts, heap);
    SecondMeaning(n, ts, heap);
    MetTwo(Permutation, n, ts, heap, Bounds(n, n), Assert(0, true), Assert(1, false));
    MetBounds(Permutation, n, ts, heap, n, n);
  }

  lemma {:induction false} MetTwo(f: Family, n: nat, ts: seq<int>, heap: Heap, cs: seq<Constraint>, c: Constraint, d: Constraint)
    requires n >= 2 && ListOk(f, n, ts, cs + [c, d])
    ensures ListOk(f, n, ts, cs) && ListOk(f, n, ts, [c]) && ListOk(f, n, ts, [d])
    ensures var m := |HeapsOfFamily(f, n)| + |Disjunctions(f, n)|; ConstraintOk(c, |ts|, m) && ConstraintOk(d, |ts|, m)
    ensures Met(f, n, ts, heap, cs + [c, d])
       <==> Met(f, n, ts, heap, cs) && Met(f, n, ts, heap, [c]) && Met(f, n, ts, heap, [d])
    ensures Met(f, n, ts, heap, [c]) <==> Meets(f, n, ts, heap, c)
    ensures Met(f, n, ts, heap, [d]) <==> Meets(f, n, ts, heap, d)
  {
    MetConcat(f, n, ts, heap, cs, [c, d]);
    assert [c, d] == [c] + [d];
    MetConcat(f, n, ts, heap, [c], [d]);
    MetOne(f, n, ts, heap, c);
    MetOne(f, n, ts, heap, d);
  }

  lemma {:induction false} MetExact(f: Family, n: nat, ts: seq<int>, heap: Heap)
    requires n >= 2 && ListOk(f, n, ts, ExactBounds(n)) && |ts| == 4 * n
    ensures Met(f, n, ts, heap, ExactBounds(n)) <==> Counting(ts)
  {
    if Met(f, n, ts, heap, ExactBounds(n)) {
      forall m | 0 <= m < 4 * n ensures ts[m] == m % 4 + 1 {
        assert ExactBounds(n)[m] == Bound(m, m % 4 + 1, m % 4 + 1);
      }
    }
  }

  predicate IsPlainViews(f: Family) {
    f == Views || f == ViewConflict || f == UnassertedViews || f == FreeViews
  }

  lemma {:induction false} PlainViewMeaning(f: Family, n: nat, ts: seq<int>, heap: Heap, j: nat)
    requires n >= 2 && IsPlainViews(f) && |ts| == 4 * n && j < n
    ensures |HeapsOfFamily(f, n)| == n
    ensures HeapHolds(f, n, ts, heap, j)
       <==> if f == ViewConflict && j == n - 1 then Sees(ts, 4 * n - 4, 4, heap)
            else if f == UnassertedViews then Sees(ts, 4 * j, 3 + j, heap)
            else View3(ts, j, heap)
  {
    var last := if f == ViewConflict && j == n - 1 then 4 else if f == UnassertedViews then 3 + j else 3;
    assert HeapsOfFamily(f, n)[j] == View(4 * j, last);
    FourMeaning(f, n, ts, heap, j, 4 * j, last);
  }

  lemma {:induction false} PlainAsserts(f: Family, n: nat, ts: seq<int>, heap: Heap, count: nat)
    requires n >= 2 && IsPlainViews(f) && f != ViewConflict && |ts| == 4 * n
    requires count == (if f == UnassertedViews then 1 else n) && ListOk(f, n, ts, Asserts(count))
    ensures Met(f, n, ts, heap, Asserts(count)) <==> forall j :: 0 <= j < count ==> View3(ts, j, heap)
  {
    PlainViewMeaning(f, n, ts, heap, 0);
    MetAsserts(f, n, ts, heap, count);
    forall j | 0 <= j < count ensures HeapHolds(f, n, ts, heap, j) <==> View3(ts, j, heap) {
      PlainViewMeaning(f, n, ts, heap, j);
    }
  }

  lemma {:induction false} ConflictAsserts(n: nat, ts: seq<int>, heap: Heap)
    requires n >= 2 && |ts| == 4 * n && ListOk(ViewConflict, n, ts, Asserts(n))
    ensures Met(ViewConflict, n, ts, heap, Asserts(n))
       <==> (forall j :: 0 <= j < n - 1 ==> View3(ts, j, heap)) && Sees(ts, 4 * n - 4, 4, heap)
  {
    var f := ViewConflict;
    PlainViewMeaning(f, n, ts, heap, n - 1);
    MetAsserts(f, n, ts, heap, n);
    forall j | 0 <= j < n - 1 ensures HeapHolds(f, n, ts, heap, j) <==> View3(ts, j, heap) {
      PlainViewMeaning(f, n, ts, heap, j);
    }
  }

  lemma {:induction false} ViewModels(n: nat, ts: seq<int>, heap: Heap)
    requires n >= 2 && ListOk(Views, n, ts, ConstraintsOfFamily(Views, n))
    ensures Met(Views, n, ts, heap, ConstraintsOfFamily(Views, n)) <==> Model(Views, n, 0, ts, heap)
  {
    MetConcat(Views, n, ts, heap, ExactBounds(n), Asserts(n));
    MetExact(Views, n, ts, heap);
    PlainAsserts(Views, n, ts, heap, n);
  }

  lemma {:induction false} UnassertedModels(n: nat, ts: seq<int>, heap: Heap)
    requires n >= 2 && ListOk(UnassertedViews, n, ts, ConstraintsOfFamily(UnassertedViews, n))
    ensures Met(UnassertedViews, n, ts, heap, ConstraintsOfFamily(UnassertedViews, n))
       <==> Model(UnassertedViews, n, 0, ts, heap)
  {
    MetConcat(UnassertedViews, n, ts, heap, ExactBounds(n), Asserts(1));
    MetExact(UnassertedViews, n, ts, heap);
    PlainAsserts(UnassertedViews, n, ts, heap, 1);
  }

  lemma {:induction false} FreeViewModels(n: nat, ts: seq<int>, heap: Heap)
    requires n >= 2 && ListOk(FreeViews, n, ts, ConstraintsOfFamily(FreeViews, n))
    ensures Met(FreeViews, n, ts, heap, ConstraintsOfFamily(FreeViews, n)) <==> Model(FreeViews, n, 0, ts, heap)
  {
    MetConcat(FreeViews, n, ts, heap, Bounds(4, 4), Asserts(n));
    MetBounds(FreeViews, n, ts, heap, 4, 4);
    PlainAsserts(FreeViews, n, ts, heap, n);
  }

  lemma {:induction false} ConflictModels(n: nat, ts: seq<int>, heap: Heap)
    requires n >= 2 && ListOk(ViewConflict, n, ts, ConstraintsOfFamily(ViewConflict, n))
    ensures Met(ViewConflict, n, ts, heap, ConstraintsOfFamily(ViewConflict, n)) <==> Model(ViewConflict, n, 0, ts, heap)
  {
    MetConcat(ViewConflict, n, ts, heap, ExactBounds(n), Asserts(n));
    MetExact(ViewConflict, n, ts, heap);
    ConflictAsserts(n, ts, heap);
  }

  lemma {:induction false} NegativeModels(n: nat, ts: seq<int>, heap: Heap)
    requires n >= 2 && ListOk(Negative, n, ts, ConstraintsOfFamily(Negative, n))
    ensures Met(Negative, n, ts, heap, ConstraintsOfFamily(Negative, n)) <==> Model(Negative, n, 0, ts, heap)
  {
    var cs := ConstraintsOfFamily(Negative, n);
    if Met(Negative, n, ts, heap, cs) {
      forall j | 0 <= j < n ensures !Sees0(ts, j, heap) {
        ZerosMeaning(n, ts, heap, j);
        assert cs[j] == Assert(j, false);
      }
    } else {
      var k :| 0 <= k < |cs| && !Meets(Negative, n, ts, heap, cs[k]);
      ZerosMeaning(n, ts, heap, k);
    }
  }

  lemma {:induction false} MetSame(n: nat, ts: seq<int>, heap: Heap)
    requires n >= 2 && ListOk(SymbolicViews, n, ts, SameViews(n))
    ensures Met(SymbolicViews, n, ts, heap, SameViews(n)) <==> forall m :: 8 <= m < 8 * n ==> ts[m] == ts[m % 8]
  {
    if Met(SymbolicViews, n, ts, heap, SameViews(n)) {
      forall m | 8 <= m < 8 * n ensures ts[m] == ts[m % 8] {
        assert SameViews(n)[m - 8] == Eq(m, (m - 8) % 8);
      }
    } else {
      var k :| 0 <= k < |SameViews(n)| && !Meets(SymbolicViews, n, ts, heap, SameViews(n)[k]);
      assert SameViews(n)[k] == Eq(8 + k, k % 8) && (8 + k) % 8 == k % 8;
      assert ts[8 + k] != ts[(8 + k) % 8];
    }
  }

  lemma {:induction false} SymbolicModels(n: nat, ts: seq<int>, heap: Heap)
    requires n >= 2 && ListOk(SymbolicViews, n, ts, ConstraintsOfFamily(SymbolicViews, n))
    ensures Met(SymbolicViews, n, ts, heap, ConstraintsOfFamily(SymbolicViews, n)) <==> Model(SymbolicViews, n, 0, ts, heap)
  {
    var f := SymbolicViews;
    MetConcat(f, n, ts, heap, Bounds(4, 4) + SameViews(n), Asserts(n));
    MetConcat(f, n, ts, heap, Bounds(4, 4), SameViews(n));
    MetBounds(f, n, ts, heap, 4, 4);
    MetSame(n, ts, heap);
    TermsMeaning(n, ts, heap, 0);
    MetAsserts(f, n, ts, heap, n);
    forall j | 0 <= j < n ensures HeapHolds(f, n, ts, heap, j) <==> SeesTerms(ts, j, heap) {
      TermsMeaning(n, ts, heap, j);
    }
  }

  lemma {:induction false} MetFirst(n: nat, ts: seq<int>, heap: Heap)
    requires n >= 2 && ListOk(OffsetViews, n, ts, AllEqualFirst(n))
    ensures Met(OffsetViews, n, ts, heap, AllEqualFirst(n)) <==> forall j :: 1 <= j < n ==> ts[j] == ts[0]
  {
    if Met(OffsetViews, n, ts, heap, AllEqualFirst(n)) {
      forall j | 1 <= j < n ensures ts[j] == ts[0] {
        assert AllEqualFirst(n)[j - 1] == Eq(j, 0);
      }
    }
  }

  lemma {:induction false} OffsetValue(n: nat, xs: seq<int>, ts: seq<int>, j: nat, i: nat)
    requires n >= 2 && IsTermValues(OffsetViews, n, xs, ts) && j < n && i < 4
    ensures |xs| == n && |ts| == n + 4 * n && ts[n + 4 * j + i] == xs[j] + i
  {
    var m := 4 * j + i;
    assert m / 4 == j && m % 4 == i;
    assert OffsetsOf(OffsetViews, n)[m] == (j, i);
    assert ts[|xs| + m] == xs[j] + i;
  }

  lemma {:induction false} OffsetMeaning(n: nat, xs: seq<int>, ts: seq<int>, heap: Heap, j: nat)
    requires n >= 2 && IsTermValues(OffsetViews, n, xs, ts) && j < n
    ensures |HeapsOfFamily(OffsetViews, n)| == n && (HeapHolds(OffsetViews, n, ts, heap, j) <==> SeesFrom(xs[j], heap))
  {
    var base := n + 4 * j;
    assert HeapsOfFamily(OffsetViews, n)[j] == View(base, 3);
    OffsetValue(n, xs, ts, j, 0);
    OffsetValue(n, xs, ts, j, 1);
    OffsetValue(n, xs, ts, j, 2);
    OffsetValue(n, xs, ts, j, 3);
    FourMeaning(OffsetViews, n, ts, heap, j, base, 3);
  }

  lemma {:induction false} OffsetModels(n: nat, xs: seq<int>, ts: seq<int>, heap: Heap)
    requires n >= 2 && IsTermValues(OffsetViews, n, xs, ts) && ListOk(OffsetViews, n, ts, ConstraintsOfFamily(OffsetViews, n))
    ensures Met(OffsetViews, n, ts, heap, ConstraintsOfFamily(OffsetViews, n)) <==> Model(OffsetViews, n, 0, xs, heap)
  {
    var f, first := OffsetViews, [Bound(0, 1, n)];
    MetConcat(f, n, ts, heap, first + AllEqualFirst(n), Asserts(n));
    MetConcat(f, n, ts, heap, first, AllEqualFirst(n));
    MetOne(f, n, ts, heap, Bound(0, 1, n));
    MetFirst(n, ts, heap);
    OffsetMeaning(n, xs, ts, heap, 0);
    MetAsserts(f, n, ts, heap, n);
    forall j | 0 <= j < n ensures HeapHolds(f, n, ts, heap, j) <==> SeesFrom(xs[j], heap) {
      OffsetMeaning(n, xs, ts, heap, j);
    }
  }

  lemma {:induction false} BlockTerms(n: nat, xs: seq<int>, ts: seq<int>)
    requires n >= 2 && IsTermValues(CacheScopes, n, xs, ts)
    ensures |xs| == 1 && |ts| == 33 && ts[0] == xs[0] && forall i :: 1 <= i <= 32 ==> ts[i] == xs[0] + i - 1
  {
    forall i | 1 <= i <= 32 ensures ts[i] == xs[0] + i - 1 {
      assert OffsetsOf(CacheScopes, n)[i - 1] == (0, i - 1);
      assert ts[1 + (i - 1)] == xs[0] + (i - 1);
    }
  }

  lemma {:induction false} CacheModels(n: nat, check: nat, xs: seq<int>, ts: seq<int>, heap: Heap)
    requires n >= 2 && check < |ChecksOf(CacheScopes, n)| && IsTermValues(CacheScopes, n, xs, ts)
    requires ListOk(CacheScopes, n, ts, ChecksOf(CacheScopes, n)[check])
    ensures Met(CacheScopes, n, ts, heap, ChecksOf(CacheScopes, n)[check]) <==> Model(CacheScopes, n, check, xs, heap)
  {
    var f, base, j := CacheScopes, ConstraintsOfFamily(CacheScopes, n), check / 3;
    ScopeCheckAt(base, n, check);
    BlockTerms(n, xs, ts);
    if check % 3 == 1 {
      MetConcat(f, n, ts, heap, base + [Assert(j, true)], [Assert(j, false)]);
      MetOne(f, n, ts, heap, Assert(j, false));
      BlockMeaning(n, xs[0], ts, heap, j);
    } else {
      assert base + [Assert(j, true)] + [] == base + [Assert(j, true)];
    }
    BlockCheck(n, xs[0], ts, heap, j);
  }

  lemma {:induction false} BlockCheck(n: nat, x: int, ts: seq<int>, heap: Heap, j: nat)
    requires n >= 2 && j < n && |ts| == 33 && ts[0] == x && forall i :: 1 <= i <= 32 ==> ts[i] == x + i - 1
    requires ListOk(CacheScopes, n, ts, ConstraintsOfFamily(CacheScopes, n) + [Assert(j, true)])
    ensures Met(CacheScopes, n, ts, heap, ConstraintsOfFamily(CacheScopes, n) + [Assert(j, true)])
       <==> 1 <= x <= n + 1 && SeesBlock(x, heap)
  {
    var f, base := CacheScopes, ConstraintsOfFamily(CacheScopes, n);
    BlockMeaning(n, x, ts, heap, 0);
    BlockMeaning(n, x, ts, heap, j);
    MetConcat(f, n, ts, heap, base, [Assert(j, true)]);
    MetOne(f, n, ts, heap, Assert(j, true));
    assert [] + [Bound(0, 1, n + 1), Assert(0, true)] == base;
    MetTwo(f, n, ts, heap, [], Bound(0, 1, n + 1), Assert(0, true));
  }

  lemma {:induction false} GroupMeaning(f: Family, n: nat, ts: seq<int>, heap: Heap, j: nat, lo: nat, hi: nat)
    requires n >= 2 && |ts| == 1 && (f == BooleanSat || f == BooleanUnsat)
    requires n <= j < n + |Disjunctions(f, n)| && (lo, hi) == GroupOf(f, n, j)
    ensures |HeapsOfFamily(f, n)| == n && lo <= hi <= n
    ensures FormulaHolds(f, n, ts, heap, j) <==> exists i :: lo <= i < hi && SeesOne(ts[0], i, heap)
  {
    OneMeaning(f, n, ts, heap, 0);
    DisjunctionAt(f, n, j);
    if i :| lo <= i < hi && HeapHolds(f, n, ts, heap, i) {
      OneMeaning(f, n, ts, heap, i);
    }
    if i :| lo <= i < hi && SeesOne(ts[0], i, heap) {
      OneMeaning(f, n, ts, heap, i);
    }
  }

  lemma {:induction false} SatModels(n: nat, ts: seq<int>, heap: Heap)
    requires n >= 2 && ListOk(BooleanSat, n, ts, ChecksOf(BooleanSat, n)[0])
    ensures Met(BooleanSat, n, ts, heap, ChecksOf(BooleanSat, n)[0]) <==> Model(BooleanSat, n, 0, ts, heap)
  {
    OneMeaning(BooleanSat, n, ts, heap, 0);
    MetConcat(BooleanSat, n, ts, heap, [Bound(0, 1, n)], [Assert(n, true)]);
    MetOne(BooleanSat, n, ts, heap, Bound(0, 1, n));
    MetOne(BooleanSat, n, ts, heap, Assert(n, true));
    GroupMeaning(BooleanSat, n, ts, heap, n, 0, n);
  }

  lemma {:induction false} UnsatModels(n: nat, ts: seq<int>, heap: Heap)
    requires n >= 2 && ListOk(BooleanUnsat, n, ts, ChecksOf(BooleanUnsat, n)[0])
    ensures Met(BooleanUnsat, n, ts, heap, ChecksOf(BooleanUnsat, n)[0]) <==> Model(BooleanUnsat, n, 0, ts, heap)
  {
    OneMeaning(BooleanUnsat, n, ts, heap, 0);
    MetTwo(BooleanUnsat, n, ts, heap, [Bound(0, 1, n)], Assert(n, true), Assert(n + 1, true));
    MetOne(BooleanUnsat, n, ts, heap, Bound(0, 1, n));
    GroupMeaning(BooleanUnsat, n, ts, heap, n, 0, n / 2);
    GroupMeaning(BooleanUnsat, n, ts, heap, n + 1, n / 2, n);
  }

  lemma {:induction false} AliasGroup(n: nat, ts: seq<int>, heap: Heap)
    requires n >= 2 && |ts| == 2
    ensures |HeapsOfFamily(BooleanAlias, n)| == n && |Disjunctions(BooleanAlias, n)| == 1
    ensures FormulaHolds(BooleanAlias, n, ts, heap, n) <==> Spells([(ts[0], 7), (ts[1], 9)], heap)
  {
    var f := BooleanAlias;
    TwoMeaning(n, ts, heap, 0);
    DisjunctionAt(f, n, n);
    if i :| 0 <= i < n && HeapHolds(f, n, ts, heap, i) {
      TwoMeaning(n, ts, heap, i);
    }
  }

  lemma {:induction false} AliasModels(n: nat, ts: seq<int>, heap: Heap)
    requires n >= 2 && ListOk(BooleanAlias, n, ts, ChecksOf(BooleanAlias, n)[0])
    ensures Met(BooleanAlias, n, ts, heap, ChecksOf(BooleanAlias, n)[0]) <==> Model(BooleanAlias, n, 0, ts, heap)
  {
    var f, bounds := BooleanAlias, [Bound(0, 1, n), Bound(1, 1, n)];
    AliasGroup(n, ts, heap);
    MetConcat(f, n, ts, heap, bounds, [Assert(n, true)]);
    MetOne(f, n, ts, heap, Assert(n, true));
    assert bounds == [] + bounds;
    MetTwo(f, n, ts, heap, [], Bound(0, 1, n), Bound(1, 1, n));
  }

  /** Without offset terms the terms are the variables. */
  lemma {:induction false} TermsAreVariables(f: Family, n: nat, xs: seq<int>, ts: seq<int>)
    requires n >= 2 && !f.OffsetViews? && !f.CacheScopes? && IsTermValues(f, n, xs, ts)
    ensures ts == xs
  {
  }

  lemma {:induction false} ModelsMet(f: Family, n: nat, check: nat, xs: seq<int>, ts: seq<int>, heap: Heap)
    requires n >= 2 && check < |ChecksOf(f, n)| && IsTermValues(f, n, xs, ts) && ListOk(f, n, ts, ChecksOf(f, n)[check])
    ensures Met(f, n, ts, heap, ChecksOf(f, n)[check]) <==> Model(f, n, check, xs, heap)
  {
    match f {
      case OffsetViews => OffsetModels(n, xs, ts, heap);
      case CacheScopes => CacheModels(n, check, xs, ts, heap);
      case _ =>
        TermsAreVariables(f, n, xs, ts);
        VariableModels(f, n, ts, heap);
    }
  }

  lemma {:induction false} VariableModels(f: Family, n: nat, ts: seq<int>, heap: Heap)
    requires n >= 2 && !f.OffsetViews? && !f.CacheScopes? && ListOk(f, n, ts, ChecksOf(f, n)[0])
    ensures Met(f, n, ts, heap, ChecksOf(f, n)[0]) <==> Model(f, n, 0, ts, heap)
  {
    match f {
      case Negative => NegativeModels(n, ts, heap);
      case ViewConflict => ConflictModels(n, ts, heap);
      case FreeViews => FreeViewModels(n, ts, heap);
      case SymbolicViews => SymbolicModels(n, ts, heap);
      case BooleanSat => SatModels(n, ts, heap);
      case BooleanUnsat => UnsatModels(n, ts, heap);
      case BooleanAlias => AliasModels(n, ts, heap);
      case Allocate => OwnerModels(f, n, ts, heap);
      case Alias => OwnerModels(f, n, ts, heap);
      case Values => ValuesModels(n, ts, heap);
      case Permutation => PermutationModels(n, ts, heap);
      case Views => ViewModels(n, ts, heap);
      case UnassertedViews => UnassertedModels(n, ts, heap);
    }
  }

  lemma {:induction false} CaseModels(f: Family, n: nat, check: nat, xs: seq<int>, heap: Heap)
    requires n >= 2 && |xs| == CountOf(f, n) && check < |ChecksOf(f, n)|
    ensures WellFormed(CaseOf(f, n))
    ensures Validates(CaseOf(f, n), check, xs, heap) <==> 0 !in heap && Model(f, n, check, xs, heap)
  {
    FamilyValidates(f, n, check, xs, heap);
    var ts := TermValues(CaseOf(f, n).terms, xs);
    ModelsMet(f, n, check, xs, ts, heap);
    assert MeetsAll(f, n, ts, heap, ChecksOf(f, n)[check]) <==> 0 !in heap && Met(f, n, ts, heap, ChecksOf(f, n)[check]);
  }

  lemma ChecksCount(f: Family, n: nat)
    requires n >= 2
    ensures |ChecksOf(f, n)| == if f == CacheScopes then 3 * n else 1
  {
  }

  ghost predicate HasModels(c: Case, f: Family, n: nat, check: nat)
    requires n >= 2 && WellFormed(c) && c.count == CountOf(f, n) && check < |c.checks|
  {
    forall xs: seq<int>, heap: Heap :: |xs| == c.count ==>
      (Validates(c, check, xs, heap) <==> 0 !in heap && Model(f, n, check, xs, heap))
  }

  /** The models of every check of every generated program, for every size. */
  lemma {:induction false} FamilyModels(f: Family, n: nat)
    requires n >= 2
    ensures Parsed(CountOf(f, n), Generate(f, n)).Some?
    ensures var c := Parsed(CountOf(f, n), Generate(f, n)).value;
      && WellFormed(c) && c.count == CountOf(f, n) && |c.checks| == (if f == CacheScopes then 3 * n else 1)
      && forall check :: 0 <= check < |c.checks| ==> HasModels(c, f, n, check)
  {
    ParsedIs(f, n);
    CasesWellFormed(f, n);
    ChecksCount(f, n);
    var c := CaseOf(f, n);
    forall check | 0 <= check < |c.checks| ensures HasModels(c, f, n, check) {
      forall xs: seq<int>, heap: Heap | |xs| == c.count
        ensures Validates(c, check, xs, heap) <==> 0 !in heap && Model(f, n, check, xs, heap)
      {
        CaseModels(f, n, check, xs, heap);
      }
    }
  }
}
