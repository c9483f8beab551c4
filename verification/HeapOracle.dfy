/**
 * The oracle for the heap families: closed-form witnesses and refutations, right for every size.
 */
module HeapOracle {
  import opened Wrappers
  import opened HeapCase
  import opened HeapProgram
  import opened HeapFamilies
  import opened HeapVerdicts

  /* ---------- Witnesses ---------- */

  function WitnessValue(f: Family, i: nat): int {
    match f
    case Allocate => i + 1
    case Negative => i + 1
    case Views => i % 4 + 1
    case ViewConflict => i % 4 + 1
    case UnassertedViews => i % 4 + 1
    case FreeViews => i % 4 + 1
    case SymbolicViews => if i % 8 < 4 then i % 8 + 1 else i % 8 - 4
    case BooleanAlias => if i == 1 then 2 else 1
    case _ => 1
  }

  function Witness(f: Family, n: nat): (xs: seq<int>)
    ensures |xs| == CountOf(f, n)
  {
    seq(CountOf(f, n), i requires 0 <= i < CountOf(f, n) => WitnessValue(f, i))
  }

  const VIEW_HEAP: Heap := map[1 := 0, 2 := 1, 3 := 2, 4 := 3]

  const VIEW_CELLS: seq<(int, int)> := [(1, 0), (2, 1), (3, 2), (4, 3)]

  const ZERO_HEAP: Heap := map[1 := 0, 2 := 0, 3 := 0, 4 := 0, 5 := 0]

  lemma {:induction false} ViewHeapOf(last: int)
    ensures HeapOf([(1, 0), (2, 1), (3, 2), (4, last)]) == Some(VIEW_HEAP[4 := last])
    ensures HeapOf(VIEW_CELLS) == Some(VIEW_HEAP)
  {
    FourCellHeap(last);
    FourCellHeap(3);
    assert VIEW_HEAP[4 := 3] == VIEW_HEAP;
  }

  lemma {:induction false} FourCellHeap(last: int)
    ensures HeapOf([(1, 0), (2, 1), (3, 2), (4, last)]) == Some(VIEW_HEAP[4 := last])
  {
    var ps, h := [(1, 0), (2, 1), (3, 2), (4, last)], VIEW_HEAP[4 := last];
    HeapOfIff(ps, h);
    forall a | a in h ensures HasAddress(ps, a) {
      assert ps[a - 1].0 == a;
    }
  }

  /* ---------- Satisfiable families ---------- */

  /** ts are the values of the family's terms at its witness. */
  ghost predicate AtWitness(f: Family, n: nat, ts: seq<int>) {
    IsTermValues(f, n, Witness(f, n), ts)
  }

  lemma ViewPairs(base: nat, ts: seq<int>)
    requires base + 3 < |ts| && forall i :: base <= i < base + 4 ==> ts[i] == i - base + 1
    ensures Pairs(View(base, 3), false, ts) == VIEW_CELLS
  {}

  lemma SymbolicPairs(base: nat, ts: seq<int>)
    requires base + 7 < |ts|
    requires forall i :: base <= i < base + 8 ==> ts[i] == if i < base + 4 then i - base + 1 else i - base - 4
    ensures Pairs(SymbolicView(base), true, ts) == VIEW_CELLS
  {}

  predicate IsViews(f: Family) {
    f == Views || f == FreeViews || f == SymbolicViews || f == OffsetViews || f == UnassertedViews
  }

  lemma {:induction false} PlainViewPairs(f: Family, n: nat, ts: seq<int>, j: nat)
    requires n >= 2 && j < n && AtWitness(f, n, ts)
    requires f == Views || f == FreeViews || (f == UnassertedViews && j == 0)
    ensures |HeapsOfFamily(f, n)| == n && HeapsOfFamily(f, n)[j] == View(4 * j, 3)
    ensures CellsInRange(View(4 * j, 3), false, |ts|) && Pairs(View(4 * j, 3), false, ts) == VIEW_CELLS
  {
    forall i | 4 * j <= i < 4 * j + 4 ensures ts[i] == i - 4 * j + 1 {
      assert Witness(f, n)[i] == WitnessValue(f, i);
    }
    ViewPairs(4 * j, ts);
  }

  lemma {:induction false} SymbolicViewPairs(n: nat, ts: seq<int>, j: nat)
    requires n >= 2 && j < n && AtWitness(SymbolicViews, n, ts)
    ensures |HeapsOfFamily(SymbolicViews, n)| == n && HeapsOfFamily(SymbolicViews, n)[j] == SymbolicView(8 * j)
    ensures CellsInRange(SymbolicView(8 * j), true, |ts|) && Pairs(SymbolicView(8 * j), true, ts) == VIEW_CELLS
  {
    forall i | 8 * j <= i < 8 * j + 8 ensures ts[i] == if i < 8 * j + 4 then i - 8 * j + 1 else i - 8 * j - 4 {
      assert Witness(SymbolicViews, n)[i] == WitnessValue(SymbolicViews, i);
    }
    SymbolicPairs(8 * j, ts);
  }

  lemma {:induction false} OffsetViewPairs(n: nat, ts: seq<int>, j: nat)
    requires n >= 2 && j < n && AtWitness(OffsetViews, n, ts)
    ensures |HeapsOfFamily(OffsetViews, n)| == n && HeapsOfFamily(OffsetViews, n)[j] == View(n + 4 * j, 3)
    ensures CellsInRange(View(n + 4 * j, 3), false, |ts|) && Pairs(View(n + 4 * j, 3), false, ts) == VIEW_CELLS
  {
    forall i | n + 4 * j <= i < n + 4 * j + 4 ensures ts[i] == i - (n + 4 * j) + 1 {
      assert OffsetsOf(OffsetViews, n)[i - n] == (j, i - n - 4 * j);
      assert ts[n + (i - n)] == Witness(OffsetViews, n)[j] + (i - n - 4 * j);
    }
    ViewPairs(n + 4 * j, ts);
  }

  /** Heap predicate j holds of the four-cell heap. */
  lemma {:induction false} ViewHolds(f: Family, n: nat, ts: seq<int>, j: nat)
    requires n >= 2 && j < n && AtWitness(f, n, ts) && IsViews(f) && (f == UnassertedViews ==> j == 0)
    ensures j < |HeapsOfFamily(f, n)| && HeapHolds(f, n, ts, VIEW_HEAP, j)
  {
    ViewHeapOf(3);
    if f == SymbolicViews {
      SymbolicViewPairs(n, ts, j);
    } else if f == OffsetViews {
      OffsetViewPairs(n, ts, j);
    } else {
      PlainViewPairs(f, n, ts, j);
    }
  }

  /** Bounds and equalities hold of ts, and what is asserted is a view that holds. */
  ghost predicate ViewConstraintOk(f: Family, n: nat, ts: seq<int>, c: Constraint) {
    match c
    case Bound(t, lo, hi) => t < |ts| && lo <= ts[t] <= hi
    case Eq(s, t) => s < |ts| && t < |ts| && ts[s] == ts[t]
    case Assert(j, p) => p && j < n && (f == UnassertedViews ==> j == 0)
  }

  lemma {:induction false} PlainViewBounds(f: Family, n: nat, ts: seq<int>, k: nat)
    requires n >= 2 && AtWitness(f, n, ts) && k < |ConstraintsOfFamily(f, n)|
    requires f == Views || f == FreeViews || f == UnassertedViews
    ensures ViewConstraintOk(f, n, ts, ConstraintsOfFamily(f, n)[k])
  {
    var c := ConstraintsOfFamily(f, n)[k];
    assert c in ExactBounds(n) || c in Bounds(4, 4) || c in Asserts(n) || c in Asserts(1);
  }

  lemma {:induction false} SymbolicViewBounds(n: nat, ts: seq<int>, k: nat)
    requires n >= 2 && AtWitness(SymbolicViews, n, ts) && k < |ConstraintsOfFamily(SymbolicViews, n)|
    ensures ViewConstraintOk(SymbolicViews, n, ts, ConstraintsOfFamily(SymbolicViews, n)[k])
  {
    var c := ConstraintsOfFamily(SymbolicViews, n)[k];
    if k < 4 {
      assert c == Bounds(4, 4)[k];
    } else if k < 8 * n - 4 {
      assert c == SameViews(n)[k - 4] == Eq(k + 4, (k - 4) % 8);
      assert ts[k + 4] == WitnessValue(SymbolicViews, k + 4) == WitnessValue(SymbolicViews, (k - 4) % 8);
    } else {
      assert c == Asserts(n)[k - (8 * n - 4)];
    }
  }

  lemma {:induction false} OffsetViewBounds(n: nat, ts: seq<int>, k: nat)
    requires n >= 2 && AtWitness(OffsetViews, n, ts) && k < |ConstraintsOfFamily(OffsetViews, n)|
    ensures ViewConstraintOk(OffsetViews, n, ts, ConstraintsOfFamily(OffsetViews, n)[k])
  {
    var c := ConstraintsOfFamily(OffsetViews, n)[k];
    if k == 0 {
      assert c == Bound(0, 1, n);
    } else if k < n {
      assert c == AllEqualFirst(n)[k - 1];
    } else {
      assert c == Asserts(n)[k - n];
    }
  }

  lemma {:induction false} ViewsMeet(f: Family, n: nat, ts: seq<int>)
    requires n >= 2 && AtWitness(f, n, ts) && IsViews(f)
    requires ConstraintsOk(ConstraintsOfFamily(f, n), |ts|, |HeapsOfFamily(f, n)| + |Disjunctions(f, n)|)
    ensures MeetsAll(f, n, ts, VIEW_HEAP, ConstraintsOfFamily(f, n))
  {
    var cs := ConstraintsOfFamily(f, n);
    forall k | 0 <= k < |cs| ensures Meets(f, n, ts, VIEW_HEAP, cs[k]) {
      if f == SymbolicViews {
        SymbolicViewBounds(n, ts, k);
      } else if f == OffsetViews {
        OffsetViewBounds(n, ts, k);
      } else {
        PlainViewBounds(f, n, ts, k);
      }
      if cs[k].Assert? {
        ViewHolds(f, n, ts, cs[k].f);
      }
    }
  }

  /** The cells of the first heaplet. */
  ghost function FirstPairs(f: Family, n: nat, ts: seq<int>): seq<(int, int)>
    requires n >= 2 && |ts| == CountOf(f, n) + |OffsetsOf(f, n)|
  {
    FamilyHeapsOk(f, n);
    Pairs(HeapsOfFamily(f, n)[0], f.SymbolicViews?, ts)
  }

  /** The first heaplet's cells make a null-free heap. */
  ghost predicate FirstHeapExists(f: Family, n: nat, ts: seq<int>)
    requires n >= 2 && |ts| == CountOf(f, n) + |OffsetsOf(f, n)|
  {
    var r := HeapOf(FirstPairs(f, n, ts));
    r.Some? && 0 !in r.value
  }

  lemma {:induction false} SeparateGivesHeap(ps: seq<(int, int)>)
    requires Separate(ps)
    ensures HeapOf(ps).Some? && 0 !in HeapOf(ps).value
  {
    HeapOfSpells(ps);
  }

  lemma {:induction false} AllocateMeets(n: nat, ts: seq<int>)
    requires n >= 2 && AtWitness(Allocate, n, ts)
    requires ConstraintsOk(ConstraintsOfFamily(Allocate, n), |ts|, |HeapsOfFamily(Allocate, n)| + |Disjunctions(Allocate, n)|)
    ensures FirstHeapExists(Allocate, n, ts)
    ensures MeetsAll(Allocate, n, ts, HeapOf(FirstPairs(Allocate, n, ts)).value, ConstraintsOfFamily(Allocate, n))
  {
    var ps := FirstPairs(Allocate, n, ts);
    assert forall i :: 0 <= i < n ==> ps[i] == (i + 1, i);
    SeparateGivesHeap(ps);
    var heap := HeapOf(ps).value;
    var cs := ConstraintsOfFamily(Allocate, n);
    forall k | 0 <= k < |cs| ensures Meets(Allocate, n, ts, heap, cs[k]) {
      assert cs[k] in Bounds(n, n) || cs[k] == Assert(0, true);
    }
  }

  lemma {:induction false} NegativeMeets(n: nat, ts: seq<int>)
    requires n >= 2 && AtWitness(Negative, n, ts)
    requires ConstraintsOk(ConstraintsOfFamily(Negative, n), |ts|, |HeapsOfFamily(Negative, n)| + |Disjunctions(Negative, n)|)
    ensures MeetsAll(Negative, n, ts, ZERO_HEAP, ConstraintsOfFamily(Negative, n))
  {
    var cs := ConstraintsOfFamily(Negative, n);
    forall j | 0 <= j < n ensures Meets(Negative, n, ts, ZERO_HEAP, cs[j]) {
      FourCellsTooFew(n, ts, j);
    }
  }

  /** The zero heap has five cells, every heaplet four. */
  lemma {:induction false} FourCellsTooFew(n: nat, ts: seq<int>, j: nat)
    requires n >= 2 && |ts| == 4 * n && j < n
    ensures |HeapsOfFamily(Negative, n)| == n && !HeapHolds(Negative, n, ts, ZERO_HEAP, j)
  {
    FamilyHeapsOk(Negative, n);
    var ps := Pairs(HeapsOfFamily(Negative, n)[j], false, ts);
    if HeapOf(ps) == Some(ZERO_HEAP) {
      HeapOfSize(ps);
    }
  }

  /** The singleton 1 -> 0 satisfies the disjunction through its first member. */
  lemma {:induction false} BooleanSatMeets(n: nat, ts: seq<int>)
    requires n >= 2 && AtWitness(BooleanSat, n, ts)
    requires ConstraintsOk(ChecksOf(BooleanSat, n)[0], |ts|, |HeapsOfFamily(BooleanSat, n)| + |Disjunctions(BooleanSat, n)|)
    ensures FirstHeapExists(BooleanSat, n, ts)
    ensures MeetsAll(BooleanSat, n, ts, HeapOf(FirstPairs(BooleanSat, n, ts)).value, ChecksOf(BooleanSat, n)[0])
  {
    var ps := FirstPairs(BooleanSat, n, ts);
    assert ps == [(1, 0)];
    SeparateGivesHeap(ps);
    var heap := HeapOf(ps).value;
    assert HeapHolds(BooleanSat, n, ts, heap, 0);
    assert FormulaHolds(BooleanSat, n, ts, heap, n);
  }

  lemma {:induction false} BooleanAliasMeets(n: nat, ts: seq<int>)
    requires n >= 2 && AtWitness(BooleanAlias, n, ts)
    requires ConstraintsOk(ChecksOf(BooleanAlias, n)[0], |ts|, |HeapsOfFamily(BooleanAlias, n)| + |Disjunctions(BooleanAlias, n)|)
    ensures FirstHeapExists(BooleanAlias, n, ts)
    ensures MeetsAll(BooleanAlias, n, ts, HeapOf(FirstPairs(BooleanAlias, n, ts)).value, ChecksOf(BooleanAlias, n)[0])
  {
    var ps := FirstPairs(BooleanAlias, n, ts);
    assert ps == [(1, 7), (2, 9)];
    SeparateGivesHeap(ps);
    var heap := HeapOf(ps).value;
    assert HeapHolds(BooleanAlias, n, ts, heap, 0);
    assert FormulaHolds(BooleanAlias, n, ts, heap, n);
  }

  /* ---------- Nested scopes over reordered heaplets ---------- */

  lemma {:induction false} ScopeCheckAt(base: seq<Constraint>, n: nat, check: nat)
    requires check < 3 * n
    ensures ScopeChecks(base, n)[check] ==
            base + [Assert(check / 3, true)] + (if check % 3 == 1 then [Assert(check / 3, false)] else [])
  {
    if check < 3 * (n - 1) {
      ScopeCheckAt(base, n - 1, check);
    } else {
      assert check / 3 == n - 1;
      var inner := base + [Assert(n - 1, true)];
      assert inner + [] == inner;
    }
  }

  /** Address x + i stores i. */
  function BlockCells(x: int): (cells: seq<(int, int)>)
    ensures |cells| == 32
  {
    seq(32, i requires 0 <= i < 32 => (x + i, i))
  }

  lemma RotatedIndex(i: nat, j: nat)
    requires i < 32
    ensures (i + j) % 32 == if i + j % 32 < 32 then i + j % 32 else i + j % 32 - 32
  {}

  lemma {:induction false} RotatedPairs(j: nat, x: int, ts: seq<int>)
    requires |ts| == 33 && forall i :: 1 <= i <= 32 ==> ts[i] == x + i - 1
    ensures CellsInRange(Rotated(j), false, |ts|)
    ensures Pairs(Rotated(j), false, ts) == BlockCells(x)[j % 32..] + BlockCells(x)[..j % 32]
  {
    var qs, k := Pairs(Rotated(j), false, ts), j % 32;
    var rs := BlockCells(x)[k..] + BlockCells(x)[..k];
    forall i | 0 <= i < 32 ensures qs[i] == rs[i] {
      var r := (i + j) % 32;
      assert Rotated(j)[i] == (r + 1, r);
      assert qs[i] == (x + r, r);
      RotatedIndex(i, j);
      assert BlockCells(x)[r] == (x + r, r);
    }
  }

  /** The rotated lists spell the same cells. */
  lemma {:induction false} RotationsAgree(j: nat, x: int, ts: seq<int>)
    requires |ts| == 33 && forall i :: 1 <= i <= 32 ==> ts[i] == x + i - 1
    ensures CellsInRange(Rotated(j), false, |ts|)
    ensures HeapOf(Pairs(Rotated(j), false, ts)) == HeapOf(BlockCells(x))
  {
    RotatedPairs(j, x, ts);
    var a, b := BlockCells(x)[..j % 32], BlockCells(x)[j % 32..];
    assert BlockCells(x) == a + b;
    HeapOfOrderFree(b + a, BlockCells(x));
  }

  lemma {:induction false} CacheTerms(n: nat, ts: seq<int>)
    requires n >= 2 && AtWitness(CacheScopes, n, ts)
    ensures |ts| == 33 && forall i :: 1 <= i <= 32 ==> ts[i] == i
  {
    forall i | 1 <= i <= 32 ensures ts[i] == i {
      assert OffsetsOf(CacheScopes, n)[i - 1] == (0, i - 1);
      assert ts[1 + (i - 1)] == Witness(CacheScopes, n)[0] + (i - 1);
    }
  }

  lemma {:induction false} CacheHolds(n: nat, ts: seq<int>, j: nat)
    requires n >= 2 && j < n && AtWitness(CacheScopes, n, ts)
    ensures FirstHeapExists(CacheScopes, n, ts) && j < |HeapsOfFamily(CacheScopes, n)|
    ensures HeapHolds(CacheScopes, n, ts, HeapOf(FirstPairs(CacheScopes, n, ts)).value, j)
  {
    CacheTerms(n, ts);
    SeparateGivesHeap(BlockCells(1));
    RotationsAgree(0, 1, ts);
    RotationsAgree(j, 1, ts);
    assert HeapsOfFamily(CacheScopes, n)[0] == Rotated(0) && HeapsOfFamily(CacheScopes, n)[j] == Rotated(j);
  }

  lemma {:induction false} CacheMeets(n: nat, ts: seq<int>, check: nat)
    requires n >= 2 && AtWitness(CacheScopes, n, ts) && check < 3 * n && check % 3 != 1
    requires ConstraintsOk(ChecksOf(CacheScopes, n)[check], |ts|, |HeapsOfFamily(CacheScopes, n)| + |Disjunctions(CacheScopes, n)|)
    ensures FirstHeapExists(CacheScopes, n, ts)
    ensures MeetsAll(CacheScopes, n, ts, HeapOf(FirstPairs(CacheScopes, n, ts)).value, ChecksOf(CacheScopes, n)[check])
  {
    ScopeCheckAt(ConstraintsOfFamily(CacheScopes, n), n, check);
    CacheHolds(n, ts, 0);
    CacheHolds(n, ts, check / 3);
    assert ChecksOf(CacheScopes, n)[check] == [Bound(0, 1, n + 1), Assert(0, true), Assert(check / 3, true)];
  }

  /* ---------- Unsatisfiable families ---------- */

  lemma {:induction false} AliasFails(n: nat, xs: seq<int>, ts: seq<int>, heap: Heap)
    requires n >= 2 && IsTermValues(Alias, n, xs, ts)
    requires ConstraintsOk(ConstraintsOfFamily(Alias, n), |ts|, |HeapsOfFamily(Alias, n)| + |Disjunctions(Alias, n)|)
    ensures !MeetsAll(Alias, n, ts, heap, ConstraintsOfFamily(Alias, n))
  {
    var cs := ConstraintsOfFamily(Alias, n);
    if MeetsAll(Alias, n, ts, heap, cs) {
      assert Meets(Alias, n, ts, heap, cs[n]) && Meets(Alias, n, ts, heap, cs[n + 1]);
      var ps := FirstPairs(Alias, n, ts);
      assert ps[0].0 == ps[n - 1].0;
      HeapOfSpells(ps);
    }
  }

  lemma {:induction false} ValuesFail(n: nat, xs: seq<int>, ts: seq<int>, heap: Heap)
    requires n >= 2 && IsTermValues(Values, n, xs, ts)
    requires ConstraintsOk(ConstraintsOfFamily(Values, n), |ts|, |HeapsOfFamily(Values, n)| + |Disjunctions(Values, n)|)
    ensures !MeetsAll(Values, n, ts, heap, ConstraintsOfFamily(Values, n))
  {
    var cs := ConstraintsOfFamily(Values, n);
    if MeetsAll(Values, n, ts, heap, cs) {
      assert Meets(Values, n, ts, heap, cs[n]) && Meets(Values, n, ts, heap, cs[n + 1]);
      FamilyHeapsOk(Values, n);
      var ps, qs := FirstPairs(Values, n, ts), Pairs(HeapsOfFamily(Values, n)[1], false, ts);
      HeapOfSpells(ps);
      HeapOfSpells(qs);
    }
  }

  lemma {:induction false} ReversedMultiset(s: seq<(int, int)>)
    ensures multiset(Reversed(s)) == multiset(s)
  {
    if s != [] {
      ReversedMultiset(s[1..]);
      assert s == [s[0]] + s[1..];
      assert Reversed(s) == Reversed(s[1..]) + [s[0]];
    } else {
      assert Reversed(s) == [];
    }
  }

  lemma {:induction false} PermutationFails(n: nat, xs: seq<int>, ts: seq<int>, heap: Heap)
    requires n >= 2 && IsTermValues(Permutation, n, xs, ts)
    requires ConstraintsOk(ConstraintsOfFamily(Permutation, n), |ts|, |HeapsOfFamily(Permutation, n)| + |Disjunctions(Permutation, n)|)
    ensures !MeetsAll(Permutation, n, ts, heap, ConstraintsOfFamily(Permutation, n))
  {
    var cs := ConstraintsOfFamily(Permutation, n);
    if MeetsAll(Permutation, n, ts, heap, cs) {
      assert Meets(Permutation, n, ts, heap, cs[n]) && Meets(Permutation, n, ts, heap, cs[n + 1]);
      FamilyHeapsOk(Permutation, n);
      var ps, qs := FirstPairs(Permutation, n, ts), Pairs(HeapsOfFamily(Permutation, n)[1], false, ts);
      assert qs == Reversed(ps);
      ReversedMultiset(ps);
      HeapOfOrderFree(ps, qs);
    }
  }

  lemma {:induction false} ViewConflictFails(n: nat, xs: seq<int>, ts: seq<int>, heap: Heap)
    requires n >= 2 && IsTermValues(ViewConflict, n, xs, ts)
    requires ConstraintsOk(ConstraintsOfFamily(ViewConflict, n), |ts|, |HeapsOfFamily(ViewConflict, n)| + |Disjunctions(ViewConflict, n)|)
    ensures !MeetsAll(ViewConflict, n, ts, heap, ConstraintsOfFamily(ViewConflict, n))
  {
    var cs := ConstraintsOfFamily(ViewConflict, n);
    if MeetsAll(ViewConflict, n, ts, heap, cs) {
      var last := 4 * n - 1;
      assert cs[3] == Bound(3, 4, 4) && cs[last] == Bound(last, 4, 4);
      assert cs[4 * n] == Assert(0, true) && cs[5 * n - 1] == Assert(n - 1, true);
      assert ts[3] == 4 && ts[last] == 4;
      FamilyHeapsOk(ViewConflict, n);
      var ps, qs := FirstPairs(ViewConflict, n, ts), Pairs(HeapsOfFamily(ViewConflict, n)[n - 1], false, ts);
      assert ps[3] == (4, 3) && qs[3] == (4, 4);
      HeapOfSpells(ps);
      HeapOfSpells(qs);
    }
  }

  lemma {:induction false} BooleanUnsatFails(n: nat, xs: seq<int>, ts: seq<int>, heap: Heap)
    requires n >= 2 && IsTermValues(BooleanUnsat, n, xs, ts)
    requires ConstraintsOk(ChecksOf(BooleanUnsat, n)[0], |ts|, |HeapsOfFamily(BooleanUnsat, n)| + |Disjunctions(BooleanUnsat, n)|)
    ensures !MeetsAll(BooleanUnsat, n, ts, heap, ChecksOf(BooleanUnsat, n)[0])
  {
    var cs := ChecksOf(BooleanUnsat, n)[0];
    if MeetsAll(BooleanUnsat, n, ts, heap, cs) {
      assert Meets(BooleanUnsat, n, ts, heap, cs[1]) && Meets(BooleanUnsat, n, ts, heap, cs[2]);
      var i :| 0 <= i < n / 2 && HeapHolds(BooleanUnsat, n, ts, heap, i);
      var j :| n / 2 <= j < n && HeapHolds(BooleanUnsat, n, ts, heap, j);
      SingletonValue(n, ts, heap, i);
      SingletonValue(n, ts, heap, j);
    }
  }

  lemma {:induction false} SingletonValue(n: nat, ts: seq<int>, heap: Heap, j: nat)
    requires n >= 2 && |ts| == 1 && j < n && HeapHolds(BooleanUnsat, n, ts, heap, j)
    ensures ts[0] in heap && heap[ts[0]] == j
  {
    FamilyHeapsOk(BooleanUnsat, n);
    var ps := Pairs(HeapsOfFamily(BooleanUnsat, n)[j], false, ts);
    HeapOfSpells(ps);
    assert ps[0] == (ts[0], j);
  }

  lemma {:induction false} ClashFails(n: nat, ts: seq<int>, heap: Heap, check: nat)
    requires n >= 2 && |ts| == CountOf(CacheScopes, n) + |OffsetsOf(CacheScopes, n)| && check < 3 * n && check % 3 == 1
    requires ConstraintsOk(ChecksOf(CacheScopes, n)[check], |ts|, |HeapsOfFamily(CacheScopes, n)| + |Disjunctions(CacheScopes, n)|)
    ensures !MeetsAll(CacheScopes, n, ts, heap, ChecksOf(CacheScopes, n)[check])
  {
    ScopeCheckAt(ConstraintsOfFamily(CacheScopes, n), n, check);
    var cs := ChecksOf(CacheScopes, n)[check];
    assert cs[2] == Assert(check / 3, true) && cs[3] == Assert(check / 3, false);
  }

  /* ---------- Verdicts ---------- */

  predicate Refuted(f: Family) {
    f == Alias || f == Values || f == Permutation || f == ViewConflict || f == BooleanUnsat
  }

  /** The closed-form verdict on a check. */
  function Expected(f: Family, check: nat): Verdict {
    if Refuted(f) || (f == CacheScopes && check % 3 == 1) then Unsat else Sat
  }

  lemma {:induction false} RefutedFails(f: Family, n: nat, check: nat, xs: seq<int>, ts: seq<int>, heap: Heap)
    requires n >= 2 && check < |ChecksOf(f, n)| && Expected(f, check) == Unsat && IsTermValues(f, n, xs, ts)
    requires ConstraintsOk(ChecksOf(f, n)[check], |ts|, |HeapsOfFamily(f, n)| + |Disjunctions(f, n)|)
    ensures !MeetsAll(f, n, ts, heap, ChecksOf(f, n)[check])
  {
    match f
    case Alias => AliasFails(n, xs, ts, heap);
    case Values => ValuesFail(n, xs, ts, heap);
    case Permutation => PermutationFails(n, xs, ts, heap);
    case ViewConflict => ViewConflictFails(n, xs, ts, heap);
    case BooleanUnsat => BooleanUnsatFails(n, xs, ts, heap);
    case CacheScopes => ClashFails(n, ts, heap, check);
  }

  /** The heap the oracle offers, at the witness's term values. */
  ghost function OfferedHeap(f: Family, n: nat, ts: seq<int>): Option<Heap>
    requires n >= 2 && |ts| == CountOf(f, n) + |OffsetsOf(f, n)|
  {
    if f == Negative then Some(ZERO_HEAP)
    else if f == Views || f == UnassertedViews then Some(VIEW_HEAP)
    else HeapOf(FirstPairs(f, n, ts))
  }

  lemma {:induction false} OfferedViewsMeet(f: Family, n: nat, ts: seq<int>)
    requires n >= 2 && IsViews(f) && AtWitness(f, n, ts)
    requires ConstraintsOk(ConstraintsOfFamily(f, n), |ts|, |HeapsOfFamily(f, n)| + |Disjunctions(f, n)|)
    ensures OfferedHeap(f, n, ts).Some? && MeetsAll(f, n, ts, OfferedHeap(f, n, ts).value, ConstraintsOfFamily(f, n))
  {
    ViewsMeet(f, n, ts);
    ViewHolds(f, n, ts, 0);
    assert OfferedHeap(f, n, ts) == Some(VIEW_HEAP);
  }

  /** The families checked once, on unscoped constraints. */
  lemma {:induction false} PlainMeets(f: Family, n: nat, ts: seq<int>)
    requires n >= 2 && !HasTail(f) && !Refuted(f) && AtWitness(f, n, ts)
    requires ConstraintsOk(ConstraintsOfFamily(f, n), |ts|, |HeapsOfFamily(f, n)| + |Disjunctions(f, n)|)
    ensures OfferedHeap(f, n, ts).Some? && MeetsAll(f, n, ts, OfferedHeap(f, n, ts).value, ConstraintsOfFamily(f, n))
  {
    if f == Allocate {
      AllocateMeets(n, ts);
    } else if f == Negative {
      NegativeMeets(n, ts);
    } else {
      OfferedViewsMeet(f, n, ts);
    }
  }

  lemma {:induction false} ExpectedMeets(f: Family, n: nat, check: nat, ts: seq<int>)
    requires n >= 2 && check < |ChecksOf(f, n)| && Expected(f, check) == Sat && AtWitness(f, n, ts)
    requires ConstraintsOk(ChecksOf(f, n)[check], |ts|, |HeapsOfFamily(f, n)| + |Disjunctions(f, n)|)
    ensures OfferedHeap(f, n, ts).Some? && MeetsAll(f, n, ts, OfferedHeap(f, n, ts).value, ChecksOf(f, n)[check])
  {
    if !HasTail(f) {
      PlainMeets(f, n, ts);
    } else if f == CacheScopes {
      CacheMeets(n, ts, check);
    } else if f == BooleanSat {
      BooleanSatMeets(n, ts);
    } else {
      BooleanAliasMeets(n, ts);
    }
  }

  lemma {:induction false} FirstHeapOf(f: Family, n: nat, ts: seq<int>)
    requires n >= 2 && |ts| == CountOf(f, n) + |OffsetsOf(f, n)|
    ensures WellFormed(CaseOf(f, n)) && |CaseOf(f, n).heaps| > 0 && |CaseOf(f, n).terms| == |ts|
    ensures Concrete(CaseOf(f, n).heaps[0], ts) == HeapOf(FirstPairs(f, n, ts))
  {
    CasesWellFormed(f, n);
    FamilyHeapsOk(f, n);
    ResolvePairs(HeapsOfFamily(f, n)[0], f.SymbolicViews?, ts);
  }

  /** Every check the oracle calls satisfiable validates at its witness. */
  lemma {:induction false} WitnessValidates(f: Family, n: nat, check: nat)
    requires n >= 2 && check < |ChecksOf(f, n)| && Expected(f, check) == Sat
    ensures WellFormed(CaseOf(f, n)) && |CaseOf(f, n).terms| == CountOf(f, n) + |OffsetsOf(f, n)|
    ensures var r := OfferedHeap(f, n, TermValues(CaseOf(f, n).terms, Witness(f, n)));
      r.Some? && Validates(CaseOf(f, n), check, Witness(f, n), r.value)
  {
    CasesWellFormed(f, n);
    var xs := Witness(f, n);
    FamilyTermValues(f, n, xs);
    var ts := TermValues(CaseOf(f, n).terms, xs);
    ChecksOk(f, n, check);
    ExpectedMeets(f, n, check, ts);
    FamilyValidates(f, n, check, xs, OfferedHeap(f, n, ts).value);
  }

  /** For every family, every size and every check, the expected verdict is the truth. */
  lemma {:induction false} VerdictTrue(f: Family, n: nat, check: nat)
    requires n >= 2 && check < |ChecksOf(f, n)|
    ensures WellFormed(CaseOf(f, n))
    ensures Expected(f, check) == Sat <==> CheckSatisfiable(CaseOf(f, n), check)
  {
    CasesWellFormed(f, n);
    var c := CaseOf(f, n);
    if Expected(f, check) == Sat {
      WitnessValidates(f, n, check);
    } else if CheckSatisfiable(c, check) {
      var xs: seq<int>, heap: Heap :| |xs| == c.count && Validates(c, check, xs, heap);
      FamilyValidates(f, n, check, xs, heap);
      RefutedFails(f, n, check, xs, TermValues(c.terms, xs), heap);
    }
  }

  lemma {:induction false} ConflictPairs(n: nat, ts: seq<int>)
    requires n >= 2 && AtWitness(ViewConflict, n, ts)
    ensures |ts| == 4 * n && |HeapsOfFamily(ViewConflict, n)| == n
    ensures CellsInRange(HeapsOfFamily(ViewConflict, n)[0], false, |ts|) && CellsInRange(HeapsOfFamily(ViewConflict, n)[n - 1], false, |ts|)
    ensures Pairs(HeapsOfFamily(ViewConflict, n)[0], false, ts) == VIEW_CELLS
    ensures Pairs(HeapsOfFamily(ViewConflict, n)[n - 1], false, ts) == [(1, 0), (2, 1), (3, 2), (4, 4)]
  {
    FamilyHeapsOk(ViewConflict, n);
    var base := 4 * (n - 1);
    assert HeapsOfFamily(ViewConflict, n)[0] == View(0, 3) && HeapsOfFamily(ViewConflict, n)[n - 1] == View(base, 4);
    assert ts[0] == 1 && ts[1] == 2 && ts[2] == 3 && ts[3] == 4;
    assert ts[base] == 1 && ts[base + 1] == 2 && ts[base + 2] == 3 && ts[base + 3] == 4;
  }

  /** In the conflicting views the first and the last heaplet disagree at address 4. */
  lemma {:induction false} ConflictShown(n: nat, ts: seq<int>)
    requires n >= 2 && AtWitness(ViewConflict, n, ts)
    ensures WellFormed(CaseOf(ViewConflict, n)) && |CaseOf(ViewConflict, n).terms| == |ts|
    ensures |CaseOf(ViewConflict, n).heaps| == n
    ensures Concrete(CaseOf(ViewConflict, n).heaps[0], ts) == Some(VIEW_HEAP)
    ensures Concrete(CaseOf(ViewConflict, n).heaps[n - 1], ts) == Some(VIEW_HEAP[4 := 4])
  {
    CasesWellFormed(ViewConflict, n);
    ConflictPairs(n, ts);
    var heaps := HeapsOfFamily(ViewConflict, n);
    ResolvePairs(heaps[0], false, ts);
    ResolvePairs(heaps[n - 1], false, ts);
    ViewHeapOf(4);
  }

  /** The verdicts are the truth about every check of the case. */
  ghost predicate AllTrue(c: Case, verdicts: seq<Verdict>)
    requires WellFormed(c) && |verdicts| <= |c.checks|
  {
    forall k :: 0 <= k < |verdicts| ==> (verdicts[k] == Sat <==> CheckSatisfiable(c, k))
  }

  lemma {:induction false} OneCheck(f: Family, n: nat)
    requires n >= 2 && Refuted(f)
    ensures WellFormed(CaseOf(f, n)) && |CaseOf(f, n).checks| == 1 && AllTrue(CaseOf(f, n), [Unsat])
  {
    VerdictTrue(f, n, 0);
  }

  /** The assertions beside the refutation of conflicting views. */
  method CheckConflict(heaps: seq<Heaplet>, ts: seq<int>)
    requires |heaps| > 0 && HeapletOk(heaps[0], |ts|) && HeapletOk(heaps[|heaps| - 1], |ts|)
    requires Concrete(heaps[0], ts) == Some(VIEW_HEAP)
    requires Concrete(heaps[|heaps| - 1], ts) == Some(VIEW_HEAP[4 := 4])
  {
    var first := BuildConcrete(heaps[0], ts);
    var last := BuildConcrete(heaps[|heaps| - 1], ts);
    assert first == Some(VIEW_HEAP) && VIEW_HEAP[4] == 3;
    assert 4 in last.value && last.value[4] == 4;
  }

  /** The assertions beside a refutation. */
  method CheckRefutation(f: Family, n: nat, c: Case, ts: seq<int>)
    requires n >= 2 && c == CaseOf(f, n) && WellFormed(c) && AtWitness(f, n, ts)
  {
    if f == ViewConflict {
      ConflictShown(n, ts);
      CheckConflict(c.heaps, ts);
    } else if f == BooleanUnsat {
      CasesWellFormed(f, n);
      assert |c.heaps| == n && 0 < n / 2 < n;
    }
  }

  lemma {:induction false} ClashPresent(n: nat, check: nat)
    requires n >= 2 && check < 3 * n && check % 3 == 1
    ensures Assert(check / 3, true) in ChecksOf(CacheScopes, n)[check]
    ensures Assert(check / 3, false) in ChecksOf(CacheScopes, n)[check]
  {
    ScopeCheckAt(ConstraintsOfFamily(CacheScopes, n), n, check);
  }

  /** One round of the oracle's loop. */
  method JudgeCheck(f: Family, n: nat, c: Case, check: nat, heap: Option<Heap>) returns (v: Verdict)
    requires n >= 2 && c == CaseOf(f, n) && WellFormed(c) && !Refuted(f) && check < |ChecksOf(f, n)|
    requires |c.terms| == CountOf(f, n) + |OffsetsOf(f, n)|
    requires heap == OfferedHeap(f, n, TermValues(c.terms, Witness(f, n)))
    ensures v == Sat <==> CheckSatisfiable(c, check)
  {
    VerdictTrue(f, n, check);
    if f == CacheScopes && check % 3 == 1 {
      ClashPresent(n, check);
      assert Assert(check / 3, true) in c.checks[check] && Assert(check / 3, false) in c.checks[check];
      v := Unsat;
    } else {
      WitnessValidates(f, n, check);
      assert heap.Some?;
      var valid := Validate(c, check, Witness(f, n), heap.value);
      assert valid;
      v := Sat;
    }
  }

  /** The oracle's loop over the checks. */
  method JudgeChecks(f: Family, n: nat, c: Case, heap: Option<Heap>) returns (verdicts: seq<Verdict>)
    requires n >= 2 && c == CaseOf(f, n) && WellFormed(c) && !Refuted(f)
    requires |c.terms| == CountOf(f, n) + |OffsetsOf(f, n)|
    requires heap == OfferedHeap(f, n, TermValues(c.terms, Witness(f, n)))
    ensures |verdicts| == |c.checks| && AllTrue(c, verdicts)
  {
    verdicts := [];
    for check := 0 to |c.checks|
      invariant |verdicts| == check && AllTrue(c, verdicts)
    {
      var v := JudgeCheck(f, n, c, check, heap);
      verdicts := verdicts + [v];
    }
  }

  /** From a family's case to its verdicts. */
  method Judge(f: Family, n: nat, c: Case) returns (verdicts: seq<Verdict>)
    requires n >= 2 && c == CaseOf(f, n) && WellFormed(c)
    ensures |verdicts| == |c.checks| && AllTrue(c, verdicts)
  {
    FamilyTermValues(f, n, Witness(f, n));
    var ts := TermValues(c.terms, Witness(f, n));
    if Refuted(f) {
      CheckRefutation(f, n, c, ts);
      OneCheck(f, n);
      verdicts := [Unsat];
    } else {
      FirstHeapOf(f, n, ts);
      var heap := ChooseHeap(f, c, ts);
      verdicts := JudgeChecks(f, n, c, heap);
    }
  }

  /**
   * The oracle: it parses the generated program, and either cites a refutation or validates its
   * witness against each check. Its assertions cannot fail and its verdicts are the truth.
   */
  method Oracle(f: Family, n: nat) returns (verdicts: seq<Verdict>)
    requires n >= 2
    ensures Parsed(CountOf(f, n), Generate(f, n)).Some?
    ensures var c := Parsed(CountOf(f, n), Generate(f, n)).value;
      WellFormed(c) && |verdicts| == |c.checks| && AllTrue(c, verdicts)
  {
    ParsedIs(f, n);
    CasesWellFormed(f, n);
    var parsed := Parse(CountOf(f, n), Generate(f, n));
    verdicts := Judge(f, n, parsed.value);
  }

  method ChooseHeap(f: Family, c: Case, ts: seq<int>) returns (heap: Option<Heap>)
    requires WellFormed(c) && |c.heaps| > 0 && |ts| == |c.terms|
    ensures heap == if f == Negative then Some(ZERO_HEAP)
                    else if f == Views || f == UnassertedViews then Some(VIEW_HEAP)
                    else Concrete(c.heaps[0], ts)
  {
    if f == Negative {
      heap := Some(ZERO_HEAP);
    } else if f == Views || f == UnassertedViews {
      heap := Some(VIEW_HEAP);
    } else {
      heap := BuildConcrete(c.heaps[0], ts);
    }
  }
}
