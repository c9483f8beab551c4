/** Which goals convert, and what negating a disjunction does to its meaning. */
module GoalShapes {
  import opened Wrappers
  import opened Sexps
  import opened GoalCnf

  /* ---------- Which goals convert ---------- */

  /** The value of a constant negated any number of times; None for a negated atom. */
  function ConstantOf(node: Sexp): Option<bool>
    requires IsLiteral(node)
  {
    match node
    case Atom("true") => Some(true)
    case Atom("false") => Some(false)
    case Atom(_) => None
    case List(xs) => match ConstantOf(xs[1]) case None => None case Some(b) => Some(!b)
  }

  /** The atom under the negations, when it is no constant, is one the converter knows. */
  predicate AtomAllowed(node: Sexp)
    requires IsLiteral(node)
  {
    match node
    case Atom(name) => name == "true" || name == "false" || AtomOk(name)
    case List(xs) => AtomAllowed(xs[1])
  }

  predicate AllLiterals(xs: seq<Sexp>) {
    forall k :: 0 <= k < |xs| ==> IsLiteral(xs[k])
  }

  /** No constant true among the disjuncts before k. */
  predicate ReachedAt(xs: seq<Sexp>, k: nat)
    requires AllLiterals(xs) && k <= |xs|
  {
    forall j :: 0 <= j < k ==> ConstantOf(xs[j]) != Some(true)
  }

  /** Every disjunct up to the first that is constantly true has an allowed atom. */
  predicate DisjunctsAllowed(xs: seq<Sexp>)
    requires AllLiterals(xs)
  {
    forall k :: 0 <= k < |xs| && ReachedAt(xs, k) ==> AtomAllowed(xs[k])
  }

  /** A literal converts iff its atom is allowed, and to a number unless it is constant. */
  lemma {:induction false} LiteralConverts(node: Sexp, vm: VarMap)
    requires IsLiteral(node)
    ensures LitOf(node, vm).Some? <==> AtomAllowed(node)
    ensures LitOf(node, vm).Some? ==>
      match ConstantOf(node)
      case None => LitOf(node, vm).value.0.Number?
      case Some(b) => LitOf(node, vm).value.0 == if b then True else False
    decreases node
  {
    if node.List? {
      LiteralConverts(node.items[1], vm);
    }
  }

  lemma {:induction false} AllowedCons(xs: seq<Sexp>)
    requires AllLiterals(xs) && xs != []
    ensures AllLiterals(xs[1..])
    ensures DisjunctsAllowed(xs) <==>
            AtomAllowed(xs[0]) && (ConstantOf(xs[0]) != Some(true) ==> DisjunctsAllowed(xs[1..]))
  {
    var rest := xs[1..];
    if ConstantOf(xs[0]) != Some(true) {
      forall k | 0 <= k < |rest| ensures ReachedAt(rest, k) <==> ReachedAt(xs, k + 1) {
        if ReachedAt(xs, k + 1) {
          forall j | 0 <= j < k ensures ConstantOf(rest[j]) != Some(true) { assert rest[j] == xs[j + 1]; }
        }
        if ReachedAt(rest, k) {
          forall j | 0 <= j < k + 1 ensures ConstantOf(xs[j]) != Some(true) { assert j > 0 ==> xs[j] == rest[j - 1]; }
        }
      }
    }
    assert ReachedAt(xs, 0);
    if DisjunctsAllowed(xs) && ConstantOf(xs[0]) != Some(true) {
      forall k | 0 <= k < |rest| && ReachedAt(rest, k) ensures AtomAllowed(rest[k]) { assert ReachedAt(xs, k + 1) && rest[k] == xs[k + 1]; }
    }
    if AtomAllowed(xs[0]) && (ConstantOf(xs[0]) != Some(true) ==> DisjunctsAllowed(rest)) {
      forall k | 0 <= k < |xs| && ReachedAt(xs, k) ensures AtomAllowed(xs[k]) {
        if k > 0 { assert ConstantOf(xs[0]) != Some(true) && ReachedAt(rest, k - 1) && xs[k] == rest[k - 1]; }
      }
    }
  }

  /** Some disjunct is constantly true. */
  predicate SomeTrue(xs: seq<Sexp>)
    requires AllLiterals(xs)
  {
    exists k :: 0 <= k < |xs| && ConstantOf(xs[k]) == Some(true)
  }

  /** Every disjunct is constantly false. */
  predicate AllFalse(xs: seq<Sexp>)
    requires AllLiterals(xs)
  {
    forall k :: 0 <= k < |xs| ==> ConstantOf(xs[k]) == Some(false)
  }

  /** A disjunction converts iff its read disjuncts are allowed: to true, or to the literals that are no constants. */
  lemma {:induction false} DisjunctsConvert(xs: seq<Sexp>, vm: VarMap, lits: seq<LitValue>)
    requires AllLiterals(xs)
    ensures DisjunctsOf(xs, vm, lits).Some? <==> DisjunctsAllowed(xs)
    ensures DisjunctsOf(xs, vm, lits).Some? ==>
      var v := DisjunctsOf(xs, vm, lits).value.0;
      && (v == True <==> SomeTrue(xs))
      && (v == Items([]) <==> lits == [] && AllFalse(xs))
      && (v == True || v.Items?)
    decreases xs
  {
    if xs != [] {
      var rest := xs[1..];
      AllowedCons(xs);
      LiteralConverts(xs[0], vm);
      assert forall k :: 0 <= k < |rest| ==> rest[k] == xs[k + 1];
      if LitOf(xs[0], vm).Some? {
        var (v, vm') := LitOf(xs[0], vm).value;
        if v != True {
          DisjunctsConvert(rest, vm', if v == False then lits else lits + [v]);
          TruthsCons(xs);
        }
      }
    }
  }

  lemma {:induction false} TruthsCons(xs: seq<Sexp>)
    requires AllLiterals(xs) && xs != []
    ensures AllLiterals(xs[1..])
    ensures SomeTrue(xs) <==> ConstantOf(xs[0]) == Some(true) || SomeTrue(xs[1..])
    ensures AllFalse(xs) <==> ConstantOf(xs[0]) == Some(false) && AllFalse(xs[1..])
  {
    var rest := xs[1..];
    assert forall k :: 0 <= k < |rest| ==> rest[k] == xs[k + 1];
    if k :| 0 <= k < |rest| && ConstantOf(rest[k]) == Some(true) {
      assert xs[k + 1] == rest[k];
    }
    if k :| 0 <= k < |xs| && ConstantOf(xs[k]) == Some(true) {
      assert k > 0 ==> xs[k] == rest[k - 1];
    }
    if AllFalse(rest) && ConstantOf(xs[0]) == Some(false) {
      forall k | 0 <= k < |xs| ensures ConstantOf(xs[k]) == Some(false) { assert k > 0 ==> xs[k] == rest[k - 1]; }
    }
  }

  function Disjuncts(goal: Sexp): (xs: seq<Sexp>)
    requires IsClause(goal) && !IsLiteral(goal)
    ensures AllLiterals(xs)
  {
    goal.items[1..]
  }

  /** A clause-shaped goal the converter accepts. */
  predicate GoalAllowed(goal: Sexp)
    requires IsClause(goal)
  {
    if IsLiteral(goal) then AtomAllowed(goal) else DisjunctsAllowed(Disjuncts(goal))
  }

  lemma {:induction false} GoalConverts(goal: Sexp, vm: VarMap)
    requires IsClause(goal)
    ensures LitOf(goal, vm).Some? <==> GoalAllowed(goal)
  {
    if IsLiteral(goal) {
      LiteralConverts(goal, vm);
    } else {
      DisjunctsConvert(Disjuncts(goal), vm, []);
    }
  }

  /** Clause-shaped goals convert iff no atom that is read is a bad one. */
  lemma {:induction false} GoalsConvertIff(goals: seq<Sexp>, vm: VarMap)
    requires forall k :: 0 <= k < |goals| ==> IsClause(goals[k])
    ensures ClausesOf(goals, vm).Some? <==> forall k :: 0 <= k < |goals| ==> GoalAllowed(goals[k])
  {
    if goals != [] {
      GoalConverts(goals[0], vm);
      if LitOf(goals[0], vm).Some? {
        GoalsConvertIff(goals[1..], LitOf(goals[0], vm).value.1);
        if forall k :: 0 <= k < |goals[1..]| ==> GoalAllowed(goals[1..][k]) {
          forall k | 0 <= k < |goals| ensures GoalAllowed(goals[k]) { assert k > 0 ==> goals[k] == goals[1..][k - 1]; }
        }
        if forall k :: 0 <= k < |goals| ==> GoalAllowed(goals[k]) {
          forall k | 0 <= k < |goals[1..]| ensures GoalAllowed(goals[1..][k]) { assert goals[1..][k] == goals[k + 1]; }
        }
      }
    }
  }

  /* ---------- Negated disjunctions ---------- */

  /** The goal negated n times. */
  function Negations(n: nat, goal: Sexp): Sexp {
    if n == 0 then goal else List([Atom("not"), Negations(n - 1, goal)])
  }

  /** What the converter makes of a disjunction's value under n negations. */
  function NegatedTimes(n: nat, v: LitValue): LitValue {
    if n == 0 then v else Negated(NegatedTimes(n - 1, v))
  }

  lemma {:induction false} NegationsConvert(n: nat, goal: Sexp, vm: VarMap)
    ensures LitOf(Negations(n, goal), vm) ==
            match LitOf(goal, vm) case None => None case Some((v, vm')) => Some((NegatedTimes(n, v), vm'))
  {
    if n > 0 { NegationsConvert(n - 1, goal, vm); }
  }

  lemma {:induction false} NegationsTruth(n: nat, goal: Sexp, a: Naming)
    ensures Truth(Negations(n, goal), a) == (Truth(goal, a) == (n % 2 == 0))
  {
    if n > 0 { NegationsTruth(n - 1, goal, a); }
  }

  /** The constants alternate, and a list counts as false, whatever it holds. */
  lemma {:induction false} NegatedAlternates(n: nat, v: LitValue)
    requires n > 0 && (v == True || v.Items?)
    ensures NegatedTimes(n, v) == if (v == True) == (n % 2 == 0) then True else False
  {
    if n > 1 { NegatedAlternates(n - 1, v); }
  }

  /** All names and numbers alike, so that a literal of the given sign holds. */
  lemma {:induction false} Uniform(vm: VarMap, b: bool) returns (a: Naming, m: Numbering)
    ensures Agree(vm, a, m) && (forall name :: a(name) == b) && (forall n :: m(n) == b)
  {
    a, m := name => b, n => b;
  }

  /** A clause with a literal in it can be satisfied. */
  lemma {:induction false} ClauseSatisfiable(goal: Sexp, lits: seq<LitValue>, vm: VarMap) returns (a: Naming, m: Numbering)
    requires lits != [] && GoalMeans(goal, Some(lits), vm)
    ensures Agree(vm, a, m) && Truth(goal, a)
  {
    assert InRange(lits[0], |vm|);
    a, m := Uniform(vm, lits[0].n > 0);
    assert LitHolds(lits[0], m);
  }

  /**
   * A disjunction under one or more negations: what is emitted means the goal iff no literal
   * survives in the disjunction, that is, iff one disjunct is constantly true or all are
   * constantly false.
   */
  lemma {:induction false} NegatedClauseIff(n: nat, goal: Sexp, vm: VarMap)
    requires n > 0 && IsClause(goal) && !IsLiteral(goal) && Bijective(vm) && LitOf(goal, vm).Some?
    ensures LitOf(Negations(n, goal), vm).Some?
    ensures var (v, vm') := LitOf(Negations(n, goal), vm).value;
      GoalMeans(Negations(n, goal), ClauseFrom(v), vm') <==> SomeTrue(Disjuncts(goal)) || AllFalse(Disjuncts(goal))
  {
    var (v, vm') := LitOf(goal, vm).value;
    GoalCorrect(goal, vm);
    DisjunctsConvert(Disjuncts(goal), vm, []);
    NegationsConvert(n, goal, vm);
    NegatedAlternates(n, v);
    forall a: Naming ensures Truth(Negations(n, goal), a) == (Truth(goal, a) == (n % 2 == 0)) {
      NegationsTruth(n, goal, a);
    }
    if v.Items? && v.items != [] {
      var a, m := ClauseSatisfiable(goal, v.items, vm');
      assert Truth(Negations(n, goal), a) == (n % 2 == 0);
      assert !ClauseHolds([], m);
    } else if v.Items? {
      NeverTrue(goal, vm');
    }
  }

  lemma {:induction false} NeverTrue(goal: Sexp, vm: VarMap)
    requires Bijective(vm) && GoalMeans(goal, Some([]), vm)
    ensures forall a :: !Truth(goal, a)
  {
    forall a: Naming ensures !Truth(goal, a) {
      var m: Numbering := n => exists name :: name in vm && vm[name] == n && a(name);
      assert Agree(vm, a, m);
    }
  }

  /** For instance `(not (or p))`: it is dropped as if valid, and is false where p is true. */
  lemma {:induction false} NegatedDisjunctionLost()
    ensures var goal := List([Atom("not"), List([Atom("or"), Atom("p")])]);
      && LitOf(goal, map[]).Some? && ClauseFrom(LitOf(goal, map[]).value.0) == None
      && !GoalMeans(goal, None, LitOf(goal, map[]).value.1)
  {
    var inner := List([Atom("or"), Atom("p")]);
    assert Disjuncts(inner) == [Atom("p")];
    assert |"p"| != |"true"| && |"p"| != |"false"|;
    assert AtomOk("p");
    DisjunctsConvert(Disjuncts(inner), map[], []);
    NegatedClauseIff(1, inner, map[]);
    NegationsConvert(1, inner, map[]);
    NegatedAlternates(1, LitOf(inner, map[]).value.0);
    assert Negations(1, inner) == List([Atom("not"), Negations(0, inner)]);
  }
}
