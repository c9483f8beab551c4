/** From the solver's printed goals to DIMACS clauses, numbering atoms in order of appearance. */
module GoalCnf {
  import opened Wrappers
  import opened Sexps

  type VarMap = map<string, int>

  /** What the recursive literal conversion returns: a constant, a number, or a list. */
  datatype LitValue = True | False | Number(n: int) | Items(items: seq<LitValue>)

  predicate AtomChar(c: char) {
    'A' <= c <= 'Z' || 'a' <= c <= 'z' || '0' <= c <= '9' || c in "_!?.$@#~^&*+/<>=%-"
  }

  /** The printable characters but quotes, brackets, separators, the backslash and the bar. */
  lemma AtomCharExact(c: char)
    ensures AtomChar(c) <==> '!' <= c <= '~' && c !in "\"'`()[]{},:;\\|"
  {
  }

  /** The pattern is matched at the start of the atom only. */
  predicate AtomOk(name: string) {
    name != "" && AtomChar(name[0])
  }

  function Numbered(name: string, vm: VarMap): VarMap {
    if name in vm then vm else vm[name := |vm| + 1]
  }

  function Negated(v: LitValue): LitValue {
    match v
    case Number(n) => Number(-n)
    case True => False
    case _ => True
  }

  /** None is the conversion's ValueError. */
  function LitOf(node: Sexp, vm: VarMap): Option<(LitValue, VarMap)>
    decreases node
  {
    match node
    case Atom("true") => Some((True, vm))
    case Atom("false") => Some((False, vm))
    case Atom(name) =>
      if AtomOk(name) then Some((Number(Numbered(name, vm)[name]), Numbered(name, vm))) else None
    case List(xs) =>
      if |xs| == 2 && xs[0] == Atom("not") then
        match LitOf(xs[1], vm)
        case None => None
        case Some((v, vm')) => Some((Negated(v), vm'))
      else if xs != [] && xs[0] == Atom("or") then
        DisjunctsOf(xs[1..], vm, [])
      else None
  }

  /** The disjuncts' values in order; the first true one ends the conversion. */
  function DisjunctsOf(xs: seq<Sexp>, vm: VarMap, lits: seq<LitValue>): Option<(LitValue, VarMap)>
    decreases xs
  {
    if xs == [] then Some((Items(lits), vm))
    else match LitOf(xs[0], vm)
      case None => None
      case Some((True, vm')) => Some((True, vm'))
      case Some((False, vm')) => DisjunctsOf(xs[1..], vm', lits)
      case Some((v, vm')) => DisjunctsOf(xs[1..], vm', lits + [v])
  }

  /** The clause of one goal; None inside for a tautology, which is dropped. */
  function ClauseFrom(v: LitValue): Option<seq<LitValue>> {
    match v
    case True => None
    case False => Some([])
    case Number(n) => Some([v])
    case Items(xs) => Some(xs)
  }

  /** The converter: one numbering for all goals, extended in place. */
  class Converter {
    var varmap: VarMap

    constructor ()
      ensures varmap == map[]
    {
      varmap := map[];
    }

    method Lit(node: Sexp) returns (r: Option<LitValue>)
      modifies this
      ensures r.Some? <==> LitOf(node, old(varmap)).Some?
      ensures r.Some? ==> LitOf(node, old(varmap)) == Some((r.value, varmap))
      decreases node
    {
      match node {
        case Atom(name) =>
          if name == "true" {
            return Some(True);
          }
          if name == "false" {
            return Some(False);
          }
          if AtomOk(name) {
            if name !in varmap {
              varmap := varmap[name := |varmap| + 1];
            }
            return Some(Number(varmap[name]));
          }
          return None;
        case List(xs) =>
          if |xs| == 2 && xs[0] == Atom("not") {
            var v := Lit(xs[1]);
            return if v.Some? then Some(Negated(v.value)) else None;
          }
          if xs != [] && xs[0] == Atom("or") {
            var lits := [];
            ghost var start := varmap;
            for k := 1 to |xs|
              invariant DisjunctsOf(xs[1..], start, []) == DisjunctsOf(xs[k..], varmap, lits)
            {
              assert xs[k..][0] == xs[k] && xs[k..][1..] == xs[k + 1..];
              var v := Lit(xs[k]);
              if v.None? {
                return None;
              }
              if v.value == True {
                return Some(True);
              }
              if v.value != False {
                lits := lits + [v.value];
              }
            }
            return Some(Items(lits));
          }
          return None;
      }
    }

    method ClauseOf(goal: Sexp) returns (r: Option<Option<seq<LitValue>>>)
      modifies this
      ensures r.Some? <==> LitOf(goal, old(varmap)).Some?
      ensures r.Some? ==>
                LitOf(goal, old(varmap)).value.1 == varmap && r.value == ClauseFrom(LitOf(goal, old(varmap)).value.0)
    {
      var v := Lit(goal);
      r := if v.Some? then Some(ClauseFrom(v.value)) else None;
    }
  }

  /** All goals in turn, threading the numbering. */
  function ClausesOf(goals: seq<Sexp>, vm: VarMap): Option<(seq<seq<LitValue>>, VarMap)> {
    if goals == [] then Some(([], vm))
    else match LitOf(goals[0], vm)
      case None => None
      case Some((v, vm')) =>
        match ClausesOf(goals[1..], vm')
        case None => None
        case Some((cs, vm'')) =>
          Some((match ClauseFrom(v) case None => cs case Some(c) => [c] + cs, vm''))
  }

  function Prepend(first: seq<seq<LitValue>>, r: Option<(seq<seq<LitValue>>, VarMap)>): Option<(seq<seq<LitValue>>, VarMap)> {
    if r.None? then None else Some((first + r.value.0, r.value.1))
  }

  lemma PrependNone(r: Option<(seq<seq<LitValue>>, VarMap)>)
    ensures Prepend([], r) == r
  {
    if r.Some? {
      assert [] + r.value.0 == r.value.0;
    }
  }

  lemma PrependOne(first: seq<seq<LitValue>>, c: seq<LitValue>, r: Option<(seq<seq<LitValue>>, VarMap)>)
    ensures Prepend(first, Prepend([c], r)) == Prepend(first + [c], r)
  {
    if r.Some? {
      assert first + ([c] + r.value.0) == first + [c] + r.value.0;
    }
  }

  method Convert(goals: seq<Sexp>) returns (r: Option<(seq<seq<LitValue>>, VarMap)>)
    ensures r == ClausesOf(goals, map[])
  {
    var converter := new Converter();
    var clauses: seq<seq<LitValue>> := [];
    PrependNone(ClausesOf(goals, map[]));
    assert goals[0..] == goals;
    for k := 0 to |goals|
      invariant ClausesOf(goals, map[]) == Prepend(clauses, ClausesOf(goals[k..], converter.varmap))
    {
      assert goals[k..][0] == goals[k] && goals[k..][1..] == goals[k + 1..];
      ghost var before := clauses;
      var c := converter.ClauseOf(goals[k]);
      if c.None? {
        return None;
      }
      if c.value.Some? {
        clauses := clauses + [c.value.value];
      }
      if c.value.Some? {
        PrependOne(before, c.value.value, ClausesOf(goals[k + 1..], converter.varmap));
      }
    }
    assert clauses + [] == clauses;
    r := Some((clauses, converter.varmap));
  }

  /* ---------- Meaning ---------- */

  type Naming = string -> bool

  function Truth(node: Sexp, a: Naming): bool {
    match node
    case Atom("true") => true
    case Atom("false") => false
    case Atom(name) => a(name)
    case List(xs) =>
      if |xs| == 2 && xs[0] == Atom("not") then !Truth(xs[1], a)
      else if xs != [] && xs[0] == Atom("or") then exists k :: 1 <= k < |xs| && Truth(xs[k], a)
      else false
  }

  /** An atom or constant, negated any number of times. */
  predicate IsLiteral(node: Sexp) {
    match node
    case Atom(_) => true
    case List(xs) => |xs| == 2 && xs[0] == Atom("not") && IsLiteral(xs[1])
  }

  predicate IsClause(node: Sexp) {
    || IsLiteral(node)
    || (node.List? && node.items != [] && node.items[0] == Atom("or")
        && !(|node.items| == 2 && node.items[0] == Atom("not"))
        && forall k :: 1 <= k < |node.items| ==> IsLiteral(node.items[k]))
  }

  /** The numbering is a bijection onto 1..n. */
  ghost predicate Bijective(vm: VarMap) {
    && (forall a :: a in vm ==> 1 <= vm[a] <= |vm|)
    && (forall a, b :: a in vm && b in vm && vm[a] == vm[b] ==> a == b)
    && (forall n :: 1 <= n <= |vm| ==> n in vm.Values)
  }

  ghost predicate Extends(vm: VarMap, vm': VarMap) {
    forall a :: a in vm ==> a in vm' && vm'[a] == vm[a]
  }

  type Numbering = int -> bool

  ghost predicate Agree(vm: VarMap, a: Naming, b: Numbering) {
    forall n :: n in vm ==> b(vm[n]) == a(n)
  }

  predicate LitHolds(v: LitValue, b: Numbering) {
    v.Number? && if v.n > 0 then b(v.n) else !b(-v.n)
  }

  predicate ClauseHolds(c: seq<LitValue>, b: Numbering) {
    exists k :: 0 <= k < |c| && LitHolds(c[k], b)
  }

  /** A literal within the declared variables: a DIMACS token. */
  predicate InRange(v: LitValue, count: nat) {
    v.Number? && v.n != 0 && v.n <= count && -v.n <= count
  }

  lemma {:induction false} NumberedBijective(name: string, vm: VarMap)
    requires Bijective(vm)
    ensures Bijective(Numbered(name, vm)) && Extends(vm, Numbered(name, vm))
  {
    var vm' := Numbered(name, vm);
    if name !in vm {
      assert vm'.Keys == vm.Keys + {name};
      assert |vm'| == |vm'.Keys| == |vm| + 1 by { assert |vm.Keys| == |vm|; }
      forall n | 1 <= n <= |vm'| ensures n in vm'.Values {
        if n <= |vm| {
          assert n in vm.Values;
          var a :| a in vm && vm[a] == n;
          assert a in vm' && vm'[a] == n;
        } else {
          assert name in vm' && vm'[name] == n;
        }
      }
    }
  }

  /** A converted literal is a constant of the right value, or a number in range that means the literal. */
  ghost predicate LitMeans(node: Sexp, v: LitValue, vm: VarMap) {
    match v
    case True => forall a :: Truth(node, a)
    case False => forall a :: !Truth(node, a)
    case Number(n) => InRange(v, |vm|) && forall a, b :: Agree(vm, a, b) ==> (LitHolds(v, b) <==> Truth(node, a))
    case Items(_) => false
  }

  lemma {:induction false} LitCorrect(node: Sexp, vm: VarMap)
    requires IsLiteral(node) && Bijective(vm) && LitOf(node, vm).Some?
    ensures var (v, vm') := LitOf(node, vm).value;
      Bijective(vm') && Extends(vm, vm') && LitMeans(node, v, vm')
    decreases node
  {
    match node {
      case Atom(name) =>
        AtomCorrect(name, vm);
      case List(xs) =>
        LitCorrect(xs[1], vm);
        NegationCorrect(node, xs[1], LitOf(xs[1], vm).value.0, LitOf(xs[1], vm).value.1);
    }
  }

  lemma {:induction false} AtomCorrect(name: string, vm: VarMap)
    requires Bijective(vm) && LitOf(Atom(name), vm).Some?
    ensures var (v, vm') := LitOf(Atom(name), vm).value;
      Bijective(vm') && Extends(vm, vm') && LitMeans(Atom(name), v, vm')
  {
    if name != "true" && name != "false" {
      NumberedBijective(name, vm);
    }
  }

  lemma {:induction false} NegationCorrect(node: Sexp, inner: Sexp, v: LitValue, vm: VarMap)
    requires node == List([Atom("not"), inner]) && LitMeans(inner, v, vm)
    ensures LitMeans(node, Negated(v), vm)
  {
    assert forall a :: Truth(node, a) == !Truth(inner, a);
    if v.Number? {
      assert forall b: Numbering :: LitHolds(Negated(v), b) == !LitHolds(v, b);
    }
  }

  lemma GrowAgree(vm: VarMap, vm': VarMap, a: Naming, b: Numbering)
    requires Extends(vm, vm') && Agree(vm', a, b)
    ensures Agree(vm, a, b)
  {
  }

  lemma {:induction false} ExtendsSize(vm: VarMap, vm': VarMap)
    requires Extends(vm, vm')
    ensures |vm| <= |vm'|
  {
    assert vm.Keys <= vm'.Keys;
    assert vm'.Keys == vm.Keys + (vm'.Keys - vm.Keys);
  }

  predicate AnyTrue(xs: seq<Sexp>, a: Naming) {
    exists k :: 0 <= k < |xs| && Truth(xs[k], a)
  }

  /** The value of a disjunction given the literals already collected. */
  ghost predicate DisjunctsMean(xs: seq<Sexp>, lits: seq<LitValue>, v: LitValue, vm: VarMap) {
    match v
    case True => forall a :: AnyTrue(xs, a)
    case Items(cs) =>
      && (forall k :: 0 <= k < |cs| ==> InRange(cs[k], |vm|))
      && (forall a, b :: Agree(vm, a, b) ==>
            (ClauseHolds(cs, b) <==> ClauseHolds(lits, b) || AnyTrue(xs, a)))
    case _ => false
  }

  lemma {:induction false} DisjunctsCorrect(xs: seq<Sexp>, vm: VarMap, lits: seq<LitValue>)
    requires Bijective(vm) && (forall k :: 0 <= k < |xs| ==> IsLiteral(xs[k]))
    requires forall k :: 0 <= k < |lits| ==> InRange(lits[k], |vm|)
    requires DisjunctsOf(xs, vm, lits).Some?
    ensures var (v, vm') := DisjunctsOf(xs, vm, lits).value;
      Bijective(vm') && Extends(vm, vm') && DisjunctsMean(xs, lits, v, vm')
    decreases xs
  {
    if xs != [] {
      LitCorrect(xs[0], vm);
      var (v0, vm0) := LitOf(xs[0], vm).value;
      ExtendsSize(vm, vm0);
      if v0 != True {
        var lits' := if v0 == False then lits else lits + [v0];
        DisjunctsCorrect(xs[1..], vm0, lits');
        var (v, vm') := DisjunctsOf(xs[1..], vm0, lits').value;
        assert Extends(vm, vm');
        forall a: Naming
          ensures AnyTrue(xs, a)
             <==> Truth(xs[0], a) || AnyTrue(xs[1..], a)
        {
          ExistsCons(xs, a);
        }
        forall a: Naming, b: Numbering | Agree(vm', a, b)
          ensures ClauseHolds(lits', b) <==> ClauseHolds(lits, b) || Truth(xs[0], a)
        {
          GrowAgree(vm0, vm', a, b);
          if v0 != False {
            ClauseSnoc(lits, v0, b);
          }
        }
      }
    }
  }

  lemma {:induction false} ExistsCons(xs: seq<Sexp>, a: Naming)
    requires xs != []
    ensures AnyTrue(xs, a)
       <==> Truth(xs[0], a) || AnyTrue(xs[1..], a)
  {
    if k :| 0 <= k < |xs| && Truth(xs[k], a) {
      assert k > 0 ==> xs[1..][k - 1] == xs[k];
    }
    if k :| 0 <= k < |xs[1..]| && Truth(xs[1..][k], a) {
      assert xs[k + 1] == xs[1..][k];
    }
  }

  lemma {:induction false} ClauseSnoc(lits: seq<LitValue>, v: LitValue, b: Numbering)
    ensures ClauseHolds(lits + [v], b) <==> ClauseHolds(lits, b) || LitHolds(v, b)
  {
    var all := lits + [v];
    if k :| 0 <= k < |lits| && LitHolds(lits[k], b) {
      assert all[k] == lits[k];
    }
    if LitHolds(v, b) {
      assert all[|lits|] == v;
    }
  }

  /** A converted goal: dropped only if valid, otherwise a clause in range with the goal's meaning. */
  ghost predicate GoalMeans(goal: Sexp, c: Option<seq<LitValue>>, vm: VarMap) {
    match c
    case None => forall a :: Truth(goal, a)
    case Some(lits) =>
      && (forall k :: 0 <= k < |lits| ==> InRange(lits[k], |vm|))
      && forall a, b :: Agree(vm, a, b) ==> (ClauseHolds(lits, b) <==> Truth(goal, a))
  }

  lemma {:induction false} GoalCorrect(goal: Sexp, vm: VarMap)
    requires IsClause(goal) && Bijective(vm) && LitOf(goal, vm).Some?
    ensures var (v, vm') := LitOf(goal, vm).value;
      Bijective(vm') && Extends(vm, vm') && GoalMeans(goal, ClauseFrom(v), vm')
  {
    var (v, vm') := LitOf(goal, vm).value;
    if IsLiteral(goal) {
      LitCorrect(goal, vm);
      if v.Number? {
        forall b: Numbering ensures ClauseHolds([v], b) <==> LitHolds(v, b) {
          assert [v][0] == v;
        }
      }
    } else {
      var xs := goal.items;
      forall k | 0 <= k < |xs[1..]| ensures IsLiteral(xs[1..][k]) { assert xs[1..][k] == xs[k + 1]; }
      DisjunctsCorrect(xs[1..], vm, []);
      forall a: Naming
        ensures Truth(goal, a) <==> AnyTrue(xs[1..], a)
      {
        if k :| 1 <= k < |xs| && Truth(xs[k], a) {
          assert xs[1..][k - 1] == xs[k];
        }
        if k :| 0 <= k < |xs[1..]| && Truth(xs[1..][k], a) {
          assert xs[k + 1] == xs[1..][k];
        }
      }
    }
  }

  predicate AllTrue(goals: seq<Sexp>, a: Naming) {
    forall k :: 0 <= k < |goals| ==> Truth(goals[k], a)
  }

  predicate AllHold(clauses: seq<seq<LitValue>>, b: Numbering) {
    forall k :: 0 <= k < |clauses| ==> ClauseHolds(clauses[k], b)
  }

  ghost predicate DimacsIn(clauses: seq<seq<LitValue>>, count: nat) {
    forall k, j :: 0 <= k < |clauses| && 0 <= j < |clauses[k]| ==> InRange(clauses[k][j], count)
  }

  ghost predicate ConversionMeans(goals: seq<Sexp>, clauses: seq<seq<LitValue>>, vm: VarMap) {
    && DimacsIn(clauses, |vm|)
    && forall a, b :: Agree(vm, a, b) ==> (AllTrue(goals, a) <==> AllHold(clauses, b))
  }

  /** All clause-shaped goals together mean all clauses together, under the final bijective numbering. */
  lemma {:induction false} ConversionCorrect(goals: seq<Sexp>, vm: VarMap)
    requires Bijective(vm) && (forall k :: 0 <= k < |goals| ==> IsClause(goals[k]))
    requires ClausesOf(goals, vm).Some?
    ensures var (clauses, vm') := ClausesOf(goals, vm).value;
      Bijective(vm') && Extends(vm, vm') && ConversionMeans(goals, clauses, vm')
  {
    if goals != [] {
      GoalCorrect(goals[0], vm);
      var (v, vm0) := LitOf(goals[0], vm).value;
      ConversionCorrect(goals[1..], vm0);
      var (rest, vm') := ClausesOf(goals[1..], vm0).value;
      ConsMeans(goals, ClauseFrom(v), rest, vm0, vm');
    }
  }

  lemma {:induction false} ConsMeans(goals: seq<Sexp>, c: Option<seq<LitValue>>, rest: seq<seq<LitValue>>, vm0: VarMap, vm': VarMap)
    requires goals != [] && Extends(vm0, vm')
    requires GoalMeans(goals[0], c, vm0) && ConversionMeans(goals[1..], rest, vm')
    ensures ConversionMeans(goals, match c case None => rest case Some(x) => [x] + rest, vm')
  {
    var clauses := match c case None => rest case Some(x) => [x] + rest;
    ExtendsSize(vm0, vm');
    if c.Some? {
      forall k, j | 0 <= k < |clauses| && 0 <= j < |clauses[k]| ensures InRange(clauses[k][j], |vm'|) {
        if k > 0 {
          assert clauses[k] == rest[k - 1];
        }
      }
    }
    forall a: Naming, b: Numbering | Agree(vm', a, b)
      ensures AllTrue(goals, a) <==> AllHold(clauses, b)
    {
      GrowAgree(vm0, vm', a, b);
      AllTrueCons(goals, a);
      if c.Some? {
        AllHoldCons(c.value, rest, b);
      }
    }
  }

  lemma {:induction false} AllTrueCons(goals: seq<Sexp>, a: Naming)
    requires goals != []
    ensures AllTrue(goals, a) <==> Truth(goals[0], a) && AllTrue(goals[1..], a)
  {
    if AllTrue(goals[1..], a) && Truth(goals[0], a) {
      forall k | 0 <= k < |goals| ensures Truth(goals[k], a) {
        assert k > 0 ==> goals[k] == goals[1..][k - 1];
      }
    }
  }

  lemma {:induction false} AllHoldCons(c: seq<LitValue>, rest: seq<seq<LitValue>>, b: Numbering)
    ensures AllHold([c] + rest, b) <==> ClauseHolds(c, b) && AllHold(rest, b)
  {
    var all := [c] + rest;
    if AllHold(all, b) {
      assert ClauseHolds(all[0], b);
      forall k | 0 <= k < |rest| ensures ClauseHolds(rest[k], b) {
        assert rest[k] == all[k + 1];
      }
    }
  }

  /** The emitted CNF is satisfiable iff the goals are; its literals are within the declared count. */
  lemma {:induction false} Equisatisfiable(goals: seq<Sexp>)
    requires forall k :: 0 <= k < |goals| ==> IsClause(goals[k])
    requires ClausesOf(goals, map[]).Some?
    ensures var (clauses, vm) := ClausesOf(goals, map[]).value;
      && Bijective(vm) && DimacsIn(clauses, |vm|)
      && ((exists a: Naming :: AllTrue(goals, a)) <==> exists b: Numbering :: AllHold(clauses, b))
  {
    ConversionCorrect(goals, map[]);
    var (clauses, vm) := ClausesOf(goals, map[]).value;
    if a: Naming :| AllTrue(goals, a) {
      var b: Numbering := n => exists name :: name in vm && vm[name] == n && a(name);
      assert Agree(vm, a, b);
      assert AllHold(clauses, b);
    }
    if b: Numbering :| AllHold(clauses, b) {
      var a: Naming := name => name in vm && b(vm[name]);
      assert Agree(vm, a, b);
      assert AllTrue(goals, a);
    }
  }

  /* ---------- Picking the assertions out of the printed answer ---------- */

  predicate IsKeyword(s: Sexp) {
    s.Atom? && s.name != "" && s.name[0] == ':'
  }

  function UpToKeyword(xs: seq<Sexp>): seq<Sexp> {
    if xs == [] || IsKeyword(xs[0]) then [] else [xs[0]] + UpToKeyword(xs[1..])
  }

  function GoalsIn(node: Sexp): seq<Sexp>
    decreases node
  {
    match node
    case Atom(_) => []
    case List(xs) => if xs != [] && xs[0] == Atom("goal") then UpToKeyword(xs[1..]) else GoalsInAll(xs)
  }

  function GoalsInAll(xs: seq<Sexp>): seq<Sexp>
    decreases xs
  {
    if xs == [] then [] else GoalsIn(xs[0]) + GoalsInAll(xs[1..])
  }

  method CollectGoals(node: Sexp, before: seq<Sexp>) returns (out: seq<Sexp>)
    ensures out == before + GoalsIn(node)
    decreases node
  {
    out := before;
    if node.List? {
      var xs := node.items;
      if xs != [] && xs[0] == Atom("goal") {
        var k := 1;
        while k < |xs| && !IsKeyword(xs[k])
          invariant 1 <= k <= |xs|
          invariant before + UpToKeyword(xs[1..]) == out + UpToKeyword(xs[k..])
        {
          assert xs[k..][0] == xs[k] && xs[k..][1..] == xs[k + 1..];
          assert out + ([xs[k]] + UpToKeyword(xs[k + 1..])) == out + [xs[k]] + UpToKeyword(xs[k + 1..]);
          out := out + [xs[k]];
          k := k + 1;
        }
        assert k < |xs| ==> xs[k..][0] == xs[k];
      } else {
        for k := 0 to |xs|
          invariant before + GoalsInAll(xs) == out + GoalsInAll(xs[k..])
        {
          assert xs[k..][0] == xs[k] && xs[k..][1..] == xs[k + 1..];
          assert out + (GoalsIn(xs[k]) + GoalsInAll(xs[k + 1..])) == out + GoalsIn(xs[k]) + GoalsInAll(xs[k + 1..]);
          out := CollectGoals(xs[k], out);
        }
      }
    }
  }

  /** A goal as printed: its assertions, then attributes starting at a keyword. */
  datatype Goal = Goal(assertions: seq<Sexp>, attributes: seq<Sexp>)

  predicate Printable(g: Goal) {
    && (forall k :: 0 <= k < |g.assertions| ==> !IsKeyword(g.assertions[k]))
    && (g.attributes != [] ==> IsKeyword(g.attributes[0]))
  }

  function Printed(goals: seq<Goal>): (xs: seq<Sexp>)
    ensures |xs| == |goals|
  {
    seq(|goals|, k requires 0 <= k < |goals| => List([Atom("goal")] + goals[k].assertions + goals[k].attributes))
  }

  function AssertionsOf(goals: seq<Goal>): seq<Sexp> {
    if goals == [] then [] else goals[0].assertions + AssertionsOf(goals[1..])
  }

  lemma {:induction false} EachGoal(goals: seq<Goal>)
    requires forall k :: 0 <= k < |goals| ==> Printable(goals[k])
    ensures GoalsInAll(Printed(goals)) == AssertionsOf(goals)
  {
    if goals != [] {
      var g, goal := goals[0], Printed(goals)[0];
      assert goal.items[1..] == g.assertions + g.attributes;
      KeywordEnds(g.assertions, g.attributes);
      assert Printed(goals)[1..] == Printed(goals[1..]);
      EachGoal(goals[1..]);
    }
  }

  /** A printed list of goals yields exactly their assertions, goal after goal, and no attribute. */
  lemma {:induction false} GoalsYieldAssertions(goals: seq<Goal>)
    requires forall k :: 0 <= k < |goals| ==> Printable(goals[k])
    ensures GoalsIn(List([Atom("goals")] + Printed(goals))) == AssertionsOf(goals)
  {
    var all := [Atom("goals")] + Printed(goals);
    assert all[1..] == Printed(goals);
    EachGoal(goals);
    assert GoalsInAll(all) == GoalsIn(Atom("goals")) + GoalsInAll(all[1..]);
  }

  lemma {:induction false} KeywordEnds(assertions: seq<Sexp>, attributes: seq<Sexp>)
    requires forall k :: 0 <= k < |assertions| ==> !IsKeyword(assertions[k])
    requires attributes != [] ==> IsKeyword(attributes[0])
    ensures UpToKeyword(assertions + attributes) == assertions
  {
    if assertions == [] {
      assert assertions + attributes == attributes;
    } else {
      assert (assertions + attributes)[1..] == assertions[1..] + attributes;
      KeywordEnds(assertions[1..], attributes);
    }
  }
}
