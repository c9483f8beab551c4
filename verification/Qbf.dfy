/** Compilation of (quantified) clause problems to SMT formulas, and quantified truth as a game. */
module Qbf {
  import opened Dimacs

  type Valuation = nat -> bool

  datatype Formula =
    | True
    | False
    | Var(n: nat)
    | Not(f: Formula)
    | Or(fs: seq<Formula>)
    | And(fs: seq<Formula>)
    | Quant(quantifier: Quantifier, variables: seq<nat>, body: Formula)

  ghost predicate SameOutside(u: Valuation, v: Valuation, vars: seq<nat>) {
    forall n :: n !in vars ==> u(n) == v(n)
  }

  /** Truth in the solver's language; a binder ranges over all values of its variables at once. */
  ghost predicate Eval(f: Formula, v: Valuation)
    decreases f
  {
    match f
    case True => true
    case False => false
    case Var(n) => v(n)
    case Not(g) => !Eval(g, v)
    case Or(fs) => exists k :: 0 <= k < |fs| && Eval(fs[k], v)
    case And(fs) => forall k :: 0 <= k < |fs| ==> Eval(fs[k], v)
    case Quant(Universal, vars, body) => forall u: Valuation :: SameOutside(u, v, vars) ==> Eval(body, u)
    case Quant(Existential, vars, body) => exists u: Valuation :: SameOutside(u, v, vars) && Eval(body, u)
  }

  /* ---------- Compilation ---------- */

  function LiteralFormula(l: int): Formula {
    if l > 0 then Var(l) else Not(Var(-l))
  }

  function ClauseFormula(c: Clause): Formula {
    if c == [] then False
    else if |c| == 1 then LiteralFormula(c[0])
    else Or(seq(|c|, k requires 0 <= k < |c| => LiteralFormula(c[k])))
  }

  function Matrix(clauses: seq<Clause>): Formula {
    if clauses == [] then True
    else if |clauses| == 1 then ClauseFormula(clauses[0])
    else And(seq(|clauses|, k requires 0 <= k < |clauses| => ClauseFormula(clauses[k])))
  }

  /** The first block outermost. */
  function Wrap(blocks: seq<Block>, matrix: Formula): Formula {
    if blocks == [] then matrix
    else Quant(blocks[0].quantifier, blocks[0].variables, Wrap(blocks[1..], matrix))
  }

  /** The formula grows from the matrix outwards, the last block first. */
  method Compile(c: Cnf) returns (formula: Formula)
    ensures formula == Wrap(c.quantifiers, Matrix(c.clauses))
  {
    formula := Matrix(c.clauses);
    var k := |c.quantifiers|;
    assert c.quantifiers[k..] == [];
    while k > 0
      invariant 0 <= k <= |c.quantifiers|
      invariant formula == Wrap(c.quantifiers[k..], Matrix(c.clauses))
    {
      k := k - 1;
      var block := c.quantifiers[k];
      assert c.quantifiers[k..][1..] == c.quantifiers[k + 1..];
      formula := Quant(block.quantifier, block.variables, formula);
    }
    assert c.quantifiers[0..] == c.quantifiers;
  }

  /** The plain format's assertions, one a clause. */
  method CompilePlain(c: Cnf) returns (assertions: seq<Formula>)
    ensures |assertions| == |c.clauses|
    ensures forall v: Valuation :: (forall k :: 0 <= k < |assertions| ==> Eval(assertions[k], v)) <==> MatrixHolds(c.clauses, v)
  {
    assertions := [];
    for k := 0 to |c.clauses|
      invariant |assertions| == k
      invariant forall j :: 0 <= j < k ==> assertions[j] == ClauseFormula(c.clauses[j])
    {
      assertions := assertions + [ClauseFormula(c.clauses[k])];
    }
    forall v: Valuation, k | 0 <= k < |assertions|
      ensures Eval(assertions[k], v) <==> ClauseHolds(c.clauses[k], v)
    {
      ClauseMeaning(c.clauses[k], v);
    }
  }

  /* ---------- Reference semantics ---------- */

  predicate LiteralHolds(l: int, v: Valuation) {
    if l > 0 then v(l) else !v(-l)
  }

  predicate ClauseHolds(c: Clause, v: Valuation) {
    exists k :: 0 <= k < |c| && LiteralHolds(c[k], v)
  }

  predicate MatrixHolds(clauses: seq<Clause>, v: Valuation) {
    forall k :: 0 <= k < |clauses| ==> ClauseHolds(clauses[k], v)
  }

  function Set(v: Valuation, n: nat, b: bool): Valuation {
    (m: nat) => if m == n then b else v(m)
  }

  /** The prefix, variable by variable from the left. */
  function Prefix(blocks: seq<Block>): seq<(Quantifier, nat)> {
    if blocks == [] then [] else PrefixOf(blocks[0].quantifier, blocks[0].variables) + Prefix(blocks[1..])
  }

  function PrefixOf(q: Quantifier, vars: seq<nat>): seq<(Quantifier, nat)> {
    seq(|vars|, k requires 0 <= k < |vars| => (q, vars[k]))
  }

  /** A play for the existential side: its choices, and its answers to both universal moves. */
  datatype Strategy = Done | Choose(value: bool, next: Strategy) | Answer(onTrue: Strategy, onFalse: Strategy)

  predicate Wins(st: Strategy, prefix: seq<(Quantifier, nat)>, clauses: seq<Clause>, v: Valuation)
    decreases |prefix|
  {
    if prefix == [] then st.Done? && MatrixHolds(clauses, v)
    else
      var (q, n) := prefix[0];
      if q == Existential then st.Choose? && Wins(st.next, prefix[1..], clauses, Set(v, n, st.value))
      else st.Answer? && Wins(st.onTrue, prefix[1..], clauses, Set(v, n, true))
                      && Wins(st.onFalse, prefix[1..], clauses, Set(v, n, false))
  }

  ghost predicate Winnable(prefix: seq<(Quantifier, nat)>, clauses: seq<Clause>, v: Valuation) {
    exists st :: Wins(st, prefix, clauses, v)
  }

  /** A quantified problem is true if the free variables, outermost existential, leave a won game. */
  ghost predicate QbfTrue(c: Cnf) {
    exists v: Valuation :: Winnable(Prefix(c.quantifiers), c.clauses, v)
  }

  /* ---------- Meaning of the matrix ---------- */

  lemma LiteralMeaning(l: int, v: Valuation)
    ensures Eval(LiteralFormula(l), v) <==> LiteralHolds(l, v)
  {
  }

  lemma {:induction false} ClauseMeaning(c: Clause, v: Valuation)
    ensures Eval(ClauseFormula(c), v) <==> ClauseHolds(c, v)
  {
    forall k | 0 <= k < |c| ensures Eval(LiteralFormula(c[k]), v) <==> LiteralHolds(c[k], v) {
      LiteralMeaning(c[k], v);
    }
    if |c| == 1 {
      if LiteralHolds(c[0], v) {
        assert ClauseHolds(c, v);
      }
    } else if |c| > 1 {
      var fs := seq(|c|, k requires 0 <= k < |c| => LiteralFormula(c[k]));
      if k :| 0 <= k < |c| && LiteralHolds(c[k], v) {
        assert Eval(fs[k], v);
      }
    }
  }

  lemma {:induction false} MatrixMeaning(clauses: seq<Clause>, v: Valuation)
    ensures Eval(Matrix(clauses), v) <==> MatrixHolds(clauses, v)
  {
    forall k | 0 <= k < |clauses| ensures Eval(ClauseFormula(clauses[k]), v) <==> ClauseHolds(clauses[k], v) {
      ClauseMeaning(clauses[k], v);
    }
    if |clauses| > 1 {
      var fs := seq(|clauses|, k requires 0 <= k < |clauses| => ClauseFormula(clauses[k]));
      if Eval(Matrix(clauses), v) {
        forall k | 0 <= k < |clauses| ensures ClauseHolds(clauses[k], v) {
          assert Eval(fs[k], v);
        }
      }
    }
  }

  /* ---------- Valuations that agree everywhere are interchangeable ---------- */

  ghost predicate Same(u: Valuation, v: Valuation) {
    forall n :: u(n) == v(n)
  }

  lemma {:induction false} EvalSame(f: Formula, u: Valuation, v: Valuation)
    requires Same(u, v)
    ensures Eval(f, u) == Eval(f, v)
    decreases f
  {
    match f {
      case Not(g) => EvalSame(g, u, v);
      case Or(fs) =>
        forall k | 0 <= k < |fs| ensures Eval(fs[k], u) == Eval(fs[k], v) { EvalSame(fs[k], u, v); }
      case And(fs) =>
        forall k | 0 <= k < |fs| ensures Eval(fs[k], u) == Eval(fs[k], v) { EvalSame(fs[k], u, v); }
      case Quant(q, vars, body) =>
        assert forall w: Valuation :: SameOutside(w, u, vars) <==> SameOutside(w, v, vars);
      case _ =>
    }
  }

  /* ---------- One binder, variable by variable ---------- */

  lemma {:induction false} EmptyBinder(q: Quantifier, body: Formula, v: Valuation)
    ensures Eval(Quant(q, [], body), v) <==> Eval(body, v)
  {
    assert SameOutside(v, v, []);
    forall u: Valuation | SameOutside(u, v, []) ensures Eval(body, u) == Eval(body, v) {
      EvalSame(body, u, v);
    }
  }

  lemma {:induction false} SplitOutside(u: Valuation, v: Valuation, vars: seq<nat>, b: bool)
    requires vars != []
    ensures SameOutside(u, Set(v, vars[0], b), vars[1..]) ==> SameOutside(u, v, vars)
    ensures SameOutside(u, v, vars) && u(vars[0]) == b ==> SameOutside(u, Set(v, vars[0], b), vars[1..])
  {
    assert vars == [vars[0]] + vars[1..];
  }

  /** Binding a list is binding its first variable, then the rest. */
  lemma {:induction false} BinderUnfolds(q: Quantifier, vars: seq<nat>, body: Formula, v: Valuation)
    requires vars != []
    ensures var rest := Quant(q, vars[1..], body);
      var t, f := Eval(rest, Set(v, vars[0], true)), Eval(rest, Set(v, vars[0], false));
      Eval(Quant(q, vars, body), v) <==> if q == Universal then t && f else t || f
  {
    var vt, vf := Set(v, vars[0], true), Set(v, vars[0], false);
    forall u: Valuation
      ensures SameOutside(u, v, vars) <==> SameOutside(u, vt, vars[1..]) || SameOutside(u, vf, vars[1..])
    {
      SplitOutside(u, v, vars, true);
      SplitOutside(u, v, vars, false);
    }
  }

  /* ---------- Truth is a won game ---------- */

  /** The winnable positions after one move. */
  lemma {:induction false} WinnableUnfolds(prefix: seq<(Quantifier, nat)>, clauses: seq<Clause>, v: Valuation)
    requires prefix != []
    ensures var (q, n) := prefix[0];
      var t, f := Winnable(prefix[1..], clauses, Set(v, n, true)), Winnable(prefix[1..], clauses, Set(v, n, false));
      Winnable(prefix, clauses, v) <==> if q == Universal then t && f else t || f
  {
    var (q, n) := prefix[0];
    var rest := prefix[1..];
    if st :| Wins(st, prefix, clauses, v) {
      if q == Existential {
        assert Wins(st.next, rest, clauses, Set(v, n, st.value));
      } else {
        assert Wins(st.onTrue, rest, clauses, Set(v, n, true)) && Wins(st.onFalse, rest, clauses, Set(v, n, false));
      }
    }
    if Winnable(rest, clauses, Set(v, n, true)) {
      var st :| Wins(st, rest, clauses, Set(v, n, true));
      if q == Existential {
        assert Wins(Choose(true, st), prefix, clauses, v);
      } else if Winnable(rest, clauses, Set(v, n, false)) {
        var st' :| Wins(st', rest, clauses, Set(v, n, false));
        assert Wins(Answer(st, st'), prefix, clauses, v);
      }
    }
    if q == Existential && Winnable(rest, clauses, Set(v, n, false)) {
      var st :| Wins(st, rest, clauses, Set(v, n, false));
      assert Wins(Choose(false, st), prefix, clauses, v);
    }
  }

  /** A binder over `vars` before the remaining blocks. */
  lemma {:induction false} BinderIsGame(q: Quantifier, vars: seq<nat>, blocks: seq<Block>, clauses: seq<Clause>, v: Valuation)
    ensures Eval(Quant(q, vars, Wrap(blocks, Matrix(clauses))), v)
       <==> Winnable(PrefixOf(q, vars) + Prefix(blocks), clauses, v)
    decreases |blocks|, 1, |vars|
  {
    var body := Wrap(blocks, Matrix(clauses));
    if vars == [] {
      EmptyBinder(q, body, v);
      assert PrefixOf(q, []) + Prefix(blocks) == Prefix(blocks);
      WrapIsGame(blocks, clauses, v);
    } else {
      var prefix := PrefixOf(q, vars) + Prefix(blocks);
      BinderUnfolds(q, vars, body, v);
      WinnableUnfolds(prefix, clauses, v);
      assert prefix[1..] == PrefixOf(q, vars[1..]) + Prefix(blocks);
      BinderIsGame(q, vars[1..], blocks, clauses, Set(v, vars[0], true));
      BinderIsGame(q, vars[1..], blocks, clauses, Set(v, vars[0], false));
    }
  }

  lemma {:induction false} WrapIsGame(blocks: seq<Block>, clauses: seq<Clause>, v: Valuation)
    ensures Eval(Wrap(blocks, Matrix(clauses)), v) <==> Winnable(Prefix(blocks), clauses, v)
    decreases |blocks|, 0
  {
    if blocks == [] {
      MatrixMeaning(clauses, v);
      if MatrixHolds(clauses, v) {
        assert Wins(Done, [], clauses, v);
      }
    } else {
      BinderIsGame(blocks[0].quantifier, blocks[0].variables, blocks[1..], clauses, v);
    }
  }

  /** The compiled assertion is satisfiable iff the quantified problem is true. */
  lemma {:induction false} CompilationExact(c: Cnf)
    ensures (exists v: Valuation :: Eval(Wrap(c.quantifiers, Matrix(c.clauses)), v)) <==> QbfTrue(c)
  {
    var f := Wrap(c.quantifiers, Matrix(c.clauses));
    if v: Valuation :| Eval(f, v) {
      WrapIsGame(c.quantifiers, c.clauses, v);
      assert Winnable(Prefix(c.quantifiers), c.clauses, v);
    }
    if v: Valuation :| Winnable(Prefix(c.quantifiers), c.clauses, v) {
      WrapIsGame(c.quantifiers, c.clauses, v);
      assert Eval(f, v);
    }
  }
}
