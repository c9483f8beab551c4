/** The layered Boolean encoding of word acceptance. */
module FsmEncoding {
  import opened Fsm

  // Position layers R, and between them |Q| rounds of epsilon relaxation E, all as biconditionals.

  datatype Variable =
    | G(guard: Guard)
    | R(word: nat, pos: nat, state: nat)
    | E(word: nat, round: nat, pos: nat, state: nat)

  type Valuation = Variable -> bool

  datatype Formula =
    | True
    | False
    | Atom(v: Variable)
    | Not(f: Formula)
    | And(fs: seq<Formula>)
    | Or(fs: seq<Formula>)
    | Iff(left: Formula, right: Formula)

  predicate Eval(f: Formula, v: Valuation) {
    match f
    case True => true
    case False => false
    case Atom(x) => v(x)
    case Not(h) => !Eval(h, v)
    case And(fs) => forall k :: 0 <= k < |fs| ==> Eval(fs[k], v)
    case Or(fs) => exists k :: 0 <= k < |fs| && Eval(fs[k], v)
    case Iff(l, r) => Eval(l, v) == Eval(r, v)
  }

  predicate AllHold(lines: seq<Formula>, v: Valuation) {
    forall k :: 0 <= k < |lines| ==> Eval(lines[k], v)
  }

  lemma AllHoldConcat(xs: seq<Formula>, ys: seq<Formula>, v: Valuation)
    ensures AllHold(xs + ys, v) <==> AllHold(xs, v) && AllHold(ys, v)
  {
    if AllHold(xs + ys, v) {
      forall k | 0 <= k < |xs| ensures Eval(xs[k], v) { assert Eval((xs + ys)[k], v); }
      forall k | 0 <= k < |ys| ensures Eval(ys[k], v) { assert Eval((xs + ys)[|xs| + k], v); }
    }
  }

  function OrOf(xs: seq<Formula>): Formula {
    if xs == [] then False else if |xs| == 1 then xs[0] else Or(xs)
  }

  function AndOf(xs: seq<Formula>): Formula {
    if xs == [] then True else if |xs| == 1 then xs[0] else And(xs)
  }

  lemma OrOfMeaning(xs: seq<Formula>, v: Valuation)
    ensures Eval(OrOf(xs), v) <==> exists k :: 0 <= k < |xs| && Eval(xs[k], v)
  {
    if |xs| == 1 && Eval(xs[0], v) {
      assert Eval(xs[0], v);
    }
  }

  /* ---------- The two indexes ---------- */

  /** Sources and guards of the transitions into `dst` under `lbl`, in order. */
  function Into(ts: seq<Transition>, lbl: Label, dst: nat): seq<(nat, Guard)> {
    if ts == [] then []
    else
      var t := ts[|ts| - 1];
      Into(ts[..|ts| - 1], lbl, dst) + (if t.lbl == lbl && t.dst == dst then [(t.src, GuardName(t))] else [])
  }

  lemma {:induction false} IntoMeaning(ts: seq<Transition>, lbl: Label, dst: nat, src: nat, guard: Guard)
    ensures (src, guard) in Into(ts, lbl, dst)
       <==> exists k :: 0 <= k < |ts| && ts[k] == Transition(src, dst, lbl) && GuardName(ts[k]) == guard
  {
    if ts != [] {
      var before, t := ts[..|ts| - 1], ts[|ts| - 1];
      IntoMeaning(before, lbl, dst, src, guard);
      if (src, guard) in Into(ts, lbl, dst) && (src, guard) !in Into(before, lbl, dst) {
        assert ts[|ts| - 1] == Transition(src, dst, lbl);
      }
      if (src, guard) in Into(before, lbl, dst) {
        var k :| 0 <= k < |before| && before[k] == Transition(src, dst, lbl) && GuardName(before[k]) == guard;
        assert ts[k] == before[k];
      }
      if k :| 0 <= k < |ts| && ts[k] == Transition(src, dst, lbl) && GuardName(ts[k]) == guard {
        if k < |before| {
          assert before[k] == ts[k];
        }
      }
    }
  }

  type Index = map<(Label, nat), seq<(nat, Guard)>>

  function Lookup(index: Index, lbl: Label, dst: nat): seq<(nat, Guard)> {
    if (lbl, dst) in index then index[(lbl, dst)] else []
  }

  method BuildIndex(ts: seq<Transition>) returns (index: Index)
    ensures forall lbl, dst :: Lookup(index, lbl, dst) == Into(ts, lbl, dst)
  {
    index := map[];
    for k := 0 to |ts|
      invariant forall lbl, dst :: Lookup(index, lbl, dst) == Into(ts[..k], lbl, dst)
    {
      var t := ts[k];
      assert ts[..k + 1][..k] == ts[..k];
      index := index[(t.lbl, t.dst) := Lookup(index, t.lbl, t.dst) + [(t.src, GuardName(t))]];
    }
    assert ts[..|ts|] == ts;
  }

  /* ---------- The emitted lines ---------- */

  /** One conjunct per incoming transition: its source's variable and its guard. */
  function Terms(into: seq<(nat, Guard)>, wi: nat, round: nat, p: nat): seq<Formula> {
    seq(|into|, k requires 0 <= k < |into| => AndOf([Atom(E(wi, round, p, into[k].0)), Atom(G(into[k].1))]))
  }

  lemma TermsMeaning(a: Nfa, lbl: Label, dst: nat, wi: nat, round: nat, p: nat, v: Valuation)
    ensures (exists k :: 0 <= k < |Terms(Into(a.transitions, lbl, dst), wi, round, p)|
                         && Eval(Terms(Into(a.transitions, lbl, dst), wi, round, p)[k], v))
       <==> exists src: nat :: Edge(a, GuardsOf(v), src, lbl, dst) && v(E(wi, round, p, src))
  {
    var into := Into(a.transitions, lbl, dst);
    var terms := Terms(into, wi, round, p);
    forall k | 0 <= k < |into|
      ensures Eval(terms[k], v) <==> v(E(wi, round, p, into[k].0)) && v(G(into[k].1))
    {
      var parts := [Atom(E(wi, round, p, into[k].0)), Atom(G(into[k].1))];
      assert terms[k] == And(parts);
      assert Eval(parts[0], v) == v(E(wi, round, p, into[k].0)) && Eval(parts[1], v) == v(G(into[k].1));
    }
    if k :| 0 <= k < |terms| && Eval(terms[k], v) {
      IntoMeaning(a.transitions, lbl, dst, into[k].0, into[k].1);
      assert Edge(a, GuardsOf(v), into[k].0, lbl, dst);
    }
    if src: nat :| Edge(a, GuardsOf(v), src, lbl, dst) && v(E(wi, round, p, src)) {
      var guard := GuardName(Transition(src, dst, lbl));
      IntoMeaning(a.transitions, lbl, dst, src, guard);
      var k :| 0 <= k < |into| && into[k] == (src, guard);
      assert Eval(terms[k], v);
    }
  }

  function GuardsOf(v: Valuation): Guards {
    (guard: Guard) => v(G(guard))
  }

  function BaseLines(a: Nfa, wi: nat, q: nat): seq<Formula> {
    if q == 0 then [Atom(R(wi, 0, a.initial))]
    else BaseLines(a, wi, q - 1) + (if q - 1 != a.initial then [Not(Atom(R(wi, 0, q - 1)))] else [])
  }

  function ConsumeLine(a: Nfa, wi: nat, w: Word, p: nat, q: nat): Formula
    requires p < |w|
  {
    Iff(Atom(R(wi, p + 1, q)),
        OrOf(Terms(Into(a.transitions, Sym(w[p]), q), wi, a.states, p)))
  }

  /** The consuming lines of the positions before p, and of p the states before q. */
  function ConsumeLines(a: Nfa, wi: nat, w: Word, p: nat, q: nat): seq<Formula>
    requires p <= |w| && (q > 0 ==> p < |w|)
    decreases p, q
  {
    if q > 0 then ConsumeLines(a, wi, w, p, q - 1) + [ConsumeLine(a, wi, w, p, q - 1)]
    else if p > 0 then ConsumeLines(a, wi, w, p - 1, a.states)
    else []
  }

  function RoundLine(a: Nfa, wi: nat, p: nat, q: nat, i: nat): Formula {
    Iff(Atom(E(wi, i + 1, p, q)),
        OrOf([Atom(E(wi, i, p, q))] + Terms(Into(a.transitions, Eps, q), wi, i, p)))
  }

  function RoundLines(a: Nfa, wi: nat, p: nat, q: nat, i: nat): seq<Formula> {
    if i == 0 then [Iff(Atom(E(wi, 0, p, q)), Atom(R(wi, p, q)))]
    else RoundLines(a, wi, p, q, i - 1) + [RoundLine(a, wi, p, q, i - 1)]
  }

  function RelaxLines(a: Nfa, wi: nat, p: nat, q: nat): seq<Formula>
    decreases p, q
  {
    if q > 0 then RelaxLines(a, wi, p, q - 1) + RoundLines(a, wi, p, q - 1, a.states)
    else if p > 0 then RelaxLines(a, wi, p - 1, a.states)
    else []
  }

  function Final(a: Nfa, wi: nat, n: nat): Formula {
    OrOf(seq(|a.accepting|, k requires 0 <= k < |a.accepting| => Atom(E(wi, a.states, n, a.accepting[k]))))
  }

  /** The definitions for one word. */
  function DefinitionLines(a: Nfa, wi: nat, w: Word): seq<Formula> {
    BaseLines(a, wi, a.states) + ConsumeLines(a, wi, w, |w|, 0) + RelaxLines(a, wi, |w| + 1, 0)
  }

  function WordLines(a: Nfa, wi: nat, w: Word, positive: bool): seq<Formula> {
    DefinitionLines(a, wi, w) + [if positive then Final(a, wi, |w|) else Not(Final(a, wi, |w|))]
  }

  /** The assertions for the first `count` words, the positive words first. */
  function Lines(a: Nfa, words: seq<Word>, positives: nat, count: nat): seq<Formula>
    requires count <= |words|
  {
    if count == 0 then []
    else Lines(a, words, positives, count - 1) + WordLines(a, count - 1, words[count - 1], count - 1 < positives)
  }

  method EmitBase(a: Nfa, wi: nat, before: seq<Formula>) returns (lines: seq<Formula>)
    ensures lines == before + BaseLines(a, wi, a.states)
  {
    lines := before + [Atom(R(wi, 0, a.initial))];
    for q := 0 to a.states
      invariant lines == before + BaseLines(a, wi, q)
    {
      if q != a.initial {
        lines := lines + [Not(Atom(R(wi, 0, q)))];
      }
    }
  }

  method EmitConsume(a: Nfa, index: Index, wi: nat, w: Word, before: seq<Formula>) returns (lines: seq<Formula>)
    requires forall lbl, dst :: Lookup(index, lbl, dst) == Into(a.transitions, lbl, dst)
    ensures lines == before + ConsumeLines(a, wi, w, |w|, 0)
  {
    lines := before;
    for p := 0 to |w|
      invariant lines == before + ConsumeLines(a, wi, w, p, 0)
    {
      for q := 0 to a.states
        invariant lines == before + ConsumeLines(a, wi, w, p, q)
      {
        var terms := Terms(Lookup(index, Sym(w[p]), q), wi, a.states, p);
        var line := Iff(Atom(R(wi, p + 1, q)), OrOf(terms));
        assert line == ConsumeLine(a, wi, w, p, q);
        lines := lines + [line];
      }
    }
  }

  method EmitRounds(a: Nfa, index: Index, wi: nat, p: nat, q: nat, before: seq<Formula>) returns (lines: seq<Formula>)
    requires forall lbl, dst :: Lookup(index, lbl, dst) == Into(a.transitions, lbl, dst)
    ensures lines == before + RoundLines(a, wi, p, q, a.states)
  {
    lines := before + [Iff(Atom(E(wi, 0, p, q)), Atom(R(wi, p, q)))];
    for i := 0 to a.states
      invariant lines == before + RoundLines(a, wi, p, q, i)
    {
      var terms := Terms(Lookup(index, Eps, q), wi, i, p);
      lines := lines + [Iff(Atom(E(wi, i + 1, p, q)), OrOf([Atom(E(wi, i, p, q))] + terms))];
    }
  }

  method EmitRelax(a: Nfa, index: Index, wi: nat, n: nat, before: seq<Formula>) returns (lines: seq<Formula>)
    requires forall lbl, dst :: Lookup(index, lbl, dst) == Into(a.transitions, lbl, dst)
    ensures lines == before + RelaxLines(a, wi, n + 1, 0)
  {
    lines := before;
    for p := 0 to n + 1
      invariant lines == before + RelaxLines(a, wi, p, 0)
    {
      for q := 0 to a.states
        invariant lines == before + RelaxLines(a, wi, p, q)
      {
        lines := EmitRounds(a, index, wi, p, q, lines);
      }
    }
  }

  method EmitWord(a: Nfa, index: Index, wi: nat, w: Word, positive: bool, before: seq<Formula>)
    returns (lines: seq<Formula>)
    requires forall lbl, dst :: Lookup(index, lbl, dst) == Into(a.transitions, lbl, dst)
    ensures lines == before + WordLines(a, wi, w, positive)
  {
    lines := EmitBase(a, wi, before);
    lines := EmitConsume(a, index, wi, w, lines);
    lines := EmitRelax(a, index, wi, |w|, lines);
    var finals := Final(a, wi, |w|);
    lines := lines + [if positive then finals else Not(finals)];
    Regroup(before, BaseLines(a, wi, a.states), ConsumeLines(a, wi, w, |w|, 0), RelaxLines(a, wi, |w| + 1, 0),
            [if positive then finals else Not(finals)]);
  }

  lemma Regroup(a: seq<Formula>, b: seq<Formula>, c: seq<Formula>, d: seq<Formula>, e: seq<Formula>)
    ensures a + b + c + d + e == a + (b + c + d + e)
  {
  }

  /** The generator's nested loops emit exactly these lines. */
  method Emit(a: Nfa, pos: seq<Word>, neg: seq<Word>) returns (lines: seq<Formula>)
    requires a.Valid()
    ensures lines == Lines(a, pos + neg, |pos|, |pos + neg|)
  {
    var index := BuildIndex(a.transitions);
    var words := pos + neg;
    lines := [];
    for wi := 0 to |words|
      invariant lines == Lines(a, words, |pos|, wi)
    {
      lines := EmitWord(a, index, wi, words[wi], wi < |pos|, lines);
    }
  }
}
