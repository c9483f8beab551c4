/** The encoding is exact: its only model over the layer variables is the automaton's reachability. */
module FsmExact {
  import opened Fsm
  import opened FsmEncoding

  /* ---------- The layers as sets of states ---------- */

  function States(n: nat): (r: set<nat>)
    ensures forall q :: q in r <==> 0 <= q < n
    ensures |r| == n
  {
    if n == 0 then {} else States(n - 1) + {n - 1}
  }

  ghost predicate HasSource(a: Nfa, g: Guards, from: set<nat>, lbl: Label, q: nat) {
    exists src: nat :: src in from && Edge(a, g, src, lbl, q)
  }

  ghost function Step(a: Nfa, g: Guards, from: set<nat>, lbl: Label): set<nat> {
    set q | q in States(a.states) && HasSource(a, g, from, lbl, q)
  }

  type Stepper = (set<nat>, Label) -> set<nat>

  /** i rounds of relaxation: each adds what an epsilon step finds from the states so far. */
  ghost function Rounds(step: Stepper, from: set<nat>, i: nat): set<nat> {
    if i == 0 then from else Rounds(step, from, i - 1) + step(Rounds(step, from, i - 1), Eps)
  }

  ghost function StepOf(a: Nfa, g: Guards): Stepper {
    (s, lbl) => Step(a, g, s, lbl)
  }

  /** The states the symbol before position p leads to, with n rounds at every position. */
  ghost function Entry(step: Stepper, initial: set<nat>, n: nat, w: Word, p: nat): set<nat>
    requires p <= |w|
  {
    if p == 0 then initial else step(Rounds(step, Entry(step, initial, n, w, p - 1), n), Sym(w[p - 1]))
  }

  ghost function EntryOf(a: Nfa, g: Guards, w: Word, p: nat): set<nat>
    requires p <= |w|
  {
    Entry(StepOf(a, g), {a.initial}, a.states, w, p)
  }

  /** The states of round i at position p. */
  ghost function Layer(a: Nfa, g: Guards, w: Word, p: nat, i: nat): set<nat>
    requires p <= |w|
  {
    Rounds(StepOf(a, g), EntryOf(a, g, w, p), i)
  }

  lemma {:induction false} LayerBounded(a: Nfa, g: Guards, w: Word, p: nat, i: nat)
    requires a.Valid() && p <= |w|
    ensures Layer(a, g, w, p, i) <= States(a.states)
  {
    if i > 0 { LayerBounded(a, g, w, p, i - 1); }
  }

  lemma {:induction false} SubsetSize(s: set<nat>, t: set<nat>)
    requires s <= t
    ensures |s| <= |t|
    ensures |s| == |t| ==> s == t
  {
    assert t == s + (t - s);
  }

  /** A round that adds nothing is followed only by rounds that add nothing. */
  lemma {:induction false} Stable(step: Stepper, from: set<nat>, i: nat, j: nat)
    requires i <= j
    requires Rounds(step, from, i + 1) == Rounds(step, from, i)
    ensures Rounds(step, from, j + 1) == Rounds(step, from, j)
    decreases j
  {
    if i < j { Stable(step, from, i, j - 1); }
  }

  /** Until the rounds become stable each adds a state. */
  lemma {:induction false} Growth(step: Stepper, from: set<nat>, i: nat)
    ensures Rounds(step, from, i + 1) == Rounds(step, from, i) || |Rounds(step, from, i)| >= i
    decreases i
  {
    if i > 0 {
      Growth(step, from, i - 1);
      if Rounds(step, from, i) == Rounds(step, from, i - 1) {
        Stable(step, from, i - 1, i);
      } else {
        SubsetSize(Rounds(step, from, i - 1), Rounds(step, from, i));
      }
    }
  }

  /** After |Q| rounds the layer is closed under enabled epsilon transitions. */
  lemma {:induction false} Saturated(a: Nfa, g: Guards, w: Word, p: nat)
    requires a.Valid() && p <= |w|
    ensures Step(a, g, Layer(a, g, w, p, a.states), Eps) <= Layer(a, g, w, p, a.states)
  {
    var last := Layer(a, g, w, p, a.states);
    Growth(StepOf(a, g), EntryOf(a, g, w, p), a.states);
    if |last| >= a.states {
      LayerBounded(a, g, w, p, a.states);
      SubsetSize(last, States(a.states));
    } else {
      assert Rounds(StepOf(a, g), EntryOf(a, g, w, p), a.states + 1) == last + Step(a, g, last, Eps);
    }
  }

  /* ---------- The last layer is reachability ---------- */

  lemma {:induction false} LayersGrow(a: Nfa, g: Guards, w: Word, p: nat, i: nat)
    requires p <= |w|
    ensures Layer(a, g, w, p, 0) <= Layer(a, g, w, p, i)
  {
    if i > 0 { LayersGrow(a, g, w, p, i - 1); }
  }

  lemma {:induction false} ExtendRun(a: Nfa, g: Guards, w: Word, w': Word, src: nat, lbl: Label, q: nat)
    requires Reaches(a, g, w, src) && Edge(a, g, src, lbl, q)
    requires match lbl case Eps => w' == w case Sym(s) => w' == w + [s]
    ensures Reaches(a, g, w', q)
  {
    var path :| RunReads(a, g, path, w, src);
    var path' := path + [Transition(src, q, lbl)];
    assert path'[..|path'| - 1] == path;
    if lbl.Sym? {
      assert w'[..|w'| - 1] == w;
    }
    assert RunReads(a, g, path', w', q);
  }

  /** Every state of every layer is the end of a run over the letters read so far. */
  lemma {:induction false} LayerSound(a: Nfa, g: Guards, w: Word, p: nat, i: nat, q: nat)
    requires p <= |w| && q in Layer(a, g, w, p, i)
    ensures Reaches(a, g, w[..p], q)
    decreases p, 1, i
  {
    if i > 0 {
      if q in Layer(a, g, w, p, i - 1) {
        LayerSound(a, g, w, p, i - 1, q);
      } else {
        var src := StepSource(a, g, Layer(a, g, w, p, i - 1), Eps, q);
        LayerSound(a, g, w, p, i - 1, src);
        ExtendRun(a, g, w[..p], w[..p], src, Eps, q);
      }
    } else {
      EntrySound(a, g, w, p, q);
    }
  }

  lemma {:induction false} EntrySound(a: Nfa, g: Guards, w: Word, p: nat, q: nat)
    requires p <= |w| && q in EntryOf(a, g, w, p)
    ensures Reaches(a, g, w[..p], q)
    decreases p, 0
  {
    if p > 0 {
      var src := StepSource(a, g, Layer(a, g, w, p - 1, a.states), Sym(w[p - 1]), q);
      LayerSound(a, g, w, p - 1, a.states, src);
      assert w[..p] == w[..p - 1] + [w[p - 1]];
      ExtendRun(a, g, w[..p - 1], w[..p], src, Sym(w[p - 1]), q);
    } else {
      assert RunReads(a, g, [], w[..0], q);
    }
  }

  lemma {:induction false} StepSource(a: Nfa, g: Guards, from: set<nat>, lbl: Label, q: nat) returns (src: nat)
    requires q in Step(a, g, from, lbl)
    ensures src in from && Edge(a, g, src, lbl, q)
  {
    src :| src in from && Edge(a, g, src, lbl, q);
  }

  /** Every run ends in the last round of its position. */
  lemma {:induction false} LayerComplete(a: Nfa, g: Guards, w: Word, p: nat, path: seq<Transition>, q: nat)
    requires a.Valid() && p <= |w| && RunReads(a, g, path, w[..p], q)
    ensures q in Layer(a, g, w, p, a.states)
    decreases |path|
  {
    LayersGrow(a, g, w, p, a.states);
    if path != [] {
      var t, before := path[|path| - 1], path[..|path| - 1];
      match t.lbl {
        case Eps =>
          LayerComplete(a, g, w, p, before, t.src);
          Saturated(a, g, w, p);
          assert q in Step(a, g, Layer(a, g, w, p, a.states), Eps);
        case Sym(s) =>
          assert w[..p][..p - 1] == w[..p - 1];
          LayerComplete(a, g, w, p - 1, before, t.src);
          assert q in Step(a, g, Layer(a, g, w, p - 1, a.states), Sym(w[p - 1]));
      }
    }
  }

  lemma {:induction false} LastLayer(a: Nfa, g: Guards, w: Word, q: nat)
    requires a.Valid()
    ensures q in Layer(a, g, w, |w|, a.states) <==> Reaches(a, g, w, q)
  {
    assert w[..|w|] == w;
    if q in Layer(a, g, w, |w|, a.states) {
      LayerSound(a, g, w, |w|, a.states, q);
    }
    if path :| RunReads(a, g, path, w, q) {
      LayerComplete(a, g, w, |w|, path, q);
    }
  }

  /* ---------- What the lines say ---------- */

  ghost predicate BaseHolds(a: Nfa, wi: nat, q: nat, v: Valuation) {
    v(R(wi, 0, a.initial)) && forall q' :: 0 <= q' < q && q' != a.initial ==> !v(R(wi, 0, q'))
  }

  lemma {:induction false} BaseMeaning(a: Nfa, wi: nat, q: nat, v: Valuation)
    ensures AllHold(BaseLines(a, wi, q), v) <==> BaseHolds(a, wi, q, v)
  {
    if q == 0 {
      assert BaseLines(a, wi, 0)[0] == Atom(R(wi, 0, a.initial));
    } else {
      BaseMeaning(a, wi, q - 1, v);
      var extra := if q - 1 != a.initial then [Not(Atom(R(wi, 0, q - 1)))] else [];
      AllHoldConcat(BaseLines(a, wi, q - 1), extra, v);
      if q - 1 != a.initial {
        assert Eval(extra[0], v) == !v(R(wi, 0, q - 1));
      }
    }
  }

  ghost predicate ConsumeHolds(a: Nfa, wi: nat, w: Word, p: nat, q: nat, v: Valuation)
    requires p < |w|
  {
    v(R(wi, p + 1, q)) <==> exists src: nat :: Edge(a, GuardsOf(v), src, Sym(w[p]), q) && v(E(wi, a.states, p, src))
  }

  lemma {:induction false} ConsumeLineMeaning(a: Nfa, wi: nat, w: Word, p: nat, q: nat, v: Valuation)
    requires p < |w|
    ensures Eval(ConsumeLine(a, wi, w, p, q), v) <==> ConsumeHolds(a, wi, w, p, q, v)
  {
    var terms := Terms(Into(a.transitions, Sym(w[p]), q), wi, a.states, p);
    OrOfMeaning(terms, v);
    TermsMeaning(a, Sym(w[p]), q, wi, a.states, p, v);
    var left, right := Atom(R(wi, p + 1, q)), OrOf(terms);
    assert ConsumeLine(a, wi, w, p, q) == Iff(left, right);
    assert Eval(Iff(left, right), v) == (Eval(left, v) == Eval(right, v));
    assert Eval(left, v) == v(R(wi, p + 1, q));
  }

  lemma {:induction false} ConsumeMeaning(a: Nfa, wi: nat, w: Word, p: nat, q: nat, v: Valuation)
    requires p <= |w| && q <= a.states && (q > 0 ==> p < |w|)
    ensures AllHold(ConsumeLines(a, wi, w, p, q), v)
      <==> ((forall p', q' :: 0 <= p' < p && 0 <= q' < a.states ==> ConsumeHolds(a, wi, w, p', q', v)) &&
            (forall q' :: 0 <= q' < q ==> ConsumeHolds(a, wi, w, p, q', v)))
    decreases p, q
  {
    if q > 0 {
      ConsumeMeaning(a, wi, w, p, q - 1, v);
      var line := ConsumeLine(a, wi, w, p, q - 1);
      ConsumeLineMeaning(a, wi, w, p, q - 1, v);
      AllHoldConcat(ConsumeLines(a, wi, w, p, q - 1), [line], v);
      assert [line][0] == line;
    } else if p > 0 {
      ConsumeMeaning(a, wi, w, p - 1, a.states, v);
    }
  }

  ghost predicate RoundHolds(a: Nfa, wi: nat, p: nat, q: nat, i: nat, v: Valuation) {
    v(E(wi, i + 1, p, q)) <==>
      v(E(wi, i, p, q)) || exists src: nat :: Edge(a, GuardsOf(v), src, Eps, q) && v(E(wi, i, p, src))
  }

  lemma {:induction false} RoundLineMeaning(a: Nfa, wi: nat, p: nat, q: nat, i: nat, v: Valuation)
    ensures Eval(RoundLine(a, wi, p, q, i), v) <==> RoundHolds(a, wi, p, q, i, v)
  {
    var terms := Terms(Into(a.transitions, Eps, q), wi, i, p);
    OrOfMeaning([Atom(E(wi, i, p, q))] + terms, v);
    OrCons(Atom(E(wi, i, p, q)), terms, v);
    TermsMeaning(a, Eps, q, wi, i, p, v);
    var left, right := Atom(E(wi, i + 1, p, q)), OrOf([Atom(E(wi, i, p, q))] + terms);
    assert RoundLine(a, wi, p, q, i) == Iff(left, right);
    assert Eval(Iff(left, right), v) == (Eval(left, v) == Eval(right, v));
    assert Eval(left, v) == v(E(wi, i + 1, p, q)) && Eval(Atom(E(wi, i, p, q)), v) == v(E(wi, i, p, q));
  }

  lemma {:induction false} OrCons(first: Formula, rest: seq<Formula>, v: Valuation)
    ensures (exists k :: 0 <= k < |[first] + rest| && Eval(([first] + rest)[k], v))
       <==> Eval(first, v) || exists k :: 0 <= k < |rest| && Eval(rest[k], v)
  {
    var all := [first] + rest;
    if Eval(first, v) {
      assert Eval(all[0], v);
    }
    if k :| 0 <= k < |rest| && Eval(rest[k], v) {
      assert all[k + 1] == rest[k];
    }
    if k :| 0 <= k < |all| && Eval(all[k], v) {
      assert k > 0 ==> all[k] == rest[k - 1];
    }
  }

  /** Rounds 0 to i of one state at one position. */
  ghost predicate RoundsHold(a: Nfa, wi: nat, p: nat, q: nat, i: nat, v: Valuation) {
    && v(E(wi, 0, p, q)) == v(R(wi, p, q))
    && forall j :: 0 <= j < i ==> RoundHolds(a, wi, p, q, j, v)
  }

  lemma {:induction false} RoundsMeaning(a: Nfa, wi: nat, p: nat, q: nat, i: nat, v: Valuation)
    ensures AllHold(RoundLines(a, wi, p, q, i), v) <==> RoundsHold(a, wi, p, q, i, v)
  {
    if i == 0 {
      var line := Iff(Atom(E(wi, 0, p, q)), Atom(R(wi, p, q)));
      assert [line][0] == line;
      assert Eval(line, v) == (v(E(wi, 0, p, q)) == v(R(wi, p, q)));
    } else {
      RoundsMeaning(a, wi, p, q, i - 1, v);
      var line := RoundLine(a, wi, p, q, i - 1);
      RoundLineMeaning(a, wi, p, q, i - 1, v);
      AllHoldConcat(RoundLines(a, wi, p, q, i - 1), [line], v);
      assert [line][0] == line;
    }
  }

  lemma {:induction false} RelaxMeaning(a: Nfa, wi: nat, p: nat, q: nat, v: Valuation)
    requires q <= a.states
    ensures AllHold(RelaxLines(a, wi, p, q), v)
      <==> ((forall p', q' :: 0 <= p' < p && 0 <= q' < a.states ==> RoundsHold(a, wi, p', q', a.states, v)) &&
            (forall q' :: 0 <= q' < q ==> RoundsHold(a, wi, p, q', a.states, v)))
    decreases p, q
  {
    if q > 0 {
      RelaxMeaning(a, wi, p, q - 1, v);
      RoundsMeaning(a, wi, p, q - 1, a.states, v);
      AllHoldConcat(RelaxLines(a, wi, p, q - 1), RoundLines(a, wi, p, q - 1, a.states), v);
    } else if p > 0 {
      RelaxMeaning(a, wi, p - 1, a.states, v);
    }
  }

  ghost predicate Defines(a: Nfa, wi: nat, w: Word, v: Valuation) {
    && BaseHolds(a, wi, a.states, v)
    && (forall p, q :: 0 <= p < |w| && 0 <= q < a.states ==> ConsumeHolds(a, wi, w, p, q, v))
    && (forall p, q :: 0 <= p <= |w| && 0 <= q < a.states ==> RoundsHold(a, wi, p, q, a.states, v))
  }

  lemma {:induction false} DefinitionsMeaning(a: Nfa, wi: nat, w: Word, v: Valuation)
    ensures AllHold(DefinitionLines(a, wi, w), v) <==> Defines(a, wi, w, v)
  {
    var base, consume, relax :=
      BaseLines(a, wi, a.states), ConsumeLines(a, wi, w, |w|, 0), RelaxLines(a, wi, |w| + 1, 0);
    AllHoldConcat(base + consume, relax, v);
    AllHoldConcat(base, consume, v);
    BaseMeaning(a, wi, a.states, v);
    ConsumeMeaning(a, wi, w, |w|, 0, v);
    RelaxMeaning(a, wi, |w| + 1, 0, v);
  }

  /* ---------- Exactly one model ---------- */

  /** v's layer variables for this word are the layers. */
  ghost predicate Describes(a: Nfa, g: Guards, wi: nat, w: Word, v: Valuation) {
    && (forall p, q :: 0 <= p <= |w| && 0 <= q < a.states ==> (v(R(wi, p, q)) <==> q in Layer(a, g, w, p, 0)))
    && (forall p, q, i :: 0 <= p <= |w| && 0 <= q < a.states && 0 <= i <= a.states ==>
          (v(E(wi, i, p, q)) <==> q in Layer(a, g, w, p, i)))
  }

  /** The definitions hold of a valuation exactly when it describes the layers. */
  lemma {:induction false} DefinesIffDescribes(a: Nfa, wi: nat, w: Word, v: Valuation)
    requires a.Valid()
    ensures Defines(a, wi, w, v) <==> Describes(a, GuardsOf(v), wi, w, v)
  {
    var g := GuardsOf(v);
    if Defines(a, wi, w, v) {
      forall p, q | 0 <= p <= |w| && 0 <= q < a.states
        ensures v(R(wi, p, q)) <==> q in Layer(a, g, w, p, 0)
      {
        PositionDetermined(a, wi, w, v, p, q);
      }
      forall p, q, i | 0 <= p <= |w| && 0 <= q < a.states && 0 <= i <= a.states
        ensures v(E(wi, i, p, q)) <==> q in Layer(a, g, w, p, i)
      {
        RoundDetermined(a, wi, w, v, p, q, i);
      }
    }
    if Describes(a, g, wi, w, v) {
      DescribedDefines(a, wi, w, v);
    }
  }

  lemma {:induction false} PositionDetermined(a: Nfa, wi: nat, w: Word, v: Valuation, p: nat, q: nat)
    requires a.Valid() && Defines(a, wi, w, v) && p <= |w| && q < a.states
    ensures v(R(wi, p, q)) <==> q in Layer(a, GuardsOf(v), w, p, 0)
    decreases p, 0, 0
  {
    var g := GuardsOf(v);
    if p > 0 {
      assert ConsumeHolds(a, wi, w, p - 1, q, v);
      var before, lbl := p - 1, Sym(w[p - 1]);
      forall src: nat | Edge(a, g, src, lbl, q)
        ensures v(E(wi, a.states, before, src)) <==> src in Layer(a, g, w, before, a.states)
      {
        RoundDetermined(a, wi, w, v, before, src, a.states);
      }
    }
  }

  lemma {:induction false} RoundDetermined(a: Nfa, wi: nat, w: Word, v: Valuation, p: nat, q: nat, i: nat)
    requires a.Valid() && Defines(a, wi, w, v) && p <= |w| && q < a.states && i <= a.states
    ensures v(E(wi, i, p, q)) <==> q in Layer(a, GuardsOf(v), w, p, i)
    decreases p, 1, i
  {
    var g := GuardsOf(v);
    assert RoundsHold(a, wi, p, q, a.states, v);
    if i == 0 {
      PositionDetermined(a, wi, w, v, p, q);
    } else {
      RoundDetermined(a, wi, w, v, p, q, i - 1);
      assert RoundHolds(a, wi, p, q, i - 1, v);
      var before := i - 1;
      forall src: nat | Edge(a, g, src, Eps, q)
        ensures v(E(wi, before, p, src)) <==> src in Layer(a, g, w, p, before)
      {
        RoundDetermined(a, wi, w, v, p, src, before);
      }
    }
  }

  lemma {:induction false} DescribedDefines(a: Nfa, wi: nat, w: Word, v: Valuation)
    requires a.Valid() && Describes(a, GuardsOf(v), wi, w, v)
    ensures Defines(a, wi, w, v)
  {
    var g := GuardsOf(v);
    forall p, q | 0 <= p < |w| && 0 <= q < a.states ensures ConsumeHolds(a, wi, w, p, q, v) {
      assert Layer(a, g, w, p + 1, 0) == Step(a, g, Layer(a, g, w, p, a.states), Sym(w[p]));
      assert forall src: nat :: Edge(a, g, src, Sym(w[p]), q) ==>
        (v(E(wi, a.states, p, src)) <==> src in Layer(a, g, w, p, a.states));
    }
    forall p, q | 0 <= p <= |w| && 0 <= q < a.states ensures RoundsHold(a, wi, p, q, a.states, v) {
      forall i | 0 <= i < a.states ensures RoundHolds(a, wi, p, q, i, v) {
        assert Layer(a, g, w, p, i + 1) == Layer(a, g, w, p, i) + Step(a, g, Layer(a, g, w, p, i), Eps);
        assert forall src: nat :: Edge(a, g, src, Eps, q) ==>
          (v(E(wi, i, p, src)) <==> src in Layer(a, g, w, p, i));
      }
    }
  }

  /** Under the definitions, the final disjunction says that the word is accepted. */
  lemma {:induction false} FinalIsAcceptance(a: Nfa, wi: nat, w: Word, v: Valuation)
    requires a.Valid() && AllHold(DefinitionLines(a, wi, w), v)
    ensures Eval(Final(a, wi, |w|), v) <==> Accepts(a, GuardsOf(v), w)
  {
    var g := GuardsOf(v);
    DefinitionsMeaning(a, wi, w, v);
    DefinesIffDescribes(a, wi, w, v);
    var xs := seq(|a.accepting|, k requires 0 <= k < |a.accepting| => Atom(E(wi, a.states, |w|, a.accepting[k])));
    OrOfMeaning(xs, v);
    assert Final(a, wi, |w|) == OrOf(xs);
    forall k | 0 <= k < |a.accepting|
      ensures Eval(xs[k], v) <==> Reaches(a, g, w, a.accepting[k])
    {
      LastLayer(a, g, w, a.accepting[k]);
    }
    if k :| 0 <= k < |xs| && Eval(xs[k], v) {
      assert Reaches(a, g, w, a.accepting[k]);
    }
    if k :| 0 <= k < |a.accepting| && Reaches(a, g, w, a.accepting[k]) {
      assert Eval(xs[k], v);
    }
  }

  /** The valuation that reads every layer variable off the automaton. */
  ghost function Canonical(a: Nfa, g: Guards, words: seq<Word>): Valuation {
    (x: Variable) => match x
      case G(guard) => g(guard)
      case R(wi, p, q) => wi < |words| && p <= |words[wi]| && q in Layer(a, g, words[wi], p, 0)
      case E(wi, i, p, q) => wi < |words| && p <= |words[wi]| && q in Layer(a, g, words[wi], p, i)
  }

  ghost predicate SameLayers(a: Nfa, wi: nat, w: Word, v: Valuation, v': Valuation) {
    && (forall p, q :: 0 <= p <= |w| && 0 <= q < a.states ==> v(R(wi, p, q)) == v'(R(wi, p, q)))
    && (forall p, q, i :: 0 <= p <= |w| && 0 <= q < a.states && 0 <= i <= a.states ==>
          v(E(wi, i, p, q)) == v'(E(wi, i, p, q)))
  }

  lemma {:induction false} DescribesUnderSameGuards(a: Nfa, g: Guards, wi: nat, w: Word, v: Valuation)
    requires a.Valid() && forall guard :: v(G(guard)) == g(guard)
    ensures AllHold(DefinitionLines(a, wi, w), v) <==> Describes(a, g, wi, w, v)
  {
    DefinitionsMeaning(a, wi, w, v);
    DefinesIffDescribes(a, wi, w, v);
    LayersAgree(a, GuardsOf(v), g, w);
  }

  /** For every guard choice the definitions have a model, and it is unique on the declared variables. */
  lemma {:induction false} OneModelPerGuards(a: Nfa, words: seq<Word>, g: Guards, wi: nat, v: Valuation)
    requires a.Valid() && wi < |words|
    requires forall guard :: v(G(guard)) == g(guard)
    ensures AllHold(DefinitionLines(a, wi, words[wi]), Canonical(a, g, words))
    ensures AllHold(DefinitionLines(a, wi, words[wi]), v) <==> SameLayers(a, wi, words[wi], v, Canonical(a, g, words))
  {
    DescribesUnderSameGuards(a, g, wi, words[wi], Canonical(a, g, words));
    DescribesUnderSameGuards(a, g, wi, words[wi], v);
  }

  lemma {:induction false} EdgesAgree(a: Nfa, g: Guards, g': Guards)
    requires forall guard :: g(guard) == g'(guard)
    ensures forall src, lbl, q :: Edge(a, g, src, lbl, q) == Edge(a, g', src, lbl, q)
  {
    forall src, lbl, q ensures Edge(a, g, src, lbl, q) == Edge(a, g', src, lbl, q) {
      if k :| 0 <= k < |a.transitions| && a.transitions[k] == Transition(src, q, lbl) && g(GuardName(a.transitions[k])) {
        assert Edge(a, g', src, lbl, q);
      }
    }
  }

  lemma {:induction false} StepsAgree(a: Nfa, g: Guards, g': Guards, s: set<nat>, lbl: Label)
    requires forall guard :: g(guard) == g'(guard)
    ensures Step(a, g, s, lbl) == Step(a, g', s, lbl)
  {
    EdgesAgree(a, g, g');
  }

  lemma {:induction false} RoundsAgree(step: Stepper, step': Stepper, from: set<nat>, i: nat)
    requires forall s, lbl :: step(s, lbl) == step'(s, lbl)
    ensures Rounds(step, from, i) == Rounds(step', from, i)
  {
    if i > 0 { RoundsAgree(step, step', from, i - 1); }
  }

  lemma {:induction false} EntryAgrees(step: Stepper, step': Stepper, initial: set<nat>, n: nat, w: Word, p: nat)
    requires p <= |w|
    requires forall s, lbl :: step(s, lbl) == step'(s, lbl)
    ensures Entry(step, initial, n, w, p) == Entry(step', initial, n, w, p)
  {
    if p > 0 {
      EntryAgrees(step, step', initial, n, w, p - 1);
      RoundsAgree(step, step', Entry(step, initial, n, w, p - 1), n);
    }
  }

  lemma {:induction false} LayersAgree(a: Nfa, g: Guards, g': Guards, w: Word)
    requires forall guard :: g(guard) == g'(guard)
    ensures forall p, i :: 0 <= p <= |w| && 0 <= i ==> Layer(a, g, w, p, i) == Layer(a, g', w, p, i)
  {
    var step, step' := StepOf(a, g), StepOf(a, g');
    forall s, lbl ensures step(s, lbl) == step'(s, lbl) {
      StepsAgree(a, g, g', s, lbl);
    }
    forall p, i | 0 <= p <= |w| && 0 <= i ensures Layer(a, g, w, p, i) == Layer(a, g', w, p, i) {
      EntryAgrees(step, step', {a.initial}, a.states, w, p);
      RoundsAgree(step, step', EntryOf(a, g, w, p), i);
    }
  }

  /* ---------- The whole file ---------- */

  ghost predicate Verdicts(a: Nfa, g: Guards, words: seq<Word>, positives: nat, count: nat)
    requires count <= |words|
  {
    forall wi :: 0 <= wi < count ==> (Accepts(a, g, words[wi]) <==> wi < positives)
  }

  /** A valuation satisfies the assertions of the first `count` words iff it defines all layers and all verdicts are met. */
  lemma {:induction false} LinesMeaning(a: Nfa, words: seq<Word>, positives: nat, count: nat, v: Valuation)
    requires a.Valid() && count <= |words|
    ensures AllHold(Lines(a, words, positives, count), v)
      <==> ((forall wi :: 0 <= wi < count ==> AllHold(DefinitionLines(a, wi, words[wi]), v)) &&
            Verdicts(a, GuardsOf(v), words, positives, count))
  {
    if count > 0 {
      var wi := count - 1;
      LinesMeaning(a, words, positives, wi, v);
      AllHoldConcat(Lines(a, words, positives, wi), WordLines(a, wi, words[wi], wi < positives), v);
      WordMeaning(a, wi, words[wi], wi < positives, v);
    }
  }

  lemma {:induction false} WordMeaning(a: Nfa, wi: nat, w: Word, positive: bool, v: Valuation)
    requires a.Valid()
    ensures AllHold(WordLines(a, wi, w, positive), v)
       <==> AllHold(DefinitionLines(a, wi, w), v) && (Accepts(a, GuardsOf(v), w) <==> positive)
  {
    var definitions, final := DefinitionLines(a, wi, w), Final(a, wi, |w|);
    var last := if positive then final else Not(final);
    AllHoldConcat(definitions, [last], v);
    assert [last][0] == last;
    if AllHold(definitions, v) {
      FinalIsAcceptance(a, wi, w, v);
    }
  }

  /** The emitted file is satisfiable iff some guard choice accepts every positive and rejects every negative word. */
  lemma {:induction false} EncodingExact(a: Nfa, pos: seq<Word>, neg: seq<Word>)
    requires a.Valid()
    ensures (exists v: Valuation :: AllHold(Lines(a, pos + neg, |pos|, |pos + neg|), v))
       <==> exists g: Guards :: Verdicts(a, g, pos + neg, |pos|, |pos + neg|)
  {
    var words := pos + neg;
    if v: Valuation :| AllHold(Lines(a, words, |pos|, |words|), v) {
      LinesMeaning(a, words, |pos|, |words|, v);
      assert Verdicts(a, GuardsOf(v), words, |pos|, |words|);
    }
    if g: Guards :| Verdicts(a, g, words, |pos|, |words|) {
      var v := Canonical(a, g, words);
      forall wi | 0 <= wi < |words| ensures AllHold(DefinitionLines(a, wi, words[wi]), v) {
        OneModelPerGuards(a, words, g, wi, v);
      }
      EdgesAgree(a, g, GuardsOf(v));
      forall wi | 0 <= wi < |words| ensures Accepts(a, g, words[wi]) <==> Accepts(a, GuardsOf(v), words[wi]) {
        LayersAgree(a, g, GuardsOf(v), words[wi]);
        forall q: nat ensures Reaches(a, g, words[wi], q) <==> Reaches(a, GuardsOf(v), words[wi], q) {
          LastLayer(a, g, words[wi], q);
          LastLayer(a, GuardsOf(v), words[wi], q);
        }
      }
      LinesMeaning(a, words, |pos|, |words|, v);
    }
  }
}
