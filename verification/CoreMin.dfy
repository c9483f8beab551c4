/** Deletion-based minimisation of an unsatisfiable set of assertions. */
module CoreMin {

  datatype Answer = Sat | Unsat | Unknown

  /** Whether model m satisfies assertion t. */
  type Semantics<!M, !T> = (M, T) -> bool

  predicate Models<M, T>(holds: Semantics<M, T>, m: M, ts: seq<T>) {
    forall k :: 0 <= k < |ts| ==> holds(m, ts[k])
  }

  ghost predicate Satisfiable<M(!new), T>(holds: Semantics<M, T>, ts: seq<T>) {
    exists m: M :: Models(holds, m, ts)
  }

  /** The solver: its answer to the n-th check, on the assertions present. */
  type Oracle<!T> = (nat, seq<T>) -> Answer

  ghost predicate Sound<M(!new), T(!new)>(holds: Semantics<M, T>, oracle: Oracle<T>) {
    forall n, ts ::
      && (oracle(n, ts) == Unsat ==> !Satisfiable(holds, ts))
      && (oracle(n, ts) == Sat ==> Satisfiable(holds, ts))
  }

  function Without<T>(ts: seq<T>, k: nat): seq<T>
    requires k < |ts|
  {
    ts[..k] + ts[k + 1..]
  }

  /** `positions` locates sub inside full, in order. */
  ghost predicate SubsequenceAt<T>(sub: seq<T>, full: seq<T>, positions: seq<nat>) {
    && |positions| == |sub|
    && (forall j, k :: 0 <= j < k < |positions| ==> positions[j] < positions[k])
    && (forall k :: 0 <= k < |sub| ==> positions[k] < |full| && sub[k] == full[positions[k]])
  }

  ghost predicate Subsequence<T>(sub: seq<T>, full: seq<T>) {
    exists positions :: SubsequenceAt(sub, full, positions)
  }

  ghost predicate OneMinimal<M(!new), T>(holds: Semantics<M, T>, core: seq<T>) {
    && !Satisfiable(holds, core)
    && forall k :: 0 <= k < |core| ==> Satisfiable(holds, Without(core, k))
  }

  /** Fewer assertions are easier to satisfy. */
  lemma FewerAssertions<M(!new), T>(holds: Semantics<M, T>, sub: seq<T>, full: seq<T>)
    requires Satisfiable(holds, full) && forall k :: 0 <= k < |sub| ==> sub[k] in full
    ensures Satisfiable(holds, sub)
  {
    var m: M :| Models(holds, m, full);
    assert Models(holds, m, sub);
  }

  /** An assertion needed before another was dropped is needed after. */
  lemma StillNeeded<M(!new), T>(holds: Semantics<M, T>, core: seq<T>, index: nat, k: nat)
    requires k < index < |core| && Satisfiable(holds, Without(core, k))
    ensures Satisfiable(holds, Without(Without(core, index), k))
  {
    var smaller, larger := Without(Without(core, index), k), Without(core, k);
    forall j | 0 <= j < |smaller| ensures smaller[j] in larger {
      assert smaller[j] == if j < index - 1 then larger[j] else larger[j + 1];
    }
    FewerAssertions(holds, smaller, larger);
  }

  /** The pass as a function: what remains when each answer comes from the oracle in turn. */
  function Swept<T>(oracle: Oracle<T>, n: nat, core: seq<T>, index: nat): seq<T>
    requires index <= |core|
    decreases |core| - index
  {
    if index == |core| then core
    else if oracle(n, Without(core, index)) == Unsat then Swept(oracle, n + 1, Without(core, index), index)
    else Swept(oracle, n + 1, core, index + 1)
  }

  /** No answer of the pass is Unknown. */
  predicate Decided<T>(oracle: Oracle<T>, n: nat, core: seq<T>, index: nat)
    requires index <= |core|
    decreases |core| - index
  {
    index < |core| ==>
      match oracle(n, Without(core, index))
      case Unknown => false
      case Unsat => Decided(oracle, n + 1, Without(core, index), index)
      case Sat => Decided(oracle, n + 1, core, index + 1)
  }

  datatype Report<T> =
    | NoAssertions
    | NotReproduced
    | Core(core: seq<T>, total: nat, budgetExhausted: bool)

  class Context<T> {
    const oracle: Oracle<T>
    var assertions: seq<T>
    var checks: nat

    constructor (oracle: Oracle<T>, assertions: seq<T>)
      ensures this.oracle == oracle && this.assertions == assertions && checks == 0
    {
      this.oracle, this.assertions, checks := oracle, assertions, 0;
    }

    method CheckSubset(subset: seq<T>) returns (answer: Answer)
      modifies this
      ensures assertions == subset && checks == old(checks) + 1
      ensures answer == oracle(old(checks), subset)
    {
      assertions := [];
      for k := 0 to |subset|
        invariant assertions == subset[..k] && checks == old(checks)
      {
        assertions := assertions + [subset[k]];
      }
      assert subset[..|subset|] == subset;
      answer := oracle(checks, assertions);
      checks := checks + 1;
    }
  }

  /** The assertions whose deletion check was not answered Unsat, in order. */
  function Surviving<T>(tried: seq<T>, answers: seq<Answer>): (kept: seq<T>)
    requires |tried| == |answers|
    ensures |kept| <= |tried|
  {
    if tried == [] then []
    else
      var last := |tried| - 1;
      Surviving(tried[..last], answers[..last]) + if answers[last] == Unsat then [] else [tried[last]]
  }

  lemma {:induction false} SurvivingSnoc<T>(tried: seq<T>, answers: seq<Answer>, t: T, answer: Answer)
    requires |tried| == |answers|
    ensures Surviving(tried + [t], answers + [answer]) == Surviving(tried, answers) + if answer == Unsat then [] else [t]
  {
    assert (tried + [t])[..|tried|] == tried && (answers + [answer])[..|answers|] == answers;
  }

  /** What stands when the answers to the first checks of the pass are in: the survivors and the untried rest. */
  function Standing<T>(full: seq<T>, answers: seq<Answer>): seq<T>
    requires |answers| <= |full|
  {
    Surviving(full[..|answers|], answers) + full[|answers|..]
  }

  /** The candidate of the next check: what stands, without the assertion in turn. */
  function NextCandidate<T>(full: seq<T>, answers: seq<Answer>): seq<T>
    requires |answers| < |full|
  {
    Surviving(full[..|answers|], answers) + full[|answers| + 1..]
  }

  /** Each answer is the solver's on the candidate then due; the first check has number n. */
  predicate Answered<T>(oracle: Oracle<T>, n: nat, full: seq<T>, answers: seq<Answer>) {
    && |answers| <= |full|
    && forall k :: 0 <= k < |answers| ==> AnsweredAt(oracle, n, full, answers, k)
  }

  predicate AnsweredAt<T>(oracle: Oracle<T>, n: nat, full: seq<T>, answers: seq<Answer>, k: nat)
    requires k < |answers| <= |full|
  {
    answers[k] == oracle(n + k, NextCandidate(full, answers[..k]))
  }

  lemma {:induction false} AnsweredSnoc<T>(oracle: Oracle<T>, n: nat, full: seq<T>, answers: seq<Answer>, answer: Answer)
    requires Answered(oracle, n, full, answers) && |answers| < |full|
    requires answer == oracle(n + |answers|, NextCandidate(full, answers))
    ensures Answered(oracle, n, full, answers + [answer])
  {
    var all := answers + [answer];
    forall j | 0 <= j < |all| ensures AnsweredAt(oracle, n, full, all, j) {
      if j < |answers| {
        assert AnsweredAt(oracle, n, full, answers, j);
        assert all[..j] == answers[..j];
      } else {
        assert all[..j] == answers;
      }
    }
  }

  /** One more answer moves the pass on. */
  lemma {:induction false} StandingSnoc<T>(full: seq<T>, answers: seq<Answer>, answer: Answer)
    requires |answers| < |full|
    ensures Standing(full, answers + [answer]) == if answer == Unsat then NextCandidate(full, answers) else Standing(full, answers)
    ensures |Surviving(full[..|answers| + 1], answers + [answer])| ==
            |Surviving(full[..|answers|], answers)| + if answer == Unsat then 0 else 1
  {
    var k := |answers|;
    var kept, t, rest := Surviving(full[..k], answers), full[k], full[k + 1..];
    assert full[..k + 1] == full[..k] + [t] && full[k..] == [t] + rest;
    SurvivingSnoc(full[..k], answers, t, answer);
    Regrouped(kept, t, rest);
  }

  lemma Regrouped<T>(kept: seq<T>, t: T, rest: seq<T>)
    ensures kept + [t] + rest == kept + ([t] + rest) && kept + [] + rest == kept + rest
  {}

  /** The assertion in turn stands right after the survivors. */
  lemma {:induction false} CandidateIsWithout<T>(full: seq<T>, answers: seq<Answer>)
    requires |answers| < |full|
    ensures var index := |Surviving(full[..|answers|], answers)|;
      && index < |Standing(full, answers)|
      && Without(Standing(full, answers), index) == NextCandidate(full, answers)
  {
    var kept, rest := Surviving(full[..|answers|], answers), full[|answers|..];
    assert (kept + rest)[..|kept|] == kept && (kept + rest)[|kept| + 1..] == rest[1..] == full[|answers| + 1..];
  }

  /* ---------- Exactly when the pass guarantees minimality ---------- */

  /** The answers met by the pass from here on are right. */
  ghost predicate SoundPass<M(!new), T>(holds: Semantics<M, T>, oracle: Oracle<T>, n: nat, core: seq<T>, index: nat)
    requires index <= |core|
    decreases |core| - index
  {
    index < |core| ==>
      var candidate := Without(core, index);
      match oracle(n, candidate)
      case Unsat => !Satisfiable(holds, candidate) && SoundPass(holds, oracle, n + 1, candidate, index)
      case Sat => Satisfiable(holds, candidate) && SoundPass(holds, oracle, n + 1, core, index + 1)
      case Unknown => SoundPass(holds, oracle, n + 1, core, index + 1)
  }

  /** The full set is unsatisfiable and the pass over it is answered rightly. */
  ghost predicate Consistent<M(!new), T>(holds: Semantics<M, T>, oracle: Oracle<T>, n: nat, full: seq<T>) {
    !Satisfiable(holds, full) && SoundPass(holds, oracle, n, full, 0)
  }

  /** The candidates the pass is told are satisfiable. */
  ghost function SatCandidates<T>(oracle: Oracle<T>, n: nat, core: seq<T>, index: nat): seq<seq<T>>
    requires index <= |core|
    decreases |core| - index
  {
    if index == |core| then []
    else
      var candidate := Without(core, index);
      match oracle(n, candidate)
      case Unsat => SatCandidates(oracle, n + 1, candidate, index)
      case Sat => [candidate] + SatCandidates(oracle, n + 1, core, index + 1)
      case Unknown => SatCandidates(oracle, n + 1, core, index + 1)
  }

  lemma {:induction false} SweptPrefix<T>(oracle: Oracle<T>, n: nat, core: seq<T>, index: nat)
    requires index <= |core|
    ensures index <= |Swept(oracle, n, core, index)| && Swept(oracle, n, core, index)[..index] == core[..index]
    decreases |core| - index
  {
    if index < |core| {
      if oracle(n, Without(core, index)) == Unsat {
        SweptPrefix(oracle, n + 1, Without(core, index), index);
      } else {
        SweptPrefix(oracle, n + 1, core, index + 1);
        assert core[..index] == core[..index + 1][..index];
      }
    }
  }

  /** An assertion without which the rest is satisfiable has no second copy. */
  lemma {:induction false} KeptIsOmitted<M(!new), T>(holds: Semantics<M, T>, core: seq<T>, index: nat)
    requires index < |core| && !Satisfiable(holds, core) && Satisfiable(holds, Without(core, index))
    ensures core[index] !in Without(core, index)
  {
    var candidate := Without(core, index);
    if core[index] in candidate {
      forall j | 0 <= j < |core| ensures core[j] in candidate {
        if j < index { assert core[j] == candidate[j]; }
        if j > index { assert core[j] == candidate[j - 1]; }
      }
      FewerAssertions(holds, core, candidate);
    }
  }

  /** Some assertion of the final core, at or after index and not at `spared`, is missing from m. */
  ghost predicate Omits<T>(final: seq<T>, index: nat, spared: int, m: seq<T>) {
    exists j :: index <= j < |final| && j != spared && final[j] !in m
  }

  /** Every candidate answered Sat is satisfiable and lacks an assertion kept on that answer. */
  lemma {:induction false} SatOmits<M(!new), T>(holds: Semantics<M, T>, oracle: Oracle<T>, n: nat, core: seq<T>, index: nat)
    requires index <= |core| && !Satisfiable(holds, core) && SoundPass(holds, oracle, n, core, index)
    ensures forall m :: m in SatCandidates(oracle, n, core, index) ==>
              Satisfiable(holds, m) && Omits(Swept(oracle, n, core, index), index, -1, m)
    decreases |core| - index
  {
    if index < |core| {
      var candidate := Without(core, index);
      if oracle(n, candidate) == Unsat {
        SatOmits(holds, oracle, n + 1, candidate, index);
      } else {
        SatOmits(holds, oracle, n + 1, core, index + 1);
        if oracle(n, candidate) == Sat {
          var final := Swept(oracle, n + 1, core, index + 1);
          SweptPrefix(oracle, n + 1, core, index + 1);
          assert final[index] == final[..index + 1][index] == core[index];
          KeptIsOmitted(holds, core, index);
          assert Omits(final, index, -1, candidate);
        }
      }
    }
  }

  /** An assertion kept on an Unknown: every candidate answered Sat lacks another one. */
  lemma {:induction false} KeptUndecided<M(!new), T>(holds: Semantics<M, T>, oracle: Oracle<T>, n: nat, core: seq<T>, index: nat)
    returns (i: nat)
    requires index <= |core| && !Satisfiable(holds, core) && SoundPass(holds, oracle, n, core, index)
    requires !Decided(oracle, n, core, index)
    ensures index <= i < |Swept(oracle, n, core, index)|
    ensures forall m :: m in SatCandidates(oracle, n, core, index) ==> Omits(Swept(oracle, n, core, index), index, i, m)
    decreases |core| - index
  {
    var candidate := Without(core, index);
    var final := Swept(oracle, n, core, index);
    match oracle(n, candidate)
    case Unsat =>
      i := KeptUndecided(holds, oracle, n + 1, candidate, index);
    case Unknown =>
      i := index;
      SweptPrefix(oracle, n + 1, core, index + 1);
      SatOmits(holds, oracle, n + 1, core, index + 1);
      forall m | m in SatCandidates(oracle, n, core, index) ensures Omits(final, index, i, m) {
        assert Omits(final, index + 1, -1, m);
      }
    case Sat =>
      i := KeptUndecided(holds, oracle, n + 1, core, index + 1);
      SweptPrefix(oracle, n + 1, core, index + 1);
      assert final[index] == final[..index + 1][index] == core[index];
      KeptIsOmitted(holds, core, index);
      forall m | m in SatCandidates(oracle, n, core, index) ensures Omits(final, index, i, m) {
        if m != candidate {
          assert Omits(final, index + 1, i, m);
        }
      }
  }

  /** The models are the given sets, each satisfying just its members. */
  ghost function OnlyModels<T(!new)>(sats: seq<seq<T>>): Semantics<seq<T>, T> {
    (m, t) => m in sats && t in m
  }

  lemma {:induction false} ModelContains<T(!new)>(sats: seq<seq<T>>, m: seq<T>, ts: seq<T>)
    requires ts != [] && Models(OnlyModels(sats), m, ts)
    ensures m in sats && forall t :: t in ts ==> t in m
  {
    forall k | 0 <= k < |ts| ensures m in sats && ts[k] in m {
      assert OnlyModels(sats)(m, ts[k]);
    }
    assert OnlyModels(sats)(m, ts[0]);
  }

  /** What is unsatisfiable stays so when the only models are sets satisfiable before. */
  lemma {:induction false} StaysUnsat<M(00, !new), T(!new)>(holds: Semantics<M, T>, sats: seq<seq<T>>, ts: seq<T>)
    requires !Satisfiable(holds, ts) && forall m :: m in sats ==> Satisfiable(holds, m)
    ensures ts != [] && !Satisfiable(OnlyModels(sats), ts)
  {
    if ts == [] {
      var m: M :| true;
      assert Models(holds, m, ts);
    } else if m: seq<T> :| Models(OnlyModels(sats), m, ts) {
      ModelContains(sats, m, ts);
      FewerAssertions(holds, ts, m);
    }
  }

  lemma {:induction false} StaysSound<M(00, !new), T(!new)>(holds: Semantics<M, T>, sats: seq<seq<T>>, oracle: Oracle<T>, n: nat, core: seq<T>, index: nat)
    requires index <= |core| && SoundPass(holds, oracle, n, core, index)
    requires forall m :: m in sats ==> Satisfiable(holds, m)
    requires forall m :: m in SatCandidates(oracle, n, core, index) ==> m in sats
    ensures SoundPass(OnlyModels(sats), oracle, n, core, index)
    decreases |core| - index
  {
    if index < |core| {
      var candidate := Without(core, index);
      match oracle(n, candidate)
      case Unsat =>
        StaysUnsat(holds, sats, candidate);
        StaysSound(holds, sats, oracle, n + 1, candidate, index);
      case Unknown =>
        StaysSound(holds, sats, oracle, n + 1, core, index + 1);
      case Sat =>
        assert SatCandidates(oracle, n, core, index)[0] == candidate;
        assert Models(OnlyModels(sats), candidate, candidate);
        forall m | m in SatCandidates(oracle, n + 1, core, index + 1) ensures m in sats {
          assert m in SatCandidates(oracle, n, core, index);
        }
        StaysSound(holds, sats, oracle, n + 1, core, index + 1);
    }
  }

  /** An undecided pass that leaves several assertions is consistent with a core that is not minimal. */
  lemma {:induction false} UndecidedSpoils<M(00, !new), T(!new)>(holds: Semantics<M, T>, oracle: Oracle<T>, n: nat, full: seq<T>)
    requires Consistent(holds, oracle, n, full)
    requires !Decided(oracle, n, full, 0) && |Swept(oracle, n, full, 0)| > 1
    ensures var other := OnlyModels(SatCandidates(oracle, n, full, 0));
      Consistent(other, oracle, n, full) && !OneMinimal(other, Swept(oracle, n, full, 0))
  {
    var sats, final := SatCandidates(oracle, n, full, 0), Swept(oracle, n, full, 0);
    SatOmits(holds, oracle, n, full, 0);
    StaysUnsat(holds, sats, full);
    StaysSound(holds, sats, oracle, n, full, 0);
    var i := KeptUndecided(holds, oracle, n, full, 0);
    var rest := Without(final, i);
    forall j | 0 <= j < |final| && j != i ensures final[j] in rest {
      assert final[j] == if j < i then rest[j] else rest[j - 1];
    }
    forall m: seq<T> ensures !Models(OnlyModels(sats), m, rest) {
      if Models(OnlyModels(sats), m, rest) {
        ModelContains(sats, m, rest);
      }
    }
  }

  /** A decided pass, or one that leaves a single assertion, leaves a minimal core. */
  lemma {:induction false} DecidedIsMinimal<M(!new), T(!new)>(holds: Semantics<M, T>, oracle: Oracle<T>, n: nat, core: seq<T>, index: nat)
    requires index <= |core| && !Satisfiable(holds, core) && SoundPass(holds, oracle, n, core, index)
    requires Decided(oracle, n, core, index)
    requires forall k :: 0 <= k < index ==> Satisfiable(holds, Without(core, k))
    ensures OneMinimal(holds, Swept(oracle, n, core, index))
    decreases |core| - index
  {
    if index < |core| {
      var candidate := Without(core, index);
      if oracle(n, candidate) == Unsat {
        forall k | 0 <= k < index ensures Satisfiable(holds, Without(candidate, k)) {
          if index < |core| { StillNeeded(holds, core, index, k); }
        }
        DecidedIsMinimal(holds, oracle, n + 1, candidate, index);
      } else {
        DecidedIsMinimal(holds, oracle, n + 1, core, index + 1);
      }
    }
  }

  lemma {:induction false} SweptUnsat<M(!new), T>(holds: Semantics<M, T>, oracle: Oracle<T>, n: nat, core: seq<T>, index: nat)
    requires index <= |core| && !Satisfiable(holds, core) && SoundPass(holds, oracle, n, core, index)
    ensures !Satisfiable(holds, Swept(oracle, n, core, index))
    decreases |core| - index
  {
    if index < |core| {
      if oracle(n, Without(core, index)) == Unsat {
        SweptUnsat(holds, oracle, n + 1, Without(core, index), index);
      } else {
        SweptUnsat(holds, oracle, n + 1, core, index + 1);
      }
    }
  }

  lemma {:induction false} SingleIsMinimal<M(00, !new), T>(holds: Semantics<M, T>, core: seq<T>)
    requires |core| <= 1 && !Satisfiable(holds, core)
    ensures OneMinimal(holds, core)
  {
    var m: M :| true;
    forall k | 0 <= k < |core| ensures Satisfiable(holds, Without(core, k)) {
      assert Models(holds, m, Without(core, k));
    }
  }

  /**
   * Exactly when one pass makes the core minimal: whatever the assertions mean, as long as the
   * answers are right, iff every check was decided or a single assertion is left.
   */
  lemma {:induction false} MinimalIffDecided<T(!new)>(meaning: Semantics<seq<T>, T>, oracle: Oracle<T>, n: nat, full: seq<T>)
    requires Consistent(meaning, oracle, n, full)
    ensures (Decided(oracle, n, full, 0) || |Swept(oracle, n, full, 0)| <= 1)
       <==> forall holds: Semantics<seq<T>, T> :: Consistent(holds, oracle, n, full) ==> OneMinimal(holds, Swept(oracle, n, full, 0))
  {
    var final := Swept(oracle, n, full, 0);
    if Decided(oracle, n, full, 0) || |final| <= 1 {
      forall holds: Semantics<seq<T>, T> | Consistent(holds, oracle, n, full) ensures OneMinimal(holds, final) {
        if |final| <= 1 {
          SweptUnsat(holds, oracle, n, full, 0);
          SingleIsMinimal(holds, final);
        } else {
          DecidedIsMinimal(holds, oracle, n, full, 0);
        }
      }
    } else {
      UndecidedSpoils(meaning, oracle, n, full);
    }
  }

  /* ---------- The pass ---------- */

  /** The pass stands at `index` of `core` when these answers are in. */
  ghost predicate StandsAt<T>(oracle: Oracle<T>, n: nat, full: seq<T>, answers: seq<Answer>, core: seq<T>, index: nat) {
    && Answered(oracle, n, full, answers)
    && core == Standing(full, answers) && index == |Surviving(full[..|answers|], answers)|
    && index <= |core| && |core| - index == |full| - |answers|
  }

  lemma {:induction false} StandsFirst<T>(oracle: Oracle<T>, n: nat, full: seq<T>)
    ensures StandsAt(oracle, n, full, [], full, 0)
  {
    assert full[..0] == [] && [] + full[0..] == full;
  }

  /** One check of the pass: an assertion whose check is answered Unsat is dropped, any other kept. */
  lemma {:induction false} StandsNext<T>(oracle: Oracle<T>, n: nat, full: seq<T>, answers: seq<Answer>, core: seq<T>, index: nat, answer: Answer)
    requires StandsAt(oracle, n, full, answers, core, index) && index < |core|
    requires answer == oracle(n + |answers|, Without(core, index))
    ensures if answer == Unsat then StandsAt(oracle, n, full, answers + [answer], Without(core, index), index)
            else StandsAt(oracle, n, full, answers + [answer], core, index + 1)
  {
    CandidateIsWithout(full, answers);
    AnsweredSnoc(oracle, n, full, answers, answer);
    StandingSnoc(full, answers, answer);
  }

  lemma {:induction false} StandsSomewhere<T>(oracle: Oracle<T>, n: nat, full: seq<T>, answers: seq<Answer>)
    requires Answered(oracle, n, full, answers)
    ensures StandsAt(oracle, n, full, answers, Standing(full, answers), |Surviving(full[..|answers|], answers)|)
  {}

  /** The answered checks are the beginning of the pass. */
  lemma {:induction false} StandingIsSwept<T>(oracle: Oracle<T>, n: nat, full: seq<T>, answers: seq<Answer>, core: seq<T>, index: nat)
    requires StandsAt(oracle, n, full, answers, core, index)
    ensures Swept(oracle, n + |answers|, core, index) == Swept(oracle, n, full, 0)
    decreases |answers|
  {
    if answers == [] {
      StandsFirst(oracle, n, full);
    } else {
      var k := |answers| - 1;
      var before, answer := answers[..k], answers[k];
      var core', index' := Standing(full, before), |Surviving(full[..k], before)|;
      AnsweredPrefix(oracle, n, full, answers, k);
      assert AnsweredAt(oracle, n, full, answers, k);
      StandsSomewhere(oracle, n, full, before);
      StandingIsSwept(oracle, n, full, before, core', index');
      CandidateIsWithout(full, before);
      StandsNext(oracle, n, full, before, core', index', answer);
      assert before + [answer] == answers;
      SweptStep(oracle, n + k, core', index');
    }
  }

  lemma {:induction false} SweptStep<T>(oracle: Oracle<T>, n: nat, core: seq<T>, index: nat)
    requires index < |core|
    ensures Swept(oracle, n, core, index) ==
            if oracle(n, Without(core, index)) == Unsat then Swept(oracle, n + 1, Without(core, index), index)
            else Swept(oracle, n + 1, core, index + 1)
  {}

  lemma {:induction false} AnsweredPrefix<T>(oracle: Oracle<T>, n: nat, full: seq<T>, answers: seq<Answer>, k: nat)
    requires Answered(oracle, n, full, answers) && k <= |answers|
    ensures Answered(oracle, n, full, answers[..k])
  {
    forall j | 0 <= j < k ensures AnsweredAt(oracle, n, full, answers[..k], j) {
      assert AnsweredAt(oracle, n, full, answers, j);
      assert answers[..k][..j] == answers[..j];
    }
  }

  lemma {:induction false} SurvivingPositions<T>(tried: seq<T>, answers: seq<Answer>) returns (positions: seq<nat>)
    requires |tried| == |answers|
    ensures SubsequenceAt(Surviving(tried, answers), tried, positions)
  {
    if tried == [] {
      positions := [];
    } else {
      var last := |tried| - 1;
      positions := SurvivingPositions(tried[..last], answers[..last]);
      if answers[last] != Unsat {
        positions := positions + [last];
      }
    }
  }

  /** What stands is a subsequence of the assertions. */
  lemma {:induction false} StandingSubsequence<T>(full: seq<T>, answers: seq<Answer>)
    requires |answers| <= |full|
    ensures Subsequence(Standing(full, answers), full)
  {
    var k := |answers|;
    var kept := SurvivingPositions(full[..k], answers);
    var rest: seq<nat> := seq(|full| - k, j requires 0 <= j < |full| - k => k + j);
    assert SubsequenceAt(Standing(full, answers), full, kept + rest);
  }

  /** With a sound solver what stands stays unsatisfiable. */
  lemma {:induction false} StandingUnsat<M(!new), T(!new)>(holds: Semantics<M, T>, oracle: Oracle<T>, n: nat, full: seq<T>, answers: seq<Answer>)
    requires Answered(oracle, n, full, answers) && Sound(holds, oracle) && !Satisfiable(holds, full)
    ensures !Satisfiable(holds, Standing(full, answers))
  {
    if answers == [] {
      assert full[..0] == [] && [] + full[0..] == full;
    } else {
      var k := |answers| - 1;
      assert answers == answers[..k] + [answers[k]];
      AnsweredPrefix(oracle, n, full, answers, k);
      assert AnsweredAt(oracle, n, full, answers, k);
      StandingUnsat(holds, oracle, n, full, answers[..k]);
      StandingSnoc(full, answers[..k], answers[k]);
    }
  }

  lemma {:induction false} SoundAnswers<M(!new), T(!new)>(holds: Semantics<M, T>, oracle: Oracle<T>, n: nat, core: seq<T>, index: nat)
    requires index <= |core| && Sound(holds, oracle)
    ensures SoundPass(holds, oracle, n, core, index)
    decreases |core| - index
  {
    if index < |core| {
      SoundAnswers(holds, oracle, n + 1, Without(core, index), index);
      SoundAnswers(holds, oracle, n + 1, core, index + 1);
    }
  }

  /**
   * One deletion pass. `expired(n)` says whether the wall-clock budget is found spent when n
   * checks have been made. The answers are those of the deletion checks, one for each assertion
   * tried: exactly the assertions whose check was answered Unsat are missing from the core, and the
   * pass stops at the first check count found expired.
   */
  method MinimizeCore<M(!new), T(!new)>(ctx: Context<T>, ghost holds: Semantics<M, T>, expired: nat -> bool)
    returns (report: Report<T>, ghost answers: seq<Answer>)
    modifies ctx
    ensures report.NoAssertions? <==> old(ctx.assertions) == []
    ensures report.NotReproduced? <==>
              old(ctx.assertions) != [] && ctx.oracle(old(ctx.checks), old(ctx.assertions)) != Unsat
    ensures report.Core? ==>
      && ctx.assertions == report.core && report.total == |old(ctx.assertions)|
      && Answered(ctx.oracle, old(ctx.checks) + 1, old(ctx.assertions), answers)
      && report.core == Surviving(old(ctx.assertions)[..|answers|], answers) + old(ctx.assertions)[|answers|..]
      && ctx.checks == old(ctx.checks) + 2 + |answers|
    ensures report.Core? ==>
      && (report.budgetExhausted <==> |answers| < report.total)
      && (forall m :: 1 <= m - old(ctx.checks) <= |answers| ==> !expired(m))
      && (report.budgetExhausted ==> expired(old(ctx.checks) + 1 + |answers|))
    ensures report.Core? ==>
      && Subsequence(report.core, old(ctx.assertions))
      && (Sound(holds, ctx.oracle) ==> !Satisfiable(holds, report.core))
    ensures report.Core? && !report.budgetExhausted ==>
      && report.core == Swept(ctx.oracle, old(ctx.checks) + 1, old(ctx.assertions), 0)
      && (Sound(holds, ctx.oracle) && Decided(ctx.oracle, old(ctx.checks) + 1, old(ctx.assertions), 0) ==>
            OneMinimal(holds, report.core))
  {
    answers := [];
    var assertions := ctx.assertions;
    var total := |assertions|;
    if assertions == [] {
      report := NoAssertions;
      return;
    }
    var first := ctx.CheckSubset(assertions);
    if first != Unsat {
      report := NotReproduced;
      return;
    }
    var core, budgetExhausted;
    ghost var n := ctx.checks;
    core, budgetExhausted, answers := Sweep(ctx, assertions, expired);
    var _ := ctx.CheckSubset(core);
    report := Core(core, total, budgetExhausted);
    StandingSubsequence(assertions, answers);
    if Sound(holds, ctx.oracle) {
      StandingUnsat(holds, ctx.oracle, n, assertions, answers);
    }
    if !budgetExhausted {
      WholePass(holds, ctx.oracle, n, assertions, answers);
    }
  }

  /** A pass that runs to its end. */
  lemma {:induction false} WholePass<M(!new), T(!new)>(holds: Semantics<M, T>, oracle: Oracle<T>, n: nat, full: seq<T>, answers: seq<Answer>)
    requires Answered(oracle, n, full, answers) && |answers| == |full|
    ensures Standing(full, answers) == Swept(oracle, n, full, 0)
    ensures Sound(holds, oracle) && !Satisfiable(holds, full) && Decided(oracle, n, full, 0) ==>
              OneMinimal(holds, Standing(full, answers))
  {
    StandsSomewhere(oracle, n, full, answers);
    StandingIsSwept(oracle, n, full, answers, Standing(full, answers), |Surviving(full[..|answers|], answers)|);
    if Sound(holds, oracle) && !Satisfiable(holds, full) && Decided(oracle, n, full, 0) {
      SoundAnswers(holds, oracle, n, full, 0);
      DecidedIsMinimal(holds, oracle, n, full, 0);
    }
  }

  /** The loop of the pass. */
  method Sweep<T>(ctx: Context<T>, assertions: seq<T>, expired: nat -> bool)
    returns (core: seq<T>, budgetExhausted: bool, ghost answers: seq<Answer>)
    modifies ctx
    ensures Answered(ctx.oracle, old(ctx.checks), assertions, answers) && core == Standing(assertions, answers)
    ensures ctx.checks == old(ctx.checks) + |answers|
    ensures budgetExhausted <==> |answers| < |assertions|
    ensures forall m :: 0 <= m - old(ctx.checks) < |answers| ==> !expired(m)
    ensures budgetExhausted ==> expired(ctx.checks)
  {
    core, budgetExhausted, answers := assertions, false, [];
    var index := 0;
    StandsFirst(ctx.oracle, ctx.checks, assertions);
    while index < |core|
      invariant StandsAt(ctx.oracle, old(ctx.checks), assertions, answers, core, index)
      invariant ctx.checks == old(ctx.checks) + |answers|
      invariant forall m :: 0 <= m - old(ctx.checks) < |answers| ==> !expired(m)
      invariant !budgetExhausted
      decreases |core| - index
    {
      if expired(ctx.checks) {
        budgetExhausted := true;
        break;
      }
      var candidate := core[..index] + core[index + 1..];
      assert candidate == Without(core, index);
      var answer := ctx.CheckSubset(candidate);
      StandsNext(ctx.oracle, old(ctx.checks), assertions, answers, core, index, answer);
      if answer == Unsat {
        core := candidate;
      } else {
        index := index + 1;
      }
      answers := answers + [answer];
    }
  }

  /**
   * A sound solver that gives up can leave a core that is not minimal: of two assertions the first
   * is unsatisfiable alone, but the solver refutes it only with the second beside it.
   */
  lemma UnknownLosesMinimality() returns (holds: Semantics<int, int>, oracle: Oracle<int>, core: seq<int>)
    ensures Sound(holds, oracle)
    ensures oracle(0, [0, 1]) == Unsat && core == Swept(oracle, 1, [0, 1], 0) == [0, 1]
    ensures !OneMinimal(holds, core)
  {
    holds := (m, t) => t != 0 && m == t;
    oracle := (n, ts) => if ts == [0, 1] then Unsat else Unknown;
    core := [0, 1];
    ZeroFails(holds, [0, 1]);
    ZeroFails(holds, [0]);
    assert Without(core, 0) == [1] && Without(core, 1) == [0];
    assert Swept(oracle, 1, core, 0) == Swept(oracle, 2, core, 1) == Swept(oracle, 3, core, 2) == core;
  }

  lemma ZeroFails(holds: Semantics<int, int>, ts: seq<int>)
    requires (forall m: int :: !holds(m, 0)) && ts != [] && ts[0] == 0
    ensures !Satisfiable(holds, ts)
  {
    forall m: int ensures !Models(holds, m, ts) {
      assert !holds(m, ts[0]);
    }
  }
}
