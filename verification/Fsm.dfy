/** Guarded nondeterministic automata with epsilon transitions, and what it means to accept a word. */
module Fsm {

  datatype Label = Sym(symbol: nat) | Eps

  datatype Transition = Transition(src: nat, dst: nat, lbl: Label)

  /** Guards go by name: an epsilon guard's name mentions its source only. */
  datatype Guard = EpsGuard(src: nat) | SymGuard(src: nat, symbol: nat, dst: nat)

  type Guards = Guard -> bool

  function GuardName(t: Transition): Guard {
    match t.lbl
    case Eps => EpsGuard(t.src)
    case Sym(s) => SymGuard(t.src, s, t.dst)
  }

  /** Only the epsilon transitions of one state share a guard. */
  lemma GuardShared(t: Transition, u: Transition)
    ensures GuardName(t) == GuardName(u) <==> t == u || (t.lbl == Eps && u.lbl == Eps && t.src == u.src)
  {
  }

  datatype Nfa = Nfa(states: nat, initial: nat, accepting: seq<nat>, transitions: seq<Transition>) {
    predicate Valid() {
      && initial < states
      && (forall k :: 0 <= k < |accepting| ==> accepting[k] < states)
      && (forall k :: 0 <= k < |transitions| ==> transitions[k].src < states && transitions[k].dst < states)
    }
  }

  type Word = seq<nat>

  /** An enabled transition from `src` to `dst` under the label. */
  ghost predicate Edge(a: Nfa, g: Guards, src: nat, lbl: Label, dst: nat) {
    exists k :: 0 <= k < |a.transitions| && a.transitions[k] == Transition(src, dst, lbl) && g(GuardName(a.transitions[k]))
  }

  /** `path` lists the transitions of a run from the initial state that reads w and ends in q. */
  ghost predicate RunReads(a: Nfa, g: Guards, path: seq<Transition>, w: Word, q: nat) {
    if path == [] then w == [] && q == a.initial
    else
      var t := path[|path| - 1];
      && t.dst == q && Edge(a, g, t.src, t.lbl, t.dst)
      && match t.lbl
         case Eps => RunReads(a, g, path[..|path| - 1], w, t.src)
         case Sym(s) => w != [] && w[|w| - 1] == s && RunReads(a, g, path[..|path| - 1], w[..|w| - 1], t.src)
  }

  ghost predicate Reaches(a: Nfa, g: Guards, w: Word, q: nat) {
    exists path :: RunReads(a, g, path, w, q)
  }

  ghost predicate Accepts(a: Nfa, g: Guards, w: Word) {
    exists k :: 0 <= k < |a.accepting| && Reaches(a, g, w, a.accepting[k])
  }

  /**
   * The candidate automaton's transitions: stay, advance and jump under every symbol, and an
   * epsilon advance from every other state. No two of them share a guard, so no guard is
   * declared twice.
   */
  method CandidateTransitions(n: nat, alphabet: nat) returns (out: seq<Transition>)
    ensures forall t :: t in out ==>
      && t.src < n && t.dst < n
      && match t.lbl
         case Eps => t.src % 2 == 0 && t.dst == (t.src + 1) % n
         case Sym(s) => s < alphabet && (t.dst == t.src || t.dst == (t.src + 1) % n || t.dst == (t.src * s + 3) % n)
    ensures forall q, s :: 0 <= q < n && 0 <= s < alphabet ==>
      && Transition(q, q, Sym(s)) in out
      && Transition(q, (q + 1) % n, Sym(s)) in out
      && Transition(q, (q * s + 3) % n, Sym(s)) in out
    ensures forall q :: 0 <= q < n && q % 2 == 0 ==> Transition(q, (q + 1) % n, Eps) in out
    ensures forall j, k :: 0 <= j < k < |out| ==> GuardName(out[j]) != GuardName(out[k])
  {
    out := CandidateRows(n, alphabet);
    forall q, s | 0 <= q < n && 0 <= s < alphabet
      ensures Transition(q, q, Sym(s)) in out
      ensures Transition(q, (q + 1) % n, Sym(s)) in out
      ensures Transition(q, (q * s + 3) % n, Sym(s)) in out
    {
      assert Covered(out, n, q, alphabet);
    }
    forall t | t in out ensures IsCandidate(t, n) && t.src < n && t.dst < n && (t.lbl == Eps || t.lbl.symbol < alphabet) {
      var k :| 0 <= k < |out| && out[k] == t;
      assert IsCandidate(out[k], n);
    }
  }

  /** Row by row. */
  method CandidateRows(n: nat, alphabet: nat) returns (out: seq<Transition>)
    ensures Candidates(out, n, alphabet, n, 0)
    ensures forall q :: 0 <= q < n ==> Covered(out, n, q, alphabet)
    ensures forall q :: 0 <= q < n && q % 2 == 0 ==> Transition(q, (q + 1) % n, Eps) in out
  {
    out := [];
    for q := 0 to n
      invariant Candidates(out, n, alphabet, q, 0)
      invariant forall q' :: 0 <= q' < q ==> Covered(out, n, q', alphabet)
      invariant forall q' :: 0 <= q' < q && q' % 2 == 0 ==> Transition(q', (q' + 1) % n, Eps) in out
    {
      ghost var before := out;
      out := AddRow(out, n, alphabet, q);
      forall q' | 0 <= q' < q ensures Covered(out, n, q', alphabet) {
        CoveredGrows(before, out, n, q', alphabet);
      }
    }
  }

  lemma CoveredGrows(out: seq<Transition>, out': seq<Transition>, n: nat, q: nat, symbols: nat)
    requires n > 0 && out <= out' && Covered(out, n, q, symbols)
    ensures Covered(out', n, q, symbols)
  {
  }

  /** All of state q's transitions. */
  method AddRow(out: seq<Transition>, n: nat, alphabet: nat, q: nat) returns (out': seq<Transition>)
    requires q < n && Candidates(out, n, alphabet, q, 0)
    ensures out <= out' && Candidates(out', n, alphabet, q + 1, 0)
    ensures Covered(out', n, q, alphabet)
    ensures q % 2 == 0 ==> Transition(q, (q + 1) % n, Eps) in out'
  {
    out' := out;
    for s := 0 to alphabet
      invariant out <= out'
      invariant Candidates(out', n, alphabet, q, s)
      invariant Covered(out', n, q, s)
    {
      ghost var before := out';
      out' := AddTargets(out', n, alphabet, q, s);
      CoveredGrows(before, out', n, q, s);
    }
    if q % 2 == 0 {
      ghost var before := out';
      EpsilonAdds(before, n, alphabet, q);
      out' := out' + [Transition(q, (q + 1) % n, Eps)];
      CoveredGrows(before, out', n, q, alphabet);
    }
  }

  lemma EpsilonAdds(out: seq<Transition>, n: nat, alphabet: nat, q: nat)
    requires q < n && q % 2 == 0 && Candidates(out, n, alphabet, q, alphabet)
    ensures Candidates(out + [Transition(q, (q + 1) % n, Eps)], n, alphabet, q + 1, 0)
  {
  }

  /** The row of state q under one symbol, duplicates skipped. */
  method AddTargets(out: seq<Transition>, n: nat, alphabet: nat, q: nat, s: nat) returns (out': seq<Transition>)
    requires q < n && s < alphabet && Candidates(out, n, alphabet, q, s)
    ensures out <= out' && Candidates(out', n, alphabet, q, s + 1)
    ensures Transition(q, q, Sym(s)) in out' && Transition(q, (q + 1) % n, Sym(s)) in out'
    ensures Transition(q, Jump(q, s, n), Sym(s)) in out'
  {
    var targets := [q, (q + 1) % n, Jump(q, s, n)];
    out' := out;
    for d := 0 to 3
      invariant out <= out' && Candidates(out', n, alphabet, q, s + 1)
      invariant forall d' :: 0 <= d' < d ==> Transition(q, targets[d'], Sym(s)) in out'
    {
      var t := Transition(q, targets[d], Sym(s));
      if t !in out' {
        out' := out' + [t];
      }
    }
    assert Transition(q, targets[0], Sym(s)) in out' && Transition(q, targets[1], Sym(s)) in out'
        && Transition(q, targets[2], Sym(s)) in out';
  }

  function Jump(q: nat, s: nat, n: nat): (d: nat)
    requires n > 0
    ensures d < n
  {
    (q * s + 3) % n
  }

  /** A stay, an advance or a jump, or an even state's epsilon advance. */
  predicate IsCandidate(t: Transition, n: nat) {
    && n > 0
    && match t.lbl
       case Eps => t.src % 2 == 0 && t.dst == (t.src + 1) % n
       case Sym(s) => t.dst == t.src || t.dst == (t.src + 1) % n || t.dst == Jump(t.src, s, n)
  }

  /** Stay, advance and jump are there for every symbol below `symbols`. */
  ghost predicate Covered(out: seq<Transition>, n: nat, q: nat, symbols: nat)
    requires n > 0
  {
    forall s :: 0 <= s < symbols ==>
      && Transition(q, q, Sym(s)) in out
      && Transition(q, (q + 1) % n, Sym(s)) in out
      && Transition(q, Jump(q, s, n), Sym(s)) in out
  }

  /** Sources below q, or q itself with symbols below s; guards pairwise distinct. */
  ghost predicate Candidates(out: seq<Transition>, n: nat, alphabet: nat, q: nat, s: nat) {
    && (forall k :: 0 <= k < |out| ==> out[k].src < n && out[k].dst < n)
    && (forall k :: 0 <= k < |out| ==> out[k].src < q || (out[k].src == q && out[k].lbl.Sym? && out[k].lbl.symbol < s))
    && (forall k :: 0 <= k < |out| ==> out[k].lbl == Eps || out[k].lbl.symbol < alphabet)
    && (forall k :: 0 <= k < |out| ==> IsCandidate(out[k], n))
    && (forall j, k :: 0 <= j < k < |out| ==> GuardName(out[j]) != GuardName(out[k]))
  }
}
