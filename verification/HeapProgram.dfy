/** Heap workloads as instruction programs with scopes. */
module HeapProgram {
  import opened Wrappers
  import opened HeapCase

  // The parser keeps scopes as truncation marks into one list; the reference is a stack of frames.

  datatype Instr =
    | DeclOffset(base: int, delta: int)
    | DeclHeap(symbolic: bool, cells: seq<(int, int)>)
    | DeclNot(f: int)
    | DeclAnd(fs: seq<int>)
    | DeclOr(fs: seq<int>)
    | DoBound(t: int, lo: int, hi: int)
    | DoEq(s: int, t: int)
    | DoAssert(f: int, polarity: bool)
    | Push
    | Pop
    | Check

  type Program = seq<Instr>

  /** What has been declared; `closed` once a scope or a check was seen. */
  datatype Decls = Decls(terms: seq<Term>, heaps: seq<Heaplet>, formulas: seq<Node>, closed: bool)

  predicate InRange(i: int, n: nat) {
    0 <= i < n
  }

  predicate AllInRange(fs: seq<int>, n: nat) {
    forall k :: 0 <= k < |fs| ==> InRange(fs[k], n)
  }

  function Indices(fs: seq<int>, n: nat): seq<nat>
    requires AllInRange(fs, n)
  {
    seq(|fs|, k requires 0 <= k < |fs| => fs[k])
  }

  predicate CellsInRange(cells: seq<(int, int)>, symbolic: bool, n: nat) {
    forall k :: 0 <= k < |cells| ==> InRange(cells[k].0, n) && (symbolic ==> InRange(cells[k].1, n))
  }

  function CellsOf(cells: seq<(int, int)>, symbolic: bool, n: nat): Heaplet
    requires CellsInRange(cells, symbolic, n)
  {
    seq(|cells|, k requires 0 <= k < |cells| =>
      Cell(cells[k].0, if symbolic then TermValue(cells[k].1) else Constant(cells[k].1)))
  }

  /** A declaration's effect; None when one of the parser's assertions fails. */
  function Declare(d: Decls, i: Instr): Option<Decls> {
    match i
    case DeclOffset(b, k) =>
      if InRange(b, |d.terms|) then Some(d.(terms := d.terms + [Offset(b, k)])) else None
    case DeclHeap(symbolic, cells) =>
      if !d.closed && CellsInRange(cells, symbolic, |d.terms|)
      then Some(d.(formulas := d.formulas + [HeapAtom(|d.heaps|)], heaps := d.heaps + [CellsOf(cells, symbolic, |d.terms|)]))
      else None
    case DeclNot(f) =>
      if InRange(f, |d.formulas|) then Some(d.(formulas := d.formulas + [Not(f)])) else None
    case DeclAnd(fs) =>
      if AllInRange(fs, |d.formulas|) then Some(d.(formulas := d.formulas + [And(Indices(fs, |d.formulas|))])) else None
    case DeclOr(fs) =>
      if AllInRange(fs, |d.formulas|) then Some(d.(formulas := d.formulas + [Or(Indices(fs, |d.formulas|))])) else None
    case _ => Some(d)
  }

  /** The constraint an instruction adds to the live ones, if it is one and its references exist. */
  function ConstraintOf(d: Decls, i: Instr): Option<Constraint> {
    match i
    case DoBound(t, lo, hi) => if InRange(t, |d.terms|) && lo <= hi then Some(Bound(t, lo, hi)) else None
    case DoEq(s, t) => if InRange(s, |d.terms|) && InRange(t, |d.terms|) then Some(Eq(s, t)) else None
    case DoAssert(f, p) => if InRange(f, |d.formulas|) then Some(Assert(f, p)) else None
    case _ => None
  }

  predicate IsConstraint(i: Instr) {
    i.DoBound? || i.DoEq? || i.DoAssert?
  }

  predicate IsDeclaration(i: Instr) {
    i.DeclOffset? || i.DeclHeap? || i.DeclNot? || i.DeclAnd? || i.DeclOr?
  }

  /* ---------- The parser: one list of live constraints, and marks ---------- */

  datatype Marked = Marked(decls: Decls, active: seq<Constraint>, scopes: seq<nat>, checks: seq<seq<Constraint>>)

  /** One instruction; None is a failed assertion. */
  function StepMarked(s: Marked, i: Instr): Option<Marked> {
    if IsDeclaration(i) then
      match Declare(s.decls, i) case None => None case Some(d) => Some(s.(decls := d))
    else if IsConstraint(i) then
      match ConstraintOf(s.decls, i) case None => None case Some(c) => Some(s.(active := s.active + [c]))
    else match i
      case Push => Some(s.(decls := s.decls.(closed := true), scopes := s.scopes + [|s.active|]))
      case Pop =>
        if s.scopes == [] then None
        else
          var mark := s.scopes[|s.scopes| - 1];
          Some(s.(active := if mark <= |s.active| then s.active[..mark] else s.active,
                  scopes := s.scopes[..|s.scopes| - 1]))
      case _ => Some(s.(decls := s.decls.(closed := true), checks := s.checks + [s.active]))
  }

  function RunMarked(s: Marked, program: Program): Option<Marked>
    decreases |program|
  {
    if program == [] then Some(s)
    else match StepMarked(s, program[0])
      case None => None
      case Some(s') => RunMarked(s', program[1..])
  }

  function Fresh(count: nat): Decls {
    Decls(seq(count, i requires 0 <= i < count => Var(i)), [], [], false)
  }

  function StartMarked(count: nat): Marked {
    Marked(Fresh(count), [], [], [])
  }

  function CaseFrom(count: nat, d: Decls, checks: seq<seq<Constraint>>): Case {
    Case(count, d.terms, d.heaps, d.formulas, checks)
  }

  /** All scopes closed; a program without checks is checked once at its end. */
  function FinishMarked(count: nat, s: Marked): Option<Case> {
    if s.scopes != [] then None
    else Some(CaseFrom(count, s.decls, if s.checks == [] then [s.active] else s.checks))
  }

  function Parsed(count: nat, program: Program): Option<Case> {
    match RunMarked(StartMarked(count), program)
    case None => None
    case Some(s) => FinishMarked(count, s)
  }

  method Parse(count: nat, program: Program) returns (r: Option<Case>)
    ensures r == Parsed(count, program)
  {
    var s := StartMarked(count);
    for k := 0 to |program|
      invariant RunMarked(StartMarked(count), program) == RunMarked(s, program[k..])
    {
      assert program[k..][0] == program[k] && program[k..][1..] == program[k + 1..];
      var step := StepMarked(s, program[k]);
      if step.None? {
        return None;
      }
      s := step.value;
    }
    r := FinishMarked(count, s);
  }

  /* ---------- The reference: a stack of frames ---------- */

  datatype Framed = Framed(decls: Decls, frames: seq<seq<Constraint>>, checks: seq<seq<Constraint>>)

  function Live(frames: seq<seq<Constraint>>): seq<Constraint> {
    if frames == [] then [] else Live(frames[..|frames| - 1]) + frames[|frames| - 1]
  }

  function StepFramed(s: Framed, i: Instr): Option<Framed>
    requires s.frames != []
  {
    var top := |s.frames| - 1;
    if IsDeclaration(i) then
      match Declare(s.decls, i) case None => None case Some(d) => Some(s.(decls := d))
    else if IsConstraint(i) then
      match ConstraintOf(s.decls, i) case None => None case Some(c) => Some(s.(frames := s.frames[top := s.frames[top] + [c]]))
    else match i
      case Push => Some(s.(decls := s.decls.(closed := true), frames := s.frames + [[]]))
      case Pop => if top == 0 then None else Some(s.(frames := s.frames[..top]))
      case _ => Some(s.(decls := s.decls.(closed := true), checks := s.checks + [Live(s.frames)]))
  }

  /** The marks are the live lengths below each open frame. */
  ghost predicate Represents(m: Marked, f: Framed) {
    && m.decls == f.decls && m.checks == f.checks
    && f.frames != [] && m.active == Live(f.frames)
    && |m.scopes| == |f.frames| - 1
    && forall k :: 1 <= k <= |m.scopes| ==> m.scopes[k - 1] == |Live(f.frames[..k])|
  }

  /** Truncating to the mark is popping the frame: every step keeps the representation. */
  lemma {:induction false} StepRepresents(m: Marked, f: Framed, i: Instr)
    requires Represents(m, f)
    ensures StepMarked(m, i).Some? <==> StepFramed(f, i).Some?
    ensures StepMarked(m, i).Some? ==> Represents(StepMarked(m, i).value, StepFramed(f, i).value)
  {
    var top := |f.frames| - 1;
    if StepMarked(m, i).Some? && !IsDeclaration(i) {
      var f' := StepFramed(f, i).value;
      if IsConstraint(i) {
        var c := ConstraintOf(f.decls, i).value;
        assert f'.frames[..top] == f.frames[..top];
        assert Live(f'.frames) == Live(f.frames[..top]) + (f.frames[top] + [c]) == Live(f.frames) + [c];
        assert forall k :: 1 <= k <= top ==> f'.frames[..k] == f.frames[..k];
      } else if i == Push {
        assert f'.frames[..top + 1] == f.frames;
        assert Live(f'.frames) == Live(f.frames);
        assert forall k :: 1 <= k <= top ==> f'.frames[..k] == f.frames[..k];
      } else if i == Pop {
        assert m.scopes[top - 1] == |Live(f.frames[..top])|;
        assert Live(f.frames) == Live(f.frames[..top]) + f.frames[top];
        assert forall k :: 1 <= k <= top - 1 ==> f'.frames[..k] == f.frames[..k];
      }
    }
  }

  function RunFramed(s: Framed, program: Program): Option<Framed>
    requires s.frames != []
    decreases |program|
  {
    if program == [] then Some(s)
    else match StepFramed(s, program[0])
      case None => None
      case Some(s') => if s'.frames == [] then None else RunFramed(s', program[1..])
  }

  lemma {:induction false} RunRepresents(m: Marked, f: Framed, program: Program)
    requires Represents(m, f)
    ensures RunMarked(m, program).Some? <==> RunFramed(f, program).Some?
    ensures RunMarked(m, program).Some? ==> Represents(RunMarked(m, program).value, RunFramed(f, program).value)
    decreases |program|
  {
    if program != [] {
      StepRepresents(m, f, program[0]);
      if StepMarked(m, program[0]).Some? {
        RunRepresents(StepMarked(m, program[0]).value, StepFramed(f, program[0]).value, program[1..]);
      }
    }
  }

  function ParsedFramed(count: nat, program: Program): Option<Case> {
    match RunFramed(Framed(Fresh(count), [[]], []), program)
    case None => None
    case Some(s) =>
      if |s.frames| != 1 then None
      else Some(CaseFrom(count, s.decls, if s.checks == [] then [Live(s.frames)] else s.checks))
  }

  /** For every program the parser's checks see exactly the constraints live in the stack of frames. */
  lemma {:induction false} MarksAreFrames(count: nat, program: Program)
    ensures Parsed(count, program) == ParsedFramed(count, program)
  {
    var frames: seq<seq<Constraint>> := [[]];
    var f := Framed(Fresh(count), frames, []);
    assert Live(frames) == [] by { assert frames[..0] == []; }
    assert Represents(StartMarked(count), f);
    RunRepresents(StartMarked(count), f, program);
  }

  /* ---------- Parsed cases are well-formed ---------- */

  predicate DeclsOk(d: Decls, count: nat) {
    && TermsOk(d.terms, count)
    && (forall k :: 0 <= k < |d.heaps| ==> HeapletOk(d.heaps[k], |d.terms|))
    && (forall k :: 0 <= k < |d.formulas| ==> NodeOk(d.formulas[k], k, |d.heaps|))
  }

  predicate MarkedOk(s: Marked, count: nat) {
    && DeclsOk(s.decls, count)
    && ConstraintsOk(s.active, |s.decls.terms|, |s.decls.formulas|)
    && (forall k :: 0 <= k < |s.checks| ==> ConstraintsOk(s.checks[k], |s.decls.terms|, |s.decls.formulas|))
  }

  lemma {:induction false} DeclareOk(d: Decls, i: Instr, count: nat)
    requires DeclsOk(d, count) && IsDeclaration(i) && Declare(d, i).Some?
    ensures DeclsOk(Declare(d, i).value, count)
    ensures |d.terms| <= |Declare(d, i).value.terms| && |d.formulas| <= |Declare(d, i).value.formulas|
  {
    var d' := Declare(d, i).value;
    if i.DeclHeap? {
      forall k | 0 <= k < |d'.heaps| ensures HeapletOk(d'.heaps[k], |d'.terms|) {
        if k < |d.heaps| {
          assert HeapletOk(d.heaps[k], |d.terms|);
        }
      }
      forall k | 0 <= k < |d'.formulas| ensures NodeOk(d'.formulas[k], k, |d'.heaps|) {
        if k < |d.formulas| {
          assert NodeOk(d.formulas[k], k, |d.heaps|);
        }
      }
    } else if i.DeclOffset? {
      forall k | 0 <= k < |d'.heaps| ensures HeapletOk(d'.heaps[k], |d'.terms|) {
        assert HeapletOk(d.heaps[k], |d.terms|);
      }
    } else {
      forall k | 0 <= k < |d'.formulas| ensures NodeOk(d'.formulas[k], k, |d'.heaps|) {
        if k < |d.formulas| {
          assert NodeOk(d.formulas[k], k, |d.heaps|);
        }
      }
    }
  }

  lemma {:induction false} ConstraintsGrow(cs: seq<Constraint>, t: nat, f: nat, t': nat, f': nat)
    requires ConstraintsOk(cs, t, f) && t <= t' && f <= f'
    ensures ConstraintsOk(cs, t', f')
  {
    forall k | 0 <= k < |cs| ensures ConstraintOk(cs[k], t', f') {
      assert ConstraintOk(cs[k], t, f);
    }
  }

  lemma {:induction false} StepOk(s: Marked, i: Instr, count: nat)
    requires MarkedOk(s, count) && StepMarked(s, i).Some?
    ensures MarkedOk(StepMarked(s, i).value, count)
  {
    var s' := StepMarked(s, i).value;
    if IsDeclaration(i) {
      DeclareOk(s.decls, i, count);
      var t, f, t', f' := |s.decls.terms|, |s.decls.formulas|, |s'.decls.terms|, |s'.decls.formulas|;
      ConstraintsGrow(s.active, t, f, t', f');
      forall k | 0 <= k < |s.checks| ensures ConstraintsOk(s'.checks[k], t', f') {
        ConstraintsGrow(s.checks[k], t, f, t', f');
      }
    }
  }

  lemma {:induction false} RunOk(s: Marked, program: Program, count: nat)
    requires MarkedOk(s, count) && RunMarked(s, program).Some?
    ensures MarkedOk(RunMarked(s, program).value, count)
    decreases |program|
  {
    if program != [] {
      StepOk(s, program[0], count);
      RunOk(StepMarked(s, program[0]).value, program[1..], count);
    }
  }

  /** Whatever the parser accepts, the checker and the encoder can evaluate. */
  lemma {:induction false} ParsedWellFormed(count: nat, program: Program)
    requires Parsed(count, program).Some?
    ensures WellFormed(Parsed(count, program).value)
    ensures Parsed(count, program).value.count == count && Parsed(count, program).value.checks != []
  {
    RunOk(StartMarked(count), program, count);
  }
}
