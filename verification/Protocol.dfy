/** The coordinator as a labelled step relation. */
module Protocol {
  import opened Wrappers
  import opened Cubes

  // One step is one critical section of one thread (or one atomic access): accepting a
  // connection, a handler's registration, its pick of a cube under the cube lock, its
  // recording of the owner under the worker lock, a result's two halves, the aggregator's
  // region, the watchdog's removal and re-queue, and the final verdict's reads. Steps of
  // all threads interleave freely, also where the code would hold a lock across two of
  // them, so every run of the code is a run of this relation.

  type CubeId = nat
  type WorkerId = string
  type HandlerId = nat

  datatype CubeState = CubeState(assumptions: Cube, taken: bool, completed: bool, result: Option<Status>)

  datatype Report = Report(cube: CubeId, status: Status)

  /** Where a handler thread stands between its critical sections. */
  datatype HandlerPc = Starting | Serving | Picked(cube: CubeId) | Reporting(report: Report) | Gone

  datatype Handler = Handler(worker: WorkerId, pc: HandlerPc)

  datatype AggregatorPc = Listening | Finishing | Ended

  datatype CoordinatorPc = Watching | Requeueing(cube: CubeId) | Closing | Judging | Decided(verdict: Status)

  /**
   * `log` is every report the aggregator has taken off the channel, oldest first; `picks`
   * and `requeues` count the hand-outs and the timeouts that gave a cube back. The code
   * keeps none of the three.
   */
  datatype State = State(
    cubes: map<CubeId, CubeState>,
    workers: map<WorkerId, Option<CubeId>>,
    handlers: map<HandlerId, Handler>,
    queue: seq<Report>,
    foundSat: bool,
    allDone: bool,
    aggregator: AggregatorPc,
    coordinator: CoordinatorPc,
    log: seq<Report>,
    picks: nat,
    requeues: nat)

  datatype Event =
    | Accept(h: HandlerId, w: WorkerId)
    | Register(h: HandlerId)
    | Pick(h: HandlerId, c: CubeId)
    | RecordOwner(h: HandlerId)
    | ReceiveResult(h: HandlerId, report: Report)
    | SendResult(h: HandlerId)
    | Disconnect(h: HandlerId)
    | Crash(h: HandlerId)
    | Aggregate
    | AnnounceDone
    | TimeOut(w: WorkerId)
    | Requeue
    | Observe
    | ReadFoundSat
    | Judge

  ghost predicate Init(cubes: seq<Cube>, s: State) {
    s == State(
      map i | 0 <= i < |cubes| :: CubeState(cubes[i], false, false, None),
      map[], map[], [], false, false, Listening, Watching, [], 0, 0)
  }

  predicate HandlerAt(s: State, h: HandlerId) {
    h in s.handlers
  }

  function SetPc(s: State, h: HandlerId, pc: HandlerPc): map<HandlerId, Handler>
    requires HandlerAt(s, h)
  {
    s.handlers[h := s.handlers[h].(pc := pc)]
  }

  predicate Available(s: State, c: CubeId) {
    c in s.cubes && !s.cubes[c].taken && !s.cubes[c].completed
  }

  /** The reports are trusted only this far: one for a cube of the table does not lie about it. */
  ghost predicate CorrectReport(p: Problem, s: State, r: Report) {
    r.cube in s.cubes ==> CorrectFor(p, s.cubes[r.cube].assumptions, r.status)
  }

  predicate AllCompleted(cubes: map<CubeId, CubeState>) {
    forall c :: c in cubes ==> cubes[c].completed
  }

  predicate AllUnsat(cubes: map<CubeId, CubeState>) {
    forall c :: c in cubes ==> cubes[c].result == Some(Unsat)
  }

  /** The aggregator's region for one report: complete the cube, then decide whether the search is over. */
  function Aggregated(s: State, r: Report): State {
    var cubes := if r.cube in s.cubes
                 then s.cubes[r.cube := s.cubes[r.cube].(completed := true, result := Some(r.status))]
                 else s.cubes;
    var sat := r.cube in s.cubes && r.status == Sat;
    s.(cubes := cubes,
       log := s.log + [r],
       foundSat := s.foundSat || sat,
       aggregator := if sat || AllCompleted(cubes) then Finishing else Listening)
  }

  ghost predicate Next(p: Problem, s: State, e: Event, s': State) {
    match e
    case Accept(h, w) =>
      s.coordinator == Watching && h !in s.handlers &&
      s' == s.(handlers := s.handlers[h := Handler(w, Starting)])
    case Register(h) =>
      HandlerAt(s, h) && s.handlers[h].pc == Starting &&
      s' == s.(workers := s.workers[s.handlers[h].worker := None], handlers := SetPc(s, h, Serving))
    case Pick(h, c) =>
      HandlerAt(s, h) && s.handlers[h].pc == Serving && Available(s, c) &&
      s' == s.(cubes := s.cubes[c := s.cubes[c].(taken := true)],
               handlers := SetPc(s, h, Picked(c)), picks := s.picks + 1)
    case RecordOwner(h) =>
      HandlerAt(s, h) && s.handlers[h].pc.Picked? &&
      var w, c := s.handlers[h].worker, s.handlers[h].pc.cube;
      s' == s.(workers := if w in s.workers then s.workers[w := Some(c)] else s.workers,
               handlers := SetPc(s, h, Serving))
    case ReceiveResult(h, r) =>
      HandlerAt(s, h) && s.handlers[h].pc == Serving && CorrectReport(p, s, r) &&
      var w := s.handlers[h].worker;
      s' == s.(workers := if w in s.workers then s.workers[w := None] else s.workers,
               handlers := SetPc(s, h, Reporting(r)))
    case SendResult(h) =>
      HandlerAt(s, h) && s.handlers[h].pc.Reporting? &&
      s' == s.(queue := if s.aggregator == Ended then s.queue else s.queue + [s.handlers[h].pc.report],
               handlers := SetPc(s, h, Serving))
    case Disconnect(h) =>
      HandlerAt(s, h) && s.handlers[h].pc == Serving &&
      s' == s.(workers := s.workers - {s.handlers[h].worker}, handlers := SetPc(s, h, Gone))
    case Crash(h) =>
      HandlerAt(s, h) && s.handlers[h].pc in {Starting, Serving} &&
      s' == s.(handlers := SetPc(s, h, Gone))
    case Aggregate =>
      s.aggregator == Listening && s.queue != [] &&
      s' == Aggregated(s.(queue := s.queue[1..]), s.queue[0])
    case AnnounceDone =>
      s.aggregator == Finishing && s' == s.(allDone := true, aggregator := Ended)
    case TimeOut(w) =>
      s.coordinator == Watching && w in s.workers &&
      s' == s.(workers := s.workers - {w},
               coordinator := if s.workers[w].Some? then Requeueing(s.workers[w].value) else Watching)
    case Requeue =>
      s.coordinator.Requeueing? &&
      var c := s.coordinator.cube;
      if c in s.cubes && !s.cubes[c].completed
      then s' == s.(cubes := s.cubes[c := s.cubes[c].(taken := false)],
                    coordinator := Watching, requeues := s.requeues + 1)
      else s' == s.(coordinator := Watching)
    case Observe =>
      s.coordinator == Watching && s.allDone && s' == s.(coordinator := Closing)
    case ReadFoundSat =>
      s.coordinator == Closing &&
      s' == s.(coordinator := if s.foundSat then Decided(Sat) else Judging)
    case Judge =>
      s.coordinator == Judging &&
      s' == s.(coordinator := Decided(if AllUnsat(s.cubes) then Unsat else Unknown))
  }

  /** A finite run: the states and, between consecutive ones, the events. */
  datatype Run = Run(states: seq<State>, events: seq<Event>) {
    function Last(): State requires |states| > 0 { states[|states| - 1] }
  }

  ghost predicate IsRun(p: Problem, cubes: seq<Cube>, r: Run) {
    && |r.states| == |r.events| + 1
    && Init(cubes, r.states[0])
    && forall i :: 0 <= i < |r.events| ==> Next(p, r.states[i], r.events[i], r.states[i + 1])
  }

  /* ---------- Ownership ---------- */

  /** Who may hold a cube: a registered worker, a handler between pick and record, the watchdog. */
  datatype Holder = Worker(w: WorkerId) | InHand(h: HandlerId) | Watchdog

  predicate Holds(s: State, holder: Holder, c: CubeId) {
    match holder
    case Worker(w) => w in s.workers && s.workers[w] == Some(c)
    case InHand(h) => h in s.handlers && s.handlers[h].pc == Picked(c)
    case Watchdog => s.coordinator == Requeueing(c)
  }

  ghost predicate Owned(s: State) {
    && (forall o, c :: Holds(s, o, c) ==> c in s.cubes && s.cubes[c].taken)
    && (forall o, o', c :: Holds(s, o, c) && Holds(s, o', c) ==> o == o')
  }

  function TakenCubes(s: State): set<CubeId> {
    set c | c in s.cubes && s.cubes[c].taken
  }

  ghost predicate Counted(s: State) {
    s.picks == s.requeues + |TakenCubes(s)|
  }

  /** Who holds a cube after a step held it before, or has just picked it. */
  lemma HeldBefore(p: Problem, s: State, e: Event, s': State, o: Holder, c: CubeId)
    requires Next(p, s, e, s') && Holds(s', o, c)
    ensures (e.Pick? && e.c == c && o == InHand(e.h)) || Holds(s, Origin(s, e, o, c), c)
  {}

  /** A held cube is not given back: the watchdog alone gives back, and then holds the cube itself. */
  lemma {:induction false} HeldStaysTaken(p: Problem, s: State, e: Event, s': State, o: Holder, c: CubeId)
    requires Next(p, s, e, s') && Owned(s) && Holds(s', o, c)
    ensures c in s'.cubes && s'.cubes[c].taken
  {
    HeldBefore(p, s, e, s', o, c);
    CubesStep(p, s, e, s');
    if RequeuesCube(s, e, c) {
      assert Holds(s, Watchdog, c);
    }
    if !e.Pick? || e.c != c {
      assert c in s.cubes.Keys;
    }
  }

  lemma {:induction false} OwnedStep(p: Problem, s: State, e: Event, s': State)
    requires Next(p, s, e, s') && Owned(s)
    ensures Owned(s')
  {
    forall o, c | Holds(s', o, c) ensures c in s'.cubes && s'.cubes[c].taken {
      HeldStaysTaken(p, s, e, s', o, c);
    }
    forall o, o', c | Holds(s', o, c) && Holds(s', o', c) ensures o == o' {
      OneHolder(p, s, e, s', o, o', c);
    }
  }

  lemma {:induction false} OneHolder(p: Problem, s: State, e: Event, s': State, o: Holder, o': Holder, c: CubeId)
    requires Next(p, s, e, s') && Owned(s) && Holds(s', o, c) && Holds(s', o', c)
    ensures o == o'
  {
    HeldBefore(p, s, e, s', o, c);
    HeldBefore(p, s, e, s', o', c);
    if e.Pick? && e.c == c {
      assert !Holds(s, o, c) && !Holds(s, o', c);
    } else {
      SameOrigin(p, s, e, s', o, o', c);
    }
  }

  /** Two holders with one origin are one. */
  lemma SameOrigin(p: Problem, s: State, e: Event, s': State, o: Holder, o': Holder, c: CubeId)
    requires Next(p, s, e, s') && Holds(s', o, c) && Holds(s', o', c) && Origin(s, e, o, c) == Origin(s, e, o', c)
    ensures o == o'
  {}

  /** The holder that had the cube before the step that leaves it with `o`. */
  ghost function Origin(s: State, e: Event, o: Holder, c: CubeId): Holder {
    if e.RecordOwner? && HandlerAt(s, e.h) && o == Worker(s.handlers[e.h].worker) then InHand(e.h)
    else if e.TimeOut? && o == Watchdog then Worker(e.w)
    else o
  }

  /** The three kinds of step that write to the cube table. */
  predicate WritesCubes(e: Event) {
    e.Pick? || e.Requeue? || e.Aggregate?
  }

  lemma CubesFrame(p: Problem, s: State, e: Event, s': State)
    requires Next(p, s, e, s') && !WritesCubes(e)
    ensures s'.cubes == s.cubes && s'.log == s.log && s'.picks == s.picks && s'.requeues == s.requeues
  {}

  /** Cubes keep their assumptions, stay completed, and stay taken unless given back; only the aggregator writes results. */
  ghost predicate CubesKept(s: State, e: Event, s': State) {
    && s'.cubes.Keys == s.cubes.Keys
    && (!e.Aggregate? ==> s'.log == s.log)
    && forall c :: c in s.cubes ==> CubeKept(s, e, s', c)
  }

  ghost predicate CubeKept(s: State, e: Event, s': State, c: CubeId)
    requires c in s.cubes && c in s'.cubes
  {
    var before, after := s.cubes[c], s'.cubes[c];
    && after.assumptions == before.assumptions
    && (!e.Aggregate? ==> after.result == before.result && after.completed == before.completed)
    && (before.completed ==> after.completed)
    && (before.taken && !RequeuesCube(s, e, c) ==> after.taken)
  }

  lemma CubePicked(p: Problem, s: State, e: Event, s': State)
    requires Next(p, s, e, s') && e.Pick?
    ensures CubesKept(s, e, s')
  {}

  lemma CubeRequeued(p: Problem, s: State, e: Event, s': State)
    requires Next(p, s, e, s') && e.Requeue?
    ensures CubesKept(s, e, s')
  {}

  lemma CubeAggregated(p: Problem, s: State, e: Event, s': State)
    requires Next(p, s, e, s') && e.Aggregate?
    ensures CubesKept(s, e, s')
  {}

  lemma {:induction false} CubesStep(p: Problem, s: State, e: Event, s': State)
    requires Next(p, s, e, s')
    ensures CubesKept(s, e, s')
  {
    if e.Pick? {
      CubePicked(p, s, e, s');
    } else if e.Requeue? {
      CubeRequeued(p, s, e, s');
    } else if e.Aggregate? {
      CubeAggregated(p, s, e, s');
    } else {
      CubesFrame(p, s, e, s');
    }
  }

  predicate RequeuesCube(s: State, e: Event, c: CubeId) {
    e.Requeue? && s.coordinator == Requeueing(c)
  }

  lemma {:induction false} CountedRequeue(p: Problem, s: State, s': State)
    requires Next(p, s, Requeue, s') && Owned(s) && Counted(s)
    ensures Counted(s')
  {
    var before, after, c := TakenCubes(s), TakenCubes(s'), s.coordinator.cube;
    if s.requeues != s'.requeues {
      assert Holds(s, Watchdog, c);
      assert after == before - {c} && c in before;
    } else {
      assert after == before;
    }
  }

  lemma {:induction false} CountedStep(p: Problem, s: State, e: Event, s': State)
    requires Next(p, s, e, s') && Owned(s) && Counted(s)
    ensures Counted(s')
  {
    if e.Pick? {
      assert TakenCubes(s') == TakenCubes(s) + {e.c} && e.c !in TakenCubes(s);
    } else if e.Requeue? {
      CountedRequeue(p, s, s');
    } else if e.Aggregate? {
      assert TakenCubes(s') == TakenCubes(s);
    } else {
      CubesFrame(p, s, e, s');
    }
  }

  /* ---------- Verdict ---------- */

  /** The status in the newest report for cube c. */
  function LastReport(log: seq<Report>, c: CubeId): Option<Status> {
    if log == [] then None
    else if log[|log| - 1].cube == c then Some(log[|log| - 1].status)
    else LastReport(log[..|log| - 1], c)
  }

  lemma {:induction false} LastReportIsLogged(log: seq<Report>, c: CubeId)
    requires LastReport(log, c).Some?
    ensures Report(c, LastReport(log, c).value) in log
  {
    if log[|log| - 1].cube != c {
      LastReportIsLogged(log[..|log| - 1], c);
    }
  }

  ghost predicate TableOf(cubes: seq<Cube>, s: State) {
    && (forall c :: c in s.cubes <==> 0 <= c < |cubes|)
    && (forall c :: c in s.cubes ==> s.cubes[c].assumptions == cubes[c])
  }

  ghost predicate ReportsCorrect(p: Problem, s: State) {
    && (forall k :: 0 <= k < |s.queue| ==> CorrectReport(p, s, s.queue[k]))
    && (forall k :: 0 <= k < |s.log| ==> CorrectReport(p, s, s.log[k]))
    && (forall h :: h in s.handlers && s.handlers[h].pc.Reporting? ==> CorrectReport(p, s, s.handlers[h].pc.report))
  }

  ghost predicate ResultsLogged(s: State) {
    forall c :: c in s.cubes ==>
      s.cubes[c].result == LastReport(s.log, c) && (s.cubes[c].completed <==> s.cubes[c].result.Some?)
  }

  ghost predicate SatLogged(s: State) {
    exists k :: 0 <= k < |s.log| && s.log[k].cube in s.cubes && s.log[k].status == Sat
  }

  function VerdictOf(s: State): Status {
    if s.foundSat then Sat else if AllUnsat(s.cubes) then Unsat else Unknown
  }

  ghost predicate FlagsAgree(s: State) {
    && (s.foundSat <==> SatLogged(s))
    && (s.aggregator == Listening ==> !s.foundSat)
    && (s.aggregator != Listening ==> s.foundSat || AllCompleted(s.cubes))
    && (s.allDone ==> s.aggregator == Ended)
    && (s.coordinator.Closing? || s.coordinator.Judging? || s.coordinator.Decided? ==> s.allDone)
    && (s.coordinator.Judging? ==> !s.foundSat)
    && (s.coordinator.Decided? ==> s.coordinator.verdict == VerdictOf(s))
  }

  ghost predicate Judged(p: Problem, cubes: seq<Cube>, s: State) {
    TableOf(cubes, s) && ReportsCorrect(p, s) && ResultsLogged(s) && FlagsAgree(s)
  }

  lemma {:induction false} TableStep(p: Problem, cubes: seq<Cube>, s: State, e: Event, s': State)
    requires Next(p, s, e, s') && TableOf(cubes, s)
    ensures TableOf(cubes, s')
    ensures forall r :: CorrectReport(p, s, r) ==> CorrectReport(p, s', r)
  {
    CubesStep(p, s, e, s');
  }

  lemma {:induction false} ReportsAggregated(p: Problem, s: State, s': State)
    requires Next(p, s, Aggregate, s') && ReportsCorrect(p, s)
    requires forall r :: CorrectReport(p, s, r) ==> CorrectReport(p, s', r)
    ensures ReportsCorrect(p, s')
  {
    forall k | 0 <= k < |s'.queue| ensures CorrectReport(p, s', s'.queue[k]) {
      assert CorrectReport(p, s, s.queue[k + 1]);
    }
    forall k | 0 <= k < |s'.log| ensures CorrectReport(p, s', s'.log[k]) {
      assert CorrectReport(p, s, s.queue[0]);
      assert s'.log[k] == if k < |s.log| then s.log[k] else s.queue[0];
    }
  }

  lemma {:induction false} ReportsSent(p: Problem, s: State, e: Event, s': State)
    requires Next(p, s, e, s') && e.SendResult? && ReportsCorrect(p, s)
    requires forall r :: CorrectReport(p, s, r) ==> CorrectReport(p, s', r)
    ensures ReportsCorrect(p, s')
  {
    var sent := s.handlers[e.h].pc.report;
    assert CorrectReport(p, s, sent);
    forall k | 0 <= k < |s'.queue| ensures CorrectReport(p, s', s'.queue[k]) {
      assert k < |s.queue| ==> s'.queue[k] == s.queue[k];
    }
  }

  /** Only a received result is new with its handler. */
  lemma ReportingFrame(p: Problem, s: State, e: Event, s': State, h: HandlerId)
    requires Next(p, s, e, s') && h in s'.handlers && s'.handlers[h].pc.Reporting?
    ensures (h in s.handlers && s'.handlers[h] == s.handlers[h])
         || (e.ReceiveResult? && CorrectReport(p, s, s'.handlers[h].pc.report))
  {}

  lemma ChannelFrame(p: Problem, s: State, e: Event, s': State)
    requires Next(p, s, e, s') && !e.SendResult? && !e.Aggregate?
    ensures s'.queue == s.queue && s'.log == s.log
  {}

  lemma {:induction false} ReportsKept(p: Problem, s: State, e: Event, s': State)
    requires Next(p, s, e, s') && !e.SendResult? && !e.Aggregate? && ReportsCorrect(p, s)
    requires forall r :: CorrectReport(p, s, r) ==> CorrectReport(p, s', r)
    ensures ReportsCorrect(p, s')
  {
    ChannelFrame(p, s, e, s');
    forall h | h in s'.handlers && s'.handlers[h].pc.Reporting? ensures CorrectReport(p, s', s'.handlers[h].pc.report) {
      ReportingFrame(p, s, e, s', h);
    }
  }

  lemma {:induction false} ReportsStep(p: Problem, cubes: seq<Cube>, s: State, e: Event, s': State)
    requires Next(p, s, e, s') && TableOf(cubes, s) && ReportsCorrect(p, s)
    ensures ReportsCorrect(p, s')
  {
    TableStep(p, cubes, s, e, s');
    if e.SendResult? {
      ReportsSent(p, s, e, s');
    } else if e.Aggregate? {
      ReportsAggregated(p, s, s');
    } else {
      ReportsKept(p, s, e, s');
    }
  }

  lemma {:induction false} ResultsStep(p: Problem, s: State, e: Event, s': State)
    requires Next(p, s, e, s') && ResultsLogged(s)
    ensures ResultsLogged(s')
  {
    if e.Aggregate? {
      assert s'.log[..|s'.log| - 1] == s.log;
    } else {
      CubesStep(p, s, e, s');
    }
  }

  lemma {:induction false} SameResults(before: map<CubeId, CubeState>, after: map<CubeId, CubeState>)
    requires after.Keys == before.Keys
    requires forall c :: c in before ==> after[c].result == before[c].result && after[c].completed == before[c].completed
    ensures AllUnsat(after) == AllUnsat(before) && AllCompleted(after) == AllCompleted(before)
  {
    forall c | c in after ensures c in before { assert c in after.Keys; }
    forall c | c in before ensures c in after { assert c in before.Keys; }
  }

  lemma {:induction false} ResultsKept(s: State, e: Event, s': State)
    requires CubesKept(s, e, s') && !e.Aggregate?
    ensures s'.cubes.Keys == s.cubes.Keys
    ensures AllUnsat(s'.cubes) == AllUnsat(s.cubes)
    ensures AllCompleted(s'.cubes) == AllCompleted(s.cubes)
  {
    forall c | c in s.cubes ensures s'.cubes[c].result == s.cubes[c].result && s'.cubes[c].completed == s.cubes[c].completed {
      assert CubeKept(s, e, s', c);
    }
    SameResults(s.cubes, s'.cubes);
  }

  lemma {:induction false} FlagsAggregated(p: Problem, s: State, s': State)
    requires Next(p, s, Aggregate, s') && FlagsAgree(s)
    ensures FlagsAgree(s')
  {
    forall k | 0 <= k < |s.log| ensures s'.log[k] == s.log[k] {}
    assert s'.log[|s.log|] == s.queue[0];
    if s'.foundSat {
      assert SatLogged(s');
    }
  }

  /** Steps other than the aggregator's leave the flags' conditions as they were. */
  lemma {:induction false} FlagsStep(p: Problem, s: State, e: Event, s': State)
    requires Next(p, s, e, s') && FlagsAgree(s)
    ensures FlagsAgree(s')
  {
    if e.Aggregate? {
      FlagsAggregated(p, s, s');
    } else {
      CubesStep(p, s, e, s');
      ResultsKept(s, e, s');
      assert SatLogged(s') == SatLogged(s);
    }
  }

  /* ---------- Whole runs ---------- */

  ghost predicate Invariant(p: Problem, cubes: seq<Cube>, s: State) {
    Owned(s) && Counted(s) && Judged(p, cubes, s)
  }

  /** Every state of every run satisfies the invariant. */
  lemma {:induction false} RunInvariant(p: Problem, cubes: seq<Cube>, r: Run, i: nat)
    requires IsRun(p, cubes, r) && i < |r.states|
    ensures Invariant(p, cubes, r.states[i])
  {
    if i == 0 {
      assert TakenCubes(r.states[0]) == {};
    } else {
      RunInvariant(p, cubes, r, i - 1);
      var s, e, s' := r.states[i - 1], r.events[i - 1], r.states[i];
      assert Next(p, s, e, s');
      OwnedStep(p, s, e, s');
      CountedStep(p, s, e, s');
      TableStep(p, cubes, s, e, s');
      ReportsStep(p, cubes, s, e, s');
      ResultsStep(p, s, e, s');
      FlagsStep(p, s, e, s');
    }
  }

  /** What the verdict claims about the problem and about the reports it was drawn from. */
  ghost predicate VerdictJustified(p: Problem, s: State, verdict: Status) {
    match verdict
    case Sat => Satisfiable(p)
    case Unsat => !Satisfiable(p)
    case Unknown =>
      && (forall c :: c in s.cubes ==> LastReport(s.log, c) in {Some(Unsat), Some(Unknown)})
      && (exists c :: c in s.cubes && LastReport(s.log, c) == Some(Unknown))
  }

  /**
   * Verdict soundness over whole runs: whatever the interleaving of picks, owner records,
   * results, time-outs, re-queues, disconnections, late and duplicate reports.
   */
  lemma {:induction false} VerdictSound(p: Problem, cubes: seq<Cube>, d: nat, r: Run)
    requires Generated(cubes, d) && d <= |p.boolVars|
    requires IsRun(p, cubes, r) && r.Last().coordinator.Decided?
    ensures VerdictJustified(p, r.Last(), r.Last().coordinator.verdict)
  {
    var s := r.Last();
    RunInvariant(p, cubes, r, |r.states| - 1);
    CubesCover(p, cubes, d);
    match s.coordinator.verdict {
      case Sat =>
        var k :| 0 <= k < |s.log| && s.log[k].cube in s.cubes && s.log[k].status == Sat;
        assert CorrectReport(p, s, s.log[k]);
        assert CubeSatisfiable(p, cubes[s.log[k].cube]);
      case Unsat =>
        forall c | 0 <= c < |cubes| ensures !CubeSatisfiable(p, cubes[c]) {
          assert c in s.cubes;
          LastReportIsLogged(s.log, c);
          assert CorrectReport(p, s, Report(c, Unsat));
        }
      case Unknown =>
        forall c | c in s.cubes ensures LastReport(s.log, c) in {Some(Unsat), Some(Unknown)} {
          LastReportIsLogged(s.log, c);
          assert LastReport(s.log, c) != Some(Sat);
        }
        var c :| c in s.cubes && s.cubes[c].result != Some(Unsat);
        assert LastReport(s.log, c) == Some(Unknown);
    }
  }

  /** Ownership over whole runs: one holder per cube at most, and the books balance. */
  lemma {:induction false} OwnershipHolds(p: Problem, cubes: seq<Cube>, r: Run, i: nat)
    requires IsRun(p, cubes, r) && i < |r.states|
    ensures var s := r.states[i];
      && (forall w, w' :: w in s.workers && w' in s.workers && s.workers[w].Some? && s.workers[w] == s.workers[w'] ==> w == w')
      && (forall w :: w in s.workers && s.workers[w].Some? ==>
            s.workers[w].value in s.cubes && s.cubes[s.workers[w].value].taken)
      && s.picks == |TakenCubes(s)| + s.requeues
  {
    RunInvariant(p, cubes, r, i);
    var s := r.states[i];
    forall w, w' | w in s.workers && w' in s.workers && s.workers[w].Some? && s.workers[w] == s.workers[w']
      ensures w == w'
    {
      assert Holds(s, Worker(w), s.workers[w].value) && Holds(s, Worker(w'), s.workers[w].value);
    }
    forall w | w in s.workers && s.workers[w].Some?
      ensures s.workers[w].value in s.cubes && s.cubes[s.workers[w].value].taken
    {
      assert Holds(s, Worker(w), s.workers[w].value);
    }
  }

  lemma {:induction false} RunStepKeeps(p: Problem, cubes: seq<Cube>, r: Run, i: nat, c: CubeId)
    requires IsRun(p, cubes, r) && i < |r.events| && c in r.states[i].cubes
    ensures c in r.states[i + 1].cubes
    ensures r.states[i].cubes[c].completed ==> r.states[i + 1].cubes[c].completed
    ensures r.states[i].cubes[c].taken && !RequeuesCube(r.states[i], r.events[i], c) ==> r.states[i + 1].cubes[c].taken
  {
    assert Next(p, r.states[i], r.events[i], r.states[i + 1]);
    CubesStep(p, r.states[i], r.events[i], r.states[i + 1]);
    assert c in r.states[i + 1].cubes.Keys;
  }

  /** What every step of a run keeps of cube c. */
  predicate StepsKeep(r: Run, c: CubeId) {
    && |r.states| == |r.events| + 1
    && forall k :: 0 <= k < |r.events| && c in r.states[k].cubes ==> StepKeeps(r.states[k], r.events[k], r.states[k + 1], c)
  }

  predicate StepKeeps(s: State, e: Event, s': State, c: CubeId)
    requires c in s.cubes
  {
    && c in s'.cubes
    && (s.cubes[c].completed ==> s'.cubes[c].completed)
    && (s.cubes[c].taken && !RequeuesCube(s, e, c) ==> s'.cubes[c].taken)
  }

  lemma {:induction false} RunKeeps(p: Problem, cubes: seq<Cube>, r: Run, c: CubeId)
    requires IsRun(p, cubes, r)
    ensures StepsKeep(r, c)
  {
    forall k | 0 <= k < |r.events| && c in r.states[k].cubes
      ensures StepKeeps(r.states[k], r.events[k], r.states[k + 1], c)
    {
      RunStepKeeps(p, cubes, r, k, c);
    }
  }

  lemma {:induction false} CompletedStays(r: Run, i: nat, j: nat, c: CubeId)
    requires StepsKeep(r, c) && i <= j < |r.states|
    requires c in r.states[i].cubes && r.states[i].cubes[c].completed
    ensures c in r.states[j].cubes && r.states[j].cubes[c].completed
    decreases j
  {
    if i < j {
      CompletedStays(r, i, j - 1, c);
    }
  }

  /** Once a cube is completed it is never handed out again. */
  lemma {:induction false} CompletedNeverPicked(p: Problem, cubes: seq<Cube>, r: Run, i: nat, j: nat, c: CubeId)
    requires IsRun(p, cubes, r) && i <= j < |r.events|
    requires c in r.states[i].cubes && r.states[i].cubes[c].completed
    ensures !(r.events[j].Pick? && r.events[j].c == c)
  {
    RunKeeps(p, cubes, r, c);
    CompletedStays(r, i, j, c);
    assert Next(p, r.states[j], r.events[j], r.states[j + 1]);
  }

  lemma {:induction false} TakenOn(r: Run, i: nat, j: nat, c: CubeId)
    requires StepsKeep(r, c) && i <= j < |r.states|
    requires c in r.states[i].cubes && r.states[i].cubes[c].taken
    requires forall k :: i <= k < j ==> !RequeuesCube(r.states[k], r.events[k], c)
    ensures c in r.states[j].cubes && r.states[j].cubes[c].taken
    decreases j
  {
    if i < j {
      TakenOn(r, i, j - 1, c);
      assert StepKeeps(r.states[j - 1], r.events[j - 1], r.states[j - 1 + 1], c);
    }
  }

  lemma {:induction false} TakenUntilRequeued(p: Problem, cubes: seq<Cube>, r: Run, i: nat, j: nat, c: CubeId)
    requires IsRun(p, cubes, r) && i <= j < |r.states|
    requires c in r.states[i].cubes && r.states[i].cubes[c].taken
    requires forall k :: i <= k < j ==> !RequeuesCube(r.states[k], r.events[k], c)
    ensures c in r.states[j].cubes && r.states[j].cubes[c].taken
  {
    RunKeeps(p, cubes, r, c);
    TakenOn(r, i, j, c);
  }

  /** Between two hand-outs of one cube lies a time-out that gave it back. */
  lemma {:induction false} RepickNeedsRequeue(p: Problem, cubes: seq<Cube>, r: Run, i: nat, j: nat, c: CubeId)
    requires IsRun(p, cubes, r) && i < j < |r.events|
    requires r.events[i].Pick? && r.events[i].c == c
    requires r.events[j].Pick? && r.events[j].c == c
    ensures exists k :: i < k < j && RequeuesCube(r.states[k], r.events[k], c)
  {
    assert Next(p, r.states[i], r.events[i], r.states[i + 1]);
    assert Next(p, r.states[j], r.events[j], r.states[j + 1]);
    if forall k :: i < k < j ==> !RequeuesCube(r.states[k], r.events[k], c) {
      TakenUntilRequeued(p, cubes, r, i + 1, j, c);
      assert false;
    }
  }
}
