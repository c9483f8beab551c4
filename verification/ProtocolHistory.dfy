/** What runs of the coordinator remember: owners and reports. */
module ProtocolHistory {
  import opened Wrappers
  import opened Cubes
  import opened Protocol

  /* ---------- Owners ---------- */

  lemma PickTakes(p: Problem, s: State, h: HandlerId, c: CubeId, s': State)
    requires Next(p, s, Pick(h, c), s')
    ensures HandlerAt(s, h) && HandlerAt(s', h) && s'.handlers[h] == Handler(s.handlers[h].worker, Picked(c))
  {}

  lemma PickedKeeps(p: Problem, s: State, e: Event, s': State, h: HandlerId)
    requires Next(p, s, e, s') && HandlerAt(s, h) && s.handlers[h].pc.Picked? && e != RecordOwner(h)
    ensures HandlerAt(s', h) && s'.handlers[h] == s.handlers[h]
  {}

  lemma OwnerWritten(p: Problem, s: State, h: HandlerId, s': State)
    requires Next(p, s, RecordOwner(h), s') && s.handlers[h].worker in s.workers
    ensures Owns(s', s.handlers[h].worker, s.handlers[h].pc.cube)
  {}

  predicate Owns(s: State, w: WorkerId, c: CubeId) {
    w in s.workers && s.workers[w] == Some(c)
  }

  /** The step touches w's entry: registration, recording, a result or a disconnection of a handler of w, or its time-out. */
  predicate Touches(s: State, e: Event, w: WorkerId) {
    || e == TimeOut(w)
    || ((e.Register? || e.RecordOwner? || e.ReceiveResult? || e.Disconnect?)
        && HandlerAt(s, e.h) && s.handlers[e.h].worker == w)
  }

  lemma OwnerKept(p: Problem, s: State, e: Event, s': State, w: WorkerId, c: CubeId)
    requires Next(p, s, e, s') && Owns(s, w, c) && !Touches(s, e, w)
    ensures Owns(s', w, c)
  {}

  lemma OwnerTimedOut(p: Problem, s: State, s': State, w: WorkerId, c: CubeId)
    requires Next(p, s, TimeOut(w), s') && Owns(s, w, c)
    ensures w !in s'.workers && s'.coordinator == Requeueing(c)
  {}

  /** The watchdog stands at the cube until it has given it back. */
  lemma RequeueingKept(p: Problem, s: State, e: Event, s': State, c: CubeId)
    requires Next(p, s, e, s') && s.coordinator == Requeueing(c) && e != Requeue
    ensures s'.coordinator == Requeueing(c)
  {}

  /** Giving back frees the cube unless it was completed, and touches no other. */
  lemma GivenBack(p: Problem, s: State, s': State, c: CubeId)
    requires Next(p, s, Requeue, s') && s.coordinator == Requeueing(c) && c in s.cubes
    ensures c in s'.cubes && s'.cubes[c] == if s.cubes[c].completed then s.cubes[c] else s.cubes[c].(taken := false)
    ensures s'.cubes.Keys == s.cubes.Keys && forall d :: d in s.cubes && d != c ==> s'.cubes[d] == s.cubes[d]
  {}

  lemma RunStep(p: Problem, cubes: seq<Cube>, r: Run, i: nat)
    requires IsRun(p, cubes, r) && i < |r.events|
    ensures Next(p, r.states[i], r.events[i], r.states[i + 1])
  {}

  /** A run's shape, without its step relation. */
  predicate Shaped(r: Run) {
    |r.states| == |r.events| + 1
  }

  predicate CarryStep(s: State, e: Event, s': State, h: HandlerId) {
    && (e.Pick? && e.h == h ==>
          HandlerAt(s, h) && HandlerAt(s', h) && s'.handlers[h] == Handler(s.handlers[h].worker, Picked(e.c)))
    && (HandlerAt(s, h) && s.handlers[h].pc.Picked? && e != RecordOwner(h) ==>
          HandlerAt(s', h) && s'.handlers[h] == s.handlers[h])
  }

  predicate Carries(r: Run, h: HandlerId) {
    Shaped(r) && forall k :: 0 <= k < |r.events| ==> CarryStep(r.states[k], r.events[k], r.states[k + 1], h)
  }

  lemma {:induction false} RunCarries(p: Problem, cubes: seq<Cube>, r: Run, h: HandlerId)
    requires IsRun(p, cubes, r)
    ensures Carries(r, h)
  {
    forall k | 0 <= k < |r.events| ensures CarryStep(r.states[k], r.events[k], r.states[k + 1], h) {
      RunStep(p, cubes, r, k);
      CarriedStep(p, r.states[k], r.events[k], r.states[k + 1], h);
    }
  }

  lemma CarriedStep(p: Problem, s: State, e: Event, s': State, h: HandlerId)
    requires Next(p, s, e, s')
    ensures CarryStep(s, e, s', h)
  {
    if e.Pick? && e.h == h {
      PickTakes(p, s, h, e.c, s');
    } else if HandlerAt(s, h) && s.handlers[h].pc.Picked? && e != RecordOwner(h) {
      PickedKeeps(p, s, e, s', h);
    }
  }

  /** From its pick on a handler carries the cube until it records its owner. */
  lemma {:induction false} CarriedUntilRecorded(r: Run, i: nat, j: nat, h: HandlerId, c: CubeId)
    requires Carries(r, h) && i < j < |r.states| && r.events[i] == Pick(h, c)
    requires forall k :: i < k < j ==> r.events[k] != RecordOwner(h)
    ensures HandlerAt(r.states[i], h) && HandlerAt(r.states[j], h)
    ensures r.states[j].handlers[h] == Handler(r.states[i].handlers[h].worker, Picked(c))
    decreases j
  {
    assert CarryStep(r.states[j - 1], r.events[j - 1], r.states[j - 1 + 1], h);
    if j > i + 1 {
      CarriedUntilRecorded(r, i, j - 1, h, c);
    }
  }

  predicate KeepStep(s: State, e: Event, s': State, w: WorkerId) {
    w in s.workers && s.workers[w].Some? && !Touches(s, e, w) ==> w in s'.workers && s'.workers[w] == s.workers[w]
  }

  predicate Keeps(r: Run, w: WorkerId) {
    Shaped(r) && forall k :: 0 <= k < |r.events| ==> KeepStep(r.states[k], r.events[k], r.states[k + 1], w)
  }

  lemma {:induction false} RunOwnersKept(p: Problem, cubes: seq<Cube>, r: Run, w: WorkerId)
    requires IsRun(p, cubes, r)
    ensures Keeps(r, w)
  {
    forall k | 0 <= k < |r.events| ensures KeepStep(r.states[k], r.events[k], r.states[k + 1], w) {
      var s, e := r.states[k], r.events[k];
      RunStep(p, cubes, r, k);
      if w in s.workers && s.workers[w].Some? && !Touches(s, e, w) {
        OwnerKept(p, s, e, r.states[k + 1], w, s.workers[w].value);
      }
    }
  }

  /** The worker owns the cube from the recording on until something touches its entry. */
  lemma {:induction false} OwnedUntilTouched(r: Run, j: nat, k: nat, w: WorkerId, c: CubeId)
    requires Keeps(r, w) && j <= k < |r.states| && Owns(r.states[j], w, c)
    requires forall n :: j <= n < k ==> !Touches(r.states[n], r.events[n], w)
    ensures Owns(r.states[k], w, c)
    decreases k
  {
    if j < k {
      OwnedUntilTouched(r, j, k - 1, w, c);
      assert KeepStep(r.states[k - 1], r.events[k - 1], r.states[k - 1 + 1], w);
    }
  }

  /**
   * A hand-out is remembered: if handler h picks c at step i and records its owner, the registered
   * worker w, at step j, then w owns c until something touches its entry, and if that is its
   * time-out the watchdog then stands at c.
   */
  lemma {:induction false} OwnerRemembered(p: Problem, cubes: seq<Cube>, r: Run, i: nat, j: nat, k: nat, h: HandlerId, c: CubeId)
    requires IsRun(p, cubes, r) && i < j < k < |r.states|
    requires r.events[i] == Pick(h, c) && r.events[j] == RecordOwner(h)
    requires forall n :: i < n < j ==> r.events[n] != RecordOwner(h)
    requires HandlerAt(r.states[i], h) && r.states[i].handlers[h].worker in r.states[j].workers
    requires forall n :: j < n < k ==> !Touches(r.states[n], r.events[n], r.states[i].handlers[h].worker)
    ensures Owns(r.states[k], r.states[i].handlers[h].worker, c)
    ensures k < |r.events| && r.events[k] == TimeOut(r.states[i].handlers[h].worker) ==>
              r.states[k + 1].coordinator == Requeueing(c)
  {
    var w := r.states[i].handlers[h].worker;
    RunCarries(p, cubes, r, h);
    CarriedUntilRecorded(r, i, j, h, c);
    RunStep(p, cubes, r, j);
    OwnerWritten(p, r.states[j], h, r.states[j + 1]);
    RunOwnersKept(p, cubes, r, w);
    OwnedUntilTouched(r, j + 1, k, w, c);
    if k < |r.events| && r.events[k] == TimeOut(w) {
      RunStep(p, cubes, r, k);
      OwnerTimedOut(p, r.states[k], r.states[k + 1], w, c);
    }
  }

  /** And what the watchdog stands at it gives back: the first re-queue after the time-out frees an unfinished cube. */
  lemma {:induction false} TimedOutIsFreed(p: Problem, cubes: seq<Cube>, r: Run, i: nat, j: nat, c: CubeId)
    requires IsRun(p, cubes, r) && i <= j < |r.events| && r.states[i].coordinator == Requeueing(c)
    requires r.events[j] == Requeue && forall k :: i <= k < j ==> r.events[k] != Requeue
    requires c in r.states[j].cubes && !r.states[j].cubes[c].completed
    ensures c in r.states[j + 1].cubes && !r.states[j + 1].cubes[c].taken
  {
    RunStands(p, cubes, r, c);
    StandsUntilRequeue(r, i, j, c);
    RunStep(p, cubes, r, j);
    GivenBack(p, r.states[j], r.states[j + 1], c);
  }

  predicate Stands(r: Run, c: CubeId) {
    && Shaped(r)
    && forall k :: 0 <= k < |r.events| && r.states[k].coordinator == Requeueing(c) && r.events[k] != Requeue ==>
         r.states[k + 1].coordinator == Requeueing(c)
  }

  lemma {:induction false} RunStands(p: Problem, cubes: seq<Cube>, r: Run, c: CubeId)
    requires IsRun(p, cubes, r)
    ensures Stands(r, c)
  {
    forall k | 0 <= k < |r.events| && r.states[k].coordinator == Requeueing(c) && r.events[k] != Requeue
      ensures r.states[k + 1].coordinator == Requeueing(c)
    {
      RunStep(p, cubes, r, k);
      RequeueingKept(p, r.states[k], r.events[k], r.states[k + 1], c);
    }
  }

  lemma {:induction false} StandsUntilRequeue(r: Run, i: nat, j: nat, c: CubeId)
    requires Stands(r, c) && i <= j < |r.states| && r.states[i].coordinator == Requeueing(c)
    requires forall k :: i <= k < j ==> r.events[k] != Requeue
    ensures r.states[j].coordinator == Requeueing(c)
    decreases j
  {
    if i < j {
      StandsUntilRequeue(r, i, j - 1, c);
      assert r.states[j - 1 + 1].coordinator == Requeueing(c);
    }
  }

  /* ---------- Reports ---------- */

  /** The report handler h received last before step n. */
  function LastReceived(events: seq<Event>, n: nat, h: HandlerId): Option<Report>
    requires n <= |events|
  {
    if n == 0 then None
    else if events[n - 1].ReceiveResult? && events[n - 1].h == h then Some(events[n - 1].report)
    else LastReceived(events, n - 1, h)
  }

  /** What was sent before step n while the aggregator lived, told from the events received. */
  function Delivered(r: Run, n: nat): seq<Option<Report>>
    requires |r.states| == |r.events| + 1 && n <= |r.events|
  {
    if n == 0 then []
    else if r.events[n - 1].SendResult? && r.states[n - 1].aggregator != Ended
      then Delivered(r, n - 1) + [LastReceived(r.events, n - 1, r.events[n - 1].h)]
    else Delivered(r, n - 1)
  }

  function Present(rs: seq<Report>): seq<Option<Report>> {
    seq(|rs|, k requires 0 <= k < |rs| => Some(rs[k]))
  }

  /** A handler that holds a report has just received it or held it before. */
  predicate HoldStep(s: State, e: Event, s': State, h: HandlerId) {
    HandlerAt(s', h) && s'.handlers[h].pc.Reporting? ==>
      || e == ReceiveResult(h, s'.handlers[h].pc.report)
      || (HandlerAt(s, h) && s.handlers[h] == s'.handlers[h] && !(e.ReceiveResult? && e.h == h))
  }

  lemma HeldReport(p: Problem, s: State, e: Event, s': State, h: HandlerId)
    requires Next(p, s, e, s')
    ensures HoldStep(s, e, s', h)
  {}

  /** What has been taken and what waits grows by the report sent, if the aggregator lives. */
  predicate ChannelStep(s: State, e: Event, s': State) {
    && (e.SendResult? ==> HandlerAt(s, e.h) && s.handlers[e.h].pc.Reporting?)
    && s'.log + s'.queue ==
         if e.SendResult? && s.aggregator != Ended then s.log + s.queue + [s.handlers[e.h].pc.report] else s.log + s.queue
  }

  lemma ChannelGrows(p: Problem, s: State, e: Event, s': State)
    requires Next(p, s, e, s')
    ensures ChannelStep(s, e, s')
  {
    if e.SendResult? {
      assert s.log + (s.queue + [s.handlers[e.h].pc.report]) == s.log + s.queue + [s.handlers[e.h].pc.report];
    } else if e.Aggregate? {
      assert s.log + [s.queue[0]] + s.queue[1..] == s.log + s.queue;
    } else {
      ChannelFrame(p, s, e, s');
    }
  }

  ghost predicate Channelled(r: Run) {
    && Shaped(r) && r.states[0].log + r.states[0].queue == [] && r.states[0].handlers == map[]
    && (forall k :: 0 <= k < |r.events| ==> ChannelStep(r.states[k], r.events[k], r.states[k + 1]))
    && (forall k, h :: 0 <= k < |r.events| ==> HoldsAt(r, k, h))
  }

  predicate HoldsAt(r: Run, k: nat, h: HandlerId)
    requires Shaped(r) && k < |r.events|
  {
    HoldStep(r.states[k], r.events[k], r.states[k + 1], h)
  }

  lemma {:induction false} RunChannelled(p: Problem, cubes: seq<Cube>, r: Run)
    requires IsRun(p, cubes, r)
    ensures Channelled(r)
  {
    forall k | 0 <= k < |r.events| ensures ChannelStep(r.states[k], r.events[k], r.states[k + 1]) {
      RunStep(p, cubes, r, k);
      ChannelGrows(p, r.states[k], r.events[k], r.states[k + 1]);
    }
    forall k, h | 0 <= k < |r.events| ensures HoldsAt(r, k, h) {
      RunStep(p, cubes, r, k);
      HeldReport(p, r.states[k], r.events[k], r.states[k + 1], h);
    }
  }

  /** A handler about to send holds what it received last. */
  lemma {:induction false} ReportingIsReceived(r: Run, n: nat, h: HandlerId)
    requires Channelled(r) && n < |r.states| && HandlerAt(r.states[n], h) && r.states[n].handlers[h].pc.Reporting?
    ensures LastReceived(r.events, n, h) == Some(r.states[n].handlers[h].pc.report)
  {
    if n > 0 {
      assert HoldsAt(r, n - 1, h);
      if r.events[n - 1] != ReceiveResult(h, r.states[n].handlers[h].pc.report) {
        ReportingIsReceived(r, n - 1, h);
      }
    }
  }

  lemma PresentSnoc(rs: seq<Report>, x: Report)
    ensures Present(rs + [x]) == Present(rs) + [Some(x)]
  {}

  lemma {:induction false} DeliveredIsChannel(r: Run, n: nat)
    requires Channelled(r) && n < |r.states|
    ensures Present(r.states[n].log + r.states[n].queue) == Delivered(r, n)
  {
    if n > 0 {
      var s, e := r.states[n - 1], r.events[n - 1];
      DeliveredIsChannel(r, n - 1);
      assert ChannelStep(s, e, r.states[n - 1 + 1]);
      if e.SendResult? {
        ReportingIsReceived(r, n - 1, e.h);
        PresentSnoc(s.log + s.queue, s.handlers[e.h].pc.report);
      }
    }
  }

  /**
   * No report is lost, invented or reordered: what the aggregator has taken and what still waits is,
   * in order, what the handlers received and sent while it lived.
   */
  lemma {:induction false} ReportsConserved(p: Problem, cubes: seq<Cube>, r: Run, n: nat)
    requires IsRun(p, cubes, r) && n < |r.states|
    ensures Present(r.states[n].log + r.states[n].queue) == Delivered(r, n)
  {
    RunChannelled(p, cubes, r);
    DeliveredIsChannel(r, n);
  }
}
