/** The coordinator as an object, one method per critical section. */
module CoordinatorObject {
  import opened Wrappers
  import opened Cubes
  import opened Protocol

  // `run` records the steps taken so far; Valid() says that it is a run of the step
  // relation ending in the object's present state, so everything proved of runs holds
  // of every state the methods can reach, called in any order.

  class Coordinator {
    ghost const problem: Problem
    ghost const initialCubes: seq<Cube>
    ghost const depth: nat

    var cubes: map<CubeId, CubeState>
    var workers: map<WorkerId, Option<CubeId>>
    var handlers: map<HandlerId, Handler>
    var queue: seq<Report>
    var foundSat: bool
    var allDone: bool
    var aggregator: AggregatorPc
    var coordinator: CoordinatorPc
    ghost var log: seq<Report>
    ghost var picks: nat
    ghost var requeues: nat
    ghost var run: Run

    ghost function Snapshot(): State
      reads this
    {
      State(cubes, workers, handlers, queue, foundSat, allDone, aggregator, coordinator, log, picks, requeues)
    }

    ghost predicate Valid()
      reads this
    {
      && Generated(initialCubes, depth) && depth <= |problem.boolVars|
      && IsRun(problem, initialCubes, run)
      && run.Last() == Snapshot()
    }

    constructor (p: Problem, numCubes: nat)
      ensures Valid()
      ensures problem == p && depth == Depth(numCubes, |p.boolVars|)
      ensures run.events == [] && coordinator == Watching && aggregator == Listening
    {
      var generated := GenerateCubes(numCubes, |p.boolVars|);
      problem, initialCubes, depth := p, generated, Depth(numCubes, |p.boolVars|);
      cubes := map i | 0 <= i < |generated| :: CubeState(generated[i], false, false, None);
      workers, handlers, queue := map[], map[], [];
      foundSat, allDone := false, false;
      aggregator, coordinator := Listening, Watching;
      log, picks, requeues := [], 0, 0;
      new;
      run := Run([Snapshot()], []);
    }

    /** Append the step that led from the last recorded state to the present one. */
    ghost method Took(e: Event)
      requires Generated(initialCubes, depth) && depth <= |problem.boolVars|
      requires IsRun(problem, initialCubes, run)
      requires Next(problem, run.Last(), e, Snapshot())
      modifies this`run
      ensures Valid() && run == Extended(old(run), e, Snapshot())
    {
      run := Extended(run, e, Snapshot());
    }

    method AcceptConnection(h: HandlerId, w: WorkerId)
      requires Valid() && coordinator == Watching && h !in handlers
      modifies this`handlers, this`run
      ensures Valid() && run == Extended(old(run), Accept(h, w), Snapshot())
      ensures handlers == old(handlers)[h := Handler(w, Starting)]
    {
      handlers := handlers[h := Handler(w, Starting)];
      Took(Accept(h, w));
    }

    method RegisterWorker(h: HandlerId)
      requires Valid() && h in handlers && handlers[h].pc == Starting
      modifies this`workers, this`handlers, this`run
      ensures Valid() && run == Extended(old(run), Register(h), Snapshot())
      ensures workers == old(workers)[old(handlers)[h].worker := None]
      ensures handlers == old(handlers)[h := Handler(old(handlers)[h].worker, Serving)]
    {
      workers := workers[handlers[h].worker := None];
      handlers := handlers[h := handlers[h].(pc := Serving)];
      Took(Register(h));
    }

    /** The cube-lock half of a work request: any available cube, in no particular order. */
    method PickCube(h: HandlerId) returns (cube: Option<CubeId>)
      requires Valid() && h in handlers && handlers[h].pc == Serving
      modifies this`cubes, this`handlers, this`picks, this`run
      ensures Valid()
      ensures cube == None ==> Snapshot() == old(Snapshot()) && run == old(run)
      ensures cube == None <==> forall c :: c in old(cubes) ==> old(cubes)[c].taken || old(cubes)[c].completed
      ensures cube.Some? ==> run == Extended(old(run), Pick(h, cube.value), Snapshot())
      ensures cube.Some? ==>
        && cube.value in old(cubes) && !old(cubes)[cube.value].taken && !old(cubes)[cube.value].completed
        && cubes == old(cubes)[cube.value := old(cubes)[cube.value].(taken := true)]
        && handlers == old(handlers)[h := Handler(old(handlers)[h].worker, Picked(cube.value))]
    {
      if c :| c in cubes && !cubes[c].taken && !cubes[c].completed {
        cubes := cubes[c := cubes[c].(taken := true)];
        handlers := handlers[h := handlers[h].(pc := Picked(c))];
        picks := picks + 1;
        Took(Pick(h, c));
        return Some(c);
      }
      return None;
    }

    /** The worker-lock half: a worker that timed out meanwhile is not in the table any more. */
    method RecordCubeOwner(h: HandlerId)
      requires Valid() && h in handlers && handlers[h].pc.Picked?
      modifies this`workers, this`handlers, this`run
      ensures Valid() && run == Extended(old(run), RecordOwner(h), Snapshot())
      ensures old(handlers)[h].worker in old(workers) ==>
                workers == old(workers)[old(handlers)[h].worker := Some(old(handlers)[h].pc.cube)]
      ensures old(handlers)[h].worker !in old(workers) ==> workers == old(workers)
      ensures handlers == old(handlers)[h := Handler(old(handlers)[h].worker, Serving)]
    {
      var w := handlers[h].worker;
      if w in workers {
        workers := workers[w := Some(handlers[h].pc.cube)];
      }
      handlers := handlers[h := handlers[h].(pc := Serving)];
      Took(RecordOwner(h));
    }

    method ReceiveWorkerResult(h: HandlerId, report: Report)
      requires Valid() && h in handlers && handlers[h].pc == Serving
      requires CorrectReport(problem, Snapshot(), report)
      modifies this`workers, this`handlers, this`run
      ensures Valid() && run == Extended(old(run), ReceiveResult(h, report), Snapshot())
      ensures old(handlers)[h].worker in old(workers) ==> workers == old(workers)[old(handlers)[h].worker := None]
      ensures old(handlers)[h].worker !in old(workers) ==> workers == old(workers)
      ensures handlers == old(handlers)[h := Handler(old(handlers)[h].worker, Reporting(report))]
    {
      var w := handlers[h].worker;
      if w in workers {
        workers := workers[w := None];
      }
      handlers := handlers[h := handlers[h].(pc := Reporting(report))];
      Took(ReceiveResult(h, report));
    }

    /** A send after the aggregator has gone is dropped. */
    method SendToAggregator(h: HandlerId)
      requires Valid() && h in handlers && handlers[h].pc.Reporting?
      modifies this`queue, this`handlers, this`run
      ensures Valid() && run == Extended(old(run), SendResult(h), Snapshot())
      ensures aggregator != Ended ==> queue == old(queue) + [old(handlers)[h].pc.report]
      ensures aggregator == Ended ==> queue == old(queue)
      ensures handlers == old(handlers)[h := Handler(old(handlers)[h].worker, Serving)]
    {
      if aggregator != Ended {
        queue := queue + [handlers[h].pc.report];
      }
      handlers := handlers[h := handlers[h].(pc := Serving)];
      Took(SendResult(h));
    }

    /** The handler's end: a closed connection removes the worker, a failed one does not. */
    method LeaveHandler(h: HandlerId, failed: bool)
      requires Valid() && h in handlers && handlers[h].pc == Serving
      modifies this`workers, this`handlers, this`run
      ensures Valid() && run == Extended(old(run), if failed then Crash(h) else Disconnect(h), Snapshot())
      ensures workers == if failed then old(workers) else old(workers) - {old(handlers)[h].worker}
      ensures handlers == old(handlers)[h := Handler(old(handlers)[h].worker, Gone)]
    {
      if !failed {
        workers := workers - {handlers[h].worker};
      }
      handlers := handlers[h := handlers[h].(pc := Gone)];
      Took(if failed then Crash(h) else Disconnect(h));
    }

    /** One iteration of the aggregator's loop, up to the decision to stop. */
    method AggregateOne()
      requires Valid() && aggregator == Listening && queue != []
      modifies this`queue, this`log, this`cubes, this`foundSat, this`aggregator, this`run
      ensures Valid() && run == Extended(old(run), Aggregate, Snapshot())
      ensures log == old(log) + [old(queue)[0]] && queue == old(queue)[1..]
      ensures cubes == CompletedBy(old(cubes), old(queue)[0])
      ensures foundSat <==> old(queue)[0].cube in old(cubes) && old(queue)[0].status == Sat
      ensures aggregator == if foundSat || AllCompleted(cubes) then Finishing else Listening
    {
      NotYetFound(problem, initialCubes, run);
      ghost var before := Snapshot();
      var r := queue[0];
      queue := queue[1..];
      log := log + [r];
      var over := false;
      if r.cube in cubes {
        cubes := cubes[r.cube := cubes[r.cube].(completed := true, result := Some(r.status))];
        if r.status == Sat {
          foundSat := true;
          over := true;
        }
      }
      if !over {
        over := forall c :: c in cubes ==> cubes[c].completed;
      }
      aggregator := if over then Finishing else Listening;
      assert Snapshot() == Aggregated(before.(queue := before.queue[1..]), r);
      Took(Aggregate);
    }

    /** The aggregator's last store, after which its thread ends. */
    method AnnounceAllDone()
      requires Valid() && aggregator == Finishing
      modifies this`allDone, this`aggregator, this`run
      ensures Valid() && run == Extended(old(run), AnnounceDone, Snapshot())
      ensures allDone && aggregator == Ended
    {
      allDone, aggregator := true, Ended;
      Took(AnnounceDone);
    }

    /** Under the worker lock: drop one dead worker, if it is still registered. */
    method TimeOutWorker(w: WorkerId)
      requires Valid() && coordinator == Watching && w in workers
      modifies this`workers, this`coordinator, this`run
      ensures Valid() && run == Extended(old(run), TimeOut(w), Snapshot())
      ensures workers == old(workers) - {w}
      ensures coordinator == if old(workers)[w].Some? then Requeueing(old(workers)[w].value) else Watching
    {
      var current := workers[w];
      workers := workers - {w};
      coordinator := if current.Some? then Requeueing(current.value) else Watching;
      Took(TimeOut(w));
    }

    /** Under the cube lock: give the dead worker's cube back unless it is completed. */
    method RequeueCube()
      requires Valid() && coordinator.Requeueing?
      modifies this`cubes, this`coordinator, this`requeues, this`run
      ensures Valid() && run == Extended(old(run), Requeue, Snapshot())
      ensures coordinator == Watching && cubes == GiveBack(old(cubes), old(coordinator).cube)
    {
      var c := coordinator.cube;
      if c in cubes && !cubes[c].completed {
        cubes := cubes[c := cubes[c].(taken := false)];
        requeues := requeues + 1;
      }
      coordinator := Watching;
      Took(Requeue);
    }

    method ReapWorker(w: WorkerId)
      requires Valid() && coordinator == Watching
      modifies this`workers, this`cubes, this`coordinator, this`requeues, this`run
      ensures Valid() && coordinator == Watching
      ensures workers == old(workers) - {w}
      ensures cubes == if w in old(workers) && old(workers)[w].Some?
                       then GiveBack(old(cubes), old(workers)[w].value) else old(cubes)
    {
      if w in workers {
        TimeOutWorker(w);
        if coordinator != Watching {
          RequeueCube();
        }
      }
    }

    /** The watchdog's sweep: afterwards a cube is free again only where a dead worker owned it, unfinished. */
    method ReapDeadWorkers(dead: seq<WorkerId>)
      requires Valid() && coordinator == Watching
      modifies this`workers, this`cubes, this`coordinator, this`requeues, this`run
      ensures Valid() && coordinator == Watching
      ensures workers == old(workers) - Elements(dead)
      ensures FreedOnly(old(cubes), cubes, old(workers), Elements(dead))
    {
      for k := 0 to |dead|
        invariant Valid() && coordinator == Watching
        invariant workers == old(workers) - Elements(dead[..k])
        invariant FreedOnly(old(cubes), cubes, old(workers), Elements(dead[..k]))
      {
        assert dead[..k + 1] == dead[..k] + [dead[k]];
        ghost var mid := cubes;
        ReapWorker(dead[k]);
        FreedStep(old(cubes), mid, old(workers), Elements(dead[..k]), dead[k]);
        assert Elements(dead[..k + 1]) == Elements(dead[..k]) + {dead[k]};
      }
      assert dead[..|dead|] == dead;
    }

    /** After the main loop has seen `allDone`: read the flag, then the table. */
    method DetermineResult() returns (verdict: Status)
      requires Valid() && coordinator == Watching && allDone
      modifies this`coordinator, this`run
      ensures Valid() && coordinator == Decided(verdict)
      ensures VerdictJustified(problem, Snapshot(), verdict)
    {
      coordinator := Closing;
      Took(Observe);
      if foundSat {
        coordinator := Decided(Sat);
        Took(ReadFoundSat);
      } else {
        coordinator := Judging;
        Took(ReadFoundSat);
        var allUnsat := forall c :: c in cubes ==> cubes[c].result == Some(Unsat);
        coordinator := Decided(if allUnsat then Unsat else Unknown);
        Took(Judge);
      }
      verdict := coordinator.verdict;
      VerdictSound(problem, initialCubes, depth, run);
    }
  }

  function Extended(r: Run, e: Event, s: State): Run {
    Run(r.states + [s], r.events + [e])
  }

  /** The table after a report: its cube, if there is one, is completed with the reported status. */
  function CompletedBy(cubes: map<CubeId, CubeState>, r: Report): (after: map<CubeId, CubeState>)
    ensures after.Keys == cubes.Keys
    ensures forall c :: c in cubes && c != r.cube ==> after[c] == cubes[c]
    ensures r.cube in cubes ==>
              after[r.cube] == CubeState(cubes[r.cube].assumptions, cubes[r.cube].taken, true, Some(r.status))
  {
    if r.cube in cubes then cubes[r.cube := cubes[r.cube].(completed := true, result := Some(r.status))] else cubes
  }

  function Elements(ws: seq<WorkerId>): set<WorkerId> {
    set w | w in ws
  }

  function GiveBack(cubes: map<CubeId, CubeState>, c: CubeId): map<CubeId, CubeState> {
    if c in cubes && !cubes[c].completed then cubes[c := cubes[c].(taken := false)] else cubes
  }

  ghost predicate OwnedByOneOf(workers: map<WorkerId, Option<CubeId>>, dead: set<WorkerId>, c: CubeId) {
    exists w :: w in dead && w in workers && workers[w] == Some(c)
  }

  ghost predicate FreedOnly(before: map<CubeId, CubeState>, after: map<CubeId, CubeState>,
                            workers: map<WorkerId, Option<CubeId>>, dead: set<WorkerId>) {
    && after.Keys == before.Keys
    && forall c :: c in before ==>
         after[c] == if OwnedByOneOf(workers, dead, c) && !before[c].completed
                     then before[c].(taken := false) else before[c]
  }

  /** While the aggregator listens no satisfiable cube has been reported. */
  lemma {:induction false} NotYetFound(p: Problem, cubes: seq<Cube>, r: Run)
    requires IsRun(p, cubes, r) && r.Last().aggregator == Listening
    ensures !r.Last().foundSat
  {
    RunInvariant(p, cubes, r, |r.states| - 1);
  }

  lemma {:induction false} FreedStep(before: map<CubeId, CubeState>, mid: map<CubeId, CubeState>,
                  workers: map<WorkerId, Option<CubeId>>, dead: set<WorkerId>, w: WorkerId)
    requires FreedOnly(before, mid, workers, dead)
    ensures FreedOnly(before,
              if w in workers && w !in dead && workers[w].Some? then GiveBack(mid, workers[w].value) else mid,
              workers, dead + {w})
  {
    forall c: CubeId ensures OwnedByOneOf(workers, dead + {w}, c) <==>
                       OwnedByOneOf(workers, dead, c) || (w in workers && workers[w] == Some(c))
    {
      if OwnedByOneOf(workers, dead, c) {
        var v :| v in dead && v in workers && workers[v] == Some(c);
        assert v in dead + {w};
      }
      if w in workers && workers[w] == Some(c) {
        assert w in dead + {w};
      }
    }
  }
}
