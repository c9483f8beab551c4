/** Cumulative scheduling with optional tasks of one duration, checked only at the tasks' starts. */
module Cumulative {

  datatype Task = Task(present: bool, start: int)

  predicate Running(t: Task, duration: int, time: int) {
    t.present && t.start <= time < t.start + duration
  }

  /** How many of the tasks run at the time point. */
  function Load(tasks: seq<Task>, duration: int, time: int): nat {
    if tasks == [] then 0
    else Load(tasks[..|tasks| - 1], duration, time) + if Running(tasks[|tasks| - 1], duration, time) then 1 else 0
  }

  lemma {:induction false} LoadPositive(tasks: seq<Task>, duration: int, time: int)
    requires Load(tasks, duration, time) > 0
    ensures exists k :: 0 <= k < |tasks| && Running(tasks[k], duration, time)
  {
    if !Running(tasks[|tasks| - 1], duration, time) {
      LoadPositive(tasks[..|tasks| - 1], duration, time);
      var k :| 0 <= k < |tasks| - 1 && Running(tasks[..|tasks| - 1][k], duration, time);
      assert Running(tasks[k], duration, time);
    }
  }

  /** The task that started last among those running at the time point. */
  lemma {:induction false} LatestRunning(tasks: seq<Task>, duration: int, time: int) returns (k: nat)
    requires exists j :: 0 <= j < |tasks| && Running(tasks[j], duration, time)
    ensures k < |tasks| && Running(tasks[k], duration, time)
    ensures forall j :: 0 <= j < |tasks| && Running(tasks[j], duration, time) ==> tasks[j].start <= tasks[k].start
  {
    var before := tasks[..|tasks| - 1];
    if exists j :: 0 <= j < |before| && Running(before[j], duration, time) {
      k := LatestRunning(before, duration, time);
      assert forall j :: 0 <= j < |before| ==> before[j] == tasks[j];
      if Running(tasks[|tasks| - 1], duration, time) && tasks[|tasks| - 1].start > tasks[k].start {
        k := |tasks| - 1;
      }
    } else {
      assert forall j :: 0 <= j < |before| ==> before[j] == tasks[j];
      k := |tasks| - 1;
    }
  }

  lemma {:induction false} LoadMonotone(tasks: seq<Task>, duration: int, time: int, time': int)
    requires forall k :: 0 <= k < |tasks| && Running(tasks[k], duration, time) ==> Running(tasks[k], duration, time')
    ensures Load(tasks, duration, time) <= Load(tasks, duration, time')
  {
    if tasks != [] {
      LoadMonotone(tasks[..|tasks| - 1], duration, time, time');
    }
  }

  /** At every time point the load is bounded by the load at some present task's start, unless it is zero. */
  lemma {:induction false} PeakAtStart(tasks: seq<Task>, duration: int, time: int)
    requires Load(tasks, duration, time) > 0
    ensures exists k :: 0 <= k < |tasks| && tasks[k].present
              && Load(tasks, duration, time) <= Load(tasks, duration, tasks[k].start)
  {
    LoadPositive(tasks, duration, time);
    var k := LatestRunning(tasks, duration, time);
    LoadMonotone(tasks, duration, time, tasks[k].start);
  }

  ghost predicate NeverOverloaded(tasks: seq<Task>, duration: int, capacity: int) {
    forall time: int :: Load(tasks, duration, time) <= capacity
  }

  predicate StartsNotOverloaded(tasks: seq<Task>, duration: int, capacity: int) {
    forall k :: 0 <= k < |tasks| && tasks[k].present ==> Load(tasks, duration, tasks[k].start) <= capacity
  }

  /** Checking at the present tasks' starts is checking at every time point. */
  lemma {:induction false} StartsSuffice(tasks: seq<Task>, duration: int, capacity: int)
    requires capacity >= 0
    ensures StartsNotOverloaded(tasks, duration, capacity) <==> NeverOverloaded(tasks, duration, capacity)
  {
    if StartsNotOverloaded(tasks, duration, capacity) {
      forall time: int ensures Load(tasks, duration, time) <= capacity {
        if Load(tasks, duration, time) > 0 {
          PeakAtStart(tasks, duration, time);
        }
      }
    }
  }

  /** The model replay: direct load at every present task's start. */
  method VerifyLoads(tasks: seq<Task>, duration: int, capacity: int) returns (ok: bool)
    requires capacity >= 0
    ensures ok <==> NeverOverloaded(tasks, duration, capacity)
  {
    StartsSuffice(tasks, duration, capacity);
    for i := 0 to |tasks|
      invariant forall k :: 0 <= k < i && tasks[k].present ==> Load(tasks, duration, tasks[k].start) <= capacity
    {
      if tasks[i].present {
        var load := 0;
        for j := 0 to |tasks|
          invariant load == Load(tasks[..j], duration, tasks[i].start)
        {
          assert tasks[..j + 1][..j] == tasks[..j];
          if tasks[j].present && tasks[j].start <= tasks[i].start < tasks[j].start + duration {
            load := load + 1;
          }
        }
        assert tasks[..|tasks|] == tasks;
        if load > capacity {
          return false;
        }
      }
    }
    return true;
  }

  /* ---------- Load over a span of time ---------- */

  /** The load summed over the time points from lo up to hi. */
  function TotalLoad(tasks: seq<Task>, duration: int, lo: int, hi: int): nat
    decreases hi - lo
  {
    if hi <= lo then 0 else TotalLoad(tasks, duration, lo, hi - 1) + Load(tasks, duration, hi - 1)
  }

  function PresentTasks(tasks: seq<Task>): nat {
    if tasks == [] then 0 else PresentTasks(tasks[..|tasks| - 1]) + if tasks[|tasks| - 1].present then 1 else 0
  }

  lemma {:induction false} OneTask(t: Task, duration: int, lo: int, hi: int)
    requires lo <= t.start && 0 <= duration && lo <= hi
    ensures TotalLoad([t], duration, lo, hi) ==
            if !t.present || hi <= t.start then 0 else if hi < t.start + duration then hi - t.start else duration
    decreases hi - lo
  {
    if lo < hi {
      OneTask(t, duration, lo, hi - 1);
      assert [t][..0] == [];
      assert Load([t], duration, hi - 1) == if Running(t, duration, hi - 1) then 1 else 0;
    }
  }

  lemma {:induction false} LastApart(tasks: seq<Task>, duration: int, lo: int, hi: int)
    requires tasks != []
    ensures TotalLoad(tasks, duration, lo, hi)
         == TotalLoad(tasks[..|tasks| - 1], duration, lo, hi) + TotalLoad([tasks[|tasks| - 1]], duration, lo, hi)
    decreases hi - lo
  {
    if lo < hi {
      LastApart(tasks, duration, lo, hi - 1);
      var last := tasks[|tasks| - 1];
      assert [last][..0] == [];
      assert Load([last], duration, hi - 1) == if Running(last, duration, hi - 1) then 1 else 0;
    }
  }

  /** Every present task adds its duration, whichever way they overlap. */
  lemma {:induction false} LoadConserved(tasks: seq<Task>, duration: int, lo: int, hi: int)
    requires 0 <= duration && lo <= hi
    requires forall k :: 0 <= k < |tasks| && tasks[k].present ==> lo <= tasks[k].start && tasks[k].start + duration <= hi
    ensures TotalLoad(tasks, duration, lo, hi) == duration * PresentTasks(tasks)
  {
    if tasks == [] {
      NoTasks(duration, lo, hi);
    } else {
      var last, front := tasks[|tasks| - 1], tasks[..|tasks| - 1];
      LastApart(tasks, duration, lo, hi);
      LoadConserved(front, duration, lo, hi);
      if last.present {
        OneTask(last, duration, lo, hi);
        assert duration * PresentTasks(tasks) == duration * PresentTasks(front) + duration;
      } else {
        Absent(last, duration, lo, hi);
      }
    }
  }

  lemma {:induction false} NoTasks(duration: int, lo: int, hi: int)
    ensures TotalLoad([], duration, lo, hi) == 0
    decreases hi - lo
  {
    if lo < hi { NoTasks(duration, lo, hi - 1); }
  }

  lemma {:induction false} Absent(t: Task, duration: int, lo: int, hi: int)
    requires !t.present
    ensures TotalLoad([t], duration, lo, hi) == 0
    decreases hi - lo
  {
    if lo < hi {
      Absent(t, duration, lo, hi - 1);
      assert [t][..0] == [];
      assert Load([t], duration, hi - 1) == 0;
    }
  }

  /* ---------- The emitted constraints ---------- */

  datatype IntTerm =
    | Start(task: nat)
    | Num(value: int)
    | Plus(terms: seq<IntTerm>)
    | Ite(cond: Cond, thn: IntTerm, els: IntTerm)

  datatype Cond =
    | Present(guard: nat)
    | Le(left: IntTerm, right: IntTerm)
    | Lt(left: IntTerm, right: IntTerm)
    | And(conds: seq<Cond>)
    | Implies(ante: Cond, cons: Cond)

  /** A model: guards by guard index (tasks may share one), starts by task. */
  datatype Model = Model(guards: nat -> bool, starts: nat -> int)

  function Value(t: IntTerm, m: Model): int {
    match t
    case Start(i) => m.starts(i)
    case Num(n) => n
    case Plus(ts) => Sum(ts, m)
    case Ite(c, x, y) => if Holds(c, m) then Value(x, m) else Value(y, m)
  }

  function Sum(ts: seq<IntTerm>, m: Model): int {
    if ts == [] then 0 else
      SplitLast(ts);
      Sum(ts[..|ts| - 1], m) + Value(ts[|ts| - 1], m)
  }

  lemma SplitLast(ts: seq<IntTerm>)
    requires ts != []
    ensures ts[..|ts| - 1] + [ts[|ts| - 1]] == ts
  {
  }

  predicate Holds(c: Cond, m: Model) {
    match c
    case Present(g) => m.guards(g)
    case Le(x, y) => Value(x, m) <= Value(y, m)
    case Lt(x, y) => Value(x, m) < Value(y, m)
    case And(cs) => forall k :: 0 <= k < |cs| ==> Holds(cs[k], m)
    case Implies(p, q) => Holds(p, m) ==> Holds(q, m)
  }

  /** The tasks a model describes; `guardOf` is the identity, or constant for the shared family. */
  function TasksOf(m: Model, guardOf: nat -> nat, count: nat): seq<Task> {
    seq(count, i requires 0 <= i < count => Task(m.guards(guardOf(i)), m.starts(i)))
  }

  /** Whether task j runs at task i's start, as a 0-1 term. */
  function LoadTerm(guardOf: nat -> nat, duration: int, i: nat, j: nat): IntTerm {
    Ite(And([Present(guardOf(j)), Le(Start(j), Start(i)), Lt(Start(i), Plus([Start(j), Num(duration)]))]), Num(1), Num(0))
  }

  function LoadTerms(guardOf: nat -> nat, duration: int, i: nat, n: nat): seq<IntTerm> {
    if n == 0 then [] else LoadTerms(guardOf, duration, i, n - 1) + [LoadTerm(guardOf, duration, i, n - 1)]
  }

  function Constraint(guardOf: nat -> nat, duration: int, capacity: int, count: nat, i: nat): Cond {
    Implies(Present(guardOf(i)), Le(Plus(LoadTerms(guardOf, duration, i, count)), Num(capacity)))
  }

  method EmitConstraints(guardOf: nat -> nat, duration: int, capacity: int, count: nat) returns (lines: seq<Cond>)
    ensures |lines| == count + 1 && lines[0] == Le(Num(0), Num(capacity))
    ensures forall i :: 0 <= i < count ==> lines[i + 1] == Constraint(guardOf, duration, capacity, count, i)
  {
    lines := [Le(Num(0), Num(capacity))];
    for i := 0 to count
      invariant |lines| == i + 1 && lines[0] == Le(Num(0), Num(capacity))
      invariant forall k :: 0 <= k < i ==> lines[k + 1] == Constraint(guardOf, duration, capacity, count, k)
    {
      var loads := [];
      for j := 0 to count
        invariant loads == LoadTerms(guardOf, duration, i, j)
      {
        loads := loads + [LoadTerm(guardOf, duration, i, j)];
      }
      lines := lines + [Implies(Present(guardOf(i)), Le(Plus(loads), Num(capacity)))];
    }
  }

  lemma {:induction false} LoadTermValue(m: Model, guardOf: nat -> nat, duration: int, i: nat, j: nat)
    ensures Value(LoadTerm(guardOf, duration, i, j), m)
         == if Running(Task(m.guards(guardOf(j)), m.starts(j)), duration, m.starts(i)) then 1 else 0
  {
    var end := [Start(j), Num(duration)];
    assert Sum(end, m) == m.starts(j) + duration by {
      assert end[..1] == [Start(j)] && [Start(j)][..0] == [];
      assert Sum(end[..1], m) == Sum([], m) + m.starts(j);
    }
    var cs := [Present(guardOf(j)), Le(Start(j), Start(i)), Lt(Start(i), Plus(end))];
    assert Value(Plus(end), m) == Sum(end, m);
    assert Holds(cs[0], m) == m.guards(guardOf(j));
    assert Holds(cs[1], m) == (m.starts(j) <= m.starts(i));
    assert Holds(cs[2], m) == (m.starts(i) < m.starts(j) + duration);
    assert Holds(And(cs), m) <==> Holds(cs[0], m) && Holds(cs[1], m) && Holds(cs[2], m);
    assert LoadTerm(guardOf, duration, i, j) == Ite(And(cs), Num(1), Num(0));
  }

  lemma TasksSnoc(m: Model, guardOf: nat -> nat, n: nat)
    ensures TasksOf(m, guardOf, n + 1) == TasksOf(m, guardOf, n) + [Task(m.guards(guardOf(n)), m.starts(n))]
  {}

  lemma {:induction false} LoadTermsSum(m: Model, guardOf: nat -> nat, duration: int, i: nat, n: nat)
    ensures Sum(LoadTerms(guardOf, duration, i, n), m) == Load(TasksOf(m, guardOf, n), duration, m.starts(i))
  {
    if n > 0 {
      LoadTermsSum(m, guardOf, duration, i, n - 1);
      LoadTermValue(m, guardOf, duration, i, n - 1);
      var ts, t := LoadTerms(guardOf, duration, i, n - 1), LoadTerm(guardOf, duration, i, n - 1);
      var tasks, last := TasksOf(m, guardOf, n - 1), Task(m.guards(guardOf(n - 1)), m.starts(n - 1));
      SumMatchesLoad(ts, t, tasks, last, duration, m.starts(i), m);
      TasksSnoc(m, guardOf, n - 1);
      assert LoadTerms(guardOf, duration, i, n) == ts + [t];
    }
  }

  lemma {:induction false} SumMatchesLoad(ts: seq<IntTerm>, t: IntTerm, tasks: seq<Task>, last: Task,
                                          duration: int, time: int, m: Model)
    requires Sum(ts, m) == Load(tasks, duration, time)
    requires Value(t, m) == if Running(last, duration, time) then 1 else 0
    ensures Sum(ts + [t], m) == Load(tasks + [last], duration, time)
  {
    SumSnoc(ts, t, m);
    LoadSnoc(tasks, last, duration, time);
  }

  lemma {:induction false} LoadSnoc(tasks: seq<Task>, t: Task, duration: int, time: int)
    ensures Load(tasks + [t], duration, time) == Load(tasks, duration, time) + if Running(t, duration, time) then 1 else 0
  {
    assert (tasks + [t])[..|tasks|] == tasks;
  }

  lemma {:induction false} SumSnoc(ts: seq<IntTerm>, t: IntTerm, m: Model)
    ensures Sum(ts + [t], m) == Sum(ts, m) + Value(t, m)
  {
    assert (ts + [t])[..|ts|] == ts;
  }

  /** The emitted lines hold in a model exactly when its schedule is never overloaded. */
  lemma {:induction false} ConstraintsExact(m: Model, guardOf: nat -> nat, duration: int, capacity: int, count: nat)
    ensures Holds(Le(Num(0), Num(capacity)), m)
              && (forall i :: 0 <= i < count ==> Holds(Constraint(guardOf, duration, capacity, count, i), m))
       <==> capacity >= 0 && NeverOverloaded(TasksOf(m, guardOf, count), duration, capacity)
  {
    var tasks := TasksOf(m, guardOf, count);
    assert Holds(Le(Num(0), Num(capacity)), m) <==> capacity >= 0;
    if capacity >= 0 {
      StartsSuffice(tasks, duration, capacity);
    }
    forall i | 0 <= i < count
      ensures Holds(Constraint(guardOf, duration, capacity, count, i), m)
         <==> (tasks[i].present ==> Load(tasks, duration, tasks[i].start) <= capacity)
    {
      LoadTermsSum(m, guardOf, duration, i, count);
      var sum := Plus(LoadTerms(guardOf, duration, i, count));
      assert Value(sum, m) == Load(tasks, duration, m.starts(i));
      assert Holds(Le(sum, Num(capacity)), m) <==> Value(sum, m) <= capacity;
    }
  }
}
