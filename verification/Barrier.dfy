/** `PELIBackendParallelBarrier`: each task has a counter; a task that arrives adds one to its own counter and then
    scans the counters of the others, waiting at each until it exceeds the value its own had before.

    One counter access is one step.  `counters` has one entry a task (the source spaces them `kSyncStride` apart),
    and `rounds[t]` counts how often task `t` has returned from the barrier. */
module Barrier {

  /** Outside the barrier, or scanning: `before` is the value the `fetch_add` returned, `i` the counter to look at. */
  datatype TaskPc = Outside | Scan(before: int, i: nat)

  datatype Group' = Group(counters: seq<int>, tasks: seq<TaskPc>, rounds: seq<nat>)

  type Group = g: Group' | |g.counters| == |g.tasks| == |g.rounds|
    witness Group([], [], [])

  ghost predicate Init(g: Group) {
    forall t :: 0 <= t < |g.tasks| ==> g.counters[t] == 0 && g.tasks[t] == Outside && g.rounds[t] == 0
  }

  /** The next access of task `t`; a task that meets a counter not yet large enough stays where it is. */
  function Step(g: Group, t: nat): Group {
    if t >= |g.tasks| then g
    else
      match g.tasks[t]
      case Outside =>
        g.(counters := g.counters[t := g.counters[t] + 1], tasks := g.tasks[t := Scan(g.counters[t], 0)])
      case Scan(before, i) =>
        if i >= |g.tasks| then g.(tasks := g.tasks[t := Outside], rounds := g.rounds[t := g.rounds[t] + 1])
        else if i == t || g.counters[i] > before then g.(tasks := g.tasks[t := Scan(before, i + 1)])
        else g
  }

  function Run(g: Group, schedule: seq<nat>): Group
    decreases |schedule|
  {
    if schedule == [] then g else Run(Step(g, schedule[0]), schedule[1..])
  }

  // ----- The invariant -----

  /** Task `t` in terms of the counters: it has entered as often as its counter says, everybody has entered at
      least as often as it has returned, and whoever it has scanned has entered as often as itself. */
  ghost predicate TaskOk(g: Group, t: nat)
    requires t < |g.tasks|
  {
    match g.tasks[t]
    case Outside =>
      && g.counters[t] == g.rounds[t]
      && (forall j :: 0 <= j < |g.tasks| ==> g.counters[j] >= g.counters[t])
    case Scan(before, i) =>
      && g.counters[t] == before + 1 && g.rounds[t] == before && i <= |g.tasks|
      && (forall j :: 0 <= j < |g.tasks| ==> g.counters[j] >= before)
      && (forall j :: 0 <= j < i ==> g.counters[j] > before)
  }

  ghost predicate Inv(g: Group) {
    forall t :: 0 <= t < |g.tasks| ==> TaskOk(g, t)
  }

  lemma StepKeepsInv(g: Group, t: nat)
    requires Inv(g)
    ensures Inv(Step(g, t))
  {
    if t < |g.tasks| {
      assert TaskOk(g, t);
      var g' := Step(g, t);
      forall u | 0 <= u < |g.tasks|
        ensures TaskOk(g', u)
      {
        assert TaskOk(g, u);
      }
    }
  }

  lemma {:induction false} RunKeepsInv(g: Group, schedule: seq<nat>)
    requires Inv(g)
    ensures Inv(Run(g, schedule))
    decreases |schedule|
  {
    if schedule != [] {
      StepKeepsInv(g, schedule[0]);
      RunKeepsInv(Step(g, schedule[0]), schedule[1..]);
    }
  }

  // ----- Safety -----

  /** How often task `t` has entered the barrier. */
  function Entered(g: Group, t: nat): nat
    requires t < |g.tasks|
  {
    g.rounds[t] + if g.tasks[t].Scan? then 1 else 0
  }

  /** For any number of tasks, any number of rounds and any interleaving: no task has returned from its k-th barrier
      before every task has entered its k-th, and no two counters are ever more than one apart. */
  lemma BarrierIsSafe(g0: Group, schedule: seq<nat>)
    requires Init(g0)
    ensures var g := Run(g0, schedule);
            forall t, u :: 0 <= t < |g.tasks| && 0 <= u < |g.tasks| ==>
              && g.rounds[t] <= Entered(g, u)
              && g.counters[t] == Entered(g, t)
              && g.counters[t] <= g.counters[u] + 1
  {
    RunKeepsInv(g0, schedule);
    var g := Run(g0, schedule);
    forall t, u | 0 <= t < |g.tasks| && 0 <= u < |g.tasks|
      ensures g.rounds[t] <= Entered(g, u) && g.counters[t] == Entered(g, t) && g.counters[t] <= g.counters[u] + 1
    {
      assert TaskOk(g, t) && TaskOk(g, u);
    }
  }

  // ----- Progress -----

  /** A task inside the barrier is held up only by a task that has entered less often than itself. */
  lemma BlockedByStraggler(g: Group, t: nat)
    requires Inv(g) && t < |g.tasks| && g.tasks[t].Scan?
    ensures Step(g, t) == g <==>
            g.tasks[t].i < |g.tasks| && g.counters[g.tasks[t].i] == g.counters[t] - 1
  {
    assert TaskOk(g, t);
    var i := g.tasks[t].i;
    if i == |g.tasks| {
      assert Step(g, t).tasks[t].Outside?;
    } else if i == t || g.counters[i] > g.tasks[t].before {
      assert Step(g, t).tasks[t].i == i + 1;
    }
  }

  /** The task that has entered least often among the first `n`. */
  function Slowest(g: Group, n: nat): (t: nat)
    requires 1 <= n <= |g.tasks|
    ensures t < n && forall u :: 0 <= u < n ==> g.counters[t] <= g.counters[u]
  {
    if n == 1 then 0
    else
      var t := Slowest(g, n - 1);
      if g.counters[n - 1] < g.counters[t] then n - 1 else t
  }

  /** What is left of a scan. */
  function Left(g: Group, t: nat): int
    requires t < |g.tasks|
  {
    match g.tasks[t]
    case Outside => 0
    case Scan(_, i) => |g.tasks| - i + 1
  }

  /** The slowest task is never held up: left to itself it returns from the barrier. */
  lemma {:induction false} SlowestReturns(g: Group, t: nat) returns (schedule: seq<nat>)
    requires Inv(g) && t < |g.tasks| && g.tasks[t].Scan?
    requires forall u :: 0 <= u < |g.tasks| ==> g.counters[t] <= g.counters[u]
    ensures |schedule| == Left(g, t)
    ensures var r := Run(g, schedule);
            && r.tasks == g.tasks[t := Outside] && r.counters == g.counters
            && r.rounds == g.rounds[t := g.rounds[t] + 1]
    decreases Left(g, t)
  {
    assert TaskOk(g, t);
    StepKeepsInv(g, t);
    var g' := Step(g, t);
    if g.tasks[t].i == |g.tasks| {
      schedule := [t];
      assert schedule[1..] == [];
      assert Run(g', []) == g';
    } else {
      var rest := SlowestReturns(g', t);
      schedule := [t] + rest;
      assert schedule[1..] == rest;
      assert g'.tasks[t := Outside] == g.tasks[t := Outside];
    }
  }

  /** How many of the first `n` tasks are inside the barrier. */
  function Inside(tasks: seq<TaskPc>, n: nat): nat
    requires n <= |tasks|
  {
    if n == 0 then 0 else Inside(tasks, n - 1) + if tasks[n - 1].Scan? then 1 else 0
  }

  lemma {:induction false} InsideUpdate(tasks: seq<TaskPc>, t: nat, n: nat)
    requires n <= |tasks| && t < |tasks| && tasks[t].Scan?
    ensures Inside(tasks[t := Outside], n) == Inside(tasks, n) - if t < n then 1 else 0
  {
    if n > 0 {
      InsideUpdate(tasks, t, n - 1);
    }
  }

  /** The slowest of the tasks inside the barrier among the first `n`. */
  function SlowestInside(g: Group, n: nat): (t: nat)
    requires n <= |g.tasks| && Inside(g.tasks, n) > 0
    ensures t < n && g.tasks[t].Scan?
    ensures forall u :: 0 <= u < n && g.tasks[u].Scan? ==> g.counters[t] <= g.counters[u]
  {
    if Inside(g.tasks, n - 1) == 0 then
      NoneInside(g.tasks, n - 1);
      n - 1
    else
      var t := SlowestInside(g, n - 1);
      if g.tasks[n - 1].Scan? && g.counters[n - 1] < g.counters[t] then n - 1 else t
  }

  lemma {:induction false} NoneInside(tasks: seq<TaskPc>, n: nat)
    requires n <= |tasks| && Inside(tasks, n) == 0
    ensures forall u :: 0 <= u < n ==> tasks[u].Outside?
  {
    if n > 0 {
      NoneInside(tasks, n - 1);
    }
  }

  lemma {:induction false} RunConcat(g: Group, a: seq<nat>, b: seq<nat>)
    ensures Run(g, a + b) == Run(Run(g, a), b)
    decreases |a|
  {
    if a == [] {
      assert a + b == b;
    } else {
      assert (a + b)[1..] == a[1..] + b;
      RunConcat(Step(g, a[0]), a[1..], b);
    }
  }

  /** No schedule can get the tasks stuck: when all are inside, one of them can return with no help. */
  lemma SomeoneReturns(g: Group) returns (t: nat, schedule: seq<nat>)
    requires Inv(g) && |g.tasks| > 0 && forall u :: 0 <= u < |g.tasks| ==> g.tasks[u].Scan?
    ensures t < |g.tasks|
    ensures var r := Run(g, schedule);
            r.tasks == g.tasks[t := Outside] && r.rounds == g.rounds[t := g.rounds[t] + 1] && r.counters == g.counters
  {
    t := Slowest(g, |g.tasks|);
    schedule := SlowestReturns(g, t);
  }

  /** Every task has entered the barrier, and none has gone on to enter it again. */
  ghost predicate AllArrived(g: Group) {
    forall t, u :: 0 <= t < |g.tasks| && 0 <= u < |g.tasks| ==> g.counters[t] == g.counters[u]
  }

  /** Counters and rounds only grow, and nobody moves a task but itself. */
  lemma StepForward(g: Group, s: nat, t: nat)
    requires t < |g.tasks|
    ensures var g' := Step(g, s);
            && g'.rounds[t] >= g.rounds[t] && (forall u :: 0 <= u < |g.tasks| ==> g'.counters[u] >= g.counters[u])
            && (s != t ==> g'.tasks[t] == g.tasks[t] && g'.counters[t] == g.counters[t])
  {
  }

  lemma {:induction false} RoundsGrow(g: Group, schedule: seq<nat>, t: nat)
    requires t < |g.tasks|
    ensures |Run(g, schedule).tasks| == |g.tasks| && Run(g, schedule).rounds[t] >= g.rounds[t]
    decreases |schedule|
  {
    if schedule != [] {
      StepForward(g, schedule[0], t);
      RoundsGrow(Step(g, schedule[0]), schedule[1..], t);
    }
  }

  /** A task inside a barrier that all have entered gets on with each of its steps. */
  lemma OwnStep(g: Group, t: nat)
    requires Inv(g) && t < |g.tasks| && g.tasks[t].Scan?
    requires forall u :: 0 <= u < |g.tasks| ==> g.counters[t] <= g.counters[u]
    ensures var g' := Step(g, t);
            if Left(g, t) == 1 then g'.rounds[t] == g.counters[t]
            else g'.tasks[t].Scan? && Left(g', t) == Left(g, t) - 1 && g'.counters == g.counters
  {
    assert TaskOk(g, t);
  }

  /** The barrier opens: once all have entered it, a task inside has returned after every schedule that gives it the
      steps left of its scan, whatever the others do meanwhile, be it to enter the barrier again. */
  lemma {:induction false} BarrierOpens(g: Group, t: nat, schedule: seq<nat>)
    requires Inv(g) && t < |g.tasks| && g.tasks[t].Scan?
    requires forall u :: 0 <= u < |g.tasks| ==> g.counters[t] <= g.counters[u]
    requires multiset(schedule)[t] >= Left(g, t)
    ensures |Run(g, schedule).tasks| == |g.tasks| && Run(g, schedule).rounds[t] >= g.counters[t]
    decreases |schedule|
  {
    assert TaskOk(g, t);
    if schedule != [] {
      var s, rest := schedule[0], schedule[1..];
      assert schedule == [s] + rest;
      StepKeepsInv(g, s);
      StepForward(g, s, t);
      if s == t {
        OwnStep(g, t);
      }
      if s == t && Left(g, t) == 1 {
        RoundsGrow(Step(g, t), rest, t);
      } else {
        BarrierOpens(Step(g, s), t, rest);
      }
    }
  }

  /** And it can empty: some schedule takes every task out, whatever point of its scan each has reached and whichever
      have returned already. */
  lemma {:induction false} BarrierEmpties(g: Group) returns (schedule: seq<nat>)
    requires Inv(g) && AllArrived(g)
    ensures |Run(g, schedule).tasks| == |g.tasks|
    ensures var r := Run(g, schedule);
            forall t :: 0 <= t < |g.tasks| ==> r.tasks[t].Outside? && r.rounds[t] == g.counters[t]
    decreases Inside(g.tasks, |g.tasks|)
  {
    var n := |g.tasks|;
    if Inside(g.tasks, n) == 0 {
      NoneInside(g.tasks, n);
      schedule := [];
      forall t | 0 <= t < n
        ensures g.rounds[t] == g.counters[t]
      {
        assert TaskOk(g, t);
      }
    } else {
      var t := SlowestInside(g, n);
      forall u | 0 <= u < n
        ensures g.counters[t] <= g.counters[u]
      {
      }
      var first := SlowestReturns(g, t);
      var g' := Run(g, first);
      RunKeepsInv(g, first);
      InsideUpdate(g.tasks, t, n);
      assert TaskOk(g', t);
      assert AllArrived(g');
      var rest := BarrierEmpties(g');
      RunConcat(g, first, rest);
      schedule := first + rest;
    }
  }

  // ----- How many counters there are -----

  /** The lengths of the two arrays of a launcher: error messages and counters. */
  datatype Lengths = Lengths(errors: nat, counters: nat)

  const NO_ARRAYS := Lengths(0, 0)

  /** `Init`: when there are too few error messages both arrays are made anew, the messages one longer than asked for,
      the counters only for a launch that synchronises. */
  function Grown(s: Lengths, numTask: nat, needSync: bool): Lengths {
    if numTask > s.errors then Lengths(numTask + 1, if needSync then numTask else s.counters) else s
  }

  /** The lengths after launches of these task counts, all of which synchronise as every parallel launch does. */
  function AfterLaunches(numTasks: seq<nat>): Lengths {
    if numTasks == [] then NO_ARRAYS
    else
      var n := |numTasks| - 1;
      Grown(AfterLaunches(numTasks[..n]), numTasks[n], true)
  }

  lemma {:induction false} OneMessageMore(numTasks: seq<nat>)
    ensures var s := AfterLaunches(numTasks); s == NO_ARRAYS || (s.counters >= 1 && s.errors == s.counters + 1)
  {
    if numTasks != [] {
      OneMessageMore(numTasks[..|numTasks| - 1]);
    }
  }

  /** A launch has a counter for each of its tasks if and only if it does not have exactly one task more than the last
      launch for which the arrays were made. */
  lemma CountersSuffice(numTasks: seq<nat>, numTask: nat)
    ensures var s := AfterLaunches(numTasks);
            numTask <= Grown(s, numTask, true).counters <==> !(s.counters >= 1 && numTask == s.counters + 1)
  {
    OneMessageMore(numTasks);
  }

  /** For example three tasks after two. */
  lemma ThreeAfterTwo()
    ensures AfterLaunches([2, 3]).counters == 2
  {
    assert [2, 3][..1] == [2] && [2][..0] == [];
    assert AfterLaunches([2]) == Grown(AfterLaunches([]), 2, true);
  }
}
