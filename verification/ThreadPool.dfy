/** `ThreadPool::Launch` over the task queues: the master pushes one task into the queue of each worker, runs task 0
    itself, and waits until the launcher's counter of unfinished tasks is zero.

    The queues are the ones of module SpscTaskQueue, access by access, so the states reached here are all the
    interleavings of the master's pushes, the workers' pops and the accesses to the launcher. */
module ThreadPool {
  import opened SpscTaskQueue

  /** Where worker `i` is: inside `Pop` (its queue says where), holding a task it has not run yet, or signalling.
      A failed task is signalled by two accesses: the decrement (`WFail`), then the error flag (`WStore`). */
  datatype WorkerPc = WPop | WRun(task: Task) | WFinish(task: Task) | WFail(task: Task) | WStore(task: Task)

  datatype MasterPc = MIdle | MPush(k: nat) | MRun | MFinish | MFail | MStore | MWait | MReturn

  /** The pool and the launcher.  `used` is the number of workers in use, `launch` numbers the calls of `Launch`.
      History of the current launch: `ran` counts how often each task id was run, `done` holds the ids whose
      completion was signalled, `failed` the ids that failed, `stored` those that have set the error flag, and
      `stale` says that a task of an earlier launch has set it. */
  datatype PoolState = Pool(
    queues: seq<Queue>, work: seq<WorkerPc>, used: nat,
    master: MasterPc, numTask: nat, launch: nat, numPending: int, hasError: bool, code: int,
    ran: multiset<nat>, done: set<nat>, failed: set<nat>, stored: set<nat>, stale: bool)

  /** One worker a queue, and a launch uses no more of them than there are. */
  type Pool = p: PoolState |
      && |p.work| == |p.queues| && p.numTask <= p.used <= |p.queues|
      && (p.master.MPush? ==> p.master.k < |p.queues|)
    witness Pool([], [], 0, MIdle, 0, 0, 0, false, 0, multiset{}, {}, {}, {}, false)

  /** `n` is the task count asked for when the master is idle; `ok` is the outcome of the task being run. */
  datatype Action = Master(n: nat, ok: bool) | Worker(i: nat, ok: bool) | Wake(i: nat)

  ghost predicate Init(p: Pool) {
    && 1 <= p.used <= |p.queues| == |p.work|
    && (forall i :: 0 <= i < |p.queues| ==> SpscTaskQueue.Init(p.queues[i]) && p.work[i] == WPop)
    && p.master == MIdle && p.numTask == 0 && p.launch == 0 && p.numPending == 0 && p.code == 0
    && p.ran == multiset{} && p.done == {} && p.failed == {} && p.stored == {} && !p.stale && !p.hasError
  }

  function SetQueue(p: Pool, i: nat, q: Queue): Pool
    requires i < |p.queues|
  {
    p.(queues := p.queues[i := q])
  }

  function SetWorker(p: Pool, i: nat, w: WorkerPc): Pool
    requires i < |p.work|
  {
    p.(work := p.work[i := w])
  }

  function Requested(p: Pool, n: nat): nat {
    if n == 0 then p.used else n
  }

  /** `Launch` checks the request and sets the launcher up; too large a request is refused. */
  function Start(p: Pool, n: nat): Pool {
    var t := Requested(p, n);
    if t > p.used then p
    else p.(numTask := t, launch := p.launch + 1, numPending := t, hasError := false,
            ran := multiset{}, done := {}, failed := {}, stored := {}, stale := false,
            master := if t > 1 then MPush(1) else MRun)
  }

  /** One access of `Push` on the queue of worker `k`; when it returns the master goes on to the next worker. */
  function PushStep(p: Pool, k: nat): Pool
    requires k < |p.queues|
  {
    var q := ProducerStep(p.queues[k], Task(p.launch, k));
    SetQueue(p, k, q).(master :=
      if !q.prod.POut? then MPush(k) else if k + 1 < p.numTask then MPush(k + 1) else MRun)
  }

  function MasterStep(p: Pool, n: nat, ok: bool): Pool
  {
    match p.master
    case MIdle => Start(p, n)
    case MPush(k) => PushStep(p, k)
    case MRun => p.(ran := p.ran + multiset{0}, failed := if ok then p.failed else p.failed + {0},
                    master := if ok then MFinish else MFail)
    case MFinish => p.(numPending := p.numPending - 1, done := p.done + {0}, master := MWait)
    case MFail => p.(numPending := p.numPending - 1, done := p.done + {0}, master := MStore)
    case MStore => p.(hasError := true, stored := p.stored + {0}, master := MWait)
    case MWait => if p.numPending != 0 then p else p.(master := MReturn)
    case MReturn => p.(code := if p.hasError then -1 else 0, master := MIdle)
  }

  /** Worker `i` runs the loop of `RunWorker`; its lambda is the one the launcher holds when it is run. */
  function WorkerStep(p: Pool, i: nat, ok: bool): Pool
    requires i < |p.queues|
  {
    match p.work[i]
    case WPop =>
      var q := ConsumerStep(p.queues[i]);
      var p' := SetQueue(p, i, q);
      if q.popped == p.queues[i].popped then p' else SetWorker(p', i, WRun(q.popped[|q.popped| - 1]))
    case WRun(t) =>
      SetWorker(p, i, if ok then WFinish(t) else WFail(t)).(
        ran := p.ran + multiset{t.taskId}, failed := if ok then p.failed else p.failed + {t.taskId})
    case WFinish(t) =>
      SetWorker(p, i, WPop).(numPending := p.numPending - 1, done := p.done + {t.taskId})
    case WFail(t) =>
      SetWorker(p, i, WStore(t)).(numPending := p.numPending - 1, done := p.done + {t.taskId})
    case WStore(t) =>
      SetWorker(p, i, WPop).(hasError := true,
        stored := if t.launcher == p.launch then p.stored + {t.taskId} else p.stored,
        stale := p.stale || t.launcher != p.launch)
  }

  /** Worker 0 has no thread: the master runs its task. */
  function Step(p: Pool, a: Action): Pool
  {
    match a
    case Master(n, ok) => MasterStep(p, n, ok)
    case Worker(i, ok) => if 1 <= i < |p.queues| then WorkerStep(p, i, ok) else p
    case Wake(i) =>
      if 1 <= i < |p.queues| then SetQueue(p, i, SpscTaskQueue.Step(p.queues[i], SpscTaskQueue.SpuriousWake)) else p
  }

  // ----- The invariant: one worker at a time -----

  /** How far the master is with worker `i` in the current launch. */
  datatype Stage = Absent | Waiting | Pushing | Sent

  function StageOf(p: Pool, i: nat): Stage {
    if i >= p.numTask then Absent
    else if !p.master.MPush? || i < p.master.k then Sent
    else if i == p.master.k then Pushing
    else Waiting
  }

  /** The worker has the task and has not signalled it. */
  predicate Held(w: WorkerPc) {
    w.WRun? || w.WFinish? || w.WFail?
  }

  function Bit(b: bool): nat {
    if b then 1 else 0
  }

  predicate Published(q: Queue) {
    q.prod.PAdd? || q.prod.PLock? || q.prod.PNotify? || q.prod.PUnlock?
  }

  predicate Expected(q: Queue, s: Stage) {
    s.Sent? || (s.Pushing? && Published(q))
  }

  /** The task of worker `i` is in exactly one place: still to be published, in its queue, with the worker, or
      signalled. */
  ghost predicate Local(q: Queue, w: WorkerPc, signalled: bool, s: Stage, launch: nat, i: nat) {
    var task := Task(launch, i);
    && q.kill.KOut? && |q.popped| <= |q.pushed|
    && (!s.Pushing? ==> q.prod.POut?)
    && (q.prod.PCheckExit? || q.prod.PRoom? || q.prod.PWrite? || q.prod.PTail? ==> q.prod.task == task)
    && Unread(q) + Bit(Held(w)) + Bit(signalled) == Bit(Expected(q, s))
    && (Unread(q) == 1 ==> q.pushed[|q.pushed| - 1] == task)
    && (Held(w) ==> w.task == task)
    && (w.WStore? ==> w.task.taskId == i && w.task.launcher <= launch && (w.task.launcher == launch ==> signalled))
    && (!w.WPop? ==> q.cons.COut?)
  }

  ghost predicate LocalAt(p: Pool, i: nat)
    requires 1 <= i < |p.queues|
  {
    Local(p.queues[i], p.work[i], i in p.done, StageOf(p, i), p.launch, i)
  }

  predicate HasRun(w: WorkerPc, signalled: bool) {
    signalled || w.WFinish? || w.WFail?
  }

  predicate MasterSignalled(m: MasterPc) {
    m.MStore? || m.MWait? || m.MReturn? || m.MIdle?
  }

  ghost predicate RanAt(p: Pool, i: nat)
    requires 1 <= i < |p.work|
  {
    && p.ran[i] == Bit(HasRun(p.work[i], i in p.done))
    && (p.work[i].WRun? || p.work[i].WFinish? ==> i !in p.failed)
    && (p.work[i].WFail? ==> i in p.failed && i !in p.stored)
    && (i in p.failed ==> HasRun(p.work[i], i in p.done))
    && (i in p.failed && i !in p.stored ==>
          p.work[i].WFail? || (p.work[i].WStore? && p.work[i].task.launcher == p.launch))
    && (p.work[i].WStore? && p.work[i].task.launcher == p.launch ==> i in p.failed && i !in p.stored)
    && (i in p.stored ==> i in p.failed)
  }

  ghost predicate Ids(p: Pool) {
    && 1 <= p.used <= |p.queues| == |p.work|
    && p.numTask <= p.used
    && (p.master.MPush? ==> 1 <= p.master.k < p.numTask)
    && (!p.master.MIdle? ==> p.numTask >= 1)
    && (forall id :: id in p.done || id in p.failed || id in p.ran || id in p.stored ==> id < p.numTask)
    && p.numPending == p.numTask - |p.done|
    && (p.master.MReturn? || p.master.MIdle? ==> p.numPending == 0)
  }

  ghost predicate Zero(p: Pool) {
    && (p.numTask >= 1 ==> (0 in p.done <==> MasterSignalled(p.master)))
    && (p.numTask >= 1 ==> p.ran[0] == Bit(MasterSignalled(p.master) || p.master.MFinish? || p.master.MFail?))
    && (p.master.MPush? || p.master.MRun? || p.master.MFinish? ==> 0 !in p.failed)
    && (p.master.MFail? || p.master.MStore? ==> 0 in p.failed)
    && (0 in p.failed && 0 !in p.stored ==> p.master.MFail? || p.master.MStore?)
    && (0 in p.stored ==> 0 in p.failed)
    && (p.hasError <==> p.stored != {} || p.stale)
  }

  ghost predicate Inv(p: Pool) {
    Ids(p) && Zero(p) && AllLocal(p) && AllRan(p) && QueuesOk(p.queues)
  }

  ghost predicate AllLocal(p: Pool)
  {
    forall i :: 1 <= i < |p.queues| ==> LocalAt(p, i)
  }

  ghost predicate AllRan(p: Pool)
  {
    forall i :: 1 <= i < |p.queues| ==> RanAt(p, i)
  }

  ghost predicate QueuesOk(queues: seq<Queue>) {
    forall i :: 0 <= i < |queues| ==> SpscTaskQueue.Inv(queues[i])
  }

  // ----- Sets of task ids -----

  function Below(n: nat): (s: set<nat>)
    ensures forall i: nat :: i in s <==> i < n
    ensures |s| == n
  {
    if n == 0 then {} else Below(n - 1) + {n - 1}
  }

  lemma {:induction false} SubsetOfFullSize(a: set<nat>, b: set<nat>)
    requires a <= b && |a| == |b|
    ensures a == b
  {
    if x :| x in b && x !in a {
      assert a <= b - {x};
      SizeOfSubset(a, b - {x});
    }
  }

  lemma {:induction false} SizeOfSubset(a: set<nat>, b: set<nat>)
    requires a <= b
    ensures |a| <= |b|
  {
    if a != {} {
      var x :| x in a;
      SizeOfSubset(a - {x}, b - {x});
    }
  }

  /** When nothing is pending every task has signalled. */
  lemma NothingPending(p: Pool)
    requires Ids(p) && p.numPending == 0
    ensures p.done == Below(p.numTask)
  {
    SubsetOfFullSize(p.done, Below(p.numTask));
  }

  // ----- Preservation -----

  lemma StartKeepsInv(p: Pool, n: nat)
    requires Inv(p) && p.master.MIdle?
    ensures Inv(Start(p, n))
  {
    hide Local, LocalAt, RanAt;
    if Requested(p, n) <= p.used {
      NothingPending(p);
      forall i | 1 <= i < |p.queues|
        ensures LocalAt(Start(p, n), i) && RanAt(Start(p, n), i)
      {
        StartAt(p, n, i);
      }
    }
  }

  lemma StartAt(p: Pool, n: nat, i: nat)
    requires 1 <= i < |p.queues| && LocalAt(p, i) && RanAt(p, i)
    requires p.master.MIdle? && p.done == Below(p.numTask) && Requested(p, n) <= p.used
    ensures LocalAt(Start(p, n), i) && RanAt(Start(p, n), i)
  {
  }

  lemma PushLocal(q: Queue, w: WorkerPc, signalled: bool, launch: nat, k: nat)
    requires Local(q, w, signalled, Pushing, launch, k)
    ensures var q' := ProducerStep(q, Task(launch, k));
            Local(q', w, signalled, if q'.prod.POut? then Sent else Pushing, launch, k)
  {
  }

  lemma PushKeepsLocal(p: Pool)
    requires Ids(p) && AllLocal(p) && p.master.MPush?
    ensures AllLocal(PushStep(p, p.master.k))
  {
    var k := p.master.k;
    var p' := PushStep(p, k);
    forall i | 1 <= i < |p.queues|
      ensures LocalAt(p', i)
    {
      assert LocalAt(p, i);
      if i == k {
        PushLocal(p.queues[k], p.work[k], k in p.done, p.launch, k);
      }
    }
  }

  lemma PushKeepsInv(p: Pool)
    requires Inv(p) && p.master.MPush?
    ensures Inv(PushStep(p, p.master.k))
  {
    var k := p.master.k;
    var p' := PushStep(p, k);
    SpscTaskQueue.StepKeepsInv(p.queues[k], Produce(Task(p.launch, k)));
    PushKeepsLocal(p);
    assert Zero(p') && Ids(p');
    RanUnchanged(p, p');
  }

  /** What was run and how it went depends on the workers and on the history only. */
  lemma RanUnchanged(p: Pool, p': Pool)
    requires |p'.queues| == |p.queues| && AllRan(p)
    requires p'.work == p.work && p'.launch == p.launch
    requires p'.done - {0} == p.done - {0} && p'.failed - {0} == p.failed - {0} && p'.stored - {0} == p.stored - {0}
    requires forall i :: i != 0 ==> p'.ran[i] == p.ran[i]
    ensures AllRan(p')
  {
    forall i | 1 <= i < |p'.queues|
      ensures RanAt(p', i)
    {
      assert RanAt(p, i);
      assert i in p.done <==> i in p.done - {0};
      assert i in p'.done <==> i in p'.done - {0};
      assert i in p.failed <==> i in p.failed - {0};
      assert i in p'.failed <==> i in p'.failed - {0};
      assert i in p.stored <==> i in p.stored - {0};
      assert i in p'.stored <==> i in p'.stored - {0};
    }
  }

  lemma LocalUnchanged(p: Pool, p': Pool)
    requires AllLocal(p)
    requires p'.queues == p.queues && p'.work == p.work && p'.launch == p.launch && p'.numTask == p.numTask
    requires p'.done - {0} == p.done - {0} && !p.master.MPush? && !p'.master.MPush?
    ensures AllLocal(p')
  {
    forall i | 1 <= i < |p'.queues|
      ensures LocalAt(p', i)
    {
      assert LocalAt(p, i);
      assert i in p.done <==> i in p.done - {0};
      assert i in p'.done <==> i in p'.done - {0};
    }
  }

  lemma MasterKeepsInv(p: Pool, n: nat, ok: bool)
    requires Inv(p)
    ensures Inv(MasterStep(p, n, ok))
  {
    if p.master.MIdle? {
      StartKeepsInv(p, n);
    } else if p.master.MPush? {
      PushKeepsInv(p);
    } else {
      MasterKeepsIds(p, n, ok);
      MasterKeepsAll(p, n, ok);
    }
  }

  lemma MasterKeepsAll(p: Pool, n: nat, ok: bool)
    requires AllLocal(p) && AllRan(p) && !p.master.MIdle? && !p.master.MPush?
    ensures var p' := MasterStep(p, n, ok);
            AllLocal(p') && AllRan(p') && p'.queues == p.queues
  {
    hide AllLocal, AllRan, MasterStep;
    var p' := MasterStep(p, n, ok);
    MasterLeaves(p, n, ok);
    RanUnchanged(p, p');
    LocalUnchanged(p, p');
  }

  /** Apart from `Launch` and `Push` the master changes only what concerns task 0. */
  lemma MasterLeaves(p: Pool, n: nat, ok: bool)
    requires !p.master.MIdle? && !p.master.MPush?
    ensures var p' := MasterStep(p, n, ok);
            && p'.queues == p.queues && p'.work == p.work && p'.launch == p.launch && p'.numTask == p.numTask
            && p'.done - {0} == p.done - {0} && p'.failed - {0} == p.failed - {0}
            && p'.stored - {0} == p.stored - {0} && (forall i :: i != 0 ==> p'.ran[i] == p.ran[i])
            && !p'.master.MPush?
  {
  }

  lemma MasterKeepsIds(p: Pool, n: nat, ok: bool)
    requires Ids(p) && Zero(p) && !p.master.MIdle? && !p.master.MPush?
    ensures var p' := MasterStep(p, n, ok); Ids(p') && Zero(p')
  {
  }

  /** A worker inside `Pop` takes the task the master has put into its queue. */
  lemma PopLocal(q: Queue, signalled: bool, s: Stage, launch: nat, i: nat)
    requires Local(q, WPop, signalled, s, launch, i)
    requires q.cons.CHead? ==> |q.popped| < |q.pushed| && q.cons.output == q.pushed[|q.popped|]
    ensures var q' := ConsumerStep(q);
            Local(q', if q'.popped == q.popped then WPop else WRun(q'.popped[|q'.popped| - 1]), signalled, s, launch, i)
  {
    if q.cons.CHead? {
      assert Unread(q) == 1;
    }
  }

  lemma PopOwn(p: Pool, i: nat, ok: bool)
    requires 1 <= i < |p.queues| && p.work[i].WPop? && LocalAt(p, i) && SpscTaskQueue.Inv(p.queues[i])
    ensures LocalAt(WorkerStep(p, i, ok), i)
  {
    PopLocal(p.queues[i], i in p.done, StageOf(p, i), p.launch, i);
  }

  lemma PopKeepsLocal(p: Pool, i: nat, ok: bool)
    requires AllLocal(p) && QueuesOk(p.queues) && 1 <= i < |p.queues| && p.work[i].WPop?
    ensures AllLocal(WorkerStep(p, i, ok))
  {
    var p' := WorkerStep(p, i, ok);
    forall j | 1 <= j < |p.queues|
      ensures LocalAt(p', j)
    {
      assert LocalAt(p, j);
      if j == i {
        PopOwn(p, i, ok);
      } else {
        assert StageOf(p', j) == StageOf(p, j);
      }
    }
  }

  lemma PopKeepsRan(p: Pool, i: nat, ok: bool)
    requires AllLocal(p) && AllRan(p) && QueuesOk(p.queues) && 1 <= i < |p.queues| && p.work[i].WPop?
    ensures AllRan(WorkerStep(p, i, ok))
  {
    var p' := WorkerStep(p, i, ok);
    assert SpscTaskQueue.Inv(p.queues[i]);
    assert LocalAt(p, i);
    PopLocal(p.queues[i], i in p.done, StageOf(p, i), p.launch, i);
    forall j | 1 <= j < |p.queues|
      ensures RanAt(p', j)
    {
      assert RanAt(p, j);
    }
  }

  lemma PopKeepsInv(p: Pool, i: nat, ok: bool)
    requires Inv(p) && 1 <= i < |p.queues| && p.work[i].WPop?
    ensures Inv(WorkerStep(p, i, ok))
  {
    var p' := WorkerStep(p, i, ok);
    SpscTaskQueue.StepKeepsInv(p.queues[i], Consume);
    PopKeepsLocal(p, i, ok);
    assert Ids(p') && Zero(p');
    PopKeepsRan(p, i, ok);
  }

  /** The task a worker holds, or is still reporting, is its own. */
  lemma OwnTask(p: Pool, i: nat)
    requires 1 <= i < |p.queues| && LocalAt(p, i) && !p.work[i].WPop?
    ensures p.work[i].task.taskId == i
    ensures Held(p.work[i]) ==> p.work[i].task.launcher == p.launch && i !in p.done && i < p.numTask
  {
  }

  lemma SignalKeepsLocal(p: Pool, i: nat, ok: bool)
    requires AllLocal(p) && 1 <= i < |p.queues| && !p.work[i].WPop?
    ensures AllLocal(WorkerStep(p, i, ok))
  {
    hide LocalAt, WorkerStep;
    SameQueues(p, i, ok);
    forall j | 1 <= j < |p.queues|
      ensures LocalAt(WorkerStep(p, i, ok), j)
    {
      if j != i {
        SignalLeaves(p, i, j, ok);
      } else {
        SignalLocal(p, i, ok);
      }
    }
  }

  lemma SameQueues(p: Pool, i: nat, ok: bool)
    requires i < |p.queues| && !p.work[i].WPop?
    ensures WorkerStep(p, i, ok).queues == p.queues
  {
  }

  lemma SignalLeaves(p: Pool, i: nat, j: nat, ok: bool)
    requires 1 <= i < |p.queues| && 1 <= j < |p.queues| && j != i
    requires !p.work[i].WPop? && LocalAt(p, i) && LocalAt(p, j)
    ensures LocalAt(WorkerStep(p, i, ok), j)
  {
    OwnTask(p, i);
    hide Local;
    var p' := WorkerStep(p, i, ok);
    assert j in p'.done <==> j in p.done;
    assert StageOf(p', j) == StageOf(p, j);
  }

  lemma SignalLocal(p: Pool, i: nat, ok: bool)
    requires 1 <= i < |p.queues| && !p.work[i].WPop? && LocalAt(p, i)
    ensures LocalAt(WorkerStep(p, i, ok), i)
  {
    OwnTask(p, i);
  }

  lemma SignalRan(p: Pool, i: nat, ok: bool)
    requires 1 <= i < |p.queues| && !p.work[i].WPop? && LocalAt(p, i) && RanAt(p, i)
    ensures RanAt(WorkerStep(p, i, ok), i)
  {
    OwnTask(p, i);
  }

  lemma SignalKeepsRan(p: Pool, i: nat, ok: bool)
    requires 1 <= i < |p.queues| && !p.work[i].WPop? && LocalAt(p, i) && AllRan(p)
    ensures AllRan(WorkerStep(p, i, ok))
  {
    var p' := WorkerStep(p, i, ok);
    assert RanAt(p, i);
    OwnTask(p, i);
    SignalRan(p, i, ok);
    forall j | 1 <= j < |p.queues| && j != i
      ensures RanAt(p', j)
    {
      assert RanAt(p, j);
      assert p'.ran[j] == p.ran[j];
    }
  }

  lemma SignalKeepsIds(p: Pool, i: nat, ok: bool)
    requires 1 <= i < |p.queues| && !p.work[i].WPop? && Ids(p) && LocalAt(p, i) && RanAt(p, i)
    ensures Ids(WorkerStep(p, i, ok))
  {
    OwnTask(p, i);
    if p.numPending == 0 {
      NothingPending(p);
    }
    hide LocalAt;
  }

  lemma SignalKeepsZero(p: Pool, i: nat, ok: bool)
    requires 1 <= i < |p.queues| && !p.work[i].WPop? && Zero(p) && LocalAt(p, i)
    ensures Zero(WorkerStep(p, i, ok))
  {
    OwnTask(p, i);
  }

  lemma WorkerKeepsInv(p: Pool, i: nat, ok: bool)
    requires Inv(p) && 1 <= i < |p.queues|
    ensures Inv(WorkerStep(p, i, ok))
  {
    if p.work[i].WPop? {
      PopKeepsInv(p, i, ok);
    } else {
      assert LocalAt(p, i) && RanAt(p, i);
      SignalKeepsIds(p, i, ok);
      SignalKeepsZero(p, i, ok);
      SignalKeepsRan(p, i, ok);
      SignalKeepsLocal(p, i, ok);
    }
  }

  lemma WakeKeepsInv(p: Pool, i: nat)
    requires Inv(p) && 1 <= i < |p.queues|
    ensures Inv(Step(p, Wake(i)))
  {
    var p' := Step(p, Wake(i));
    SpscTaskQueue.StepKeepsInv(p.queues[i], SpuriousWake);
    WakeKeepsLocal(p, i);
    RanUnchanged(p, p');
    hide SpscTaskQueue.Inv, Local, RanAt;
  }

  lemma WakeKeepsLocal(p: Pool, i: nat)
    requires AllLocal(p) && 1 <= i < |p.queues|
    ensures AllLocal(Step(p, Wake(i)))
  {
    var p' := Step(p, Wake(i));
    forall j | 1 <= j < |p.queues|
      ensures LocalAt(p', j)
    {
      assert LocalAt(p, j);
    }
  }

  lemma StepKeepsInv(p: Pool, a: Action)
    requires Inv(p)
    ensures Inv(Step(p, a))
  {
    match a
    case Master(n, ok) => MasterKeepsInv(p, n, ok);
    case Worker(i, ok) => if 1 <= i < |p.queues| { WorkerKeepsInv(p, i, ok); }
    case Wake(i) => if 1 <= i < |p.queues| { WakeKeepsInv(p, i); }
  }

  // ----- Runs -----

  function Run(p: Pool, schedule: seq<Action>): Pool
    decreases |schedule|
  {
    if schedule == [] then p else Run(Step(p, schedule[0]), schedule[1..])
  }

  lemma {:induction false} RunKeepsInv(p: Pool, schedule: seq<Action>)
    requires Inv(p)
    ensures Inv(Run(p, schedule))
    decreases |schedule|
  {
    if schedule != [] {
      StepKeepsInv(p, schedule[0]);
      RunKeepsInv(Step(p, schedule[0]), schedule[1..]);
    }
  }

  lemma InitInv(p: Pool)
    requires Init(p)
    ensures Inv(p)
  {
    forall i | 1 <= i < |p.queues|
      ensures LocalAt(p, i) && RanAt(p, i)
    {
      assert SpscTaskQueue.Init(p.queues[i]);
    }
  }

  /** Over any sequence of launches and any interleaving: no task id of a launch is run twice, a worker runs a task
      under the launch that sent it, and `num_pending_` counts the tasks that have not signalled. */
  lemma TasksOfALaunch(p0: Pool, schedule: seq<Action>)
    requires Init(p0)
    ensures var p := Run(p0, schedule);
            && (forall id :: p.ran[id] <= if id < p.numTask then 1 else 0)
            && (forall i :: 1 <= i < |p.work| && p.work[i].WRun? ==>
                  p.work[i].task == Task(p.launch, i) && p.ran[i] == 0)
            && p.numPending == |Below(p.numTask) - p.done|
  {
    InitInv(p0);
    RunKeepsInv(p0, schedule);
    var p := Run(p0, schedule);
    forall id
      ensures p.ran[id] <= if id < p.numTask then 1 else 0
    {
      if id in p.ran && id > 0 {
        assert RanAt(p, id);
      }
    }
    forall i | 1 <= i < |p.work| && p.work[i].WRun?
      ensures p.work[i].task == Task(p.launch, i) && p.ran[i] == 0
    {
      assert LocalAt(p, i) && RanAt(p, i);
    }
    assert p.done <= Below(p.numTask);
    assert |Below(p.numTask) - p.done| == |Below(p.numTask)| - |p.done|;
  }

  /** When `Launch` returns, each of its tasks has been run exactly once and has signalled, and every queue is
      empty with no push under way. */
  lemma LaunchReturnsAfterAll(p0: Pool, schedule: seq<Action>)
    requires Init(p0)
    ensures var p := Run(p0, schedule);
            p.master.MReturn? || p.master.MIdle? ==>
              && p.done == Below(p.numTask)
              && (forall id :: p.ran[id] == if 0 <= id < p.numTask then 1 else 0)
              && (forall i :: 1 <= i < |p.queues| ==> Unread(p.queues[i]) == 0 && p.queues[i].prod.POut?)
  {
    InitInv(p0);
    RunKeepsInv(p0, schedule);
    var p := Run(p0, schedule);
    if p.master.MReturn? || p.master.MIdle? {
      NothingPending(p);
      AllRanOnce(p);
      QueuesDrained(p);
    }
  }

  lemma AllRanOnce(p: Pool)
    requires Ids(p) && Zero(p) && AllRan(p) && p.done == Below(p.numTask)
    ensures forall id :: p.ran[id] == if 0 <= id < p.numTask then 1 else 0
  {
    forall id: nat
      ensures p.ran[id] == if id < p.numTask then 1 else 0
    {
      if 1 <= id < p.numTask {
        assert RanAt(p, id);
      }
    }
  }

  lemma QueuesDrained(p: Pool)
    requires Ids(p) && AllLocal(p) && p.done == Below(p.numTask) && !p.master.MPush?
    ensures forall i :: 1 <= i < |p.queues| ==> Unread(p.queues[i]) == 0 && p.queues[i].prod.POut?
  {
    forall i | 1 <= i < |p.queues|
      ensures Unread(p.queues[i]) == 0 && p.queues[i].prod.POut?
    {
      assert LocalAt(p, i);
    }
  }

  /** No push of a launch ever finds its queue full, so `Push` does not spin. */
  lemma PushFindsRoom(p0: Pool, schedule: seq<Action>)
    requires Init(p0)
    ensures var p := Run(p0, schedule);
            p.master.MPush? && p.queues[p.master.k].prod.PRoom? ==>
              ProducerStep(p.queues[p.master.k], Task(p.launch, p.master.k)).prod.PWrite?
  {
    InitInv(p0);
    RunKeepsInv(p0, schedule);
    hide Inv;
    var p := Run(p0, schedule);
    if p.master.MPush? && p.queues[p.master.k].prod.PRoom? {
      RoomForTask(p);
    }
  }

  lemma RoomForTask(p: Pool)
    requires Inv(p) && p.master.MPush? && p.queues[p.master.k].prod.PRoom?
    ensures ProducerStep(p.queues[p.master.k], Task(p.launch, p.master.k)).prod.PWrite?
  {
    var k := p.master.k;
    assert LocalAt(p, k) && SpscTaskQueue.Inv(p.queues[k]);
    assert Unread(p.queues[k]) == 0;
  }

  // ----- What was asked for -----

  /** An idle master begins a launch of as many tasks as it was asked for, of as many as there are workers in use when
      it was asked for none, and refuses to launch more than that. */
  lemma LaunchBegins(p: Pool, n: nat, ok: bool)
    requires p.master.MIdle?
    ensures var p' := Step(p, Master(n, ok));
            if n > p.used then p' == p
            else p'.launch == p.launch + 1 && p'.numTask == (if n == 0 then p.used else n) && p'.used == p.used
    ensures n <= p.used && p.used >= 1 ==> !Step(p, Master(n, ok)).master.MIdle?
  {
  }

  lemma StepKeepsLaunch(p: Pool, a: Action)
    ensures var p' := Step(p, a);
            && p'.used == p.used && p'.launch >= p.launch && (p'.launch == p.launch ==> p'.numTask == p.numTask)
  {
    hide PushStep;
    match a
    case Master(n, ok) => MasterKeepsLaunch(p, n, ok);
    case Worker(_, _) =>
    case Wake(_) =>
  }

  lemma MasterKeepsLaunch(p: Pool, n: nat, ok: bool)
    ensures var p' := MasterStep(p, n, ok);
            && p'.used == p.used && p'.launch >= p.launch && (p'.launch == p.launch ==> p'.numTask == p.numTask)
  {
    match p.master
    case MIdle =>
    case MPush(_) =>
    case MRun =>
    case MFinish =>
    case MFail =>
    case MStore =>
    case MWait =>
    case MReturn =>
  }

  lemma {:induction false} RunKeepsLaunch(p: Pool, schedule: seq<Action>)
    ensures var r := Run(p, schedule);
            && r.used == p.used && r.launch >= p.launch && (r.launch == p.launch ==> r.numTask == p.numTask)
    decreases |schedule|
  {
    hide Step;
    if schedule != [] {
      StepKeepsLaunch(p, schedule[0]);
      RunKeepsLaunch(Step(p, schedule[0]), schedule[1..]);
    }
  }

  /** Over any sequence of launches and any interleaving: when the launch that was asked for `n` tasks returns, each of
      the tasks 0 to n - 1, or of as many as there are workers when `n` is 0, has run exactly once. */
  lemma RequestIsServed(p0: Pool, before: seq<Action>, n: nat, ok: bool, after: seq<Action>)
    requires Init(p0) && Run(p0, before).master.MIdle? && n <= Run(p0, before).used
    ensures var p := Run(p0, before);
            var r := Run(Step(p, Master(n, ok)), after);
            r.launch == p.launch + 1 && (r.master.MReturn? || r.master.MIdle?) ==>
              forall id :: r.ran[id] == if 0 <= id < (if n == 0 then p0.used else n) then 1 else 0
  {
    hide Step, Init;
    var p, a := Run(p0, before), Master(n, ok);
    LaunchBegins(p, n, ok);
    RunKeepsLaunch(p0, before);
    RunKeepsLaunch(Step(p, a), after);
    RunConcat(p0, before, [a] + after);
    assert ([a] + after)[1..] == after;
    LaunchReturnsAfterAll(p0, before + ([a] + after));
  }

  // ----- The return code -----

  /** Every failed task is between its two accesses: it has signalled and has not set the flag yet. */
  predicate ErrorsLate(p: Pool)
  {
    forall id :: id in p.failed ==>
      1 <= id < |p.work| && p.work[id].WStore? && p.work[id].task.launcher == p.launch
  }

  /** What `Launch` is about to return says whether a task failed, except in two cases: every task that failed is
      still about to set the flag, or no task failed but one of an earlier launch has set the flag late. */
  lemma ReturnCodeExact(p0: Pool, schedule: seq<Action>)
    requires Init(p0)
    ensures var p := Run(p0, schedule);
            p.master.MReturn? ==>
              ((Step(p, Master(0, true)).code == -1 <==> p.failed != {}) <==>
                (if p.failed == {} then !p.stale else p.stale || !ErrorsLate(p)))
  {
    InitInv(p0);
    RunKeepsInv(p0, schedule);
    var p := Run(p0, schedule);
    if p.master.MReturn? {
      ErrorsReported(p);
    }
  }

  lemma ErrorsReported(p: Pool)
    requires Ids(p) && Zero(p) && AllRan(p) && AllLocal(p) && p.master.MReturn?
    ensures p.stored <= p.failed
    ensures p.failed != {} ==> (p.stored == {} <==> ErrorsLate(p))
  {
    NothingPending(p);
    forall id | id in p.failed
      ensures id !in p.stored <==>
              1 <= id < |p.work| && p.work[id].WStore? && p.work[id].task.launcher == p.launch
    {
      if id != 0 {
        assert RanAt(p, id) && LocalAt(p, id);
      }
    }
    assert p.stored <= p.failed by {
      forall id | id in p.stored
        ensures id in p.failed
      {
        if 1 <= id < |p.work| {
          assert RanAt(p, id);
        }
      }
    }
  }

  lemma {:induction false} RunConcat(p: Pool, a: seq<Action>, b: seq<Action>)
    ensures Run(p, a + b) == Run(Run(p, a), b)
    decreases |a|
  {
    if a == [] {
      assert a + b == b;
    } else {
      assert (a + b)[1..] == a[1..] + b;
      RunConcat(Step(p, a[0]), a[1..], b);
    }
  }

  lemma RunThree(p: Pool, a: Action, b: Action, c: Action)
    ensures Run(p, [a, b, c]) == Step(Step(Step(p, a), b), c)
  {
    assert [a, b, c][1..] == [b, c] && [b, c][1..] == [c] && [c][1..] == [];
    assert Run(Step(Step(p, a), b), [c]) == Step(Step(Step(p, a), b), c);
  }

  /** A pool of two queues, just made. */
  const FRESH: Pool :=
    var slot := Task(0, 0);
    var q := Queue([slot, slot], 0, 0, 0, false, Free, POut, COut, KOut, [], []);
    Pool([q, q], [WPop, WPop], 2, MIdle, 0, 0, 0, false, 0, multiset{}, {}, {}, {}, false)

  /** The first launch, of two tasks, with the queue of worker 1 as given. */
  function Launching(q: Queue, master: MasterPc): Pool
    requires master.MPush? ==> master.k < 2
  {
    FRESH.(queues := [FRESH.queues[0], q], master := master, numTask := 2, launch := 1, numPending := 2)
  }

  /** The master launches two tasks and starts pushing task 1. */
  lemma SendFirst()
    ensures var m, t, slot := Master(2, true), Task(1, 1), Task(0, 0);
            Run(FRESH, [m, m, m]) ==
            Launching(Queue([slot, slot], 0, 0, 0, false, Free, PRoom(t), COut, KOut, [], []), MPush(1))
  {
    var m, q := Master(2, true), FRESH.queues[1];
    RunThree(FRESH, m, m, m);
    assert Step(FRESH, m) == Launching(q, MPush(1));
    assert Step(Launching(q, MPush(1)), m) == Launching(q.(prod := PCheckExit(Task(1, 1))), MPush(1));
  }

  lemma SendNext()
    ensures var m, t, slot := Master(2, true), Task(1, 1), Task(0, 0);
            Run(Launching(Queue([slot, slot], 0, 0, 0, false, Free, PRoom(t), COut, KOut, [], []), MPush(1)), [m, m, m])
            == Launching(Queue([t, slot], 0, 1, 0, false, Free, PAdd, COut, KOut, [t], []), MPush(1))
  {
    var m, t, slot := Master(2, true), Task(1, 1), Task(0, 0);
    var q := Queue([slot, slot], 0, 0, 0, false, Free, PRoom(t), COut, KOut, [], []);
    RunThree(Launching(q, MPush(1)), m, m, m);
    var q1 := q.(prod := PWrite(t));
    var q2 := q.(ring := [t, slot], prod := PTail(t));
    assert Step(Launching(q, MPush(1)), m) == Launching(q1, MPush(1));
    assert [slot, slot][0 := t] == [t, slot];
    assert Step(Launching(q1, MPush(1)), m) == Launching(q2, MPush(1));
    var q3 := Queue([t, slot], 0, 1, 0, false, Free, PAdd, COut, KOut, [t], []);
    assert q2.pushed + [t] == q3.pushed;
    assert Step(Launching(q2, MPush(1)), m) == Launching(q3, MPush(1));
  }

  lemma SendLast()
    ensures var m, t, slot := Master(2, true), Task(1, 1), Task(0, 0);
            Run(Launching(Queue([t, slot], 0, 1, 0, false, Free, PAdd, COut, KOut, [t], []), MPush(1)), [m])
            == Launching(Queue([t, slot], 0, 1, 1, false, Free, POut, COut, KOut, [t], []), MRun)
  {
    var m, t, slot := Master(2, true), Task(1, 1), Task(0, 0);
    var p := Launching(Queue([t, slot], 0, 1, 0, false, Free, PAdd, COut, KOut, [t], []), MPush(1));
    assert Run(p, [m]) == Step(p, m);
  }

  /** The master launches two tasks and pushes task 1. */
  lemma Send() returns (s: seq<Action>)
    ensures var t := Task(1, 1);
            Run(FRESH, s) ==
            Launching(Queue([t, Task(0, 0)], 0, 1, 1, false, Free, POut, COut, KOut, [t], []), MRun)
  {
    hide Run, Launching;
    var m := Master(2, true);
    SendFirst();
    SendNext();
    SendLast();
    RunConcat(FRESH, [m, m, m], [m, m, m]);
    RunConcat(FRESH, [m, m, m] + [m, m, m], [m]);
    s := [m, m, m] + [m, m, m] + [m];
  }

  /** Worker 1 takes the task from its queue. */
  lemma Take(p: Pool) returns (s: seq<Action>)
    requires |p.queues| == 2 && p.work[1] == WPop
    requires var t := Task(1, 1);
             p.queues[1] == Queue([t, Task(0, 0)], 0, 1, 1, false, Free, POut, COut, KOut, [t], [])
    ensures var r := Run(p, s);
            && |r.queues| == 2 && r.work == p.work[1 := WRun(Task(1, 1))]
            && r.(queues := p.queues, work := p.work) == p
  {
    var w := Worker(1, false);
    TakeFirst(p);
    var p3 := Run(p, [w, w, w]);
    TakeRest(p3);
    RunConcat(p, [w, w, w], [w, w, w]);
    s := [w, w, w] + [w, w, w];
  }

  lemma TakeFirst(p: Pool)
    requires |p.queues| == 2 && p.work[1] == WPop
    requires var t := Task(1, 1);
             p.queues[1] == Queue([t, Task(0, 0)], 0, 1, 1, false, Free, POut, COut, KOut, [t], [])
    ensures var w, t := Worker(1, false), Task(1, 1);
            Run(p, [w, w, w]) ==
            p.(queues := p.queues[1 := Queue([t, Task(0, 0)], 0, 1, 0, false, Free, POut, CCheck, KOut, [t], [])])
  {
    var w := Worker(1, false);
    RunThree(p, w, w, w);
    var q := p.queues[1];
    var p1 := p.(queues := p.queues[1 := q.(cons := CSub)]);
    var p2 := p.(queues := p.queues[1 := q.(cons := CExit, pending := 0)]);
    assert Step(p, w) == p1 && Step(p1, w) == p2;
  }

  lemma TakeRest(p: Pool)
    requires |p.queues| == 2 && p.work[1] == WPop
    requires var t := Task(1, 1);
             p.queues[1] == Queue([t, Task(0, 0)], 0, 1, 0, false, Free, POut, CCheck, KOut, [t], [])
    ensures var w := Worker(1, false);
            var r := Run(p, [w, w, w]);
            && |r.queues| == 2 && r.work == p.work[1 := WRun(Task(1, 1))]
            && r.(queues := p.queues, work := p.work) == p
  {
    var w := Worker(1, false);
    hide ConsumerStep;
    RunThree(p, w, w, w);
    TakenFromQueue(p.queues[1]);
    var t := Task(1, 1);
    var p1 := p.(queues := p.queues[1 := p.queues[1].(cons := CRead)]);
    assert Step(p, w) == p1;
    assert Step(p1, w) == p.(queues := p.queues[1 := p.queues[1].(cons := CHead(t))]);
  }

  lemma TakenFromQueue(q: Queue)
    requires q == Queue([Task(1, 1), Task(0, 0)], 0, 1, 0, false, Free, POut, CCheck, KOut, [Task(1, 1)], [])
    ensures ConsumerStep(q) == q.(cons := CRead) && ConsumerStep(q.(cons := CRead)) == q.(cons := CHead(Task(1, 1)))
    ensures ConsumerStep(q.(cons := CHead(Task(1, 1)))).popped == [Task(1, 1)]
  {
  }

  /** The first launch, with worker 1 holding its task. */
  ghost predicate TaskTaken(p: Pool) {
    && |p.queues| == 2 && p.used == 2 && p.work[1] == WRun(Task(1, 1)) && p.master == MRun
    && p.numTask == 2 && p.launch == 1 && p.numPending == 2 && !p.hasError && !p.stale
    && p.ran == multiset{} && p.done == p.failed == p.stored == {}
  }

  lemma TakeTask() returns (s: seq<Action>)
    ensures TaskTaken(Run(FRESH, s))
  {
    var s1 := Send();
    var s2 := Take(Run(FRESH, s1));
    RunConcat(FRESH, s1, s2);
    s := s1 + s2;
  }

  /** The task fails and is counted as finished; the error flag is not set yet. */
  lemma FailUnnoticed(p: Pool)
    requires TaskTaken(p)
    ensures var w := Worker(1, false);
            Run(p, [w, w, Master(0, true)]) ==
            p.(work := p.work[1 := WStore(Task(1, 1))], numPending := 1, ran := multiset{1, 0}, done := {1},
               failed := {1}, master := MFinish)
  {
    RunThree(p, Worker(1, false), Worker(1, false), Master(0, true));
    var p1 := Step(p, Worker(1, false));
    assert p1 == p.(work := p.work[1 := WFail(Task(1, 1))], ran := multiset{1}, failed := {1});
    var p2 := Step(p1, Worker(1, false));
    assert p2 == p1.(work := p.work[1 := WStore(Task(1, 1))], numPending := 1, done := {1});
  }

  /** The master finishes its own task, finds nothing pending, and returns. */
  lemma ReturnZero(p: Pool)
    requires p.master == MFinish && p.numPending == 1 && !p.hasError
    ensures var m := Master(0, true);
            Run(p, [m, m, m]) == p.(numPending := 0, done := p.done + {0}, code := 0, master := MIdle)
  {
    var m := Master(0, true);
    RunThree(p, m, m, m);
    var p1 := p.(numPending := 0, done := p.done + {0}, master := MWait);
    assert Step(p, m) == p1 && Step(p1, m) == p1.(master := MReturn);
  }

  /** The code of `SignalJobError` counts the task as finished before it sets the flag, so `Launch` can return 0
      although a task has failed: here task 1 of two fails and the master reads the flag between the two accesses. */
  lemma ReturnCodeCanMissAFailure() returns (schedule: seq<Action>)
    ensures Init(FRESH)
    ensures var r := Run(FRESH, schedule);
            r.master.MIdle? && r.launch == 1 && r.code == 0 && r.failed == {1}
    ensures var r := Run(FRESH, schedule);
            |r.queues| == 2 && r.used == 2 && r.work[1] == WStore(Task(1, 1))
  {
    hide Run, Step;
    var s := TakeTask();
    var p := Run(FRESH, s);
    FailUnnoticed(p);
    var w, m := Worker(1, false), Master(0, true);
    RunConcat(FRESH, s, [w, w, m]);
    ReturnZero(Run(p, [w, w, m]));
    RunConcat(FRESH, s + [w, w, m], [m, m, m]);
    schedule := s + [w, w, m] + [m, m, m];
  }

  /** A launch of one task, whose flag another one of an earlier launch sets. */
  lemma SpoiltLaunch(p: Pool)
    requires |p.queues| == 2 && p.used == 2 && p.work[1] == WStore(Task(1, 1)) && p.master == MIdle && p.launch == 1
    ensures var w, m := Worker(1, true), Master(1, true);
            var r := Run(Run(p, [m, m, m]), [w, m, m]);
            r.master.MIdle? && r.launch == 2 && r.code == -1 && r.failed == {}
  {
    var w, m := Worker(1, true), Master(1, true);
    RunThree(p, m, m, m);
    var q := Run(p, [m, m, m]);
    assert q.master == MWait && q.numPending == 0 && q.work == p.work && q.launch == 2 && q.failed == {};
    RunThree(q, w, m, m);
  }

  /** The flag then set comes into the next launch, which returns -1 although its one task has succeeded. */
  lemma LateFlagSpoilsTheNextLaunch() returns (schedule: seq<Action>)
    ensures Init(FRESH)
    ensures var r := Run(FRESH, schedule);
            r.master.MIdle? && r.launch == 2 && r.code == -1 && r.failed == {}
  {
    hide Run, Step;
    var s := ReturnCodeCanMissAFailure();
    SpoiltLaunch(Run(FRESH, s));
    var w, m := Worker(1, true), Master(1, true);
    RunConcat(FRESH, s, [m, m, m]);
    RunConcat(FRESH, s + [m, m, m], [w, m, m]);
    schedule := s + [m, m, m] + [w, m, m];
  }

  // ----- Every launch can finish -----

  /** The least task id not signalled. */
  function FirstPending(p: Pool, from: nat): (i: nat)
    requires from <= p.numTask
    ensures from <= i <= p.numTask
    ensures i < p.numTask ==> i !in p.done
    ensures i == p.numTask ==> forall j :: from <= j < p.numTask ==> j in p.done
    decreases p.numTask - from
  {
    if from == p.numTask || from !in p.done then from else FirstPending(p, from + 1)
  }

  /** A thread whose step brings the end of the launch nearer; `ok` is the outcome if it runs a task. */
  function Helpful(p: Pool, ok: bool): Action
    requires p.master.MPush? ==> p.master.k < |p.queues|
  {
    if p.master.MPush? && p.queues[p.master.k].prod.PLock? && !p.queues[p.master.k].mutex.Free? then
      Worker(p.master.k, ok)
    else if p.master.MWait? && p.numPending != 0 then
      Worker(FirstPending(p, 0), ok)
    else
      Master(0, ok)
  }

  function PushRank(q: ProducerPc): nat {
    match q
    case POut => 9
    case PCheckExit(_) => 8
    case PRoom(_) => 7
    case PWrite(_) => 6
    case PTail(_) => 5
    case PAdd => 4
    case PLock => 3
    case PNotify => 2
    case PUnlock => 1
  }

  function WorkerRank(w: WorkerPc, q: Queue): nat {
    match w
    case WStore(_) => 20
    case WPop => 4 + ConsumerRank(q.cons)
    case WRun(_) => 3
    case WFinish(_) => 2
    case WFail(_) => 2
  }

  function MasterRank(p: Pool): nat {
    match p.master
    case MPush(k) => if k < p.numTask then 9 + p.numTask - k else 0
    case MRun => 9
    case MFinish => 8
    case MFail => 8
    case MStore => 7
    case MWait => 6
    case MReturn => 5
    case MIdle => 0
  }

  function TaskRank(p: Pool): int {
    match p.master
    case MPush(k) => if k < |p.queues| then PushRank(p.queues[k].prod) else 0
    case _ => p.numPending
  }

  function ThreadRank(p: Pool): nat
  {
    match p.master
    case MPush(k) => if k < |p.queues| then ConsumerRank(p.queues[k].cons) else 0
    case MWait =>
      var i := FirstPending(p, 0);
      if i < |p.queues| then WorkerRank(p.work[i], p.queues[i]) else 0
    case _ => 0
  }

  ghost predicate Nearer(p': Pool, p: Pool)
  {
    || MasterRank(p') < MasterRank(p)
    || (MasterRank(p') == MasterRank(p) &&
        (0 <= TaskRank(p') < TaskRank(p) || (TaskRank(p') == TaskRank(p) && ThreadRank(p') < ThreadRank(p))))
  }

  lemma PushNearer(p: Pool, ok: bool)
    requires Inv(p) && p.master.MPush?
    ensures Nearer(Step(p, Helpful(p, ok)), p)
  {
    var k := p.master.k;
    assert LocalAt(p, k);
    assert SpscTaskQueue.Inv(p.queues[k]);
    StepKeepsInv(p, Helpful(p, ok));
    if Helpful(p, ok) == Worker(k, ok) {
      ConsumerLetsGo(p.queues[k]);
    } else {
      ProducerMoves(p.queues[k], Task(p.launch, k));
    }
  }

  /** A consumer that holds the mutex gives it up without waiting for anybody. */
  lemma ConsumerLetsGo(q: Queue)
    requires SpscTaskQueue.Inv(q) && q.kill.KOut? && q.prod.PLock? && !q.mutex.Free?
    ensures var q' := ConsumerStep(q);
            ConsumerRank(q'.cons) < ConsumerRank(q.cons) && q'.prod == q.prod && q'.popped == q.popped
  {
  }

  lemma ProducerMoves(q: Queue, task: Task)
    requires SpscTaskQueue.Inv(q) && q.kill.KOut? && (q.prod.PLock? ==> q.mutex.Free?)
    requires q.prod.PRoom? ==> Unread(q) == 0
    ensures var q' := ProducerStep(q, task);
            q'.prod.POut? || PushRank(q'.prod) < PushRank(q.prod)
  {
  }

  lemma PendingNatural(p: Pool)
    requires Ids(p)
    ensures p.numPending >= 0
  {
    SizeOfSubset(p.done, Below(p.numTask));
  }

  /** While tasks are pending the first of them is a worker's, which has it in its queue or holds it. */
  lemma FirstPendingIsOut(p: Pool)
    requires Ids(p) && Zero(p) && AllLocal(p) && p.master.MWait? && p.numPending != 0
    ensures var i := FirstPending(p, 0);
            && 1 <= i < p.numTask && i !in p.done
            && Unread(p.queues[i]) + Bit(Held(p.work[i])) == 1 && p.queues[i].prod.POut? && p.queues[i].kill.KOut?
  {
    var i := FirstPending(p, 0);
    assert i == p.numTask ==> p.done == Below(p.numTask);
    assert LocalAt(p, i);
  }

  lemma WaitNearer(p: Pool, ok: bool)
    requires Inv(p) && p.master.MWait? && p.numPending != 0
    ensures Nearer(Step(p, Helpful(p, ok)), p)
  {
    var i := FirstPending(p, 0);
    FirstPendingIsOut(p);
    if p.work[i].WFinish? || p.work[i].WFail? {
      SignalNearer(p, i, ok);
    } else {
      WorkNearer(p, i, ok);
    }
  }

  /** One task less is pending. */
  lemma SignalNearer(p: Pool, i: nat, ok: bool)
    requires Inv(p) && p.master.MWait? && p.numPending != 0 && 1 <= i < |p.queues|
    requires p.work[i].WFinish? || p.work[i].WFail?
    ensures Nearer(WorkerStep(p, i, ok), p)
  {
    WorkerKeepsInv(p, i, ok);
    PendingNatural(WorkerStep(p, i, ok));
    hide Inv;
  }

  /** The worker comes nearer to signalling. */
  lemma WorkNearer(p: Pool, i: nat, ok: bool)
    requires p.master.MWait? && p.numPending != 0 && i == FirstPending(p, 0) && 1 <= i < |p.queues|
    requires SpscTaskQueue.Inv(p.queues[i])
    requires Unread(p.queues[i]) + Bit(Held(p.work[i])) == 1 && p.queues[i].prod.POut? && p.queues[i].kill.KOut?
    requires !p.work[i].WFinish? && !p.work[i].WFail?
    ensures Nearer(WorkerStep(p, i, ok), p)
  {
    hide SpscTaskQueue.Inv, ConsumerStep, ConsumerRank, FirstPending;
    SamePending(p, WorkerStep(p, i, ok), 0);
    RankBound(p.queues[i].cons);
    if p.work[i].WPop? {
      PopNearer(p.queues[i]);
    }
  }

  lemma RankBound(c: ConsumerPc)
    ensures ConsumerRank(c) <= 12
  {
  }

  lemma PopNearer(q: Queue)
    requires SpscTaskQueue.Inv(q) && Unread(q) > 0 && q.prod.POut? && q.kill.KOut?
    ensures var q' := ConsumerStep(q);
            q'.popped != q.popped || ConsumerRank(q'.cons) < ConsumerRank(q.cons)
  {
    HelpfulStep(q);
  }

  lemma SamePending(p: Pool, p': Pool, from: nat)
    requires from <= p.numTask && p'.numTask == p.numTask && p'.done == p.done
    ensures FirstPending(p', from) == FirstPending(p, from)
    decreases p.numTask - from
  {
    if from < p.numTask && from in p.done {
      SamePending(p, p', from + 1);
    }
  }

  lemma StepNearer(p: Pool, ok: bool)
    requires Inv(p) && !p.master.MIdle?
    ensures Nearer(Step(p, Helpful(p, ok)), p)
  {
    if p.master.MPush? {
      PushNearer(p, ok);
    } else if p.master.MWait? && p.numPending != 0 {
      WaitNearer(p, ok);
    } else {
      MasterNearer(p, ok);
    }
  }

  /** The master's own steps: its task, the wait that is over, and the return. */
  lemma MasterNearer(p: Pool, ok: bool)
    requires !p.master.MIdle? && !p.master.MPush? && (p.master.MWait? ==> p.numPending == 0)
    ensures Nearer(Step(p, Helpful(p, ok)), p)
  {
    match p.master
    case MRun =>
    case MFinish =>
    case MFail =>
    case MStore =>
    case MWait =>
    case MReturn =>
  }

  lemma SameLaunch(p: Pool, ok: bool)
    requires !p.master.MIdle?
    ensures var p' := Step(p, Helpful(p, ok)); p'.launch == p.launch && p'.numTask == p.numTask
  {
    hide PushStep, WorkerStep, FirstPending;
    match Helpful(p, ok)
    case Master(_, _) => MasterStays(p, ok);
    case Worker(i, _) => if 1 <= i < |p.queues| { WorkerStays(p, i, ok); }
    case Wake(_) =>
  }

  lemma MasterStays(p: Pool, ok: bool)
    requires !p.master.MIdle?
    ensures var p' := MasterStep(p, 0, ok); p'.launch == p.launch && p'.numTask == p.numTask
  {
  }

  lemma WorkerStays(p: Pool, i: nat, ok: bool)
    requires i < |p.queues|
    ensures var p' := WorkerStep(p, i, ok); p'.launch == p.launch && p'.numTask == p.numTask
  {
  }

  /** `n` helpful steps; `outcomes` says how the tasks run on the way go. */
  function Help(p: Pool, outcomes: nat -> bool, at: nat, n: nat): Pool
    decreases n
  {
    if n == 0 then p else Help(Step(p, Helpful(p, outcomes(at))), outcomes, at + 1, n - 1)
  }

  lemma RanAfterReturn(p: Pool)
    requires Inv(p) && p.master.MIdle?
    ensures forall id :: p.ran[id] == if 0 <= id < p.numTask then 1 else 0
  {
    NothingPending(p);
    AllRanOnce(p);
  }

  /** No launch can get stuck: from every reachable state in which the master is inside `Launch` the helpful steps
      make that same launch return, whether its tasks succeed or fail, and then each of them has run exactly once. */
  lemma {:induction false} LaunchCanFinish(p: Pool, outcomes: nat -> bool, at: nat) returns (n: nat)
    requires Inv(p) && !p.master.MIdle?
    ensures var r := Help(p, outcomes, at, n);
            && r.master.MIdle? && r.launch == p.launch && r.numTask == p.numTask
            && forall id :: r.ran[id] == if 0 <= id < p.numTask then 1 else 0
    decreases MasterRank(p), TaskRank(p), ThreadRank(p)
  {
    hide Inv, Step, Helpful, MasterRank, TaskRank, ThreadRank;
    var ok := outcomes(at);
    StepNearer(p, ok);
    SameLaunch(p, ok);
    StepKeepsInv(p, Helpful(p, ok));
    var p' := Step(p, Helpful(p, ok));
    if p'.master.MIdle? {
      n := 1;
      assert Help(p', outcomes, at + 1, 0) == p';
      RanAfterReturn(p');
    } else {
      var m := LaunchCanFinish(p', outcomes, at + 1);
      n := m + 1;
    }
  }

  /** So every request can be served: its tasks run, once each, and the master is idle again. */
  lemma RequestCanBeServed(p: Pool, n: nat, ok: bool, outcomes: nat -> bool) returns (k: nat)
    requires Inv(p) && p.master.MIdle? && n <= p.used
    ensures var r := Help(Step(p, Master(n, ok)), outcomes, 0, k);
            && r.master.MIdle? && r.launch == p.launch + 1
            && forall id :: r.ran[id] == if 0 <= id < (if n == 0 then p.used else n) then 1 else 0
  {
    hide Step, Inv, Help;
    LaunchBegins(p, n, ok);
    InUse(p);
    StepKeepsInv(p, Master(n, ok));
    k := LaunchCanFinish(Step(p, Master(n, ok)), outcomes, 0);
  }

  lemma InUse(p: Pool)
    requires Inv(p)
    ensures p.used >= 1
  {
  }
}
