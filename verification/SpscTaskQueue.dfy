/** The single-producer single-consumer task queue of the thread pool, one atomic access per step.

    A step belongs to the thread that takes it: the producer inside `Push`, the consumer inside `Pop`, or the
    owner of the pool inside `SignalForKill`.  `Step` is total: a thread that is blocked (on the mutex, or asleep
    in the condition variable) or that has nothing left to do leaves the state as it is.  So every finite
    interleaving of the three threads, spurious wake-ups included, is a `seq<Action>`, and what holds after `Run`
    for every schedule holds in every reachable state. */
module SpscTaskQueue {

  /** A task entry: which launch it belongs to and its id within that launch. */
  datatype Task = Task(launcher: nat, taskId: nat)

  datatype Owner = Free | ByProducer | ByConsumer | ByKiller

  /** Where the producer is: outside `Push`, in `Enqueue` (exit test, room test, slot write, tail store), at the
      `fetch_add`, or in the notification. */
  datatype ProducerPc =
    | POut
    | PCheckExit(task: Task)
    | PRoom(task: Task)
    | PWrite(task: Task)
    | PTail(task: Task)
    | PAdd
    | PLock
    | PNotify
    | PUnlock

  /** Where the consumer is: outside `Pop`, at the `fetch_sub`, in the condition wait, or taking the entry.
      `CAborted` is the state after a failed emptiness check, `CDone` after `Pop` has returned false. */
  datatype ConsumerPc =
    | COut
    | CSub
    | CLock
    | CPending
    | CWaitExit
    | CSleep
    | CAsleep
    | CUnlock
    | CExit
    | CCheck
    | CRead
    | CHead(output: Task)
    | CDone
    | CAborted

  datatype KillerPc = KOut | KLock | KSet | KNotify | KUnlock | KDone

  /** `pushed` and `popped` are the entries published by the tail store and consumed by the head store so far. */
  datatype QueueState = Queue(
    ring: seq<Task>, head: nat, tail: nat, pending: int, exitNow: bool,
    mutex: Owner, prod: ProducerPc, cons: ConsumerPc, kill: KillerPc,
    pushed: seq<Task>, popped: seq<Task>)

  /** Both indices are slots of the ring. */
  type Queue = q: QueueState | q.head < |q.ring| && q.tail < |q.ring|
    witness Queue([Task(0, 0)], 0, 0, 0, false, Free, POut, COut, KOut, [], [])

  datatype Action = Produce(task: Task) | Consume | SpuriousWake | Kill

  ghost predicate Init(q: Queue) {
    && |q.ring| >= 2
    && q.head == 0 && q.tail == 0 && q.pending == 0 && !q.exitNow
    && q.mutex == Free && q.prod == POut && q.cons == COut && q.kill == KOut
    && q.pushed == [] && q.popped == []
  }

  /** The index after `x` in a ring of R slots. */
  function NextIndex(x: nat, R: nat): (r: nat)
    requires x < R
    ensures r < R
  {
    if x + 1 < R then x + 1 else 0
  }

  /** One access of the producer; outside `Push` the step calls `Push(task)`. */
  function ProducerStep(q: Queue, task: Task): Queue {
    match q.prod
    case POut => q.(prod := PCheckExit(task))
    case PCheckExit(t) => if q.exitNow then q else q.(prod := PRoom(t))
    case PRoom(t) => if NextIndex(q.tail, |q.ring|) != q.head then q.(prod := PWrite(t)) else q.(prod := PCheckExit(t))
    case PWrite(t) => q.(ring := q.ring[q.tail := t], prod := PTail(t))
    case PTail(t) => q.(tail := NextIndex(q.tail, |q.ring|), pushed := q.pushed + [t], prod := PAdd)
    case PAdd => q.(pending := q.pending + 1, prod := if q.pending == -1 then PLock else POut)
    case PLock => if q.mutex == Free then q.(mutex := ByProducer, prod := PNotify) else q
    case PNotify => q.(cons := if q.cons == CAsleep then CLock else q.cons, prod := PUnlock)
    case PUnlock => q.(mutex := Free, prod := POut)
  }

  /** One access of the consumer; outside `Pop` the step calls `Pop`. */
  function ConsumerStep(q: Queue): Queue {
    match q.cons
    case COut => q.(cons := CSub)
    case CSub => q.(pending := q.pending - 1, cons := if q.pending == 0 then CLock else CExit)
    case CLock => if q.mutex == Free then q.(mutex := ByConsumer, cons := CPending) else q
    case CPending => q.(cons := if q.pending >= 0 then CUnlock else CWaitExit)
    case CWaitExit => q.(cons := if q.exitNow then CUnlock else CSleep)
    case CSleep => q.(mutex := Free, cons := CAsleep)
    case CAsleep => q
    case CUnlock => q.(mutex := Free, cons := CExit)
    case CExit => q.(cons := if q.exitNow then CDone else CCheck)
    case CCheck => q.(cons := if q.tail != q.head then CRead else CAborted)
    case CRead => q.(cons := CHead(q.ring[q.head]))
    case CHead(t) => q.(head := NextIndex(q.head, |q.ring|), popped := q.popped + [t], cons := COut)
    case CDone => q
    case CAborted => q
  }

  /** One access of the thread that shuts the queue down. */
  function KillerStep(q: Queue): Queue {
    match q.kill
    case KOut => q.(kill := KLock)
    case KLock => if q.mutex == Free then q.(mutex := ByKiller, kill := KSet) else q
    case KSet => q.(exitNow := true, kill := KNotify)
    case KNotify => q.(cons := if q.cons == CAsleep then CLock else q.cons, kill := KUnlock)
    case KUnlock => q.(mutex := Free, kill := KDone)
    case KDone => q
  }

  function Step(q: Queue, a: Action): Queue {
    match a
    case Produce(t) => ProducerStep(q, t)
    case Consume => ConsumerStep(q)
    case SpuriousWake => if q.cons == CAsleep then q.(cons := CLock) else q
    case Kill => KillerStep(q)
  }

  // ----- The invariant -----

  /** Entries published and not yet taken. */
  function Unread(q: Queue): int {
    |q.pushed| - |q.popped|
  }

  /** One when the producer has published an entry it has not yet counted in `pending`. */
  function Uncounted(q: Queue): int {
    if q.prod == PAdd then 1 else 0
  }

  /** One when the consumer has taken a unit of `pending` for an entry it has not yet removed. */
  function Claimed(q: Queue): int {
    if (q.cons.COut? || q.cons.CSub?) then 0 else 1
  }

  ghost predicate ShapeOk(q: Queue) {
    && |q.ring| >= 2
    && |q.popped| <= |q.pushed|
    && Unread(q) < |q.ring|
    && q.head == Slot(|q.popped|, |q.ring|)
    && q.tail == Slot(|q.pushed|, |q.ring|)
  }

  /** The ring holds the published entries from position `from` on. */
  ghost predicate Holds(ring: seq<Task>, pushed: seq<Task>, from: nat)
    requires |ring| >= 1
  {
    forall i :: from <= i < |pushed| ==> ring[Slot(i, |ring|)] == pushed[i]
  }

  ghost predicate RingOk(q: Queue)
    requires |q.popped| <= |q.pushed|
  {
    && q.popped <= q.pushed
    && Holds(q.ring, q.pushed, |q.popped|)
    && (q.prod.PWrite? || q.prod.PTail? ==> Unread(q) + 1 < |q.ring|)
    && (q.prod.PTail? ==> q.ring[q.tail] == q.prod.task)
  }

  ghost predicate CountOk(q: Queue)
    requires |q.popped| <= |q.pushed|
  {
    && q.pending == Unread(q) - Uncounted(q) - Claimed(q)
    && Unread(q) >= Uncounted(q)
    && (q.cons.CCheck? || q.cons.CRead? || q.cons.CHead? ==> Unread(q) - Uncounted(q) >= 1)
    && (q.cons.CUnlock? || q.cons.CExit? ==> Unread(q) - Uncounted(q) >= 1 || q.exitNow)
    && (q.cons.CHead? ==> q.cons.output == q.pushed[|q.popped|])
    && !q.cons.CAborted?
  }

  ghost predicate MutexOk(q: Queue) {
    && (q.mutex == ByProducer <==> q.prod.PNotify? || q.prod.PUnlock?)
    && (q.mutex == ByConsumer <==> q.cons.CPending? || q.cons.CWaitExit? || q.cons.CSleep? || q.cons.CUnlock?)
    && (q.mutex == ByKiller <==> q.kill.KSet? || q.kill.KNotify? || q.kill.KUnlock?)
  }

  /** A consumer that is asleep, or about to be, and should not be has a notification coming. */
  ghost predicate WakeOk(q: Queue) {
    && ((q.cons.CWaitExit? || q.cons.CSleep? || q.cons.CAsleep?) && q.pending >= 0 ==> q.prod.PLock? || q.prod.PNotify?)
    && (q.exitNow <==> q.kill.KNotify? || q.kill.KUnlock? || q.kill.KDone?)
    && (q.cons.CSleep? ==> !q.exitNow)
    && (q.cons.CAsleep? && q.exitNow ==> q.kill.KNotify?)
    && (q.cons.CDone? ==> q.exitNow)
  }

  ghost predicate Inv(q: Queue) {
    ShapeOk(q) && RingOk(q) && CountOk(q) && MutexOk(q) && WakeOk(q)
  }

  // ----- Positions in the ring -----

  /** The slot of the i-th entry ever published: positions go round the ring. */
  function Slot(i: nat, R: nat): (r: nat)
    requires R >= 1
    ensures r < R
  {
    if i == 0 then 0 else NextIndex(Slot(i - 1, R), R)
  }

  /** Advancing past the end of the ring is the increment modulo its size. */
  lemma NextIndexIsModulo(x: nat, R: nat)
    requires x < R
    ensures NextIndex(x, R) == (x + 1) % R
  {
    if x + 1 < R {
    } else {
      assert R % R == 0;
    }
  }

  lemma {:induction false} SlotAhead(i: nat, k: nat, R: nat)
    requires k < R
    ensures Slot(i + k, R) == if Slot(i, R) + k < R then Slot(i, R) + k else Slot(i, R) + k - R
  {
    if k > 0 {
      SlotAhead(i, k - 1, R);
    }
  }

  /** Two positions less than a lap apart never share a slot. */
  lemma SlotsDistinct(i: nat, j: nat, R: nat)
    requires i < j < i + R
    ensures Slot(i, R) != Slot(j, R)
  {
    SlotAhead(i, j - i, R);
  }

  lemma SlotOneLapAhead(i: nat, R: nat)
    requires R >= 1
    ensures Slot(i + R, R) == Slot(i, R)
  {
    SlotAhead(i, R - 1, R);
  }

  // ----- Preservation -----

  lemma WriteKeepsRing(q: Queue)
    requires ShapeOk(q) && RingOk(q) && q.prod.PWrite?
    ensures RingOk(ProducerStep(q, q.prod.task))
  {
    var R := |q.ring|;
    forall i | |q.popped| <= i < |q.pushed|
      ensures q.ring[q.tail := q.prod.task][Slot(i, R)] == q.pushed[i]
    {
      SlotsDistinct(i, |q.pushed|, R);
    }
  }

  lemma PublishKeepsRing(q: Queue)
    requires ShapeOk(q) && RingOk(q) && q.prod.PTail?
    ensures var q' := ProducerStep(q, q.prod.task); ShapeOk(q') && RingOk(q')
  {
    assert Slot(|q.pushed| + 1, |q.ring|) == NextIndex(q.tail, |q.ring|);
  }

  lemma RoomKeepsRing(q: Queue)
    requires ShapeOk(q) && RingOk(q) && q.prod.PRoom?
    ensures var q' := ProducerStep(q, q.prod.task); ShapeOk(q') && RingOk(q')
  {
    if Unread(q) + 1 == |q.ring| {
      SlotOneLapAhead(|q.popped|, |q.ring|);
    }
  }

  lemma ProducerKeepsRing(q: Queue, task: Task)
    requires ShapeOk(q) && RingOk(q)
    ensures var q' := ProducerStep(q, task); ShapeOk(q') && RingOk(q')
  {
    match q.prod
    case PRoom(_) => RoomKeepsRing(q);
    case PWrite(_) => WriteKeepsRing(q);
    case PTail(_) => PublishKeepsRing(q);
    case _ =>
      var q' := ProducerStep(q, task);
      assert q'.ring == q.ring && q'.pushed == q.pushed && q'.popped == q.popped;
  }

  lemma ProducerKeepsCount(q: Queue, task: Task)
    requires ShapeOk(q) && CountOk(q)
    ensures var q' := ProducerStep(q, task); |q'.popped| <= |q'.pushed| && CountOk(q')
  {
    hide Slot;
    match q.prod
    case POut =>
    case PCheckExit(_) =>
    case PRoom(_) =>
    case PWrite(_) =>
    case PTail(_) =>
    case PAdd =>
    case PLock =>
    case PNotify =>
    case PUnlock =>
  }

  lemma ProducerKeepsWake(q: Queue, task: Task)
    requires ShapeOk(q) && MutexOk(q) && WakeOk(q)
    ensures var q' := ProducerStep(q, task); MutexOk(q') && WakeOk(q')
  {
    hide ShapeOk;
    match q.prod
    case POut =>
    case PCheckExit(_) =>
    case PRoom(_) =>
    case PWrite(_) =>
    case PTail(_) =>
    case PAdd =>
    case PLock =>
    case PNotify =>
    case PUnlock =>
  }

  lemma TakeKeepsRing(q: Queue)
    requires ShapeOk(q) && RingOk(q) && CountOk(q) && q.cons.CHead?
    ensures var q' := ConsumerStep(q); ShapeOk(q') && RingOk(q')
  {
    assert Slot(|q.popped| + 1, |q.ring|) == NextIndex(q.head, |q.ring|);
  }

  lemma ConsumerKeepsRing(q: Queue)
    requires ShapeOk(q) && RingOk(q) && CountOk(q)
    ensures var q' := ConsumerStep(q); ShapeOk(q') && RingOk(q')
  {
    if q.cons.CHead? {
      TakeKeepsRing(q);
    } else {
      hide Holds, CountOk;
      var q' := ConsumerStep(q);
      assert q'.ring == q.ring && q'.pushed == q.pushed && q'.popped == q.popped;
    }
  }

  /** The emptiness check finds the entry that `pending` has promised. */
  lemma CheckPasses(q: Queue)
    requires ShapeOk(q) && CountOk(q) && q.cons.CCheck?
    ensures q.tail != q.head
  {
    SlotsDistinct(|q.popped|, |q.pushed|, |q.ring|);
  }

  lemma ConsumerKeepsCount(q: Queue)
    requires ShapeOk(q) && RingOk(q) && CountOk(q) && WakeOk(q)
    ensures var q' := ConsumerStep(q); |q'.popped| <= |q'.pushed| && CountOk(q')
  {
    hide Slot;
    match q.cons
    case COut =>
    case CSub =>
    case CLock =>
    case CPending =>
    case CWaitExit =>
    case CSleep =>
    case CAsleep =>
    case CUnlock =>
    case CExit =>
    case CCheck => CheckPasses(q);
    case CRead =>
    case CHead(_) =>
    case CDone =>
    case CAborted =>
  }

  lemma ConsumerKeepsWake(q: Queue)
    requires ShapeOk(q) && CountOk(q) && MutexOk(q) && WakeOk(q)
    ensures var q' := ConsumerStep(q); MutexOk(q') && WakeOk(q')
  {
    hide ShapeOk;
    match q.cons
    case COut =>
    case CSub =>
    case CLock =>
    case CPending =>
    case CWaitExit =>
    case CSleep =>
    case CAsleep =>
    case CUnlock =>
    case CExit =>
    case CCheck =>
    case CRead =>
    case CHead(_) =>
    case CDone =>
    case CAborted =>
  }

  lemma KillerKeepsInv(q: Queue)
    requires Inv(q)
    ensures Inv(KillerStep(q))
  {
  }

  lemma StepKeepsInv(q: Queue, a: Action)
    requires Inv(q)
    ensures Inv(Step(q, a))
  {
    match a
    case Produce(t) =>
      ProducerKeepsRing(q, t);
      ProducerKeepsCount(q, t);
      ProducerKeepsWake(q, t);
    case Consume =>
      ConsumerKeepsRing(q);
      ConsumerKeepsCount(q);
      ConsumerKeepsWake(q);
    case SpuriousWake =>
    case Kill =>
      KillerKeepsInv(q);
  }

  // ----- Runs -----

  /** The state after the threads have taken their steps in the order of the schedule. */
  function Run(q: Queue, schedule: seq<Action>): Queue
    decreases |schedule|
  {
    if schedule == [] then q else Run(Step(q, schedule[0]), schedule[1..])
  }

  lemma {:induction false} RunKeepsInv(q: Queue, schedule: seq<Action>)
    requires Inv(q)
    ensures Inv(Run(q, schedule))
    decreases |schedule|
  {
    if schedule != [] {
      StepKeepsInv(q, schedule[0]);
      RunKeepsInv(Step(q, schedule[0]), schedule[1..]);
    }
  }

  /** Whatever the interleaving, entries come out in the order they went in, none is lost or repeated, `pending`
      stays between -1 and the capacity (so with the ring of two entries it never leaves the range of an 8-bit
      counter), a slot is written only when its last entry has been taken, and the emptiness check never fails. */
  lemma QueueIsFifo(q0: Queue, schedule: seq<Action>)
    requires Init(q0)
    ensures var q := Run(q0, schedule);
            && q.popped <= q.pushed
            && 0 <= Unread(q) < |q.ring|
            && -1 <= q.pending < |q.ring|
            && !q.cons.CAborted?
            && (q.prod.PWrite? ==>
                  forall i :: |q.popped| <= i < |q.pushed| ==> Slot(i, |q.ring|) != q.tail)
  {
    RunKeepsInv(q0, schedule);
    var q := Run(q0, schedule);
    if q.prod.PWrite? {
      forall i | |q.popped| <= i < |q.pushed|
        ensures Slot(i, |q.ring|) != q.tail
      {
        SlotsDistinct(i, |q.pushed|, |q.ring|);
      }
    }
  }

  /** No lost wake-up: a consumer asleep although there is work has a producer that is on its way to notify it, and
      one asleep although the queue is shut down has the killer about to notify it.  So no reachable state has an
      unread entry, the producer out of `Push` and the consumer asleep. */
  lemma NoLostWakeup(q0: Queue, schedule: seq<Action>)
    requires Init(q0)
    ensures var q := Run(q0, schedule);
            && (q.cons.CAsleep? && q.pending >= 0 ==> q.prod.PLock? || q.prod.PNotify?)
            && (q.cons.CAsleep? && q.exitNow ==> q.kill.KNotify?)
            && !(q.cons.CAsleep? && Unread(q) > 0 && q.prod.POut?)
  {
    RunKeepsInv(q0, schedule);
  }

  // ----- Progress -----

  /** How far the producer is from having finished an announcement it has started. */
  function ProducerRank(p: ProducerPc): nat {
    match p
    case PAdd => 4
    case PLock => 3
    case PNotify => 2
    case PUnlock => 1
    case _ => 0
  }

  function ConsumerRank(c: ConsumerPc): nat {
    match c
    case COut => 12
    case CSub => 11
    case CLock => 10
    case CPending => 9
    case CWaitExit => 8
    case CSleep => 7
    case CAsleep => 6
    case CUnlock => 5
    case CExit => 4
    case CCheck => 3
    case CRead => 2
    case CHead(_) => 1
    case _ => 0
  }

  function Rank(q: Queue): nat {
    13 * ProducerRank(q.prod) + ConsumerRank(q.cons)
  }

  /** The thread whose step brings the next delivery nearer. */
  function Helpful(q: Queue): Action {
    if ProducerRank(q.prod) > 0 && !(q.prod == PLock && q.mutex != Free) then Produce(Task(0, 0)) else Consume
  }

  lemma HelpfulStep(q: Queue)
    requires Inv(q) && Unread(q) > 0 && q.kill == KOut
    ensures var q' := Step(q, Helpful(q));
            || (q'.popped == q.popped + [q.pushed[|q.popped|]])
            || (q'.popped == q.popped && q'.pushed == q.pushed && q'.kill == KOut && Rank(q') < Rank(q))
  {
    assert q.mutex != ByKiller && !q.exitNow;
  }

  /** Every published entry can still be delivered: unless the queue is being shut down, from any state that keeps
      the invariant, so from any reachable one, with an unread entry the two threads deliver the oldest one in a
      bounded number of steps, and no further `Push` is needed for it. */
  lemma {:induction false} DeliveryIsPossible(q: Queue) returns (schedule: seq<Action>)
    requires Inv(q) && Unread(q) > 0 && q.kill == KOut
    ensures |schedule| <= Rank(q) + 1
    ensures var r := Run(q, schedule);
            r.popped == q.popped + [q.pushed[|q.popped|]] && r.pushed == q.pushed
    decreases Rank(q)
  {
    var a := Helpful(q);
    var q' := Step(q, a);
    HelpfulStep(q);
    StepKeepsInv(q, a);
    if q'.popped == q.popped {
      var rest := DeliveryIsPossible(q');
      schedule := [a] + rest;
    } else {
      schedule := [a];
    }
    assert schedule[1..] == if q'.popped == q.popped then schedule[1..] else [];
  }

  // ----- Shutting down -----

  /** `n` steps of the consumer alone. */
  function ConsumerAlone(q: Queue, n: nat): Queue
    decreases n
  {
    if n == 0 then q else ConsumerAlone(ConsumerStep(q), n - 1)
  }

  /** How far the consumer is from leaving for good. */
  function StepsToLeave(c: ConsumerPc): nat {
    match c
    case CCheck => 10
    case CRead => 9
    case CHead(_) => 8
    case COut => 7
    case CSub => 6
    case CLock => 5
    case CPending => 4
    case CWaitExit => 3
    case CUnlock => 2
    case CExit => 1
    case _ => 0
  }

  lemma LeavingStep(q: Queue)
    requires Inv(q) && q.kill == KDone && q.mutex != ByProducer && q.cons != CDone
    ensures var q' := ConsumerStep(q);
            q'.kill == KDone && q'.mutex != ByProducer && StepsToLeave(q'.cons) < StepsToLeave(q.cons)
  {
    if q.cons.CCheck? {
      CheckPasses(q);
    }
    match q.cons
    case COut =>
    case CSub =>
    case CLock =>
    case CPending =>
    case CWaitExit =>
    case CSleep =>
    case CAsleep =>
    case CUnlock =>
    case CExit =>
    case CCheck =>
    case CRead =>
    case CHead(_) =>
    case CAborted =>
  }

  /** Once the queue has been shut down the consumer leaves it, from wherever it is, within ten steps of its own; only a
      producer inside its notification has to let go of the mutex first. */
  lemma {:induction false} KilledConsumerLeaves(q: Queue, n: nat)
    requires Inv(q) && q.kill == KDone && q.mutex != ByProducer && n >= StepsToLeave(q.cons)
    ensures ConsumerAlone(q, n).cons == CDone
    decreases n
  {
    hide Inv, ConsumerStep, StepsToLeave;
    if q.cons == CDone {
      StaysGone(q, n);
    } else {
      LeavingStep(q);
      StepKeepsInv(q, Consume);
      StepOfConsumer(q);
      KilledConsumerLeaves(ConsumerStep(q), n - 1);
    }
  }

  lemma StepOfConsumer(q: Queue)
    ensures Step(q, Consume) == ConsumerStep(q) && StepsToLeave(q.cons) <= 10
  {
  }

  lemma {:induction false} StaysGone(q: Queue, n: nat)
    requires q.cons == CDone
    ensures ConsumerAlone(q, n) == q
  {
    if n > 0 {
      StaysGone(q, n - 1);
    }
  }

  /** `SignalForKill` on its own: the queue is shut down and a sleeper is on its way, nothing else has changed. */
  lemma KillerFinishes(q: Queue)
    requires q.kill == KOut && q.mutex == Free
    ensures KillerStep(KillerStep(KillerStep(KillerStep(KillerStep(q))))) ==
            q.(kill := KDone, exitNow := true, cons := if q.cons == CAsleep then CLock else q.cons)
  {
  }

  /** A wake-up for no reason does no harm: with nothing to do the consumer goes back to sleep. */
  lemma SpuriousWakeIsHarmless(q: Queue)
    requires q.cons == CAsleep && q.mutex == Free && q.pending < 0 && !q.exitNow
    ensures Step(q, SpuriousWake).cons == CLock && ConsumerAlone(Step(q, SpuriousWake), 4) == q
  {
    var q1 := ConsumerStep(Step(q, SpuriousWake));
    assert q1.cons == CPending && q1.mutex == ByConsumer;
    var q3 := ConsumerStep(ConsumerStep(q1));
    assert q3.cons == CSleep;
    assert ConsumerAlone(q3, 1) == ConsumerStep(q3);
    assert ConsumerAlone(q1, 3) == ConsumerAlone(ConsumerStep(q1), 2) == ConsumerAlone(q3, 1);
  }

  /** The producer has not got past the check for a shutdown, and it has happened. */
  predicate Refusing(q: Queue) {
    q.exitNow && (q.prod.POut? || q.prod.PCheckExit?)
  }

  /** After that nothing more is published, whatever is pushed. */
  lemma {:induction false} NothingIsPushedAfterShutdown(q: Queue, schedule: seq<Action>)
    requires Refusing(q)
    ensures Run(q, schedule).pushed == q.pushed
    decreases |schedule|
  {
    if schedule != [] {
      RefusesOn(q, schedule[0]);
      NothingIsPushedAfterShutdown(Step(q, schedule[0]), schedule[1..]);
    }
  }

  lemma RefusesOn(q: Queue, a: Action)
    requires Refusing(q)
    ensures Refusing(Step(q, a)) && Step(q, a).pushed == q.pushed
  {
  }

  /** A producer that has found the ring full looks for a shutdown before it tries again. */
  lemma FullRingLooksAgain(q: Queue, task: Task, schedule: seq<Action>)
    requires Inv(q) && q.exitNow && q.prod.PRoom? && Unread(q) == |q.ring| - 1
    ensures Run(Step(q, Produce(task)), schedule).pushed == q.pushed
  {
    SlotOneLapAhead(|q.popped|, |q.ring|);
    NothingIsPushedAfterShutdown(Step(q, Produce(task)), schedule);
  }
}
