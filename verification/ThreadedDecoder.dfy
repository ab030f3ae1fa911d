/** The protocol of the threaded decoder: packets go in, a worker thread feeds them to the codec, and items come out
    of a frame queue.

    A step is one access to something shared.  The producer is inside `Push`, the consumer inside `Pop`, the worker
    in its loop, and the owner inside `Clear` or `Start`, which it calls while nobody is inside `Push` or `Pop`.
    `Step` is total: a thread that is blocked leaves the state as it is, so a schedule is any `seq<Action>`.  A
    queue is kept as everything pushed on it together with how much of that has been taken. */
module ThreadedDecoder {

  /** How many end markers the worker leaves behind when the codec is empty. */
  const MARKERS: nat := 128

  type Buffer = int

  datatype Packet = Packet(pts: int) | EndOfStream

  /** What the frame queue holds: a picture, the pts of a frame to be discarded, an empty array because the codec
      had no frame yet, or an end marker. */
  datatype Item = Picture(pts: int, buffer: Buffer) | Skipped(pts: int) | Empty | End

  /** The codec holds packets back and gives their frames out in an order of its own, each at most once.  `late`
      counts the frames given out after the end of the stream was announced. */
  datatype Codec = Codec(sent: seq<int>, held: seq<int>, out: seq<int>, late: nat, ended: bool)

  /** What the codec does next: keep back, give out a frame, or fail. */
  datatype Answer = Keep | Give(i: nat) | Fail

  /** What the worker is about: a normal packet, draining the codec, or pushing end marker number `n`. */
  datatype Mode = Normal | Drain | Marks(n: nat)

  datatype WorkerPc =
    | WLoop | WTake | WDrain
    | WBuffer(pts: int, mode: Mode) | WFrame(pts: int, buffer: Buffer, mode: Mode)
    | WPush(item: Item, mode: Mode) | WCount(mode: Mode)
    | WDrained
    | WError | WStopRun | WUnblock
    | WDone

  datatype ProducerPc = POut | PMark(buffer: Buffer) | PSend(packet: Packet, buffer: Buffer) | PBuffer(buffer: Buffer)

  datatype ConsumerPc = COut | CCount | CDraining | CWait | CCheck | CDecrement

  datatype OwnerPc = OOut | ORunning | OKillPackets | OKillBuffers | OStopRun | OKillFrames | OJoin | OReset

  /** A queue is what has been pushed on it and how much of that has been taken; a killed queue wakes all waiters. */
  datatype Queue<T> = Queue(pushed: seq<T>, taken: nat, killed: bool) {
    function Push(x: T): Queue<T> {
      this.(pushed := pushed + [x])
    }

    function Take(): Queue<T> {
      this.(taken := taken + 1)
    }

    function Kill(): Queue<T> {
      this.(killed := true)
    }

    predicate Empty() {
      taken >= |pushed|
    }
  }

  datatype Flags = Flags(run: bool, error: bool, draining: bool)

  /** `live` says that the queues belong to the current start. */
  datatype Decoder = Decoder(
    flags: Flags, frameCount: int, discard: set<int>,
    packets: Queue<Packet>, buffers: Queue<Buffer>, frames: Queue<Item>,
    codec: Codec, worker: WorkerPc, prod: ProducerPc, cons: ConsumerPc, owner: OwnerPc, live: bool)

  const NEW_CODEC := Codec([], [], [], 0, false)

  ghost predicate Init(d: Decoder) {
    && d.flags == Flags(false, false, false) && d.frameCount == 0 && d.codec == NEW_CODEC && !d.live
    && d.discard == {} && d.worker == WDone && d.prod == POut && d.cons == COut && d.owner == OOut
  }

  datatype Action =
    | Push(packet: Packet, buffer: Buffer)
    | Pop
    | Work(answer: Answer)
    | Clear
    | Start
    | SuggestDiscard(pts: set<int>)
    | ClearDiscard

  function ProducerStep(d: Decoder, packet: Packet, buffer: Buffer): Decoder {
    match d.prod
    case POut =>
      if !d.flags.run || d.owner != OOut then d
      else d.(prod := if packet == EndOfStream then PMark(buffer) else PSend(packet, buffer))
    case PMark(b) =>
      if d.flags.draining then d.(prod := POut)
      else d.(flags := d.flags.(draining := true), prod := PSend(EndOfStream, b))
    case PSend(p, b) => d.(packets := d.packets.Push(p), prod := PBuffer(b))
    case PBuffer(b) => d.(buffers := d.buffers.Push(b), prod := POut)
  }

  function ConsumerStep(d: Decoder): Decoder {
    match d.cons
    case COut => if d.flags.error || d.owner != OOut then d else d.(cons := CCount)
    case CCount => d.(cons := if d.frameCount != 0 then CWait else CDraining)
    case CDraining => d.(cons := if d.flags.draining then CWait else COut)
    case CWait =>
      if d.frames.killed then d.(cons := COut)
      else if d.frames.Empty() then d
      else d.(frames := d.frames.Take(), cons := CCheck)
    case CCheck => d.(cons := if d.flags.error then COut else CDecrement)
    case CDecrement => d.(frameCount := d.frameCount - 1, cons := COut)
  }

  function Emit(c: Codec, i: nat, late: nat): Codec
    requires i < |c.held|
  {
    c.(held := c.held[..i] + c.held[i + 1..], out := c.out + [c.held[i]], late := c.late + late)
  }

  /** Take a packet and feed it to the codec; after the end of the stream the codec accepts nothing. */
  function Feed(d: Decoder, packet: Packet, answer: Answer): (r: Decoder)
    ensures r == d.(packets := d.packets.Take(), codec := r.codec, worker := r.worker)
    ensures !r.worker.WStopRun? && !r.worker.WUnblock? && !r.worker.WDone?
  {
    if d.codec.ended || answer.Fail? then d.(packets := d.packets.Take(), worker := WError)
    else
      match packet
      case EndOfStream => d.(packets := d.packets.Take(), worker := WDrain)
      case Packet(pts) =>
        var c := d.codec.(sent := d.codec.sent + [pts], held := d.codec.held + [pts]);
        if answer.Give? && answer.i < |c.held| then
          d.(packets := d.packets.Take(), codec := Emit(c, answer.i, 0), worker := WBuffer(c.held[answer.i], Normal))
        else
          d.(packets := d.packets.Take(), codec := c, worker := WPush(Empty, Normal))
  }

  function AfterCount(mode: Mode): (r: WorkerPc)
    ensures r.WLoop? || r.WDrain? || r.WPush? || r.WDrained?
  {
    match mode
    case Normal => WLoop
    case Drain => WDrain
    case Marks(n) => if n + 1 < MARKERS then WPush(End, Marks(n + 1)) else WDrained
  }

  function WorkerStep(d: Decoder, answer: Answer): Decoder {
    match d.worker
    case WLoop => d.(worker := if d.flags.run then WTake else WDone)
    case WTake =>
      if d.packets.killed then d.(worker := WDone)
      else if d.packets.Empty() then d
      else Feed(d, d.packets.pushed[d.packets.taken], answer)
    case WDrain =>
      if answer.Give? && answer.i < |d.codec.held| then
        d.(codec := Emit(d.codec, answer.i, 1), worker := WBuffer(d.codec.held[answer.i], Drain))
      else
        d.(codec := d.codec.(ended := true), worker := WPush(End, Marks(0)))
    case WBuffer(pts, mode) =>
      if d.buffers.killed then d.(worker := WDone)
      else if d.buffers.Empty() then d
      else d.(buffers := d.buffers.Take(), worker := WFrame(pts, d.buffers.pushed[d.buffers.taken], mode))
    case WFrame(pts, buffer, mode) =>
      d.(worker := WPush(if pts in d.discard then Skipped(pts) else Picture(pts, buffer), mode))
    case WPush(item, mode) => d.(frames := d.frames.Push(item), worker := WCount(mode))
    case WCount(mode) => d.(frameCount := d.frameCount + 1, worker := AfterCount(mode))
    case WDrained => d.(flags := d.flags.(draining := false), worker := WLoop)
    case WError => d.(flags := d.flags.(error := true), worker := WStopRun)
    case WStopRun => d.(flags := d.flags.(run := false), worker := WUnblock)
    case WUnblock => d.(frames := d.frames.Kill(), worker := WDone)
    case WDone => d
  }

  /** `Clear`: stop the worker, wait for it, and forget everything. */
  function OwnerStep(d: Decoder): Decoder {
    match d.owner
    case OOut => if d.prod == POut && d.cons == COut then d.(owner := ORunning) else d
    case ORunning => d.(owner := if d.flags.run then OKillPackets else OJoin)
    case OKillPackets => d.(packets := d.packets.Kill(), owner := OKillBuffers)
    case OKillBuffers => d.(buffers := d.buffers.Kill(), owner := OStopRun)
    case OStopRun => d.(flags := d.flags.(run := false), owner := OKillFrames)
    case OKillFrames => d.(frames := d.frames.Kill(), owner := OJoin)
    case OJoin => if d.worker == WDone then d.(owner := OReset) else d
    case OReset =>
      d.(codec := NEW_CODEC, frameCount := 0, flags := d.flags.(draining := false, error := false), discard := {},
         live := false, owner := OOut)
  }

  /** `Start`: new queues and a new worker, unless one is running or an error is to be reported. */
  function StartStep(d: Decoder): Decoder {
    if d.owner != OOut || d.prod != POut || d.cons != COut || d.flags.error || d.flags.run then d
    else
      d.(packets := Queue([], 0, false), buffers := Queue([], 0, false), frames := Queue([], 0, false),
         flags := d.flags.(run := true), worker := WLoop, live := true)
  }

  function Step(d: Decoder, a: Action): Decoder {
    match a
    case Push(packet, buffer) => ProducerStep(d, packet, buffer)
    case Pop => ConsumerStep(d)
    case Work(answer) => WorkerStep(d, answer)
    case Clear => OwnerStep(d)
    case Start => StartStep(d)
    case SuggestDiscard(pts) => d.(discard := d.discard + pts)
    case ClearDiscard => d.(discard := {})
  }

  function Run(d: Decoder, schedule: seq<Action>): Decoder
    decreases |schedule|
  {
    if schedule == [] then d else Step(Run(d, schedule[..|schedule| - 1]), schedule[|schedule| - 1])
  }

  /** Running one action after the other. */
  function Play(d: Decoder, actions: seq<Action>): Decoder
    decreases |actions|
  {
    if actions == [] then d else Play(Step(d, actions[0]), actions[1..])
  }

  lemma {:induction false} RunThenPlay(d: Decoder, schedule: seq<Action>, actions: seq<Action>)
    ensures Run(d, schedule + actions) == Play(Run(d, schedule), actions)
    decreases |actions|
  {
    if actions == [] {
      assert schedule + actions == schedule;
    } else {
      assert schedule + actions == schedule + [actions[0]] + actions[1..];
      assert (schedule + [actions[0]])[..|schedule|] == schedule;
      RunThenPlay(d, schedule + [actions[0]], actions[1..]);
    }
  }

  lemma PlayFour(d: Decoder, a: Action, b: Action, c: Action, e: Action)
    ensures Play(d, [a, b, c, e]) == Step(Step(Step(Step(d, a), b), c), e)
  {
    hide Step;
    var d2 := Step(Step(d, a), b);
    assert [a, b, c, e][1..] == [b, c, e] && [b, c, e][1..] == [c, e] && [c, e][1..] == [e] && [e][1..] == [];
    assert Play(Step(d, a), [b, c, e]) == Play(d2, [c, e]);
    assert Play(Step(d2, c), [e]) == Step(Step(d2, c), e);
  }

  /** No `Push` is begun; one that is under way may go on. */
  predicate NoNewPush(d: Decoder, actions: seq<Action>)
    decreases |actions|
  {
    actions == [] || (!(actions[0].Push? && d.prod == POut) && NoNewPush(Step(d, actions[0]), actions[1..]))
  }

  // ----- What has been pushed and delivered -----

  /** The timestamps of the normal packets. */
  function Normals(packets: seq<Packet>): seq<int> {
    if packets == [] then []
    else
      var n := |packets| - 1;
      Normals(packets[..n]) + match packets[n] case Packet(pts) => [pts] case EndOfStream => []
  }

  /** The frames among the items. */
  function Frames(items: seq<Item>): seq<int> {
    if items == [] then []
    else
      var n := |items| - 1;
      Frames(items[..n]) + FrameOf(items[n])
  }

  function FrameOf(item: Item): seq<int> {
    match item
    case Picture(pts, _) => [pts]
    case Skipped(pts) => [pts]
    case Empty => []
    case End => []
  }

  function Ends(items: seq<Item>): nat {
    if items == [] then 0
    else
      var n := |items| - 1;
      Ends(items[..n]) + if items[n] == End then 1 else 0
  }

  /** The frame the worker has in hand. */
  function InHand(w: WorkerPc): seq<int> {
    match w
    case WBuffer(pts, _) => [pts]
    case WFrame(pts, _, _) => [pts]
    case WPush(item, _) => FrameOf(item)
    case _ => []
  }

  // ----- The invariant -----

  /** `frame_count_` lags behind the queue by what each side has not yet counted. */
  ghost predicate CountOk(frameCount: int, queued: int, worker: WorkerPc, cons: ConsumerPc) {
    frameCount == queued - (if worker.WCount? then 1 else 0) + (if cons.CCheck? || cons.CDecrement? then 1 else 0)
  }

  /** The items carry the codec's output in its order. */
  ghost predicate FramesOk(worker: WorkerPc, out: seq<int>, frames: seq<int>) {
    if worker.WDone? then frames <= out else frames + InHand(worker) == out
  }

  /** The codec neither invents nor doubles frames. */
  ghost predicate CodecOk(sent: seq<int>, held: seq<int>, out: seq<int>) {
    multiset(out) + multiset(held) == multiset(sent)
  }

  /** Everything taken from the packet queue has been accepted by the codec, but for the packet it fails on. */
  ghost predicate SentOk(sent: seq<int>, normals: seq<int>, worker: WorkerPc) {
    if Failed(worker) then sent <= normals else sent == normals
  }

  ghost predicate Failed(worker: WorkerPc) {
    worker.WError? || worker.WStopRun? || worker.WUnblock? || worker.WDone?
  }

  /** Every frame given out has its buffer, or will have it. */
  ghost predicate BuffersOk(packets: nat, buffers: Queue<Buffer>, prod: ProducerPc, out: nat, worker: WorkerPc) {
    && |buffers.pushed| + (if prod.PBuffer? then 1 else 0) == packets
    && (worker.WDone? || buffers.taken + (if worker.WBuffer? then 1 else 0) == out)
  }

  ghost predicate Draining(worker: WorkerPc) {
    || worker.WDrain? || worker.WDrained?
    || ((worker.WBuffer? || worker.WFrame? || worker.WPush? || worker.WCount?) && !worker.mode.Normal?)
  }

  /** One item for every normal packet, and then those of the draining phase. */
  ghost predicate ItemsOk(items: nat, c: Codec, worker: WorkerPc, ends: nat) {
    worker.WDone? || (
      && (c.late > 0 ==> c.ended || Draining(worker) || Failed(worker))
      && items + (if worker.WBuffer? || worker.WFrame? || (worker.WPush? && !worker.mode.Marks?) then 1 else 0)
           == |c.sent| + c.late + ends)
  }

  /** The end markers come last, all of them before `draining_` is taken back. */
  ghost predicate EndsOk(worker: WorkerPc, ended: bool, ends: nat) {
    match worker
    case WLoop => ends == if ended then MARKERS else 0
    case WTake => ends == if ended then MARKERS else 0
    case WDrain => !ended && ends == 0
    case WBuffer(_, mode) => !mode.Marks? && !ended && ends == 0
    case WFrame(_, _, mode) => !mode.Marks? && !ended && ends == 0
    case WPush(item, mode) =>
      if mode.Marks? then ended && item == End && ends == mode.n < MARKERS else !ended && item != End && ends == 0
    case WCount(mode) => if mode.Marks? then ended && ends == mode.n + 1 <= MARKERS else !ended && ends == 0
    case WDrained => ended && ends == MARKERS
    case _ => ends <= MARKERS
  }

  /** In how many places the end of the stream is: with the producer, in the queue, or with the worker. */
  ghost function EndsUnderWay(prod: ProducerPc, queued: nat, worker: WorkerPc): nat {
    (if prod.PSend? && prod.packet == EndOfStream then 1 else 0)
    + queued
    + (if Draining(worker) then 1 else 0)
  }

  /** As long as `draining_` is set the end of the stream is on its way to the worker or the worker is on it, and
      there is only one. */
  ghost predicate DrainOk(draining: bool, underWay: nat, worker: WorkerPc) {
    if Failed(worker) then underWay <= 1 && (underWay == 1 ==> draining) else underWay == if draining then 1 else 0
  }

  /** A consumer past the guard has a counted item to take, or the draining phase to rely on. */
  ghost predicate WaitOk(cons: ConsumerPc, frameCount: int, draining: bool, ended: bool, failed: bool) {
    || draining || ended || failed
    || (frameCount >= 0 && (cons.CWait? || cons.CCheck? || cons.CDecrement? ==> frameCount >= 1))
  }

  /** What is true of the flags while nobody interferes with the worker. */
  ghost predicate FlagsOk(run: bool, error: bool, packetsKilled: bool, buffersKilled: bool, framesKilled: bool,
                          worker: WorkerPc) {
    && !packetsKilled && !buffersKilled
    && (run <==> !worker.WUnblock? && !worker.WDone?)
    && (framesKilled <==> worker.WDone?)
    && (worker.WDone? ==> error)
  }

  ghost predicate ErrorOk(error: bool, worker: WorkerPc) {
    && (error ==> worker.WStopRun? || worker.WUnblock? || worker.WDone?)
    && (worker.WStopRun? || worker.WUnblock? ==> error)
  }

  /** How far the owner has got in stopping the worker. */
  ghost predicate OwnerOk(owner: OwnerPc, run: bool, error: bool, packetsKilled: bool, buffersKilled: bool,
                          framesKilled: bool, worker: WorkerPc) {
    match owner
    case OOut => FlagsOk(run, error, packetsKilled, buffersKilled, framesKilled, worker)
    case ORunning => FlagsOk(run, error, packetsKilled, buffersKilled, framesKilled, worker)
    case OKillPackets => true
    case OKillBuffers => packetsKilled
    case OStopRun => packetsKilled && buffersKilled
    case OKillFrames => packetsKilled && buffersKilled && !run
    case OJoin => !run && ((packetsKilled && buffersKilled) || worker.WUnblock? || worker.WDone?)
    case OReset => !run && worker.WDone?
  }

  /** Between `Clear` and `Start`. */
  ghost predicate Stopped(d: Decoder) {
    && d.worker == WDone && d.flags == Flags(false, false, false) && d.frameCount == 0 && d.codec == NEW_CODEC
    && d.prod == POut && (d.cons == COut || d.cons == CCount || d.cons == CDraining)
    && (d.owner == OOut || ((d.owner == ORunning || d.owner == OJoin || d.owner == OReset) && d.cons == COut))
  }

  ghost predicate CountsOk(flags: Flags, frameCount: int, frames: Queue<Item>, worker: WorkerPc, cons: ConsumerPc,
                           ended: bool) {
    && frames.taken <= |frames.pushed|
    && (!flags.error ==> CountOk(frameCount, |frames.pushed| - frames.taken, worker, cons))
    && WaitOk(cons, frameCount, flags.draining, ended, Failed(worker))
  }

  ghost predicate OutputOk(items: seq<Item>, codec: Codec, worker: WorkerPc) {
    && FramesOk(worker, codec.out, Frames(items))
    && CodecOk(codec.sent, codec.held, codec.out)
    && ItemsOk(|items|, codec, worker, Ends(items))
    && EndsOk(worker, codec.ended, Ends(items))
  }

  ghost predicate InputOk(draining: bool, packets: Queue<Packet>, buffers: Queue<Buffer>, prod: ProducerPc,
                          codec: Codec, worker: WorkerPc) {
    && packets.taken <= |packets.pushed| && buffers.taken <= |buffers.pushed|
    && SentOk(codec.sent, Normals(packets.pushed[..packets.taken]), worker)
    && BuffersOk(|packets.pushed|, buffers, prod, |codec.out|, worker)
    && DrainOk(draining, EndsUnderWay(prod, multiset(packets.pushed[packets.taken..])[EndOfStream], worker), worker)
  }

  /** Frame number `f` of the codec goes into buffer number `f`. */
  ghost predicate Paired(items: seq<Item>, k: nat, buffers: seq<Buffer>)
    requires k < |items|
  {
    items[k].Picture? ==> |Frames(items[..k])| < |buffers| && items[k].buffer == buffers[|Frames(items[..k])|]
  }

  ghost predicate PairsOk(items: seq<Item>, buffers: seq<Buffer>) {
    forall k :: 0 <= k < |items| ==> Paired(items, k, buffers)
  }

  /** So does the one the worker has in hand. */
  ghost predicate InHandOk(worker: WorkerPc, frames: nat, buffers: seq<Buffer>) {
    match worker
    case WFrame(_, buffer, _) => frames < |buffers| && buffer == buffers[frames]
    case WPush(item, _) => item.Picture? ==> frames < |buffers| && item.buffer == buffers[frames]
    case _ => true
  }

  ghost predicate TargetsOk(items: seq<Item>, buffers: seq<Buffer>, worker: WorkerPc) {
    PairsOk(items, buffers) && InHandOk(worker, |Frames(items)|, buffers)
  }

  ghost predicate ControlOk(owner: OwnerPc, flags: Flags, packetsKilled: bool, buffersKilled: bool, framesKilled: bool,
                            worker: WorkerPc) {
    && ErrorOk(flags.error, worker)
    && OwnerOk(owner, flags.run, flags.error, packetsKilled, buffersKilled, framesKilled, worker)
  }

  ghost predicate Running(d: Decoder) {
    && CountsOk(d.flags, d.frameCount, d.frames, d.worker, d.cons, d.codec.ended)
    && OutputOk(d.frames.pushed, d.codec, d.worker)
    && InputOk(d.flags.draining, d.packets, d.buffers, d.prod, d.codec, d.worker)
    && TargetsOk(d.frames.pushed, d.buffers.pushed, d.worker)
    && ControlOk(d.owner, d.flags, d.packets.killed, d.buffers.killed, d.frames.killed, d.worker)
    && (d.owner == OOut || (d.prod == POut && d.cons == COut))
  }

  ghost predicate Inv(d: Decoder) {
    if d.live then Running(d) else Stopped(d)
  }

  // ----- Every step keeps the invariant -----

  lemma ProducerKeepsInv(d: Decoder, packet: Packet, buffer: Buffer)
    requires Inv(d)
    ensures Inv(ProducerStep(d, packet, buffer))
  {
    hide CountOk, OutputOk, OwnerOk, SentOk, Normals, Failed, Draining, TargetsOk;
    match d.prod
    case POut =>
    case PMark(b) =>
    case PSend(p, b) =>
      if d.live {
        assert (d.packets.pushed + [p])[..d.packets.taken] == d.packets.pushed[..d.packets.taken];
        assert (d.packets.pushed + [p])[d.packets.taken..] == d.packets.pushed[d.packets.taken..] + [p];
      }
    case PBuffer(b) => MoreBuffers(d.frames.pushed, d.buffers.pushed, b, d.worker);
  }

  lemma MoreBuffers(items: seq<Item>, buffers: seq<Buffer>, b: Buffer, worker: WorkerPc)
    requires TargetsOk(items, buffers, worker)
    ensures TargetsOk(items, buffers + [b], worker)
  {
    hide Frames;
    forall k | 0 <= k < |items|
      ensures Paired(items, k, buffers + [b])
    {
      assert Paired(items, k, buffers);
    }
  }

  lemma ConsumerKeepsInv(d: Decoder)
    requires Inv(d)
    ensures Inv(ConsumerStep(d))
  {
    hide OutputOk, InputOk, OwnerOk, TargetsOk;
    match d.cons
    case COut =>
    case CCount =>
    case CDraining =>
    case CWait =>
    case CCheck =>
    case CDecrement =>
  }

  lemma OwnerKeepsInv(d: Decoder)
    requires Inv(d)
    ensures Inv(OwnerStep(d))
  {
    hide OutputOk, CountOk, WaitOk, SentOk, DrainOk, Normals, TargetsOk;
    match d.owner
    case OOut =>
    case ORunning =>
    case OKillPackets =>
    case OKillBuffers =>
    case OStopRun =>
    case OKillFrames =>
    case OJoin =>
    case OReset =>
  }

  lemma StartKeepsInv(d: Decoder)
    requires Inv(d)
    ensures Inv(StartStep(d))
  {
    if StartStep(d) != d {
      NewQueues();
    }
  }

  lemma NewQueues()
    ensures OutputOk([], NEW_CODEC, WLoop)
    ensures InputOk(false, Queue([], 0, false), Queue([], 0, false), POut, NEW_CODEC, WLoop)
  {
    var packets: seq<Packet> := [];
    assert packets[..0] == packets && packets[0..] == packets;
  }

  lemma WorkerKeepsControl(d: Decoder, answer: Answer)
    requires ControlOk(d.owner, d.flags, d.packets.killed, d.buffers.killed, d.frames.killed, d.worker)
    ensures var d' := WorkerStep(d, answer);
            ControlOk(d'.owner, d'.flags, d'.packets.killed, d'.buffers.killed, d'.frames.killed, d'.worker)
  {
    WorkerMoves(d, answer);
    hide WorkerStep;
  }

  /** What the worker can do to the flags, and to its own part in an error. */
  lemma WorkerMoves(d: Decoder, answer: Answer)
    ensures var d', w := WorkerStep(d, answer), WorkerStep(d, answer).worker;
            && d'.owner == d.owner && d'.packets.killed == d.packets.killed && d'.buffers.killed == d.buffers.killed
            && d'.flags.error == (d.flags.error || d.worker.WError?)
            && d'.flags.run == (d.flags.run && !d.worker.WStopRun?)
            && d'.frames.killed == (d.frames.killed || d.worker.WUnblock?)
            && (w.WStopRun? <==> d.worker.WError?) && (w.WUnblock? <==> d.worker.WStopRun?)
            && (w.WDone? <==> || d.worker.WUnblock? || d.worker.WDone? || (d.worker.WLoop? && !d.flags.run)
                              || (d.worker.WTake? && d.packets.killed) || (d.worker.WBuffer? && d.buffers.killed))
  {
    hide Feed, AfterCount;
    match d.worker
    case WLoop =>
    case WTake =>
    case WDrain =>
    case WBuffer(_, _) =>
    case WFrame(_, _, _) =>
    case WPush(_, _) =>
    case WCount(_) =>
    case WDrained =>
    case WError =>
    case WStopRun =>
    case WUnblock =>
    case WDone =>
  }

  lemma WorkerKeepsCounts(d: Decoder, answer: Answer)
    requires CountsOk(d.flags, d.frameCount, d.frames, d.worker, d.cons, d.codec.ended)
    requires EndsOk(d.worker, d.codec.ended, Ends(d.frames.pushed))
    ensures var d' := WorkerStep(d, answer);
            CountsOk(d'.flags, d'.frameCount, d'.frames, d'.worker, d'.cons, d'.codec.ended)
  {
    hide Ends;
    match d.worker
    case WLoop =>
    case WTake =>
    case WDrain =>
    case WBuffer(_, _) =>
    case WFrame(_, _, _) =>
    case WPush(_, _) =>
    case WCount(_) =>
    case WDrained =>
    case WError =>
    case WStopRun =>
    case WUnblock =>
    case WDone =>
  }

  lemma WorkerKeepsOutput(d: Decoder, answer: Answer)
    requires OutputOk(d.frames.pushed, d.codec, d.worker)
    ensures var d' := WorkerStep(d, answer);
            OutputOk(d'.frames.pushed, d'.codec, d'.worker)
  {
    hide Frames, Ends, Feed, CodecOk, AfterCount, Emit;
    match d.worker
    case WLoop =>
    case WTake =>
      if !d.packets.killed && !d.packets.Empty() {
        FeedKeepsOutput(d, d.packets.pushed[d.packets.taken], answer);
      }
    case WDrain =>
      DrainKeepsOutput(d, answer);
    case WBuffer(_, _) =>
    case WFrame(_, _, _) =>
    case WPush(_, _) =>
      PushKeepsOutput(d.frames.pushed, d.codec, d.worker);
    case WCount(mode) =>
      CountedKeepsOutput(d.frames.pushed, d.codec, mode);
    case WDrained =>
    case WError =>
    case WStopRun =>
    case WUnblock =>
    case WDone =>
  }

  lemma DrainKeepsOutput(d: Decoder, answer: Answer)
    requires OutputOk(d.frames.pushed, d.codec, d.worker) && d.worker.WDrain?
    ensures var d' := WorkerStep(d, answer);
            OutputOk(d'.frames.pushed, d'.codec, d'.worker)
  {
    hide Frames, Ends, CodecOk;
    if answer.Give? && answer.i < |d.codec.held| {
      EmitKeeps(d.codec, answer.i, 1);
    }
  }

  lemma PushKeepsOutput(items: seq<Item>, codec: Codec, worker: WorkerPc)
    requires OutputOk(items, codec, worker) && worker.WPush?
    ensures OutputOk(items + [worker.item], codec, WCount(worker.mode))
  {
    hide Frames, Ends, CodecOk;
    PushedOne(items, worker.item);
  }

  lemma CountedKeepsOutput(items: seq<Item>, codec: Codec, mode: Mode)
    requires OutputOk(items, codec, WCount(mode))
    ensures OutputOk(items, codec, AfterCount(mode))
  {
    hide Frames, Ends, CodecOk;
  }

  lemma PushedOne(items: seq<Item>, item: Item)
    ensures Frames(items + [item]) == Frames(items) + FrameOf(item)
    ensures Ends(items + [item]) == Ends(items) + if item == End then 1 else 0
  {
    assert (items + [item])[..|items|] == items;
  }

  lemma FeedKeepsOutput(d: Decoder, packet: Packet, answer: Answer)
    requires OutputOk(d.frames.pushed, d.codec, d.worker) && d.worker.WTake?
    ensures var d' := Feed(d, packet, answer);
            OutputOk(d'.frames.pushed, d'.codec, d'.worker)
  {
    hide Frames, Ends, CodecOk;
    FeedKeepsCodec(d, packet, answer);
    match packet
    case EndOfStream =>
    case Packet(pts) =>
  }

  lemma FeedKeepsCodec(d: Decoder, packet: Packet, answer: Answer)
    requires CodecOk(d.codec.sent, d.codec.held, d.codec.out)
    ensures var c := Feed(d, packet, answer).codec; CodecOk(c.sent, c.held, c.out)
  {
    if packet.Packet? {
      var c := d.codec.(sent := d.codec.sent + [packet.pts], held := d.codec.held + [packet.pts]);
      assert CodecOk(c.sent, c.held, c.out);
      if answer.Give? && answer.i < |c.held| {
        EmitKeeps(c, answer.i, 0);
      }
    }
  }

  lemma EmitKeeps(c: Codec, i: nat, late: nat)
    requires CodecOk(c.sent, c.held, c.out) && i < |c.held|
    ensures var c' := Emit(c, i, late); CodecOk(c'.sent, c'.held, c'.out)
  {
    assert c.held == c.held[..i] + [c.held[i]] + c.held[i + 1..];
  }

  lemma WorkerKeepsInput(d: Decoder, answer: Answer)
    requires InputOk(d.flags.draining, d.packets, d.buffers, d.prod, d.codec, d.worker)
    requires EndsOk(d.worker, d.codec.ended, Ends(d.frames.pushed))
    ensures var d' := WorkerStep(d, answer);
            InputOk(d'.flags.draining, d'.packets, d'.buffers, d'.prod, d'.codec, d'.worker)
  {
    hide Ends, Normals, Feed, DrainOk, EndsUnderWay, EndsOk, AfterCount;
    if d.worker.WTake? && !d.packets.killed && !d.packets.Empty() {
      FeedKeepsInput(d, answer);
    } else {
      WorkerKeepsDrain(d, answer, multiset(d.packets.pushed[d.packets.taken..])[EndOfStream]);
      WorkerKeepsQueues(d, answer);
    }
  }

  lemma WorkerKeepsQueues(d: Decoder, answer: Answer)
    requires !d.worker.WTake? || d.packets.killed || d.packets.Empty()
    requires d.buffers.taken <= |d.buffers.pushed|
    requires BuffersOk(|d.packets.pushed|, d.buffers, d.prod, |d.codec.out|, d.worker)
    ensures var d' := WorkerStep(d, answer);
            && d'.packets == d.packets && d'.prod == d.prod && d'.codec.sent == d.codec.sent
            && (Failed(d.worker) ==> Failed(d'.worker)) && d'.buffers.taken <= |d'.buffers.pushed|
            && BuffersOk(|d.packets.pushed|, d'.buffers, d.prod, |d'.codec.out|, d'.worker)
  {
    match d.worker
    case WLoop =>
    case WTake =>
    case WDrain =>
    case WBuffer(_, _) =>
    case WFrame(_, _, _) =>
    case WPush(_, _) =>
    case WCount(_) =>
    case WDrained =>
    case WError =>
    case WStopRun =>
    case WUnblock =>
    case WDone =>
  }

  /** A worker that takes no packet leaves the end of the stream where it is, until it is done with it. */
  lemma WorkerKeepsDrain(d: Decoder, answer: Answer, queued: nat)
    requires !d.worker.WTake? || d.packets.killed || d.packets.Empty()
    requires DrainOk(d.flags.draining, EndsUnderWay(d.prod, queued, d.worker), d.worker)
    requires EndsOk(d.worker, d.codec.ended, Ends(d.frames.pushed))
    ensures var d' := WorkerStep(d, answer);
            DrainOk(d'.flags.draining, EndsUnderWay(d.prod, queued, d'.worker), d'.worker)
  {
    hide Ends;
    match d.worker
    case WLoop =>
    case WTake =>
    case WDrain =>
    case WBuffer(_, _) =>
    case WFrame(_, _, _) =>
    case WPush(_, _) =>
    case WCount(_) =>
    case WDrained =>
    case WError =>
    case WStopRun =>
    case WUnblock =>
    case WDone =>
  }

  lemma FeedKeepsInput(d: Decoder, answer: Answer)
    requires InputOk(d.flags.draining, d.packets, d.buffers, d.prod, d.codec, d.worker)
    requires d.worker.WTake? && !d.packets.Empty()
    ensures var d' := Feed(d, d.packets.pushed[d.packets.taken], answer);
            InputOk(d'.flags.draining, d'.packets, d'.buffers, d'.prod, d'.codec, d'.worker)
  {
    hide Normals;
    TookOne(d.packets.pushed, d.packets.taken);
    match d.packets.pushed[d.packets.taken]
    case EndOfStream =>
    case Packet(_) =>
  }

  lemma TookOne(packets: seq<Packet>, taken: nat)
    requires taken < |packets|
    ensures Normals(packets[..taken + 1]) ==
            Normals(packets[..taken]) + match packets[taken] case Packet(pts) => [pts] case EndOfStream => []
    ensures multiset(packets[taken..])[EndOfStream] ==
            multiset(packets[taken + 1..])[EndOfStream] + if packets[taken] == EndOfStream then 1 else 0
  {
    assert packets[..taken + 1][..taken] == packets[..taken];
    assert packets[taken..] == [packets[taken]] + packets[taken + 1..];
  }

  /** The buffer the worker waits for is the one with the number of the frame it has in hand. */
  lemma NextBuffer(d: Decoder)
    requires d.worker.WBuffer? && OutputOk(d.frames.pushed, d.codec, d.worker)
    requires InputOk(d.flags.draining, d.packets, d.buffers, d.prod, d.codec, d.worker)
    ensures d.buffers.taken == |Frames(d.frames.pushed)|
  {
    hide Ends, Normals, Frames;
  }

  lemma WorkerKeepsTargets(d: Decoder, answer: Answer)
    requires TargetsOk(d.frames.pushed, d.buffers.pushed, d.worker)
    requires d.worker.WBuffer? ==> d.buffers.taken == |Frames(d.frames.pushed)|
    ensures var d' := WorkerStep(d, answer); TargetsOk(d'.frames.pushed, d'.buffers.pushed, d'.worker)
  {
    hide Frames, PairsOk, Feed, AfterCount, Emit;
    match d.worker
    case WLoop =>
    case WTake =>
      if !d.packets.killed && !d.packets.Empty() {
        FeedKeepsTargets(d, d.packets.pushed[d.packets.taken], answer);
      }
    case WDrain =>
    case WBuffer(_, _) =>
    case WFrame(_, _, _) =>
    case WPush(item, _) => PushKeepsPairs(d.frames.pushed, item, d.buffers.pushed);
    case WCount(mode) => CountKeepsTargets(d.frames.pushed, d.buffers.pushed, mode);
    case WDrained =>
    case WError =>
    case WStopRun =>
    case WUnblock =>
    case WDone =>
  }

  lemma CountKeepsTargets(items: seq<Item>, buffers: seq<Buffer>, mode: Mode)
    requires PairsOk(items, buffers)
    ensures TargetsOk(items, buffers, AfterCount(mode))
  {
    hide PairsOk, Frames;
  }

  lemma FeedKeepsTargets(d: Decoder, packet: Packet, answer: Answer)
    requires PairsOk(d.frames.pushed, d.buffers.pushed)
    ensures TargetsOk(d.frames.pushed, d.buffers.pushed, Feed(d, packet, answer).worker)
  {
    hide PairsOk, Frames;
    match packet
    case EndOfStream =>
    case Packet(_) =>
  }

  lemma PushKeepsPairs(items: seq<Item>, item: Item, buffers: seq<Buffer>)
    requires PairsOk(items, buffers)
    requires item.Picture? ==> |Frames(items)| < |buffers| && item.buffer == buffers[|Frames(items)|]
    ensures PairsOk(items + [item], buffers)
  {
    forall k | 0 <= k < |items| + 1
      ensures Paired(items + [item], k, buffers)
    {
      assert (items + [item])[..k] == items[..k];
      if k < |items| {
        assert Paired(items, k, buffers);
      } else {
        assert items[..k] == items;
      }
    }
  }

  lemma WorkerLeavesAlone(d: Decoder, answer: Answer)
    ensures var d' := WorkerStep(d, answer);
            && d'.prod == d.prod && d'.cons == d.cons && d'.owner == d.owner && d'.live == d.live
            && (d.worker.WDone? ==> d' == d)
  {
    hide Feed, AfterCount;
    match d.worker
    case WLoop =>
    case WTake =>
    case WDrain =>
    case WBuffer(_, _) =>
    case WFrame(_, _, _) =>
    case WPush(_, _) =>
    case WCount(_) =>
    case WDrained =>
    case WError =>
    case WStopRun =>
    case WUnblock =>
    case WDone =>
  }

  lemma WorkerKeepsInv(d: Decoder, answer: Answer)
    requires Inv(d)
    ensures Inv(WorkerStep(d, answer))
  {
    assert d.live ==> EndsOk(d.worker, d.codec.ended, Ends(d.frames.pushed));
    hide OutputOk, InputOk, CountsOk, ControlOk, TargetsOk, WorkerStep, EndsOk;
    WorkerLeavesAlone(d, answer);
    if d.live {
      if d.worker.WBuffer? {
        NextBuffer(d);
      }
      WorkerKeepsTargets(d, answer);
      WorkerKeepsControl(d, answer);
      WorkerKeepsCounts(d, answer);
      WorkerKeepsOutput(d, answer);
      WorkerKeepsInput(d, answer);
    }
  }

  lemma StepKeepsInv(d: Decoder, a: Action)
    requires Inv(d)
    ensures Inv(Step(d, a))
  {
    hide OutputOk, InputOk, CountsOk, ControlOk, TargetsOk;
    hide WorkerStep, ProducerStep, ConsumerStep, OwnerStep, StartStep;
    match a
    case Push(packet, buffer) => ProducerKeepsInv(d, packet, buffer);
    case Pop => ConsumerKeepsInv(d);
    case Work(answer) => WorkerKeepsInv(d, answer);
    case Clear => OwnerKeepsInv(d);
    case Start => StartKeepsInv(d);
    case SuggestDiscard(_) =>
    case ClearDiscard =>
  }

  lemma {:induction false} RunKeepsInv(d: Decoder, schedule: seq<Action>)
    requires Init(d)
    ensures Inv(Run(d, schedule))
    decreases |schedule|
  {
    if schedule != [] {
      RunKeepsInv(d, schedule[..|schedule| - 1]);
      StepKeepsInv(Run(d, schedule[..|schedule| - 1]), schedule[|schedule| - 1]);
    }
  }

  // ----- Safety -----

  /** `frame_count_` is the length of the frame queue, up to one update under way on either side. */
  lemma FrameCountIsQueueLength(d0: Decoder, schedule: seq<Action>)
    requires Init(d0)
    ensures var d := Run(d0, schedule);
            d.live && !d.flags.error ==>
              d.frameCount == |d.frames.pushed| - d.frames.taken - (if d.worker.WCount? then 1 else 0)
                              + (if d.cons.CCheck? || d.cons.CDecrement? then 1 else 0)
  {
    RunKeepsInv(d0, schedule);
  }

  /** Between two packets the worker has pushed one item for each normal packet it has taken; when the codec has been
      drained, the frames it still had and the end markers as well. */
  lemma OneItemPerPacket(d0: Decoder, schedule: seq<Action>)
    requires Init(d0)
    ensures var d := Run(d0, schedule);
            d.live && (d.worker.WLoop? || d.worker.WTake?) ==>
              && d.packets.taken <= |d.packets.pushed|
              && |d.frames.pushed| == |Normals(d.packets.pushed[..d.packets.taken])|
                                      + (if d.codec.ended then d.codec.late + 128 else 0)
              && Ends(d.frames.pushed) == (if d.codec.ended then 128 else 0)
  {
    RunKeepsInv(d0, schedule);
  }

  /** The frames taken are in the order in which the codec gave them out, every one of them comes from a packet pushed
      since the last `Clear`, and none of them twice. */
  lemma FramesInCodecOrder(d0: Decoder, schedule: seq<Action>)
    requires Init(d0)
    ensures var d := Run(d0, schedule);
            d.live ==>
              && d.frames.taken <= |d.frames.pushed|
              && Frames(d.frames.pushed[..d.frames.taken]) <= d.codec.out
              && multiset(d.codec.out) <= multiset(Normals(d.packets.pushed))
  {
    RunKeepsInv(d0, schedule);
    var d := Run(d0, schedule);
    if d.live {
      FramesOfPrefix(d.frames.pushed, d.frames.taken);
      NormalsOfPrefix(d.packets.pushed, d.packets.taken);
      PrefixIsContained(d.codec.sent, Normals(d.packets.pushed));
    }
  }

  /** Frame number `f` of the codec's output is written into the buffer that was pushed as number `f`. */
  lemma FramesFillTheirBuffers(d0: Decoder, schedule: seq<Action>, k: nat)
    requires Init(d0)
    ensures var d := Run(d0, schedule);
            d.live && k < |d.frames.pushed| && d.frames.pushed[k].Picture? ==>
              var f := |Frames(d.frames.pushed[..k])|;
              && f < |d.codec.out| && d.frames.pushed[k].pts == d.codec.out[f]
              && f < |d.buffers.pushed| && d.frames.pushed[k].buffer == d.buffers.pushed[f]
  {
    hide Frames, Ends, Normals;
    RunKeepsInv(d0, schedule);
    var d := Run(d0, schedule);
    if d.live && k < |d.frames.pushed| && d.frames.pushed[k].Picture? {
      assert Paired(d.frames.pushed, k, d.buffers.pushed);
      assert Frames(d.frames.pushed) <= d.codec.out;
      FrameOfItem(d.frames.pushed, k);
    }
  }

  /** An item's frame is numbered by the frames before it. */
  lemma FrameOfItem(items: seq<Item>, k: nat)
    requires k < |items| && items[k].Picture?
    ensures |Frames(items[..k])| < |Frames(items)| && Frames(items)[|Frames(items[..k])|] == items[k].pts
  {
    FramesOfPrefix(items, k + 1);
    assert items[..k + 1] == items[..k] + [items[k]];
    PushedOne(items[..k], items[k]);
  }

  lemma {:induction false} FramesOfPrefix(items: seq<Item>, n: nat)
    requires n <= |items|
    ensures Frames(items[..n]) <= Frames(items)
    ensures Ends(items[..n]) <= Ends(items)
    decreases |items|
  {
    if n < |items| {
      FramesOfPrefix(items[..|items| - 1], n);
      assert items[..|items| - 1][..n] == items[..n];
    } else {
      assert items[..n] == items;
    }
  }

  lemma {:induction false} NormalsOfPrefix(packets: seq<Packet>, n: nat)
    requires n <= |packets|
    ensures Normals(packets[..n]) <= Normals(packets) && |Normals(packets[..n])| <= n
    decreases |packets|
  {
    if n < |packets| {
      NormalsOfPrefix(packets[..|packets| - 1], n);
      assert packets[..|packets| - 1][..n] == packets[..n];
    } else if n > 0 {
      NormalsOfPrefix(packets[..n - 1], n - 1);
      assert packets[..n - 1][..n - 1] == packets[..n - 1] && packets[..n] == packets;
    } else {
      assert packets[..n] == packets;
    }
  }

  lemma PrefixIsContained<T>(a: seq<T>, b: seq<T>)
    requires a <= b
    ensures multiset(a) <= multiset(b)
  {
    assert b == a + b[|a|..];
  }

  // ----- What a push adds -----

  /** How far the push of a packet and its buffer is, from queues that had `packets` and `buffers` on them. */
  predicate Pushing(d: Decoder, packet: Packet, buffer: Buffer, packets: seq<Packet>, buffers: seq<Buffer>) {
    match d.prod
    case PMark(b) => b == buffer && packet == EndOfStream && d.packets.pushed == packets && d.buffers.pushed == buffers
    case PSend(p, b) => p == packet && b == buffer && d.packets.pushed == packets && d.buffers.pushed == buffers
    case PBuffer(b) => b == buffer && d.packets.pushed == packets + [packet] && d.buffers.pushed == buffers
    case POut =>
      || (d.packets.pushed == packets + [packet] && d.buffers.pushed == buffers + [buffer])
      || (packet == EndOfStream && d.packets.pushed == packets && d.buffers.pushed == buffers)
  }

  lemma PushingStep(d: Decoder, a: Action, packet: Packet, buffer: Buffer, packets: seq<Packet>, buffers: seq<Buffer>)
    requires Pushing(d, packet, buffer, packets, buffers) && !a.Start? && !(a.Push? && d.prod == POut)
    ensures Pushing(Step(d, a), packet, buffer, packets, buffers)
  {
    match a
    case Push(_, _) =>
    case Pop =>
    case Work(_) =>
    case Clear =>
    case SuggestDiscard(_) =>
    case ClearDiscard =>
  }

  lemma {:induction false} PushingOn(d: Decoder, actions: seq<Action>, packet: Packet, buffer: Buffer,
                                     packets: seq<Packet>, buffers: seq<Buffer>)
    requires Pushing(d, packet, buffer, packets, buffers) && NoNewPush(d, actions) && Start !in actions
    ensures Pushing(Play(d, actions), packet, buffer, packets, buffers)
    decreases |actions|
  {
    hide Step, Pushing;
    if actions != [] {
      PushingStep(d, actions[0], packet, buffer, packets, buffers);
      PushingOn(Step(d, actions[0]), actions[1..], packet, buffer, packets, buffers);
    }
  }

  /** A push that has begun adds, whatever goes on meanwhile, exactly its packet and its buffer to the two queues by the
      time it is over; only the end of the stream may add nothing, when it has been announced before. */
  lemma PushAddsExactly(d: Decoder, packet: Packet, buffer: Buffer, actions: seq<Action>)
    requires d.prod == POut && d.owner == OOut && d.flags.run
    requires NoNewPush(Step(d, Push(packet, buffer)), actions) && Start !in actions
    ensures var d' := Play(Step(d, Push(packet, buffer)), actions);
            d'.prod == POut ==>
              || (d'.packets.pushed == d.packets.pushed + [packet] && d'.buffers.pushed == d.buffers.pushed + [buffer])
              || (&& packet == EndOfStream
                   && d'.packets.pushed == d.packets.pushed && d'.buffers.pushed == d.buffers.pushed)
  {
    PushingOn(Step(d, Push(packet, buffer)), actions, packet, buffer, d.packets.pushed, d.buffers.pushed);
  }

  /** Its own steps are enough: three, or four for the end of the stream, which is refused exactly when `draining_` is
      set and then leaves everything as it was. */
  lemma PushCompletes(d: Decoder, packet: Packet, buffer: Buffer)
    requires d.prod == POut && d.owner == OOut && d.flags.run
    ensures var push := Push(packet, buffer);
            if packet == EndOfStream && d.flags.draining then Step(Step(d, push), push) == d
            else
              var d' := Play(d, if packet == EndOfStream then [push, push, push, push] else [push, push, push]);
              && d'.packets.pushed == d.packets.pushed + [packet] && d'.buffers.pushed == d.buffers.pushed + [buffer]
              && d'.prod == POut && d'.flags == d.flags.(draining := d.flags.draining || packet == EndOfStream)
  {
    var push := Push(packet, buffer);
    if packet == EndOfStream {
      PlayFour(d, push, push, push, push);
    } else {
      assert [push, push, push][1..] == [push, push] && [push, push][1..] == [push] && [push][1..] == [];
      assert Play(Step(Step(d, push), push), [push]) == Step(Step(Step(d, push), push), push);
    }
  }

  // ----- Frames to be discarded -----

  /** The frame in hand has been looked at: it has lost its picture if it was to be discarded at that moment, and
      otherwise it is in its buffer. */
  predicate LookedAt(d: Decoder, item: Item) {
    && d.worker.WFrame?
    && item == if d.worker.pts in d.discard then Skipped(d.worker.pts) else Picture(d.worker.pts, d.worker.buffer)
  }

  /** So it was at some step of a run from `d`. */
  ghost predicate WasLookedAt(d: Decoder, schedule: seq<Action>, item: Item) {
    item == Empty || item == End ||
    exists n :: 0 <= n < |schedule| && schedule[n].Work? && LookedAt(Run(d, schedule[..n]), item)
  }

  lemma StillLookedAt(d: Decoder, schedule: seq<Action>, item: Item)
    requires schedule != [] && WasLookedAt(d, schedule[..|schedule| - 1], item)
    ensures WasLookedAt(d, schedule, item)
  {
    var before := schedule[..|schedule| - 1];
    if item != Empty && item != End {
      var n :| 0 <= n < |before| && before[n].Work? && LookedAt(Run(d, before[..n]), item);
      assert before[..n] == schedule[..n] && before[n] == schedule[n];
    }
  }

  /** Where the items come from, one step at a time. */
  lemma ItemsOfAStep(d: Decoder, a: Action)
    ensures var d' := Step(d, a);
            && (d'.frames.pushed == [] || d'.frames.pushed == d.frames.pushed
                || (d.worker.WPush? && d'.frames.pushed == d.frames.pushed + [d.worker.item]))
            && (d'.worker.WPush? && d'.worker != d.worker ==>
                  d'.worker.item == Empty || d'.worker.item == End || (a.Work? && LookedAt(d, d'.worker.item)))
  {
    match a
    case Push(_, _) =>
    case Pop =>
    case Work(_) =>
    case Clear =>
    case Start =>
    case SuggestDiscard(_) =>
    case ClearDiscard =>
  }

  /** Every item on the frame queue, and the one about to be pushed, was looked at, whatever the frames to be discarded
      were before and after. */
  lemma {:induction false} ItemsWereLookedAt(d: Decoder, schedule: seq<Action>)
    requires d.frames.pushed == [] && !d.worker.WPush?
    ensures var r := Run(d, schedule);
            && (forall item :: item in r.frames.pushed ==> WasLookedAt(d, schedule, item))
            && (r.worker.WPush? ==> WasLookedAt(d, schedule, r.worker.item))
    decreases |schedule|
  {
    hide Step, WasLookedAt, LookedAt;
    if schedule != [] {
      var before := schedule[..|schedule| - 1];
      ItemsWereLookedAt(d, before);
      var last := Run(d, before);
      var r := Run(d, schedule);
      ItemsOfAStep(last, schedule[|schedule| - 1]);
      forall item | WasLookedAt(d, before, item)
        ensures WasLookedAt(d, schedule, item)
      {
        StillLookedAt(d, schedule, item);
      }
      if r.worker.WPush? && r.worker != last.worker {
        JustLookedAt(d, schedule, r.worker.item);
      }
    }
  }

  lemma JustLookedAt(d: Decoder, schedule: seq<Action>, item: Item)
    requires schedule != []
    requires item == Empty || item == End ||
             (schedule[|schedule| - 1].Work? && LookedAt(Run(d, schedule[..|schedule| - 1]), item))
    ensures WasLookedAt(d, schedule, item)
  {
  }

  /** As long as the frames to be discarded are the same ones, exactly those come out without a picture. */
  lemma ExactlyTheseAreDiscarded(d: Decoder, schedule: seq<Action>, pts: set<int>, item: Item)
    requires d.frames.pushed == [] && !d.worker.WPush?
    requires forall n :: 0 <= n < |schedule| ==> Run(d, schedule[..n]).discard == pts
    requires item in Run(d, schedule).frames.pushed
    ensures (item.Picture? ==> item.pts !in pts) && (item.Skipped? ==> item.pts in pts)
  {
    ItemsWereLookedAt(d, schedule);
    assert WasLookedAt(d, schedule, item);
  }

  /** The set is emptied: by `ClearDiscardPTS`, or at the end of `Clear`. */
  predicate Clears(d: Decoder, a: Action) {
    a == ClearDiscard || (a == Clear && d.owner == OReset)
  }

  /** The frame has been suggested in the run, and the set not emptied since. */
  ghost predicate WasSuggested(d: Decoder, schedule: seq<Action>, pts: int) {
    exists n :: 0 <= n < |schedule| && SuggestedAt(d, schedule, pts, n)
  }

  ghost predicate SuggestedAt(d: Decoder, schedule: seq<Action>, pts: int, n: nat)
    requires n < |schedule|
  {
    && schedule[n].SuggestDiscard? && pts in schedule[n].pts
    && forall m :: n < m < |schedule| ==> !Clears(Run(d, schedule[..m]), schedule[m])
  }

  lemma DiscardOfAStep(d: Decoder, a: Action, pts: int)
    ensures pts in Step(d, a).discard <==>
            (a.SuggestDiscard? && pts in a.pts) || (pts in d.discard && !Clears(d, a))
  {
    match a
    case Push(_, _) =>
    case Pop =>
    case Work(_) =>
    case Clear =>
    case Start =>
    case SuggestDiscard(_) =>
    case ClearDiscard =>
  }

  lemma SuggestedBefore(d: Decoder, schedule: seq<Action>, pts: int, n: nat)
    requires schedule != [] && n < |schedule| - 1
    ensures SuggestedAt(d, schedule, pts, n) <==>
            && SuggestedAt(d, schedule[..|schedule| - 1], pts, n)
            && !Clears(Run(d, schedule[..|schedule| - 1]), schedule[|schedule| - 1])
  {
    hide Run, Clears;
    var before := schedule[..|schedule| - 1];
    assert forall m :: 0 <= m < |before| ==> before[..m] == schedule[..m] && before[m] == schedule[m];
    if SuggestedAt(d, before, pts, n) && !Clears(Run(d, before), schedule[|schedule| - 1]) {
      forall m | n < m < |schedule|
        ensures !Clears(Run(d, schedule[..m]), schedule[m])
      {
        if m < |before| {
          assert !Clears(Run(d, before[..m]), before[m]);
        }
      }
    }
    if SuggestedAt(d, schedule, pts, n) {
      forall m | n < m < |before|
        ensures !Clears(Run(d, before[..m]), before[m])
      {
        assert !Clears(Run(d, schedule[..m]), schedule[m]);
      }
    }
  }

  /** The frames to be discarded are those suggested since the set was emptied. */
  lemma {:induction false} DiscardedAreSuggested(d: Decoder, schedule: seq<Action>, pts: int)
    requires d.discard == {}
    ensures pts in Run(d, schedule).discard <==> WasSuggested(d, schedule, pts)
    decreases |schedule|
  {
    hide Step, Clears, SuggestedAt;
    if schedule != [] {
      var k := |schedule| - 1;
      var before := schedule[..k];
      DiscardedAreSuggested(d, before, pts);
      DiscardOfAStep(Run(d, before), schedule[k], pts);
      forall n: nat | n < k
        ensures SuggestedAt(d, schedule, pts, n) <==>
                SuggestedAt(d, before, pts, n) && !Clears(Run(d, before), schedule[k])
      {
        SuggestedBefore(d, schedule, pts, n);
      }
      LastSuggested(d, schedule, pts);
    }
  }

  lemma LastSuggested(d: Decoder, schedule: seq<Action>, pts: int)
    requires schedule != []
    ensures var a := schedule[|schedule| - 1];
            SuggestedAt(d, schedule, pts, |schedule| - 1) <==> a.SuggestDiscard? && pts in a.pts
  {
  }

  // ----- What the reader sees -----

  /** The frames decoded and not yet taken, without the empty items and the end markers: the list `ready` of module
      VideoStream. */
  function Ready(d: Decoder): seq<int> {
    if d.frames.taken <= |d.frames.pushed| then Frames(d.frames.pushed[d.frames.taken..]) else []
  }

  lemma {:induction false} FramesConcat(a: seq<Item>, b: seq<Item>)
    ensures Frames(a + b) == Frames(a) + Frames(b)
    decreases |b|
  {
    hide FrameOf;
    if b == [] {
      assert a + b == a;
    } else {
      var n := |b| - 1;
      assert (a + b)[..|a| + n] == a + b[..n];
      FramesConcat(a, b[..n]);
    }
  }

  lemma FramesAround(items: seq<Item>, k: nat)
    requires k < |items|
    ensures Frames(items[k..]) == FrameOf(items[k]) + Frames(items[k + 1..])
  {
    assert items[k..] == [items[k]] + items[k + 1..];
    FramesConcat([items[k]], items[k + 1..]);
    assert Frames([items[k]]) == Frames([items[k]][..0]) + FrameOf(items[k]);
  }

  /** The frame a step takes from the queue, and the one it puts there. */
  function Handed(d: Decoder, a: Action): seq<int> {
    if a.Pop? && d.cons.CWait? && !d.frames.killed && !d.frames.Empty() then FrameOf(d.frames.pushed[d.frames.taken])
    else []
  }

  function Made(d: Decoder, a: Action): seq<int> {
    if a.Work? && d.worker.WPush? then FrameOf(d.worker.item) else []
  }

  /** Every step puts its frame at the end and takes it from the front, and no other step touches them: this is how
      module VideoStream has `Work` add to `ready` and `Pop` take from it. */
  lemma FramesAreAQueue(d: Decoder, a: Action)
    requires Inv(d) && d.live && Step(d, a).live
    ensures Handed(d, a) + Ready(Step(d, a)) == Ready(d) + Made(d, a)
  {
    hide Inv, Step, Frames, FrameOf;
    FrameQueueMoves(d, a);
    if a.Work? && d.worker.WPush? {
      FramesBehind(d.frames.pushed, d.frames.taken, d.worker.item);
    } else if a.Pop? && d.cons.CWait? && !d.frames.killed && !d.frames.Empty() {
      FramesAround(d.frames.pushed, d.frames.taken);
    }
  }

  lemma FramesBehind(items: seq<Item>, k: nat, item: Item)
    requires k <= |items|
    ensures Frames((items + [item])[k..]) == Frames(items[k..]) + FrameOf(item)
  {
    assert (items + [item])[k..] == items[k..] + [item];
    PushedOne(items[k..], item);
  }

  lemma FrameQueueMoves(d: Decoder, a: Action)
    requires Inv(d) && d.live && Step(d, a).live
    ensures d.frames.taken <= |d.frames.pushed|
    ensures var f, f' := d.frames, Step(d, a).frames;
            if a.Work? && d.worker.WPush? then f'.taken == f.taken && f'.pushed == f.pushed + [d.worker.item]
            else if a.Pop? && d.cons.CWait? && !f.killed && !f.Empty() then
              f'.taken == f.taken + 1 && f'.pushed == f.pushed
            else f'.taken == f.taken && f'.pushed == f.pushed
  {
    hide OutputOk, InputOk, TargetsOk, CountOk, WaitOk, Feed;
    match a
    case Push(_, _) =>
    case Pop =>
    case Work(_) =>
    case Clear =>
    case Start =>
    case SuggestDiscard(_) =>
    case ClearDiscard =>
  }

  /** What has been taken, what is ready, and what the worker has in hand are together all that the codec has given
      out. */
  lemma NothingIsDropped(d0: Decoder, schedule: seq<Action>)
    requires Init(d0)
    ensures var d := Run(d0, schedule);
            d.live && d.worker != WDone ==>
              && d.frames.taken <= |d.frames.pushed|
              && Frames(d.frames.pushed[..d.frames.taken]) + Ready(d) + InHand(d.worker) == d.codec.out
  {
    hide Run, Init, Frames, Normals, Ends, InHand, InputOk, TargetsOk, ControlOk, ItemsOk, EndsOk, CodecOk;
    RunKeepsInv(d0, schedule);
    var d := Run(d0, schedule);
    if d.live && d.worker != WDone {
      FramesInTwo(d.frames.pushed, d.frames.taken);
    }
  }

  lemma FramesInTwo(items: seq<Item>, k: nat)
    requires k <= |items|
    ensures Frames(items) == Frames(items[..k]) + Frames(items[k..])
  {
    assert items == items[..k] + items[k..];
    FramesConcat(items[..k], items[k..]);
  }

  // ----- A pop that waits is served -----

  /** The end markers the consumer has taken. */
  function EndsTaken(d: Decoder): nat {
    if d.frames.taken <= |d.frames.pushed| then Ends(d.frames.pushed[..d.frames.taken]) else 0
  }

  predicate Served(d: Decoder) {
    d.frames.killed || !d.frames.Empty()
  }

  predicate Blocked(d: Decoder) {
    || (d.worker.WTake? && d.packets.Empty() && !d.packets.killed)
    || (d.worker.WBuffer? && d.buffers.Empty() && !d.buffers.killed)
  }

  /** The worker, or, when it waits for the rest of a `Push`, the producer. */
  function Helper(d: Decoder, answer: Answer): Action {
    if Blocked(d) then Push(EndOfStream, 0) else Work(answer)
  }

  /** How many steps the worker is from its next push. */
  function StepsToPush(w: WorkerPc): nat {
    match w
    case WPush(_, _) => 1
    case WFrame(_, _, _) => 2
    case WBuffer(_, _) => 3
    case WDrain => 4
    case WTake => 5
    case WLoop => 6
    case WCount(mode) => if mode.Normal? then 7 else if mode.Drain? then 5 else 2
    case WDrained => 7
    case WError => 3
    case WStopRun => 2
    case WUnblock => 1
    case WDone => 0
  }

  function Rank(d: Decoder): nat {
    StepsToPush(d.worker) + (if d.prod.PSend? then 2 else if d.prod.PBuffer? then 1 else 0)
  }

  ghost predicate Waiting(d: Decoder) {
    Inv(d) && d.live && d.cons == CWait && EndsTaken(d) < MARKERS
  }

  /** What a consumer that waits on an empty queue can rely on. */
  lemma WaitingForDrain(d: Decoder)
    requires Waiting(d) && !Served(d)
    ensures d.owner == OOut && !d.packets.killed && !d.buffers.killed && !d.worker.WDone? && !d.worker.WDrained?
    ensures Failed(d.worker) ||
            EndsUnderWay(d.prod, multiset(d.packets.pushed[d.packets.taken..])[EndOfStream], d.worker) == 1
    ensures d.worker.WCount? && d.worker.mode.Marks? ==> d.worker.mode.n + 1 < MARKERS
    ensures d.worker.WLoop? ==> d.flags.run
  {
    assert d.frames.pushed[..d.frames.taken] == d.frames.pushed;
    hide Ends, Frames, Normals;
  }

  /** A blocked worker waits for a `Push` that is under way. */
  lemma BlockedByPush(d: Decoder)
    requires Waiting(d) && !Served(d) && Blocked(d)
    ensures if d.worker.WTake? then d.prod.PSend? else d.prod.PBuffer?
  {
    WaitingForDrain(d);
    NormalsOfPrefix(d.packets.pushed, d.packets.taken);
    assert multiset(d.codec.out) <= multiset(d.codec.sent);
    assert |multiset(d.codec.out)| + |multiset(d.codec.held)| == |multiset(d.codec.sent)|;
  }

  lemma HelperStep(d: Decoder, answer: Answer)
    requires Waiting(d) && !Served(d)
    ensures var d' := Step(d, Helper(d, answer));
            Served(d') || (Waiting(d') && Rank(d') < Rank(d))
  {
    StepKeepsInv(d, Helper(d, answer));
    if Blocked(d) {
      BlockedByPush(d);
      ProducerHelps(d);
    } else {
      WaitingForDrain(d);
      WorkerHelps(d, answer);
    }
  }

  lemma ProducerHelps(d: Decoder)
    requires d.prod.PSend? || d.prod.PBuffer?
    ensures var d' := ProducerStep(d, EndOfStream, 0);
            Rank(d') < Rank(d) && d'.frames == d.frames && d'.cons == d.cons && d'.live == d.live
  {
    match d.prod
    case POut =>
    case PMark(_) =>
    case PSend(_, _) =>
    case PBuffer(_) =>
  }

  lemma WorkerHelps(d: Decoder, answer: Answer)
    requires !Blocked(d) && !d.packets.killed && !d.buffers.killed && !d.worker.WDone? && !d.worker.WDrained?
    requires d.worker.WCount? && d.worker.mode.Marks? ==> d.worker.mode.n + 1 < MARKERS
    requires d.worker.WLoop? ==> d.flags.run
    ensures var d' := WorkerStep(d, answer);
            && d'.cons == d.cons && d'.live == d.live && d'.prod == d.prod
            && if d.worker.WPush? || d.worker.WUnblock? then d.frames.taken <= |d.frames.pushed| ==> Served(d')
               else d'.frames == d.frames && StepsToPush(d'.worker) < StepsToPush(d.worker)
  {
    match d.worker
    case WLoop =>
    case WTake =>
    case WDrain =>
    case WBuffer(_, _) =>
    case WFrame(_, _, _) =>
    case WPush(_, _) =>
    case WCount(mode) =>
    case WDrained =>
    case WError =>
    case WStopRun =>
    case WUnblock =>
    case WDone =>
  }

  /** Nobody else makes the wait longer, or ends it. */
  lemma OthersDoNotInterfere(d: Decoder, a: Action)
    requires Waiting(d) && !Served(d) && !a.Pop? && !a.Work?
    ensures var d' := Step(d, a);
            Waiting(d') && !Served(d') && StepsToPush(d'.worker) == StepsToPush(d.worker)
  {
    StepKeepsInv(d, a);
    WaitingForDrain(d);
    OthersLeaveAlone(d, a);
    hide Inv, Step, Ends, StepsToPush;
  }

  lemma OthersLeaveAlone(d: Decoder, a: Action)
    requires d.owner == OOut && d.cons == CWait && !a.Pop? && !a.Work?
    ensures var d' := Step(d, a);
            d'.worker == d.worker && d'.frames == d.frames && d'.cons == d.cons && d'.live == d.live
  {
    match a
    case Push(_, _) =>
      match d.prod {
        case POut =>
        case PMark(_) =>
        case PSend(_, _) =>
        case PBuffer(_) =>
      }
    case Clear =>
    case Start =>
    case SuggestDiscard(_) =>
    case ClearDiscard =>
  }

  function Help(d: Decoder, answers: seq<Answer>): Decoder
    decreases |answers|
  {
    if answers == [] || Served(d) then d else Help(Step(d, Helper(d, answers[0])), answers[1..])
  }

  /** After the end markers a `Pop` can rely on a packet that is queued or about to be sent, which the codec refuses,
      and on a failure that is under way: either wakes it up. */
  ghost predicate Coming(d: Decoder) {
    !d.packets.Empty() || d.prod.PMark? || d.prod.PSend? || Failed(d.worker)
  }

  ghost predicate Ending(d: Decoder) {
    Inv(d) && d.live && d.cons == CWait && EndsTaken(d) == MARKERS && Coming(d)
  }

  /** How far the worker is from killing the frame queue, once the codec has ended. */
  function StepsToKill(w: WorkerPc): nat {
    match w
    case WCount(_) => 7
    case WDrained => 6
    case WLoop => 5
    case WTake => 4
    case WError => 3
    case WStopRun => 2
    case WUnblock => 1
    case _ => 0
  }

  function EndRank(d: Decoder): nat {
    StepsToKill(d.worker) + (if d.prod.PMark? then 2 else if d.prod.PSend? then 1 else 0)
  }

  /** Where the worker is once it has pushed the last end marker. */
  predicate AfterTheMarkers(w: WorkerPc) {
    w == WCount(Marks(MARKERS - 1)) || w == WDrained || w == WLoop || w == WTake
  }

  lemma EndingFacts(d: Decoder)
    requires Inv(d) && d.live && d.cons == CWait && EndsTaken(d) == MARKERS && !Served(d)
    ensures d.owner == OOut && !d.packets.killed && !d.worker.WDone? && (d.worker.WLoop? ==> d.flags.run)
    ensures d.packets.taken <= |d.packets.pushed|
    ensures !Failed(d.worker) ==>
              && d.codec.ended && d.flags.run
              && AfterTheMarkers(d.worker)
    ensures Blocked(d) && d.prod.PMark? ==> !d.flags.draining
  {
    hide Frames, Normals, Ends;
    assert d.frames.pushed[..d.frames.taken] == d.frames.pushed;
    assert EndsOk(d.worker, d.codec.ended, Ends(d.frames.pushed));
    if d.packets.Empty() {
      assert d.packets.pushed[d.packets.taken..] == [];
    }
  }

  lemma EndingStep(d: Decoder, answer: Answer)
    requires Ending(d) && !Served(d)
    ensures var d' := Step(d, Helper(d, answer));
            !(Helper(d, answer).Push? && d.prod == POut) && (Served(d') || (Ending(d') && EndRank(d') < EndRank(d)))
  {
    hide Inv, Ends, WorkerStep, ProducerStep;
    EndingFacts(d);
    StepKeepsInv(d, Helper(d, answer));
    if Blocked(d) {
      EndingPush(d);
    } else {
      EndingWork(d, answer);
    }
  }

  lemma EndingPush(d: Decoder)
    requires Blocked(d) && d.worker.WTake? && Coming(d) && (d.prod.PMark? ==> !d.flags.draining)
    requires d.packets.taken <= |d.packets.pushed|
    ensures var d' := ProducerStep(d, EndOfStream, 0);
            && EndRank(d') < EndRank(d) && Coming(d') && d.prod != POut
            && d'.frames == d.frames && d'.cons == d.cons && d'.live == d.live
  {
    match d.prod
    case POut =>
    case PMark(_) =>
    case PSend(_, _) =>
    case PBuffer(_) =>
  }

  lemma EndingWork(d: Decoder, answer: Answer)
    requires !Blocked(d) && !d.packets.killed && !d.worker.WDone? && (d.worker.WLoop? ==> d.flags.run) && Coming(d)
    requires !Failed(d.worker) ==>
              && d.codec.ended
              && AfterTheMarkers(d.worker)
    ensures var d' := WorkerStep(d, answer);
            && d'.cons == d.cons && d'.live == d.live
            && (Served(d') || (d'.frames == d.frames && Coming(d') && EndRank(d') < EndRank(d)))
  {
    match d.worker
    case WLoop =>
    case WTake =>
    case WDrain =>
    case WBuffer(_, _) =>
    case WFrame(_, _, _) =>
    case WPush(_, _) =>
    case WCount(mode) =>
    case WDrained =>
    case WError =>
    case WStopRun =>
    case WUnblock =>
    case WDone =>
  }

  /** A `Pop` that has passed its guard gets an item, or is woken up because the worker has failed, within nine steps
      of the worker and of a `Push` under way, whatever the codec answers: as long as not all of the end markers have
      been taken, and then as long as something is coming. */
  lemma PopIsServed(d0: Decoder, schedule: seq<Action>, answers: seq<Answer>)
    requires Init(d0)
    ensures var d := Run(d0, schedule);
            d.live && d.cons == CWait && (EndsTaken(d) < MARKERS || Coming(d)) && |answers| >= 9 ==>
              Served(Help(d, answers))
  {
    hide Run, Inv, Coming, EndsTaken, Rank, EndRank, Help, Served, Init;
    var d := Run(d0, schedule);
    RunKeepsInv(d0, schedule);
    if d.live && d.cons == CWait && (EndsTaken(d) < MARKERS || Coming(d)) && |answers| >= 9 {
      EndsBound(d);
      RankBound(d);
      if EndsTaken(d) < MARKERS {
        HelpServes(d, answers);
      } else {
        HelpServesAtTheEnd(d, answers);
      }
    }
  }

  lemma RankBound(d: Decoder)
    ensures Rank(d) <= 9 && EndRank(d) <= 9
  {
  }

  lemma EndsBound(d: Decoder)
    requires Inv(d) && d.live
    ensures EndsTaken(d) <= MARKERS
  {
    hide Frames, Normals;
    EndsOfPrefix(d.frames.pushed, d.frames.taken);
    assert EndsOk(d.worker, d.codec.ended, Ends(d.frames.pushed));
  }

  lemma {:induction false} EndsOfPrefix(items: seq<Item>, k: nat)
    requires k <= |items|
    ensures Ends(items[..k]) <= Ends(items)
    decreases |items|
  {
    if k < |items| {
      var n := |items| - 1;
      EndsOfPrefix(items[..n], k);
      assert items[..n][..k] == items[..k];
    } else {
      assert items[..k] == items;
    }
  }

  lemma {:induction false} HelpServes(d: Decoder, answers: seq<Answer>)
    requires Waiting(d) && |answers| >= Rank(d)
    ensures Served(Help(d, answers))
    decreases |answers|
  {
    if !Served(d) {
      WaitingForDrain(d);
      HelperStep(d, answers[0]);
      hide Waiting, Served, Step, Helper;
      var d' := Step(d, Helper(d, answers[0]));
      if !Served(d') {
        HelpServes(d', answers[1..]);
      }
      assert Help(d, answers) == Help(d', answers[1..]);
    }
  }

  lemma {:induction false} HelpServesAtTheEnd(d: Decoder, answers: seq<Answer>)
    requires Ending(d) && |answers| >= EndRank(d)
    ensures Served(Help(d, answers))
    decreases |answers|
  {
    hide Ending, Served, Step, Helper, EndRank;
    if !Served(d) {
      EndRankPositive(d);
      EndingStep(d, answers[0]);
      var d' := Step(d, Helper(d, answers[0]));
      if !Served(d') {
        HelpServesAtTheEnd(d', answers[1..]);
      }
      assert Help(d, answers) == Help(d', answers[1..]);
    }
  }

  lemma EndRankPositive(d: Decoder)
    requires Ending(d) && !Served(d)
    ensures EndRank(d) > 0
  {
    hide Inv, EndsTaken, Served, Coming;
    EndingFacts(d);
  }

  ghost predicate CanBeServed(d: Decoder) {
    exists actions :: NoNewPush(d, actions) && Served(Play(d, actions))
  }

  lemma OneMore(d: Decoder, a: Action, rest: seq<Action>)
    requires !(a.Push? && d.prod == POut) && NoNewPush(Step(d, a), rest) && Served(Play(Step(d, a), rest))
    ensures NoNewPush(d, [a] + rest) && Served(Play(d, [a] + rest))
  {
    hide Step, Served;
    assert ([a] + rest)[1..] == rest;
  }

  /** The helpful steps begin no `Push`. */
  lemma {:induction false} WaitingHelp(d: Decoder) returns (actions: seq<Action>)
    requires Waiting(d)
    ensures NoNewPush(d, actions) && Served(Play(d, actions))
    decreases Rank(d)
  {
    hide Waiting, Served, Step, Helper, Rank;
    actions := [];
    if !Served(d) {
      HelperStep(d, Keep);
      HelperIsOnTheWay(d);
      var rest := [];
      if !Served(Step(d, Helper(d, Keep))) {
        rest := WaitingHelp(Step(d, Helper(d, Keep)));
      }
      OneMore(d, Helper(d, Keep), rest);
      actions := [Helper(d, Keep)] + rest;
    }
  }

  lemma {:induction false} EndingHelp(d: Decoder) returns (actions: seq<Action>)
    requires Ending(d)
    ensures NoNewPush(d, actions) && Served(Play(d, actions))
    decreases EndRank(d)
  {
    hide Ending, Served, Step, Helper, EndRank;
    actions := [];
    if !Served(d) {
      EndingStep(d, Keep);
      var rest := [];
      if !Served(Step(d, Helper(d, Keep))) {
        rest := EndingHelp(Step(d, Helper(d, Keep)));
      }
      OneMore(d, Helper(d, Keep), rest);
      actions := [Helper(d, Keep)] + rest;
    }
  }

  lemma HelperIsOnTheWay(d: Decoder)
    requires Waiting(d) && !Served(d)
    ensures !(Helper(d, Keep).Push? && d.prod == POut)
  {
    if Blocked(d) {
      BlockedByPush(d);
    }
    hide Inv;
  }

  /** When all the end markers have been taken, a `Pop` that passed its guard before `draining_` was taken back is
      left waiting: a `Push` under way has sent its packet already, and the worker has taken it. */
  ghost predicate Stranded(d: Decoder) {
    && d.cons == CWait && (d.prod == POut || d.prod.PBuffer?) && d.owner == OOut && d.flags.run
    && !Served(d) && d.packets.Empty() && !d.packets.killed
    && AfterTheMarkers(d.worker)
  }

  /** Only another `Push` can bring it back: nothing the others do changes that. */
  lemma {:induction false} StrandedForGood(d: Decoder, actions: seq<Action>)
    requires Stranded(d) && NoNewPush(d, actions)
    ensures Stranded(Play(d, actions))
    decreases |actions|
  {
    hide Stranded, Step;
    if actions != [] {
      StrandedStep(d, actions[0]);
      StrandedForGood(Step(d, actions[0]), actions[1..]);
    }
  }

  lemma StrandedStep(d: Decoder, a: Action)
    requires Stranded(d) && !(a.Push? && d.prod == POut)
    ensures Stranded(Step(d, a))
  {
    match a
    case Push(_, _) =>
    case Pop =>
    case Work(_) =>
    case Clear =>
    case Start =>
    case SuggestDiscard(_) =>
    case ClearDiscard =>
  }

  lemma NotServedWhenStranded(d: Decoder)
    requires Stranded(d)
    ensures !CanBeServed(d)
  {
    forall actions | NoNewPush(d, actions)
      ensures !Served(Play(d, actions))
    {
      StrandedForGood(d, actions);
    }
  }

  lemma StrandedAtTheEnd(d: Decoder)
    requires Inv(d) && d.live && d.cons == CWait && !Served(d) && EndsTaken(d) == MARKERS && !Coming(d)
    ensures Stranded(d)
  {
    EndingFacts(d);
    hide Inv, Ends;
  }

  /** When a `Pop` that waits can still be served without a new `Push`: if and only if not all end markers have been
      taken, or something is coming after all.  Otherwise it waits for good. */
  lemma ServedExactly(d0: Decoder, schedule: seq<Action>)
    requires Init(d0)
    ensures var d := Run(d0, schedule);
            d.live && d.cons == CWait && !Served(d) ==>
              (CanBeServed(d) <==> EndsTaken(d) < MARKERS || Coming(d)) && (!CanBeServed(d) ==> Stranded(d))
  {
    hide Run, Init, Inv, Served, EndsTaken, Coming, Stranded, CanBeServed;
    RunKeepsInv(d0, schedule);
    var d := Run(d0, schedule);
    if d.live && d.cons == CWait && !Served(d) {
      EndsBound(d);
      if EndsTaken(d) < MARKERS || Coming(d) {
        var actions: seq<Action>;
        if EndsTaken(d) < MARKERS {
          actions := WaitingHelp(d);
        } else {
          actions := EndingHelp(d);
        }
        Reached(d, actions);
      } else {
        StrandedAtTheEnd(d);
        NotServedWhenStranded(d);
      }
    }
  }

  lemma Reached(d: Decoder, actions: seq<Action>)
    requires NoNewPush(d, actions) && Served(Play(d, actions))
    ensures CanBeServed(d)
  {
  }

  function Repeat(n: nat): (r: seq<Item>)
    ensures |r| == n && forall i :: 0 <= i < n ==> r[i] == End
  {
    seq(n, _ => End)
  }

  /** The end of the stream was all that was pushed, and `n` end markers have been pushed and taken. */
  function Marked(n: nat): Decoder {
    Decoder(Flags(true, false, true), 0, {}, Queue([EndOfStream], 1, false), Queue([0], 0, false),
            Queue(Repeat(n), n, false), NEW_CODEC.(ended := true), WPush(End, Marks(n)), POut, COut, OOut, true)
  }

  const FRESH: Decoder :=
    Decoder(Flags(false, false, false), 0, {}, Queue([], 0, false), Queue([], 0, false), Queue([], 0, false),
            NEW_CODEC, WDone, POut, COut, OOut, false)

  /** The end of the stream has been pushed, its buffer not yet. */
  const SENT: Decoder :=
    FRESH.(flags := Flags(true, false, true), packets := Queue([EndOfStream], 0, false), prod := PBuffer(0),
           worker := WLoop, live := true)

  lemma EndIsSent()
    ensures var push := Push(EndOfStream, 0); Play(FRESH, [Start, push, push, push]) == SENT
  {
    var push := Push(EndOfStream, 0);
    PlayFour(FRESH, Start, push, push, push);
    assert Step(Step(Step(FRESH, Start), push), push).prod == PSend(EndOfStream, 0);
  }

  lemma EndIsTaken()
    ensures Play(SENT, [Push(EndOfStream, 0), Work(Keep), Work(Keep), Work(Keep)]) == Marked(0)
  {
    PlayFour(SENT, Push(EndOfStream, 0), Work(Keep), Work(Keep), Work(Keep));
    assert Step(Step(SENT, Push(EndOfStream, 0)), Work(Keep)).worker == WTake;
    assert Repeat(0) == [];
  }

  lemma DrainStarts() returns (schedule: seq<Action>)
    ensures Run(FRESH, schedule) == Marked(0)
  {
    hide Step, Play;
    var push := Push(EndOfStream, 0);
    var first, second := [Start, push, push, push], [push, Work(Keep), Work(Keep), Work(Keep)];
    RunThenPlay(FRESH, [], first);
    assert [] + first == first && Run(FRESH, []) == FRESH;
    EndIsSent();
    RunThenPlay(FRESH, first, second);
    EndIsTaken();
    schedule := first + second;
  }

  /** An end marker has been pushed and counted, and a `Pop` has passed its guard. */
  function Marking(n: nat): Decoder {
    Marked(n).(frames := Queue(Repeat(n + 1), n, false), frameCount := 1, cons := CWait,
               worker := WPush(End, Marks(n + 1)))
  }

  lemma MarkerPushed(n: nat)
    requires n + 1 < MARKERS
    ensures Play(Marked(n), [Work(Keep), Work(Keep), Pop, Pop]) == Marking(n)
  {
    PlayFour(Marked(n), Work(Keep), Work(Keep), Pop, Pop);
    assert Repeat(n) + [End] == Repeat(n + 1);
  }

  lemma MarkerTaken(n: nat)
    requires n + 1 < MARKERS
    ensures Play(Marking(n), [Pop, Pop, Pop, Start]) == Marked(n + 1)  // `Start` changes nothing
  {
    PlayFour(Marking(n), Pop, Pop, Pop, Start);
  }

  lemma {:induction false} MarkersTaken(n: nat) returns (schedule: seq<Action>)
    requires n < MARKERS
    ensures Run(FRESH, schedule) == Marked(n)
  {
    hide Step, Play, Marking, Marked;
    if n == 0 {
      schedule := DrainStarts();
    } else {
      var before := MarkersTaken(n - 1);
      var push, take := [Work(Keep), Work(Keep), Pop, Pop], [Pop, Pop, Pop, Start];
      RunThenPlay(FRESH, before, push);
      MarkerPushed(n - 1);
      RunThenPlay(FRESH, before + push, take);
      MarkerTaken(n - 1);
      schedule := before + push + take;
    }
  }

  /** The last end marker has been pushed but not counted, and taken but not counted. */
  function LastTaken(): Decoder {
    Marked(MARKERS - 1).(frames := Queue(Repeat(MARKERS), MARKERS, false), cons := CCheck,
                         worker := WCount(Marks(MARKERS - 1)))
  }

  lemma LastMarker()
    ensures Play(Marked(MARKERS - 1), [Work(Keep), Pop, Pop, Pop]) == LastTaken().(
              frames := Queue(Repeat(MARKERS), MARKERS - 1, false), cons := CWait)
    ensures Play(LastTaken().(frames := Queue(Repeat(MARKERS), MARKERS - 1, false), cons := CWait),
                 [Pop, Pop, Pop, Pop]) == LastTaken().(frameCount := -1, cons := CCount)
  {
    PlayFour(Marked(MARKERS - 1), Work(Keep), Pop, Pop, Pop);
    assert Repeat(MARKERS - 1) + [End] == Repeat(MARKERS);
    PlayFour(LastTaken().(frames := Queue(Repeat(MARKERS), MARKERS - 1, false), cons := CWait), Pop, Pop, Pop, Pop);
  }

  lemma OneTooMany()
    ensures var d := Play(LastTaken().(frameCount := -1, cons := CCount), [Pop]);
            Stranded(d) && EndsTaken(d) == MARKERS
  {
    var d := Play(LastTaken().(frameCount := -1, cons := CCount), [Pop]);
    assert d == Step(LastTaken().(frameCount := -1, cons := CCount), Pop);
    EndsOfRepeat(MARKERS);
    assert Repeat(MARKERS)[..MARKERS] == Repeat(MARKERS);
  }

  /** A `Pop` too many, begun before the worker has taken `draining_` back, passes its guard and waits for good. */
  lemma PopCanBeStranded() returns (schedule: seq<Action>)
    ensures Init(FRESH) && Stranded(Run(FRESH, schedule)) && EndsTaken(Run(FRESH, schedule)) == MARKERS
    ensures !CanBeServed(Run(FRESH, schedule))
  {
    hide Step, Play, Stranded, EndsTaken, LastTaken, Marked, CanBeServed;
    var before := MarkersTaken(MARKERS - 1);
    var push, take := [Work(Keep), Pop, Pop, Pop], [Pop, Pop, Pop, Pop];
    LastMarker();
    RunThenPlay(FRESH, before, push);
    RunThenPlay(FRESH, before + push, take);
    RunThenPlay(FRESH, before + push + take, [Pop]);
    OneTooMany();
    schedule := before + push + take + [Pop];
    NotServedWhenStranded(Run(FRESH, schedule));
  }

  lemma {:induction false} EndsOfRepeat(n: nat)
    ensures Ends(Repeat(n)) == n
  {
    if n > 0 {
      EndsOfRepeat(n - 1);
      assert Repeat(n)[..n - 1] == Repeat(n - 1);
    }
  }

  /** A `Pop` that is served returns within three steps of its own: with nothing when the queue has been killed, and
      otherwise having taken the first item and, unless there is an error, counted it. */
  lemma ServedPopReturns(d: Decoder)
    requires d.cons == CWait && Served(d)
    ensures var d1 := ConsumerStep(d);
            var d3 := ConsumerStep(ConsumerStep(d1));
            if d.frames.killed then d1 == d.(cons := COut)
            else if d.flags.error then ConsumerStep(d1) == d.(cons := COut, frames := d.frames.Take())
            else d3 == d.(cons := COut, frames := d.frames.Take(), frameCount := d.frameCount - 1)
  {
  }

  // ----- Clear -----

  /** `n` steps of the owner alone. */
  function OwnerAlone(d: Decoder, n: nat): Decoder
    decreases n
  {
    if n == 0 then d else OwnerAlone(OwnerStep(d), n - 1)
  }

  /** Up to the join `Clear` does not wait: it takes back `run_` and wakes everybody, if the worker was running. */
  lemma ClearStops(d: Decoder)
    requires d.owner == OOut && d.prod == POut && d.cons == COut
    ensures if d.flags.run then
              OwnerAlone(d, 6) == d.(owner := OJoin, flags := d.flags.(run := false), packets := d.packets.Kill(),
                                     buffers := d.buffers.Kill(), frames := d.frames.Kill())
            else OwnerAlone(d, 2) == d.(owner := OJoin)
  {
    hide OwnerStep;
    var d1 := d.(owner := ORunning);
    FirstOwnerSteps(d);
    if d.flags.run {
      var d3 := d.(owner := OKillBuffers, packets := d.packets.Kill());
      var d5 := d.(owner := OKillFrames, packets := d.packets.Kill(), buffers := d.buffers.Kill(),
                   flags := d.flags.(run := false));
      OtherOwnerSteps(d);
      assert OwnerAlone(d, 6) == OwnerAlone(d1, 5) == OwnerAlone(OwnerStep(d1), 4) == OwnerAlone(d3, 3);
      assert OwnerAlone(d3, 3) == OwnerAlone(OwnerStep(d3), 2) == OwnerAlone(d5, 1) == OwnerStep(d5);
    } else {
      assert OwnerAlone(d, 2) == OwnerAlone(d1, 1) == OwnerStep(d1);
    }
  }

  lemma FirstOwnerSteps(d: Decoder)
    requires d.owner == OOut && d.prod == POut && d.cons == COut
    ensures OwnerStep(d) == d.(owner := ORunning)
    ensures OwnerStep(d.(owner := ORunning)) == d.(owner := if d.flags.run then OKillPackets else OJoin)
  {
  }

  lemma OtherOwnerSteps(d: Decoder)
    ensures OwnerStep(d.(owner := OKillPackets)) == d.(owner := OKillBuffers, packets := d.packets.Kill())
    ensures var d3 := d.(owner := OKillBuffers, packets := d.packets.Kill());
            OwnerStep(d3) == d3.(owner := OStopRun, buffers := d.buffers.Kill())
    ensures var d4 := d.(owner := OStopRun, packets := d.packets.Kill(), buffers := d.buffers.Kill());
            OwnerStep(d4) == d4.(owner := OKillFrames, flags := d.flags.(run := false))
    ensures var d5 := d.(owner := OKillFrames, packets := d.packets.Kill(), buffers := d.buffers.Kill(),
                         flags := d.flags.(run := false));
            OwnerStep(d5) == d5.(owner := OJoin, frames := d.frames.Kill())
  {
  }

  /** How many steps the worker can still make once everything it may wait for has been killed. */
  function StepsToExit(w: WorkerPc): int {
    match w
    case WDone => 0
    case WUnblock => 1
    case WStopRun => 2
    case WError => 3
    case WLoop => 1
    case WTake => 1
    case WBuffer(_, _) => 1
    case WDrained => 2
    case WDrain => 5 + 2 * MARKERS
    case WFrame(_, _, mode) => if mode.Normal? then 4 else 8 + 2 * MARKERS
    case WPush(_, mode) =>
      if mode.Normal? then 3 else if mode.Drain? then 7 + 2 * MARKERS else 4 + 2 * (MARKERS - mode.n)
    case WCount(mode) =>
      if mode.Normal? then 2 else if mode.Drain? then 6 + 2 * MARKERS else 3 + 2 * (MARKERS - mode.n)
  }

  lemma ExitStep(d: Decoder, answer: Answer)
    requires Inv(d) && d.live && d.owner == OJoin
    ensures var d' := WorkerStep(d, answer);
            && Inv(d') && d'.live && d'.owner == OJoin
            && (d.worker == WDone || StepsToExit(d'.worker) < StepsToExit(d.worker))
  {
    WorkerKeepsInv(d, answer);
    WorkerLeavesAlone(d, answer);
    assert EndsOk(d.worker, d.codec.ended, Ends(d.frames.pushed));
    if d.worker != WDone {
      ExitNearer(d, answer);
    }
  }

  lemma ExitNearer(d: Decoder, answer: Answer)
    requires ControlOk(d.owner, d.flags, d.packets.killed, d.buffers.killed, d.frames.killed, d.worker)
    requires d.owner == OJoin && d.worker != WDone
    requires d.worker.WCount? && d.worker.mode.Marks? ==> d.worker.mode.n < MARKERS
    ensures StepsToExit(WorkerStep(d, answer).worker) < StepsToExit(d.worker)
  {
    match d.worker
    case WLoop =>
    case WTake =>
    case WDrain =>
    case WBuffer(_, _) =>
    case WFrame(_, _, _) =>
    case WPush(_, _) =>
    case WCount(_) =>
    case WDrained =>
    case WError =>
    case WStopRun =>
    case WUnblock =>
    case WDone =>
  }

  lemma ExitBound(d: Decoder)
    requires Inv(d) && d.live
    ensures 0 <= StepsToExit(d.worker) <= 8 + 2 * MARKERS
    ensures StepsToExit(d.worker) == 0 ==> d.worker == WDone
  {
    assert EndsOk(d.worker, d.codec.ended, Ends(d.frames.pushed));
  }

  function Exit(d: Decoder, answers: seq<Answer>): Decoder
    decreases |answers|
  {
    if answers == [] then d else Exit(WorkerStep(d, answers[0]), answers[1..])
  }

  lemma {:induction false} WorkerExits(d: Decoder, answers: seq<Answer>)
    requires Inv(d) && d.live && d.owner == OJoin && |answers| >= StepsToExit(d.worker)
    ensures var d' := Exit(d, answers);
            d'.worker == WDone && d'.owner == OJoin && Inv(d') && d'.live
    decreases |answers|
  {
    hide Inv, WorkerStep, StepsToExit;
    ExitBound(d);
    if answers != [] {
      ExitStep(d, answers[0]);
      StaysOut(d, answers[0]);
      WorkerExits(WorkerStep(d, answers[0]), answers[1..]);
    }
  }

  lemma StaysOut(d: Decoder, answer: Answer)
    ensures d.worker == WDone ==> WorkerStep(d, answer) == d && StepsToExit(d.worker) == 0
  {
  }

  /** `Clear` does not wait for ever: once it has killed the queues the worker comes to its end, whatever the codec
      still has and answers, and two more steps leave a decoder that knows nothing of what was pushed. */
  lemma ClearReturns(d0: Decoder, schedule: seq<Action>, answers: seq<Answer>)
    requires Init(d0)
    ensures var d := Run(d0, schedule);
            d.live && d.owner == OJoin && |answers| >= 8 + 2 * MARKERS ==> Init(OwnerStep(OwnerStep(Exit(d, answers))))
  {
    hide Init, Inv, OwnerStep;
    RunKeepsInv(d0, schedule);
    var d := Run(d0, schedule);
    if d.live && d.owner == OJoin && |answers| >= 8 + 2 * MARKERS {
      ExitBound(d);
      WorkerExits(d, answers);
      JoinedIsReset(Exit(d, answers));
    }
  }

  lemma {:induction false} OwnerAloneKeepsInv(d: Decoder, n: nat)
    requires Inv(d)
    ensures Inv(OwnerAlone(d, n))
    decreases n
  {
    hide Inv, OwnerStep;
    if n > 0 {
      OwnerKeepsInv(d);
      OwnerAloneKeepsInv(OwnerStep(d), n - 1);
    }
  }

  /** The whole of `Clear`, from any reachable state in which it can be called: it stops the worker, waits for it, and
      leaves a decoder like a new one. */
  lemma ClearCompletes(d0: Decoder, schedule: seq<Action>, answers: seq<Answer>)
    requires Init(d0)
    ensures var d := Run(d0, schedule);
            d.live && d.owner == OOut && d.prod == POut && d.cons == COut && |answers| >= 8 + 2 * MARKERS ==>
              Init(OwnerStep(OwnerStep(Exit(OwnerAlone(d, if d.flags.run then 6 else 2), answers))))
  {
    hide Run, Init, Inv, OwnerStep, OwnerAlone, Exit;
    RunKeepsInv(d0, schedule);
    var d := Run(d0, schedule);
    if d.live && d.owner == OOut && d.prod == POut && d.cons == COut && |answers| >= 8 + 2 * MARKERS {
      var n := if d.flags.run then 6 else 2;
      ClearStops(d);
      OwnerAloneKeepsInv(d, n);
      var joined := OwnerAlone(d, n);
      ExitBound(joined);
      WorkerExits(joined, answers);
      JoinedIsReset(Exit(joined, answers));
    }
  }

  lemma JoinedIsReset(d: Decoder)
    requires Inv(d) && d.live && d.owner == OJoin && d.worker == WDone
    ensures Init(OwnerStep(OwnerStep(d)))
  {
  }
}
