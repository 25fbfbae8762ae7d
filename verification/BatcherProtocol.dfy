/**
 The result batcher as a protocol of threads. A step is one critical section:
 either under the batcher's own lock (`lock` names its holder between steps) or
 under the lock of one batch. Threads carry batches they looked up earlier, so a
 batch may have left the deque by the time it is used.
 */
module BatcherProtocol {
  import opened CaptureTypes
  import opened InflightBatchModel
  import opened InflightBatchProofs

  type Thread = nat

  datatype Pc =
    | Idle
    | Looked(event: Event, batch: Option<nat>)  // batch found by getBatch, its lock not yet taken
    | Checking                                  // about to call checkAndRemoveFirstBatch
    | Popping                                   // holds the lock, front batch marked removed
    | ErrorFound(err: NotifyMsg, at: nat, head: int)  // getBatch answered `at`, with this Head; the lock not yet taken
    | ErrorUnbatched(err: NotifyMsg)            // getBatch found none; about to send the error
    | Flushing(err: NotifyMsg, left: nat)       // holds the lock, `left` batches still to flush
    | FlushPopping(err: NotifyMsg, left: nat)   // holds the lock, front batch flushed and marked

  datatype State = State(
    batches: seq<Batch>,  // every batch ever registered, in registration order
    deque: seq<nat>,      // indices into `batches`
    lock: Option<Thread>,
    pcs: map<Thread, Pc>,
    streams: seq<int>,    // the streams to batch
    numPartial: nat,
    log: seq<CallbackCall>,
    acted: seq<Event>)    // what the HAL sent up, in the order it was handled
  {
    function PcOf(t: Thread): Pc {
      if t in pcs then pcs[t] else Idle
    }

    predicate LockFree() {
      lock.None?
    }
  }

  datatype Step =
    | Register(frameNumber: nat, batchSize: nat)
    | SetStreams(ids: seq<int>)
    | Lookup(t: Thread, event: Event)
    | Act(t: Thread)
    | Mark(t: Thread)
    | Pop(t: Thread)
    | LookupError(t: Thread, err: NotifyMsg)
    | SendError(t: Thread)
    | BeginError(t: Thread)
    | FlushFront(t: Thread)
    | PopFlushed(t: Thread)
    | EndError(t: Thread)

  // ---- looking up a batch ----

  predicate DequeOk(batches: seq<Batch>, deque: seq<nat>) {
    forall i :: 0 <= i < |deque| ==> deque[i] < |batches|
  }

  function FirstContaining(batches: seq<Batch>, deque: seq<nat>, frame: nat, from: nat): Option<nat>
    requires DequeOk(batches, deque) && from <= |deque|
    decreases |deque| - from
  {
    if from == |deque| then None
    else if batches[deque[from]].Contains(frame) then Some(from)
    else FirstContaining(batches, deque, frame, from + 1)
  }

  /** The position in the deque of the batch holding `frame`, after the min/max shortcut. */
  function GetBatch(batches: seq<Batch>, deque: seq<nat>, frame: nat): Option<nat>
    requires DequeOk(batches, deque)
  {
    if deque == [] then None
    else if frame < batches[deque[0]].firstFrame || frame > batches[deque[|deque| - 1]].lastFrame then None
    else FirstContaining(batches, deque, frame, 0)
  }

  function Found(st: State, frame: nat): Option<nat>
    requires DequeOk(st.batches, st.deque)
  {
    match GetBatch(st.batches, st.deque, frame)
    case None => None
    case Some(i) => if i < |st.deque| then Some(st.deque[i]) else None
  }

  lemma GetBatchInRange(st: State, frame: nat)
    requires DequeOk(st.batches, st.deque)
    ensures GetBatch(st.batches, st.deque, frame).Some? ==> GetBatch(st.batches, st.deque, frame).value < |st.deque|
  {
    FirstContainingInRange(st, frame, 0);
  }

  lemma {:induction false} FirstContainingInRange(st: State, frame: nat, from: nat)
    requires DequeOk(st.batches, st.deque) && from <= |st.deque|
    ensures var r := FirstContaining(st.batches, st.deque, frame, from); r.Some? ==> r.value < |st.deque|
    decreases |st.deque| - from
  {
    if from < |st.deque| {
      FirstContainingInRange(st, frame, from + 1);
    }
  }

  /** How many registered batches have left the deque, which is where its front stands. */
  function Head(st: State): int {
    |st.batches| - |st.deque|
  }

  // ---- when the program can take a step ----

  predicate Enabled(st: State, step: Step) {
    && DequeOk(st.batches, st.deque)
    && match step
       case Register(_, n) => st.LockFree() && n > 0
       case SetStreams(_) => st.LockFree()
       case Lookup(t, _) => st.PcOf(t).Idle? && st.LockFree()
       case Act(t) => st.PcOf(t).Looked? && (st.PcOf(t).batch.Some? ==> st.PcOf(t).batch.value < |st.batches|)
       case Mark(t) => st.PcOf(t).Checking? && st.LockFree()
       case Pop(t) => st.PcOf(t).Popping? && st.deque != []
       case LookupError(t, _) => st.PcOf(t).Idle? && st.LockFree()
       case SendError(t) => st.PcOf(t).ErrorUnbatched?
       case BeginError(t) => st.PcOf(t).ErrorFound? && st.LockFree()
       case FlushFront(t) => st.PcOf(t).Flushing? && st.PcOf(t).left > 0 && st.deque != []
       case PopFlushed(t) => st.PcOf(t).FlushPopping? && st.deque != []
       case EndError(t) => st.PcOf(t).Flushing? && st.PcOf(t).left == 0
  }

  // ---- the steps ----

  /** Sending an event straight up, unbatched. */
  function Direct(ev: Event): CallbackCall {
    match ev
    case ShutterEvent(m) => Notified([m])
    case ResultEvent(r) => Results([r], true)
  }

  function Queue(b: Batch, ev: Event): Outcome {
    match ev
    case ShutterEvent(m) => QueueShutter(b, m)
    case ResultEvent(r) => QueueResult(b, r)
  }

  function ActOn(st: State, t: Thread): State
    requires Enabled(st, Act(t))
  {
    var pc := st.PcOf(t);
    var ev := pc.event;
    if pc.batch.None? || st.batches[pc.batch.value].removed then
      st.(pcs := st.pcs[t := Idle], log := st.log + [Direct(ev)], acted := st.acted + [ev])
    else
      var id := pc.batch.value;
      var o := Queue(st.batches[id], ev);
      var next := if ev.Frame() == st.batches[id].lastFrame then Checking else Idle;
      st.(pcs := st.pcs[t := next], batches := st.batches[id := o.batch],
          log := st.log + o.calls, acted := st.acted + [ev])
  }

  function MarkOn(st: State, t: Thread): State
    requires Enabled(st, Mark(t))
  {
    if st.deque != [] && AllDelivered(st.batches[st.deque[0]]) then
      var id := st.deque[0];
      st.(pcs := st.pcs[t := Popping], lock := Some(t), batches := st.batches[id := st.batches[id].(removed := true)])
    else st.(pcs := st.pcs[t := Idle])
  }

  function PopOn(st: State, t: Thread): State
    requires Enabled(st, Pop(t))
  {
    st.(pcs := st.pcs[t := Idle], lock := None, deque := st.deque[1..])
  }

  function LookupErrorOn(st: State, t: Thread, err: NotifyMsg): State
    requires Enabled(st, LookupError(t, err))
  {
    var at := GetBatch(st.batches, st.deque, err.frameNumber);
    st.(pcs := st.pcs[t := if at.None? then ErrorUnbatched(err) else ErrorFound(err, at.value, Head(st))])
  }

  function SendErrorOn(st: State, t: Thread): State
    requires Enabled(st, SendError(t))
  {
    st.(pcs := st.pcs[t := Idle], log := st.log + [Notified([st.PcOf(t).err])])
  }

  function BeginErrorOn(st: State, t: Thread): State
    requires Enabled(st, BeginError(t))
  {
    st.(pcs := st.pcs[t := Flushing(st.PcOf(t).err, st.PcOf(t).at + 1)], lock := Some(t))
  }

  function FlushFrontOn(st: State, t: Thread): State
    requires Enabled(st, FlushFront(t))
  {
    var pc := st.PcOf(t);
    var id := st.deque[0];
    var o := Flush(st.batches[id], st.streams, st.numPartial);
    st.(pcs := st.pcs[t := FlushPopping(pc.err, pc.left - 1)], batches := st.batches[id := o.batch],
        log := st.log + o.calls)
  }

  function PopFlushedOn(st: State, t: Thread): State
    requires Enabled(st, PopFlushed(t))
  {
    st.(pcs := st.pcs[t := Flushing(st.PcOf(t).err, st.PcOf(t).left)], deque := st.deque[1..])
  }

  function EndErrorOn(st: State, t: Thread): State
    requires Enabled(st, EndError(t))
  {
    st.(pcs := st.pcs[t := Idle], lock := None, log := st.log + [Notified([st.PcOf(t).err])])
  }

  function Apply(st: State, step: Step): State
    requires Enabled(st, step)
  {
    match step
    case Register(f, n) =>
      st.(batches := st.batches + [NewBatch(f, n, st.streams, st.numPartial)], deque := st.deque + [|st.batches|])
    case SetStreams(ids) => st.(streams := ids)
    case Lookup(t, ev) => st.(pcs := st.pcs[t := Looked(ev, Found(st, ev.Frame()))])
    case Act(t) => ActOn(st, t)
    case Mark(t) => MarkOn(st, t)
    case Pop(t) => PopOn(st, t)
    case LookupError(t, err) => LookupErrorOn(st, t, err)
    case SendError(t) => SendErrorOn(st, t)
    case BeginError(t) => BeginErrorOn(st, t)
    case FlushFront(t) => FlushFrontOn(st, t)
    case PopFlushed(t) => PopFlushedOn(st, t)
    case EndError(t) => EndErrorOn(st, t)
  }

  // ---- what the HAL and the framework promise ----

  predicate Returns(ev: Event, s: int) {
    ev.ResultEvent? && BuffersOf(ev.result.outputBuffers, s) != []
  }

  ghost predicate HasReturned(acted: seq<Event>, s: int, frame: int) {
    exists i :: 0 <= i < |acted| && Returns(acted[i], s) && acted[i].Frame() == frame
  }

  predicate LastShutter(ev: Event, b: Batch) {
    ev.ShutterEvent? && ev.msg.frameNumber == b.lastFrame
  }

  predicate LastResult(ev: Event, b: Batch) {
    ev.ResultEvent? && ev.result.frameNumber == b.lastFrame
  }

  /** Buffer of frame `frame` on stream `s`: one per result, in frame order, none skipped inside a batch. */
  ghost predicate BufferInOrder(st: State, frame: nat, s: int) {
    && (forall i :: 0 <= i < |st.acted| && Returns(st.acted[i], s) ==> st.acted[i].Frame() < frame)
    && (forall id: nat, f: nat ::
          id < |st.batches| && s in st.batches[id].bufs && st.batches[id].Contains(f) && f < frame ==>
            HasReturned(st.acted, s, f))
  }

  /** No metadata of partial index <= p comes after the last frame's result p. */
  ghost predicate MetadataInOrder(st: State, r: CaptureResult) {
    forall id: nat :: id < |st.batches| && st.batches[id].Contains(r.frameNumber) ==>
      && 0 < r.partialResult <= st.numPartial
      && forall i :: 0 <= i < |st.acted| && LastResult(st.acted[i], st.batches[id]) ==>
           st.acted[i].result.partialResult < r.partialResult
  }

  /** No shutter of a batch comes after the shutter of its last frame. */
  ghost predicate ShutterInOrder(st: State, frame: nat) {
    forall id: nat, i :: id < |st.batches| && st.batches[id].Contains(frame) && 0 <= i < |st.acted| ==>
      !LastShutter(st.acted[i], st.batches[id])
  }

  ghost predicate HalInOrder(st: State, ev: Event) {
    match ev
    case ShutterEvent(m) => ShutterInOrder(st, m.frameNumber)
    case ResultEvent(r) =>
      && (forall s :: s in st.streams ==>
            |BuffersOf(r.outputBuffers, s)| <= 1
            && (BuffersOf(r.outputBuffers, s) != [] ==> BufferInOrder(st, r.frameNumber, s)))
      && (r.metadata != [] ==> MetadataInOrder(st, r))
  }

  /** Batches are contiguous, increasing, and registered before anything of theirs arrives. */
  ghost predicate FreshBatch(st: State, f: nat, n: nat) {
    && f + n <= UINT32_LIMIT
    && (forall id :: 0 <= id < |st.batches| ==> st.batches[id].lastFrame < f)
    && (forall i :: 0 <= i < |st.acted| ==> !(f <= st.acted[i].Frame() < f + n))
    && (forall t :: t in st.pcs && st.pcs[t].Looked? ==> !(f <= st.pcs[t].event.Frame() < f + n))
  }

  ghost predicate Promised(st: State, step: Step) {
    match step
    case Register(f, n) => FreshBatch(st, f, n)
    case SetStreams(ids) => st.deque == [] && Distinct(ids)
    case Lookup(_, ev) => ev.ShutterEvent? ==> ev.msg.Shutter?
    case Act(t) => st.PcOf(t).Looked? ==> HalInOrder(st, st.PcOf(t).event)
    case LookupError(_, err) => err.Error?
    case BeginError(t) => st.PcOf(t).ErrorFound? ==> Head(st) == st.PcOf(t).head
    case _ => true
  }

  ghost predicate CanStep(st: State, step: Step) {
    Enabled(st, step) && Promised(st, step)
  }

  function Init(numPartial: nat): State {
    State([], [], None, map[], [], numPartial, [], [])
  }

  ghost predicate ValidRun(st: State, steps: seq<Step>)
    decreases |steps|
  {
    steps == [] || (CanStep(st, steps[0]) && ValidRun(Apply(st, steps[0]), steps[1..]))
  }

  ghost function Exec(st: State, steps: seq<Step>): State
    requires ValidRun(st, steps)
    decreases |steps|
  {
    if steps == [] then st else Exec(Apply(st, steps[0]), steps[1..])
  }
}
