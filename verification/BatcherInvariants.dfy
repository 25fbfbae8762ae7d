/**
 What every run of the batcher keeps: the deque is the tail of the registration
 order, its frame intervals are increasing and disjoint, a batch is in it exactly
 when it is not marked removed, and a removed batch holds nothing back and never
 changes again.
 */
module BatcherInvariants {
  import opened CaptureTypes
  import opened InflightBatchModel
  import opened InflightBatchProofs
  import opened BatcherProtocol

  // ---- the invariant ----

  /** The deque lists the last |deque| registered batches, oldest first. */
  ghost predicate DequeIsTail(st: State) {
    && |st.deque| <= |st.batches|
    && forall i :: 0 <= i < |st.deque| ==> st.deque[i] == |st.batches| - |st.deque| + i
  }

  ghost predicate Intervals(batches: seq<Batch>) {
    && (forall i :: 0 <= i < |batches| ==> batches[i].firstFrame <= batches[i].lastFrame < UINT32_LIMIT)
    && (forall i, j :: 0 <= i < j < |batches| ==> batches[i].lastFrame < batches[j].firstFrame)
  }

  predicate HoldsLock(pc: Pc) {
    pc.Popping? || pc.Flushing? || pc.FlushPopping?
  }

  /** The lock holder has marked the front batch and not yet popped it. */
  predicate FrontMarked(st: State) {
    st.lock.Some? && (st.PcOf(st.lock.value).Popping? || st.PcOf(st.lock.value).FlushPopping?)
  }

  ghost predicate RemovedFlags(st: State) {
    && (FrontMarked(st) ==> st.deque != [])
    && forall id :: 0 <= id < |st.batches| ==>
         (st.batches[id].removed <==> id < Head(st) || (id == Head(st) && FrontMarked(st)))
  }

  ghost predicate LookedOk(batches: seq<Batch>, ev: Event, batch: Option<nat>) {
    && (ev.ShutterEvent? ==> ev.msg.Shutter?)
    && (batch.Some? ==> batch.value < |batches| && batches[batch.value].Contains(ev.Frame()))
    && (batch.None? ==>
          forall id :: 0 <= id < |batches| && batches[id].Contains(ev.Frame()) ==> batches[id].removed)
  }

  /** An error's lookup counted the batches that start no later than its frame; the last of them contains it. */
  ghost predicate FoundOk(batches: seq<Batch>, err: NotifyMsg, at: nat, head: int) {
    && err.Error? && 0 <= head && head + at < |batches| && batches[head + at].Contains(err.frameNumber)
    && forall id :: 0 <= id < |batches| ==> (batches[id].firstFrame <= err.frameNumber <==> id <= head + at)
  }

  ghost predicate PcOk(st: State, t: Thread) {
    match st.PcOf(t)
    case Looked(ev, b) => LookedOk(st.batches, ev, b)
    case ErrorUnbatched(err) => err.Error?
    case ErrorFound(err, at, head) => FoundOk(st.batches, err, at, head)
    case Flushing(err, left) => left <= |st.deque| && UpTo(st, err, Head(st) + left)
    case FlushPopping(err, left) => left < |st.deque| && UpTo(st, err, Head(st) + 1 + left)
    case _ => true
  }

  /** The batches still in the deque that start no later than the failing frame are those before `bound`. */
  ghost predicate UpTo(st: State, err: NotifyMsg, bound: int) {
    && err.Error?
    && forall id :: Head(st) <= id < |st.batches| ==>
         (0 <= id && (st.batches[id].firstFrame <= err.frameNumber <==> id < bound))
  }

  ghost predicate Threads(st: State) {
    && (forall t: Thread :: HoldsLock(st.PcOf(t)) <==> st.lock == Some(t))
    && (forall t: Thread :: PcOk(st, t))
  }

  ghost predicate Drained(b: Batch) {
    forall c :: QueuedItems(b, c) == []
  }

  ghost predicate Contents(st: State) {
    && Distinct(st.streams)
    && forall id :: 0 <= id < |st.batches| ==>
         if st.batches[id].removed then Drained(st.batches[id])
         else BatchInv(st.batches[id], st.streams, st.numPartial)
  }

  ghost predicate Shape(st: State) {
    DequeIsTail(st) && Intervals(st.batches) && RemovedFlags(st) && Threads(st)
  }

  // ---- the deque and getBatch ----

  lemma {:induction false} FirstContainingIs(batches: seq<Batch>, deque: seq<nat>, frame: nat, from: nat)
    requires DequeOk(batches, deque) && from <= |deque|
    ensures match FirstContaining(batches, deque, frame, from)
            case None => forall j :: from <= j < |deque| ==> !batches[deque[j]].Contains(frame)
            case Some(i) =>
              && from <= i < |deque| && batches[deque[i]].Contains(frame)
              && forall j :: from <= j < i ==> !batches[deque[j]].Contains(frame)
    decreases |deque| - from
  {
    if from < |deque| && !batches[deque[from]].Contains(frame) {
      FirstContainingIs(batches, deque, frame, from + 1);
    }
  }

  /**
   getBatch is exact: it answers with position i precisely when the i-th batch of
   the deque contains the frame, and at most one does; it answers NOT_BATCHED
   precisely when none does, so the min/max shortcut loses nothing.
   */
  lemma GetBatchExact(st: State, frame: nat)
    requires Shape(st)
    ensures DequeOk(st.batches, st.deque)
    ensures forall i :: 0 <= i < |st.deque| ==>
              (GetBatch(st.batches, st.deque, frame) == Some(i) <==> st.batches[st.deque[i]].Contains(frame))
    ensures GetBatch(st.batches, st.deque, frame).None? <==>
              forall i :: 0 <= i < |st.deque| ==> !st.batches[st.deque[i]].Contains(frame)
  {
    FirstContainingIs(st.batches, st.deque, frame, 0);
    if st.deque != [] {
      var n := |st.deque|;
      forall i | 0 <= i < n && st.batches[st.deque[i]].Contains(frame)
        ensures st.batches[st.deque[0]].firstFrame <= frame <= st.batches[st.deque[n - 1]].lastFrame
      {
      }
    }
  }

  lemma FoundIs(st: State, frame: nat)
    requires Shape(st)
    ensures DequeOk(st.batches, st.deque)
    ensures Found(st, frame).Some? ==>
              Found(st, frame).value < |st.batches| && st.batches[Found(st, frame).value].Contains(frame)
    ensures Found(st, frame).None? ==>
              forall id :: 0 <= id < |st.batches| && st.batches[id].Contains(frame) ==> st.batches[id].removed
  {
    GetBatchExact(st, frame);
    if Found(st, frame).None? {
      forall id | 0 <= id < |st.batches| && !st.batches[id].removed
        ensures !st.batches[id].Contains(frame)
      {
        assert st.deque[id - Head(st)] == id;
      }
    }
  }

  // ---- every step keeps the shape ----

  /** The work on a batch leaves its identity alone, and only adds to its progress. */
  ghost predicate SameBatch(b: Batch, b': Batch) {
    && b'.firstFrame == b.firstFrame && b'.lastFrame == b.lastFrame && b'.removed == b.removed
    && b'.bufs.Keys == b.bufs.Keys && b'.progress >= b.progress && (b.shutterDelivered ==> b'.shutterDelivered)
  }

  lemma SendLastFrameKeeps(b: Batch, partial: nat, filled: seq<int>)
    ensures SameBatch(b, SendLastFrame(b, partial, filled).batch)
  {
    var b1 := SendMetadataIf(b, partial).batch;
    assert SameBatch(b, b1);
    assert SameBatch(b1, SendBuffersIf(b1, filled).batch);
  }

  lemma QueueKeeps(b: Batch, ev: Event)
    ensures SameBatch(b, Queue(b, ev).batch)
  {
    match ev
    case ShutterEvent(m) =>
    case ResultEvent(r) =>
      assert SameBatch(b, Queued(b, r));
      if r.frameNumber == b.lastFrame {
        SendLastFrameKeeps(Queued(b, r), r.partialResult, FilledStreams(b.bufs, r.outputBuffers));
      }
  }

  lemma FlushKeeps(b: Batch, streams: seq<int>, n: nat)
    ensures SameBatch(b.(removed := true), Flush(b, streams, n).batch)
  {
    var b1 := SendShutters(b).batch;
    assert SameBatch(b, b1);
    var b2 := SendBuffers(b1, streams).batch;
    assert SameBatch(b1, b2);
    var b3 := SendMetadata(b2, n).batch;
    assert SameBatch(b2, b3);
  }

  lemma ActKeepsFlags(st: State, t: Thread)
    requires Shape(st) && CanStep(st, Act(t))
    ensures RemovedFlags(Apply(st, Act(t)))
  {
    var pc := st.PcOf(t);
    if pc.batch.Some? {
      QueueKeeps(st.batches[pc.batch.value], pc.event);
    }
    assert FrontMarked(Apply(st, Act(t))) == FrontMarked(st);
  }

  lemma FlushKeepsFlags(st: State, t: Thread)
    requires Shape(st) && CanStep(st, FlushFront(t))
    ensures RemovedFlags(Apply(st, FlushFront(t)))
  {
    FlushKeeps(st.batches[st.deque[0]], st.streams, st.numPartial);
    assert st.lock == Some(t);
  }

  lemma StepKeepsFlags(st: State, step: Step)
    requires Shape(st) && CanStep(st, step)
    ensures RemovedFlags(Apply(st, step))
  {
    match step
    case Act(t) => ActKeepsFlags(st, t);
    case FlushFront(t) => FlushKeepsFlags(st, t);
    case Pop(t) => assert st.lock == Some(t);
    case PopFlushed(t) => assert st.lock == Some(t);
    case EndError(t) => assert st.lock == Some(t);
    case _ =>
  }

  /**
   Batches only evolve: intervals are fixed, progress never decreases, a removed
   batch stays removed and nothing is ever appended to it again.
   */
  ghost predicate Evolves(old_: seq<Batch>, new_: seq<Batch>) {
    && |old_| <= |new_|
    && forall id :: 0 <= id < |old_| ==> EvolvesTo(old_[id], new_[id])
  }

  ghost predicate EvolvesTo(b: Batch, b': Batch) {
    && b'.firstFrame == b.firstFrame && b'.lastFrame == b.lastFrame
    && b'.bufs.Keys == b.bufs.Keys
    && b'.progress >= b.progress
    && (b.shutterDelivered ==> b'.shutterDelivered)
    && (b.removed ==> b' == b)
  }

  lemma StepEvolves(st: State, step: Step)
    requires Shape(st) && CanStep(st, step)
    ensures Evolves(st.batches, Apply(st, step).batches)
  {
    match step
    case Act(t) =>
      var pc := st.PcOf(t);
      if pc.batch.Some? {
        QueueKeeps(st.batches[pc.batch.value], pc.event);
      }
    case FlushFront(t) =>
      FlushKeeps(st.batches[st.deque[0]], st.streams, st.numPartial);
      assert !FrontMarked(st);
    case _ =>
  }

  lemma IntervalsStay(old_: seq<Batch>, new_: seq<Batch>)
    requires Intervals(old_) && Evolves(old_, new_) && |new_| == |old_|
    ensures Intervals(new_)
  {
    forall id | 0 <= id < |new_|
      ensures EvolvesTo(old_[id], new_[id])
    {
    }
  }

  lemma StepKeepsIntervals(st: State, step: Step)
    requires Shape(st) && CanStep(st, step)
    ensures Intervals(Apply(st, step).batches) && DequeIsTail(Apply(st, step))
  {
    if !step.Register? {
      StepEvolves(st, step);
      IntervalsStay(st.batches, Apply(st, step).batches);
    }
  }

  /** A looked-up batch stays a valid reference while the batches evolve. */
  lemma LookedStays(old_: seq<Batch>, new_: seq<Batch>, ev: Event, b: Option<nat>)
    requires LookedOk(old_, ev, b) && Evolves(old_, new_) && |new_| == |old_|
    ensures LookedOk(new_, ev, b)
  {
    assert b.Some? ==> EvolvesTo(old_[b.value], new_[b.value]);
    forall id | b.None? && 0 <= id < |new_| && new_[id].Contains(ev.Frame())
      ensures new_[id].removed
    {
      assert EvolvesTo(old_[id], new_[id]);
    }
  }

  lemma StepKeepsLock(st: State, step: Step, t: Thread)
    requires Shape(st) && CanStep(st, step)
    ensures HoldsLock(Apply(st, step).PcOf(t)) <==> Apply(st, step).lock == Some(t)
  {
    assert HoldsLock(st.PcOf(t)) <==> st.lock == Some(t);
  }

  lemma RegisterKeepsPc(st: State, f: nat, n: nat, t: Thread)
    requires Shape(st) && CanStep(st, Register(f, n))
    ensures PcOk(Apply(st, Register(f, n)), t)
  {
    assert PcOk(st, t);
    assert t in st.pcs && st.pcs[t].Looked? ==> !(f <= st.pcs[t].event.Frame() < f + n);
  }

  lemma UpToStays(st: State, st': State, err: NotifyMsg, bound: int)
    requires UpTo(st, err, bound) && Evolves(st.batches, st'.batches)
    requires |st'.batches| == |st.batches| && |st'.deque| <= |st.deque| <= |st.batches|
    ensures UpTo(st', err, bound)
  {
    forall id | Head(st') <= id < |st'.batches|
      ensures 0 <= id && (st'.batches[id].firstFrame <= err.frameNumber <==> id < bound)
    {
      assert EvolvesTo(st.batches[id], st'.batches[id]);
    }
  }

  lemma LookupErrorFinds(st: State, t: Thread, err: NotifyMsg)
    requires Shape(st) && CanStep(st, LookupError(t, err))
    ensures PcOk(Apply(st, LookupError(t, err)), t)
  {
    GetBatchExact(st, err.frameNumber);
    FirstContainingIs(st.batches, st.deque, err.frameNumber, 0);
    var at := GetBatch(st.batches, st.deque, err.frameNumber);
    if at.Some? {
      assert st.batches[st.deque[at.value]].Contains(err.frameNumber);
    }
  }

  /** What an error found stays right while the batches evolve. */
  lemma FoundStays(old_: seq<Batch>, new_: seq<Batch>, err: NotifyMsg, at: nat, head: int)
    requires FoundOk(old_, err, at, head) && Evolves(old_, new_) && |new_| == |old_|
    ensures FoundOk(new_, err, at, head)
  {
    forall id | 0 <= id < |new_|
      ensures EvolvesTo(old_[id], new_[id])
    {
    }
  }

  lemma BeginErrorUpTo(st: State, t: Thread)
    requires Shape(st) && CanStep(st, BeginError(t))
    ensures PcOk(Apply(st, BeginError(t)), t)
  {
    assert PcOk(st, t);
  }

  /** A thread's flushing state after a step of its own. */
  lemma OwnStepKeepsLeft(st: State, step: Step, t: Thread)
    requires Shape(st) && CanStep(st, step)
    requires step == FlushFront(t) || step == PopFlushed(t)
    ensures PcOk(Apply(st, step), t)
  {
    assert PcOk(st, t);
    StepEvolves(st, step);
    var st' := Apply(st, step);
    var pc := st.PcOf(t);
    UpToStays(st, st', pc.err, Head(st) + pc.left + if pc.FlushPopping? then 1 else 0);
  }

  /** An error looked up stays as it was found until its thread goes on with it. */
  lemma StepKeepsFound(st: State, step: Step, t: Thread)
    requires Shape(st) && CanStep(st, step) && !step.Register?
    requires st.PcOf(t).ErrorFound? && step != BeginError(t)
    ensures PcOk(Apply(st, step), t)
  {
    var pc := st.PcOf(t);
    assert PcOk(st, t);
    StepEvolves(st, step);
    FoundStays(st.batches, Apply(st, step).batches, pc.err, pc.at, pc.head);
  }

  lemma StepKeepsUnbatched(st: State, step: Step, t: Thread)
    requires Shape(st) && CanStep(st, step) && st.PcOf(t).ErrorUnbatched?
    ensures PcOk(Apply(st, step), t)
  {
    assert PcOk(st, t);
  }

  lemma StepKeepsOthers(st: State, step: Step, t: Thread)
    requires CanStep(st, step) && !(step.LookupError? && step.t == t)
    requires st.PcOf(t).Idle? || st.PcOf(t).Looked? || st.PcOf(t).Checking? || st.PcOf(t).Popping?
    requires !Apply(st, step).PcOf(t).Looked?
    ensures PcOk(Apply(st, step), t)
  {
    assert Apply(st, step).PcOf(t).Idle? || Apply(st, step).PcOf(t).Checking? || Apply(st, step).PcOf(t).Popping?;
  }

  lemma StepKeepsLeft(st: State, step: Step, t: Thread)
    requires Shape(st) && CanStep(st, step) && !step.Register?
    requires !Apply(st, step).PcOf(t).Looked?
    ensures PcOk(Apply(st, step), t)
  {
    var pc := st.PcOf(t);
    if step.LookupError? && step.t == t {
      LookupErrorFinds(st, t, step.err);
    } else if step == BeginError(t) {
      BeginErrorUpTo(st, t);
    } else if step == FlushFront(t) || step == PopFlushed(t) {
      OwnStepKeepsLeft(st, step, t);
    } else {
      match pc {
        case ErrorFound(_, _, _) => StepKeepsFound(st, step, t);
        case ErrorUnbatched(_) => StepKeepsUnbatched(st, step, t);
        case Flushing(_, _) => OtherStepKeepsLeft(st, step, t);
        case FlushPopping(_, _) => OtherStepKeepsLeft(st, step, t);
        case _ => StepKeepsOthers(st, step, t);
      }
    }
  }

  /** While a thread flushes, others can only act on batches they looked up before, or send an error. */
  lemma OtherStepKeepsLeft(st: State, step: Step, t: Thread)
    requires Shape(st) && CanStep(st, step) && (st.PcOf(t).Flushing? || st.PcOf(t).FlushPopping?)
    requires step != FlushFront(t) && step != PopFlushed(t)
    ensures PcOk(Apply(st, step), t)
  {
    var pc := st.PcOf(t);
    assert PcOk(st, t);
    assert st.lock == Some(t);
    if step != EndError(t) {
      assert step.Act? || step.SendError?;
      StepEvolves(st, step);
      UpToStays(st, Apply(st, step), pc.err, Head(st) + pc.left + if pc.FlushPopping? then 1 else 0);
    }
  }

  lemma StepKeepsLooked(st: State, step: Step, t: Thread)
    requires Shape(st) && CanStep(st, step) && !step.Register?
    requires Apply(st, step).PcOf(t).Looked?
    ensures PcOk(Apply(st, step), t)
  {
    var st' := Apply(st, step);
    if step.Lookup? && step.t == t {
      FoundIs(st, step.event.Frame());
    } else {
      assert PcOk(st, t);
      assert st'.PcOf(t) == st.PcOf(t);
      StepEvolves(st, step);
      LookedStays(st.batches, st'.batches, st.PcOf(t).event, st.PcOf(t).batch);
    }
  }

  lemma StepKeepsPc(st: State, step: Step, t: Thread)
    requires Shape(st) && CanStep(st, step)
    ensures PcOk(Apply(st, step), t)
    ensures HoldsLock(Apply(st, step).PcOf(t)) <==> Apply(st, step).lock == Some(t)
  {
    StepKeepsLock(st, step, t);
    if step.Register? {
      RegisterKeepsPc(st, step.frameNumber, step.batchSize, t);
    } else if Apply(st, step).PcOf(t).Looked? {
      StepKeepsLooked(st, step, t);
    } else {
      StepKeepsLeft(st, step, t);
    }
  }

  lemma StepKeepsShape(st: State, step: Step)
    requires Shape(st) && CanStep(st, step)
    ensures Shape(Apply(st, step))
  {
    StepKeepsIntervals(st, step);
    StepKeepsFlags(st, step);
    forall t: Thread
      ensures PcOk(Apply(st, step), t) && (HoldsLock(Apply(st, step).PcOf(t)) <==> Apply(st, step).lock == Some(t))
    {
      StepKeepsPc(st, step, t);
    }
  }
}
