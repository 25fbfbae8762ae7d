/**
 The guarantees of the result batcher over whole runs.
 */
module BatcherTheorems {
  import opened CaptureTypes
  import opened InflightBatchModel
  import opened InflightBatchProofs
  import opened BatcherProtocol
  import opened BatcherInvariants
  import opened BatcherConservation

  // ---- what a step sends and takes in ----

  function Calls(st: State, step: Step): seq<CallbackCall>
    requires Enabled(st, step)
  {
    match step
    case Act(t) =>
      (match Target(st, t)
       case None => [Direct(st.PcOf(t).event)]
       case Some(id) => if id < |st.batches| then Queue(st.batches[id], st.PcOf(t).event).calls else [])
    case SendError(t) => [Notified([st.PcOf(t).err])]
    case FlushFront(_) => Flush(st.batches[st.deque[0]], st.streams, st.numPartial).calls
    case EndError(t) => [Notified([st.PcOf(t).err])]
    case _ => []
  }

  function Arrived(st: State, step: Step, c: Channel): seq<Item>
    requires Enabled(st, step)
  {
    if step.Act? then EventItems(st.PcOf(step.t).event, c) else []
  }

  lemma StepAppends(st: State, step: Step, c: Channel)
    requires Shape(st) && CanStep(st, step)
    ensures Apply(st, step).log == st.log + Calls(st, step)
    ensures EventsItems(Apply(st, step).acted, c) == EventsItems(st.acted, c) + Arrived(st, step, c)
  {
    if step.Act? {
      EventsItemsAppend(st.acted, st.PcOf(step.t).event, c);
    }
  }

  lemma ErrorShifts(st: State, step: Step, c: Channel)
    requires Shape(st) && CanStep(st, step) && (step.SendError? || step.EndError?)
    ensures DequeOk(Apply(st, step).batches, Apply(st, step).deque)
    ensures Shifts(st, Calls(st, step), [], Apply(st, step), c)
  {
    assert PcOk(st, step.t);
    ErrorItems(st.PcOf(step.t).err, c);
    SamePartsShift(st, Calls(st, step), Apply(st, step), c);
  }

  /** A step that leaves the batches and the deque alone and calls nobody. */
  lemma SilentShifts(st: State, step: Step, c: Channel)
    requires DequeOk(st.batches, st.deque) && CanStep(st, step)
    requires step.SetStreams? || step.Lookup? || step.LookupError? || step.BeginError?
    ensures DequeOk(Apply(st, step).batches, Apply(st, step).deque)
    ensures Shifts(st, Calls(st, step), Arrived(st, step, c), Apply(st, step), c)
  {
    SamePartsShift(st, [], Apply(st, step), c);
  }

  lemma PoppingShifts(st: State, step: Step, c: Channel)
    requires Shape(st) && Contents(st) && CanStep(st, step) && (step.Pop? || step.PopFlushed?)
    ensures DequeOk(Apply(st, step).batches, Apply(st, step).deque)
    ensures Shifts(st, Calls(st, step), Arrived(st, step, c), Apply(st, step), c)
  {
    assert st.lock == Some(step.t);
    PopShifts(st, Apply(st, step), c);
  }

  lemma ActShifts(st: State, t: Thread, c: Channel)
    requires Shape(st) && Contents(st) && Links(st) && CanStep(st, Act(t))
    ensures DequeOk(Apply(st, Act(t)).batches, Apply(st, Act(t)).deque)
    ensures Shifts(st, Calls(st, Act(t)), Arrived(st, Act(t), c), Apply(st, Act(t)), c)
  {
    if Target(st, t).Some? {
      QueueShifts(st, t, c);
    } else {
      DirectShifts(st, t, c);
    }
  }

  lemma StepShifts(st: State, step: Step, c: Channel)
    requires Shape(st) && Contents(st) && Links(st) && CanStep(st, step)
    ensures DequeOk(Apply(st, step).batches, Apply(st, step).deque)
    ensures Shifts(st, Calls(st, step), Arrived(st, step, c), Apply(st, step), c)
  {
    match step
    case Register(f, n) => RegisterShifts(st, f, n, c);
    case Act(t) => ActShifts(st, t, c);
    case Mark(t) => MarkShifts(st, t, c);
    case Pop(_) => PoppingShifts(st, step, c);
    case PopFlushed(_) => PoppingShifts(st, step, c);
    case FlushFront(t) => FlushShifts(st, t, c);
    case SendError(_) => ErrorShifts(st, step, c);
    case EndError(_) => ErrorShifts(st, step, c);
    case _ => SilentShifts(st, step, c);
  }

  lemma StepConserves(st: State, step: Step, c: Channel)
    requires Shape(st) && Contents(st) && Links(st) && CanStep(st, step) && Conserved(st, c)
    ensures DequeOk(Apply(st, step).batches, Apply(st, step).deque) && Conserved(Apply(st, step), c)
  {
    StepShifts(st, step, c);
    StepAppends(st, step, c);
    ShiftConserves(st, Calls(st, step), Arrived(st, step, c), Apply(st, step), c);
  }

  // ---- shutters go up together ----

  /** No shutter of a batch has been sent before the batch's one grouped call. */
  ghost predicate Quiet(st: State) {
    forall id, f: nat ::
      0 <= id < |st.batches| && !st.batches[id].removed && !st.batches[id].shutterDelivered
      && st.batches[id].Contains(f)
      ==> LogItems(st.log, ShutterChannel(f)) == []
  }

  /** A step sends a live batch's shutters only if it marks them delivered. */
  lemma StepSendsNoShutter(st: State, step: Step, id: nat, f: nat)
    requires Shape(st) && Contents(st) && Links(st) && CanStep(st, step)
    requires id < |st.batches| && !Apply(st, step).batches[id].removed && st.batches[id].Contains(f)
    requires !Apply(st, step).batches[id].shutterDelivered
    ensures LogItems(Calls(st, step), ShutterChannel(f)) == []
  {
    var c := ShutterChannel(f);
    StepEvolves(st, step);
    assert EvolvesTo(st.batches[id], Apply(st, step).batches[id]);
    match step
    case Act(t) =>
      if Target(st, t) == Some(id) {
        TargetKeepsShutters(st.batches[id], st.PcOf(t).event, c);
        TargetAccount(st, t, c);
        assert |LogItems(Calls(st, step), c)| == 0;
      } else if EventItems(st.PcOf(t).event, c) != [] {
        OnlyTarget(st, t, id);
      } else if Target(st, t).Some? {
        TargetUntouched(st, t, c);
      } else {
        DirectItems(st.PcOf(t).event, c);
      }
    case FlushFront(t) =>
      FlushParts(st, t, c);
      FrontIsLive(st, t);
      FlushKeeps(st.batches[st.deque[0]], st.streams, st.numPartial);
      HoldsOwnFrames(st.batches[st.deque[0]], st.streams, st.numPartial, c);
    case SendError(t) => assert PcOk(st, t); ErrorItems(st.PcOf(t).err, c);
    case EndError(t) => assert PcOk(st, t); ErrorItems(st.PcOf(t).err, c);
    case _ =>
  }

  lemma TargetKeepsShutters(b: Batch, ev: Event, c: Channel)
    requires c.ShutterChannel? && !Queue(b, ev).batch.shutterDelivered
    ensures QueuedItems(Queue(b, ev).batch, c) == QueuedItems(b, c) + EventItems(ev, c)
  {
    match ev
    case ShutterEvent(m) =>
      assert Queue(b, ev).batch.shutterMsgs == b.shutterMsgs + [m];
      MsgsItemsConcat(b.shutterMsgs, [m], c);
      OneMsg(m, c);
    case ResultEvent(r) =>
      SendLastFrameShutters(Queued(b, r), r.partialResult, FilledStreams(b.bufs, r.outputBuffers));
      assert Queue(b, ev).batch.shutterMsgs == b.shutterMsgs;
  }

  lemma SendLastFrameShutters(b: Batch, partial: nat, filled: seq<int>)
    ensures SendLastFrame(b, partial, filled).batch.shutterMsgs == b.shutterMsgs
  {
    var b1 := SendMetadataIf(b, partial).batch;
    assert b1.shutterMsgs == b.shutterMsgs;
    assert SendBuffersIf(b1, filled).batch.shutterMsgs == b1.shutterMsgs;
  }

  /** Nothing of a batch has been sent before it is registered. */
  lemma NothingBefore(st: State, first: nat, n: nat, f: nat)
    requires DequeOk(st.batches, st.deque) && FreshBatch(st, first, n) && first <= f < first + n
    requires Conserved(st, ShutterChannel(f))
    ensures LogItems(st.log, ShutterChannel(f)) == []
  {
    NoShutters(st.acted, f);
    assert |EventsItems(st.acted, ShutterChannel(f))| == 0;
  }

  lemma NoShutters(es: seq<Event>, f: nat)
    requires forall i :: 0 <= i < |es| ==> es[i].Frame() != f
    ensures EventsItems(es, ShutterChannel(f)) == []
  {
    FlatEmpty(seq(|es|, i requires 0 <= i < |es| => EventItems(es[i], ShutterChannel(f))));
  }

  lemma StepKeepsQuiet(st: State, step: Step)
    requires Shape(st) && Contents(st) && Links(st) && Quiet(st) && CanStep(st, step)
    requires forall c :: Conserved(st, c)
    ensures Quiet(Apply(st, step))
  {
    var st' := Apply(st, step);
    StepEvolves(st, step);
    forall id, f: nat | 0 <= id < |st'.batches| && !st'.batches[id].removed && !st'.batches[id].shutterDelivered
                        && st'.batches[id].Contains(f)
      ensures LogItems(st'.log, ShutterChannel(f)) == []
    {
      StepAppends(st, step, ShutterChannel(f));
      if id < |st.batches| {
        assert EvolvesTo(st.batches[id], st'.batches[id]);
        StepSendsNoShutter(st, step, id, f);
        LogItemsConcat(st.log, Calls(st, step), ShutterChannel(f));
      } else {
        NothingBefore(st, step.frameNumber, step.batchSize, f);
      }
    }
  }

  // ---- the whole invariant, over whole runs ----

  ghost predicate Inv(st: State) {
    && Shape(st) && Contents(st) && Links(st) && Quiet(st)
    && forall c :: Conserved(st, c)
  }

  lemma InitInv(numPartial: nat)
    ensures Inv(Init(numPartial))
  {
  }

  lemma StepInv(st: State, step: Step)
    requires Inv(st) && CanStep(st, step)
    ensures Inv(Apply(st, step))
  {
    StepKeepsShape(st, step);
    StepKeepsContents(st, step);
    StepKeepsQuiet(st, step);
    forall c
      ensures Conserved(Apply(st, step), c)
    {
      StepConserves(st, step, c);
    }
  }

  lemma {:induction false} RunInv(st: State, steps: seq<Step>)
    requires Inv(st) && ValidRun(st, steps)
    ensures Inv(Exec(st, steps))
    decreases |steps|
  {
    if steps != [] {
      StepInv(st, steps[0]);
      RunInv(Apply(st, steps[0]), steps[1..]);
    }
  }

  /**
   Batching refines pass-through. In every run, on every channel -- the buffers of
   a stream with their frame numbers, each partial metadata of a frame, the
   shutters of a frame, its input buffers -- what the callback was sent, followed
   by what is still queued, is what the HAL handed over: nothing lost, repeated,
   reordered, or given another frame number.
   */
  lemma BatchingRefinesPassThrough(numPartial: nat, steps: seq<Step>, c: Channel)
    requires ValidRun(Init(numPartial), steps)
    ensures var st := Exec(Init(numPartial), steps);
            DequeOk(st.batches, st.deque)
            && EventsItems(st.acted, c) == LogItems(st.log, c) + StillQueued(st, c)
  {
    InitInv(numPartial);
    RunInv(Init(numPartial), steps);
    assert Conserved(Exec(Init(numPartial), steps), c);
  }

  /** Once every batch has left the deque, everything handed over has been sent, in order. */
  lemma AllSentWhenIdle(numPartial: nat, steps: seq<Step>, c: Channel)
    requires ValidRun(Init(numPartial), steps) && Exec(Init(numPartial), steps).deque == []
    ensures var st := Exec(Init(numPartial), steps);
            LogItems(st.log, c) == EventsItems(st.acted, c)
  {
    BatchingRefinesPassThrough(numPartial, steps, c);
  }

  /**
   Removal drops nothing: whether a batch was completed or flushed by an error,
   all shutters and metadata of its frames handed over so far have been sent,
   exactly once and in order.
   */
  lemma RemovalDropsNothing(st: State, id: nat, c: Channel)
    requires Inv(st) && id < |st.batches| && st.batches[id].removed
    requires (c.MetadataChannel? || c.ShutterChannel?) && st.batches[id].Contains(c.frame)
    ensures LogItems(st.log, c) == EventsItems(st.acted, c)
  {
    forall i | 0 <= i < |st.deque|
      ensures Parts(st, c)[i] == []
    {
      var b := st.batches[st.deque[i]];
      if !b.removed {
        HoldsOwnFrames(b, st.streams, st.numPartial, c);
      }
    }
    FlatEmpty(Parts(st, c));
    assert Conserved(st, c);
  }

  /** The buffers still queued on a stream all carry frames of live batches. */
  lemma QueuedFramesAreLive(st: State, s: int, k: nat)
    requires Inv(st) && DequeOk(st.batches, st.deque) && k < |StillQueued(st, BufferChannel(s))|
    ensures var item := StillQueued(st, BufferChannel(s))[k];
            item.BufferItem?
            && exists id :: 0 <= id < |st.batches| && !st.batches[id].removed && st.batches[id].Contains(item.frame)
  {
    var c := BufferChannel(s);
    var i := FlatIndex(Parts(st, c), k);
    var b := st.batches[st.deque[i]];
    assert Drained(b) ==> QueuedItems(b, c) == [];
    assert !b.removed;
    assert QueueInv(b.bufs[s], s, b.batchSize);
  }

  /** Every element of a flattened list comes from one of its parts. */
  lemma {:induction false} FlatIndex(xs: seq<seq<Item>>, k: nat) returns (i: nat)
    requires k < |Flat(xs)|
    ensures i < |xs| && Flat(xs)[k] in xs[i]
    decreases |xs|
  {
    var init := xs[..|xs| - 1];
    if k < |Flat(init)| {
      i := FlatIndex(init, k);
    } else {
      i := |xs| - 1;
      assert Flat(xs)[k] == xs[i][k - |Flat(init)|];
    }
  }

  /** The buffers of a removed batch's frames are all in the sent part of their stream. */
  lemma RemovalDropsNoBuffer(st: State, id: nat, s: int, k: nat)
    requires Inv(st) && id < |st.batches| && st.batches[id].removed
    requires k < |EventsItems(st.acted, BufferChannel(s))|
    requires var item := EventsItems(st.acted, BufferChannel(s))[k];
             item.BufferItem? && st.batches[id].Contains(item.frame)
    ensures k < |LogItems(st.log, BufferChannel(s))|
    ensures LogItems(st.log, BufferChannel(s))[k] == EventsItems(st.acted, BufferChannel(s))[k]
  {
    var c := BufferChannel(s);
    var sent := LogItems(st.log, c);
    assert Conserved(st, c);
    if k >= |sent| {
      assert StillQueued(st, c)[k - |sent|] == EventsItems(st.acted, c)[k];
      QueuedFramesAreLive(st, s, k - |sent|);
    }
  }

  /**
   Seen with the batcher's lock free, a batch is in the deque exactly when its
   mRemoved flag is false.
   */
  lemma InDequeIffNotRemoved(st: State, id: nat)
    requires Inv(st) && st.LockFree() && id < |st.batches|
    ensures id in st.deque <==> !st.batches[id].removed
  {
    if id >= Head(st) {
      assert st.deque[id - Head(st)] == id;
    }
  }

  /**
   In every run the deque is the tail of the registration order, its frame intervals
   are increasing and disjoint, and a lookup answers a position exactly when the batch
   there contains the frame, NOT_BATCHED exactly when none does.
   */
  lemma LookupIsExact(numPartial: nat, steps: seq<Step>, frame: nat)
    requires ValidRun(Init(numPartial), steps)
    ensures var st := Exec(Init(numPartial), steps);
            && DequeOk(st.batches, st.deque) && DequeIsTail(st)
            && (forall i, j :: 0 <= i < j < |st.deque| ==>
                  st.batches[st.deque[i]].lastFrame < st.batches[st.deque[j]].firstFrame)
            && (forall i :: 0 <= i < |st.deque| ==>
                  (GetBatch(st.batches, st.deque, frame) == Some(i) <==> st.batches[st.deque[i]].Contains(frame)))
            && (GetBatch(st.batches, st.deque, frame).None? <==>
                  forall i :: 0 <= i < |st.deque| ==> !st.batches[st.deque[i]].Contains(frame))
  {
    InitInv(numPartial);
    RunInv(Init(numPartial), steps);
    GetBatchExact(Exec(Init(numPartial), steps), frame);
  }

  /** Over any run, a removed batch is never touched again and progress never decreases. */
  lemma {:induction false} RunEvolves(st: State, steps: seq<Step>)
    requires Inv(st) && ValidRun(st, steps)
    ensures Evolves(st.batches, Exec(st, steps).batches)
    decreases |steps|
  {
    if steps != [] {
      var next := Apply(st, steps[0]);
      StepEvolves(st, steps[0]);
      StepInv(st, steps[0]);
      RunEvolves(next, steps[1..]);
      var last := Exec(st, steps);
      forall id | 0 <= id < |st.batches|
        ensures EvolvesTo(st.batches[id], last.batches[id])
      {
        assert EvolvesTo(st.batches[id], next.batches[id]) && EvolvesTo(next.batches[id], last.batches[id]);
      }
    }
  }

  // ---- errors ----

  /** When a flush is over, every batch that starts no later than the error's frame has left the deque. */
  lemma ErrorAfterItsBatches(st: State, t: Thread, id: nat)
    requires Inv(st) && CanStep(st, EndError(t)) && id < |st.batches|
    requires st.batches[id].firstFrame <= st.PcOf(t).err.frameNumber
    ensures st.batches[id].removed
  {
    assert PcOk(st, t);
    assert st.lock == Some(t);
  }

  /** Thread t has looked an error up in a batch and not yet ended its flush. */
  predicate HandlingError(st: State, t: Thread, err: NotifyMsg) {
    && (st.PcOf(t).ErrorFound? || st.PcOf(t).Flushing? || st.PcOf(t).FlushPopping?)
    && st.PcOf(t).err == err
  }

  ghost predicate AllUpToRemoved(st: State, frame: nat) {
    forall id :: 0 <= id < |st.batches| && st.batches[id].firstFrame <= frame ==> st.batches[id].removed
  }

  predicate EndsWith(log: seq<CallbackCall>, call: CallbackCall) {
    log != [] && log[|log| - 1] == call
  }

  /** The last of the steps, and no other, is one in which thread t sends an error. */
  predicate EndsError(steps: seq<Step>, t: Thread) {
    && steps != [] && (steps[|steps| - 1] == SendError(t) || steps[|steps| - 1] == EndError(t))
    && forall i :: 0 <= i < |steps| - 1 ==> steps[i] != SendError(t) && steps[i] != EndError(t)
  }

  lemma StaysHandling(st: State, step: Step, t: Thread, err: NotifyMsg)
    requires HandlingError(st, t, err) && CanStep(st, step) && step != EndError(t)
    ensures HandlingError(Apply(st, step), t, err)
  {
  }

  lemma EndErrorSends(st: State, t: Thread, err: NotifyMsg)
    requires Inv(st) && HandlingError(st, t, err) && CanStep(st, EndError(t))
    ensures var st' := Apply(st, EndError(t));
            AllUpToRemoved(st', err.frameNumber) && EndsWith(st'.log, Notified([err]))
  {
    forall id | 0 <= id < |st.batches| && st.batches[id].firstFrame <= err.frameNumber
      ensures st.batches[id].removed
    {
      ErrorAfterItsBatches(st, t, id);
    }
  }

  lemma {:induction false} FlushSendsLast(st: State, t: Thread, err: NotifyMsg, steps: seq<Step>)
    requires Inv(st) && HandlingError(st, t, err) && ValidRun(st, steps) && EndsError(steps, t)
    ensures AllUpToRemoved(Exec(st, steps), err.frameNumber) && EndsWith(Exec(st, steps).log, Notified([err]))
    decreases |steps|
  {
    var next := Apply(st, steps[0]);
    if steps[0] == EndError(t) {
      assert |steps| == 1 && Exec(st, steps) == Exec(next, []);
      EndErrorSends(st, t, err);
    } else {
      StaysHandling(st, steps[0], t, err);
      StepInv(st, steps[0]);
      FlushSendsLast(next, t, err, steps[1..]);
    }
  }

  lemma StaysUnbatched(st: State, step: Step, t: Thread, err: NotifyMsg)
    requires st.PcOf(t) == ErrorUnbatched(err) && CanStep(st, step) && step != SendError(t)
    ensures Apply(st, step).PcOf(t) == ErrorUnbatched(err)
  {
  }

  lemma {:induction false} UnbatchedSendsLast(st: State, t: Thread, err: NotifyMsg, steps: seq<Step>)
    requires Inv(st) && st.PcOf(t) == ErrorUnbatched(err) && ValidRun(st, steps) && EndsError(steps, t)
    ensures EndsWith(Exec(st, steps).log, Notified([err]))
    decreases |steps|
  {
    var next := Apply(st, steps[0]);
    if steps[0] == SendError(t) {
      assert |steps| == 1 && Exec(st, steps) == Exec(next, []);
    } else {
      StaysUnbatched(st, steps[0], t, err);
      StepInv(st, steps[0]);
      UnbatchedSendsLast(next, t, err, steps[1..]);
    }
  }

  /** The first batch of the deque, a front already marked removed aside, starts after the frame. */
  ghost predicate FrontIsLater(st: State, frame: nat)
    requires DequeOk(st.batches, st.deque)
  {
    var front := if FrontMarked(st) then 1 else 0;
    |st.deque| <= front || st.batches[st.deque[front]].firstFrame > frame
  }

  lemma FrontIsLaterIff(st: State, frame: nat)
    requires Shape(st) && DequeOk(st.batches, st.deque)
    ensures AllUpToRemoved(st, frame) <==> FrontIsLater(st, frame)
  {
    var front := if FrontMarked(st) then 1 else 0;
    forall i | 0 <= i < |st.deque|
      ensures st.deque[i] == Head(st) + i
      ensures st.batches[st.deque[i]].removed <==> i < front
    {
    }
    forall id | Head(st) + front <= id < |st.batches|
      ensures st.deque[id - Head(st)] == id && !st.batches[id].removed
      ensures st.batches[st.deque[front]].firstFrame <= st.batches[id].firstFrame
    {
      assert st.deque[front] == Head(st) + front;
    }
  }

  /**
   When an error goes up. Take any run that begins with the lookup of an error and
   ends with the step that sends it. The error is the last call made; and every batch
   that starts no later than its frame has left the deque if and only if a batch in the
   deque contained the frame at the lookup, or the front of the deque starts after the
   frame when the error is sent.
   */
  lemma ErrorSentIff(st: State, t: Thread, err: NotifyMsg, steps: seq<Step>)
    requires Inv(st) && ValidRun(st, [LookupError(t, err)] + steps) && EndsError(steps, t)
    ensures var last := Exec(st, [LookupError(t, err)] + steps);
            && DequeOk(last.batches, last.deque)
            && EndsWith(last.log, Notified([err]))
            && (AllUpToRemoved(last, err.frameNumber) <==>
                  (exists i :: 0 <= i < |st.deque| && st.batches[st.deque[i]].Contains(err.frameNumber))
                  || FrontIsLater(last, err.frameNumber))
  {
    var looked := Apply(st, LookupError(t, err));
    var last := Exec(looked, steps);
    assert ([LookupError(t, err)] + steps)[1..] == steps;
    assert Exec(st, [LookupError(t, err)] + steps) == last;
    GetBatchExact(st, err.frameNumber);
    StepInv(st, LookupError(t, err));
    RunInv(looked, steps);
    FrontIsLaterIff(last, err.frameNumber);
    if GetBatch(st.batches, st.deque, err.frameNumber).None? {
      UnbatchedSendsLast(looked, t, err, steps);
    } else {
      FlushSendsLast(looked, t, err, steps);
    }
  }

  /** The batcher with just one batch, for frames 1 to `last`, and its threads at `pcs`. */
  function OneBatch(numPartial: nat, last: nat, pcs: map<Thread, Pc>): State
    requires last > 0
  {
    State([NewBatch(1, last, [], numPartial)], [0], None, pcs, [], numPartial, [], [])
  }

  lemma RegistersOne(numPartial: nat, last: nat)
    requires 0 < last < 10
    ensures CanStep(Init(numPartial), Register(1, last))
    ensures Apply(Init(numPartial), Register(1, last)) == OneBatch(numPartial, last, map[])
  {
  }

  lemma ErrorNotFound(numPartial: nat, err: NotifyMsg)
    requires err.Error? && err.frameNumber == 10
    ensures var st := OneBatch(numPartial, 4, map[]);
            && CanStep(st, LookupError(0, err))
            && Apply(st, LookupError(0, err)) == OneBatch(numPartial, 4, map[0 := ErrorUnbatched(err)])
  {
  }

  lemma ErrorSentAlone(numPartial: nat, err: NotifyMsg)
    ensures var st := OneBatch(numPartial, 4, map[0 := ErrorUnbatched(err)]);
            && CanStep(st, SendError(0))
            && Apply(st, SendError(0)) == OneBatch(numPartial, 4, map[0 := Idle]).(log := [Notified([err])])
  {
  }

  /** With a batch for frames 1 to 4 in flight, an error for frame 10 goes up while that batch is still queued. */
  lemma UnbatchedErrorOvertakes(numPartial: nat)
    ensures var err := Error(10, -1, 2);
            var steps := [Register(1, 4), LookupError(0, err), SendError(0)];
            && ValidRun(Init(numPartial), steps)
            && var last := Exec(Init(numPartial), steps);
               last.log == [Notified([err])] && last.deque == [0] && !last.batches[0].removed
               && !AllUpToRemoved(last, 10)
  {
    var err := Error(10, -1, 2);
    RegistersOne(numPartial, 4);
    ErrorNotFound(numPartial, err);
    ErrorSentAlone(numPartial, err);
    RunOfThree(Init(numPartial), Register(1, 4), LookupError(0, err), SendError(0));
    assert OneBatch(numPartial, 4, map[0 := Idle]).batches[0].firstFrame <= 10;
  }

  lemma RunOf(st: State, a: Step, steps: seq<Step>)
    requires CanStep(st, a) && ValidRun(Apply(st, a), steps)
    ensures ValidRun(st, [a] + steps) && Exec(st, [a] + steps) == Exec(Apply(st, a), steps)
  {
    assert ([a] + steps)[1..] == steps;
  }

  lemma RunOfThree(st: State, a: Step, b: Step, c: Step)
    requires CanStep(st, a) && CanStep(Apply(st, a), b) && CanStep(Apply(Apply(st, a), b), c)
    ensures ValidRun(st, [a, b, c]) && Exec(st, [a, b, c]) == Apply(Apply(Apply(st, a), b), c)
  {
    var st1 := Apply(st, a);
    var st2 := Apply(st1, b);
    RunOf(st2, c, []);
    RunOf(st1, b, [c]);
    RunOf(st, a, [b, c]);
    assert [c] + [] == [c] && [b] + [c] == [b, c] && [a] + [b, c] == [a, b, c];
  }

  /**
   A batch's shutters go up in one call: the step that marks them delivered makes
   a single notify call that carries every shutter of the batch handed over so
   far, and no other call ever carried one.
   */
  lemma ShuttersInOneCall(st: State, step: Step, id: nat) returns (k: nat)
    requires Inv(st) && CanStep(st, step) && id < |st.batches|
    requires !st.batches[id].removed && !st.batches[id].shutterDelivered
    requires Apply(st, step).batches[id].shutterDelivered
    ensures k < |Apply(st, step).log|
    ensures forall f: nat :: st.batches[id].Contains(f) ==> CarriesAll(Apply(st, step), k, f)
  {
    k := |st.log|;
    DeliveringStep(st, step, id);
    StepAppends(st, step, ShutterChannel(0));
    forall f: nat | st.batches[id].Contains(f)
      ensures CarriesAll(Apply(st, step), k, f)
    {
      OneCallHasAll(st, step, id, f);
    }
  }

  /** Call k carries every shutter of frame f handed over so far, and the other calls carry none. */
  ghost predicate CarriesAll(st: State, k: nat, f: nat)
    requires k < |st.log|
  {
    && CallItems(st.log[k], ShutterChannel(f)) == LogItems(st.log, ShutterChannel(f))
    && LogItems(st.log, ShutterChannel(f)) == EventsItems(st.acted, ShutterChannel(f))
  }

  lemma OneCallHasAll(st: State, step: Step, id: nat, f: nat)
    requires Inv(st) && CanStep(st, step) && id < |st.batches| && st.batches[id].Contains(f)
    requires !st.batches[id].removed && !st.batches[id].shutterDelivered
    requires Apply(st, step).batches[id].shutterDelivered && Apply(st, step).batches[id].shutterMsgs == []
    requires OnlyFirstNotifies(Calls(st, step)) && |st.log| < |Apply(st, step).log|
    ensures CarriesAll(Apply(st, step), |st.log|, f)
  {
    var c := ShutterChannel(f);
    var st' := Apply(st, step);
    StepAppends(st, step, c);
    LogItemsConcat(st.log, Calls(st, step), c);
    FirstCallOnly(Calls(st, step), c);
    AllSentAfter(st, step, id, c);
  }

  lemma AllSentAfter(st: State, step: Step, id: nat, c: Channel)
    requires Inv(st) && CanStep(st, step) && id < |st.batches|
    requires c.ShutterChannel? && st.batches[id].Contains(c.frame)
    requires Apply(st, step).batches[id].shutterMsgs == []
    ensures LogItems(Apply(st, step).log, c) == EventsItems(Apply(st, step).acted, c)
  {
    StepInv(st, step);
    StepEvolves(st, step);
    assert EvolvesTo(st.batches[id], Apply(st, step).batches[id]);
    NothingElseQueued(Apply(st, step), id, c);
    assert Conserved(Apply(st, step), c);
  }

  ghost predicate OnlyFirstNotifies(calls: seq<CallbackCall>) {
    calls != [] && calls[0].Notified? && forall i :: 1 <= i < |calls| ==> calls[i].Results?
  }

  lemma FirstCallOnly(calls: seq<CallbackCall>, c: Channel)
    requires OnlyFirstNotifies(calls) && c.ShutterChannel?
    ensures LogItems(calls, c) == CallItems(calls[0], c)
  {
    var xs := seq(|calls|, i requires 0 <= i < |calls| => CallItems(calls[i], c));
    forall i | 1 <= i < |xs|
      ensures xs[i] == []
    {
      ResultsCarryNoShutter(calls[i].results, c);
    }
    FlatOnly(xs, 0);
  }

  lemma ResultsCarryNoShutter(rs: seq<CaptureResult>, c: Channel)
    requires c.ShutterChannel?
    ensures ResultsItems(rs, c) == []
  {
    FlatEmpty(seq(|rs|, i requires 0 <= i < |rs| => ResultItems(rs[i], c)));
  }

  /** The step that marks a batch's shutters delivered is its last shutter or an error flush. */
  lemma DeliveringStep(st: State, step: Step, id: nat)
    requires Inv(st) && CanStep(st, step) && id < |st.batches|
    requires !st.batches[id].removed && !st.batches[id].shutterDelivered
    requires Apply(st, step).batches[id].shutterDelivered
    ensures OnlyFirstNotifies(Calls(st, step))
    ensures Apply(st, step).batches[id].shutterMsgs == []
  {
    match step
    case Act(t) =>
      assert Target(st, t) == Some(id);
      if st.PcOf(t).event.ResultEvent? {
        var b, r := st.batches[id], st.PcOf(t).event.result;
        SendLastFrameSize(Queued(b, r), r.partialResult, FilledStreams(b.bufs, r.outputBuffers));
      }
    case FlushFront(t) =>
      FlushCalls(st.batches[st.deque[0]], st.streams, st.numPartial);
    case _ =>
  }

  lemma FlushCalls(b: Batch, streams: seq<int>, n: nat)
    requires !b.shutterDelivered
    ensures OnlyFirstNotifies(Flush(b, streams, n).calls) && Flush(b, streams, n).batch.shutterMsgs == []
  {
    var o1 := SendShutters(b);
    var o2 := SendBuffers(o1.batch, streams);
    var o3 := SendMetadata(o2.batch, n);
    assert Flush(b, streams, n).calls == o1.calls + o2.calls + o3.calls;
  }

  /** With its own shutters sent, no batch holds a shutter of a frame of batch `id`. */
  lemma NothingElseQueued(st: State, id: nat, c: Channel)
    requires Inv(st) && id < |st.batches| && c.ShutterChannel? && st.batches[id].Contains(c.frame)
    requires st.batches[id].shutterMsgs == []
    ensures StillQueued(st, c) == []
  {
    forall i | 0 <= i < |st.deque|
      ensures Parts(st, c)[i] == []
    {
      var b := st.batches[st.deque[i]];
      if st.deque[i] != id && !b.removed {
        HoldsOwnFrames(b, st.streams, st.numPartial, c);
      }
    }
    FlatEmpty(Parts(st, c));
  }
}
