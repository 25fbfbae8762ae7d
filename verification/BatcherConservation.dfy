/**
 Batching refines passing everything straight through: in every run, on every
 channel, what was sent to the callback followed by what is still queued is
 exactly what the HAL handed over.
 */
module BatcherConservation {
  import opened CaptureTypes
  import opened InflightBatchModel
  import opened InflightBatchProofs
  import opened BatcherProtocol
  import opened BatcherInvariants

  // ---- tying a batch to the history of what the HAL handed over ----

  /** How many frames of a stream a batch has seen. */
  function Seen(b: Batch, s: int): nat
    requires s in b.bufs
  {
    if b.bufs[s].delivered then b.batchSize else |b.bufs[s].buffers|
  }

  /** The frames of `s` seen by the batch are exactly its first Seen(b, s) ones. */
  ghost predicate StreamLink(acted: seq<Event>, b: Batch, s: int)
    requires s in b.bufs
  {
    && (forall i :: 0 <= i < |acted| && Returns(acted[i], s) && b.Contains(acted[i].Frame()) ==>
          acted[i].Frame() < b.firstFrame + Seen(b, s))
    && (Seen(b, s) > 0 ==> HasReturned(acted, s, b.firstFrame + Seen(b, s) - 1))
  }

  ghost predicate ShutterLink(acted: seq<Event>, b: Batch) {
    b.shutterDelivered ==> exists i :: 0 <= i < |acted| && LastShutter(acted[i], b)
  }

  ghost predicate ProgressLink(acted: seq<Event>, b: Batch) {
    b.progress > 0 ==>
      exists i :: 0 <= i < |acted| && LastResult(acted[i], b) && acted[i].result.partialResult == b.progress
  }

  ghost predicate BatchLink(acted: seq<Event>, b: Batch) {
    && ShutterLink(acted, b)
    && ProgressLink(acted, b)
    && forall s :: s in b.bufs ==> StreamLink(acted, b, s)
  }

  ghost predicate Links(st: State) {
    forall id :: 0 <= id < |st.batches| && !st.batches[id].removed ==> BatchLink(st.acted, st.batches[id])
  }

  /** With the HAL's promise, a result handed to a live batch fits it. */
  lemma ResultFitsBatch(st: State, id: nat, r: CaptureResult)
    requires Shape(st) && Contents(st) && Links(st)
    requires id < |st.batches| && !st.batches[id].removed && st.batches[id].Contains(r.frameNumber)
    requires HalInOrder(st, ResultEvent(r))
    ensures ResultFits(st.batches[id], r, st.numPartial)
  {
    var b := st.batches[id];
    assert BatchLink(st.acted, b);
    forall s | s in b.bufs
      ensures StreamFits(b, r, s)
    {
      assert s in st.streams;
      if BuffersOf(r.outputBuffers, s) != [] {
        StreamFitsBatch(st, id, r, s);
      }
    }
  }

  lemma StreamFitsBatch(st: State, id: nat, r: CaptureResult, s: int)
    requires Shape(st) && id < |st.batches| && s in st.batches[id].bufs
    requires BatchInv(st.batches[id], st.streams, st.numPartial)
    requires StreamLink(st.acted, st.batches[id], s) && st.batches[id].Contains(r.frameNumber)
    requires BufferInOrder(st, r.frameNumber, s)
    ensures !st.batches[id].bufs[s].delivered
    ensures r.frameNumber == st.batches[id].firstFrame + |st.batches[id].bufs[s].buffers|
  {
    var b := st.batches[id];
    var k := Seen(b, s);
    if k > 0 {
      var i :| 0 <= i < |st.acted| && Returns(st.acted[i], s) && st.acted[i].Frame() == b.firstFrame + k - 1;
      assert st.acted[i].Frame() < r.frameNumber;
    }
    assert b.Contains(b.firstFrame + k) ==> !HasReturned(st.acted, s, b.firstFrame + k);
    assert r.frameNumber <= b.firstFrame + k;
  }

  // ---- keeping the links ----

  /** An event outside a batch's interval does not disturb its links. */
  lemma LinkKeeps(acted: seq<Event>, ev: Event, b: Batch)
    requires BatchLink(acted, b) && !b.Contains(ev.Frame())
    ensures BatchLink(acted + [ev], b)
  {
    LinkGrows(acted, ev, b);
    forall s | s in b.bufs
      ensures StreamLink(acted + [ev], b, s)
    {
      assert StreamLink(acted, b, s);
      if Seen(b, s) > 0 {
        ReturnedGrows(acted, ev, s, b.firstFrame + Seen(b, s) - 1);
      }
    }
  }

  lemma LinkGrows(acted: seq<Event>, ev: Event, b: Batch)
    requires ShutterLink(acted, b) && ProgressLink(acted, b)
    ensures ShutterLink(acted + [ev], b) && ProgressLink(acted + [ev], b)
  {
    var acted' := acted + [ev];
    if b.shutterDelivered {
      var i :| 0 <= i < |acted| && LastShutter(acted[i], b);
      assert LastShutter(acted'[i], b);
    }
    if b.progress > 0 {
      var i :| 0 <= i < |acted| && LastResult(acted[i], b) && acted[i].result.partialResult == b.progress;
      assert LastResult(acted'[i], b);
    }
  }

  lemma ReturnedGrows(acted: seq<Event>, ev: Event, s: int, frame: int)
    requires HasReturned(acted, s, frame)
    ensures HasReturned(acted + [ev], s, frame)
  {
    var i :| 0 <= i < |acted| && Returns(acted[i], s) && acted[i].Frame() == frame;
    assert Returns((acted + [ev])[i], s);
  }

  lemma LinkShutter(acted: seq<Event>, b: Batch, m: NotifyMsg)
    requires BatchLink(acted, b) && b.Contains(m.frameNumber)
    ensures BatchLink(acted + [ShutterEvent(m)], QueueShutter(b, m).batch)
  {
    var ev := ShutterEvent(m);
    var acted' := acted + [ev];
    var b' := QueueShutter(b, m).batch;
    LinkGrows(acted, ev, b);
    assert acted'[|acted|] == ev;
    forall s | s in b'.bufs
      ensures StreamLink(acted', b', s)
    {
      assert StreamLink(acted, b, s);
      if Seen(b, s) > 0 {
        ReturnedGrows(acted, ev, s, b.firstFrame + Seen(b, s) - 1);
      }
    }
  }

  /** What a result does to the count of frames seen on a stream. */
  lemma SeenAfterResult(b: Batch, r: CaptureResult, streams: seq<int>, n: nat, s: int)
    requires BatchInv(b, streams, n) && ResultFits(b, r, n) && s in b.bufs
    ensures s in QueueResult(b, r).batch.bufs
    ensures BuffersOf(r.outputBuffers, s) == [] ==> QueueResult(b, r).batch.bufs[s] == b.bufs[s]
    ensures BuffersOf(r.outputBuffers, s) != [] ==>
              !b.bufs[s].delivered && r.frameNumber == b.firstFrame + Seen(b, s)
              && Seen(QueueResult(b, r).batch, s) == Seen(b, s) + 1
  {
    assert StreamFits(b, r, s);
    LastFrameReady(b, r, streams, n);
    FilledStreamsOf(b.bufs, r.outputBuffers);
    SendLastFrameSound(Queued(b, r), r.partialResult, FilledStreams(b.bufs, r.outputBuffers), streams, n);
    QueueKeeps(b, ResultEvent(r));
    SameSize(b, r);
  }

  lemma SameSize(b: Batch, r: CaptureResult)
    ensures QueueResult(b, r).batch.batchSize == b.batchSize
  {
    SendLastFrameSize(Queued(b, r), r.partialResult, FilledStreams(b.bufs, r.outputBuffers));
  }

  lemma SendLastFrameSize(b: Batch, partial: nat, filled: seq<int>)
    ensures SendLastFrame(b, partial, filled).batch.batchSize == b.batchSize
    ensures SendLastFrame(b, partial, filled).batch.progress == if partial > b.progress then partial else b.progress
    ensures SendLastFrame(b, partial, filled).batch.shutterDelivered == b.shutterDelivered
  {
    var b1 := SendMetadataIf(b, partial).batch;
    assert SendBuffersIf(b1, filled).batch.batchSize == b1.batchSize;
    assert SendBuffersIf(b1, filled).batch.progress == b1.progress;
    assert SendBuffersIf(b1, filled).batch.shutterDelivered == b1.shutterDelivered;
  }

  lemma LinkResult(acted: seq<Event>, b: Batch, r: CaptureResult, streams: seq<int>, n: nat)
    requires BatchLink(acted, b) && BatchInv(b, streams, n) && ResultFits(b, r, n)
    ensures BatchLink(acted + [ResultEvent(r)], QueueResult(b, r).batch)
  {
    var ev := ResultEvent(r);
    var acted' := acted + [ev];
    var b' := QueueResult(b, r).batch;
    LinkGrows(acted, ev, b);
    assert acted'[|acted|] == ev;
    SendLastFrameSize(Queued(b, r), r.partialResult, FilledStreams(b.bufs, r.outputBuffers));
    QueueKeeps(b, ev);
    assert ShutterLink(acted', b') && ProgressLink(acted', b');
    forall s | s in b'.bufs
      ensures StreamLink(acted', b', s)
    {
      LinkResultStream(acted, b, r, streams, n, s);
    }
  }

  lemma LinkResultStream(acted: seq<Event>, b: Batch, r: CaptureResult, streams: seq<int>, n: nat, s: int)
    requires BatchLink(acted, b) && BatchInv(b, streams, n) && ResultFits(b, r, n) && s in b.bufs
    ensures s in QueueResult(b, r).batch.bufs
    ensures StreamLink(acted + [ResultEvent(r)], QueueResult(b, r).batch, s)
  {
    assert StreamLink(acted, b, s);
    SeenAfterResult(b, r, streams, n, s);
    QueueKeeps(b, ResultEvent(r));
    SameSize(b, r);
    StreamLinkAfter(acted, ResultEvent(r), b, QueueResult(b, r).batch, s);
  }

  lemma StreamLinkAfter(acted: seq<Event>, ev: Event, b: Batch, b': Batch, s: int)
    requires s in b.bufs && s in b'.bufs && StreamLink(acted, b, s)
    requires b'.firstFrame == b.firstFrame && b'.lastFrame == b.lastFrame
    requires if Returns(ev, s) then ev.Frame() == b.firstFrame + Seen(b, s) && Seen(b', s) == Seen(b, s) + 1
             else Seen(b', s) == Seen(b, s)
    ensures StreamLink(acted + [ev], b', s)
  {
    var acted' := acted + [ev];
    assert acted'[|acted|] == ev;
    if Returns(ev, s) {
      assert HasReturned(acted', s, ev.Frame());
    } else if Seen(b, s) > 0 {
      ReturnedGrows(acted, ev, s, b.firstFrame + Seen(b, s) - 1);
    }
  }

  // ---- every step keeps the contents and the links ----

  /** The live batch an Act step works on, if any. */
  function Target(st: State, t: Thread): Option<nat>
    requires Enabled(st, Act(t))
  {
    var b := st.PcOf(t).batch;
    if b.Some? && !st.batches[b.value].removed then b else None
  }

  /** Only the target of an event contains its frame, among the live batches. */
  lemma OnlyTarget(st: State, t: Thread, id: nat)
    requires Shape(st) && CanStep(st, Act(t)) && id < |st.batches| && !st.batches[id].removed
    requires st.batches[id].Contains(st.PcOf(t).event.Frame())
    ensures Target(st, t) == Some(id)
  {
    assert PcOk(st, t);
    var b := st.PcOf(t).batch;
    if b.Some? {
      assert b.value == id;
    }
  }

  lemma TargetFits(st: State, t: Thread)
    requires Shape(st) && Contents(st) && Links(st) && CanStep(st, Act(t)) && Target(st, t).Some?
    ensures var b := st.batches[Target(st, t).value];
            && b.Contains(st.PcOf(t).event.Frame()) && BatchInv(b, st.streams, st.numPartial) && BatchLink(st.acted, b)
            && match st.PcOf(t).event
               case ShutterEvent(m) => m.Shutter? && !b.shutterDelivered
               case ResultEvent(r) => ResultFits(b, r, st.numPartial)
  {
    var id := Target(st, t).value;
    var b := st.batches[id];
    assert PcOk(st, t);
    assert BatchLink(st.acted, b);
    match st.PcOf(t).event
    case ShutterEvent(m) =>
      assert !exists i :: 0 <= i < |st.acted| && LastShutter(st.acted[i], b);
    case ResultEvent(r) => ResultFitsBatch(st, id, r);
  }

  /** What queueing an event does to its target. */
  lemma TargetAfter(st: State, t: Thread)
    requires Shape(st) && Contents(st) && Links(st) && CanStep(st, Act(t)) && Target(st, t).Some?
    ensures var ev := st.PcOf(t).event;
            var b' := Queue(st.batches[Target(st, t).value], ev).batch;
            BatchInv(b', st.streams, st.numPartial) && BatchLink(st.acted + [ev], b')
  {
    TargetFits(st, t);
    var b := st.batches[Target(st, t).value];
    match st.PcOf(t).event
    case ShutterEvent(m) =>
      QueueShutterSound(b, m, st.streams, st.numPartial);
      LinkShutter(st.acted, b, m);
    case ResultEvent(r) =>
      QueueResultSound(b, r, st.streams, st.numPartial);
      LinkResult(st.acted, b, r, st.streams, st.numPartial);
  }

  lemma ActKeeps(st: State, t: Thread)
    requires Shape(st) && Contents(st) && Links(st) && CanStep(st, Act(t))
    ensures Contents(ActOn(st, t)) && Links(ActOn(st, t))
  {
    var st' := ActOn(st, t);
    var ev := st.PcOf(t).event;
    if Target(st, t).Some? {
      TargetAfter(st, t);
      QueueKeeps(st.batches[Target(st, t).value], ev);
    }
    forall id | 0 <= id < |st'.batches| && !st'.batches[id].removed
      ensures BatchLink(st'.acted, st'.batches[id])
    {
      if Target(st, t) != Some(id) {
        if st.batches[id].Contains(ev.Frame()) {
          OnlyTarget(st, t, id);
        }
        LinkKeeps(st.acted, ev, st.batches[id]);
      }
    }
  }

  lemma RegisterKeeps(st: State, f: nat, n: nat)
    requires Shape(st) && Contents(st) && Links(st) && CanStep(st, Register(f, n))
    ensures Contents(Apply(st, Register(f, n))) && Links(Apply(st, Register(f, n)))
  {
    var b := NewBatch(f, n, st.streams, st.numPartial);
    forall s | s in b.bufs
      ensures StreamLink(st.acted, b, s)
    {
      assert Seen(b, s) == 0;
    }
    assert BatchLink(st.acted, b);
  }

  lemma MarkKeeps(st: State, t: Thread)
    requires Shape(st) && Contents(st) && Links(st) && CanStep(st, Mark(t))
    ensures Contents(Apply(st, Mark(t))) && Links(Apply(st, Mark(t)))
  {
    if st.deque != [] && AllDelivered(st.batches[st.deque[0]]) {
      var b := st.batches[st.deque[0]];
      assert !FrontMarked(st);
      InvIsSound(b, st.streams, st.numPartial);
      forall c
        ensures QueuedItems(b.(removed := true), c) == []
      {
        AllDeliveredIsEmpty(b, st.streams, st.numPartial, c);
        assert QueuedItems(b.(removed := true), c) == QueuedItems(b, c);
      }
      assert Drained(b.(removed := true));
    }
  }

  lemma FlushFrontKeeps(st: State, t: Thread)
    requires Shape(st) && Contents(st) && Links(st) && CanStep(st, FlushFront(t))
    ensures Contents(Apply(st, FlushFront(t))) && Links(Apply(st, FlushFront(t)))
  {
    var b := st.batches[st.deque[0]];
    var b' := Flush(b, st.streams, st.numPartial).batch;
    FrontIsLive(st, t);
    FlushKeeps(b, st.streams, st.numPartial);
    forall c
      ensures QueuedItems(b', c) == []
    {
      FlushAccount(b, st.streams, st.numPartial, c);
    }
    assert Drained(b');
  }

  lemma FrontIsLive(st: State, t: Thread)
    requires Shape(st) && CanStep(st, FlushFront(t))
    ensures !st.batches[st.deque[0]].removed
  {
    assert st.lock == Some(t);
  }

  lemma StepKeepsContents(st: State, step: Step)
    requires Shape(st) && Contents(st) && Links(st) && CanStep(st, step)
    ensures Contents(Apply(st, step)) && Links(Apply(st, step))
  {
    match step
    case Register(f, n) => RegisterKeeps(st, f, n);
    case Act(t) => ActKeeps(st, t);
    case Mark(t) => MarkKeeps(st, t);
    case FlushFront(t) => FlushFrontKeeps(st, t);
    case _ =>
  }

  // ---- conservation ----

  function Parts(st: State, c: Channel): seq<seq<Item>>
    requires DequeOk(st.batches, st.deque)
  {
    seq(|st.deque|, i requires 0 <= i < |st.deque| => QueuedItems(st.batches[st.deque[i]], c))
  }

  /** Everything the deque holds back on a channel, oldest batch first. */
  function StillQueued(st: State, c: Channel): seq<Item>
    requires DequeOk(st.batches, st.deque)
  {
    Flat(Parts(st, c))
  }

  ghost predicate Conserved(st: State, c: Channel)
    requires DequeOk(st.batches, st.deque)
  {
    EventsItems(st.acted, c) == LogItems(st.log, c) + StillQueued(st, c)
  }

  lemma {:induction false} FlatOnly(xs: seq<seq<Item>>, i: nat)
    requires i < |xs| && forall j :: 0 <= j < |xs| && j != i ==> xs[j] == []
    ensures Flat(xs) == xs[i]
    decreases |xs|
  {
    if i == |xs| - 1 {
      FlatEmpty(xs[..i]);
    } else {
      FlatOnly(xs[..|xs| - 1], i);
    }
  }

  /** Frames decide: a live batch holds metadata and shutters of its own frames only. */
  lemma HoldsOwnFrames(b: Batch, streams: seq<int>, n: nat, c: Channel)
    requires BatchInv(b, streams, n) && (c.MetadataChannel? || c.ShutterChannel?) && !b.Contains(c.frame)
    ensures QueuedItems(b, c) == []
  {
    if c.ShutterChannel? {
      NoMessages(b.shutterMsgs, c);
    } else if c.partial in b.mds {
      NoMetadataOf(b.mds[c.partial], c.frame);
    }
  }

  lemma NoMessages(ms: seq<NotifyMsg>, c: Channel)
    requires c.ShutterChannel? && forall i :: 0 <= i < |ms| ==> ms[i].frameNumber != c.frame
    ensures MsgsItems(ms, c) == []
  {
    FlatEmpty(seq(|ms|, i requires 0 <= i < |ms| => MsgItems(ms[i], c)));
  }

  lemma {:induction false} NoMetadataOf(mds: seq<(nat, Bytes)>, frame: nat)
    requires forall i :: 0 <= i < |mds| ==> mds[i].0 != frame
    ensures MetadataOf(mds, frame) == []
    decreases |mds|
  {
    if mds != [] {
      NoMetadataOf(mds[..|mds| - 1], frame);
    }
  }

  /** A stream about to return frame `frame` has nothing queued in any batch not containing it. */
  lemma OtherQueuesEmpty(st: State, id: nat, s: int, frame: nat)
    requires Shape(st) && Contents(st) && Links(st) && id < |st.batches| && !st.batches[id].removed
    requires s in st.batches[id].bufs && !st.batches[id].Contains(frame) && BufferInOrder(st, frame, s)
    ensures QueuedItems(st.batches[id], BufferChannel(s)) == []
  {
    var b := st.batches[id];
    assert BatchLink(st.acted, b);
    assert StreamLink(st.acted, b, s);
    assert QueueInv(b.bufs[s], s, b.batchSize);
    if b.lastFrame < frame {
      assert b.Contains(b.lastFrame);
      assert HasReturned(st.acted, s, b.lastFrame);
    } else {
      assert forall f :: f >= frame ==> !HasReturned(st.acted, s, f);
    }
  }

  /** Nothing an operation sends or queues is on a channel it does not concern. */
  lemma TargetUntouched(st: State, t: Thread, c: Channel)
    requires Shape(st) && Contents(st) && Links(st) && CanStep(st, Act(t)) && Target(st, t).Some?
    requires EventItems(st.PcOf(t).event, c) == []
    requires c.BufferChannel? || c.InputChannel?
             || !st.batches[Target(st, t).value].Contains(c.frame)
    ensures var o := Queue(st.batches[Target(st, t).value], st.PcOf(t).event);
            LogItems(o.calls, c) == [] && QueuedItems(o.batch, c) == QueuedItems(st.batches[Target(st, t).value], c)
  {
    var b, ev := st.batches[Target(st, t).value], st.PcOf(t).event;
    var o := Queue(b, ev);
    assert QueuedItems(o.batch, c) == QueuedItems(b, c) by {
      TargetKeeps(st, t, c);
    }
    TargetAccount(st, t, c);
    NothingSent(LogItems(o.calls, c), QueuedItems(o.batch, c), QueuedItems(b, c));
  }

  lemma NothingSent(sent: seq<Item>, kept: seq<Item>, before: seq<Item>)
    requires sent + kept == before + [] && kept == before
    ensures sent == []
  {
    assert |sent| == 0;
  }

  lemma TargetKeeps(st: State, t: Thread, c: Channel)
    requires Shape(st) && Contents(st) && Links(st) && CanStep(st, Act(t)) && Target(st, t).Some?
    requires EventItems(st.PcOf(t).event, c) == []
    requires c.BufferChannel? || c.InputChannel?
             || !st.batches[Target(st, t).value].Contains(c.frame)
    ensures QueuedItems(Queue(st.batches[Target(st, t).value], st.PcOf(t).event).batch, c)
         == QueuedItems(st.batches[Target(st, t).value], c)
  {
    var b, ev := st.batches[Target(st, t).value], st.PcOf(t).event;
    assert BatchInv(b, st.streams, st.numPartial) && (ev.ResultEvent? ==> ResultFits(b, ev.result, st.numPartial)) by {
      TargetFits(st, t);
    }
    match c {
      case BufferChannel(s) => SameQueue(b, ev, st.streams, st.numPartial, s);
      case InputChannel(_) =>
      case _ =>
        HoldsOwnFrames(b, st.streams, st.numPartial, c);
        TargetAccount(st, t, c);
        NothingKept(LogItems(Queue(b, ev).calls, c), QueuedItems(Queue(b, ev).batch, c));
    }
  }

  lemma NothingKept(sent: seq<Item>, kept: seq<Item>)
    requires sent + kept == [] + []
    ensures kept == []
  {
    assert |kept| == 0;
  }

  lemma SameQueue(b: Batch, ev: Event, streams: seq<int>, n: nat, s: int)
    requires BatchInv(b, streams, n) && (ev.ResultEvent? ==> ResultFits(b, ev.result, n))
    requires EventItems(ev, BufferChannel(s)) == []
    ensures QueuedItems(Queue(b, ev).batch, BufferChannel(s)) == QueuedItems(b, BufferChannel(s))
  {
    QueueKeeps(b, ev);
    if ev.ResultEvent? && s in b.bufs {
      assert |Labelled(ev.result.frameNumber, BuffersOf(ev.result.outputBuffers, s))| == 0;
      SeenAfterResult(b, ev.result, streams, n, s);
    }
  }

  /** What the target sends and keeps is what it kept followed by the event. */
  lemma TargetAccount(st: State, t: Thread, c: Channel)
    requires Shape(st) && Contents(st) && Links(st) && CanStep(st, Act(t)) && Target(st, t).Some?
    ensures var b := st.batches[Target(st, t).value];
            var o := Queue(b, st.PcOf(t).event);
            LogItems(o.calls, c) + QueuedItems(o.batch, c) == QueuedItems(b, c) + EventItems(st.PcOf(t).event, c)
  {
    TargetFits(st, t);
    var b := st.batches[Target(st, t).value];
    match st.PcOf(t).event
    case ShutterEvent(m) => QueueShutterAccount(b, m, c);
    case ResultEvent(r) => QueueResultAccount(b, r, st.streams, st.numPartial, c);
  }

  /** When an event has something on a channel, every batch but its target is empty there. */
  lemma OthersEmpty(st: State, t: Thread, c: Channel, id: nat)
    requires Shape(st) && Contents(st) && Links(st) && CanStep(st, Act(t))
    requires id < |st.batches| && Target(st, t) != Some(id)
    requires EventItems(st.PcOf(t).event, c) != []
             || (Target(st, t).Some? && (c.MetadataChannel? || c.ShutterChannel?)
                 && st.batches[Target(st, t).value].Contains(c.frame))
    ensures QueuedItems(st.batches[id], c) == []
  {
    var ev := st.PcOf(t).event;
    if !st.batches[id].removed {
      if st.batches[id].Contains(ev.Frame()) {
        OnlyTarget(st, t, id);
      }
      if c.MetadataChannel? || c.ShutterChannel? {
        HoldsOwnFrames(st.batches[id], st.streams, st.numPartial, c);
      } else if c.BufferChannel? && c.streamId in st.batches[id].bufs {
        OtherQueuesEmpty(st, id, c.streamId, ev.Frame());
      }
    }
  }

  // ---- conservation, step by step ----

  lemma FlatUpdate(xs: seq<seq<Item>>, i: nat, y: seq<Item>)
    requires i < |xs| && forall j :: 0 <= j < |xs| && j != i ==> xs[j] == []
    ensures Flat(xs) == xs[i] && Flat(xs[i := y]) == y
  {
    FlatOnly(xs, i);
    FlatOnly(xs[i := y], i);
  }

  /** A step that makes `calls` and takes in `arrived` shifts the queue by exactly the difference. */
  ghost predicate Shifts(st: State, calls: seq<CallbackCall>, arrived: seq<Item>, st': State, c: Channel)
    requires DequeOk(st.batches, st.deque) && DequeOk(st'.batches, st'.deque)
  {
    LogItems(calls, c) + StillQueued(st', c) == StillQueued(st, c) + arrived
  }

  lemma ShiftConserves(st: State, calls: seq<CallbackCall>, arrived: seq<Item>, st': State, c: Channel)
    requires DequeOk(st.batches, st.deque) && DequeOk(st'.batches, st'.deque)
    requires Shifts(st, calls, arrived, st', c) && Conserved(st, c)
    requires st'.log == st.log + calls && EventsItems(st'.acted, c) == EventsItems(st.acted, c) + arrived
    ensures Conserved(st', c)
  {
    LogItemsConcat(st.log, calls, c);
    Exchange(LogItems(st.log, c), StillQueued(st, c), arrived, LogItems(calls, c), StillQueued(st', c));
  }

  lemma Exchange(sent: seq<Item>, queued: seq<Item>, arrived: seq<Item>, more: seq<Item>, kept: seq<Item>)
    requires more + kept == queued + arrived
    ensures (sent + queued) + arrived == (sent + more) + kept
  {
    assert (sent + queued) + arrived == sent + (queued + arrived);
    assert (sent + more) + kept == sent + (more + kept);
  }

  lemma DirectItems(ev: Event, c: Channel)
    ensures LogItems([Direct(ev)], c) == EventItems(ev, c)
  {
    OneCall(Direct(ev), c);
    match ev
    case ShutterEvent(m) => OneMsg(m, c);
    case ResultEvent(r) => OneResult(r, true, c);
  }

  /** An event sent straight up finds nothing of its channel in the queue. */
  lemma NothingAhead(st: State, t: Thread, c: Channel)
    requires Shape(st) && Contents(st) && Links(st) && CanStep(st, Act(t)) && Target(st, t).None?
    requires EventItems(st.PcOf(t).event, c) != []
    ensures StillQueued(st, c) == []
  {
    forall i | 0 <= i < |st.deque|
      ensures Parts(st, c)[i] == []
    {
      OthersEmpty(st, t, c, st.deque[i]);
    }
    FlatEmpty(Parts(st, c));
  }

  lemma DirectShifts(st: State, t: Thread, c: Channel)
    requires Shape(st) && Contents(st) && Links(st) && CanStep(st, Act(t)) && Target(st, t).None?
    ensures Shifts(st, [Direct(st.PcOf(t).event)], EventItems(st.PcOf(t).event, c), ActOn(st, t), c)
  {
    DirectItems(st.PcOf(t).event, c);
    assert Parts(ActOn(st, t), c) == Parts(st, c);
    if EventItems(st.PcOf(t).event, c) != [] {
      NothingAhead(st, t, c);
    }
  }

  lemma QueueParts(st: State, t: Thread, c: Channel)
    requires Shape(st) && CanStep(st, Act(t)) && Target(st, t).Some?
    ensures var id := Target(st, t).value;
            && 0 <= id - Head(st) < |st.deque| && st.deque[id - Head(st)] == id
            && Parts(ActOn(st, t), c) ==
               Parts(st, c)[id - Head(st) := QueuedItems(Queue(st.batches[id], st.PcOf(t).event).batch, c)]
  {
    var id := Target(st, t).value;
    assert st.deque[id - Head(st)] == id;
  }

  lemma UntouchedShifts(st: State, t: Thread, c: Channel)
    requires Shape(st) && Contents(st) && Links(st) && CanStep(st, Act(t)) && Target(st, t).Some?
    requires EventItems(st.PcOf(t).event, c) == []
    requires c.BufferChannel? || c.InputChannel? || !st.batches[Target(st, t).value].Contains(c.frame)
    ensures Shifts(st, Queue(st.batches[Target(st, t).value], st.PcOf(t).event).calls, [], ActOn(st, t), c)
  {
    QueueParts(st, t, c);
    TargetUntouched(st, t, c);
    assert Parts(ActOn(st, t), c) == Parts(st, c);
  }

  lemma QueueShifts(st: State, t: Thread, c: Channel)
    requires Shape(st) && Contents(st) && Links(st) && CanStep(st, Act(t)) && Target(st, t).Some?
    ensures Shifts(st, Queue(st.batches[Target(st, t).value], st.PcOf(t).event).calls,
                   EventItems(st.PcOf(t).event, c), ActOn(st, t), c)
  {
    var id := Target(st, t).value;
    var ev := st.PcOf(t).event;
    var b := st.batches[id];
    var at := id - Head(st);
    QueueParts(st, t, c);
    if EventItems(ev, c) == [] && (c.BufferChannel? || c.InputChannel? || !b.Contains(c.frame)) {
      UntouchedShifts(st, t, c);
    } else {
      TargetAccount(st, t, c);
      OthersAllEmpty(st, t, c, at);
      UpdateShifts(st, Queue(b, ev).calls, EventItems(ev, c), ActOn(st, t), c, at, QueuedItems(Queue(b, ev).batch, c));
    }
  }

  lemma UpdateShifts(st: State, calls: seq<CallbackCall>, arrived: seq<Item>, st': State, c: Channel,
                     at: nat, part: seq<Item>)
    requires DequeOk(st.batches, st.deque) && DequeOk(st'.batches, st'.deque)
    requires at < |st.deque| && Parts(st', c) == Parts(st, c)[at := part]
    requires forall j :: 0 <= j < |st.deque| && j != at ==> Parts(st, c)[j] == []
    requires LogItems(calls, c) + part == Parts(st, c)[at] + arrived
    ensures Shifts(st, calls, arrived, st', c)
  {
    FlatUpdate(Parts(st, c), at, part);
  }

  lemma OthersAllEmpty(st: State, t: Thread, c: Channel, at: nat)
    requires Shape(st) && Contents(st) && Links(st) && CanStep(st, Act(t)) && Target(st, t).Some?
    requires at < |st.deque| && st.deque[at] == Target(st, t).value
    requires EventItems(st.PcOf(t).event, c) != []
             || ((c.MetadataChannel? || c.ShutterChannel?) && st.batches[Target(st, t).value].Contains(c.frame))
    ensures forall j :: 0 <= j < |st.deque| && j != at ==> Parts(st, c)[j] == []
  {
    forall j | 0 <= j < |st.deque| && j != at
      ensures Parts(st, c)[j] == []
    {
      OthersEmpty(st, t, c, st.deque[j]);
    }
  }

  lemma FlatTail(xs: seq<seq<Item>>)
    requires xs != []
    ensures Flat(xs) == xs[0] + Flat(xs[1..])
  {
    FlatConcat([xs[0]], xs[1..]);
    assert xs == [xs[0]] + xs[1..];
    FlatOnly([xs[0]], 0);
  }

  /** Replacing the front batch by one with nothing queued. */
  lemma FrontReplaced(st: State, b': Batch, st': State, c: Channel)
    requires DequeIsTail(st) && st.deque != [] && st'.deque == st.deque
    requires st'.batches == st.batches[st.deque[0] := b'] && QueuedItems(b', c) == []
    ensures DequeOk(st.batches, st.deque) && DequeOk(st'.batches, st'.deque)
    ensures Parts(st, c) != [] && Parts(st', c) == [[]] + Parts(st, c)[1..]
  {
    forall i | 0 < i < |st.deque|
      ensures Parts(st', c)[i] == Parts(st, c)[i]
    {
      assert st.deque[i] != st.deque[0];
    }
  }

  lemma FrontFlushed(st: State, t: Thread, c: Channel)
    requires Shape(st) && Contents(st) && CanStep(st, FlushFront(t))
    ensures var o := Flush(st.batches[st.deque[0]], st.streams, st.numPartial);
            QueuedItems(o.batch, c) == [] && LogItems(o.calls, c) == QueuedItems(st.batches[st.deque[0]], c)
  {
    FrontIsLive(st, t);
    FlushAccount(st.batches[st.deque[0]], st.streams, st.numPartial, c);
  }

  lemma FlushParts(st: State, t: Thread, c: Channel)
    requires Shape(st) && Contents(st) && CanStep(st, FlushFront(t))
    ensures DequeOk(Apply(st, FlushFront(t)).batches, Apply(st, FlushFront(t)).deque)
    ensures Parts(st, c) != [] && Parts(Apply(st, FlushFront(t)), c) == [[]] + Parts(st, c)[1..]
    ensures LogItems(Flush(st.batches[st.deque[0]], st.streams, st.numPartial).calls, c) == Parts(st, c)[0]
  {
    FrontFlushed(st, t, c);
    FrontReplaced(st, Flush(st.batches[st.deque[0]], st.streams, st.numPartial).batch, Apply(st, FlushFront(t)), c);
  }

  lemma FrontShifts(st: State, calls: seq<CallbackCall>, st': State, c: Channel)
    requires DequeOk(st.batches, st.deque) && DequeOk(st'.batches, st'.deque)
    requires Parts(st, c) != [] && Parts(st', c) == [[]] + Parts(st, c)[1..]
    requires LogItems(calls, c) == Parts(st, c)[0]
    ensures Shifts(st, calls, [], st', c)
  {
    var rest := Parts(st, c)[1..];
    FlatTail(Parts(st, c));
    assert Flat([[]] + rest) == Flat(rest) by {
      FlatTail([[]] + rest);
      assert ([[]] + rest)[1..] == rest;
    }
  }

  lemma FlushShifts(st: State, t: Thread, c: Channel)
    requires Shape(st) && Contents(st) && CanStep(st, FlushFront(t))
    ensures DequeOk(Apply(st, FlushFront(t)).batches, Apply(st, FlushFront(t)).deque)
    ensures Shifts(st, Flush(st.batches[st.deque[0]], st.streams, st.numPartial).calls, [], Apply(st, FlushFront(t)), c)
  {
    FlushParts(st, t, c);
    FrontShifts(st, Flush(st.batches[st.deque[0]], st.streams, st.numPartial).calls, Apply(st, FlushFront(t)), c);
  }

  lemma PopShifts(st: State, st': State, c: Channel)
    requires Shape(st) && Contents(st) && FrontMarked(st)
    requires st'.deque == st.deque[1..] && st'.batches == st.batches
    ensures DequeOk(st'.batches, st'.deque) && Shifts(st, [], [], st', c)
  {
    var front := st.batches[st.deque[0]];
    assert Drained(front);
    assert QueuedItems(front, c) == [];
    assert Parts(st', c) == Parts(st, c)[1..];
    FlatTail(Parts(st, c));
    OneCallless(c);
  }

  lemma OneCallless(c: Channel)
    ensures LogItems([], c) == []
  {
  }

  lemma SamePartsShift(st: State, calls: seq<CallbackCall>, st': State, c: Channel)
    requires DequeOk(st.batches, st.deque) && DequeOk(st'.batches, st'.deque)
    requires Parts(st', c) == Parts(st, c) && LogItems(calls, c) == []
    ensures Shifts(st, calls, [], st', c)
  {
  }

  lemma RegisterShifts(st: State, f: nat, n: nat, c: Channel)
    requires Shape(st) && CanStep(st, Register(f, n))
    ensures DequeOk(Apply(st, Register(f, n)).batches, Apply(st, Register(f, n)).deque)
    ensures Shifts(st, [], [], Apply(st, Register(f, n)), c)
  {
    var st' := Apply(st, Register(f, n));
    var b := NewBatch(f, n, st.streams, st.numPartial);
    assert QueuedItems(b, c) == [];
    FlatAppend(Parts(st, c), []);
    assert Parts(st', c) == Parts(st, c) + [[]];
  }

  lemma MarkShifts(st: State, t: Thread, c: Channel)
    requires Shape(st) && CanStep(st, Mark(t))
    ensures DequeOk(Apply(st, Mark(t)).batches, Apply(st, Mark(t)).deque)
    ensures Shifts(st, [], [], Apply(st, Mark(t)), c)
  {
    var st' := Apply(st, Mark(t));
    if st.deque != [] {
      var b := st.batches[st.deque[0]];
      assert QueuedItems(b.(removed := true), c) == QueuedItems(b, c);
    }
    assert Parts(st', c) == Parts(st, c);
  }

  lemma ErrorItems(err: NotifyMsg, c: Channel)
    requires err.Error?
    ensures LogItems([Notified([err])], c) == []
  {
    OneCall(Notified([err]), c);
    OneMsg(err, c);
  }
}
