/**
 When a batch gives up what it holds: the last shutter, the last result and the last
 buffer of a batch each release what came before, a batch that has had all of them is
 complete, and a complete batch at the front leaves the deque when it is checked.
 */
module BatcherCompletion {
  import opened CaptureTypes
  import opened InflightBatchModel
  import opened InflightBatchProofs
  import opened BatcherProtocol
  import opened BatcherInvariants
  import opened BatcherConservation
  import opened BatcherTheorems

  // ---- what the last event of each kind has done ----

  ghost predicate HadLastShutter(acted: seq<Event>, b: Batch) {
    exists i :: 0 <= i < |acted| && LastShutter(acted[i], b)
  }

  /** The last frame's results so far have been answered up to their partial index. */
  ghost predicate ProgressDone(acted: seq<Event>, b: Batch) {
    forall i :: 0 <= i < |acted| && LastResult(acted[i], b) ==> acted[i].result.partialResult <= b.progress
  }

  ghost predicate Released(acted: seq<Event>, b: Batch) {
    (HadLastShutter(acted, b) ==> b.shutterDelivered) && ProgressDone(acted, b)
  }

  ghost predicate AllReleased(st: State) {
    forall id :: 0 <= id < |st.batches| && !st.batches[id].removed ==> Released(st.acted, st.batches[id])
  }

  /** A batch that grew keeps its releases if the event, if any, was of another frame. */
  lemma ReleasedStays(acted: seq<Event>, b: Batch, acted': seq<Event>, b': Batch)
    requires Released(acted, b) && EvolvesTo(b, b') && |acted| <= |acted'| <= |acted| + 1 && acted == acted'[..|acted|]
    requires |acted'| > |acted| ==> acted'[|acted|].Frame() != b.lastFrame
    ensures Released(acted', b')
  {
    assert forall i :: 0 <= i < |acted| ==> acted'[i] == acted[i];
  }

  lemma ReleasedAfterShutter(acted: seq<Event>, b: Batch, m: NotifyMsg)
    requires Released(acted, b)
    ensures Released(acted + [ShutterEvent(m)], QueueShutter(b, m).batch)
  {
    var acted' := acted + [ShutterEvent(m)];
    assert forall i :: 0 <= i < |acted| ==> acted'[i] == acted[i];
    QueueKeeps(b, ShutterEvent(m));
  }

  lemma ReleasedAfterResult(acted: seq<Event>, b: Batch, r: CaptureResult)
    requires Released(acted, b)
    ensures Released(acted + [ResultEvent(r)], QueueResult(b, r).batch)
  {
    var acted' := acted + [ResultEvent(r)];
    assert forall i :: 0 <= i < |acted| ==> acted'[i] == acted[i];
    QueueKeeps(b, ResultEvent(r));
    SendLastFrameSize(Queued(b, r), r.partialResult, FilledStreams(b.bufs, r.outputBuffers));
  }

  lemma ActReleases(st: State, t: Thread, id: nat)
    requires Shape(st) && AllReleased(st) && CanStep(st, Act(t))
    requires id < |st.batches| && !ActOn(st, t).batches[id].removed
    ensures Released(ActOn(st, t).acted, ActOn(st, t).batches[id])
  {
    var st', ev := ActOn(st, t), st.PcOf(t).event;
    StepEvolves(st, Act(t));
    assert EvolvesTo(st.batches[id], st'.batches[id]);
    if Target(st, t) == Some(id) {
      match ev
      case ShutterEvent(m) => ReleasedAfterShutter(st.acted, st.batches[id], m);
      case ResultEvent(r) => ReleasedAfterResult(st.acted, st.batches[id], r);
    } else {
      if st.batches[id].Contains(ev.Frame()) {
        OnlyTarget(st, t, id);
      }
      assert st.batches[id].Contains(st.batches[id].lastFrame);
      ReleasedStays(st.acted, st.batches[id], st'.acted, st'.batches[id]);
    }
  }

  lemma StepReleases(st: State, step: Step)
    requires Shape(st) && AllReleased(st) && CanStep(st, step)
    ensures AllReleased(Apply(st, step))
  {
    var st' := Apply(st, step);
    StepEvolves(st, step);
    forall id: nat | id < |st'.batches| && !st'.batches[id].removed
      ensures Released(st'.acted, st'.batches[id])
    {
      if id >= |st.batches| {
        NewReleases(st, step.frameNumber, step.batchSize);
      } else if step.Act? {
        ActReleases(st, step.t, id);
      } else {
        assert EvolvesTo(st.batches[id], st'.batches[id]);
        ReleasedStays(st.acted, st.batches[id], st'.acted, st'.batches[id]);
      }
    }
  }

  /** Of a new batch nothing has come yet. */
  lemma NewReleases(st: State, f: nat, n: nat)
    requires CanStep(st, Register(f, n))
    ensures Released(st.acted, NewBatch(f, n, st.streams, st.numPartial))
  {
  }

  lemma {:induction false} RunReleases(st: State, steps: seq<Step>)
    requires Inv(st) && AllReleased(st) && ValidRun(st, steps)
    ensures Inv(Exec(st, steps)) && AllReleased(Exec(st, steps))
    decreases |steps|
  {
    if steps != [] {
      StepInv(st, steps[0]);
      StepReleases(st, steps[0]);
      RunReleases(Apply(st, steps[0]), steps[1..]);
    }
  }

  /** What holds of every state a run can reach. */
  ghost predicate Reached(st: State, numPartial: nat, steps: seq<Step>) {
    ValidRun(Init(numPartial), steps) && st == Exec(Init(numPartial), steps)
  }

  lemma ReachedInv(st: State, numPartial: nat, steps: seq<Step>)
    requires Reached(st, numPartial, steps)
    ensures Inv(st) && AllReleased(st)
  {
    InitInv(numPartial);
    RunReleases(Init(numPartial), steps);
  }

  // ---- what each last event releases ----

  /** Of a batch's frame, no other batch in the deque holds a shutter or metadata. */
  lemma OnlyOwnBatch(st: State, id: nat, c: Channel)
    requires Inv(st) && id < |st.batches| && !st.batches[id].removed
    requires (c.ShutterChannel? || c.MetadataChannel?) && st.batches[id].Contains(c.frame)
    requires QueuedItems(st.batches[id], c) == []
    ensures LogItems(st.log, c) == EventsItems(st.acted, c)
  {
    forall i | 0 <= i < |st.deque|
      ensures Parts(st, c)[i] == []
    {
      var b := st.batches[st.deque[i]];
      if st.deque[i] != id && !b.removed {
        HoldsOwnFrames(b, st.streams, st.numPartial, c);
      }
    }
    FlatEmpty(Parts(st, c));
    assert Conserved(st, c);
  }

  /**
   The last shutter delivers. In every run, once the shutter of a batch's last frame has
   been handled, every shutter of the batch's frames handed over so far is in the log,
   whether or not the batch has left the deque.
   */
  lemma LastShutterDelivers(st: State, numPartial: nat, steps: seq<Step>, id: nat, f: nat)
    requires Reached(st, numPartial, steps) && id < |st.batches| && st.batches[id].Contains(f)
    requires HadLastShutter(st.acted, st.batches[id])
    ensures LogItems(st.log, ShutterChannel(f)) == EventsItems(st.acted, ShutterChannel(f))
    ensures !st.batches[id].removed ==> st.batches[id].shutterDelivered
  {
    ReachedInv(st, numPartial, steps);
    if st.batches[id].removed {
      RemovalDropsNothing(st, id, ShutterChannel(f));
    } else {
      assert BatchInv(st.batches[id], st.streams, st.numPartial);
      NothingElseQueued(st, id, ShutterChannel(f));
      assert Conserved(st, ShutterChannel(f));
    }
  }

  /**
   A last result delivers. Once a result of a batch's last frame with partial index p
   has been handled, all metadata of the batch's frames with partial index at most p
   handed over so far is in the log.
   */
  lemma LastResultDelivers(st: State, numPartial: nat, steps: seq<Step>, id: nat, i: nat, f: nat, p: nat)
    requires Reached(st, numPartial, steps) && id < |st.batches| && st.batches[id].Contains(f)
    requires i < |st.acted| && LastResult(st.acted[i], st.batches[id]) && p <= st.acted[i].result.partialResult
    ensures LogItems(st.log, MetadataChannel(f, p)) == EventsItems(st.acted, MetadataChannel(f, p))
  {
    ReachedInv(st, numPartial, steps);
    var c := MetadataChannel(f, p);
    if st.batches[id].removed {
      RemovalDropsNothing(st, id, c);
    } else {
      assert BatchInv(st.batches[id], st.streams, st.numPartial);
      OnlyOwnBatch(st, id, c);
    }
  }

  /** The last frame's buffer of a stream ends the batch's queue for it. */
  lemma LastBufferEmpties(st: State, id: nat, s: int)
    requires Inv(st) && id < |st.batches| && !st.batches[id].removed && s in st.batches[id].bufs
    requires HasReturned(st.acted, s, st.batches[id].lastFrame)
    ensures st.batches[id].bufs[s].delivered && st.batches[id].bufs[s].buffers == []
  {
    var b := st.batches[id];
    assert BatchLink(st.acted, b) && StreamLink(st.acted, b, s);
    var i :| 0 <= i < |st.acted| && Returns(st.acted[i], s) && st.acted[i].Frame() == b.lastFrame;
    assert b.Contains(st.acted[i].Frame());
    assert QueueInv(b.bufs[s], s, b.batchSize);
  }

  /**
   A last buffer delivers. Once a batched stream's buffer of a batch's last frame has
   been handled, every buffer of the batch's frames on that stream handed over so far
   is in the log, at its own position of the stream.
   */
  lemma LastBufferDelivers(st: State, numPartial: nat, steps: seq<Step>, id: nat, s: int, k: nat)
    requires Reached(st, numPartial, steps) && id < |st.batches| && s in st.batches[id].bufs
    requires HasReturned(st.acted, s, st.batches[id].lastFrame)
    requires k < |EventsItems(st.acted, BufferChannel(s))|
    requires var item := EventsItems(st.acted, BufferChannel(s))[k];
             item.BufferItem? && st.batches[id].Contains(item.frame)
    ensures k < |LogItems(st.log, BufferChannel(s))|
    ensures LogItems(st.log, BufferChannel(s))[k] == EventsItems(st.acted, BufferChannel(s))[k]
  {
    ReachedInv(st, numPartial, steps);
    if st.batches[id].removed {
      RemovalDropsNoBuffer(st, id, s, k);
    } else {
      LastBufferEmpties(st, id, s);
      EmptyQueueSent(st, id, s, k);
    }
  }

  lemma EmptyQueueSent(st: State, id: nat, s: int, k: nat)
    requires Inv(st) && id < |st.batches| && !st.batches[id].removed && s in st.batches[id].bufs
    requires st.batches[id].bufs[s].buffers == []
    requires k < |EventsItems(st.acted, BufferChannel(s))|
    requires var item := EventsItems(st.acted, BufferChannel(s))[k];
             item.BufferItem? && st.batches[id].Contains(item.frame)
    ensures k < |LogItems(st.log, BufferChannel(s))|
    ensures LogItems(st.log, BufferChannel(s))[k] == EventsItems(st.acted, BufferChannel(s))[k]
  {
    var c := BufferChannel(s);
    var all, sent, queued := EventsItems(st.acted, c), LogItems(st.log, c), StillQueued(st, c);
    assert all == sent + queued by {
      assert Conserved(st, c);
    }
    assert all[k] !in queued by {
      NotQueuedElsewhere(st, id, s, queued, all[k]);
    }
    SentIfNotQueued(all, sent, queued, k);
  }

  lemma SentIfNotQueued(all: seq<Item>, sent: seq<Item>, queued: seq<Item>, k: nat)
    requires all == sent + queued && k < |all| && all[k] !in queued
    ensures k < |sent| && sent[k] == all[k]
  {
  }

  /** What is still queued on a stream is of batches whose own queue is not empty. */
  lemma NotQueuedElsewhere(st: State, id: nat, s: int, queued: seq<Item>, item: Item)
    requires Inv(st) && id < |st.batches| && !st.batches[id].removed && s in st.batches[id].bufs
    requires st.batches[id].bufs[s].buffers == []
    requires DequeOk(st.batches, st.deque) && queued == StillQueued(st, BufferChannel(s))
    requires item.BufferItem? && st.batches[id].Contains(item.frame)
    ensures item !in queued
  {
    if item in queued {
      var k :| 0 <= k < |queued| && queued[k] == item;
      QueuedHere(st, s, k, id);
    }
  }

  /** The k-th buffer still queued on a stream is of a batch that has some queued, and of no other. */
  lemma QueuedHere(st: State, s: int, k: nat, id: nat)
    requires Inv(st) && DequeOk(st.batches, st.deque) && k < |StillQueued(st, BufferChannel(s))|
    requires id < |st.batches| && s in st.batches[id].bufs && st.batches[id].bufs[s].buffers == []
    ensures var item := StillQueued(st, BufferChannel(s))[k];
            item.BufferItem? ==> st.batches[id].removed || !st.batches[id].Contains(item.frame)
  {
    var c := BufferChannel(s);
    var i := FlatIndex(Parts(st, c), k);
    var b := st.batches[st.deque[i]];
    assert Drained(b) ==> QueuedItems(b, c) == [];
    assert !b.removed;
    assert QueueInv(b.bufs[s], s, b.batchSize);
    assert st.deque[i] != id;
  }

  // ---- complete batches ----

  /** The batch has had its last shutter, its last result up to the last partial, and every stream's last buffer. */
  ghost predicate Finished(acted: seq<Event>, b: Batch, numPartial: nat) {
    && HadLastShutter(acted, b)
    && (numPartial > 0 ==>
          exists i :: 0 <= i < |acted| && LastResult(acted[i], b) && acted[i].result.partialResult >= numPartial)
    && forall s :: s in b.bufs ==> HasReturned(acted, s, b.lastFrame)
  }

  lemma DeliveredReturned(st: State, id: nat, s: int)
    requires Inv(st) && id < |st.batches| && !st.batches[id].removed && s in st.batches[id].bufs
    requires st.batches[id].bufs[s].delivered
    ensures HasReturned(st.acted, s, st.batches[id].lastFrame)
  {
    var b := st.batches[id];
    assert BatchLink(st.acted, b) && StreamLink(st.acted, b, s);
    assert b.batchSize == b.lastFrame - b.firstFrame + 1;
  }

  /**
   Complete means finished. In every run a batch that has not been removed counts as
   delivered if and only if its last shutter, its last result with the last partial
   index, and each of its streams' last buffer have been handled.
   */
  lemma CompleteIffFinished(st: State, numPartial: nat, steps: seq<Step>, id: nat)
    requires Reached(st, numPartial, steps) && id < |st.batches| && !st.batches[id].removed
    ensures AllDelivered(st.batches[id]) <==> Finished(st.acted, st.batches[id], st.numPartial)
  {
    ReachedInv(st, numPartial, steps);
    CompleteIff(st, id);
  }

  lemma CompleteIff(st: State, id: nat)
    requires Inv(st) && AllReleased(st) && id < |st.batches| && !st.batches[id].removed
    ensures AllDelivered(st.batches[id]) <==> Finished(st.acted, st.batches[id], st.numPartial)
  {
    var b := st.batches[id];
    assert BatchInv(b, st.streams, st.numPartial) && BatchLink(st.acted, b);
    forall s | s in b.bufs
      ensures b.bufs[s].delivered <==> HasReturned(st.acted, s, b.lastFrame)
    {
      if b.bufs[s].delivered {
        DeliveredReturned(st, id, s);
      }
      if HasReturned(st.acted, s, b.lastFrame) {
        LastBufferEmpties(st, id, s);
      }
    }
    assert Released(st.acted, b);
  }

  /**
   Which batch a check removes: the front one, if and only if it is finished; the thread
   then goes on to pop it. Otherwise the check changes nothing but its own thread.
   */
  lemma CheckRemovesIff(st: State, numPartial: nat, steps: seq<Step>, t: Thread)
    requires Reached(st, numPartial, steps) && CanStep(st, Mark(t))
    ensures var st' := Apply(st, Mark(t));
            var finished := st.deque != [] && Finished(st.acted, st.batches[st.deque[0]], st.numPartial);
            && (finished ==> st'.batches[st.deque[0]].removed && CanStep(st', Pop(t))
                             && Apply(st', Pop(t)).deque == st.deque[1..])
            && (!finished ==> st' == st.(pcs := st.pcs[t := Idle]))
  {
    ReachedInv(st, numPartial, steps);
    if st.deque != [] {
      assert !FrontMarked(st) && !st.batches[st.deque[0]].removed;
      CompleteIff(st, st.deque[0]);
    }
  }

  /** A thread goes on to check exactly when what it handled was queued in a batch and was of its last frame. */
  lemma LastFrameChecks(st: State, numPartial: nat, steps: seq<Step>, t: Thread)
    requires Reached(st, numPartial, steps) && CanStep(st, Act(t))
    ensures var ev, st' := st.PcOf(t).event, Apply(st, Act(t));
            && (st'.PcOf(t).Checking? <==>
                exists id :: 0 <= id < |st.batches| && !st.batches[id].removed
                             && st.batches[id].lastFrame == ev.Frame())
            && (st'.PcOf(t).Checking? || st'.PcOf(t).Idle?)
  {
    ReachedInv(st, numPartial, steps);
    LastFrameTarget(st, t);
  }

  lemma LastFrameTarget(st: State, t: Thread)
    requires Inv(st) && CanStep(st, Act(t))
    ensures var ev := st.PcOf(t).event;
            (exists id :: 0 <= id < |st.batches| && !st.batches[id].removed && st.batches[id].lastFrame == ev.Frame())
            <==> Target(st, t).Some? && Target(st, t).value < |st.batches|
                 && st.batches[Target(st, t).value].lastFrame == ev.Frame()
  {
    var ev := st.PcOf(t).event;
    if id: nat :| id < |st.batches| && !st.batches[id].removed && st.batches[id].lastFrame == ev.Frame() {
      assert st.batches[id].Contains(ev.Frame());
      OnlyTarget(st, t, id);
    }
  }

  // ---- the front batch is watched ----

  /** If the front batch is complete, some thread is about to check it. */
  ghost predicate Watched(st: State, id: nat) {
    id < |st.batches| && !st.batches[id].removed && AllDelivered(st.batches[id]) ==>
      exists t: Thread :: st.PcOf(t).Checking?
  }

  /** Only an event of its last frame makes a batch complete. */
  lemma OnlyLastCompletes(b: Batch, ev: Event)
    ensures AllDelivered(Queue(b, ev).batch) ==> AllDelivered(b) || ev.Frame() == b.lastFrame
  {
    if ev.Frame() != b.lastFrame {
      match ev
      case ShutterEvent(m) => assert Queue(b, ev).batch == b.(shutterMsgs := b.shutterMsgs + [m]);
      case ResultEvent(r) =>
        assert Queue(b, ev).batch == Queued(b, r);
        assert forall s :: s in b.bufs ==> Queued(b, r).bufs[s].delivered == b.bufs[s].delivered;
    }
  }

  lemma ActWatches(st: State, t: Thread, id: nat)
    requires Inv(st) && CanStep(st, Act(t)) && id < |st.batches| && !st.batches[id].removed
    requires !AllDelivered(st.batches[id]) && AllDelivered(ActOn(st, t).batches[id])
    ensures ActOn(st, t).PcOf(t).Checking?
  {
    assert PcOk(st, t);
    assert Target(st, t) == Some(id);
    OnlyLastCompletes(st.batches[id], st.PcOf(t).event);
  }

  lemma StepWatches(st: State, step: Step, id: nat)
    requires Inv(st) && CanStep(st, step) && Watched(st, id) && id < |st.batches|
    requires st.deque != [] && st.deque[0] == id
    ensures Watched(Apply(st, step), id)
  {
    var st' := Apply(st, step);
    StepEvolves(st, step);
    assert EvolvesTo(st.batches[id], st'.batches[id]);
    if !st'.batches[id].removed && AllDelivered(st'.batches[id]) {
      if AllDelivered(st.batches[id]) {
        var t: Thread :| st.PcOf(t).Checking?;
        assert step != Mark(t);
        assert st'.PcOf(t).Checking?;
      } else if step.Act? {
        ActWatches(st, step.t, id);
      }
    }
  }

  /** The front of the deque is batch `id` all along the run. */
  ghost predicate FrontThroughout(st: State, steps: seq<Step>, id: nat)
    requires ValidRun(st, steps)
    decreases |steps|
  {
    && st.deque != [] && st.deque[0] == id
    && (steps != [] ==> FrontThroughout(Apply(st, steps[0]), steps[1..], id))
  }

  lemma {:induction false} RunWatches(st: State, steps: seq<Step>, id: nat)
    requires Inv(st) && ValidRun(st, steps) && Watched(st, id) && FrontThroughout(st, steps, id)
    ensures Watched(Exec(st, steps), id)
    decreases |steps|
  {
    if steps != [] {
      assert id < |st.batches|;
      StepWatches(st, steps[0], id);
      StepInv(st, steps[0]);
      RunWatches(Apply(st, steps[0]), steps[1..], id);
    }
  }

  /**
   No finished batch is forgotten at the front. Take a batch that is at the front of the
   deque and not yet finished, and any run during which it stays there: if it is finished
   at the end and not yet removed, some thread is about to check the front.
   */
  lemma FinishedFrontIsChecked(st: State, numPartial: nat, before: seq<Step>, steps: seq<Step>, id: nat)
    requires Reached(st, numPartial, before) && ValidRun(st, steps) && FrontThroughout(st, steps, id)
    requires id < |st.batches| && !st.batches[id].removed && !Finished(st.acted, st.batches[id], st.numPartial)
    ensures var last := Exec(st, steps);
            id < |last.batches|
            && (!last.batches[id].removed && Finished(last.acted, last.batches[id], last.numPartial) ==>
                  exists t: Thread :: last.PcOf(t).Checking?)
  {
    ReachedInv(st, numPartial, before);
    CompleteIff(st, id);
    RunWatches(st, steps, id);
    RunEvolves(st, steps);
    RunReleases(st, steps);
    var last := Exec(st, steps);
    if !last.batches[id].removed {
      CompleteIff(last, id);
    }
  }

  /**
   A check removes one batch only. If the two front batches are both finished when a
   check comes and no other thread is about to check, the second is left at the front,
   finished, with nobody to check it: it waits for another batch's last event.
   */
  lemma SecondIsLeft(st: State, numPartial: nat, steps: seq<Step>, t: Thread)
    requires Reached(st, numPartial, steps) && CanStep(st, Mark(t)) && |st.deque| >= 2
    requires Finished(st.acted, st.batches[st.deque[0]], st.numPartial)
    requires Finished(st.acted, st.batches[st.deque[1]], st.numPartial)
    requires forall u: Thread :: st.PcOf(u).Checking? ==> u == t
    ensures CanStep(Apply(st, Mark(t)), Pop(t))
    ensures var st' := Apply(Apply(st, Mark(t)), Pop(t));
            && st'.deque == st.deque[1..] && st'.acted == st.acted
            && Finished(st'.acted, st'.batches[st'.deque[0]], st'.numPartial) && !st'.batches[st'.deque[0]].removed
            && forall u: Thread :: !st'.PcOf(u).Checking?
  {
    ReachedInv(st, numPartial, steps);
    assert !FrontMarked(st);
    CompleteIff(st, st.deque[0]);
    var st' := Apply(Apply(st, Mark(t)), Pop(t));
    forall u: Thread
      ensures !st'.PcOf(u).Checking?
    {
      assert u != t ==> st'.PcOf(u) == st.PcOf(u);
    }
  }
}
