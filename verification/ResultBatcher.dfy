/**
 The result batcher as the object the HAL calls into. Each method, run without
 interruption, takes the protocol through the steps of one thread; the guarantees
 of BatcherTheorems therefore hold of it.
 */
module ResultBatcher {
  import opened CaptureTypes
  import opened Collections
  import opened InflightBatchModel
  import opened InflightBatchProofs
  import opened BatcherProtocol

  const NOT_BATCHED: int := -1

  class InflightBatch {
    const firstFrame: nat
    const lastFrame: nat
    const batchSize: nat
    const numPartialResults: nat
    var shutterDelivered: bool
    var shutterMsgs: seq<NotifyMsg>
    var batchBufs: map<int, BufferBatch>
    var partialResultProgress: nat
    var resultMds: map<nat, seq<(nat, Bytes)>>
    var removed: bool

    function View(): Batch
      reads this
    {
      Batch(firstFrame, lastFrame, batchSize, shutterDelivered, shutterMsgs, batchBufs,
            numPartialResults, partialResultProgress, resultMds, removed)
    }

    constructor (frameNumber: nat, size: nat, streams: seq<int>, numPartial: nat)
      requires size > 0
      ensures View() == NewBatch(frameNumber, size, streams, numPartial)
    {
      firstFrame := frameNumber;
      batchSize := size;
      lastFrame := frameNumber + size - 1;
      numPartialResults := numPartial;
      shutterDelivered, shutterMsgs := false, [];
      partialResultProgress, resultMds, removed := 0, map[], false;
      batchBufs := map[];
      new;
      for i := 0 to |streams|
        invariant View() == NewBatch(frameNumber, size, streams[..i], numPartial)
      {
        batchBufs := batchBufs[streams[i] := BufferBatch(false, [])];
        assert streams[..i + 1] == streams[..i] + [streams[i]];
      }
      assert streams[..|streams|] == streams;
    }

    /** Whether everything the batch waits for has been sent. */
    method AllDeliveredNow() returns (all: bool)
      ensures all == AllDelivered(View())
    {
      if !shutterDelivered || partialResultProgress < numPartialResults {
        return false;
      }
      var todo := batchBufs.Keys;
      while todo != {}
        invariant todo <= batchBufs.Keys
        invariant forall s :: s in batchBufs && s !in todo ==> batchBufs[s].delivered
        decreases todo
      {
        ghost var _ := HasElement(todo);
        var s :| s in todo;
        if !batchBufs[s].delivered {
          return false;
        }
        todo := todo - {s};
      }
      return true;
    }
  }

  // ---- the protocol run of one uninterrupted call ----

  const ME: Thread := 0

  ghost predicate Quiescent(st: State) {
    DequeOk(st.batches, st.deque) && st.lock.None? && st.pcs == map[]
  }

  /** checkAndRemoveFirstBatch: mark the front batch if it is complete, then pop it. */
  ghost function CheckRun(st: State): State
    requires Enabled(st, Mark(ME))
  {
    var marked := MarkOn(st, ME);
    if marked.PcOf(ME).Popping? then PopOn(marked, ME) else marked
  }

  /** The state once the front batch has been marked and popped. */
  ghost function Removed(st: State): State
    requires DequeOk(st.batches, st.deque) && st.deque != []
  {
    var id := st.deque[0];
    st.(batches := st.batches[id := st.batches[id].(removed := true)], deque := st.deque[1..])
  }

  lemma CheckRunIs(st: State)
    requires Quiescent(st)
    ensures CheckRun(st.(pcs := map[ME := Checking])).(pcs := map[]) ==
            if st.deque != [] && AllDelivered(st.batches[st.deque[0]]) then Removed(st) else st
  {
  }

  /** notify with a shutter, or processCaptureResult: look up, act, and maybe check for removal. */
  ghost function HandleRun(st: State, ev: Event): State
    requires Quiescent(st)
  {
    var looked := Apply(st, Lookup(ME, ev));
    FoundInRange(st, ev.Frame());
    var acted := ActOn(looked, ME);
    var done := if acted.PcOf(ME).Checking? then CheckRun(acted) else acted;
    done.(pcs := map[])
  }

  lemma FoundInRange(st: State, frame: nat)
    requires DequeOk(st.batches, st.deque)
    ensures Found(st, frame).Some? ==> Found(st, frame).value < |st.batches|
  {
  }

  /** The state once an event has been queued in its batch. */
  ghost function Queueing(st: State, ev: Event, id: nat): State
    requires id < |st.batches|
  {
    var o := Queue(st.batches[id], ev);
    st.(batches := st.batches[id := o.batch], log := st.log + o.calls, acted := st.acted + [ev])
  }

  /** After the last frame of a batch, checkAndRemoveFirstBatch. */
  ghost function FinishRun(st: State, last: bool): State
    requires Quiescent(st)
  {
    if last then CheckRun(st.(pcs := map[ME := Checking])).(pcs := map[]) else st
  }

  lemma HandleRunDirect(st: State, ev: Event)
    requires Quiescent(st)
    requires Found(st, ev.Frame()).None?
             || (Found(st, ev.Frame()).value < |st.batches| && st.batches[Found(st, ev.Frame()).value].removed)
    ensures HandleRun(st, ev) == st.(log := st.log + [Direct(ev)], acted := st.acted + [ev])
  {
  }

  lemma HandleRunQueues(st: State, ev: Event)
    requires Quiescent(st) && Found(st, ev.Frame()).Some? && Found(st, ev.Frame()).value < |st.batches|
    requires !st.batches[Found(st, ev.Frame()).value].removed
    ensures var id := Found(st, ev.Frame()).value;
            var q := Queueing(st, ev, id);
            Quiescent(q) && HandleRun(st, ev) == FinishRun(q, ev.Frame() == st.batches[id].lastFrame)
  {
    var id := Found(st, ev.Frame()).value;
    var looked := Apply(st, Lookup(ME, ev));
    var acted := ActOn(looked, ME);
    assert acted.pcs == map[ME := if ev.Frame() == st.batches[id].lastFrame then Checking else Idle];
    assert acted.(pcs := map[]) == Queueing(st, ev, id);
  }

  /** The state once the front batch has been flushed and popped. */
  ghost function Flushed(st: State): State
    requires DequeOk(st.batches, st.deque) && st.deque != []
  {
    var o := Flush(st.batches[st.deque[0]], st.streams, st.numPartial);
    st.(batches := st.batches[st.deque[0] := o.batch], log := st.log + o.calls, deque := st.deque[1..])
  }

  /** The front batch is flushed and popped between the i-th and the next of the states. */
  ghost predicate FlushesAt(path: seq<State>, i: nat)
    requires i + 1 < |path|
  {
    DequeOk(path[i].batches, path[i].deque) && path[i].deque != [] && path[i + 1] == Flushed(path[i])
  }

  /** The states an error's flushing loop goes through, one batch after another. */
  ghost predicate FlushPath(path: seq<State>, st: State, count: nat, last: State) {
    && |path| == count + 1 && path[0] == st && path[count] == last
    && forall i :: 0 <= i < count ==> FlushesAt(path, i)
  }

  lemma PathGrows(path: seq<State>, st: State, count: nat, last: State, next: State)
    requires FlushPath(path, st, count, last)
    requires DequeOk(last.batches, last.deque) && last.deque != [] && next == Flushed(last)
    ensures FlushPath(path + [next], st, count + 1, next)
  {
    forall i | 0 <= i < count + 1
      ensures FlushesAt(path + [next], i)
    {
      assert i < count ==> FlushesAt(path, i);
    }
  }

  /** What notify does with an error: it goes up alone, or after the batches up to the one its lookup found. */
  ghost predicate ErrorRun(st: State, err: NotifyMsg, st': State)
    requires Quiescent(st)
  {
    match GetBatch(st.batches, st.deque, err.frameNumber)
    case None => st' == st.(log := st.log + [Notified([err])])
    case Some(i) =>
      exists path: seq<State> :: FlushesThenSends(path, st, i, err, st')
  }

  /** The path flushes the batches up to position i, and then the error goes up. */
  ghost predicate FlushesThenSends(path: seq<State>, st: State, i: nat, err: NotifyMsg, st': State) {
    && |path| == i + 2 && FlushPath(path, st, i + 1, path[i + 1])
    && st' == path[i + 1].(log := path[i + 1].log + [Notified([err])])
  }

  lemma QueueNoBuffers(bufs: map<int, BufferBatch>)
    ensures QueueBuffers(bufs, []) == bufs
  {
    forall s | s in bufs
      ensures bufs[s].(buffers := bufs[s].buffers + BuffersOf([], s)) == bufs[s]
    {
      assert bufs[s].buffers + [] == bufs[s].buffers;
    }
  }

  lemma QueueOneMore(bufs: map<int, BufferBatch>, outs: seq<StreamBuffer>, o: StreamBuffer)
    ensures var q := QueueBuffers(bufs, outs);
            QueueBuffers(bufs, outs + [o]) ==
            if o.streamId in q then q[o.streamId := q[o.streamId].(buffers := q[o.streamId].buffers + [o])] else q
  {
    assert (outs + [o])[..|outs|] == outs;
    var q, q' := QueueBuffers(bufs, outs), QueueBuffers(bufs, outs + [o]);
    forall s | s in bufs
      ensures q'[s] == if o.streamId == s then q[s].(buffers := q[s].buffers + [o]) else q[s]
    {
      var tail := if o.streamId == s then [o] else [];
      assert BuffersOf(outs + [o], s) == BuffersOf(outs, s) + tail;
      assert bufs[s].buffers + (BuffersOf(outs, s) + tail) == q[s].buffers + tail;
    }
  }

  lemma SortOneMore(bufs: map<int, BufferBatch>, outs: seq<StreamBuffer>, o: StreamBuffer)
    ensures FilledStreams(bufs, outs + [o]) ==
            FilledStreams(bufs, outs) + if o.streamId in bufs then [o.streamId] else []
    ensures NonBatched(bufs, outs + [o]) == NonBatched(bufs, outs) + if o.streamId in bufs then [] else [o]
  {
    assert (outs + [o])[..|outs|] == outs;
  }

  lemma ViewsUpdated(before: seq<Batch>, after: seq<Batch>, at: nat, b: Batch)
    requires at < |before| == |after| && after[at] == b
    requires forall j :: 0 <= j < |before| && j != at ==> after[j] == before[j]
    ensures after == before[at := b]
  {
  }

  class Batcher {
    var inflightBatches: seq<InflightBatch>
    var numPartialResults: nat
    var streamsToBatch: seq<int>
    var log: seq<CallbackCall>            // the calls made on the callback

    ghost var registered: seq<InflightBatch>  // every batch ever registered
    ghost var acted: seq<Event>               // everything the HAL handed over

    ghost predicate Valid()
      reads this
    {
      && Distinct(registered)
      && |inflightBatches| <= |registered|
      && inflightBatches == registered[|registered| - |inflightBatches|..]
    }

    ghost function Views(): seq<Batch>
      reads this, registered
    {
      seq(|registered|, i requires 0 <= i < |registered| reads this, registered => registered[i].View())
    }

    /** The batcher as a state of the protocol with no thread inside it. */
    ghost function Model(): State
      reads this, registered
      requires Valid()
      ensures Quiescent(Model())
    {
      var head := |registered| - |inflightBatches|;
      var n := |inflightBatches|;
      State(Views(), seq(n, i requires 0 <= i < n => head + i), None, map[],
            streamsToBatch, numPartialResults, log, acted)
    }

    constructor (numPartial: nat)
      ensures Valid() && Model() == Init(numPartial)
    {
      inflightBatches, numPartialResults, streamsToBatch, log := [], numPartial, [], [];
      registered, acted := [], [];
    }

    method SetBatchedStreams(streams: seq<int>)
      requires Valid()
      modifies this`streamsToBatch
      ensures Valid() && Model() == Apply(old(Model()), SetStreams(streams))
    {
      streamsToBatch := streams;
    }

    method RegisterBatch(frameNumber: nat, batchSize: nat)
      requires Valid() && batchSize > 0
      modifies this`inflightBatches, this`registered
      ensures Valid() && Model() == Apply(old(Model()), Register(frameNumber, batchSize))
    {
      var batch := new InflightBatch(frameNumber, batchSize, streamsToBatch, numPartialResults);
      inflightBatches := inflightBatches + [batch];
      registered := registered + [batch];
      assert inflightBatches == registered[|registered| - |inflightBatches|..];
      assert Model().batches == old(Model()).batches + [batch.View()];
    }

    /** The position of the batch holding a frame, and the batch; NOT_BATCHED and null if there is none. */
    method FindBatch(frameNumber: nat) returns (idx: int, batch: InflightBatch?)
      requires Valid()
      ensures match GetBatch(Model().batches, Model().deque, frameNumber)
              case None => idx == NOT_BATCHED && batch == null
              case Some(i) => idx == i && i < |inflightBatches| && batch == inflightBatches[i]
    {
      GetBatchInRange(Model(), frameNumber);
      var n := |inflightBatches|;
      if n == 0 {
        return NOT_BATCHED, null;
      }
      var frameMin := inflightBatches[0].firstFrame;
      var frameMax := inflightBatches[n - 1].lastFrame;
      if frameNumber < frameMin || frameNumber > frameMax {
        return NOT_BATCHED, null;
      }
      for i := 0 to n
        invariant FirstContaining(Model().batches, Model().deque, frameNumber, 0)
               == FirstContaining(Model().batches, Model().deque, frameNumber, i)
      {
        if frameNumber >= inflightBatches[i].firstFrame && frameNumber <= inflightBatches[i].lastFrame {
          return i, inflightBatches[i];
        }
      }
      return NOT_BATCHED, null;
    }

    // ---- the send operations, on a batch whose lock is held ----

    method SendBatchShutterCbs(batch: InflightBatch)
      modifies this`log, batch
      ensures batch.View() == SendShutters(old(batch.View())).batch
      ensures log == old(log) + SendShutters(old(batch.View())).calls
    {
      if batch.shutterDelivered {
        return;
      }
      log := log + [Notified(batch.shutterMsgs)];
      batch.shutterDelivered := true;
      batch.shutterMsgs := [];
    }

    method SendBatchBuffers(batch: InflightBatch, streams: seq<int>)
      modifies this`log, batch
      ensures batch.View() == SendBuffers(old(batch.View()), streams).batch
      ensures log == old(log) + SendBuffers(old(batch.View()), streams).calls
    {
      var longest := 0;
      for j := 0 to |streams|
        invariant AllIn(streams[..j], batch.batchBufs)
        invariant longest == LongestQueue(batch.batchBufs, streams[..j])
      {
        var s := streams[j];
        if s !in batch.batchBufs {
          return;
        }
        assert streams[..j + 1][..j] == streams[..j];
        var bb := batch.batchBufs[s];
        if !bb.delivered && |bb.buffers| > longest {
          longest := |bb.buffers|;
        }
      }
      assert streams[..|streams|] == streams;
      if longest == 0 {
        MarkDelivered(batch, streams, false);
        return;
      }
      var results := [];
      for i := 0 to longest
        invariant results == BufferResults(batch.firstFrame, batch.batchBufs, streams, i)
        modifies {}
      {
        var outBufs := BatchRow(batch, streams, i);
        results := results + [BufferResult(batch.firstFrame + i, outBufs)];
      }
      log := log + [Results(results, false)];
      MarkDelivered(batch, streams, true);
    }

    /** The inner loop of SendBatchBuffers: the i-th queued buffer of every stream that has one. */
    method BatchRow(batch: InflightBatch, streams: seq<int>, i: nat) returns (outBufs: seq<StreamBuffer>)
      requires AllIn(streams, batch.batchBufs)
      ensures outBufs == Row(batch.batchBufs, streams, i)
    {
      outBufs := [];
      for j := 0 to |streams|
        invariant outBufs == Row(batch.batchBufs, streams[..j], i)
      {
        assert streams[..j + 1][..j] == streams[..j];
        var bb := batch.batchBufs[streams[j]];
        if !bb.delivered && i < |bb.buffers| {
          outBufs := outBufs + [bb.buffers[i]];
        }
      }
      assert streams[..|streams|] == streams;
    }

    /** The closing loop of SendBatchBuffers: mark the streams delivered, clearing them if they were sent. */
    method MarkDelivered(batch: InflightBatch, streams: seq<int>, clear: bool)
      requires AllIn(streams, batch.batchBufs)
      modifies batch`batchBufs
      ensures batch.batchBufs == map s | s in old(batch.batchBufs) ::
                if s !in streams then old(batch.batchBufs)[s]
                else if clear then BufferBatch(true, []) else old(batch.batchBufs)[s].(delivered := true)
    {
      ghost var before := batch.batchBufs;
      for j := 0 to |streams|
        invariant batch.batchBufs == map s | s in before ::
                    if s !in streams[..j] then before[s]
                    else if clear then BufferBatch(true, []) else before[s].(delivered := true)
      {
        assert streams[..j + 1] == streams[..j] + [streams[j]];
        var bb := batch.batchBufs[streams[j]];
        batch.batchBufs := batch.batchBufs[streams[j] := BufferBatch(true, if clear then [] else bb.buffers)];
      }
      assert streams[..|streams|] == streams;
    }

    method SendBatchMetadata(batch: InflightBatch, lastPartial: nat)
      modifies this`log, batch
      ensures batch.View() == SendMetadata(old(batch.View()), lastPartial).batch
      ensures log == old(log) + SendMetadata(old(batch.View()), lastPartial).calls
    {
      if lastPartial <= batch.partialResultProgress {
        return;
      }
      var results := [];
      var toBeRemoved: set<nat> := {};
      for partial := 0 to lastPartial + 1
        invariant results == MetadataBelow(batch.resultMds, partial)
        invariant forall p :: p in toBeRemoved <==> p in batch.resultMds && p < partial
      {
        if partial in batch.resultMds {
          toBeRemoved := toBeRemoved + {partial};
          results := results + PartialResults(batch.resultMds[partial], partial);
        }
      }
      log := log + [Results(results, true)];
      batch.partialResultProgress := lastPartial;
      batch.resultMds := batch.resultMds - toBeRemoved;
    }

    // ---- the sections under a batch's lock ----

    method QueueShutterLocked(batch: InflightBatch, msg: NotifyMsg)
      modifies this`log, batch
      ensures batch.View() == QueueShutter(old(batch.View()), msg).batch
      ensures log == old(log) + QueueShutter(old(batch.View()), msg).calls
    {
      batch.shutterMsgs := batch.shutterMsgs + [msg];
      if msg.frameNumber == batch.lastFrame {
        SendBatchShutterCbs(batch);
      }
    }

    /** Queue the buffers of batched streams; list those streams, and the other buffers. */
    method SortBuffers(batch: InflightBatch, outs: seq<StreamBuffer>)
      returns (filledStreams: seq<int>, nonBatched: seq<StreamBuffer>)
      modifies batch`batchBufs
      ensures batch.batchBufs == QueueBuffers(old(batch.batchBufs), outs)
      ensures filledStreams == FilledStreams(old(batch.batchBufs), outs)
      ensures nonBatched == NonBatched(old(batch.batchBufs), outs)
    {
      ghost var before := batch.batchBufs;
      filledStreams, nonBatched := [], [];
      QueueNoBuffers(before);
      for i := 0 to |outs|
        invariant batch.batchBufs == QueueBuffers(before, outs[..i])
        invariant filledStreams == FilledStreams(before, outs[..i])
        invariant nonBatched == NonBatched(before, outs[..i])
      {
        var buffer := outs[i];
        assert outs[..i + 1] == outs[..i] + [buffer];
        QueueOneMore(before, outs[..i], buffer);
        SortOneMore(before, outs[..i], buffer);
        if buffer.streamId in batch.batchBufs {
          var bb := batch.batchBufs[buffer.streamId];
          batch.batchBufs := batch.batchBufs[buffer.streamId := bb.(buffers := bb.buffers + [buffer])];
          filledStreams := filledStreams + [buffer.streamId];
        } else {
          nonBatched := nonBatched + [buffer];
        }
      }
      assert outs[..|outs|] == outs;
    }

    method QueueMetadataLocked(batch: InflightBatch, result: CaptureResult)
      modifies batch`resultMds
      ensures batch.View() == QueueMetadata(old(batch.View()), result)
    {
      if |result.metadata| != 0 {
        var mds := if result.partialResult in batch.resultMds then batch.resultMds[result.partialResult] else [];
        batch.resultMds := batch.resultMds[result.partialResult := mds + [(result.frameNumber, result.metadata)]];
      }
    }

    method SendLastFrameLocked(batch: InflightBatch, partial: nat, filledStreams: seq<int>)
      modifies this`log, batch
      ensures batch.View() == SendLastFrame(old(batch.View()), partial, filledStreams).batch
      ensures log == old(log) + SendLastFrame(old(batch.View()), partial, filledStreams).calls
    {
      ghost var before, log0 := batch.View(), log;
      if partial > 0 {
        SendBatchMetadata(batch, partial);
      }
      ghost var o := SendMetadataIf(before, partial);
      assert batch.View() == o.batch && log == log0 + o.calls;
      if |filledStreams| > 0 {
        SendBatchBuffers(batch, filledStreams);
      }
      ghost var o' := SendBuffersIf(o.batch, filledStreams);
      assert log == (log0 + o.calls) + o'.calls;
    }

    /** Queue what belongs to the batch and send the rest. */
    method SortResultLocked(batch: InflightBatch, result: CaptureResult) returns (filledStreams: seq<int>)
      modifies this`log, batch
      ensures batch.View() == Queued(old(batch.View()), result)
      ensures log == old(log) + NonBatchedCalls(old(batch.View()), result)
      ensures filledStreams == FilledStreams(old(batch.batchBufs), result.outputBuffers)
    {
      QueueMetadataLocked(batch, result);
      var nonBatched;
      filledStreams, nonBatched := SortBuffers(batch, result.outputBuffers);
      if |nonBatched| > 0 || result.inputBuffer.Some? {
        ProcessOneCaptureResult(CaptureResult(result.frameNumber, 0, 0, [], [], result.inputBuffer, nonBatched));
      }
    }

    method QueueResultLocked(batch: InflightBatch, result: CaptureResult)
      modifies this`log, batch
      ensures batch.View() == QueueResult(old(batch.View()), result).batch
      ensures log == old(log) + QueueResult(old(batch.View()), result).calls
    {
      ghost var before, log0 := batch.View(), log;
      var filledStreams := SortResultLocked(batch, result);
      ghost var o := Outcome(Queued(before, result), NonBatchedCalls(before, result));
      if result.frameNumber == batch.lastFrame {
        SendLastFrameLocked(batch, result.partialResult, filledStreams);
        ghost var o' := SendLastFrame(o.batch, result.partialResult, filledStreams);
        assert log == (log0 + o.calls) + o'.calls;
      }
    }

    method ProcessOneCaptureResult(result: CaptureResult)
      modifies this`log
      ensures log == old(log) + [Results([result], true)]
    {
      log := log + [Results([result], true)];
    }

    method NotifySingleMsg(msg: NotifyMsg)
      modifies this`log
      ensures log == old(log) + [Notified([msg])]
    {
      log := log + [Notified([msg])];
    }

    method FlushLocked(batch: InflightBatch)
      modifies this`log, batch
      ensures batch.View() == Flush(old(batch.View()), streamsToBatch, numPartialResults).batch
      ensures log == old(log) + Flush(old(batch.View()), streamsToBatch, numPartialResults).calls
    {
      SendBatchShutterCbs(batch);
      SendBatchBuffers(batch, streamsToBatch);
      SendBatchMetadata(batch, numPartialResults);
      batch.removed := true;
    }

    // ---- entry points ----

    /** The index of a deque position among the registered batches. */
    lemma Position(i: nat)
      requires Valid() && i < |inflightBatches|
      ensures var head := |registered| - |inflightBatches|;
              registered[head + i] == inflightBatches[i] && Model().deque[i] == head + i
    {
    }

    /** A change to the batch at deque position i, seen in the model. */
    twostate lemma OneBatchChanged(i: nat)
      requires old(Valid()) && Valid() && registered == old(registered) && inflightBatches == old(inflightBatches)
      requires i < |inflightBatches|
      requires forall b :: b in registered && b != inflightBatches[i] ==> b.View() == old(b.View())
      ensures old(Model()).deque[i] < |registered|
      ensures Model().batches == old(Model()).batches[old(Model()).deque[i] := inflightBatches[i].View()]
      ensures Model().deque == old(Model()).deque
    {
      var at := |registered| - |inflightBatches| + i;
      Position(i);
      forall j | 0 <= j < |registered| && j != at
        ensures Views()[j] == old(Views())[j]
      {
        assert registered[j] != registered[at];
      }
      ViewsUpdated(old(Views()), Views(), at, inflightBatches[i].View());
    }

    /** Take the front batch off the deque. */
    method PopFront()
      requires Valid() && inflightBatches != []
      modifies this`inflightBatches
      ensures Valid() && |inflightBatches| == |old(inflightBatches)| - 1
      ensures Model() == old(Model()).(deque := old(Model()).deque[1..])
    {
      ghost var views := Views();
      inflightBatches := inflightBatches[1..];
      assert inflightBatches == registered[|registered| - |inflightBatches|..];
      assert Views() == views;
      assert Model().deque == old(Model()).deque[1..];
    }

    /** Mark the front batch removed and take it off the deque. */
    method RemoveFront()
      requires Valid() && inflightBatches != []
      modifies this`inflightBatches, registered
      ensures Valid() && registered == old(registered)
      ensures Model() == Removed(old(Model()))
    {
      var batch := inflightBatches[0];
      batch.removed := true;
      OneBatchChanged(0);
      PopFront();
    }

    method CheckAndRemoveFirstBatch()
      requires Valid()
      modifies this`inflightBatches, registered
      ensures Valid() && registered == old(registered)
      ensures Model() == CheckRun(old(Model()).(pcs := map[ME := Checking])).(pcs := map[])
    {
      CheckRunIs(Model());
      if |inflightBatches| > 0 {
        Position(0);
        var batch := inflightBatches[0];
        var shouldRemove := batch.AllDeliveredNow();
        if shouldRemove {
          RemoveFront();
        }
      }
    }

    method MaybeRemoveFirst(last: bool)
      requires Valid()
      modifies this`inflightBatches, registered
      ensures Valid() && registered == old(registered)
      ensures Model() == FinishRun(old(Model()), last)
    {
      if last {
        CheckAndRemoveFirstBatch();
      }
    }

    /** Calling back without touching a batch changes the logs only. */
    twostate lemma OnlySent()
      requires old(Valid()) && Valid() && registered == old(registered) && inflightBatches == old(inflightBatches)
      requires streamsToBatch == old(streamsToBatch) && numPartialResults == old(numPartialResults)
      requires forall b :: b in registered ==> b.View() == old(b.View())
      ensures Model() == old(Model()).(log := log, acted := acted)
    {
      assert Views() == old(Views());
    }

    /** What FindBatch answers. */
    ghost predicate IsLookup(frame: nat, idx: int, batch: InflightBatch?)
      requires Valid()
      reads this, registered
    {
      match GetBatch(Model().batches, Model().deque, frame)
      case None => idx == NOT_BATCHED && batch == null
      case Some(i) => idx == i && i < |inflightBatches| && batch == inflightBatches[i]
    }

    lemma SendsDirect(ev: Event, idx: int, batch: InflightBatch?)
      requires Valid() && IsLookup(ev.Frame(), idx, batch) && (batch == null || batch.removed)
      ensures HandleRun(Model(), ev) == Model().(log := log + [Direct(ev)], acted := acted + [ev])
    {
      if idx != NOT_BATCHED {
        Position(idx);
      }
      HandleRunDirect(Model(), ev);
    }

    lemma SendsQueued(ev: Event, idx: int, batch: InflightBatch)
      requires Valid() && IsLookup(ev.Frame(), idx, batch) && !batch.removed
      ensures Model().deque[idx] < |Model().batches|
      ensures var q := Queueing(Model(), ev, Model().deque[idx]);
              Quiescent(q) && HandleRun(Model(), ev) == FinishRun(q, ev.Frame() == batch.lastFrame)
    {
      Position(idx);
      HandleRunQueues(Model(), ev);
    }

    /** The section of HandleShutter under the batch's lock. */
    method QueueShutterInBatch(idx: nat, batch: InflightBatch, msg: NotifyMsg)
      requires Valid() && idx < |inflightBatches| && batch == inflightBatches[idx]
      modifies this`log, this`acted, batch
      ensures Valid() && registered == old(registered) && inflightBatches == old(inflightBatches)
      ensures old(Model()).deque[idx] < |old(Model()).batches|
      ensures Model() == Queueing(old(Model()), ShutterEvent(msg), old(Model()).deque[idx])
    {
      Position(idx);
      QueueShutterLocked(batch, msg);
      acted := acted + [ShutterEvent(msg)];
      OneBatchChanged(idx);
    }

    method SendShutter(msg: NotifyMsg)
      requires Valid()
      modifies this`log, this`acted
      ensures Valid() && Model() == old(Model()).(log := old(log) + [Notified([msg])],
                                                  acted := old(acted) + [ShutterEvent(msg)])
    {
      NotifySingleMsg(msg);
      acted := acted + [ShutterEvent(msg)];
      OnlySent();
    }

    method SendResult(result: CaptureResult)
      requires Valid()
      modifies this`log, this`acted
      ensures Valid() && Model() == old(Model()).(log := old(log) + [Results([result], true)],
                                                  acted := old(acted) + [ResultEvent(result)])
    {
      ProcessOneCaptureResult(result);
      acted := acted + [ResultEvent(result)];
      OnlySent();
    }

    method QueueShutterDirect(idx: int, batch: InflightBatch?, msg: NotifyMsg)
      requires Valid() && IsLookup(msg.frameNumber, idx, batch) && (batch == null || batch.removed)
      modifies this`log, this`acted
      ensures Valid() && Model() == HandleRun(old(Model()), ShutterEvent(msg))
    {
      SendsDirect(ShutterEvent(msg), idx, batch);
      SendShutter(msg);
    }

    method QueueShutterBatched(idx: int, batch: InflightBatch, msg: NotifyMsg)
      requires Valid() && IsLookup(msg.frameNumber, idx, batch) && !batch.removed
      modifies this`log, this`acted, this`inflightBatches, registered
      ensures Valid() && registered == old(registered)
      ensures Model() == HandleRun(old(Model()), ShutterEvent(msg))
    {
      SendsQueued(ShutterEvent(msg), idx, batch);
      QueueShutterInBatch(idx, batch, msg);
      MaybeRemoveFirst(msg.frameNumber == batch.lastFrame);
    }

    method HandleShutter(msg: NotifyMsg)
      requires Valid()
      modifies this, registered
      ensures Valid() && registered == old(registered)
      ensures Model() == HandleRun(old(Model()), ShutterEvent(msg))
    {
      var idx, batch := FindBatch(msg.frameNumber);
      if idx == NOT_BATCHED || batch.removed {
        QueueShutterDirect(idx, batch, msg);
      } else {
        QueueShutterBatched(idx, batch, msg);
      }
    }

    /** The section of ProcessCaptureResult under the batch's lock. */
    method QueueResultInBatch(idx: nat, batch: InflightBatch, result: CaptureResult)
      requires Valid() && idx < |inflightBatches| && batch == inflightBatches[idx]
      modifies this`log, this`acted, batch
      ensures Valid() && registered == old(registered) && inflightBatches == old(inflightBatches)
      ensures old(Model()).deque[idx] < |old(Model()).batches|
      ensures Model() == Queueing(old(Model()), ResultEvent(result), old(Model()).deque[idx])
    {
      Position(idx);
      QueueResultLocked(batch, result);
      acted := acted + [ResultEvent(result)];
      OneBatchChanged(idx);
    }

    method QueueResultDirect(idx: int, batch: InflightBatch?, result: CaptureResult)
      requires Valid() && IsLookup(result.frameNumber, idx, batch) && (batch == null || batch.removed)
      modifies this`log, this`acted
      ensures Valid() && Model() == HandleRun(old(Model()), ResultEvent(result))
    {
      SendsDirect(ResultEvent(result), idx, batch);
      SendResult(result);
    }

    method QueueResultBatched(idx: int, batch: InflightBatch, result: CaptureResult)
      requires Valid() && IsLookup(result.frameNumber, idx, batch) && !batch.removed
      modifies this`log, this`acted, this`inflightBatches, registered
      ensures Valid() && registered == old(registered)
      ensures Model() == HandleRun(old(Model()), ResultEvent(result))
    {
      SendsQueued(ResultEvent(result), idx, batch);
      QueueResultInBatch(idx, batch, result);
      MaybeRemoveFirst(result.frameNumber == batch.lastFrame);
    }

    method ProcessCaptureResult(result: CaptureResult)
      requires Valid()
      modifies this, registered
      ensures Valid() && registered == old(registered)
      ensures Model() == HandleRun(old(Model()), ResultEvent(result))
    {
      var idx, batch := FindBatch(result.frameNumber);
      if idx == NOT_BATCHED || batch.removed {
        QueueResultDirect(idx, batch, result);
      } else {
        QueueResultBatched(idx, batch, result);
      }
    }

    method FlushFront()
      requires Valid() && inflightBatches != []
      modifies this`log, this`inflightBatches, registered
      ensures Valid() && registered == old(registered) && |inflightBatches| == |old(inflightBatches)| - 1
      ensures Model() == Flushed(old(Model()))
    {
      Position(0);
      var batch := inflightBatches[0];
      FlushLocked(batch);
      OneBatchChanged(0);
      PopFront();
    }

    /** Flush and drop the first batches of the deque. */
    method FlushLoop(count: nat) returns (ghost path: seq<State>)
      requires Valid() && count <= |inflightBatches|
      modifies this`log, this`inflightBatches, registered
      ensures Valid() && registered == old(registered)
      ensures FlushPath(path, old(Model()), count, Model())
    {
      path := [Model()];
      for i := 0 to count
        invariant Valid() && registered == old(registered) && count - i <= |inflightBatches|
        invariant FlushPath(path, old(Model()), i, Model())
      {
        ghost var before := Model();
        FlushFront();
        PathGrows(path, old(Model()), i, before, Model());
        path := path + [Model()];
      }
    }

    method SendLoneError(err: NotifyMsg)
      requires Valid()
      modifies this`log
      ensures Valid() && Model() == old(Model()).(log := old(log) + [Notified([err])])
    {
      NotifySingleMsg(err);
      OnlySent();
    }

    method FlushAndSend(err: NotifyMsg, idx: nat) returns (ghost path: seq<State>)
      requires Valid() && idx < |inflightBatches|
      modifies this`log, this`inflightBatches, registered
      ensures Valid() && registered == old(registered)
      ensures FlushesThenSends(path, old(Model()), idx, err, Model())
    {
      path := FlushLoop(idx + 1);
      SendLoneError(err);
    }

    method HandleError(err: NotifyMsg)
      requires Valid()
      modifies this, registered
      ensures Valid() && registered == old(registered)
      ensures ErrorRun(old(Model()), err, Model())
    {
      var idx, batch := FindBatch(err.frameNumber);
      if idx != NOT_BATCHED {
        ghost var path := FlushAndSend(err, idx);
      } else {
        SendLoneError(err);
      }
    }

    method Notify(msg: NotifyMsg)
      requires Valid()
      modifies this, registered
      ensures Valid() && registered == old(registered)
      ensures if msg.Error? then ErrorRun(old(Model()), msg, Model())
              else Model() == HandleRun(old(Model()), ShutterEvent(msg))
    {
      if msg.Error? {
        HandleError(msg);
      } else {
        HandleShutter(msg);
      }
    }
  }
}
