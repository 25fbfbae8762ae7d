/**
 The shape of what the batcher sends up: which results it makes, which of them may use
 the metadata queue, in which order one operation makes its calls, and when it makes them.
 */
module BatcherTransport {
  import opened CaptureTypes
  import opened InflightBatchModel
  import opened InflightBatchProofs
  import opened BatcherProtocol
  import opened BatcherInvariants
  import opened BatcherConservation
  import opened BatcherTheorems

  /**
   A result the batcher makes carries either one frame's metadata, with its partial
   index, or buffers only, with partial index 0; never physical cameras' metadata.
   */
  ghost predicate Split(r: CaptureResult) {
    && r.physical == [] && r.fmqResultSize == 0
    && if r.metadata == [] then r.partialResult == 0
       else r.partialResult > 0 && r.outputBuffers == [] && r.inputBuffer.None?
  }

  /** The results of a call of the batcher's use the queue exactly if no buffer in them is of a batched stream. */
  ghost predicate Made(call: CallbackCall, batched: set<int>) {
    call.Results? ==>
      && (forall i :: 0 <= i < |call.results| ==> Split(call.results[i]))
      && (call.tryWriteFmq <==> !CarriesAny(call.results, batched))
  }

  ghost predicate CarriesAny(rs: seq<CaptureResult>, streams: set<int>) {
    exists i, k :: 0 <= i < |rs| && 0 <= k < |rs[i].outputBuffers| && rs[i].outputBuffers[k].streamId in streams
  }

  /** One operation's calls, made in order: notify, unbatched rest, metadata, batched buffers, as `rank` ranks them. */
  ghost predicate Ranked(calls: seq<CallbackCall>, rank: CallbackCall -> int) {
    forall i, j :: 0 <= i < j < |calls| ==> rank(calls[i]) < rank(calls[j])
  }

  ghost predicate AllMade(calls: seq<CallbackCall>, batched: set<int>) {
    forall i :: 0 <= i < |calls| ==> Made(calls[i], batched)
  }

  /** Queued buffers and metadata are as they were when queued. */
  ghost predicate HoldsOwn(b: Batch) {
    && (forall s, i :: s in b.bufs && 0 <= i < |b.bufs[s].buffers| ==> b.bufs[s].buffers[i].streamId == s)
    && GoodMetadata(b.mds)
  }

  ghost predicate GoodMetadata(mds: map<nat, seq<(nat, Bytes)>>) {
    && (forall p :: p in mds ==> p > 0)
    && (forall p, i :: p in mds && 0 <= i < |mds[p]| ==> mds[p][i].1 != [])
  }

  // ---- the three send operations ----

  lemma {:induction false} LongestIsSome(bufs: map<int, BufferBatch>, streams: seq<int>)
    requires AllIn(streams, bufs) && LongestQueue(bufs, streams) > 0
    ensures exists i :: 0 <= i < |streams| && !bufs[streams[i]].delivered && bufs[streams[i]].buffers != []
    decreases |streams|
  {
    var init := streams[..|streams| - 1];
    if LongestQueue(bufs, streams) == LongestQueue(bufs, init) {
      LongestIsSome(bufs, init);
      var i :| 0 <= i < |init| && !bufs[init[i]].delivered && bufs[init[i]].buffers != [];
      assert streams[i] == init[i];
    }
  }

  lemma {:induction false} RowHas(bufs: map<int, BufferBatch>, streams: seq<int>, j: nat)
    requires AllIn(streams, bufs) && j < |streams|
    requires !bufs[streams[j]].delivered && bufs[streams[j]].buffers != []
    ensures bufs[streams[j]].buffers[0] in Row(bufs, streams, 0)
    decreases |streams|
  {
    if j < |streams| - 1 {
      RowHas(bufs, streams[..|streams| - 1], j);
    }
  }

  lemma BuffersMade(b: Batch, streams: seq<int>)
    requires HoldsOwn(b)
    ensures AllMade(SendBuffers(b, streams).calls, b.bufs.Keys) && HoldsOwn(SendBuffers(b, streams).batch)
    ensures forall i :: 0 <= i < |SendBuffers(b, streams).calls| ==>
              SendBuffers(b, streams).calls[i].Results? && !SendBuffers(b, streams).calls[i].tryWriteFmq
    ensures |SendBuffers(b, streams).calls| <= 1
  {
    if AllIn(streams, b.bufs) && LongestQueue(b.bufs, streams) > 0 {
      LongestIsSome(b.bufs, streams);
      var j :| 0 <= j < |streams| && !b.bufs[streams[j]].delivered && b.bufs[streams[j]].buffers != [];
      RowHas(b.bufs, streams, j);
      var rs := BufferResults(b.firstFrame, b.bufs, streams, LongestQueue(b.bufs, streams));
      var k :| 0 <= k < |Row(b.bufs, streams, 0)| && Row(b.bufs, streams, 0)[k] == b.bufs[streams[j]].buffers[0];
      assert rs[0].outputBuffers[k].streamId == streams[j];
    }
  }

  lemma {:induction false} MetadataSplit(mds: map<nat, seq<(nat, Bytes)>>, bound: nat)
    requires GoodMetadata(mds)
    ensures forall i :: 0 <= i < |MetadataBelow(mds, bound)| ==>
              var r := MetadataBelow(mds, bound)[i];
              Split(r) && r.metadata != [] && r.partialResult < bound && r.partialResult in mds
    ensures forall i, j :: 0 <= i < j < |MetadataBelow(mds, bound)| ==>
              MetadataBelow(mds, bound)[i].partialResult <= MetadataBelow(mds, bound)[j].partialResult
    decreases bound
  {
    if bound > 0 {
      MetadataSplit(mds, bound - 1);
    }
  }

  lemma MetadataMade(b: Batch, last: nat)
    requires HoldsOwn(b)
    ensures AllMade(SendMetadata(b, last).calls, b.bufs.Keys) && HoldsOwn(SendMetadata(b, last).batch)
    ensures forall i :: 0 <= i < |SendMetadata(b, last).calls| ==>
              SendMetadata(b, last).calls[i].Results? && SendMetadata(b, last).calls[i].tryWriteFmq
    ensures |SendMetadata(b, last).calls| == if last > b.progress then 1 else 0
  {
    MetadataSplit(b.mds, last + 1);
  }

  /** One send of metadata goes through the partial indices in increasing order, up to the one asked for. */
  lemma MetadataInOrder(b: Batch, last: nat)
    requires HoldsOwn(b) && last > b.progress
    ensures |SendMetadata(b, last).calls| == 1 && SendMetadata(b, last).calls[0].Results?
    ensures var rs := SendMetadata(b, last).calls[0].results;
            && (forall i :: 0 <= i < |rs| ==> rs[i].partialResult <= last && rs[i].partialResult in b.mds)
            && (forall i, j :: 0 <= i < j < |rs| ==> rs[i].partialResult <= rs[j].partialResult)
  {
    MetadataSplit(b.mds, last + 1);
  }

  // ---- a whole result, a whole flush ----

  lemma {:induction false} RestIsUnbatched(bufs: map<int, BufferBatch>, outs: seq<StreamBuffer>)
    ensures forall i :: 0 <= i < |NonBatched(bufs, outs)| ==> NonBatched(bufs, outs)[i].streamId !in bufs
    decreases |outs|
  {
    if outs != [] {
      RestIsUnbatched(bufs, outs[..|outs| - 1]);
    }
  }

  lemma {:induction false} BuffersOfOwn(outs: seq<StreamBuffer>, s: int)
    ensures forall i :: 0 <= i < |BuffersOf(outs, s)| ==> BuffersOf(outs, s)[i].streamId == s
    decreases |outs|
  {
    if outs != [] {
      BuffersOfOwn(outs[..|outs| - 1], s);
    }
  }

  lemma QueuedHolds(b: Batch, r: CaptureResult)
    requires HoldsOwn(b) && (r.metadata != [] ==> r.partialResult > 0)
    ensures HoldsOwn(Queued(b, r)) && Queued(b, r).bufs.Keys == b.bufs.Keys
  {
    forall s | s in b.bufs
      ensures forall i :: 0 <= i < |BuffersOf(r.outputBuffers, s)| ==> BuffersOf(r.outputBuffers, s)[i].streamId == s
    {
      BuffersOfOwn(r.outputBuffers, s);
    }
  }

  /** Where a call comes among those made for a batched result. */
  function ResultRank(call: CallbackCall): int {
    match call
    case Notified(_) => -1
    case Results(rs, fmq) =>
      if !fmq then 2 else if rs == [] || rs[0].metadata != [] then 1 else 0
  }

  /** Where a call comes among those made for a flush. */
  function FlushRank(call: CallbackCall): int {
    match call
    case Notified(_) => 0
    case Results(rs, fmq) => if fmq then 2 else 1
  }

  lemma LastFrameCalls(b: Batch, partial: nat, filled: seq<int>)
    requires HoldsOwn(b)
    ensures var o := SendLastFrame(b, partial, filled);
            AllMade(o.calls, b.bufs.Keys) && Ranked(o.calls, ResultRank)
            && forall i :: 0 <= i < |o.calls| ==> ResultRank(o.calls[i]) > 0
  {
    var o1 := SendMetadataIf(b, partial);
    var o2 := SendBuffersIf(o1.batch, filled);
    assert SendLastFrame(b, partial, filled).calls == o1.calls + o2.calls;
    MetadataFirst(b, partial, o1);
    BuffersMade(o1.batch, filled);
    AllMadeConcat(o1.calls, o2.calls, [], b.bufs.Keys);
    assert (o1.calls + o2.calls) + [] == o1.calls + o2.calls;
    TwoRanks(o1.calls, o2.calls);
  }

  lemma MetadataFirst(b: Batch, partial: nat, o: Outcome)
    requires HoldsOwn(b) && o == SendMetadataIf(b, partial)
    ensures AllMade(o.calls, b.bufs.Keys) && |o.calls| <= 1 && HoldsOwn(o.batch) && o.batch.bufs == b.bufs
    ensures forall i :: 0 <= i < |o.calls| ==> ResultRank(o.calls[i]) == 1
  {
    MetadataMade(b, partial);
    MetadataSplit(b.mds, partial + 1);
  }

  lemma TwoRanks(a: seq<CallbackCall>, b: seq<CallbackCall>)
    requires |a| <= 1 && |b| <= 1
    requires forall i :: 0 <= i < |a| ==> ResultRank(a[i]) == 1
    requires forall i :: 0 <= i < |b| ==> ResultRank(b[i]) == 2
    ensures Ranked(a + b, ResultRank) && forall i :: 0 <= i < |a + b| ==> ResultRank((a + b)[i]) > 0
  {
  }

  /**
   What goes up for a batched result, in order: the buffers of unbatched streams and the
   input buffer, in one result of their own, if there are any; at the batch's last frame the
   metadata, then the buffers of the batched streams, the only ones that bypass the queue.
   */
  lemma ResultCalls(b: Batch, r: CaptureResult)
    requires HoldsOwn(b) && (r.metadata != [] ==> r.partialResult > 0)
    ensures var calls := QueueResult(b, r).calls;
            && AllMade(calls, b.bufs.Keys) && Ranked(calls, ResultRank)
            && ((exists i :: 0 <= i < |calls| && ResultRank(calls[i]) == 0) <==>
                r.inputBuffer.Some? || exists k :: 0 <= k < |r.outputBuffers| && r.outputBuffers[k].streamId !in b.bufs)
            && (forall i :: 0 <= i < |calls| && ResultRank(calls[i]) > 0 ==> r.frameNumber == b.lastFrame)
  {
    var rest := NonBatchedCalls(b, r);
    var more := SendLastFrame(Queued(b, r), r.partialResult, FilledStreams(b.bufs, r.outputBuffers)).calls;
    RestCall(b, r);
    assert AllMade(more, b.bufs.Keys) && Ranked(more, ResultRank)
           && forall i :: 0 <= i < |more| ==> ResultRank(more[i]) > 0 by {
      QueuedHolds(b, r);
      LastFrameCalls(Queued(b, r), r.partialResult, FilledStreams(b.bufs, r.outputBuffers));
    }
    assert QueueResult(b, r).calls == if r.frameNumber == b.lastFrame then rest + more else rest;
    RestFirst(rest, more);
    AllMadeConcat(rest, more, [], b.bufs.Keys);
    assert (rest + more) + [] == rest + more;
    assert rest != [] ==> ResultRank(rest[0]) == 0;
  }

  lemma RestFirst(rest: seq<CallbackCall>, more: seq<CallbackCall>)
    requires |rest| <= 1 && Ranked(more, ResultRank)
    requires forall i :: 0 <= i < |rest| ==> ResultRank(rest[i]) == 0
    requires forall i :: 0 <= i < |more| ==> ResultRank(more[i]) > 0
    ensures Ranked(rest + more, ResultRank)
    ensures (exists i :: 0 <= i < |rest + more| && ResultRank((rest + more)[i]) == 0) <==> rest != []
  {
    if rest != [] {
      assert (rest + more)[0] == rest[0];
    }
  }

  lemma RestCall(b: Batch, r: CaptureResult)
    ensures AllMade(NonBatchedCalls(b, r), b.bufs.Keys) && |NonBatchedCalls(b, r)| <= 1
    ensures forall i :: 0 <= i < |NonBatchedCalls(b, r)| ==> ResultRank(NonBatchedCalls(b, r)[i]) == 0
    ensures NonBatchedCalls(b, r) != [] <==>
            r.inputBuffer.Some? || exists k :: 0 <= k < |r.outputBuffers| && r.outputBuffers[k].streamId !in b.bufs
  {
    RestIsUnbatched(b.bufs, r.outputBuffers);
    SomeRest(b.bufs, r.outputBuffers);
  }

  lemma {:induction false} SomeRest(bufs: map<int, BufferBatch>, outs: seq<StreamBuffer>)
    ensures NonBatched(bufs, outs) != [] <==> exists k :: 0 <= k < |outs| && outs[k].streamId !in bufs
    decreases |outs|
  {
    if outs != [] {
      SomeRest(bufs, outs[..|outs| - 1]);
      assert outs == outs[..|outs| - 1] + [outs[|outs| - 1]];
    }
  }

  /**
   What goes up in a flush, in order and each at most once: the shutters, exactly if they
   had not gone up before; the buffers, bypassing the queue; the metadata, exactly if the
   last partial had not been reached.
   */
  lemma FlushCallsAre(b: Batch, streams: seq<int>, numPartial: nat)
    requires HoldsOwn(b)
    ensures var calls := Flush(b, streams, numPartial).calls;
            && AllMade(calls, b.bufs.Keys) && Ranked(calls, FlushRank)
            && ((exists i :: 0 <= i < |calls| && FlushRank(calls[i]) == 0) <==> !b.shutterDelivered)
            && ((exists i :: 0 <= i < |calls| && FlushRank(calls[i]) == 2) <==> numPartial > b.progress)
  {
    var o1 := SendShutters(b);
    var o2 := SendBuffers(o1.batch, streams);
    var o3 := SendMetadata(o2.batch, numPartial);
    assert Flush(b, streams, numPartial).calls == (o1.calls + o2.calls) + o3.calls;
    PartsMade(b, streams, numPartial, o1, o2, o3);
    ThreeParts(o1.calls, o2.calls, o3.calls);
    AllMadeConcat(o1.calls, o2.calls, o3.calls, b.bufs.Keys);
  }

  lemma PartsMade(b: Batch, streams: seq<int>, numPartial: nat, o1: Outcome, o2: Outcome, o3: Outcome)
    requires HoldsOwn(b) && o1 == SendShutters(b) && o2 == SendBuffers(o1.batch, streams)
    requires o3 == SendMetadata(o2.batch, numPartial)
    ensures |o1.calls| == (if b.shutterDelivered then 0 else 1) && |o2.calls| <= 1
    ensures |o3.calls| == if numPartial > b.progress then 1 else 0
    ensures forall i :: 0 <= i < |o1.calls| ==> o1.calls[i].Notified?
    ensures forall i :: 0 <= i < |o2.calls| ==> o2.calls[i].Results? && !o2.calls[i].tryWriteFmq
    ensures forall i :: 0 <= i < |o3.calls| ==> o3.calls[i].Results? && o3.calls[i].tryWriteFmq
    ensures AllMade(o1.calls, b.bufs.Keys) && AllMade(o2.calls, b.bufs.Keys) && AllMade(o3.calls, b.bufs.Keys)
  {
    BuffersMade(o1.batch, streams);
    MetadataMade(o2.batch, numPartial);
    SendBuffersKeeps(o1.batch, streams);
  }

  lemma SendBuffersKeeps(b: Batch, streams: seq<int>)
    ensures SendBuffers(b, streams).batch.progress == b.progress
    ensures SendBuffers(b, streams).batch.bufs.Keys == b.bufs.Keys
  {
  }

  lemma AllMadeConcat(a: seq<CallbackCall>, b: seq<CallbackCall>, c: seq<CallbackCall>, batched: set<int>)
    requires AllMade(a, batched) && AllMade(b, batched) && AllMade(c, batched)
    ensures AllMade((a + b) + c, batched)
  {
  }

  lemma ThreeParts(a: seq<CallbackCall>, b: seq<CallbackCall>, c: seq<CallbackCall>)
    requires |a| <= 1 && |b| <= 1 && |c| <= 1
    requires forall i :: 0 <= i < |a| ==> a[i].Notified?
    requires forall i :: 0 <= i < |b| ==> b[i].Results? && !b[i].tryWriteFmq
    requires forall i :: 0 <= i < |c| ==> c[i].Results? && c[i].tryWriteFmq
    ensures Ranked((a + b) + c, FlushRank)
    ensures (exists i :: 0 <= i < |(a + b) + c| && FlushRank(((a + b) + c)[i]) == 0) <==> a != []
    ensures (exists i :: 0 <= i < |(a + b) + c| && FlushRank(((a + b) + c)[i]) == 2) <==> c != []
  {
    var all := (a + b) + c;
    if a != [] {
      assert all[0] == a[0];
    }
    if c != [] {
      assert all[|a| + |b|] == c[0];
    }
  }

  // ---- over whole runs ----

  /** A call is a notification, a result passed on as it was, or made of what a batch held. */
  ghost predicate FromBatcher(call: CallbackCall, acted: seq<Event>, batches: seq<Batch>) {
    || call.Notified?
    || (exists i :: 0 <= i < |acted| && acted[i].ResultEvent? && call == Results([acted[i].result], true))
    || (exists id :: 0 <= id < |batches| && Made(call, batches[id].bufs.Keys))
  }

  lemma InvHolds(b: Batch, streams: seq<int>, n: nat)
    requires BatchInv(b, streams, n)
    ensures HoldsOwn(b)
  {
    forall s | s in b.bufs
      ensures QueueInv(b.bufs[s], s, b.batchSize)
    {
    }
  }

  lemma ActMakes(st: State, t: Thread, k: nat)
    requires Inv(st) && CanStep(st, Act(t)) && k < |Calls(st, Act(t))|
    ensures FromBatcher(Calls(st, Act(t))[k], st.acted + [st.PcOf(t).event], st.batches)
  {
    var ev := st.PcOf(t).event;
    assert (st.acted + [ev])[|st.acted|] == ev;
    if Target(st, t).Some? {
      var b := st.batches[Target(st, t).value];
      TargetFits(st, t);
      InvHolds(b, st.streams, st.numPartial);
      if ev.ResultEvent? {
        ResultCalls(b, ev.result);
      }
    }
  }

  /** Every call of a step is a notification, a result passed on, or made of what a batch held. */
  lemma StepMakes(st: State, step: Step, k: nat)
    requires Inv(st) && CanStep(st, step) && k < |Calls(st, step)|
    ensures FromBatcher(Calls(st, step)[k], Apply(st, step).acted, st.batches)
  {
    match step
    case Act(t) => ActMakes(st, t, k);
    case FlushFront(t) =>
      FrontIsLive(st, t);
      var b := st.batches[st.deque[0]];
      InvHolds(b, st.streams, st.numPartial);
      FlushCallsAre(b, st.streams, st.numPartial);
    case _ =>
  }

  lemma FromBatcherStays(call: CallbackCall, st: State, acted: seq<Event>, st': State)
    requires FromBatcher(call, acted, st.batches) && Evolves(st.batches, st'.batches)
    requires |acted| <= |st'.acted| && acted == st'.acted[..|acted|]
    ensures FromBatcher(call, st'.acted, st'.batches)
  {
    if i :| 0 <= i < |acted| && acted[i].ResultEvent? && call == Results([acted[i].result], true) {
      assert st'.acted[i] == acted[i];
    }
    if id :| 0 <= id < |st.batches| && Made(call, st.batches[id].bufs.Keys) {
      assert EvolvesTo(st.batches[id], st'.batches[id]);
    }
  }

  ghost predicate AllFrom(calls: seq<CallbackCall>, acted: seq<Event>, batches: seq<Batch>) {
    forall k :: 0 <= k < |calls| ==> FromBatcher(calls[k], acted, batches)
  }

  ghost predicate LogFromBatcher(st: State) {
    AllFrom(st.log, st.acted, st.batches)
  }

  lemma AllFromStays(calls: seq<CallbackCall>, st: State, st': State)
    requires AllFrom(calls, st.acted, st.batches) && Evolves(st.batches, st'.batches)
    requires |st.acted| <= |st'.acted| && st.acted == st'.acted[..|st.acted|]
    ensures AllFrom(calls, st'.acted, st'.batches)
  {
    forall k | 0 <= k < |calls|
      ensures FromBatcher(calls[k], st'.acted, st'.batches)
    {
      FromBatcherStays(calls[k], st, st.acted, st');
    }
  }

  lemma AllFromConcat(a: seq<CallbackCall>, b: seq<CallbackCall>, acted: seq<Event>, batches: seq<Batch>)
    requires AllFrom(a, acted, batches) && AllFrom(b, acted, batches)
    ensures AllFrom(a + b, acted, batches)
  {
  }

  lemma StepLogs(st: State, step: Step)
    requires Inv(st) && CanStep(st, step) && LogFromBatcher(st)
    ensures LogFromBatcher(Apply(st, step))
  {
    var st', calls := Apply(st, step), Calls(st, step);
    StepEvolves(st, step);
    assert st'.log == st.log + calls by {
      StepAppends(st, step, ShutterChannel(0));
    }
    assert st.acted == st'.acted[..|st.acted|];
    AllFromStays(st.log, st, st');
    assert AllFrom(calls, st'.acted, st'.batches) by {
      NewCalls(st, step, st');
    }
    AllFromConcat(st.log, calls, st'.acted, st'.batches);
  }

  lemma NewCalls(st: State, step: Step, st': State)
    requires Inv(st) && CanStep(st, step) && st' == Apply(st, step) && Evolves(st.batches, st'.batches)
    ensures AllFrom(Calls(st, step), st'.acted, st'.batches)
  {
    forall k: nat | k < |Calls(st, step)|
      ensures FromBatcher(Calls(st, step)[k], st'.acted, st'.batches)
    {
      NewCall(st, step, st', k);
    }
  }

  lemma NewCall(st: State, step: Step, st': State, k: nat)
    requires Inv(st) && CanStep(st, step) && st' == Apply(st, step) && k < |Calls(st, step)|
    requires Evolves(st.batches, st'.batches)
    ensures FromBatcher(Calls(st, step)[k], st'.acted, st'.batches)
  {
    StepMakes(st, step, k);
    assert st'.acted == st'.acted[..|st'.acted|];
    FromBatcherStays(Calls(st, step)[k], st, st'.acted, st');
  }

  lemma {:induction false} RunLogs(st: State, steps: seq<Step>)
    requires Inv(st) && LogFromBatcher(st) && ValidRun(st, steps)
    ensures LogFromBatcher(Exec(st, steps))
    decreases |steps|
  {
    if steps != [] {
      StepInv(st, steps[0]);
      StepLogs(st, steps[0]);
      RunLogs(Apply(st, steps[0]), steps[1..]);
    }
  }

  /**
   Nothing else goes up. In every run each call on the callback is a notification, a
   result passed on as the HAL handed it over, or made of what a batch held: each of its
   results either one frame's metadata or buffers only, and the queue used exactly when
   none of the buffers is of the batch's streams.
   */
  lemma NothingElseGoesUp(numPartial: nat, steps: seq<Step>, k: nat)
    requires ValidRun(Init(numPartial), steps) && k < |Exec(Init(numPartial), steps).log|
    ensures var st := Exec(Init(numPartial), steps);
            FromBatcher(st.log[k], st.acted, st.batches)
  {
    InitInv(numPartial);
    RunLogs(Init(numPartial), steps);
  }
}
