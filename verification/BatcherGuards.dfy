/**
 What becomes of a batch when the HAL does not keep to its order. The code checks
 none of these; each lemma says exactly when the queueing and sending it describes
 still does what the pass-through would.
 */
module BatcherGuards {
  import opened CaptureTypes
  import opened Collections
  import opened InflightBatchModel
  import opened InflightBatchProofs
  import opened BatcherProtocol
  import opened BatcherInvariants
  import opened BatcherConservation
  import opened BatcherTheorems

  /**
   The buffers a result queues for a batched stream keep their frame number exactly
   when there is none, or there is one and its frame is the next the queue's length
   stands for: a second buffer, a skipped frame or a frame out of order all end up
   labelled with the wrong frame.
   */
  lemma FrameRebuiltIff(b: Batch, r: CaptureResult, s: int)
    requires s in b.bufs
    ensures var c := BufferChannel(s);
            var n := |BuffersOf(r.outputBuffers, s)|;
            QueuedItems(Queued(b, r), c) == QueuedItems(b, c) + ResultItems(r, c)
            <==> n == 0 || (n == 1 && r.frameNumber == b.firstFrame + |b.bufs[s].buffers|)
  {
    RelabelIff(b.firstFrame, b.bufs[s].buffers, r.frameNumber, BuffersOf(r.outputBuffers, s));
  }

  lemma RelabelIff(first: nat, q: seq<StreamBuffer>, frame: nat, more: seq<StreamBuffer>)
    ensures Relabel(first, q + more) == Relabel(first, q) + Labelled(frame, more)
            <==> |more| == 0 || (|more| == 1 && frame == first + |q|)
  {
    var all, parts := Relabel(first, q + more), Relabel(first, q) + Labelled(frame, more);
    if |more| > 0 {
      assert all[|q|] == BufferItem(first + |q|, more[0]) && parts[|q|] == BufferItem(frame, more[0]);
    }
    if |more| > 1 {
      assert all[|q| + 1] == BufferItem(first + |q| + 1, more[1]) && parts[|q| + 1] == BufferItem(frame, more[1]);
    }
    if |more| == 0 || (|more| == 1 && frame == first + |q|) {
      RelabelAppend(first, q, frame, more);
    }
  }

  /** Sending the shutters sends all that are queued unless some came after the batch's shutters had gone out. */
  lemma ShuttersSentIff(b: Batch, f: nat)
    ensures LogItems(SendShutters(b).calls, ShutterChannel(f)) == QueuedItems(b, ShutterChannel(f))
            <==> !b.shutterDelivered || MsgsItems(b.shutterMsgs, ShutterChannel(f)) == []
  {
    if !b.shutterDelivered {
      OneCall(Notified(b.shutterMsgs), ShutterChannel(f));
    }
  }

  /**
   Sending metadata up to a partial index sends all that is queued under an index
   exactly when that index is within it and nothing as late was sent before, or
   nothing is queued: metadata that comes after its index was sent stays behind.
   */
  lemma MetadataSentIff(b: Batch, last: nat, f: nat, p: nat)
    requires forall q, i :: q in b.mds && 0 <= i < |b.mds[q]| ==> b.mds[q][i].1 != []
    ensures LogItems(SendMetadata(b, last).calls, MetadataChannel(f, p)) == QueuedItems(b, MetadataChannel(f, p))
            <==> (p <= last && b.progress < last) || QueuedItems(b, MetadataChannel(f, p)) == []
  {
    if b.progress < last {
      OneCall(Results(MetadataBelow(b.mds, last + 1), true), MetadataChannel(f, p));
      MetadataBelowOf(b.mds, last + 1, MetadataChannel(f, p));
    }
  }

  // ---- an error's position gone stale ----

  /**
   An error flushes as many batches as its lookup counted, though the lock was free
   in between. Wherever a run of the protocol has a thread about to flush, its loop
   will stay inside the deque and flush exactly the batches that start no later than
   the error's frame if and only if no batch has left the deque since the lookup.
   */
  lemma StaleLookupIff(st: State, t: Thread)
    requires Shape(st) && DequeOk(st.batches, st.deque) && st.PcOf(t).ErrorFound?
    ensures var pc := st.PcOf(t);
            pc.at < |st.deque| && FlushesUpTo(st.batches, st.deque, pc.at, pc.err.frameNumber) <==> Head(st) == pc.head
  {
    var pc := st.PcOf(t);
    assert PcOk(st, t);
    if pc.at < |st.deque| {
      assert st.deque[pc.at] == Head(st) + pc.at;
      if Head(st) < pc.head {
        assert st.deque[pc.at + 1] == Head(st) + pc.at + 1;
      }
    }
  }

  /** The batches at positions up to i are those that start no later than the frame. */
  ghost predicate FlushesUpTo(batches: seq<Batch>, deque: seq<nat>, i: nat, frame: nat)
    requires DequeOk(batches, deque)
  {
    forall j :: 0 <= j < |deque| ==> (j <= i <==> batches[deque[j]].firstFrame <= frame)
  }

  // ---- physical camera metadata ----

  ghost predicate NonePhysical(calls: seq<CallbackCall>) {
    forall i, k :: 0 <= i < |calls| && calls[i].Results? && 0 <= k < |calls[i].results| ==>
      calls[i].results[k].physical == []
  }

  lemma {:induction false} MetadataNonePhysical(mds: map<nat, seq<(nat, Bytes)>>, bound: nat)
    ensures forall k :: 0 <= k < |MetadataBelow(mds, bound)| ==> MetadataBelow(mds, bound)[k].physical == []
    decreases bound
  {
    if bound > 0 {
      MetadataNonePhysical(mds, bound - 1);
    }
  }

  lemma JoinNoPhysical(a: seq<CallbackCall>, b: seq<CallbackCall>)
    requires NonePhysical(a) && NonePhysical(b)
    ensures NonePhysical(a + b)
  {
  }

  lemma SendsNoPhysical(b: Batch, streams: seq<int>, partial: nat)
    ensures NonePhysical(SendBuffersIf(b, streams).calls)
    ensures NonePhysical(SendMetadataIf(b, partial).calls)
  {
    MetadataNonePhysical(b.mds, partial + 1);
  }

  lemma LastFrameNoPhysical(b: Batch, partial: nat, filled: seq<int>)
    ensures NonePhysical(SendLastFrame(b, partial, filled).calls)
  {
    SendsNoPhysical(b, filled, partial);
    SendsNoPhysical(SendMetadataIf(b, partial).batch, filled, partial);
    JoinNoPhysical(SendMetadataIf(b, partial).calls, SendBuffersIf(SendMetadataIf(b, partial).batch, filled).calls);
  }

  /** Whatever a result carries, nothing sent because of it through a batch has physical camera metadata. */
  lemma BatchedSendsNoPhysical(b: Batch, r: CaptureResult)
    ensures NonePhysical(QueueResult(b, r).calls)
  {
    var more := SendLastFrame(Queued(b, r), r.partialResult, FilledStreams(b.bufs, r.outputBuffers));
    LastFrameNoPhysical(Queued(b, r), r.partialResult, FilledStreams(b.bufs, r.outputBuffers));
    JoinNoPhysical(NonBatchedCalls(b, r), more.calls);
  }

  lemma FlushSendsNoPhysical(b: Batch, streams: seq<int>, n: nat)
    ensures NonePhysical(Flush(b, streams, n).calls)
  {
    var b1 := SendShutters(b).batch;
    var b2 := SendBuffers(b1, streams).batch;
    MetadataNonePhysical(b2.mds, n + 1);
    JoinNoPhysical(SendShutters(b).calls, SendBuffers(b1, streams).calls);
    JoinNoPhysical(SendShutters(b).calls + SendBuffers(b1, streams).calls, SendMetadata(b2, n).calls);
  }

  /** Some call hands the framework this physical camera metadata. */
  ghost predicate Carries(calls: seq<CallbackCall>, physical: seq<PhysicalMetadata>) {
    exists i, k :: 0 <= i < |calls| && calls[i].Results? && 0 <= k < |calls[i].results|
                   && calls[i].results[k].physical == physical
  }

  /** No batch still in the deque contains the frame. */
  ghost predicate Unbatched(st: State, frame: nat) {
    forall id :: 0 <= id < |st.batches| && st.batches[id].Contains(frame) ==> st.batches[id].removed
  }

  /** A thread about to act has no batch to queue in exactly when no live batch contains its frame. */
  lemma TargetIff(st: State, t: Thread)
    requires Shape(st) && CanStep(st, Act(t))
    ensures Target(st, t).None? <==> Unbatched(st, st.PcOf(t).event.Frame())
  {
    assert PcOk(st, t);
    if Target(st, t).None? && st.PcOf(t).batch.Some? {
      var found := st.PcOf(t).batch.value;
      assert st.batches[found].Contains(st.PcOf(t).event.Frame());
    }
  }

  /**
   Physical camera metadata reaches the framework exactly when its frame is in no
   batch still in flight: then the result goes up whole, else that part is dropped.
   */
  lemma PhysicalSentIff(st: State, t: Thread)
    requires Shape(st) && CanStep(st, Act(t))
    requires st.PcOf(t).event.ResultEvent? && st.PcOf(t).event.result.physical != []
    ensures Carries(Calls(st, Act(t)), st.PcOf(t).event.result.physical)
            <==> Unbatched(st, st.PcOf(t).event.Frame())
  {
    var r := st.PcOf(t).event.result;
    TargetIff(st, t);
    match Target(st, t)
    case None =>
      var calls := Calls(st, Act(t));
      assert calls == [Results([r], true)];
      assert calls[0].results[0].physical == r.physical;
    case Some(id) =>
      BatchedSendsNoPhysical(st.batches[id], r);
  }

  // ---- and over runs ----

  /** The physical metadata in a list of results, in order. */
  function PhysicalsIn(rs: seq<CaptureResult>): seq<seq<PhysicalMetadata>> {
    if rs == [] then []
    else PhysicalsIn(rs[..|rs| - 1]) + if rs[|rs| - 1].physical == [] then [] else [rs[|rs| - 1].physical]
  }

  function PhysicalsSent(log: seq<CallbackCall>): seq<seq<PhysicalMetadata>> {
    if log == [] then []
    else
      PhysicalsSent(log[..|log| - 1])
      + match log[|log| - 1]
        case Notified(_) => []
        case Results(rs, _) => PhysicalsIn(rs)
  }

  lemma {:induction false} NoneIn(rs: seq<CaptureResult>)
    requires forall k :: 0 <= k < |rs| ==> rs[k].physical == []
    ensures PhysicalsIn(rs) == []
    decreases |rs|
  {
    if rs != [] {
      NoneIn(rs[..|rs| - 1]);
    }
  }

  /** Calls without physical metadata add none. */
  lemma {:induction false} NoneSent(log: seq<CallbackCall>, calls: seq<CallbackCall>)
    requires NonePhysical(calls)
    ensures PhysicalsSent(log + calls) == PhysicalsSent(log)
    decreases |calls|
  {
    if calls == [] {
      assert log + calls == log;
    } else {
      var init, last := calls[..|calls| - 1], calls[|calls| - 1];
      NoneSent(log, init);
      assert (log + calls)[..|log + calls| - 1] == log + init;
      if last.Results? {
        NoneIn(last.results);
      }
    }
  }

  /** What a step of the HAL hands over unbatched, if it carries physical metadata. */
  ghost function HandedUnbatched(st: State, step: Step): seq<seq<PhysicalMetadata>> {
    if step.Act? && st.PcOf(step.t).Looked? && st.PcOf(step.t).event.ResultEvent?
       && st.PcOf(step.t).event.result.physical != [] && Unbatched(st, st.PcOf(step.t).event.Frame())
    then [st.PcOf(step.t).event.result.physical] else []
  }

  ghost function AllHandedUnbatched(st: State, steps: seq<Step>): seq<seq<PhysicalMetadata>>
    requires ValidRun(st, steps)
    decreases |steps|
  {
    if steps == [] then [] else HandedUnbatched(st, steps[0]) + AllHandedUnbatched(Apply(st, steps[0]), steps[1..])
  }

  lemma OneSent(log: seq<CallbackCall>, r: CaptureResult)
    ensures PhysicalsSent(log + [Results([r], true)]) ==
            PhysicalsSent(log) + if r.physical == [] then [] else [r.physical]
  {
    var call := Results([r], true);
    assert (log + [call])[..|log|] == log;
    assert PhysicalsIn([r][..0]) == [];
  }

  lemma ActSendsNone(st: State, t: Thread, id: nat)
    requires Shape(st) && CanStep(st, Act(t)) && Target(st, t) == Some(id) && id < |st.batches|
    ensures PhysicalsSent(st.log + Calls(st, Act(t))) == PhysicalsSent(st.log)
  {
    var b := st.batches[id];
    match st.PcOf(t).event {
      case ShutterEvent(m) => assert NonePhysical(QueueShutter(b, m).calls);
      case ResultEvent(r) => BatchedSendsNoPhysical(b, r);
    }
    NoneSent(st.log, Calls(st, Act(t)));
  }

  lemma ActSendsPhysicals(st: State, t: Thread)
    requires Shape(st) && CanStep(st, Act(t))
    ensures PhysicalsSent(st.log + Calls(st, Act(t))) == PhysicalsSent(st.log) + HandedUnbatched(st, Act(t))
  {
    TargetIff(st, t);
    match Target(st, t)
    case Some(id) => ActSendsNone(st, t, id);
    case None =>
      match st.PcOf(t).event
      case ShutterEvent(m) => NoneSent(st.log, [Notified([m])]);
      case ResultEvent(r) => OneSent(st.log, r);
  }

  lemma OtherSendsNone(st: State, step: Step)
    requires Shape(st) && CanStep(st, step) && !step.Act?
    ensures PhysicalsSent(st.log + Calls(st, step)) == PhysicalsSent(st.log)
  {
    if step.FlushFront? {
      FlushSendsNoPhysical(st.batches[st.deque[0]], st.streams, st.numPartial);
    }
    assert NonePhysical(Calls(st, step));
    NoneSent(st.log, Calls(st, step));
  }

  lemma StepSendsPhysicals(st: State, step: Step)
    requires Shape(st) && CanStep(st, step)
    ensures PhysicalsSent(Apply(st, step).log) == PhysicalsSent(st.log) + HandedUnbatched(st, step)
  {
    StepAppends(st, step, ShutterChannel(0));
    if step.Act? {
      ActSendsPhysicals(st, step.t);
    } else {
      OtherSendsNone(st, step);
    }
  }

  /**
   In every run the physical camera metadata the framework was sent is, in order,
   exactly that of the results handed over while no batch in flight contained their frame.
   */
  lemma {:induction false} PhysicalsSentAre(st: State, steps: seq<Step>)
    requires Inv(st) && ValidRun(st, steps)
    ensures PhysicalsSent(Exec(st, steps).log) == PhysicalsSent(st.log) + AllHandedUnbatched(st, steps)
    decreases |steps|
  {
    if steps != [] {
      var next := Apply(st, steps[0]);
      StepSendsPhysicals(st, steps[0]);
      StepInv(st, steps[0]);
      PhysicalsSentAre(next, steps[1..]);
      Regroup(PhysicalsSent(st.log), HandedUnbatched(st, steps[0]), AllHandedUnbatched(next, steps[1..]));
    }
  }

  function PhysicalResult(): CaptureResult {
    CaptureResult(1, 1, 0, [5], [PhysicalMetadata(0, "2", [7])], None, [])
  }

  lemma ResultFound(r: CaptureResult)
    requires r.frameNumber == 1
    ensures var st := OneBatch(1, 2, map[]);
            && CanStep(st, Lookup(0, ResultEvent(r)))
            && Apply(st, Lookup(0, ResultEvent(r))) == OneBatch(1, 2, map[0 := Looked(ResultEvent(r), Some(0))])
  {
  }

  lemma PhysicalResultInOrder(st: State)
    requires st.batches == [NewBatch(1, 2, [], 1)] && st.streams == [] && st.acted == [] && st.numPartial == 1
    ensures HalInOrder(st, ResultEvent(PhysicalResult()))
  {
  }

  lemma PhysicalResultQueued(b: Batch)
    requires b == NewBatch(1, 2, [], 1)
    ensures QueueResult(b, PhysicalResult()).calls == []
  {
  }

  lemma ResultActed(r: CaptureResult)
    requires r == PhysicalResult()
    ensures var st := OneBatch(1, 2, map[0 := Looked(ResultEvent(r), Some(0))]);
            CanStep(st, Act(0)) && Apply(st, Act(0)).log == [] && Apply(st, Act(0)).acted == [ResultEvent(r)]
  {
    var st := OneBatch(1, 2, map[0 := Looked(ResultEvent(r), Some(0))]);
    PhysicalResultInOrder(st);
    PhysicalResultQueued(st.batches[0]);
  }

  /** A result of a batch's first frame, with physical metadata: when it has been handled none of that has been sent. */
  lemma PhysicalDropped()
    ensures var r := CaptureResult(1, 1, 0, [5], [PhysicalMetadata(0, "2", [7])], None, []);
            var steps := [Register(1, 2), Lookup(0, ResultEvent(r)), Act(0)];
            && ValidRun(Init(1), steps)
            && Exec(Init(1), steps).acted == [ResultEvent(r)] && PhysicalsSent(Exec(Init(1), steps).log) == []
  {
    var r := PhysicalResult();
    RegistersOne(1, 2);
    ResultFound(r);
    ResultActed(r);
    RunOfThree(Init(1), Register(1, 2), Lookup(0, ResultEvent(r)), Act(0));
  }
}
