/**
 The batcher's output meets the framing's one demand, zero sizes on entry, so the
 framework reads back exactly what the batcher sent.
 */
module BatcherFraming {
  import opened CaptureTypes
  import opened InflightBatchModel
  import opened BatcherProtocol
  import opened BatcherInvariants
  import opened BatcherTheorems
  import opened MetadataQueue

  ghost predicate ZeroCalls(calls: seq<CallbackCall>) {
    forall i :: 0 <= i < |calls| && calls[i].Results? ==> AllZero(calls[i].results)
  }

  ghost predicate ZeroEvent(ev: Event) {
    ev.ResultEvent? ==> ZeroSizes(ev.result)
  }

  lemma {:induction false} MetadataBelowZero(mds: map<nat, seq<(nat, Bytes)>>, bound: nat)
    ensures AllZero(MetadataBelow(mds, bound))
    decreases bound
  {
    if bound > 0 {
      MetadataBelowZero(mds, bound - 1);
    }
  }

  lemma SendsZero(b: Batch, streams: seq<int>, partial: nat)
    ensures ZeroCalls(SendShutters(b).calls)
    ensures ZeroCalls(SendBuffers(b, streams).calls)
    ensures ZeroCalls(SendMetadata(b, partial).calls)
  {
    MetadataBelowZero(b.mds, partial + 1);
  }

  lemma QueueZero(b: Batch, ev: Event)
    ensures ZeroCalls(Queue(b, ev).calls)
  {
    match ev
    case ShutterEvent(m) => SendsZero(b.(shutterMsgs := b.shutterMsgs + [m]), [], 0);
    case ResultEvent(r) =>
      if r.frameNumber == b.lastFrame {
        var filled := FilledStreams(b.bufs, r.outputBuffers);
        SendsZero(Queued(b, r), filled, r.partialResult);
        SendsZero(SendMetadataIf(Queued(b, r), r.partialResult).batch, filled, 0);
      }
  }

  lemma FlushZero(b: Batch, streams: seq<int>, n: nat)
    ensures ZeroCalls(Flush(b, streams, n).calls)
  {
    var b1 := SendShutters(b).batch;
    var b2 := SendBuffers(b1, streams).batch;
    SendsZero(b, streams, n);
    SendsZero(b1, streams, n);
    SendsZero(b2, streams, n);
  }

  ghost predicate ZeroHistory(st: State) {
    && ZeroCalls(st.log)
    && forall t :: t in st.pcs && st.pcs[t].Looked? ==> ZeroEvent(st.pcs[t].event)
  }

  lemma StepKeepsZero(st: State, step: Step)
    requires Shape(st) && CanStep(st, step) && ZeroHistory(st) && (step.Lookup? ==> ZeroEvent(step.event))
    ensures ZeroHistory(Apply(st, step))
  {
    if step.Act? && st.PcOf(step.t).batch.Some? {
      QueueZero(st.batches[st.PcOf(step.t).batch.value], st.PcOf(step.t).event);
    } else if step.FlushFront? {
      FlushZero(st.batches[st.deque[0]], st.streams, st.numPartial);
    }
  }

  lemma {:induction false} RunKeepsZero(st: State, steps: seq<Step>)
    requires Inv(st) && ValidRun(st, steps) && ZeroHistory(st)
    requires forall i :: 0 <= i < |steps| && steps[i].Lookup? ==> ZeroEvent(steps[i].event)
    ensures ZeroHistory(Exec(st, steps))
    decreases |steps|
  {
    if steps != [] {
      StepKeepsZero(st, steps[0]);
      StepInv(st, steps[0]);
      RunKeepsZero(Apply(st, steps[0]), steps[1..]);
    }
  }

  /** The result calls of a log, in order, with whether the queue had room at each. */
  function Invocations(log: seq<CallbackCall>, room: nat -> bool): seq<Invocation> {
    if log == [] then []
    else
      Invocations(log[..|log| - 1], room)
      + match log[|log| - 1]
        case Notified(_) => []
        case Results(rs, fmq) => [Invocation(rs, fmq, room(|log|))]
  }

  lemma {:induction false} InvocationsZero(log: seq<CallbackCall>, room: nat -> bool)
    requires ZeroCalls(log)
    ensures forall i :: 0 <= i < |Invocations(log, room)| ==> AllZero(Invocations(log, room)[i].results)
    decreases |log|
  {
    if log != [] {
      InvocationsZero(log[..|log| - 1], room);
      assert log[|log| - 1].Results? ==> AllZero(log[|log| - 1].results);
    }
  }

  /**
   End to end: in every run whose results come in with zero sizes, whatever the
   queue accepts and whenever it has room, the framework reads back every result
   the batcher sent, byte for byte, and the queue is left with nothing unread.
   */
  lemma FrameworkReadsEverything(numPartial: nat, steps: seq<Step>, accept: nat -> bool, room: nat -> bool)
    requires ValidRun(Init(numPartial), steps)
    requires forall i :: 0 <= i < |steps| && steps[i].Lookup? ==> ZeroEvent(steps[i].event)
    ensures var calls := Invocations(Exec(Init(numPartial), steps).log, room);
            var (framed, w) := FrameCalls(calls, Writer([], 0), accept);
            ReadCalls(framed, w.written) == Some((Originals(calls), []))
  {
    InitInv(numPartial);
    RunKeepsZero(Init(numPartial), steps);
    var log := Exec(Init(numPartial), steps).log;
    InvocationsZero(log, room);
    var calls := Invocations(log, room);
    var bytes := FramingRoundTrip(calls, Writer([], 0), accept);
    assert [] + bytes == bytes && bytes + [] == bytes;
  }
}
