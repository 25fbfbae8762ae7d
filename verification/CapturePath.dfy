/**
 The way of a buffer through the wrapper: requested in the session, returned by
 the HAL, handed over to the batcher, sent up to the framework under its own frame.
 */
module CapturePath {
  import opened Collections
  import opened CaptureTypes
  import opened CaptureTables
  import opened CaptureSession
  import opened InflightBatchModel
  import opened BatcherProtocol
  import opened BatcherInvariants
  import opened BatcherConservation
  import opened BatcherTheorems

  // ---- the buffers in a list of items ----

  lemma {:induction false} InFlat(xs: seq<seq<Item>>, x: Item)
    ensures x in Flat(xs) <==> exists i :: 0 <= i < |xs| && x in xs[i]
    decreases |xs|
  {
    if xs != [] {
      InFlat(xs[..|xs| - 1], x);
    }
  }

  lemma {:induction false} InBuffersOf(bufs: seq<StreamBuffer>, s: int, b: StreamBuffer)
    ensures b in BuffersOf(bufs, s) <==> b in bufs && b.streamId == s
    decreases |bufs|
  {
    if bufs != [] {
      InBuffersOf(bufs[..|bufs| - 1], s, b);
      assert bufs == bufs[..|bufs| - 1] + [bufs[|bufs| - 1]];
    }
  }

  lemma InLabelled(frame: nat, bufs: seq<StreamBuffer>, f: nat, b: StreamBuffer)
    ensures BufferItem(f, b) in Labelled(frame, bufs) <==> f == frame && b in bufs
  {
    var items := Labelled(frame, bufs);
    if f == frame && b in bufs {
      var i :| 0 <= i < |bufs| && bufs[i] == b;
      assert items[i] == BufferItem(f, b);
    }
  }

  lemma InEvents(es: seq<Event>, c: Channel, x: Item)
    ensures x in EventsItems(es, c) <==> exists i :: 0 <= i < |es| && x in EventItems(es[i], c)
  {
    var xs := seq(|es|, i requires 0 <= i < |es| => EventItems(es[i], c));
    InFlat(xs, x);
    assert forall i :: 0 <= i < |es| ==> xs[i] == EventItems(es[i], c);
  }

  /** Among output items of a stream and input items of a frame, one is the pair's buffer. */
  ghost predicate Shows(outs: seq<Item>, ins: seq<Item>, p: Pair) {
    exists b: StreamBuffer :: b.streamId == p.0 && (BufferItem(p.1, b) in outs || InputItem(b) in ins)
  }

  /** The framework has been sent the pair's buffer, labelled with the pair's frame. */
  ghost predicate SentUp(log: seq<CallbackCall>, p: Pair) {
    Shows(LogItems(log, BufferChannel(p.0)), LogItems(log, InputChannel(p.1)), p)
  }

  /** The pair's buffer is queued in a batch. */
  ghost predicate Waits(st: State, p: Pair)
    requires DequeOk(st.batches, st.deque)
  {
    Shows(StillQueued(st, BufferChannel(p.0)), StillQueued(st, InputChannel(p.1)), p)
  }

  /** The pairs of an event. */
  function EventPairs(e: Event): set<Pair> {
    match e
    case ShutterEvent(_) => {}
    case ResultEvent(r) =>
      (set i | 0 <= i < |r.outputBuffers| :: (r.outputBuffers[i].streamId, r.frameNumber))
      + (if r.inputBuffer.Some? then {(r.inputBuffer.value.streamId, r.frameNumber)} else {})
  }

  lemma EventShows(e: Event, p: Pair)
    ensures Shows(EventItems(e, BufferChannel(p.0)), EventItems(e, InputChannel(p.1)), p) <==> p in EventPairs(e)
  {
    if e.ResultEvent? {
      var r := e.result;
      forall b: StreamBuffer
        ensures BufferItem(p.1, b) in EventItems(e, BufferChannel(p.0)) <==>
                r.frameNumber == p.1 && b in r.outputBuffers && b.streamId == p.0
      {
        InLabelled(r.frameNumber, BuffersOf(r.outputBuffers, p.0), p.1, b);
        InBuffersOf(r.outputBuffers, p.0, b);
      }
      if (exists b :: b in r.outputBuffers && b.streamId == p.0) && r.frameNumber == p.1 {
        var i :| 0 <= i < |r.outputBuffers| && r.outputBuffers[i].streamId == p.0;
        assert (r.outputBuffers[i].streamId, r.frameNumber) == p;
      }
      if p in EventPairs(e) && !(r.inputBuffer.Some? && (r.inputBuffer.value.streamId, r.frameNumber) == p) {
        var i :| 0 <= i < |r.outputBuffers| && (r.outputBuffers[i].streamId, r.frameNumber) == p;
        assert BufferItem(p.1, r.outputBuffers[i]) in EventItems(e, BufferChannel(p.0));
      }
    }
  }

  lemma EventsShow(es: seq<Event>, p: Pair)
    ensures Shows(EventsItems(es, BufferChannel(p.0)), EventsItems(es, InputChannel(p.1)), p) <==>
            exists i :: 0 <= i < |es| && p in EventPairs(es[i])
  {
    var out, in_ := BufferChannel(p.0), InputChannel(p.1);
    forall b: StreamBuffer
      ensures BufferItem(p.1, b) in EventsItems(es, out) <==>
              exists i :: 0 <= i < |es| && BufferItem(p.1, b) in EventItems(es[i], out)
      ensures InputItem(b) in EventsItems(es, in_) <==>
              exists i :: 0 <= i < |es| && InputItem(b) in EventItems(es[i], in_)
    {
      InEvents(es, out, BufferItem(p.1, b));
      InEvents(es, in_, InputItem(b));
    }
    forall i | 0 <= i < |es|
      ensures Shows(EventItems(es[i], out), EventItems(es[i], in_), p) <==> p in EventPairs(es[i])
    {
      EventShows(es[i], p);
    }
  }

  // ---- from the session to the batcher ----

  /** Event i of the history is a result the session accepted. */
  ghost predicate AcceptedResult(d: Device, h: seq<TableEvent>, i: nat) {
    i < |h| && h[i].Result? && Acceptable(After(d, h[..i]), h[i].res)
  }

  ghost predicate AcceptedAt(d: Device, h: seq<TableEvent>, i: nat, p: Pair) {
    AcceptedResult(d, h, i) && p in ResultPairs(h[i].res)
  }

  /** The batcher's result is made from the HAL's: same frame, same buffers. */
  predicate MadeFrom(e: Event, r: HalResult) {
    && e.ResultEvent? && e.result.frameNumber == r.frame && |e.result.outputBuffers| == |r.outputs|
    && (forall k :: 0 <= k < |r.outputs| ==> e.result.outputBuffers[k].streamId == r.outputs[k])
    && r.input == (if e.result.inputBuffer.Some? then Some(e.result.inputBuffer.value.streamId) else None)
  }

  ghost predicate IsHandled(acted: seq<Event>, r: HalResult) {
    exists j :: 0 <= j < |acted| && MadeFrom(acted[j], r)
  }

  ghost predicate WasAccepted(d: Device, h: seq<TableEvent>, dropped: set<nat>, e: Event) {
    exists i: nat :: i !in dropped && AcceptedResult(d, h, i) && MadeFrom(e, h[i].res)
  }

  /**
   What the batcher has handled is made, in whatever order the threads got there, from
   the session's accepted results, except those dropped in between because they name
   an unknown physical camera.
   */
  ghost predicate HandsOver(d: Device, h: seq<TableEvent>, dropped: set<nat>, acted: seq<Event>) {
    && (forall i: nat :: AcceptedResult(d, h, i) && i !in dropped ==> IsHandled(acted, h[i].res))
    && (forall j :: 0 <= j < |acted| && acted[j].ResultEvent? ==> WasAccepted(d, h, dropped, acted[j]))
  }

  /** The pair came back in a result that was dropped. */
  ghost predicate Lost(d: Device, h: seq<TableEvent>, dropped: set<nat>, p: Pair) {
    exists i: nat :: i in dropped && AcceptedAt(d, h, i, p)
  }

  lemma SamePairs(e: Event, r: HalResult)
    requires MadeFrom(e, r)
    ensures EventPairs(e) == ResultPairs(r)
  {
  }

  lemma HandledWasAccepted(d: Device, h: seq<TableEvent>, dropped: set<nat>, e: Event, p: Pair) returns (i: nat)
    requires WasAccepted(d, h, dropped, e) && p in EventPairs(e)
    ensures i !in dropped && AcceptedAt(d, h, i, p)
  {
    i :| i !in dropped && AcceptedResult(d, h, i) && MadeFrom(e, h[i].res);
    SamePairs(e, h[i].res);
  }

  lemma AcceptedIsHandled(acted: seq<Event>, r: HalResult, p: Pair) returns (j: nat)
    requires IsHandled(acted, r) && p in ResultPairs(r)
    ensures j < |acted| && p in EventPairs(acted[j])
  {
    j :| j < |acted| && MadeFrom(acted[j], r);
    SamePairs(acted[j], r);
  }

  lemma HandledOnlyAccepted(d: Device, h: seq<TableEvent>, dropped: set<nat>, acted: seq<Event>, p: Pair)
    requires HandsOver(d, h, dropped, acted) && exists j :: 0 <= j < |acted| && p in EventPairs(acted[j])
    ensures exists i: nat :: i !in dropped && AcceptedAt(d, h, i, p)
  {
    var j :| 0 <= j < |acted| && p in EventPairs(acted[j]);
    var _ := HandledWasAccepted(d, h, dropped, acted[j], p);
  }

  lemma AcceptedAllHandled(d: Device, h: seq<TableEvent>, dropped: set<nat>, acted: seq<Event>, p: Pair)
    requires HandsOver(d, h, dropped, acted) && exists i: nat :: i !in dropped && AcceptedAt(d, h, i, p)
    ensures exists j :: 0 <= j < |acted| && p in EventPairs(acted[j])
  {
    var i: nat :| i !in dropped && AcceptedAt(d, h, i, p);
    var _ := AcceptedIsHandled(acted, h[i].res, p);
  }

  lemma HandledIff(d: Device, h: seq<TableEvent>, dropped: set<nat>, acted: seq<Event>, p: Pair)
    requires HandsOver(d, h, dropped, acted)
    ensures (exists j :: 0 <= j < |acted| && p in EventPairs(acted[j])) <==>
            exists i: nat :: i !in dropped && AcceptedAt(d, h, i, p)
  {
    if exists j :: 0 <= j < |acted| && p in EventPairs(acted[j]) {
      HandledOnlyAccepted(d, h, dropped, acted, p);
    }
    if exists i: nat :: i !in dropped && AcceptedAt(d, h, i, p) {
      AcceptedAllHandled(d, h, dropped, acted, p);
    }
  }

  lemma PrefixOrderly(d: Device, h: seq<TableEvent>, n: nat)
    requires Orderly(d, h) && n <= |h|
    ensures Orderly(d, h[..n])
  {
    forall i | 0 <= i < n
      ensures InOrder(d, h[..n][..i], h[..n][i])
    {
      assert h[..n][..i] == h[..i];
    }
  }

  /** No pair is accepted in two results. */
  lemma AcceptedOnce(d: Device, h: seq<TableEvent>, p: Pair, i: nat, j: nat)
    requires Orderly(d, h) && AcceptedAt(d, h, i, p) && AcceptedAt(d, h, j, p)
    ensures i == j
  {
    if i != j {
      var a, b := if i < j then i else j, if i < j then j else i;
      var before := h[..b];
      PrefixOrderly(d, h, b);
      assert before[a] == h[a] && before[..a] == h[..a];
      assert ReturnedIn(d, before, p);
      InflightConserved(d, before, p);
      assert false;
    }
  }

  lemma ReturnedSplits(d: Device, h: seq<TableEvent>, dropped: set<nat>, p: Pair)
    requires Orderly(d, h)
    ensures (exists i: nat :: i !in dropped && AcceptedAt(d, h, i, p)) <==>
            ReturnedIn(d, h, p) && !Lost(d, h, dropped, p)
  {
    forall i: nat, j: nat | AcceptedAt(d, h, i, p) && AcceptedAt(d, h, j, p)
      ensures i == j
    {
      AcceptedOnce(d, h, p, i, j);
    }
    if ReturnedIn(d, h, p) {
      var i :| 0 <= i < |h| && h[i].Result? && Acceptable(After(d, h[..i]), h[i].res) && p in ResultPairs(h[i].res);
      assert AcceptedAt(d, h, i, p);
    }
  }

  /** What the batcher has handled it has sent or still holds. */
  lemma HandledIsHeldOrSent(numPartial: nat, steps: seq<BatcherProtocol.Step>, p: Pair)
    requires ValidRun(Init(numPartial), steps)
    ensures var st := Exec(Init(numPartial), steps);
            DequeOk(st.batches, st.deque)
            && (SentUp(st.log, p) || Waits(st, p) <==> exists j :: 0 <= j < |st.acted| && p in EventPairs(st.acted[j]))
  {
    var st := Exec(Init(numPartial), steps);
    BatchingRefinesPassThrough(numPartial, steps, BufferChannel(p.0));
    BatchingRefinesPassThrough(numPartial, steps, InputChannel(p.1));
    EventsShow(st.acted, p);
  }

  lemma ReturnedIs(outcome: InitOutcome, d: Device, early: bool, calls: seq<Call>, dropped: set<nat>, p: Pair)
    requires NewFrames({}, RunFrames(calls))
    ensures var h, t := RunEvents(New(outcome), d, early, calls), DoAll(New(outcome), d, early, calls).tables;
            (exists i: nat :: i !in dropped && AcceptedAt(d, h, i, p)) <==>
            Submitted(h, p) && !RolledBack(h, p) && p !in t.inflight && !Lost(d, h, dropped, p)
  {
    RunConserved(outcome, d, early, calls, p);
    ReturnedSplits(d, RunEvents(New(outcome), d, early, calls), dropped, p);
  }

  /**
   Every requested buffer, from the request to the framework. Over any calls on a new
   session whose requests carry different frames, and any guarded interleaved run of
   the batcher that handled the results the session accepted: a (stream, frame) pair's
   buffer has been sent up under that frame, or waits in a batch, if and only if the
   pair was submitted, was not rolled back, is no longer in flight, and did not come
   back in a result dropped for its physical cameras.
   */
  lemma EveryBufferComesUp(outcome: InitOutcome, d: Device, early: bool, calls: seq<Call>, dropped: set<nat>,
                           numPartial: nat, steps: seq<BatcherProtocol.Step>, p: Pair)
    requires NewFrames({}, RunFrames(calls)) && ValidRun(Init(numPartial), steps)
    requires HandsOver(d, RunEvents(New(outcome), d, early, calls), dropped, Exec(Init(numPartial), steps).acted)
    ensures var h, t := RunEvents(New(outcome), d, early, calls), DoAll(New(outcome), d, early, calls).tables;
            var st := Exec(Init(numPartial), steps);
            DequeOk(st.batches, st.deque)
            && (SentUp(st.log, p) || Waits(st, p) <==>
                Submitted(h, p) && !RolledBack(h, p) && p !in t.inflight && !Lost(d, h, dropped, p))
  {
    HandledIsHeldOrSent(numPartial, steps, p);
    HandledIff(d, RunEvents(New(outcome), d, early, calls), dropped, Exec(Init(numPartial), steps).acted, p);
    ReturnedIs(outcome, d, early, calls, dropped, p);
  }

  /** With the deque empty and nothing dropped or in flight, the framework has exactly the pairs not rolled back. */
  lemma AllUpWhenIdle(outcome: InitOutcome, d: Device, early: bool, calls: seq<Call>,
                      numPartial: nat, steps: seq<BatcherProtocol.Step>, p: Pair)
    requires NewFrames({}, RunFrames(calls)) && ValidRun(Init(numPartial), steps)
    requires HandsOver(d, RunEvents(New(outcome), d, early, calls), {}, Exec(Init(numPartial), steps).acted)
    requires DoAll(New(outcome), d, early, calls).tables.inflight == {} && Exec(Init(numPartial), steps).deque == []
    ensures var h := RunEvents(New(outcome), d, early, calls);
            SentUp(Exec(Init(numPartial), steps).log, p) <==> Submitted(h, p) && !RolledBack(h, p)
  {
    EveryBufferComesUp(outcome, d, early, calls, {}, numPartial, steps, p);
  }

  // ---- the batches a session registers ----

  /** A call whose requests all went through registers them as a batch if there are several. */
  function Registration(s: Session, d: Device, call: Call): seq<(nat, nat)> {
    if call.CallProcess? && |call.reqs| > 1 && Process(s, d, call.reqs, call.removals).0 == OK
    then [(call.reqs[0].frame, |call.reqs|)] else []
  }

  /** The batches registered by the calls, as first frame and size. */
  function Registrations(s: Session, d: Device, early: bool, calls: seq<Call>): seq<(nat, nat)>
    decreases |calls|
  {
    if calls == [] then []
    else Registration(s, d, calls[0]) + Registrations(Do(s, d, early, calls[0]), d, early, calls[1..])
  }

  /** A call's frames are consecutive and start at `from` or later. */
  predicate StartsAt(from: nat, call: Call) {
    call.CallProcess? && call.reqs != [] ==>
      from <= call.reqs[0].frame && forall i :: 0 <= i < |call.reqs| ==> call.reqs[i].frame == call.reqs[0].frame + i
  }

  /** Where the frames after a call may start. */
  function FrameAfter(from: nat, call: Call): nat {
    if call.CallProcess? && call.reqs != [] then call.reqs[0].frame + |call.reqs| else from
  }

  /** Consecutive frames in every call, each call's after those before it, the first at least `from`. */
  ghost predicate FramesGrow(from: nat, calls: seq<Call>)
    decreases |calls|
  {
    calls == [] || (StartsAt(from, calls[0]) && FramesGrow(FrameAfter(from, calls[0]), calls[1..]))
  }

  /** Batches in growing order: each of several frames, starting after the ones before it. */
  ghost predicate BatchesGrow(from: nat, regs: seq<(nat, nat)>) {
    && (forall k :: 0 <= k < |regs| ==> from <= regs[k].0 && regs[k].1 > 1)
    && (forall j, k :: 0 <= j < k < |regs| ==> regs[j].0 + regs[j].1 <= regs[k].0)
  }

  lemma OneBatchMore(from: nat, f: nat, n: nat, rest: seq<(nat, nat)>, first: seq<(nat, nat)>)
    requires from <= f && BatchesGrow(f + n, rest) && (first == [] || (first == [(f, n)] && n > 1))
    ensures BatchesGrow(from, first + rest)
  {
    var all := first + rest;
    forall k | |first| <= k < |all|
      ensures all[k] == rest[k - |first|]
    {
    }
  }

  lemma RegistrationGrows(s: Session, d: Device, call: Call, from: nat, rest: seq<(nat, nat)>, all: seq<(nat, nat)>)
    requires StartsAt(from, call) && BatchesGrow(FrameAfter(from, call), rest)
    requires all == Registration(s, d, call) + rest
    ensures BatchesGrow(from, all)
  {
    if call.CallProcess? && call.reqs != [] {
      OneBatchMore(from, call.reqs[0].frame, |call.reqs|, rest, Registration(s, d, call));
    } else {
      assert all == rest;
    }
  }

  lemma {:induction false} RegistrationsGrow(s: Session, d: Device, early: bool, from: nat, calls: seq<Call>)
    requires FramesGrow(from, calls)
    ensures BatchesGrow(from, Registrations(s, d, early, calls))
    decreases |calls|
  {
    if calls != [] {
      var next, call := Do(s, d, early, calls[0]), calls[0];
      RegistrationsGrow(next, d, early, FrameAfter(from, call), calls[1..]);
      RegistrationGrows(s, d, call, from, Registrations(next, d, early, calls[1..]), Registrations(s, d, early, calls));
    }
  }

  /** The batcher's batches are the first k registered. */
  ghost predicate HasRegistered(st: State, regs: seq<(nat, nat)>, k: nat) {
    && |st.batches| == k <= |regs|
    && forall i :: 0 <= i < k ==>
         st.batches[i].firstFrame == regs[i].0 && st.batches[i].lastFrame + 1 == regs[i].0 + regs[i].1
  }

  /** The HAL has handed over nothing yet for frames f to f + n - 1. */
  ghost predicate NothingYet(st: State, f: nat, n: nat) {
    && (forall i :: 0 <= i < |st.acted| ==> !(f <= st.acted[i].Frame() < f + n))
    && (forall t :: t in st.pcs && st.pcs[t].Looked? ==> !(f <= st.pcs[t].event.Frame() < f + n))
  }

  /**
   What the batcher demands of a registration, from what the client promises of its
   frames. When frames are consecutive in a call and grow from call to call, every
   registration the session makes is a fresh batch for the batcher if and only if
   its frames are 32-bit numbers and the HAL has handed over none of their results
   or shutters; processCaptureRequest itself does not rule that out, as it registers
   a batch only after the HAL has its requests.
   */
  lemma RegistrationFreshIff(s: Session, d: Device, early: bool, calls: seq<Call>, st: State, k: nat)
    requires FramesGrow(0, calls) && k < |Registrations(s, d, early, calls)|
    requires HasRegistered(st, Registrations(s, d, early, calls), k)
    ensures var (f, n) := Registrations(s, d, early, calls)[k];
            FreshBatch(st, f, n) <==> f + n <= UINT32_LIMIT && NothingYet(st, f, n)
  {
    RegistrationsGrow(s, d, early, 0, calls);
  }

  lemma FramesFromOn(reqs: seq<CaptureRequest>, f: nat, rest: seq<nat>)
    requires reqs != [] ==> reqs[0].frame >= f
    requires forall i :: 0 <= i < |reqs| ==> reqs[i].frame == reqs[0].frame + i
    requires forall i :: 0 <= i < |rest| ==> rest[i] >= if reqs == [] then f else reqs[0].frame + |reqs|
    requires forall i, j :: 0 <= i < j < |rest| ==> rest[i] < rest[j]
    ensures var all := RequestFrames(reqs) + rest;
            && (forall i :: 0 <= i < |all| ==> all[i] >= f)
            && (forall i, j :: 0 <= i < j < |all| ==> all[i] < all[j])
  {
    var first := RequestFrames(reqs);
    assert forall i :: 0 <= i < |first| ==> first[i] == reqs[0].frame + i;
    assert forall i :: |first| <= i < |first + rest| ==> (first + rest)[i] == rest[i - |first|];
  }

  /** Growing frames are different frames. */
  lemma {:induction false} GrowingAreNew(from: nat, calls: seq<Call>)
    requires FramesGrow(from, calls)
    ensures forall i :: 0 <= i < |RunFrames(calls)| ==> RunFrames(calls)[i] >= from
    ensures forall i, j :: 0 <= i < j < |RunFrames(calls)| ==> RunFrames(calls)[i] < RunFrames(calls)[j]
    ensures NewFrames({}, RunFrames(calls))
    decreases |calls|
  {
    if calls != [] {
      var reqs := if calls[0].CallProcess? then calls[0].reqs else [];
      GrowingAreNew(FrameAfter(from, calls[0]), calls[1..]);
      FramesFromOn(reqs, from, RunFrames(calls[1..]));
      assert RunFrames(calls) == RequestFrames(reqs) + RunFrames(calls[1..]);
    }
  }
}
