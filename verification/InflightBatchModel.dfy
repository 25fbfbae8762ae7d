/**
 One in-flight batch as a value, and the work done on it while its own lock is
 held: queueing a shutter or a result, and the three send operations.
 */
module InflightBatchModel {
  import opened CaptureTypes

  datatype BufferBatch = BufferBatch(delivered: bool, buffers: seq<StreamBuffer>)

  datatype Batch = Batch(
    firstFrame: nat,
    lastFrame: nat,
    batchSize: nat,
    shutterDelivered: bool,
    shutterMsgs: seq<NotifyMsg>,
    bufs: map<int, BufferBatch>,
    numPartialResults: nat,
    progress: nat,
    mds: map<nat, seq<(nat, Bytes)>>,
    removed: bool)
  {
    predicate Contains(frame: nat) {
      firstFrame <= frame <= lastFrame
    }
  }

  /** A batch together with the callback calls made so far by the operation at hand. */
  datatype Outcome = Outcome(batch: Batch, calls: seq<CallbackCall>)

  function NewBatch(frameNumber: nat, batchSize: nat, streams: seq<int>, numPartial: nat): Batch
    requires batchSize > 0
  {
    Batch(frameNumber, frameNumber + batchSize - 1, batchSize, false, [],
          map s | s in streams :: BufferBatch(false, []), numPartial, 0, map[], false)
  }

  predicate AllDelivered(b: Batch) {
    && b.shutterDelivered
    && b.progress >= b.numPartialResults
    && forall s :: s in b.bufs ==> b.bufs[s].delivered
  }

  // ---- the send operations ----

  predicate AllIn(streams: seq<int>, bufs: map<int, BufferBatch>) {
    forall i :: 0 <= i < |streams| ==> streams[i] in bufs
  }

  function SendShutters(b: Batch): Outcome {
    if b.shutterDelivered then Outcome(b, [])
    else Outcome(b.(shutterDelivered := true, shutterMsgs := []), [Notified(b.shutterMsgs)])
  }

  /** The largest number of undelivered buffers queued for one of `streams`. */
  function LongestQueue(bufs: map<int, BufferBatch>, streams: seq<int>): nat
    requires AllIn(streams, bufs)
  {
    if streams == [] then 0
    else
      var n := LongestQueue(bufs, streams[..|streams| - 1]);
      var bb := bufs[streams[|streams| - 1]];
      if !bb.delivered && |bb.buffers| > n then |bb.buffers| else n
  }

  /** The i-th queued buffer of every undelivered stream that has one. */
  function Row(bufs: map<int, BufferBatch>, streams: seq<int>, i: nat): seq<StreamBuffer>
    requires AllIn(streams, bufs)
  {
    if streams == [] then []
    else
      var bb := bufs[streams[|streams| - 1]];
      Row(bufs, streams[..|streams| - 1], i)
      + (if !bb.delivered && i < |bb.buffers| then [bb.buffers[i]] else [])
  }

  function BufferResult(frame: nat, outs: seq<StreamBuffer>): CaptureResult {
    CaptureResult(frame, 0, 0, [], [], None, outs)
  }

  /** The buffer-only results for rows 0..n; a row's frame number is rebuilt from its position. */
  function BufferResults(firstFrame: nat, bufs: map<int, BufferBatch>, streams: seq<int>, n: nat): seq<CaptureResult>
    requires AllIn(streams, bufs)
  {
    seq(n, i requires 0 <= i < n => BufferResult(firstFrame + i, Row(bufs, streams, i)))
  }

  function SendBuffers(b: Batch, streams: seq<int>): Outcome {
    if !AllIn(streams, b.bufs) then Outcome(b, [])
    else
      var n := LongestQueue(b.bufs, streams);
      if n == 0 then
        Outcome(b.(bufs := map s | s in b.bufs ::
                      if s in streams then b.bufs[s].(delivered := true) else b.bufs[s]), [])
      else
        Outcome(b.(bufs := map s | s in b.bufs ::
                      if s in streams then BufferBatch(true, []) else b.bufs[s]),
                [Results(BufferResults(b.firstFrame, b.bufs, streams, n), false)])
  }

  function MetadataResult(frame: nat, partial: nat, metadata: Bytes): CaptureResult {
    CaptureResult(frame, partial, 0, metadata, [], None, [])
  }

  function PartialResults(mds: seq<(nat, Bytes)>, partial: nat): seq<CaptureResult> {
    seq(|mds|, i requires 0 <= i < |mds| => MetadataResult(mds[i].0, partial, mds[i].1))
  }

  /** The queued metadata with partial index below `bound`, in increasing partial index. */
  function MetadataBelow(mds: map<nat, seq<(nat, Bytes)>>, bound: nat): seq<CaptureResult> {
    if bound == 0 then []
    else
      MetadataBelow(mds, bound - 1)
      + (if bound - 1 in mds then PartialResults(mds[bound - 1], bound - 1) else [])
  }

  function SendMetadata(b: Batch, lastPartial: nat): Outcome {
    if lastPartial <= b.progress then Outcome(b, [])
    else
      Outcome(b.(progress := lastPartial, mds := map p | p in b.mds && p > lastPartial :: b.mds[p]),
              [Results(MetadataBelow(b.mds, lastPartial + 1), true)])
  }

  // ---- the sections entered by HAL callbacks ----

  function QueueShutter(b: Batch, msg: NotifyMsg): Outcome {
    var b1 := b.(shutterMsgs := b.shutterMsgs + [msg]);
    if msg.frameNumber == b.lastFrame then SendShutters(b1) else Outcome(b1, [])
  }

  function QueueMetadata(b: Batch, r: CaptureResult): Batch {
    if r.metadata == [] then b
    else
      var queued := if r.partialResult in b.mds then b.mds[r.partialResult] else [];
      b.(mds := b.mds[r.partialResult := queued + [(r.frameNumber, r.metadata)]])
  }

  /** The buffers of the batched streams, appended to their queues. */
  function QueueBuffers(bufs: map<int, BufferBatch>, outs: seq<StreamBuffer>): map<int, BufferBatch> {
    map s | s in bufs :: bufs[s].(buffers := bufs[s].buffers + BuffersOf(outs, s))
  }

  function NonBatched(bufs: map<int, BufferBatch>, outs: seq<StreamBuffer>): seq<StreamBuffer> {
    if outs == [] then []
    else
      NonBatched(bufs, outs[..|outs| - 1])
      + (if outs[|outs| - 1].streamId in bufs then [] else [outs[|outs| - 1]])
  }

  function FilledStreams(bufs: map<int, BufferBatch>, outs: seq<StreamBuffer>): seq<int> {
    if outs == [] then []
    else
      FilledStreams(bufs, outs[..|outs| - 1])
      + (if outs[|outs| - 1].streamId in bufs then [outs[|outs| - 1].streamId] else [])
  }

  function NonBatchedCalls(b: Batch, r: CaptureResult): seq<CallbackCall> {
    var rest := NonBatched(b.bufs, r.outputBuffers);
    if rest != [] || r.inputBuffer.Some? then
      [Results([CaptureResult(r.frameNumber, 0, 0, [], [], r.inputBuffer, rest)], true)]
    else []
  }

  /** The batch once the metadata and the batched buffers of a result are queued. */
  function Queued(b: Batch, r: CaptureResult): Batch {
    var b1 := QueueMetadata(b, r);
    b1.(bufs := QueueBuffers(b1.bufs, r.outputBuffers))
  }

  /** One operation after another. */
  function Then(o: Outcome, next: Outcome): Outcome {
    Outcome(next.batch, o.calls + next.calls)
  }

  function SendMetadataIf(b: Batch, partial: nat): Outcome {
    if partial > 0 then SendMetadata(b, partial) else Outcome(b, [])
  }

  function SendBuffersIf(b: Batch, filled: seq<int>): Outcome {
    if filled != [] then SendBuffers(b, filled) else Outcome(b, [])
  }

  /** What the result of a batch's last frame releases. */
  function SendLastFrame(b: Batch, partial: nat, filled: seq<int>): Outcome {
    var o := SendMetadataIf(b, partial);
    Then(o, SendBuffersIf(o.batch, filled))
  }

  function QueueResult(b: Batch, r: CaptureResult): Outcome {
    var o := Outcome(Queued(b, r), NonBatchedCalls(b, r));
    if r.frameNumber != b.lastFrame then o
    else Then(o, SendLastFrame(o.batch, r.partialResult, FilledStreams(b.bufs, r.outputBuffers)))
  }

  /** What an error notification does to each batch up to the failing frame. */
  function SendAll(b: Batch, streams: seq<int>, numPartial: nat): Outcome {
    var o1 := SendShutters(b);
    var o2 := Then(o1, SendBuffers(o1.batch, streams));
    Then(o2, SendMetadata(o2.batch, numPartial))
  }

  function Flush(b: Batch, streams: seq<int>, numPartial: nat): Outcome {
    var o := SendAll(b, streams, numPartial);
    Outcome(o.batch.(removed := true), o.calls)
  }

  // ---- what is still queued ----

  function Relabel(firstFrame: nat, bufs: seq<StreamBuffer>): seq<Item> {
    seq(|bufs|, i requires 0 <= i < |bufs| => BufferItem(firstFrame + i, bufs[i]))
  }

  function MetadataOf(mds: seq<(nat, Bytes)>, frame: nat): seq<Item> {
    if mds == [] then []
    else
      MetadataOf(mds[..|mds| - 1], frame)
      + (if mds[|mds| - 1].0 == frame then [MetadataItem(mds[|mds| - 1].1)] else [])
  }

  /** The items of a channel a batch is holding back, in the order they will be sent. */
  function QueuedItems(b: Batch, c: Channel): seq<Item> {
    match c
    case BufferChannel(s) => if s in b.bufs then Relabel(b.firstFrame, b.bufs[s].buffers) else []
    case MetadataChannel(f, p) => if p in b.mds then MetadataOf(b.mds[p], f) else []
    case ShutterChannel(_) => MsgsItems(b.shutterMsgs, c)
    case InputChannel(_) => []
  }

  /** What every batch in the deque that is not yet removed satisfies. */
  ghost predicate BatchInv(b: Batch, streams: seq<int>, numPartial: nat) {
    && b.firstFrame <= b.lastFrame
    && b.batchSize == b.lastFrame - b.firstFrame + 1
    && b.numPartialResults == numPartial
    && (forall s :: s in b.bufs <==> s in streams)
    && (forall s :: s in b.bufs ==> QueueInv(b.bufs[s], s, b.batchSize))
    && (b.shutterDelivered ==> b.shutterMsgs == [])
    && (forall i :: 0 <= i < |b.shutterMsgs| ==>
          b.shutterMsgs[i].Shutter? && b.Contains(b.shutterMsgs[i].frameNumber))
    && (forall p :: p in b.mds ==> b.progress < p <= numPartial)
    && (forall p, i :: p in b.mds && 0 <= i < |b.mds[p]| ==>
          b.Contains(b.mds[p][i].0) && b.mds[p][i].1 != [])
  }

  ghost predicate QueueInv(bb: BufferBatch, s: int, batchSize: nat) {
    && (bb.delivered ==> bb.buffers == [])
    && (!bb.delivered ==> |bb.buffers| < batchSize)
    && (forall i :: 0 <= i < |bb.buffers| ==> bb.buffers[i].streamId == s)
  }

  predicate Distinct<T(==)>(xs: seq<T>) {
    forall i, j :: 0 <= i < j < |xs| ==> xs[i] != xs[j]
  }
}
