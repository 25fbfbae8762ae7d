/**
 Each operation on a batch accounts for every item of every channel: what it
 sends, followed by what is still queued, is what was queued before, followed
 by what the HAL just handed over.
 */
module InflightBatchProofs {
  import opened Collections
  import opened CaptureTypes
  import opened InflightBatchModel

  // ---- shutters ----

  lemma NotifiedElsewhere(ms: seq<NotifyMsg>, c: Channel)
    requires !c.ShutterChannel?
    ensures MsgsItems(ms, c) == []
  {
    FlatEmpty(seq(|ms|, i requires 0 <= i < |ms| => MsgItems(ms[i], c)));
  }

  lemma SendShuttersAccount(b: Batch, c: Channel)
    ensures LogItems(SendShutters(b).calls, c) + QueuedItems(SendShutters(b).batch, c) == QueuedItems(b, c)
  {
    if !b.shutterDelivered {
      OneCall(Notified(b.shutterMsgs), c);
      if !c.ShutterChannel? {
        NotifiedElsewhere(b.shutterMsgs, c);
      }
    }
  }

  // ---- buffers ----

  ghost predicate OwnStreams(bufs: map<int, BufferBatch>) {
    forall t, k :: t in bufs && 0 <= k < |bufs[t].buffers| ==> bufs[t].buffers[k].streamId == t
  }

  lemma {:induction false} RowOf(bufs: map<int, BufferBatch>, streams: seq<int>, i: nat, s: int)
    requires AllIn(streams, bufs) && Distinct(streams)
    requires OwnStreams(bufs)
    ensures BuffersOf(Row(bufs, streams, i), s) ==
            if s in streams && !bufs[s].delivered && i < |bufs[s].buffers| then [bufs[s].buffers[i]] else []
    decreases |streams|
  {
    if streams != [] {
      var init, last := streams[..|streams| - 1], streams[|streams| - 1];
      RowOf(bufs, init, i, s);
      var bb := bufs[last];
      var tail := if !bb.delivered && i < |bb.buffers| then [bb.buffers[i]] else [];
      BuffersOfConcat(Row(bufs, init, i), tail, s);
      assert tail != [] ==> tail[..0] == [];
      assert BuffersOf(tail, s) == if tail != [] && last == s then tail else [];
      assert s in streams <==> s in init || s == last;
    }
  }

  lemma {:induction false} LongestQueueBounds(bufs: map<int, BufferBatch>, streams: seq<int>, s: int)
    requires AllIn(streams, bufs) && s in streams && !bufs[s].delivered
    ensures |bufs[s].buffers| <= LongestQueue(bufs, streams)
    decreases |streams|
  {
    var init, last := streams[..|streams| - 1], streams[|streams| - 1];
    if s in init {
      LongestQueueBounds(bufs, init, s);
    } else {
      assert s == last;
    }
  }

  function Upto(q: seq<StreamBuffer>, n: nat): seq<StreamBuffer> {
    if n < |q| then q[..n] else q
  }

  lemma RelabelUpto(first: nat, q: seq<StreamBuffer>, m: nat)
    ensures Relabel(first, Upto(q, m + 1)) ==
            Relabel(first, Upto(q, m)) + if m < |q| then Labelled(first + m, [q[m]]) else []
  {
  }

  /** The items row m contributes for stream s. */
  function RowItems(first: nat, bufs: map<int, BufferBatch>, streams: seq<int>, m: nat, s: int): seq<Item> {
    if s in streams && s in bufs && !bufs[s].delivered && m < |bufs[s].buffers| then
      Labelled(first + m, [bufs[s].buffers[m]])
    else []
  }

  lemma BufferResultsStep(first: nat, bufs: map<int, BufferBatch>, streams: seq<int>, m: nat)
    requires AllIn(streams, bufs)
    ensures BufferResults(first, bufs, streams, m + 1) ==
            BufferResults(first, bufs, streams, m) + [BufferResult(first + m, Row(bufs, streams, m))]
  {
  }

  lemma RowItemsAre(first: nat, bufs: map<int, BufferBatch>, streams: seq<int>, m: nat, s: int)
    requires AllIn(streams, bufs) && Distinct(streams) && OwnStreams(bufs)
    ensures ResultItems(BufferResult(first + m, Row(bufs, streams, m)), BufferChannel(s)) ==
            RowItems(first, bufs, streams, m, s)
  {
    var row := Row(bufs, streams, m);
    RowOf(bufs, streams, m, s);
    assert ResultItems(BufferResult(first + m, row), BufferChannel(s)) == Labelled(first + m, BuffersOf(row, s));
  }

  lemma RowsStep(first: nat, bufs: map<int, BufferBatch>, streams: seq<int>, m: nat, s: int)
    requires AllIn(streams, bufs) && Distinct(streams) && OwnStreams(bufs)
    ensures ResultsItems(BufferResults(first, bufs, streams, m + 1), BufferChannel(s)) ==
            ResultsItems(BufferResults(first, bufs, streams, m), BufferChannel(s))
            + RowItems(first, bufs, streams, m, s)
  {
    var c := BufferChannel(s);
    var last := BufferResult(first + m, Row(bufs, streams, m));
    calc {
      ResultsItems(BufferResults(first, bufs, streams, m + 1), c);
      { BufferResultsStep(first, bufs, streams, m); }
      ResultsItems(BufferResults(first, bufs, streams, m) + [last], c);
      { ResultsItemsConcat(BufferResults(first, bufs, streams, m), [last], c); }
      ResultsItems(BufferResults(first, bufs, streams, m), c) + ResultsItems([last], c);
      { OneResult(last, false, c); }
      ResultsItems(BufferResults(first, bufs, streams, m), c) + ResultItems(last, c);
      { RowItemsAre(first, bufs, streams, m, s); }
      ResultsItems(BufferResults(first, bufs, streams, m), c) + RowItems(first, bufs, streams, m, s);
    }
  }

  /** The rows of a stream, with their rebuilt frame numbers, are its queue relabelled. */
  lemma {:induction false} RowsOf(first: nat, bufs: map<int, BufferBatch>, streams: seq<int>, n: nat, s: int)
    requires AllIn(streams, bufs) && Distinct(streams) && OwnStreams(bufs)
    ensures ResultsItems(BufferResults(first, bufs, streams, n), BufferChannel(s)) ==
            if s in streams && !bufs[s].delivered then Relabel(first, Upto(bufs[s].buffers, n)) else []
    decreases n
  {
    if n == 0 {
      assert BufferResults(first, bufs, streams, n) == [];
    } else {
      RowsOf(first, bufs, streams, n - 1, s);
      RowsStep(first, bufs, streams, n - 1, s);
      if s in streams && !bufs[s].delivered {
        RelabelUpto(first, bufs[s].buffers, n - 1);
      }
    }
  }

  lemma BufferResultsElsewhere(first: nat, bufs: map<int, BufferBatch>, streams: seq<int>, n: nat, c: Channel)
    requires AllIn(streams, bufs) && !c.BufferChannel?
    ensures ResultsItems(BufferResults(first, bufs, streams, n), c) == []
  {
    var rs := BufferResults(first, bufs, streams, n);
    FlatEmpty(seq(|rs|, i requires 0 <= i < |rs| => ResultItems(rs[i], c)));
  }

  lemma SendBuffersAccount(b: Batch, streams: seq<int>, c: Channel)
    requires Distinct(streams) && OwnStreams(b.bufs)
    requires forall s :: s in b.bufs && b.bufs[s].delivered ==> b.bufs[s].buffers == []
    ensures LogItems(SendBuffers(b, streams).calls, c) + QueuedItems(SendBuffers(b, streams).batch, c)
         == QueuedItems(b, c)
  {
    var o := SendBuffers(b, streams);
    if AllIn(streams, b.bufs) && LongestQueue(b.bufs, streams) != 0 {
      var n := LongestQueue(b.bufs, streams);
      OneCall(Results(BufferResults(b.firstFrame, b.bufs, streams, n), false), c);
      if c.BufferChannel? {
        var s := c.streamId;
        RowsOf(b.firstFrame, b.bufs, streams, n, s);
        if s in streams && !b.bufs[s].delivered {
          LongestQueueBounds(b.bufs, streams, s);
          assert Upto(b.bufs[s].buffers, n) == b.bufs[s].buffers;
        }
      } else {
        BufferResultsElsewhere(b.firstFrame, b.bufs, streams, n, c);
      }
    }
  }

  /** After SendBuffers the named streams have nothing queued and count as delivered. */
  lemma SendBuffersEmpties(b: Batch, streams: seq<int>, s: int)
    requires AllIn(streams, b.bufs) && s in streams
    requires b.bufs[s].delivered ==> b.bufs[s].buffers == []
    ensures SendBuffers(b, streams).batch.bufs[s] == BufferBatch(true, [])
  {
    if LongestQueue(b.bufs, streams) == 0 && !b.bufs[s].delivered {
      LongestQueueBounds(b.bufs, streams, s);
    }
  }

  // ---- metadata ----

  lemma {:induction false} PartialResultsOf(mds: seq<(nat, Bytes)>, partial: nat, c: Channel)
    requires forall i :: 0 <= i < |mds| ==> mds[i].1 != []
    ensures ResultsItems(PartialResults(mds, partial), c) ==
            if c.MetadataChannel? && c.partial == partial then MetadataOf(mds, c.frame) else []
    decreases |mds|
  {
    if mds == [] {
      assert PartialResults(mds, partial) == [];
    } else {
      var init, last := mds[..|mds| - 1], mds[|mds| - 1];
      var r := MetadataResult(last.0, partial, last.1);
      assert PartialResults(mds, partial) == PartialResults(init, partial) + [r];
      PartialResultsOf(init, partial, c);
      ResultsItemsConcat(PartialResults(init, partial), [r], c);
      OneResult(r, true, c);
    }
  }

  lemma {:induction false} MetadataBelowOf(mds: map<nat, seq<(nat, Bytes)>>, bound: nat, c: Channel)
    requires forall p, i :: p in mds && 0 <= i < |mds[p]| ==> mds[p][i].1 != []
    ensures ResultsItems(MetadataBelow(mds, bound), c) ==
            if c.MetadataChannel? && c.partial < bound && c.partial in mds then MetadataOf(mds[c.partial], c.frame)
            else []
    decreases bound
  {
    if bound > 0 {
      var p := bound - 1;
      MetadataBelowOf(mds, p, c);
      if p in mds {
        var below, last := MetadataBelow(mds, p), PartialResults(mds[p], p);
        assert ResultsItems(below + last, c) == ResultsItems(below, c) + ResultsItems(last, c) by {
          ResultsItemsConcat(below, last, c);
        }
        PartialResultsOf(mds[p], p, c);
      } else {
        assert MetadataBelow(mds, bound) == MetadataBelow(mds, p);
      }
    }
  }

  lemma SendMetadataAccount(b: Batch, lastPartial: nat, c: Channel)
    requires forall p, i :: p in b.mds && 0 <= i < |b.mds[p]| ==> b.mds[p][i].1 != []
    ensures LogItems(SendMetadata(b, lastPartial).calls, c) + QueuedItems(SendMetadata(b, lastPartial).batch, c)
         == QueuedItems(b, c)
  {
    if lastPartial > b.progress {
      var rs := MetadataBelow(b.mds, lastPartial + 1);
      assert LogItems([Results(rs, true)], c) == ResultsItems(rs, c) by {
        OneCall(Results(rs, true), c);
      }
      MetadataBelowOf(b.mds, lastPartial + 1, c);
      KeptAbove(b, lastPartial, SendMetadata(b, lastPartial).batch, c);
    }
  }

  /** With the metadata up to an index taken out, what stays queued is what was queued, less that. */
  lemma KeptAbove(b: Batch, last: nat, b': Batch, c: Channel)
    requires b' == b.(progress := last, mds := map p | p in b.mds && p > last :: b.mds[p])
    ensures QueuedItems(b', c) == if c.MetadataChannel? && c.partial <= last then [] else QueuedItems(b, c)
  {
  }

  // ---- a whole result ----

  /**
   What the HAL owes a batch it returns a result to: each batched stream returns
   one buffer per frame in frame order, and metadata does not come with a
   partial index that the last frame already completed.
   */
  ghost predicate ResultFits(b: Batch, r: CaptureResult, numPartial: nat) {
    && b.Contains(r.frameNumber)
    && (forall s :: s in b.bufs ==> StreamFits(b, r, s))
    && (r.metadata != [] ==> b.progress < r.partialResult <= numPartial)
  }

  ghost predicate StreamFits(b: Batch, r: CaptureResult, s: int)
    requires s in b.bufs
  {
    && |BuffersOf(r.outputBuffers, s)| <= 1
    && (|BuffersOf(r.outputBuffers, s)| == 1 ==>
          !b.bufs[s].delivered && r.frameNumber == b.firstFrame + |b.bufs[s].buffers|)
  }

  lemma {:induction false} BuffersOfOwn(outs: seq<StreamBuffer>, s: int)
    ensures forall i :: 0 <= i < |BuffersOf(outs, s)| ==> BuffersOf(outs, s)[i].streamId == s
    decreases |outs|
  {
    if outs != [] {
      BuffersOfOwn(outs[..|outs| - 1], s);
    }
  }

  lemma {:induction false} NonBatchedOf(bufs: map<int, BufferBatch>, outs: seq<StreamBuffer>, s: int)
    ensures BuffersOf(NonBatched(bufs, outs), s) == if s in bufs then [] else BuffersOf(outs, s)
    decreases |outs|
  {
    if outs != [] {
      var init, last := outs[..|outs| - 1], outs[|outs| - 1];
      NonBatchedOf(bufs, init, s);
      var tail := if last.streamId in bufs then [] else [last];
      BuffersOfConcat(NonBatched(bufs, init), tail, s);
      assert tail != [] ==> tail[..0] == [];
      assert BuffersOf(tail, s) == if last.streamId !in bufs && last.streamId == s then [last] else [];
    }
  }

  /** The filled streams are the batched ones with a buffer in the result, each listed once per buffer. */
  lemma {:induction false} FilledStreamsOf(bufs: map<int, BufferBatch>, outs: seq<StreamBuffer>)
    ensures AllIn(FilledStreams(bufs, outs), bufs)
    ensures forall s :: s in FilledStreams(bufs, outs) <==> s in bufs && BuffersOf(outs, s) != []
    decreases |outs|
  {
    if outs != [] {
      var init, last := outs[..|outs| - 1], outs[|outs| - 1];
      FilledStreamsOf(bufs, init);
      var f := FilledStreams(bufs, outs);
      forall s
        ensures s in f <==> s in bufs && BuffersOf(outs, s) != []
      {
        assert BuffersOf(outs, s) == BuffersOf(init, s) + if last.streamId == s then [last] else [];
        assert s in f <==> s in FilledStreams(bufs, init) || (last.streamId in bufs && s == last.streamId);
      }
    }
  }

  /** With at most one buffer a stream, no filled stream is listed twice. */
  lemma {:induction false} FilledOnce(bufs: map<int, BufferBatch>, outs: seq<StreamBuffer>)
    requires forall s :: s in bufs ==> |BuffersOf(outs, s)| <= 1
    ensures Distinct(FilledStreams(bufs, outs))
    decreases |outs|
  {
    if outs != [] {
      var init, last := outs[..|outs| - 1], outs[|outs| - 1];
      forall s | s in bufs
        ensures |BuffersOf(init, s)| <= 1
      {
        assert |BuffersOf(outs, s)| <= 1;
      }
      FilledOnce(bufs, init);
      if last.streamId in bufs {
        FilledStreamsOf(bufs, init);
        assert |BuffersOf(outs, last.streamId)| <= 1;
        assert last.streamId !in FilledStreams(bufs, init);
      }
    }
  }

  lemma NonBatchedCallsAccount(b: Batch, r: CaptureResult, c: Channel)
    ensures LogItems(NonBatchedCalls(b, r), c) ==
            match c
            case BufferChannel(s) => if s in b.bufs then [] else ResultItems(r, c)
            case InputChannel(_) => ResultItems(r, c)
            case _ => []
  {
    var rest := NonBatched(b.bufs, r.outputBuffers);
    var sent := CaptureResult(r.frameNumber, 0, 0, [], [], r.inputBuffer, rest);
    if c.BufferChannel? {
      NonBatchedOf(b.bufs, r.outputBuffers, c.streamId);
    }
    OneResult(sent, true, c);
  }

  lemma MetadataAppend(mds: seq<(nat, Bytes)>, frame: nat, metadata: Bytes, f: nat)
    ensures MetadataOf(mds + [(frame, metadata)], f) ==
            MetadataOf(mds, f) + if frame == f then [MetadataItem(metadata)] else []
  {
    assert (mds + [(frame, metadata)])[..|mds|] == mds;
  }

  lemma QueueMetadataAccount(b: Batch, r: CaptureResult, f: nat, p: nat)
    ensures QueuedItems(QueueMetadata(b, r), MetadataChannel(f, p)) ==
            QueuedItems(b, MetadataChannel(f, p)) + ResultItems(r, MetadataChannel(f, p))
  {
    if r.metadata != [] && p == r.partialResult {
      MetadataAppend(if p in b.mds then b.mds[p] else [], r.frameNumber, r.metadata, f);
    }
  }

  lemma RelabelAppend(first: nat, q: seq<StreamBuffer>, frame: nat, more: seq<StreamBuffer>)
    requires |more| <= 1 && (|more| == 1 ==> frame == first + |q|)
    ensures Relabel(first, q + more) == Relabel(first, q) + Labelled(frame, more)
  {
  }

  /** Queueing alone: the batched part of the result joins the end of its queues. */
  lemma QueueAccount(b: Batch, r: CaptureResult, c: Channel)
    requires forall s :: s in b.bufs ==> StreamFits(b, r, s)
    ensures QueuedItems(Queued(b, r), c) == QueuedItems(b, c) +
            match c
            case BufferChannel(s) => if s in b.bufs then ResultItems(r, c) else []
            case MetadataChannel(_, _) => ResultItems(r, c)
            case _ => []
  {
    match c
    case BufferChannel(s) =>
      if s in b.bufs {
        assert StreamFits(b, r, s);
        RelabelAppend(b.firstFrame, b.bufs[s].buffers, r.frameNumber, BuffersOf(r.outputBuffers, s));
      }
    case MetadataChannel(f, p) => QueueMetadataAccount(b, r, f, p);
    case _ =>
  }

  /** Facts about a batch that sending does not disturb. */
  ghost predicate Sound(b: Batch, streams: seq<int>, numPartial: nat) {
    && b.firstFrame <= b.lastFrame
    && b.batchSize == b.lastFrame - b.firstFrame + 1
    && b.numPartialResults == numPartial
    && (forall s :: s in b.bufs <==> s in streams)
    && OwnStreams(b.bufs)
    && (forall s :: s in b.bufs && b.bufs[s].delivered ==> b.bufs[s].buffers == [])
    && (b.shutterDelivered ==> b.shutterMsgs == [])
    && (forall i :: 0 <= i < |b.shutterMsgs| ==>
          b.shutterMsgs[i].Shutter? && b.Contains(b.shutterMsgs[i].frameNumber))
    && (forall p :: p in b.mds ==> b.progress < p <= numPartial)
    && (forall p, i :: p in b.mds && 0 <= i < |b.mds[p]| ==>
          b.Contains(b.mds[p][i].0) && b.mds[p][i].1 != [])
  }

  lemma InvIsSound(b: Batch, streams: seq<int>, numPartial: nat)
    ensures BatchInv(b, streams, numPartial) <==>
            Sound(b, streams, numPartial)
            && forall s :: s in b.bufs && !b.bufs[s].delivered ==> |b.bufs[s].buffers| < b.batchSize
  {
    if BatchInv(b, streams, numPartial) {
      assert forall s :: s in b.bufs ==> QueueInv(b.bufs[s], s, b.batchSize);
    }
  }

  lemma SendShuttersSound(b: Batch, streams: seq<int>, n: nat)
    requires Sound(b, streams, n)
    ensures Sound(SendShutters(b).batch, streams, n)
  {
  }

  /** Exchanging the queues alone. */
  lemma BuffersSound(b: Batch, q: map<int, BufferBatch>, streams: seq<int>, n: nat)
    requires Sound(b, streams, n) && q.Keys == b.bufs.Keys && OwnStreams(q)
    requires forall s :: s in q && q[s].delivered ==> q[s].buffers == []
    ensures Sound(b.(bufs := q), streams, n)
  {
  }

  lemma SendBuffersSound(b: Batch, sent: seq<int>, streams: seq<int>, n: nat)
    requires Sound(b, streams, n)
    ensures Sound(SendBuffers(b, sent).batch, streams, n)
  {
    var q := SendBuffers(b, sent).batch.bufs;
    forall s | s in q
      ensures q[s] == b.bufs[s] || q[s] == BufferBatch(true, [])
    {
      if AllIn(sent, b.bufs) && s in sent {
        SendBuffersEmpties(b, sent, s);
      }
    }
    BuffersSound(b, q, streams, n);
    assert SendBuffers(b, sent).batch == b.(bufs := q);
  }

  lemma SendMetadataSound(b: Batch, p: nat, streams: seq<int>, n: nat)
    requires Sound(b, streams, n)
    ensures Sound(SendMetadata(b, p).batch, streams, n)
  {
  }

  lemma QueueMetadataSound(b: Batch, r: CaptureResult, streams: seq<int>, n: nat)
    requires Sound(b, streams, n) && ResultFits(b, r, n)
    ensures Sound(QueueMetadata(b, r), streams, n)
  {
  }

  lemma QueueBuffersOwn(bufs: map<int, BufferBatch>, outs: seq<StreamBuffer>)
    requires OwnStreams(bufs)
    ensures OwnStreams(QueueBuffers(bufs, outs))
  {
    var q := QueueBuffers(bufs, outs);
    forall s, k | s in q && 0 <= k < |q[s].buffers|
      ensures q[s].buffers[k].streamId == s
    {
      BuffersOfOwn(outs, s);
    }
  }

  lemma QueuedSound(b: Batch, r: CaptureResult, streams: seq<int>, n: nat)
    requires Sound(b, streams, n) && ResultFits(b, r, n)
    ensures Sound(Queued(b, r), streams, n)
  {
    QueueMetadataSound(b, r, streams, n);
    QueueBuffersOwn(b.bufs, r.outputBuffers);
    forall s | s in b.bufs && b.bufs[s].delivered
      ensures QueueBuffers(b.bufs, r.outputBuffers)[s].buffers == []
    {
      assert StreamFits(b, r, s);
    }
    BuffersSound(QueueMetadata(b, r), QueueBuffers(b.bufs, r.outputBuffers), streams, n);
  }

  /** A stream with a buffer in the result of the last frame ends up delivered. */
  lemma SendLastFrameSound(b: Batch, partial: nat, filled: seq<int>, streams: seq<int>, n: nat)
    requires Sound(b, streams, n) && AllIn(filled, b.bufs)
    ensures Sound(SendLastFrame(b, partial, filled).batch, streams, n)
    ensures forall s :: s in b.bufs ==>
              SendLastFrame(b, partial, filled).batch.bufs[s] ==
              if s in filled then BufferBatch(true, []) else b.bufs[s]
  {
    SendMetadataSound(b, partial, streams, n);
    var b3 := SendMetadataIf(b, partial).batch;
    assert b3.bufs == b.bufs;
    if filled != [] {
      SendBuffersSound(b3, filled, streams, n);
      forall s | s in b.bufs && s in filled
        ensures SendBuffers(b3, filled).batch.bufs[s] == BufferBatch(true, [])
      {
        SendBuffersEmpties(b3, filled, s);
      }
    }
  }

  /** Queues are short of a full batch after queueing, except those the last frame fills. */
  lemma QueuedLength(b: Batch, r: CaptureResult, streams: seq<int>, n: nat, s: int)
    requires BatchInv(b, streams, n) && ResultFits(b, r, n) && s in b.bufs && !b.bufs[s].delivered
    requires r.frameNumber != b.lastFrame || BuffersOf(r.outputBuffers, s) == []
    ensures |Queued(b, r).bufs[s].buffers| < b.batchSize
  {
    assert StreamFits(b, r, s);
    assert QueueInv(b.bufs[s], s, b.batchSize);
  }

  lemma ShortIsInv(b: Batch, streams: seq<int>, n: nat)
    requires Sound(b, streams, n)
    requires forall s :: s in b.bufs && !b.bufs[s].delivered ==> |b.bufs[s].buffers| < b.batchSize
    ensures BatchInv(b, streams, n)
  {
    InvIsSound(b, streams, n);
  }

  lemma SendLastFrameSame(b: Batch, partial: nat, filled: seq<int>)
    ensures SendLastFrame(b, partial, filled).batch.batchSize == b.batchSize
    ensures SendLastFrame(b, partial, filled).batch.bufs.Keys == b.bufs.Keys
  {
  }

  lemma LastFrameInv(b: Batch, r: CaptureResult, filled: seq<int>, streams: seq<int>, n: nat)
    requires BatchInv(b, streams, n) && ResultFits(b, r, n) && r.frameNumber == b.lastFrame
    requires Sound(Queued(b, r), streams, n) && AllIn(filled, b.bufs)
    requires forall s :: s in filled <==> s in b.bufs && BuffersOf(r.outputBuffers, s) != []
    ensures BatchInv(SendLastFrame(Queued(b, r), r.partialResult, filled).batch, streams, n)
  {
    SendLastFrameSound(Queued(b, r), r.partialResult, filled, streams, n);
    SendLastFrameSame(Queued(b, r), r.partialResult, filled);
    LastFrameInvOf(b, r, filled, streams, n, SendLastFrame(Queued(b, r), r.partialResult, filled).batch);
  }

  lemma LastFrameInvOf(b: Batch, r: CaptureResult, filled: seq<int>, streams: seq<int>, n: nat, b': Batch)
    requires BatchInv(b, streams, n) && ResultFits(b, r, n) && r.frameNumber == b.lastFrame
    requires forall s :: s in filled <==> s in b.bufs && BuffersOf(r.outputBuffers, s) != []
    requires Sound(b', streams, n) && b'.batchSize == b.batchSize && b'.bufs.Keys == b.bufs.Keys
    requires forall s :: s in b.bufs ==>
               b'.bufs[s] == if s in filled then BufferBatch(true, []) else Queued(b, r).bufs[s]
    ensures BatchInv(b', streams, n)
  {
    LastFrameShort(b, r, filled, streams, n, b'.bufs);
    ShortIsInv(b', streams, n);
  }

  /** With the filled streams sent, every queue is shorter than the batch again. */
  lemma LastFrameShort(b: Batch, r: CaptureResult, filled: seq<int>, streams: seq<int>, n: nat,
                       bufs: map<int, BufferBatch>)
    requires BatchInv(b, streams, n) && ResultFits(b, r, n) && r.frameNumber == b.lastFrame
    requires forall s :: s in filled <==> s in b.bufs && BuffersOf(r.outputBuffers, s) != []
    requires bufs.Keys == b.bufs.Keys
    requires forall s :: s in bufs ==> bufs[s] == if s in filled then BufferBatch(true, []) else Queued(b, r).bufs[s]
    ensures forall s :: s in bufs && !bufs[s].delivered ==> |bufs[s].buffers| < b.batchSize
  {
    forall s | s in bufs && !bufs[s].delivered
      ensures |bufs[s].buffers| < b.batchSize
    {
      QueuedLength(b, r, streams, n, s);
    }
  }

  lemma QueueResultSound(b: Batch, r: CaptureResult, streams: seq<int>, n: nat)
    requires BatchInv(b, streams, n) && ResultFits(b, r, n)
    ensures BatchInv(QueueResult(b, r).batch, streams, n)
  {
    LastFrameReady(b, r, streams, n);
    if r.frameNumber == b.lastFrame {
      FilledStreamsOf(b.bufs, r.outputBuffers);
      LastFrameInv(b, r, FilledStreams(b.bufs, r.outputBuffers), streams, n);
    } else {
      var q := Queued(b, r);
      forall s | s in q.bufs && !q.bufs[s].delivered
        ensures |q.bufs[s].buffers| < q.batchSize
      {
        QueuedLength(b, r, streams, n, s);
      }
      ShortIsInv(q, streams, n);
    }
  }

  // ---- composing the accounts ----

  /** The outcome sends and keeps exactly `items`. */
  ghost predicate Accounts(o: Outcome, items: seq<Item>, c: Channel) {
    LogItems(o.calls, c) + QueuedItems(o.batch, c) == items
  }

  lemma ThenAccounts(o: Outcome, next: Outcome, items: seq<Item>, c: Channel)
    requires Accounts(o, items, c) && Accounts(next, QueuedItems(o.batch, c), c)
    ensures Accounts(Then(o, next), items, c)
  {
    assert LogItems(o.calls + next.calls, c) == LogItems(o.calls, c) + LogItems(next.calls, c) by {
      LogItemsConcat(o.calls, next.calls, c);
    }
    Regroup(LogItems(o.calls, c), LogItems(next.calls, c), QueuedItems(next.batch, c));
  }

  lemma NothingSent(b: Batch, c: Channel)
    ensures Accounts(Outcome(b, []), QueuedItems(b, c), c)
  {
  }

  lemma SendLastFrameAccount(b: Batch, partial: nat, filled: seq<int>, streams: seq<int>, n: nat, c: Channel)
    requires Sound(b, streams, n) && Distinct(filled)
    ensures Accounts(SendLastFrame(b, partial, filled), QueuedItems(b, c), c)
  {
    NothingSent(b, c);
    SendMetadataAccount(b, partial, c);
    SendMetadataSound(b, partial, streams, n);
    var o := SendMetadataIf(b, partial);
    NothingSent(o.batch, c);
    SendBuffersAccount(o.batch, filled, c);
    ThenAccounts(o, SendBuffersIf(o.batch, filled), QueuedItems(b, c), c);
  }

  lemma QueueingAccount(b: Batch, r: CaptureResult, c: Channel)
    requires forall s :: s in b.bufs ==> StreamFits(b, r, s)
    ensures Accounts(Outcome(Queued(b, r), NonBatchedCalls(b, r)), QueuedItems(b, c) + ResultItems(r, c), c)
  {
    NonBatchedCallsAccount(b, r, c);
    QueueAccount(b, r, c);
  }

  /** A result handed to a batch: sent followed by queued is what was queued followed by the result. */
  lemma QueueResultAccount(b: Batch, r: CaptureResult, streams: seq<int>, n: nat, c: Channel)
    requires BatchInv(b, streams, n) && ResultFits(b, r, n)
    ensures LogItems(QueueResult(b, r).calls, c) + QueuedItems(QueueResult(b, r).batch, c)
         == QueuedItems(b, c) + ResultItems(r, c)
  {
    QueueingAccount(b, r, c);
    if r.frameNumber == b.lastFrame {
      var o := Outcome(Queued(b, r), NonBatchedCalls(b, r));
      var filled := FilledStreams(b.bufs, r.outputBuffers);
      LastFrameReady(b, r, streams, n);
      SendLastFrameAccount(o.batch, r.partialResult, filled, streams, n, c);
      ThenAccounts(o, SendLastFrame(o.batch, r.partialResult, filled), QueuedItems(b, c) + ResultItems(r, c), c);
    }
  }

  lemma LastFrameReady(b: Batch, r: CaptureResult, streams: seq<int>, n: nat)
    requires BatchInv(b, streams, n) && ResultFits(b, r, n)
    ensures Sound(Queued(b, r), streams, n)
    ensures Distinct(FilledStreams(b.bufs, r.outputBuffers))
  {
    InvIsSound(b, streams, n);
    QueuedSound(b, r, streams, n);
    forall s | s in b.bufs
      ensures |BuffersOf(r.outputBuffers, s)| <= 1
    {
      assert StreamFits(b, r, s);
    }
    FilledOnce(b.bufs, r.outputBuffers);
  }

  // ---- a shutter ----

  lemma QueueShutterSound(b: Batch, m: NotifyMsg, streams: seq<int>, n: nat)
    requires BatchInv(b, streams, n) && m.Shutter? && b.Contains(m.frameNumber) && !b.shutterDelivered
    ensures BatchInv(QueueShutter(b, m).batch, streams, n)
  {
  }

  lemma QueueShutterAccount(b: Batch, m: NotifyMsg, c: Channel)
    ensures LogItems(QueueShutter(b, m).calls, c) + QueuedItems(QueueShutter(b, m).batch, c)
         == QueuedItems(b, c) + MsgItems(m, c)
  {
    var b1 := b.(shutterMsgs := b.shutterMsgs + [m]);
    MsgsItemsConcat(b.shutterMsgs, [m], c);
    OneMsg(m, c);
    SendShuttersAccount(b1, c);
  }

  // ---- leaving the deque ----

  /** A batch whose data is all delivered holds nothing back, on any channel. */
  lemma AllDeliveredIsEmpty(b: Batch, streams: seq<int>, n: nat, c: Channel)
    requires Sound(b, streams, n) && AllDelivered(b)
    ensures QueuedItems(b, c) == []
  {
  }

  lemma BatchedStreamsIn(b: Batch, streams: seq<int>, n: nat)
    requires Sound(b, streams, n)
    ensures AllIn(streams, b.bufs)
  {
    forall i | 0 <= i < |streams|
      ensures streams[i] in b.bufs
    {
      var s := streams[i];
      assert s in streams;
    }
  }

  lemma SendAllSound(b: Batch, streams: seq<int>, n: nat)
    requires Sound(b, streams, n)
    ensures Sound(SendAll(b, streams, n).batch, streams, n) && AllDelivered(SendAll(b, streams, n).batch)
  {
    var b1 := SendShutters(b).batch;
    SendShuttersSound(b, streams, n);
    BatchedStreamsIn(b, streams, n);
    var b2 := SendBuffers(b1, streams).batch;
    SendBuffersSound(b1, streams, streams, n);
    SendMetadataSound(b2, n, streams, n);
    forall s | s in b.bufs
      ensures b2.bufs[s] == BufferBatch(true, [])
    {
      SendBuffersEmpties(b1, streams, s);
    }
  }

  lemma SendAllAccount(b: Batch, streams: seq<int>, n: nat, c: Channel)
    requires Sound(b, streams, n) && Distinct(streams)
    ensures Accounts(SendAll(b, streams, n), QueuedItems(b, c), c)
  {
    var o1 := SendShutters(b);
    SendShuttersAccount(b, c);
    SendShuttersSound(b, streams, n);
    SendBuffersAccount(o1.batch, streams, c);
    SendBuffersSound(o1.batch, streams, streams, n);
    var o2 := Then(o1, SendBuffers(o1.batch, streams));
    ThenAccounts(o1, SendBuffers(o1.batch, streams), QueuedItems(b, c), c);
    SendMetadataAccount(o2.batch, n, c);
    ThenAccounts(o2, SendMetadata(o2.batch, n), QueuedItems(b, c), c);
  }

  /** An error flush sends everything a batch holds back and leaves it empty. */
  lemma FlushAccount(b: Batch, streams: seq<int>, n: nat, c: Channel)
    requires BatchInv(b, streams, n) && Distinct(streams)
    ensures LogItems(Flush(b, streams, n).calls, c) == QueuedItems(b, c)
    ensures QueuedItems(Flush(b, streams, n).batch, c) == []
  {
    InvIsSound(b, streams, n);
    SendAllSound(b, streams, n);
    SendAllAccount(b, streams, n, c);
    var b' := SendAll(b, streams, n).batch;
    AllDeliveredIsEmpty(b', streams, n, c);
    assert QueuedItems(b'.(removed := true), c) == QueuedItems(b', c);
  }
}
