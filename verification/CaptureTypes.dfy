/**
 The values that cross the boundary between the camera HAL wrapper and the
 framework: capture results, notifications, and the calls made on the
 framework's callback object.
 */
module CaptureTypes {
  import opened Collections

  datatype Option<+T> = None | Some(value: T)

  newtype int8 = x: int | -0x80 <= x < 0x80

  type Bytes = seq<int8>

  const UINT32_LIMIT: int := 0x1_0000_0000

  /** One stream buffer. `handle` stands for its buffer id, status and release fence. */
  datatype StreamBuffer = StreamBuffer(streamId: int, handle: int)

  datatype PhysicalMetadata = PhysicalMetadata(fmqMetadataSize: nat, cameraId: string, metadata: Bytes)

  datatype CaptureResult = CaptureResult(
    frameNumber: nat,
    partialResult: nat,
    fmqResultSize: nat,
    metadata: Bytes,
    physical: seq<PhysicalMetadata>,
    inputBuffer: Option<StreamBuffer>,
    outputBuffers: seq<StreamBuffer>)

  datatype NotifyMsg =
    | Shutter(frameNumber: nat, timestamp: int)
    | Error(frameNumber: nat, streamId: int, code: int)

  /** A call on ICameraDeviceCallback, as handed to the transport. */
  datatype CallbackCall =
    | Notified(msgs: seq<NotifyMsg>)
    | Results(results: seq<CaptureResult>, tryWriteFmq: bool)

  /** What the HAL sends up, apart from errors. */
  datatype Event =
    | ShutterEvent(msg: NotifyMsg)
    | ResultEvent(result: CaptureResult)
  {
    function Frame(): nat {
      match this
      case ShutterEvent(m) => m.frameNumber
      case ResultEvent(r) => r.frameNumber
    }
  }

  /**
   The independent lines along which nothing may be lost or reordered: the
   buffers of a stream, one partial metadata of a frame, the shutters of a
   frame, the input buffers of a frame.
   */
  datatype Channel =
    | BufferChannel(streamId: int)
    | MetadataChannel(frame: nat, partial: nat)
    | ShutterChannel(frame: nat)
    | InputChannel(frame: nat)

  datatype Item =
    | BufferItem(frame: nat, buffer: StreamBuffer)
    | MetadataItem(bytes: Bytes)
    | ShutterItem(msg: NotifyMsg)
    | InputItem(buffer: StreamBuffer)

  // ---- what a message contributes to a channel ----

  function BuffersOf(bufs: seq<StreamBuffer>, streamId: int): seq<StreamBuffer> {
    if bufs == [] then []
    else
      BuffersOf(bufs[..|bufs| - 1], streamId)
      + (if bufs[|bufs| - 1].streamId == streamId then [bufs[|bufs| - 1]] else [])
  }

  function Labelled(frame: nat, bufs: seq<StreamBuffer>): seq<Item> {
    seq(|bufs|, i requires 0 <= i < |bufs| => BufferItem(frame, bufs[i]))
  }

  function ResultItems(r: CaptureResult, c: Channel): seq<Item> {
    match c
    case BufferChannel(s) => Labelled(r.frameNumber, BuffersOf(r.outputBuffers, s))
    case MetadataChannel(f, p) =>
      if r.frameNumber == f && r.partialResult == p && r.metadata != [] then [MetadataItem(r.metadata)] else []
    case ShutterChannel(_) => []
    case InputChannel(f) =>
      if r.frameNumber == f && r.inputBuffer.Some? then [InputItem(r.inputBuffer.value)] else []
  }

  function MsgItems(m: NotifyMsg, c: Channel): seq<Item> {
    if c.ShutterChannel? && m.Shutter? && m.frameNumber == c.frame then [ShutterItem(m)] else []
  }

  function EventItems(e: Event, c: Channel): seq<Item> {
    match e
    case ShutterEvent(m) => MsgItems(m, c)
    case ResultEvent(r) => ResultItems(r, c)
  }

  /** Concatenation of a list of lists. */
  function Flat(xs: seq<seq<Item>>): seq<Item> {
    if xs == [] then [] else Flat(xs[..|xs| - 1]) + xs[|xs| - 1]
  }

  function ResultsItems(rs: seq<CaptureResult>, c: Channel): seq<Item> {
    Flat(seq(|rs|, i requires 0 <= i < |rs| => ResultItems(rs[i], c)))
  }

  function MsgsItems(ms: seq<NotifyMsg>, c: Channel): seq<Item> {
    Flat(seq(|ms|, i requires 0 <= i < |ms| => MsgItems(ms[i], c)))
  }

  function CallItems(call: CallbackCall, c: Channel): seq<Item> {
    match call
    case Notified(ms) => MsgsItems(ms, c)
    case Results(rs, _) => ResultsItems(rs, c)
  }

  /** Everything a log of callback calls delivered on a channel, in order. */
  function LogItems(log: seq<CallbackCall>, c: Channel): seq<Item> {
    Flat(seq(|log|, i requires 0 <= i < |log| => CallItems(log[i], c)))
  }

  /** Everything the HAL sent up on a channel, in order. */
  function EventsItems(es: seq<Event>, c: Channel): seq<Item> {
    Flat(seq(|es|, i requires 0 <= i < |es| => EventItems(es[i], c)))
  }

  // ---- concatenation ----

  lemma FlatAppend(xs: seq<seq<Item>>, x: seq<Item>)
    ensures Flat(xs + [x]) == Flat(xs) + x
  {
    assert (xs + [x])[..|xs|] == xs;
  }

  lemma {:induction false} FlatConcat(a: seq<seq<Item>>, b: seq<seq<Item>>)
    ensures Flat(a + b) == Flat(a) + Flat(b)
    decreases |b|
  {
    if b == [] {
      assert a + b == a;
    } else {
      var init, last := b[..|b| - 1], b[|b| - 1];
      assert Flat(a + b) == Flat(a + init) + last by {
        FlatAppend(a + init, last);
        assert a + b == (a + init) + [last];
      }
      assert Flat(b) == Flat(init) + last;
      FlatConcat(a, init);
      Regroup(Flat(a), Flat(init), last);
    }
  }

  /** A list of lists all of which are empty flattens to nothing. */
  lemma {:induction false} FlatEmpty(xs: seq<seq<Item>>)
    requires forall i :: 0 <= i < |xs| ==> xs[i] == []
    ensures Flat(xs) == []
  {
    if xs != [] {
      FlatEmpty(xs[..|xs| - 1]);
    }
  }

  lemma LogItemsConcat(a: seq<CallbackCall>, b: seq<CallbackCall>, c: Channel)
    ensures LogItems(a + b, c) == LogItems(a, c) + LogItems(b, c)
  {
    var xs := seq(|a|, i requires 0 <= i < |a| => CallItems(a[i], c));
    var ys := seq(|b|, i requires 0 <= i < |b| => CallItems(b[i], c));
    assert seq(|a + b|, i requires 0 <= i < |a + b| => CallItems((a + b)[i], c)) == xs + ys;
    FlatConcat(xs, ys);
  }

  lemma MsgsItemsConcat(a: seq<NotifyMsg>, b: seq<NotifyMsg>, c: Channel)
    ensures MsgsItems(a + b, c) == MsgsItems(a, c) + MsgsItems(b, c)
  {
    var xs := seq(|a|, i requires 0 <= i < |a| => MsgItems(a[i], c));
    var ys := seq(|b|, i requires 0 <= i < |b| => MsgItems(b[i], c));
    assert seq(|a + b|, i requires 0 <= i < |a + b| => MsgItems((a + b)[i], c)) == xs + ys;
    FlatConcat(xs, ys);
  }

  lemma ResultsItemsConcat(a: seq<CaptureResult>, b: seq<CaptureResult>, c: Channel)
    ensures ResultsItems(a + b, c) == ResultsItems(a, c) + ResultsItems(b, c)
  {
    var xs := seq(|a|, i requires 0 <= i < |a| => ResultItems(a[i], c));
    var ys := seq(|b|, i requires 0 <= i < |b| => ResultItems(b[i], c));
    assert seq(|a + b|, i requires 0 <= i < |a + b| => ResultItems((a + b)[i], c)) == xs + ys;
    FlatConcat(xs, ys);
  }

  lemma EventsItemsAppend(es: seq<Event>, e: Event, c: Channel)
    ensures EventsItems(es + [e], c) == EventsItems(es, c) + EventItems(e, c)
  {
    var xs := seq(|es|, i requires 0 <= i < |es| => EventItems(es[i], c));
    FlatAppend(xs, EventItems(e, c));
    assert seq(|es + [e]|, i requires 0 <= i < |es + [e]| => EventItems((es + [e])[i], c)) == xs + [EventItems(e, c)];
  }

  lemma OneCall(call: CallbackCall, c: Channel)
    ensures LogItems([call], c) == CallItems(call, c)
  {
    FlatAppend([], CallItems(call, c));
    assert seq(|[call]|, i requires 0 <= i < |[call]| => CallItems([call][i], c)) == [] + [CallItems(call, c)];
  }

  lemma OneMsg(m: NotifyMsg, c: Channel)
    ensures MsgsItems([m], c) == MsgItems(m, c)
  {
    FlatAppend([], MsgItems(m, c));
    assert seq(|[m]|, i requires 0 <= i < |[m]| => MsgItems([m][i], c)) == [] + [MsgItems(m, c)];
  }

  lemma OneResult(r: CaptureResult, fmq: bool, c: Channel)
    ensures ResultsItems([r], c) == ResultItems(r, c)
    ensures LogItems([Results([r], fmq)], c) == ResultItems(r, c)
  {
    FlatAppend([], ResultItems(r, c));
    assert seq(|[r]|, i requires 0 <= i < |[r]| => ResultItems([r][i], c)) == [] + [ResultItems(r, c)];
    OneCall(Results([r], fmq), c);
  }

  lemma {:induction false} BuffersOfConcat(a: seq<StreamBuffer>, b: seq<StreamBuffer>, s: int)
    ensures BuffersOf(a + b, s) == BuffersOf(a, s) + BuffersOf(b, s)
    decreases |b|
  {
    if b == [] {
      assert a + b == a;
    } else {
      var init, last := b[..|b| - 1], b[|b| - 1];
      BuffersOfConcat(a, init, s);
      assert (a + b)[..|a + b| - 1] == a + init;
    }
  }
}
