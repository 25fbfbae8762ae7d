/**
 How metadata crosses to the framework: through the result metadata queue when a
 write is accepted, inline otherwise, with the sizes telling the reader which.
 */
module MetadataQueue {
  import opened Collections
  import opened CaptureTypes

  /** The queue as its writer sees it: all bytes written so far, and the number of write attempts. */
  datatype Writer = Writer(written: Bytes, tries: nat)

  // ---- the writer ----

  function FramePhysical(p: PhysicalMetadata, w: Writer, accept: nat -> bool): (PhysicalMetadata, Writer) {
    if accept(w.tries) then
      (p.(fmqMetadataSize := |p.metadata|, metadata := []), Writer(w.written + p.metadata, w.tries + 1))
    else (p.(fmqMetadataSize := 0), Writer(w.written, w.tries + 1))
  }

  function FramePhysicals(ps: seq<PhysicalMetadata>, w: Writer, accept: nat -> bool): (seq<PhysicalMetadata>, Writer) {
    if ps == [] then ([], w)
    else
      var (init, w1) := FramePhysicals(ps[..|ps| - 1], w, accept);
      var (last, w2) := FramePhysical(ps[|ps| - 1], w1, accept);
      (init + [last], w2)
  }

  function FrameMetadata(r: CaptureResult, w: Writer, accept: nat -> bool): (CaptureResult, Writer) {
    if r.metadata == [] then (r, w)
    else if accept(w.tries) then
      (r.(fmqResultSize := |r.metadata|, metadata := []), Writer(w.written + r.metadata, w.tries + 1))
    else (r.(fmqResultSize := 0), Writer(w.written, w.tries + 1))
  }

  function FrameResult(r: CaptureResult, w: Writer, accept: nat -> bool): (CaptureResult, Writer) {
    var (r1, w1) := FrameMetadata(r, w, accept);
    var (ps, w2) := FramePhysicals(r1.physical, w1, accept);
    (r1.(physical := ps), w2)
  }

  function FrameResults(rs: seq<CaptureResult>, w: Writer, accept: nat -> bool): (seq<CaptureResult>, Writer) {
    if rs == [] then ([], w)
    else
      var (init, w1) := FrameResults(rs[..|rs| - 1], w, accept);
      var (last, w2) := FrameResult(rs[|rs| - 1], w1, accept);
      (init + [last], w2)
  }

  /** One invocation of the callback; `room` is whether the queue had any space left. */
  datatype Invocation = Invocation(results: seq<CaptureResult>, tryWriteFmq: bool, room: bool)

  function FrameCall(call: Invocation, w: Writer, accept: nat -> bool): (seq<CaptureResult>, Writer) {
    if call.tryWriteFmq && call.room then FrameResults(call.results, w, accept) else (call.results, w)
  }

  function FrameCalls(calls: seq<Invocation>, w: Writer, accept: nat -> bool): (seq<seq<CaptureResult>>, Writer) {
    if calls == [] then ([], w)
    else
      var (init, w1) := FrameCalls(calls[..|calls| - 1], w, accept);
      var (last, w2) := FrameCall(calls[|calls| - 1], w1, accept);
      (init + [last], w2)
  }

  // ---- the reader ----

  /** Take `size` bytes from the stream when size is nonzero, else the inline bytes. */
  function Take(size: nat, inlined: Bytes, stream: Bytes): Option<(Bytes, Bytes)> {
    if size == 0 then Some((inlined, stream))
    else if size <= |stream| then Some((stream[..size], stream[size..]))
    else None
  }

  function ReadPhysicals(ps: seq<PhysicalMetadata>, stream: Bytes): Option<(seq<PhysicalMetadata>, Bytes)> {
    if ps == [] then Some(([], stream))
    else
      match ReadPhysicals(ps[..|ps| - 1], stream)
      case None => None
      case Some((init, rest)) =>
        var p := ps[|ps| - 1];
        match Take(p.fmqMetadataSize, p.metadata, rest)
        case None => None
        case Some((bytes, rest')) => Some((init + [p.(fmqMetadataSize := 0, metadata := bytes)], rest'))
  }

  function ReadResult(r: CaptureResult, stream: Bytes): Option<(CaptureResult, Bytes)> {
    match Take(r.fmqResultSize, r.metadata, stream)
    case None => None
    case Some((bytes, rest)) =>
      match ReadPhysicals(r.physical, rest)
      case None => None
      case Some((ps, rest')) => Some((r.(fmqResultSize := 0, metadata := bytes, physical := ps), rest'))
  }

  function ReadResults(rs: seq<CaptureResult>, stream: Bytes): Option<(seq<CaptureResult>, Bytes)> {
    if rs == [] then Some(([], stream))
    else
      match ReadResults(rs[..|rs| - 1], stream)
      case None => None
      case Some((init, rest)) =>
        match ReadResult(rs[|rs| - 1], rest)
        case None => None
        case Some((r, rest')) => Some((init + [r], rest'))
  }

  function ReadCalls(calls: seq<seq<CaptureResult>>, stream: Bytes): Option<(seq<seq<CaptureResult>>, Bytes)> {
    if calls == [] then Some(([], stream))
    else
      match ReadCalls(calls[..|calls| - 1], stream)
      case None => None
      case Some((init, rest)) =>
        match ReadResults(calls[|calls| - 1], rest)
        case None => None
        case Some((rs, rest')) => Some((init + [rs], rest'))
  }

  // ---- what enters has zero sizes ----

  predicate ZeroSizes(r: CaptureResult) {
    r.fmqResultSize == 0 && forall i :: 0 <= i < |r.physical| ==> r.physical[i].fmqMetadataSize == 0
  }

  predicate AllZero(rs: seq<CaptureResult>) {
    forall i :: 0 <= i < |rs| ==> ZeroSizes(rs[i])
  }

  // ---- the round trip ----

  // `bytes`, followed by anything at all, reads back as the original and leaves the rest.

  ghost predicate PhysicalsBack(framed: seq<PhysicalMetadata>, bytes: Bytes, ps: seq<PhysicalMetadata>) {
    forall tail :: ReadPhysicals(framed, bytes + tail) == Some((ps, tail))
  }

  ghost predicate ResultBack(framed: CaptureResult, bytes: Bytes, r: CaptureResult) {
    forall tail :: ReadResult(framed, bytes + tail) == Some((r, tail))
  }

  ghost predicate ResultsBack(framed: seq<CaptureResult>, bytes: Bytes, rs: seq<CaptureResult>) {
    forall tail :: ReadResults(framed, bytes + tail) == Some((rs, tail))
  }

  ghost predicate CallsBack(framed: seq<seq<CaptureResult>>, bytes: Bytes, calls: seq<seq<CaptureResult>>) {
    forall tail :: ReadCalls(framed, bytes + tail) == Some((calls, tail))
  }

  /** Reading undoes writing, accepted or not. */
  lemma TakeBack(size: nat, inlined: Bytes, metadata: Bytes, more: Bytes, tail: Bytes)
    requires (size == |metadata| && inlined == [] && more == metadata)
             || (size == 0 && inlined == metadata && more == [])
    ensures Take(size, inlined, more + tail) == Some((metadata, tail))
  {
    if size == 0 {
      assert more + tail == tail;
    } else {
      assert (more + tail)[..size] == metadata && (more + tail)[size..] == tail;
    }
  }

  lemma EmptyBack()
    ensures PhysicalsBack([], [], []) && ResultsBack([], [], []) && CallsBack([], [], [])
  {
    assert forall tail: Bytes :: [] + tail == tail;
  }

  lemma OnePhysicalMore(init': seq<PhysicalMetadata>, before: Bytes, init: seq<PhysicalMetadata>,
                        p: PhysicalMetadata, w: Writer, accept: nat -> bool)
    requires PhysicalsBack(init', before, init) && p.fmqMetadataSize == 0
    ensures var more := if accept(w.tries) then p.metadata else [];
            PhysicalsBack(init' + [FramePhysical(p, w, accept).0], before + more, init + [p])
            && FramePhysical(p, w, accept).1.written == w.written + more
  {
    var p' := FramePhysical(p, w, accept).0;
    var more := if accept(w.tries) then p.metadata else [];
    assert (init' + [p'])[..|init'|] == init';
    forall tail: Bytes
      ensures ReadPhysicals(init' + [p'], (before + more) + tail) == Some((init + [p], tail))
    {
      assert (before + more) + tail == before + (more + tail);
      TakeBack(p'.fmqMetadataSize, p'.metadata, p.metadata, more, tail);
      assert p'.(fmqMetadataSize := 0, metadata := p.metadata) == p;
    }
  }

  lemma {:induction false} PhysicalsRoundTrip(ps: seq<PhysicalMetadata>, w: Writer, accept: nat -> bool)
    returns (bytes: Bytes)
    requires forall i :: 0 <= i < |ps| ==> ps[i].fmqMetadataSize == 0
    ensures FramePhysicals(ps, w, accept).1.written == w.written + bytes
    ensures PhysicalsBack(FramePhysicals(ps, w, accept).0, bytes, ps)
    decreases |ps|
  {
    if ps == [] {
      bytes := [];
      EmptyBack();
    } else {
      var init, p := ps[..|ps| - 1], ps[|ps| - 1];
      var before := PhysicalsRoundTrip(init, w, accept);
      var (init', w1) := FramePhysicals(init, w, accept);
      bytes := before + if accept(w1.tries) then p.metadata else [];
      OnePhysicalMore(init', before, init, p, w1, accept);
      assert init + [p] == ps;
    }
  }

  lemma ResultRoundTrip(r: CaptureResult, w: Writer, accept: nat -> bool) returns (bytes: Bytes)
    requires ZeroSizes(r)
    ensures FrameResult(r, w, accept).1.written == w.written + bytes
    ensures ResultBack(FrameResult(r, w, accept).0, bytes, r)
  {
    var (r1, w1) := FrameMetadata(r, w, accept);
    var more := if r.metadata != [] && accept(w.tries) then r.metadata else [];
    var phys := PhysicalsRoundTrip(r1.physical, w1, accept);
    bytes := more + phys;
    Regroup(w.written, more, phys);
    MetadataThenPhysicals(FrameResult(r, w, accept).0, more, phys, r);
  }

  lemma MetadataThenPhysicals(r': CaptureResult, more: Bytes, phys: Bytes, r: CaptureResult)
    requires PhysicalsBack(r'.physical, phys, r.physical)
    requires r' == r.(fmqResultSize := r'.fmqResultSize, metadata := r'.metadata, physical := r'.physical)
    requires r.fmqResultSize == 0
    requires (r'.fmqResultSize == |r.metadata| && r'.metadata == [] && more == r.metadata)
             || (r'.fmqResultSize == 0 && r'.metadata == r.metadata && more == [])
    ensures ResultBack(r', more + phys, r)
  {
    forall tail: Bytes
      ensures ReadResult(r', (more + phys) + tail) == Some((r, tail))
    {
      Regroup(more, phys, tail);
      TakeBack(r'.fmqResultSize, r'.metadata, r.metadata, more, phys + tail);
    }
  }

  lemma OneResultMore(init': seq<CaptureResult>, before: Bytes, init: seq<CaptureResult>,
                      r': CaptureResult, more: Bytes, r: CaptureResult)
    requires ResultsBack(init', before, init) && ResultBack(r', more, r)
    ensures ResultsBack(init' + [r'], before + more, init + [r])
  {
    assert (init' + [r'])[..|init'|] == init';
    forall tail: Bytes
      ensures ReadResults(init' + [r'], (before + more) + tail) == Some((init + [r], tail))
    {
      assert (before + more) + tail == before + (more + tail);
    }
  }

  lemma {:induction false} ResultsRoundTrip(rs: seq<CaptureResult>, w: Writer, accept: nat -> bool)
    returns (bytes: Bytes)
    requires AllZero(rs)
    ensures FrameResults(rs, w, accept).1.written == w.written + bytes
    ensures ResultsBack(FrameResults(rs, w, accept).0, bytes, rs)
    decreases |rs|
  {
    if rs == [] {
      bytes := [];
      EmptyBack();
    } else {
      var init, r := rs[..|rs| - 1], rs[|rs| - 1];
      var before := ResultsRoundTrip(init, w, accept);
      var (init', w1) := FrameResults(init, w, accept);
      var more := ResultRoundTrip(r, w1, accept);
      bytes := before + more;
      OneResultMore(init', before, init, FrameResult(r, w1, accept).0, more, r);
      assert init + [r] == rs;
    }
  }

  /** Results sent without framing read back as themselves and leave the stream alone. */
  lemma {:induction false} UnframedRoundTrip(rs: seq<CaptureResult>, stream: Bytes)
    requires AllZero(rs)
    ensures ReadResults(rs, stream) == Some((rs, stream))
    decreases |rs|
  {
    if rs != [] {
      var init, r := rs[..|rs| - 1], rs[|rs| - 1];
      UnframedRoundTrip(init, stream);
      UnframedPhysicals(r.physical, stream);
      assert ReadResult(r, stream) == Some((r, stream)) && init + [r] == rs;
    }
  }

  lemma {:induction false} UnframedPhysicals(ps: seq<PhysicalMetadata>, stream: Bytes)
    requires forall i :: 0 <= i < |ps| ==> ps[i].fmqMetadataSize == 0
    ensures ReadPhysicals(ps, stream) == Some((ps, stream))
    decreases |ps|
  {
    if ps != [] {
      var init, p := ps[..|ps| - 1], ps[|ps| - 1];
      UnframedPhysicals(init, stream);
      assert p.(fmqMetadataSize := 0, metadata := p.metadata) == p && init + [p] == ps;
    }
  }

  lemma CallRoundTrip(call: Invocation, w: Writer, accept: nat -> bool) returns (bytes: Bytes)
    requires AllZero(call.results)
    ensures FrameCall(call, w, accept).1.written == w.written + bytes
    ensures ResultsBack(FrameCall(call, w, accept).0, bytes, call.results)
  {
    if call.tryWriteFmq && call.room {
      bytes := ResultsRoundTrip(call.results, w, accept);
    } else {
      bytes := [];
      forall tail: Bytes
        ensures ReadResults(call.results, bytes + tail) == Some((call.results, tail))
      {
        assert bytes + tail == tail;
        UnframedRoundTrip(call.results, tail);
      }
    }
  }

  lemma OneCallMore(init': seq<seq<CaptureResult>>, before: Bytes, init: seq<seq<CaptureResult>>,
                    rs': seq<CaptureResult>, more: Bytes, rs: seq<CaptureResult>)
    requires CallsBack(init', before, init) && ResultsBack(rs', more, rs)
    ensures CallsBack(init' + [rs'], before + more, init + [rs])
  {
    assert (init' + [rs'])[..|init'|] == init';
    forall tail: Bytes
      ensures ReadCalls(init' + [rs'], (before + more) + tail) == Some((init + [rs], tail))
    {
      assert (before + more) + tail == before + (more + tail);
    }
  }

  function Originals(calls: seq<Invocation>): seq<seq<CaptureResult>> {
    seq(|calls|, i requires 0 <= i < |calls| => calls[i].results)
  }

  /**
   Framing round trip. For any sequence of invocations whose results enter with
   zero sizes and any pattern of accepted and rejected writes, a reader that
   follows the sizes recovers every result of every invocation from the bytes
   written, whatever is written to the queue afterwards.
   */
  lemma {:induction false} FramingRoundTrip(calls: seq<Invocation>, w: Writer, accept: nat -> bool)
    returns (bytes: Bytes)
    requires forall i :: 0 <= i < |calls| ==> AllZero(calls[i].results)
    ensures FrameCalls(calls, w, accept).1.written == w.written + bytes
    ensures forall tail :: ReadCalls(FrameCalls(calls, w, accept).0, bytes + tail) == Some((Originals(calls), tail))
    decreases |calls|
  {
    if calls == [] {
      bytes := [];
      EmptyBack();
    } else {
      var init, call := calls[..|calls| - 1], calls[|calls| - 1];
      var before := FramingRoundTrip(init, w, accept);
      var (init', w1) := FrameCalls(init, w, accept);
      assert CallsBack(init', before, Originals(init));
      var more := CallRoundTrip(call, w1, accept);
      OneCallMore(init', before, Originals(init), FrameCall(call, w1, accept).0, more, call.results);
      assert Originals(calls) == Originals(init) + [call.results];
      bytes := before + more;
      Regroup(w.written, before, more);
    }
  }

  /**
   The zero sizes on entry are needed: a result sent without framing reads back as
   itself, leaving any stream untouched, exactly when its own size is zero.
   */
  lemma UnframedNeedsZero(r: CaptureResult)
    requires r.physical == []
    ensures (forall stream :: ReadResult(r, stream) == Some((r.(fmqResultSize := 0), stream))) <==> r.fmqResultSize == 0
  {
    if r.fmqResultSize != 0 {
      assert ReadResult(r, []).None?;
    }
  }

  // ---- what framing does with sizes on entry, and how often it tries ----

  function ClearedPhysicals(ps: seq<PhysicalMetadata>): seq<PhysicalMetadata> {
    seq(|ps|, i requires 0 <= i < |ps| => ps[i].(fmqMetadataSize := 0))
  }

  /** The result with every size zero. */
  function Cleared(r: CaptureResult): CaptureResult {
    r.(fmqResultSize := 0, physical := ClearedPhysicals(r.physical))
  }

  lemma {:induction false} PhysicalsForget(ps: seq<PhysicalMetadata>, w: Writer, accept: nat -> bool)
    ensures FramePhysicals(ps, w, accept) == FramePhysicals(ClearedPhysicals(ps), w, accept)
    decreases |ps|
  {
    if ps != [] {
      var n := |ps| - 1;
      assert ClearedPhysicals(ps)[..n] == ClearedPhysicals(ps[..n]);
      PhysicalsForget(ps[..n], w, accept);
      var w1 := FramePhysicals(ps[..n], w, accept).1;
      assert FramePhysical(ps[n], w1, accept) == FramePhysical(ClearedPhysicals(ps)[n], w1, accept);
    }
  }

  /**
   Framing settles the sizes itself: whatever sizes a result enters with, it is framed as
   if they were zero, exactly unless it has no metadata and yet a size of its own.
   */
  lemma FramingForgetsIff(r: CaptureResult, w: Writer, accept: nat -> bool)
    ensures FrameResult(r, w, accept) == FrameResult(Cleared(r), w, accept) <==>
            r.metadata != [] || r.fmqResultSize == 0
  {
    var w1 := FrameMetadata(r, w, accept).1;
    assert FrameMetadata(Cleared(r), w, accept).1 == w1;
    PhysicalsForget(r.physical, w1, accept);
  }

  /** So a result that is framed reads back with its sizes cleared, unless it has none but a size. */
  lemma FramedReadsBack(r: CaptureResult, w: Writer, accept: nat -> bool) returns (bytes: Bytes)
    requires r.metadata != [] || r.fmqResultSize == 0
    ensures FrameResult(r, w, accept).1.written == w.written + bytes
    ensures ResultBack(FrameResult(r, w, accept).0, bytes, Cleared(r))
  {
    FramingForgetsIff(r, w, accept);
    bytes := ResultRoundTrip(Cleared(r), w, accept);
  }

  /** One write is tried for a result's metadata, if it has any, and one for each physical camera's. */
  function Attempts(rs: seq<CaptureResult>): nat {
    if rs == [] then 0
    else
      var r := rs[|rs| - 1];
      Attempts(rs[..|rs| - 1]) + (if r.metadata == [] then 0 else 1) + |r.physical|
  }

  lemma {:induction false} PhysicalTries(ps: seq<PhysicalMetadata>, w: Writer, accept: nat -> bool)
    ensures FramePhysicals(ps, w, accept).1.tries == w.tries + |ps|
    decreases |ps|
  {
    if ps != [] {
      PhysicalTries(ps[..|ps| - 1], w, accept);
    }
  }

  lemma {:induction false} TriesAre(rs: seq<CaptureResult>, w: Writer, accept: nat -> bool)
    ensures FrameResults(rs, w, accept).1.tries == w.tries + Attempts(rs)
    decreases |rs|
  {
    if rs != [] {
      var init, r := rs[..|rs| - 1], rs[|rs| - 1];
      TriesAre(init, w, accept);
      var w1 := FrameResults(init, w, accept).1;
      PhysicalTries(FrameMetadata(r, w1, accept).0.physical, FrameMetadata(r, w1, accept).1, accept);
    }
  }

  // ---- the sender ----

  /** The callback's caller: frames the results in place, then hands them over. */
  class ResultSender {
    const accept: nat -> bool             // which write attempts the queue accepts
    var written: Bytes                    // everything written to the queue
    var tries: nat
    var delivered: seq<seq<CaptureResult>> // the calls made on the callback

    constructor (accept: nat -> bool)
      ensures this.accept == accept && Queue() == Writer([], 0) && delivered == []
    {
      this.accept, written, tries, delivered := accept, [], 0, [];
    }

    function Queue(): Writer
      reads this
    {
      Writer(written, tries)
    }

    /** One write attempt. */
    method Write(bytes: Bytes) returns (ok: bool)
      modifies this`written, this`tries
      ensures ok == accept(old(tries)) && tries == old(tries) + 1
      ensures written == if ok then old(written) + bytes else old(written)
    {
      ok := accept(tries);
      tries := tries + 1;
      if ok {
        written := written + bytes;
      }
    }

    method WritePhysicals(physical: seq<PhysicalMetadata>) returns (framed: seq<PhysicalMetadata>)
      modifies this`written, this`tries
      ensures (framed, Queue()) == FramePhysicals(physical, old(Queue()), accept)
    {
      framed := [];
      for j := 0 to |physical|
        invariant (framed, Queue()) == FramePhysicals(physical[..j], old(Queue()), accept)
      {
        var p := physical[j];
        assert physical[..j + 1][..j] == physical[..j];
        var ok := Write(p.metadata);
        if ok {
          p := p.(fmqMetadataSize := |p.metadata|, metadata := []);
        } else {
          p := p.(fmqMetadataSize := 0);
        }
        framed := framed + [p];
      }
      assert physical[..|physical|] == physical;
    }

    method WriteResult(result: CaptureResult) returns (framed: CaptureResult)
      modifies this`written, this`tries
      ensures (framed, Queue()) == FrameResult(result, old(Queue()), accept)
    {
      framed := result;
      if |framed.metadata| > 0 {
        var ok := Write(framed.metadata);
        if ok {
          framed := framed.(fmqResultSize := |framed.metadata|, metadata := []);
        } else {
          framed := framed.(fmqResultSize := 0);
        }
      }
      var ps := WritePhysicals(framed.physical);
      framed := framed.(physical := ps);
    }

    /** invokeProcessCaptureResultCallback, its lock held throughout. */
    method Invoke(results: array<CaptureResult>, tryWriteFmq: bool, room: bool)
      modifies this`written, this`tries, this`delivered, results
      ensures (results[..], Queue()) == FrameCall(Invocation(old(results[..]), tryWriteFmq, room), old(Queue()), accept)
      ensures delivered == old(delivered) + [results[..]]
    {
      ghost var before := results[..];
      if tryWriteFmq && room {
        for i := 0 to results.Length
          invariant (results[..i], Queue()) == FrameResults(before[..i], old(Queue()), accept)
          invariant results[i..] == before[i..]
          invariant delivered == old(delivered)
        {
          assert before[..i + 1][..i] == before[..i];
          assert results[i] == results[i..][0] == before[i];
          ghost var rest := results[i + 1..];
          assert rest == results[i..][1..] == before[i + 1..];
          var framed := WriteResult(results[i]);
          results[i] := framed;
          assert results[..i + 1] == results[..i] + [framed];
        }
        assert before[..results.Length] == before;
        assert results[..results.Length] == results[..];
      }
      delivered := delivered + [results[..]];
    }
  }
}
