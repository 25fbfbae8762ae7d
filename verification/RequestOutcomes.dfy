/**
 What becomes of a request and of a configuration: exactly which status each gets, and
 how the first request after a configuration differs from the others.
 */
module RequestOutcomes {
  import opened CaptureTypes
  import opened StreamCaches
  import opened CaptureTables
  import opened CaptureSession

  // ---- which buffers of a request can be had ----

  /**
   Buffer i of a request can be had: it is an output that names no buffer, or is cached
   already, or is the same as an earlier buffer of the request, or comes with a handle
   the importer takes.
   */
  ghost predicate Importable(c: Caches, bufs: seq<BufferIn>, outputs: nat, i: nat)
    requires i < |bufs|
  {
    var b := bufs[i];
    if b.isNull && b.bufferId == NO_BUFFER then i < outputs
    else Known(c, b.streamId, b.bufferId) || Earlier(bufs, i, b.streamId, b.bufferId) || (!b.isNull && b.importOk)
  }

  /** One of the first n buffers is this one, and not an empty one. */
  ghost predicate Earlier(bufs: seq<BufferIn>, n: nat, id: int, b: nat) {
    exists j :: 0 <= j < n && j < |bufs| && bufs[j].streamId == id && bufs[j].bufferId == b
                && !(bufs[j].isNull && b == NO_BUFFER)
  }

  /** The buffers cached are those from before and the request's own. */
  ghost predicate AllCached(c: Caches, bufs: seq<BufferIn>, c': Caches) {
    forall id, b :: Known(c', id, b) <==> Known(c, id, b) || Earlier(bufs, |bufs|, id, b)
  }

  lemma EarlierPrefix(bufs: seq<BufferIn>, n: nat, m: nat, id: int, b: nat)
    requires m <= n <= |bufs|
    ensures Earlier(bufs[..n], m, id, b) <==> Earlier(bufs, m, id, b)
  {
    assert forall j :: 0 <= j < n ==> bufs[..n][j] == bufs[j];
  }

  lemma EarlierNext(bufs: seq<BufferIn>, n: nat, id: int, b: nat)
    requires n < |bufs|
    ensures Earlier(bufs, n + 1, id, b) <==>
            Earlier(bufs, n, id, b)
            || (bufs[n].streamId == id && bufs[n].bufferId == b && !(bufs[n].isNull && b == NO_BUFFER))
  {
  }

  lemma ImportablePrefix(c: Caches, bufs: seq<BufferIn>, outputs: nat, n: nat)
    requires n <= |bufs|
    ensures forall i: nat :: i < n ==> (Importable(c, bufs[..n], outputs, i) <==> Importable(c, bufs, outputs, i))
  {
    forall i: nat | i < n
      ensures Importable(c, bufs[..n], outputs, i) <==> Importable(c, bufs, outputs, i)
    {
      EarlierPrefix(bufs, n, i, bufs[i].streamId, bufs[i].bufferId);
    }
  }

  /** One buffer more, with those before it cached. */
  lemma ImportNext(c: Caches, bufs: seq<BufferIn>, outputs: nat, c1: Caches, r: Imported, c2: Caches)
    requires bufs != [] && AllCached(c, bufs[..|bufs| - 1], c1)
    requires var b := bufs[|bufs| - 1];
             (r, c2) == Import(c1, b.streamId, b.bufferId, b.isNull, b.importOk, |bufs| <= outputs)
    ensures r.Slot? || r.EmptySlot? <==> Importable(c, bufs, outputs, |bufs| - 1)
    ensures r.NullHandle? ==> bufs[|bufs| - 1].isNull && bufs[|bufs| - 1].bufferId == NO_BUFFER
    ensures r.BadHandle? ==> !(bufs[|bufs| - 1].isNull && bufs[|bufs| - 1].bufferId == NO_BUFFER)
    ensures r.Slot? || r.EmptySlot? ==> AllCached(c, bufs, c2)
  {
    var n := |bufs| - 1;
    var b := bufs[n];
    ImportIs(c1, b.streamId, b.bufferId, b.isNull, b.importOk, |bufs| <= outputs);
    EarlierPrefix(bufs, n, n, b.streamId, b.bufferId);
    forall id, x
      ensures Earlier(bufs, n + 1, id, x) <==>
              Earlier(bufs[..n], n, id, x) || (b.streamId == id && b.bufferId == x && !(b.isNull && x == NO_BUFFER))
    {
      EarlierPrefix(bufs, n, n, id, x);
      EarlierNext(bufs, n, id, x);
    }
  }

  /** How importing the buffers ends: well if all can be had, else as the first that cannot tells. */
  ghost predicate ImportsAs(c: Caches, bufs: seq<BufferIn>, outputs: nat, st: Status) {
    if st == OK then forall i: nat :: i < |bufs| ==> Importable(c, bufs, outputs, i)
    else
      exists i: nat :: FirstBad(c, bufs, outputs, i)
                       && st == if bufs[i].isNull && bufs[i].bufferId == NO_BUFFER then IllegalArgument
                                else InternalError
  }

  ghost predicate FirstBad(c: Caches, bufs: seq<BufferIn>, outputs: nat, i: nat) {
    i < |bufs| && !Importable(c, bufs, outputs, i) && forall j: nat :: j < i ==> Importable(c, bufs, outputs, j)
  }

  lemma {:induction false} ImportBuffersAs(c: Caches, bufs: seq<BufferIn>, outputs: nat)
    ensures ImportsAs(c, bufs, outputs, ImportBuffers(c, bufs, outputs).0)
    ensures ImportBuffers(c, bufs, outputs).0 == OK ==> AllCached(c, bufs, ImportBuffers(c, bufs, outputs).1)
    decreases |bufs|
  {
    if bufs != [] {
      var n := |bufs| - 1;
      var b := bufs[n];
      var (st, c1) := ImportBuffers(c, bufs[..n], outputs);
      ImportBuffersAs(c, bufs[..n], outputs);
      ImportablePrefix(c, bufs, outputs, n);
      if st == OK {
        var (r, c2) := Import(c1, b.streamId, b.bufferId, b.isNull, b.importOk, |bufs| <= outputs);
        ImportNext(c, bufs, outputs, c1, r, c2);
        assert !Importable(c, bufs, outputs, n) ==> FirstBad(c, bufs, outputs, n);
      } else {
        var i: nat :| FirstBad(c, bufs[..n], outputs, i)
                      && st == if bufs[..n][i].isNull && bufs[..n][i].bufferId == NO_BUFFER then IllegalArgument
                               else InternalError;
        assert FirstBad(c, bufs, outputs, i);
      }
    }
  }

  // ---- what becomes of a request ----

  ghost predicate Usable(s: Session) {
    !s.initFail && !s.disconnected && !s.closed
  }

  /** The request is well formed for the session, before any of its buffers are looked at. */
  ghost predicate WellFormed(s: Session, r: CaptureRequest) {
    r.converted && (r.settings.None? ==> !s.firstRequest) && r.outputs != []
  }

  ghost predicate AllImportable(s: Session, r: CaptureRequest) {
    forall i: nat :: i < |r.Buffers()| ==> Importable(s.caches, r.Buffers(), |r.outputs|, i)
  }

  ghost predicate FencesGood(r: CaptureRequest) {
    forall i: nat :: i < |r.Buffers()| ==> r.Buffers()[i].fenceOk
  }

  /** The first buffer that cannot be had names none. */
  ghost predicate LacksBuffer(s: Session, r: CaptureRequest) {
    exists i: nat :: FirstBad(s.caches, r.Buffers(), |r.outputs|, i)
                     && r.Buffers()[i].isNull && r.Buffers()[i].bufferId == NO_BUFFER
  }

  ghost predicate PhysicalGood(s: Session, r: CaptureRequest) {
    forall i: nat :: i < |r.physical| ==> r.physical[i].converted && (r.physical[i].isNull ==> !s.firstRequest)
  }

  /**
   Which status a request gets. It goes through exactly when the session is usable, the
   request is well formed -- with settings, if it is the first since a configuration --
   all its buffers can be had with good fences, its physical settings are good and the
   HAL accepts it. A lost camera is reported as such, what the client did wrong as an
   illegal argument, and anything else as an internal error.
   */
  lemma RequestStatus(s: Session, d: Device, r: CaptureRequest)
    ensures var st := ProcessOne(s, d, r).0;
            && (st == OK <==> Usable(s) && WellFormed(s, r) && AllImportable(s, r) && FencesGood(r)
                              && PhysicalGood(s, r) && r.verdict.Accepted?)
            && (st == CameraDisconnected <==> !s.initFail && s.disconnected)
            && (st == IllegalArgument <==>
                  Usable(s)
                  && (!WellFormed(s, r) || LacksBuffer(s, r)
                      || (AllImportable(s, r) && FencesGood(r) && (!PhysicalGood(s, r) || r.verdict.BadValue?))))
  {
    ImportBuffersAs(s.caches, r.Buffers(), |r.outputs|);
    var (st, c) := ImportBuffers(s.caches, r.Buffers(), |r.outputs|);
    assert (forall i: nat :: i < |r.physical| ==> r.physical[i].converted && !(s.firstRequest && r.physical[i].isNull))
      <==> PhysicalGood(s, r);
    assert FencesOk(r.Buffers()) <==> FencesGood(r);
    assert PhysicalOk(r.physical, s.firstRequest) <==> PhysicalGood(s, r);
  }

  /** A request's pairs: its frame with the stream of every output, and of the input if it names one and a buffer. */
  lemma PairsOfRequest(r: CaptureRequest, p: Pair)
    ensures p in RequestPairs(r.Entry()) <==>
            p.1 == r.frame
            && ((exists i :: 0 <= i < |r.outputs| && r.outputs[i].streamId == p.0)
                || (p.0 == r.input.streamId && p.0 != -1 && r.input.bufferId != NO_BUFFER))
  {
    assert forall i :: 0 <= i < |r.outputs| ==> r.Entry().outputs[i] == r.outputs[i].streamId;
  }

  // ---- the first request after a configuration ----

  lemma FirstAfterOne(s: Session, d: Device, r: CaptureRequest)
    ensures ProcessOne(s, d, r).1.firstRequest <==> s.firstRequest && ProcessOne(s, d, r).0 != OK
  {
  }

  lemma {:induction false} FirstAfterAll(s: Session, d: Device, reqs: seq<CaptureRequest>)
    ensures ProcessFrom(s, d, reqs).2.firstRequest <==> s.firstRequest && ProcessFrom(s, d, reqs).1 == 0
    decreases |reqs|
  {
    if reqs != [] {
      FirstAfterAll(s, d, reqs[..|reqs| - 1]);
      FirstAfterOne(ProcessFrom(s, d, reqs[..|reqs| - 1]).2, d, reqs[|reqs| - 1]);
    }
  }

  /** The call is a configuration that succeeds. */
  predicate Configures(s: Session, early: bool, call: Call) {
    call.CallConfigure? && ConfigureStreams(s, call.config, early, call.hal).0 == OK
  }

  /** The call gets at least one request to the HAL that accepts it. */
  predicate Accepts(s: Session, d: Device, call: Call) {
    call.CallProcess? && Process(s, d, call.reqs, call.removals).1 > 0
  }

  lemma AfterCall(s: Session, d: Device, early: bool, call: Call)
    ensures var s' := Do(s, d, early, call);
            && (s'.firstRequest <==> Configures(s, early, call) || (s.firstRequest && !Accepts(s, d, call)))
            && s'.videoStreams == if Configures(s, early, call) then VideoIds(call.config) else s.videoStreams
  {
    if call.CallProcess? {
      var s1 := s.(caches := RemoveAll(s.caches, call.removals));
      FirstAfterAll(s1, d, call.reqs);
      RequestsKeep(s1, d, call.reqs);
    }
  }

  lemma OneKeeps(s: Session, d: Device, r: CaptureRequest)
    ensures var s' := ProcessOne(s, d, r).1;
            && s'.initFail == s.initFail && s'.disconnected == s.disconnected && s'.closed == s.closed
            && s'.videoStreams == s.videoStreams
  {
  }

  /** Requests change neither the session's state of life nor its batched streams. */
  lemma {:induction false} RequestsKeep(s: Session, d: Device, reqs: seq<CaptureRequest>)
    ensures var s' := ProcessFrom(s, d, reqs).2;
            && s'.initFail == s.initFail && s'.disconnected == s.disconnected && s'.closed == s.closed
            && s'.videoStreams == s.videoStreams
    decreases |reqs|
  {
    if reqs != [] {
      var before := ProcessFrom(s, d, reqs[..|reqs| - 1]);
      RequestsKeep(s, d, reqs[..|reqs| - 1]);
      NextKeeps(before, d, reqs[|reqs| - 1], ProcessFrom(s, d, reqs));
    }
  }

  lemma NextKeeps(before: (Status, nat, Session), d: Device, r: CaptureRequest, after: (Status, nat, Session))
    requires after == ProcessNext(before, d, r)
    ensures var s, s' := before.2, after.2;
            && s'.initFail == s.initFail && s'.disconnected == s.disconnected && s'.closed == s.closed
            && s'.videoStreams == s.videoStreams
  {
    OneKeeps(before.2, d, r);
  }

  /** The session before call i. */
  function At(s: Session, d: Device, early: bool, calls: seq<Call>, i: nat): Session
    requires i <= |calls|
  {
    DoAll(s, d, early, calls[..i])
  }

  ghost predicate ConfiguresAt(s: Session, d: Device, early: bool, calls: seq<Call>, i: nat) {
    i < |calls| && Configures(At(s, d, early, calls, i), early, calls[i])
  }

  ghost predicate AcceptsAt(s: Session, d: Device, early: bool, calls: seq<Call>, i: nat) {
    i < |calls| && Accepts(At(s, d, early, calls, i), d, calls[i])
  }

  /** A configuration succeeded, and no request has been accepted since. */
  ghost predicate Unused(s: Session, d: Device, early: bool, calls: seq<Call>) {
    exists i: nat :: ConfiguresAt(s, d, early, calls, i) && NoneAcceptedAfter(s, d, early, calls, i)
  }

  ghost predicate NoneAcceptedAfter(s: Session, d: Device, early: bool, calls: seq<Call>, i: nat) {
    forall j: nat :: i < j ==> !AcceptsAt(s, d, early, calls, j)
  }

  /** Call i is the last configuration that succeeded. */
  ghost predicate LastConfigured(s: Session, d: Device, early: bool, calls: seq<Call>, i: nat) {
    ConfiguresAt(s, d, early, calls, i) && forall j: nat :: i < j ==> !ConfiguresAt(s, d, early, calls, j)
  }

  lemma {:induction false} DoAllAppend(s: Session, d: Device, early: bool, calls: seq<Call>, call: Call)
    ensures DoAll(s, d, early, calls + [call]) == Do(DoAll(s, d, early, calls), d, early, call)
    decreases |calls|
  {
    if calls == [] {
      assert DoAll(Do(s, d, early, call), d, early, []) == Do(s, d, early, call);
    } else {
      assert (calls + [call])[1..] == calls[1..] + [call];
      DoAllAppend(Do(s, d, early, calls[0]), d, early, calls[1..], call);
    }
  }

  lemma DoLast(s: Session, d: Device, early: bool, calls: seq<Call>)
    requires calls != []
    ensures DoAll(s, d, early, calls) == Do(DoAll(s, d, early, calls[..|calls| - 1]), d, early, calls[|calls| - 1])
  {
    var init, call := calls[..|calls| - 1], calls[|calls| - 1];
    assert init + [call] == calls;
    DoAllAppend(s, d, early, init, call);
  }

  lemma AtAppend(s: Session, d: Device, early: bool, calls: seq<Call>, call: Call, i: nat)
    ensures i < |calls| ==>
              (ConfiguresAt(s, d, early, calls + [call], i) <==> ConfiguresAt(s, d, early, calls, i))
              && (AcceptsAt(s, d, early, calls + [call], i) <==> AcceptsAt(s, d, early, calls, i))
    ensures i == |calls| ==>
              (ConfiguresAt(s, d, early, calls + [call], i) <==> Configures(DoAll(s, d, early, calls), early, call))
              && (AcceptsAt(s, d, early, calls + [call], i) <==> Accepts(DoAll(s, d, early, calls), d, call))
  {
    if i <= |calls| {
      assert (calls + [call])[..i] == calls[..i];
      assert i == |calls| ==> calls[..i] == calls;
    }
  }

  lemma UnusedNext(s: Session, d: Device, early: bool, calls: seq<Call>, call: Call)
    ensures var now := DoAll(s, d, early, calls);
            Unused(s, d, early, calls + [call]) <==>
            Configures(now, early, call) || (Unused(s, d, early, calls) && !Accepts(now, d, call))
  {
    var all, n := calls + [call], |calls|;
    forall i: nat
      ensures i < n ==> (ConfiguresAt(s, d, early, all, i) <==> ConfiguresAt(s, d, early, calls, i))
      ensures i < n ==> (AcceptsAt(s, d, early, all, i) <==> AcceptsAt(s, d, early, calls, i))
    {
      AtAppend(s, d, early, calls, call, i);
    }
    AtAppend(s, d, early, calls, call, n);
    forall i: nat | i < n
      ensures NoneAcceptedAfter(s, d, early, all, i) <==>
              NoneAcceptedAfter(s, d, early, calls, i) && !AcceptsAt(s, d, early, all, n)
    {
    }
    assert NoneAcceptedAfter(s, d, early, all, n);
  }

  lemma {:induction false} FirstFrom(s: Session, d: Device, early: bool, calls: seq<Call>)
    requires !s.firstRequest
    ensures DoAll(s, d, early, calls).firstRequest <==> Unused(s, d, early, calls)
    decreases |calls|
  {
    if calls != [] {
      var init, call := calls[..|calls| - 1], calls[|calls| - 1];
      FirstFrom(s, d, early, init);
      assert calls == init + [call];
      DoLast(s, d, early, calls);
      UnusedNext(s, d, early, init, call);
      AfterCall(DoAll(s, d, early, init), d, early, call);
    }
  }

  /**
   The first request. Whatever is called on a new session, the next request counts as
   the first exactly if a configuration has succeeded and no request has been accepted
   since. So a request without settings that would go through with some is taken or
   refused as an illegal argument accordingly.
   */
  lemma NullSettingsRefusedIff(outcome: InitOutcome, d: Device, early: bool, calls: seq<Call>, r: CaptureRequest)
    ensures var s := DoAll(New(outcome), d, early, calls);
            && (s.firstRequest <==> Unused(New(outcome), d, early, calls))
            && (r.settings.None? && ProcessOne(s, d, r.(settings := Some(map[]))).0 == OK ==>
                  ProcessOne(s, d, r).0 ==
                  if Unused(New(outcome), d, early, calls) then IllegalArgument else OK)
  {
    var s, r' := DoAll(New(outcome), d, early, calls), r.(settings := Some(map[]));
    FirstFrom(New(outcome), d, early, calls);
    RequestStatus(s, d, r);
    RequestStatus(s, d, r');
    if r.settings.None? && ProcessOne(s, d, r').0 == OK {
      SameBuffers(s, r, r');
    }
  }

  lemma SameBuffers(s: Session, r: CaptureRequest, r': CaptureRequest)
    requires r' == r.(settings := r'.settings)
    ensures r'.Buffers() == r.Buffers()
    ensures AllImportable(s, r') <==> AllImportable(s, r)
    ensures FencesGood(r') <==> FencesGood(r)
    ensures PhysicalGood(s, r') <==> PhysicalGood(s, r)
  {
  }

  // ---- when a session can be used ----

  predicate Called(calls: seq<Call>, call: Call) {
    exists i :: 0 <= i < |calls| && calls[i] == call
  }

  lemma FlagsAfterCall(s: Session, d: Device, early: bool, call: Call)
    ensures var s' := Do(s, d, early, call);
            && s'.initFail == s.initFail
            && (s'.disconnected <==> s.disconnected || call.CallDisconnect?)
            && (s'.closed <==> s.closed || call.CallDisconnect? || call.CallClose?)
  {
    if call.CallProcess? {
      RequestsKeep(s.(caches := RemoveAll(s.caches, call.removals)), d, call.reqs);
    }
  }

  lemma {:induction false} FlagsFrom(s: Session, d: Device, early: bool, calls: seq<Call>)
    ensures var s' := DoAll(s, d, early, calls);
            && s'.initFail == s.initFail
            && (s'.disconnected <==> s.disconnected || Called(calls, CallDisconnect))
            && (s'.closed <==> s.closed || Called(calls, CallDisconnect) || Called(calls, CallClose))
    decreases |calls|
  {
    if calls != [] {
      FlagsAfterCall(s, d, early, calls[0]);
      FlagsFrom(Do(s, d, early, calls[0]), d, early, calls[1..]);
      CalledFirst(calls, CallDisconnect);
      CalledFirst(calls, CallClose);
    }
  }

  lemma CalledFirst(calls: seq<Call>, call: Call)
    requires calls != []
    ensures Called(calls, call) <==> calls[0] == call || Called(calls[1..], call)
  {
    if i :| 0 <= i < |calls| && calls[i] == call {
      assert i > 0 ==> calls[1..][i - 1] == call;
    }
    if i :| 0 <= i < |calls[1..]| && calls[1..][i] == call {
      assert calls[i + 1] == call;
    }
  }

  /**
   How a session answers over its life: usable exactly if it initialized and was neither
   closed nor disconnected, however often other calls came in between; and a lost camera
   is told exactly by a session that initialized and was disconnected, closed or not.
   */
  lemma UsableIff(outcome: InitOutcome, d: Device, early: bool, calls: seq<Call>, r: CaptureRequest)
    ensures var s := DoAll(New(outcome), d, early, calls);
            && (Usable(s) <==> outcome.InitOk? && !Called(calls, CallDisconnect) && !Called(calls, CallClose))
            && (ProcessOne(s, d, r).0 == CameraDisconnected <==> outcome.InitOk? && Called(calls, CallDisconnect))
  {
    FlagsFrom(New(outcome), d, early, calls);
    RequestStatus(DoAll(New(outcome), d, early, calls), d, r);
  }

  // ---- what becomes of a configuration ----

  /**
   Which status a configuration gets. It goes through exactly when nothing is in flight,
   the session is usable, every request keeps what must not change of a stream, and the
   HAL takes it; only the HAL makes it an illegal argument.
   */
  lemma ConfigureStatus(s: Session, reqs: seq<StreamRequest>, early: bool, hal: HalConfig)
    ensures var st := ConfigureStreams(s, reqs, early, hal).0;
            var taken := forall i: nat :: i < |reqs| ==> Agrees(s.caches, reqs, i);
            && (st == OK <==> Idle(s.tables) && Usable(s) && taken && hal.ConfigOk?)
            && (st == CameraDisconnected <==> Idle(s.tables) && !s.initFail && s.disconnected)
            && (st == IllegalArgument <==> Idle(s.tables) && Usable(s) && taken && hal.ConfigInvalid?)
  {
    TakenInIff(s.caches, reqs);
  }

  /**
   What a configuration leaves. If it succeeds, exactly the requested streams, as last
   requested, each with the buffers it had, and the next request is the first. If the
   HAL refuses, in late mode, every buffer stays; and a rejection frees none in either mode.
   */
  lemma ConfigureLeaves(s: Session, reqs: seq<StreamRequest>, early: bool, hal: HalConfig)
    requires KeysAgree(s.caches)
    ensures var (st, s') := ConfigureStreams(s, reqs, early, hal);
            && (st == OK ==>
                  s'.firstRequest && s'.videoStreams == VideoIds(reqs)
                  && (forall id :: id in s'.caches.streams <==> Requested(reqs, id))
                  && (forall i: nat :: LastFor(reqs, i) ==> s'.caches.streams[reqs[i].id] == reqs[i].info)
                  && (forall id, b, h :: Cached(s'.caches, id, b, h) <==>
                        Cached(s.caches, id, b, h) && Requested(reqs, id)))
            && (st != OK ==> s'.firstRequest == s.firstRequest && s'.videoStreams == s.videoStreams)
            && (st != OK && !early ==>
                  s'.caches.freed == s.caches.freed
                  && forall id, b, h :: Cached(s.caches, id, b, h) ==> Cached(s'.caches, id, b, h))
  {
    var (st, s') := ConfigureStreams(s, reqs, early, hal);
    var c := s.caches;
    TakeInKeeps(c, reqs);
    if Idle(s.tables) && InitStatus(s) == OK && TakeIn(c, reqs).0 {
      if hal.ConfigOk? {
        ConfiguredExactly(c, reqs, early);
        ConfigureKeepsKeys(c, reqs, early, true);
      } else {
        ModesDifferOnFailure(c, reqs);
      }
    }
  }

  /** The batched streams are those of the requests for output with the video encoder's usage, in their order. */
  lemma {:induction false} VideoIdsAre(reqs: seq<StreamRequest>, id: int)
    ensures id in VideoIds(reqs) <==>
            exists i :: 0 <= i < |reqs| && reqs[i].id == id && reqs[i].info.streamType == OUTPUT
                        && (reqs[i].info.usage / 0x10000) % 2 == 1
    decreases |reqs|
  {
    if reqs != [] {
      var init, r := reqs[..|reqs| - 1], reqs[|reqs| - 1];
      VideoIdsAre(init, id);
      assert forall i :: 0 <= i < |init| ==> init[i] == reqs[i];
    }
  }

  /** With different stream ids in a configuration, no stream is batched twice. */
  lemma {:induction false} VideoIdsDistinct(reqs: seq<StreamRequest>)
    requires forall i, j :: 0 <= i < j < |reqs| ==> reqs[i].id != reqs[j].id
    ensures forall i, j :: 0 <= i < j < |VideoIds(reqs)| ==> VideoIds(reqs)[i] != VideoIds(reqs)[j]
    decreases |reqs|
  {
    if reqs != [] {
      var init, r := reqs[..|reqs| - 1], reqs[|reqs| - 1];
      VideoIdsDistinct(init);
      VideoIdsAre(init, r.id);
    }
  }

  lemma LastConfiguredNext(s: Session, d: Device, early: bool, calls: seq<Call>, call: Call, i: nat)
    ensures LastConfigured(s, d, early, calls + [call], i) <==>
            if Configures(DoAll(s, d, early, calls), early, call) then i == |calls|
            else i < |calls| && LastConfigured(s, d, early, calls, i)
    ensures (forall j: nat :: !ConfiguresAt(s, d, early, calls + [call], j)) <==>
            !Configures(DoAll(s, d, early, calls), early, call) && forall j: nat :: !ConfiguresAt(s, d, early, calls, j)
  {
    var all, n := calls + [call], |calls|;
    forall j: nat
      ensures j < n ==> (ConfiguresAt(s, d, early, all, j) <==> ConfiguresAt(s, d, early, calls, j))
    {
      AtAppend(s, d, early, calls, call, j);
    }
    AtAppend(s, d, early, calls, call, n);
  }

  /** The batched streams are as the last configuration that succeeded left them, or as at first. */
  ghost predicate VideosAsConfigured(s: Session, d: Device, early: bool, calls: seq<Call>, videos: seq<int>) {
    && (forall i: nat :: LastConfigured(s, d, early, calls, i) ==> videos == VideoIds(calls[i].config))
    && ((forall i: nat :: !ConfiguresAt(s, d, early, calls, i)) ==> videos == s.videoStreams)
  }

  lemma VideosNext(s: Session, d: Device, early: bool, calls: seq<Call>, call: Call, all: seq<Call>,
                   videos: seq<int>, videos': seq<int>)
    requires VideosAsConfigured(s, d, early, calls, videos) && all == calls + [call]
    requires videos' == if Configures(DoAll(s, d, early, calls), early, call) then VideoIds(call.config) else videos
    ensures VideosAsConfigured(s, d, early, all, videos')
  {
    forall i: nat
      ensures LastConfigured(s, d, early, all, i) ==> videos' == VideoIds(all[i].config)
    {
      LastConfiguredNext(s, d, early, calls, call, i);
    }
    LastConfiguredNext(s, d, early, calls, call, 0);
  }

  lemma VideosAtFirst(s: Session, d: Device, early: bool, calls: seq<Call>)
    requires calls == []
    ensures VideosAsConfigured(s, d, early, calls, s.videoStreams)
  {
  }

  /** The batched streams, by looking back from the last call. */
  function ConfiguredVideos(s: Session, d: Device, early: bool, calls: seq<Call>): seq<int> {
    if calls == [] then s.videoStreams
    else
      var init, call := calls[..|calls| - 1], calls[|calls| - 1];
      if Configures(DoAll(s, d, early, init), early, call) then VideoIds(call.config)
      else ConfiguredVideos(s, d, early, init)
  }

  lemma {:induction false} ConfiguredVideosAre(s: Session, d: Device, early: bool, calls: seq<Call>, videos: seq<int>)
    requires videos == ConfiguredVideos(s, d, early, calls)
    ensures VideosAsConfigured(s, d, early, calls, videos)
    decreases |calls|
  {
    if calls == [] {
      VideosAtFirst(s, d, early, calls);
    } else {
      var init, call := calls[..|calls| - 1], calls[|calls| - 1];
      assert calls == init + [call];
      ConfiguredVideosAre(s, d, early, init, ConfiguredVideos(s, d, early, init));
      VideosNext(s, d, early, init, call, calls, ConfiguredVideos(s, d, early, init), videos);
    }
  }

  lemma {:induction false} VideosFrom(s: Session, d: Device, early: bool, calls: seq<Call>)
    ensures DoAll(s, d, early, calls).videoStreams == ConfiguredVideos(s, d, early, calls)
    decreases |calls|
  {
    if calls != [] {
      var init, call := calls[..|calls| - 1], calls[|calls| - 1];
      VideosFrom(s, d, early, init);
      DoLast(s, d, early, calls);
      AfterCall(DoAll(s, d, early, init), d, early, call);
    }
  }

  /** Over any calls on a new session, the batched streams are those of the last configuration that succeeded. */
  lemma BatchedStreamsAre(outcome: InitOutcome, d: Device, early: bool, calls: seq<Call>)
    ensures var s := DoAll(New(outcome), d, early, calls);
            && (forall i: nat :: LastConfigured(New(outcome), d, early, calls, i) ==>
                  s.videoStreams == VideoIds(calls[i].config))
            && ((forall i: nat :: !ConfiguresAt(New(outcome), d, early, calls, i)) ==> s.videoStreams == [])
  {
    VideosFrom(New(outcome), d, early, calls);
    ConfiguredVideosAre(New(outcome), d, early, calls, ConfiguredVideos(New(outcome), d, early, calls));
  }
}
