/**
 A camera session as a value: its lifecycle flags, stream caches and in-flight
 tables, and what each call of the session interface does to them.
 */
module CaptureSession {
  import opened CaptureTypes
  import opened Collections
  import opened StreamCaches
  import opened CaptureTables

  datatype Status = OK | IllegalArgument | InternalError | CameraDisconnected

  datatype Session = Session(
    initFail: bool,
    disconnected: bool,
    closed: bool,
    halCloses: nat,             // how often the HAL device was closed
    firstRequest: bool,
    videoStreams: seq<int>,     // the streams handed to the batcher
    caches: Caches,
    tables: Tables)

  /** A buffer of a request, with what the importer will say of its handle and fence. */
  datatype BufferIn = BufferIn(streamId: int, bufferId: nat, isNull: bool, importOk: bool, fenceOk: bool)

  /** One physical camera's settings: whether they convert, and whether they are null. */
  datatype PhysicalSettings = PhysicalSettings(converted: bool, isNull: bool)

  datatype HalVerdict = Accepted | BadValue | Failed

  /** A capture request, with the HAL's verdict on it. */
  datatype CaptureRequest = CaptureRequest(
    frame: nat,
    converted: bool,
    settings: Option<Settings>,
    input: BufferIn,
    outputs: seq<BufferIn>,
    physical: seq<PhysicalSettings>,
    verdict: HalVerdict)
  {
    predicate HasInput() {
      input.streamId != -1 && input.bufferId != NO_BUFFER
    }

    function StreamIds(): seq<int> {
      seq(|outputs|, i requires 0 <= i < |outputs| => outputs[i].streamId)
    }

    /** The streams looked up when the request is recorded, the input's first. */
    function Named(): seq<int> {
      (if HasInput() then [input.streamId] else []) + StreamIds()
    }

    /** The request as the in-flight tables see it. */
    function Entry(): Request {
      Request(frame, settings, if HasInput() then Some(input.streamId) else None, StreamIds())
    }

    function Buffers(): seq<BufferIn> {
      outputs + if HasInput() then [input] else []
    }
  }

  function InitStatus(s: Session): Status {
    if s.initFail then InternalError
    else if s.disconnected then CameraDisconnected
    else if s.closed then InternalError
    else OK
  }

  // ---- requests ----

  function ImportStatus(r: Imported): Status {
    match r
    case Slot(_) => OK
    case EmptySlot => OK
    case NullHandle => IllegalArgument
    case BadHandle => InternalError
  }

  /** Import a request's buffers in order, stopping at the first failure; the input buffer must not be empty. */
  function ImportBuffers(c: Caches, bufs: seq<BufferIn>, outputs: nat): (Status, Caches) {
    if bufs == [] then (OK, c)
    else
      var (st, c1) := ImportBuffers(c, bufs[..|bufs| - 1], outputs);
      if st != OK then (st, c1)
      else
        var b := bufs[|bufs| - 1];
        var (r, c2) := Import(c1, b.streamId, b.bufferId, b.isNull, b.importOk, |bufs| <= outputs);
        (ImportStatus(r), c2)
  }

  predicate FencesOk(bufs: seq<BufferIn>) {
    forall i :: 0 <= i < |bufs| ==> bufs[i].fenceOk
  }

  /** Whether every physical camera's settings convert, and are present when this is the first request. */
  predicate PhysicalOk(ps: seq<PhysicalSettings>, first: bool) {
    forall i :: 0 <= i < |ps| ==> ps[i].converted && !(first && ps[i].isNull)
  }

  /** importRequest. */
  function ImportRequest(s: Session, r: CaptureRequest): (Status, Session) {
    var (st, c) := ImportBuffers(s.caches, r.Buffers(), |r.outputs|);
    (if st != OK then st else if !FencesOk(r.Buffers()) then InternalError else OK, s.(caches := c))
  }

  /** The checks before anything is imported. */
  function Precheck(s: Session, r: CaptureRequest): Status {
    if InitStatus(s) != OK then InitStatus(s)
    else if !r.converted || (s.firstRequest && r.settings.None?) || r.outputs == [] then IllegalArgument
    else OK
  }

  /** Recording the imported request in the tables. */
  function Record(s: Session, d: Device, r: CaptureRequest): Session {
    s.(caches := TouchAll(s.caches, r.Named()), tables := Admit(s.tables, d, r.Entry()))
  }

  /** From there to the HAL's verdict. */
  function Submit(s: Session, d: Device, r: CaptureRequest): (Status, Session) {
    var s1 := Record(s, d, r);
    if !PhysicalOk(r.physical, s.firstRequest) then (IllegalArgument, s1)
    else if r.verdict.Accepted? then (OK, s1.(firstRequest := false))
    else
      (if r.verdict.BadValue? then IllegalArgument else InternalError,
       s1.(tables := RollBack(s1.tables, d, r.Entry())))
  }

  function ProcessOne(s: Session, d: Device, r: CaptureRequest): (Status, Session) {
    if Precheck(s, r) != OK then (Precheck(s, r), s)
    else
      var (st, s1) := ImportRequest(s, r);
      if st != OK then (st, s1) else Submit(s1, d, r)
  }

  /** One request more, unless one has failed. */
  function ProcessNext(before: (Status, nat, Session), d: Device, r: CaptureRequest): (Status, nat, Session) {
    if before.0 != OK then before
    else
      var (st, s) := ProcessOne(before.2, d, r);
      (st, if st == OK then before.1 + 1 else before.1, s)
  }

  /** Process requests in order until one fails: its status, how many went through, the session after. */
  function ProcessFrom(s: Session, d: Device, reqs: seq<CaptureRequest>): (Status, nat, Session) {
    if reqs == [] then (OK, 0, s) else ProcessNext(ProcessFrom(s, d, reqs[..|reqs| - 1]), d, reqs[|reqs| - 1])
  }

  function Process(s: Session, d: Device, reqs: seq<CaptureRequest>, removals: seq<(int, nat)>): (Status, nat, Session)
  {
    ProcessFrom(s.(caches := RemoveAll(s.caches, removals)), d, reqs)
  }

  // ---- configuration, closing ----

  predicate Idle(t: Tables) {
    t.inflight == {} && t.overrides == map[] && t.boost == map[]
  }

  const OUTPUT: int := 0
  const VIDEO_ENCODER: int := 0x10000

  /** Whether the usage has the video encoder bit. */
  predicate IsVideo(r: StreamRequest) {
    r.info.streamType == OUTPUT && (r.info.usage / VIDEO_ENCODER) % 2 == 1
  }

  function VideoIds(reqs: seq<StreamRequest>): seq<int> {
    if reqs == [] then []
    else VideoIds(reqs[..|reqs| - 1]) + if IsVideo(reqs[|reqs| - 1]) then [reqs[|reqs| - 1].id] else []
  }

  datatype HalConfig = ConfigOk | ConfigInvalid | ConfigFailed

  function ConfigureStreams(s: Session, reqs: seq<StreamRequest>, early: bool, hal: HalConfig): (Status, Session) {
    if !Idle(s.tables) then (InternalError, s)
    else if InitStatus(s) != OK then (InitStatus(s), s)
    else
      var s1 := s.(caches := Configure(s.caches, reqs, early, hal.ConfigOk?));
      if !PreProcess(s.caches, reqs, early).0 then (InternalError, s1)
      else
        match hal
        case ConfigOk => (OK, s1.(firstRequest := true, videoStreams := VideoIds(reqs)))
        case ConfigInvalid => (IllegalArgument, s1)
        case ConfigFailed => (InternalError, s1)
  }

  function Close(s: Session): Session {
    if s.closed then s else s.(closed := true, halCloses := s.halCloses + 1, caches := FreeAll(s.caches))
  }

  /** The camera went away: the HAL device is closed, the cached buffers are not touched. */
  function Disconnect(s: Session): Session {
    if s.closed then s.(disconnected := true)
    else s.(disconnected := true, closed := true, halCloses := s.halCloses + 1)
  }

  datatype InitOutcome = InitOk | HalInitFailed | QueueFailed

  /** A new session on an opened HAL device. A HAL that fails to initialize is closed at once. */
  function New(outcome: InitOutcome): Session {
    Session(!outcome.InitOk?, false, outcome.HalInitFailed?, if outcome.HalInitFailed? then 1 else 0, false, [],
            Caches(map[], map[], map[], 0, multiset{}), EmptyTables)
  }

  // ---- what every call keeps ----

  /**
   Imported handles are accounted for; streams and caches are about the same ids
   while the session is open; a session closed without a disconnect has no live
   handle; the HAL device was closed once if the session is closed, else never.
   */
  ghost predicate SessionInv(s: Session) {
    && Accounted(s.caches)
    && (!s.closed ==> KeysAgree(s.caches))
    && (s.closed && !s.disconnected ==> Live(s.caches) == {})
    && (s.disconnected ==> s.closed)
    && s.halCloses == (if s.closed then 1 else 0)
  }

  lemma NewInv(outcome: InitOutcome)
    ensures SessionInv(New(outcome))
  {
    EmptyAccounts(New(outcome).caches);
  }

  lemma {:induction false} ImportBuffersAccounts(c: Caches, bufs: seq<BufferIn>, outputs: nat)
    requires Accounted(c)
    ensures Accounted(ImportBuffers(c, bufs, outputs).1) && ImportBuffers(c, bufs, outputs).1.streams == c.streams
    ensures (forall i :: 0 <= i < |bufs| ==> bufs[i].streamId in c.streams) && KeysAgree(c)
            ==> KeysAgree(ImportBuffers(c, bufs, outputs).1)
    decreases |bufs|
  {
    if bufs != [] {
      var init, b := bufs[..|bufs| - 1], bufs[|bufs| - 1];
      ImportBuffersAccounts(c, init, outputs);
      var c1 := ImportBuffers(c, init, outputs).1;
      ImportAccounts(c1, b.streamId, b.bufferId, b.isNull, b.importOk, |bufs| <= outputs);
    }
  }

  /** Requests name configured streams. */
  ghost predicate NamesStreams(s: Session, r: CaptureRequest) {
    forall i :: 0 <= i < |r.Buffers()| ==> r.Buffers()[i].streamId in s.caches.streams
  }

  lemma ProcessOneInv(s: Session, d: Device, r: CaptureRequest)
    requires SessionInv(s) && NamesStreams(s, r)
    ensures SessionInv(ProcessOne(s, d, r).1)
    ensures ProcessOne(s, d, r).1.caches.streams == s.caches.streams
  {
    if Precheck(s, r) == OK {
      ImportBuffersAccounts(s.caches, r.Buffers(), |r.outputs|);
      if ImportRequest(s, r).0 == OK {
        SubmitInv(ImportRequest(s, r).1, d, r);
      }
    }
  }

  lemma SubmitInv(s: Session, d: Device, r: CaptureRequest)
    requires SessionInv(s) && NamesStreams(s, r)
    ensures SessionInv(Submit(s, d, r).1) && Submit(s, d, r).1.caches.streams == s.caches.streams
  {
    NamedAreBuffers(r);
    TouchedInv(s, r.Named(), Submit(s, d, r).1);
  }

  lemma TouchedInv(s: Session, ids: seq<int>, s': Session)
    requires SessionInv(s) && s'.caches == TouchAll(s.caches, ids) && forall id :: id in ids ==> id in s.caches.streams
    requires s'.closed == s.closed && s'.disconnected == s.disconnected && s'.halCloses == s.halCloses
    ensures SessionInv(s') && s'.caches.streams == s.caches.streams
  {
    TouchKnown(s.caches, ids);
  }

  lemma NamedAreBuffers(r: CaptureRequest)
    ensures forall id :: id in r.Named() <==> exists i :: 0 <= i < |r.Buffers()| && r.Buffers()[i].streamId == id
  {
    var bufs, named := r.Buffers(), r.Named();
    forall i | 0 <= i < |bufs|
      ensures bufs[i].streamId in named
    {
      if i < |r.outputs| {
        assert r.StreamIds()[i] == bufs[i].streamId;
        assert r.StreamIds()[i] in named;
      }
    }
    forall id | id in named
      ensures exists i :: 0 <= i < |bufs| && bufs[i].streamId == id
    {
      if r.HasInput() && id == r.input.streamId {
        assert bufs[|r.outputs|].streamId == id;
      } else {
        var j :| 0 <= j < |r.outputs| && r.StreamIds()[j] == id;
        assert bufs[j].streamId == id;
      }
    }
  }

  /** Touching streams that are all there changes neither streams nor buffer caches. */
  lemma TouchKnown(c: Caches, ids: seq<int>)
    requires forall id :: id in ids ==> id in c.streams
    ensures TouchAll(c, ids).streams == c.streams
    ensures Accounted(c) ==> Accounted(TouchAll(c, ids)) && Live(TouchAll(c, ids)) == Live(c)
    ensures KeysAgree(c) ==> KeysAgree(TouchAll(c, ids))
  {
    TouchAllIs(c, ids);
    if Accounted(c) {
      SameSlotsAccount(c, TouchAll(c, ids));
    }
  }

  /** A buffer the import caches, rather than passing on as empty. */
  predicate IsCached(b: BufferIn) {
    !(b.isNull && b.bufferId == NO_BUFFER)
  }

  /** Importing all of the buffers enters exactly the streams of those that are cached. */
  lemma {:induction false} ImportedKeys(c: Caches, bufs: seq<BufferIn>, outputs: nat)
    requires ImportBuffers(c, bufs, outputs).0 == OK
    ensures ImportBuffers(c, bufs, outputs).1.streams == c.streams
    ensures forall id :: id in ImportBuffers(c, bufs, outputs).1.buffers <==>
              id in c.buffers || exists i :: 0 <= i < |bufs| && IsCached(bufs[i]) && bufs[i].streamId == id
    decreases |bufs|
  {
    if bufs != [] {
      var init, b := bufs[..|bufs| - 1], bufs[|bufs| - 1];
      ImportedKeys(c, init, outputs);
      var c1 := ImportBuffers(c, init, outputs).1;
      var c2 := ImportBuffers(c, bufs, outputs).1;
      assert forall id :: id in c2.buffers <==> id in c1.buffers || (IsCached(b) && b.streamId == id);
      assert forall i :: 0 <= i < |init| ==> bufs[i] == init[i];
    }
  }

  /**
   A request that gets recorded keeps streams and caches about the same ids exactly
   when every stream it names is configured or gets a cached buffer from it: the
   unknown streams enter both maps then, and only the stream map otherwise.
   */
  lemma RecordedKeysIff(s: Session, d: Device, r: CaptureRequest)
    requires KeysAgree(s.caches) && Records(s, r)
    ensures KeysAgree(ProcessOne(s, d, r).1.caches) <==>
            forall i :: 0 <= i < |r.Buffers()| ==>
              var id := r.Buffers()[i].streamId;
              id in s.caches.streams
              || exists j :: 0 <= j < |r.Buffers()| && IsCached(r.Buffers()[j]) && r.Buffers()[j].streamId == id
  {
    var c1 := ImportRequest(s, r).1.caches;
    ImportedKeys(s.caches, r.Buffers(), |r.outputs|);
    NamedAreBuffers(r);
    TouchAllIs(c1, r.Named());
    var c2 := ProcessOne(s, d, r).1.caches;
    assert c2 == TouchAll(c1, r.Named());
    KeysAgreeIff(c2);
  }

  lemma KeysAgreeIff(c: Caches)
    ensures KeysAgree(c) <==> forall id :: id in c.streams <==> id in c.buffers
  {
    if forall id :: id in c.streams <==> id in c.buffers {
      assert forall id :: id in c.streams.Keys <==> id in c.buffers.Keys;
    }
  }

  lemma {:induction false} ProcessFromInv(s: Session, d: Device, reqs: seq<CaptureRequest>)
    requires SessionInv(s) && forall i :: 0 <= i < |reqs| ==> NamesStreams(s, reqs[i])
    ensures SessionInv(ProcessFrom(s, d, reqs).2)
    ensures ProcessFrom(s, d, reqs).2.caches.streams == s.caches.streams
    decreases |reqs|
  {
    if reqs != [] {
      var init := reqs[..|reqs| - 1];
      ProcessFromInv(s, d, init);
      var (st, n, s1) := ProcessFrom(s, d, init);
      if st == OK {
        assert NamesStreams(s1, reqs[|reqs| - 1]);
        ProcessOneInv(s1, d, reqs[|reqs| - 1]);
      }
    }
  }

  lemma ConfigureInv(s: Session, reqs: seq<StreamRequest>, early: bool, hal: HalConfig)
    requires SessionInv(s)
    ensures SessionInv(ConfigureStreams(s, reqs, early, hal).1)
  {
    if Idle(s.tables) && InitStatus(s) == OK {
      ConfigureAccounts(s.caches, reqs, early, hal.ConfigOk?);
      ConfigureKeepsKeys(s.caches, reqs, early, hal.ConfigOk?);
    }
  }

  lemma CloseInv(s: Session)
    requires SessionInv(s)
    ensures SessionInv(Close(s))
  {
    FreeAllAccounts(s.caches);
  }

  // ---- runs of calls ----

  datatype Call =
    | CallConfigure(config: seq<StreamRequest>, hal: HalConfig)
    | CallProcess(reqs: seq<CaptureRequest>, removals: seq<(int, nat)>)
    | CallResult(res: HalResult)
    | CallError(frame: nat, code: ErrorCode)
    | CallClose
    | CallDisconnect

  function Do(s: Session, d: Device, early: bool, call: Call): Session {
    match call
    case CallConfigure(reqs, hal) => ConfigureStreams(s, reqs, early, hal).1
    case CallProcess(reqs, removals) => Process(s, d, reqs, removals).2
    case CallResult(r) => s.(tables := Step(s.tables, d, Result(r)))
    case CallError(f, code) => s.(tables := Errored(s.tables, f, code))
    case CallClose => Close(s)
    case CallDisconnect => Disconnect(s)
  }

  ghost predicate GoodCall(s: Session, call: Call) {
    call.CallProcess? ==> forall i :: 0 <= i < |call.reqs| ==> NamesStreams(s, call.reqs[i])
  }

  ghost predicate GoodRun(s: Session, d: Device, early: bool, calls: seq<Call>)
    decreases |calls|
  {
    calls == [] || (GoodCall(s, calls[0]) && GoodRun(Do(s, d, early, calls[0]), d, early, calls[1..]))
  }

  function DoAll(s: Session, d: Device, early: bool, calls: seq<Call>): Session
    decreases |calls|
  {
    if calls == [] then s else DoAll(Do(s, d, early, calls[0]), d, early, calls[1..])
  }

  lemma CallInv(s: Session, d: Device, early: bool, call: Call)
    requires SessionInv(s) && GoodCall(s, call)
    ensures SessionInv(Do(s, d, early, call))
  {
    match call
    case CallConfigure(reqs, hal) => ConfigureInv(s, reqs, early, hal);
    case CallProcess(reqs, removals) =>
      RemoveAllAccounts(s.caches, removals);
      var s1 := s.(caches := RemoveAll(s.caches, removals));
      LiveShrinks(s.caches, removals);
      forall i | 0 <= i < |reqs|
        ensures NamesStreams(s1, reqs[i])
      {
        assert NamesStreams(s, reqs[i]);
      }
      ProcessFromInv(s1, d, reqs);
    case CallClose => CloseInv(s);
    case _ =>
  }

  lemma {:induction false} LiveShrinks(c: Caches, removals: seq<(int, nat)>)
    ensures Live(RemoveAll(c, removals)) <= Live(c)
    decreases |removals|
  {
    if removals != [] {
      LiveShrinks(c, removals[..|removals| - 1]);
    }
  }

  /**
   Handle accounting over whole runs: starting from any new session, after any run
   of calls, every handle imported and not freed is in the caches, none was freed
   twice, a session closed without a disconnect has none left, and the HAL device
   has been closed exactly once if the session is closed and never otherwise.
   */
  lemma {:induction false} RunAccounts(s: Session, d: Device, early: bool, calls: seq<Call>)
    requires SessionInv(s) && GoodRun(s, d, early, calls)
    ensures SessionInv(DoAll(s, d, early, calls))
    decreases |calls|
  {
    if calls != [] {
      CallInv(s, d, early, calls[0]);
      RunAccounts(Do(s, d, early, calls[0]), d, early, calls[1..]);
    }
  }

  // ---- what a disconnect leaves ----

  /** The client removes this buffer from the caches in one of the calls. */
  predicate Removes(calls: seq<Call>, id: int, b: nat) {
    exists i :: 0 <= i < |calls| && calls[i].CallProcess? && (id, b) in calls[i].removals
  }

  lemma {:induction false} RemovalsCached(c: Caches, removals: seq<(int, nat)>, id: int, b: nat, h: Handle)
    ensures Cached(RemoveAll(c, removals), id, b, h) <==> Cached(c, id, b, h) && (id, b) !in removals
    decreases |removals|
  {
    if removals != [] {
      var init, last := removals[..|removals| - 1], removals[|removals| - 1];
      RemovalsCached(c, init, id, b, h);
      assert (id, b) in removals <==> (id, b) in init || last == (id, b);
    }
  }

  /** A closed session takes no request. */
  lemma {:induction false} ClosedTakesNone(s: Session, d: Device, reqs: seq<CaptureRequest>)
    requires s.closed
    ensures ProcessFrom(s, d, reqs).2 == s
    decreases |reqs|
  {
    if reqs != [] {
      ClosedTakesNone(s, d, reqs[..|reqs| - 1]);
    }
  }

  lemma ClosedCallCached(s: Session, d: Device, early: bool, call: Call, id: int, b: nat, h: Handle)
    requires s.closed
    ensures Do(s, d, early, call).closed
    ensures Cached(Do(s, d, early, call).caches, id, b, h) <==>
            Cached(s.caches, id, b, h) && !(call.CallProcess? && (id, b) in call.removals)
  {
    match call
    case CallProcess(reqs, removals) =>
      ClosedTakesNone(s.(caches := RemoveAll(s.caches, removals)), d, reqs);
      RemovalsCached(s.caches, removals, id, b, h);
    case _ =>
  }

  /** Once a session is closed, only the client's own removals still empty its caches, and nothing fills them. */
  lemma {:induction false} ClosedRunCached(s: Session, d: Device, early: bool, calls: seq<Call>,
                                           id: int, b: nat, h: Handle)
    requires s.closed
    ensures Cached(DoAll(s, d, early, calls).caches, id, b, h) <==> Cached(s.caches, id, b, h) && !Removes(calls, id, b)
    decreases |calls|
  {
    if calls != [] {
      var rest := calls[1..];
      ClosedCallCached(s, d, early, calls[0], id, b, h);
      ClosedRunCached(Do(s, d, early, calls[0]), d, early, rest, id, b, h);
      var first := calls[0].CallProcess? && (id, b) in calls[0].removals;
      assert Removes(calls, id, b) <==> first || Removes(rest, id, b) by {
        if Removes(rest, id, b) {
          var i :| 0 <= i < |rest| && rest[i].CallProcess? && (id, b) in rest[i].removals;
          assert calls[i + 1] == rest[i];
        }
        if Removes(calls, id, b) {
          var i :| 0 <= i < |calls| && calls[i].CallProcess? && (id, b) in calls[i].removals;
          assert i > 0 ==> rest[i - 1] == calls[i];
        }
      }
    }
  }

  /**
   What a disconnect keeps. After any calls that follow it, closes among them, a
   handle is live exactly when it was cached at the disconnect in a slot that none of
   those calls removed.
   */
  lemma DisconnectKeepsHandles(s: Session, d: Device, early: bool, calls: seq<Call>, h: Handle)
    requires !s.closed
    ensures h in Live(DoAll(Disconnect(s), d, early, calls).caches) <==>
            exists id, b :: Cached(s.caches, id, b, h) && !Removes(calls, id, b)
  {
    var gone := Disconnect(s);
    var last := DoAll(gone, d, early, calls);
    LiveIff(last.caches, h);
    forall id, b
      ensures Cached(last.caches, id, b, h) <==> Cached(s.caches, id, b, h) && !Removes(calls, id, b)
    {
      ClosedRunCached(gone, d, early, calls, id, b, h);
    }
  }

  /**
   When nothing is left. However an open session is ended and whatever calls follow,
   it is left without a live handle if and only if it was ended by a close, or the
   calls after the disconnect removed every buffer cached at that point.
   */
  lemma CloseFreesIff(s: Session, d: Device, early: bool, end: Call, calls: seq<Call>)
    requires SessionInv(s) && !s.closed && (end.CallClose? || end.CallDisconnect?)
    ensures Live(DoAll(Do(s, d, early, end), d, early, calls).caches) == {} <==>
            end.CallClose? || forall id, b, h :: Cached(s.caches, id, b, h) ==> Removes(calls, id, b)
  {
    var ended := Do(s, d, early, end);
    var last := DoAll(ended, d, early, calls);
    if end.CallClose? {
      FreeAllAccounts(s.caches);
      forall h
        ensures h !in Live(last.caches)
      {
        NothingComesBack(ended, d, early, calls, h);
      }
    } else {
      forall h: Handle
        ensures h in Live(last.caches) <==> exists id, b :: Cached(s.caches, id, b, h) && !Removes(calls, id, b)
      {
        DisconnectKeepsHandles(s, d, early, calls, h);
      }
      forall id, b, h | Cached(s.caches, id, b, h) && !Removes(calls, id, b)
        ensures h in Live(last.caches)
      {
      }
    }
  }

  lemma NothingComesBack(s: Session, d: Device, early: bool, calls: seq<Call>, h: Handle)
    requires s.closed && Live(s.caches) == {}
    ensures h !in Live(DoAll(s, d, early, calls).caches)
  {
    var last := DoAll(s, d, early, calls);
    LiveIff(s.caches, h);
    LiveIff(last.caches, h);
    forall id, b
      ensures !Cached(last.caches, id, b, h)
    {
      ClosedRunCached(s, d, early, calls, id, b, h);
    }
  }

  /** Handle 0 cached as buffer 5 of stream 7: a close after a disconnect leaves it, a removal in between frees it. */
  lemma DisconnectedExamples(s: Session, d: Device, early: bool)
    requires !s.closed && s.caches.buffers == map[7 := map[5 := 0]]
    ensures 0 in Live(DoAll(Disconnect(s), d, early, [CallClose]).caches)
    ensures Live(DoAll(Disconnect(s), d, early, [CallProcess([], [(7, 5)]), CallClose]).caches) == {}
  {
    var removal := [CallProcess([], [(7, 5)]), CallClose];
    assert Cached(s.caches, 7, 5, 0);
    DisconnectKeepsHandles(s, d, early, [CallClose], 0);
    assert !Removes([CallClose], 7, 5);
    forall h
      ensures h !in Live(DoAll(Disconnect(s), d, early, removal).caches)
    {
      DisconnectKeepsHandles(s, d, early, removal, h);
      assert removal[0].CallProcess? && (7, 5) in removal[0].removals;
      assert Removes(removal, 7, 5);
    }
  }

  // ---- requests and the in-flight tables ----

  /** The request gets past the import, so its pairs are recorded. */
  predicate Records(s: Session, r: CaptureRequest) {
    Precheck(s, r) == OK && ImportRequest(s, r).0 == OK
  }

  /** A recorded request whose physical settings are bad: it returns without going to the HAL. */
  predicate Abandons(s: Session, r: CaptureRequest) {
    Records(s, r) && !PhysicalOk(r.physical, s.firstRequest)
  }

  /** The frame is new: none of its pairs is in flight and it has no override entry. */
  predicate FreshRequest(t: Tables, r: CaptureRequest) {
    RequestPairs(r.Entry()) !! t.inflight && r.frame !in t.overrides
  }

  /**
   A request that goes through adds exactly its own pairs. One that fails leaves
   the tables exactly as they were, unless -- and exactly when -- it fails on its
   physical cameras' settings, which leaves its pairs behind.
   */
  lemma FailureLeavesNothingIff(s: Session, d: Device, r: CaptureRequest)
    requires FreshRequest(s.tables, r)
    ensures var (st, s') := ProcessOne(s, d, r);
            && (st == OK ==> s'.tables.inflight == s.tables.inflight + RequestPairs(r.Entry()))
            && (st != OK ==> (s'.tables == s.tables <==> !Abandons(s, r)))
            && (st != OK && Abandons(s, r) ==> s'.tables.inflight == s.tables.inflight + RequestPairs(r.Entry()))
  {
    var (st, s') := ProcessOne(s, d, r);
    if Records(s, r) {
      assert r.Entry().outputs[0] == r.outputs[0].streamId;
      assert (r.outputs[0].streamId, r.frame) in RequestPairs(r.Entry());
      if st != OK && !Abandons(s, r) {
        assert s'.tables.inflight == s.tables.inflight;
        assert s'.tables.overrides == s.tables.overrides;
      }
    }
  }

  /** What processing a request adds to the history of the tables. */
  function EventsOf(s: Session, r: CaptureRequest): seq<TableEvent> {
    if !Records(s, r) then []
    else if Abandons(s, r) || r.verdict.Accepted? then [Admitted(r.Entry())]
    else [Admitted(r.Entry()), Rejected(r.Entry())]
  }

  lemma ProcessOneHistory(s: Session, d: Device, r: CaptureRequest, h: seq<TableEvent>)
    requires s.tables == After(d, h)
    ensures ProcessOne(s, d, r).1.tables == After(d, h + EventsOf(s, r))
  {
    var e := r.Entry();
    AfterAppend(d, h, Admitted(e));
    AfterAppend(d, h + [Admitted(e)], Rejected(e));
    assert h + [Admitted(e)] + [Rejected(e)] == h + [Admitted(e), Rejected(e)];
    assert h + [] == h;
  }

  function AllPairs(reqs: seq<CaptureRequest>): set<Pair> {
    if reqs == [] then {} else AllPairs(reqs[..|reqs| - 1]) + RequestPairs(reqs[|reqs| - 1].Entry())
  }

  lemma {:induction false} InAllPairs(reqs: seq<CaptureRequest>, p: Pair)
    ensures p in AllPairs(reqs) <==> exists i :: 0 <= i < |reqs| && p in RequestPairs(reqs[i].Entry())
    decreases |reqs|
  {
    if reqs != [] {
      InAllPairs(reqs[..|reqs| - 1], p);
    }
  }

  /** New frames: distinct pairs, none in flight, no override entries. */
  ghost predicate FreshRequests(t: Tables, reqs: seq<CaptureRequest>) {
    && (forall i :: 0 <= i < |reqs| ==> FreshRequest(t, reqs[i]))
    && (forall i, j :: 0 <= i < j < |reqs| ==>
          reqs[i].frame != reqs[j].frame && RequestPairs(reqs[i].Entry()) !! RequestPairs(reqs[j].Entry()))
  }

  /** The request that ended the processing, coming to session `s`, left its pairs behind. */
  predicate LeavesBehind(s: Session, reqs: seq<CaptureRequest>, n: nat) {
    n < |reqs| && Abandons(s, reqs[n])
  }

  /**
   Exactly the first n of `reqs` were admitted, `at` being the session they led to,
   and `st` is OK exactly when that is all of them. Beyond their pairs the tables have
   those of request n exactly when it was abandoned.
   */
  ghost predicate Counted(s: Session, reqs: seq<CaptureRequest>, st: Status, n: nat, at: Session, s': Session) {
    && n <= |reqs| && (st == OK <==> n == |reqs|)
    && s'.tables.inflight == s.tables.inflight + AllPairs(reqs[..n])
                             + (if LeavesBehind(at, reqs, n) then RequestPairs(reqs[n].Entry()) else {})
    && (forall f :: f in s'.tables.overrides ==>
          f in s.tables.overrides || (exists i :: 0 <= i < n && reqs[i].frame == f)
          || (LeavesBehind(at, reqs, n) && reqs[n].frame == f))
  }

  lemma CountOneMore(s: Session, d: Device, reqs: seq<CaptureRequest>, s1: Session)
    requires reqs != [] && FreshRequests(s.tables, reqs)
    requires Counted(s, reqs[..|reqs| - 1], OK, |reqs| - 1, s1, s1)
    ensures var (st, s2) := ProcessOne(s1, d, reqs[|reqs| - 1]);
            if st == OK then Counted(s, reqs, st, |reqs|, s2, s2) else Counted(s, reqs, st, |reqs| - 1, s1, s2)
  {
    var init, r := reqs[..|reqs| - 1], reqs[|reqs| - 1];
    assert init[..|reqs| - 1] == init && reqs[..|reqs|] == reqs;
    assert s1.tables.inflight == s.tables.inflight + AllPairs(init);
    StillFresh(s, s1, reqs);
    FailureLeavesNothingIff(s1, d, r);
    OverrideOfOne(s1, d, r);
  }

  lemma CountNext(s: Session, d: Device, reqs: seq<CaptureRequest>, before: (Status, nat, Session), at: Session,
                  after: (Status, nat, Session))
    requires reqs != [] && FreshRequests(s.tables, reqs)
    requires Counted(s, reqs[..|reqs| - 1], before.0, before.1, at, before.2) && (before.0 == OK ==> at == before.2)
    requires after == ProcessNext(before, d, reqs[|reqs| - 1])
    ensures Counted(s, reqs, after.0, after.1, if after.0 == OK then after.2 else at, after.2)
    ensures after.0 != OK ==> after.1 == before.1
  {
    if before.0 == OK {
      CountOneMore(s, d, reqs, at);
    } else {
      assert reqs[..|reqs| - 1][..before.1] == reqs[..before.1];
    }
  }

  lemma {:induction false} CountedFrom(s: Session, d: Device, reqs: seq<CaptureRequest>,
                                       done: (Status, nat, Session)) returns (at: Session)
    requires FreshRequests(s.tables, reqs) && ProcessFrom(s, d, reqs) == done
    ensures done.1 <= |reqs| && ProcessFrom(s, d, reqs[..done.1]) == (OK, done.1, at)
    ensures Counted(s, reqs, done.0, done.1, at, done.2) && (done.0 == OK ==> at == done.2)
    decreases |reqs|
  {
    at := s;
    if reqs != [] {
      var init := reqs[..|reqs| - 1];
      var before := ProcessFrom(s, d, init);
      at := CountedFrom(s, d, init, before);
      CountNext(s, d, reqs, before, at, done);
      if done.0 == OK {
        at := done.2;
        assert reqs[..|reqs|] == reqs;
      } else {
        assert init[..done.1] == reqs[..done.1];
      }
    }
  }

  /**
   processCaptureRequest returning n means that exactly the first n requests were
   admitted, and it reports OK exactly when that is all of them. Beyond the pairs of
   those n the tables gained nothing, or the pairs of request n exactly when that one
   was abandoned on its physical cameras' settings.
   */
  lemma CountIsAdmitted(s: Session, d: Device, reqs: seq<CaptureRequest>)
    requires FreshRequests(s.tables, reqs)
    ensures var (st, n, s') := ProcessFrom(s, d, reqs);
            && n <= |reqs| && (st == OK <==> n == |reqs|)
            && ProcessFrom(s, d, reqs[..n]).0 == OK && ProcessFrom(s, d, reqs[..n]).1 == n
            && s'.tables.inflight ==
               s.tables.inflight + AllPairs(reqs[..n])
               + (if n < |reqs| && Abandons(ProcessFrom(s, d, reqs[..n]).2, reqs[n]) then RequestPairs(reqs[n].Entry())
                  else {})
            && Counted(s, reqs, st, n, ProcessFrom(s, d, reqs[..n]).2, s')
  {
    var _ := CountedFrom(s, d, reqs, ProcessFrom(s, d, reqs));
  }

  /** The last request of a fresh batch is still fresh after the others were admitted. */
  lemma StillFresh(s: Session, s1: Session, reqs: seq<CaptureRequest>)
    requires reqs != [] && FreshRequests(s.tables, reqs)
    requires s1.tables.inflight == s.tables.inflight + AllPairs(reqs[..|reqs| - 1])
    requires forall f :: f in s1.tables.overrides ==>
               f in s.tables.overrides || exists i :: 0 <= i < |reqs| - 1 && reqs[i].frame == f
    ensures FreshRequest(s1.tables, reqs[|reqs| - 1])
  {
    var r := reqs[|reqs| - 1];
    forall p | p in RequestPairs(r.Entry())
      ensures p !in s1.tables.inflight
    {
      InAllPairs(reqs[..|reqs| - 1], p);
    }
  }

  lemma OverrideOfOne(s: Session, d: Device, r: CaptureRequest)
    ensures var (st, s') := ProcessOne(s, d, r);
            forall f :: f in s'.tables.overrides ==>
              f in s.tables.overrides || (f == r.frame && (st == OK || Abandons(s, r)))
  {
  }

  /** Frame 3 for stream 7, with physical camera settings that do not convert. */
  function BadPhysicalRequest(): CaptureRequest {
    CaptureRequest(3, true, Some(map[]), BufferIn(-1, NO_BUFFER, true, true, true), [BufferIn(7, 1, false, true, true)],
                   [PhysicalSettings(false, false)], Accepted)
  }

  lemma BadPhysicalAbandoned(s: Session, d: Device, r: CaptureRequest)
    requires InitStatus(s) == OK && r == BadPhysicalRequest()
    ensures Abandons(s, r) && RequestPairs(r.Entry()) == {(7, 3)}
    ensures ProcessOne(s, d, r).0 == IllegalArgument
  {
    assert r.Buffers() == r.outputs && r.Buffers()[..0] == [];
    assert ImportBuffers(s.caches, [], 1) == (OK, s.caches);
    assert !r.physical[0].converted;
    assert r.Entry().outputs == [7] && r.Entry().outputs[0] == 7;
  }

  /**
   A request abandoned on its physical settings: it is counted out and reported as an
   illegal argument, yet its buffer stays in flight, so the session can no longer be configured.
   */
  lemma AbandonedExample(s: Session, d: Device, early: bool, hal: HalConfig)
    requires InitStatus(s) == OK && s.tables == EmptyTables
    ensures var (st, n, s') := ProcessFrom(s, d, [BadPhysicalRequest()]);
            && st == IllegalArgument && n == 0
            && s'.tables.inflight == {(7, 3)}
            && ConfigureStreams(s', [], early, hal) == (InternalError, s')
  {
    var r := BadPhysicalRequest();
    BadPhysicalAbandoned(s, d, r);
    assert FreshRequest(s.tables, r);
    FailureLeavesNothingIff(s, d, r);
    assert [r][..0] == [] && ProcessFrom(s, d, []) == (OK, 0, s);
  }

  // ---- a session's calls as a history of its tables ----

  /** What processing requests adds to the history of the tables. */
  function ProcessEvents(s: Session, d: Device, reqs: seq<CaptureRequest>): seq<TableEvent> {
    if reqs == [] then []
    else
      var init := reqs[..|reqs| - 1];
      ProcessEvents(s, d, init)
      + if ProcessFrom(s, d, init).0 == OK then EventsOf(ProcessFrom(s, d, init).2, reqs[|reqs| - 1]) else []
  }

  function CallEvents(s: Session, d: Device, call: Call): seq<TableEvent> {
    match call
    case CallProcess(reqs, removals) => ProcessEvents(s.(caches := RemoveAll(s.caches, removals)), d, reqs)
    case CallResult(r) => [Result(r)]
    case CallError(f, code) => [TableEvent.Error(f, code)]
    case _ => []
  }

  function RunEvents(s: Session, d: Device, early: bool, calls: seq<Call>): seq<TableEvent>
    decreases |calls|
  {
    if calls == [] then []
    else CallEvents(s, d, calls[0]) + RunEvents(Do(s, d, early, calls[0]), d, early, calls[1..])
  }

  lemma {:induction false} ProcessHistory(s: Session, d: Device, reqs: seq<CaptureRequest>, h: seq<TableEvent>)
    requires s.tables == After(d, h)
    ensures ProcessFrom(s, d, reqs).2.tables == After(d, h + ProcessEvents(s, d, reqs))
    decreases |reqs|
  {
    if reqs == [] {
      assert h + [] == h;
    } else {
      var init := reqs[..|reqs| - 1];
      ProcessHistory(s, d, init, h);
      var (st, n, s1) := ProcessFrom(s, d, init);
      var before := ProcessEvents(s, d, init);
      if st == OK {
        ProcessOneHistory(s1, d, reqs[|reqs| - 1], h + before);
        Regroup(h, before, EventsOf(s1, reqs[|reqs| - 1]));
      } else {
        assert before + [] == before;
      }
    }
  }

  lemma CallHistory(s: Session, d: Device, early: bool, call: Call, h: seq<TableEvent>)
    requires s.tables == After(d, h)
    ensures Do(s, d, early, call).tables == After(d, h + CallEvents(s, d, call))
  {
    match call
    case CallProcess(reqs, removals) => ProcessHistory(s.(caches := RemoveAll(s.caches, removals)), d, reqs, h);
    case CallResult(r) => AfterAppend(d, h, Result(r));
    case CallError(f, code) => AfterAppend(d, h, TableEvent.Error(f, code));
    case _ =>
      assert h + CallEvents(s, d, call) == h;
      assert Do(s, d, early, call).tables == s.tables;
  }

  lemma {:induction false} RunHistoryFrom(s: Session, d: Device, early: bool, calls: seq<Call>, h: seq<TableEvent>)
    requires s.tables == After(d, h)
    ensures DoAll(s, d, early, calls).tables == After(d, h + RunEvents(s, d, early, calls))
    decreases |calls|
  {
    if calls == [] {
      assert h + [] == h;
    } else {
      var next := Do(s, d, early, calls[0]);
      CallHistory(s, d, early, calls[0], h);
      RunHistoryFrom(next, d, early, calls[1..], h + CallEvents(s, d, calls[0]));
      Regroup(h, CallEvents(s, d, calls[0]), RunEvents(next, d, early, calls[1..]));
    }
  }

  /**
   Whatever is called on a new session, its tables are those after a history of the
   requests, results and errors of those calls; so the theorems about histories hold of it.
   */
  lemma RunHistory(outcome: InitOutcome, d: Device, early: bool, calls: seq<Call>)
    ensures DoAll(New(outcome), d, early, calls).tables == After(d, RunEvents(New(outcome), d, early, calls))
  {
    var h: seq<TableEvent> := [];
    RunHistoryFrom(New(outcome), d, early, calls, h);
    assert h + RunEvents(New(outcome), d, early, calls) == RunEvents(New(outcome), d, early, calls);
  }

  // ---- runs whose requests carry new frames ----

  function RequestFrames(reqs: seq<CaptureRequest>): seq<nat> {
    seq(|reqs|, i requires 0 <= i < |reqs| => reqs[i].frame)
  }

  /** The frame numbers of every request of the calls, whatever became of it. */
  function RunFrames(calls: seq<Call>): seq<nat>
    decreases |calls|
  {
    if calls == [] then []
    else (if calls[0].CallProcess? then RequestFrames(calls[0].reqs) else []) + RunFrames(calls[1..])
  }

  /** The frames are different from each other and none is in `used`. */
  ghost predicate NewFrames(used: set<nat>, frames: seq<nat>) {
    && (forall i :: 0 <= i < |frames| ==> frames[i] !in used)
    && (forall i, j :: 0 <= i < j < |frames| ==> frames[i] != frames[j])
  }

  function FrameSet(frames: seq<nat>): set<nat> {
    set i | 0 <= i < |frames| :: frames[i]
  }

  /** An orderly history whose requests all carry frames in `used`. */
  ghost predicate OrderlyWith(d: Device, h: seq<TableEvent>, used: set<nat>) {
    Orderly(d, h) && forall i :: 0 <= i < |h| && h[i].Admitted? ==> h[i].req.frame in used
  }

  lemma OrderlyAppend(d: Device, h: seq<TableEvent>, e: TableEvent, used: set<nat>, used': set<nat>)
    requires OrderlyWith(d, h, used) && InOrder(d, h, e)
    requires used <= used' && (e.Admitted? ==> e.req.frame in used')
    ensures OrderlyWith(d, h + [e], used')
  {
    var h' := h + [e];
    forall i | 0 <= i < |h'|
      ensures InOrder(d, h'[..i], h'[i])
    {
      assert h'[..i] == h[..i];
      assert i == |h| ==> h[..i] == h;
    }
  }

  /** A frame not in use has nothing submitted, so nothing rolled back or returned. */
  lemma UnusedFrame(d: Device, h: seq<TableEvent>, used: set<nat>, r: Request, p: Pair)
    requires OrderlyWith(d, h, used) && r.frame !in used && p in RequestPairs(r)
    ensures !Submitted(h, p) && !RolledBack(h, p) && !ReturnedIn(d, h, p)
  {
    InflightConserved(d, h, p);
  }

  lemma RejectionInOrder(d: Device, h: seq<TableEvent>, used: set<nat>, r: Request)
    requires OrderlyWith(d, h, used) && r.frame !in used
    ensures InOrder(d, h, Admitted(r)) && InOrder(d, h + [Admitted(r)], Rejected(r))
  {
    forall p | p in RequestPairs(r)
      ensures !Submitted(h, p) && Submitted(h + [Admitted(r)], p)
      ensures !RolledBack(h + [Admitted(r)], p) && !ReturnedIn(d, h + [Admitted(r)], p)
    {
      UnusedFrame(d, h, used, r, p);
      PairsGrow(d, h, Admitted(r), p);
    }
  }

  lemma RequestOrderly(s: Session, d: Device, r: CaptureRequest, h: seq<TableEvent>, used: set<nat>)
    requires OrderlyWith(d, h, used) && r.frame !in used
    ensures OrderlyWith(d, h + EventsOf(s, r), used + {r.frame})
  {
    var e := r.Entry();
    RejectionInOrder(d, h, used, e);
    OrderlyAppend(d, h, Admitted(e), used, used + {r.frame});
    OrderlyAppend(d, h + [Admitted(e)], Rejected(e), used + {r.frame}, used + {r.frame});
    assert h + [Admitted(e)] + [Rejected(e)] == h + [Admitted(e), Rejected(e)];
    assert h + [] == h;
  }

  lemma LastFrame(reqs: seq<CaptureRequest>, used: set<nat>)
    requires reqs != [] && NewFrames(used, RequestFrames(reqs))
    ensures var init, f := RequestFrames(reqs[..|reqs| - 1]), reqs[|reqs| - 1].frame;
            && NewFrames(used, init) && f !in used + FrameSet(init)
            && used + FrameSet(RequestFrames(reqs)) == used + FrameSet(init) + {f}
  {
    var frames := RequestFrames(reqs);
    assert RequestFrames(reqs[..|reqs| - 1]) == frames[..|reqs| - 1];
    assert frames[|reqs| - 1] == reqs[|reqs| - 1].frame;
  }

  lemma OrderlyOneMore(s: Session, d: Device, r: CaptureRequest, goesOn: bool, h: seq<TableEvent>, used: set<nat>)
    requires OrderlyWith(d, h, used) && r.frame !in used
    ensures OrderlyWith(d, h + (if goesOn then EventsOf(s, r) else []), used + {r.frame})
  {
    if goesOn {
      RequestOrderly(s, d, r, h, used);
    } else {
      assert h + [] == h;
    }
  }

  lemma {:induction false} ProcessOrderly(s: Session, d: Device, reqs: seq<CaptureRequest>,
                                          h: seq<TableEvent>, used: set<nat>)
    requires OrderlyWith(d, h, used) && NewFrames(used, RequestFrames(reqs))
    ensures OrderlyWith(d, h + ProcessEvents(s, d, reqs), used + FrameSet(RequestFrames(reqs)))
    decreases |reqs|
  {
    if reqs == [] {
      assert h + [] == h;
    } else {
      var init, r := reqs[..|reqs| - 1], reqs[|reqs| - 1];
      LastFrame(reqs, used);
      ProcessOrderly(s, d, init, h, used);
      var done, before := ProcessFrom(s, d, init), ProcessEvents(s, d, init);
      OrderlyOneMore(done.2, d, r, done.0 == OK, h + before, used + FrameSet(RequestFrames(init)));
      Regroup(h, before, if done.0 == OK then EventsOf(done.2, r) else []);
    }
  }

  lemma CallOrderly(s: Session, d: Device, call: Call, h: seq<TableEvent>, used: set<nat>)
    requires OrderlyWith(d, h, used) && (call.CallProcess? ==> NewFrames(used, RequestFrames(call.reqs)))
    ensures OrderlyWith(d, h + CallEvents(s, d, call),
                        used + if call.CallProcess? then FrameSet(RequestFrames(call.reqs)) else {})
  {
    match call
    case CallProcess(reqs, removals) => ProcessOrderly(s.(caches := RemoveAll(s.caches, removals)), d, reqs, h, used);
    case CallResult(r) => OrderlyAppend(d, h, Result(r), used, used);
    case CallError(f, code) => OrderlyAppend(d, h, TableEvent.Error(f, code), used, used);
    case _ => assert h + [] == h;
  }

  lemma NewFramesSplit(used: set<nat>, first: seq<nat>, rest: seq<nat>)
    requires NewFrames(used, first + rest)
    ensures NewFrames(used, first) && NewFrames(used + FrameSet(first), rest)
  {
    var all := first + rest;
    forall i | 0 <= i < |first|
      ensures first[i] == all[i]
    {
    }
    forall j | 0 <= j < |rest|
      ensures rest[j] == all[|first| + j]
    {
    }
  }

  lemma {:induction false} RunOrderlyFrom(s: Session, d: Device, early: bool, calls: seq<Call>,
                                          h: seq<TableEvent>, used: set<nat>)
    requires OrderlyWith(d, h, used) && NewFrames(used, RunFrames(calls))
    ensures Orderly(d, h + RunEvents(s, d, early, calls))
    decreases |calls|
  {
    if calls == [] {
      assert h + [] == h;
    } else {
      var call := calls[0];
      var first := if call.CallProcess? then RequestFrames(call.reqs) else [];
      NewFramesSplit(used, first, RunFrames(calls[1..]));
      CallOrderly(s, d, call, h, used);
      var h1, next := h + CallEvents(s, d, call), Do(s, d, early, call);
      RunOrderlyFrom(next, d, early, calls[1..], h1, used + FrameSet(first));
      Regroup(h, CallEvents(s, d, call), RunEvents(next, d, early, calls[1..]));
    }
  }

  /**
   Conservation over session runs. Whatever is called on a new session, as long as no
   two requests carry the same frame number: its requests, rejections, results and
   errors make an orderly history; a pair is in flight exactly when it was submitted
   and neither rolled back nor returned; and no pair is returned that was not
   submitted, or after being rolled back.
   */
  lemma RunConserved(outcome: InitOutcome, d: Device, early: bool, calls: seq<Call>, p: Pair)
    requires NewFrames({}, RunFrames(calls))
    ensures var h := RunEvents(New(outcome), d, early, calls);
            && Orderly(d, h)
            && (p in DoAll(New(outcome), d, early, calls).tables.inflight <==>
                Submitted(h, p) && !RolledBack(h, p) && !ReturnedIn(d, h, p))
            && (RolledBack(h, p) || ReturnedIn(d, h, p) ==> Submitted(h, p))
            && !(RolledBack(h, p) && ReturnedIn(d, h, p))
  {
    var none: seq<TableEvent>, h := [], RunEvents(New(outcome), d, early, calls);
    RunOrderlyFrom(New(outcome), d, early, calls, none, {});
    assert none + h == h;
    RunHistory(outcome, d, early, calls);
    InflightConserved(d, h, p);
  }

  /** Every pair ever submitted is back, and no override is live and no frame half returned. */
  ghost predicate AllBack(d: Device, h: seq<TableEvent>) {
    && (forall p: Pair :: Submitted(h, p) ==> RolledBack(h, p) || ReturnedIn(d, h, p))
    && (forall f: nat, i: nat :: !LiveOverride(d, h, i, f))
    && (d.deriveBoost ==> forall f: nat :: !Begun(d, h, f))
  }

  lemma {:induction false} NoBoostTracked(d: Device, h: seq<TableEvent>)
    requires !d.deriveBoost
    ensures After(d, h).boost == map[]
    decreases |h|
  {
    if h != [] {
      NoBoostTracked(d, h[..|h| - 1]);
    }
  }

  lemma InflightEmptyIff(d: Device, h: seq<TableEvent>)
    requires Orderly(d, h)
    ensures After(d, h).inflight == {} <==>
            forall p: Pair :: Submitted(h, p) ==> RolledBack(h, p) || ReturnedIn(d, h, p)
  {
    forall p: Pair
      ensures p in After(d, h).inflight <==> Submitted(h, p) && !RolledBack(h, p) && !ReturnedIn(d, h, p)
    {
      InflightConserved(d, h, p);
    }
  }

  lemma OverridesEmptyIff(d: Device, h: seq<TableEvent>)
    ensures After(d, h).overrides == map[] <==> forall f: nat, i: nat :: !LiveOverride(d, h, i, f)
  {
    forall f: nat, i: nat
      ensures LiveOverride(d, h, i, f) ==> f in After(d, h).overrides
    {
      OverridesAreLive(d, h, f);
    }
    forall f: nat | f in After(d, h).overrides
      ensures exists i: nat :: LiveOverride(d, h, i, f)
    {
      OverridesAreLive(d, h, f);
    }
    EmptyMapIff(After(d, h).overrides);
  }

  lemma EmptyMapIff<T>(m: map<nat, T>)
    ensures m == map[] <==> forall f: nat :: f !in m
  {
    if forall f: nat :: f !in m {
      assert m.Keys == {};
    }
  }

  lemma BoostEmptyIff(d: Device, h: seq<TableEvent>)
    ensures After(d, h).boost == map[] <==> (d.deriveBoost ==> forall f: nat :: !Begun(d, h, f))
  {
    if d.deriveBoost {
      forall f: nat
        ensures f in After(d, h).boost <==> Begun(d, h, f)
      {
        BoostTracksFrames(d, h, f);
      }
    } else {
      NoBoostTracked(d, h);
    }
    EmptyMapIff(After(d, h).boost);
  }

  /**
   configureStreams gets past its guards exactly when everything is back: every
   pair ever submitted was rolled back or returned, no trigger override is live, and
   no frame has begun and not finished. Until then it is refused and changes nothing.
   */
  lemma ConfigureOnlyWhenAllBack(s: Session, d: Device, h: seq<TableEvent>,
                                 reqs: seq<StreamRequest>, early: bool, hal: HalConfig)
    requires Orderly(d, h) && s.tables == After(d, h)
    ensures Idle(s.tables) <==> AllBack(d, h)
    ensures !AllBack(d, h) ==> ConfigureStreams(s, reqs, early, hal) == (InternalError, s)
  {
    InflightEmptyIff(d, h);
    OverridesEmptyIff(d, h);
    BoostEmptyIff(d, h);
  }
}
