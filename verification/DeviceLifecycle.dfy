/**
 Opening and losing a camera device: which sessions a device has handed out, and
 how often each HAL device the module opened has been closed.
 */
module DeviceLifecycle {
  import opened CaptureTypes
  import opened StreamCaches
  import opened CaptureTables
  import opened CaptureSession
  import Sessions = CameraDeviceSession

  /** How the steps of `open` after the checks turn out. */
  datatype OpenOutcome =
    | ModuleRefuses                  // the module does not open the device
    | OldVersion                     // the HAL device is older than 3.2
    | NoCameraInfo                   // the module does not describe the camera
    | NoSession                      // no session object could be created
    | SessionMade(init: InitOutcome)

  datatype OpenStatus = Opened | BadArgument | Gone | InUse | ModuleError | Internal

  /** One HAL device the module opened: kept by no session, or held by one. */
  datatype HalDevice =
    | Unheld(closes: nat)
    | Held(session: Session, alive: bool)

  /** `current` is the session the device last handed out, as a weak reference. */
  datatype CameraDevice = CameraDevice(disconnected: bool, current: Option<nat>, opens: seq<HalDevice>)

  function Closes(o: HalDevice): nat {
    match o
    case Unheld(n) => n
    case Held(s, _) => s.halCloses
  }

  predicate Unclosed(o: HalDevice) {
    o.Held? && !o.session.closed
  }

  /** The session behind the weak reference, unless it has been destroyed. */
  predicate Busy(c: CameraDevice) {
    c.current.Some? && c.current.value < |c.opens| && c.opens[c.current.value].Held? && c.opens[c.current.value].alive
    && !c.opens[c.current.value].session.closed
  }

  function TryOpen(c: CameraDevice, hasCallback: bool, outcome: OpenOutcome): (OpenStatus, CameraDevice) {
    if !hasCallback then (BadArgument, c)
    else if c.disconnected then (Gone, c)
    else if Busy(c) then (InUse, c)
    else
      match outcome
      case ModuleRefuses => (ModuleError, c)
      case OldVersion => (BadArgument, c.(opens := c.opens + [Unheld(1)]))
      case NoCameraInfo => (BadArgument, c.(opens := c.opens + [Unheld(1)]))
      case NoSession => (Internal, c.(opens := c.opens + [Unheld(0)]))
      case SessionMade(init) =>
        if init.InitOk? then
          (Opened, c.(opens := c.opens + [Held(New(init), true)], current := Some(|c.opens|)))
        else (Internal, c.(opens := c.opens + [Held(Close(New(init)), false)]))
  }

  /** The camera is plugged in or out; only an active session hears of it. */
  function SetConnected(c: CameraDevice, connected: bool): CameraDevice {
    var c1 := c.(disconnected := !connected);
    if !connected && c.current.Some? && c.current.value < |c.opens|
       && c.opens[c.current.value].Held? && c.opens[c.current.value].alive then
      var o := c.opens[c.current.value];
      c1.(opens := c.opens[c.current.value := o.(session := Disconnect(o.session))])
    else c1
  }

  datatype Action =
    | ActOpen(hasCallback: bool, outcome: OpenOutcome)
    | ActConnected(connected: bool)
    | ActCall(id: nat, call: Call)          // a call on the session of open `id`
    | ActDestroy(id: nat)                   // its last reference goes

  /** A session is used only while it exists, with requests that name its streams. */
  ghost predicate Possible(c: CameraDevice, a: Action) {
    match a
    case ActCall(id, call) =>
      id < |c.opens| && c.opens[id].Held? && c.opens[id].alive && GoodCall(c.opens[id].session, call)
      && !call.CallDisconnect?
    case ActDestroy(id) => id < |c.opens| && c.opens[id].Held? && c.opens[id].alive
    case _ => true
  }

  function Act(c: CameraDevice, d: Device, early: bool, a: Action): CameraDevice {
    match a
    case ActOpen(cb, outcome) => TryOpen(c, cb, outcome).1
    case ActConnected(connected) => SetConnected(c, connected)
    case ActCall(id, call) =>
      if id < |c.opens| && c.opens[id].Held? then
        c.(opens := c.opens[id := c.opens[id].(session := Do(c.opens[id].session, d, early, call))])
      else c
    case ActDestroy(id) =>
      if id < |c.opens| && c.opens[id].Held? then
        c.(opens := c.opens[id := Held(Close(c.opens[id].session), false)])
      else c
  }

  // ---- what every action keeps ----

  ghost predicate HalDeviceOk(o: HalDevice) {
    match o
    case Unheld(n) => n <= 1
    case Held(s, alive) => SessionInv(s) && (!alive ==> s.closed)
  }

  /** Every HAL device is in order, and only the current session can be unclosed. */
  ghost predicate DeviceInv(c: CameraDevice) {
    && (forall i :: 0 <= i < |c.opens| ==> HalDeviceOk(c.opens[i]))
    && (forall i :: 0 <= i < |c.opens| && Unclosed(c.opens[i]) ==> c.current == Some(i))
  }

  lemma CallNeverReopens(s: Session, d: Device, early: bool, call: Call)
    requires s.closed
    ensures Do(s, d, early, call).closed
  {
    match call
    case CallProcess(reqs, removals) => ProcessKeepsClosed(s.(caches := RemoveAll(s.caches, removals)), d, reqs);
    case _ =>
  }

  lemma {:induction false} ProcessKeepsClosed(s: Session, d: Device, reqs: seq<CaptureRequest>)
    ensures ProcessFrom(s, d, reqs).2.closed == s.closed
    decreases |reqs|
  {
    if reqs != [] {
      ProcessKeepsClosed(s, d, reqs[..|reqs| - 1]);
    }
  }

  /** Replacing the state of one open keeps the invariant unless it reopens a closed session. */
  lemma ReplaceKeeps(c: CameraDevice, id: nat, o: HalDevice)
    requires DeviceInv(c) && id < |c.opens| && HalDeviceOk(o) && (Unclosed(o) ==> Unclosed(c.opens[id]))
    ensures DeviceInv(c.(opens := c.opens[id := o]))
  {
  }

  lemma OpenInv(c: CameraDevice, hasCallback: bool, outcome: OpenOutcome)
    requires DeviceInv(c)
    ensures DeviceInv(TryOpen(c, hasCallback, outcome).1)
  {
    if outcome.SessionMade? {
      NewInv(outcome.init);
      CloseInv(New(outcome.init));
    }
  }

  lemma CallActionInv(c: CameraDevice, d: Device, early: bool, id: nat, call: Call)
    requires DeviceInv(c) && Possible(c, ActCall(id, call))
    ensures DeviceInv(Act(c, d, early, ActCall(id, call)))
  {
    var s := c.opens[id].session;
    assert HalDeviceOk(c.opens[id]);
    CallInv(s, d, early, call);
    if s.closed {
      CallNeverReopens(s, d, early, call);
    }
    ReplaceKeeps(c, id, c.opens[id].(session := Do(s, d, early, call)));
  }

  lemma ActionInv(c: CameraDevice, d: Device, early: bool, a: Action)
    requires DeviceInv(c) && Possible(c, a)
    ensures DeviceInv(Act(c, d, early, a))
  {
    match a
    case ActOpen(cb, outcome) => OpenInv(c, cb, outcome);
    case ActConnected(connected) =>
      if !connected && c.current.Some? && c.current.value < |c.opens| && c.opens[c.current.value].Held? {
        var o := c.opens[c.current.value];
        assert HalDeviceOk(o);
        ReplaceKeeps(c, c.current.value, o.(session := Disconnect(o.session)));
      }
    case ActCall(id, call) => CallActionInv(c, d, early, id, call);
    case ActDestroy(id) =>
      assert HalDeviceOk(c.opens[id]);
      CloseInv(c.opens[id].session);
      ReplaceKeeps(c, id, Held(Close(c.opens[id].session), false));
  }

  ghost predicate PossibleRun(c: CameraDevice, d: Device, early: bool, acts: seq<Action>)
    decreases |acts|
  {
    acts == [] || (Possible(c, acts[0]) && PossibleRun(Act(c, d, early, acts[0]), d, early, acts[1..]))
  }

  function ActAll(c: CameraDevice, d: Device, early: bool, acts: seq<Action>): CameraDevice
    decreases |acts|
  {
    if acts == [] then c else ActAll(Act(c, d, early, acts[0]), d, early, acts[1..])
  }

  lemma {:induction false} RunInv(c: CameraDevice, d: Device, early: bool, acts: seq<Action>)
    requires DeviceInv(c) && PossibleRun(c, d, early, acts)
    ensures DeviceInv(ActAll(c, d, early, acts))
    decreases |acts|
  {
    if acts != [] {
      ActionInv(c, d, early, acts[0]);
      RunInv(Act(c, d, early, acts[0]), d, early, acts[1..]);
    }
  }

  const FRESH_DEVICE := CameraDevice(false, None, [])

  /**
   HAL lifecycle. Over any run of opens, calls, closes, connection changes and
   destructions of one device: no HAL device is closed twice; the HAL device of a
   session is closed exactly when its session is, and a destroyed session's always
   is; and the device never has two unclosed sessions.
   */
  lemma HalLifecycle(d: Device, early: bool, acts: seq<Action>, i: nat, j: nat)
    requires PossibleRun(FRESH_DEVICE, d, early, acts)
    requires var c := ActAll(FRESH_DEVICE, d, early, acts); i < |c.opens| && j < |c.opens|
    ensures var c := ActAll(FRESH_DEVICE, d, early, acts);
            && Closes(c.opens[i]) <= 1
            && (c.opens[i].Held? ==> (Closes(c.opens[i]) == 1 <==> c.opens[i].session.closed))
            && (c.opens[i].Held? && !c.opens[i].alive ==> Closes(c.opens[i]) == 1)
            && (Unclosed(c.opens[i]) && Unclosed(c.opens[j]) ==> i == j)
  {
    RunInv(FRESH_DEVICE, d, early, acts);
    var c := ActAll(FRESH_DEVICE, d, early, acts);
    assert HalDeviceOk(c.opens[i]) && HalDeviceOk(c.opens[j]);
  }

  /**
   A failed open gives the HAL device back exactly unless no session object could
   be created: that one branch never closes what the module opened. The shipped
   createSession always makes one; only an override of it could come back empty.
   */
  lemma FailedOpenClosesIff(c: CameraDevice, hasCallback: bool, outcome: OpenOutcome)
    requires TryOpen(c, hasCallback, outcome).0 != Opened
    ensures var c' := TryOpen(c, hasCallback, outcome).1;
            (forall i :: |c.opens| <= i < |c'.opens| ==> Closes(c'.opens[i]) == 1)
            <==> !(hasCallback && !c.disconnected && !Busy(c) && outcome.NoSession?)
  {
    var c' := TryOpen(c, hasCallback, outcome).1;
    if hasCallback && !c.disconnected && !Busy(c) && outcome.NoSession? {
      assert Closes(c'.opens[|c.opens|]) == 0;
    }
  }

  // ---- what opening answers ----

  /** The session last handed out is in the way exactly when some session of the device is unclosed. */
  lemma BusyIff(c: CameraDevice)
    requires DeviceInv(c)
    ensures Busy(c) <==> exists i :: 0 <= i < |c.opens| && Unclosed(c.opens[i])
  {
    if i :| 0 <= i < |c.opens| && Unclosed(c.opens[i]) {
      assert HalDeviceOk(c.opens[i]) && c.current == Some(i);
    }
    if Busy(c) {
      assert Unclosed(c.opens[c.current.value]);
    }
  }

  /** Nothing stands in the way of asking the module. */
  ghost predicate MayOpen(c: CameraDevice, hasCallback: bool) {
    hasCallback && !c.disconnected && forall i :: 0 <= i < |c.opens| ==> !Unclosed(c.opens[i])
  }

  /**
   What opening answers. A session is handed out exactly when the client gives a
   callback, the camera is there, no session of the device is unclosed, and the module
   and the session do their part; and each refusal has its own reason.
   */
  lemma OpenAnswers(c: CameraDevice, hasCallback: bool, outcome: OpenOutcome)
    requires DeviceInv(c)
    ensures var (st, c') := TryOpen(c, hasCallback, outcome);
            && (st == Opened <==> MayOpen(c, hasCallback) && outcome == SessionMade(InitOk))
            && (st == Gone <==> hasCallback && c.disconnected)
            && (st == InUse <==> hasCallback && !c.disconnected && !MayOpen(c, hasCallback))
            && (st == ModuleError <==> MayOpen(c, hasCallback) && outcome.ModuleRefuses?)
            && (st == BadArgument <==>
                  !hasCallback || (MayOpen(c, hasCallback) && (outcome.OldVersion? || outcome.NoCameraInfo?)))
            && (st == Opened ==> c' == c.(opens := c.opens + [Held(New(InitOk), true)], current := Some(|c.opens|)))
            && (st != Opened ==> c'.current == c.current && c'.disconnected == c.disconnected && c.opens <= c'.opens)
            && (|c'.opens| == |c.opens| + if MayOpen(c, hasCallback) && !outcome.ModuleRefuses? then 1 else 0)
            && (st != Opened && |c'.opens| > |c.opens| ==>
                  var o := c'.opens[|c.opens|];
                  !Unclosed(o) && (o.Held? ==> !o.alive) && (o.Held? <==> outcome.SessionMade?))
  {
    BusyIff(c);
    if outcome.SessionMade? {
      assert Close(New(outcome.init)).closed;
    }
  }

  // ---- losing the camera ----

  /** While the camera is gone, every session of the device is closed. */
  ghost predicate GoneIsClosed(c: CameraDevice) {
    c.disconnected ==> forall i :: 0 <= i < |c.opens| ==> !Unclosed(c.opens[i])
  }

  lemma ActionGone(c: CameraDevice, d: Device, early: bool, a: Action)
    requires DeviceInv(c) && Possible(c, a) && GoneIsClosed(c)
    ensures GoneIsClosed(Act(c, d, early, a))
  {
    match a
    case ActOpen(cb, outcome) => OpenAnswers(c, cb, outcome);
    case ActConnected(connected) =>
      forall i | 0 <= i < |c.opens| && Unclosed(c.opens[i])
        ensures c.current == Some(i) && c.opens[i].alive
      {
        assert HalDeviceOk(c.opens[i]);
      }
    case ActCall(id, call) =>
      if c.opens[id].session.closed {
        CallNeverReopens(c.opens[id].session, d, early, call);
      }
    case ActDestroy(_) =>
  }

  lemma {:induction false} RunGone(c: CameraDevice, d: Device, early: bool, acts: seq<Action>)
    requires DeviceInv(c) && GoneIsClosed(c) && PossibleRun(c, d, early, acts)
    ensures GoneIsClosed(ActAll(c, d, early, acts))
    decreases |acts|
  {
    if acts != [] {
      ActionInv(c, d, early, acts[0]);
      ActionGone(c, d, early, acts[0]);
      RunGone(Act(c, d, early, acts[0]), d, early, acts[1..]);
    }
  }

  /**
   A lost camera closes its session. In every run, while the device is disconnected no
   session is unclosed and nothing can be opened; and plugging the camera in again
   leaves every session as it was.
   */
  lemma LostCameraIsClosed(d: Device, early: bool, acts: seq<Action>, i: nat, outcome: OpenOutcome)
    requires PossibleRun(FRESH_DEVICE, d, early, acts)
    requires i < |ActAll(FRESH_DEVICE, d, early, acts).opens|
    ensures var c := ActAll(FRESH_DEVICE, d, early, acts);
            && (c.disconnected ==> !Unclosed(c.opens[i]) && TryOpen(c, true, outcome) == (Gone, c))
            && SetConnected(c, true) == c.(disconnected := false)
  {
    RunGone(FRESH_DEVICE, d, early, acts);
  }

  /** Whether the camera is there is what it was last told to be. */
  lemma {:induction false} DisconnectedIsLast(c: CameraDevice, d: Device, early: bool, acts: seq<Action>)
    ensures forall i :: 0 <= i < |acts| && acts[i].ActConnected? && NoLaterConnected(acts, i) ==>
              ActAll(c, d, early, acts).disconnected == !acts[i].connected
    ensures (forall i :: 0 <= i < |acts| ==> !acts[i].ActConnected?) ==>
              ActAll(c, d, early, acts).disconnected == c.disconnected
    decreases |acts|
  {
    if acts != [] {
      var next := Act(c, d, early, acts[0]);
      assert acts[0].ActConnected? ==> next.disconnected == !acts[0].connected;
      assert !acts[0].ActConnected? ==> next.disconnected == c.disconnected;
      DisconnectedIsLast(next, d, early, acts[1..]);
      forall i | 0 <= i < |acts| && acts[i].ActConnected? && NoLaterConnected(acts, i)
        ensures ActAll(c, d, early, acts).disconnected == !acts[i].connected
      {
        if i > 0 {
          assert acts[1..][i - 1] == acts[i] && NoLaterConnected(acts[1..], i - 1);
        } else {
          assert forall k :: 0 <= k < |acts[1..]| ==> !acts[1..][k].ActConnected?;
        }
      }
    }
  }

  ghost predicate NoLaterConnected(acts: seq<Action>, i: nat) {
    forall k :: i < k < |acts| ==> !acts[k].ActConnected?
  }

  // ---- each session hears of its own calls only ----

  /** What an action is to the session of open i. */
  function CallTo(c: CameraDevice, a: Action, i: nat): seq<Call>
    requires i < |c.opens|
  {
    match a
    case ActCall(id, call) => if id == i then [call] else []
    case ActDestroy(id) => if id == i then [CallClose] else []
    case ActConnected(connected) =>
      if !connected && c.current == Some(i) && c.opens[i].Held? && c.opens[i].alive then [CallDisconnect] else []
    case ActOpen(_, _) => []
  }

  function CallsTo(c: CameraDevice, d: Device, early: bool, acts: seq<Action>, i: nat): seq<Call>
    requires i < |c.opens|
    decreases |acts|
  {
    if acts == [] then []
    else
      var next := Act(c, d, early, acts[0]);
      CallTo(c, acts[0], i) + if i < |next.opens| then CallsTo(next, d, early, acts[1..], i) else []
  }

  lemma ActionHeard(c: CameraDevice, d: Device, early: bool, a: Action, i: nat)
    requires Possible(c, a) && i < |c.opens| && c.opens[i].Held?
    ensures var c' := Act(c, d, early, a);
            && i < |c'.opens| && c'.opens[i].Held?
            && c'.opens[i].session == DoAll(c.opens[i].session, d, early, CallTo(c, a, i))
            && (c'.opens[i].alive <==> c.opens[i].alive && a != ActDestroy(i))
  {
    var s := c.opens[i].session;
    assert DoAll(s, d, early, []) == s;
    forall call
      ensures DoAll(s, d, early, [call]) == Do(s, d, early, call)
    {
      assert DoAll(Do(s, d, early, call), d, early, []) == Do(s, d, early, call);
    }
  }

  lemma {:induction false} DoAllConcat(s: Session, d: Device, early: bool, a: seq<Call>, b: seq<Call>)
    ensures DoAll(s, d, early, a + b) == DoAll(DoAll(s, d, early, a), d, early, b)
    decreases |a|
  {
    if a == [] {
      assert a + b == b;
    } else {
      assert (a + b)[1..] == a[1..] + b;
      DoAllConcat(Do(s, d, early, a[0]), d, early, a[1..], b);
    }
  }

  /**
   Sessions do not disturb each other. Over any run of the device, a session's state is
   what its own calls make of it, its destruction as a close and an unplugging while it
   is the one last handed out as a disconnect; so what holds of a session's runs holds of
   every session of a device.
   */
  lemma {:induction false} SessionHearsItsOwn(c: CameraDevice, d: Device, early: bool, acts: seq<Action>, i: nat)
    requires PossibleRun(c, d, early, acts) && i < |c.opens| && c.opens[i].Held?
    ensures var c' := ActAll(c, d, early, acts);
            && i < |c'.opens| && c'.opens[i].Held?
            && c'.opens[i].session == DoAll(c.opens[i].session, d, early, CallsTo(c, d, early, acts, i))
    decreases |acts|
  {
    if acts != [] {
      var next := Act(c, d, early, acts[0]);
      ActionHeard(c, d, early, acts[0], i);
      SessionHearsItsOwn(next, d, early, acts[1..], i);
      DoAllConcat(c.opens[i].session, d, early, CallTo(c, acts[0], i), CallsTo(next, d, early, acts[1..], i));
    }
  }

  // ---- the device as an object ----

  /** One HAL device the module opened, with the session object that took it, if any. */
  datatype Taken =
    | Untaken(closes: nat)
    | TakenBy(session: Sessions.CameraDeviceSession, alive: bool)

  /** The camera device, holding its last session by a weak reference. */
  class Camera {
    const device: Device
    const freeBufEarly: bool
    var disconnected: bool
    var session: Sessions.CameraDeviceSession?
    var sessionGone: bool           // the weak reference has expired

    ghost var opens: seq<Taken>     // every HAL device opened, in order
    ghost var current: Option<nat>  // which of them the weak reference is about

    ghost function Sessions(): set<Sessions.CameraDeviceSession>
      reads this
    {
      set i | 0 <= i < |opens| && opens[i].TakenBy? :: opens[i].session
    }

    ghost predicate Valid()
      reads this
    {
      && (forall i, j :: 0 <= i < j < |opens| && opens[i].TakenBy? && opens[j].TakenBy? ==>
            opens[i].session != opens[j].session)
      && match current
         case None => session == null
         case Some(i) => i < |opens| && session != null && opens[i] == TakenBy(session, !sessionGone)
    }

    ghost function HalView(i: nat): HalDevice
      requires i < |opens|
      reads this, Sessions()
    {
      match opens[i]
      case Untaken(n) => Unheld(n)
      case TakenBy(s, alive) => Held(s.View(), alive)
    }

    ghost function View(): CameraDevice
      reads this, Sessions()
    {
      CameraDevice(disconnected, current,
                   seq(|opens|, i requires 0 <= i < |opens| reads this, Sessions() => HalView(i)))
    }

    constructor (device: Device, early: bool)
      ensures Valid() && View() == FRESH_DEVICE
      ensures this.device == device && freeBufEarly == early
    {
      this.device, freeBufEarly := device, early;
      disconnected, session, sessionGone := false, null, false;
      opens, current := [], None;
    }

    /** One more HAL device, with the others as they were, seen in the view. */
    twostate lemma OneMore(o: HalDevice)
      requires |opens| == |old(opens)| + 1 && opens[..|old(opens)|] == old(opens)
      requires disconnected == old(disconnected) && HalView(|old(opens)|) == o
      requires forall s :: s in old(Sessions()) ==> s.View() == old(s.View())
      ensures View() == CameraDevice(old(disconnected), current, old(View()).opens + [o])
    {
      forall i | 0 <= i < |old(opens)|
        ensures HalView(i) == old(HalView(i))
      {
        assert opens[i] == old(opens)[i];
        assert opens[i].TakenBy? ==> opens[i].session in old(Sessions());
      }
    }

    /** The module opened a HAL device that no session came to hold. */
    method TakeUnheld(closes: nat)
      requires Valid()
      modifies this`opens
      ensures Valid() && View() == old(View()).(opens := old(View()).opens + [Unheld(closes)])
    {
      opens := opens + [Untaken(closes)];
      OneMore(Unheld(closes));
    }

    /** A session that failed to initialize is destroyed again, and with it its HAL device closed. */
    method TakeFailed(init: InitOutcome) returns (made: Sessions.CameraDeviceSession)
      requires Valid() && !init.InitOk?
      modifies this`opens
      ensures Valid() && View() == old(View()).(opens := old(View()).opens + [Held(Close(New(init)), false)])
    {
      made := new Sessions.CameraDeviceSession(device, freeBufEarly, init);
      NewInv(init);
      made.Destroy();
      opens := opens + [TakenBy(made, false)];
      OneMore(Held(Close(New(init)), false));
    }

    method TakeSession() returns (made: Sessions.CameraDeviceSession)
      requires Valid()
      modifies this`opens, this`current, this`session, this`sessionGone
      ensures Valid() && session == made && fresh(made) && !sessionGone
      ensures View() == old(View()).(opens := old(View()).opens + [Held(New(InitOk), true)],
                                     current := Some(|old(View()).opens|))
    {
      made := new Sessions.CameraDeviceSession(device, freeBufEarly, InitOk);
      current, session, sessionGone := Some(|opens|), made, false;
      opens := opens + [TakenBy(made, true)];
      OneMore(Held(New(InitOk), true));
    }

    /** Whether the last session still exists and is open. */
    lemma BusyIs()
      requires Valid()
      ensures Busy(View()) <==> session != null && !sessionGone && !session.closed
    {
      assert current.Some? ==> View().opens[current.value] == HalView(current.value);
    }

    /** Open the camera; `made` is the session handed out, if any. */
    method Open(hasCallback: bool, outcome: OpenOutcome) returns (st: OpenStatus, made: Sessions.CameraDeviceSession?)
      requires Valid()
      modifies this
      ensures Valid() && (st, View()) == TryOpen(old(View()), hasCallback, outcome)
      ensures if st == Opened then made != null && fresh(made) && session == made && !sessionGone else made == null
    {
      made := null;
      if !hasCallback {
        return BadArgument, null;
      }
      if disconnected {
        return Gone, null;
      }
      BusyIs();
      if session != null && !sessionGone && !session.closed {
        return InUse, null;
      }
      match outcome
      case ModuleRefuses => st := ModuleError;
      case OldVersion =>
        TakeUnheld(1);
        st := BadArgument;
      case NoCameraInfo =>
        TakeUnheld(1);
        st := BadArgument;
      case NoSession =>
        TakeUnheld(0);
        st := Internal;
      case SessionMade(init) =>
        if init.InitOk? {
          made := TakeSession();
          st := Opened;
        } else {
          var _ := TakeFailed(init);
          st := Internal;
        }
    }

    /** The session of open i alone has changed, seen in the view. */
    twostate lemma OneChanged(i: nat)
      requires old(Valid()) && Valid() && i < |opens| == |old(opens)|
      requires current == old(current) && opens[i].TakenBy? && old(opens[i].TakenBy?)
      requires old(opens)[i].session == opens[i].session
      requires forall j :: 0 <= j < |opens| && j != i ==> opens[j] == old(opens)[j]
      requires forall s :: s in old(Sessions()) && s != opens[i].session ==> s.View() == old(s.View())
      ensures View() == CameraDevice(disconnected, current, old(View()).opens[i := HalView(i)])
    {
      forall j | 0 <= j < |opens| && j != i
        ensures HalView(j) == old(HalView(j))
      {
        assert opens[j].TakenBy? ==> opens[j].session in old(Sessions());
      }
    }

    /** Tell a live session, the one last handed out, that the camera is gone. */
    method DisconnectSession(s: Sessions.CameraDeviceSession, ghost i: nat)
      requires Valid() && i < |opens| && opens[i] == TakenBy(s, true)
      modifies s
      ensures Valid()
      ensures View() == old(View()).(opens := old(View()).opens[i := Held(Disconnect(old(s.View())), true)])
    {
      s.Disconnect();
      OneChanged(i);
    }

    method SetConnectionStatus(connected: bool)
      requires Valid()
      modifies this`disconnected, if session == null then {} else {session}
      ensures Valid() && View() == SetConnected(old(View()), connected)
    {
      disconnected := !connected;
      if session == null || sessionGone {
        return;
      }
      if !connected {
        ghost var was := View();
        assert was.opens[current.value] == HalView(current.value);
        DisconnectSession(session, current.value);
      }
    }

    /** The last reference to a session goes; the weak reference expires if it was to that one. */
    method Release(s: Sessions.CameraDeviceSession, ghost i: nat)
      requires Valid() && i < |opens| && opens[i] == TakenBy(s, true) && SessionInv(s.View())
      modifies this`opens, this`sessionGone, s
      ensures Valid() && forall early :: View() == Act(old(View()), device, early, ActDestroy(i))
    {
      s.Destroy();
      if s == session {
        sessionGone := true;
      }
      opens := opens[i := TakenBy(s, false)];
      OneChanged(i);
    }

    /** A call on a session handed out earlier, seen from the device. */
    twostate lemma Called(i: nat, call: Call)
      requires old(Valid()) && Valid() && opens == old(opens) && current == old(current)
      requires disconnected == old(disconnected) && i < |opens| && opens[i].TakenBy?
      requires opens[i].session.View() == Do(old(opens[i].session.View()), device, freeBufEarly, call)
      requires forall s :: s in old(Sessions()) && s != opens[i].session ==> s.View() == old(s.View())
      ensures View() == Act(old(View()), device, freeBufEarly, ActCall(i, call))
    {
      assert old(View()).opens[i] == old(HalView(i));
      OneChanged(i);
    }
  }
}
