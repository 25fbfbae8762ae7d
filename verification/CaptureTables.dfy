/**
 The session's in-flight tables: the buffers the HAL holds, the frames whose
 precapture-cancel trigger was translated for an old HAL, and the frames whose
 post-RAW sensitivity boost is still being derived.
 */
module CaptureTables {
  import opened CaptureTypes

  /** Camera metadata: a tag that is present maps to its values, possibly none. */
  type Settings = map<nat, seq<int>>

  const AE_TRIGGER: nat := 0   // ANDROID_CONTROL_AE_PRECAPTURE_TRIGGER
  const AE_LOCK: nat := 1      // ANDROID_CONTROL_AE_LOCK
  const RAW_BOOST: nat := 2    // ANDROID_CONTROL_POST_RAW_SENSITIVITY_BOOST

  const TRIGGER_IDLE: int := 0
  const TRIGGER_CANCEL: int := 2
  const LOCK_OFF: int := 0
  const LOCK_ON: int := 1
  const DEFAULT_BOOST: int := 100

  /** What the device is like; `legacy` means its HAL version is at most 3.2. */
  datatype Device = Device(legacy: bool, aeLockAvailable: bool, deriveBoost: bool, numPartial: nat)

  datatype Override = Override(applyAeLock: bool, aeLock: int, applyTrigger: bool, trigger: int)

  /** A (stream, frame) pair. */
  type Pair = (int, nat)

  datatype Tables = Tables(inflight: set<Pair>, overrides: map<nat, Override>, boost: map<nat, bool>)

  datatype Request = Request(frame: nat, settings: Option<Settings>, input: Option<int>, outputs: seq<int>)

  datatype HalResult = HalResult(frame: nat, partial: nat, metadata: Option<Settings>, input: Option<int>,
                                 outputs: seq<int>)

  function PairsOf(frame: nat, input: Option<int>, outputs: seq<int>): set<Pair> {
    (set i | 0 <= i < |outputs| :: (outputs[i], frame)) + (if input.Some? then {(input.value, frame)} else {})
  }

  function RequestPairs(r: Request): set<Pair> {
    PairsOf(r.frame, r.input, r.outputs)
  }

  function ResultPairs(r: HalResult): set<Pair> {
    PairsOf(r.frame, r.input, r.outputs)
  }

  // ---- precapture-cancel translation ----

  predicate FirstIs(s: Settings, tag: nat, v: int) {
    tag in s && s[tag] != [] && s[tag][0] == v
  }

  /** handleAePrecaptureCancelRequestLocked: the settings for the HAL, and the override if one was made. */
  function Translate(d: Device, settings: Option<Settings>): (Option<Settings>, Option<Override>) {
    if !d.legacy || settings.None? || settings.value == map[] then (settings, None)
    else
      var s := settings.value;
      if !FirstIs(s, AE_TRIGGER, TRIGGER_CANCEL) then (settings, None)
      else
        var s1 := s[AE_TRIGGER := [TRIGGER_IDLE]];
        if d.aeLockAvailable && (AE_LOCK !in s || s[AE_LOCK] == [] || s[AE_LOCK][0] == LOCK_OFF) then
          (Some(s1[AE_LOCK := [LOCK_ON]]), Some(Override(true, LOCK_OFF, true, TRIGGER_CANCEL)))
        else (Some(s1), Some(Override(false, LOCK_OFF, true, TRIGGER_CANCEL)))
  }

  /** overrideResultForPrecaptureCancelLocked. */
  function Restore(o: Override, s: Settings): Settings {
    var s1 := if o.applyAeLock then s[AE_LOCK := [o.aeLock]] else s;
    if o.applyTrigger then s1[AE_TRIGGER := [o.trigger]] else s1
  }

  // ---- the operations on the tables ----

  /** Recording a request before it goes to the HAL. */
  function Admit(t: Tables, d: Device, r: Request): Tables {
    var o := Translate(d, r.settings).1;
    t.(inflight := t.inflight + RequestPairs(r),
       overrides := if o.Some? then t.overrides[r.frame := o.value] else t.overrides)
  }

  /** Rolling a request back when the HAL refuses it. */
  function RollBack(t: Tables, d: Device, r: Request): Tables {
    t.(inflight := t.inflight - RequestPairs(r),
       overrides := if Translate(d, r.settings).1.Some? then t.overrides - {r.frame} else t.overrides)
  }

  /** Whether every buffer a result returns is in flight. */
  predicate Acceptable(t: Tables, r: HalResult) {
    ResultPairs(r) <= t.inflight
  }

  /** Whether the frame's boost key was seen, this partial included. */
  function BoostSeen(t: Tables, frame: nat, md: Settings): bool {
    RAW_BOOST in md || (frame in t.boost && t.boost[frame])
  }

  predicate AddsBoost(t: Tables, d: Device, r: HalResult) {
    d.deriveBoost && r.metadata.Some? && r.partial == d.numPartial && !BoostSeen(t, r.frame, r.metadata.value)
  }

  /** The metadata sent up for an acceptable result that carries some. */
  function SentMetadata(t: Tables, d: Device, r: HalResult): Settings
    requires r.metadata.Some?
  {
    var md := r.metadata.value;
    var md1 := if AddsBoost(t, d, r) then md[RAW_BOOST := [DEFAULT_BOOST]] else md;
    if r.frame in t.overrides then Restore(t.overrides[r.frame], md1) else md1
  }

  /** The tables after an acceptable result. */
  function Returned(t: Tables, d: Device, r: HalResult): Tables {
    var t1 := t.(inflight := t.inflight - ResultPairs(r));
    if r.metadata.None? then t1
    else
      var final := r.partial == d.numPartial;
      t1.(overrides := if final then t1.overrides - {r.frame} else t1.overrides,
          boost := if !d.deriveBoost then t1.boost
                   else if final then t1.boost - {r.frame}
                   else t1.boost[r.frame := BoostSeen(t, r.frame, r.metadata.value)])
  }

  datatype ErrorCode = ErrorDevice | ErrorRequest | ErrorResult | ErrorBuffer | ErrorOther

  /** The tables after an error for a frame that names a known stream, or none. */
  function Errored(t: Tables, frame: nat, code: ErrorCode): Tables {
    if code.ErrorDevice? || code.ErrorRequest? || code.ErrorResult? then
      t.(overrides := t.overrides - {frame}, boost := t.boost - {frame})
    else t
  }

  // ---- histories ----

  datatype TableEvent =
    | Admitted(req: Request)
    | Rejected(req: Request)
    | Result(res: HalResult)
    | Error(frame: nat, code: ErrorCode)

  const EmptyTables := Tables({}, map[], map[])

  function Step(t: Tables, d: Device, e: TableEvent): Tables {
    match e
    case Admitted(r) => Admit(t, d, r)
    case Rejected(r) => RollBack(t, d, r)
    case Result(r) => if Acceptable(t, r) then Returned(t, d, r) else t
    case Error(f, code) => Errored(t, f, code)
  }

  /** The tables after a history of events. */
  function After(d: Device, h: seq<TableEvent>): Tables {
    if h == [] then EmptyTables else Step(After(d, h[..|h| - 1]), d, h[|h| - 1])
  }

  lemma AfterAppend(d: Device, h: seq<TableEvent>, e: TableEvent)
    ensures After(d, h + [e]) == Step(After(d, h), d, e)
  {
    assert (h + [e])[..|h|] == h;
  }

  // ---- conservation of (stream, frame) pairs ----

  ghost predicate Submitted(h: seq<TableEvent>, p: Pair) {
    exists i :: 0 <= i < |h| && h[i].Admitted? && p in RequestPairs(h[i].req)
  }

  ghost predicate RolledBack(h: seq<TableEvent>, p: Pair) {
    exists i :: 0 <= i < |h| && h[i].Rejected? && p in RequestPairs(h[i].req)
  }

  /** The pair was returned by a result that was accepted when it came. */
  ghost predicate ReturnedIn(d: Device, h: seq<TableEvent>, p: Pair) {
    exists i :: 0 <= i < |h| && h[i].Result? && Acceptable(After(d, h[..i]), h[i].res) && p in ResultPairs(h[i].res)
  }

  /**
   Request and rejection in good order: a request names pairs never submitted
   before, and the HAL refuses only a request whose pairs it still holds.
   */
  ghost predicate InOrder(d: Device, h: seq<TableEvent>, e: TableEvent) {
    match e
    case Admitted(r) => forall p :: p in RequestPairs(r) ==> !Submitted(h, p)
    case Rejected(r) =>
      forall p :: p in RequestPairs(r) ==> Submitted(h, p) && !RolledBack(h, p) && !ReturnedIn(d, h, p)
    case _ => true
  }

  ghost predicate Orderly(d: Device, h: seq<TableEvent>) {
    forall i :: 0 <= i < |h| ==> InOrder(d, h[..i], h[i])
  }

  lemma OrderlyPrefix(d: Device, h: seq<TableEvent>)
    requires Orderly(d, h) && h != []
    ensures Orderly(d, h[..|h| - 1]) && InOrder(d, h[..|h| - 1], h[|h| - 1])
  {
    var init := h[..|h| - 1];
    forall i | 0 <= i < |init|
      ensures InOrder(d, init[..i], init[i])
    {
      assert init[..i] == h[..i];
    }
  }

  /** How the three sets grow by one event. */
  lemma PairsGrow(d: Device, h: seq<TableEvent>, e: TableEvent, p: Pair)
    ensures Submitted(h + [e], p) <==> Submitted(h, p) || (e.Admitted? && p in RequestPairs(e.req))
    ensures RolledBack(h + [e], p) <==> RolledBack(h, p) || (e.Rejected? && p in RequestPairs(e.req))
    ensures ReturnedIn(d, h + [e], p) <==>
            ReturnedIn(d, h, p) || (e.Result? && Acceptable(After(d, h), e.res) && p in ResultPairs(e.res))
  {
    var h' := h + [e];
    assert h'[..|h|] == h && h'[|h|] == e;
    assert forall i :: 0 <= i < |h| ==> h'[..i] == h[..i] && h'[i] == h[i];
  }

  /**
   In-flight conservation: after any orderly history a pair is in flight exactly
   when it was submitted and neither rolled back nor returned, and it is never
   both rolled back and returned.
   */
  lemma {:induction false} InflightConserved(d: Device, h: seq<TableEvent>, p: Pair)
    requires Orderly(d, h)
    ensures p in After(d, h).inflight <==> Submitted(h, p) && !RolledBack(h, p) && !ReturnedIn(d, h, p)
    ensures RolledBack(h, p) || ReturnedIn(d, h, p) ==> Submitted(h, p)
    ensures !(RolledBack(h, p) && ReturnedIn(d, h, p))
    decreases |h|
  {
    if h != [] {
      var init, e := h[..|h| - 1], h[|h| - 1];
      OrderlyPrefix(d, h);
      InflightConserved(d, init, p);
      assert h == init + [e];
      PairsGrow(d, init, e, p);
      AfterAppend(d, init, e);
    }
  }

  /**
   Which results are accepted: after any orderly history, exactly those all of whose
   pairs were submitted and neither rolled back nor returned.
   */
  lemma AcceptedIff(d: Device, h: seq<TableEvent>, r: HalResult)
    requires Orderly(d, h)
    ensures Acceptable(After(d, h), r) <==>
            forall p :: p in ResultPairs(r) ==> Submitted(h, p) && !RolledBack(h, p) && !ReturnedIn(d, h, p)
  {
    forall p | p in ResultPairs(r)
      ensures p in After(d, h).inflight <==> Submitted(h, p) && !RolledBack(h, p) && !ReturnedIn(d, h, p)
    {
      InflightConserved(d, h, p);
    }
  }

  /** A pair already returned or rolled back is refused, and refusing changes nothing. */
  lemma SecondReturnRefused(d: Device, h: seq<TableEvent>, r: HalResult, p: Pair)
    requires Orderly(d, h) && p in ResultPairs(r)
    requires ReturnedIn(d, h, p) || RolledBack(h, p) || !Submitted(h, p)
    ensures !Acceptable(After(d, h), r) && After(d, h + [Result(r)]) == After(d, h)
  {
    InflightConserved(d, h, p);
    AfterAppend(d, h, Result(r));
  }

  // ---- the precapture-cancel translation ----

  /**
   An old HAL never sees the cancel trigger. A request is translated exactly when
   it asks an old HAL for cancel; then the trigger reads idle, the lock is forced
   on exactly when it can be and was not already set, and nothing else changes.
   */
  lemma TranslationHidesCancel(d: Device, settings: Option<Settings>)
    ensures var (hal, o) := Translate(d, settings);
            && (d.legacy && hal.Some? ==> !FirstIs(hal.value, AE_TRIGGER, TRIGGER_CANCEL))
            && (o.Some? <==> d.legacy && settings.Some? && FirstIs(settings.value, AE_TRIGGER, TRIGGER_CANCEL))
            && (o.None? ==> hal == settings)
            && (o.Some? ==>
                  hal.Some? && hal.value.Keys - {AE_LOCK} == settings.value.Keys - {AE_LOCK}
                  && hal.value[AE_TRIGGER] == [TRIGGER_IDLE]
                  && (o.value.applyAeLock ==> AE_LOCK in hal.value && hal.value[AE_LOCK] == [LOCK_ON])
                  && (o.value.applyAeLock <==>
                        d.aeLockAvailable
                        && (AE_LOCK !in settings.value || settings.value[AE_LOCK] == []
                            || FirstIs(settings.value, AE_LOCK, LOCK_OFF)))
                  && forall tag :: tag in hal.value && tag != AE_TRIGGER && (tag != AE_LOCK || !o.value.applyAeLock) ==>
                       tag in settings.value && hal.value[tag] == settings.value[tag])
  {
  }

  /** A final partial, or a fatal error, ends the tracking of a frame. */
  ghost predicate EndAt(d: Device, h: seq<TableEvent>, i: nat, f: nat)
    requires i < |h|
  {
    match h[i]
    case Result(r) => Acceptable(After(d, h[..i]), r) && r.frame == f && r.metadata.Some? && r.partial == d.numPartial
    case Error(f', code) => f' == f && (code.ErrorDevice? || code.ErrorRequest? || code.ErrorResult?)
    case _ => false
  }

  ghost predicate OverriddenAt(d: Device, h: seq<TableEvent>, i: nat, f: nat)
    requires i < |h|
  {
    h[i].Admitted? && h[i].req.frame == f && Translate(d, h[i].req.settings).1.Some?
  }

  ghost predicate OverrideRejectedAt(d: Device, h: seq<TableEvent>, i: nat, f: nat)
    requires i < |h|
  {
    h[i].Rejected? && h[i].req.frame == f && Translate(d, h[i].req.settings).1.Some?
  }

  /** TableEvent i overrode frame f, and since then f was neither overridden anew, rejected, finished nor errored. */
  ghost predicate LiveOverride(d: Device, h: seq<TableEvent>, i: nat, f: nat) {
    && i < |h| && OverriddenAt(d, h, i, f)
    && forall j :: i < j < |h| ==> !OverriddenAt(d, h, j, f) && !OverrideRejectedAt(d, h, j, f) && !EndAt(d, h, j, f)
  }

  lemma PrefixSame(d: Device, h: seq<TableEvent>, e: TableEvent, i: nat, f: nat)
    requires i < |h|
    ensures EndAt(d, h + [e], i, f) == EndAt(d, h, i, f)
    ensures OverriddenAt(d, h + [e], i, f) == OverriddenAt(d, h, i, f)
    ensures OverrideRejectedAt(d, h + [e], i, f) == OverrideRejectedAt(d, h, i, f)
    ensures PartialAt(d, h + [e], i, f) == PartialAt(d, h, i, f)
    ensures (h + [e])[i] == h[i]
  {
    assert (h + [e])[..i] == h[..i];
  }

  lemma LastEvent(d: Device, h: seq<TableEvent>, e: TableEvent)
    ensures (h + [e])[..|h|] == h && (h + [e])[|h|] == e
  {
  }

  /** How live overrides change with one more event. */
  lemma LiveOverrideGrows(d: Device, h: seq<TableEvent>, e: TableEvent, i: nat, f: nat)
    ensures LiveOverride(d, h + [e], i, f) <==>
            if i == |h| then OverriddenAt(d, h + [e], i, f)
            else LiveOverride(d, h, i, f) && !OverriddenAt(d, h + [e], |h|, f)
                 && !OverrideRejectedAt(d, h + [e], |h|, f) && !EndAt(d, h + [e], |h|, f)
  {
    LastEvent(d, h, e);
    if i < |h| {
      forall j | i <= j < |h|
        ensures EndAt(d, h + [e], j, f) == EndAt(d, h, j, f)
        ensures OverriddenAt(d, h + [e], j, f) == OverriddenAt(d, h, j, f)
        ensures OverrideRejectedAt(d, h + [e], j, f) == OverrideRejectedAt(d, h, j, f)
      {
        PrefixSame(d, h, e, j, f);
      }
    }
  }

  /**
   After any history the override table has an entry exactly for the frames with a
   live override, and the entry is the one made by that request.
   */
  lemma {:induction false} OverridesAreLive(d: Device, h: seq<TableEvent>, f: nat)
    ensures f in After(d, h).overrides <==> exists i: nat :: LiveOverride(d, h, i, f)
    ensures forall i: nat :: LiveOverride(d, h, i, f) ==>
              f in After(d, h).overrides && Some(After(d, h).overrides[f]) == Translate(d, h[i].req.settings).1
    decreases |h|
  {
    if h != [] {
      var init, e := h[..|h| - 1], h[|h| - 1];
      assert h == init + [e];
      OverridesAreLive(d, init, f);
      AfterAppend(d, init, e);
      LastEvent(d, init, e);
      forall i: nat
        ensures LiveOverride(d, h, i, f) <==>
                if i == |init| then OverriddenAt(d, h, i, f)
                else LiveOverride(d, init, i, f) && !OverriddenAt(d, h, |init|, f)
                     && !OverrideRejectedAt(d, h, |init|, f) && !EndAt(d, h, |init|, f)
      {
        LiveOverrideGrows(d, init, e, i, f);
      }
      OverrideStep(d, init, e, f);
      if OverriddenAt(d, h, |init|, f) {
        assert LiveOverride(d, h, |init|, f);
      } else if f in After(d, h).overrides {
        var i: nat :| LiveOverride(d, init, i, f);
        assert LiveOverride(d, h, i, f);
      }
      forall i: nat | LiveOverride(d, h, i, f)
        ensures f in After(d, h).overrides && Some(After(d, h).overrides[f]) == Translate(d, h[i].req.settings).1
      {
        if i < |init| {
          assert LiveOverride(d, init, i, f);
          assert init[i] == h[i];
        }
      }
    }
  }

  /** What one event does to a frame's override entry. */
  lemma OverrideStep(d: Device, h: seq<TableEvent>, e: TableEvent, f: nat)
    ensures var t, t' := After(d, h), Step(After(d, h), d, e);
            if OverriddenAt(d, h + [e], |h|, f) then
              f in t'.overrides && Some(t'.overrides[f]) == Translate(d, e.req.settings).1
            else if OverrideRejectedAt(d, h + [e], |h|, f) || EndAt(d, h + [e], |h|, f) then f !in t'.overrides
            else (f in t'.overrides <==> f in t.overrides)
                 && (f in t.overrides ==> t'.overrides[f] == t.overrides[f])
  {
    LastEvent(d, h, e);
  }

  /**
   Every metadata result of an overridden frame, up to and including the final
   one, shows the client its cancel trigger again, and the lock off exactly when
   it had been forced on; every other tag is the HAL's, apart from a derived boost.
   */
  lemma ResultShowsCancel(d: Device, h: seq<TableEvent>, i: nat, r: HalResult)
    requires LiveOverride(d, h, i, r.frame) && r.metadata.Some?
    ensures var o := Translate(d, h[i].req.settings).1.value;
            var sent := SentMetadata(After(d, h), d, r);
            && AE_TRIGGER in sent && sent[AE_TRIGGER] == [TRIGGER_CANCEL]
            && (o.applyAeLock ==> AE_LOCK in sent && sent[AE_LOCK] == [LOCK_OFF])
            && forall tag :: tag != AE_TRIGGER && (tag != AE_LOCK || !o.applyAeLock)
                             && (tag != RAW_BOOST || !AddsBoost(After(d, h), d, r)) ==>
                 (tag in sent <==> tag in r.metadata.value)
                 && (tag in sent ==> sent[tag] == r.metadata.value[tag])
  {
    OverridesAreLive(d, h, r.frame);
  }

  /** A frame without a live override gets the HAL's metadata, apart from a derived boost. */
  lemma ResultUntouched(d: Device, h: seq<TableEvent>, r: HalResult)
    requires r.metadata.Some? && forall i: nat :: !LiveOverride(d, h, i, r.frame)
    ensures SentMetadata(After(d, h), d, r) ==
            if AddsBoost(After(d, h), d, r) then r.metadata.value[RAW_BOOST := [DEFAULT_BOOST]] else r.metadata.value
  {
    OverridesAreLive(d, h, r.frame);
  }

  // ---- the derived post-RAW boost ----

  /** An accepted result with metadata for frame f. */
  ghost predicate PartialAt(d: Device, h: seq<TableEvent>, i: nat, f: nat)
    requires i < |h|
  {
    h[i].Result? && Acceptable(After(d, h[..i]), h[i].res) && h[i].res.frame == f && h[i].res.metadata.Some?
  }

  ghost predicate NoEndFrom(d: Device, h: seq<TableEvent>, i: nat, f: nat) {
    forall j :: i <= j < |h| ==> !EndAt(d, h, j, f)
  }

  /** Frame f has begun, and not finished or errored since. */
  ghost predicate Begun(d: Device, h: seq<TableEvent>, f: nat) {
    exists i :: 0 <= i < |h| && PartialAt(d, h, i, f) && NoEndFrom(d, h, i, f)
  }

  /** One of the partials of f since it began carried the boost key. */
  ghost predicate KeySeen(d: Device, h: seq<TableEvent>, f: nat) {
    exists i :: 0 <= i < |h| && PartialAt(d, h, i, f) && RAW_BOOST in h[i].res.metadata.value && NoEndFrom(d, h, i, f)
  }

  lemma NoEndGrows(d: Device, h: seq<TableEvent>, e: TableEvent, i: nat, f: nat)
    requires i <= |h|
    ensures NoEndFrom(d, h + [e], i, f) <==> NoEndFrom(d, h, i, f) && !EndAt(d, h + [e], |h|, f)
  {
    forall j | i <= j < |h|
      ensures EndAt(d, h + [e], j, f) == EndAt(d, h, j, f)
    {
      PrefixSame(d, h, e, j, f);
    }
  }

  lemma BegunGrows(d: Device, h: seq<TableEvent>, e: TableEvent, f: nat)
    ensures Begun(d, h + [e], f) <==>
            (Begun(d, h, f) || PartialAt(d, h + [e], |h|, f)) && !EndAt(d, h + [e], |h|, f)
  {
    var h' := h + [e];
    LastEvent(d, h, e);
    if Begun(d, h', f) {
      var i :| 0 <= i < |h'| && PartialAt(d, h', i, f) && NoEndFrom(d, h', i, f);
      assert !EndAt(d, h', |h|, f);
      if i < |h| {
        PrefixSame(d, h, e, i, f);
        NoEndGrows(d, h, e, i, f);
      }
    }
    if PartialAt(d, h', |h|, f) && !EndAt(d, h', |h|, f) {
      assert NoEndFrom(d, h', |h|, f);
    } else if Begun(d, h, f) && !EndAt(d, h', |h|, f) {
      var i :| 0 <= i < |h| && PartialAt(d, h, i, f) && NoEndFrom(d, h, i, f);
      PrefixSame(d, h, e, i, f);
      NoEndGrows(d, h, e, i, f);
    }
  }

  lemma KeySeenGrows(d: Device, h: seq<TableEvent>, e: TableEvent, f: nat)
    ensures KeySeen(d, h + [e], f) <==>
            (KeySeen(d, h, f) || (PartialAt(d, h + [e], |h|, f) && RAW_BOOST in e.res.metadata.value))
            && !EndAt(d, h + [e], |h|, f)
  {
    var h' := h + [e];
    LastEvent(d, h, e);
    if KeySeen(d, h', f) {
      var i :| 0 <= i < |h'| && PartialAt(d, h', i, f) && RAW_BOOST in h'[i].res.metadata.value
               && NoEndFrom(d, h', i, f);
      assert !EndAt(d, h', |h|, f);
      if i < |h| {
        PrefixSame(d, h, e, i, f);
        NoEndGrows(d, h, e, i, f);
      }
    }
    if PartialAt(d, h', |h|, f) && RAW_BOOST in e.res.metadata.value && !EndAt(d, h', |h|, f) {
      assert NoEndFrom(d, h', |h|, f);
    } else if KeySeen(d, h, f) && !EndAt(d, h', |h|, f) {
      var i :| 0 <= i < |h| && PartialAt(d, h, i, f) && RAW_BOOST in h[i].res.metadata.value && NoEndFrom(d, h, i, f);
      PrefixSame(d, h, e, i, f);
      NoEndGrows(d, h, e, i, f);
    }
  }

  /**
   With results of many frames interleaved in any way, the tracking map holds
   exactly the frames begun and not finished or errored, each with whether a
   partial of it carried the key.
   */
  lemma {:induction false} BoostTracksFrames(d: Device, h: seq<TableEvent>, f: nat)
    requires d.deriveBoost
    ensures f in After(d, h).boost <==> Begun(d, h, f)
    ensures f in After(d, h).boost && After(d, h).boost[f] <==> KeySeen(d, h, f)
    decreases |h|
  {
    if h != [] {
      var init, e := h[..|h| - 1], h[|h| - 1];
      assert h == init + [e];
      BoostTracksFrames(d, init, f);
      AfterAppend(d, init, e);
      LastEvent(d, init, e);
      BegunGrows(d, init, e, f);
      KeySeenGrows(d, init, e, f);
    }
  }

  /**
   The default boost goes into the final partial of a frame and into no other, and
   exactly when no partial of the frame since it began, the final one included,
   carried the key.
   */
  lemma DefaultBoostExactly(d: Device, h: seq<TableEvent>, r: HalResult)
    requires d.deriveBoost && r.metadata.Some?
    ensures AddsBoost(After(d, h), d, r) <==>
            r.partial == d.numPartial && RAW_BOOST !in r.metadata.value && !KeySeen(d, h, r.frame)
  {
    BoostTracksFrames(d, h, r.frame);
  }

  /**
   Every completed frame shows the boost: when the final partial is accepted,
   either it carries the key as sent up, or an earlier partial of the same frame did.
   */
  lemma CompletedFrameShowsBoost(d: Device, h: seq<TableEvent>, r: HalResult)
    requires d.deriveBoost && r.metadata.Some? && r.partial == d.numPartial
    ensures RAW_BOOST in SentMetadata(After(d, h), d, r)
            || exists i :: 0 <= i < |h| && PartialAt(d, h, i, r.frame) && NoEndFrom(d, h, i, r.frame)
                           && RAW_BOOST in SentMetadata(After(d, h[..i]), d, h[i].res)
  {
    DefaultBoostExactly(d, h, r);
    if KeySeen(d, h, r.frame) && RAW_BOOST !in r.metadata.value {
      var i :| 0 <= i < |h| && PartialAt(d, h, i, r.frame) && RAW_BOOST in h[i].res.metadata.value
               && NoEndFrom(d, h, i, r.frame);
      assert RAW_BOOST in SentMetadata(After(d, h[..i]), d, h[i].res);
    }
  }
}
