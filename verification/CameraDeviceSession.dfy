/**
 The camera session as the object the framework and the HAL call into. Every
 method is proved to do what CaptureSession says of the session as a value. A call
 runs to its end before the next one; the HAL's and the importer's answers come in
 with the arguments.
 */
module CameraDeviceSession {
  import opened CaptureTypes
  import opened Collections
  import opened StreamCaches
  import opened CaptureTables
  import opened CaptureSession

  class CameraDeviceSession {
    const device: Device
    const freeBufEarly: bool

    var initFail: bool
    var disconnected: bool
    var closed: bool
    var halCloses: nat
    var firstRequest: bool
    var videoStreamIds: seq<int>

    var streamMap: map<int, Stream>
    var physicalCameraIdMap: map<int, string>
    var circulatingBuffers: map<int, map<nat, Handle>>
    var imported: nat                  // handles imported so far
    var freed: multiset<Handle>        // handles handed back to the importer

    var inflightBuffers: set<Pair>
    var inflightAETriggerOverrides: map<nat, Override>
    var inflightRawBoostPresent: map<nat, bool>

    function Cache(): Caches
      reads this
    {
      Caches(streamMap, physicalCameraIdMap, circulatingBuffers, imported, freed)
    }

    function Table(): Tables
      reads this
    {
      Tables(inflightBuffers, inflightAETriggerOverrides, inflightRawBoostPresent)
    }

    function View(): Session
      reads this
    {
      Session(initFail, disconnected, closed, halCloses, firstRequest, videoStreamIds, Cache(), Table())
    }

    constructor (d: Device, early: bool, outcome: InitOutcome)
      ensures View() == New(outcome) && device == d && freeBufEarly == early
    {
      device, freeBufEarly := d, early;
      initFail := !outcome.InitOk?;
      disconnected, closed, halCloses, firstRequest, videoStreamIds := false, false, 0, false, [];
      streamMap, physicalCameraIdMap, circulatingBuffers, imported, freed := map[], map[], map[], 0, multiset{};
      inflightBuffers, inflightAETriggerOverrides, inflightRawBoostPresent := {}, map[], map[];
      new;
      if outcome.HalInitFailed? {
        halCloses := 1;
        closed := true;
      }
    }

    // ---- the buffer caches ----

    /** Free every handle of one stream and drop its cache. */
    method CleanupBuffers(id: int)
      requires id in circulatingBuffers && Accounted(Cache())
      modifies this`circulatingBuffers, this`freed
      ensures Cache() == Cleanup(old(Cache()), {id})
    {
      ghost var before := Cache();
      ghost var gone: set<Handle> := {};
      var todo: set<int> := set b | b in circulatingBuffers[id].Keys :: b as int;
      while todo != {}
        invariant Cache() == before.(freed := before.freed + multiset(gone))
        invariant forall b :: b in todo ==> b >= 0 && b as nat in circulatingBuffers[id]
        invariant gone == set b: nat | b in circulatingBuffers[id] && b !in todo :: circulatingBuffers[id][b]
        decreases todo
      {
        ghost var _ := HasElement(todo);
        var b :| b in todo;
        FreeSlot(before, id, b as nat, gone, todo);
        OneMoreGone(circulatingBuffers[id], b as nat, gone, todo);
        gone := gone + {circulatingBuffers[id][b as nat]};
        todo := todo - {b};
      }
      circulatingBuffers := circulatingBuffers - {id};
      assert gone == HandlesIn(before.buffers, {id});
    }

    lemma OneMoreGone(cache: map<nat, Handle>, b: nat, gone: set<Handle>, todo: set<int>)
      requires b in cache && b in todo && gone == set b': nat | b' in cache && b' !in todo :: cache[b']
      ensures gone + {cache[b]} == set b': nat | b' in cache && b' !in todo - {b} :: cache[b']
    {
    }

    lemma NewlyFreed(c: Caches, id: int, b: nat, gone: set<Handle>, todo: set<int>)
      requires Accounted(c) && id in c.buffers && b in c.buffers[id] && b in todo
      requires gone == set b': nat | b' in c.buffers[id] && b' !in todo :: c.buffers[id][b']
      ensures c.buffers[id][b] !in gone
      ensures multiset(gone + {c.buffers[id][b]}) == multiset(gone) + multiset{c.buffers[id][b]}
    {
      var h := c.buffers[id][b];
      if h in gone {
        var b' :| b' in c.buffers[id] && b' !in todo && c.buffers[id][b'] == h;
        assert Cached(c, id, b, h) && Cached(c, id, b', h);
      }
    }

    /** Free the handle of one more slot of a stream. */
    method FreeSlot(ghost before: Caches, id: int, b: nat, ghost gone: set<Handle>, ghost todo: set<int>)
      requires Accounted(before) && id in before.buffers && b in before.buffers[id] && b in todo
      requires gone == set b': nat | b' in before.buffers[id] && b' !in todo :: before.buffers[id][b']
      requires Cache() == before.(freed := before.freed + multiset(gone))
      modifies this`freed
      ensures Cache() == before.(freed := before.freed + multiset(gone + {before.buffers[id][b]}))
    {
      FreeOne(circulatingBuffers[id][b]);
      NewlyFreed(before, id, b, gone, todo);
    }

    method FreeOne(h: Handle)
      modifies this`freed
      ensures freed == old(freed) + multiset{h}
    {
      freed := freed + multiset{h};
    }

    /** Freeing one more stream's cache. */
    lemma CleanupOneMore(c: Caches, done: set<int>, id: int)
      requires Accounted(c) && id !in done && id in c.buffers
      ensures Accounted(Cleanup(c, done)) && id in Cleanup(c, done).buffers
      ensures Cleanup(Cleanup(c, done), {id}) == Cleanup(c, done + {id})
    {
      CleanupAccounts(c, done);
      var c1 := Cleanup(c, done);
      var a, b := HandlesIn(c.buffers, done), HandlesIn(c.buffers, {id});
      assert c1.buffers[id] == c.buffers[id];
      assert b == set x | x in c.buffers[id] :: c.buffers[id][x];
      assert HandlesIn(c1.buffers, {id}) == b;
      forall h | h in a
        ensures h !in b
      {
        var i, x :| i in done && i in c.buffers && x in c.buffers[i] && c.buffers[i][x] == h;
        assert Cached(c, i, x, h);
        assert forall y :: y in c.buffers[id] ==> Cached(c, id, y, c.buffers[id][y]);
      }
      assert HandlesIn(c.buffers, done + {id}) == a + b;
      assert multiset(a + b) == multiset(a) + multiset(b);
      assert (c.buffers - done) - {id} == c.buffers - (done + {id});
    }

    method IsRequested(reqs: seq<StreamRequest>, id: int) returns (found: bool)
      ensures found == Requested(reqs, id)
    {
      found := false;
      for i := 0 to |reqs|
        invariant !found && forall j :: 0 <= j < i ==> reqs[j].id != id
      {
        if reqs[i].id == id {
          return true;
        }
      }
    }

    /** Free the cache of one more stream. */
    method CleanupNext(ghost before: Caches, ghost done: set<int>, id: int)
      requires Accounted(before) && id !in done && id in before.buffers
      requires Cache() == Cleanup(before, done)
      modifies this`circulatingBuffers, this`freed
      ensures Cache() == Cleanup(before, done + {id})
    {
      CleanupOneMore(before, done, id);
      CleanupBuffers(id);
    }

    /** Free the caches of every configured stream that is not requested. */
    method CleanupDeleted(reqs: seq<StreamRequest>)
      requires Accounted(Cache()) && streamMap.Keys <= circulatingBuffers.Keys
      modifies this`circulatingBuffers, this`freed
      ensures Cache() == Cleanup(old(Cache()), Deleted(old(Cache()), reqs))
    {
      ghost var before := Cache();
      ghost var deleted := Deleted(before, reqs);
      var todo := streamMap.Keys;
      NothingCleaned(before);
      AllVisited(deleted);
      assert deleted - todo == {};
      while todo != {}
        invariant todo <= streamMap.Keys && streamMap == before.streams
        invariant Cache() == Cleanup(before, deleted - todo)
        decreases todo
      {
        ghost var _ := HasElement(todo);
        var id :| id in todo;
        VisitOne(deleted, todo, id);
        var found := IsRequested(reqs, id);
        if !found {
          CleanupNext(before, deleted - todo, id);
        }
        todo := todo - {id};
      }
    }

    lemma NothingCleaned(c: Caches)
      ensures Cleanup(c, {}) == c
    {
      assert HandlesIn(c.buffers, {}) == {};
      assert c.buffers - {} == c.buffers;
    }

    // ---- configuring streams ----

    method TakeInStreams(reqs: seq<StreamRequest>) returns (ok: bool)
      modifies this`streamMap, this`physicalCameraIdMap, this`circulatingBuffers
      ensures (ok, Cache()) == TakeIn(old(Cache()), reqs)
    {
      ok := true;
      for i := 0 to |reqs|
        invariant ok && (true, Cache()) == TakeIn(old(Cache()), reqs[..i])
      {
        var req := reqs[i];
        var id := req.id;
        TakeInPrefix(old(Cache()), reqs, i);
        if id !in streamMap {
          streamMap := streamMap[id := req.info];
          physicalCameraIdMap := physicalCameraIdMap[id := req.physicalCameraId];
          if id !in circulatingBuffers {
            circulatingBuffers := circulatingBuffers[id := map[]];
          }
        } else {
          var physical := if id in physicalCameraIdMap then physicalCameraIdMap[id] else "";
          if streamMap[id].streamType != req.info.streamType || streamMap[id].width != req.info.width
             || streamMap[id].height != req.info.height || physical != req.physicalCameraId {
            TakeInStops(old(Cache()), reqs, i + 1);
            return false;
          }
          streamMap := streamMap[id := streamMap[id].(format := req.info.format, dataSpace := req.info.dataSpace,
                                                      rotation := req.info.rotation, usage := req.info.usage)];
        }
      }
      assert reqs[..|reqs|] == reqs;
    }

    lemma TakeInPrefix(c: Caches, reqs: seq<StreamRequest>, i: nat)
      requires i < |reqs|
      ensures reqs[..i + 1][..|reqs[..i + 1]| - 1] == reqs[..i] && reqs[..i + 1][|reqs[..i + 1]| - 1] == reqs[i]
    {
    }

    lemma {:induction false} TakeInStops(c: Caches, reqs: seq<StreamRequest>, n: nat)
      requires n <= |reqs| && !TakeIn(c, reqs[..n]).0
      ensures TakeIn(c, reqs) == TakeIn(c, reqs[..n])
      decreases |reqs|
    {
      if n == |reqs| {
        assert reqs[..n] == reqs;
      } else {
        var init := reqs[..|reqs| - 1];
        assert init[..n] == reqs[..n];
        TakeInStops(c, init, n);
      }
    }

    method PreProcessConfiguration(reqs: seq<StreamRequest>) returns (ok: bool)
      requires Accounted(Cache()) && KeysAgree(Cache())
      modifies this`streamMap, this`physicalCameraIdMap, this`circulatingBuffers, this`freed
      ensures (ok, Cache()) == PreProcess(old(Cache()), reqs, freeBufEarly)
    {
      TakeInKeeps(Cache(), reqs);
      ghost var before := Cache();
      ok := TakeInStreams(reqs);
      if ok && freeBufEarly {
        SameSlotsAccount(before, Cache());
        CleanupDeleted(reqs);
      }
    }

    /** Drop the streams that are not requested. */
    method EraseDeleted(reqs: seq<StreamRequest>)
      modifies this`streamMap
      ensures streamMap == old(streamMap) - Deleted(old(Cache()), reqs)
    {
      ghost var before := Cache();
      var todo := streamMap.Keys;
      while todo != {}
        invariant todo <= streamMap.Keys
        invariant streamMap == before.streams - (set id | id in before.streams && id !in todo && !Requested(reqs, id))
        decreases todo
      {
        ghost var _ := HasElement(todo);
        var id :| id in todo;
        var found := IsRequested(reqs, id);
        if !found {
          streamMap := streamMap - {id};
        }
        todo := todo - {id};
      }
      assert Deleted(before, reqs) == set id | id in before.streams && id !in todo && !Requested(reqs, id);
    }

    method TrackVideoStreams(reqs: seq<StreamRequest>)
      modifies this`videoStreamIds
      ensures videoStreamIds == VideoIds(reqs)
    {
      videoStreamIds := [];
      for i := 0 to |reqs|
        invariant videoStreamIds == VideoIds(reqs[..i])
      {
        assert reqs[..i + 1][..i] == reqs[..i];
        if IsVideo(reqs[i]) {
          videoStreamIds := videoStreamIds + [reqs[i].id];
        }
      }
      assert reqs[..|reqs|] == reqs;
    }

    method PostProcessConfiguration(reqs: seq<StreamRequest>)
      requires !freeBufEarly ==> Accounted(Cache()) && streamMap.Keys <= circulatingBuffers.Keys
      modifies this`streamMap, this`circulatingBuffers, this`freed, this`videoStreamIds
      ensures Cache() == PostProcess(old(Cache()), reqs, freeBufEarly)
      ensures videoStreamIds == VideoIds(reqs)
    {
      if !freeBufEarly {
        CleanupDeleted(reqs);
      }
      EraseDeleted(reqs);
      TrackVideoStreams(reqs);
    }

    /** Give one more stream a cache. */
    method RecreateNext(ghost before: Caches, ghost done: set<int>, id: int)
      requires Cache() == Recreate(before, done)
      modifies this`circulatingBuffers
      ensures Cache() == Recreate(before, done + {id})
    {
      if id !in circulatingBuffers {
        circulatingBuffers := circulatingBuffers[id := map[]];
      }
      assert circulatingBuffers == Recreate(before, done + {id}).buffers;
    }

    method PostProcessConfigurationFailure(reqs: seq<StreamRequest>)
      modifies this`circulatingBuffers
      ensures Cache() == PostProcessFailure(old(Cache()), reqs, freeBufEarly)
    {
      if freeBufEarly {
        ghost var before := Cache();
        ghost var done: set<int> := {};
        assert Recreate(before, done).buffers == before.buffers;
        var todo := streamMap.Keys;
        while todo != {}
          invariant todo <= streamMap.Keys
          invariant done == set id | id in before.streams && id !in todo && !Requested(reqs, id)
          invariant Cache() == Recreate(before, done)
          decreases todo
        {
          ghost var _ := HasElement(todo);
          var id :| id in todo;
          var found := IsRequested(reqs, id);
          if !found {
            RecreateNext(before, done, id);
            done := done + {id};
          }
          todo := todo - {id};
        }
        assert done == Deleted(before, reqs);
      }
    }

    /** Past the guards: pre-processing, the HAL, post-processing. */
    method ConfigureWithHal(reqs: seq<StreamRequest>, hal: HalConfig) returns (ok: bool)
      requires Accounted(Cache()) && KeysAgree(Cache())
      modifies this`streamMap, this`physicalCameraIdMap, this`circulatingBuffers, this`freed, this`videoStreamIds
      ensures ok == PreProcess(old(Cache()), reqs, freeBufEarly).0
      ensures Cache() == Configure(old(Cache()), reqs, freeBufEarly, hal.ConfigOk?)
      ensures videoStreamIds == if ok && hal.ConfigOk? then VideoIds(reqs) else old(videoStreamIds)
    {
      LateIsAccounted(Cache(), reqs);
      ok := PreProcessConfiguration(reqs);
      if ok && hal.ConfigOk? {
        PostProcessConfiguration(reqs);
      } else if ok {
        PostProcessConfigurationFailure(reqs);
      }
    }

    method ConfigureStreams(reqs: seq<StreamRequest>, hal: HalConfig) returns (st: Status)
      requires SessionInv(View())
      modifies this
      ensures (st, View()) == CaptureSession.ConfigureStreams(old(View()), reqs, freeBufEarly, hal)
    {
      st := InitStatus(View());
      if inflightBuffers != {} || inflightAETriggerOverrides != map[] || inflightRawBoostPresent != map[] {
        return InternalError;
      }
      if st != OK {
        return;
      }
      var ok := ConfigureWithHal(reqs, hal);
      if !ok {
        st := InternalError;
      } else if hal.ConfigOk? {
        firstRequest := true;
      } else {
        st := if hal.ConfigInvalid? then IllegalArgument else InternalError;
      }
    }

    lemma LateIsAccounted(c: Caches, reqs: seq<StreamRequest>)
      requires Accounted(c) && KeysAgree(c)
      ensures Accounted(PreProcess(c, reqs, false).1) && KeysAgree(PreProcess(c, reqs, false).1)
    {
      TakeInKeeps(c, reqs);
      SameSlotsAccount(c, TakeIn(c, reqs).1);
    }

    // ---- requests ----

    method ImportBuffer(id: int, bufId: nat, isNull: bool, importOk: bool, allowEmpty: bool) returns (r: Imported)
      modifies this`circulatingBuffers, this`imported
      ensures (r, Cache()) == Import(old(Cache()), id, bufId, isNull, importOk, allowEmpty)
    {
      if isNull && bufId == NO_BUFFER {
        return if allowEmpty then EmptySlot else NullHandle;
      }
      if id !in circulatingBuffers {
        circulatingBuffers := circulatingBuffers[id := map[]];
      }
      var cbs := circulatingBuffers[id];
      assert circulatingBuffers == old(circulatingBuffers)[id := cbs];
      if bufId !in cbs {
        if isNull || !importOk {
          return BadHandle;
        }
        cbs := cbs[bufId := imported];
        imported := imported + 1;
        circulatingBuffers := circulatingBuffers[id := cbs];
        assert circulatingBuffers == old(circulatingBuffers)[id := cbs];
      }
      r := Slot(cbs[bufId]);
    }

    method ImportAll(bufs: seq<BufferIn>, outputs: nat) returns (st: Status)
      modifies this`circulatingBuffers, this`imported
      ensures (st, Cache()) == ImportBuffers(old(Cache()), bufs, outputs)
    {
      st := OK;
      for i := 0 to |bufs|
        invariant st == OK && (OK, Cache()) == ImportBuffers(old(Cache()), bufs[..i], outputs)
      {
        var b := bufs[i];
        assert bufs[..i + 1][..i] == bufs[..i];
        var r := ImportBuffer(b.streamId, b.bufferId, b.isNull, b.importOk, i < outputs);
        st := ImportStatus(r);
        if st != OK {
          ImportStops(old(Cache()), bufs, i + 1, outputs);
          return;
        }
      }
      assert bufs[..|bufs|] == bufs;
    }

    lemma {:induction false} ImportStops(c: Caches, bufs: seq<BufferIn>, n: nat, outputs: nat)
      requires n <= |bufs| && ImportBuffers(c, bufs[..n], outputs).0 != OK
      ensures ImportBuffers(c, bufs, outputs) == ImportBuffers(c, bufs[..n], outputs)
      decreases |bufs|
    {
      if n == |bufs| {
        assert bufs[..n] == bufs;
      } else {
        assert bufs[..|bufs| - 1][..n] == bufs[..n];
        ImportStops(c, bufs[..|bufs| - 1], n, outputs);
      }
    }

    method ImportRequest(r: CaptureRequest) returns (st: Status)
      modifies this`circulatingBuffers, this`imported
      ensures (st, View()) == CaptureSession.ImportRequest(old(View()), r)
    {
      var bufs := r.Buffers();
      st := ImportAll(bufs, |r.outputs|);
      if st != OK {
        return;
      }
      for i := 0 to |bufs|
        invariant forall j :: 0 <= j < i ==> bufs[j].fenceOk
      {
        if !bufs[i].fenceOk {
          return InternalError;
        }
      }
    }

    /** handleAePrecaptureCancelRequestLocked. */
    method HandleAePrecaptureCancelRequest(settings: Option<Settings>)
      returns (needed: bool, hal: Option<Settings>, o: Override)
      ensures hal == Translate(device, settings).0
      ensures Translate(device, settings).1 == if needed then Some(o) else None
    {
      needed, hal, o := false, settings, Override(false, LOCK_OFF, false, TRIGGER_IDLE);
      if !device.legacy || settings.None? || settings.value == map[] {
        return;
      }
      var s := settings.value;
      if FirstIs(s, AE_TRIGGER, TRIGGER_CANCEL) {
        s := s[AE_TRIGGER := [TRIGGER_IDLE]];
        o := Override(false, LOCK_OFF, true, TRIGGER_CANCEL);
        if device.aeLockAvailable {
          if AE_LOCK !in s || s[AE_LOCK] == [] || s[AE_LOCK][0] == LOCK_OFF {
            s := s[AE_LOCK := [LOCK_ON]];
            o := o.(applyAeLock := true, aeLock := LOCK_OFF);
          }
        }
        needed, hal := true, Some(s);
      }
    }

    /** Record one buffer as in flight; looking its stream up enters it in the stream map. */
    method RecordBuffer(id: int, frame: nat)
      modifies this`inflightBuffers, this`streamMap, this`physicalCameraIdMap
      ensures inflightBuffers == old(inflightBuffers) + {(id, frame)}
      ensures Cache() == Touch(old(Cache()), id)
    {
      inflightBuffers := inflightBuffers + {(id, frame)};
      if id !in streamMap {
        streamMap := streamMap[id := BLANK];
      }
      if id !in physicalCameraIdMap {
        physicalCameraIdMap := physicalCameraIdMap[id := ""];
      }
    }

    method RecordOutputs(ids: seq<int>, frame: nat)
      modifies this`inflightBuffers, this`streamMap, this`physicalCameraIdMap
      ensures inflightBuffers == old(inflightBuffers) + PairsOf(frame, None, ids)
      ensures Cache() == TouchAll(old(Cache()), ids)
    {
      ghost var before := inflightBuffers;
      ghost var start := Cache();
      for i := 0 to |ids|
        invariant inflightBuffers == before + set j | 0 <= j < i :: (ids[j], frame)
        invariant Cache() == TouchAll(start, ids[..i])
      {
        assert ids[..i + 1][..i] == ids[..i];
        RecordBuffer(ids[i], frame);
      }
      assert ids[..|ids|] == ids;
    }

    /** Record the request's pairs as in flight, the input's first. */
    method AddInflight(r: CaptureRequest)
      modifies this`inflightBuffers, this`streamMap, this`physicalCameraIdMap
      ensures inflightBuffers == old(inflightBuffers) + RequestPairs(r.Entry())
      ensures Cache() == TouchAll(old(Cache()), r.Named())
    {
      ghost var start := Cache();
      if r.HasInput() {
        RecordBuffer(r.input.streamId, r.frame);
        OneTouch(start, r.input.streamId);
        TouchAllConcat(start, [r.input.streamId], r.StreamIds());
      } else {
        assert [] + r.StreamIds() == r.StreamIds();
      }
      RecordOutputs(r.StreamIds(), r.frame);
    }

    lemma OneTouch(c: Caches, id: int)
      ensures TouchAll(c, [id]) == Touch(c, id)
    {
      assert [id][..0] == [];
    }

    method EraseInflight(frame: nat, input: Option<int>, outputs: seq<int>)
      modifies this`inflightBuffers
      ensures inflightBuffers == old(inflightBuffers) - PairsOf(frame, input, outputs)
    {
      ghost var before := inflightBuffers;
      ghost var in_: set<Pair> := if input.Some? then {(input.value, frame)} else {};
      if input.Some? {
        inflightBuffers := inflightBuffers - {(input.value, frame)};
      }
      for i := 0 to |outputs|
        invariant inflightBuffers == before - (in_ + set j | 0 <= j < i :: (outputs[j], frame))
      {
        inflightBuffers := inflightBuffers - {(outputs[i], frame)};
      }
    }

    /** Record a request; `needed` tells whether its cancel trigger was translated. */
    method RecordRequest(r: CaptureRequest) returns (needed: bool)
      modifies this`inflightBuffers, this`streamMap, this`physicalCameraIdMap, this`inflightAETriggerOverrides
      ensures View() == CaptureSession.Record(old(View()), device, r)
      ensures needed <==> Translate(device, r.settings).1.Some?
    {
      AddInflight(r);
      var hal, o;
      needed, hal, o := HandleAePrecaptureCancelRequest(r.settings);
      if needed {
        inflightAETriggerOverrides := inflightAETriggerOverrides[r.frame := o];
      }
    }

    method PhysicalSettingsOk(physical: seq<PhysicalSettings>) returns (ok: bool)
      ensures ok == PhysicalOk(physical, firstRequest)
    {
      for i := 0 to |physical|
        invariant forall j :: 0 <= j < i ==> physical[j].converted && !(firstRequest && physical[j].isNull)
      {
        if !physical[i].converted || (firstRequest && physical[i].isNull) {
          return false;
        }
      }
      ok := true;
    }

    method RollBackRequest(r: CaptureRequest, needed: bool)
      requires needed <==> Translate(device, r.settings).1.Some?
      modifies this`inflightBuffers, this`inflightAETriggerOverrides
      ensures Table() == RollBack(old(Table()), device, r.Entry())
    {
      EraseInflight(r.frame, r.Entry().input, r.Entry().outputs);
      if needed {
        inflightAETriggerOverrides := inflightAETriggerOverrides - {r.frame};
      }
    }

    method SubmitRequest(r: CaptureRequest) returns (st: Status)
      modifies this`inflightBuffers, this`streamMap, this`physicalCameraIdMap,
               this`inflightAETriggerOverrides, this`firstRequest
      ensures (st, View()) == Submit(old(View()), device, r)
    {
      var needed := RecordRequest(r);
      var ok := PhysicalSettingsOk(r.physical);
      if !ok {
        return IllegalArgument;
      }
      if !r.verdict.Accepted? {
        RollBackRequest(r, needed);
        return if r.verdict.BadValue? then IllegalArgument else InternalError;
      }
      firstRequest := false;
      st := OK;
    }

    method ProcessOneCaptureRequest(r: CaptureRequest) returns (st: Status)
      modifies this`circulatingBuffers, this`imported, this`inflightBuffers,
               this`streamMap, this`physicalCameraIdMap, this`inflightAETriggerOverrides, this`firstRequest
      ensures (st, View()) == ProcessOne(old(View()), device, r)
    {
      st := InitStatus(View());
      if st != OK {
        return;
      }
      if !r.converted {
        return IllegalArgument;
      }
      if firstRequest && r.settings.None? {
        return IllegalArgument;
      }
      if |r.outputs| == 0 {
        return IllegalArgument;
      }
      st := ImportRequest(r);
      if st != OK {
        return;
      }
      st := SubmitRequest(r);
    }

    method UpdateBufferCaches(removals: seq<(int, nat)>)
      modifies this`circulatingBuffers, this`freed
      ensures Cache() == RemoveAll(old(Cache()), removals)
    {
      for i := 0 to |removals|
        invariant Cache() == RemoveAll(old(Cache()), removals[..i])
      {
        assert removals[..i + 1][..i] == removals[..i];
        var (id, bufId) := removals[i];
        if id in circulatingBuffers {
          var cbs := circulatingBuffers[id];
          if bufId in cbs {
            FreeOne(cbs[bufId]);
            circulatingBuffers := circulatingBuffers[id := cbs - {bufId}];
          }
        }
      }
      assert removals[..|removals|] == removals;
    }

    /** Process the i-th of several requests, the ones before it having gone through. */
    method ProcessNext(ghost start: Session, reqs: seq<CaptureRequest>, i: nat) returns (st: Status)
      requires i < |reqs| && (OK, i, View()) == ProcessFrom(start, device, reqs[..i])
      modifies this
      ensures (st, if st == OK then i + 1 else i, View()) == ProcessFrom(start, device, reqs[..i + 1])
    {
      assert reqs[..i + 1][..i] == reqs[..i];
      st := ProcessOneCaptureRequest(reqs[i]);
    }

    /** Process requests in order up to the first that fails. */
    method ProcessInOrder(reqs: seq<CaptureRequest>) returns (st: Status, count: nat)
      modifies this
      ensures (st, count, View()) == ProcessFrom(old(View()), device, reqs)
    {
      ghost var start := View();
      st, count := OK, 0;
      for i := 0 to |reqs|
        invariant st == OK && count == i && (OK, i, View()) == ProcessFrom(start, device, reqs[..i])
      {
        st := ProcessNext(start, reqs, i);
        if st != OK {
          ProcessStops(start, reqs, i + 1);
          return;
        }
        count := i + 1;
      }
      assert reqs[..|reqs|] == reqs;
    }

    /**
     processCaptureRequest: how many requests went through. `batch` tells whether
     they are to be registered as a batch, starting at the first one's frame.
     */
    method ProcessCaptureRequest(reqs: seq<CaptureRequest>, removals: seq<(int, nat)>)
      returns (st: Status, count: nat, batch: bool)
      modifies this
      ensures (st, count, View()) == Process(old(View()), device, reqs, removals)
      ensures batch <==> st == OK && |reqs| > 1
    {
      UpdateBufferCaches(removals);
      st, count := ProcessInOrder(reqs);
      batch := st == OK && |reqs| > 1;
    }

    lemma {:induction false} ProcessStops(s: Session, reqs: seq<CaptureRequest>, n: nat)
      requires n <= |reqs| && ProcessFrom(s, device, reqs[..n]).0 != OK
      ensures ProcessFrom(s, device, reqs) == ProcessFrom(s, device, reqs[..n])
      decreases |reqs|
    {
      if n == |reqs| {
        assert reqs[..n] == reqs;
      } else {
        assert reqs[..|reqs| - 1][..n] == reqs[..n];
        ProcessStops(s, reqs[..|reqs| - 1], n);
      }
    }

    // ---- results and errors from the HAL ----

    /** Whether every buffer of the result is in flight. */
    method AllInflight(r: HalResult) returns (all: bool)
      ensures all == Acceptable(Table(), r)
    {
      if r.input.Some? && (r.input.value, r.frame) !in inflightBuffers {
        assert (r.input.value, r.frame) in ResultPairs(r);
        return false;
      }
      for i := 0 to |r.outputs|
        invariant forall j :: 0 <= j < i ==> (r.outputs[j], r.frame) in inflightBuffers
      {
        if (r.outputs[i], r.frame) !in inflightBuffers {
          assert (r.outputs[i], r.frame) in ResultPairs(r);
          return false;
        }
      }
      return true;
    }

    /** The metadata to send up, and the tables' entries for its frame brought up to date. */
    method OverrideResult(r: HalResult) returns (sent: Settings)
      requires r.metadata.Some?
      modifies this`inflightRawBoostPresent, this`inflightAETriggerOverrides
      ensures sent == SentMetadata(old(Table()), device, r)
      ensures Table() == Returned(old(Table()), device, r).(inflight := inflightBuffers)
    {
      var frame, md := r.frame, r.metadata.value;
      sent := md;
      if device.deriveBoost {
        if RAW_BOOST in md {
          inflightRawBoostPresent := inflightRawBoostPresent[frame := true];
        } else if frame !in inflightRawBoostPresent {
          inflightRawBoostPresent := inflightRawBoostPresent[frame := false];
        }
        assert inflightRawBoostPresent == old(inflightRawBoostPresent)[frame := BoostSeen(old(Table()), frame, md)];
        if r.partial == device.numPartial {
          if !inflightRawBoostPresent[frame] {
            sent := sent[RAW_BOOST := [DEFAULT_BOOST]];
          }
          inflightRawBoostPresent := inflightRawBoostPresent - {frame};
          assert inflightRawBoostPresent == old(inflightRawBoostPresent) - {frame};
        }
      }
      if frame in inflightAETriggerOverrides {
        var o := inflightAETriggerOverrides[frame];
        if o.applyAeLock {
          sent := sent[AE_LOCK := [o.aeLock]];
        }
        if o.applyTrigger {
          sent := sent[AE_TRIGGER := [o.trigger]];
        }
        if r.partial == device.numPartial {
          inflightAETriggerOverrides := inflightAETriggerOverrides - {frame};
        }
      }
    }

    /** constructCaptureResult: whether the result is accepted, and the metadata to send up. */
    method ConstructCaptureResult(r: HalResult) returns (ok: bool, sent: Option<Settings>)
      modifies this`inflightBuffers, this`inflightRawBoostPresent, this`inflightAETriggerOverrides
      ensures ok == Acceptable(old(Table()), r)
      ensures Table() == Step(old(Table()), device, Result(r))
      ensures sent == if ok && r.metadata.Some? then Some(SentMetadata(old(Table()), device, r)) else None
    {
      sent := None;
      ok := AllInflight(r);
      if !ok {
        return;
      }
      if r.metadata.Some? {
        var md := OverrideResult(r);
        sent := Some(md);
      }
      EraseInflight(r.frame, r.input, r.outputs);
    }

    /** The part of sNotify before the batcher; false when the message is dropped. */
    method NotifyError(frame: nat, streamId: int, code: ErrorCode) returns (forwarded: bool)
      modifies this`inflightRawBoostPresent, this`inflightAETriggerOverrides
      ensures forwarded <==> streamId == -1 || streamId in streamMap
      ensures Table() == if forwarded then Step(old(Table()), device, TableEvent.Error(frame, code)) else old(Table())
    {
      if streamId != -1 && streamId !in streamMap {
        return false;
      }
      match code {
        case ErrorDevice | ErrorRequest | ErrorResult =>
          inflightAETriggerOverrides := inflightAETriggerOverrides - {frame};
          inflightRawBoostPresent := inflightRawBoostPresent - {frame};
        case _ =>
      }
      return true;
    }

    // ---- the end of a session ----

    method FreeEach(ids: set<int>)
      requires Accounted(Cache()) && ids == circulatingBuffers.Keys
      modifies this`circulatingBuffers, this`freed
      ensures Cache() == Cleanup(old(Cache()), ids)
    {
      ghost var before := Cache();
      var todo := ids;
      NothingCleaned(before);
      AllVisited(ids);
      while todo != {}
        invariant todo <= ids
        invariant Cache() == Cleanup(before, ids - todo)
        decreases todo
      {
        ghost var _ := HasElement(todo);
        var id :| id in todo;
        VisitOne(ids, todo, id);
        CleanupNext(before, ids - todo, id);
        todo := todo - {id};
      }
    }

    method FreeAllBuffers()
      requires Accounted(Cache())
      modifies this`circulatingBuffers, this`freed
      ensures Cache() == FreeAll(old(Cache()))
    {
      FreeEach(circulatingBuffers.Keys);
      circulatingBuffers := map[];
    }

    method Close()
      requires SessionInv(View())
      modifies this
      ensures View() == CaptureSession.Close(old(View()))
    {
      if !closed {
        halCloses := halCloses + 1;
        FreeAllBuffers();
        closed := true;
      }
    }

    method Disconnect()
      modifies this`disconnected, this`halCloses, this`closed
      ensures View() == CaptureSession.Disconnect(old(View()))
    {
      disconnected := true;
      if !closed {
        halCloses := halCloses + 1;
        closed := true;
      }
    }

    /** The destructor closes a session left open. */
    method Destroy()
      requires SessionInv(View())
      modifies this
      ensures View() == CaptureSession.Close(old(View())) && closed
    {
      if !closed {
        Close();
      }
    }
  }
}
