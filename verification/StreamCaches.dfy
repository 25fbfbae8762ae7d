/**
 The configured streams of a session and the buffers imported for them: the
 configuration steps with their two ways of freeing deleted streams, the import
 of a buffer, the client's cache removals, and closing.
 */
module StreamCaches {
  import opened CaptureTypes

  type Handle = nat

  datatype Stream = Stream(streamType: int, width: int, height: int, format: int, dataSpace: int, rotation: int,
                           usage: int)

  datatype StreamRequest = StreamRequest(id: int, info: Stream, physicalCameraId: string)

  /** `imported` handles have been imported so far, numbered from 0; `freed` counts how often each was freed. */
  datatype Caches = Caches(
    streams: map<int, Stream>,
    physicalIds: map<int, string>,
    buffers: map<int, map<nat, Handle>>,
    imported: nat,
    freed: multiset<Handle>)

  const NO_BUFFER: nat := 0

  // ---- configuring streams ----

  predicate Requested(reqs: seq<StreamRequest>, id: int) {
    exists i :: 0 <= i < |reqs| && reqs[i].id == id
  }

  /** Whether a request keeps what must not change of a stream already configured. */
  predicate Compatible(c: Caches, req: StreamRequest)
    requires req.id in c.streams
  {
    && c.streams[req.id].streamType == req.info.streamType
    && c.streams[req.id].width == req.info.width
    && c.streams[req.id].height == req.info.height
    && (if req.id in c.physicalIds then c.physicalIds[req.id] else "") == req.physicalCameraId
  }

  function AddStream(c: Caches, req: StreamRequest): Caches {
    c.(streams := c.streams[req.id := req.info], physicalIds := c.physicalIds[req.id := req.physicalCameraId],
       buffers := if req.id in c.buffers then c.buffers else c.buffers[req.id := map[]])
  }

  function UpdateStream(c: Caches, req: StreamRequest): Caches
    requires req.id in c.streams
  {
    c.(streams := c.streams[req.id := c.streams[req.id].(format := req.info.format, dataSpace := req.info.dataSpace,
                                                        rotation := req.info.rotation, usage := req.info.usage)])
  }

  /** Take in one more requested stream, unless an incompatible one has ended it. */
  function TakeOne(before: (bool, Caches), req: StreamRequest): (bool, Caches) {
    var (ok, c) := before;
    if !ok then before
    else if req.id !in c.streams then (true, AddStream(c, req))
    else if !Compatible(c, req) then (false, c)
    else (true, UpdateStream(c, req))
  }

  /** Take in the requested streams one by one, stopping at the first incompatible one. */
  function TakeIn(c: Caches, reqs: seq<StreamRequest>): (bool, Caches) {
    if reqs == [] then (true, c) else TakeOne(TakeIn(c, reqs[..|reqs| - 1]), reqs[|reqs| - 1])
  }

  function HandlesIn(buffers: map<int, map<nat, Handle>>, ids: set<int>): set<Handle> {
    set id, b | id in ids && id in buffers && b in buffers[id] :: buffers[id][b]
  }

  function Deleted(c: Caches, reqs: seq<StreamRequest>): set<int> {
    set id | id in c.streams && !Requested(reqs, id)
  }

  /** cleanupBuffersLocked on each stream of `ids`: free its handles, drop its cache. */
  function Cleanup(c: Caches, ids: set<int>): Caches {
    c.(buffers := c.buffers - ids, freed := c.freed + multiset(HandlesIn(c.buffers, ids)))
  }

  function PreProcess(c: Caches, reqs: seq<StreamRequest>, early: bool): (bool, Caches) {
    var (ok, c1) := TakeIn(c, reqs);
    if !ok then (false, c1) else (true, if early then Cleanup(c1, Deleted(c1, reqs)) else c1)
  }

  function PostProcess(c: Caches, reqs: seq<StreamRequest>, early: bool): Caches {
    var gone := Deleted(c, reqs);
    var c1 := if early then c else Cleanup(c, gone);
    c1.(streams := c1.streams - gone)
  }

  /** After a failure the caches of the streams kept after all come back, emptied, in early mode. */
  function PostProcessFailure(c: Caches, reqs: seq<StreamRequest>, early: bool): Caches {
    if early then Recreate(c, Deleted(c, reqs)) else c
  }

  /** Give each stream of `ids` a cache, empty if it has none. */
  function Recreate(c: Caches, ids: set<int>): Caches {
    c.(buffers := map id | id in c.buffers.Keys + ids :: if id in c.buffers then c.buffers[id] else map[])
  }

  /** configureStreams past its guards; `halOk` is the HAL's verdict. */
  function Configure(c: Caches, reqs: seq<StreamRequest>, early: bool, halOk: bool): Caches {
    var (ok, c1) := PreProcess(c, reqs, early);
    if !ok then c1 else if halOk then PostProcess(c1, reqs, early) else PostProcessFailure(c1, reqs, early)
  }

  // ---- recording requests ----

  /** What indexing the stream map with an unknown id enters there. */
  const BLANK := Stream(0, 0, 0, 0, 0, 0, 0)

  /** Recording a buffer of a request looks its stream up by indexing, which enters an unknown one. */
  function Touch(c: Caches, id: int): Caches {
    c.(streams := if id in c.streams then c.streams else c.streams[id := BLANK],
       physicalIds := if id in c.physicalIds then c.physicalIds else c.physicalIds[id := ""])
  }

  function TouchAll(c: Caches, ids: seq<int>): Caches {
    if ids == [] then c else Touch(TouchAll(c, ids[..|ids| - 1]), ids[|ids| - 1])
  }

  // ---- importing and removing buffers ----

  datatype Imported = Slot(handle: Handle) | EmptySlot | NullHandle | BadHandle

  /** importBuffer; `isNull` tells a null handle, `importOk` the importer's verdict on a non-null one. */
  function Import(c: Caches, id: int, bufId: nat, isNull: bool, importOk: bool, allowEmpty: bool): (Imported, Caches) {
    if isNull && bufId == NO_BUFFER then (if allowEmpty then EmptySlot else NullHandle, c)
    else
      var cbs := if id in c.buffers then c.buffers[id] else map[];
      if bufId in cbs then (Slot(cbs[bufId]), c.(buffers := c.buffers[id := cbs]))
      else if isNull || !importOk then (BadHandle, c.(buffers := c.buffers[id := cbs]))
      else (Slot(c.imported), c.(buffers := c.buffers[id := cbs[bufId := c.imported]], imported := c.imported + 1))
  }

  function RemoveOne(c: Caches, id: int, bufId: nat): Caches {
    if id in c.buffers && bufId in c.buffers[id] then
      c.(buffers := c.buffers[id := c.buffers[id] - {bufId}], freed := c.freed + multiset{c.buffers[id][bufId]})
    else c
  }

  function RemoveAll(c: Caches, removals: seq<(int, nat)>): Caches {
    if removals == [] then c
    else
      var last := removals[|removals| - 1];
      RemoveOne(RemoveAll(c, removals[..|removals| - 1]), last.0, last.1)
  }

  /** What close does to the caches. */
  function FreeAll(c: Caches): Caches {
    c.(buffers := map[], freed := c.freed + multiset(HandlesIn(c.buffers, c.buffers.Keys)))
  }

  // ---- early and late freeing agree ----

  ghost predicate KeysAgree(c: Caches) {
    c.streams.Keys == c.buffers.Keys
  }

  lemma {:induction false} TakeInKeeps(c: Caches, reqs: seq<StreamRequest>)
    requires KeysAgree(c)
    ensures KeysAgree(TakeIn(c, reqs).1)
    ensures TakeIn(c, reqs).1.freed == c.freed && TakeIn(c, reqs).1.imported == c.imported
    ensures c.buffers.Keys <= TakeIn(c, reqs).1.buffers.Keys
    ensures forall id :: id in TakeIn(c, reqs).1.buffers ==>
              TakeIn(c, reqs).1.buffers[id] == if id in c.buffers then c.buffers[id] else map[]
    decreases |reqs|
  {
    if reqs != [] {
      TakeInKeeps(c, reqs[..|reqs| - 1]);
    }
  }

  /** When every request is taken in, every requested stream is there. */
  lemma {:induction false} TakeInTakes(c: Caches, reqs: seq<StreamRequest>)
    requires TakeIn(c, reqs).0
    ensures c.streams.Keys <= TakeIn(c, reqs).1.streams.Keys
    ensures forall i :: 0 <= i < |reqs| ==> reqs[i].id in TakeIn(c, reqs).1.streams
    decreases |reqs|
  {
    if reqs != [] {
      var init := reqs[..|reqs| - 1];
      TakeInTakes(c, init);
      assert forall i :: 0 <= i < |reqs| - 1 ==> reqs[i] == init[i];
    }
  }

  /** Whatever happens, configuring keeps the streams and the caches about the same ids. */
  lemma ConfigureKeepsKeys(c: Caches, reqs: seq<StreamRequest>, early: bool, halOk: bool)
    requires KeysAgree(c)
    ensures KeysAgree(Configure(c, reqs, early, halOk))
  {
    TakeInKeeps(c, reqs);
    var c' := Configure(c, reqs, early, halOk);
    assert forall id :: id in c'.streams <==> id in c'.buffers;
  }

  /** When the HAL accepts, exactly the requested streams remain, and both modes end alike. */
  lemma ModesAgreeOnSuccess(c: Caches, reqs: seq<StreamRequest>)
    requires KeysAgree(c) && TakeIn(c, reqs).0
    ensures Configure(c, reqs, true, true) == Configure(c, reqs, false, true)
    ensures forall id :: id in Configure(c, reqs, true, true).streams <==> Requested(reqs, id)
  {
    TakeInKeeps(c, reqs);
    TakeInTakes(c, reqs);
    var c1 := TakeIn(c, reqs).1;
    var done := Configure(c, reqs, true, true);
    forall id
      ensures id in done.streams <==> Requested(reqs, id)
    {
      if Requested(reqs, id) {
        var i :| 0 <= i < |reqs| && reqs[i].id == id;
        assert reqs[i].id in c1.streams;
      }
    }
  }

  /** A configuration rejected by the wrapper itself ends alike in both modes, with nothing freed. */
  lemma ModesAgreeOnRejection(c: Caches, reqs: seq<StreamRequest>, halOk: bool)
    requires KeysAgree(c) && !TakeIn(c, reqs).0
    ensures Configure(c, reqs, true, halOk) == Configure(c, reqs, false, halOk)
    ensures Configure(c, reqs, true, halOk).freed == c.freed
  {
    TakeInKeeps(c, reqs);
  }

  /**
   When the HAL refuses, late mode has freed nothing and kept every cache; early
   mode differs exactly in having freed and emptied the caches of the streams
   that were to be deleted.
   */
  lemma ModesDifferOnFailure(c: Caches, reqs: seq<StreamRequest>)
    requires KeysAgree(c) && TakeIn(c, reqs).0
    ensures var late, early := Configure(c, reqs, false, false), Configure(c, reqs, true, false);
            && late.freed == c.freed
            && (forall id :: id in c.buffers ==> id in late.buffers && late.buffers[id] == c.buffers[id])
            && early.streams == late.streams && early.physicalIds == late.physicalIds
            && early.buffers.Keys == late.buffers.Keys && early.imported == late.imported
            && (forall id :: id in late.buffers ==>
                  early.buffers[id] == if Requested(reqs, id) then late.buffers[id] else map[])
            && early.freed == late.freed
               + multiset(HandlesIn(late.buffers, set id | id in late.buffers && !Requested(reqs, id)))
  {
    TakeInKeeps(c, reqs);
    var c1 := TakeIn(c, reqs).1;
    assert Deleted(c1, reqs) == set id | id in c1.buffers && !Requested(reqs, id);
  }

  /** An import keeps streams and caches about the same ids exactly when its stream is configured. */
  lemma ImportKeepsKeysIff(c: Caches, id: int, bufId: nat, isNull: bool, importOk: bool, allowEmpty: bool)
    requires KeysAgree(c) && !(isNull && bufId == NO_BUFFER)
    ensures KeysAgree(Import(c, id, bufId, isNull, importOk, allowEmpty).1) <==> id in c.streams
  {
    var c' := Import(c, id, bufId, isNull, importOk, allowEmpty).1;
    assert id in c'.buffers;
  }

  // ---- which configurations are taken in, and what is recorded of a stream ----

  /** The physical camera of a stream; indexing the map with an unknown id reads an empty one. */
  function PhysicalOf(c: Caches, id: int): string {
    if id in c.physicalIds then c.physicalIds[id] else ""
  }

  /** What must not change of a stream. */
  ghost predicate Alike(a: Stream, b: Stream) {
    a.streamType == b.streamType && a.width == b.width && a.height == b.height
  }

  /** Request i keeps type, size and physical camera of the stream of its id, configured or requested before it. */
  ghost predicate Agrees(c: Caches, reqs: seq<StreamRequest>, i: nat)
    requires i < |reqs|
  {
    var r := reqs[i];
    && (r.id in c.streams ==> Alike(c.streams[r.id], r.info) && PhysicalOf(c, r.id) == r.physicalCameraId)
    && forall j :: 0 <= j < i && reqs[j].id == r.id ==>
         Alike(reqs[j].info, r.info) && reqs[j].physicalCameraId == r.physicalCameraId
  }

  /** Request i is the last for its id. */
  ghost predicate LastFor(reqs: seq<StreamRequest>, i: nat) {
    i < |reqs| && forall k :: i < k < |reqs| ==> reqs[k].id != reqs[i].id
  }

  /** The streams in c' are those of c and the requested ones, each as last requested. */
  ghost predicate Recorded(c: Caches, reqs: seq<StreamRequest>, c': Caches) {
    && (forall id :: id in c'.streams <==> id in c.streams || Requested(reqs, id))
    && (forall i: nat :: LastFor(reqs, i) ==>
          c'.streams[reqs[i].id] == reqs[i].info && PhysicalOf(c', reqs[i].id) == reqs[i].physicalCameraId)
    && (forall id :: !Requested(reqs, id) ==>
          PhysicalOf(c', id) == PhysicalOf(c, id) && (id in c.streams ==> c'.streams[id] == c.streams[id]))
  }

  lemma {:induction false} HasLast(reqs: seq<StreamRequest>, id: int) returns (i: nat)
    requires Requested(reqs, id)
    ensures LastFor(reqs, i) && reqs[i].id == id
    decreases |reqs|
  {
    i := |reqs| - 1;
    if reqs[i].id != id {
      assert Requested(reqs[..i], id);
      i := HasLast(reqs[..i], id);
    }
  }

  lemma RequestedNext(reqs: seq<StreamRequest>, id: int)
    requires reqs != []
    ensures Requested(reqs, id) <==> Requested(reqs[..|reqs| - 1], id) || id == reqs[|reqs| - 1].id
  {
    var init := reqs[..|reqs| - 1];
    if Requested(init, id) {
      var i :| 0 <= i < |init| && init[i].id == id;
      assert reqs[i].id == id;
    }
  }

  lemma LastForNext(reqs: seq<StreamRequest>, i: nat)
    requires LastFor(reqs, i) && i < |reqs| - 1
    ensures LastFor(reqs[..|reqs| - 1], i) && reqs[i].id != reqs[|reqs| - 1].id
  {
    assert reqs[|reqs| - 1].id != reqs[i].id;
  }

  /** A request more, on top of streams recorded for the ones before it. */
  lemma RecordedNext(c: Caches, reqs: seq<StreamRequest>, c1: Caches, c': Caches)
    requires reqs != [] && Recorded(c, reqs[..|reqs| - 1], c1)
    requires var r := reqs[|reqs| - 1];
             && c'.streams == c1.streams[r.id := r.info] && PhysicalOf(c', r.id) == r.physicalCameraId
             && forall id :: id != r.id ==> PhysicalOf(c', id) == PhysicalOf(c1, id)
    ensures Recorded(c, reqs, c')
  {
    var init, r := reqs[..|reqs| - 1], reqs[|reqs| - 1];
    forall id
      ensures Requested(reqs, id) <==> Requested(init, id) || id == r.id
    {
      RequestedNext(reqs, id);
    }
    forall i: nat | LastFor(reqs, i)
      ensures c'.streams[reqs[i].id] == reqs[i].info && PhysicalOf(c', reqs[i].id) == reqs[i].physicalCameraId
    {
      if i < |init| {
        LastForNext(reqs, i);
        assert LastFor(init, i) && init[i] == reqs[i];
      }
    }
  }

  /** The last request is compatible with what the others recorded exactly when it agrees with all of them. */
  lemma CompatibleIff(c: Caches, reqs: seq<StreamRequest>, c1: Caches)
    requires reqs != [] && Recorded(c, reqs[..|reqs| - 1], c1)
    requires forall i: nat :: i < |reqs| - 1 ==> Agrees(c, reqs, i)
    ensures var n := |reqs| - 1;
            Agrees(c, reqs, n) <==> reqs[n].id !in c1.streams || Compatible(c1, reqs[n])
  {
    var n := |reqs| - 1;
    var init, r := reqs[..n], reqs[n];
    if Requested(init, r.id) {
      var k := HasLast(init, r.id);
      assert c1.streams[r.id] == reqs[k].info && PhysicalOf(c1, r.id) == reqs[k].physicalCameraId;
      assert Agrees(c, reqs, k);
      forall j: nat | j < n && reqs[j].id == r.id
        ensures Alike(reqs[j].info, reqs[k].info) && reqs[j].physicalCameraId == reqs[k].physicalCameraId
      {
      }
    } else {
      forall j: nat | j < n
        ensures reqs[j].id != r.id
      {
        assert init[j] == reqs[j];
      }
    }
  }

  lemma AgreesPrefix(c: Caches, reqs: seq<StreamRequest>, n: nat)
    requires n <= |reqs|
    ensures forall i: nat :: i < n ==> (Agrees(c, reqs[..n], i) <==> Agrees(c, reqs, i))
  {
    assert forall j :: 0 <= j < n ==> reqs[..n][j] == reqs[j];
  }

  /** One request more, taken in or not. */
  lemma TakeOneIs(c: Caches, reqs: seq<StreamRequest>, c1: Caches, after: (bool, Caches))
    requires reqs != [] && Recorded(c, reqs[..|reqs| - 1], c1)
    requires forall i: nat :: i < |reqs| - 1 ==> Agrees(c, reqs, i)
    requires after == TakeOne((true, c1), reqs[|reqs| - 1])
    ensures after.0 <==> Agrees(c, reqs, |reqs| - 1)
    ensures after.0 ==> Recorded(c, reqs, after.1)
  {
    CompatibleIff(c, reqs, c1);
    if after.0 {
      RecordedNext(c, reqs, c1, after.1);
    }
  }

  /**
   Which configurations are taken in: exactly those in which every request keeps the
   type, size and physical camera of the stream of its id, configured or requested
   before it. Then each requested stream is recorded as last requested, and the others stay.
   */
  lemma {:induction false} TakenInIff(c: Caches, reqs: seq<StreamRequest>)
    ensures TakeIn(c, reqs).0 <==> forall i: nat :: i < |reqs| ==> Agrees(c, reqs, i)
    ensures TakeIn(c, reqs).0 ==> Recorded(c, reqs, TakeIn(c, reqs).1)
    decreases |reqs|
  {
    if reqs != [] {
      var n := |reqs| - 1;
      var before := TakeIn(c, reqs[..n]);
      TakenInIff(c, reqs[..n]);
      AgreesPrefix(c, reqs, n);
      if before.0 {
        TakeOneIs(c, reqs, before.1, TakeIn(c, reqs));
      }
    }
  }

  lemma RejectedLast(c: Caches, reqs: seq<StreamRequest>)
    requires reqs != [] && !TakeIn(c, reqs).0 && TakeIn(c, reqs[..|reqs| - 1]).0
    ensures !Agrees(c, reqs, |reqs| - 1) && forall i: nat :: i < |reqs| - 1 ==> Agrees(c, reqs, i)
  {
    assert forall i: nat :: i < |reqs| - 1 ==> Agrees(c, reqs, i) by {
      TakenInIff(c, reqs[..|reqs| - 1]);
      AgreesPrefix(c, reqs, |reqs| - 1);
    }
    assert exists i: nat :: i < |reqs| && !Agrees(c, reqs, i) by {
      TakenInIff(c, reqs);
    }
  }

  /** What a rejection leaves is what the requests before the last had left. */
  lemma RejectionLeaves(c: Caches, reqs: seq<StreamRequest>)
    requires reqs != [] && !TakeIn(c, reqs).0
    ensures TakeIn(c, reqs).1 == TakeIn(c, reqs[..|reqs| - 1]).1
  {
  }

  /** A rejected configuration stops at the first request that does not agree; those before it stay recorded. */
  lemma {:induction false} RejectionStops(c: Caches, reqs: seq<StreamRequest>) returns (n: nat)
    requires !TakeIn(c, reqs).0
    ensures n < |reqs| && !Agrees(c, reqs, n) && forall i: nat :: i < n ==> Agrees(c, reqs, i)
    ensures TakeIn(c, reqs[..n]).0 && TakeIn(c, reqs).1 == TakeIn(c, reqs[..n]).1
    decreases |reqs|
  {
    n := |reqs| - 1;
    var init := reqs[..n];
    RejectionLeaves(c, reqs);
    if TakeIn(c, init).0 {
      RejectedLast(c, reqs);
    } else {
      AgreesPrefix(c, reqs, |init|);
      n := RejectionStops(c, init);
      assert init[..n] == reqs[..n];
    }
  }

  /**
   What a configuration the HAL accepts leaves, in either mode: exactly the requested
   streams, as last requested; the caches of those that were there, and empty ones for
   the new; and the buffers of the others freed.
   */
  lemma ConfiguredExactly(c: Caches, reqs: seq<StreamRequest>, early: bool)
    requires KeysAgree(c) && TakeIn(c, reqs).0
    ensures var c' := Configure(c, reqs, early, true);
            && (forall id :: id in c'.streams <==> Requested(reqs, id))
            && (forall i: nat :: LastFor(reqs, i) ==>
                  c'.streams[reqs[i].id] == reqs[i].info && PhysicalOf(c', reqs[i].id) == reqs[i].physicalCameraId)
            && (forall id :: id in c'.buffers ==> c'.buffers[id] == if id in c.buffers then c.buffers[id] else map[])
            && c'.imported == c.imported
            && (forall h: Handle :: c'.freed[h] == c.freed[h] +
                  if exists id, b :: Cached(c, id, b, h) && !Requested(reqs, id) then 1 else 0)
  {
    var c1, c' := TakeIn(c, reqs).1, Configure(c, reqs, early, true);
    TakeInKeeps(c, reqs);
    ModesAgreeOnSuccess(c, reqs);
    forall i: nat | LastFor(reqs, i)
      ensures c'.streams[reqs[i].id] == reqs[i].info && PhysicalOf(c', reqs[i].id) == reqs[i].physicalCameraId
    {
      TakenInIff(c, reqs);
      assert Requested(reqs, reqs[i].id);
    }
    forall h: Handle
      ensures c'.freed[h] == c.freed[h] + if exists id, b :: Cached(c, id, b, h) && !Requested(reqs, id) then 1 else 0
    {
      FreedOf(c, c1, reqs, h);
    }
  }

  lemma FreedOf(c: Caches, c1: Caches, reqs: seq<StreamRequest>, h: Handle)
    requires KeysAgree(c1) && c.buffers.Keys <= c1.buffers.Keys
    requires forall id :: id in c1.buffers ==> c1.buffers[id] == if id in c.buffers then c.buffers[id] else map[]
    ensures h in HandlesIn(c1.buffers, Deleted(c1, reqs)) <==>
            exists id, b :: Cached(c, id, b, h) && !Requested(reqs, id)
  {
    if h in HandlesIn(c1.buffers, Deleted(c1, reqs)) {
      var id, b :| id in Deleted(c1, reqs) && id in c1.buffers && b in c1.buffers[id] && c1.buffers[id][b] == h;
      assert Cached(c, id, b, h);
    }
    if id, b :| Cached(c, id, b, h) && !Requested(reqs, id) {
      assert id in Deleted(c1, reqs);
    }
  }

  /**
   What an import answers and caches. A null handle with no buffer id is no buffer, to
   be had only where one may be missing. A buffer already cached under its id is found,
   whatever handle came with it; a new one needs a handle the importer takes, and is then cached.
   */
  lemma ImportIs(c: Caches, id: int, bufId: nat, isNull: bool, importOk: bool, allowEmpty: bool)
    ensures var (r, c') := Import(c, id, bufId, isNull, importOk, allowEmpty);
            var none, known := isNull && bufId == NO_BUFFER, Known(c, id, bufId);
            && (r.EmptySlot? <==> none && allowEmpty) && (r.NullHandle? <==> none && !allowEmpty)
            && (r.BadHandle? <==> !none && !known && (isNull || !importOk))
            && (r.Slot? && known ==> Cached(c, id, bufId, r.handle) && c'.imported == c.imported)
            && (r.Slot? && !known ==> r.handle == c.imported && c'.imported == c.imported + 1)
            && c'.streams == c.streams && c'.physicalIds == c.physicalIds && c'.freed == c.freed
            && (forall i, b :: Known(c', i, b) <==> Known(c, i, b) || (r.Slot? && i == id && b == bufId))
            && (forall i, b, h :: Cached(c, i, b, h) ==> Cached(c', i, b, h))
            && (r.Slot? ==> Cached(c', id, bufId, r.handle))
  {
  }

  lemma {:induction false} TouchAllConcat(c: Caches, a: seq<int>, b: seq<int>)
    ensures TouchAll(c, a + b) == TouchAll(TouchAll(c, a), b)
    decreases |b|
  {
    if b == [] {
      assert a + b == a;
    } else {
      assert (a + b)[..|a + b| - 1] == a + b[..|b| - 1];
      TouchAllConcat(c, a, b[..|b| - 1]);
    }
  }

  /** Touching streams enters exactly the unknown ones, and leaves the caches of buffers alone. */
  lemma {:induction false} TouchAllIs(c: Caches, ids: seq<int>)
    ensures forall id :: id in TouchAll(c, ids).streams <==> id in c.streams || id in ids
    ensures forall id :: id in c.streams ==> TouchAll(c, ids).streams[id] == c.streams[id]
    ensures forall id :: id in ids && id !in c.streams ==> TouchAll(c, ids).streams[id] == BLANK
    ensures forall id :: id in TouchAll(c, ids).physicalIds <==> id in c.physicalIds || id in ids
    ensures forall id :: PhysicalOf(TouchAll(c, ids), id) == PhysicalOf(c, id)
    ensures TouchAll(c, ids).buffers == c.buffers
    ensures TouchAll(c, ids).imported == c.imported && TouchAll(c, ids).freed == c.freed
    decreases |ids|
  {
    if ids != [] {
      var init, last := ids[..|ids| - 1], ids[|ids| - 1];
      TouchAllIs(c, init);
      assert forall id :: id in ids <==> id in init || id == last;
    }
  }

  // ---- accounting for imported handles ----

  function Live(c: Caches): set<Handle> {
    HandlesIn(c.buffers, c.buffers.Keys)
  }

  ghost predicate Cached(c: Caches, id: int, b: nat, h: Handle) {
    id in c.buffers && b in c.buffers[id] && c.buffers[id][b] == h
  }

  /** A buffer is cached under this id of the stream. */
  ghost predicate Known(c: Caches, id: int, b: nat) {
    id in c.buffers && b in c.buffers[id]
  }

  /**
   The handles imported and not freed are exactly those in the caches, each in one
   place, and no handle has been freed twice.
   */
  ghost predicate Accounted(c: Caches) {
    && (forall h: Handle :: c.freed[h] <= 1)
    && (forall h: Handle :: h < c.imported && h !in c.freed <==> h in Live(c))
    && (forall h: Handle :: h in c.freed ==> h < c.imported)
    && (forall id, b, id', b', h :: Cached(c, id, b, h) && Cached(c, id', b', h) ==> id == id' && b == b')
  }

  lemma LiveIff(c: Caches, h: Handle)
    ensures h in Live(c) <==> exists id, b :: Cached(c, id, b, h)
  {
    if h in Live(c) {
      var id, b :| id in c.buffers && b in c.buffers[id] && c.buffers[id][b] == h;
      assert Cached(c, id, b, h);
    }
    if exists id, b :: Cached(c, id, b, h) {
      var id, b :| Cached(c, id, b, h);
      assert id in c.buffers.Keys;
    }
  }

  lemma EmptyAccounts(c: Caches)
    requires c.buffers == map[] && c.imported == 0 && c.freed == multiset{}
    ensures Accounted(c) && Live(c) == {}
  {
    forall h
      ensures h !in Live(c)
    {
      LiveIff(c, h);
    }
    assert forall id, b, h :: !Cached(c, id, b, h);
  }

  /** Freeing a set of live handles and dropping exactly their slots keeps the account. */
  lemma FreeKeepsAccount(c: Caches, c': Caches, gone: set<Handle>)
    requires Accounted(c) && gone <= Live(c)
    requires c'.imported == c.imported && c'.freed == c.freed + multiset(gone)
    requires forall id, b, h :: Cached(c', id, b, h) <==> Cached(c, id, b, h) && h !in gone
    ensures Accounted(c') && Live(c') == Live(c) - gone
  {
    forall h
      ensures h in Live(c') <==> h in Live(c) && h !in gone
    {
      LiveIff(c, h);
      LiveIff(c', h);
    }
    forall h: Handle
      ensures c'.freed[h] == c.freed[h] + if h in gone then 1 else 0
    {
    }
  }

  lemma CleanupAccounts(c: Caches, ids: set<int>)
    requires Accounted(c)
    ensures Accounted(Cleanup(c, ids)) && Live(Cleanup(c, ids)) == Live(c) - HandlesIn(c.buffers, ids)
  {
    var gone := HandlesIn(c.buffers, ids);
    var c' := Cleanup(c, ids);
    forall id, b, h
      ensures Cached(c', id, b, h) <==> Cached(c, id, b, h) && h !in gone
    {
      if Cached(c, id, b, h) && h in gone {
        var id', b' :| id' in ids && id' in c.buffers && b' in c.buffers[id'] && c.buffers[id'][b'] == h;
        assert Cached(c, id', b', h);
      }
    }
    FreeKeepsAccount(c, c', gone);
  }

  /** States with the same slots and the same freed handles have the same account. */
  lemma SameSlotsAccount(c: Caches, c': Caches)
    requires Accounted(c) && c'.imported == c.imported && c'.freed == c.freed
    requires forall id, b, h :: Cached(c', id, b, h) <==> Cached(c, id, b, h)
    ensures Accounted(c') && Live(c') == Live(c)
  {
    var none: set<Handle> := {};
    assert multiset(none) == multiset{};
    FreeKeepsAccount(c, c', none);
  }

  lemma ConfigureAccounts(c: Caches, reqs: seq<StreamRequest>, early: bool, halOk: bool)
    requires Accounted(c) && KeysAgree(c)
    ensures Accounted(Configure(c, reqs, early, halOk))
  {
    TakeInKeeps(c, reqs);
    var (ok, c1) := TakeIn(c, reqs);
    SameSlotsAccount(c, c1);
    if ok {
      var c2 := PreProcess(c, reqs, early).1;
      CleanupAccounts(c1, Deleted(c1, reqs));
      CleanupAccounts(c2, Deleted(c2, reqs));
      var c3 := Configure(c, reqs, early, halOk);
      if early || !halOk {
        SameSlotsAccount(c2, c3);
      } else {
        SameSlotsAccount(Cleanup(c2, Deleted(c2, reqs)), c3);
      }
    }
  }

  lemma ImportAccounts(c: Caches, id: int, bufId: nat, isNull: bool, importOk: bool, allowEmpty: bool)
    requires Accounted(c)
    ensures var (r, c') := Import(c, id, bufId, isNull, importOk, allowEmpty);
            Accounted(c') && (r.Slot? ==> r.handle in Live(c') && Cached(c', id, bufId, r.handle))
  {
    var (r, c') := Import(c, id, bufId, isNull, importOk, allowEmpty);
    if c'.imported == c.imported {
      SameSlotsAccount(c, c');
    } else {
      NewSlotAccounts(c, c', id, bufId);
    }
    if r.Slot? {
      assert Cached(c', id, bufId, r.handle);
      LiveIff(c', r.handle);
    }
  }

  lemma NewSlotAccounts(c: Caches, c': Caches, id: int, bufId: nat)
    requires Accounted(c) && c'.imported == c.imported + 1 && c'.freed == c.freed
    requires forall h :: !Cached(c, id, bufId, h)
    requires forall i, b, h :: Cached(c', i, b, h) <==> Cached(c, i, b, h) || (i == id && b == bufId && h == c.imported)
    ensures Accounted(c')
  {
    forall h
      ensures h in Live(c') <==> h in Live(c) || h == c.imported
    {
      LiveIff(c, h);
      LiveIff(c', h);
      assert Cached(c', id, bufId, c.imported);
    }
    LiveIff(c, c.imported);
  }

  lemma RemoveOneAccounts(c: Caches, id: int, bufId: nat)
    requires Accounted(c)
    ensures Accounted(RemoveOne(c, id, bufId)) && RemoveOne(c, id, bufId).streams == c.streams
    ensures RemoveOne(c, id, bufId).buffers.Keys == c.buffers.Keys
  {
    if id in c.buffers && bufId in c.buffers[id] {
      var h := c.buffers[id][bufId];
      assert Cached(c, id, bufId, h);
      LiveIff(c, h);
      assert multiset({h}) == multiset{h};
      FreeKeepsAccount(c, RemoveOne(c, id, bufId), {h});
    }
  }

  lemma {:induction false} RemoveAllAccounts(c: Caches, removals: seq<(int, nat)>)
    requires Accounted(c)
    ensures Accounted(RemoveAll(c, removals)) && RemoveAll(c, removals).streams == c.streams
    ensures RemoveAll(c, removals).buffers.Keys == c.buffers.Keys
    decreases |removals|
  {
    if removals != [] {
      var last := removals[|removals| - 1];
      RemoveAllAccounts(c, removals[..|removals| - 1]);
      RemoveOneAccounts(RemoveAll(c, removals[..|removals| - 1]), last.0, last.1);
    }
  }

  lemma FreeAllAccounts(c: Caches)
    requires Accounted(c)
    ensures Accounted(FreeAll(c)) && Live(FreeAll(c)) == {}
  {
    CleanupAccounts(c, c.buffers.Keys);
    SameSlotsAccount(Cleanup(c, c.buffers.Keys), FreeAll(c));
  }
}
