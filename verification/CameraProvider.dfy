/**
 The camera provider's directory: which cameras exist, under which device names,
 and what the framework is told of them.
 */
module CameraProvider {
  import opened CaptureTypes
  import opened Collections
  import Decimal

  // ---- device names ----

  const DEVICE_VERSION := "1.1"

  function DeviceName(id: string): string {
    "device@" + DEVICE_VERSION + "/internal/" + id
  }

  predicate AllDigits(s: string) {
    forall i :: 0 <= i < |s| ==> Decimal.IsDigit(s[i])
  }

  /** No character that the regular expression's dot does not match. */
  predicate OneLine(s: string) {
    forall i :: 0 <= i < |s| ==> s[i] != '\n' && s[i] != '\r'
  }

  lemma OneLineIff(s: string)
    ensures OneLine(s) <==> '\n' !in s && '\r' !in s
  {
  }

  /** The string up to its first NUL, as c_str() is read. */
  function CString(s: string): string {
    if s == "" || s[0] == '\0' then "" else [s[0]] + CString(s[1..])
  }

  /** How many digits a string starts with. */
  function DigitRun(s: string): nat
    ensures DigitRun(s) <= |s|
  {
    if s == "" || !Decimal.IsDigit(s[0]) then 0 else 1 + DigitRun(s[1..])
  }

  function StripPrefix(s: string, prefix: string): Option<string> {
    if |prefix| <= |s| && s[..|prefix|] == prefix then Some(s[|prefix|..]) else None
  }

  /** Digits at the front of a string, if there are any, and the rest. */
  function TakeDigits(s: string): Option<(string, string)> {
    var n := DigitRun(s);
    if n == 0 then None else Some((s[..n], s[n..]))
  }

  /** matchDeviceName: the version and the id, by scanning left to right. */
  function MatchDeviceName(deviceName: string): Option<(string, string)> {
    match StripPrefix(CString(deviceName), "device@")
    case None => None
    case Some(s1) =>
      match TakeDigits(s1)
      case None => None
      case Some((major, s2)) =>
        match StripPrefix(s2, ".")
        case None => None
        case Some(s3) =>
          match TakeDigits(s3)
          case None => None
          case Some((minor, s4)) =>
            match StripPrefix(s4, "/internal/")
            case None => None
            case Some(id) => if id != "" && OneLine(id) then Some((major + "." + minor, id)) else None
  }

  /** What the expression device@([0-9]+\.[0-9]+)/internal/(.+) says of a string. */
  ghost predicate Splits(s: string, major: string, minor: string, id: string) {
    && major != "" && AllDigits(major) && minor != "" && AllDigits(minor) && id != "" && OneLine(id)
    && s == "device@" + (major + ("." + (minor + ("/internal/" + id))))
  }

  lemma {:induction false} DigitRunIs(digits: string, rest: string)
    requires AllDigits(digits) && (rest == "" || !Decimal.IsDigit(rest[0]))
    ensures DigitRun(digits + rest) == |digits|
    decreases |digits|
  {
    if digits != "" {
      DigitRunIs(digits[1..], rest);
      assert (digits + rest)[1..] == digits[1..] + rest;
    } else {
      assert digits + rest == rest;
    }
  }

  lemma {:induction false} DigitRunDigits(s: string)
    ensures AllDigits(s[..DigitRun(s)])
    decreases |s|
  {
    if s != "" && Decimal.IsDigit(s[0]) {
      DigitRunDigits(s[1..]);
      assert s[..DigitRun(s)] == [s[0]] + s[1..][..DigitRun(s[1..])];
    }
  }

  lemma StripIs(prefix: string, rest: string)
    ensures StripPrefix(prefix + rest, prefix) == Some(rest)
  {
    assert (prefix + rest)[..|prefix|] == prefix && (prefix + rest)[|prefix|..] == rest;
  }

  lemma TakeIs(digits: string, rest: string)
    requires digits != "" && AllDigits(digits) && rest != "" && !Decimal.IsDigit(rest[0])
    ensures TakeDigits(digits + rest) == Some((digits, rest))
  {
    DigitRunIs(digits, rest);
    assert (digits + rest)[..|digits|] == digits && (digits + rest)[|digits|..] == rest;
  }

  /** Scanning finds the split whenever the expression has one. */
  lemma MatchesSplit(s: string, major: string, minor: string, id: string)
    requires Splits(CString(s), major, minor, id)
    ensures MatchDeviceName(s) == Some((major + "." + minor, id))
  {
    var s4 := "/internal/" + id;
    var s3 := minor + s4;
    var s2 := "." + s3;
    var s1 := major + s2;
    assert CString(s) == "device@" + s1;
    StripIs("device@", s1);
    TakeIs(major, s2);
    StripIs(".", s3);
    TakeIs(minor, s4);
    StripIs("/internal/", id);
  }

  lemma Unstrip(s: string, prefix: string)
    requires StripPrefix(s, prefix).Some?
    ensures s == prefix + StripPrefix(s, prefix).value
  {
  }

  lemma Untake(s: string)
    requires TakeDigits(s).Some?
    ensures var (d, rest) := TakeDigits(s).value; s == d + rest && d != "" && AllDigits(d)
  {
    DigitRunDigits(s);
  }

  /** And whenever scanning succeeds, the expression splits the string that way. */
  lemma MatchSplits(s: string) returns (major: string, minor: string)
    requires MatchDeviceName(s).Some?
    ensures Splits(CString(s), major, minor, MatchDeviceName(s).value.1)
    ensures MatchDeviceName(s).value.0 == major + "." + minor
  {
    var t := CString(s);
    Unstrip(t, "device@");
    var s1 := StripPrefix(t, "device@").value;
    Untake(s1);
    var (d1, s2) := TakeDigits(s1).value;
    Unstrip(s2, ".");
    var s3 := StripPrefix(s2, ".").value;
    Untake(s3);
    var (d2, s4) := TakeDigits(s3).value;
    Unstrip(s4, "/internal/");
    major, minor := d1, d2;
  }

  lemma {:induction false} CStringIs(s: string)
    requires forall i :: 0 <= i < |s| ==> s[i] != '\0'
    ensures CString(s) == s
    decreases |s|
  {
    if s != "" {
      CStringIs(s[1..]);
    }
  }

  /** matchDeviceName inverts getAidlDeviceName on every nonempty one-line id. */
  lemma MatchInvertsName(id: string)
    requires id != "" && OneLine(id) && forall i :: 0 <= i < |id| ==> id[i] != '\0'
    ensures MatchDeviceName(DeviceName(id)) == Some((DEVICE_VERSION, id))
  {
    CStringIs(DeviceName(id));
    assert "1" + "." + "1" == "1.1";
    assert DeviceName(id) == "device@" + ("1" + ("." + ("1" + ("/internal/" + id))));
    MatchesSplit(DeviceName(id), "1", "1", id);
  }

  /** In particular on the id of every camera number; and names tell ids apart. */
  lemma MatchInvertsNumber(n: int)
    ensures MatchDeviceName(DeviceName(Decimal.Text(n))) == Some((DEVICE_VERSION, Decimal.Text(n)))
  {
    Decimal.TextShape(n);
    MatchInvertsName(Decimal.Text(n));
  }

  lemma NamesDiffer(a: string, b: string)
    requires DeviceName(a) == DeviceName(b)
    ensures a == b
  {
    StripIs("device@" + DEVICE_VERSION + "/internal/", a);
    StripIs("device@" + DEVICE_VERSION + "/internal/", b);
  }

  // ---- the directory ----

  const NOT_PRESENT: int := 0
  const PRESENT: int := 1
  const ENUMERATING: int := 2

  /** `reported` counts the status reports made to the framework. */
  datatype Directory = Directory(
    cameraIds: set<string>,
    deviceNames: set<(string, string)>,
    statusMap: map<string, int>,
    legacy: set<int>,
    blacklist: set<int>,
    callback: bool,
    reported: multiset<(string, int)>)

  function Named(id: string): (string, string) {
    (id, DeviceName(id))
  }

  function AddDeviceNames(p: Directory, id: int, status: int, isNew: bool): Directory {
    var s := Decimal.Text(id);
    p.(cameraIds := p.cameraIds + {s}, deviceNames := p.deviceNames + {Named(s)},
       reported := if isNew then p.reported + multiset{(DeviceName(s), status)} else p.reported)
  }

  function RemoveDeviceNames(p: Directory, id: int): Directory {
    var s := Decimal.Text(id);
    p.(cameraIds := p.cameraIds - {s}, deviceNames := p.deviceNames - {Named(s)},
       reported := p.reported + multiset{(DeviceName(s), NOT_PRESENT)})
  }

  /** The names listed under an id. */
  function NamesOf(p: Directory, id: string): set<string> {
    set pair | pair in p.deviceNames && pair.0 == id :: pair.1
  }

  function ReportAll(names: set<string>, status: int): multiset<(string, int)> {
    multiset(set n | n in names :: (n, status))
  }

  /** Report a status for the names listed under its id, which is then listed or no longer listed. */
  function ReportStatus(p: Directory, id: int, status: int, names: set<string>): Directory {
    var p1 := p.(reported := p.reported + ReportAll(names, status));
    if (status == PRESENT || status == ENUMERATING) && names == {} then AddDeviceNames(p1, id, status, true)
    else if status == NOT_PRESENT && names != {} then RemoveDeviceNames(p1, id)
    else p1
  }

  /** sCameraDeviceStatusChange. */
  function StatusChange(p: Directory, id: int, status: int): Directory {
    if id in p.blacklist then p
    else
      var s := Decimal.Text(id);
      var p1 := p.(statusMap := p.statusMap[s := status]);
      if !p.callback then p1 else ReportStatus(p1, id, status, NamesOf(p, s))
  }

  /** The external cameras a new callback has to hear of. */
  function ExternalIds(p: Directory): set<string> {
    set s | s in p.statusMap && Decimal.Value(s) !in p.legacy && p.statusMap[s] != NOT_PRESENT
  }

  function SetCallback(p: Directory, present: bool): Directory {
    var p1 := p.(callback := present);
    if !present then p1
    else
      var ext := ExternalIds(p);
      p1.(cameraIds := p1.cameraIds + (set s | s in ext :: Decimal.Text(Decimal.Value(s))),
          deviceNames := p1.deviceNames + (set s | s in ext :: Named(Decimal.Text(Decimal.Value(s)))),
          reported := p1.reported
            + multiset(set s | s in ext :: (DeviceName(Decimal.Text(Decimal.Value(s))), p1.statusMap[s])))
  }

  /** The device names getCameraIdList returns. */
  function CameraIdList(p: Directory): set<string> {
    set pair | pair in p.deviceNames && Decimal.Value(pair.0) in p.legacy
               && pair.0 in p.statusMap && p.statusMap[pair.0] == PRESENT :: pair.1
  }

  /** What the module says of a camera number when asked while starting up. */
  datatype Probe = Probe(infoOk: bool, versionOk: bool)

  /** getLegacyCameraIdMap: the numbers 0..n, those with a readable entry replaced by it. */
  function LegacyIds(n: nat, remap: seq<Option<int>>): seq<int> {
    seq(n, i requires 0 <= i < n => if i < |remap| && remap[i].Some? then remap[i].value else i)
  }

  /** One camera number more, unless the loop has given up. */
  function AddOne(before: (bool, Directory), id: int, probe: int -> Probe, skipFailed: bool): (bool, Directory) {
    var (ok, p1) := before;
    if !ok || id in p1.blacklist then before
    else if !probe(id).infoOk then (skipFailed, p1)
    else
      var p2 := p1.(legacy := p1.legacy + {id});
      if !probe(id).versionOk then (false, p2)
      else (true, AddDeviceNames(p2.(statusMap := p2.statusMap[Decimal.Text(id) := PRESENT]), id, PRESENT, false))
  }

  /** The start-up loop over the camera numbers; false when it gives up. */
  function AddLegacy(p: Directory, ids: seq<int>, probe: int -> Probe, skipFailed: bool): (bool, Directory) {
    if ids == [] then (true, p)
    else AddOne(AddLegacy(p, ids[..|ids| - 1], probe, skipFailed), ids[|ids| - 1], probe, skipFailed)
  }

  function Empty(blacklist: set<int>): Directory {
    Directory({}, {}, map[], {}, blacklist, false, multiset{})
  }

  /** initialize, once the module is loaded and has told how many cameras there are. */
  function Initialize(blacklist: set<int>, count: nat, remap: seq<Option<int>>, probe: int -> Probe,
                      skipFailed: bool): (bool, Directory) {
    AddLegacy(Empty(blacklist), LegacyIds(count, remap), probe, skipFailed)
  }

  // ---- what every state satisfies ----

  /** A camera number not on the blacklist, as text. */
  ghost predicate Listable(p: Directory, s: string) {
    s == Decimal.Text(Decimal.Value(s)) && Decimal.Value(s) !in p.blacklist
  }

  ghost predicate NamesInv(p: Directory) {
    && (forall pair :: pair in p.deviceNames <==> pair.0 in p.cameraIds && pair == Named(pair.0))
    && (forall s :: s in p.cameraIds || s in p.statusMap ==> Listable(p, s))
  }

  ghost predicate DirectoryInv(p: Directory) {
    NamesInv(p) && ListInv(p)
  }

  ghost predicate ListInv(p: Directory) {
    && (forall i :: i in p.legacy ==> Decimal.Text(i) in p.statusMap)
    && (!p.callback ==> forall i :: i in p.legacy ==> Decimal.Text(i) in p.cameraIds)
    && (p.callback ==>
          forall s :: s in p.statusMap && (p.statusMap[s] == PRESENT || p.statusMap[s] == ENUMERATING) ==>
            s in p.cameraIds)
  }

  lemma TextListable(p: Directory, id: int)
    requires id !in p.blacklist
    ensures Listable(p, Decimal.Text(id)) && Decimal.Value(Decimal.Text(id)) == id
  {
    Decimal.RoundTrip(id);
  }

  lemma {:induction false} AddLegacyInv(p: Directory, ids: seq<int>, probe: int -> Probe, skipFailed: bool)
    requires DirectoryInv(p) && !p.callback
    ensures AddLegacy(p, ids, probe, skipFailed).0 ==> DirectoryInv(AddLegacy(p, ids, probe, skipFailed).1)
    ensures !AddLegacy(p, ids, probe, skipFailed).1.callback
    ensures AddLegacy(p, ids, probe, skipFailed).1.blacklist == p.blacklist
    decreases |ids|
  {
    if ids != [] {
      AddLegacyInv(p, ids[..|ids| - 1], probe, skipFailed);
      var p1 := AddLegacy(p, ids[..|ids| - 1], probe, skipFailed).1;
      var id := ids[|ids| - 1];
      if id !in p1.blacklist {
        TextListable(p1, id);
      }
    }
  }

  lemma NamesFound(p: Directory, s: string)
    requires NamesInv(p)
    ensures NamesOf(p, s) == if s in p.cameraIds then {DeviceName(s)} else {}
  {
    if s in p.cameraIds {
      assert Named(s) in p.deviceNames;
    }
  }

  lemma StatusChangeInv(p: Directory, id: int, status: int)
    requires DirectoryInv(p)
    ensures DirectoryInv(StatusChange(p, id, status))
  {
    if id !in p.blacklist {
      HandleNames(p, Status(id, status));
      StatusChangeIds(p, id, status);
      ListKept(p, StatusChange(p, id, status), Decimal.Text(id), status);
    }
  }

  /** A new status keeps what the id list needs if its id is listed when it becomes present, and only it may go. */
  lemma ListKept(p: Directory, p': Directory, s: string, status: int)
    requires ListInv(p) && p'.statusMap == p.statusMap[s := status]
    requires p'.legacy == p.legacy && p'.callback == p.callback
    requires if !p.callback then p'.cameraIds == p.cameraIds
             else p.cameraIds - {s} <= p'.cameraIds
                  && (status == PRESENT || status == ENUMERATING ==> s in p'.cameraIds)
    ensures ListInv(p')
  {
  }

  lemma StatusChangeNames(p: Directory, id: int, status: int)
    requires NamesInv(p)
    ensures var p' := StatusChange(p, id, status);
            forall pair :: pair in p'.deviceNames <==> pair.0 in p'.cameraIds && pair == Named(pair.0)
  {
  }

  lemma ReportedIds(p: Directory, id: int, status: int, names: set<string>)
    requires names == {} <==> Decimal.Text(id) !in p.cameraIds
    ensures var s, p' := Decimal.Text(id), ReportStatus(p, id, status, names);
            && p'.cameraIds == (if status == NOT_PRESENT then p.cameraIds - {s}
                                else if status == PRESENT || status == ENUMERATING then p.cameraIds + {s}
                                else p.cameraIds)
            && p'.statusMap == p.statusMap
            && p'.legacy == p.legacy && p'.blacklist == p.blacklist && p'.callback == p.callback
  {
  }

  /** What a status change does to the listed ids. */
  lemma StatusChangeIds(p: Directory, id: int, status: int)
    requires NamesInv(p) && id !in p.blacklist
    ensures var s, p' := Decimal.Text(id), StatusChange(p, id, status);
            && p'.cameraIds == (if !p.callback then p.cameraIds
                                else if status == NOT_PRESENT then p.cameraIds - {s}
                                else if status == PRESENT || status == ENUMERATING then p.cameraIds + {s}
                                else p.cameraIds)
            && p'.statusMap == p.statusMap[s := status]
            && p'.legacy == p.legacy && p'.blacklist == p.blacklist && p'.callback == p.callback
  {
    var s := Decimal.Text(id);
    NamesFound(p, s);
    ReportedIds(p.(statusMap := p.statusMap[s := status]), id, status, NamesOf(p, s));
  }

  /** How often a status change is reported. */
  function Reports(p: Directory, id: int, status: int): nat {
    if id in p.blacklist || !p.callback then 0
    else if Decimal.Text(id) in p.cameraIds then (if status == NOT_PRESENT then 2 else 1)
    else if status == PRESENT || status == ENUMERATING then 1
    else 0
  }

  /**
   What the framework hears of a status change: only that the camera's generated name
   has this status, twice when a listed camera goes. So the reports of one change have one order.
   */
  lemma StatusReports(p: Directory, id: int, status: int)
    requires NamesInv(p)
    ensures var r := (DeviceName(Decimal.Text(id)), status);
            StatusChange(p, id, status).reported == p.reported[r := p.reported[r] + Reports(p, id, status)]
  {
    var s := Decimal.Text(id);
    NamesFound(p, s);
    ReportOne(DeviceName(s), status);
  }

  lemma ReportOne(n: string, status: int)
    ensures ReportAll({n}, status) == multiset{(n, status)} && ReportAll({}, status) == multiset{}
  {
    assert (set m | m in {n} :: (m, status)) == {(n, status)};
  }

  /** A callback may be set and replaced, but not taken away again. */
  lemma SetCallbackInv(p: Directory, present: bool)
    requires DirectoryInv(p) && (p.callback ==> present)
    ensures DirectoryInv(SetCallback(p, present))
  {
    if present {
      forall s | s in ExternalIds(p)
        ensures Decimal.Text(Decimal.Value(s)) == s
      {
        assert Listable(p, s);
      }
      var p' := SetCallback(p, present);
      assert p'.cameraIds == p.cameraIds + ExternalIds(p);
      forall s | s in p'.statusMap && (p'.statusMap[s] == PRESENT || p'.statusMap[s] == ENUMERATING)
        ensures s in p'.cameraIds
      {
        assert Listable(p, s);
      }
    }
  }

  /** An external camera that is not absent. */
  ghost predicate External(p: Directory, s: string) {
    s in p.statusMap && Decimal.Value(s) !in p.legacy && p.statusMap[s] != NOT_PRESENT
  }

  /** What a new callback hears: each external camera that is not absent, once, with its name and status. */
  lemma CallbackHears(p: Directory, n: string, status: int)
    requires NamesInv(p)
    ensures SetCallback(p, true).reported[(n, status)] ==
            p.reported[(n, status)]
            + if exists s :: External(p, s) && p.statusMap[s] == status && n == DeviceName(s) then 1 else 0
    ensures SetCallback(p, false).reported == p.reported
    ensures forall s :: s in SetCallback(p, true).cameraIds <==> s in p.cameraIds || External(p, s)
  {
    var ext := ExternalIds(p);
    forall s
      ensures s in ext <==> External(p, s)
      ensures s in ext ==> Decimal.Text(Decimal.Value(s)) == s
    {
      assert s in ext ==> Listable(p, s);
    }
    var heard := set s | s in ext :: (DeviceName(Decimal.Text(Decimal.Value(s))), p.statusMap[s]);
    assert (n, status) in heard <==> exists s :: External(p, s) && p.statusMap[s] == status && n == DeviceName(s);
  }

  datatype Event =
    | Status(id: int, status: int)
    | Callback(present: bool)

  function Handle(p: Directory, e: Event): Directory {
    match e
    case Status(id, status) => StatusChange(p, id, status)
    case Callback(present) => SetCallback(p, present)
  }

  /** Once set, the callback stays set. */
  ghost predicate CallbackStays(p: Directory, es: seq<Event>)
    decreases |es|
  {
    es == [] || ((es[0].Callback? && p.callback ==> es[0].present) && CallbackStays(Handle(p, es[0]), es[1..]))
  }

  function HandleAll(p: Directory, es: seq<Event>): Directory
    decreases |es|
  {
    if es == [] then p else HandleAll(Handle(p, es[0]), es[1..])
  }

  lemma {:induction false} RunInv(p: Directory, es: seq<Event>)
    requires DirectoryInv(p) && CallbackStays(p, es)
    ensures DirectoryInv(HandleAll(p, es)) && HandleAll(p, es).legacy == p.legacy
    ensures HandleAll(p, es).blacklist == p.blacklist
    decreases |es|
  {
    if es != [] {
      match es[0] {
        case Status(id, status) => StatusChangeInv(p, id, status);
        case Callback(present) => SetCallbackInv(p, present);
      }
      RunInv(Handle(p, es[0]), es[1..]);
    }
  }

  lemma CallbackNames(p: Directory, present: bool)
    requires NamesInv(p)
    ensures NamesInv(SetCallback(p, present)) && SetCallback(p, present).blacklist == p.blacklist
  {
    forall s | s in ExternalIds(p)
      ensures Decimal.Text(Decimal.Value(s)) == s
    {
      assert Listable(p, s);
    }
  }

  lemma HandleNames(p: Directory, e: Event)
    requires NamesInv(p)
    ensures NamesInv(Handle(p, e)) && Handle(p, e).blacklist == p.blacklist
  {
    match e
    case Status(id, status) =>
      if id !in p.blacklist {
        TextListable(p, id);
        StatusChangeNames(p, id, status);
        StatusChangeIds(p, id, status);
      }
    case Callback(present) => CallbackNames(p, present);
  }

  /** The names stay exact over any run, whether or not the callback is taken away in between. */
  lemma {:induction false} RunNames(p: Directory, es: seq<Event>)
    requires NamesInv(p)
    ensures NamesInv(HandleAll(p, es)) && HandleAll(p, es).blacklist == p.blacklist
    decreases |es|
  {
    if es != [] {
      HandleNames(p, es[0]);
      RunNames(Handle(p, es[0]), es[1..]);
    }
  }

  /** getCameraIdList is exact: the legacy cameras whose status is PRESENT, by their generated names. */
  ghost predicate ListExact(p: Directory) {
    forall n :: n in CameraIdList(p) <==> exists i :: PresentLegacy(p, i) && n == DeviceName(Decimal.Text(i))
  }

  /** The names listed are the generated ones, for ids that are numbers. */
  ghost predicate NamesExact(p: Directory) {
    && (forall pair :: pair in p.deviceNames <==> pair.0 in p.cameraIds && pair == Named(pair.0))
    && (forall s :: s in p.cameraIds ==> Listable(p, s))
  }

  predicate PresentLegacy(p: Directory, i: int) {
    i in p.legacy && Decimal.Text(i) in p.statusMap && p.statusMap[Decimal.Text(i)] == PRESENT
  }

  /** A present legacy camera's name is returned exactly when its id is listed. */
  lemma ListedIff(p: Directory, i: int)
    requires NamesExact(p) && PresentLegacy(p, i)
    ensures DeviceName(Decimal.Text(i)) in CameraIdList(p) <==> Decimal.Text(i) in p.cameraIds
  {
    var n := DeviceName(Decimal.Text(i));
    Decimal.RoundTrip(i);
    if Decimal.Text(i) in p.cameraIds {
      assert Named(Decimal.Text(i)) in p.deviceNames;
    }
    if n in CameraIdList(p) {
      var pair :| pair in p.deviceNames && Decimal.Value(pair.0) in p.legacy
                  && pair.0 in p.statusMap && p.statusMap[pair.0] == PRESENT && pair.1 == n;
      NamesDiffer(pair.0, Decimal.Text(i));
    }
  }

  lemma ListExactIff(p: Directory)
    requires NamesExact(p)
    ensures ListExact(p) <==> forall i :: PresentLegacy(p, i) ==> Decimal.Text(i) in p.cameraIds
  {
    forall i | PresentLegacy(p, i)
      ensures DeviceName(Decimal.Text(i)) in CameraIdList(p) <==> Decimal.Text(i) in p.cameraIds
    {
      ListedIff(p, i);
    }
    forall n | n in CameraIdList(p)
      ensures exists i :: PresentLegacy(p, i) && n == DeviceName(Decimal.Text(i))
    {
      var pair :| pair in p.deviceNames && Decimal.Value(pair.0) in p.legacy
                  && pair.0 in p.statusMap && p.statusMap[pair.0] == PRESENT && pair.1 == n;
      assert Listable(p, pair.0);
      assert PresentLegacy(p, Decimal.Value(pair.0));
    }
  }

  /**
   The provider's directory. After a successful start, in every state reached by
   status changes and callbacks: the device names are exactly the generated names of
   the listed ids, and no blacklisted camera is listed. If the callback is never taken
   away, getCameraIdList is exactly the present legacy cameras.
   */
  lemma DirectoryIsExact(blacklist: set<int>, count: nat, remap: seq<Option<int>>, probe: int -> Probe,
                         skipFailed: bool, es: seq<Event>)
    requires Initialize(blacklist, count, remap, probe, skipFailed).0
    ensures var p0 := Initialize(blacklist, count, remap, probe, skipFailed).1;
            var p := HandleAll(p0, es);
            && (forall pair :: pair in p.deviceNames <==> pair.0 in p.cameraIds && pair.1 == DeviceName(pair.0))
            && (forall i :: i in blacklist ==> Decimal.Text(i) !in p.cameraIds && Decimal.Text(i) !in p.statusMap)
            && (CallbackStays(p0, es) ==> ListExact(p))
  {
    AddLegacyInv(Empty(blacklist), LegacyIds(count, remap), probe, skipFailed);
    var p0 := Initialize(blacklist, count, remap, probe, skipFailed).1;
    RunNames(p0, es);
    var p := HandleAll(p0, es);
    if CallbackStays(p0, es) {
      RunInv(p0, es);
      ListExactIff(p);
    }
    forall i | i in blacklist
      ensures Decimal.Text(i) !in p.cameraIds && Decimal.Text(i) !in p.statusMap
    {
      Decimal.RoundTrip(i);
      assert !Listable(p, Decimal.Text(i));
    }
    forall pair
      ensures pair in p.deviceNames <==> pair.0 in p.cameraIds && pair.1 == DeviceName(pair.0)
    {
      assert pair == (pair.0, pair.1);
    }
  }

  /**
   Why the callback must stay: with none set, a legacy camera reported PRESENT
   keeps the list exact exactly when it is still listed; after a removal it is not.
   */
  lemma PresentWithoutCallback(p: Directory, id: int)
    requires DirectoryInv(p) && id in p.legacy && id !in p.blacklist
    ensures ListExact(StatusChange(p.(callback := false), id, PRESENT)) <==> Decimal.Text(id) in p.cameraIds
  {
    var p' := StatusChange(p.(callback := false), id, PRESENT);
    ListExactIff(p');
    OnlyOneChanges(p, p', id);
  }

  lemma OnlyOneChanges(p: Directory, p': Directory, id: int)
    requires id in p.legacy && p' == p.(callback := false, statusMap := p.statusMap[Decimal.Text(id) := PRESENT])
    ensures PresentLegacy(p', id) && forall i :: PresentLegacy(p', i) && i != id ==> PresentLegacy(p, i)
  {
    forall i | PresentLegacy(p', i) && i != id
      ensures PresentLegacy(p, i)
    {
      if Decimal.Text(i) == Decimal.Text(id) {
        Decimal.Injective(i, id);
      }
    }
  }

  // ---- runs that take the callback away ----

  /** Whether a callback is set after the events. */
  function CallbackAfter(set0: bool, es: seq<Event>): bool {
    if es == [] then set0
    else if es[|es| - 1].Callback? then es[|es| - 1].present
    else CallbackAfter(set0, es[..|es| - 1])
  }

  /** Event k is a status change of the camera, made while a callback is set; `gone` says which way. */
  ghost predicate Heard(set0: bool, es: seq<Event>, i: int, k: nat, gone: bool) {
    && k < |es| && CallbackAfter(set0, es[..k])
    && es[k].Status? && es[k].id == i
    && if gone then es[k].status == NOT_PRESENT else es[k].status == PRESENT || es[k].status == ENUMERATING
  }

  /** The camera was heard to go, and not heard to come back after that. */
  ghost predicate Dropped(set0: bool, es: seq<Event>, i: int) {
    exists k: nat :: Heard(set0, es, i, k, true) && forall j: nat :: Heard(set0, es, i, j, false) ==> j <= k
  }

  /** The last status of a camera that was present at first, heard or not, is PRESENT. */
  function StillPresent(es: seq<Event>, i: int): bool {
    if es == [] then true
    else
      var e := es[|es| - 1];
      if e.Status? && e.id == i then e.status == PRESENT else StillPresent(es[..|es| - 1], i)
  }

  lemma {:induction false} HandleAllAppend(p: Directory, es: seq<Event>, e: Event)
    ensures HandleAll(p, es + [e]) == Handle(HandleAll(p, es), e)
    decreases |es|
  {
    if es == [] {
      assert HandleAll(Handle(p, e), []) == Handle(p, e);
    } else {
      assert (es + [e])[1..] == es[1..] + [e];
      HandleAllAppend(Handle(p, es[0]), es[1..], e);
    }
  }

  lemma HeardBefore(set0: bool, init: seq<Event>, e: Event, i: int, k: nat, gone: bool)
    ensures k < |init| ==> (Heard(set0, init + [e], i, k, gone) <==> Heard(set0, init, i, k, gone))
    ensures k == |init| ==>
              (Heard(set0, init + [e], i, k, gone) <==>
               CallbackAfter(set0, init) && e.Status? && e.id == i
               && if gone then e.status == NOT_PRESENT else e.status == PRESENT || e.status == ENUMERATING)
  {
    if k <= |init| {
      assert (init + [e])[..k] == init[..k];
      assert k == |init| ==> init[..k] == init;
    }
  }

  lemma DroppedAppend(set0: bool, init: seq<Event>, e: Event, i: int)
    ensures Dropped(set0, init + [e], i) <==>
            if e.Status? && e.id == i && CallbackAfter(set0, init)
            then e.status == NOT_PRESENT || (e.status != PRESENT && e.status != ENUMERATING && Dropped(set0, init, i))
            else Dropped(set0, init, i)
  {
    var all, n := init + [e], |init|;
    forall k: nat, gone: bool
      ensures k < n ==> (Heard(set0, all, i, k, gone) <==> Heard(set0, init, i, k, gone))
    {
      HeardBefore(set0, init, e, i, k, gone);
    }
    HeardBefore(set0, init, e, i, n, true);
    HeardBefore(set0, init, e, i, n, false);
    if Heard(set0, all, i, n, true) {
      assert Dropped(set0, all, i);
    } else if Heard(set0, all, i, n, false) {
      assert !Dropped(set0, all, i);
    } else {
      forall k: nat
        ensures (Heard(set0, all, i, k, true) && forall j: nat :: Heard(set0, all, i, j, false) ==> j <= k) <==>
                (Heard(set0, init, i, k, true) && forall j: nat :: Heard(set0, init, i, j, false) ==> j <= k)
      {
      }
    }
  }

  lemma CallbackKeepsLegacy(p: Directory, present: bool, i: int)
    requires NamesInv(p) && i in p.legacy
    ensures var p', s := SetCallback(p, present), Decimal.Text(i);
            && (s in p'.cameraIds <==> s in p.cameraIds)
            && p'.statusMap == p.statusMap && p'.legacy == p.legacy && p'.callback == present
  {
    Decimal.RoundTrip(i);
    forall s | s in ExternalIds(p)
      ensures Decimal.Text(Decimal.Value(s)) == s && s != Decimal.Text(i)
    {
      assert Listable(p, s);
    }
  }

  /** What one event does to a legacy camera. */
  lemma LegacyStep(p: Directory, e: Event, i: int)
    requires NamesInv(p) && i in p.legacy && i !in p.blacklist
    ensures var p', s := Handle(p, e), Decimal.Text(i);
            && p'.legacy == p.legacy && p'.callback == (if e.Callback? then e.present else p.callback)
            && (PresentLegacy(p', i) <==>
                if e.Status? && e.id == i then e.status == PRESENT else PresentLegacy(p, i))
            && (s in p'.cameraIds <==>
                if e.Status? && e.id == i && p.callback
                then e.status != NOT_PRESENT && (e.status == PRESENT || e.status == ENUMERATING || s in p.cameraIds)
                else s in p.cameraIds)
  {
    match e
    case Callback(present) => CallbackKeepsLegacy(p, present, i);
    case Status(id, status) =>
      if id !in p.blacklist {
        StatusChangeIds(p, id, status);
        if id != i && Decimal.Text(id) == Decimal.Text(i) {
          Decimal.Injective(id, i);
        }
      }
  }

  /** Dropped, by looking back from the last event. */
  function Gone(set0: bool, es: seq<Event>, i: int): bool {
    if es == [] then false
    else
      var init, e := es[..|es| - 1], es[|es| - 1];
      if e.Status? && e.id == i && CallbackAfter(set0, init) then
        e.status == NOT_PRESENT || (e.status != PRESENT && e.status != ENUMERATING && Gone(set0, init, i))
      else Gone(set0, init, i)
  }

  lemma {:induction false} GoneIff(set0: bool, es: seq<Event>, i: int)
    ensures Gone(set0, es, i) <==> Dropped(set0, es, i)
    decreases |es|
  {
    if es != [] {
      var init, e := es[..|es| - 1], es[|es| - 1];
      GoneIff(set0, init, i);
      DroppedAppend(set0, init, e, i);
      assert es == init + [e];
    }
  }

  /** Legacy camera i after events: listed unless dropped, present as its last status says. */
  ghost predicate LegacyAfter(set0: bool, es: seq<Event>, p: Directory, i: int) {
    && NamesInv(p) && i in p.legacy && i !in p.blacklist && p.callback == CallbackAfter(set0, es)
    && (Decimal.Text(i) in p.cameraIds <==> !Gone(set0, es, i))
    && (PresentLegacy(p, i) <==> StillPresent(es, i))
  }

  lemma LegacyAtFirst(p: Directory, es: seq<Event>, i: int)
    requires NamesInv(p) && i in p.legacy && i !in p.blacklist && es == []
    requires Decimal.Text(i) in p.cameraIds && PresentLegacy(p, i)
    ensures LegacyAfter(p.callback, es, HandleAll(p, es), i)
  {
  }

  lemma LegacyNext(set0: bool, es: seq<Event>, p: Directory, p': Directory, i: int)
    requires es != [] && LegacyAfter(set0, es[..|es| - 1], p, i) && p' == Handle(p, es[|es| - 1])
    ensures LegacyAfter(set0, es, p', i)
  {
    HandleNames(p, es[|es| - 1]);
    LegacyStep(p, es[|es| - 1], i);
  }

  lemma HandleLast(p: Directory, es: seq<Event>)
    requires es != []
    ensures HandleAll(p, es) == Handle(HandleAll(p, es[..|es| - 1]), es[|es| - 1])
  {
    HandleAllAppend(p, es[..|es| - 1], es[|es| - 1]);
    assert es == es[..|es| - 1] + [es[|es| - 1]];
  }

  lemma {:induction false} LegacyOverRun(p: Directory, es: seq<Event>, i: int)
    requires NamesInv(p) && i in p.legacy && i !in p.blacklist
    requires Decimal.Text(i) in p.cameraIds && PresentLegacy(p, i)
    ensures LegacyAfter(p.callback, es, HandleAll(p, es), i)
    decreases |es|
  {
    if es == [] {
      LegacyAtFirst(p, es, i);
    } else {
      LegacyOverRun(p, es[..|es| - 1], i);
      HandleLast(p, es);
      LegacyNext(p.callback, es, HandleAll(p, es[..|es| - 1]), HandleAll(p, es), i);
    }
  }

  /** After a successful start every legacy camera is listed, PRESENT and not blacklisted. */
  lemma {:induction false} StartedPresent(p: Directory, ids: seq<int>, probe: int -> Probe, skipFailed: bool, i: int)
    requires p.legacy == {}
    ensures var (ok, p') := AddLegacy(p, ids, probe, skipFailed);
            ok && i in p'.legacy ==> PresentLegacy(p', i) && i !in p'.blacklist && Decimal.Text(i) in p'.cameraIds
    decreases |ids|
  {
    if ids != [] {
      StartedPresent(p, ids[..|ids| - 1], probe, skipFailed, i);
    }
  }

  /** A camera number at start-up: passed over, taken in, or the end of the start. */
  ghost predicate TakenAtStart(blacklist: set<int>, probe: int -> Probe, id: int) {
    id !in blacklist && probe(id).infoOk
  }

  ghost predicate EndsStart(blacklist: set<int>, probe: int -> Probe, skipFailed: bool, id: int) {
    id !in blacklist && if probe(id).infoOk then !probe(id).versionOk else !skipFailed
  }

  /** What the start-up loop has come to: nothing ended it, and the cameras taken in are listed and PRESENT. */
  ghost predicate StartedWith(p: Directory, ids: seq<int>, probe: int -> Probe, p': Directory) {
    && (forall i :: i in p'.legacy <==> i in ids && TakenAtStart(p.blacklist, probe, i))
    && (forall s :: s in p'.cameraIds <==> exists i :: i in p'.legacy && s == Decimal.Text(i))
    && p'.statusMap.Keys == p'.cameraIds && (forall s :: s in p'.statusMap ==> p'.statusMap[s] == PRESENT)
    && p'.blacklist == p.blacklist && p'.reported == multiset{} && !p'.callback
  }

  lemma StartedNext(p: Directory, ids: seq<int>, probe: int -> Probe, skipFailed: bool, p1: Directory,
                    after: (bool, Directory))
    requires ids != [] && StartedWith(p, ids[..|ids| - 1], probe, p1)
    requires after == AddOne((true, p1), ids[|ids| - 1], probe, skipFailed)
    ensures after.0 <==> !EndsStart(p.blacklist, probe, skipFailed, ids[|ids| - 1])
    ensures after.0 ==> StartedWith(p, ids, probe, after.1)
  {
    var init, id := ids[..|ids| - 1], ids[|ids| - 1];
    assert forall i :: i in ids <==> i in init || i == id;
    if after.0 {
      if TakenAtStart(p.blacklist, probe, id) {
        TextsGrow(p1.legacy, p1.cameraIds, id);
        assert after.1.legacy == p1.legacy + {id} && after.1.cameraIds == p1.cameraIds + {Decimal.Text(id)};
      } else {
        assert after.1 == p1;
      }
    }
  }

  lemma TextsGrow(numbers: set<int>, texts: set<string>, id: int)
    requires forall s :: s in texts <==> exists i :: i in numbers && s == Decimal.Text(i)
    ensures forall s :: s in texts + {Decimal.Text(id)} <==> exists i :: i in numbers + {id} && s == Decimal.Text(i)
  {
    forall s | s in texts + {Decimal.Text(id)}
      ensures exists i :: i in numbers + {id} && s == Decimal.Text(i)
    {
      if s in texts {
        var i :| i in numbers && s == Decimal.Text(i);
        assert i in numbers + {id};
      } else {
        assert id in numbers + {id};
      }
    }
  }

  lemma {:induction false} StartsWith(p: Directory, ids: seq<int>, probe: int -> Probe, skipFailed: bool)
    requires p == Empty(p.blacklist)
    ensures AddLegacy(p, ids, probe, skipFailed).0 <==>
            forall k :: 0 <= k < |ids| ==> !EndsStart(p.blacklist, probe, skipFailed, ids[k])
    ensures AddLegacy(p, ids, probe, skipFailed).0 ==>
              StartedWith(p, ids, probe, AddLegacy(p, ids, probe, skipFailed).1)
    decreases |ids|
  {
    if ids != [] {
      var init := ids[..|ids| - 1];
      var before := AddLegacy(p, init, probe, skipFailed);
      StartsWith(p, init, probe, skipFailed);
      assert forall k :: 0 <= k < |init| ==> init[k] == ids[k];
      if before.0 {
        StartedNext(p, ids, probe, skipFailed, before.1, AddLegacy(p, ids, probe, skipFailed));
      }
    }
  }

  /**
   What a start comes to. It succeeds exactly if no camera off the blacklist ends it: by
   not being described, unless such cameras are skipped, or by a version that cannot be
   served. Then the legacy cameras are exactly those off the blacklist that the module
   describes, all listed and PRESENT, and nothing has been reported.
   */
  lemma StartIs(blacklist: set<int>, count: nat, remap: seq<Option<int>>, probe: int -> Probe, skipFailed: bool)
    ensures var (ok, p) := Initialize(blacklist, count, remap, probe, skipFailed);
            var ids := seq(count, i requires 0 <= i < count =>
                             if i < |remap| && remap[i].Some? then remap[i].value else i);
            && (ok <==> forall k :: 0 <= k < count ==> !EndsStart(blacklist, probe, skipFailed, ids[k]))
            && (ok ==>
                  (forall i :: i in p.legacy <==> i in ids && i !in blacklist && probe(i).infoOk)
                  && (forall s :: s in p.cameraIds <==> exists i :: i in p.legacy && s == Decimal.Text(i))
                  && p.statusMap.Keys == p.cameraIds && (forall s :: s in p.statusMap ==> p.statusMap[s] == PRESENT)
                  && p.reported == multiset{} && !p.callback)
  {
    StartsWith(Empty(blacklist), LegacyIds(count, remap), probe, skipFailed);
  }

  /**
   The id list over runs that take the callback away. After a successful start and
   any events, getCameraIdList is exactly the present legacy cameras if and only if no
   legacy camera whose last status is PRESENT was heard to go by some callback and not
   heard to come back after that: its return, if any, came while no callback was set.
   */
  lemma ListExactRunIff(blacklist: set<int>, count: nat, remap: seq<Option<int>>, probe: int -> Probe,
                        skipFailed: bool, es: seq<Event>)
    requires Initialize(blacklist, count, remap, probe, skipFailed).0
    ensures var p0 := Initialize(blacklist, count, remap, probe, skipFailed).1;
            ListExact(HandleAll(p0, es)) <==>
            forall i :: i in p0.legacy && StillPresent(es, i) ==> !Dropped(false, es, i)
  {
    var ids := LegacyIds(count, remap);
    AddLegacyInv(Empty(blacklist), ids, probe, skipFailed);
    var p0 := Initialize(blacklist, count, remap, probe, skipFailed).1;
    var p := HandleAll(p0, es);
    RunNames(p0, es);
    LegacyKept(p0, es);
    ListExactIff(p);
    forall i | i in p0.legacy
      ensures PresentLegacy(p, i) <==> StillPresent(es, i)
      ensures Decimal.Text(i) in p.cameraIds <==> !Dropped(false, es, i)
    {
      StartedPresent(Empty(blacklist), ids, probe, skipFailed, i);
      LegacyOverRun(p0, es, i);
      GoneIff(false, es, i);
    }
  }

  lemma {:induction false} LegacyKept(p: Directory, es: seq<Event>)
    ensures HandleAll(p, es).legacy == p.legacy
    decreases |es|
  {
    if es != [] {
      LegacyKept(Handle(p, es[0]), es[1..]);
    }
  }

  // ---- the provider as an object ----

  class Provider {
    var cameraIds: set<string>
    var cameraDeviceNames: set<(string, string)>
    var cameraStatusMap: map<string, int>
    var legacyCameras: set<int>
    var blacklistedCameraIds: set<int>
    var callbackSet: bool
    var reported: multiset<(string, int)>   // the status reports made on callbacks

    function View(): Directory
      reads this
    {
      Directory(cameraIds, cameraDeviceNames, cameraStatusMap, legacyCameras, blacklistedCameraIds, callbackSet,
                reported)
    }

    constructor (blacklist: set<int>)
      ensures View() == Empty(blacklist)
    {
      cameraIds, cameraDeviceNames, cameraStatusMap, legacyCameras := {}, {}, map[], {};
      blacklistedCameraIds, callbackSet, reported := blacklist, false, multiset{};
    }

    method AddNames(id: int, status: int, isNew: bool)
      modifies this`cameraIds, this`cameraDeviceNames, this`reported
      ensures View() == AddDeviceNames(old(View()), id, status, isNew)
    {
      var s := Decimal.Text(id);
      cameraIds := cameraIds + {s};
      var pair := Named(s);
      cameraDeviceNames := cameraDeviceNames + {pair};
      if isNew {
        Report(pair.1, status);
      }
    }

    method RemoveNames(id: int)
      modifies this`cameraIds, this`cameraDeviceNames, this`reported
      ensures View() == RemoveDeviceNames(old(View()), id)
    {
      var s := Decimal.Text(id);
      cameraIds := cameraIds - {s};
      var pair := Named(s);
      cameraDeviceNames := cameraDeviceNames - {pair};
      Report(pair.1, NOT_PRESENT);
    }

    method Report(name: string, status: int)
      modifies this`reported
      ensures reported == old(reported) + multiset{(name, status)}
    {
      reported := reported + multiset{(name, status)};
    }

    /** The names listed under an id among the pairs already visited. */
    ghost function Visited(all: set<(string, string)>, todo: set<(string, string)>, s: string): set<string> {
      set pair | pair in all && pair !in todo && pair.0 == s :: pair.1
    }

    lemma VisitOne(all: set<(string, string)>, todo: set<(string, string)>, s: string, pair: (string, string))
      requires pair in todo && todo <= all
      ensures Visited(all, todo - {pair}, s) == Visited(all, todo, s) + if pair.0 == s then {pair.1} else {}
      ensures pair.0 == s ==> pair.1 !in Visited(all, todo, s)
    {
      assert forall q: (string, string) :: q.0 == pair.0 && q.1 == pair.1 ==> q == pair;
    }

    /** Report a status for the name of a pair if it is listed under the id. */
    method ReportPair(ghost names: set<string>, pair: (string, string), s: string, status: int,
                      ghost before: multiset<(string, int)>)
      requires reported == before + ReportAll(names, status) && (pair.0 == s ==> pair.1 !in names)
      modifies this`reported
      ensures reported == before + ReportAll(names + if pair.0 == s then {pair.1} else {}, status)
    {
      if pair.0 == s {
        ReportOneMore(names, pair.1, status);
        Report(pair.1, status);
      } else {
        assert names + {} == names;
      }
    }

    /** Report a status for every name listed under an id. */
    method ReportNames(s: string, status: int) returns (found: bool)
      modifies this`reported
      ensures reported == old(reported) + ReportAll(NamesOf(old(View()), s), status)
      ensures found <==> NamesOf(old(View()), s) != {}
    {
      found := false;
      var todo := cameraDeviceNames;
      NothingToReport(status);
      while todo != {}
        invariant todo <= cameraDeviceNames
        invariant reported == old(reported) + ReportAll(Visited(cameraDeviceNames, todo, s), status)
        invariant found <==> Visited(cameraDeviceNames, todo, s) != {}
        decreases todo
      {
        ghost var _ := HasElement(todo);
        var pair :| pair in todo;
        VisitOne(cameraDeviceNames, todo, s, pair);
        ReportPair(Visited(cameraDeviceNames, todo, s), pair, s, status, old(reported));
        found := found || pair.0 == s;
        todo := todo - {pair};
      }
      assert Visited(cameraDeviceNames, {}, s) == NamesOf(View(), s);
    }

    lemma NothingToReport(status: int)
      ensures ReportAll({}, status) == multiset{}
    {
    }

    lemma ReportOneMore(names: set<string>, n: string, status: int)
      requires n !in names
      ensures ReportAll(names + {n}, status) == ReportAll(names, status) + multiset{(n, status)}
    {
      var a := set m | m in names :: (m, status);
      assert (set m | m in names + {n} :: (m, status)) == a + {(n, status)};
    }

    method CameraDeviceStatusChange(id: int, status: int)
      modifies this
      ensures View() == StatusChange(old(View()), id, status)
    {
      if id in blacklistedCameraIds {
        return;
      }
      var s := Decimal.Text(id);
      cameraStatusMap := cameraStatusMap[s := status];
      if !callbackSet {
        return;
      }
      var found := ReportNames(s, status);
      if (status == PRESENT || status == ENUMERATING) && !found {
        AddNames(id, status, true);
      } else if status == NOT_PRESENT && found {
        RemoveNames(id);
      }
    }

    /** The directory once the externals in `done` have been added and reported. */
    ghost function WithExternals(p: Directory, done: set<string>): Directory {
      p.(callback := true, cameraIds := p.cameraIds + done,
         deviceNames := p.deviceNames + (set s | s in done :: Named(s)),
         reported := p.reported + multiset(Reports(p, done)))
    }

    lemma OneMoreExternal(p: Directory, done: set<string>, s: string)
      requires s !in done && s in p.statusMap && Listable(p, s)
      ensures AddDeviceNames(WithExternals(p, done), Decimal.Value(s), p.statusMap[s], true) ==
              WithExternals(p, done + {s})
    {
      OneMoreReport(p, done, s);
      OneMoreName(p.deviceNames, done, s);
      assert p.cameraIds + done + {s} == p.cameraIds + (done + {s});
      assert p.reported + multiset(Reports(p, done)) + multiset{(DeviceName(s), p.statusMap[s])} ==
             p.reported + multiset(Reports(p, done + {s}));
    }

    lemma OneMoreName(names: set<(string, string)>, done: set<string>, s: string)
      ensures names + (set t | t in done + {s} :: Named(t)) == names + (set t | t in done :: Named(t)) + {Named(s)}
    {
    }

    ghost function VisitedExternals(p: Directory, todo: set<string>): set<string> {
      set s | s in ExternalIds(p) && s !in todo
    }

    lemma NoExternalsYet(p: Directory)
      ensures WithExternals(p, VisitedExternals(p, p.statusMap.Keys)) == p.(callback := true)
    {
      assert VisitedExternals(p, p.statusMap.Keys) == {};
      assert Reports(p, {}) == {};
    }

    lemma AllExternals(p: Directory)
      requires NamesInv(p)
      ensures WithExternals(p, VisitedExternals(p, {})) == SetCallback(p, true)
    {
      assert VisitedExternals(p, {}) == ExternalIds(p);
      SameExternals(p);
    }

    lemma VisitedMore(p: Directory, todo: set<string>, s: string)
      requires s in todo && todo <= p.statusMap.Keys
      ensures s !in VisitedExternals(p, todo)
      ensures VisitedExternals(p, todo - {s}) ==
              if s in ExternalIds(p) then VisitedExternals(p, todo) + {s} else VisitedExternals(p, todo)
    {
    }

    /** Add and report one more external camera. */
    method AddExternal(ghost p: Directory, ghost done: set<string>, s: string)
      requires s !in done && s in p.statusMap && Listable(p, s) && View() == WithExternals(p, done)
      modifies this`cameraIds, this`cameraDeviceNames, this`reported
      ensures View() == WithExternals(p, done + {s})
    {
      OneMoreExternal(p, done, s);
      AddNames(Decimal.Value(s), cameraStatusMap[s], true);
    }

    /** Add and report a camera if it is external and not absent. */
    method VisitCamera(ghost p: Directory, ghost done: set<string>, s: string)
      requires s !in done && s in p.statusMap && Listable(p, s) && View() == WithExternals(p, done)
      modifies this`cameraIds, this`cameraDeviceNames, this`reported
      ensures View() == WithExternals(p, if s in ExternalIds(p) then done + {s} else done)
    {
      if Decimal.Value(s) !in legacyCameras && cameraStatusMap[s] != NOT_PRESENT {
        AddExternal(p, done, s);
      }
    }

    /** Visit one entry of the status map. */
    method VisitStatus(ghost p: Directory, ghost todo: set<string>, s: string)
      requires NamesInv(p) && s in todo && todo <= p.statusMap.Keys
      requires View() == WithExternals(p, VisitedExternals(p, todo))
      modifies this`cameraIds, this`cameraDeviceNames, this`reported
      ensures View() == WithExternals(p, VisitedExternals(p, todo - {s}))
    {
      VisitedMore(p, todo, s);
      assert Listable(p, s);
      VisitCamera(p, VisitedExternals(p, todo), s);
    }

    /** Set the callback and report every external camera that is not absent. */
    method SetCallbackTo(present: bool)
      requires NamesInv(View())
      modifies this
      ensures View() == SetCallback(old(View()), present)
    {
      ghost var p := View();
      callbackSet := present;
      if !present {
        return;
      }
      var todo := cameraStatusMap.Keys;
      NoExternalsYet(p);
      while todo != {}
        invariant todo <= p.statusMap.Keys
        invariant View() == WithExternals(p, VisitedExternals(p, todo))
        decreases todo
      {
        ghost var _ := HasElement(todo);
        var s :| s in todo;
        VisitStatus(p, todo, s);
        todo := todo - {s};
      }
      AllExternals(p);
    }

    function Reports(p: Directory, ids: set<string>): set<(string, int)> {
      set s | s in ids && s in p.statusMap :: (DeviceName(s), p.statusMap[s])
    }

    lemma OneMoreReport(p: Directory, ids: set<string>, s: string)
      requires s !in ids && s in p.statusMap
      ensures multiset(Reports(p, ids + {s})) == multiset(Reports(p, ids)) + multiset{(DeviceName(s), p.statusMap[s])}
    {
      var one := (DeviceName(s), p.statusMap[s]);
      if one in Reports(p, ids) {
        var t :| t in ids && t in p.statusMap && (DeviceName(t), p.statusMap[t]) == one;
        NamesDiffer(s, t);
      }
      assert Reports(p, ids + {s}) == Reports(p, ids) + {one};
    }

    /** External ids are numbers already, so normalizing them changes nothing. */
    lemma SameExternals(p: Directory)
      requires NamesInv(p)
      ensures var ext := ExternalIds(p);
              && (set s | s in ext :: Decimal.Text(Decimal.Value(s))) == ext
              && (set s | s in ext :: Named(Decimal.Text(Decimal.Value(s)))) == (set s | s in ext :: Named(s))
              && (set s | s in ext :: (DeviceName(Decimal.Text(Decimal.Value(s))), p.statusMap[s])) == Reports(p, ext)
    {
      var ext := ExternalIds(p);
      forall s | s in ext
        ensures Decimal.Text(Decimal.Value(s)) == s
      {
        assert Listable(p, s);
      }
    }

    method GetCameraIdList() returns (names: set<string>)
      ensures names == CameraIdList(View())
    {
      names := {};
      var todo := cameraDeviceNames;
      while todo != {}
        invariant todo <= cameraDeviceNames
        invariant names == set pair | pair in cameraDeviceNames && pair !in todo
                                      && Decimal.Value(pair.0) in legacyCameras
                                      && pair.0 in cameraStatusMap && cameraStatusMap[pair.0] == PRESENT :: pair.1
        decreases todo
      {
        ghost var _ := HasElement(todo);
        var pair :| pair in todo;
        if Decimal.Value(pair.0) in legacyCameras {
          if pair.0 in cameraStatusMap && cameraStatusMap[pair.0] == PRESENT {
            names := names + {pair.1};
          }
        }
        todo := todo - {pair};
      }
    }

    /** The start-up loop; true means it failed. */
    method InitializeFrom(ids: seq<int>, probe: int -> Probe, skipFailed: bool) returns (failed: bool)
      modifies this
      ensures (!failed, View()) == AddLegacy(old(View()), ids, probe, skipFailed)
    {
      for n := 0 to |ids|
        invariant (true, View()) == AddLegacy(old(View()), ids[..n], probe, skipFailed)
      {
        assert ids[..n + 1][..n] == ids[..n];
        var id := ids[n];
        if id !in blacklistedCameraIds {
          if !probe(id).infoOk {
            if !skipFailed {
              GivesUp(old(View()), ids, n + 1, probe, skipFailed);
              return true;
            }
          } else {
            legacyCameras := legacyCameras + {id};
            if !probe(id).versionOk {
              GivesUp(old(View()), ids, n + 1, probe, skipFailed);
              return true;
            }
            cameraStatusMap := cameraStatusMap[Decimal.Text(id) := PRESENT];
            AddNames(id, PRESENT, false);
          }
        }
      }
      assert ids[..|ids|] == ids;
      failed := false;
    }

    /** getLegacyCameraIdMap: the identity, then the readable entries of the remapping over it. */
    method LegacyCameraIdMap(count: nat, remap: seq<Option<int>>) returns (ids: array<int>)
      ensures fresh(ids) && ids[..] == LegacyIds(count, remap)
    {
      ids := new int[count](i => i);
      for n := 0 to count
        invariant forall i :: 0 <= i < n ==> ids[i] == LegacyIds(count, remap)[i]
        invariant forall i :: n <= i < count ==> ids[i] == i
      {
        if n < |remap| && remap[n].Some? {
          ids[n] := remap[n].value;
        }
      }
    }

    /** initialize of a new provider, once the module has told how many cameras there are. */
    method Start(count: nat, remap: seq<Option<int>>, probe: int -> Probe, skipFailed: bool) returns (failed: bool)
      requires View() == Empty(blacklistedCameraIds)
      modifies this
      ensures (!failed, View()) == Initialize(old(blacklistedCameraIds), count, remap, probe, skipFailed)
    {
      var ids := LegacyCameraIdMap(count, remap);
      failed := InitializeFrom(ids[..], probe, skipFailed);
    }

    lemma {:induction false} GivesUp(p: Directory, ids: seq<int>, n: nat, probe: int -> Probe, skipFailed: bool)
      requires n <= |ids| && !AddLegacy(p, ids[..n], probe, skipFailed).0
      ensures AddLegacy(p, ids, probe, skipFailed) == AddLegacy(p, ids[..n], probe, skipFailed)
      decreases |ids|
    {
      if n == |ids| {
        assert ids[..n] == ids;
      } else {
        assert ids[..|ids| - 1][..n] == ids[..n];
        GivesUp(p, ids[..|ids| - 1], n, probe, skipFailed);
      }
    }
  }
}
