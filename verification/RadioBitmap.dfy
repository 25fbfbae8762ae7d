/**
 The radio's network types: a bitmap of access families for the framework, one
 legacy type for an old modem, and the way down and back up.
 */
module RadioBitmap {

  type Bitmap = bv32

  // Access families of android.hardware.radio@1.0, by the bit of their radio technology.
  const GPRS: Bitmap := 0x2
  const EDGE: Bitmap := 0x4
  const UMTS: Bitmap := 0x8
  const IS95A: Bitmap := 0x10
  const IS95B: Bitmap := 0x20
  const ONE_X_RTT: Bitmap := 0x40
  const EVDO_0: Bitmap := 0x80
  const EVDO_A: Bitmap := 0x100
  const HSDPA: Bitmap := 0x200
  const HSUPA: Bitmap := 0x400
  const HSPA: Bitmap := 0x800
  const EVDO_B: Bitmap := 0x1000
  const EHRPD: Bitmap := 0x2000
  const LTE: Bitmap := 0x4000
  const HSPAP: Bitmap := 0x8000
  const GSM: Bitmap := 0x10000
  const TD_SCDMA: Bitmap := 0x20000
  const LTE_CA: Bitmap := 0x80000

  const GSMBITS: Bitmap := 0x10006
  const CDMABITS: Bitmap := 0x70
  const EVDOBITS: Bitmap := 0x3180
  const WCDMABITS: Bitmap := 0x8e08
  const LTEBITS: Bitmap := 0x84000
  const TDSCDMABIT: Bitmap := 0x20000

  /** The groups are the unions of their families. */
  lemma GroupsAreFamilies()
    ensures GSMBITS == GSM | GPRS | EDGE
    ensures CDMABITS == IS95A | IS95B | ONE_X_RTT
    ensures EVDOBITS == EVDO_0 | EVDO_A | EVDO_B | EHRPD
    ensures WCDMABITS == HSUPA | HSDPA | HSPA | HSPAP | UMTS
    ensures LTEBITS == LTE | LTE_CA
    ensures TDSCDMABIT == TD_SCDMA
  {
  }

  datatype NetworkType =
    | GsmWcdma | GsmOnly | Wcdma | GsmWcdmaAuto | CdmaEvdoAuto | CdmaOnly | EvdoOnly | GsmWcdmaCdmaEvdoAuto
    | LteCdmaEvdo | LteGsmWcdma | LteCdmaEvdoGsmWcdma | LteOnly | LteWcdma
    | TdScdmaOnly | TdScdmaWcdma | TdScdmaLte | TdScdmaGsm | TdScdmaGsmLte | TdScdmaGsmWcdma | TdScdmaWcdmaLte
    | TdScdmaGsmWcdmaLte | TdScdmaGsmWcdmaCdmaEvdoAuto | TdScdmaLteCdmaEvdoGsmWcdma

  // ---- down ----

  /** Complete a group once any of its families is set. */
  function Complete(b: Bitmap, bits: Bitmap): Bitmap {
    if b & bits != 0 then b | bits else b
  }

  /** Complete groups one after another. */
  function CompleteAll(b: Bitmap, groups: seq<Bitmap>): Bitmap {
    if groups == [] then b else Complete(CompleteAll(b, groups[..|groups| - 1]), groups[|groups| - 1])
  }

  const GROUPS: seq<Bitmap> := [GSMBITS, CDMABITS, EVDOBITS, WCDMABITS, LTEBITS]

  function Closure(b: Bitmap): Bitmap {
    Complete(Complete(Complete(Complete(Complete(b, GSMBITS), CDMABITS), EVDOBITS), WCDMABITS), LTEBITS)
  }

  /** The type chosen for a completed bitmap. */
  function Classify(b: Bitmap): NetworkType {
    if b == GSMBITS | WCDMABITS then GsmWcdmaAuto
    else if b == GSMBITS then GsmOnly
    else if b == WCDMABITS then Wcdma
    else if b == CDMABITS | EVDOBITS then CdmaEvdoAuto
    else if b == CDMABITS then CdmaOnly
    else if b == EVDOBITS then EvdoOnly
    else if b == GSMBITS | WCDMABITS | CDMABITS | EVDOBITS then GsmWcdmaCdmaEvdoAuto
    else if b == LTEBITS | CDMABITS | EVDOBITS then LteCdmaEvdo
    else if b == LTEBITS | GSMBITS | WCDMABITS then LteGsmWcdma
    else if b == LTEBITS | CDMABITS | EVDOBITS | GSMBITS | WCDMABITS then LteCdmaEvdoGsmWcdma
    else if b == LTEBITS then LteOnly
    else if b == LTEBITS | WCDMABITS then LteWcdma
    else if b == TDSCDMABIT then TdScdmaOnly
    else if b == TDSCDMABIT | WCDMABITS then TdScdmaWcdma
    else if b == TDSCDMABIT | LTEBITS then TdScdmaLte
    else if b == TDSCDMABIT | GSMBITS then TdScdmaGsm
    else if b == TDSCDMABIT | GSMBITS | LTEBITS then TdScdmaGsmLte
    else if b == TDSCDMABIT | GSMBITS | WCDMABITS then TdScdmaGsmWcdma
    else if b == TDSCDMABIT | WCDMABITS | LTEBITS then TdScdmaWcdmaLte
    else if b == TDSCDMABIT | GSMBITS | WCDMABITS | LTEBITS then TdScdmaGsmWcdmaLte
    else if b == TDSCDMABIT | GSMBITS | WCDMABITS | CDMABITS | EVDOBITS then TdScdmaGsmWcdmaCdmaEvdoAuto
    else if b == TDSCDMABIT | LTEBITS | CDMABITS | EVDOBITS | GSMBITS | WCDMABITS then TdScdmaLteCdmaEvdoGsmWcdma
    else LteCdmaEvdoGsmWcdma
  }

  // ---- up ----

  /** getPreferredNetworkTypeResponse: the bitmap reported for a legacy type. */
  function Upgrade(t: NetworkType): Bitmap {
    match t
    case GsmWcdma => GSMBITS | WCDMABITS
    case GsmWcdmaAuto => GSMBITS | WCDMABITS
    case GsmOnly => GSMBITS
    case Wcdma => WCDMABITS
    case CdmaEvdoAuto => CDMABITS | EVDOBITS
    case CdmaOnly => CDMABITS
    case EvdoOnly => EVDOBITS
    case GsmWcdmaCdmaEvdoAuto => GSMBITS | WCDMABITS | CDMABITS | EVDOBITS
    case LteCdmaEvdo => LTEBITS | CDMABITS | EVDOBITS
    case LteGsmWcdma => LTEBITS | GSMBITS | WCDMABITS
    case LteCdmaEvdoGsmWcdma => LTEBITS | CDMABITS | EVDOBITS | GSMBITS | WCDMABITS
    case LteOnly => LTEBITS
    case LteWcdma => LTEBITS | WCDMABITS
    case TdScdmaOnly => TDSCDMABIT
    case TdScdmaWcdma => TDSCDMABIT | WCDMABITS
    case TdScdmaLte => TDSCDMABIT | LTEBITS
    case TdScdmaGsm => TDSCDMABIT | GSMBITS
    case TdScdmaGsmLte => TDSCDMABIT | GSMBITS | LTEBITS
    case TdScdmaGsmWcdma => TDSCDMABIT | GSMBITS | WCDMABITS
    case TdScdmaWcdmaLte => TDSCDMABIT | WCDMABITS | LTEBITS
    case TdScdmaGsmWcdmaLte => TDSCDMABIT | GSMBITS | WCDMABITS | LTEBITS
    case TdScdmaGsmWcdmaCdmaEvdoAuto => TDSCDMABIT | GSMBITS | WCDMABITS | CDMABITS | EVDOBITS
    case TdScdmaLteCdmaEvdoGsmWcdma => TDSCDMABIT | LTEBITS | CDMABITS | EVDOBITS | GSMBITS | WCDMABITS
  }

  const FALLBACK: Bitmap := LTEBITS | CDMABITS | EVDOBITS | GSMBITS | WCDMABITS

  /** A bitmap some legacy type stands for. */
  ghost predicate Listed(b: Bitmap) {
    exists t: NetworkType :: Upgrade(t) == b
  }

  // ---- the closure ----

  predicate IsGroup(g: Bitmap) {
    g == GSMBITS || g == CDMABITS || g == EVDOBITS || g == WCDMABITS || g == LTEBITS
  }

  /** `c` has at least the families of `b`. */
  predicate Covers(c: Bitmap, b: Bitmap) {
    c & b == b
  }

  /** The group is in `b` wholly or not at all. */
  predicate Whole(b: Bitmap, g: Bitmap) {
    b & g == 0 || b & g == g
  }

  predicate Closed(b: Bitmap) {
    Whole(b, GSMBITS) && Whole(b, CDMABITS) && Whole(b, EVDOBITS) && Whole(b, WCDMABITS) && Whole(b, LTEBITS)
  }

  lemma CoversTransitive(a: Bitmap, b: Bitmap, c: Bitmap)
    requires Covers(a, b) && Covers(b, c)
    ensures Covers(a, c)
  {
  }

  lemma OrAbsorbs(b: Bitmap, g: Bitmap)
    ensures (b | g) & b == b
    ensures (b | g) & g == g
  {
  }

  lemma OrCovers(b: Bitmap, g: Bitmap)
    ensures Covers(b | g, b) && Whole(b | g, g)
  {
    OrAbsorbs(b, g);
  }

  lemma AndOr(c: Bitmap, b: Bitmap, g: Bitmap)
    requires c & b == b && c & g == g
    ensures c & (b | g) == b | g
  {
  }

  lemma AndMeets(c: Bitmap, b: Bitmap, g: Bitmap)
    requires c & b == b && c & g == 0
    ensures b & g == 0
  {
  }

  lemma CompleteCovers(b: Bitmap, g: Bitmap)
    ensures Covers(Complete(b, g), b) && Whole(Complete(b, g), g)
  {
    if b & g == 0 {
      CoversItself(b);
    } else {
      OrCovers(b, g);
      assert Complete(b, g) == b | g;
    }
  }

  lemma CompleteNothing(b: Bitmap, g: Bitmap)
    requires Whole(b, g)
    ensures Complete(b, g) == b
  {
  }

  /** Whatever is whole in g and covers b covers b with g completed. */
  lemma CompleteLeast(b: Bitmap, g: Bitmap, c: Bitmap)
    requires Covers(c, b) && Whole(c, g)
    ensures Covers(c, Complete(b, g))
  {
    if b & g != 0 {
      if c & g == 0 {
        AndMeets(c, b, g);
        assert false;
      }
      AndOr(c, b, g);
    }
  }

  lemma WholeStays(b: Bitmap, g: Bitmap, h: Bitmap)
    requires IsGroup(g) && IsGroup(h) && Whole(b, h)
    ensures Whole(Complete(b, g), h)
  {
    if g == h {
      CompleteNothing(b, g);
    } else {
      GroupsDisjoint(g, h);
      DisjointWhole(b, g, h);
    }
  }

  lemma GroupsDisjoint(g: Bitmap, h: Bitmap)
    requires IsGroup(g) && IsGroup(h) && g != h
    ensures g & h == 0
  {
  }

  lemma DisjointWhole(b: Bitmap, g: Bitmap, h: Bitmap)
    requires g & h == 0 && Whole(b, h)
    ensures Whole(Complete(b, g), h)
  {
    CompleteKeepsTest(b, g, h);
  }

  lemma OrThenAnd(b: Bitmap, p: Bitmap, q: Bitmap)
    requires p & q == 0
    ensures (b | p) & q == b & q
  {
  }

  /** Completing one group does not touch a disjoint one. */
  lemma CompleteKeepsTest(b: Bitmap, p: Bitmap, q: Bitmap)
    requires p & q == 0
    ensures Complete(b, p) & q == b & q
  {
    OrThenAnd(b, p, q);
  }

  /** The bitmaps on the way to the closure. */
  function Stage(b: Bitmap, n: nat): Bitmap
    requires n <= 5
  {
    if n == 0 then b else Complete(Stage(b, n - 1), GROUPS[n - 1])
  }

  lemma StagesEnd(b: Bitmap)
    ensures Stage(b, 5) == Closure(b)
  {
    assert Stage(b, 1) == Complete(b, GSMBITS);
    assert Stage(b, 2) == Complete(Stage(b, 1), CDMABITS);
    assert Stage(b, 3) == Complete(Stage(b, 2), EVDOBITS);
    assert Stage(b, 4) == Complete(Stage(b, 3), WCDMABITS);
  }

  lemma {:induction false} StageCovers(b: Bitmap, n: nat)
    requires n <= 5
    ensures Covers(Stage(b, n), b)
    ensures forall k :: 0 <= k < n ==> Whole(Stage(b, n), GROUPS[k])
    decreases n
  {
    if n > 0 {
      var before, g := Stage(b, n - 1), GROUPS[n - 1];
      StageCovers(b, n - 1);
      CompleteCovers(before, g);
      CoversTransitive(Complete(before, g), before, b);
      forall k | 0 <= k < n - 1
        ensures Whole(Complete(before, g), GROUPS[k])
      {
        WholeStays(before, g, GROUPS[k]);
      }
    }
  }

  lemma {:induction false} StageLeast(b: Bitmap, n: nat, c: Bitmap)
    requires n <= 5 && Covers(c, b) && Closed(c)
    ensures Covers(c, Stage(b, n))
    decreases n
  {
    if n > 0 {
      StageLeast(b, n - 1, c);
      CompleteLeast(Stage(b, n - 1), GROUPS[n - 1], c);
    }
  }

  /**
   The group closure is what its name says: it covers the bitmap, every group is in
   it wholly or not at all, and every bitmap with both properties covers it. So it
   is the least such bitmap, whatever the order of the group tests.
   */
  lemma ClosureIsLeast(b: Bitmap, c: Bitmap)
    ensures Covers(Closure(b), b) && Closed(Closure(b))
    ensures Covers(c, b) && Closed(c) ==> Covers(c, Closure(b))
  {
    StagesEnd(b);
    StageCovers(b, 5);
    var e := Stage(b, 5);
    assert Whole(e, GROUPS[0]) && Whole(e, GROUPS[1]) && Whole(e, GROUPS[2]);
    assert Whole(e, GROUPS[3]) && Whole(e, GROUPS[4]);
    if Covers(c, b) && Closed(c) {
      StageLeast(b, 5, c);
    }
  }

  lemma CoversAntisymmetric(a: Bitmap, b: Bitmap)
    requires Covers(a, b) && Covers(b, a)
    ensures a == b
  {
  }

  /** Closing twice is closing once. */
  lemma ClosureIdempotent(b: Bitmap)
    ensures Closure(Closure(b)) == Closure(b)
  {
    var c := Closure(b);
    ClosureIsLeast(b, c);
    CoversItself(c);
    ClosureIsLeast(c, c);
    CoversAntisymmetric(c, Closure(c));
  }

  lemma CoversItself(c: Bitmap)
    ensures Covers(c, c)
  {
  }

  /** Every order of the tests, with or without repeats, ends at the closure. */
  lemma {:induction false} AnyOrder(b: Bitmap, groups: seq<Bitmap>)
    requires forall i :: 0 <= i < |groups| ==> IsGroup(groups[i])
    requires forall k :: 0 <= k < 5 ==> GROUPS[k] in groups
    ensures CompleteAll(b, groups) == Closure(b)
  {
    var c := CompleteAll(b, groups);
    AllCovers(b, groups);
    assert GROUPS[0] in groups && GROUPS[1] in groups && GROUPS[2] in groups;
    assert GROUPS[3] in groups && GROUPS[4] in groups;
    ClosureIsLeast(b, c);
    AllLeast(b, groups, Closure(b));
    CoversAntisymmetric(c, Closure(b));
  }

  lemma {:induction false} AllCovers(b: Bitmap, groups: seq<Bitmap>)
    requires forall i :: 0 <= i < |groups| ==> IsGroup(groups[i])
    ensures Covers(CompleteAll(b, groups), b)
    ensures forall g :: g in groups ==> Whole(CompleteAll(b, groups), g)
    decreases |groups|
  {
    if groups == [] {
      CoversItself(b);
    } else {
      var init, g := groups[..|groups| - 1], groups[|groups| - 1];
      var before := CompleteAll(b, init);
      AllCovers(b, init);
      CompleteCovers(before, g);
      CoversTransitive(Complete(before, g), before, b);
      forall h | h in groups
        ensures Whole(Complete(before, g), h)
      {
        if h != g {
          WholeStays(before, g, h);
        }
      }
    }
  }

  lemma {:induction false} AllLeast(b: Bitmap, groups: seq<Bitmap>, c: Bitmap)
    requires forall i :: 0 <= i < |groups| ==> IsGroup(groups[i])
    requires Covers(c, b) && Closed(c)
    ensures Covers(c, CompleteAll(b, groups))
    decreases |groups|
  {
    if groups != [] {
      AllLeast(b, groups[..|groups| - 1], c);
      CompleteLeast(CompleteAll(b, groups[..|groups| - 1]), groups[|groups| - 1], c);
    }
  }

  // ---- down and up ----

  /** Each legacy type comes back as itself, but for the one that comes back as its automatic variant. */
  lemma UpThenDown(t: NetworkType)
    ensures Classify(Upgrade(t)) == if t.GsmWcdma? then GsmWcdmaAuto else t
  {
    match t {
      case GsmWcdma =>
      case GsmOnly =>
      case Wcdma =>
      case GsmWcdmaAuto =>
      case CdmaEvdoAuto =>
      case CdmaOnly =>
      case EvdoOnly =>
      case GsmWcdmaCdmaEvdoAuto =>
      case LteCdmaEvdo =>
      case LteGsmWcdma =>
      case LteCdmaEvdoGsmWcdma =>
      case LteOnly =>
      case LteWcdma =>
      case TdScdmaOnly =>
      case TdScdmaWcdma =>
      case TdScdmaLte =>
      case TdScdmaGsm =>
      case TdScdmaGsmLte =>
      case TdScdmaGsmWcdma =>
      case TdScdmaWcdmaLte =>
      case TdScdmaGsmWcdmaLte =>
      case TdScdmaGsmWcdmaCdmaEvdoAuto =>
      case TdScdmaLteCdmaEvdoGsmWcdma =>
    }
  }

  /** A bitmap classified as anything but the default is the one that type stands for. */
  lemma ClassifiedIs(c: Bitmap)
    ensures Classify(c) != LteCdmaEvdoGsmWcdma ==> Upgrade(Classify(c)) == c
  {
  }

  /**
   Down and up again. For every bitmap the framework asks for, the type asked of
   the old modem reads back as the bitmap's group closure whenever some legacy type
   stands for that closure, and as LTE with all of CDMA, EVDO, GSM and WCDMA otherwise.
   */
  lemma DownThenUp(b: Bitmap)
    ensures Upgrade(Classify(Closure(b))) == if Listed(Closure(b)) then Closure(b) else FALLBACK
  {
    var c := Closure(b);
    if Listed(c) {
      var t: NetworkType :| Upgrade(t) == c;
      UpThenDown(t);
    } else {
      ClassifiedIs(c);
    }
  }

  lemma NeverPlain(b: Bitmap)
    ensures !Classify(b).GsmWcdma?
  {
  }

  // ---- on one variable ----

  /** The completions, one after another on one variable. */
  method CompleteGroups(networkTypeBitmap: Bitmap) returns (bitmap: Bitmap)
    ensures bitmap == Closure(networkTypeBitmap)
  {
    bitmap := networkTypeBitmap;
    bitmap := CompleteGroup(bitmap, GSMBITS);
    bitmap := CompleteGroup(bitmap, CDMABITS);
    bitmap := CompleteGroup(bitmap, EVDOBITS);
    bitmap := CompleteGroup(bitmap, WCDMABITS);
    bitmap := CompleteGroup(bitmap, LTEBITS);
  }

  method CompleteGroup(before: Bitmap, bits: Bitmap) returns (bitmap: Bitmap)
    ensures bitmap == Complete(before, bits)
  {
    bitmap := before;
    if bitmap & bits != 0 {
      bitmap := bitmap | bits;
    }
  }

  /** The switch on the completed bitmap. */
  method LegacyType(bitmap: Bitmap) returns (nwType: NetworkType)
    ensures nwType == Classify(bitmap)
  {
    if bitmap == GSMBITS | WCDMABITS {
      nwType := GsmWcdmaAuto;
    } else if bitmap == GSMBITS {
      nwType := GsmOnly;
    } else if bitmap == WCDMABITS {
      nwType := Wcdma;
    } else if bitmap == CDMABITS | EVDOBITS {
      nwType := CdmaEvdoAuto;
    } else if bitmap == CDMABITS {
      nwType := CdmaOnly;
    } else if bitmap == EVDOBITS {
      nwType := EvdoOnly;
    } else if bitmap == GSMBITS | WCDMABITS | CDMABITS | EVDOBITS {
      nwType := GsmWcdmaCdmaEvdoAuto;
    } else if bitmap == LTEBITS | CDMABITS | EVDOBITS {
      nwType := LteCdmaEvdo;
    } else if bitmap == LTEBITS | GSMBITS | WCDMABITS {
      nwType := LteGsmWcdma;
    } else if bitmap == LTEBITS | CDMABITS | EVDOBITS | GSMBITS | WCDMABITS {
      nwType := LteCdmaEvdoGsmWcdma;
    } else if bitmap == LTEBITS {
      nwType := LteOnly;
    } else if bitmap == LTEBITS | WCDMABITS {
      nwType := LteWcdma;
    } else if bitmap == TDSCDMABIT {
      nwType := TdScdmaOnly;
    } else if bitmap == TDSCDMABIT | WCDMABITS {
      nwType := TdScdmaWcdma;
    } else if bitmap == TDSCDMABIT | LTEBITS {
      nwType := TdScdmaLte;
    } else if bitmap == TDSCDMABIT | GSMBITS {
      nwType := TdScdmaGsm;
    } else if bitmap == TDSCDMABIT | GSMBITS | LTEBITS {
      nwType := TdScdmaGsmLte;
    } else if bitmap == TDSCDMABIT | GSMBITS | WCDMABITS {
      nwType := TdScdmaGsmWcdma;
    } else if bitmap == TDSCDMABIT | WCDMABITS | LTEBITS {
      nwType := TdScdmaWcdmaLte;
    } else if bitmap == TDSCDMABIT | GSMBITS | WCDMABITS | LTEBITS {
      nwType := TdScdmaGsmWcdmaLte;
    } else if bitmap == TDSCDMABIT | GSMBITS | WCDMABITS | CDMABITS | EVDOBITS {
      nwType := TdScdmaGsmWcdmaCdmaEvdoAuto;
    } else if bitmap == TDSCDMABIT | LTEBITS | CDMABITS | EVDOBITS | GSMBITS | WCDMABITS {
      nwType := TdScdmaLteCdmaEvdoGsmWcdma;
    } else {
      nwType := LteCdmaEvdoGsmWcdma;
    }
  }

  /**
   setPreferredNetworkTypeBitmap on an old modem: the legacy type asked of it. It is
   the one that reads back as the request's group closure if any does, and the one
   for everything but TD-SCDMA otherwise; the plain GSM_WCDMA is never asked for.
   */
  method Downgrade(networkTypeBitmap: Bitmap) returns (nwType: NetworkType)
    ensures Upgrade(nwType) == if Listed(Closure(networkTypeBitmap)) then Closure(networkTypeBitmap) else FALLBACK
    ensures !nwType.GsmWcdma?
  {
    var bitmap := CompleteGroups(networkTypeBitmap);
    nwType := LegacyType(bitmap);
    DownThenUp(networkTypeBitmap);
    NeverPlain(bitmap);
  }
}
