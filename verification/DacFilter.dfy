/**
 The DAC's custom filter: sixteen integers kept in properties, and their rendering
 written to the driver after every change.
 */
module DacFilter {
  import opened CaptureTypes
  import Decimal

  const COEFFS: nat := 14

  type Int32 = x: int | -0x8000_0000 <= x < 0x8000_0000

  datatype Key = Shape | Symmetry | Coeff(index: nat)

  /** The properties and the text last written to the driver. */
  datatype Dac = Dac(supported: bool, props: map<Key, string>, driver: string)

  /** A setter's outcome; an index outside the table throws. */
  datatype Outcome = Done | Refused | Thrown

  // ---- the stored integers and their text ----

  /** The integer a property holds; 0 when it is not set or does not fit 32 bits. */
  function GetInt(props: map<Key, string>, k: Key): Int32 {
    if k in props && -0x8000_0000 <= Decimal.Value(props[k]) < 0x8000_0000 then Decimal.Value(props[k]) else 0
  }

  /** Shape, symmetry and the coefficients, in the order they are written. */
  function Stored(props: map<Key, string>): seq<int> {
    [GetInt(props, Shape), GetInt(props, Symmetry)] + seq(COEFFS, i requires 0 <= i < COEFFS => GetInt(props, Coeff(i)))
  }

  /** The integers separated by commas. */
  function Render(values: seq<int>): string {
    if values == [] then ""
    else if |values| == 1 then Decimal.Text(values[0])
    else Render(values[..|values| - 1]) + "," + Decimal.Text(values[|values| - 1])
  }

  // ---- reading the text back ----

  predicate CommaFree(s: string) {
    forall i :: 0 <= i < |s| ==> s[i] != ','
  }

  /** Where the last comma is, or -1. */
  function LastComma(s: string): (k: int)
    ensures -1 <= k < |s| && (k >= 0 ==> s[k] == ',')
    ensures forall i :: k < i < |s| ==> s[i] != ','
  {
    if s == "" then -1
    else if s[|s| - 1] == ',' then |s| - 1
    else LastComma(s[..|s| - 1])
  }

  /** The integers of a comma-separated text. */
  function Fields(s: string): seq<int>
    decreases |s|
  {
    var k := LastComma(s);
    if k < 0 then [Decimal.Value(s)] else Fields(s[..k]) + [Decimal.Value(s[k + 1..])]
  }

  lemma {:induction false} LastCommaIs(a: string, b: string)
    requires CommaFree(b)
    ensures LastComma(a + "," + b) == |a|
    decreases |b|
  {
    var s := a + "," + b;
    if b != "" {
      LastCommaIs(a, b[..|b| - 1]);
      assert s[..|s| - 1] == a + "," + b[..|b| - 1];
      assert s[|s| - 1] == b[|b| - 1];
    }
  }

  lemma FieldsAppend(a: string, b: string)
    requires CommaFree(b)
    ensures Fields(a + "," + b) == Fields(a) + [Decimal.Value(b)]
  {
    var s := a + "," + b;
    LastCommaIs(a, b);
    assert s[..|a|] == a && s[|a| + 1..] == b;
  }

  lemma TextCommaFree(n: int)
    ensures CommaFree(Decimal.Text(n))
  {
    Decimal.TextShape(n);
  }

  lemma FieldsOne(s: string)
    requires CommaFree(s)
    ensures Fields(s) == [Decimal.Value(s)]
  {
  }

  lemma FieldsOfOne(n: int)
    ensures Fields(Decimal.Text(n)) == [n]
  {
    TextCommaFree(n);
    Decimal.RoundTrip(n);
    FieldsOne(Decimal.Text(n));
  }

  lemma FieldsOfMore(front: string, n: int)
    ensures Fields(front + "," + Decimal.Text(n)) == Fields(front) + [n]
  {
    TextCommaFree(n);
    Decimal.RoundTrip(n);
    FieldsAppend(front, Decimal.Text(n));
  }

  lemma RenderStep(init: seq<int>, last: int)
    requires init != [] && Fields(Render(init)) == init
    ensures Fields(Render(init + [last])) == init + [last]
  {
    assert (init + [last])[..|init|] == init;
    assert Render(init + [last]) == Render(init) + "," + Decimal.Text(last);
    FieldsOfMore(Render(init), last);
  }

  /** A rendering reads back as the integers it was made of. */
  lemma {:induction false} RenderRoundTrip(values: seq<int>)
    requires values != []
    ensures Fields(Render(values)) == values
    decreases |values|
  {
    if |values| == 1 {
      FieldsOfOne(values[0]);
    } else {
      var init, last := values[..|values| - 1], values[|values| - 1];
      assert init + [last] == values;
      RenderRoundTrip(init);
      RenderStep(init, last);
    }
  }

  /** Rendering tells apart any two lists of integers: the driver's text determines the filter. */
  lemma RenderInjective(a: seq<int>, b: seq<int>)
    requires a != [] && b != [] && Render(a) == Render(b)
    ensures a == b
  {
    RenderRoundTrip(a);
    RenderRoundTrip(b);
  }

  // ---- the setters ----

  /** Adding one to a 32-bit integer, which wraps around at the greatest. */
  function Next(x: Int32): Int32 {
    if x == 0x7FFF_FFFF then -0x8000_0000 else x + 1
  }

  /** Filter 5 counting from 0 is number 6 in the driver, and so on. */
  function DriverShape(shape: Int32): Int32 {
    if shape <= 4 then shape else Next(shape)
  }

  function Store(d: Dac, k: Key, value: Int32): Dac {
    var props := d.props[k := Decimal.Text(value)];
    d.(props := props, driver := Render(Stored(props)))
  }

  function SetShape(d: Dac, shape: Int32, setOk: bool): (Outcome, Dac) {
    if !d.supported || !setOk then (Refused, d) else (Done, Store(d, Shape, DriverShape(shape)))
  }

  function SetSymmetry(d: Dac, symmetry: Int32, setOk: bool): (Outcome, Dac) {
    if !d.supported || !setOk then (Refused, d) else (Done, Store(d, Symmetry, symmetry))
  }

  function SetCoeff(d: Dac, index: Int32, value: Int32, setOk: bool): (Outcome, Dac) {
    if !d.supported then (Refused, d)
    else if index < 0 || index >= COEFFS then (Thrown, d)
    else if !setOk then (Refused, d)
    else (Done, Store(d, Coeff(index), value))
  }

  /** The first n coefficients set to zero. */
  function Zeroed(props: map<Key, string>, n: nat): map<Key, string> {
    if n == 0 then props else Zeroed(props, n - 1)[Coeff(n - 1) := "0"]
  }

  /** Reset the coefficients; property writes succeed for the first `okWrites` of them. */
  function ResetCoeffs(d: Dac, okWrites: nat): (Outcome, Dac) {
    if !d.supported then (Refused, d)
    else if okWrites < COEFFS then (Refused, d.(props := Zeroed(d.props, okWrites)))
    else
      var props := Zeroed(d.props, COEFFS);
      (Done, d.(props := props, driver := Render(Stored(props))))
  }

  datatype Op =
    | OpShape(shape: Int32, ok: bool)
    | OpSymmetry(symmetry: Int32, ok: bool)
    | OpCoeff(index: Int32, value: Int32, ok: bool)
    | OpReset(okWrites: nat)

  function Do(d: Dac, op: Op): (Outcome, Dac) {
    match op
    case OpShape(s, ok) => SetShape(d, s, ok)
    case OpSymmetry(s, ok) => SetSymmetry(d, s, ok)
    case OpCoeff(i, v, ok) => SetCoeff(d, i, v, ok)
    case OpReset(n) => ResetCoeffs(d, n)
  }

  function DoAll(d: Dac, ops: seq<Op>): Dac {
    if ops == [] then d else Do(DoAll(d, ops[..|ops| - 1]), ops[|ops| - 1]).1
  }

  /** How many operations of a run there are up to and including the last successful one. */
  function LastDone(d: Dac, ops: seq<Op>): nat
    ensures LastDone(d, ops) <= |ops|
  {
    if ops == [] then 0
    else if Do(DoAll(d, ops[..|ops| - 1]), ops[|ops| - 1]).0.Done? then |ops|
    else LastDone(d, ops[..|ops| - 1])
  }

  /** A successful operation leaves the driver with the rendering of what is stored; any other leaves it alone. */
  lemma OneOp(d: Dac, op: Op)
    ensures var (o, d') := Do(d, op);
            d'.driver == if o.Done? then Render(Stored(d'.props)) else d.driver
  {
  }

  /** The driver holds the rendering of what was stored at `at`, or, when nothing succeeded yet, its first text. */
  ghost predicate HoldsFrom(start: string, now: string, k: nat, at: Dac) {
    now == if k == 0 then start else Render(Stored(at.props))
  }

  lemma HoldsNext(start: string, d: Dac, op: Op, k: nat, at: Dac, n: nat, d': Dac, o: Outcome)
    requires HoldsFrom(start, d.driver, k, at) && Do(d, op) == (o, d') && n > 0
    ensures if o.Done? then HoldsFrom(start, d'.driver, n, d') else HoldsFrom(start, d'.driver, k, at)
  {
    OneOp(d, op);
  }

  lemma {:induction false} DriverHolds(d: Dac, ops: seq<Op>, k: nat, at: Dac)
    requires k == LastDone(d, ops) && at == DoAll(d, ops[..k])
    ensures HoldsFrom(d.driver, DoAll(d, ops).driver, k, at)
    decreases |ops|
  {
    if ops != [] {
      var init, op := ops[..|ops| - 1], ops[|ops| - 1];
      var k0 := LastDone(d, init);
      var at0 := DoAll(d, init[..k0]);
      DriverHolds(d, init, k0, at0);
      HoldsNext(d.driver, DoAll(d, init), op, k0, at0, |ops|, DoAll(d, ops), Do(DoAll(d, init), op).0);
      assert ops[..|ops|] == ops && init[..k0] == ops[..k0];
    }
  }

  /**
   Over any run of setters and resets, what the driver holds is the rendering of
   the integers stored at the last successful one -- so the driver's text reads back
   as exactly those -- or, before any, what it held at the start.
   */
  lemma DriverHoldsLastSuccess(d: Dac, ops: seq<Op>)
    ensures var k := LastDone(d, ops);
            var now := DoAll(d, ops);
            if k == 0 then now.driver == d.driver
            else now.driver == Render(Stored(DoAll(d, ops[..k]).props))
                 && Fields(now.driver) == Stored(DoAll(d, ops[..k]).props)
  {
    var k := LastDone(d, ops);
    DriverHolds(d, ops, k, DoAll(d, ops[..k]));
    RenderRoundTrip(Stored(DoAll(d, ops[..k]).props));
  }

  lemma GetStored(d: Dac, k: Key, value: Int32, other: Key)
    ensures GetInt(Store(d, k, value).props, other) == if other == k then value else GetInt(d.props, other)
  {
    Decimal.RoundTrip(value);
  }

  /** The key of each of the sixteen integers. */
  function KeyAt(k: nat): Key {
    if k == 0 then Shape else if k == 1 then Symmetry else Coeff(k - 2)
  }

  lemma StoredAt(props: map<Key, string>, k: nat)
    requires k < 16
    ensures |Stored(props)| == 16 && Stored(props)[k] == GetInt(props, KeyAt(k))
  {
  }

  /** Storing one value changes exactly that one of the sixteen integers. */
  lemma StoreChangesOne(d: Dac, k: Key, value: Int32)
    requires k.Coeff? ==> k.index < COEFFS
    ensures var at := match k case Shape => 0 case Symmetry => 1 case Coeff(i) => i + 2;
            Stored(Store(d, k, value).props) == Stored(d.props)[at := value]
  {
    var at := match k case Shape => 0 case Symmetry => 1 case Coeff(i) => i + 2;
    var before, after := Stored(d.props), Stored(Store(d, k, value).props);
    forall i: nat | i < 16
      ensures |before| == 16 && |after| == 16 && after[i] == if i == at then value else before[i]
    {
      StoredAt(d.props, i);
      StoredAt(Store(d, k, value).props, i);
      GetStored(d, k, value, KeyAt(i));
    }
    OneUpdated(before, after, at, value);
  }

  lemma OneUpdated(before: seq<int>, after: seq<int>, at: nat, value: int)
    requires |before| == 16 && |after| == 16 && at < 16
    requires forall i: nat :: i < 16 ==> after[i] == if i == at then value else before[i]
    ensures after == before[at := value]
  {
  }

  lemma {:induction false} ZeroedIs(props: map<Key, string>, n: nat, k: Key)
    ensures GetInt(Zeroed(props, n), k) == if k.Coeff? && k.index < n then 0 else GetInt(props, k)
    decreases n
  {
    if n > 0 {
      ZeroedIs(props, n - 1, k);
      Decimal.RoundTrip(0);
      assert Decimal.Text(0) == "0";
    }
  }

  /** A successful reset zeroes the coefficients and leaves shape and symmetry. */
  lemma ResetZeroesCoeffs(d: Dac)
    requires d.supported
    ensures var (o, d') := ResetCoeffs(d, COEFFS);
            o.Done? && Stored(d'.props) == Stored(d.props)[..2] + seq(COEFFS, i requires 0 <= i < COEFFS => 0)
  {
    forall k: Key
      ensures GetInt(Zeroed(d.props, COEFFS), k) == if k.Coeff? && k.index < COEFFS then 0 else GetInt(d.props, k)
    {
      ZeroedIs(d.props, COEFFS, k);
    }
  }

  /** Setting the shape that is read back leaves it alone exactly when it is at most 4. */
  lemma ShapeStableIff(d: Dac)
    requires d.supported
    ensures var shape := GetInt(d.props, Shape);
            GetInt(SetShape(d, shape, true).1.props, Shape) == shape <==> shape <= 4
  {
    StoreChangesOne(d, Shape, DriverShape(GetInt(d.props, Shape)));
    Decimal.RoundTrip(DriverShape(GetInt(d.props, Shape)));
  }

  // ---- what each setter does to the sixteen integers ----

  /**
   Setting the shape, refused on other devices or when the property cannot be written:
   shapes up to 4 are stored as they are and greater ones as the next, the greatest as the least.
   */
  lemma SetShapeStores(d: Dac, shape: Int32, setOk: bool)
    ensures var (o, d') := SetShape(d, shape, setOk);
            && (o.Done? <==> d.supported && setOk) && !o.Thrown?
            && (o.Done? ==> d'.driver == Render(Stored(d'.props))
                            && Stored(d'.props) ==
                               Stored(d.props)[0 := if shape <= 4 then shape
                                                    else if shape < 0x7FFF_FFFF then shape + 1 else -0x8000_0000])
            && (!o.Done? ==> d' == d)
  {
    StoreChangesOne(d, Shape, DriverShape(shape));
  }

  lemma SetSymmetryStores(d: Dac, symmetry: Int32, setOk: bool)
    ensures var (o, d') := SetSymmetry(d, symmetry, setOk);
            && (o.Done? <==> d.supported && setOk) && !o.Thrown?
            && (o.Done? ==> d'.driver == Render(Stored(d'.props)) && Stored(d'.props) == Stored(d.props)[1 := symmetry])
            && (!o.Done? ==> d' == d)
  {
    StoreChangesOne(d, Symmetry, symmetry);
  }

  /** Setting a coefficient changes that one alone; an index outside the fourteen throws, on a device that has them. */
  lemma SetCoeffStores(d: Dac, index: Int32, value: Int32, setOk: bool)
    ensures var (o, d') := SetCoeff(d, index, value, setOk);
            && (o.Thrown? <==> d.supported && !(0 <= index < 14))
            && (o.Done? <==> d.supported && 0 <= index < 14 && setOk)
            && (o.Done? ==> d'.driver == Render(Stored(d'.props))
                            && Stored(d'.props) == Stored(d.props)[index + 2 := value])
            && (!o.Done? ==> d' == d)
  {
    if 0 <= index < COEFFS {
      StoreChangesOne(d, Coeff(index), value);
    }
  }

  /**
   Resetting zeroes the coefficients up to the first property that cannot be written; only
   when all could be is the driver told, and the reset done.
   */
  lemma ResetStores(d: Dac, okWrites: nat)
    ensures var (o, d') := ResetCoeffs(d, okWrites);
            && (o.Done? <==> d.supported && okWrites >= 14) && !o.Thrown?
            && d'.driver == (if o.Done? then Render(Stored(d'.props)) else d.driver)
            && d'.supported == d.supported
            && forall k: nat :: k < 16 ==>
                 Stored(d'.props)[k] == if d.supported && 2 <= k < okWrites + 2 then 0 else Stored(d.props)[k]
  {
    var n := if okWrites < COEFFS then okWrites else COEFFS;
    forall k: nat | k < 16
      ensures Stored(Zeroed(d.props, n))[k] == if 2 <= k < n + 2 then 0 else Stored(d.props)[k]
    {
      StoredAt(d.props, k);
      StoredAt(Zeroed(d.props, n), k);
      ZeroedIs(d.props, n, KeyAt(k));
    }
  }

  // ---- the sixteen integers over runs ----

  /** What an operation stores as integer k, if it stores any there. */
  function Written(supported: bool, op: Op, k: nat): Option<int> {
    if !supported then None
    else
      match op
      case OpShape(s, ok) =>
        if ok && k == 0 then
          Some(if s <= 4 then s else if s < 0x7FFF_FFFF then s + 1 else -0x8000_0000)
        else None
      case OpSymmetry(s, ok) => if ok && k == 1 then Some(s) else None
      case OpCoeff(i, v, ok) => if ok && 0 <= i < 14 && k == i + 2 then Some(v) else None
      case OpReset(n) => if 2 <= k < n + 2 then Some(0) else None
  }

  /** Integer k as last written, by looking back from the last operation. */
  function LastWritten(d: Dac, ops: seq<Op>, k: nat): int
    requires k < 16
  {
    if ops == [] then Stored(d.props)[k]
    else
      match Written(d.supported, ops[|ops| - 1], k)
      case Some(v) => v
      case None => LastWritten(d, ops[..|ops| - 1], k)
  }

  lemma OneWrites(d: Dac, op: Op, k: nat)
    requires k < 16
    ensures Do(d, op).1.supported == d.supported
    ensures Stored(Do(d, op).1.props)[k] ==
            match Written(d.supported, op, k) case Some(v) => v case None => Stored(d.props)[k]
  {
    match op
    case OpShape(s, ok) => SetShapeStores(d, s, ok);
    case OpSymmetry(s, ok) => SetSymmetryStores(d, s, ok);
    case OpCoeff(i, v, ok) => SetCoeffStores(d, i, v, ok);
    case OpReset(n) => ResetStores(d, n);
  }

  /** Over any run each of the sixteen integers is the one last written to it, or as at first; unset, it reads as 0. */
  lemma {:induction false} StoredIsLastWritten(d: Dac, ops: seq<Op>, k: nat)
    requires k < 16
    ensures DoAll(d, ops).supported == d.supported
    ensures Stored(DoAll(d, ops).props)[k] == LastWritten(d, ops, k)
    ensures KeyAt(k) !in d.props ==> Stored(d.props)[k] == 0
    decreases |ops|
  {
    StoredAt(d.props, k);
    if ops != [] {
      var init := ops[..|ops| - 1];
      StoredIsLastWritten(d, init, k);
      OneWrites(DoAll(d, init), ops[|ops| - 1], k);
    }
  }

  // ---- the control as an object ----

  class DacControl {
    const supported: bool           // the device has the custom filter feature
    var properties: map<Key, string>
    var driver: string              // what the driver's node was last written

    constructor (supported: bool, properties: map<Key, string>, driver: string)
      ensures View() == Dac(supported, properties, driver)
    {
      this.supported, this.properties, this.driver := supported, properties, driver;
    }

    function View(): Dac
      reads this
    {
      Dac(supported, properties, driver)
    }

    /** property_set: false when the write fails, which then changes nothing. */
    method PropertySet(k: Key, text: string, ok: bool) returns (done: bool)
      modifies this`properties
      ensures done == ok && properties == if ok then old(properties)[k := text] else old(properties)
    {
      if ok {
        properties := properties[k := text];
      }
      done := ok;
    }

    /** parseUpdatedCustomFilterData: the text for the driver. */
    method ParseUpdatedCustomFilterData() returns (data: string)
      ensures data == Render(Stored(properties))
    {
      ghost var values := Stored(properties);
      data := Decimal.Text(GetInt(properties, Shape)) + ",";
      data := data + Decimal.Text(GetInt(properties, Symmetry)) + ",";
      RenderTwo(values);
      for i := 0 to COEFFS
        invariant data == if i < COEFFS then Render(values[..i + 2]) + "," else Render(values[..i + 2])
      {
        var text := Decimal.Text(GetInt(properties, Coeff(i)));
        assert text == Decimal.Text(values[i + 2]);
        RenderNext(values, i + 2);
        data := data + text;
        if i < COEFFS - 1 {
          data := data + ",";
        }
      }
      assert values[..COEFFS + 2] == values;
    }

    lemma RenderTwo(values: seq<int>)
      requires |values| >= 2
      ensures Render(values[..2]) == Decimal.Text(values[0]) + "," + Decimal.Text(values[1])
    {
      assert values[..2][..1] == values[..1];
      assert Render(values[..1]) == Decimal.Text(values[0]);
    }

    lemma RenderNext(values: seq<int>, n: nat)
      requires 1 <= n < |values|
      ensures Render(values[..n + 1]) == Render(values[..n]) + "," + Decimal.Text(values[n])
    {
      assert values[..n + 1][..n] == values[..n];
    }

    method WriteDriver()
      modifies this`driver
      ensures driver == Render(Stored(properties))
    {
      var text := ParseUpdatedCustomFilterData();
      driver := text;
    }

    method SetCustomFilterShape(shape: Int32, ok: bool) returns (o: Outcome)
      modifies this`properties, this`driver
      ensures (o, View()) == SetShape(old(View()), shape, ok)
    {
      if !supported {
        return Refused;
      }
      var done: bool;
      if shape <= 4 {
        done := PropertySet(Shape, Decimal.Text(shape), ok);
      } else {
        done := PropertySet(Shape, Decimal.Text(Next(shape)), ok);
      }
      if !done {
        return Refused;
      }
      WriteDriver();
      o := Done;
    }

    method SetCustomFilterSymmetry(symmetry: Int32, ok: bool) returns (o: Outcome)
      modifies this`properties, this`driver
      ensures (o, View()) == SetSymmetry(old(View()), symmetry, ok)
    {
      if !supported {
        return Refused;
      }
      var done := PropertySet(Symmetry, Decimal.Text(symmetry), ok);
      if !done {
        return Refused;
      }
      WriteDriver();
      o := Done;
    }

    method SetCustomFilterCoeff(index: Int32, value: Int32, ok: bool) returns (o: Outcome)
      modifies this`properties, this`driver
      ensures (o, View()) == SetCoeff(old(View()), index, value, ok)
    {
      if !supported {
        return Refused;
      }
      if index < 0 || index >= COEFFS {
        return Thrown;
      }
      var done := PropertySet(Coeff(index), Decimal.Text(value), ok);
      if !done {
        return Refused;
      }
      WriteDriver();
      o := Done;
    }

    method ResetCustomFilterCoeffs(okWrites: nat) returns (o: Outcome)
      modifies this`properties, this`driver
      ensures (o, View()) == ResetCoeffs(old(View()), okWrites)
    {
      if !supported {
        return Refused;
      }
      for i := 0 to COEFFS
        invariant i <= okWrites && properties == Zeroed(old(properties), i) && driver == old(driver)
      {
        var done := PropertySet(Coeff(i), "0", i < okWrites);
        if !done {
          return Refused;
        }
      }
      WriteDriver();
      o := Done;
    }
  }
}
