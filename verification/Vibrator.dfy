/**
 The vibrator: a waveform cut into fixed-size messages for each actuator, with the
 amplifier switched on every few messages.
 */
module Vibrator {
  import opened Collections

  type Byte = x: int | 0 <= x < 256

  const OUTPUT_BUFFER_SIZE: nat := 40
  const SPI_HEADER_SIZE: nat := 3
  const DEFAULT_AMPLITUDE: Byte := 80

  /** What the driver sees. */
  datatype DriverEvent =
    | DisableAmp(actuator: nat)
    | EnableAmp(actuator: nat)
    | Write(bytes: seq<Byte>)

  const ENTRIES_PER_MS: real := 8.21

  /** Rounding to the nearest integer, halves away from zero. */
  function Round(x: real): int {
    if x >= 0.0 then (x + 0.5).Floor else -(-x + 0.5).Floor
  }

  /** Buffer entries for a duration. */
  function BufferSize(timeoutMs: nat): nat {
    Round(ENTRIES_PER_MS * timeoutMs as real)
  }

  /** The durations the code has a buffer for: exactly those whose size is a 32-bit number and not negative. */
  lemma DurationFitsIff(timeoutMs: int)
    ensures 0 <= Round(ENTRIES_PER_MS * timeoutMs as real) < 0x8000_0000 <==> 0 <= timeoutMs <= 261569262
  {
    if timeoutMs >= 0 {
      assert timeoutMs <= 261569262 <==> ENTRIES_PER_MS * timeoutMs as real + 0.5 < 2147483648.0;
    } else {
      assert ENTRIES_PER_MS * timeoutMs as real <= -8.21;
    }
  }

  /** Rounding goes to an integer at most a half away, and from a half to the one further from zero. */
  lemma RoundsToNearest(x: real)
    ensures -0.5 <= Round(x) as real - x <= 0.5
    ensures Round(x) as real - x == 0.5 ==> x >= 0.0
    ensures Round(x) as real - x == -0.5 ==> x <= 0.0
  {
  }

  function NumBuffers(bufferSize: nat): nat {
    (bufferSize + OUTPUT_BUFFER_SIZE - 1) / OUTPUT_BUFFER_SIZE
  }

  // ---- what `on` sends ----

  /** The j-th piece of the waveform, filled up with zeros. */
  function Chunk(wave: seq<Byte>, j: nat): seq<Byte> {
    seq(OUTPUT_BUFFER_SIZE,
        k requires 0 <= k < OUTPUT_BUFFER_SIZE =>
          if OUTPUT_BUFFER_SIZE * j + k < |wave| then wave[OUTPUT_BUFFER_SIZE * j + k] else 0)
  }

  function Message(actuator: nat, wave: seq<Byte>, j: nat): seq<Byte> {
    [actuator % 256, 8, OUTPUT_BUFFER_SIZE] + Chunk(wave, j)
  }

  /** The first n messages to one actuator; false when its amplifier refuses, which ends it there. */
  function ActuatorRun(i: nat, wave: seq<Byte>, n: nat, ampOk: bool): (bool, seq<DriverEvent>) {
    if n == 0 then (true, [])
    else
      var (ok, log) := ActuatorRun(i, wave, n - 1, ampOk);
      if !ok then (false, log)
      else if n % 4 == 0 then (ampOk, log + [Write(Message(i, wave, n - 1))] + [EnableAmp(i)])
      else (true, log + [Write(Message(i, wave, n - 1))])
  }

  /** The first m actuators in turn, stopping when one fails. */
  function AllRuns(m: nat, wave: seq<Byte>, n: nat, ampOk: nat -> bool): (bool, seq<DriverEvent>) {
    if m == 0 then (true, [])
    else
      var (ok, log) := AllRuns(m - 1, wave, n, ampOk);
      if !ok then (false, log)
      else
        var (ok', more) := ActuatorRun(m - 1, wave, n, ampOk(m - 1));
        (ok', log + more)
  }

  /** `off`: every amplifier disabled, stopping at the first failure. */
  function OffRun(m: nat, offOk: nat -> bool): (bool, seq<DriverEvent>) {
    if m == 0 then (true, [])
    else
      var (ok, log) := OffRun(m - 1, offOk);
      if !ok then (false, log) else (offOk(m - 1), log + [DisableAmp(m - 1)])
  }

  // ---- what an actuator hears ----

  /** What one event brings actuator i. */
  function Heard(e: DriverEvent, i: nat): seq<Byte> {
    if e.Write? && |e.bytes| >= SPI_HEADER_SIZE && e.bytes[0] == i then e.bytes[SPI_HEADER_SIZE..] else []
  }

  /** The bytes written to actuator i, without the headers. */
  function Payload(log: seq<DriverEvent>, i: nat): seq<Byte> {
    if log == [] then [] else Payload(log[..|log| - 1], i) + Heard(log[|log| - 1], i)
  }

  function EnableCount(log: seq<DriverEvent>, i: nat): nat {
    if log == [] then 0
    else EnableCount(log[..|log| - 1], i) + if log[|log| - 1] == EnableAmp(i) then 1 else 0
  }

  lemma HeardAppend(log: seq<DriverEvent>, e: DriverEvent, i: nat)
    ensures Payload(log + [e], i) == Payload(log, i) + Heard(e, i)
  {
    assert (log + [e])[..|log|] == log;
  }

  lemma CountAppend(log: seq<DriverEvent>, e: DriverEvent, i: nat)
    ensures EnableCount(log + [e], i) == EnableCount(log, i) + if e == EnableAmp(i) then 1 else 0
  {
    assert (log + [e])[..|log|] == log;
  }

  lemma PayloadStep(a: seq<DriverEvent>, init: seq<DriverEvent>, e: DriverEvent, i: nat)
    requires Payload(a + init, i) == Payload(a, i) + Payload(init, i)
    ensures Payload(a + (init + [e]), i) == Payload(a, i) + Payload(init + [e], i)
  {
    Regroup(a, init, [e]);
    HeardAppend(a + init, e, i);
    HeardAppend(init, e, i);
    Regroup(Payload(a, i), Payload(init, i), Heard(e, i));
  }

  lemma {:induction false} PayloadConcat(a: seq<DriverEvent>, b: seq<DriverEvent>, i: nat)
    ensures Payload(a + b, i) == Payload(a, i) + Payload(b, i)
    decreases |b|
  {
    if b == [] {
      assert a + b == a;
    } else {
      var init, e := b[..|b| - 1], b[|b| - 1];
      assert b == init + [e];
      PayloadConcat(a, init, i);
      PayloadStep(a, init, e, i);
    }
  }

  lemma CountStep(a: seq<DriverEvent>, init: seq<DriverEvent>, e: DriverEvent, i: nat)
    requires EnableCount(a + init, i) == EnableCount(a, i) + EnableCount(init, i)
    ensures EnableCount(a + (init + [e]), i) == EnableCount(a, i) + EnableCount(init + [e], i)
  {
    Regroup(a, init, [e]);
    CountAppend(a + init, e, i);
    CountAppend(init, e, i);
  }

  lemma {:induction false} EnableCountConcat(a: seq<DriverEvent>, b: seq<DriverEvent>, i: nat)
    ensures EnableCount(a + b, i) == EnableCount(a, i) + EnableCount(b, i)
    decreases |b|
  {
    if b == [] {
      assert a + b == a;
    } else {
      var init, e := b[..|b| - 1], b[|b| - 1];
      EnableCountConcat(a, init, i);
      CountStep(a, init, e, i);
      assert b == init + [e];
    }
  }

  /** The first n chunks put together: the waveform, cut or filled up to 40 n bytes. */
  function Filled(wave: seq<Byte>, length: nat): seq<Byte> {
    seq(length, k requires 0 <= k < length => if k < |wave| then wave[k] else 0)
  }

  lemma FilledGrows(wave: seq<Byte>, n: nat)
    requires n > 0
    ensures Filled(wave, OUTPUT_BUFFER_SIZE * n) == Filled(wave, OUTPUT_BUFFER_SIZE * (n - 1)) + Chunk(wave, n - 1)
  {
  }

  lemma HeaderStripped(header: seq<Byte>, chunk: seq<Byte>)
    ensures (header + chunk)[|header|..] == chunk
  {
  }

  lemma MessageHeard(i: nat, a: nat, wave: seq<Byte>, j: nat)
    ensures Heard(Write(Message(a, wave, j)), i) == if a % 256 == i then Chunk(wave, j) else []
  {
    var header: seq<Byte> := [a % 256, 8, OUTPUT_BUFFER_SIZE];
    var chunk := Chunk(wave, j);
    HeaderStripped(header, chunk);
    assert |header| == SPI_HEADER_SIZE && (header + chunk)[0] == a % 256;
  }

  /**
   After n messages to actuator a, the listener to index byte i has heard n chunks if
   that is a's byte, and actuator e has been enabled k times if it is a.
   */
  ghost predicate HeardSoFar(log: seq<DriverEvent>, a: nat, wave: seq<Byte>, n: nat, k: nat, i: nat, e: nat) {
    && Payload(log, i) == (if a % 256 == i then Filled(wave, OUTPUT_BUFFER_SIZE * n) else [])
    && EnableCount(log, e) == if a == e then k else 0
  }

  lemma MessageStep(log: seq<DriverEvent>, a: nat, wave: seq<Byte>, n: nat, k: nat, i: nat, e: nat)
    requires n > 0 && HeardSoFar(log, a, wave, n - 1, k, i, e)
    ensures HeardSoFar(log + [Write(Message(a, wave, n - 1))], a, wave, n, k, i, e)
  {
    var w := Write(Message(a, wave, n - 1));
    MessageHeard(i, a, wave, n - 1);
    HeardAppend(log, w, i);
    CountAppend(log, w, e);
    FilledGrows(wave, n);
  }

  lemma EnableStep(log: seq<DriverEvent>, a: nat, wave: seq<Byte>, n: nat, k: nat, i: nat, e: nat)
    requires HeardSoFar(log, a, wave, n, k, i, e)
    ensures HeardSoFar(log + [EnableAmp(a)], a, wave, n, k + 1, i, e)
  {
    HeardAppend(log, EnableAmp(a), i);
    CountAppend(log, EnableAmp(a), e);
  }

  lemma HeardNext(log: seq<DriverEvent>, all: seq<DriverEvent>, a: nat, wave: seq<Byte>, n: nat, i: nat, e: nat)
    requires n > 0 && HeardSoFar(log, a, wave, n - 1, (n - 1) / 4, i, e)
    requires var w := Write(Message(a, wave, n - 1));
             all == if n % 4 == 0 then log + [w] + [EnableAmp(a)] else log + [w]
    ensures HeardSoFar(all, a, wave, n, n / 4, i, e)
  {
    var w, k := Write(Message(a, wave, n - 1)), (n - 1) / 4;
    MessageStep(log, a, wave, n, k, i, e);
    if n % 4 == 0 {
      EnableStep(log + [w], a, wave, n, k, i, e);
    }
    assert n / 4 == if n % 4 == 0 then k + 1 else k;
  }

  /** What is heard of actuator a's run. */
  lemma {:induction false} RunHeard(a: nat, wave: seq<Byte>, n: nat, i: nat, e: nat)
    ensures ActuatorRun(a, wave, n, true).0
    ensures HeardSoFar(ActuatorRun(a, wave, n, true).1, a, wave, n, n / 4, i, e)
    decreases n
  {
    if n > 0 {
      RunHeard(a, wave, n - 1, i, e);
      HeardNext(ActuatorRun(a, wave, n - 1, true).1, ActuatorRun(a, wave, n, true).1, a, wave, n, i, e);
    }
  }

  /** How many of the first m actuators have index byte i. */
  function Sharing(m: nat, i: nat): nat {
    if m == 0 then 0 else Sharing(m - 1, i) + if (m - 1) % 256 == i then 1 else 0
  }

  lemma DivideStep(a: nat, i: nat)
    requires i < 256
    ensures a % 256 == i <==> a >= i && (a - i) % 256 == 0
    ensures a > i ==> (a - i) / 256 == (a - 1 - i) / 256 + if (a - i) % 256 == 0 then 1 else 0
  {
  }

  lemma {:induction false} SharingIs(m: nat, i: nat)
    requires i < 256
    ensures Sharing(m, i) == if m <= i then 0 else (m - 1 - i) / 256 + 1
    decreases m
  {
    if m > 0 {
      SharingIs(m - 1, i);
      DivideStep(m - 1, i);
    }
  }

  function Repeat(bytes: seq<Byte>, times: nat): seq<Byte> {
    if times == 0 then [] else Repeat(bytes, times - 1) + bytes
  }

  lemma OneMoreTime(bytes: seq<Byte>, k: nat, k': nat, piece: seq<Byte>)
    requires piece == (if k' == k then [] else bytes) && k' in {k, k + 1}
    ensures Repeat(bytes, k) + piece == Repeat(bytes, k')
  {
  }

  lemma OneMoreActuator(all: seq<DriverEvent>, log: seq<DriverEvent>, more: seq<DriverEvent>, filled: seq<Byte>,
                        k: nat, k': nat, i: nat)
    requires all == log + more && Payload(log, i) == Repeat(filled, k)
    requires Payload(more, i) == (if k' == k then [] else filled) && k' in {k, k + 1}
    ensures Payload(all, i) == Repeat(filled, k')
  {
    assert Payload(all, i) == Payload(log, i) + Payload(more, i) by {
      PayloadConcat(log, more, i);
    }
    OneMoreTime(filled, k, k', Payload(more, i));
  }

  lemma AllRunsStep(m: nat, wave: seq<Byte>, n: nat, ampOk: nat -> bool)
    requires m > 0 && ampOk(m - 1) && AllRuns(m - 1, wave, n, ampOk).0
    ensures AllRuns(m, wave, n, ampOk).0
    ensures AllRuns(m, wave, n, ampOk).1 == AllRuns(m - 1, wave, n, ampOk).1 + ActuatorRun(m - 1, wave, n, true).1
  {
    RunHeard(m - 1, wave, n, 0, 0);
  }

  lemma RunPayload(a: nat, wave: seq<Byte>, n: nat, filled: seq<Byte>, i: nat)
    requires filled == Filled(wave, OUTPUT_BUFFER_SIZE * n)
    ensures Payload(ActuatorRun(a, wave, n, true).1, i) == if a % 256 == i then filled else []
  {
    RunHeard(a, wave, n, i, 0);
  }

  /** What the last of m actuators adds to the messages, and what is heard of it. */
  lemma LastActuator(m: nat, wave: seq<Byte>, n: nat, ampOk: nat -> bool, filled: seq<Byte>, i: nat)
    returns (more: seq<DriverEvent>)
    requires m > 0 && ampOk(m - 1) && AllRuns(m - 1, wave, n, ampOk).0
    requires filled == Filled(wave, OUTPUT_BUFFER_SIZE * n)
    ensures AllRuns(m, wave, n, ampOk).0
    ensures AllRuns(m, wave, n, ampOk).1 == AllRuns(m - 1, wave, n, ampOk).1 + more
    ensures Sharing(m, i) in {Sharing(m - 1, i), Sharing(m - 1, i) + 1}
    ensures Payload(more, i) == if Sharing(m, i) == Sharing(m - 1, i) then [] else filled
  {
    more := ActuatorRun(m - 1, wave, n, true).1;
    assert Payload(more, i) == if (m - 1) % 256 == i then filled else [] by {
      RunPayload(m - 1, wave, n, filled, i);
    }
    AllRunsStep(m, wave, n, ampOk);
  }

  lemma RunEnables(a: nat, wave: seq<Byte>, n: nat, e: nat)
    ensures EnableCount(ActuatorRun(a, wave, n, true).1, e) == if a == e then n / 4 else 0
  {
    RunHeard(a, wave, n, 0, e);
  }

  /** What is heard of everybody's runs. */
  lemma {:induction false} AllHeard(m: nat, wave: seq<Byte>, n: nat, ampOk: nat -> bool, filled: seq<Byte>, i: nat)
    requires forall a :: 0 <= a < m ==> ampOk(a)
    requires filled == Filled(wave, OUTPUT_BUFFER_SIZE * n)
    ensures AllRuns(m, wave, n, ampOk).0
    ensures Payload(AllRuns(m, wave, n, ampOk).1, i) == Repeat(filled, Sharing(m, i))
    decreases m
  {
    if m > 0 {
      AllHeard(m - 1, wave, n, ampOk, filled, i);
      var more := LastActuator(m, wave, n, ampOk, filled, i);
      OneMoreActuator(AllRuns(m, wave, n, ampOk).1, AllRuns(m - 1, wave, n, ampOk).1, more, filled,
                      Sharing(m - 1, i), Sharing(m, i), i);
    }
  }

  lemma {:induction false} AllEnabled(m: nat, wave: seq<Byte>, n: nat, ampOk: nat -> bool, e: nat)
    requires forall a :: 0 <= a < m ==> ampOk(a)
    ensures AllRuns(m, wave, n, ampOk).0
    ensures EnableCount(AllRuns(m, wave, n, ampOk).1, e) == if e < m then n / 4 else 0
    decreases m
  {
    if m > 0 {
      AllEnabled(m - 1, wave, n, ampOk, e);
      AllRunsStep(m, wave, n, ampOk);
      RunEnables(m - 1, wave, n, e);
      EnableCountConcat(AllRuns(m - 1, wave, n, ampOk).1, ActuatorRun(m - 1, wave, n, true).1, e);
    }
  }

  /** The bytes are the waveform, followed by fewer than 40 zeros. */
  ghost predicate WholeWave(bytes: seq<Byte>, wave: seq<Byte>) {
    && |wave| <= |bytes| < |wave| + OUTPUT_BUFFER_SIZE
    && bytes[..|wave|] == wave
    && forall k :: |wave| <= k < |bytes| ==> bytes[k] == 0
  }

  lemma FilledIsWhole(wave: seq<Byte>)
    ensures WholeWave(Filled(wave, OUTPUT_BUFFER_SIZE * NumBuffers(|wave|)), wave)
  {
  }

  lemma {:induction false} RepeatLength(bytes: seq<Byte>, times: nat)
    ensures |Repeat(bytes, times)| == times * |bytes|
    decreases times
  {
    if times > 0 {
      RepeatLength(bytes, times - 1);
      assert times * |bytes| == (times - 1) * |bytes| + |bytes|;
    }
  }

  lemma TwiceIsNotOnce(bytes: seq<Byte>, wave: seq<Byte>, times: nat)
    requires |wave| <= |bytes| && OUTPUT_BUFFER_SIZE <= |bytes| && times >= 2
    ensures !WholeWave(Repeat(bytes, times), wave)
  {
    RepeatLength(bytes, times);
    assert times * |bytes| >= 2 * |bytes|;
  }

  lemma OnceIsItself(bytes: seq<Byte>)
    ensures Repeat(bytes, 1) == bytes
  {
    assert Repeat(bytes, 0) + bytes == bytes;
  }

  lemma WholeIffOnce(filled: seq<Byte>, wave: seq<Byte>, times: nat)
    requires filled == Filled(wave, OUTPUT_BUFFER_SIZE * NumBuffers(|wave|)) && times > 0
    ensures WholeWave(Repeat(filled, times), wave) <==> wave == [] || times == 1
  {
    FilledIsWhole(wave);
    RepeatLength(filled, times);
    if times == 1 {
      OnceIsItself(filled);
    } else if wave != [] {
      TwiceIsNotOnce(filled, wave, times);
    }
  }

  /** An actuator is alone under its index byte exactly while there are no more than 256 from that byte on. */
  lemma SharedBy(m: nat, e: nat)
    requires e < m
    ensures Sharing(m, e % 256) > 0
    ensures Sharing(m, e % 256) == 1 <==> m <= e % 256 + 256
  {
    SharingIs(m, e % 256);
  }

  /**
   Waveform chunking, for any number of actuators with willing amplifiers. Every
   actuator has its amplifier enabled once for every full four messages. Under its
   index byte go the whole waveform and fewer than 40 zeros -- exactly when the
   waveform is empty or no other actuator shares the byte, as none does up to 256
   actuators.
   */
  lemma EveryActuatorHearsTheWave(actuators: nat, wave: seq<Byte>, ampOk: nat -> bool, e: nat)
    requires e < actuators && forall a :: 0 <= a < actuators ==> ampOk(a)
    ensures var n := NumBuffers(|wave|);
            var log := AllRuns(actuators, wave, n, ampOk).1;
            && EnableCount(log, e) == n / 4
            && (WholeWave(Payload(log, e % 256), wave) <==> wave == [] || actuators <= e % 256 + 256)
  {
    var n, i := NumBuffers(|wave|), e % 256;
    var filled := Filled(wave, OUTPUT_BUFFER_SIZE * n);
    AllHeard(actuators, wave, n, ampOk, filled, i);
    AllEnabled(actuators, wave, n, ampOk, e);
    SharedBy(actuators, e);
    WholeIffOnce(filled, wave, Sharing(actuators, i));
  }

  // ---- the messages, and what a refusal ends ----

  /** A message to actuator a: 43 bytes, its index byte, an 8, and the size of the row that follows. */
  predicate IsMessageTo(e: DriverEvent, a: nat) {
    e.Write? && |e.bytes| == 43 && e.bytes[0] == a % 256 && e.bytes[1] == 8 && e.bytes[2] == 40
  }

  /** How many of the events are messages to actuator a. */
  function MessagesTo(log: seq<DriverEvent>, a: nat): nat {
    if log == [] then 0 else MessagesTo(log[..|log| - 1], a) + if IsMessageTo(log[|log| - 1], a) then 1 else 0
  }

  /** Everything in the log is a message to the actuator or the enabling of its amplifier. */
  ghost predicate OnlyFor(log: seq<DriverEvent>, a: nat) {
    forall k :: 0 <= k < |log| ==> IsMessageTo(log[k], a) || log[k] == EnableAmp(a)
  }

  lemma MessagesAppend(log: seq<DriverEvent>, e: DriverEvent, a: nat)
    ensures MessagesTo(log + [e], a) == MessagesTo(log, a) + if IsMessageTo(e, a) then 1 else 0
  {
    assert (log + [e])[..|log|] == log;
  }

  lemma MessageFramed(a: nat, wave: seq<Byte>, j: nat)
    ensures IsMessageTo(Write(Message(a, wave, j)), a)
  {
  }

  /** One more message in a run that has gone well so far. */
  lemma RunNext(a: nat, wave: seq<Byte>, n: nat, ampOk: bool, before: seq<DriverEvent>)
    requires n > 0 && ActuatorRun(a, wave, n - 1, ampOk) == (true, before)
    ensures var w := Write(Message(a, wave, n - 1));
            ActuatorRun(a, wave, n, ampOk) ==
            if n % 4 == 0 then (ampOk, before + [w] + [EnableAmp(a)]) else (true, before + [w])
  {
  }

  lemma FramedNext(log: seq<DriverEvent>, a: nat, w: DriverEvent, all: seq<DriverEvent>, enables: bool)
    requires OnlyFor(log, a) && IsMessageTo(w, a)
    requires all == if enables then log + [w] + [EnableAmp(a)] else log + [w]
    ensures OnlyFor(all, a) && MessagesTo(all, a) == MessagesTo(log, a) + 1
  {
    MessagesAppend(log, w, a);
    MessagesAppend(log + [w], EnableAmp(a), a);
  }

  /** With a willing amplifier an actuator gets all n messages; with none it gets at most four. */
  lemma {:induction false} RunFramed(a: nat, wave: seq<Byte>, n: nat, ampOk: bool)
    ensures var (ok, log) := ActuatorRun(a, wave, n, ampOk);
            && (ok <==> ampOk || n < 4)
            && OnlyFor(log, a) && MessagesTo(log, a) == (if ok then n else 4)
    decreases n
  {
    if n > 0 {
      RunFramed(a, wave, n - 1, ampOk);
      var before := ActuatorRun(a, wave, n - 1, ampOk);
      if before.0 {
        RunNext(a, wave, n, ampOk, before.1);
        MessageFramed(a, wave, n - 1);
        FramedNext(before.1, a, Write(Message(a, wave, n - 1)), ActuatorRun(a, wave, n, ampOk).1, n % 4 == 0);
      }
    }
  }

  /**
   What a refusal ends. Driving goes well exactly if the waveform is too short for an
   amplifier to be asked, or all are willing. Otherwise the actuators before the first
   unwilling one have been driven in full, that one has had four messages and its
   amplifier one try, and nothing has gone to the others.
   */
  lemma {:induction false} RefusalEnds(m: nat, wave: seq<Byte>, n: nat, ampOk: nat -> bool, a: nat)
    requires a < m && !ampOk(a) && forall j :: 0 <= j < a ==> ampOk(j)
    ensures var (ok, log) := AllRuns(m, wave, n, ampOk);
            && (ok ==> n < 4)
            && (n >= 4 ==> !ok && AllRuns(a, wave, n, ampOk).0
                           && log == AllRuns(a, wave, n, ampOk).1 + ActuatorRun(a, wave, n, false).1)
    decreases m
  {
    RunFramed(a, wave, n, false);
    if n >= 4 {
      if m == a + 1 {
        AllGoWell(a, wave, n, ampOk);
      } else {
        RefusalEnds(m - 1, wave, n, ampOk, a);
      }
    } else {
      AllGoWell(m, wave, n, ampOk);
    }
  }

  lemma {:induction false} AllGoWell(m: nat, wave: seq<Byte>, n: nat, ampOk: nat -> bool)
    requires n < 4 || forall j :: 0 <= j < m ==> ampOk(j)
    ensures AllRuns(m, wave, n, ampOk).0
    decreases m
  {
    if m > 0 {
      AllGoWell(m - 1, wave, n, ampOk);
      RunFramed(m - 1, wave, n, ampOk(m - 1));
    }
  }

  /** Switching off asks every amplifier in turn, up to and including the first that fails. */
  lemma {:induction false} OffAsks(m: nat, offOk: nat -> bool)
    ensures var (ok, log) := OffRun(m, offOk);
            && (ok <==> forall j :: 0 <= j < m ==> offOk(j))
            && |log| <= m && (forall k :: 0 <= k < |log| ==> log[k] == DisableAmp(k))
            && (if ok then |log| == m
                else |log| > 0 && !offOk(|log| - 1) && forall j :: 0 <= j < |log| - 1 ==> offOk(j))
    decreases m
  {
    if m > 0 {
      OffAsks(m - 1, offOk);
    }
  }

  // ---- the vibrator as an object ----

  datatype Effect = Click | DoubleClick | Tick | HeavyClick | OtherEffect
  datatype Strength = Light | Medium | Strong

  function Amplitude(s: Strength): Byte {
    match s
    case Light => 40
    case Medium => 80
    case Strong => 120
  }

  /** A light effect plays at half the default amplitude, a medium one at it, a strong one at half as much again. */
  lemma AmplitudesScale()
    ensures 2 * Amplitude(Light) == DEFAULT_AMPLITUDE && Amplitude(Medium) == DEFAULT_AMPLITUDE
    ensures 2 * Amplitude(Strong) == 3 * DEFAULT_AMPLITUDE
  {
  }

  class VibratorDevice {
    const numActuators: nat
    const clickMs: nat
    const tickMs: nat
    const heavyClickMs: nat
    const sample: (Byte, nat) -> Byte    // the sine sample of an amplitude at a buffer index
    const ampOk: nat -> bool             // whether an actuator's amplifier can be enabled
    const offOk: nat -> bool             // whether it can be disabled
    var currentAmplitude: Byte
    var driver: seq<DriverEvent>

    constructor (n: nat, click: nat, tick: nat, heavy: nat, sample: (Byte, nat) -> Byte,
                 ampOk: nat -> bool, offOk: nat -> bool)
      ensures numActuators == n && this.sample == sample && this.ampOk == ampOk && this.offOk == offOk
      ensures currentAmplitude == DEFAULT_AMPLITUDE && driver == []
    {
      numActuators, clickMs, tickMs, heavyClickMs := n, click, tick, heavy;
      this.sample, this.ampOk, this.offOk := sample, ampOk, offOk;
      currentAmplitude, driver := DEFAULT_AMPLITUDE, [];
    }

    /** The waveform of a duration at an amplitude. */
    function Wave(amplitude: Byte, size: nat): seq<Byte> {
      seq(size, i requires 0 <= i < size => sample(amplitude, i))
    }

    method Off() returns (ok: bool)
      modifies this`driver
      ensures ok == OffRun(numActuators, offOk).0 && driver == old(driver) + OffRun(numActuators, offOk).1
    {
      for i := 0 to numActuators
        invariant OffRun(i, offOk).0 && driver == old(driver) + OffRun(i, offOk).1
      {
        driver := driver + [DisableAmp(i)];
        if !offOk(i) {
          OffStops(i + 1, numActuators);
          return false;
        }
      }
      ok := true;
    }

    lemma {:induction false} OffStops(m: nat, total: nat)
      requires m <= total && !OffRun(m, offOk).0
      ensures OffRun(total, offOk) == OffRun(m, offOk)
      decreases total
    {
      if m < total {
        OffStops(m, total - 1);
      }
    }

    /** Cut the waveform into rows of 40, the last one filled up with zeros. */
    method Split(full: array<Byte>) returns (rows: array2<Byte>)
      ensures fresh(rows) && rows.Length0 == NumBuffers(full.Length) && rows.Length1 == OUTPUT_BUFFER_SIZE
      ensures forall j, k :: 0 <= j < rows.Length0 && 0 <= k < OUTPUT_BUFFER_SIZE ==>
                rows[j, k] == Chunk(full[..], j)[k]
    {
      var n := NumBuffers(full.Length);
      rows := new Byte[n, OUTPUT_BUFFER_SIZE]((_, _) => 0);
      for i := 0 to full.Length
        invariant forall j, k :: 0 <= j < n && 0 <= k < OUTPUT_BUFFER_SIZE ==>
                    rows[j, k] == if OUTPUT_BUFFER_SIZE * j + k < i then full[OUTPUT_BUFFER_SIZE * j + k] else 0
      {
        rows[i / OUTPUT_BUFFER_SIZE, i % OUTPUT_BUFFER_SIZE] := full[i];
      }
    }

    /** One message: the header and a row. */
    method Pack(i: nat, rows: array2<Byte>, j: nat) returns (output: array<Byte>)
      requires j < rows.Length0 && rows.Length1 == OUTPUT_BUFFER_SIZE
      ensures fresh(output) && output.Length == OUTPUT_BUFFER_SIZE + SPI_HEADER_SIZE
      ensures output[0] == i % 256 && output[1] == 8 && output[2] == OUTPUT_BUFFER_SIZE
      ensures forall k :: 3 <= k < output.Length ==> output[k] == rows[j, k - 3]
    {
      output := new Byte[OUTPUT_BUFFER_SIZE + SPI_HEADER_SIZE](_ => 0);
      output[0] := i % 256;
      output[1] := 8;
      output[2] := OUTPUT_BUFFER_SIZE;
      for k := 3 to OUTPUT_BUFFER_SIZE + 3
        invariant output[0] == i % 256 && output[1] == 8 && output[2] == OUTPUT_BUFFER_SIZE
        invariant forall l :: 3 <= l < k ==> output[l] == rows[j, l - 3]
      {
        output[k] := rows[j, k - 3];
      }
    }

    /** All messages to one actuator. */
    method Drive(i: nat, rows: array2<Byte>, ghost wave: seq<Byte>) returns (ok: bool)
      requires rows.Length1 == OUTPUT_BUFFER_SIZE
      requires forall j, k :: 0 <= j < rows.Length0 && 0 <= k < OUTPUT_BUFFER_SIZE ==> rows[j, k] == Chunk(wave, j)[k]
      modifies this`driver
      ensures ok == ActuatorRun(i, wave, rows.Length0, ampOk(i)).0
      ensures driver == old(driver) + ActuatorRun(i, wave, rows.Length0, ampOk(i)).1
    {
      for j := 0 to rows.Length0
        invariant ActuatorRun(i, wave, j, ampOk(i)).0
        invariant driver == old(driver) + ActuatorRun(i, wave, j, ampOk(i)).1
      {
        var output := Pack(i, rows, j);
        assert output[..] == Message(i, wave, j);
        driver := driver + [Write(output[..])];
        if (j + 1) % 4 == 0 {
          driver := driver + [EnableAmp(i)];
          if !ampOk(i) {
            RunStops(i, wave, j + 1, rows.Length0);
            return false;
          }
        }
      }
      ok := true;
    }

    lemma {:induction false} RunStops(i: nat, wave: seq<Byte>, n: nat, total: nat)
      requires n <= total && !ActuatorRun(i, wave, n, ampOk(i)).0
      ensures ActuatorRun(i, wave, total, ampOk(i)) == ActuatorRun(i, wave, n, ampOk(i))
      decreases total
    {
      if n < total {
        RunStops(i, wave, n, total - 1);
      }
    }

    /** The messages to every actuator, ended by the first that fails. */
    method DriveAll(rows: array2<Byte>, ghost wave: seq<Byte>) returns (ok: bool)
      requires rows.Length1 == OUTPUT_BUFFER_SIZE
      requires forall j, k :: 0 <= j < rows.Length0 && 0 <= k < OUTPUT_BUFFER_SIZE ==> rows[j, k] == Chunk(wave, j)[k]
      modifies this`driver
      ensures ok == AllRuns(numActuators, wave, rows.Length0, ampOk).0
      ensures driver == old(driver) + AllRuns(numActuators, wave, rows.Length0, ampOk).1
    {
      for i := 0 to numActuators
        invariant AllRuns(i, wave, rows.Length0, ampOk).0
        invariant driver == old(driver) + AllRuns(i, wave, rows.Length0, ampOk).1
        invariant forall j, k :: 0 <= j < rows.Length0 && 0 <= k < OUTPUT_BUFFER_SIZE ==>
                    rows[j, k] == Chunk(wave, j)[k]
      {
        var driven := Drive(i, rows, wave);
        if !driven {
          AllStops(i + 1, wave, rows.Length0, numActuators);
          return false;
        }
      }
      ok := true;
    }

    /** Vibrate for a duration at the current amplitude. */
    method On(timeoutMs: nat) returns (ok: bool)
      modifies this`driver
      ensures var wave := Wave(currentAmplitude, BufferSize(timeoutMs));
              var (ran, log) := AllRuns(numActuators, wave, NumBuffers(|wave|), ampOk);
              ok == ran && driver == old(driver) + OffRun(numActuators, offOk).1 + log
    {
      var size := BufferSize(timeoutMs);
      var full := new Byte[size](_ => 0);
      var _ := Off();
      ghost var start := driver;
      for i := 0 to size
        invariant forall k :: 0 <= k < i ==> full[k] == sample(currentAmplitude, k)
        invariant driver == start
      {
        full[i] := sample(currentAmplitude, i);
      }
      ghost var wave := Wave(currentAmplitude, size);
      assert full[..] == wave;
      var rows := Split(full);
      ok := DriveAll(rows, wave);
    }

    lemma {:induction false} AllStops(m: nat, wave: seq<Byte>, n: nat, total: nat)
      requires m <= total && !AllRuns(m, wave, n, ampOk).0
      ensures AllRuns(total, wave, n, ampOk) == AllRuns(m, wave, n, ampOk)
      decreases total
    {
      if m < total {
        AllStops(m, wave, n, total - 1);
      }
    }

    /** Play an effect at a strength; the amplitude set by the client comes back afterwards. */
    method Perform(effect: Effect, strength: Strength) returns (supported: bool, timeMs: nat)
      modifies this
      ensures currentAmplitude == old(currentAmplitude)
      ensures supported <==> !effect.OtherEffect?
      ensures timeMs == match effect
                        case Click => clickMs
                        case DoubleClick => 135
                        case Tick => tickMs
                        case HeavyClick => heavyClickMs
                        case OtherEffect => 0
      ensures var wave := Wave(Amplitude(strength), BufferSize(timeMs));
              driver == if !supported then old(driver)
                        else old(driver) + OffRun(numActuators, offOk).1
                             + AllRuns(numActuators, wave, NumBuffers(|wave|), ampOk).1
    {
      match effect {
        case Click => timeMs := clickMs;
        case DoubleClick => timeMs := 135;
        case Tick => timeMs := tickMs;
        case HeavyClick => timeMs := heavyClickMs;
        case OtherEffect => return false, 0;
      }
      var saved := currentAmplitude;
      currentAmplitude := Amplitude(strength);
      var _ := On(timeMs);
      currentAmplitude := saved;
      supported := true;
    }
  }
}
