/**
 The one-shot sensor: clients switching it on and off, and the thread that polls
 the sysfs node. A step is what happens between two points where another thread
 can get in; sections under mRunMutex are split further, so that the lock's holder
 is part of the state.
 */
module OneShotSensor {
  import opened CaptureTypes

  datatype Mode = Normal | DataInjection

  /** Who holds mRunMutex, and how far it has got. */
  datatype Lock =
    | Free
    | Client(enable: bool, stage: nat)   // inside activate: 0 to write the hardware, 1 to set the flag, 2 to notify
    | Loop                               // the thread, at the top of its loop
    | Firing(stage: nat)                 // the thread, having seen the node: 0 and 1 as above, 2 to post

  /** Where the thread is when it does not hold the lock. */
  datatype Pc =
    | Running                            // it holds the lock
    | Waiting                            // in mWaitCV.wait
    | Polling                            // in poll
    | Woken(ok: bool, pipe: bool, node: bool)  // poll returned; waiting for the lock
    | Done

  datatype Sensor = Sensor(
    enabled: bool,
    mode: Mode,
    stop: bool,
    hardware: Option<bool>,              // last value written to the enable node
    pipe: nat,                           // bytes in the wait pipe
    owed: nat,                           // mode changes that have yet to write their byte
    signalled: bool,                     // mWaitCV was notified since the thread began to wait or last checked
    lock: Lock,
    pc: Pc,
    activations: nat,                    // times the sensor went from off to on
    posted: nat)                         // events posted

  const START := Sensor(false, Normal, false, None, 0, 0, false, Free, Waiting, 0, 0)

  datatype Step =
    | Activate(enable: bool)   // a client enters activate
    | ClientStep               // the client goes on inside it
    | SetMode(m: Mode)         // a client enters setOperationMode and changes the mode
    | ModeInterrupt            // and then interrupts the poll, outside the lock
    | LoopStep                 // the thread decides what to do next
    | WakeUp                   // the thread's wait ends, or it re-checks its condition
    | PollReturns(ok: bool, node: bool)
    | Handle(node: bool)       // the thread acts on what poll returned; `node` is what the sysfs node reads
    | FireStep

  predicate CanStep(s: Sensor, step: Step) {
    match step
    case Activate(_) => s.lock.Free?
    case ClientStep => s.lock.Client?
    case SetMode(_) => s.lock.Free?
    case ModeInterrupt => s.owed > 0
    case LoopStep => s.lock.Loop?
    case WakeUp => s.pc.Waiting? && s.lock.Free?
    case PollReturns(ok, node) => s.pc.Polling? && (ok ==> s.pipe > 0 || node)
    case Handle(_) => s.pc.Woken? && s.lock.Free?
    case FireStep => s.lock.Firing?
  }

  function Apply(s: Sensor, step: Step): Sensor
    requires CanStep(s, step)
  {
    match step
    case Activate(enable) => if s.enabled == enable then s else s.(lock := Client(enable, 0))
    case ClientStep =>
      if s.lock.stage == 0 then s.(hardware := Some(s.lock.enable), lock := Client(s.lock.enable, 1))
      else if s.lock.stage == 1 then
        s.(enabled := s.lock.enable, lock := Client(s.lock.enable, 2),
           activations := if s.lock.enable then s.activations + 1 else s.activations)
      else s.(pipe := s.pipe + 1, signalled := true, lock := Free)
    case SetMode(m) =>
      if s.mode == m then s.(owed := s.owed + 1) else s.(mode := m, owed := s.owed + 1, signalled := true)
    case ModeInterrupt => s.(pipe := s.pipe + 1, owed := s.owed - 1)
    case LoopStep =>
      if s.stop then s.(lock := Free, pc := Done)
      else if !s.enabled || s.mode.DataInjection? then s.(lock := Free, pc := Waiting, signalled := false)
      else s.(lock := Free, pc := Polling)
    case WakeUp =>
      var checked := s.(signalled := false);
      if (s.enabled && s.mode.Normal?) || s.stop then checked.(lock := Loop, pc := Running) else checked
    case PollReturns(ok, node) => s.(pc := Woken(ok, ok && s.pipe > 0, ok && node))
    case Handle(node) =>
      if !s.pc.ok then s.(stop := true, lock := Loop, pc := Running)
      else if s.pc.node && node then s.(lock := if s.enabled then Firing(0) else Firing(2), pc := Running)
      else if s.pc.pipe then s.(pipe := if s.pipe > 0 then s.pipe - 1 else 0, lock := Loop, pc := Running)
      else s.(lock := Loop, pc := Running)
    case FireStep =>
      if s.lock.stage == 0 then s.(hardware := Some(false), lock := Firing(1))
      else if s.lock.stage == 1 then s.(enabled := false, lock := Firing(2))
      else s.(posted := s.posted + 1, lock := Loop)
  }

  // ---- what every run keeps ----

  /** The thread is in, or on its way out of, a poll it entered while the sensor was on. */
  predicate InPoll(s: Sensor) {
    s.pc.Polling? || s.pc.Woken? || s.lock.Firing?
  }

  function Pending(s: Sensor): nat {
    if s.enabled || InPoll(s) then 1 else 0
  }

  ghost predicate LocksOk(s: Sensor) {
    && (s.pc.Running? <==> s.lock.Loop? || s.lock.Firing?)
    && (s.lock.Client? ==> s.lock.stage <= 2)
    && (s.lock.Client? && s.lock.stage < 2 ==> s.enabled == !s.lock.enable)
    && (s.lock.Client? && s.lock.stage == 2 ==> s.enabled == s.lock.enable)
    && (s.lock.Firing? ==> s.lock.stage <= 2)
    && (s.lock.Firing? && s.lock.stage < 2 ==> s.enabled)
    && (s.lock.Firing? && s.lock.stage == 2 ==> !s.enabled)
  }

  /** What the hardware was last told, unless someone is just telling it otherwise. */
  ghost predicate HardwareOk(s: Sensor) {
    if s.lock.Client? && s.lock.stage == 1 then s.hardware == Some(s.lock.enable)
    else if s.lock == Firing(1) then s.hardware == Some(false)
    else if s.hardware.None? then !s.enabled && s.activations == 0
    else s.hardware == Some(s.enabled)
  }

  /** A thread that polls while it should not has a byte to wake it, there or on its way. */
  ghost predicate WakeOk(s: Sensor) {
    && (s.pc.Polling? && !s.enabled ==> s.pipe > 0 || s.lock == Client(false, 2))
    && (s.pc.Polling? && s.mode.DataInjection? ==> s.pipe > 0 || s.owed > 0)
    && (s.pc.Woken? && s.pc.pipe ==> s.pipe > 0)
  }

  /** A thread that waits although it could go on has been notified, or is just about to be. */
  ghost predicate SignalOk(s: Sensor) {
    s.pc.Waiting? && s.enabled && s.mode.Normal? ==> s.signalled || s.lock == Client(true, 2)
  }

  ghost predicate Inv(s: Sensor) {
    && LocksOk(s) && HardwareOk(s) && WakeOk(s) && SignalOk(s)
    && s.posted + Pending(s) <= s.activations
  }

  lemma StartInv()
    ensures Inv(START)
  {
  }

  lemma StepLocks(s: Sensor, step: Step)
    requires LocksOk(s) && CanStep(s, step)
    ensures LocksOk(Apply(s, step))
  {
  }

  lemma StepHardware(s: Sensor, step: Step)
    requires LocksOk(s) && HardwareOk(s) && CanStep(s, step)
    ensures HardwareOk(Apply(s, step))
  {
  }

  lemma StepWake(s: Sensor, step: Step)
    requires LocksOk(s) && WakeOk(s) && SignalOk(s) && CanStep(s, step)
    ensures WakeOk(Apply(s, step)) && SignalOk(Apply(s, step))
  {
  }

  /** No step posts, or promises, more than it activates. */
  lemma StepBudget(s: Sensor, step: Step)
    requires LocksOk(s) && CanStep(s, step)
    ensures var s' := Apply(s, step);
            s'.posted + Pending(s') - (s.posted + Pending(s)) <= s'.activations - s.activations
  {
  }

  lemma StepInv(s: Sensor, step: Step)
    requires Inv(s) && CanStep(s, step)
    ensures Inv(Apply(s, step))
  {
    StepLocks(s, step);
    StepHardware(s, step);
    StepWake(s, step);
    StepBudget(s, step);
  }

  ghost predicate ValidRun(s: Sensor, steps: seq<Step>)
    decreases |steps|
  {
    steps == [] || (CanStep(s, steps[0]) && ValidRun(Apply(s, steps[0]), steps[1..]))
  }

  function Exec(s: Sensor, steps: seq<Step>): Sensor
    requires ValidRun(s, steps)
    decreases |steps|
  {
    if steps == [] then s else Exec(Apply(s, steps[0]), steps[1..])
  }

  lemma {:induction false} RunInv(s: Sensor, steps: seq<Step>)
    requires Inv(s) && ValidRun(s, steps)
    ensures Inv(Exec(s, steps))
    decreases |steps|
  {
    if steps != [] {
      StepInv(s, steps[0]);
      RunInv(Apply(s, steps[0]), steps[1..]);
    }
  }

  /**
   One shot per activation: in every interleaving of clients and the poll loop the
   events posted, plus one if the sensor is on or still polling, never exceed the
   times it was switched on.
   */
  lemma OneEventPerActivation(steps: seq<Step>)
    requires ValidRun(START, steps)
    ensures var s := Exec(START, steps);
            s.posted + (if s.enabled || InPoll(s) then 1 else 0) <= s.activations
  {
    StartInv();
    RunInv(START, steps);
  }

  /** From the first activation on, whenever the lock is free the hardware was last told what mIsEnabled says. */
  lemma HardwareFollowsFlag(steps: seq<Step>)
    requires ValidRun(START, steps) && Exec(START, steps).lock.Free? && Exec(START, steps).activations > 0
    ensures Exec(START, steps).hardware == Some(Exec(START, steps).enabled)
  {
    StartInv();
    RunInv(START, steps);
  }

  /**
   No lost wake-up: a thread polling a sensor that is off, or in data injection
   with no mode change half done, always has a byte in the pipe, so its poll can
   return; and when it then reads the pipe, a byte is there.
   */
  lemma PollAlwaysWakes(steps: seq<Step>)
    requires ValidRun(START, steps)
    ensures var s := Exec(START, steps);
            && (s.pc.Polling? && s.lock.Free? && (!s.enabled || (s.mode.DataInjection? && s.owed == 0)) ==>
                  s.pipe > 0 && CanStep(s, PollReturns(true, false)))
            && (s.pc.Woken? && s.pc.pipe ==> s.pipe > 0)
  {
    StartInv();
    RunInv(START, steps);
  }

  /** And no lost notification: whenever a waiting thread could go on, with the lock free, it has been notified. */
  lemma WaiterIsNotified(steps: seq<Step>)
    requires ValidRun(START, steps)
    ensures var s := Exec(START, steps);
            s.lock.Free? && s.pc.Waiting? && s.enabled && s.mode.Normal? ==> s.signalled
  {
    StartInv();
    RunInv(START, steps);
  }

  lemma {:induction false} RunBudget(s: Sensor, steps: seq<Step>)
    requires Inv(s) && ValidRun(s, steps)
    ensures var s' := Exec(s, steps);
            s'.posted + Pending(s') - (s.posted + Pending(s)) <= s'.activations - s.activations
    decreases |steps|
  {
    if steps != [] {
      StepBudget(s, steps[0]);
      StepInv(s, steps[0]);
      RunBudget(Apply(s, steps[0]), steps[1..]);
    }
  }

  /** After posting its event the sensor is off, and it posts no other until it is switched on again. */
  lemma EventsNeedActivations(s: Sensor, steps: seq<Step>)
    requires Inv(s) && s.lock == Firing(2) && ValidRun(Apply(s, FireStep), steps)
    ensures !Apply(s, FireStep).enabled
    ensures var before, after := Apply(s, FireStep), Exec(Apply(s, FireStep), steps);
            after.posted - before.posted <= after.activations - before.activations
  {
    StepInv(s, FireStep);
    RunBudget(Apply(s, FireStep), steps);
  }

  // ---- the sensor as an object ----

  /** A client's activate, run to its end. */
  function ActivateRun(s: Sensor, enable: bool): Sensor
    requires s.lock.Free?
  {
    var s0 := Apply(s, Activate(enable));
    if s0.lock.Free? then s0
    else Apply(Apply(Apply(s0, ClientStep), ClientStep), ClientStep)
  }

  function SetModeRun(s: Sensor, m: Mode): Sensor
    requires s.lock.Free?
  {
    Apply(Apply(s, SetMode(m)), ModeInterrupt)
  }

  /** The thread's reaction to a poll, up to the top of its loop. */
  function HandleRun(s: Sensor, node: bool): Sensor
    requires s.lock.Free? && s.pc.Woken?
  {
    var s0 := Apply(s, Handle(node));
    if s0.lock == Firing(0) then Apply(Apply(Apply(s0, FireStep), FireStep), FireStep)
    else if s0.lock == Firing(2) then Apply(s0, FireStep)
    else s0
  }

  /** The thread's whole turn from its poll to where it next lets go of the lock; `value` is what the node reads. */
  function PollTurn(s: Sensor, ok: bool, node: bool, value: bool): Sensor
    requires s.lock.Free? && CanStep(s, PollReturns(ok, node))
  {
    Apply(HandleRun(Apply(s, PollReturns(ok, node)), value), LoopStep)
  }

  // ---- what uninterrupted operations amount to ----

  /** Switching the sensor tells the hardware, the flag and the thread; asking for what it already is does nothing. */
  lemma ActivateEffect(s: Sensor, enable: bool)
    requires s.lock.Free?
    ensures ActivateRun(s, enable) ==
            if s.enabled == enable then s
            else s.(enabled := enable, hardware := Some(enable), pipe := s.pipe + 1, signalled := true,
                    activations := s.activations + if enable then 1 else 0)
  {
  }

  /** A mode change always interrupts the poll, and notifies the waiting thread when the mode is a new one. */
  lemma SetModeEffect(s: Sensor, m: Mode)
    requires s.lock.Free?
    ensures SetModeRun(s, m) == s.(mode := m, pipe := s.pipe + 1, signalled := s.signalled || s.mode != m)
  {
  }

  /** What the thread does with a poll: stop on a failure, else fire, else take a byte, else nothing. */
  lemma HandleEffect(s: Sensor, node: bool)
    requires s.lock.Free? && s.pc.Woken?
    ensures var fires := s.pc.ok && s.pc.node && node;
            HandleRun(s, node) ==
            s.(lock := Loop, pc := Running, stop := s.stop || !s.pc.ok,
               posted := s.posted + if fires then 1 else 0,
               enabled := s.enabled && !fires,
               hardware := if fires && s.enabled then Some(false) else s.hardware,
               pipe := if s.pc.ok && !fires && s.pc.pipe && s.pipe > 0 then s.pipe - 1 else s.pipe)
  {
  }

  /**
   A poll turn. An event is posted exactly when the poll succeeded with the node ready
   and the node then reads true, and that switches the sensor off. Otherwise a byte
   that is there is taken. Afterwards the thread is done if it was to stop, polls
   again if the sensor is on in normal mode, and waits otherwise.
   */
  lemma PollTurnEffect(s: Sensor, ok: bool, node: bool, value: bool)
    requires s.lock.Free? && CanStep(s, PollReturns(ok, node))
    ensures var s', fires := PollTurn(s, ok, node, value), ok && node && value;
            && s'.posted == s.posted + (if fires then 1 else 0)
            && s'.enabled == (s.enabled && !fires)
            && s'.hardware == (if fires && s.enabled then Some(false) else s.hardware)
            && s'.pipe == (if ok && !fires && s.pipe > 0 then s.pipe - 1 else s.pipe)
            && s'.stop == (s.stop || !ok)
            && s'.mode == s.mode && s'.owed == s.owed && s'.activations == s.activations && s'.lock.Free?
            && (s'.pc.Done? <==> s'.stop)
            && (s'.pc.Polling? <==> !s'.stop && s'.enabled && s.mode.Normal?)
            && (s'.pc.Polling? || s'.pc.Done? || s'.pc.Waiting?)
            && s'.signalled == (s.signalled && !s'.pc.Waiting?)
  {
    HandleEffect(Apply(s, PollReturns(ok, node)), value);
  }

  /**
   A waiting thread that gets the lock goes on exactly when it is to stop or the sensor
   is on in normal mode, and then is done or polls; otherwise it waits on, its notification used up.
   */
  lemma WakeUpEffect(s: Sensor)
    requires CanStep(s, WakeUp)
    ensures var woken, goesOn := Apply(s, WakeUp), s.stop || (s.enabled && s.mode.Normal?);
            && (woken.lock.Loop? <==> goesOn)
            && (!goesOn ==> woken == s.(signalled := false))
            && (goesOn ==> Apply(woken, LoopStep) == s.(signalled := false, pc := if s.stop then Done else Polling))
  {
  }

  // ---- events, counted by the polls that fire ----

  /** The thread, acting on its poll, is about to post an event. */
  predicate Fires(s: Sensor, step: Step) {
    step.Handle? && s.pc.Woken? && s.pc.ok && s.pc.node && step.node
  }

  function FiringPolls(s: Sensor, steps: seq<Step>): nat
    requires ValidRun(s, steps)
    decreases |steps|
  {
    if steps == [] then 0
    else (if Fires(s, steps[0]) then 1 else 0) + FiringPolls(Apply(s, steps[0]), steps[1..])
  }

  function Unposted(s: Sensor): nat {
    if s.lock.Firing? then 1 else 0
  }

  lemma StepPosts(s: Sensor, step: Step)
    requires LocksOk(s) && CanStep(s, step)
    ensures Apply(s, step).posted + Unposted(Apply(s, step))
         == s.posted + Unposted(s) + if Fires(s, step) then 1 else 0
  {
  }

  lemma {:induction false} RunPosts(s: Sensor, steps: seq<Step>)
    requires LocksOk(s) && ValidRun(s, steps)
    ensures Exec(s, steps).posted + Unposted(Exec(s, steps)) == s.posted + Unposted(s) + FiringPolls(s, steps)
    decreases |steps|
  {
    if steps != [] {
      StepPosts(s, steps[0]);
      StepLocks(s, steps[0]);
      RunPosts(Apply(s, steps[0]), steps[1..]);
    }
  }

  /**
   Every event has its poll, and every such poll its event: in every interleaving the
   events posted, plus the one about to be, are as many as the polls that came back
   well with the node ready and found that it reads true.
   */
  lemma EventsAreFiringPolls(steps: seq<Step>)
    requires ValidRun(START, steps)
    ensures var s := Exec(START, steps);
            s.posted + (if s.lock.Firing? then 1 else 0) == FiringPolls(START, steps)
  {
    RunPosts(START, steps);
  }

  class SysfsPollingOneShotSensor {
    var isEnabled: bool
    var mode: Mode
    var stopThread: bool
    var enableStream: Option<bool>   // the last value written to the enable node
    var waitPipe: nat                // bytes in the wait pipe
    var notified: bool               // the wait condition was notified
    var events: nat                  // events posted
    ghost var activations: nat

    ghost function View(lock: Lock, pc: Pc, owed: nat): Sensor
      reads this
    {
      Sensor(isEnabled, mode, stopThread, enableStream, waitPipe, owed, notified, lock, pc, activations, events)
    }

    constructor ()
      ensures View(Free, Waiting, 0) == START
    {
      isEnabled, mode, stopThread, enableStream := false, Normal, false, None;
      waitPipe, notified, events, activations := 0, false, 0, 0;
    }

    method WriteEnable(enable: bool)
      modifies this`enableStream
      ensures enableStream == Some(enable)
    {
      enableStream := Some(enable);
    }

    method InterruptPoll()
      modifies this`waitPipe
      ensures waitPipe == old(waitPipe) + 1
    {
      waitPipe := waitPipe + 1;
    }

    /** activate with the lock held; `notify` is false when the thread itself switches the sensor off. */
    method ActivateLocked(enable: bool, notify: bool)
      modifies this`enableStream, this`isEnabled, this`waitPipe, this`notified, this`activations
      ensures isEnabled == enable
      ensures enableStream == if old(isEnabled) != enable then Some(enable) else old(enableStream)
      ensures waitPipe == if old(isEnabled) != enable && notify then old(waitPipe) + 1 else old(waitPipe)
      ensures notified == (old(notified) || (old(isEnabled) != enable && notify))
      ensures activations == if enable && !old(isEnabled) then old(activations) + 1 else old(activations)
    {
      if isEnabled != enable {
        WriteEnable(enable);
        isEnabled := enable;
        if enable {
          activations := activations + 1;
        }
        if notify {
          InterruptPoll();
          notified := true;
        }
      }
    }

    method Activate(enable: bool, ghost pc: Pc, ghost owed: nat)
      modifies this
      ensures View(Free, pc, owed) == ActivateRun(old(View(Free, pc, owed)), enable)
    {
      ActivateLocked(enable, true);
    }

    method SetOperationMode(m: Mode, ghost pc: Pc, ghost owed: nat)
      modifies this
      ensures View(Free, pc, owed) == SetModeRun(old(View(Free, pc, owed)), m)
    {
      if mode != m {
        mode := m;
        notified := true;
      }
      InterruptPoll();
    }

    /** The body of the poll loop after poll returns: `pollOk`, the two ready flags, and what the node reads. */
    method HandlePoll(pollOk: bool, pipeReady: bool, nodeReady: bool, node: bool, ghost owed: nat)
      requires pipeReady ==> waitPipe > 0
      modifies this
      ensures View(Loop, Running, owed) ==
              HandleRun(old(View(Free, Woken(pollOk, pipeReady, nodeReady), owed)), node)
    {
      if !pollOk {
        stopThread := true;
        return;
      }
      if nodeReady && node {
        ActivateLocked(false, false);
        events := events + 1;
      } else if pipeReady {
        waitPipe := waitPipe - 1;
      }
    }
  }
}
