/**
 The batcher's methods, called one after another, stay inside the protocol: each
 keeps the protocol's invariant, and with it every guarantee of BatcherTheorems.
 */
module BatcherCalls {
  import opened CaptureTypes
  import opened InflightBatchModel
  import opened InflightBatchProofs
  import opened BatcherProtocol
  import opened BatcherInvariants
  import opened BatcherConservation
  import opened BatcherTheorems
  import opened BatcherCompletion
  import opened ResultBatcher

  /** Forgetting threads that are idle keeps the invariant. */
  lemma IdleInv(st: State)
    requires Inv(st) && st.lock.None? && st.PcOf(ME).Idle? && forall t :: t in st.pcs ==> t == ME
    ensures Inv(st.(pcs := map[]))
  {
    var st' := st.(pcs := map[]);
    assert forall t: Thread :: st'.PcOf(t).Idle? && st.PcOf(t).Idle?;
    assert FrontMarked(st') == FrontMarked(st);
    forall c
      ensures Conserved(st', c)
    {
      assert Conserved(st, c);
      assert Parts(st', c) == Parts(st, c);
    }
  }

  lemma CheckRunInv(st: State)
    requires Inv(st) && Enabled(st, Mark(ME)) && st.lock.None? && forall t :: t in st.pcs ==> t == ME
    ensures Inv(CheckRun(st).(pcs := map[]))
  {
    StepInv(st, Mark(ME));
    var marked := Apply(st, Mark(ME));
    if marked.PcOf(ME).Popping? {
      StepInv(marked, Pop(ME));
    }
    IdleInv(CheckRun(st));
  }

  /** Handling a shutter or a result that comes in the HAL's order keeps every guarantee. */
  lemma HandleRunInv(st: State, ev: Event)
    requires Inv(st) && Quiescent(st) && (ev.ShutterEvent? ==> ev.msg.Shutter?) && HalInOrder(st, ev)
    ensures Inv(HandleRun(st, ev))
  {
    LookedInv(st, ev);
    ActedInv(Apply(st, Lookup(ME, ev)));
  }

  lemma LookedInv(st: State, ev: Event)
    requires Inv(st) && Quiescent(st) && (ev.ShutterEvent? ==> ev.msg.Shutter?) && HalInOrder(st, ev)
    ensures Inv(Apply(st, Lookup(ME, ev))) && CanStep(Apply(st, Lookup(ME, ev)), Act(ME))
  {
    StepInv(st, Lookup(ME, ev));
    FoundInRange(st, ev.Frame());
    SameHistory(st, Apply(st, Lookup(ME, ev)), ev);
  }

  lemma ActedInv(looked: State)
    requires Inv(looked) && CanStep(looked, Act(ME)) && looked.LockFree() && forall t :: t in looked.pcs ==> t == ME
    ensures var acted := ActOn(looked, ME);
            Inv((if acted.PcOf(ME).Checking? then CheckRun(acted) else acted).(pcs := map[]))
  {
    StepInv(looked, Act(ME));
    var acted := ActOn(looked, ME);
    if acted.PcOf(ME).Checking? {
      CheckRunInv(acted);
    } else {
      IdleInv(acted);
    }
  }

  lemma SameHistory(st: State, st': State, ev: Event)
    requires HalInOrder(st, ev)
    requires st'.acted == st.acted && st'.batches == st.batches
    requires st'.streams == st.streams && st'.numPartial == st.numPartial
    ensures HalInOrder(st', ev)
  {
    match ev
    case ShutterEvent(m) =>
    case ResultEvent(r) =>
      forall s | s in st'.streams && BuffersOf(r.outputBuffers, s) != []
        ensures BufferInOrder(st', r.frameNumber, s)
      {
        assert BufferInOrder(st, r.frameNumber, s);
      }
  }

  /** `st` with this thread about to flush `left` batches. */
  ghost function WithLeft(st: State, err: NotifyMsg, left: nat): State {
    st.(pcs := map[ME := Flushing(err, left)], lock := Some(ME))
  }

  /** One round of the flushing loop is two steps of the protocol. */
  lemma FlushTwoSteps(st: State, err: NotifyMsg, left: nat)
    requires DequeOk(st.batches, st.deque) && st.deque != []
    ensures PopFlushedOn(FlushFrontOn(WithLeft(st, err, left + 1), ME), ME) == WithLeft(Flushed(st), err, left)
  {
    var o := Flush(st.batches[st.deque[0]], st.streams, st.numPartial);
    FlushHalf(st, err, left, o);
    PopHalf(HalfFlushed(st, err, left, o), err, left);
  }

  /** The state with the front batch flushed and not yet popped. */
  ghost function HalfFlushed(st: State, err: NotifyMsg, left: nat, o: Outcome): State
    requires DequeOk(st.batches, st.deque) && st.deque != []
  {
    State(st.batches[st.deque[0] := o.batch], st.deque, Some(ME), map[ME := FlushPopping(err, left)],
          st.streams, st.numPartial, st.log + o.calls, st.acted)
  }

  lemma FlushHalf(st: State, err: NotifyMsg, left: nat, o: Outcome)
    requires DequeOk(st.batches, st.deque) && st.deque != []
    requires o == Flush(st.batches[st.deque[0]], st.streams, st.numPartial)
    ensures FlushFrontOn(WithLeft(st, err, left + 1), ME) == HalfFlushed(st, err, left, o)
  {
    assert FlushFrontOn(WithLeft(st, err, left + 1), ME).pcs == map[ME := FlushPopping(err, left)];
  }

  lemma PopHalf(st: State, err: NotifyMsg, left: nat)
    requires DequeOk(st.batches, st.deque) && st.deque != [] && st.pcs == map[ME := FlushPopping(err, left)]
    ensures PopFlushedOn(st, ME) == st.(pcs := map[ME := Flushing(err, left)], deque := st.deque[1..])
  {
  }

  lemma TwoStepsInv(now: State)
    requires Inv(now) && CanStep(now, FlushFront(ME))
    ensures Enabled(FlushFrontOn(now, ME), PopFlushed(ME)) && Inv(PopFlushedOn(FlushFrontOn(now, ME), ME))
  {
    StepInv(now, FlushFront(ME));
    StepInv(FlushFrontOn(now, ME), PopFlushed(ME));
  }

  lemma FlushStepInv(st: State, err: NotifyMsg, left: nat)
    requires DequeOk(st.batches, st.deque) && st.deque != [] && Inv(WithLeft(st, err, left + 1))
    ensures Inv(WithLeft(Flushed(st), err, left))
  {
    TwoStepsInv(WithLeft(st, err, left + 1));
    FlushTwoSteps(st, err, left);
  }

  lemma EndedInv(st: State, err: NotifyMsg)
    requires Inv(WithLeft(st, err, 0)) && st.pcs == map[] && st.lock.None?
    ensures Inv(st.(log := st.log + [Notified([err])]))
  {
    var now := WithLeft(st, err, 0);
    StepInv(now, EndError(ME));
    var ended := EndErrorOn(now, ME);
    IdleInv(ended);
    assert ended.(pcs := map[]) == st.(log := st.log + [Notified([err])]);
  }

  /** The rest of the flushing loop, and the error after it. */
  lemma {:induction false} FlushPathInv(path: seq<State>, st: State, err: NotifyMsg, count: nat, last: State)
    requires FlushPath(path, st, count, last) && Inv(WithLeft(st, err, count)) && st.pcs == map[] && st.lock.None?
    ensures Inv(last.(log := last.log + [Notified([err])]))
    decreases count
  {
    if count == 0 {
      EndedInv(st, err);
    } else {
      assert FlushesAt(path, 0);
      FlushStepInv(st, err, count - 1);
      PathRest(path, st, count, last);
      FlushPathInv(path[1..], path[1], err, count - 1, last);
    }
  }

  lemma PathRest(path: seq<State>, st: State, count: nat, last: State)
    requires FlushPath(path, st, count, last) && count > 0
    ensures FlushPath(path[1..], path[1], count - 1, last)
  {
    forall i | 0 <= i < count - 1
      ensures FlushesAt(path[1..], i)
    {
      assert FlushesAt(path, i + 1);
    }
  }

  lemma LoneErrorInv(st: State, err: NotifyMsg)
    requires Inv(st) && Quiescent(st) && err.Error? && GetBatch(st.batches, st.deque, err.frameNumber).None?
    ensures Inv(st.(log := st.log + [Notified([err])]))
  {
    StepInv(st, LookupError(ME, err));
    var found := LookupErrorOn(st, ME, err);
    StepInv(found, SendError(ME));
    IdleInv(SendErrorOn(found, ME));
    assert SendErrorOn(found, ME).(pcs := map[]) == st.(log := st.log + [Notified([err])]);
  }

  lemma FoundErrorInv(st: State, err: NotifyMsg, i: nat)
    requires Inv(st) && Quiescent(st) && err.Error? && GetBatch(st.batches, st.deque, err.frameNumber) == Some(i)
    ensures Inv(WithLeft(st, err, i + 1))
  {
    var found := LookupErrorOn(st, ME, err);
    StepInv(st, LookupError(ME, err));
    FoundIsLooked(st, err, i);
    BeginInv(found, err, i);
  }

  lemma FoundIsLooked(st: State, err: NotifyMsg, i: nat)
    requires Quiescent(st) && GetBatch(st.batches, st.deque, err.frameNumber) == Some(i)
    ensures LookupErrorOn(st, ME, err) == st.(pcs := map[ME := ErrorFound(err, i, Head(st))])
    ensures WithLeft(LookupErrorOn(st, ME, err), err, i + 1) == WithLeft(st, err, i + 1)
  {
  }

  lemma BeginInv(st: State, err: NotifyMsg, i: nat)
    requires Inv(st) && DequeOk(st.batches, st.deque) && st.lock.None?
    requires st.pcs == map[ME := ErrorFound(err, i, Head(st))]
    ensures Inv(WithLeft(st, err, i + 1))
  {
    StepInv(st, BeginError(ME));
    assert BeginErrorOn(st, ME) == WithLeft(st, err, i + 1);
  }

  /**
   Handling an error keeps every guarantee: it is its lookup, and then sending it
   alone or the flushing for it, which are steps of the protocol.
   */
  lemma ErrorRunInv(st: State, err: NotifyMsg, st': State)
    requires Inv(st) && Quiescent(st) && err.Error? && ErrorRun(st, err, st')
    ensures Inv(st')
  {
    match GetBatch(st.batches, st.deque, err.frameNumber)
    case None => LoneErrorInv(st, err);
    case Some(i) =>
      var path: seq<State> :| FlushesThenSends(path, st, i, err, st');
      FoundErrorInv(st, err, i);
      FlushPathInv(path, st, err, i + 1, path[i + 1]);
  }

  // ---- what each call leaves ----

  /** The event is of the last frame of a batch in flight. */
  ghost predicate EndsLive(st: State, ev: Event) {
    exists id :: 0 <= id < |st.batches| && !st.batches[id].removed && st.batches[id].lastFrame == ev.Frame()
  }

  lemma FoundLive(st: State, ev: Event)
    requires Inv(st) && Quiescent(st)
    ensures Found(st, ev.Frame()).Some? ==>
              Found(st, ev.Frame()).value < |st.batches|
              && !st.batches[Found(st, ev.Frame()).value].removed
              && st.batches[Found(st, ev.Frame()).value].Contains(ev.Frame())
              && (EndsLive(st, ev) <==> ev.Frame() == st.batches[Found(st, ev.Frame()).value].lastFrame)
    ensures Found(st, ev.Frame()).None? ==>
              forall id :: 0 <= id < |st.batches| && st.batches[id].Contains(ev.Frame()) ==> st.batches[id].removed
  {
    var found := Found(st, ev.Frame());
    FoundIs(st, ev.Frame());
    if found.Some? {
      FoundInDeque(st, ev.Frame(), found.value);
      EndsOwn(st, ev, found.value);
    }
  }

  lemma EndsOwn(st: State, ev: Event, id: nat)
    requires Inv(st) && id < |st.batches| && !st.batches[id].removed && st.batches[id].Contains(ev.Frame())
    ensures EndsLive(st, ev) <==> ev.Frame() == st.batches[id].lastFrame
  {
    if EndsLive(st, ev) {
      var other: nat :| other < |st.batches| && !st.batches[other].removed && st.batches[other].lastFrame == ev.Frame();
      assert st.batches[other].Contains(ev.Frame()) && other == id;
    }
  }

  lemma FoundInDeque(st: State, frame: nat, id: nat)
    requires Inv(st) && Quiescent(st) && Found(st, frame) == Some(id)
    ensures id < |st.batches| && !st.batches[id].removed
  {
    GetBatchInRange(st, frame);
    InDequeIffNotRemoved(st, id);
  }

  lemma QueueingReleases(st: State, ev: Event)
    requires Inv(st) && AllReleased(st) && Quiescent(st) && HalInOrder(st, ev) && (ev.ShutterEvent? ==> ev.msg.Shutter?)
    requires Found(st, ev.Frame()).Some? && Found(st, ev.Frame()).value < |st.batches|
    requires !st.batches[Found(st, ev.Frame()).value].removed
    ensures var q := Queueing(st, ev, Found(st, ev.Frame()).value);
            AllReleased(q) && Inv(q) && Quiescent(q)
  {
    var looked := Apply(st, Lookup(ME, ev));
    LookedInv(st, ev);
    StepReleases(st, Lookup(ME, ev));
    StepInv(looked, Act(ME));
    StepReleases(looked, Act(ME));
    QueueingIs(st, ev);
    var acted := ActOn(looked, ME);
    if acted.PcOf(ME).Idle? {
      IdleInv(acted);
    } else {
      CheckingInv(acted);
    }
  }

  lemma QueueingIs(st: State, ev: Event)
    requires Quiescent(st) && Found(st, ev.Frame()).Some? && Found(st, ev.Frame()).value < |st.batches|
    requires !st.batches[Found(st, ev.Frame()).value].removed
    ensures var acted := ActOn(Apply(st, Lookup(ME, ev)), ME);
            && acted.(pcs := map[]) == Queueing(st, ev, Found(st, ev.Frame()).value)
            && (forall t :: t in acted.pcs ==> t == ME) && acted.lock.None?
            && (acted.PcOf(ME).Idle? || acted.PcOf(ME).Checking?)
  {
  }

  /** So does forgetting a thread that was about to check. */
  lemma CheckingInv(st: State)
    requires Inv(st) && st.lock.None? && st.PcOf(ME).Checking? && forall t :: t in st.pcs ==> t == ME
    ensures Inv(st.(pcs := map[]))
  {
    var st' := st.(pcs := map[]);
    assert forall t: Thread :: t != ME ==> st'.PcOf(t).Idle? && st.PcOf(t).Idle?;
    assert FrontMarked(st') == FrontMarked(st);
    forall c
      ensures Conserved(st', c)
    {
      assert Conserved(st, c);
      assert Parts(st', c) == Parts(st, c);
    }
  }

  /**
   What handling a shutter or a result leaves, uninterrupted. It is added to what the HAL
   handed over; outside every batch in flight it goes straight up; and the front batch
   leaves the deque if and only if the event was of a last frame and the front batch is
   now finished.
   */
  lemma HandleRunLeaves(st: State, ev: Event)
    requires Inv(st) && AllReleased(st) && Quiescent(st) && (ev.ShutterEvent? ==> ev.msg.Shutter?) && HalInOrder(st, ev)
    ensures var st' := HandleRun(st, ev);
            && st'.acted == st.acted + [ev] && |st'.batches| == |st.batches|
            && ((forall id :: 0 <= id < |st.batches| && st.batches[id].Contains(ev.Frame()) ==> st.batches[id].removed)
                ==> st'.log == st.log + [Direct(ev)])
            && st'.deque ==
               (if EndsLive(st, ev) && st.deque != []
                   && Finished(st'.acted, st'.batches[st.deque[0]], st'.numPartial)
                then st.deque[1..] else st.deque)
  {
    FoundLive(st, ev);
    if Found(st, ev.Frame()).None? {
      HandleRunDirect(st, ev);
      assert !EndsLive(st, ev);
    } else {
      HandleRunQueues(st, ev);
      QueueingReleases(st, ev);
      FinishLeaves(Queueing(st, ev, Found(st, ev.Frame()).value), EndsLive(st, ev));
    }
  }

  lemma FinishLeaves(st: State, last: bool)
    requires Inv(st) && AllReleased(st) && Quiescent(st)
    ensures var st' := FinishRun(st, last);
            && st'.acted == st.acted && st'.log == st.log && |st'.batches| == |st.batches|
            && st'.deque == (if last && st.deque != []
                                && Finished(st'.acted, st'.batches[st.deque[0]], st'.numPartial)
                             then st.deque[1..] else st.deque)
  {
    CheckRunIs(st);
    if st.deque != [] {
      assert !st.batches[st.deque[0]].removed;
      CompleteIff(st, st.deque[0]);
    }
  }

  lemma {:induction false} PathLeaves(path: seq<State>, st: State, count: nat, last: State)
    requires FlushPath(path, st, count, last)
    ensures count <= |st.deque| && last.deque == st.deque[count..] && last.acted == st.acted
    decreases count
  {
    if count > 0 {
      assert FlushesAt(path, 0);
      PathRest(path, st, count, last);
      PathLeaves(path[1..], path[1], count - 1, last);
    }
  }

  /**
   What an error leaves, uninterrupted. It is the last call made. If a batch in the
   deque contains its frame, that batch and all before it are gone, and those after it
   stay; otherwise the deque is as it was, and nothing else was sent.
   */
  lemma ErrorRunLeaves(st: State, err: NotifyMsg, st': State)
    requires Inv(st) && Quiescent(st) && err.Error? && ErrorRun(st, err, st')
    ensures EndsWith(st'.log, Notified([err])) && st'.acted == st.acted
    ensures forall i :: 0 <= i < |st.deque| && st.batches[st.deque[i]].Contains(err.frameNumber) ==>
              st'.deque == st.deque[i + 1..]
    ensures (forall i :: 0 <= i < |st.deque| ==> !st.batches[st.deque[i]].Contains(err.frameNumber)) ==>
              st'.deque == st.deque && st'.log == st.log + [Notified([err])]
  {
    GetBatchExact(st, err.frameNumber);
    match GetBatch(st.batches, st.deque, err.frameNumber)
    case None =>
    case Some(i) =>
      FoundErrorLeaves(st, err, i, st');
      forall j | 0 <= j < |st.deque| && st.batches[st.deque[j]].Contains(err.frameNumber)
        ensures j == i
      {
        assert GetBatch(st.batches, st.deque, err.frameNumber) == Some(j);
      }
  }

  lemma FoundErrorLeaves(st: State, err: NotifyMsg, i: nat, st': State)
    requires Quiescent(st) && ErrorRun(st, err, st')
    requires GetBatch(st.batches, st.deque, err.frameNumber) == Some(i)
    ensures EndsWith(st'.log, Notified([err])) && st'.acted == st.acted
    ensures i + 1 <= |st.deque| && st'.deque == st.deque[i + 1..]
  {
    var path: seq<State> :| FlushesThenSends(path, st, i, err, st');
    PathLeaves(path, st, i + 1, path[i + 1]);
  }
}
