/** What the handler's callbacks do, as runs of the machine. */
module HandlerTasks {
  import opened MachineInts
  import opened DpaMessages
  import opened Wrappers
  import opened Routing
  import opened HandlerMachine
  import opened HandlerInvariant
  import HS = HandlerShutdown
  import T = TransactionMachine
  import TR = TransactionRuns
  import X = Transactions
  import Q = TaskQueueMachine

  /** Only transaction i and the log differ. */
  predicate OnlyTouches(h: Handler, h': Handler, i: nat) {
    i < |h.entries| == |h'.entries| && h' == h.(entries := h.entries[i := h'.entries[i]], log := h'.log)
  }

  // ---------- A push ----------

  /** executeDpaTransaction. */
  function PushSteps(request: Message, userTimeout: int32, defaultError: int): seq<Step> {
    [Push(request, userTimeout, defaultError), Step.Notification]
  }

  lemma PushIsRun(h: Handler, request: Message, userTimeout: int32, defaultError: int)
    requires !h.queue.owns && request.length > 0
    ensures CanRun(h, PushSteps(request, userTimeout, defaultError))
    ensures Run(h, PushSteps(request, userTimeout, defaultError))
            == h.(queue := Q.NotifyAll(Q.Push(h.queue, |h.entries|)), entries := h.entries + [NewEntry(h, request, userTimeout, defaultError)])
  {
    TwoSteps(h, Push(request, userTimeout, defaultError), Step.Notification);
  }

  // ---------- A received frame ----------

  /** ResponseMessageHandler. */
  function FrameSteps(bytes: seq<uint8>): seq<Step> {
    if RouteOf(bytes).ToPending? then [Frame(bytes), Deliver] else [Frame(bytes)]
  }

  /** Nothing else comes between the look at the pending transaction and the delivery. */
  lemma FrameIsRun(h: Handler, bytes: seq<uint8>)
    requires h.received.None?
    requires RouteOf(bytes).ToPending? ==>
               h.pending.Some? && TxnEnabled(h, h.pending.value, T.EReceive(RouteOf(bytes).message))
    ensures CanRun(h, FrameSteps(bytes))
    ensures Run(h, FrameSteps(bytes)) ==
            if RouteOf(bytes).ToPending? then Touch(h, h.pending.value, T.EReceive(RouteOf(bytes).message))
            else h.(asyncs := h.asyncs + if RouteOf(bytes).ToAsyncHandler? then [RouteOf(bytes).message] else [])
  {
    if RouteOf(bytes).ToPending? {
      TwoSteps(h, Frame(bytes), Deliver);
    } else {
      RunOne(h, Frame(bytes));
      assert h.asyncs + [] == h.asyncs;
    }
  }

  // ---------- The processing function ----------

  /** The messages that can come out of a frame and reach a transaction. */
  predicate IsDeliverable(e: T.Event) {
    e.EReceive? ==> IsRoutable(e.message) && Copy(e.message) == e.message
  }

  lemma DeliverableRoute(m: Message)
    requires IsRoutable(m) && Copy(m) == m
    ensures RouteOf(m.buffer[..m.length]) == ToPending(m)
  {
  }

  /** A critical section of another thread in transaction i. */
  function OtherSteps(i: nat, e: X.Interference): seq<Step> {
    if e.EAbort? then [UserAbort(i)] else FrameSteps(e.message.buffer[..e.message.length])
  }

  lemma OtherIsRun(h: Handler, i: nat, e: X.Interference)
    requires h.pending == Some(i) && h.received.None? && TxnEnabled(h, i, e) && IsDeliverable(e)
    ensures CanRun(h, OtherSteps(i, e)) && Run(h, OtherSteps(i, e)) == Touch(h, i, e)
  {
    if e.EAbort? {
      RunOne(h, UserAbort(i));
    } else {
      DeliverableRoute(e.message);
      FrameIsRun(h, e.message.buffer[..e.message.length]);
    }
  }

  function AllSteps(i: nat, others: seq<X.Interference>): seq<Step> {
    if others == [] then [] else AllSteps(i, others[..|others| - 1]) + OtherSteps(i, others[|others| - 1])
  }

  lemma {:induction false} OthersAreRun(h: Handler, i: nat, others: seq<X.Interference>)
    requires h.pending == Some(i) && h.received.None? && i < |h.entries|
    requires T.Inv(h.entries[i].txn) && T.Unlocked(h.entries[i].txn) && forall e :: e in others ==> IsDeliverable(e)
    ensures CanRun(h, AllSteps(i, others)) && OnlyTouches(h, Run(h, AllSteps(i, others)), i)
    ensures TR.CanRun(h.entries[i].txn, others)
    ensures Run(h, AllSteps(i, others)).entries[i].txn == TR.Run(h.entries[i].txn, others)
    decreases |others|
  {
    if others == [] {
    } else {
      OthersAreRun(h, i, others[..|others| - 1]);
      OneMoreIsRun(h, i, others);
    }
  }

  lemma OneMoreIsRun(h: Handler, i: nat, others: seq<X.Interference>)
    requires h.pending == Some(i) && h.received.None? && i < |h.entries| && others != []
    requires T.Inv(h.entries[i].txn) && T.Unlocked(h.entries[i].txn) && IsDeliverable(others[|others| - 1])
    requires var before := others[..|others| - 1];
             && CanRun(h, AllSteps(i, before)) && OnlyTouches(h, Run(h, AllSteps(i, before)), i)
             && TR.CanRun(h.entries[i].txn, before)
             && Run(h, AllSteps(i, before)).entries[i].txn == TR.Run(h.entries[i].txn, before)
    ensures CanRun(h, AllSteps(i, others)) && OnlyTouches(h, Run(h, AllSteps(i, others)), i)
    ensures TR.CanRun(h.entries[i].txn, others)
    ensures Run(h, AllSteps(i, others)).entries[i].txn == TR.Run(h.entries[i].txn, others)
  {
    var before, e := others[..|others| - 1], others[|others| - 1];
    var h' := Run(h, AllSteps(i, before));
    X.InterferenceRuns(h.entries[i].txn, before);
    X.InterferenceRuns(h.entries[i].txn, others);
    OtherIsRun(h', i, e);
    RunConcat(h, AllSteps(i, before), OtherSteps(i, e));
    TouchOnlyTouches(h', i, e);
    TouchesCompose(h, h', Touch(h', i, e), i);
  }

  lemma TouchOnlyTouches(h: Handler, i: nat, e: T.Event)
    requires TxnEnabled(h, i, e)
    ensures OnlyTouches(h, Touch(h, i, e), i) && Touch(h, i, e).entries[i].txn == T.Apply(h.entries[i].txn, e)
  {
  }

  /** Transaction i is executed. */
  predicate Executes(h: Handler, i: nat) {
    && InTask(h) && h.queue.pc.task == i && h.task.Executing? && h.pending == Some(i) && h.received.None?
    && i < |h.entries| && T.Inv(h.entries[i].txn)
  }

  function SlotSteps(t: T.Txn, i: nat, slot: X.Slot): seq<Step>
    requires t.phase.Looping?
  {
    if t.phase.wait == 0 then [Wake(false)] else AllSteps(i, slot.others) + [Wake(slot.expired)]
  }

  lemma WakeTouches(h: Handler, i: nat, expired: bool)
    requires Executes(h, i) && T.Enabled(h.entries[i].txn, T.EWake(expired))
    ensures Enabled(h, Wake(expired)) && OnlyTouches(h, Next(h, Wake(expired)), i)
    ensures Next(h, Wake(expired)).entries[i].txn == T.Apply(h.entries[i].txn, T.EWake(expired))
  {
  }

  lemma TouchesCompose(h: Handler, h': Handler, h'': Handler, i: nat)
    requires OnlyTouches(h, h', i) && OnlyTouches(h', h'', i)
    ensures OnlyTouches(h, h'', i)
  {
  }

  lemma SlotIsRun(h: Handler, i: nat, slot: X.Slot)
    requires Executes(h, i) && h.entries[i].txn.phase.Looping? && forall e :: e in slot.others ==> IsDeliverable(e)
    ensures CanRun(h, SlotSteps(h.entries[i].txn, i, slot))
    ensures var h' := Run(h, SlotSteps(h.entries[i].txn, i, slot));
            OnlyTouches(h, h', i) && h'.entries[i].txn == X.Iteration(h.entries[i].txn, slot)
  {
    if h.entries[i].txn.phase.wait == 0 {
      WakeTouches(h, i, false);
      RunOne(h, Wake(false));
    } else {
      X.InterferenceRuns(h.entries[i].txn, slot.others);
      OthersAreRun(h, i, slot.others);
      var h' := Run(h, AllSteps(i, slot.others));
      WakeTouches(h', i, slot.expired);
      RunSnoc(h, AllSteps(i, slot.others), Wake(slot.expired));
      TouchesCompose(h, h', Next(h', Wake(slot.expired)), i);
    }
  }

  /** The loop of execute(), as far as the schedule reaches. */
  function LoopSteps(t: T.Txn, i: nat, schedule: seq<X.Slot>): seq<Step>
    requires T.Inv(t)
    decreases |schedule|
  {
    if !t.phase.Looping? || schedule == [] then []
    else SlotSteps(t, i, schedule[0]) + LoopSteps(X.Iteration(t, schedule[0]), i, schedule[1..])
  }

  predicate IsFeasible(schedule: seq<X.Slot>) {
    forall slot, e :: slot in schedule && e in slot.others ==> IsDeliverable(e)
  }

  lemma {:induction false} LoopIsRun(h: Handler, i: nat, schedule: seq<X.Slot>)
    requires Executes(h, i) && IsFeasible(schedule)
    ensures CanRun(h, LoopSteps(h.entries[i].txn, i, schedule))
    ensures var h' := Run(h, LoopSteps(h.entries[i].txn, i, schedule));
            OnlyTouches(h, h', i) && h'.entries[i].txn == X.Iterate(h.entries[i].txn, schedule)
    decreases |schedule|
  {
    var t := h.entries[i].txn;
    if !t.phase.Looping? || schedule == [] {
    } else {
      var first := SlotSteps(t, i, schedule[0]);
      SlotIsRun(h, i, schedule[0]);
      LoopIsRun(Run(h, first), i, schedule[1..]);
      RunConcat(h, first, LoopSteps(X.Iteration(t, schedule[0]), i, schedule[1..]));
      TouchesCompose(h, Run(h, first), Run(h, LoopSteps(t, i, schedule)), i);
    }
  }

  /** The worker runs a transaction that is not started. */
  predicate IsAboutToStart(h: Handler) {
    && InTask(h) && h.queue.pc.task < |h.entries|
    && T.Inv(h.entries[h.queue.pc.task].txn) && h.entries[h.queue.pc.task].txn.phase.NotStarted?
  }

  /** The error that the running transaction is started with. */
  function TaskError(h: Handler): int
    requires IsAboutToStart(h)
  {
    ErrorForSize(|h.queue.tasks|, h.entries[h.queue.pc.task].txn.defaultError)
  }

  /** The processing function: it makes the transaction pending, looks at the queue and executes. */
  function TaskSteps(h: Handler, channel: CallEnd, schedule: seq<X.Slot>): seq<Step>
    requires IsAboutToStart(h)
  {
    var id := h.queue.pc.task;
    [Assign, ReadSize] + ([Execute(channel)] + LoopSteps(Started(h, channel), id, schedule))
  }

  function Started(h: Handler, channel: CallEnd): (t: T.Txn)
    requires IsAboutToStart(h)
    ensures T.Inv(t) && t == T.Start(h.entries[h.queue.pc.task].txn, TaskError(h), SendRequest(channel).ThrowsStd?)
  {
    T.Apply(h.entries[h.queue.pc.task].txn, T.EStart(TaskError(h), SendRequest(channel).ThrowsStd?))
  }

  /** The handler between the look at the queue and the call of execute(). */
  function Judged(h: Handler): Handler
    requires InTask(h)
  {
    var i := h.queue.pc.task;
    h.(pending := Some(i), task := Sized(|h.queue.tasks|), younger := h.younger[i := |h.queue.tasks|])
  }

  lemma JudgedIsRun(h: Handler)
    requires InTask(h) && h.task.Called?
    ensures CanRun(h, [Assign, ReadSize]) && Run(h, [Assign, ReadSize]) == Judged(h)
  {
    TwoSteps(h, Assign, ReadSize);
  }

  lemma StartTouches(h: Handler, channel: CallEnd)
    requires IsAboutToStart(h) && h.task.Sized? && h.task.size == |h.queue.tasks|
    requires !SendRequest(channel).ThrowsOther?
    ensures Enabled(h, Execute(channel)) && OnlyTouches(h.(task := Executing), Next(h, Execute(channel)), h.queue.pc.task)
    ensures Next(h, Execute(channel)).entries[h.queue.pc.task].txn == Started(h, channel)
  {
  }

  /** Main result: whatever other threads do to the running transaction meanwhile, the machine has a run that does to
      it what the processing function does (judging it by the queue, starting it with the error that follows, and
      iterating the loop along the schedule) and that changes no other transaction. */
  lemma TaskIsRun(h: Handler, channel: CallEnd, schedule: seq<X.Slot>)
    requires IsAboutToStart(h) && h.task.Called? && h.received.None?
    requires !SendRequest(channel).ThrowsOther? && IsFeasible(schedule)
    ensures CanRun(h, TaskSteps(h, channel, schedule))
    ensures var i, h' := h.queue.pc.task, Run(h, TaskSteps(h, channel, schedule));
            && |h'.entries| == |h.entries|
            && h' == h.(pending := Some(i), task := Executing, younger := h.younger[i := |h.queue.tasks|],
                        entries := h.entries[i := h'.entries[i]], log := h'.log)
            && h'.entries[i].txn == X.Iterate(Started(h, channel), schedule)
  {
    var i, h2 := h.queue.pc.task, Judged(h);
    var h3 := Next(h2, Execute(channel));
    JudgedIsRun(h);
    StartTouches(h2, channel);
    LoopIsRun(h3, i, schedule);
    RunCons(h2, Execute(channel), LoopSteps(h3.entries[i].txn, i, schedule));
    TouchesCompose(h2.(task := Executing), h3, Run(h3, LoopSteps(h3.entries[i].txn, i, schedule)), i);
    RunConcat(h, [Assign, ReadSize], [Execute(channel)] + LoopSteps(h3.entries[i].txn, i, schedule));
  }

  // ---------- The destructor ----------

  /** The destructor's two critical sections, with whatever happens between them. */
  function DestructorSteps(h: Handler, mid: seq<Step>): seq<Step> {
    (if h.pending.Some? then [UserAbort(h.pending.value)] else []) + mid + [Stop, Step.Notification]
  }

  lemma DestructorIsRun(h: Handler, mid: seq<Step>)
    requires h.pending.Some? ==> TxnEnabled(h, h.pending.value, T.EAbort)
    requires CanRun(HS.AfterAbort(h), mid) && !Run(HS.AfterAbort(h), mid).queue.owns
    ensures HS.AfterAbort(h) == if h.pending.Some? then Touch(h, h.pending.value, T.EAbort) else h
    ensures CanRun(h, DestructorSteps(h, mid))
    ensures var h' := Run(HS.AfterAbort(h), mid);
            Run(h, DestructorSteps(h, mid)) == h'.(queue := Q.NotifyAll(Q.Stop(h'.queue)))
  {
    StopIsRun(HS.AfterAbort(h), mid);
    if h.pending.Some? {
      RunCons(h, UserAbort(h.pending.value), mid + [Stop, Step.Notification]);
      assert [UserAbort(h.pending.value)] + (mid + [Stop, Step.Notification]) == DestructorSteps(h, mid);
    } else {
      assert mid + [Stop, Step.Notification] == DestructorSteps(h, mid);
    }
  }

  lemma StopIsRun(h: Handler, mid: seq<Step>)
    requires CanRun(h, mid) && !Run(h, mid).queue.owns
    ensures CanRun(h, mid + [Stop, Step.Notification])
    ensures Run(h, mid + [Stop, Step.Notification]) == Run(h, mid).(queue := Q.NotifyAll(Q.Stop(Run(h, mid).queue)))
  {
    TwoSteps(Run(h, mid), Stop, Step.Notification);
    RunConcat(h, mid, [Stop, Step.Notification]);
  }
}
