/** Runs in which the handler departs from what its design promises. */
module HandlerWitnesses {
  import opened MachineInts
  import opened DpaMessages
  import opened Wrappers
  import opened Timing
  import opened Routing
  import opened TransactionResults
  import opened HandlerMachine
  import opened HandlerInvariant
  import opened HandlerHangs
  import opened HandlerProgress
  import opened HandlerFates
  import opened HandlerShutdown
  import T = TransactionMachine
  import TD = TransactionDurations
  import Q = TaskQueueMachine

  /** One statement of the worker after another. */
  lemma {:induction false} WorkersTurn(h0: Handler, ss: seq<Step>, q: Q.Queue<nat>, n: nat) returns (ss': seq<Step>)
    requires CanRun(h0, ss) && Run(h0, ss).queue == q && Run(h0, ss).task == Called && Works(q, n)
    ensures CanRun(h0, ss') && Run(h0, ss') == Run(h0, ss).(queue := Worked(q, n))
    decreases n
  {
    if n == 0 {
      ss' := ss;
    } else {
      RunSnoc(h0, ss, Worker);
      ss' := WorkersTurn(h0, ss + [Worker], Q.Work(q), n - 1);
    }
  }

  /** The worker can execute n statements outside the processing function, one after the other. */
  predicate Works(q: Q.Queue<nat>, n: nat)
    decreases n
  {
    n == 0 || (Q.Enabled(q, Q.LWork) && !q.pc.Running? && Works(Q.Work(q), n - 1))
  }

  function Worked(q: Q.Queue<nat>, n: nat): Q.Queue<nat>
    decreases n
  {
    if n == 0 then q else Worked(Q.Work(q), n - 1)
  }

  /** From the outer test to the first task. */
  lemma UpToTheTask(q: Q.Queue<nat>)
    requires q.pc.Outer? && q.runWorkerThread && q.taskPushed && q.tasks != []
    ensures Works(q, 8)
    ensures Worked(q, 8) == q.(pc := Q.Running(q.tasks[0]), owns := false, taskPushed := false, tasks := q.tasks[1..],
                               misused := q.misused || q.owns)
  {
    var test := Q.Work(Q.Work(q));
    var inner := Q.Work(Q.Work(test));
    var unlock := Q.Work(Q.Work(inner));
    var running := Q.Work(Q.Work(unlock));
    assert Works(unlock, 2) && Worked(unlock, 2) == running;
    assert Works(inner, 4) && Worked(inner, 4) == running;
    assert Works(test, 6) && Worked(test, 6) == running;
  }

  /** From a new handler to a first transaction that is pending and not started. */
  lemma FirstIsAssigned(h0: Handler, request: Message, userTimeout: int32) returns (ss: seq<Step>)
    requires IsNewHandler(h0) && request.length > 0
    ensures CanRun(h0, ss)
    ensures var h := Run(h0, ss);
            && h.entries == [NewEntry(h0, request, userTimeout, TRN_OK)] && h.pending == Some(0)
            && InTask(h) && h.queue.pc.task == 0 && h.task.Assigned? && !h.queue.owns && h.queue.tasks == [] && h.received.None?
  {
    ss := [];
    RunSnoc(h0, ss, Push(request, userTimeout, TRN_OK));
    ss := ss + [Push(request, userTimeout, TRN_OK)];
    var q := Run(h0, ss).queue;
    UpToTheTask(q);
    ss := WorkersTurn(h0, ss, q, 8);
    RunSnoc(h0, ss, Assign);
    ss := ss + [Assign];
  }

  /** A run in which the abort of the destructor is lost: it finds the first transaction pending and not started.
      Nothing but a response or another abort ends that transaction then, so the worker is never joined. */
  lemma LostShutdown(h0: Handler, request: Message, userTimeout: int32) returns (ss: seq<Step>)
    requires IsNewHandler(h0) && request.length > 0 && GrantsInfinite(Copy(request), userTimeout)
    ensures CanRun(h0, ss) && Run(h0, ss).pending == Some(0)
    ensures CanRun(Run(h0, ss), [UserAbort(0), Stop, ReadSize, Execute(Returns)])
    ensures HangsAt(Run(Run(h0, ss), [UserAbort(0), Stop, ReadSize, Execute(Returns)]), 0)
  {
    ss := FirstIsAssigned(h0, request, userTimeout);
    var h := Run(h0, ss);
    NewHandlerInv(h0);
    InvHolds(h0, ss);
    assert h.entries[0] in h.entries && EntryInv(h.entries[0]);
    FirstIsLost(h);
  }

  lemma FirstIsLost(h: Handler)
    requires |h.entries| == 1 && h.pending == Some(0) && EntryInv(h.entries[0])
    requires InTask(h) && h.queue.pc.task == 0 && h.task.Assigned? && !h.queue.owns && h.queue.tasks == []
    requires var t := h.entries[0].txn; t.infinite && t.phase.NotStarted? && t.defaultError == TRN_OK
    ensures CanRun(h, [UserAbort(0), Stop, ReadSize, Execute(Returns)])
    ensures HangsAt(Run(h, [UserAbort(0), Stop, ReadSize, Execute(Returns)]), 0)
  {
    var h3 := h.(entries := [Extended(h.entries[0], T.EAbort)], queue := Q.Stop(h.queue), task := Sized(0), younger := h.younger[0 := 0]);
    AbortStopSize(h);
    StartHangs(h3);
    FourSteps(h, UserAbort(0), Stop, ReadSize, Execute(Returns));
  }

  lemma AbortStopSize(h: Handler)
    requires |h.entries| == 1 && h.pending == Some(0) && EntryInv(h.entries[0]) && h.entries[0].txn.phase.NotStarted?
    requires InTask(h) && h.queue.pc.task == 0 && h.task.Assigned? && !h.queue.owns && h.queue.tasks == []
    ensures Enabled(h, UserAbort(0)) && Enabled(Next(h, UserAbort(0)), Stop) && Enabled(Next(Next(h, UserAbort(0)), Stop), ReadSize)
    ensures Next(Next(Next(h, UserAbort(0)), Stop), ReadSize)
            == h.(entries := [Extended(h.entries[0], T.EAbort)], queue := Q.Stop(h.queue), task := Sized(0), younger := h.younger[0 := 0])
  {
    assert h.entries[0 := Extended(h.entries[0], T.EAbort)] == [Extended(h.entries[0], T.EAbort)];
  }

  lemma StartHangs(h: Handler)
    requires |h.entries| == 1 && InTask(h) && h.queue.pc.task == 0 && h.task == Sized(0)
    requires var t := h.entries[0].txn; T.Inv(t) && t.infinite && t.phase.NotStarted? && t.defaultError == TRN_OK
    ensures Enabled(h, Execute(Returns)) && HangsAt(Next(h, Execute(Returns)), 0)
  {
    StartHangsIff(h.entries[0].txn, TRN_OK, false);
  }

  // ---------- A stop that is overtaken ----------

  /** From a new handler to a first transaction that hangs, with a second one in the queue. */
  lemma FirstOfTwoHangs(h0: Handler, r0: Message, t0: int32, r1: Message, t1: int32) returns (ss: seq<Step>)
    requires IsNewHandler(h0) && r0.length > 0 && r1.length > 0 && GrantsInfinite(Copy(r0), t0)
    ensures CanRun(h0, ss)
    ensures var h := Run(h0, ss);
            && HangsAt(h, 0) && h.pending == Some(0) && h.received.None? && h.queue.runWorkerThread
            && |h.entries| == 2 && h.entries[1] == NewEntry(h0, r1, t1, TRN_OK)
  {
    TwoSteps(h0, Push(r0, t0, TRN_OK), Push(r1, t1, TRN_OK));
    ss := [Push(r0, t0, TRN_OK), Push(r1, t1, TRN_OK)];
    UpToTheTask(Run(h0, ss).queue);
    ss := WorkersTurn(h0, ss, Run(h0, ss).queue, 8);
    var h := Run(h0, ss);
    assert h.entries == [NewEntry(h0, r0, t0, TRN_OK), NewEntry(h0, r1, t1, TRN_OK)];
    TaskHangs(h);
    RunConcat(h0, ss, [Assign, ReadSize, Execute(Returns)]);
    ss := ss + [Assign, ReadSize, Execute(Returns)];
  }

  lemma TaskHangs(h: Handler)
    requires InTask(h) && h.task.Called? && h.queue.pc.task == 0 && |h.queue.tasks| == 1 && |h.entries| == 2
    requires var t := h.entries[0].txn; T.Inv(t) && t.infinite && t.phase.NotStarted? && t.defaultError == TRN_OK
    ensures CanRun(h, [Assign, ReadSize, Execute(Returns)])
    ensures var h' := Run(h, [Assign, ReadSize, Execute(Returns)]);
            && HangsAt(h', 0) && h'.pending == Some(0) && h'.received == h.received && h'.queue == h.queue
            && |h'.entries| == 2 && h'.entries[1] == h.entries[1]
  {
    var h2 := h.(pending := Some(0), task := Sized(1), younger := h.younger[0 := 1]);
    TwoSteps(h, Assign, ReadSize);
    assert Run(h, [Assign, ReadSize]) == h2;
    SizedHangs(h2);
    RunSnoc(h, [Assign, ReadSize], Execute(Returns));
    assert [Assign, ReadSize] + [Execute(Returns)] == [Assign, ReadSize, Execute(Returns)];
  }

  lemma SizedHangs(h: Handler)
    requires InTask(h) && h.task == Sized(1) && h.queue.pc.task == 0 && |h.entries| == 2
    requires var t := h.entries[0].txn; T.Inv(t) && t.infinite && t.phase.NotStarted? && t.defaultError == TRN_OK
    ensures Enabled(h, Execute(Returns))
    ensures var h' := Next(h, Execute(Returns));
            && HangsAt(h', 0) && h'.pending == h.pending && h'.received == h.received && h'.queue == h.queue
            && |h'.entries| == 2 && h'.entries[1] == h.entries[1]
  {
    StartHangsIff(h.entries[0].txn, TRN_OK, false);
  }

  /** A run in which the destructor aborts a started transaction, and the worker gets to the next one, which hangs,
      before the stop: again the worker is never joined. */
  lemma OvertakenShutdown(h0: Handler, r0: Message, t0: int32, r1: Message, t1: int32) returns (ss: seq<Step>, mid: seq<Step>)
    requires IsNewHandler(h0) && r0.length > 0 && r1.length > 0
    requires GrantsInfinite(Copy(r0), t0) && GrantsInfinite(Copy(r1), t1)
    ensures CanRun(h0, ss) && HangsAt(Run(h0, ss), 0) && Run(h0, ss).pending == Some(0)
    ensures Enabled(Run(h0, ss), UserAbort(0)) && forall s :: s in mid ==> IsInternal(s)
    ensures CanRun(Next(Run(h0, ss), UserAbort(0)), mid) && Enabled(Run(Next(Run(h0, ss), UserAbort(0)), mid), Stop)
    ensures HangsAt(Next(Run(Next(Run(h0, ss), UserAbort(0)), mid), Stop), 1)
  {
    ss := FirstOfTwoHangs(h0, r0, t0, r1, t1);
    NewHandlerInv(h0);
    InvHolds(h0, ss);
    assert EntryInv(Run(h0, ss).entries[1]);
    mid := SecondOvertakes(Run(h0, ss));
  }

  lemma SecondOvertakes(h: Handler) returns (mid: seq<Step>)
    requires HandlerInv(h) && HangsAt(h, 0) && h.received.None? && h.queue.runWorkerThread && |h.entries| == 2
    requires WillHang(h, 1)
    ensures Enabled(h, UserAbort(0)) && forall s :: s in mid ==> IsInternal(s)
    ensures CanRun(Next(h, UserAbort(0)), mid) && Enabled(Run(Next(h, UserAbort(0)), mid), Stop)
    ensures HangsAt(Next(Run(Next(h, UserAbort(0)), mid), Stop), 1)
  {
    HangingIsUnlocked(h, 0);
    var h1 := Next(h, UserAbort(0));
    InvStep(h, UserAbort(0));
    AbortedHangsNoMore(h);
    mid := HangerIsReached(h1, 1);
    InternalRun(h1, mid);
    RunKeepsFate(h1, mid, 0);
    TaskNumber(Run(h1, mid));
  }

  lemma AbortedHangsNoMore(h: Handler)
    requires HangsAt(h, 0) && h.received.None? && |h.entries| == 2 && Enabled(h, UserAbort(0))
    ensures var h' := Next(h, UserAbort(0));
            && |h'.entries| == 2 && !MayHang(h', 0) && WillHang(h', 1) == WillHang(h, 1) && h'.queue == h.queue
  {
  }

  lemma HangingIsUnlocked(h: Handler, i: nat)
    requires HandlerInv(h) && HangsAt(h, i)
    ensures Enabled(h, UserAbort(i))
  {
    assert h.entries[i] in h.entries && EntryInv(h.entries[i]);
    if !T.Unlocked(h.entries[i].txn) {
      LockedIsExecuted(h, i);
    }
  }

  // ---------- An answer that is older than the question ----------

  /** A response that is accepted between the start and an expired wait ends the transaction with its code. */
  lemma AnswerCounts(t: T.Txn, m: Message)
    requires T.Inv(t) && t.phase.NotStarted? && t.expected > 0 && t.result.Some?
    requires T.Check(t.request, m) == T.Accepted && MessageDirection(m) == Response && ResponseCode(m) == TRN_OK
    ensures T.Enabled(T.Apply(t, T.EStart(TRN_OK, false)), T.EReceive(m))
    ensures var t' := T.Apply(T.Apply(t, T.EStart(TRN_OK, false)), T.EReceive(m));
            && T.Enabled(t', T.EWake(true))
            && var end := T.Apply(t', T.EWake(true));
               end.finish && end.result.Some? && ErrorCode(end.result.value) == TRN_OK
  {
    var t1 := T.Apply(t, T.EStart(TRN_OK, false));
    assert t1.phase == T.Looping(t.expected) && t1.result == t.result && t1.request == t.request && !t1.finish;
    AnswerIsRecorded(t1, m);
    AnsweredEnds(T.Apply(t1, T.EReceive(m)));
  }

  lemma AnswerIsRecorded(t: T.Txn, m: Message)
    requires T.Inv(t) && T.Unlocked(t) && !t.finish
    requires T.Check(t.request, m) == T.Accepted && MessageDirection(m) == Response && ResponseCode(m) == TRN_OK
    ensures var t' := T.Apply(t, T.EReceive(m));
            && t'.phase == t.phase && t'.state in {T.Processed, T.ReceivedResponse}
            && t'.result.Some? && t'.result.value.responseCode == TRN_OK
  {
    TD.ResponseDuration(t, m);
  }

  lemma AnsweredEnds(t: T.Txn)
    requires T.Inv(t) && t.phase.Looping? && t.phase.wait > 0 && t.state in {T.Processed, T.ReceivedResponse}
    requires t.result.Some? && t.result.value.responseCode == TRN_OK
    ensures var t' := T.Apply(t, T.EWake(true)); t'.finish && t'.result.Some? && ErrorCode(t'.result.value) == TRN_OK
  {
  }

  /** A run in which a frame that came before the request was sent is taken for its answer: the receive thread
      carried it while execute() started. */
  lemma StaleAnswer(h0: Handler, request: Message, userTimeout: int32, frame: seq<uint8>) returns (ss: seq<Step>)
    requires IsNewHandler(h0) && request.length > 0 && RouteOf(frame).ToPending?
    requires T.Check(Copy(request), RouteOf(frame).message) == T.Accepted && MessageDirection(RouteOf(frame).message) == Response
    requires ResponseCode(RouteOf(frame).message) == TRN_OK
    ensures CanRun(h0, ss) && CanRun(Run(h0, ss), [Frame(frame), ReadSize] + [Execute(Returns), Deliver] + [Wake(true)])
    ensures var h := Run(Run(h0, ss), [Frame(frame), ReadSize] + [Execute(Returns), Deliver] + [Wake(true)]);
            && |h.entries| == 1 && h.entries[0].txn.finish && h.entries[0].txn.result.Some?
            && ErrorCode(h.entries[0].txn.result.value) == TRN_OK
  {
    ss := FirstIsAssigned(h0, request, userTimeout);
    var h := Run(h0, ss);
    NewHandlerInv(h0);
    InvHolds(h0, ss);
    assert h.entries[0] in h.entries && EntryInv(h.entries[0]);
    StaleSteps(h, frame);
  }

  lemma StaleSteps(h: Handler, frame: seq<uint8>)
    requires |h.entries| == 1 && h.pending == Some(0) && h.received.None? && EntryInv(h.entries[0])
    requires InTask(h) && h.queue.pc.task == 0 && h.task.Assigned? && h.queue.tasks == [] && RouteOf(frame).ToPending?
    requires var t, m := h.entries[0].txn, RouteOf(frame).message;
             && t.phase.NotStarted? && t.defaultError == TRN_OK && t.expected > 0 && t.result.Some?
             && T.Check(t.request, m) == T.Accepted && MessageDirection(m) == Response && ResponseCode(m) == TRN_OK
    ensures CanRun(h, [Frame(frame), ReadSize] + [Execute(Returns), Deliver] + [Wake(true)])
    ensures var h' := Run(h, [Frame(frame), ReadSize] + [Execute(Returns), Deliver] + [Wake(true)]);
            && |h'.entries| == 1 && h'.entries[0].txn.finish && h'.entries[0].txn.result.Some?
            && ErrorCode(h'.entries[0].txn.result.value) == TRN_OK
  {
    var t, m := h.entries[0].txn, RouteOf(frame).message;
    AnswerCounts(t, m);
    var h2 := h.(received := Some((0, m)), task := Sized(0), younger := h.younger[0 := 0]);
    TwoSteps(h, Frame(frame), ReadSize);
    assert Run(h, [Frame(frame), ReadSize]) == h2;
    AnsweredAtOnce(h2, m);
    RunConcat(h, [Frame(frame), ReadSize], [Execute(Returns), Deliver]);
    RunSnoc(h, [Frame(frame), ReadSize] + [Execute(Returns), Deliver], Wake(true));
    StepTouchesOne(Run(h2, [Execute(Returns), Deliver]), Wake(true));
  }

  lemma AnsweredAtOnce(h: Handler, m: Message)
    requires |h.entries| == 1 && h.received == Some((0, m)) && InTask(h) && h.queue.pc.task == 0 && h.task == Sized(0)
    requires var t := h.entries[0].txn; T.Inv(t) && t.phase.NotStarted? && t.defaultError == TRN_OK && t.expected > 0
    ensures CanRun(h, [Execute(Returns), Deliver])
    ensures var h' := Run(h, [Execute(Returns), Deliver]);
            && |h'.entries| == 1 && InTask(h') && h'.task.Executing? && h'.queue.pc.task == 0
            && h'.entries[0].txn == T.Receive(T.Start(h.entries[0].txn, TRN_OK, false), m)
  {
    StepTouchesOne(h, Execute(Returns));
    StepTouchesOne(Next(h, Execute(Returns)), Deliver);
    TwoSteps(h, Execute(Returns), Deliver);
  }
}
