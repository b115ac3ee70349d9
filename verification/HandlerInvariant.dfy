/** Every step of the handler keeps its invariant. */
module HandlerInvariant {
  import opened MachineInts
  import opened DpaMessages
  import opened Wrappers
  import opened Timing
  import opened Routing
  import opened TransactionResults
  import opened HandlerMachine
  import T = TransactionMachine
  import TR = TransactionRuns
  import TD = TransactionDurations
  import TO = TransactionOutcomes
  import Q = TaskQueueMachine
  import QR = TaskQueueRuns

  lemma NewHandlerInv(h: Handler)
    requires IsNewHandler(h)
    ensures HandlerInv(h)
  {
  }

  /** The running task is the oldest one that is not done, and the queue holds all younger ones in order. */
  lemma TaskNumber(h: Handler)
    requires QR.QueueInv(h.queue) && NumbersInv(h) && InTask(h)
    ensures h.queue.pc.task == |h.queue.done| < |h.entries|
    ensures |h.queue.tasks| == |h.entries| - |h.queue.done| - 1
  {
    var task := h.queue.pc.task;
    assert h.queue.pushed[|h.queue.done|] == (h.queue.done + [task] + h.queue.tasks)[|h.queue.done|] == task;
  }

  // ---------- One transaction goes through one critical section ----------

  function Extended(x: Entry, e: T.Event): Entry
    requires T.Inv(x.txn) && T.Enabled(x.txn, e)
  {
    x.(events := x.events + [e], txn := T.Apply(x.txn, e))
  }

  /** What the handler lets a transaction go through. */
  predicate Lawful(e: T.Event) {
    (e.EReceive? ==> IsRoutable(e.message)) && (e.EStart? ==> !e.sendFails)
  }

  lemma NotStartedStep(t: T.Txn, e: T.Event)
    requires T.Inv(t) && T.Enabled(t, e) && T.Apply(t, e).phase.NotStarted?
    ensures t.phase.NotStarted? && T.Apply(t, e).defaultError == t.defaultError
  {
  }

  lemma EntryStep(x: Entry, e: T.Event)
    requires EntryInv(x) && T.Enabled(x.txn, e) && Lawful(e)
    ensures EntryInv(Extended(x, e))
  {
    TR.RunSnoc(x.born, x.events, e);
    if T.Apply(x.txn, e).phase.NotStarted? {
      NotStartedStep(x.txn, e);
    }
  }

  /** A message, an abort and a get leave the executing thread where it is. */
  lemma ForeignStep(t: T.Txn, e: T.Event)
    requires T.Inv(t) && T.Enabled(t, e) && (e.EReceive? || e.EAbort? || e.ETake?)
    ensures var t' := T.Apply(t, e);
            t'.phase == t.phase && t'.finish == t.finish && t'.sent == t.sent && t'.defaultError == t.defaultError
  {
  }

  lemma ForeignInv(h: Handler, id: nat, e: T.Event)
    requires StructureInv(h) && TxnEnabled(h, id, e) && (e.EReceive? || e.EAbort? || e.ETake?)
    ensures StructureInv(Touch(h, id, e))
  {
    ForeignStep(h.entries[id].txn, e);
  }

  // ---------- The steps ----------

  /** One more entry, which is not started, and its number at the end of the queue. */
  lemma AppendInv(h: Handler, q: Q.Queue<nat>, x: Entry)
    requires StructureInv(h) && QR.QueueInv(q) && q.pc == h.queue.pc && q.done == h.queue.done
    requires q.pushed == h.queue.pushed + [|h.entries|] && x.txn.phase.NotStarted? && x.events == []
    requires InTask(h) ==> |h.queue.done| < |h.entries|
    ensures StructureInv(h.(queue := q, entries := h.entries + [x]))
  {
    var h' := h.(queue := q, entries := h.entries + [x]);
    assert NumbersInv(h');
    assert PhaseInv(h');
    assert OverloadInv(h');
    assert ReceiverInv(h');
    AppendLog(h, q, x);
  }

  lemma AppendLog(h: Handler, q: Q.Queue<nat>, x: Entry)
    requires LogInv(h) && q.done == h.queue.done && x.txn.phase.NotStarted?
    requires |h.queue.done| <= |h.entries|
    ensures LogInv(h.(queue := q, entries := h.entries + [x]))
  {
  }

  lemma PushInv(h: Handler, request: Message, userTimeout: int32, defaultError: int)
    requires StructureInv(h) && Enabled(h, Push(request, userTimeout, defaultError))
    ensures StructureInv(Next(h, Push(request, userTimeout, defaultError)))
  {
    QR.InvStep(h.queue, Q.LPush(|h.entries|));
    if InTask(h) {
      TaskNumber(h);
    }
    AppendInv(h, Q.Push(h.queue, |h.entries|), NewEntry(h, request, userTimeout, defaultError));
  }

  function QueueLabel(s: Step): Q.Label<nat>
    requires s.Worker? || s.SpuriousWakeUp? || s.Notification? || s.Stop?
  {
    match s case Worker => Q.LWork case SpuriousWakeUp => Q.LSpurious case Notification => Q.LNotify case Stop => Q.LStop
  }

  /** A queue with the same history may replace the queue, unless a judged task runs in one of them. */
  lemma ReplaceQueue(h: Handler, q: Q.Queue<nat>, task: TaskPc)
    requires StructureInv(h) && QR.QueueInv(q) && q.pushed == h.queue.pushed && q.done == h.queue.done
    requires InTask(h) ==> q.pc == h.queue.pc && task == h.task
    requires !InTask(h) && q.pc.Running? ==> task == Called
    ensures StructureInv(h.(queue := q, task := task))
  {
  }

  lemma QueueHistory(q: Q.Queue<nat>, l: Q.Label<nat>)
    requires QR.QueueInv(q) && Q.Enabled(q, l) && (q.pc.Running? ==> !l.LWork?) && !l.LPush?
    ensures var q' := Q.Next(q, l);
            q'.pushed == q.pushed && q'.done == q.done && (q.pc.Running? ==> q'.pc == q.pc)
            && (q'.pc.Running? && !q.pc.Running? ==> l.LWork?)
  {
  }

  /** The queue's worker outside the processing function, and the other threads' notifications and stop. */
  lemma QueueStepInv(h: Handler, s: Step)
    requires StructureInv(h) && Enabled(h, s) && (s.Worker? || s.SpuriousWakeUp? || s.Notification? || s.Stop?)
    requires s.Worker? ==> !InTask(h)
    ensures StructureInv(Next(h, s))
  {
    QR.InvStep(h.queue, QueueLabel(s));
    QueueHistory(h.queue, QueueLabel(s));
    ReplaceQueue(h, Next(h, s).queue, Next(h, s).task);
  }

  /** The processing function returns. */
  lemma ReturnInv(h: Handler)
    requires StructureInv(h) && Enabled(h, Worker) && InTask(h)
    requires |h.queue.done| < |h.entries| && EntryInv(h.entries[|h.queue.done|])
    ensures StructureInv(Next(h, Worker))
  {
    QR.InvStep(h.queue, Q.LWork);
    TaskNumber(h);
    assert EntryInv(h.entries[|h.queue.done|]);
  }

  lemma AssignInv(h: Handler)
    requires StructureInv(h) && Enabled(h, Assign)
    ensures StructureInv(Next(h, Assign))
  {
    TaskNumber(h);
  }

  lemma ReadSizeInv(h: Handler)
    requires StructureInv(h) && Enabled(h, ReadSize)
    requires |h.queue.done| < |h.entries| && EntryInv(h.entries[|h.queue.done|])
    ensures StructureInv(Next(h, ReadSize))
  {
    TaskNumber(h);
    var x := h.entries[h.queue.pc.task];
    NoStartYet(x);
  }

  lemma NoStartYet(x: Entry)
    requires EntryInv(x) && x.txn.phase.NotStarted?
    ensures forall e :: e in x.events ==> !e.EStart?
  {
    TO.StartIsRecorded(x.born, x.events);
  }

  lemma StartStep(t: T.Txn, error: int)
    requires T.Inv(t) && t.phase.NotStarted?
    ensures var t' := T.Apply(t, T.EStart(error, false));
            t'.phase.Looping? && !t'.finish && (t'.sent != [] <==> error == TRN_OK)
  {
  }

  lemma ScanAppend(log: seq<LogEntry>, x: LogEntry)
    requires Scan(log).Some?
    ensures var (n, sent) := Scan(log).value;
            && (x == Sent(n) && !sent ==> Scan(log + [x]) == Some((n, true)))
            && (x.Finished? && x.id == n ==> Scan(log + [x]) == Some((n + 1, false)))
  {
    assert (log + [x])[..|log + [x]| - 1] == log;
  }

  lemma ExecuteLog(h: Handler, channel: CallEnd)
    requires StructureInv(h) && Enabled(h, Execute(channel))
    requires |h.queue.done| < |h.entries| && EntryInv(h.entries[|h.queue.done|])
    ensures LogInv(Next(h, Execute(channel)))
  {
    TaskNumber(h);
    StartStep(h.entries[h.queue.pc.task].txn, StartEvent(h, channel).defaultError);
    ScanAppend(h.log, Sent(h.queue.pc.task));
    assert h.log + [] == h.log;
  }

  lemma ExecuteInv(h: Handler, channel: CallEnd)
    requires StructureInv(h) && Enabled(h, Execute(channel))
    requires |h.queue.done| < |h.entries| && EntryInv(h.entries[|h.queue.done|])
    ensures StructureInv(Next(h, Execute(channel)))
  {
    TaskNumber(h);
    var id, e := h.queue.pc.task, StartEvent(h, channel);
    NoStartYet(h.entries[id]);
    StartStep(h.entries[id].txn, e.defaultError);
    ExecuteLog(h, channel);
  }

  lemma WakeStep(t: T.Txn, expired: bool)
    requires T.Inv(t) && T.Enabled(t, T.EWake(expired))
    ensures var t' := T.Apply(t, T.EWake(expired));
            !t.finish && t'.sent == t.sent && !t'.phase.NotStarted? && t'.result.Some?
  {
  }

  lemma WakeLog(h: Handler, expired: bool)
    requires StructureInv(h) && Enabled(h, Wake(expired))
    requires |h.queue.done| < |h.entries| && EntryInv(h.entries[|h.queue.done|])
    ensures LogInv(Next(h, Wake(expired)))
  {
    TaskNumber(h);
    var id := h.queue.pc.task;
    var t' := T.Apply(h.entries[id].txn, T.EWake(expired));
    var h' := Next(h, Wake(expired));
    WakeStep(h.entries[id].txn, expired);
    assert h'.queue == h.queue && |h'.entries| == |h.entries| && h'.entries[id].txn == t';
    if t'.finish {
      ScanAppend(h.log, Finished(id, ErrorCode(t'.result.value)));
    } else {
      assert h'.log == h.log;
    }
  }

  /** Replacing one entry by one that fits keeps everything but the log's agreement. */
  lemma ReplaceEntry(h: Handler, id: nat, x: Entry)
    requires StructureInv(h) && id < |h.entries| && PhaseFits(h, id, x.txn.phase) && JudgedRightly(h.younger, id, x)
    ensures var h' := h.(entries := h.entries[id := x]); NumbersInv(h') && PhaseInv(h') && OverloadInv(h') && ReceiverInv(h')
  {
  }

  lemma WakeInv(h: Handler, expired: bool)
    requires StructureInv(h) && Enabled(h, Wake(expired))
    requires |h.queue.done| < |h.entries| && EntryInv(h.entries[|h.queue.done|])
    ensures StructureInv(Next(h, Wake(expired)))
  {
    TaskNumber(h);
    var id := h.queue.pc.task;
    WakeStep(h.entries[id].txn, expired);
    assert JudgedRightly(h.younger, id, h.entries[id]);
    ReplaceEntry(h, id, Extended(h.entries[id], T.EWake(expired)));
    WakeLog(h, expired);
  }

  lemma SetReceived(h: Handler, r: Option<(nat, Message)>, asyncs: seq<Message>)
    requires StructureInv(h)
    requires r.Some? ==> r.value.0 < |h.entries| && TakenUp(h, r.value.0) && IsRoutable(r.value.1)
    ensures StructureInv(h.(received := r, asyncs := asyncs))
  {
  }

  lemma FrameInv(h: Handler, bytes: seq<uint8>)
    requires StructureInv(h) && Enabled(h, Frame(bytes))
    ensures StructureInv(Next(h, Frame(bytes)))
  {
    RoutedIsRoutable(bytes);
    SetReceived(h, Next(h, Frame(bytes)).received, Next(h, Frame(bytes)).asyncs);
  }

  lemma DeliverInv(h: Handler)
    requires StructureInv(h) && Enabled(h, Deliver)
    ensures StructureInv(Next(h, Deliver))
  {
    ForeignInv(h, h.received.value.0, T.EReceive(h.received.value.1));
    SetReceived(Touch(h, h.received.value.0, T.EReceive(h.received.value.1)), None, h.asyncs);
  }

  lemma UserInv(h: Handler, s: Step)
    requires StructureInv(h) && Enabled(h, s) && (s.UserAbort? || s.UserGet? || s.Configure?)
    ensures StructureInv(Next(h, s))
  {
    match s
    case UserAbort(id) => ForeignInv(h, id, T.EAbort);
    case UserGet(id) => ForeignInv(h, id, T.ETake);
    case Configure(_, _, _) =>
  }

  lemma StructureStep(h: Handler, s: Step)
    requires HandlerInv(h) && Enabled(h, s)
    ensures StructureInv(Next(h, s))
  {
    if InTask(h) {
      TaskNumber(h);
      assert h.entries[|h.queue.done|] in h.entries;
    }
    match s
    case Push(request, userTimeout, defaultError) => PushInv(h, request, userTimeout, defaultError);
    case Worker => if InTask(h) { ReturnInv(h); } else { QueueStepInv(h, s); }
    case SpuriousWakeUp | Notification | Stop => QueueStepInv(h, s);
    case Assign => AssignInv(h);
    case ReadSize => ReadSizeInv(h);
    case Execute(channel) => ExecuteInv(h, channel);
    case Wake(expired) => WakeInv(h, expired);
    case Frame(bytes) => FrameInv(h, bytes);
    case Deliver => DeliverInv(h);
    case UserAbort(_) | UserGet(_) | Configure(_, _, _) => UserInv(h, s);
  }

  lemma NewEntryInv(h: Handler, request: Message, userTimeout: int32, defaultError: int)
    requires h.defaultTimeout >= MINIMAL_TIMEOUT
    ensures EntryInv(NewEntry(h, request, userTimeout, defaultError))
  {
    TR.NewIsFresh(request, h.mode, h.osVersion, h.defaultTimeout, userTimeout, defaultError);
    TD.HandlerDurations(request, h.mode, h.osVersion, h.defaultTimeout, userTimeout, defaultError);
  }

  /** The only entry that a step changes, and the critical section it goes through. */
  function Touched(h: Handler, s: Step): Option<(nat, T.Event)>
    requires Enabled(h, s)
  {
    match s
    case Execute(channel) => Some((h.queue.pc.task, StartEvent(h, channel)))
    case Wake(expired) => Some((h.queue.pc.task, T.EWake(expired)))
    case Deliver => Some((h.received.value.0, T.EReceive(h.received.value.1)))
    case UserAbort(id) => Some((id, T.EAbort))
    case UserGet(id) => Some((id, T.ETake))
    case _ => None
  }

  /** Every step of every thread changes at most one transaction, by one of that transaction's own critical
      sections; all others are as they were. */
  lemma StepTouchesOne(h: Handler, s: Step)
    requires Enabled(h, s)
    ensures s.Push? ==> Next(h, s).entries == h.entries + [NewEntry(h, s.request, s.userTimeout, s.defaultError)]
    ensures !s.Push? && Touched(h, s).None? ==> Next(h, s).entries == h.entries
    ensures Touched(h, s).Some? ==>
              var (id, e) := Touched(h, s).value; Next(h, s).entries == h.entries[id := Extended(h.entries[id], e)]
    ensures Touched(h, s).Some? ==> TxnEnabled(h, Touched(h, s).value.0, Touched(h, s).value.1)
  {
  }

  lemma EntriesStep(h: Handler, s: Step)
    requires HandlerInv(h) && Enabled(h, s)
    ensures EntriesInv(Next(h, s))
  {
    StepTouchesOne(h, s);
    if s.Push? {
      NewEntryInv(h, s.request, s.userTimeout, s.defaultError);
    } else if Touched(h, s).Some? {
      LawfulTouch(h, s);
      var (id, e) := Touched(h, s).value;
      assert h.entries[id] in h.entries;
      EntryStep(h.entries[id], e);
    }
  }

  lemma LawfulTouch(h: Handler, s: Step)
    requires HandlerInv(h) && Enabled(h, s) && Touched(h, s).Some?
    ensures Lawful(Touched(h, s).value.1)
  {
  }

  /** Every step of every thread keeps the invariant. */
  lemma InvStep(h: Handler, s: Step)
    requires HandlerInv(h) && Enabled(h, s)
    ensures HandlerInv(Next(h, s))
  {
    StructureStep(h, s);
    EntriesStep(h, s);
  }

  // ---------- Runs ----------

  predicate CanRun(h: Handler, ss: seq<Step>)
    decreases |ss|, 0
  {
    ss == [] || (CanRun(h, ss[..|ss| - 1]) && Enabled(Run(h, ss[..|ss| - 1]), ss[|ss| - 1]))
  }

  function Run(h: Handler, ss: seq<Step>): Handler
    requires CanRun(h, ss)
    decreases |ss|, 1
  {
    if ss == [] then h else Next(Run(h, ss[..|ss| - 1]), ss[|ss| - 1])
  }

  lemma {:induction false} InvHolds(h: Handler, ss: seq<Step>)
    requires HandlerInv(h) && CanRun(h, ss)
    ensures HandlerInv(Run(h, ss))
    decreases |ss|
  {
    if ss == [] {
    } else {
      InvHolds(h, ss[..|ss| - 1]);
      InvStep(Run(h, ss[..|ss| - 1]), ss[|ss| - 1]);
    }
  }

  lemma RunSnoc(h: Handler, ss: seq<Step>, s: Step)
    requires CanRun(h, ss) && Enabled(Run(h, ss), s)
    ensures CanRun(h, ss + [s]) && Run(h, ss + [s]) == Next(Run(h, ss), s)
  {
    assert (ss + [s])[..|ss + [s]| - 1] == ss;
  }

  lemma {:induction false} RunConcat(h: Handler, a: seq<Step>, b: seq<Step>)
    requires CanRun(h, a) && CanRun(Run(h, a), b)
    ensures CanRun(h, a + b) && Run(h, a + b) == Run(Run(h, a), b)
    decreases |b|
  {
    if b == [] {
      assert a + b == a;
    } else {
      RunConcat(h, a, b[..|b| - 1]);
      RunSnoc(h, a + b[..|b| - 1], b[|b| - 1]);
      SumSnoc(a, b);
    }
  }

  lemma SumSnoc(a: seq<Step>, b: seq<Step>)
    requires b != []
    ensures a + b == (a + b[..|b| - 1]) + [b[|b| - 1]]
  {
  }

  lemma RunOne(h: Handler, s: Step)
    requires Enabled(h, s)
    ensures CanRun(h, [s]) && Run(h, [s]) == Next(h, s)
  {
    RunSnoc(h, [], s);
    assert [] + [s] == [s];
  }

  lemma RunCons(h: Handler, s: Step, ss: seq<Step>)
    requires Enabled(h, s) && CanRun(Next(h, s), ss)
    ensures CanRun(h, [s] + ss) && Run(h, [s] + ss) == Run(Next(h, s), ss)
  {
    RunOne(h, s);
    RunConcat(h, [s], ss);
  }

  lemma TwoSteps(h: Handler, a: Step, b: Step)
    requires Enabled(h, a) && Enabled(Next(h, a), b)
    ensures CanRun(h, [a, b]) && Run(h, [a, b]) == Next(Next(h, a), b)
  {
    RunOne(Next(h, a), b);
    RunCons(h, a, [b]);
    assert [a] + [b] == [a, b];
  }

  lemma FourSteps(h: Handler, a: Step, b: Step, c: Step, d: Step)
    requires Enabled(h, a) && Enabled(Next(h, a), b) && Enabled(Next(Next(h, a), b), c) && Enabled(Next(Next(Next(h, a), b), c), d)
    ensures CanRun(h, [a, b, c, d]) && Run(h, [a, b, c, d]) == Next(Next(Next(Next(h, a), b), c), d)
  {
    TwoSteps(h, a, b);
    TwoSteps(Next(Next(h, a), b), c, d);
    RunConcat(h, [a, b], [c, d]);
    assert [a, b] + [c, d] == [a, b, c, d];
  }
}
