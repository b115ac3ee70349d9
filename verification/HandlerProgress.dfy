/** The handler comes to rest when it is left alone. */
module HandlerProgress {
  import opened HandlerMachine
  import opened HandlerInvariant
  import opened HandlerHangs
  import T = TransactionMachine
  import TR = TransactionRuns
  import TD = TransactionDurations
  import Q = TaskQueueMachine
  import QR = TaskQueueRuns

  /** Nothing is left to do but for users and the channel: no message is under way, and the worker exited, waits
      for a task, or is held up. */
  predicate AtRest(h: Handler) {
    h.received.None? && (QR.AtRest(h.queue) || HeldUp(h))
  }

  /** No user and no new frame takes part. */
  predicate IsInternal(s: Step) {
    s.Worker? || s.SpuriousWakeUp? || s.Notification? || s.Assign? || s.ReadSize? || s.Execute? || s.Wake? || s.Deliver?
  }

  /** The handler is left alone until it is at rest. */
  predicate Settles(h: Handler, ss: seq<Step>) {
    CanRun(h, ss) && (forall s :: s in ss ==> IsInternal(s)) && AtRest(Run(h, ss))
  }

  // ---------- One way to rest ----------

  /** A message under way is delivered as soon as the mutex is free; every wait runs out. */
  function AloneStep(h: Handler): Step {
    if h.received.Some? && h.received.value.0 < |h.entries| && T.Unlocked(h.entries[h.received.value.0].txn) then Deliver
    else if InTask(h) then
      match h.task
      case Called => Assign
      case Assigned => ReadSize
      case Sized(_) => Execute(Returns)
      case Executing =>
        if h.queue.pc.task < |h.entries| && h.entries[h.queue.pc.task].txn.phase.Looping?
        then Wake(h.entries[h.queue.pc.task].txn.phase.wait > 0) else Worker
    else if QR.Alone(h.queue).LNotify? then Step.Notification
    else Worker
  }

  function TaskRank(h: Handler): nat {
    if !InTask(h) then 0
    else
      match h.task
      case Called => 4
      case Assigned => 3
      case Sized(_) => 2
      case Executing =>
        if h.queue.pc.task < |h.entries| && h.entries[h.queue.pc.task].txn.phase.Looping? then 1 else 0
  }

  /** One more wake-up ends a transaction that does not hang when its wait ran out. */
  lemma WaitRunsOut(x: Entry)
    requires EntryInv(x) && x.txn.phase.Looping? && !Hangs(x.txn)
    ensures T.Inv(x.txn) && T.Enabled(x.txn, T.EWake(x.txn.phase.wait > 0))
    ensures T.Apply(x.txn, T.EWake(x.txn.phase.wait > 0)).phase.Returned?
  {
    TD.NoEmptyIteration(x.born, x.events);
    if x.txn.phase.wait > 0 {
      HangsIff(x);
      TR.StateFollowsLog(x.born, x.events);
      TR.WakeDecides(x.born, x.events, true);
    }
  }

  /** Only the transaction that is executed can have its mutex locked, and not while it hangs. */
  lemma LockedIsExecuted(h: Handler, i: nat)
    requires HandlerInv(h) && i < |h.entries| && !T.Unlocked(h.entries[i].txn)
    ensures InTask(h) && h.task.Executing? && h.queue.pc.task == i && !HeldUp(h)
  {
    assert h.entries[i] in h.entries && EntryInv(h.entries[i]);
    TD.NoEmptyIteration(h.entries[i].born, h.entries[i].events);
    if InTask(h) {
      TaskNumber(h);
    }
  }

  lemma AloneDelivers(h: Handler)
    requires HandlerInv(h) && h.received.Some?
    ensures AloneStep(h).Deliver? ==> Enabled(h, Deliver)
    ensures !AloneStep(h).Deliver? ==> InTask(h) && h.task.Executing? && !HeldUp(h) && !QR.AtRest(h.queue)
  {
    var i := h.received.value.0;
    assert h.entries[i] in h.entries && EntryInv(h.entries[i]);
    if !T.Unlocked(h.entries[i].txn) {
      LockedIsExecuted(h, i);
    }
  }

  lemma AloneEnabled(h: Handler)
    requires HandlerInv(h) && !AtRest(h)
    ensures Enabled(h, AloneStep(h))
  {
    if h.received.Some? {
      AloneDelivers(h);
    }
    if !AloneStep(h).Deliver? {
      AloneWorks(h);
    }
  }

  lemma AloneWorks(h: Handler)
    requires HandlerInv(h) && !QR.AtRest(h.queue) && !HeldUp(h) && !AloneStep(h).Deliver?
    ensures Enabled(h, AloneStep(h))
  {
    QR.AloneMakesProgress(h.queue);
    if InTask(h) {
      TaskNumber(h);
      var x := h.entries[h.queue.pc.task];
      assert x in h.entries && EntryInv(x);
      if h.task.Executing? && x.txn.phase.Looping? {
        WaitRunsOut(x);
      }
    }
  }

  /** The worker gets closer to rest. */
  predicate Descends(h: Handler, h': Handler) {
    || |h'.queue.tasks| < |h.queue.tasks|
    || (|h'.queue.tasks| == |h.queue.tasks| && h.queue.taskPushed && !h'.queue.taskPushed)
    || (|h'.queue.tasks| == |h.queue.tasks| && h.queue.taskPushed == h'.queue.taskPushed
        && (QR.Rank(h'.queue) < QR.Rank(h.queue) || (QR.Rank(h'.queue) == QR.Rank(h.queue) && TaskRank(h') < TaskRank(h))))
  }

  lemma TaskProgress(h: Handler)
    requires HandlerInv(h) && InTask(h) && !HeldUp(h) && Enabled(h, AloneStep(h)) && !AloneStep(h).Deliver?
    ensures Next(h, AloneStep(h)).received == h.received && Descends(h, Next(h, AloneStep(h)))
  {
    TaskNumber(h);
    var x := h.entries[h.queue.pc.task];
    assert x in h.entries && EntryInv(x);
    if h.task.Executing? && x.txn.phase.Looping? {
      WaitRunsOut(x);
      WakeProgress(h);
    }
  }

  lemma WakeProgress(h: Handler)
    requires InTask(h) && h.task.Executing? && h.queue.pc.task < |h.entries| && h.entries[h.queue.pc.task].txn.phase.Looping?
    requires var t := h.entries[h.queue.pc.task].txn;
             T.Inv(t) && T.Enabled(t, T.EWake(t.phase.wait > 0)) && T.Apply(t, T.EWake(t.phase.wait > 0)).phase.Returned?
    ensures var s := Wake(h.entries[h.queue.pc.task].txn.phase.wait > 0);
            Enabled(h, s) && Next(h, s).received == h.received && Descends(h, Next(h, s))
  {
  }

  lemma AloneProgress(h: Handler)
    requires HandlerInv(h) && !QR.AtRest(h.queue) && !HeldUp(h) && Enabled(h, AloneStep(h)) && !AloneStep(h).Deliver?
    ensures Next(h, AloneStep(h)).received == h.received && Descends(h, Next(h, AloneStep(h)))
  {
    if InTask(h) {
      TaskProgress(h);
    } else {
      QR.AloneMakesProgress(h.queue);
    }
  }

  lemma AloneDescends(h: Handler)
    requires HandlerInv(h) && !AtRest(h)
    ensures Enabled(h, AloneStep(h)) && HandlerInv(Next(h, AloneStep(h)))
    ensures var h' := Next(h, AloneStep(h));
            if AloneStep(h).Deliver? then h.received.Some? && h'.received.None? else h'.received == h.received && Descends(h, h')
  {
    AloneEnabled(h);
    InvStep(h, AloneStep(h));
    if !AloneStep(h).Deliver? {
      if h.received.Some? {
        AloneDelivers(h);
      }
      AloneProgress(h);
    }
  }

  /** From every state that the invariant allows, the handler can come to rest alone. */
  lemma {:induction false} RestIsReached(h: Handler) returns (ss: seq<Step>)
    requires HandlerInv(h)
    ensures Settles(h, ss)
    decreases h.received.Some?, |h.queue.tasks|, h.queue.taskPushed, QR.Rank(h.queue), TaskRank(h)
  {
    if AtRest(h) {
      ss := [];
    } else {
      AloneDescends(h);
      ss := RestIsReached(Next(h, AloneStep(h)));
      RunCons(h, AloneStep(h), ss);
      ss := [AloneStep(h)] + ss;
    }
  }

  // ---------- What a stop leaves unchanged ----------

  /** The transactions that the worker has taken out of the queue. */
  function TakenOut(h: Handler): nat {
    |h.queue.done| + |QR.InFlight(h.queue.pc)|
  }

  lemma StoppedStep(h: Handler, s: Step)
    requires HandlerInv(h) && !h.queue.runWorkerThread && Enabled(h, s)
    ensures !Next(h, s).queue.runWorkerThread && TakenOut(Next(h, s)) == TakenOut(h) && |h.entries| <= |Next(h, s).entries|
  {
    match s
    case Push(_, _, _) => QR.StopStep(h.queue, Q.LPush(|h.entries|));
    case Worker | SpuriousWakeUp | Notification | Stop =>
      QR.StopStep(h.queue, QueueLabel(s));
      assert |(h.queue.done + QR.InFlight(h.queue.pc))| == |(Next(h, s).queue.done + QR.InFlight(Next(h, s).queue.pc))|;
    case _ =>
  }
}
