/** What a stop leaves behind, and when the handler's destructor comes back. */
module HandlerShutdown {
  import opened DpaMessages
  import opened Wrappers
  import opened HandlerMachine
  import opened HandlerInvariant
  import opened HandlerHangs
  import opened HandlerProgress
  import opened HandlerFates
  import opened HandlerService
  import T = TransactionMachine

  // ---------- Stop ----------

  /** Stopping abandons the queue: a transaction that is still in it never starts, so it never finishes and
      no get() on it returns; that holds for transactions pushed after the stop, too. */
  lemma {:induction false} StopAbandons(h: Handler, ss: seq<Step>, i: nat)
    requires HandlerInv(h) && !h.queue.runWorkerThread && CanRun(h, ss)
    requires TakenOut(h) <= i < |Run(h, ss).entries|
    ensures Run(h, ss).entries[i].txn.phase.NotStarted? && !Run(h, ss).entries[i].txn.finish
  {
    StoppedRun(h, ss);
    InvHolds(h, ss);
    assert Run(h, ss).entries[i] in Run(h, ss).entries;
  }

  lemma {:induction false} StoppedRun(h: Handler, ss: seq<Step>)
    requires HandlerInv(h) && !h.queue.runWorkerThread && CanRun(h, ss)
    ensures !Run(h, ss).queue.runWorkerThread && TakenOut(Run(h, ss)) == TakenOut(h)
    decreases |ss|
  {
    if ss == [] {
    } else {
      StoppedRun(h, ss[..|ss| - 1]);
      InvHolds(h, ss[..|ss| - 1]);
      StoppedStep(Run(h, ss[..|ss| - 1]), ss[|ss| - 1]);
    }
  }

  lemma OnlyInFlightHangs(h: Handler)
    requires HandlerInv(h)
    ensures TakenOut(h) <= |h.entries|
    ensures forall j :: 0 <= j < |h.queue.done| ==> h.entries[j].txn.finish && !MayHang(h, j)
  {
    forall j | 0 <= j < |h.queue.done| ensures h.entries[j].txn.finish && !MayHang(h, j) {
      assert h.entries[j] in h.entries;
    }
  }

  /** What a stopped handler surely completes: exactly what was already taken out of the queue, so the transaction
      in flight unless that may hang. */
  lemma StoppedServesIff(h: Handler, i: nat)
    requires HandlerInv(h) && !h.queue.runWorkerThread && i < |h.entries|
    ensures IsSurelyServed(h, i) <==> i < TakenOut(h) && !MayHang(h, i)
  {
    SurelyServedIff(h, i);
    OnlyInFlightHangs(h);
  }

  /** However the handler that is left alone comes to rest, the worker has exited. */
  ghost predicate SurelyExits(h: Handler) {
    forall ss :: Settles(h, ss) ==> Run(h, ss).queue.pc.Exited?
  }

  lemma RestExits(h: Handler)
    requires HandlerInv(h) && AtRest(h)
    ensures h.queue.pc.Exited? <==> !h.queue.runWorkerThread && forall j :: 0 <= j < |h.entries| && j < TakenOut(h) ==> !WillHang(h, j)
    ensures h.queue.runWorkerThread && (exists j :: 0 <= j < |h.entries| && WillHang(h, j)) ==> HeldUp(h)
  {
    OnlyInFlightHangs(h);
    assert forall j :: 0 <= j < |h.entries| ==> EntryInv(h.entries[j]);
    if HeldUp(h) {
      TaskNumber(h);
      assert WillHang(h, |h.queue.done|);
    }
  }

  lemma DecidedExits(h: Handler, ss: seq<Step>)
    requires HandlerInv(h) && Settles(h, ss) && !h.queue.runWorkerThread
    requires forall j :: 0 <= j < |h.entries| && j < TakenOut(h) ==> !MayHang(h, j)
    ensures Run(h, ss).queue.pc.Exited?
  {
    InternalRun(h, ss);
    forall j | 0 <= j < |h.entries| && j < TakenOut(h) ensures !WillHang(Run(h, ss), j) {
      assert !MayHang(h, j);
      RunKeepsFate(h, ss, j);
    }
    RestExits(Run(h, ss));
  }

  /** The worker of a handler that is left alone exits for sure if and only if it was stopped and the transaction
      in flight, if any, may not hang. */
  lemma ExitsIff(h: Handler)
    requires HandlerInv(h)
    ensures TakenOut(h) <= |h.entries|
    ensures SurelyExits(h) <==> !h.queue.runWorkerThread && (|h.queue.done| < TakenOut(h) ==> !MayHang(h, |h.queue.done|))
  {
    OnlyInFlightHangs(h);
    if !h.queue.runWorkerThread && (|h.queue.done| < TakenOut(h) ==> !MayHang(h, |h.queue.done|)) {
      forall ss | Settles(h, ss) ensures Run(h, ss).queue.pc.Exited? {
        DecidedExits(h, ss);
      }
    } else {
      var ss := NeedNotExit(h);
      assert !Run(h, ss).queue.pc.Exited?;
    }
  }

  lemma NeedNotExit(h: Handler) returns (ss: seq<Step>)
    requires HandlerInv(h) && TakenOut(h) <= |h.entries|
    requires h.queue.runWorkerThread || (|h.queue.done| < TakenOut(h) && MayHang(h, |h.queue.done|))
    ensures Settles(h, ss) && !Run(h, ss).queue.pc.Exited?
  {
    if h.queue.runWorkerThread {
      ss := RestIsReached(h);
    } else {
      ss := NotSurelyServed(h, |h.queue.done|);
    }
    InternalRun(h, ss);
    RestExits(Run(h, ss));
    if !h.queue.runWorkerThread {
      RestServes(Run(h, ss), |h.queue.done|);
      OnlyInFlightHangs(Run(h, ss));
    }
  }

  // ---------- The destructor ----------

  /** The destructor's first critical section: the abort of the pending transaction, whose mutex must be free. */
  function AfterAbort(h: Handler): Handler
    requires h.pending.Some? ==> Enabled(h, UserAbort(h.pending.value))
  {
    if h.pending.Some? then Next(h, UserAbort(h.pending.value)) else h
  }

  /** From right after the abort the destructor comes back, whatever the worker and the receive thread do before
      its second critical section, the stop, and after it. */
  ghost predicate SurelyJoins(h: Handler) {
    forall mid :: CanRun(h, mid) && (forall s :: s in mid ==> IsInternal(s)) && Enabled(Run(h, mid), Stop) ==>
      SurelyExits(Next(Run(h, mid), Stop))
  }

  lemma StopKeepsFate(h: Handler)
    requires Enabled(h, Stop)
    ensures |Next(h, Stop).entries| == |h.entries| && TakenOut(Next(h, Stop)) == TakenOut(h)
    ensures forall i :: 0 <= i < |h.entries| ==> MayHang(Next(h, Stop), i) == MayHang(h, i)
  {
  }

  lemma NobodyHangsSoJoins(h: Handler, mid: seq<Step>)
    requires HandlerInv(h) && CanRun(h, mid) && (forall s :: s in mid ==> IsInternal(s)) && Enabled(Run(h, mid), Stop)
    requires forall j :: 0 <= j < |h.entries| ==> !MayHang(h, j)
    ensures SurelyExits(Next(Run(h, mid), Stop))
  {
    var h' := Run(h, mid);
    InternalRun(h, mid);
    forall j | 0 <= j < |h.entries| ensures !MayHang(h', j) {
      assert !MayHang(h, j);
      RunKeepsFate(h, mid, j);
    }
    StopKeepsFate(h');
    InvStep(h', Stop);
    ExitsIff(Next(h', Stop));
  }

  /** The worker of a running handler may get to a transaction that hangs before it is stopped. */
  lemma HangerIsReached(h: Handler, j: nat) returns (mid: seq<Step>)
    requires HandlerInv(h) && h.queue.runWorkerThread && j < |h.entries| && MayHang(h, j)
    ensures Settles(h, mid) && HeldUp(Run(h, mid)) && Enabled(Run(h, mid), Stop)
    ensures HandlerInv(Run(h, mid))
  {
    mid := NotSurelyServed(h, j);
    InternalRun(h, mid);
    RestServes(Run(h, mid), j);
    RestExits(Run(h, mid));
  }

  lemma StoppedTooLate(h: Handler)
    requires HandlerInv(h) && AtRest(h) && HeldUp(h) && Enabled(h, Stop)
    ensures HandlerInv(Next(h, Stop)) && HeldUp(Next(h, Stop)) && !SurelyExits(Next(h, Stop))
  {
    InvStep(h, Stop);
    assert Settles(Next(h, Stop), []) && Run(Next(h, Stop), []) == Next(h, Stop);
  }

  /** The destructor, from right after its abort: it comes back for sure if and only if no transaction at all,
      queued ones included, hangs or may come to hang. The worker runs on between the abort and the stop, so an
      infinite transaction that was still in the queue can overtake the stop. */
  lemma JoinsIff(h: Handler)
    requires HandlerInv(h) && h.queue.runWorkerThread
    ensures SurelyJoins(h) <==> forall j :: 0 <= j < |h.entries| ==> !MayHang(h, j)
  {
    if forall j :: 0 <= j < |h.entries| ==> !MayHang(h, j) {
      forall mid | CanRun(h, mid) && (forall s :: s in mid ==> IsInternal(s)) && Enabled(Run(h, mid), Stop)
        ensures SurelyExits(Next(Run(h, mid), Stop))
      {
        NobodyHangsSoJoins(h, mid);
      }
    } else {
      var j :| 0 <= j < |h.entries| && MayHang(h, j);
      var mid := HangerIsReached(h, j);
      StoppedTooLate(Run(h, mid));
    }
  }

  /** The destructor's abort does not keep transaction j from hanging: a started one only if a confirmation for it
      is under way, any other one as before. */
  predicate SurvivesAbort(h: Handler, j: nat)
    requires j < |h.entries|
  {
    if h.pending == Some(j) && h.entries[j].txn.phase.Looping?
    then h.entries[j].txn.infinite && IsUnderWay(h, j, Confirmation)
    else MayHang(h, j)
  }

  lemma AbortLeavesIff(h: Handler, j: nat)
    requires HandlerInv(h) && (h.pending.Some? ==> Enabled(h, UserAbort(h.pending.value))) && j < |h.entries|
    ensures |AfterAbort(h).entries| == |h.entries|
    ensures MayHang(AfterAbort(h), j) <==> SurvivesAbort(h, j)
  {
    if h.pending == Some(j) {
      AbortFate(h.entries[j].txn);
    }
  }

  lemma AbortFate(t: T.Txn)
    requires T.Inv(t) && T.Enabled(t, T.EAbort)
    ensures var t' := T.Apply(t, T.EAbort);
            t'.phase == t.phase && t'.infinite == t.infinite && !Hangs(t') && forall m :: T.ReceptionOf(t', m) == T.ReceptionOf(t, m)
  {
  }

  /** The destructor, seen from its call: it comes back for sure if and only if no transaction, in flight or queued,
      can hang in spite of the abort. */
  lemma DestructorEndsIff(h: Handler)
    requires HandlerInv(h) && h.queue.runWorkerThread && (h.pending.Some? ==> Enabled(h, UserAbort(h.pending.value)))
    ensures SurelyJoins(AfterAbort(h)) <==> forall j :: 0 <= j < |h.entries| ==> !SurvivesAbort(h, j)
  {
    if h.pending.Some? {
      InvStep(h, UserAbort(h.pending.value));
    }
    forall j | 0 <= j < |h.entries| ensures |AfterAbort(h).entries| == |h.entries| && (MayHang(AfterAbort(h), j) <==> SurvivesAbort(h, j)) {
      AbortLeavesIff(h, j);
    }
    JoinsIff(AfterAbort(h));
  }

  /** If nothing happens between the abort and the stop, only the transaction in flight matters. */
  lemma UninterruptedIff(h: Handler)
    requires HandlerInv(h) && (h.pending.Some? ==> Enabled(h, UserAbort(h.pending.value))) && Enabled(AfterAbort(h), Stop)
    ensures TakenOut(h) <= |h.entries|
    ensures SurelyExits(Next(AfterAbort(h), Stop)) <==> (|h.queue.done| < TakenOut(h) ==> !SurvivesAbort(h, |h.queue.done|))
  {
    if h.pending.Some? {
      InvStep(h, UserAbort(h.pending.value));
    }
    InvStep(AfterAbort(h), Stop);
    OnlyInFlightHangs(h);
    StopKeepsFate(AfterAbort(h));
    ExitsIff(Next(AfterAbort(h), Stop));
    if |h.queue.done| < TakenOut(h) {
      AbortLeavesIff(h, |h.queue.done|);
    }
  }
}
