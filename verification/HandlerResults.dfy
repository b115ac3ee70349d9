/** The main results about the handler, for every run of all its threads. */
module HandlerResults {
  import opened Wrappers
  import opened TransactionResults
  import opened HandlerMachine
  import opened HandlerInvariant
  import T = TransactionMachine
  import TR = TransactionRuns
  import TO = TransactionOutcomes

  // ---------- The wire is serial ----------

  lemma {:induction false} ScanPrefix(log: seq<LogEntry>, k: nat)
    requires Scan(log).Some? && k <= |log|
    ensures Scan(log[..k]).Some?
    decreases |log|
  {
    if k == |log| {
      assert log[..k] == log;
    } else {
      ScanPrefix(log[..|log| - 1], k);
      assert log[..|log| - 1][..k] == log[..k];
    }
  }

  /** After transaction i was sent at a, the log stays with i until it finishes i, and goes beyond i afterwards. */
  lemma {:induction false} ScanAfterSent(log: seq<LogEntry>, a: nat, b: nat, i: nat)
    requires Scan(log).Some? && a < b <= |log| && log[a] == Sent(i)
    ensures Scan(log[..b]) == Some((i, true))
      || (Scan(log[..b]).Some? && Scan(log[..b]).value.0 > i && exists c :: a < c < b && log[c].Finished? && log[c].id == i)
    decreases b
  {
    ScanPrefix(log, b);
    ScanPrefix(log, b - 1);
    assert log[..b][..b - 1] == log[..b - 1];
    if b > a + 1 {
      ScanAfterSent(log, a, b - 1, i);
    }
  }

  lemma SerialLog(log: seq<LogEntry>, a: nat, b: nat)
    requires Scan(log).Some? && a < b < |log| && log[a].Sent? && log[b].Sent?
    ensures log[a].id < log[b].id && exists c :: a < c < b && log[c].Finished? && log[c].id == log[a].id
  {
    ScanAfterSent(log, a, b, log[a].id);
    ScanPrefix(log, b + 1);
    assert log[..b + 1][..b] == log[..b];
  }

  /** Serialised wire: whatever the threads do, transactions are sent in the order of their pushes, each at
      most once, and between two sends the first of the two transactions finished. */
  lemma SerialWire(h0: Handler, ss: seq<Step>, a: nat, b: nat)
    requires IsNewHandler(h0) && CanRun(h0, ss)
    requires a < b < |Run(h0, ss).log| && Run(h0, ss).log[a].Sent? && Run(h0, ss).log[b].Sent?
    ensures var log := Run(h0, ss).log;
            log[a].id < log[b].id && exists c :: a < c < b && log[c].Finished? && log[c].id == log[a].id
  {
    NewHandlerInv(h0);
    InvHolds(h0, ss);
    SerialLog(Run(h0, ss).log, a, b);
  }

  /** What the log says about transaction i agrees with the transaction. */
  ghost predicate LogAgrees(h: Handler, i: nat) {
    && (Sent(i) in h.log <==> i < |h.entries| && h.entries[i].txn.sent != [])
    && forall code :: Finished(i, code) in h.log ==>
         i < |h.entries| && h.entries[i].txn.finish
         && (h.entries[i].txn.result.Some? ==> ErrorCode(h.entries[i].txn.result.value) == code)
  }

  lemma {:induction false} LogIsTrue(h0: Handler, ss: seq<Step>, i: nat)
    requires IsNewHandler(h0) && CanRun(h0, ss)
    ensures LogAgrees(Run(h0, ss), i)
    decreases |ss|
  {
    if ss == [] {
    } else {
      var before, s := ss[..|ss| - 1], ss[|ss| - 1];
      LogIsTrue(h0, before, i);
      NewHandlerInv(h0);
      InvHolds(h0, before);
      LogAgreesStep(Run(h0, before), s, i);
    }
  }

  lemma LogAgreesExecute(h: Handler, channel: CallEnd, i: nat)
    requires Enabled(h, Execute(channel)) && LogAgrees(h, i)
    ensures LogAgrees(Next(h, Execute(channel)), i)
  {
    StepTouchesOne(h, Execute(channel));
    StartStep(h.entries[h.queue.pc.task].txn, StartEvent(h, channel).defaultError);
  }

  lemma LogAgreesWake(h: Handler, expired: bool, i: nat)
    requires Enabled(h, Wake(expired)) && LogAgrees(h, i)
    ensures LogAgrees(Next(h, Wake(expired)), i)
  {
    StepTouchesOne(h, Wake(expired));
    WakeStep(h.entries[h.queue.pc.task].txn, expired);
  }

  lemma LogAgreesStep(h: Handler, s: Step, i: nat)
    requires HandlerInv(h) && Enabled(h, s) && LogAgrees(h, i)
    ensures LogAgrees(Next(h, s), i)
  {
    if s.Execute? {
      LogAgreesExecute(h, s.channel, i);
    } else if s.Wake? {
      LogAgreesWake(h, s.expired, i);
    } else {
      assert Next(h, s).log == h.log;
      StepTouchesOne(h, s);
      if Touched(h, s).Some? {
        var (id, e) := Touched(h, s).value;
        ForeignStep(h.entries[id].txn, e);
        if h.entries[id].txn.finish {
          ForeignResult(h.entries[id].txn, e);
        }
      }
    }
  }

  lemma ForeignResult(t: T.Txn, e: T.Event)
    requires T.Inv(t) && T.Enabled(t, e) && (e.EReceive? || e.EAbort? || e.ETake?) && t.finish
    ensures T.Apply(t, e).result == t.result || T.Apply(t, e).result.None?
  {
  }

  // ---------- The overload rule ----------

  /** The judgement of a dequeued transaction: the number of younger transactions pushed so far. */
  lemma JudgedByYounger(h: Handler)
    requires HandlerInv(h) && Enabled(h, ReadSize)
    ensures h.queue.pc.task < |h.entries|
    ensures Next(h, ReadSize).younger == h.younger[h.queue.pc.task := |h.entries| - h.queue.pc.task - 1]
  {
    TaskNumber(h);
  }

  lemma YoungerStep(h: Handler, s: Step, i: nat)
    requires HandlerInv(h) && Enabled(h, s) && i in Next(h, s).younger
    ensures (i in h.younger && Next(h, s).younger[i] == h.younger[i]) || Next(h, s).younger[i] == |h.entries| - i - 1
  {
    if s.ReadSize? {
      JudgedByYounger(h);
    }
  }

  /** With no pushes, whoever is judged is judged by its place in the backlog. */
  lemma {:induction false} BacklogJudgement(h: Handler, ss: seq<Step>, i: nat)
    requires HandlerInv(h) && CanRun(h, ss) && (forall s :: s in ss ==> !s.Push?)
    requires i !in h.younger && i in Run(h, ss).younger
    ensures Run(h, ss).younger[i] == |h.entries| - i - 1
    decreases |ss|
  {
    NoPushKeepsEntries(h, ss);
    if ss == [] {
    } else {
      var before := ss[..|ss| - 1];
      NoPushKeepsEntries(h, before);
      InvHolds(h, before);
      YoungerStep(Run(h, before), ss[|ss| - 1], i);
      if i in Run(h, before).younger {
        BacklogJudgement(h, before, i);
      }
    }
  }

  lemma {:induction false} NoPushKeepsEntries(h: Handler, ss: seq<Step>)
    requires HandlerInv(h) && CanRun(h, ss) && (forall s :: s in ss ==> !s.Push?)
    ensures |Run(h, ss).entries| == |h.entries|
    decreases |ss|
  {
    if ss == [] {
    } else {
      NoPushKeepsEntries(h, ss[..|ss| - 1]);
      StepTouchesOne(Run(h, ss[..|ss| - 1]), ss[|ss| - 1]);
    }
  }

  predicate Rejected(h: Handler, i: nat) {
    i in h.younger && h.younger[i] >= 16
  }

  /** Once the transaction is finished, its result, wherever it still is, has this code. */
  predicate EndsWith(t: T.Txn, code: int) {
    t.finish && t.result.Some? ==> ErrorCode(t.result.value) == code
  }

  /** What became of transaction x after it was started with this error: sent, or ended with the error. */
  predicate Obeys(x: Entry, error: int) {
    if error == TRN_OK then x.txn.sent == [x.txn.request] else x.txn.sent == [] && EndsWith(x.txn, error)
  }

  lemma StartedIsJudged(h: Handler, i: nat)
    requires HandlerInv(h) && i < |h.entries| && !h.entries[i].txn.phase.NotStarted?
    ensures i in h.younger
  {
    var x := h.entries[i];
    assert EntryInv(x) && JudgedRightly(h.younger, i, x);
    TO.StartIsRecorded(x.born, x.events);
  }

  /** Overload rule: of a backlog that is worked off with no new pushes, whatever else happens, exactly those
      that have at least 16 younger ones behind them (so of n transactions in the queue the oldest n - 16, if
      any) are not sent and end with the code for a full queue; all others are sent, or end with the error
      that their users asked for. */
  lemma Overload(h: Handler, ss: seq<Step>, i: nat)
    requires HandlerInv(h) && CanRun(h, ss) && (forall s :: s in ss ==> !s.Push?)
    requires i !in h.younger && i < |Run(h, ss).entries| && !Run(h, ss).entries[i].txn.phase.NotStarted?
    ensures var x := Run(h, ss).entries[i];
            Obeys(x, if i + 16 < |h.entries| then -2 else x.born.defaultError)
  {
    InvHolds(h, ss);
    StartedIsJudged(Run(h, ss), i);
    BacklogJudgement(h, ss, i);
    if Rejected(Run(h, ss), i) {
      RejectionIsEarned(Run(h, ss), i);
    } else {
      AcceptanceIsKept(Run(h, ss), i);
    }
  }

  /** Under any interleaving with pushes: a rejected transaction has at least 16 younger ones; it is never sent
      and if it finished, then with the code for a full queue. */
  lemma RejectionIsEarned(h: Handler, i: nat)
    requires HandlerInv(h) && Rejected(h, i)
    ensures i + 16 < |h.entries| && Obeys(h.entries[i], -2)
  {
    var x := h.entries[i];
    assert EntryInv(x) && JudgedRightly(h.younger, i, x);
    StartErrorDecides(x, TRN_ERROR_IFACE_QUEUE_FULL);
  }

  /** A transaction that was not rejected is executed with the error its user gave; if that is none, it is sent. */
  lemma AcceptanceIsKept(h: Handler, i: nat)
    requires HandlerInv(h) && i < |h.entries| && !h.entries[i].txn.phase.NotStarted? && !Rejected(h, i)
    ensures Obeys(h.entries[i], h.entries[i].born.defaultError)
  {
    var x := h.entries[i];
    assert EntryInv(x) && JudgedRightly(h.younger, i, x);
    StartErrorDecides(x, x.born.defaultError);
  }

  lemma {:induction false} DefaultErrorIsRecorded(t0: T.Txn, es: seq<T.Event>, e: T.Event)
    requires T.Inv(t0) && t0.phase.NotStarted? && TR.CanRun(t0, es) && e.EStart? && e in es
    ensures TR.Run(t0, es).defaultError == e.defaultError && !TR.Run(t0, es).phase.NotStarted?
  {
    assert es == TR.Front(es) + [TR.Last(es)];
    TO.StartedStep(TR.Run(t0, TR.Front(es)), TR.Last(es));
    if e in TR.Front(es) {
      DefaultErrorIsRecorded(t0, TR.Front(es), e);
    }
  }

  /** A transaction that is started with an error, if it is started at all, is not sent and ends with it. */
  lemma StartErrorDecides(x: Entry, error: int)
    requires EntryInv(x) && forall e :: e in x.events && e.EStart? ==> e.defaultError == error
    ensures error != TRN_OK || !x.txn.phase.NotStarted? ==> Obeys(x, error)
  {
    TO.StartIsRecorded(x.born, x.events);
    if !x.txn.phase.NotStarted? {
      var e :| e in x.events && e.EStart?;
      DefaultErrorIsRecorded(x.born, x.events, e);
      if x.txn.finish && error != TRN_OK {
        var k := TO.Outcome(x.born, x.events);
        StartedWithError(x.born, x.events, k, error);
      }
    }
  }

  lemma StartedWithError(t0: T.Txn, es: seq<T.Event>, k: nat, error: int)
    requires TR.IsFresh(t0) && TR.CanRun(t0, es) && TO.EndsAt(t0, es, k) && error != TRN_OK
    requires forall e :: e in es && e.EStart? ==> e.defaultError == error
    ensures TR.StandingOf(t0.request, es[..k]) == TR.Failed(error)
  {
    var log := es[..k];
    assert TR.Front(es[..k + 1]) == log;
    TO.StartIsRecorded(t0, log);
    var e :| e in log && e.EStart?;
    DefaultErrorIsRecorded(t0, log, e);
    ErrorKeepsOthersOut(t0, log, error);
  }

  lemma {:induction false} ErrorKeepsOthersOut(t0: T.Txn, es: seq<T.Event>, error: int)
    requires TR.IsFresh(t0) && TR.CanRun(t0, es) && error != TRN_OK && !TR.Run(t0, es).finish
    requires !TR.Run(t0, es).phase.NotStarted?
    requires forall e :: e in es && e.EStart? ==> e.defaultError == error
    ensures TR.StandingOf(t0.request, es) == TR.Failed(error)
  {
    assert es == TR.Front(es) + [TR.Last(es)];
    TR.FinishLatches(t0, es, |es| - 1);
    if !TR.Run(t0, TR.Front(es)).phase.NotStarted? {
      ErrorKeepsOthersOut(t0, TR.Front(es), error);
      TR.StateFollowsLog(t0, TR.Front(es));
    }
  }
}
