/** Who is served: exact results about every way in which a handler that is left alone comes to rest. */
module HandlerService {
  import opened DpaMessages
  import opened TransactionResults
  import opened HandlerMachine
  import opened HandlerInvariant
  import opened HandlerResults
  import opened HandlerHangs
  import opened HandlerProgress
  import opened HandlerFates
  import T = TransactionMachine
  import TR = TransactionRuns
  import TD = TransactionDurations

  // ---------- Open races ----------

  lemma OpenIsExecuted(h: Handler, i: nat)
    requires HandlerInv(h) && i < |h.entries| && IsOpen(h, i)
    ensures InTask(h) && h.queue.pc.task == i == |h.queue.done| && !h.task.Called?
    ensures h.entries[i].txn.phase.NotStarted? <==> !h.task.Executing?
    ensures EntryInv(h.entries[i]) && h.received.Some? && h.received.value.0 == i
  {
    assert h.entries[i] in h.entries && EntryInv(h.entries[i]);
    if InTask(h) {
      TaskNumber(h);
    }
  }

  /** The message comes first. */
  lemma DeliveryFirst(h: Handler, i: nat)
    requires HandlerInv(h) && i < |h.entries| && IsOpen(h, i)
    ensures Enabled(h, Deliver) && |Next(h, Deliver).entries| == |h.entries|
    ensures WillHang(Next(h, Deliver), i) && !IsOpen(Next(h, Deliver), i)
  {
    OpenIsExecuted(h, i);
    StepTouchesOne(h, Deliver);
    var t, m := h.entries[i].txn, h.received.value.1;
    if t.phase.Looping? {
      TR.AcceptedMatches(t.request, m);
    } else {
      ReceiptFate(t, m);
    }
  }

  /** The worker comes first. */
  lemma WorkerFirst(h: Handler, i: nat) returns (ss: seq<Step>)
    requires HandlerInv(h) && i < |h.entries| && IsOpen(h, i)
    ensures CanRun(h, ss) && (forall s :: s in ss ==> IsInternal(s)) && |Run(h, ss).entries| == |h.entries|
    ensures !WillHang(Run(h, ss), i) && !IsOpen(Run(h, ss), i)
  {
    OpenIsExecuted(h, i);
    if h.task.Executing? {
      WakeFirst(h, i);
      RunOne(h, Wake(false));
      ss := [Wake(false)];
    } else if h.task.Sized? {
      ss := StartFirst(h, i);
    } else {
      RunOne(h, ReadSize);
      InvStep(h, ReadSize);
      SizedIsOpen(h, i);
      ss := StartFirst(Next(h, ReadSize), i);
      RunCons(h, ReadSize, ss);
      ss := [ReadSize] + ss;
    }
  }

  lemma WakeFirst(h: Handler, i: nat)
    requires HandlerInv(h) && i < |h.entries| && IsOpen(h, i) && h.task.Executing?
    ensures Enabled(h, Wake(false)) && |Next(h, Wake(false)).entries| == |h.entries|
    ensures !WillHang(Next(h, Wake(false)), i) && !IsOpen(Next(h, Wake(false)), i)
  {
    OpenIsExecuted(h, i);
    InfiniteEnds(h.entries[i], false);
    StepTouchesOne(h, Wake(false));
  }

  lemma SizedIsOpen(h: Handler, i: nat)
    requires HandlerInv(h) && i < |h.entries| && IsOpen(h, i) && InTask(h) && h.task.Assigned? && h.queue.pc.task == i
    ensures |Next(h, ReadSize).entries| == |h.entries| && IsOpen(Next(h, ReadSize), i)
  {
    TaskNumber(h);
  }

  lemma StartFirst(h: Handler, i: nat) returns (ss: seq<Step>)
    requires HandlerInv(h) && i < |h.entries| && IsOpen(h, i) && InTask(h) && h.task.Sized?
    ensures CanRun(h, ss) && (forall s :: s in ss ==> IsInternal(s)) && |Run(h, ss).entries| == |h.entries|
    ensures !WillHang(Run(h, ss), i) && !IsOpen(Run(h, ss), i)
  {
    StartMeetsAnswer(h, i);
    AnswerEnds(Next(h, Execute(Returns)), i);
    TwoSteps(h, Execute(Returns), Deliver);
    ss := [Execute(Returns), Deliver];
  }

  lemma StartMeetsAnswer(h: Handler, i: nat)
    requires HandlerInv(h) && i < |h.entries| && IsOpen(h, i) && InTask(h) && h.task.Sized?
    ensures Enabled(h, Execute(Returns)) && |Next(h, Execute(Returns)).entries| == |h.entries|
    ensures var h' := Next(h, Execute(Returns));
            Hangs(h'.entries[i].txn) && IsUnderWay(h', i, Response) && T.Inv(h'.entries[i].txn) && T.Unlocked(h'.entries[i].txn)
  {
    OpenIsExecuted(h, i);
    StepTouchesOne(h, Execute(Returns));
    StartHangsIff(h.entries[i].txn, TRN_OK, false);
    var x := Extended(h.entries[i], StartEvent(h, Returns));
    EntryStep(h.entries[i], StartEvent(h, Returns));
    TD.NoEmptyIteration(x.born, x.events);
  }

  lemma AnswerEnds(h: Handler, i: nat)
    requires i < |h.entries| && Hangs(h.entries[i].txn) && IsUnderWay(h, i, Response) && T.Inv(h.entries[i].txn)
    requires T.Unlocked(h.entries[i].txn)
    ensures Enabled(h, Deliver) && |Next(h, Deliver).entries| == |h.entries|
    ensures !WillHang(Next(h, Deliver), i) && !IsOpen(Next(h, Deliver), i)
  {
    StepTouchesOne(h, Deliver);
    ReceiptFate(h.entries[i].txn, h.received.value.1);
  }

  // ---------- Who is served ----------

  /** However the handler that is left alone comes to rest, the transaction is then finished. */
  ghost predicate IsSurelyServed(h: Handler, i: nat) {
    forall ss :: Settles(h, ss) ==> i < |Run(h, ss).entries| && Run(h, ss).entries[i].txn.finish
  }

  ghost predicate CanBeServed(h: Handler, i: nat) {
    exists ss :: Settles(h, ss) && i < |Run(h, ss).entries| && Run(h, ss).entries[i].txn.finish
  }

  /** A run that comes to rest, and before that passes through a state reached by some internal steps. */
  lemma SettleAfter(h: Handler, ss: seq<Step>) returns (all: seq<Step>)
    requires HandlerInv(h) && CanRun(h, ss) && forall s :: s in ss ==> IsInternal(s)
    ensures Settles(h, all) && ss <= all
    ensures HandlerInv(Run(h, ss)) && Settles(Run(h, ss), all[|ss|..]) && Run(Run(h, ss), all[|ss|..]) == Run(h, all)
  {
    InternalRun(h, ss);
    var rest := RestIsReached(Run(h, ss));
    RunConcat(h, ss, rest);
    all := ss + rest;
    assert all[|ss|..] == rest;
  }

  /** Who is served for sure: from any state, whatever the order of the internal steps, a transaction finishes if
      and only if it is still to be taken out of the queue (after a stop: was already taken out), and neither
      it nor an older one hangs or may come to hang. So everybody behind an infinite transaction that gets no
      answer waits. */
  lemma SurelyServedIff(h: Handler, i: nat)
    requires HandlerInv(h) && i < |h.entries|
    ensures IsSurelyServed(h, i) <==> i < Reach(h) && forall j :: 0 <= j <= i ==> !MayHang(h, j)
  {
    if i < Reach(h) && forall j :: 0 <= j <= i ==> !MayHang(h, j) {
      forall ss | Settles(h, ss) ensures i < |Run(h, ss).entries| && Run(h, ss).entries[i].txn.finish {
        DecidedAreServed(h, ss, i);
      }
    } else {
      var ss := NotSurelyServed(h, i);
      assert !(i < |Run(h, ss).entries| && Run(h, ss).entries[i].txn.finish);
    }
  }

  lemma DecidedAreServed(h: Handler, ss: seq<Step>, i: nat)
    requires HandlerInv(h) && Settles(h, ss) && i < |h.entries| && i < Reach(h)
    requires forall j :: 0 <= j <= i ==> !MayHang(h, j)
    ensures i < |Run(h, ss).entries| && Run(h, ss).entries[i].txn.finish
  {
    InternalRun(h, ss);
    forall j | 0 <= j <= i ensures !WillHang(Run(h, ss), j) {
      assert !MayHang(h, j);
      RunKeepsFate(h, ss, j);
    }
    RestServes(Run(h, ss), i);
  }

  lemma NotSurelyServed(h: Handler, i: nat) returns (ss: seq<Step>)
    requires HandlerInv(h) && i < |h.entries|
    requires !(i < Reach(h) && forall j :: 0 <= j <= i ==> !MayHang(h, j))
    ensures Settles(h, ss) && i < |Run(h, ss).entries| && !Run(h, ss).entries[i].txn.finish
  {
    if i >= Reach(h) {
      ss := RestIsReached(h);
      InternalRun(h, ss);
      RestServes(Run(h, ss), i);
    } else {
      var j :| 0 <= j <= i && MayHang(h, j);
      if IsOpen(h, j) {
        DeliveryFirst(h, j);
        RunOne(h, Deliver);
        ss := SettleAfter(h, [Deliver]);
        HangingIsNotServed(Next(h, Deliver), ss[1..], j, i);
      } else {
        ss := RestIsReached(h);
        HangingIsNotServed(h, ss, j, i);
      }
    }
  }

  /** Who can be served at all: the same, but that a transaction whose race is open may win it. */
  lemma CanBeServedIff(h: Handler, i: nat)
    requires HandlerInv(h) && i < |h.entries|
    ensures CanBeServed(h, i) <==> i < Reach(h) && forall j :: 0 <= j <= i ==> WillHang(h, j) ==> IsOpen(h, j)
  {
    if i < Reach(h) && forall j :: 0 <= j <= i ==> WillHang(h, j) ==> IsOpen(h, j) {
      var ss := ServesAtBest(h, i);
      assert Settles(h, ss) && i < |Run(h, ss).entries| && Run(h, ss).entries[i].txn.finish;
    } else {
      forall ss | Settles(h, ss) ensures !(i < |Run(h, ss).entries| && Run(h, ss).entries[i].txn.finish) {
        NeverServed(h, ss, i);
      }
    }
  }

  lemma NeverServed(h: Handler, ss: seq<Step>, i: nat)
    requires HandlerInv(h) && i < |h.entries| && Settles(h, ss)
    requires !(i < Reach(h) && forall j :: 0 <= j <= i ==> WillHang(h, j) ==> IsOpen(h, j))
    ensures i < |Run(h, ss).entries| && !Run(h, ss).entries[i].txn.finish
  {
    InternalRun(h, ss);
    RestServes(Run(h, ss), i);
    if i < Reach(h) {
      var j :| 0 <= j <= i && WillHang(h, j) && !IsOpen(h, j);
      HangingIsNotServed(h, ss, j, i);
    }
  }

  lemma ServesAtBest(h: Handler, i: nat) returns (ss: seq<Step>)
    requires HandlerInv(h) && i < |h.entries| && i < Reach(h)
    requires forall j :: 0 <= j <= i ==> WillHang(h, j) ==> IsOpen(h, j)
    ensures Settles(h, ss) && i < |Run(h, ss).entries| && Run(h, ss).entries[i].txn.finish
  {
    if j :| 0 <= j <= i && IsOpen(h, j) {
      var first := WorkerFirst(h, j);
      InternalRun(h, first);
      var h' := Run(h, first);
      forall j' | 0 <= j' <= i ensures !MayHang(h', j') {
        if j' != j {
          OnlyOneOpen(h, j, j');
          RunKeepsFate(h, first, j');
        }
      }
      ss := SettleAfter(h, first);
      DecidedAreServed(h', ss[|first|..], i);
    } else {
      ss := RestIsReached(h);
      DecidedAreServed(h, ss, i);
    }
  }

  lemma OnlyOneOpen(h: Handler, j: nat, j': nat)
    requires HandlerInv(h) && j < |h.entries| && j' < |h.entries| && IsOpen(h, j) && j != j'
    ensures !IsOpen(h, j')
  {
  }

  /** Everyone is served: from every state that a running handler can reach, the worker, the receive thread, the
      notifications still owed and the expiry of waits are enough to finish every transaction that was ever
      pushed, in whatever order they come, if and only if none of them hangs or may come to hang. */
  lemma EveryoneIsServed(h0: Handler, ss: seq<Step>)
    requires IsNewHandler(h0) && CanRun(h0, ss) && Run(h0, ss).queue.runWorkerThread
    ensures HandlerInv(Run(h0, ss))
    ensures var h := Run(h0, ss);
            (forall i :: 0 <= i < |h.entries| ==> IsSurelyServed(h, i)) <==> (forall i :: 0 <= i < |h.entries| ==> !MayHang(h, i))
  {
    NewHandlerInv(h0);
    InvHolds(h0, ss);
    AllServedIff(Run(h0, ss));
  }

  lemma AllServedIff(h: Handler)
    requires HandlerInv(h) && h.queue.runWorkerThread
    ensures (forall i :: 0 <= i < |h.entries| ==> IsSurelyServed(h, i)) <==> (forall i :: 0 <= i < |h.entries| ==> !MayHang(h, i))
  {
    forall i | 0 <= i < |h.entries|
      ensures IsSurelyServed(h, i) ==> !MayHang(h, i)
      ensures (forall j :: 0 <= j < |h.entries| ==> !MayHang(h, j)) ==> IsSurelyServed(h, i)
    {
      SurelyServedIff(h, i);
    }
  }

  // ---------- The overload rule at work ----------

  /** Nobody else moves a result out or touches how a transaction was built. */
  lemma {:induction false} InternalKeeps(h: Handler, ss: seq<Step>, i: nat)
    requires HandlerInv(h) && CanRun(h, ss) && (forall s :: s in ss ==> IsInternal(s)) && i < |h.entries|
    ensures |Run(h, ss).entries| == |h.entries| && Run(h, ss).entries[i].born == h.entries[i].born
    ensures h.entries[i].txn.result.Some? ==> Run(h, ss).entries[i].txn.result.Some?
    decreases |ss|
  {
    if ss == [] {
    } else {
      InternalKeeps(h, ss[..|ss| - 1], i);
      KeepsEntry(Run(h, ss[..|ss| - 1]), ss[|ss| - 1], i);
    }
  }

  lemma KeepsEntry(h: Handler, s: Step, i: nat)
    requires Enabled(h, s) && IsInternal(s) && i < |h.entries|
    ensures |Next(h, s).entries| == |h.entries| && Next(h, s).entries[i].born == h.entries[i].born
    ensures h.entries[i].txn.result.Some? ==> Next(h, s).entries[i].txn.result.Some?
  {
    StepTouchesOne(h, s);
  }

  /** A running handler that is left alone with a backlog finishes every transaction in it that is not judged yet,
      up to the first that hangs. Of these the ones with at least 16 younger ones behind them are never sent and
      end with the code for a full queue; the others are sent, or end with the error that their users asked for. */
  lemma BacklogIsWorkedOff(h: Handler, ss: seq<Step>, i: nat)
    requires HandlerInv(h) && Settles(h, ss) && h.queue.runWorkerThread && i < |h.entries| && i !in h.younger
    requires forall j :: 0 <= j <= i ==> !MayHang(h, j)
    ensures |Run(h, ss).entries| == |h.entries|
    ensures var x, own := Run(h, ss).entries[i], h.entries[i].born.defaultError;
            && x.txn.finish && x.txn.result.Some?
            && Obeys(x, if i + 16 < |h.entries| then -2 else own)
  {
    DecidedAreServed(h, ss, i);
    InternalKeeps(h, ss, i);
    InternalRun(h, ss);
    UnjudgedIsUnstarted(h, i);
    FinishedIsStarted(Run(h, ss), i);
    assert forall s :: s in ss ==> IsInternal(s) && !s.Push?;
    Overload(h, ss, i);
  }

  lemma UnjudgedIsUnstarted(h: Handler, i: nat)
    requires HandlerInv(h) && i < |h.entries| && i !in h.younger
    ensures h.entries[i].txn.phase.NotStarted? && h.entries[i].txn.result.Some?
  {
    assert h.entries[i] in h.entries && EntryInv(h.entries[i]);
    if !h.entries[i].txn.phase.NotStarted? {
      StartedIsJudged(h, i);
    }
  }

  lemma FinishedIsStarted(h: Handler, i: nat)
    requires HandlerInv(h) && i < |h.entries| && h.entries[i].txn.finish
    ensures !h.entries[i].txn.phase.NotStarted?
  {
    assert h.entries[i] in h.entries && EntryInv(h.entries[i]);
  }
}
