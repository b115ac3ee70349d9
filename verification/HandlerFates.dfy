/** What internal steps leave unchanged: who will hang, and how far the worker gets. */
module HandlerFates {
  import opened DpaMessages
  import opened Wrappers
  import opened TransactionResults
  import opened HandlerMachine
  import opened HandlerInvariant
  import opened HandlerHangs
  import opened HandlerProgress
  import T = TransactionMachine
  import TR = TransactionRuns

  // ---------- One step ----------

  /** An infinite transaction that does not hang ends at the next wake-up. */
  lemma InfiniteEnds(x: Entry, expired: bool)
    requires EntryInv(x) && x.txn.infinite && !Hangs(x.txn) && T.Enabled(x.txn, T.EWake(expired))
    ensures T.Apply(x.txn, T.EWake(expired)).finish
  {
    HangsIff(x);
    TR.Fixed(x.born, x.events);
    TR.StateFollowsLog(x.born, x.events);
    TR.WakeDecides(x.born, x.events, expired);
  }

  lemma StartHangsIff(t: T.Txn, error: int, sendFails: bool)
    requires T.Inv(t) && t.phase.NotStarted? && !sendFails
    ensures var t' := T.Apply(t, T.EStart(error, sendFails));
            && (Hangs(t') <==> t.infinite && error == TRN_OK)
            && !t'.phase.NotStarted? && t'.infinite == t.infinite && (error != TRN_OK ==> t'.phase == T.Looping(0))
            && forall m :: T.ReceptionOf(t', m) == T.ReceptionOf(t, m)
  {
  }

  /** What a wake-up does to a transaction, as far as hanging is concerned. */
  lemma WakeFate(x: Entry, expired: bool)
    requires EntryInv(x) && T.Enabled(x.txn, T.EWake(expired))
    ensures var t' := T.Apply(x.txn, T.EWake(expired));
            && t'.infinite == x.txn.infinite && !t'.phase.NotStarted? && (Hangs(t') <==> Hangs(x.txn))
            && (t'.infinite && !Hangs(t') ==> t'.finish && t'.phase.Returned?)
            && (!t'.finish ==> forall m :: T.ReceptionOf(t', m) == T.ReceptionOf(x.txn, m))
  {
    if x.txn.infinite && !Hangs(x.txn) {
      InfiniteEnds(x, expired);
    }
  }

  /** What a message does to a transaction, as far as hanging is concerned. */
  lemma ReceiptFate(t: T.Txn, m: Message)
    requires T.Inv(t) && T.Unlocked(t)
    ensures var t', accepted := T.Receive(t, m), T.ReceptionOf(t, m) == T.Accepted;
            && t'.infinite == t.infinite && t'.phase == t.phase
            && (Hangs(t) ==> (Hangs(t') <==> !(accepted && MessageDirection(m) == Response)))
            && (!Hangs(t) && t.phase.Looping? && t.infinite && !(accepted && MessageDirection(m) == Confirmation) ==> !Hangs(t'))
  {
    if T.ReceptionOf(t, m) == T.Accepted {
      TR.AcceptedMatches(t.request, m);
    }
  }

  /** Whether the transaction will hang, and that this is decided, is the same in both states. */
  predicate SameFate(h: Handler, h': Handler, i: nat) {
    i < |h.entries| == |h'.entries| && !IsOpen(h', i) && WillHang(h', i) == WillHang(h, i)
  }

  /** Nothing happened to a transaction, or to a message for it. */
  lemma UntouchedFate(h: Handler, h': Handler, i: nat)
    requires i < |h.entries| == |h'.entries| && h'.entries[i] == h.entries[i] && !IsOpen(h, i)
    requires h'.received == h.received || (h.received.Some? && h.received.value.0 != i && h'.received.None?)
    requires h.entries[i].txn.phase.NotStarted? ==> ErrorAhead(h', i) == ErrorAhead(h, i)
    ensures SameFate(h, h', i)
  {
  }

  lemma IdleKeepsFate(h: Handler, s: Step, i: nat)
    requires HandlerInv(h) && Enabled(h, s) && i < |h.entries| && !IsOpen(h, i)
    requires s.Worker? || s.SpuriousWakeUp? || s.Notification? || s.Assign? || s.ReadSize?
    ensures SameFate(h, Next(h, s), i)
  {
    if InTask(h) {
      TaskNumber(h);
    }
    UntouchedFate(h, Next(h, s), i);
  }

  /** What starting transaction i means for it. */
  lemma StartedFate(h: Handler, h': Handler, i: nat, e: T.Event)
    requires i < |h.entries| == |h'.entries| && h'.received == h.received && !IsOpen(h, i)
    requires T.Inv(h.entries[i].txn) && h.entries[i].txn.phase.NotStarted? && e.EStart? && !e.sendFails
    requires e.defaultError == ErrorAhead(h, i) && h'.entries[i].txn == T.Apply(h.entries[i].txn, e)
    ensures SameFate(h, h', i)
  {
    StartHangsIff(h.entries[i].txn, e.defaultError, e.sendFails);
  }

  lemma ExecuteKeepsFate(h: Handler, channel: CallEnd, i: nat)
    requires HandlerInv(h) && Enabled(h, Execute(channel)) && i < |h.entries| && !IsOpen(h, i)
    ensures SameFate(h, Next(h, Execute(channel)), i)
  {
    StepTouchesOne(h, Execute(channel));
    if i == h.queue.pc.task {
      assert h.entries[i] in h.entries && EntryInv(h.entries[i]);
      StartedFate(h, Next(h, Execute(channel)), i, StartEvent(h, channel));
    } else {
      UntouchedFate(h, Next(h, Execute(channel)), i);
    }
  }

  lemma WakeKeepsFate(h: Handler, expired: bool, i: nat)
    requires HandlerInv(h) && Enabled(h, Wake(expired)) && i < |h.entries| && !IsOpen(h, i)
    ensures SameFate(h, Next(h, Wake(expired)), i)
  {
    StepTouchesOne(h, Wake(expired));
    if i == h.queue.pc.task {
      assert h.entries[i] in h.entries && EntryInv(h.entries[i]);
      WakeFate(h.entries[i], expired);
    } else {
      UntouchedFate(h, Next(h, Wake(expired)), i);
    }
  }

  /** What receiving the message under way means for transaction i. */
  lemma ReceivedFate(h: Handler, h': Handler, i: nat, m: Message)
    requires i < |h.entries| == |h'.entries| && h.received == Some((i, m)) && h'.received.None? && !IsOpen(h, i)
    requires T.Inv(h.entries[i].txn) && T.Unlocked(h.entries[i].txn)
    requires h'.entries[i].txn == T.Receive(h.entries[i].txn, m)
    requires ErrorAhead(h', i) == ErrorAhead(h, i)
    ensures SameFate(h, h', i)
  {
    ReceiptFate(h.entries[i].txn, m);
  }

  lemma DeliverKeepsFate(h: Handler, i: nat)
    requires HandlerInv(h) && Enabled(h, Deliver) && i < |h.entries| && !IsOpen(h, i)
    ensures SameFate(h, Next(h, Deliver), i)
  {
    StepTouchesOne(h, Deliver);
    if i == h.received.value.0 {
      ReceivedFate(h, Next(h, Deliver), i, h.received.value.1);
    } else {
      UntouchedFate(h, Next(h, Deliver), i);
    }
  }

  lemma StepKeepsFate(h: Handler, s: Step, i: nat)
    requires HandlerInv(h) && Enabled(h, s) && IsInternal(s) && i < |h.entries| && !IsOpen(h, i)
    ensures SameFate(h, Next(h, s), i)
  {
    match s
    case Execute(channel) => ExecuteKeepsFate(h, channel, i);
    case Wake(expired) => WakeKeepsFate(h, expired, i);
    case Deliver => DeliverKeepsFate(h, i);
    case _ => IdleKeepsFate(h, s, i);
  }

  // ---------- Internal runs ----------

  /** The transactions that the worker takes out of the queue sooner or later. */
  function Reach(h: Handler): nat {
    if h.queue.runWorkerThread then |h.entries| else TakenOut(h)
  }

  lemma InternalStep(h: Handler, s: Step)
    requires HandlerInv(h) && Enabled(h, s) && IsInternal(s)
    ensures |Next(h, s).entries| == |h.entries| && Reach(Next(h, s)) == Reach(h)
    ensures Next(h, s).queue.runWorkerThread == h.queue.runWorkerThread
  {
    StepTouchesOne(h, s);
    if !h.queue.runWorkerThread {
      StoppedStep(h, s);
    }
  }

  lemma {:induction false} InternalRun(h: Handler, ss: seq<Step>)
    requires HandlerInv(h) && CanRun(h, ss) && forall s :: s in ss ==> IsInternal(s)
    ensures HandlerInv(Run(h, ss)) && |Run(h, ss).entries| == |h.entries| && Reach(Run(h, ss)) == Reach(h)
    ensures Run(h, ss).queue.runWorkerThread == h.queue.runWorkerThread
    decreases |ss|
  {
    if ss == [] {
    } else {
      InternalRun(h, ss[..|ss| - 1]);
      InternalStep(Run(h, ss[..|ss| - 1]), ss[|ss| - 1]);
      InvStep(Run(h, ss[..|ss| - 1]), ss[|ss| - 1]);
    }
  }

  lemma {:induction false} RunKeepsFate(h: Handler, ss: seq<Step>, i: nat)
    requires HandlerInv(h) && CanRun(h, ss) && (forall s :: s in ss ==> IsInternal(s)) && i < |h.entries| && !IsOpen(h, i)
    ensures SameFate(h, Run(h, ss), i)
    decreases |ss|
  {
    if ss == [] {
    } else {
      var before := ss[..|ss| - 1];
      InternalRun(h, before);
      RunKeepsFate(h, before, i);
      StepKeepsFate(Run(h, before), ss[|ss| - 1], i);
    }
  }

  lemma RestServes(h: Handler, i: nat)
    requires HandlerInv(h) && AtRest(h) && i < |h.entries|
    ensures h.entries[i].txn.finish <==> i < Reach(h) && forall j :: 0 <= j <= i ==> !WillHang(h, j)
  {
    assert h.entries[i] in h.entries;
    assert forall j :: 0 <= j < |h.entries| ==> EntryInv(h.entries[j]);
    if HeldUp(h) {
      TaskNumber(h);
      assert WillHang(h, |h.queue.done|);
    }
  }

  /** Coming to rest, with a transaction whose fate is decided. */
  lemma HangingIsNotServed(h: Handler, ss: seq<Step>, j: nat, i: nat)
    requires HandlerInv(h) && Settles(h, ss) && j <= i < |h.entries| && WillHang(h, j) && !IsOpen(h, j)
    ensures i < |Run(h, ss).entries| && !Run(h, ss).entries[i].txn.finish
  {
    InternalRun(h, ss);
    RunKeepsFate(h, ss, j);
    RestServes(Run(h, ss), i);
  }
}
