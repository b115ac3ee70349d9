/** Transactions that no wake-up ends, and what they do to those behind them. */
module HandlerHangs {
  import opened DpaMessages
  import opened TransactionResults
  import opened HandlerMachine
  import opened HandlerInvariant
  import T = TransactionMachine
  import TR = TransactionRuns

  /** An infinite transaction that got no response and no abort: no wake-up ends it. */
  predicate Hangs(t: T.Txn) {
    t.phase.Looping? && t.infinite && t.state in {T.SentCoordinator, T.ConfirmationReceived}
  }

  lemma HangsIff(x: Entry)
    requires EntryInv(x) && x.txn.phase.Looping?
    ensures Hangs(x.txn) <==>
              x.born.infinite && (TR.StandingOf(x.born.request, x.events).Waiting? || TR.StandingOf(x.born.request, x.events).Confirmed?)
  {
    TR.StateFollowsLog(x.born, x.events);
    TR.Fixed(x.born, x.events);
  }

  /** The worker is held up by the transaction it executes. */
  predicate HeldUp(h: Handler) {
    InTask(h) && h.task.Executing? && h.queue.pc.task < |h.entries| && Hangs(h.entries[h.queue.pc.task].txn)
  }

  /** Transaction i is executed and hangs. */
  predicate HangsAt(h: Handler, i: nat) {
    HeldUp(h) && h.queue.pc.task == i
  }

  /** The step is neither an abort of transaction i nor the delivery of a matching response to it. */
  predicate Harmless(h: Handler, s: Step, i: nat)
    requires Enabled(h, s)
  {
    && s != UserAbort(i)
    && (s.Deliver? && h.received.value.0 == i ==>
          var m := h.received.value.1;
          T.ReceptionOf(h.entries[i].txn, m) == T.Accepted ==> MessageDirection(m) != Response)
  }

  lemma HangingStep(t: T.Txn, e: T.Event)
    requires T.Inv(t) && Hangs(t) && T.Enabled(t, e)
    ensures Hangs(T.Apply(t, e)) <==>
              !e.EAbort? && (e.EReceive? && T.ReceptionOf(t, e.message) == T.Accepted ==> MessageDirection(e.message) != Response)
  {
    if e.EReceive? && T.ReceptionOf(t, e.message) == T.Accepted {
      TR.AcceptedMatches(t.request, e.message);
    }
  }

  /** While a transaction is executed, only its return moves the worker. */
  lemma ExecutingStays(h: Handler, s: Step)
    requires Enabled(h, s) && InTask(h) && h.task.Executing? && h.queue.pc.task < |h.entries|
    requires h.entries[h.queue.pc.task].txn.phase.Looping?
    ensures Next(h, s).queue.pc == h.queue.pc && Next(h, s).task == h.task
  {
  }

  /** What ends the hanging. */
  lemma HangsOnIff(h: Handler, s: Step, i: nat)
    requires HandlerInv(h) && HangsAt(h, i) && Enabled(h, s)
    ensures HangsAt(Next(h, s), i) <==> Harmless(h, s, i)
    ensures Next(h, s).queue.pc == h.queue.pc
  {
    assert h.entries[i] in h.entries && EntryInv(h.entries[i]);
    ExecutingStays(h, s);
    StepTouchesOne(h, s);
    if Touched(h, s).Some? && Touched(h, s).value.0 == i {
      HangingStep(h.entries[i].txn, Touched(h, s).value.1);
    }
  }

  predicate Undisturbed(h: Handler, ss: seq<Step>, i: nat)
    requires CanRun(h, ss)
  {
    ss == [] || (Undisturbed(h, ss[..|ss| - 1], i) && Harmless(Run(h, ss[..|ss| - 1]), ss[|ss| - 1], i))
  }

  /** A hanging transaction holds up everybody behind it: in every run in which no response is delivered to it
      and nobody aborts it, it hangs on, the worker does not exit, and no younger transaction starts, those pushed
      meanwhile included. A stop makes no difference. */
  lemma {:induction false} HoldsUpForEver(h: Handler, ss: seq<Step>, i: nat)
    requires HandlerInv(h) && HangsAt(h, i) && CanRun(h, ss) && Undisturbed(h, ss, i)
    ensures HandlerInv(Run(h, ss)) && HangsAt(Run(h, ss), i) && !Run(h, ss).queue.pc.Exited?
    ensures forall j :: i < j < |Run(h, ss).entries| ==> Run(h, ss).entries[j].txn.phase.NotStarted?
    decreases |ss|
  {
    if ss == [] {
    } else {
      HoldsUpForEver(h, ss[..|ss| - 1], i);
      HangsOnIff(Run(h, ss[..|ss| - 1]), ss[|ss| - 1], i);
      InvStep(Run(h, ss[..|ss| - 1]), ss[|ss| - 1]);
    }
    TaskNumber(Run(h, ss));
  }

  // ---------- Who will hang ----------

  /** The error that a transaction which is not started will be executed with, if nobody pushes any more. */
  function ErrorAhead(h: Handler, i: nat): int
    requires i < |h.entries|
  {
    var size := if InTask(h) && h.task.Sized? && h.queue.pc.task == i then h.task.size else |h.entries| - i - 1;
    ErrorForSize(size, h.entries[i].born.defaultError)
  }

  /** The receive thread carries a message for the transaction that will be accepted. */
  predicate IsUnderWay(h: Handler, i: nat, direction: MessageType)
    requires i < |h.entries|
  {
    && h.received.Some? && h.received.value.0 == i
    && T.ReceptionOf(h.entries[i].txn, h.received.value.1) == T.Accepted && MessageDirection(h.received.value.1) == direction
  }

  /** The transaction hangs with no response under way, or will hang once it is started. */
  predicate WillHang(h: Handler, i: nat)
    requires i < |h.entries|
  {
    var t := h.entries[i].txn;
    || (Hangs(t) && !IsUnderWay(h, i, Response))
    || (t.phase.NotStarted? && t.infinite && ErrorAhead(h, i) == TRN_OK)
  }

  /** Whether the transaction hangs depends on whether the message under way comes first or the worker: a response
      can come before the start and be forgotten, a confirmation can undo a response or an abort. */
  predicate IsOpen(h: Handler, i: nat)
    requires i < |h.entries|
  {
    var t := h.entries[i].txn;
    && t.infinite
    && if t.phase.NotStarted? then ErrorAhead(h, i) == TRN_OK && IsUnderWay(h, i, Response)
       else t.phase.Looping? && t.phase.wait > 0 && !Hangs(t) && IsUnderWay(h, i, Confirmation)
  }

  predicate MayHang(h: Handler, i: nat)
    requires i < |h.entries|
  {
    WillHang(h, i) || IsOpen(h, i)
  }
}
