/** What holds over every interleaving of execute, processReceivedMessage, abort and get. */
module TransactionRuns {
  import opened MachineInts
  import opened DpaMessages
  import opened TransactionResults
  import opened Timing
  import opened Wrappers
  import opened TransactionMachine

  function Front(es: seq<Event>): seq<Event>
    requires es != []
  {
    es[..|es| - 1]
  }

  function Last(es: seq<Event>): Event
    requires es != []
  {
    es[|es| - 1]
  }

  /** es is a run from t: every event was enabled when it happened. */
  predicate CanRun(t: Txn, es: seq<Event>)
    requires Inv(t)
    decreases |es|, 0
  {
    es == [] || (CanRun(t, Front(es)) && Enabled(Run(t, Front(es)), Last(es)))
  }

  function Run(t: Txn, es: seq<Event>): (t': Txn)
    requires Inv(t) && CanRun(t, es)
    ensures Inv(t')
    decreases |es|, 1
  {
    if es == [] then t else Apply(Run(t, Front(es)), Last(es))
  }

  lemma RunSnoc(t: Txn, es: seq<Event>, e: Event)
    requires Inv(t) && CanRun(t, es) && Enabled(Run(t, es), e)
    ensures CanRun(t, es + [e]) && Run(t, es + [e]) == Apply(Run(t, es), e)
  {
    assert Front(es + [e]) == es && Last(es + [e]) == e;
  }

  // ---------- The outcome, read off the log ----------

  /** What the events so far say about the state, whatever the durations, wake-ups and rejected messages. */
  datatype Standing =
    | Unstarted
    | Failed(code: int)      // default error or failed send
    | Waiting                // sent, and nothing since
    | Confirmed
    | Responded(first: bool) // first: nothing else was accepted since the send
    | Cut                    // aborted

  /** The last event that counts decides; for a response, also whether it is the first after the send. */
  function StandingOf(request: Message, es: seq<Event>): Standing {
    if es == [] then Unstarted
    else
      var before := StandingOf(request, Front(es));
      match Last(es)
      case EStart(defaultError, sendFails) =>
        if defaultError != TRN_OK then Failed(defaultError) else if sendFails then Failed(TRN_ERROR_IFACE) else Waiting
      case EAbort => if before.Unstarted? then before else Cut
      case EReceive(m) =>
        if before.Unstarted? || Check(request, m) != Accepted then before
        else if MessageDirection(m) == Confirmation then Confirmed
        else Responded(before.Waiting?)
      case EWake(_) => before
      case ETake => before
  }

  /** The last message of this direction that passed the checks. */
  function LastAccepted(request: Message, direction: MessageType, es: seq<Event>): Option<Message> {
    if es == [] then None
    else if Last(es).EReceive? && Check(request, Last(es).message) == Accepted && MessageDirection(Last(es).message) == direction
    then Some(Last(es).message)
    else LastAccepted(request, direction, Front(es))
  }

  function LastResponseCode(request: Message, es: seq<Event>): int {
    var m := LastAccepted(request, Response, es);
    if m.None? then TRN_OK else ResponseCode(m.value)
  }

  /** The result that the log stands for, before the final code is set. */
  function Recorded(request: Message, es: seq<Event>): Result {
    var c, r := LastAccepted(request, Confirmation, es), LastAccepted(request, Response, es);
    Result(request, if c.None? then Empty() else Copy(c.value), if r.None? then Empty() else Copy(r.value),
           TRN_ERROR_ABORTED, LastResponseCode(request, es), r.Some?, c.Some?)
  }

  /** What a wake-up does in a given standing: nothing, or the end with this code. */
  function Decision(request: Message, infinite: bool, s: Standing, expired: bool): Option<int> {
    match s
    case Unstarted => None
    case Failed(code) => Some(code)
    case Waiting => if expired && !infinite then Some(TRN_ERROR_TIMEOUT) else None
    case Confirmed =>
      if IsBroadcast(request) then if expired then Some(TRN_OK) else None
      else if expired && !infinite then Some(TRN_ERROR_TIMEOUT) else None
    case Responded(first) => if expired || infinite || (IsCoordinator(request) && first) then Some(TRN_OK) else None
    case Cut => Some(TRN_ERROR_ABORTED)
  }

  /** The state the engine must be in while it waits. */
  predicate StateFits(t: Txn, s: Standing) {
    match s
    case Unstarted => t.phase.NotStarted?
    case Failed(code) =>
      t.phase == Looping(0) && t.expected == 0 && code != TRN_OK
      && ((t.state == DefaultError && code == t.defaultError) || (t.state == InterfaceError && code == TRN_ERROR_IFACE))
    case Waiting => t.phase.Looping? && t.state == if IsCoordinator(t.request) then SentCoordinator else Sent
    case Confirmed => t.phase.Looping? && t.state == if IsBroadcast(t.request) then ConfirmationBroadcast else ConfirmationReceived
    case Responded(first) =>
      t.phase.Looping? && t.state == if t.infinite || (IsCoordinator(t.request) && first) then Processed else ReceivedResponse
    case Cut => t.phase.Looping? && t.state == Aborted
  }

  /** Accepted messages carry the request's address. */
  lemma AcceptedMatches(request: Message, m: Message)
    requires Check(request, m) == Accepted
    ensures LowAddress(m) == LowAddress(request)
    ensures PeripheralType(m) == PeripheralType(request) && PeripheralCommand(m) % BIT7 == PeripheralCommand(request)
    ensures MessageDirection(m) == Response || MessageDirection(m) == Confirmation
  {
  }

  /** Which messages are accepted, told from the bytes of message and request: a response or confirmation with the
      same address (bytes 0 and 1), peripheral (2) and command (3), which may have bit 7 set in addition. Nothing else
      is compared. The first difference in this order decides how a message is refused. */
  lemma CheckByBytes(request: Message, m: Message)
    ensures var a, b, check := m.buffer, request.buffer, Check(request, m);
            var expected := MessageDirection(m) == Response || MessageDirection(m) == Confirmation;
            var sameAddress := a[0] == b[0] && a[1] == b[1];
            var sameCommand := b[3] < 0x80 && (a[3] == b[3] || a[3] == b[3] + 0x80);
            && (check == NotExpected <==> !expected)
            && (check == WrongAddress <==> expected && !sameAddress)
            && (check == WrongPeripheral <==> expected && sameAddress && a[2] != b[2])
            && (check == WrongCommand <==> expected && sameAddress && a[2] == b[2] && !sameCommand)
            && (check == Accepted <==> expected && sameAddress && a[2] == b[2] && sameCommand)
  {
    HeaderByBytes(m);
    HeaderByBytes(request);
  }

  /** A step never changes what the constructor fixed. */
  lemma FixedStep(t: Txn, e: Event)
    requires Inv(t) && Enabled(t, e)
    ensures var t' := Apply(t, e);
            (t'.request, t'.mode, t'.osVersion, t'.infinite, t'.userTimeout)
            == (t.request, t.mode, t.osVersion, t.infinite, t.userTimeout)
  {
  }

  lemma {:induction false} Fixed(t: Txn, es: seq<Event>)
    requires Inv(t) && CanRun(t, es)
    ensures var t' := Run(t, es);
            (t'.request, t'.mode, t'.osVersion, t'.infinite, t'.userTimeout)
            == (t.request, t.mode, t.osVersion, t.infinite, t.userTimeout)
  {
    if es == [] {
    } else {
      Fixed(t, Front(es));
      FixedStep(Run(t, Front(es)), Last(es));
    }
  }

  lemma StandingStep(t: Txn, e: Event, s: Standing, s': Standing, es: seq<Event>)
    requires Inv(t) && Enabled(t, e) && es != [] && Last(es) == e
    requires StandingOf(t.request, Front(es)) == s && StandingOf(t.request, es) == s'
    requires !t.finish && StateFits(t, s) && !Apply(t, e).finish
    ensures StateFits(Apply(t, e), s')
  {
    EstimateRangeAll();
    match e
    case EReceive(m) =>
      if Check(t.request, m) == Accepted {
        AcceptedMatches(t.request, m);
      }
    case _ =>
  }

  lemma EstimateRangeAll()
    ensures forall mode, osVersion, h: uint8, t: uint8, r: uint8, n: int8 {:trigger Estimate(mode, osVersion, h, t, r, n)} ::
              80 <= Estimate(mode, osVersion, h, t, r, n) <= LONGEST_ESTIMATE
  {
    forall mode, osVersion, h: uint8, t: uint8, r: uint8, n: int8
      ensures 80 <= Estimate(mode, osVersion, h, t, r, n) <= LONGEST_ESTIMATE
    {
      EstimateRange(mode, osVersion, h, t, r, n);
    }
  }

  /** As long as a run is not finished, the engine's state is the one its log stands for. */
  lemma {:induction false} StateFollowsLog(t0: Txn, es: seq<Event>)
    requires Inv(t0) && t0.phase.NotStarted? && CanRun(t0, es) && !Run(t0, es).finish
    ensures StateFits(Run(t0, es), StandingOf(t0.request, es))
  {
    if es == [] {
    } else {
      FinishLatches(t0, es, |es| - 1);
      assert es[..|es| - 1] == Front(es);
      StateFollowsLog(t0, Front(es));
      Fixed(t0, Front(es));
      StandingStep(Run(t0, Front(es)), Last(es), StandingOf(t0.request, Front(es)), StandingOf(t0.request, es), es);
    }
  }

  /** A prefix of a run is a run, and the finish flag is never taken back. */
  lemma {:induction false} FinishLatches(t0: Txn, es: seq<Event>, k: nat)
    requires Inv(t0) && CanRun(t0, es) && k <= |es|
    ensures CanRun(t0, es[..k]) && (Run(t0, es[..k]).finish ==> Run(t0, es).finish)
    decreases |es|
  {
    if k == |es| {
      assert es[..k] == es;
    } else {
      FinishLatches(t0, Front(es), k);
      assert Front(es)[..k] == es[..k];
    }
  }

  /** The constructor's state, as far as the log is concerned. */
  predicate IsFresh(t: Txn) {
    && Inv(t) && t.phase.NotStarted? && t.state == Created && t.hops == t.timeSlot == t.hopsResponse == 0
    && t.result == Some(Result(t.request, Empty(), Empty(), TRN_ERROR_ABORTED, TRN_OK, false, false))
  }

  /** What the constructor makes of its arguments. */
  lemma NewIsFresh(request: Message, mode: RfMode, osVersion: string, defaultTimeout: int32, userTimeout: int32, defaultError: int)
    ensures var t := New(request, mode, osVersion, defaultTimeout, userTimeout, defaultError);
            && IsFresh(t) && t.defaultError == defaultError && t.mode == mode && t.osVersion == osVersion
            && t.request.length == request.length && t.request.buffer[..request.length] == request.buffer[..request.length]
            && (forall i :: request.length <= i < 64 ==> t.request.buffer[i] == 0)
            && Timeouts(t.infinite, t.userTimeout, t.expected) == CorrectedTimeouts(t.request, defaultTimeout, userTimeout)
  {
    CopyIsStable(request);
    assert LowAddress(Copy(request)) == COORDINATOR_ADDRESS <==> IsCoordinator(Copy(request));
  }

  lemma ResultStep(t: Txn, e: Event, es: seq<Event>)
    requires Inv(t) && Enabled(t, e) && !t.finish && !Apply(t, e).finish && es != [] && Last(es) == e
    requires t.result == Some(Recorded(t.request, Front(es)))
    ensures Apply(t, e).result == Some(Recorded(t.request, es))
  {
  }

  /** Until it finishes, a run's result holds the last accepted confirmation and response, and no others. */
  lemma {:induction false} ResultFollowsLog(t0: Txn, es: seq<Event>)
    requires IsFresh(t0) && CanRun(t0, es) && !Run(t0, es).finish
    ensures Run(t0, es).result == Some(Recorded(t0.request, es))
  {
    if es == [] {
    } else {
      FinishLatches(t0, es, |es| - 1);
      assert es[..|es| - 1] == Front(es);
      ResultFollowsLog(t0, Front(es));
      Fixed(t0, Front(es));
      ResultStep(Run(t0, Front(es)), Last(es), es);
    }
  }

  /** The state switch and the log's standing agree. */
  lemma DecisionIsEvaluation(t: Txn, s: Standing, expired: bool)
    requires Inv(t) && t.phase.Looping? && (expired ==> t.phase.wait > 0) && StateFits(t, s)
    ensures match Decision(t.request, t.infinite, s, expired)
            case None => Evaluate(t, expired) == Continue
            case Some(code) => Evaluate(t, expired).Finish? && Evaluate(t, expired).code == code
  {
  }

  /** A wake-up ends the transaction exactly when the log's standing says so, with the code the standing and
      the last accepted response determine; otherwise it only reads the duration again. */
  lemma WakeDecides(t0: Txn, es: seq<Event>, expired: bool)
    requires IsFresh(t0) && CanRun(t0, es) && Enabled(Run(t0, es), EWake(expired))
    ensures var t, d := Run(t0, es), Decision(t0.request, t0.infinite, StandingOf(t0.request, es), expired);
            var t' := Apply(t, EWake(expired));
            && t.result == Some(Recorded(t0.request, es))
            && (t'.finish <==> d.Some?)
            && (d.None? ==> t' == t.(phase := Looping(t.expected)))
            && (d.Some? ==> && t'.result == Some(WithErrorCode(t.result.value, d.value))
                            && ErrorCode(t'.result.value)
                               == if d.value != TRN_OK then d.value else LastResponseCode(t0.request, es))
  {
    StateFollowsLog(t0, es);
    ResultFollowsLog(t0, es);
    Fixed(t0, es);
    DecisionIsEvaluation(Run(t0, es), StandingOf(t0.request, es), expired);
    if Decision(t0.request, t0.infinite, StandingOf(t0.request, es), expired).Some? {
      FinalCode(Recorded(t0.request, es), Decision(t0.request, t0.infinite, StandingOf(t0.request, es), expired).value);
    }
  }
}
