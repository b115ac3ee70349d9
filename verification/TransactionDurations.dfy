/** How long a transaction waits, over every run. */
module TransactionDurations {
  import opened MachineInts
  import opened DpaMessages
  import opened TransactionResults
  import opened Timing
  import opened Wrappers
  import opened TransactionMachine
  import opened TransactionRuns
  import TO = TransactionOutcomes

  /** No wait is longer than the first one, the user's wish and the longest estimate. */
  function LongestWait(t0: Txn): nat {
    Max(Max(t0.expected, t0.userTimeout), LONGEST_ESTIMATE)
  }

  /** The durations that a step may leave behind: the old one, or one set from an estimate or the user's wish. */
  predicate NextDuration(t: Txn, expected: uint32) {
    expected == t.expected || 80 <= expected <= Max(LONGEST_ESTIMATE, t.userTimeout)
  }

  lemma ConfirmationRange(t: Txn, m: Message)
    ensures 80 <= ConfirmationEstimate(t, m) <= LONGEST_ESTIMATE
  {
    EstimateRange(t.mode, t.osVersion, ToUint8(ToInt8(ConfirmationHops(m))), ToUint8(ToInt8(ConfirmationTimeSlot(m))),
                  ToUint8(ToInt8(ConfirmationHopsResponse(m))), NO_LENGTH);
  }

  lemma ResponseEstimateRange(t: Txn, m: Message)
    ensures 80 <= ResponseEstimate(t, m) <= LONGEST_ESTIMATE && ToUint32(ResponseEstimate(t, m)) == ResponseEstimate(t, m)
  {
    EstimateRange(t.mode, t.osVersion, ToUint8(t.hops), ToUint8(t.timeSlot), ToUint8(t.hopsResponse), DataLength(m));
  }

  lemma ConfirmationDuration(t: Txn, m: Message)
    requires t.result.Some?
    ensures 80 <= OnConfirmation(t, m).expected <= Max(LONGEST_ESTIMATE, t.userTimeout)
  {
    ConfirmationRange(t, m);
  }

  lemma AdoptedDuration(t: Txn, m: Message, estimated: uint32)
    requires t.result.Some? && 80 <= estimated <= LONGEST_ESTIMATE
    ensures NextDuration(t, AfterResponse(t, m, estimated).expected)
    ensures AfterResponse(t, m, estimated).state in {Processed, ReceivedResponse}
  {
  }

  lemma ResponseDuration(t: Txn, m: Message)
    requires t.result.Some?
    ensures NextDuration(t, OnResponse(t, m).expected)
    ensures OnResponse(t, m).state in {Processed, ReceivedResponse}
  {
    ResponseEstimateRange(t, m);
    AdoptedDuration(t, m, ResponseEstimate(t, m));
  }

  /** A message never zeroes the duration, and it does not move the thread that executes. */
  lemma ReceptionStep(t: Txn, m: Message)
    requires Inv(t)
    ensures var t' := Receive(t, m);
            && NextDuration(t, t'.expected) && t'.phase == t.phase && t'.finish == t.finish
            && (t' == t || t'.state in {ConfirmationReceived, ConfirmationBroadcast, Processed, ReceivedResponse})
  {
    if ReceptionOf(t, m) == Accepted {
      if MessageDirection(m) == Confirmation {
        ConfirmationDuration(t, m);
      } else {
        ResponseDuration(t, m);
      }
    }
  }

  /** A step keeps the duration, replaces it as above, or zeroes it with an error at the start. */
  lemma DurationStep(t: Txn, e: Event)
    requires Inv(t) && Enabled(t, e)
    ensures var t' := Apply(t, e);
            && (|| NextDuration(t, t'.expected)
                || (e.EStart? && t'.expected == 0 && t'.state in {InterfaceError, DefaultError}))
            && (t'.phase == t.phase || t'.phase == Looping(t'.expected) || t'.phase.Returned?)
  {
    if e.EReceive? {
      ReceptionStep(t, e.message);
    }
  }

  lemma {:induction false} DurationsAreBounded(t0: Txn, es: seq<Event>)
    requires Inv(t0) && t0.phase.NotStarted? && CanRun(t0, es)
    ensures var t := Run(t0, es);
            && t.expected <= LongestWait(t0)
            && (t.phase.Looping? ==> t.phase.wait <= LongestWait(t0))
  {
    if es == [] {
    } else {
      DurationsAreBounded(t0, Front(es));
      Fixed(t0, Front(es));
      DurationStep(Run(t0, Front(es)), Last(es));
    }
  }

  // ---------- The duration, read off the log ----------

  /** The hops and time slot on record: those of the last accepted confirmation, or zeros. */
  function HopsOf(request: Message, es: seq<Event>): (uint8, uint8, uint8) {
    var m := LastAccepted(request, Confirmation, es);
    if m.None? then (0, 0, 0) else (m.value.buffer[8], m.value.buffer[9], m.value.buffer[10])
  }

  /** The duration that the next wait reads: the first one, until a confirmation sets it to its own estimate or
      to the user's longer wish, or a response that does not end the transaction sets it to the estimate
      corrected by its length; an error at the start makes it 0. */
  function DurationOf(t0: Txn, es: seq<Event>): int {
    if es == [] then t0.expected
    else
      var before := DurationOf(t0, Front(es));
      match Last(es)
      case EStart(defaultError, sendFails) => if defaultError != TRN_OK || sendFails then 0 else before
      case EReceive(m) =>
        var (h, s, r) := HopsOf(t0.request, es);
        if Check(t0.request, m) != Accepted then before
        else if MessageDirection(m) == Confirmation
        then Max(t0.userTimeout, Estimate(t0.mode, t0.osVersion, h, s, r, NO_LENGTH))
        else if t0.infinite || (IsCoordinator(t0.request) && StandingOf(t0.request, Front(es)).Waiting?) then before
        else Estimate(t0.mode, t0.osVersion, h, s, r, m.length - 8)
      case _ => before
  }

  predicate DurationFits(t: Txn, t0: Txn, es: seq<Event>) {
    && (ToUint8(t.hops), ToUint8(t.timeSlot), ToUint8(t.hopsResponse)) == HopsOf(t0.request, es)
    && t.expected == DurationOf(t0, es)
    && (t.phase.NotStarted? ==> t.state != SentCoordinator)
  }

  /** A byte survives the signed field that stores it. */
  lemma StoredByte(b: uint8)
    ensures ToUint8(ToInt8(b)) == b
  {
  }

  predicate SameFixed(t: Txn, t0: Txn) {
    (t.request, t.mode, t.osVersion, t.infinite, t.userTimeout) == (t0.request, t0.mode, t0.osVersion, t0.infinite, t0.userTimeout)
  }

  lemma DurationFitsConfirmation(t: Txn, m: Message, t0: Txn, es: seq<Event>)
    requires t.result.Some? && es != [] && Last(es) == EReceive(m) && SameFixed(t, t0)
    requires Check(t0.request, m) == Accepted && MessageDirection(m) == Confirmation
    ensures DurationFits(OnConfirmation(t, m), t0, es)
  {
    ConfirmationRange(t, m);
    StoredByte(ConfirmationHops(m));
    StoredByte(ConfirmationTimeSlot(m));
    StoredByte(ConfirmationHopsResponse(m));
    assert LastAccepted(t0.request, Confirmation, es) == Some(m);
  }

  lemma DurationFitsResponse(t: Txn, m: Message, t0: Txn, es: seq<Event>)
    requires t.result.Some? && es != [] && Last(es) == EReceive(m) && SameFixed(t, t0)
    requires Check(t0.request, m) == Accepted && MessageDirection(m) == Response
    requires DurationFits(t, t0, Front(es)) && StateFits(t, StandingOf(t0.request, Front(es)))
    ensures DurationFits(OnResponse(t, m), t0, es)
  {
    ResponseEstimateRange(t, m);
    var (h, s, r) := HopsOf(t0.request, Front(es));
    assert HopsOf(t0.request, es) == (h, s, r);
    assert ResponseEstimate(t, m) == Estimate(t0.mode, t0.osVersion, h, s, r, ToInt8(m.length - 8));
  }

  lemma DurationFitsReception(t: Txn, m: Message, t0: Txn, es: seq<Event>)
    requires Inv(t) && !t.finish && es != [] && Last(es) == EReceive(m) && SameFixed(t, t0)
    requires DurationFits(t, t0, Front(es)) && StateFits(t, StandingOf(t0.request, Front(es)))
    ensures DurationFits(Receive(t, m), t0, es)
  {
    if ReceptionOf(t, m) == Accepted {
      if MessageDirection(m) == Confirmation {
        DurationFitsConfirmation(t, m, t0, es);
      } else {
        DurationFitsResponse(t, m, t0, es);
      }
    }
  }

  lemma DurationFitsOther(t: Txn, e: Event, t0: Txn, es: seq<Event>)
    requires Inv(t) && Enabled(t, e) && !t.finish && !Apply(t, e).finish && es != [] && Last(es) == e && !e.EReceive?
    requires DurationFits(t, t0, Front(es))
    ensures DurationFits(Apply(t, e), t0, es)
  {
  }

  /** Until a run finishes, hops, time slot and duration are those its log stands for, byte for byte through
      the signed fields that store them. */
  lemma {:induction false} DurationFollowsLog(t0: Txn, es: seq<Event>)
    requires IsFresh(t0) && CanRun(t0, es) && !Run(t0, es).finish
    ensures DurationFits(Run(t0, es), t0, es)
  {
    if es == [] {
    } else {
      FinishLatches(t0, es, |es| - 1);
      assert es[..|es| - 1] == Front(es);
      DurationFollowsLog(t0, Front(es));
      Fixed(t0, Front(es));
      StateFollowsLog(t0, Front(es));
      if Last(es).EReceive? {
        DurationFitsReception(Run(t0, Front(es)), Last(es).message, t0, es);
      } else {
        DurationFitsOther(Run(t0, Front(es)), Last(es), t0, es);
      }
    }
  }

  // ---------- Bounds ----------

  function Wakes(es: seq<Event>): nat {
    if es == [] then 0 else Wakes(Front(es)) + if Last(es).EWake? then 1 else 0
  }

  /** Wake-ups before the expiry: notified or spurious. */
  function EarlyWakes(es: seq<Event>): nat {
    if es == [] then 0 else EarlyWakes(Front(es)) + if Last(es) == EWake(false) then 1 else 0
  }

  /** The sum of the durations that execute() asked its waits for. */
  function TotalWait(t0: Txn, es: seq<Event>): nat
    requires Inv(t0) && CanRun(t0, es)
  {
    if es == [] then 0
    else TotalWait(t0, Front(es)) + if Last(es).EWake? then Run(t0, Front(es)).phase.wait else 0
  }

  /** In a finite transaction an expired wait is the last one. */
  lemma ExpiryEnds(t0: Txn, es: seq<Event>)
    requires IsFresh(t0) && !t0.infinite && CanRun(t0, es) && Enabled(Run(t0, es), EWake(true))
    ensures Apply(Run(t0, es), EWake(true)).finish
  {
    WakeDecides(t0, es, true);
    StateFollowsLog(t0, es);
  }

  /** Termination with a time bound: n early wake-ups allow at most n + 1 iterations, and together these wait
      no longer than n + 1 times the longest single wait. */
  lemma IterationsAreBounded(t0: Txn, es: seq<Event>)
    requires IsFresh(t0) && !t0.infinite && CanRun(t0, es)
    ensures Wakes(es) <= EarlyWakes(es) + 1
    ensures TotalWait(t0, es) <= LongestWait(t0) * (EarlyWakes(es) + 1)
  {
    CountWakes(t0, es);
    SumWaits(t0, es);
    MulMonotone(LongestWait(t0), Wakes(es), EarlyWakes(es) + 1);
  }

  lemma {:induction false} CountWakes(t0: Txn, es: seq<Event>)
    requires IsFresh(t0) && !t0.infinite && CanRun(t0, es)
    ensures Wakes(es) <= EarlyWakes(es) + if Run(t0, es).finish then 1 else 0
  {
    if es == [] {
    } else {
      CountWakes(t0, Front(es));
      IterationStep(t0, es);
    }
  }

  lemma {:induction false} SumWaits(t0: Txn, es: seq<Event>)
    requires IsFresh(t0) && !t0.infinite && CanRun(t0, es)
    ensures TotalWait(t0, es) <= LongestWait(t0) * Wakes(es)
  {
    if es == [] {
    } else {
      SumWaits(t0, Front(es));
      IterationStep(t0, es);
      OneMoreWait(TotalWait(t0, Front(es)), TotalWait(t0, es), LongestWait(t0), Wakes(Front(es)), Wakes(es));
    }
  }

  lemma OneMoreWait(total: nat, total': nat, longest: nat, n: nat, n': nat)
    requires total <= longest * n
    requires (n' == n && total' == total) || (n' == n + 1 && total' <= total + longest)
    ensures total' <= longest * n'
  {
  }

  lemma IterationStep(t0: Txn, es: seq<Event>)
    requires IsFresh(t0) && !t0.infinite && CanRun(t0, es) && es != []
    ensures Last(es).EWake? ==> !Run(t0, Front(es)).finish && 0 <= Run(t0, Front(es)).phase.wait <= LongestWait(t0)
    ensures Last(es) == EWake(true) ==> Run(t0, es).finish
    ensures Run(t0, Front(es)).finish ==> Run(t0, es).finish
  {
    DurationsAreBounded(t0, Front(es));
    if Last(es) == EWake(true) {
      ExpiryEnds(t0, Front(es));
    }
  }

  // ---------- Busy loops ----------

  /** With a first duration of at least 80 ms no iteration is empty: it waits at least 80 ms, or it did not
      wait because of an error at the start and then ends the transaction at once. */
  predicate NoEmptyWait(t: Txn)
    requires Inv(t)
  {
    if t.phase.Looping? && t.state in {InterfaceError, DefaultError}
    then t.phase == Looping(0) && Apply(t, EWake(false)).finish
    else t.expected >= 80 && (t.phase.Looping? ==> t.phase.wait >= 80) && t.state !in {InterfaceError, DefaultError}
  }

  lemma NoEmptyStep(t: Txn, e: Event)
    requires Inv(t) && Enabled(t, e) && NoEmptyWait(t) && !t.finish && !Apply(t, e).finish
    ensures NoEmptyWait(Apply(t, e))
  {
    DurationStep(t, e);
    if e.EReceive? {
      ReceptionStep(t, e.message);
    }
  }

  lemma {:induction false} NoEmptyIteration(t0: Txn, es: seq<Event>)
    requires IsFresh(t0) && t0.expected >= 80 && CanRun(t0, es) && !Run(t0, es).finish
    ensures NoEmptyWait(Run(t0, es))
  {
    if es == [] {
    } else {
      FinishLatches(t0, es, |es| - 1);
      assert es[..|es| - 1] == Front(es);
      NoEmptyIteration(t0, Front(es));
      NoEmptyStep(Run(t0, Front(es)), Last(es));
    }
  }

  /** The handler's default timeouts give every transaction such a first duration. */
  lemma HandlerDurations(request: Message, mode: RfMode, osVersion: string, defaultTimeout: int32, userTimeout: int32, defaultError: int)
    requires defaultTimeout >= MINIMAL_TIMEOUT
    ensures var t := New(request, mode, osVersion, defaultTimeout, userTimeout, defaultError);
            t.expected >= 200 && t.userTimeout >= 200
  {
    TimeoutLaw(Copy(request), defaultTimeout, userTimeout);
  }

  /** execute() runs through its loop without waiting and without an end. */
  predicate Spins(t: Txn) {
    t.phase == Looping(0) && t.expected == 0 && t.state in {Sent, SentCoordinator}
  }

  /** A spinning transaction keeps the mutex, so no event ever changes it again. */
  lemma {:induction false} SpinsForever(t: Txn, es: seq<Event>)
    requires Inv(t) && Spins(t) && CanRun(t, es)
    ensures Run(t, es) == t
  {
    if es == [] {
    } else {
      SpinsForever(t, Front(es));
    }
  }

  lemma FirstIsZeroIff(request: Message, mode: RfMode, osVersion: string, defaultTimeout: int32, userTimeout: int32, defaultError: int)
    ensures New(request, mode, osVersion, defaultTimeout, userTimeout, defaultError).expected == 0
      <==> && defaultTimeout == 0
           && !(IsCoordinator(Copy(request)) && (userTimeout > 0 || (userTimeout < 0 && IsBond(Copy(request)))))
  {
    var x := ExpectedAtFirst(Copy(request), defaultTimeout, userTimeout);
    assert ToUint32(x) == 0 <==> x == 0;
  }

  /** Before the start only an accepted message can raise a duration of 0: a confirmation always does, a
      response unless the transaction is infinite. */
  lemma {:induction false} StaysZeroIff(t0: Txn, es: seq<Event>)
    requires forall e :: e in es ==> !e.EStart?
    ensures DurationOf(t0, es) == 0 <==>
            && t0.expected == 0 && LastAccepted(t0.request, Confirmation, es).None?
            && (t0.infinite || LastAccepted(t0.request, Response, es).None?)
  {
    if es == [] {
    } else {
      assert es == Front(es) + [Last(es)];
      StaysZeroIff(t0, Front(es));
      TO.UnstartedIff(t0.request, Front(es));
      if Last(es).EReceive? {
        var (h, s, r) := HopsOf(t0.request, es);
        EstimateRange(t0.mode, t0.osVersion, h, s, r, NO_LENGTH);
        EstimateRange(t0.mode, t0.osVersion, h, s, r, ToInt8(Last(es).message.length - 8));
        if Check(t0.request, Last(es).message) == Accepted {
          AcceptedMatches(t0.request, Last(es).message);
        }
      }
    }
  }

  /** A transaction sent without an error spins exactly when the default timeout is 0, the request is not one
      whose first duration comes from elsewhere (coordinator-addressed with a positive user timeout, or bonding
      with a negative one), and no confirmation, nor, unless it is infinite, a response was accepted too early. */
  lemma SpinsIff(request: Message, mode: RfMode, osVersion: string, defaultTimeout: int32, userTimeout: int32, defaultError: int,
                 es: seq<Event>)
    requires var t0 := New(request, mode, osVersion, defaultTimeout, userTimeout, defaultError);
             IsFresh(t0) && CanRun(t0, es) && forall e :: e in es ==> !e.EStart?
    ensures var t0 := New(request, mode, osVersion, defaultTimeout, userTimeout, defaultError);
            Run(t0, es).phase.NotStarted? &&
            (Spins(Apply(Run(t0, es), EStart(TRN_OK, false)))
             <==> && defaultTimeout == 0
                  && !(IsCoordinator(t0.request) && (userTimeout > 0 || (userTimeout < 0 && IsBond(t0.request))))
                  && LastAccepted(t0.request, Confirmation, es).None?
                  && (t0.infinite || LastAccepted(t0.request, Response, es).None?))
  {
    var t0 := New(request, mode, osVersion, defaultTimeout, userTimeout, defaultError);
    FirstIsZeroIff(request, mode, osVersion, defaultTimeout, userTimeout, defaultError);
    TO.StartIsRecorded(t0, es);
    DurationFollowsLog(t0, es);
    StaysZeroIff(t0, es);
  }

  // ---------- The refreshing wait after a response ----------

  /** The estimate that a confirmation with the hops on record gives. */
  function RecordedEstimate(t: Txn): int {
    Estimate(t.mode, t.osVersion, ToUint8(t.hops), ToUint8(t.timeSlot), ToUint8(t.hopsResponse), NO_LENGTH)
  }

  lemma ConfirmationCovers(t: Txn, m: Message)
    requires t.result.Some?
    ensures OnConfirmation(t, m).expected >= RecordedEstimate(OnConfirmation(t, m))
  {
    ConfirmationRange(t, m);
    assert RecordedEstimate(OnConfirmation(t, m)) == ConfirmationEstimate(t, m);
  }

  lemma CoverStep(t: Txn, e: Event)
    requires Inv(t) && Enabled(t, e) && !t.finish && t.expected >= RecordedEstimate(t)
    requires e.EReceive? ==> MessageDirection(e.message) != Response
    requires e.EStart? ==> e == EStart(TRN_OK, false)
    ensures Apply(t, e).expected >= RecordedEstimate(Apply(t, e))
  {
    if e.EReceive? && ReceptionOf(t, e.message) == Accepted {
      ConfirmationCovers(t, e.message);
    }
  }

  /** Until a response is accepted the duration covers the estimate made from the hops on record. */
  lemma {:induction false} DurationCoversEstimate(t0: Txn, es: seq<Event>)
    requires IsFresh(t0) && t0.expected >= RecordedEstimate(t0) && CanRun(t0, es) && !Run(t0, es).finish
    requires LastAccepted(t0.request, Response, es).None? && !StandingOf(t0.request, es).Failed?
    ensures Run(t0, es).expected >= RecordedEstimate(Run(t0, es))
  {
    if es == [] {
    } else {
      var t, e := Run(t0, Front(es)), Last(es);
      FinishLatches(t0, es, |es| - 1);
      assert es[..|es| - 1] == Front(es);
      StateFollowsLog(t0, Front(es));
      Fixed(t0, Front(es));
      DurationCoversEstimate(t0, Front(es));
      if e.EReceive? && MessageDirection(e.message) == Response {
        assert Apply(t, e) == t;
      } else {
        CoverStep(t, e);
      }
    }
  }

  lemma ResponseLowers(t: Txn, m: Message)
    requires t.result.Some? && t.expected >= RecordedEstimate(t)
    ensures OnResponse(t, m).expected <= t.expected
  {
    ResponseEstimateRange(t, m);
    ResponseCorrectionLowers(t.mode, t.osVersion, ToUint8(t.hops), ToUint8(t.timeSlot), ToUint8(t.hopsResponse), DataLength(m));
  }

  /** The first accepted response never lengthens the wait, whatever hops, time slot, version and length,
      and with or without a confirmation before it, provided that the first duration covers the estimate for
      no hops: 100 ms in standard and 150 ms in low-power mode, less than any default of the handler. */
  lemma FirstResponseNeverLengthens(t0: Txn, es: seq<Event>, m: Message)
    requires IsFresh(t0) && t0.expected >= RecordedEstimate(t0) && CanRun(t0, es) && Enabled(Run(t0, es), EReceive(m))
    requires MessageDirection(m) == Response && LastAccepted(t0.request, Response, es).None?
    ensures Apply(Run(t0, es), EReceive(m)).expected <= Run(t0, es).expected
  {
    var t := Run(t0, es);
    if ReceptionOf(t, m) == Accepted {
      StateFollowsLog(t0, es);
      DurationCoversEstimate(t0, es);
      ResponseLowers(t, m);
    }
  }

  lemma FirstDurationCovers(t0: Txn)
    requires IsFresh(t0)
    ensures RecordedEstimate(t0) == if t0.mode.Std? then 100 else 150
  {
  }

  /** Below that first duration, a 7-byte response, whose data length is the mark of a confirmation, lengthens
      the wait of a transaction that is not started yet. */
  lemma ShortDurationIsLengthened(t0: Txn, m: Message)
    requires IsFresh(t0) && !t0.infinite && t0.expected < RecordedEstimate(t0)
    requires m.length == 7 && MessageDirection(m) == Response && Check(t0.request, m) == Accepted
    ensures Enabled(t0, EReceive(m)) && Apply(t0, EReceive(m)).expected > t0.expected
  {
    ResponseEstimateRange(t0, m);
    assert ResponseEstimate(t0, m) == RecordedEstimate(t0);
  }

  /** The shortest response to a request that has a response code. */
  function ShortResponse(request: Message): Message
    requires PeripheralCommand(request) < BIT7
  {
    Filled(request.buffer[..3] + [request.buffer[3] + BIT7, 0, 0, TRN_OK])
  }

  lemma ShortResponseFits(request: Message)
    requires PeripheralCommand(request) < BIT7
    ensures ShortResponse(request).length == 7 && MessageDirection(ShortResponse(request)) == Response
    ensures Check(request, ShortResponse(request)) == Accepted
  {
    var m := ShortResponse(request);
    assert m.buffer[0] == request.buffer[0] && m.buffer[1] == request.buffer[1];
    assert m.buffer[2] == request.buffer[2] && m.buffer[3] == request.buffer[3] + BIT7;
  }

  /** In no run does the first accepted response lengthen the wait. */
  ghost predicate NeverLengthens(t0: Txn)
    requires IsFresh(t0)
  {
    forall es, m {:trigger CanRun(t0, es), EReceive(m)} ::
      CanRun(t0, es) && Enabled(Run(t0, es), EReceive(m))
      && MessageDirection(m) == Response && LastAccepted(t0.request, Response, es).None?
      ==> Apply(Run(t0, es), EReceive(m)).expected <= Run(t0, es).expected
  }

  /** Exactly when that is so: the first duration covers the estimate, or the transaction is infinite, or no
      response can match because bit 7 of the request's command is set. */
  lemma NeverLengthensIff(t0: Txn)
    requires IsFresh(t0)
    ensures NeverLengthens(t0) <==>
              t0.expected >= (if t0.mode.Std? then 100 else 150) || t0.infinite || PeripheralCommand(t0.request) >= BIT7
  {
    FirstDurationCovers(t0);
    if t0.expected >= RecordedEstimate(t0) || t0.infinite || PeripheralCommand(t0.request) >= BIT7 {
      forall es, m | CanRun(t0, es) && Enabled(Run(t0, es), EReceive(m))
                     && MessageDirection(m) == Response && LastAccepted(t0.request, Response, es).None?
        ensures Apply(Run(t0, es), EReceive(m)).expected <= Run(t0, es).expected
      {
        Fixed(t0, es);
        if t0.expected >= RecordedEstimate(t0) {
          FirstResponseNeverLengthens(t0, es, m);
        }
      }
    } else {
      var m := ShortResponse(t0.request);
      ShortResponseFits(t0.request);
      ShortDurationIsLengthened(t0, m);
      assert CanRun(t0, []) && Run(t0, []) == t0;
    }
  }
}
