/** The main results about one transaction, for every run. */
module TransactionOutcomes {
  import opened DpaMessages
  import opened TransactionResults
  import opened Wrappers
  import opened TransactionMachine
  import opened TransactionRuns

  /** es ends at the wake-up that ends the transaction. */
  predicate EndsAt(t0: Txn, es: seq<Event>, k: nat)
    requires Inv(t0) && CanRun(t0, es)
  {
    && k < |es| && es[k].EWake?
    && CanRun(t0, es[..k]) && !Run(t0, es[..k]).finish
    && CanRun(t0, es[..k + 1]) && Run(t0, es[..k + 1]).finish
  }

  /** Nothing ends before something else that ends. */
  lemma NotTwice(t0: Txn, es: seq<Event>, j: nat, k: nat)
    requires Inv(t0) && CanRun(t0, es) && EndsAt(t0, es, j) && EndsAt(t0, es, k)
    ensures k <= j
  {
    if j < k {
      assert es[..k][..j + 1] == es[..j + 1];
      FinishLatches(t0, es[..k], j + 1);
    }
  }

  /** The moment of the end does not move when more events follow. */
  lemma EndStays(t0: Txn, es: seq<Event>, es': seq<Event>, k: nat)
    requires Inv(t0) && CanRun(t0, es) && CanRun(t0, es') && es <= es' && EndsAt(t0, es, k)
    ensures EndsAt(t0, es', k) && es'[..k + 1] == es[..k + 1] && es'[..k] == es[..k]
  {
    assert es'[..k + 1] == es[..k + 1] && es'[..k] == es[..k];
  }

  lemma EndsHere(t0: Txn, es: seq<Event>)
    requires Inv(t0) && t0.phase.NotStarted? && es != [] && CanRun(t0, es)
    requires Run(t0, es).finish && !Run(t0, Front(es)).finish
    ensures EndsAt(t0, es, |es| - 1)
  {
    assert es[..|es| - 1] == Front(es) && es[..|es|] == es;
  }

  lemma {:induction false} EndExists(t0: Txn, es: seq<Event>) returns (k: nat)
    requires Inv(t0) && t0.phase.NotStarted? && CanRun(t0, es) && Run(t0, es).finish
    ensures EndsAt(t0, es, k)
    decreases |es|
  {
    if Run(t0, Front(es)).finish {
      k := EndExists(t0, Front(es));
      EndStays(t0, Front(es), es, k);
    } else {
      k := |es| - 1;
      EndsHere(t0, es);
    }
  }

  /** Only a wake-up finishes, so a finished run has such a moment, and only one. */
  lemma FinishMoment(t0: Txn, es: seq<Event>) returns (k: nat)
    requires Inv(t0) && t0.phase.NotStarted? && CanRun(t0, es) && Run(t0, es).finish
    ensures EndsAt(t0, es, k)
    ensures forall j: nat :: EndsAt(t0, es, j) ==> j == k
  {
    k := EndExists(t0, es);
    forall j: nat | EndsAt(t0, es, j) ensures j == k {
      NotTwice(t0, es, j, k);
      NotTwice(t0, es, k, j);
    }
  }

  lemma FrozenStep(t: Txn, e: Event)
    requires Inv(t) && Enabled(t, e) && t.finish
    ensures var t' := Apply(t, e);
            && t' == t.(state := t'.state, result := t'.result)
            && (t'.result == t.result || t'.result == None)
            && (t'.state == t.state || t'.state == Aborted)
  {
  }

  /** After the end nothing but the state and the ownership of the result changes, and the result that is
      still there is the one of the end. */
  lemma {:induction false} Frozen(t0: Txn, es: seq<Event>, k: nat)
    requires Inv(t0) && CanRun(t0, es) && k <= |es|
    requires CanRun(t0, es[..k]) && Run(t0, es[..k]).finish
    ensures var t, t' := Run(t0, es[..k]), Run(t0, es);
            && t' == t.(state := t'.state, result := t'.result)
            && (t'.result == t.result || t'.result == None)
            && (t'.state == t.state || t'.state == Aborted)
    decreases |es|
  {
    if k == |es| {
      assert es[..k] == es;
    } else {
      assert Front(es)[..k] == es[..k];
      Frozen(t0, Front(es), k);
      FrozenStep(Run(t0, Front(es)), Last(es));
    }
  }

  /** The final code of a run whose deciding wake-up comes after the events `log`. */
  function FinalCodeOf(t0: Txn, log: seq<Event>, expired: bool): int {
    var d := Decision(t0.request, t0.infinite, StandingOf(t0.request, log), expired);
    if d.Some? && d.value == TRN_OK then LastResponseCode(t0.request, log) else if d.Some? then d.value else TRN_ERROR_ABORTED
  }

  /** The state a transaction ends in agrees with its code. */
  predicate StateAgrees(t0: Txn, log: seq<Event>, expired: bool, state: State) {
    match StandingOf(t0.request, log)
    case Unstarted => false
    case Failed(code) => state == DefaultError || (state == InterfaceError && code == TRN_ERROR_IFACE)
    case Waiting => expired && !t0.infinite && state == TimedOut
    case Confirmed => expired && state == if IsBroadcast(t0.request) then Processed else TimedOut
    case Responded(_) => state == Processed
    case Cut => state == Aborted
  }

  /** `end` is how a transaction must look at the end of the wake-up that decides it, given its log. */
  predicate EndFits(t0: Txn, log: seq<Event>, expired: bool, end: Txn) {
    && Decision(t0.request, t0.infinite, StandingOf(t0.request, log), expired).Some?
    && end.result.Some?
    && ErrorCode(end.result.value) == FinalCodeOf(t0, log, expired)
    && end.result.value == Recorded(t0.request, log).(errorCode := end.result.value.errorCode)
    && StateAgrees(t0, log, expired, end.state)
  }

  lemma EndFitsLog(t0: Txn, log: seq<Event>, expired: bool)
    requires IsFresh(t0) && CanRun(t0, log) && Enabled(Run(t0, log), EWake(expired))
    requires Apply(Run(t0, log), EWake(expired)).finish
    ensures EndFits(t0, log, expired, Apply(Run(t0, log), EWake(expired)))
  {
    WakeDecides(t0, log, expired);
    StateFollowsLog(t0, log);
    Fixed(t0, log);
  }

  /** Main theorem. A finished run ended at one wake-up k; code, messages and state at that moment are those
      its log up to k stands for; and whatever still happens, the result is that one or was moved out. */
  lemma Outcome(t0: Txn, es: seq<Event>) returns (k: nat)
    requires IsFresh(t0) && CanRun(t0, es) && Run(t0, es).finish
    ensures EndsAt(t0, es, k)
    ensures EndFits(t0, es[..k], es[k].expired, Run(t0, es[..k + 1]))
    ensures Run(t0, es).result.Some? ==> Run(t0, es).result == Run(t0, es[..k + 1]).result
  {
    k := FinishMoment(t0, es);
    assert Front(es[..k + 1]) == es[..k] && Last(es[..k + 1]) == EWake(es[k].expired);
    EndFitsLog(t0, es[..k], es[k].expired);
    Frozen(t0, es, k + 1);
  }

  /** A finite transaction to an ordinary node, sent without an error: the last event that counts before the
      deciding wake-up fixes the outcome. */
  lemma OrdinaryOutcome(t0: Txn, es: seq<Event>) returns (k: nat)
    requires IsFresh(t0) && CanRun(t0, es) && Run(t0, es).finish
    requires !t0.infinite && !IsCoordinator(t0.request) && !IsBroadcast(t0.request)
    ensures EndsAt(t0, es, k)
    ensures var standing, end := StandingOf(t0.request, es[..k]), Run(t0, es[..k + 1]);
            var code := ErrorCode(end.result.value);
            match standing
            case Unstarted => false
            case Failed(error) => code == error != TRN_OK
            case Waiting => es[k].expired && code == -1
            case Confirmed => es[k].expired && code == -1
            case Responded(_) => 
              es[k].expired && LastAccepted(t0.request, Response, es[..k]).Some? && code == LastResponseCode(t0.request, es[..k])
            case Cut => code == -3
  {
    k := Outcome(t0, es);
    StandingIsBacked(t0.request, es[..k]);
    StateFollowsLog(t0, es[..k]);
  }

  /** A standing that speaks of a message has that message in the log. */
  lemma {:induction false} StandingIsBacked(request: Message, es: seq<Event>)
    ensures StandingOf(request, es).Responded? ==> LastAccepted(request, Response, es).Some?
    ensures StandingOf(request, es).Confirmed? ==> LastAccepted(request, Confirmation, es).Some?
  {
    if es == [] {
    } else {
      StandingIsBacked(request, Front(es));
    }
  }

  /** A transaction has a standing if and only if it was started. */
  lemma {:induction false} UnstartedIff(request: Message, es: seq<Event>)
    ensures StandingOf(request, es).Unstarted? <==> forall e :: e in es ==> !e.EStart?
  {
    if es == [] {
    } else {
      assert es == Front(es) + [Last(es)];
      UnstartedIff(request, Front(es));
    }
  }

  function DirectionOf(s: Standing): MessageType
    requires s.Responded? || s.Confirmed?
  {
    if s.Responded? then Response else Confirmation
  }

  /** The message that such a standing speaks of, at j, is the last one accepted of its kind, and it came after
      the start, at i. */
  lemma {:induction false} MessageAfterStart(request: Message, es: seq<Event>) returns (i: nat, j: nat)
    requires StandingOf(request, es).Responded? || StandingOf(request, es).Confirmed?
    ensures i < j < |es| && es[i].EStart?
    ensures LastAccepted(request, DirectionOf(StandingOf(request, es)), es).Some?
    ensures es[j] == EReceive(LastAccepted(request, DirectionOf(StandingOf(request, es)), es).value)
    ensures Check(request, es[j].message) == Accepted && MessageDirection(es[j].message) == DirectionOf(StandingOf(request, es))
  {
    if Last(es).EReceive? && Check(request, Last(es).message) == Accepted {
      UnstartedIff(request, Front(es));
      var e :| e in Front(es) && e.EStart?;
      i :| 0 <= i < |Front(es)| && Front(es)[i] == e;
      j := |es| - 1;
    } else {
      i, j := MessageAfterStart(request, Front(es));
    }
  }

  /** What LastAccepted finds really is in the log and really matches the request. */
  lemma {:induction false} AcceptedIsInLog(request: Message, direction: MessageType, es: seq<Event>) returns (j: nat)
    requires LastAccepted(request, direction, es).Some?
    ensures j < |es| && es[j] == EReceive(LastAccepted(request, direction, es).value)
    ensures Check(request, es[j].message) == Accepted && MessageDirection(es[j].message) == direction
  {
    if Last(es).EReceive? && Check(request, Last(es).message) == Accepted && MessageDirection(Last(es).message) == direction {
      j := |es| - 1;
    } else {
      j := AcceptedIsInLog(request, direction, Front(es));
    }
  }

  /** Success, both ways: code 0 means a recorded matching response with code 0 whose wait ended, or a
      broadcast whose recorded confirmation was waited out and to which no response with another code came. */
  lemma SuccessIff(t0: Txn, es: seq<Event>) returns (k: nat)
    requires IsFresh(t0) && CanRun(t0, es) && Run(t0, es).finish
    ensures EndsAt(t0, es, k) && Run(t0, es[..k + 1]).result.Some?
    ensures var log, expired, r := es[..k], es[k].expired, Run(t0, es[..k + 1]).result.value;
            var s := StandingOf(t0.request, log);
            (ErrorCode(r) == TRN_OK <==>
             || (s.Responded? && r.isResponded && LastResponseCode(t0.request, log) == TRN_OK)
             || (s.Confirmed? && IsBroadcast(t0.request) && expired && r.isConfirmed && LastResponseCode(t0.request, log) == TRN_OK))
  {
    k := Outcome(t0, es);
    StandingIsBacked(t0.request, es[..k]);
    StateFollowsLog(t0, es[..k]);
  }

  /** The result at the end of the deciding wake-up k, before anybody moves it out. */
  function EndResult(t0: Txn, es: seq<Event>, k: nat): Result
    requires Inv(t0) && CanRun(t0, es) && EndsAt(t0, es, k)
  {
    assert Front(es[..k + 1]) == es[..k];
    Run(t0, es[..k + 1]).result.value
  }

  /** Soundness of success: a transaction that ended with code 0 records a message that came after the start and
      matches the request: a response with code 0, or a confirmation of a broadcast. */
  lemma SuccessIsSound(t0: Txn, es: seq<Event>, k: nat) returns (i: nat, j: nat)
    requires IsFresh(t0) && CanRun(t0, es) && EndsAt(t0, es, k) && ErrorCode(EndResult(t0, es, k)) == TRN_OK
    ensures i < j < k && es[i].EStart? && es[j].EReceive?
    ensures var m, r := es[j].message, EndResult(t0, es, k);
            && NodeAddress(m) == NodeAddress(t0.request) && PeripheralType(m) == PeripheralType(t0.request)
            && PeripheralCommand(m) % BIT7 == PeripheralCommand(t0.request)
            && (|| (MessageDirection(m) == Response && ResponseCode(m) == TRN_OK && r.isResponded && r.response == Copy(m))
                || (MessageDirection(m) == Confirmation && IsBroadcast(t0.request) && r.isConfirmed && r.confirmation == Copy(m)))
  {
    EndFitsAt(t0, es, k);
    StateFollowsLog(t0, es[..k]);
    i, j := SuccessIsBacked(t0, es[..k], es[k].expired, Run(t0, es[..k + 1]));
  }

  lemma EndFitsAt(t0: Txn, es: seq<Event>, k: nat)
    requires IsFresh(t0) && CanRun(t0, es) && EndsAt(t0, es, k)
    ensures EndFits(t0, es[..k], es[k].expired, Run(t0, es[..k + 1])) && !StandingOf(t0.request, es[..k]).Unstarted?
  {
    assert Front(es[..k + 1]) == es[..k] && Last(es[..k + 1]) == EWake(es[k].expired);
    EndFitsLog(t0, es[..k], es[k].expired);
  }

  lemma SuccessIsBacked(t0: Txn, log: seq<Event>, expired: bool, end: Txn) returns (i: nat, j: nat)
    requires EndFits(t0, log, expired, end) && ErrorCode(end.result.value) == TRN_OK && !StandingOf(t0.request, log).Unstarted?
    requires StandingOf(t0.request, log).Failed? ==> StandingOf(t0.request, log).code != TRN_OK
    ensures i < j < |log| && log[i].EStart? && log[j].EReceive?
    ensures StandingOf(t0.request, log).Responded? || StandingOf(t0.request, log).Confirmed?
    ensures var m, r := log[j].message, end.result.value;
            && NodeAddress(m) == NodeAddress(t0.request) && PeripheralType(m) == PeripheralType(t0.request)
            && PeripheralCommand(m) % BIT7 == PeripheralCommand(t0.request)
            && (|| (MessageDirection(m) == Response && ResponseCode(m) == TRN_OK && r.isResponded && r.response == Copy(m))
                || (MessageDirection(m) == Confirmation && IsBroadcast(t0.request) && r.isConfirmed && r.confirmation == Copy(m)))
  {
    i, j := MessageAfterStart(t0.request, log);
    AcceptedMatches(t0.request, log[j].message);
  }

  // ---------- The last event that counts ----------

  predicate Counts(request: Message, e: Event) {
    e.EStart? || e.EAbort? || (e.EReceive? && Check(request, e.message) == Accepted)
  }

  /** A log that was started has a last event that counts. */
  lemma {:induction false} LastCounting(request: Message, es: seq<Event>) returns (k: nat)
    requires exists e :: e in es && e.EStart?
    ensures k < |es| && Counts(request, es[k]) && forall i :: k < i < |es| ==> !Counts(request, es[i])
  {
    assert es == Front(es) + [Last(es)];
    if Counts(request, Last(es)) {
      k := |es| - 1;
    } else {
      k := LastCounting(request, Front(es));
    }
  }

  /** What the last event that counts says, with what was before it; nothing after it changes that. A response
      also remembers whether it is the first event that counts after a successful send. */
  lemma {:induction false} LastCountingDecides(request: Message, pre: seq<Event>, e: Event, mid: seq<Event>)
    requires Counts(request, e) && forall i :: 0 <= i < |mid| ==> !Counts(request, mid[i])
    ensures var s, started := StandingOf(request, pre + [e] + mid), !StandingOf(request, pre).Unstarted?;
            match e
            case EStart(error, sendFails) =>
              s == if error != TRN_OK then Failed(error) else if sendFails then Failed(-4) else Waiting
            case EAbort => s == if started then Cut else Unstarted
            case EReceive(m) =>
              s == if !started then Unstarted
                   else if MessageDirection(m) == Confirmation then Confirmed
                   else Responded(StandingOf(request, pre).Waiting?)
    decreases |mid|
  {
    var es := pre + [e] + mid;
    if mid == [] {
      assert Front(es) == pre && Last(es) == e;
    } else {
      assert Front(es) == pre + [e] + Front(mid) && Last(es) == Last(mid);
      LastCountingDecides(request, pre, e, Front(mid));
    }
  }

  // ---------- Abort ----------

  /** An event that replaces what an abort stands for. */
  predicate Overrides(request: Message, e: Event) {
    e.EStart? || (e.EReceive? && Check(request, e.message) == Accepted)
  }

  lemma {:induction false} LastAbortStands(request: Message, pre: seq<Event>, mid: seq<Event>)
    requires EAbort !in mid
    ensures StandingOf(request, pre + [EAbort] + mid).Cut? <==>
            !StandingOf(request, pre).Unstarted? && forall e :: e in mid ==> !Overrides(request, e)
    ensures StandingOf(request, pre).Unstarted? && (forall e :: e in mid ==> !e.EStart?) ==>
            StandingOf(request, pre + [EAbort] + mid).Unstarted?
    decreases |mid|
  {
    var es := pre + [EAbort] + mid;
    if mid == [] {
      assert Front(es) == pre && Last(es) == EAbort;
    } else {
      assert forall e :: e in mid <==> e in Front(mid) || e == Last(mid) by {
        assert mid == Front(mid) + [Last(mid)];
      }
      assert Front(es) == pre + [EAbort] + Front(mid) && Last(es) == Last(mid);
      LastAbortStands(request, pre, Front(mid));
      if Overrides(request, Last(mid)) {
        assert Last(mid) in mid;
      } else if e :| e in Front(mid) && Overrides(request, e) {
        assert e in mid;
      }
    }
  }

  /** Abort does not abort at once, and not always. The last abort before a wake-up makes that wake-up end the
      transaction as aborted if and only if execute() had taken the mutex before the abort and no matching
      message was accepted between the abort and the wake-up. */
  lemma AbortWorksIff(t0: Txn, pre: seq<Event>, mid: seq<Event>, expired: bool)
    requires IsFresh(t0) && EAbort !in mid
    requires CanRun(t0, pre + [EAbort] + mid) && Enabled(Run(t0, pre + [EAbort] + mid), EWake(expired))
    ensures var t' := Apply(Run(t0, pre + [EAbort] + mid), EWake(expired));
            var works := !StandingOf(t0.request, pre).Unstarted? && forall e :: e in mid ==> !Overrides(t0.request, e);
            && (t'.state == Aborted <==> works)
            && (works ==> t'.finish && t'.result.Some? && ErrorCode(t'.result.value) == -3)
  {
    LastAbortStands(t0.request, pre, mid);
    CutDecides(t0, pre + [EAbort] + mid, expired);
  }

  lemma CutDecides(t0: Txn, es: seq<Event>, expired: bool)
    requires IsFresh(t0) && CanRun(t0, es) && Enabled(Run(t0, es), EWake(expired))
    ensures var t', cut := Apply(Run(t0, es), EWake(expired)), StandingOf(t0.request, es).Cut?;
            && (t'.state == Aborted <==> cut)
            && (cut ==> t'.finish && t'.result.Some? && ErrorCode(t'.result.value) == TRN_ERROR_ABORTED)
  {
    WakeDecides(t0, es, expired);
    StateFollowsLog(t0, es);
  }

  /** An abort that comes before execute() has no effect: the transaction runs into its time-out. */
  lemma AbortBeforeStartIsLost(t0: Txn)
    requires IsFresh(t0) && !t0.infinite && t0.expected > 0
    ensures CanRun(t0, [EAbort, EStart(TRN_OK, false), EWake(true)])
    ensures var t := Run(t0, [EAbort, EStart(TRN_OK, false), EWake(true)]);
            t.finish && t.result.Some? && ErrorCode(t.result.value) == TRN_ERROR_TIMEOUT
  {
    ThreeEvents(t0, EAbort, EStart(TRN_OK, false), EWake(true));
  }

  lemma ThreeEvents(t: Txn, a: Event, b: Event, c: Event)
    requires Inv(t) && Enabled(t, a) && Enabled(Apply(t, a), b) && Enabled(Apply(Apply(t, a), b), c)
    ensures CanRun(t, [a, b, c]) && Run(t, [a, b, c]) == Apply(Apply(Apply(t, a), b), c)
  {
    TwoEvents(t, a, b);
    SnocTo(t, [a, b], Apply(Apply(t, a), b), c, [a, b, c]);
  }

  lemma TwoEvents(t: Txn, a: Event, b: Event)
    requires Inv(t) && Enabled(t, a) && Enabled(Apply(t, a), b)
    ensures CanRun(t, [a, b]) && Run(t, [a, b]) == Apply(Apply(t, a), b)
  {
    SnocTo(t, [], t, a, [a]);
    SnocTo(t, [a], Apply(t, a), b, [a, b]);
  }

  lemma SnocTo(t: Txn, es: seq<Event>, now: Txn, e: Event, es': seq<Event>)
    requires Inv(t) && CanRun(t, es) && Run(t, es) == now && Enabled(now, e) && es' == es + [e]
    ensures CanRun(t, es') && Run(t, es') == Apply(now, e)
  {
    RunSnoc(t, es, e);
  }

  // ---------- Infinite transactions ----------

  /** execute() is entered once: every start in a run is the same event, and until then nothing started. */
  lemma {:induction false} OneStart(t0: Txn, es: seq<Event>, e: Event)
    requires Inv(t0) && t0.phase.NotStarted? && CanRun(t0, es) && e.EStart? && e in es
    ensures !Run(t0, es).phase.NotStarted? && !StandingOf(t0.request, es).Unstarted?
    ensures forall e' :: e' in es && e'.EStart? ==> e' == e
    ensures e == EStart(TRN_OK, false) ==> !StandingOf(t0.request, es).Failed?
  {
    assert es == Front(es) + [Last(es)];
    StartedStep(Run(t0, Front(es)), Last(es));
    if e in Front(es) {
      OneStart(t0, Front(es), e);
    } else {
      StartIsRecorded(t0, Front(es));
      StartedStep(Run(t0, Front(es)), Last(es));
    }
  }

  lemma StartedStep(t: Txn, e: Event)
    requires Inv(t) && Enabled(t, e)
    ensures Apply(t, e).phase.NotStarted? <==> t.phase.NotStarted? && !e.EStart?
    ensures !e.EStart? ==> Apply(t, e).defaultError == t.defaultError
    ensures e.EStart? ==> Apply(t, e).defaultError == e.defaultError
  {
  }

  lemma {:induction false} StartIsRecorded(t0: Txn, es: seq<Event>)
    requires Inv(t0) && t0.phase.NotStarted? && CanRun(t0, es)
    ensures Run(t0, es).phase.NotStarted? <==> forall e :: e in es ==> !e.EStart?
  {
    if es == [] {
    } else {
      assert es == Front(es) + [Last(es)];
      StartIsRecorded(t0, Front(es));
      StartedStep(Run(t0, Front(es)), Last(es));
    }
  }

  /** An infinite transaction sent without an error stays in four states, and in two of them after its end; no
      expiry ends it, and it does not end with a time-out. */
  lemma InfiniteIsPatient(t0: Txn, es: seq<Event>)
    requires IsFresh(t0) && t0.infinite && CanRun(t0, es) && EStart(TRN_OK, false) in es
    ensures var t := Run(t0, es);
            && (!t.finish ==> t.state in {SentCoordinator, ConfirmationReceived, Processed, Aborted})
            && (t.finish ==> t.state in {Processed, Aborted})
            && (Enabled(t, EWake(true)) ==> Apply(t, EWake(true)) == Apply(t, EWake(false)))
            && (t.finish && t.result.Some? ==> ErrorCode(t.result.value) != TRN_ERROR_TIMEOUT)
  {
    Fixed(t0, es);
    OneStart(t0, es, EStart(TRN_OK, false));
    if !Run(t0, es).finish {
      StateFollowsLog(t0, es);
    } else {
      InfiniteNeverTimesOut(t0, es);
    }
  }

  /** A run that was sent without an error also ended with a standing that is neither unstarted nor failed. */
  lemma SentAtTheEnd(t0: Txn, es: seq<Event>, k: nat)
    requires Inv(t0) && t0.phase.NotStarted? && CanRun(t0, es) && EStart(TRN_OK, false) in es && EndsAt(t0, es, k)
    ensures !StandingOf(t0.request, es[..k]).Unstarted? && !StandingOf(t0.request, es[..k]).Failed?
  {
    var log := es[..k];
    assert Front(es[..k + 1]) == log;
    StartIsRecorded(t0, log);
    var e :| e in log && e.EStart?;
    OneStart(t0, es, EStart(TRN_OK, false));
    OneStart(t0, log, e);
  }

  lemma InfiniteNeverTimesOut(t0: Txn, es: seq<Event>)
    requires IsFresh(t0) && t0.infinite && CanRun(t0, es) && EStart(TRN_OK, false) in es && Run(t0, es).finish
    ensures Run(t0, es).result.Some? ==> ErrorCode(Run(t0, es).result.value) != TRN_ERROR_TIMEOUT
    ensures Run(t0, es).state in {Processed, Aborted}
  {
    var k := Outcome(t0, es);
    SentAtTheEnd(t0, es, k);
    Frozen(t0, es, k + 1);
    assert FinalCodeOf(t0, es[..k], es[k].expired) != TRN_ERROR_TIMEOUT;
  }

  /** Without a message or an abort an infinite transaction never ends, however often it wakes up. */
  lemma {:induction false} InfiniteWaitsForEver(t0: Txn, es: seq<Event>, wakes: seq<Event>)
    requires IsFresh(t0) && t0.infinite && CanRun(t0, es) && !Run(t0, es).finish
    requires StandingOf(t0.request, es).Waiting? || StandingOf(t0.request, es).Confirmed?
    requires (forall e :: e in wakes ==> e.EWake?) && CanRun(t0, es + wakes)
    ensures !Run(t0, es + wakes).finish && StandingOf(t0.request, es + wakes) == StandingOf(t0.request, es)
    decreases |wakes|
  {
    if wakes == [] {
      assert es + wakes == es;
    } else {
      FrontOfSum(es, wakes);
      InfiniteWaitsForEver(t0, es, Front(wakes));
      InfiniteWake(t0, es + wakes);
    }
  }

  lemma InfiniteWake(t0: Txn, es: seq<Event>)
    requires IsFresh(t0) && t0.infinite && es != [] && CanRun(t0, es) && Last(es).EWake?
    requires StandingOf(t0.request, Front(es)).Waiting? || StandingOf(t0.request, Front(es)).Confirmed?
    ensures !Run(t0, es).finish && StandingOf(t0.request, es) == StandingOf(t0.request, Front(es))
  {
    WakeDecides(t0, Front(es), Last(es).expired);
  }

  lemma FrontOfSum(a: seq<Event>, b: seq<Event>)
    requires b != []
    ensures a + b != [] && Front(a + b) == a + Front(b) && Last(a + b) == Last(b)
    ensures Last(b) in b && forall e :: e in Front(b) ==> e in b
  {
  }
}
