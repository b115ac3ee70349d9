/** The transaction object: its methods change the fields in place and implement the machine's steps. */
module Transactions {
  import opened MachineInts
  import opened DpaMessages
  import opened TransactionResults
  import opened Timing
  import opened Wrappers
  import opened TransactionMachine
  import opened TransactionRuns
  import opened TransactionOutcomes
  import TD = TransactionDurations

  /** What another thread may do to a transaction that waits. */
  type Interference = e: Event | e.EReceive? || e.EAbort? witness EAbort

  /** One iteration of the loop in execute(): what the others do while it waits, and how the wait ends.
      Both are void when the iteration does not wait. */
  datatype Slot = Slot(others: seq<Interference>, expired: bool)

  lemma InterferenceStep(t: Txn, e: Interference)
    requires Inv(t) && Enabled(t, e)
    ensures Apply(t, e).phase == t.phase
  {
  }

  /** Interference never disables interference. */
  lemma {:induction false} InterferenceRuns(t: Txn, others: seq<Interference>)
    requires Inv(t) && Unlocked(t)
    ensures CanRun(t, others) && Run(t, others).phase == t.phase
    decreases |others|
  {
    if others == [] {
    } else {
      InterferenceRuns(t, Front(others));
      InterferenceStep(Run(t, Front(others)), Last(others));
    }
  }

  /** What one iteration lets happen, in order. */
  function IterationLog(t: Txn, slot: Slot): seq<Event>
    requires t.phase.Looping?
  {
    if t.phase.wait == 0 then [EWake(false)] else slot.others + [EWake(slot.expired)]
  }

  function Iteration(t: Txn, slot: Slot): (t': Txn)
    requires Inv(t) && t.phase.Looping?
    ensures Inv(t')
  {
    if t.phase.wait == 0 then Apply(t, EWake(false))
    else
      InterferenceRuns(t, slot.others);
      Apply(Run(t, slot.others), EWake(slot.expired))
  }

  /** The loop of execute(), as far as the schedule reaches. */
  function Iterate(t: Txn, schedule: seq<Slot>): (t': Txn)
    requires Inv(t)
    ensures Inv(t')
    decreases |schedule|
  {
    if !t.phase.Looping? || schedule == [] then t else Iterate(Iteration(t, schedule[0]), schedule[1..])
  }

  function LogOf(t: Txn, schedule: seq<Slot>): seq<Event>
    requires Inv(t)
    decreases |schedule|
  {
    if !t.phase.Looping? || schedule == [] then []
    else IterationLog(t, schedule[0]) + LogOf(Iteration(t, schedule[0]), schedule[1..])
  }

  /** Runs compose. */
  lemma {:induction false} RunConcat(t: Txn, a: seq<Event>, b: seq<Event>)
    requires Inv(t) && CanRun(t, a) && CanRun(Run(t, a), b)
    ensures CanRun(t, a + b) && Run(t, a + b) == Run(Run(t, a), b)
    decreases |b|
  {
    if b == [] {
      assert a + b == a;
    } else {
      RunConcat(t, a, Front(b));
      FrontOfSum(a, b);
      Attach(t, Run(t, a), a + Front(b), b, a + b);
    }
  }

  /** Two runs that lead to the same state stay together when the same event follows. */
  lemma Attach(t: Txn, mid: Txn, es: seq<Event>, b: seq<Event>, es': seq<Event>)
    requires Inv(t) && Inv(mid) && CanRun(t, es) && b != [] && CanRun(mid, b) && Run(t, es) == Run(mid, Front(b))
    requires es' != [] && Front(es') == es && Last(es') == Last(b)
    ensures CanRun(t, es') && Run(t, es') == Run(mid, b)
  {
  }

  lemma RunOne(t: Txn, e: Event)
    requires Inv(t) && Enabled(t, e)
    ensures CanRun(t, [e]) && Run(t, [e]) == Apply(t, e)
  {
    assert Front([e]) == [];
  }

  lemma IterationIsRun(t: Txn, slot: Slot)
    requires Inv(t) && t.phase.Looping?
    ensures CanRun(t, IterationLog(t, slot)) && Run(t, IterationLog(t, slot)) == Iteration(t, slot)
  {
    if t.phase.wait == 0 {
      RunOne(t, EWake(false));
    } else {
      InterferenceRuns(t, slot.others);
      RunOne(Run(t, slot.others), EWake(slot.expired));
      RunConcat(t, slot.others, [EWake(slot.expired)]);
    }
  }

  /** Every execution of the loop is a run of the machine, so what holds for all runs holds for the loop. */
  lemma {:induction false} IterateIsRun(t: Txn, schedule: seq<Slot>)
    requires Inv(t)
    ensures CanRun(t, LogOf(t, schedule)) && Run(t, LogOf(t, schedule)) == Iterate(t, schedule)
    decreases |schedule|
  {
    if !t.phase.Looping? || schedule == [] {
    } else {
      IterationIsRun(t, schedule[0]);
      IterateIsRun(Iteration(t, schedule[0]), schedule[1..]);
      RunConcat(t, IterationLog(t, schedule[0]), LogOf(Iteration(t, schedule[0]), schedule[1..]));
    }
  }

  // ---------- Schedules are followed ----------

  /** Everything that a schedule asks for, in order. */
  function ScheduleEvents(schedule: seq<Slot>): seq<Event> {
    if schedule == [] then []
    else schedule[0].others + [EWake(schedule[0].expired)] + ScheduleEvents(schedule[1..])
  }

  lemma {:induction false} StaysPositive(t: Txn, es: seq<Event>)
    requires Inv(t) && CanRun(t, es) && t.expected > 0 && forall e :: e in es ==> !e.EStart?
    ensures Run(t, es).expected > 0
  {
    if es == [] {
    } else {
      StaysPositive(t, Front(es));
      TD.DurationStep(Run(t, Front(es)), Last(es));
    }
  }

  lemma IterationStaysPositive(t: Txn, slot: Slot)
    requires Inv(t) && t.phase.Looping? && t.phase.wait > 0 && t.expected > 0
    ensures var t' := Iteration(t, slot); t'.phase.Looping? ==> t'.phase.wait > 0 && t'.expected > 0
  {
    InterferenceRuns(t, slot.others);
    StaysPositive(t, slot.others);
  }

  /** What an execution does is what its schedule asks for, in order and up to the end of the transaction: as long
      as that has not come, no slot and no event of the others is left out. */
  lemma {:induction false} ScheduleIsFollowed(t: Txn, schedule: seq<Slot>)
    requires Inv(t) && t.phase.Looping? && t.phase.wait > 0 && t.expected > 0
    ensures LogOf(t, schedule) <= ScheduleEvents(schedule)
    ensures Iterate(t, schedule).phase.Looping? ==> LogOf(t, schedule) == ScheduleEvents(schedule)
    decreases |schedule|
  {
    if schedule == [] {
    } else {
      var t' := Iteration(t, schedule[0]);
      IterationStaysPositive(t, schedule[0]);
      if t'.phase.Looping? {
        ScheduleIsFollowed(t', schedule[1..]);
      } else {
        assert LogOf(t', schedule[1..]) == [] && Iterate(t', schedule[1..]) == t';
      }
    }
  }

  /** While the duration is 0 nobody else gets the mutex. */
  lemma {:induction false} NobodyElseActs(t: Txn, schedule: seq<Slot>)
    requires Inv(t) && t.phase == Looping(0) && t.expected == 0
    ensures forall e :: e in LogOf(t, schedule) ==> e == EWake(false)
    ensures Iterate(t, schedule).phase.Looping? ==> |LogOf(t, schedule)| == |schedule|
    decreases |schedule|
  {
    if schedule == [] {
    } else {
      var t' := Iteration(t, schedule[0]);
      if t'.phase.Looping? {
        NobodyElseActs(t', schedule[1..]);
      } else {
        assert LogOf(t', schedule[1..]) == [] && Iterate(t', schedule[1..]) == t';
      }
    }
  }

  lemma NextInRun(t: Txn, es: seq<Event>, i: nat)
    requires Inv(t) && CanRun(t, es) && i < |es|
    ensures CanRun(t, es[..i]) && CanRun(t, es[..i + 1]) && Enabled(Run(t, es[..i]), es[i])
    ensures Run(t, es[..i + 1]) == Apply(Run(t, es[..i]), es[i])
  {
    FinishLatches(t, es, i + 1);
    assert Front(es[..i + 1]) == es[..i] && Last(es[..i + 1]) == es[i];
  }

  // ---------- get ----------

  /** One stretch during which get() waits: what the others do, and whether the wait timed out. */
  datatype Turn = Turn(events: seq<Event>, timedOut: bool)

  /** The others can do all that, and let get() have the mutex in between. */
  predicate CanTakeTurns(t: Txn, turns: seq<Turn>)
    requires Inv(t)
    decreases |turns|
  {
    Unlocked(t) &&
    (turns == [] || (CanRun(t, turns[0].events) && CanTakeTurns(Run(t, turns[0].events), turns[1..])))
  }

  /** How get() ends: the transaction afterwards, whether it is back, and with what pointer. */
  datatype Ending = Ending(txn: Txn, back: bool, pointer: Option<Result>)

  /** The second wait, whose time-outs do not matter. */
  function AwaitFinish(t: Txn, turns: seq<Turn>): Ending
    requires Inv(t) && CanTakeTurns(t, turns)
    decreases |turns|
  {
    if t.finish then Ending(Take(t), true, t.result)
    else if turns == [] then Ending(t, false, None)
    else AwaitFinish(Run(t, turns[0].events), turns[1..])
  }

  /** The first wait, for infinite transactions only: until the start or the time-out. */
  function AwaitStart(t: Txn, turns: seq<Turn>): Ending
    requires Inv(t) && CanTakeTurns(t, turns)
    decreases |turns|
  {
    if !t.infinite || t.state != Created then AwaitFinish(t, turns)
    else if turns == [] then Ending(t, false, None)
    else if turns[0].timedOut then AwaitFinish(Run(t, turns[0].events), turns[1..])
    else AwaitStart(Run(t, turns[0].events), turns[1..])
  }

  /** The events while get() waits and, if it comes back, its own. */
  function GetLog(t: Txn, turns: seq<Turn>): seq<Event>
    requires Inv(t) && CanTakeTurns(t, turns)
    decreases |turns|
  {
    if t.finish then [ETake] else if turns == [] then [] else turns[0].events + GetLog(Run(t, turns[0].events), turns[1..])
  }

  lemma {:induction false} AwaitFinishIsRun(t: Txn, turns: seq<Turn>)
    requires Inv(t) && CanTakeTurns(t, turns)
    ensures CanRun(t, GetLog(t, turns)) && Run(t, GetLog(t, turns)) == AwaitFinish(t, turns).txn
    ensures AwaitFinish(t, turns).back ==> AwaitFinish(t, turns).txn.finish
    decreases |turns|
  {
    if t.finish {
      RunOne(t, ETake);
    } else if turns != [] {
      AwaitFinishIsRun(Run(t, turns[0].events), turns[1..]);
      RunConcat(t, turns[0].events, GetLog(Run(t, turns[0].events), turns[1..]));
    }
  }

  /** Nothing is finished before it is started. */
  predicate StartsFirst(t: Txn) {
    t.state == Created ==> !t.finish
  }

  /** What get() does, whatever happens meanwhile, is a run, and it comes back only after the end. */
  lemma {:induction false} GetIsRun(t: Txn, turns: seq<Turn>)
    requires Inv(t) && CanTakeTurns(t, turns) && StartsFirst(t)
    ensures CanRun(t, GetLog(t, turns))
    ensures AwaitStart(t, turns).back ==>
              AwaitStart(t, turns).txn.finish && Run(t, GetLog(t, turns)) == AwaitStart(t, turns).txn
    decreases |turns|
  {
    AwaitFinishIsRun(t, turns);
    if t.infinite && t.state == Created && turns != [] && !turns[0].timedOut {
      CreatedStays(t, turns[0].events);
      GetIsRun(Run(t, turns[0].events), turns[1..]);
      RunConcat(t, turns[0].events, GetLog(Run(t, turns[0].events), turns[1..]));
    }
  }

  /** The events while get() waits. */
  function WaitLog(t: Txn, turns: seq<Turn>): seq<Event>
    requires Inv(t) && CanTakeTurns(t, turns)
    decreases |turns|
  {
    if t.finish || turns == [] then [] else turns[0].events + WaitLog(Run(t, turns[0].events), turns[1..])
  }

  function TurnEvents(turns: seq<Turn>): seq<Event> {
    if turns == [] then [] else turns[0].events + TurnEvents(turns[1..])
  }

  lemma {:induction false} WaitLogIsRun(t: Txn, turns: seq<Turn>)
    requires Inv(t) && CanTakeTurns(t, turns)
    ensures CanRun(t, WaitLog(t, turns)) && WaitLog(t, turns) <= TurnEvents(turns)
    ensures !Run(t, WaitLog(t, turns)).finish ==> WaitLog(t, turns) == TurnEvents(turns)
    decreases |turns|
  {
    if t.finish || turns == [] {
    } else {
      WaitLogIsRun(Run(t, turns[0].events), turns[1..]);
      RunConcat(t, turns[0].events, WaitLog(Run(t, turns[0].events), turns[1..]));
    }
  }

  /** e is how get() ends after it waited while `log` happened: it is back if and only if the transaction is finished
      then, with the result that the transaction has then, and leaves it without one. */
  predicate EndsAfter(t: Txn, log: seq<Event>, e: Ending)
    requires Inv(t) && CanRun(t, log)
  {
    var t' := Run(t, log);
    && (e.back <==> t'.finish)
    && (e.back ==> e.pointer == t'.result && e.txn == t'.(result := None))
    && (!e.back ==> e.pointer == None && e.txn == t')
  }

  lemma EndsLater(t: Txn, first: seq<Event>, log: seq<Event>, e: Ending)
    requires Inv(t) && CanRun(t, first) && CanRun(Run(t, first), log) && EndsAfter(Run(t, first), log, e)
    ensures CanRun(t, first + log) && EndsAfter(t, first + log, e)
  {
    RunConcat(t, first, log);
  }

  lemma {:induction false} AwaitFinishReturns(t: Txn, turns: seq<Turn>)
    requires Inv(t) && CanTakeTurns(t, turns)
    ensures CanRun(t, WaitLog(t, turns)) && EndsAfter(t, WaitLog(t, turns), AwaitFinish(t, turns))
    decreases |turns|
  {
    WaitLogIsRun(t, turns);
    if t.finish || turns == [] {
    } else {
      var t' := Run(t, turns[0].events);
      AwaitFinishReturns(t', turns[1..]);
      EndsLater(t, turns[0].events, WaitLog(t', turns[1..]), AwaitFinish(t', turns[1..]));
    }
  }

  /** Both waits: get() comes back as soon as it finds the transaction finished, and not before; unless it comes
      back, it has waited through all turns. It returns the result as it is at that moment. */
  lemma {:induction false} GetReturns(t: Txn, turns: seq<Turn>)
    requires Inv(t) && CanTakeTurns(t, turns) && StartsFirst(t)
    ensures CanRun(t, WaitLog(t, turns)) && EndsAfter(t, WaitLog(t, turns), AwaitStart(t, turns))
    ensures WaitLog(t, turns) <= TurnEvents(turns)
    ensures !AwaitStart(t, turns).back ==> WaitLog(t, turns) == TurnEvents(turns)
    decreases |turns|
  {
    WaitLogIsRun(t, turns);
    if !t.infinite || t.state != Created || turns == [] {
      AwaitFinishReturns(t, turns);
    } else {
      var t', log := Run(t, turns[0].events), WaitLog(Run(t, turns[0].events), turns[1..]);
      if turns[0].timedOut {
        AwaitFinishReturns(t', turns[1..]);
      } else {
        CreatedStays(t, turns[0].events);
        GetReturns(t', turns[1..]);
      }
      EndsLater(t, turns[0].events, log, AwaitStart(t, turns));
    }
  }

  /** The result is gone if and only if somebody took it. */
  lemma {:induction false} TakenIff(t0: Txn, es: seq<Event>)
    requires Inv(t0) && t0.result.Some? && CanRun(t0, es)
    ensures Run(t0, es).result.None? <==> ETake in es
  {
    if es == [] {
    } else {
      assert es == Front(es) + [Last(es)];
      TakenIff(t0, Front(es));
      TakenStep(Run(t0, Front(es)), Last(es));
    }
  }

  lemma TakenStep(t: Txn, e: Event)
    requires Inv(t) && Enabled(t, e)
    ensures Apply(t, e).result.None? <==> t.result.None? || e == ETake
  {
  }

  /** Main result about get(): over every run, a get() that comes back obtains the result of the end of the
      transaction, or a null pointer if and only if somebody else took that before. */
  lemma GetObtains(t0: Txn, es: seq<Event>, turns: seq<Turn>) returns (k: nat)
    requires IsFresh(t0) && CanRun(t0, es) && CanTakeTurns(Run(t0, es), turns) && AwaitStart(Run(t0, es), turns).back
    ensures var log := es + WaitLog(Run(t0, es), turns);
            && CanRun(t0, log) && EndsAt(t0, log, k)
            && AwaitStart(Run(t0, es), turns).pointer == if ETake in log then None else Some(EndResult(t0, log, k))
  {
    var t := Run(t0, es);
    CreatedStays(t0, es);
    GetReturns(t, turns);
    RunConcat(t0, es, WaitLog(t, turns));
    var log := es + WaitLog(t, turns);
    k := Outcome(t0, log);
    TakenIff(t0, log);
  }

  lemma {:induction false} CreatedStays(t: Txn, es: seq<Event>)
    requires Inv(t) && CanRun(t, es) && StartsFirst(t)
    ensures StartsFirst(Run(t, es))
  {
    if es == [] {
    } else {
      CreatedStays(t, Front(es));
      CreatedStep(Run(t, Front(es)), Last(es));
    }
  }

  lemma CreatedStep(t: Txn, e: Event)
    requires Inv(t) && Enabled(t, e) && StartsFirst(t)
    ensures StartsFirst(Apply(t, e))
  {
  }

  /** What follows the loop: the code is recorded and the end is signalled. */
  function Ended(t: Txn, code: int): Txn
    requires t.result.Some?
  {
    t.(phase := Returned, finish := true, result := Some(WithErrorCode(t.result.value, code)))
  }

  /** The two halves of a start, before and after the call of the sender. */
  function Entered(t: Txn, error: int): Txn {
    if error != TRN_OK then t.(defaultError := error, state := DefaultError, expected := 0)
    else
      t.(defaultError := error, state := if IsCoordinator(t.request) then SentCoordinator else Sent, sent := t.sent + [t.request])
  }

  function SendDone(t: Txn, threw: bool): Txn {
    var t' := if threw then t.(state := InterfaceError, expected := 0) else t;
    t'.(phase := Looping(t'.expected))
  }

  lemma HalvesOfStart(t: Txn, error: int, sendFails: bool)
    ensures Start(t, error, sendFails) == SendDone(Entered(t, error), error == TRN_OK && sendFails)
  {
  }

  /** No other thread obtains the result during these turns. */
  predicate NobodyTakes(turns: seq<Turn>) {
    forall k :: 0 <= k < |turns| ==> ETake !in turns[k].events
  }

  class DpaTransaction2 {
    ghost const request: Message
    const mode: RfMode
    const osVersion: string
    var infinite: bool
    var userTimeout: uint32
    var state: State
    var finish: bool
    var defaultError: int
    var expected: uint32
    var hops: int8
    var timeSlot: int8
    var hopsResponse: int8
    var sent: seq<Message>
    var resultPtr: DpaTransactionResult2?
    ghost var phase: Phase

    ghost function Repr(): set<object>
      reads this
    {
      {this} + if resultPtr == null then {} else {resultPtr}
    }

    ghost function View(): Txn
      reads Repr()
    {
      Txn(request, mode, osVersion, infinite, userTimeout, phase, state, finish, defaultError, expected,
          hops, timeSlot, hopsResponse, sent, if resultPtr == null then None else Some(resultPtr.View()))
    }

    ghost predicate Valid()
      reads Repr()
    {
      Inv(View())
    }

    constructor (message: Message, mode: RfMode, osVersion: string, defaultTimeout: int32, userTimeout: int32, defaultError: int)
      ensures Valid() && fresh(Repr())
      ensures View() == New(message, mode, osVersion, defaultTimeout, userTimeout, defaultError)
    {
      var r := new DpaTransactionResult2(message);
      var t := CorrectTimeouts(r.request, defaultTimeout, userTimeout);
      resultPtr := r;
      request, this.mode, this.osVersion := r.request, mode, osVersion;
      state, finish, this.defaultError, phase := Created, false, defaultError, NotStarted;
      infinite, this.userTimeout, expected := t.infinite, t.user, t.expected;
      hops, timeSlot, hopsResponse, sent := 0, 0, 0, [];
    }

    method AbortTransaction()
      requires Valid()
      modifies Repr()
      ensures Valid() && resultPtr == old(resultPtr) && View() == Abort(old(View()))
    {
      state := Aborted;
    }

    method EstimatedTime(length: int8) returns (ms: int)
      ensures ms == Estimate(mode, osVersion, ToUint8(hops), ToUint8(timeSlot), ToUint8(hopsResponse), length)
      ensures 0 <= ms <= LONGEST_ESTIMATE
    {
      ms := Estimate(mode, osVersion, ToUint8(hops), ToUint8(timeSlot), ToUint8(hopsResponse), length);
      EstimateRange(mode, osVersion, ToUint8(hops), ToUint8(timeSlot), ToUint8(hopsResponse), length);
    }

    method ProcessReceivedMessage(m: Message) returns (outcome: Reception)
      requires Valid()
      modifies Repr()
      ensures Valid() && resultPtr == old(resultPtr)
      ensures outcome == ReceptionOf(old(View()), m) && View() == Receive(old(View()), m)
    {
      if finish {
        return Ignored;
      }
      var direction := MessageDirection(m);
      if direction != Response && direction != Confirmation {
        return NotExpected;
      }
      var sentRequest := resultPtr.request;
      if NodeAddress(m) != NodeAddress(sentRequest) {
        return WrongAddress;
      }
      if PeripheralType(m) != PeripheralType(sentRequest) {
        return WrongPeripheral;
      }
      if PeripheralCommand(m) % BIT7 != PeripheralCommand(sentRequest) {
        return WrongCommand;
      }
      if direction == Confirmation {
        ProcessConfirmation(m);
      } else {
        ProcessResponse(m);
      }
      outcome := Accepted;
    }

    method ProcessConfirmation(m: Message)
      requires Valid() && !finish
      modifies Repr()
      ensures resultPtr == old(resultPtr) && View() == OnConfirmation(old(View()), m)
    {
      if LowAddress(m) == BROADCAST_ADDRESS {
        state := ConfirmationBroadcast;
      } else {
        state := ConfirmationReceived;
      }
      hops := ToInt8(ConfirmationHops(m));
      timeSlot := ToInt8(ConfirmationTimeSlot(m));
      hopsResponse := ToInt8(ConfirmationHopsResponse(m));
      var estimated := EstimatedTime(NO_LENGTH);
      AdoptEstimate(estimated);
      resultPtr.SetConfirmation(m);
    }

    method AdoptEstimate(estimated: int)
      requires 0 <= estimated <= LONGEST_ESTIMATE
      modifies this`expected
      ensures expected == if estimated <= 0 then old(expected) else Max(ToUint32(estimated), userTimeout)
    {
      if estimated > 0 {
        if estimated >= userTimeout {
          expected := estimated;
        } else {
          expected := userTimeout;
        }
      }
    }

    method ProcessResponse(m: Message)
      requires Valid() && !finish
      modifies Repr()
      ensures resultPtr == old(resultPtr) && View() == OnResponse(old(View()), m)
    {
      if state == SentCoordinator {
        state := Processed;
      } else {
        if !infinite {
          state := ReceivedResponse;
          expected := EstimatedTime(DataLength(m));
          if expected <= 0 {
            state := Processed;
          }
        } else {
          state := Processed;
        }
      }
      resultPtr.SetResponse(m);
    }

    /** From taking the mutex to the call of the sender, which follows if there is no error. */
    method Enter(error: int) returns (send: bool)
      requires resultPtr != null && resultPtr.request == request
      modifies this
      ensures resultPtr == old(resultPtr) && send == (error == TRN_OK) && View() == Entered(old(View()), error)
    {
      defaultError := error;
      send := defaultError == TRN_OK;
      if send {
        if LowAddress(resultPtr.request) == COORDINATOR_ADDRESS {
          state := SentCoordinator;
        } else {
          state := Sent;
        }
        sent := sent + [resultPtr.request];
      } else {
        state := DefaultError;
        expected := 0;
      }
    }

    /** From the call of the sender, if there was one, to the first look at the loop condition. */
    method AfterSend(threw: bool)
      modifies this
      ensures resultPtr == old(resultPtr) && View() == SendDone(old(View()), threw)
    {
      if threw {
        expected := 0;
        state := InterfaceError;
      }
      phase := Looping(expected);
    }

    /** execute() up to its loop, with a sender that just throws or does not. */
    method Begin(error: int, sendFails: bool)
      requires Valid() && phase.NotStarted?
      modifies Repr()
      ensures Valid() && resultPtr == old(resultPtr) && View() == Start(old(View()), error, sendFails)
    {
      var send := Enter(error);
      AfterSend(send && sendFails);
    }

    /** The switch over the state: whether to finish, and with which code. */
    method EvaluateState(expired: bool) returns (done: bool, errorCode: int)
      requires Valid()
      modifies this`state
      ensures resultPtr == old(resultPtr)
      ensures match Evaluate(old(View()), expired)
              case Continue => !done && View() == old(View())
              case Finish(state, code) => done && errorCode == code && View() == old(View()).(state := state)
    {
      done, errorCode := true, TRN_ERROR_IFACE;
      match state
      case Sent | SentCoordinator | ConfirmationReceived =>
        if expired {
          if !infinite {
            state := TimedOut;
            errorCode := TRN_ERROR_TIMEOUT;
          } else {
            done := false;
          }
        } else {
          done := false;
        }
      case ConfirmationBroadcast | ReceivedResponse =>
        if expired {
          state := Processed;
          errorCode := TRN_OK;
        } else {
          done := false;
        }
      case Processed => errorCode := TRN_OK;
      case TimedOut => errorCode := TRN_ERROR_TIMEOUT;
      case Aborted => errorCode := TRN_ERROR_ABORTED;
      case InterfaceError => errorCode := TRN_ERROR_IFACE;
      case DefaultError => errorCode := defaultError;
      case Created => errorCode := TRN_ERROR_IFACE;
    }

    /** After the loop in execute(). */
    method End(errorCode: int)
      requires phase.Looping? && resultPtr != null
      modifies Repr()
      ensures resultPtr == old(resultPtr) && View() == Ended(old(View()), errorCode)
    {
      resultPtr.SetErrorCode(errorCode);
      finish := true;
      phase := Returned;
    }

    /** One critical section of any thread. */
    method Happen(e: Event)
      requires Valid() && Enabled(View(), e)
      modifies Repr()
      ensures Valid() && View() == Apply(old(View()), e)
      ensures resultPtr == old(resultPtr) || (e.ETake? && resultPtr == null)
    {
      match e
      case EStart(error, sendFails) => Begin(error, sendFails);
      case EWake(expired) =>
        var done, errorCode := EvaluateState(expired);
        if done {
          End(errorCode);
        } else {
          phase := Looping(expected);
        }
      case EReceive(m) =>
        var _ := ProcessReceivedMessage(m);
      case EAbort => AbortTransaction();
      case ETake =>
        var _ := MoveResult();
    }

    /** The other threads' critical sections during one wait. */
    method LetOthers(events: seq<Event>)
      requires Valid() && CanRun(View(), events)
      modifies Repr()
      ensures Valid() && View() == Run(old(View()), events)
      ensures resultPtr == old(resultPtr) || (resultPtr == null && ETake in events)
    {
      ghost var t := View();
      for i := 0 to |events|
        invariant Valid() && (resultPtr == old(resultPtr) || (resultPtr == null && ETake in events))
        invariant CanRun(t, events[..i]) && View() == Run(t, events[..i])
      {
        NextInRun(t, events, i);
        Happen(events[i]);
      }
      assert events[..|events|] == events;
    }

    /** The body of the loop in execute(). */
    method IterateOnce(slot: Slot) returns (done: bool, errorCode: int)
      requires Valid() && phase == Looping(expected)
      modifies Repr()
      ensures resultPtr == old(resultPtr) && (!done ==> Valid())
      ensures if done then phase.Looping? && resultPtr != null && Ended(View(), errorCode) == Iteration(old(View()), slot)
              else phase == Looping(expected) && View() == Iteration(old(View()), slot)
    {
      var expired := false;
      if expected > 0 {
        InterferenceRuns(View(), slot.others);
        LetOthers(slot.others);
        expired := slot.expired;
      }
      done, errorCode := EvaluateState(expired);
      if !done {
        phase := Looping(expected);
      }
    }

    /** The loop of execute() and what follows it, for as many iterations as there are slots in the schedule. */
    method Loop(schedule: seq<Slot>)
      requires Valid() && phase == Looping(expected)
      modifies Repr()
      ensures Valid() && resultPtr == old(resultPtr) && View() == Iterate(old(View()), schedule)
    {
      ghost var start := View();
      var i, done, errorCode := 0, false, TRN_ERROR_IFACE;
      while !done && i < |schedule|
        invariant 0 <= i <= |schedule| && resultPtr == old(resultPtr) && resultPtr != null && phase.Looping?
        invariant !done ==> Valid() && phase == Looping(expected) && Iterate(View(), schedule[i..]) == Iterate(start, schedule)
        invariant done ==> Ended(View(), errorCode) == Iterate(start, schedule)
      {
        assert schedule[i..][1..] == schedule[i + 1..];
        done, errorCode := IterateOnce(schedule[i]);
        i := i + 1;
      }
      if done {
        End(errorCode);
      }
    }

    /** execute(), with a sender that just throws or does not. */
    method Execute(error: int, sendFails: bool, schedule: seq<Slot>)
      requires Valid() && phase.NotStarted?
      modifies Repr()
      ensures Valid() && resultPtr == old(resultPtr)
      ensures View() == Iterate(Start(old(View()), error, sendFails), schedule)
    {
      Begin(error, sendFails);
      Loop(schedule);
    }

    /** The last critical section of get(). */
    method MoveResult() returns (r: DpaTransactionResult2?)
      requires Valid() && finish
      modifies this
      ensures Valid() && View() == Take(old(View()))
      ensures r == old(resultPtr) && (r != null ==> r.View() == old(r.View()))
    {
      r := resultPtr;
      resultPtr := null;
    }

    /** get(), for as many turns as it waits: first, if the transaction is infinite, for the start, then for the
        end. The report of a transaction that was not started in time cannot be reached inside the first wait. */
    method Get(turns: seq<Turn>) returns (back: bool, r: DpaTransactionResult2?)
      requires Valid() && CanTakeTurns(View(), turns)
      modifies Repr()
      ensures Valid() && Ending(View(), back, if r == null then None else Some(r.View())) == AwaitStart(old(View()), turns)
      ensures back && NobodyTakes(turns) ==> r == old(resultPtr)
      ensures r != null ==> back && r == old(resultPtr)
      ensures back ==> resultPtr == null
    {
      r := null;
      var i, stuck := AwaitStarted(turns);
      if !stuck {
        stuck := AwaitEnd(turns[i..]);
      }
      back := !stuck;
      if back {
        r := MoveResult();
      }
    }

    /** The second wait of get(); `stuck` means that the turns are used up. */
    method AwaitEnd(turns: seq<Turn>) returns (stuck: bool)
      requires Valid() && CanTakeTurns(View(), turns)
      modifies Repr()
      ensures Valid() && (resultPtr == old(resultPtr) || (resultPtr == null && !NobodyTakes(turns)))
      ensures stuck <==> !finish
      ensures AwaitFinish(old(View()), turns) == if stuck then Ending(View(), false, None) else Ending(Take(View()), true, View().result)
    {
      var i := 0;
      while !finish && i < |turns|
        invariant 0 <= i <= |turns| && Valid() && CanTakeTurns(View(), turns[i..])
        invariant resultPtr == old(resultPtr) || (resultPtr == null && !NobodyTakes(turns))
        invariant AwaitFinish(View(), turns[i..]) == AwaitFinish(old(View()), turns)
      {
        assert turns[i..][1..] == turns[i + 1..];
        LetOthers(turns[i].events);
        i := i + 1;
      }
      stuck := !finish;
    }

    /** The first wait of get(), for infinite transactions only; `stuck` means that the turns are used up. */
    method AwaitStarted(turns: seq<Turn>) returns (i: nat, stuck: bool)
      requires Valid() && CanTakeTurns(View(), turns)
      modifies Repr()
      ensures Valid() && (resultPtr == old(resultPtr) || (resultPtr == null && !NobodyTakes(turns)))
      ensures i <= |turns| && CanTakeTurns(View(), turns[i..])
      ensures AwaitStart(old(View()), turns) == if stuck then Ending(View(), false, None) else AwaitFinish(View(), turns[i..])
    {
      i, stuck := 0, false;
      var timedOut := false;
      if infinite {
        while state == Created && !timedOut
          invariant 0 <= i <= |turns| && Valid() && infinite && CanTakeTurns(View(), turns[i..])
          invariant resultPtr == old(resultPtr) || (resultPtr == null && !NobodyTakes(turns))
          invariant (if timedOut then AwaitFinish(View(), turns[i..]) else AwaitStart(View(), turns[i..])) == AwaitStart(old(View()), turns)
          decreases |turns| - i, !timedOut
        {
          if i == |turns| {
            return i, true;
          }
          assert turns[i..][1..] == turns[i + 1..];
          Fixed(View(), turns[i].events);
          LetOthers(turns[i].events);
          timedOut := turns[i].timedOut;
          i := i + 1;
        }
      }
    }
  }
}
