/** One transaction as a machine whose steps are the critical sections of its mutex. */
module TransactionMachine {
  import opened MachineInts
  import opened DpaMessages
  import opened TransactionResults
  import opened Timing
  import opened Wrappers

  datatype State =
    | Created | Sent | SentCoordinator | ConfirmationReceived | ConfirmationBroadcast | ReceivedResponse
    | Processed | TimedOut | Aborted | InterfaceError | DefaultError

  /** Where the thread that runs execute() is. `wait` is the duration it read when it reached the wait;
      0 means that it does not wait, so it keeps the mutex. */
  datatype Phase = NotStarted | Looping(wait: uint32) | Returned

  datatype Txn = Txn(
    // fixed at construction
    request: Message,
    mode: RfMode,
    osVersion: string,
    infinite: bool,
    userTimeout: uint32,
    // changed by the critical sections
    phase: Phase,
    state: State,
    finish: bool,
    defaultError: int,
    expected: uint32,
    hops: int8,
    timeSlot: int8,
    hopsResponse: int8,
    sent: seq<Message>,        // what was handed to the sender
    result: Option<Result>)    // None once it was moved out

  function New(request: Message, mode: RfMode, osVersion: string, defaultTimeout: int32, userTimeout: int32,
               defaultError: int): Txn {
    var t := CorrectedTimeouts(Copy(request), defaultTimeout, userTimeout);
    Txn(Copy(request), mode, osVersion, t.infinite, t.user,
        NotStarted, Created, false, defaultError, t.expected, 0, 0, 0, [], Some(NewResult(request)))
  }

  /** Other threads get the mutex before execute(), while it waits and after it returned. */
  predicate Unlocked(t: Txn) {
    t.phase.Looping? ==> t.phase.wait > 0
  }

  // ---------- abort ----------

  function Abort(t: Txn): Txn {
    t.(state := Aborted)
  }

  // ---------- execute ----------

  /** From taking the mutex up to the first wait. */
  function Start(t: Txn, defaultError: int, sendFails: bool): Txn {
    var t1 := t.(defaultError := defaultError);
    var t2 :=
      if defaultError != TRN_OK then t1.(state := DefaultError, expected := 0)
      else
        var s := t1.(state := if IsCoordinator(t.request) then SentCoordinator else Sent, sent := t1.sent + [t.request]);
        if sendFails then s.(state := InterfaceError, expected := 0) else s;
    t2.(phase := Looping(t2.expected))
  }

  datatype Verdict = Continue | Finish(state: State, code: int)

  /** The state switch at the end of an iteration. */
  function Evaluate(t: Txn, expired: bool): Verdict {
    match t.state
    case Sent | SentCoordinator | ConfirmationReceived =>
      if expired && !t.infinite then Finish(TimedOut, TRN_ERROR_TIMEOUT) else Continue
    case ConfirmationBroadcast | ReceivedResponse =>
      if expired then Finish(Processed, TRN_OK) else Continue
    case Processed => Finish(Processed, TRN_OK)
    case TimedOut => Finish(TimedOut, TRN_ERROR_TIMEOUT)
    case Aborted => Finish(Aborted, TRN_ERROR_ABORTED)
    case InterfaceError => Finish(InterfaceError, TRN_ERROR_IFACE)
    case DefaultError => Finish(DefaultError, t.defaultError)
    case Created => Finish(Created, TRN_ERROR_IFACE)
  }

  /** From the end of a wait (expired or notified) to the next wait, or to the return. */
  function Wake(t: Txn, expired: bool): Txn
    requires t.result.Some?
  {
    match Evaluate(t, expired)
    case Continue => t.(phase := Looping(t.expected))
    case Finish(state, code) =>
      t.(phase := Returned, state := state, finish := true, result := Some(WithErrorCode(t.result.value, code)))
  }

  // ---------- processReceivedMessage ----------

  datatype Reception = Ignored | NotExpected | WrongAddress | WrongPeripheral | WrongCommand | Accepted

  /** The checks against the request, in the order in which they throw. */
  function Check(request: Message, m: Message): Reception {
    if MessageDirection(m) != Response && MessageDirection(m) != Confirmation then NotExpected
    else if NodeAddress(m) != NodeAddress(request) then WrongAddress
    else if PeripheralType(m) != PeripheralType(request) then WrongPeripheral
    else if PeripheralCommand(m) % BIT7 != PeripheralCommand(request) then WrongCommand
    else Accepted
  }

  /** The estimate goes through the int8_t fields that store the hops and the time slot. */
  function ConfirmationEstimate(t: Txn, m: Message): int {
    Estimate(t.mode, t.osVersion, ToUint8(ToInt8(ConfirmationHops(m))), ToUint8(ToInt8(ConfirmationTimeSlot(m))),
             ToUint8(ToInt8(ConfirmationHopsResponse(m))), NO_LENGTH)
  }

  function AfterConfirmation(t: Txn, m: Message, estimated: int): Txn
    requires t.result.Some?
  {
    t.(state := if IsBroadcast(m) then ConfirmationBroadcast else ConfirmationReceived,
       hops := ToInt8(ConfirmationHops(m)), timeSlot := ToInt8(ConfirmationTimeSlot(m)),
       hopsResponse := ToInt8(ConfirmationHopsResponse(m)),
       expected := if estimated <= 0 then t.expected else Max(ToUint32(estimated), t.userTimeout),
       result := Some(WithConfirmation(t.result.value, m)))
  }

  function OnConfirmation(t: Txn, m: Message): Txn
    requires t.result.Some?
  {
    AfterConfirmation(t, m, ConfirmationEstimate(t, m))
  }

  /** int8_t length of the response data; -1, for a 7-byte response, is the mark of a confirmation. */
  function DataLength(m: Message): int8 {
    ToInt8(m.length - 8)
  }

  function ResponseEstimate(t: Txn, m: Message): int {
    Estimate(t.mode, t.osVersion, ToUint8(t.hops), ToUint8(t.timeSlot), ToUint8(t.hopsResponse), DataLength(m))
  }

  function AfterResponse(t: Txn, m: Message, estimated: uint32): Txn
    requires t.result.Some?
  {
    var t1 :=
      if t.state == SentCoordinator || t.infinite then t.(state := Processed)
      else t.(state := if estimated <= 0 then Processed else ReceivedResponse, expected := estimated);
    t1.(result := Some(WithResponse(t.result.value, m)))
  }

  function OnResponse(t: Txn, m: Message): Txn
    requires t.result.Some?
  {
    AfterResponse(t, m, ToUint32(ResponseEstimate(t, m)))
  }

  function ReceptionOf(t: Txn, m: Message): Reception {
    if t.finish then Ignored else Check(t.request, m)
  }

  function Receive(t: Txn, m: Message): Txn
    requires t.finish || t.result.Some?
  {
    if ReceptionOf(t, m) != Accepted then t
    else if MessageDirection(m) == Confirmation then OnConfirmation(t, m)
    else OnResponse(t, m)
  }

  // ---------- get ----------

  /** The last critical section of get(): the result is moved out. */
  function Take(t: Txn): Txn {
    t.(result := None)
  }

  // ---------- Runs ----------

  datatype Event =
    | EStart(defaultError: int, sendFails: bool)
    | EWake(expired: bool)
    | EReceive(message: Message)
    | EAbort
    | ETake

  /** A step dereferences the result pointer. */
  predicate Dereferences(t: Txn, e: Event) {
    match e
    case EStart(_, _) => true
    case EWake(expired) => Evaluate(t, expired).Finish?
    case EReceive(_) => !t.finish
    case EAbort => false
    case ETake => false
  }

  /** Which thread may move: execute() is called once; it does not wait, hence cannot expire, when the
      duration is 0; get() leaves its last wait only when the transaction finished. */
  predicate Enabled(t: Txn, e: Event) {
    match e
    case EStart(_, _) => t.phase.NotStarted?
    case EWake(expired) => t.phase.Looping? && (expired ==> t.phase.wait > 0)
    case EReceive(_) => Unlocked(t)
    case EAbort => Unlocked(t)
    case ETake => Unlocked(t) && t.finish
  }

  /** What every critical section keeps; in particular a result that is gone was finished. */
  predicate Inv(t: Txn) {
    && (t.phase.Returned? <==> t.finish)
    && (t.result.None? ==> t.finish)
    && (t.result.Some? ==> t.result.value.request == t.request)
    && (t.phase.Looping? ==> t.state != Created && t.state != TimedOut)
    && t.sent == (if t.phase.NotStarted? || t.defaultError != TRN_OK then [] else [t.request])
    && (t.infinite ==> IsCoordinator(t.request))
  }

  function Apply(t: Txn, e: Event): (t': Txn)
    requires Inv(t) && Enabled(t, e)
    ensures Inv(t')
  {
    match e
    case EStart(defaultError, sendFails) => Start(t, defaultError, sendFails)
    case EWake(expired) => Wake(t, expired)
    case EReceive(m) => Receive(t, m)
    case EAbort => Abort(t)
    case ETake => Take(t)
  }
}
