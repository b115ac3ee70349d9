/** The handler as one machine: the task queue, its transactions, the receive thread and the users. */
module HandlerMachine {
  import opened MachineInts
  import opened DpaMessages
  import opened Wrappers
  import opened Timing
  import opened Routing
  import opened TransactionResults
  import T = TransactionMachine
  import TR = TransactionRuns
  import Q = TaskQueueMachine
  import QR = TaskQueueRuns

  const QUEUE_MAX_LEN := 16

  /** The overload rule: the error that execute() is called with when this many transactions are left in the queue. */
  function ErrorForSize(size: nat, ownError: int): int {
    if size < QUEUE_MAX_LEN then ownError else TRN_ERROR_IFACE_QUEUE_FULL
  }

  /** How a call ends: it returns, or throws a std::exception, or something else. */
  datatype CallEnd = Returns | ThrowsStd | ThrowsOther

  /** The sender of the handler's transactions, by what the channel does: a std::exception is caught and logged. */
  function SendRequest(channel: CallEnd): CallEnd {
    match channel
    case Returns => Returns
    case ThrowsStd => Returns
    case ThrowsOther => ThrowsOther
  }

  /** How far the processing function got with the task that runs. */
  datatype TaskPc = Called | Assigned | Sized(size: nat) | Executing

  datatype LogEntry = Sent(id: nat) | Finished(id: nat, code: int)

  /** A transaction, with its state at construction and the critical sections it went through. */
  datatype Entry = Entry(born: T.Txn, events: seq<T.Event>, txn: T.Txn)

  datatype Handler = Handler(
    queue: Q.Queue<nat>,              // transactions are numbered in the order of their pushes
    entries: seq<Entry>,
    task: TaskPc,
    pending: Option<nat>,             // m_pendingTransaction
    received: Option<(nat, Message)>, // the receive thread read m_pendingTransaction and carries a message to it
    younger: map<nat, nat>,           // for each dequeued transaction, the queue size it was judged by
    asyncs: seq<Message>,             // what the asynchronous handler was given
    log: seq<LogEntry>,
    mode: RfMode,
    osVersion: string,
    defaultTimeout: int32)

  predicate IsNewHandler(h: Handler) {
    && h.queue == Q.NewQueue() && h.entries == [] && h.task == Called && h.pending == None && h.received == None
    && h.younger == map[] && h.asyncs == [] && h.log == [] && h.defaultTimeout >= MINIMAL_TIMEOUT
  }

  datatype Step =
    | Push(request: Message, userTimeout: int32, defaultError: int)  // executeDpaTransaction
    | Worker                         // a statement of the queue's worker, or the return of the processing function
    | SpuriousWakeUp
    | Notification
    | Stop
    | Assign                         // m_pendingTransaction = ptr
    | ReadSize                       // m_dpaTransactionQueue->size()
    | Execute(channel: CallEnd)      // execute() up to its first wait
    | Wake(expired: bool)            // an iteration of the loop in execute()
    | Frame(bytes: seq<uint8>)       // ResponseMessageHandler up to the call of processReceivedMessage
    | Deliver                        // processReceivedMessage
    | UserAbort(id: nat)
    | UserGet(id: nat)               // the last critical section of get()
    | Configure(mode: RfMode, osVersion: string, timeout: int32)

  /** The transaction that the processing function was called with. */
  predicate InTask(h: Handler) {
    h.queue.pc.Running?
  }

  predicate TxnEnabled(h: Handler, id: nat, e: T.Event) {
    id < |h.entries| && T.Inv(h.entries[id].txn) && T.Enabled(h.entries[id].txn, e)
  }

  /** What execute() does not catch ends the process. */
  predicate Enabled(h: Handler, s: Step) {
    match s
    case Push(request, _, _) => !h.queue.owns && request.length > 0
    case Worker =>
      Q.Enabled(h.queue, Q.LWork) &&
      (InTask(h) ==> h.task.Executing? && h.queue.pc.task < |h.entries| && h.entries[h.queue.pc.task].txn.phase.Returned?)
    case SpuriousWakeUp => Q.Enabled(h.queue, Q.LSpurious)
    case Notification => Q.Enabled(h.queue, Q.LNotify)
    case Stop => Q.Enabled(h.queue, Q.LStop)
    case Assign => InTask(h) && h.task.Called?
    case ReadSize => InTask(h) && h.task.Assigned?
    case Execute(channel) =>
      InTask(h) && h.task.Sized? && !SendRequest(channel).ThrowsOther? && TxnEnabled(h, h.queue.pc.task, StartEvent(h, channel))
    case Wake(expired) => InTask(h) && h.task.Executing? && TxnEnabled(h, h.queue.pc.task, T.EWake(expired))
    case Frame(bytes) => h.received.None? && (RouteOf(bytes).ToPending? ==> h.pending.Some?)
    case Deliver => h.received.Some? && TxnEnabled(h, h.received.value.0, T.EReceive(h.received.value.1))
    case UserAbort(id) => TxnEnabled(h, id, T.EAbort)
    case UserGet(id) => TxnEnabled(h, id, T.ETake)
    case Configure(_, _, _) => true
  }

  /** The size after the pop decides which error code execute() is called with. */
  function StartEvent(h: Handler, channel: CallEnd): T.Event
    requires InTask(h) && h.task.Sized?
  {
    var id := h.queue.pc.task;
    T.EStart(ErrorForSize(h.task.size, if id < |h.entries| then h.entries[id].txn.defaultError else TRN_OK),
             SendRequest(channel).ThrowsStd?)
  }

  /** One transaction goes through one critical section. */
  function Touch(h: Handler, id: nat, e: T.Event): Handler
    requires TxnEnabled(h, id, e)
  {
    var x := h.entries[id];
    h.(entries := h.entries[id := x.(events := x.events + [e], txn := T.Apply(x.txn, e))])
  }

  function NewEntry(h: Handler, request: Message, userTimeout: int32, defaultError: int): Entry {
    var txn := T.New(request, h.mode, h.osVersion, h.defaultTimeout, userTimeout, defaultError);
    Entry(txn, [], txn)
  }

  function Next(h: Handler, s: Step): Handler
    requires Enabled(h, s)
  {
    match s
    case Push(request, userTimeout, defaultError) =>
      h.(queue := Q.Push(h.queue, |h.entries|), entries := h.entries + [NewEntry(h, request, userTimeout, defaultError)])
    case Worker => h.(queue := Q.Work(h.queue), task := Called)
    case SpuriousWakeUp => h.(queue := Q.Work(h.queue))
    case Notification => h.(queue := Q.NotifyAll(h.queue))
    case Stop => h.(queue := Q.Stop(h.queue))
    case Assign => h.(pending := Some(h.queue.pc.task), task := Assigned)
    case ReadSize => h.(task := Sized(|h.queue.tasks|), younger := h.younger[h.queue.pc.task := |h.queue.tasks|])
    case Execute(channel) =>
      var e := StartEvent(h, channel);
      Touch(h, h.queue.pc.task, e).(task := Executing, log := h.log + if e.defaultError == TRN_OK then [Sent(h.queue.pc.task)] else [])
    case Wake(expired) =>
      var id := h.queue.pc.task;
      var h' := Touch(h, id, T.EWake(expired));
      var txn := h'.entries[id].txn;
      if txn.finish && txn.result.Some? then h'.(log := h.log + [Finished(id, ErrorCode(txn.result.value))]) else h'
    case Frame(bytes) =>
      (match RouteOf(bytes)
       case Drop => h
       case ToAsyncHandler(m) => h.(asyncs := h.asyncs + [m])
       case ToPending(m) => h.(received := Some((h.pending.value, m))))
    case Deliver => Touch(h, h.received.value.0, T.EReceive(h.received.value.1)).(received := None)
    case UserAbort(id) => Touch(h, id, T.EAbort)
    case UserGet(id) => Touch(h, id, T.ETake)
    case Configure(mode, osVersion, timeout) =>
      h.(mode := mode, osVersion := osVersion, defaultTimeout := Max(timeout, MINIMAL_TIMEOUT))
  }

  // ---------- The invariant ----------

  /** An entry's history explains its state; it was built with a timeout the handler allows, nothing but what
      the handler lets through reached it, and its sender did not fail. */
  predicate EntryInv(x: Entry) {
    && TR.IsFresh(x.born) && x.born.expected >= MINIMAL_TIMEOUT && x.born.userTimeout >= MINIMAL_TIMEOUT
    && TR.CanRun(x.born, x.events) && x.txn == TR.Run(x.born, x.events)
    && (forall e :: e in x.events && e.EReceive? ==> IsRoutable(e.message))
    && (forall e :: e in x.events && e.EStart? ==> !e.sendFails)
    && (x.txn.phase.NotStarted? ==> x.txn.defaultError == x.born.defaultError)
  }

  predicate PhaseFits(h: Handler, id: nat, phase: T.Phase) {
    if id < |h.queue.done| then phase.Returned?
    else if id == |h.queue.done| && InTask(h) && h.task.Executing? then !phase.NotStarted?
    else phase.NotStarted?
  }

  /** Transactions before the one in flight have returned, the later ones have not started. */
  predicate PhaseInv(h: Handler) {
    forall i :: 0 <= i < |h.entries| ==> PhaseFits(h, i, h.entries[i].txn.phase)
  }

  predicate NumbersInv(h: Handler) {
    && |h.queue.pushed| == |h.entries|
    && forall i :: 0 <= i < |h.entries| ==> h.queue.pushed[i] == i
  }

  /** If it was started, then with the error that its judgement asks for. */
  predicate JudgedRightly(younger: map<nat, nat>, id: nat, x: Entry) {
    forall e :: e in x.events && e.EStart? ==>
      id in younger
      && e.defaultError == ErrorForSize(younger[id], x.born.defaultError)
  }

  /** How each transaction was judged: by the number of younger ones, which is what it finds in the queue. */
  predicate OverloadInv(h: Handler) {
    && (forall i :: i in h.younger ==> i + h.younger[i] < |h.entries|)
    && (forall i :: 0 <= i < |h.entries| ==> JudgedRightly(h.younger, i, h.entries[i]))
    && (InTask(h) && h.task.Sized? ==> h.queue.pc.task in h.younger && h.younger[h.queue.pc.task] == h.task.size)
  }

  /** The transaction that was made pending last: the running one once it is assigned, else the last one done. */
  function Latest(h: Handler): Option<nat> {
    if InTask(h) && !h.task.Called? then Some(|h.queue.done|)
    else if |h.queue.done| > 0 then Some(|h.queue.done| - 1)
    else None
  }

  /** The transaction was made pending at some time. */
  predicate TakenUp(h: Handler, id: nat) {
    id < |h.queue.done| || (id == |h.queue.done| && InTask(h) && !h.task.Called?)
  }

  predicate ReceiverInv(h: Handler) {
    && h.pending == Latest(h) && (h.pending.Some? ==> h.pending.value < |h.entries|)
    && (h.received.Some? ==>
          h.received.value.0 < |h.entries| && TakenUp(h, h.received.value.0) && IsRoutable(h.received.value.1))
  }

  /** Reading a log from its start: n transactions finished, and whether the next one was sent; None if the log
      is not serial, that is, if something else than the next transaction was sent or finished. */
  function Scan(log: seq<LogEntry>): Option<(nat, bool)> {
    if log == [] then Some((0, false))
    else
      match Scan(log[..|log| - 1])
      case None => None
      case Some((n, sent)) =>
        match log[|log| - 1]
        case Sent(id) => if id == n && !sent then Some((n, true)) else None
        case Finished(id, _) => if id == n then Some((n + 1, false)) else None
  }

  predicate LogInv(h: Handler) {
    var d := |h.queue.done|;
    Scan(h.log) ==
      if d < |h.entries| && !h.entries[d].txn.phase.NotStarted?
      then if h.entries[d].txn.finish then Some((d + 1, false)) else Some((d, h.entries[d].txn.sent != []))
      else Some((d, false))
  }

  ghost predicate StructureInv(h: Handler) {
    && QR.QueueInv(h.queue) && NumbersInv(h) && PhaseInv(h) && OverloadInv(h) && ReceiverInv(h) && LogInv(h)
    && h.defaultTimeout >= MINIMAL_TIMEOUT
  }

  predicate EntriesInv(h: Handler) {
    forall x :: x in h.entries ==> EntryInv(x)
  }

  ghost predicate HandlerInv(h: Handler) {
    StructureInv(h) && EntriesInv(h)
  }
}
