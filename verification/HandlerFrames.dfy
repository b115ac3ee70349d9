/** What received frames can do to the handler's transactions. */
module HandlerFrames {
  import opened MachineInts
  import opened DpaMessages
  import opened Wrappers
  import opened Routing
  import opened TransactionResults
  import opened HandlerMachine
  import opened HandlerInvariant
  import T = TransactionMachine
  import TR = TransactionRuns
  import TD = TransactionDurations
  import TO = TransactionOutcomes
  import HR = HandlerResults

  // ---------- Where frames end up ----------

  function ForAsyncHandler(s: Step): seq<Message> {
    if s.Frame? && RouteOf(s.bytes).ToAsyncHandler? then [RouteOf(s.bytes).message] else []
  }

  function ForPending(s: Step): seq<Message> {
    if s.Frame? && RouteOf(s.bytes).ToPending? then [RouteOf(s.bytes).message] else []
  }

  /** The transaction that such a frame belongs to: the one that the worker took up last. */
  function Recipient(h: Handler, s: Step): seq<nat> {
    if ForPending(s) != [] && Latest(h).Some? then [Latest(h).value] else []
  }

  /** The frames of a run for the asynchronous handler, in order. */
  function AsyncFrames(ss: seq<Step>): seq<Message> {
    if ss == [] then [] else AsyncFrames(ss[..|ss| - 1]) + ForAsyncHandler(ss[|ss| - 1])
  }

  /** The frames of a run for the pending transaction, in order. */
  function PendingFrames(ss: seq<Step>): seq<Message> {
    if ss == [] then [] else PendingFrames(ss[..|ss| - 1]) + ForPending(ss[|ss| - 1])
  }

  // ---------- The same, told from the bytes ----------

  /** The length is cut to a byte; nothing comes of 0 and of more than 64. */
  predicate HoldsMessage(frame: seq<uint8>) {
    1 <= |frame| % 0x100 <= 64
  }

  /** A confirmation, or a response whose code has bit 7 clear; a response without a code counts as one with 0. */
  predicate IsAnswer(frame: seq<uint8>)
    requires HoldsMessage(frame)
  {
    var n := |frame| % 0x100;
    n >= 4 && if frame[3] >= 0x80 then n < 7 || frame[6] < 0x80 else n >= 7 && frame[6] == 0xff
  }

  function AsyncBytesOf(s: Step): seq<seq<uint8>> {
    if s.Frame? && HoldsMessage(s.bytes) && !IsAnswer(s.bytes) then [s.bytes[..|s.bytes| % 0x100]] else []
  }

  function AnswerBytesOf(s: Step): seq<seq<uint8>> {
    if s.Frame? && HoldsMessage(s.bytes) && IsAnswer(s.bytes) then [s.bytes[..|s.bytes| % 0x100]] else []
  }

  /** The bytes of the frames in a run that are no answers, in order. */
  function AsyncBytes(ss: seq<Step>): seq<seq<uint8>> {
    if ss == [] then [] else AsyncBytes(ss[..|ss| - 1]) + AsyncBytesOf(ss[|ss| - 1])
  }

  /** The bytes of those that are. */
  function AnswerBytes(ss: seq<Step>): seq<seq<uint8>> {
    if ss == [] then [] else AnswerBytes(ss[..|ss| - 1]) + AnswerBytesOf(ss[|ss| - 1])
  }

  /** The bytes in use of each message. */
  function InUse(ms: seq<Message>): seq<seq<uint8>> {
    seq(|ms|, i requires 0 <= i < |ms| => ms[i].buffer[..ms[i].length])
  }

  lemma InUseConcat(a: seq<Message>, b: seq<Message>)
    ensures InUse(a + b) == InUse(a) + InUse(b)
  {
  }

  lemma StepBytes(s: Step)
    ensures InUse(ForAsyncHandler(s)) == AsyncBytesOf(s) && InUse(ForPending(s)) == AnswerBytesOf(s)
  {
    if s.Frame? {
      RouteByBytes(s.bytes);
    }
  }

  lemma {:induction false} FramesByBytes(ss: seq<Step>)
    ensures InUse(AsyncFrames(ss)) == AsyncBytes(ss) && InUse(PendingFrames(ss)) == AnswerBytes(ss)
    decreases |ss|
  {
    if ss == [] {
    } else {
      var before, s := ss[..|ss| - 1], ss[|ss| - 1];
      FramesByBytes(before);
      StepBytes(s);
      InUseConcat(AsyncFrames(before), ForAsyncHandler(s));
      InUseConcat(PendingFrames(before), ForPending(s));
    }
  }

  // ---------- Recipients ----------

  /** The transactions that these belong to. */
  function Recipients(h0: Handler, ss: seq<Step>): seq<nat>
    requires CanRun(h0, ss)
  {
    if ss == [] then [] else Recipients(h0, ss[..|ss| - 1]) + Recipient(Run(h0, ss[..|ss| - 1]), ss[|ss| - 1])
  }

  /** The messages that belong to i. */
  function MessagesFor(i: nat, recipients: seq<nat>, messages: seq<Message>): seq<Message>
    requires |recipients| == |messages|
  {
    if messages == [] then []
    else
      var n := |messages| - 1;
      MessagesFor(i, recipients[..n], messages[..n]) + if recipients[n] == i then [messages[n]] else []
  }

  /** The messages that a transaction was given, accepted or not. */
  function Receipts(es: seq<T.Event>): seq<Message> {
    if es == [] then [] else Receipts(TR.Front(es)) + if TR.Last(es).EReceive? then [TR.Last(es).message] else []
  }

  /** The message that the receive thread carries to transaction i. */
  function OnItsWay(h: Handler, i: nat): seq<Message> {
    if h.received.Some? && h.received.value.0 == i then [h.received.value.1] else []
  }

  lemma MessagesForMore(i: nat, rs: seq<nat>, ms: seq<Message>, r: seq<nat>, m: seq<Message>)
    requires |rs| == |ms| && |r| == |m| <= 1
    ensures MessagesFor(i, rs + r, ms + m) == MessagesFor(i, rs, ms) + if r == [i] then m else []
  {
    if m == [] {
      assert rs + r == rs && ms + m == ms;
    } else {
      assert (rs + r)[..|ms|] == rs && (ms + m)[..|ms|] == ms;
    }
  }

  lemma {:induction false} MessagesForNobody(i: nat, rs: seq<nat>, ms: seq<Message>)
    requires |rs| == |ms| && i !in rs
    ensures MessagesFor(i, rs, ms) == []
  {
    if ms == [] {
    } else {
      MessagesForNobody(i, rs[..|ms| - 1], ms[..|ms| - 1]);
    }
  }

  lemma ReceiptsSnoc(es: seq<T.Event>, e: T.Event)
    ensures Receipts(es + [e]) == Receipts(es) + if e.EReceive? then [e.message] else []
  {
    assert TR.Front(es + [e]) == es && TR.Last(es + [e]) == e;
  }

  /** A transaction is given what was on its way to it, and nothing else. */
  lemma GivenStep(h: Handler, s: Step, i: nat)
    requires Enabled(h, s) && i < |h.entries|
    ensures i < |Next(h, s).entries|
    ensures Receipts(Next(h, s).entries[i].events) == Receipts(h.entries[i].events) + if s.Deliver? then OnItsWay(h, i) else []
  {
    StepTouchesOne(h, s);
    if Touched(h, s).Some? {
      var (id, e) := Touched(h, s).value;
      ReceiptsSnoc(h.entries[id].events, e);
    }
  }

  lemma ReceiverStep(h: Handler, s: Step)
    requires HandlerInv(h) && Enabled(h, s)
    ensures |Recipient(h, s)| == |ForPending(s)| && forall r :: r in Recipient(h, s) ==> r < |h.entries|
    ensures Next(h, s).asyncs == h.asyncs + ForAsyncHandler(s)
    ensures Next(h, s).received == if s.Deliver? then None
                                   else if ForPending(s) != [] then Some((Recipient(h, s)[0], ForPending(s)[0]))
                                   else h.received
    ensures ForPending(s) != [] ==> h.received.None?
  {
  }

  lemma OnItsWayStep(h: Handler, s: Step, i: nat)
    requires HandlerInv(h) && Enabled(h, s)
    ensures OnItsWay(Next(h, s), i) == if s.Deliver? then [] else OnItsWay(h, i) + if Recipient(h, s) == [i] then ForPending(s) else []
  {
    ReceiverStep(h, s);
  }

  /** How the frames so far, those for the asynchronous handler and those for these recipients, fit the handler,
      as far as transaction i is concerned. */
  predicate Partitioned(h: Handler, asyncs: seq<Message>, recipients: seq<nat>, messages: seq<Message>, i: nat) {
    && h.asyncs == asyncs
    && |recipients| == |messages| && (forall r :: r in recipients ==> r < |h.entries|)
    && (i < |h.entries| ==> MessagesFor(i, recipients, messages) == Receipts(h.entries[i].events) + OnItsWay(h, i))
  }

  lemma PartitionStep(h: Handler, s: Step, asyncs: seq<Message>, rs: seq<nat>, ms: seq<Message>, i: nat)
    requires HandlerInv(h) && Enabled(h, s) && Partitioned(h, asyncs, rs, ms, i)
    ensures Partitioned(Next(h, s), asyncs + ForAsyncHandler(s), rs + Recipient(h, s), ms + ForPending(s), i)
  {
    ReceiverStep(h, s);
    EntriesGrow(h, s);
    MessagesForMore(i, rs, ms, Recipient(h, s), ForPending(s));
    if i < |h.entries| {
      KnownStep(h, s, i, MessagesFor(i, rs, ms));
    } else {
      MessagesForNobody(i, rs, ms);
      NewcomerStep(h, s, i);
    }
  }

  lemma KnownStep(h: Handler, s: Step, i: nat, given: seq<Message>)
    requires HandlerInv(h) && Enabled(h, s) && i < |h.entries| && given == Receipts(h.entries[i].events) + OnItsWay(h, i)
    ensures i < |Next(h, s).entries|
    ensures given + (if Recipient(h, s) == [i] then ForPending(s) else [])
            == Receipts(Next(h, s).entries[i].events) + OnItsWay(Next(h, s), i)
  {
    OnItsWayStep(h, s, i);
    GivenStep(h, s, i);
    Handover(Receipts(h.entries[i].events), OnItsWay(h, i), if Recipient(h, s) == [i] then ForPending(s) else [], s.Deliver?);
  }

  lemma Handover(receipts: seq<Message>, way: seq<Message>, more: seq<Message>, delivered: bool)
    requires delivered ==> more == []
    ensures receipts + way + more == (receipts + if delivered then way else []) + if delivered then [] else way + more
  {
  }

  lemma EntriesGrow(h: Handler, s: Step)
    requires Enabled(h, s)
    ensures |h.entries| <= |Next(h, s).entries|
  {
    StepTouchesOne(h, s);
  }

  /** Nothing belongs to a transaction that is pushed only now. */
  lemma NewcomerStep(h: Handler, s: Step, i: nat)
    requires HandlerInv(h) && Enabled(h, s) && |h.entries| <= i
    ensures |h.entries| <= |Next(h, s).entries|
    ensures i < |Next(h, s).entries| ==>
              ForPending(s) == [] && Receipts(Next(h, s).entries[i].events) == [] && OnItsWay(Next(h, s), i) == []
  {
    StepTouchesOne(h, s);
  }

  /** Every frame ends up in exactly one place, over every run: those for the asynchronous handler were given to
      it, in order; those for the pending transaction belong to the transaction that the worker had taken up last
      when they came, and what each transaction was given is what belongs to it, in order and each once, but for
      the one that is still on its way. The rest was dropped. What was passed on are the bytes of the frames. */
  lemma {:induction false} FramesArePartitioned(h0: Handler, ss: seq<Step>, i: nat)
    requires IsNewHandler(h0) && CanRun(h0, ss)
    ensures Partitioned(Run(h0, ss), AsyncFrames(ss), Recipients(h0, ss), PendingFrames(ss), i)
    ensures InUse(Run(h0, ss).asyncs) == AsyncBytes(ss) && InUse(PendingFrames(ss)) == AnswerBytes(ss)
    decreases |ss|
  {
    FramesByBytes(ss);
    if ss == [] {
    } else {
      var before := ss[..|ss| - 1];
      FramesArePartitioned(h0, before, i);
      NewHandlerInv(h0);
      InvHolds(h0, before);
      PartitionStep(Run(h0, before), ss[|ss| - 1], AsyncFrames(before), Recipients(h0, before), PendingFrames(before), i);
    }
  }

  /** Between two states of the handler: what a transaction is given and about to be given is what was on its way
      before, then the frames that came since and belong to it. */
  lemma {:induction false} FramesSince(h: Handler, ss: seq<Step>, i: nat)
    requires HandlerInv(h) && CanRun(h, ss) && i < |h.entries|
    ensures HandlerInv(Run(h, ss)) && i < |Run(h, ss).entries| && |Recipients(h, ss)| == |PendingFrames(ss)|
    ensures Receipts(Run(h, ss).entries[i].events) + OnItsWay(Run(h, ss), i)
            == Receipts(h.entries[i].events) + OnItsWay(h, i) + MessagesFor(i, Recipients(h, ss), PendingFrames(ss))
    decreases |ss|
  {
    if ss == [] {
    } else {
      var before, s := ss[..|ss| - 1], ss[|ss| - 1];
      FramesSince(h, before, i);
      InvStep(Run(h, before), s);
      SinceStep(Run(h, before), s, i, Receipts(h.entries[i].events) + OnItsWay(h, i), Recipients(h, before), PendingFrames(before));
    }
  }

  lemma SinceStep(h: Handler, s: Step, i: nat, first: seq<Message>, rs: seq<nat>, ms: seq<Message>)
    requires HandlerInv(h) && Enabled(h, s) && i < |h.entries| && |rs| == |ms|
    requires Receipts(h.entries[i].events) + OnItsWay(h, i) == first + MessagesFor(i, rs, ms)
    ensures i < |Next(h, s).entries| && |rs + Recipient(h, s)| == |ms + ForPending(s)|
    ensures Receipts(Next(h, s).entries[i].events) + OnItsWay(Next(h, s), i)
            == first + MessagesFor(i, rs + Recipient(h, s), ms + ForPending(s))
  {
    ReceiverStep(h, s);
    KnownStep(h, s, i, Receipts(h.entries[i].events) + OnItsWay(h, i));
    MessagesForMore(i, rs, ms, Recipient(h, s), ForPending(s));
    Associates(first, MessagesFor(i, rs, ms), if Recipient(h, s) == [i] then ForPending(s) else []);
  }

  lemma Associates(a: seq<Message>, b: seq<Message>, c: seq<Message>)
    ensures a + b + c == a + (b + c)
  {
  }

  // ---------- Delivery ----------

  /** A frame on its way reaches only the transaction it was routed to, and leaves even that as it was if it
      is finished or does not match; the complaint that a response was expected is never raised. */
  lemma DeliveryIsContained(h: Handler)
    requires HandlerInv(h) && Enabled(h, Deliver)
    ensures var (id, m) := h.received.value;
            var t, h' := h.entries[id].txn, Next(h, Deliver);
            && T.ReceptionOf(t, m) != T.NotExpected
            && h' == h.(entries := h.entries[id := h'.entries[id]], received := None)
            && (T.ReceptionOf(t, m) != T.Accepted ==> h'.entries[id].txn == t)
            && (T.ReceptionOf(t, m) == T.Accepted ==> !t.finish && T.Check(t.request, m) == T.Accepted)
  {
  }

  // ---------- What the messages recorded in a handler's transactions look like ----------

  lemma AcceptedIsRoutable(x: Entry, direction: MessageType, es: seq<T.Event>)
    requires EntryInv(x) && es <= x.events && TR.LastAccepted(x.born.request, direction, es).Some?
    ensures IsRoutable(TR.LastAccepted(x.born.request, direction, es).value)
    ensures MessageDirection(TR.LastAccepted(x.born.request, direction, es).value) == direction
  {
    var j := TO.AcceptedIsInLog(x.born.request, direction, es);
    assert es[j] == x.events[j] && x.events[j] in x.events;
  }

  /** Recorded response codes are synchronous: bit 7 is clear. */
  lemma ResponseCodesAreSynchronous(h: Handler, i: nat)
    requires HandlerInv(h) && i < |h.entries| && h.entries[i].txn.result.Some?
    ensures 0 <= h.entries[i].txn.result.value.responseCode < BIT7
  {
    var x := h.entries[i];
    assert EntryInv(x);
    var es := x.events;
    if x.txn.finish {
      var k := TO.Outcome(x.born, x.events);
      es := x.events[..k];
    } else {
      TR.ResultFollowsLog(x.born, x.events);
    }
    if TR.LastAccepted(x.born.request, Response, es).Some? {
      AcceptedIsRoutable(x, Response, es);
    }
  }

  /** Success in the handler: a transaction that ended with code 0 was sent, and after that a frame was delivered
      to it that matches its request: a response with code 0, or, to a broadcast, a confirmation. */
  lemma SuccessNeedsFrame(h: Handler, i: nat, k: nat) returns (start: nat, j: nat)
    requires HandlerInv(h) && i < |h.entries| && EntryInv(h.entries[i])
    requires TO.EndsAt(h.entries[i].born, h.entries[i].events, k)
    requires ErrorCode(TO.EndResult(h.entries[i].born, h.entries[i].events, k)) == TRN_OK
    ensures var x := h.entries[i];
            && x.txn.sent == [x.txn.request]
            && start < j < k && x.events[start] == T.EStart(TRN_OK, false) && x.events[j].EReceive?
            && var m, r := x.events[j].message, TO.EndResult(x.born, x.events, k);
               && IsRoutable(m)
               && T.Check(x.txn.request, m) == T.Accepted
               && NodeAddress(m) == NodeAddress(x.txn.request) && PeripheralType(m) == PeripheralType(x.txn.request)
               && PeripheralCommand(m) % BIT7 == PeripheralCommand(x.txn.request)
               && (|| (MessageDirection(m) == Response && ResponseCode(m) == TRN_OK && r.response == Copy(m))
                   || (MessageDirection(m) == Confirmation && IsBroadcast(x.txn.request) && r.confirmation == Copy(m)))
  {
    var x := h.entries[i];
    start, j := TO.SuccessIsSound(x.born, x.events, k);
    assert x.events[start] in x.events && x.events[j] in x.events;
    TR.Fixed(x.born, x.events);
    SuccessWasSent(x, k);
    HR.DefaultErrorIsRecorded(x.born, x.events, x.events[start]);
  }

  lemma {:induction false} EventsGrow(h: Handler, ss: seq<Step>, i: nat)
    requires CanRun(h, ss) && i < |h.entries|
    ensures i < |Run(h, ss).entries| && h.entries[i].events <= Run(h, ss).entries[i].events
    decreases |ss|
  {
    if ss == [] {
    } else {
      EventsGrow(h, ss[..|ss| - 1], i);
      StepTouchesOne(Run(h, ss[..|ss| - 1]), ss[|ss| - 1]);
    }
  }

  lemma {:induction false} ReceiptsGrow(es: seq<T.Event>, n: nat)
    requires n <= |es|
    ensures Receipts(es[..n]) <= Receipts(es)
    decreases |es|
  {
    if n == |es| {
      assert es[..n] == es;
    } else {
      assert TR.Front(es)[..n] == es[..n];
      ReceiptsGrow(TR.Front(es), n);
    }
  }

  /** A message received after the first n events is among the receipts after theirs. */
  lemma {:induction false} LaterReceipt(es: seq<T.Event>, n: nat, j: nat)
    requires n <= j < |es| && es[j].EReceive?
    ensures Receipts(es[..n]) <= Receipts(es) && es[j].message in Receipts(es)[|Receipts(es[..n])|..]
    decreases |es|
  {
    ReceiptsGrow(es, n);
    assert TR.Front(es)[..n] == es[..n];
    ReceiptsGrow(TR.Front(es), n);
    if j == |es| - 1 {
      assert Receipts(es) == Receipts(TR.Front(es)) + [es[j].message];
      var all := Receipts(es);
      assert all[|Receipts(es[..n])|..][|all| - 1 - |Receipts(es[..n])|] == all[|all| - 1] == es[j].message;
    } else {
      LaterReceipt(TR.Front(es), n, j);
      StillIn(Receipts(TR.Front(es)), |Receipts(es[..n])|, es[j].message, if TR.Last(es).EReceive? then [TR.Last(es).message] else []);
    }
  }

  lemma StillIn(a: seq<Message>, n: nat, m: Message, b: seq<Message>)
    requires n <= |a| && m in a[n..]
    ensures m in (a + b)[n..]
  {
    assert (a + b)[n..] == a[n..] + b;
  }

  /** How old an answer can be. Let h be a state before transaction i is started, for instance right before, and let
      i end with code 0 later. The message behind that code came in a frame after h, or it is the one that the
      receive thread carried in h: only that frame can be older than the request. */
  lemma AnswerIsFresh(h: Handler, ss: seq<Step>, i: nat, k: nat) returns (start: nat, j: nat)
    requires HandlerInv(h) && CanRun(h, ss) && i < |h.entries| && h.entries[i].txn.phase.NotStarted?
    requires HandlerInv(Run(h, ss)) && i < |Run(h, ss).entries| && EntryInv(Run(h, ss).entries[i])
    requires var x := Run(h, ss).entries[i];
             TO.EndsAt(x.born, x.events, k) && ErrorCode(TO.EndResult(x.born, x.events, k)) == TRN_OK
    ensures var x := Run(h, ss).entries[i];
            && |h.entries[i].events| <= start < j < k && x.events[start] == T.EStart(TRN_OK, false) && x.events[j].EReceive?
            && T.Check(x.txn.request, x.events[j].message) == T.Accepted
            && |Recipients(h, ss)| == |PendingFrames(ss)|
            && (|| x.events[j].message in MessagesFor(i, Recipients(h, ss), PendingFrames(ss))
                || OnItsWay(h, i) == [x.events[j].message])
  {
    start, j := SuccessNeedsFrame(Run(h, ss), i, k);
    StartIsLater(h, ss, i, start);
    ReceivedSince(h, ss, i, j);
  }

  lemma StartIsLater(h: Handler, ss: seq<Step>, i: nat, start: nat)
    requires HandlerInv(h) && CanRun(h, ss) && i < |h.entries| && h.entries[i].txn.phase.NotStarted?
    requires i < |Run(h, ss).entries| && start < |Run(h, ss).entries[i].events| && Run(h, ss).entries[i].events[start].EStart?
    ensures |h.entries[i].events| <= start
  {
    EventsGrow(h, ss, i);
    var before, es := h.entries[i].events, Run(h, ss).entries[i].events;
    assert h.entries[i] in h.entries && EntryInv(h.entries[i]);
    NoStartYet(h.entries[i]);
    forall l | 0 <= l < |before| ensures !es[l].EStart? {
      assert es[l] == before[l];
    }
  }

  lemma ReceivedSince(h: Handler, ss: seq<Step>, i: nat, j: nat)
    requires HandlerInv(h) && CanRun(h, ss) && i < |h.entries| && i < |Run(h, ss).entries|
    requires |h.entries[i].events| <= j < |Run(h, ss).entries[i].events| && Run(h, ss).entries[i].events[j].EReceive?
    ensures |Recipients(h, ss)| == |PendingFrames(ss)|
    ensures var m := Run(h, ss).entries[i].events[j].message;
            m in MessagesFor(i, Recipients(h, ss), PendingFrames(ss)) || OnItsWay(h, i) == [m]
  {
    EventsGrow(h, ss, i);
    var before, es := h.entries[i].events, Run(h, ss).entries[i].events;
    assert es[..|before|] == before;
    LaterReceipt(es, |before|, j);
    FramesSince(h, ss, i);
    AfterPrefix(Receipts(before), Receipts(es), OnItsWay(Run(h, ss), i), OnItsWay(h, i),
                MessagesFor(i, Recipients(h, ss), PendingFrames(ss)), es[j].message);
  }

  lemma AfterPrefix(a: seq<Message>, b: seq<Message>, c: seq<Message>, d: seq<Message>, e: seq<Message>, m: Message)
    requires a <= b && b + c == a + d + e && m in b[|a|..]
    ensures m in d || m in e
  {
    var k :| 0 <= k < |b| - |a| && b[|a|..][k] == m;
    assert m == (b + c)[|a| + k] == (a + d + e)[|a| + k] == (d + e)[k];
  }

  lemma SuccessWasSent(x: Entry, k: nat)
    requires EntryInv(x) && TO.EndsAt(x.born, x.events, k) && ErrorCode(TO.EndResult(x.born, x.events, k)) == TRN_OK
    ensures x.txn.sent == [x.txn.request] && x.txn.defaultError == TRN_OK && !x.txn.phase.NotStarted?
  {
    NotFailedAtTheEnd(x.born, x.events, k);
    TO.Frozen(x.born, x.events, k + 1);
  }

  lemma NotFailedAtTheEnd(t0: T.Txn, es: seq<T.Event>, k: nat)
    requires TR.IsFresh(t0) && TR.CanRun(t0, es) && TO.EndsAt(t0, es, k) && ErrorCode(TO.EndResult(t0, es, k)) == TRN_OK
    ensures TR.Run(t0, es[..k + 1]).defaultError == TRN_OK
  {
    assert TR.Front(es[..k + 1]) == es[..k];
    TO.EndFitsAt(t0, es, k);
    TR.StateFollowsLog(t0, es[..k]);
    var i, j := TO.SuccessIsBacked(t0, es[..k], es[k].expired, TR.Run(t0, es[..k + 1]));
    NotFailedHasNoError(t0, es[..k]);
  }

  lemma {:induction false} NotFailedHasNoError(t0: T.Txn, es: seq<T.Event>)
    requires TR.IsFresh(t0) && TR.CanRun(t0, es) && !TR.Run(t0, es).finish
    requires !TR.StandingOf(t0.request, es).Unstarted? && !TR.StandingOf(t0.request, es).Failed?
    ensures TR.Run(t0, es).defaultError == TRN_OK
  {
    if es == [] {
    } else {
      assert es[..|es| - 1] == TR.Front(es);
      TR.FinishLatches(t0, es, |es| - 1);
      TR.StateFollowsLog(t0, TR.Front(es));
      TR.Fixed(t0, TR.Front(es));
      if !TR.Last(es).EStart? && !TR.StandingOf(t0.request, TR.Front(es)).Failed? {
        NotFailedHasNoError(t0, TR.Front(es));
      }
    }
  }

  /** The handler's sender swallows a failing channel, so none of its transactions reports an interface error,
      and none of their iterations is empty: it waits at least 80 ms or ends the transaction. */
  lemma NoInterfaceErrorNoBusyLoop(h: Handler, i: nat)
    requires HandlerInv(h) && i < |h.entries| && h.entries[i].txn.phase.Looping?
    ensures T.Inv(h.entries[i].txn) && h.entries[i].txn.state != T.InterfaceError
    ensures TD.NoEmptyWait(h.entries[i].txn)
  {
    var x := h.entries[i];
    assert EntryInv(x);
    TD.NoEmptyIteration(x.born, x.events);
    NoInterfaceError(x.born, x.events);
  }

  lemma {:induction false} NoInterfaceError(t0: T.Txn, es: seq<T.Event>)
    requires TR.IsFresh(t0) && TR.CanRun(t0, es) && !TR.Run(t0, es).finish
    requires forall e :: e in es && e.EStart? ==> !e.sendFails
    ensures TR.Run(t0, es).state != T.InterfaceError
  {
    if es == [] {
    } else {
      assert es == TR.Front(es) + [TR.Last(es)];
      TR.FinishLatches(t0, es, |es| - 1);
      NoInterfaceError(t0, TR.Front(es));
      if TR.Last(es).EReceive? {
        TD.ReceptionStep(TR.Run(t0, TR.Front(es)), TR.Last(es).message);
      }
    }
  }
}
