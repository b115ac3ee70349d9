/** The handler object: it queues transactions, executes them one by one and routes received frames. What its
    methods do to a transaction and to the queue is what the runs in HandlerTasks do to them. */
module Handlers {
  import opened MachineInts
  import opened DpaMessages
  import opened Timing
  import opened Routing
  import opened TransactionResults
  import opened Transactions
  import H = HandlerMachine
  import T = TransactionMachine
  import Q = TaskQueueMachine
  import opened TaskQueues

  class DpaHandler2 {
    var mode: RfMode
    var osVersion: string
    var defaultTimeout: int32
    var pendingTransaction: DpaTransaction2?
    const queue: TaskQueue<DpaTransaction2>
    var asyncs: seq<Message>       // what the asynchronous handler was given
    var wire: seq<seq<uint8>>      // what the channel was asked to send

    constructor ()
      ensures fresh(queue) && queue.View() == Q.NewQueue() && pendingTransaction == null
      ensures mode == Std && osVersion == "4.02D" && defaultTimeout == 500 && asyncs == [] && wire == []
    {
      mode, osVersion, defaultTimeout := Std, "4.02D", 500;
      pendingTransaction := null;
      queue := new TaskQueue();
      asyncs, wire := [], [];
    }

    method SetTimeout(timeout: int32)
      modifies this`defaultTimeout
      ensures defaultTimeout == if timeout < 200 then 200 else timeout
    {
      var t := timeout;
      if t < MINIMAL_TIMEOUT {
        t := MINIMAL_TIMEOUT;
      }
      defaultTimeout := t;
    }

    /** An empty request makes a transaction that is never queued. */
    method ExecuteDpaTransaction(request: Message, timeout: int32, defaultError: int) returns (t: DpaTransaction2)
      requires !queue.lockOwned
      modifies queue
      ensures t.Valid() && fresh(t.Repr())
      ensures t.View() == T.New(request, mode, osVersion, defaultTimeout, timeout, defaultError)
      ensures queue.View() == if request.length <= 0 then old(queue.View()) else Q.NotifyAll(Q.Push(old(queue.View()), t))
    {
      t := new DpaTransaction2(request, mode, osVersion, defaultTimeout, timeout, defaultError);
      if request.length <= 0 {
        return;
      }
      var _ := queue.PushToQueue(t);
    }

    /** The sender of all transactions: a std::exception of the channel is not passed on. */
    method SendRequest(request: Message, channel: H.CallEnd) returns (end: H.CallEnd)
      modifies this`wire
      ensures wire == old(wire) + [request.buffer[..request.length]] && end == H.SendRequest(channel)
    {
      wire := wire + [request.buffer[..request.length]];
      end := channel;
      if end.ThrowsStd? {
        end := H.Returns;
      }
    }

    /** The processing function of the queue: the overload rule looks at what is left in the queue. The
        transaction's execution goes on for as long as the schedule reaches. */
    method ProcessTask(t: DpaTransaction2, channel: H.CallEnd, schedule: seq<Slot>)
      requires !queue.lockOwned && t.Valid() && t.phase.NotStarted?
      modifies this`pendingTransaction, this`wire, t.Repr()
      ensures t.Valid() && pendingTransaction == t
      ensures var error := H.ErrorForSize(|queue.tasks|, old(t.defaultError));
              && t.View() == Iterate(T.Start(old(t.View()), error, H.SendRequest(channel).ThrowsStd?), schedule)
              && wire == old(wire) + if error == TRN_OK then [t.request.buffer[..t.request.length]] else []
    {
      pendingTransaction := t;
      var error := Judge(t);
      RunTask(t, error, channel, schedule);
    }

    /** execute(), with this handler's sender. */
    method RunTask(t: DpaTransaction2, error: int, channel: H.CallEnd, schedule: seq<Slot>)
      requires t.Valid() && t.phase.NotStarted?
      modifies this`wire, t.Repr()
      ensures t.Valid()
      ensures t.View() == Iterate(T.Start(old(t.View()), error, H.SendRequest(channel).ThrowsStd?), schedule)
      ensures wire == old(wire) + if error == TRN_OK then [t.request.buffer[..t.request.length]] else []
    {
      StartTask(t, error, channel);
      t.Loop(schedule);
    }

    /** The overload rule. */
    method Judge(t: DpaTransaction2) returns (error: int)
      requires !queue.lockOwned
      ensures error == H.ErrorForSize(|queue.tasks|, t.defaultError) == if |queue.tasks| < 16 then t.defaultError else -2
    {
      var size := queue.Size();
      error := t.defaultError;
      if size >= H.QUEUE_MAX_LEN {
        error := TRN_ERROR_IFACE_QUEUE_FULL;
      }
    }

    /** execute() up to its loop, with this handler's sender, which is called under the transaction's mutex. */
    method StartTask(t: DpaTransaction2, error: int, channel: H.CallEnd)
      requires t.Valid() && t.phase.NotStarted?
      modifies this`wire, t
      ensures t.Valid() && t.resultPtr == old(t.resultPtr) && t.phase == T.Looping(t.expected)
      ensures t.View() == T.Start(old(t.View()), error, H.SendRequest(channel).ThrowsStd?)
      ensures wire == old(wire) + if error == TRN_OK then [t.request.buffer[..t.request.length]] else []
    {
      HalvesOfStart(t.View(), error, H.SendRequest(channel).ThrowsStd?);
      var end := H.Returns;
      var send := t.Enter(error);
      if send {
        end := SendRequest(t.resultPtr.request, channel);
      }
      t.AfterSend(end.ThrowsStd?);
    }

    /** A frame from the channel. A frame for the pending transaction needs one. */
    method ResponseMessageHandler(frame: seq<uint8>)
      requires pendingTransaction != null ==> pendingTransaction.Valid()
      requires RouteOf(frame).ToPending? ==> pendingTransaction != null
      modifies this`asyncs, if pendingTransaction == null then {} else pendingTransaction.Repr()
      ensures pendingTransaction != null ==> pendingTransaction.Valid()
      ensures asyncs == old(asyncs) + if RouteOf(frame).ToAsyncHandler? then [RouteOf(frame).message] else []
      ensures RouteOf(frame).ToPending? ==>
                pendingTransaction.View() == T.Receive(old(pendingTransaction.View()), RouteOf(frame).message)
      ensures !RouteOf(frame).ToPending? && pendingTransaction != null ==>
                pendingTransaction.View() == old(pendingTransaction.View())
    {
      var parsed, m := Parse(frame);
      if !parsed {
        return;
      }
      var direction := MessageDirection(m);
      if direction == Request {
        asyncs := asyncs + [m];
      } else if direction == Response && ResponseCode(m) >= BIT7 {
        asyncs := asyncs + [m];
      } else {
        var _ := pendingTransaction.ProcessReceivedMessage(m);
      }
    }

    /** The message in a frame, if there is one. */
    method Parse(frame: seq<uint8>) returns (parsed: bool, m: Message)
      ensures var n := |frame| % 0x100;
              if n == 0 || n > MAX_DPA_BUFFER then !parsed else parsed && m == Filled(frame[..n])
    {
      parsed, m := false, Empty();
      if |frame| == 0 {
        return;
      }
      var received := new DpaMessage();
      var status := received.FillFromResponse(frame, ToUint8(|frame|));
      if status != Done {
        return;
      }
      var n := ToUint8(|frame|);
      parsed, m := true, Packet(received.buffer[..], received.length);
      assert m.buffer == frame[..n] + Zeros(MAX_DPA_BUFFER)[n..];
      assert m == Filled(frame[..n]);
    }

    /** The destructor's first critical section. */
    method AbortPending()
      requires pendingTransaction != null ==> pendingTransaction.Valid()
      modifies if pendingTransaction == null then {} else pendingTransaction.Repr()
      ensures pendingTransaction != null ==>
                pendingTransaction.Valid() && pendingTransaction.View() == T.Abort(old(pendingTransaction.View()))
    {
      if pendingTransaction != null {
        pendingTransaction.AbortTransaction();
      }
    }

    /** The destructor up to the join, with nothing happening between its two critical sections. */
    method Shutdown()
      requires !queue.lockOwned && (pendingTransaction != null ==> pendingTransaction.Valid())
      modifies queue, if pendingTransaction == null then {} else pendingTransaction.Repr()
      ensures queue.View() == Q.NotifyAll(Q.Stop(old(queue.View())))
      ensures pendingTransaction != null ==>
                pendingTransaction.Valid() && pendingTransaction.View() == T.Abort(old(pendingTransaction.View()))
    {
      AbortPending();
      queue.StopQueue();
    }
  }
}
