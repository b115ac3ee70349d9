/** Where the handler sends a received frame. */
module Routing {
  import opened MachineInts
  import opened DpaMessages

  datatype Route = Drop | ToAsyncHandler(message: Message) | ToPending(message: Message)

  /** The message in a frame: the length is cut to uint8_t; nothing comes of 0 or of more than the buffer holds. */
  function RouteOf(frame: seq<uint8>): Route {
    var n := |frame| % 0x100;
    if n == 0 || n > MAX_DPA_BUFFER then Drop
    else
      var m := Filled(frame[..n]);
      if MessageDirection(m) == Request then ToAsyncHandler(m)
      else if MessageDirection(m) == Response && ResponseCode(m) >= BIT7 then ToAsyncHandler(m)
      else ToPending(m)
  }

  /** The pending transaction gets confirmations, and responses that are not asynchronous. */
  predicate IsRoutable(m: Message) {
    MessageDirection(m) == Confirmation || (MessageDirection(m) == Response && ResponseCode(m) < BIT7)
  }

  lemma RoutedIsRoutable(frame: seq<uint8>)
    ensures RouteOf(frame).ToPending? ==> IsRoutable(RouteOf(frame).message)
  {
  }

  /** The three ways out, told from the bytes alone, and the message that is passed on. The shortest response has four bytes; one that ends before
      its seventh byte counts as a response with code 0. */
  lemma RouteByBytes(frame: seq<uint8>)
    ensures var n := |frame| % 0x100;
            && (RouteOf(frame).Drop? <==> n == 0 || n > 64)
            && (RouteOf(frame).ToPending? <==>
                4 <= n <= 64 && (if frame[3] >= 0x80 then n <= 6 || frame[6] < 0x80 else n >= 7 && frame[6] == 0xff))
    ensures RouteOf(frame).ToPending? ==> IsRoutable(RouteOf(frame).message)
    ensures !RouteOf(frame).Drop? ==>
              var m, n := RouteOf(frame).message, |frame| % 0x100;
              m.length == n && m.buffer[..n] == frame[..n] && forall i :: n <= i < 64 ==> m.buffer[i] == 0
    ensures RouteOf(frame).ToPending? && |frame| % 0x100 <= 6 ==> ResponseCode(RouteOf(frame).message) == 0
  {
    var n := |frame| % 0x100;
    if 0 < n <= MAX_DPA_BUFFER {
      var m := Filled(frame[..n]);
      assert forall i :: 0 <= i < n ==> m.buffer[i] == frame[i];
      assert forall i :: n <= i < MAX_DPA_BUFFER ==> m.buffer[i] == 0;
      assert m.buffer[..n] == frame[..n];
    }
  }
}
