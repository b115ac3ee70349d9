/** DPA messages: a 64-byte buffer with the number of bytes in use, and what its header says. */
module DpaMessages {
  import opened MachineInts

  const MAX_DPA_BUFFER := 64
  const COORDINATOR_ADDRESS := 0x00
  const BROADCAST_ADDRESS := 0xff
  const STATUS_CONFIRMATION := 0xff
  // Smallest byte whose bit 7 is set: the response flag of PCMD and the asynchronous flag of a response code.
  const BIT7 := 0x80

  datatype MessageType = Request | Confirmation | Notification | Response

  datatype Packet = Packet(buffer: seq<uint8>, length: int)

  /** The value of a message. Bytes from `length` on are left over from earlier contents. */
  type Message = p: Packet | |p.buffer| == MAX_DPA_BUFFER && 0 <= p.length <= MAX_DPA_BUFFER
    witness Packet(Zeros(MAX_DPA_BUFFER), 0)

  function Zeros(n: nat): (s: seq<uint8>)
    ensures |s| == n && forall i :: 0 <= i < n ==> s[i] == 0
  {
    seq(n, i => 0)
  }

  function Empty(): Message {
    Packet(Zeros(MAX_DPA_BUFFER), 0)
  }

  /** A new message filled with the given bytes. */
  function Filled(data: seq<uint8>): Message
    requires |data| <= MAX_DPA_BUFFER
  {
    Packet(data + Zeros(MAX_DPA_BUFFER - |data|), |data|)
  }

  /** A deep copy: only the bytes in use are copied, into a zeroed buffer. */
  function Copy(m: Message): Message {
    Filled(m.buffer[..m.length])
  }

  // Header fields, at their packed offsets; NADR is little-endian.

  function NodeAddress(m: Message): int {
    m.buffer[0] as int + 0x100 * (m.buffer[1] as int)
  }

  function LowAddress(m: Message): uint8 {
    NodeAddress(m) % 0x100
  }

  function PeripheralType(m: Message): uint8 {
    m.buffer[2]
  }

  function PeripheralCommand(m: Message): uint8 {
    m.buffer[3]
  }

  function ResponseCode(m: Message): uint8 {
    m.buffer[6]
  }

  // The three fields of an interface confirmation.

  function ConfirmationHops(m: Message): uint8 {
    m.buffer[8]
  }

  function ConfirmationTimeSlot(m: Message): uint8 {
    m.buffer[9]
  }

  function ConfirmationHopsResponse(m: Message): uint8 {
    m.buffer[10]
  }

  function MessageDirection(m: Message): MessageType {
    if m.length < 3 then Request
    else if PeripheralCommand(m) >= BIT7 then Response
    else if m.length > 6 && ResponseCode(m) == STATUS_CONFIRMATION then Confirmation
    else Request
  }

  function IsCoordinator(m: Message): bool {
    LowAddress(m) == COORDINATOR_ADDRESS
  }

  function IsBroadcast(m: Message): bool {
    LowAddress(m) == BROADCAST_ADDRESS
  }

  /** Which byte says what. */
  lemma HeaderByBytes(m: Message)
    ensures NodeAddress(m) % 0x100 == m.buffer[0] && NodeAddress(m) / 0x100 == m.buffer[1]
    ensures IsCoordinator(m) <==> m.buffer[0] == 0
    ensures IsBroadcast(m) <==> m.buffer[0] == 0xff
  {
  }

  /** The direction, told from the length and the fourth and seventh bytes; nothing is a notification. */
  lemma DirectionByBytes(m: Message)
    ensures MessageDirection(m) == Response <==> m.length >= 3 && m.buffer[3] >= 0x80
    ensures MessageDirection(m) == Confirmation <==> m.length >= 7 && m.buffer[3] < 0x80 && m.buffer[6] == 0xff
    ensures MessageDirection(m) == Request <==> m.length < 3 || (m.buffer[3] < 0x80 && (m.length < 7 || m.buffer[6] != 0xff))
  {
  }

  /** The direction test admits a three-byte message although PCMD is the fourth byte. So a copy keeps
      the direction of every message but one whose stale fourth byte looks like a response. */
  lemma CopyKeepsDirectionIff(m: Message)
    ensures MessageDirection(Copy(m)) == MessageDirection(m) <==> !(m.length == 3 && PeripheralCommand(m) >= BIT7)
  {
    assert forall i :: 0 <= i < m.length ==> Copy(m).buffer[i] == m.buffer[i];
    assert forall i :: m.length <= i < MAX_DPA_BUFFER ==> Copy(m).buffer[i] == 0;
  }

  /** Copying twice is copying once; a copy always keeps the bytes a send puts on the wire, and zeros the others. */
  lemma CopyIsStable(m: Message)
    ensures Copy(Copy(m)) == Copy(m)
    ensures Copy(m).length == m.length && Copy(m).buffer[..m.length] == m.buffer[..m.length]
    ensures forall i :: m.length <= i < 64 ==> Copy(m).buffer[i] == 0
  {
    assert Copy(m).buffer[..m.length] == m.buffer[..m.length];
  }

  datatype Status = Done | InvalidArgument | LengthError

  class DpaMessage {
    var buffer: array<uint8>
    var length: int

    ghost predicate Valid()
      reads this
    {
      buffer.Length == MAX_DPA_BUFFER && 0 <= length <= MAX_DPA_BUFFER
    }

    ghost function View(): Message
      requires Valid()
      reads this, buffer
    {
      Packet(buffer[..], length)
    }

    constructor ()
      ensures Valid() && fresh(buffer) && View() == Empty()
      ensures length == 0 && forall i :: 0 <= i < 64 ==> buffer[i] == 0
    {
      buffer := new uint8[MAX_DPA_BUFFER](i => 0);
      length := 0;
      new;
      assert buffer[..] == Zeros(MAX_DPA_BUFFER);
    }

    /** Copy constructor. */
    constructor CopyOf(other: DpaMessage)
      requires other.Valid()
      ensures Valid() && fresh(buffer) && View() == Copy(other.View())
    {
      var source, n := other.buffer, other.length;
      buffer := new uint8[MAX_DPA_BUFFER](i requires 0 <= i < MAX_DPA_BUFFER => 0);
      length := n;
      new;
      forall i | 0 <= i < n {
        buffer[i] := source[i];
      }
      assert buffer[..] == source[..][..n] + Zeros(MAX_DPA_BUFFER - n);
    }

    /** Assignment: reallocates, so the two messages never share a buffer; a self-assignment does nothing. */
    method Assign(other: DpaMessage)
      requires Valid() && other.Valid()
      modifies this
      ensures Valid()
      ensures other == this ==> buffer == old(buffer) && View() == old(View())
      ensures other != this ==> fresh(buffer) && View() == Copy(old(other.View())) && other.View() == old(other.View())
    {
      if this == other {
        return;
      }
      var source, n := other.buffer, other.length;
      var packet := new uint8[MAX_DPA_BUFFER](i => 0);
      forall i | 0 <= i < n {
        packet[i] := source[i];
      }
      assert packet[..] == source[..][..n] + Zeros(MAX_DPA_BUFFER - n);
      buffer := packet;
      length := n;
    }

    /** Stores the first n bytes; the rest of the buffer keeps what it held. */
    method DataToBuffer(data: seq<uint8>, n: uint8) returns (status: Status)
      requires Valid() && n <= |data|
      modifies this, buffer
      ensures Valid() && buffer == old(buffer)
      ensures status == if n > MAX_DPA_BUFFER then LengthError else Done
      ensures n == 0 || n > MAX_DPA_BUFFER ==> View() == old(View())
      ensures 0 < n <= MAX_DPA_BUFFER ==> View() == Packet(data[..n] + old(View()).buffer[n..], n)
    {
      if n == 0 {
        return Done;
      }
      if n > MAX_DPA_BUFFER {
        return LengthError;
      }
      forall i | 0 <= i < n {
        buffer[i] := data[i];
      }
      length := n;
      assert buffer[..] == data[..n] + old(buffer[..])[n..];
      status := Done;
    }

    method FillFromResponse(data: seq<uint8>, n: uint8) returns (status: Status)
      requires Valid() && n <= |data|
      modifies this, buffer
      ensures Valid() && buffer == old(buffer)
      ensures status == if n == 0 then InvalidArgument else if n > MAX_DPA_BUFFER then LengthError else Done
      ensures status != Done ==> View() == old(View())
      ensures status == Done ==> View() == Packet(data[..n] + old(View()).buffer[n..], n)
    {
      if n == 0 {
        return InvalidArgument;
      }
      status := DataToBuffer(data, n);
    }

    method SetLength(n: int) returns (status: Status)
      requires Valid()
      modifies this`length
      ensures Valid()
      ensures status == if 0 < n <= MAX_DPA_BUFFER then Done else LengthError
      ensures View() == if status == Done then old(View()).(length := n) else old(View())
    {
      if n > MAX_DPA_BUFFER || n <= 0 {
        return LengthError;
      }
      length := n;
      status := Done;
    }
  }
}
