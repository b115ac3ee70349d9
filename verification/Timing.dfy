/** How long a transaction may take: the estimates made from confirmations and responses, and the
    correction of the user's timeout. */
module Timing {
  import opened MachineInts
  import opened DpaMessages

  datatype RfMode = Std | Lp

  const MINIMAL_TIMEOUT := 200
  const SAFETY_TIMEOUT_MS := 40
  const BOND_TIMEOUT_MS := 11000
  const NO_LENGTH: int8 := -1
  const LONGEST_ESTIMATE := 681000

  const PNUM_COORDINATOR := 0x00
  const PNUM_FRC := 0x0D
  const CMD_COORDINATOR_BOND_NODE := 4
  const CMD_COORDINATOR_DISCOVERY := 7
  const CMD_COORDINATOR_AUTHORIZE_BOND := 13
  const CMD_COORDINATOR_SMART_CONNECT := 18
  const CMD_FRC_SEND := 0
  const CMD_FRC_SEND_SELECTIVE := 2

  // ---------- Estimates ----------

  function StdSlot(osVersion: string, timeSlot: uint8, length: int8): int {
    if length == NO_LENGTH then
      if timeSlot == 20 then 200 else 60
    else if osVersion == "4.03D" then
      if length < 17 then 40 else if length < 41 then 50 else 60
    else
      if length < 16 then 40 else if length < 40 then 50 else 60
  }

  function LpSlot(osVersion: string, timeSlot: uint8, length: int8): int {
    if length == NO_LENGTH then
      if timeSlot == 20 then 200 else 110
    else if osVersion == "4.03D" then
      if length < 17 then 80 else if length < 41 then 90 else 100
    else
      if length < 11 then 80 else if length < 34 then 90 else if length < 57 then 100 else 110
  }

  function Slot(mode: RfMode, osVersion: string, timeSlot: uint8, length: int8): int {
    match mode
    case Std => StdSlot(osVersion, timeSlot, length)
    case Lp => LpSlot(osVersion, timeSlot, length)
  }

  function RequestTime(hops: uint8, timeSlot: uint8): int {
    (hops + 1) as int * timeSlot as int * 10
  }

  function ResponseTime(hopsResponse: uint8, slot: int): int {
    (hopsResponse + 1) as int * slot
  }

  /** Both estimators share the sum; they differ in the length of the response time slot. */
  function Estimate(mode: RfMode, osVersion: string, hops: uint8, timeSlot: uint8, hopsResponse: uint8, length: int8): int {
    RequestTime(hops, timeSlot) + ResponseTime(hopsResponse, Slot(mode, osVersion, timeSlot, length)) + SAFETY_TIMEOUT_MS
  }

  lemma RequestRange(hops: uint8, timeSlot: uint8)
    ensures 0 <= RequestTime(hops, timeSlot) <= 2560 * timeSlot
  {
    MulMonotone(timeSlot, hops + 1, 256);
  }

  lemma RequestMonotone(h: uint8, h': uint8, t: uint8, t': uint8)
    requires h <= h' && t <= t'
    ensures RequestTime(h, t) <= RequestTime(h', t')
  {
    MulMonotone(t, h + 1, h' + 1);
    MulMonotone(h' + 1, t, t');
  }

  lemma ResponseRange(r: uint8, slot: nat)
    ensures slot <= ResponseTime(r, slot) <= 256 * slot
  {
    MulMonotone(slot, 1, r + 1);
    MulMonotone(slot, r + 1, 256);
  }

  lemma ResponseMonotone(r: uint8, r': uint8, s: nat, s': nat)
    requires r <= r' && s <= s'
    ensures ResponseTime(r, s) <= ResponseTime(r', s')
  {
    MulMonotone(s, r + 1, r' + 1);
    MulMonotone(r' + 1, s, s');
  }

  /** The estimates stay in these ranges, so they fit int32_t and are always positive. */
  lemma EstimateRange(mode: RfMode, osVersion: string, hops: uint8, timeSlot: uint8, hopsResponse: uint8, length: int8)
    ensures var e := Estimate(mode, osVersion, hops, timeSlot, hopsResponse, length);
            match mode
            case Std => 80 <= e <= 668200
            case Lp => 120 <= e <= LONGEST_ESTIMATE
  {
    RequestRange(hops, timeSlot);
    ResponseRange(hopsResponse, Slot(mode, osVersion, timeSlot, length));
  }

  /** More hops, and more data, never shorten an estimate. */
  lemma EstimateMonotone(mode: RfMode, osVersion: string, timeSlot: uint8,
                         h: uint8, h': uint8, r: uint8, r': uint8, n: int8, n': int8)
    requires h <= h' && r <= r' && 0 <= n <= n'
    ensures Estimate(mode, osVersion, h, timeSlot, r, n) <= Estimate(mode, osVersion, h', timeSlot, r', n')
    ensures Estimate(mode, osVersion, h, timeSlot, r, NO_LENGTH) <= Estimate(mode, osVersion, h', timeSlot, r', NO_LENGTH)
  {
    RequestMonotone(h, h', timeSlot, timeSlot);
    ResponseMonotone(r, r', Slot(mode, osVersion, timeSlot, n), Slot(mode, osVersion, timeSlot, n'));
    ResponseMonotone(r, r', Slot(mode, osVersion, timeSlot, NO_LENGTH), Slot(mode, osVersion, timeSlot, NO_LENGTH));
  }

  /** Low-power estimates dominate standard ones, and the 4.03D tables never exceed the default ones. */
  lemma EstimateOrder(osVersion: string, h: uint8, t: uint8, r: uint8, n: int8)
    ensures Estimate(Std, osVersion, h, t, r, n) <= Estimate(Lp, osVersion, h, t, r, n)
    ensures forall mode :: Estimate(mode, "4.03D", h, t, r, n) <= Estimate(mode, osVersion, h, t, r, n)
  {
    ResponseMonotone(r, r, StdSlot(osVersion, t, n), LpSlot(osVersion, t, n));
    forall mode ensures Estimate(mode, "4.03D", h, t, r, n) <= Estimate(mode, osVersion, h, t, r, n) {
      ResponseMonotone(r, r, Slot(mode, "4.03D", t, n), Slot(mode, osVersion, t, n));
    }
  }

  lemma ResponseStrict(r: uint8, s: nat, s': nat)
    requires s < s'
    ensures ResponseTime(r, s) < ResponseTime(r, s')
  {
    MulMonotone(r + 1, s + 1, s');
  }

  /** The two version tables tell apart exactly these data lengths. */
  lemma VersionMattersIff(mode: RfMode, osVersion: string, h: uint8, t: uint8, r: uint8, n: int8)
    requires osVersion != "4.03D"
    ensures Estimate(mode, "4.03D", h, t, r, n) < Estimate(mode, osVersion, h, t, r, n)
      <==> match mode
           case Std => n == 16 || n == 40
           case Lp => 11 <= n <= 16 || 34 <= n <= 40 || 57 <= n
  {
    var s, s' := Slot(mode, "4.03D", t, n), Slot(mode, osVersion, t, n);
    if s < s' {
      ResponseStrict(r, s, s');
    }
  }

  /** Correcting the estimate by the response never raises it. */
  lemma ResponseCorrectionLowers(mode: RfMode, osVersion: string, h: uint8, t: uint8, r: uint8, n: int8)
    ensures Estimate(mode, osVersion, h, t, r, n) <= Estimate(mode, osVersion, h, t, r, NO_LENGTH)
  {
    ResponseMonotone(r, r, Slot(mode, osVersion, t, n), Slot(mode, osVersion, t, NO_LENGTH));
  }

  /** A longer request time slot lengthens the estimate made from a confirmation, unless it leaves the
      special slot 20 and the response's share of the slot-20 estimate outweighs the gain. */
  lemma TimeSlotMonotoneIff(mode: RfMode, osVersion: string, h: uint8, t: uint8, t': uint8, r: uint8)
    requires t < t'
    ensures Estimate(mode, osVersion, h, t, r, NO_LENGTH) <= Estimate(mode, osVersion, h, t', r, NO_LENGTH)
      <==> t != 20 || (if mode.Std? then 14 else 9) * (r + 1) <= (h + 1) * (t' - 20)
  {
    var s, s' := Slot(mode, osVersion, t, NO_LENGTH), Slot(mode, osVersion, t', NO_LENGTH);
    if t != 20 {
      RequestMonotone(h, h, t, t');
      ResponseMonotone(r, r, s, s');
    } else {
      assert RequestTime(h, t') == RequestTime(h, 20) + 10 * ((h + 1) * (t' - 20));
    }
  }

  /** Slot 20 against slot 21: the estimate drops. */
  lemma TimeSlotDropsAtTwenty(osVersion: string)
    ensures forall mode :: Estimate(mode, osVersion, 0, 20, 0, NO_LENGTH) > Estimate(mode, osVersion, 0, 21, 0, NO_LENGTH)
  {
    assert Estimate(Std, osVersion, 0, 20, 0, NO_LENGTH) > Estimate(Std, osVersion, 0, 21, 0, NO_LENGTH);
    assert Estimate(Lp, osVersion, 0, 20, 0, NO_LENGTH) > Estimate(Lp, osVersion, 0, 21, 0, NO_LENGTH);
  }

  /** The estimates in numbers: 10 ms for each slot of the way there, a slot by length and version for each hop of
      the way back, and 40 ms. */
  lemma EstimateExact(mode: RfMode, osVersion: string, h: uint8, t: uint8, r: uint8, n: int8)
    ensures var e, there, is403 := Estimate(mode, osVersion, h, t, r, n), 10 * t * (h + 1) + 40, osVersion == "4.03D";
            && (n == -1 && t == 20 ==> e == there + 200 * (r + 1))
            && (mode.Std? ==>
                  && (n == -1 && t != 20 ==> e == there + 60 * (r + 1))
                  && (n != -1 && n < (if is403 then 17 else 16) ==> e == there + 40 * (r + 1))
                  && ((if is403 then 17 else 16) <= n < (if is403 then 41 else 40) ==> e == there + 50 * (r + 1))
                  && ((if is403 then 41 else 40) <= n ==> e == there + 60 * (r + 1)))
            && (mode.Lp? ==>
                  && (n == -1 && t != 20 ==> e == there + 110 * (r + 1))
                  && (n != -1 && n < (if is403 then 17 else 11) ==> e == there + 80 * (r + 1))
                  && ((if is403 then 17 else 11) <= n < (if is403 then 41 else 34) ==> e == there + 90 * (r + 1))
                  && ((if is403 then 41 <= n else 34 <= n < 57) ==> e == there + 100 * (r + 1))
                  && (!is403 && 57 <= n ==> e == there + 110 * (r + 1)))
  {
    assert RequestTime(h, t) == 10 * t * (h + 1);
    assert forall slot: int :: ResponseTime(r, slot) == slot * (r + 1);
  }

  // ---------- The constructor's timeouts ----------

  datatype Timeouts = Timeouts(infinite: bool, user: uint32, expected: uint32)

  predicate IsBond(request: Message) {
    PeripheralType(request) == PNUM_COORDINATOR && PeripheralCommand(request) == CMD_COORDINATOR_BOND_NODE
  }

  /** Discovery, SmartConnect and Authorize of the coordinator peripheral; send and selective send of FRC. */
  predicate IsLongRunning(request: Message) {
    var command := PeripheralCommand(request);
    || (PeripheralType(request) == PNUM_COORDINATOR &&
        command in {CMD_COORDINATOR_DISCOVERY, CMD_COORDINATOR_SMART_CONNECT, CMD_COORDINATOR_AUTHORIZE_BOND})
    || (PeripheralType(request) == PNUM_FRC && command in {CMD_FRC_SEND, CMD_FRC_SEND_SELECTIVE})
  }

  /** Which (request, user timeout) pairs wait forever: a negative timeout does for the long-running
      coordinator commands; zero does too, and also for every peripheral other than COORDINATOR and FRC. */
  predicate GrantsInfinite(request: Message, userTimeout: int32) {
    && IsCoordinator(request)
    && userTimeout <= 0
    && (|| IsLongRunning(request)
        || (userTimeout == 0 && PeripheralType(request) != PNUM_COORDINATOR && PeripheralType(request) != PNUM_FRC))
  }

  /** Only bonding with a negative timeout replaces the default outright. */
  predicate ForcesBondTimeout(request: Message, userTimeout: int32) {
    IsCoordinator(request) && IsBond(request) && userTimeout < 0
  }

  function RequiredTimeout(request: Message, defaultTimeout: int32, userTimeout: int32): int32 {
    if ForcesBondTimeout(request, userTimeout) then BOND_TIMEOUT_MS
    else if userTimeout <= 0 then defaultTimeout
    else Max(defaultTimeout, userTimeout)
  }

  function ExpectedAtFirst(request: Message, defaultTimeout: int32, userTimeout: int32): int32 {
    if IsCoordinator(request) then RequiredTimeout(request, defaultTimeout, userTimeout) else defaultTimeout
  }

  function CorrectedTimeouts(request: Message, defaultTimeout: int32, userTimeout: int32): Timeouts {
    Timeouts(GrantsInfinite(request, userTimeout),
             ToUint32(RequiredTimeout(request, defaultTimeout, userTimeout)),
             ToUint32(ExpectedAtFirst(request, defaultTimeout, userTimeout)))
  }

  /** The constructor's own sequence of checks and corrections; it computes the closed forms above. */
  method CorrectTimeouts(request: Message, defaultTimeout: int32, userTimeout: int32) returns (t: Timeouts)
    ensures t == CorrectedTimeouts(request, defaultTimeout, userTimeout)
  {
    var infinite := false;
    var required := userTimeout;
    var coordinator := LowAddress(request) == COORDINATOR_ADDRESS;
    var pnum, pcmd := PeripheralType(request), PeripheralCommand(request);
    if required < 0 {
      if coordinator &&
         ((pnum == PNUM_COORDINATOR && (pcmd == CMD_COORDINATOR_DISCOVERY || pcmd == CMD_COORDINATOR_SMART_CONNECT ||
                                        pcmd == CMD_COORDINATOR_AUTHORIZE_BOND)) ||
          (pnum == PNUM_FRC && (pcmd == CMD_FRC_SEND || pcmd == CMD_FRC_SEND_SELECTIVE))) {
        infinite := true;
      }
      required := defaultTimeout;
    } else if required == 0 {
      if !coordinator ||
         (pnum == PNUM_COORDINATOR && pcmd != CMD_COORDINATOR_DISCOVERY && pcmd != CMD_COORDINATOR_SMART_CONNECT &&
          pcmd != CMD_COORDINATOR_AUTHORIZE_BOND) ||
         (pnum == PNUM_FRC && pcmd != CMD_FRC_SEND && pcmd != CMD_FRC_SEND_SELECTIVE) {
        required := defaultTimeout;
      } else {
        required := defaultTimeout;
        infinite := true;
      }
    } else if required < defaultTimeout {
      required := defaultTimeout;
    }

    var expected := ToUint32(defaultTimeout);
    if coordinator {
      if required > defaultTimeout {
        expected := ToUint32(required);
      }
      if pnum == PNUM_COORDINATOR && pcmd == CMD_COORDINATOR_BOND_NODE {
        if userTimeout < 0 {
          required := BOND_TIMEOUT_MS;
          expected := ToUint32(required);
        }
      }
    }
    t := Timeouts(infinite, ToUint32(required), expected);
  }

  /** Who waits forever, told from the bytes of the request: low address 0, and then for a negative time-out
      Discovery, Authorize and SmartConnect (7, 13, 18) of peripheral 0, and FRC send (0, 2) of peripheral 13; for
      time-out 0 these and all other peripherals; for a positive one nobody. */
  lemma InfiniteByBytes(request: Message, defaultTimeout: int32, userTimeout: int32)
    ensures var b, infinite := request.buffer, CorrectedTimeouts(request, defaultTimeout, userTimeout).infinite;
            var long := (b[2] == 0 && b[3] in {7, 13, 18}) || (b[2] == 13 && b[3] in {0, 2});
            && (userTimeout < 0 ==> (infinite <==> b[0] == 0 && long))
            && (userTimeout == 0 ==> (infinite <==> b[0] == 0 && (long || b[2] !in {0, 13})))
            && (userTimeout > 0 ==> !infinite)
  {
    HeaderByBytes(request);
  }

  /** The user's time-out and the first duration, told from the bytes of the request: bonding (command 4 of
      peripheral 0 at low address 0) with a negative time-out gets 11000 ms; any other request gets the default, or
      a positive longer wish, the first duration at low address 0 only. A negative default wraps around. */
  lemma DurationsByBytes(request: Message, defaultTimeout: int32, userTimeout: int32)
    ensures var b, t := request.buffer, CorrectedTimeouts(request, defaultTimeout, userTimeout);
            var wrapped := if defaultTimeout < 0 then defaultTimeout + 0x1_0000_0000 else defaultTimeout;
            var bond := b[0] == 0 && b[2] == 0 && b[3] == 4 && userTimeout < 0;
            && (bond ==> t.user == t.expected == 11000)
            && (!bond && (userTimeout <= 0 || userTimeout <= defaultTimeout) ==> t.user == t.expected == wrapped)
            && (userTimeout > 0 && userTimeout > defaultTimeout ==>
                  t.user == userTimeout && t.expected == if b[0] == 0 then userTimeout else wrapped)
  {
    HeaderByBytes(request);
  }

  /** With a positive default the corrected timeout and the first wait respect min(default, bond timeout),
      a user's longer wish is kept, and only coordinator-addressed requests can wait forever: for a negative
      timeout exactly the long-running ones, and for 0 all of those and more. */
  lemma TimeoutLaw(request: Message, defaultTimeout: int32, userTimeout: int32)
    requires 0 < defaultTimeout
    ensures var t := CorrectedTimeouts(request, defaultTimeout, userTimeout);
            && t.user >= Min(defaultTimeout, BOND_TIMEOUT_MS)
            && t.expected >= Min(defaultTimeout, BOND_TIMEOUT_MS)
            && t.user >= userTimeout
            && (t.user < defaultTimeout ==> ForcesBondTimeout(request, userTimeout))
            && t.expected <= Max(t.user, defaultTimeout)
            && (t.infinite ==> IsCoordinator(request) && t.user == defaultTimeout == t.expected)
    ensures userTimeout < 0 ==>
      (CorrectedTimeouts(request, defaultTimeout, userTimeout).infinite <==> IsCoordinator(request) && IsLongRunning(request))
    ensures CorrectedTimeouts(request, defaultTimeout, -1).infinite ==> CorrectedTimeouts(request, defaultTimeout, 0).infinite
  {
  }
}
