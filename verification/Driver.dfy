/**
 * DriverImpl, one call at a time: the states of open and close, the loops of `read`, the outcome of `write`, and the
 * registry of logical addresses. The answers of the HAL are parameters.
 */
module Drivers {
  import opened Base
  import opened EventQueues
  import Engine
  import opened Lists
  import Hal

  type Elem = Engine.Elem

  /** The exceptions that come out of the driver and the bus; the last two are not CCEC exceptions. */
  datatype Error = InvalidState | IO | NoAck | AddressNotAvailable | QueueFull | OutOfRange

  datatype Outcome = Done | Failed(error: Error)

  // ---- what the HAL answers

  // The values of mocks/hdmicec/hdmi_cec_driver.h.
  const SUCCESS := 0
  const SENT_BUT_NOT_ACKD := 1
  const SENT_FAILED := 2
  const GENERAL_ERROR := 3
  const INVALID_HANDLE := 4
  const INVALID_ARGUMENT := 5
  const LOGICALADDRESS_UNAVAILABLE := 7

  const REPORT_PHYSICAL_ADDRESS := 0x84

  /** The results of a transmission that count as an error of the bus. */
  predicate IsFailure(sendResult: int) {
    || sendResult == INVALID_HANDLE
    || sendResult == INVALID_ARGUMENT
    || sendResult == LOGICALADDRESS_UNAVAILABLE
    || sendResult == SENT_FAILED
    || sendResult == GENERAL_ERROR
  }

  predicate IsBroadcast(bytes: Bytes)
    requires bytes != []
  {
    Low(bytes[0]) == 15
  }

  predicate ReportsPhysicalAddress(bytes: Bytes) {
    |bytes| > 1 && bytes[1] == REPORT_PHYSICAL_ADDRESS
  }

  /** What `write` makes of the HAL's two results, once it has called it. */
  function Answer(bytes: Bytes, err: int, sendResult: int): (r: Outcome)
    requires bytes != []
    ensures r == Failed(IO) <==> err != SUCCESS || IsFailure(sendResult)
    ensures r == Failed(NoAck) <==>
      err == SUCCESS && sendResult == SENT_BUT_NOT_ACKD && (IsBroadcast(bytes) ==> ReportsPhysicalAddress(bytes))
    ensures r.Done? || r == Failed(IO) || r == Failed(NoAck)
  {
    if err != SUCCESS then Failed(IO)
    else if sendResult != SUCCESS && IsFailure(sendResult) then Failed(IO)
    else if !IsBroadcast(bytes) && sendResult == SENT_BUT_NOT_ACKD then Failed(NoAck)
    else if IsBroadcast(bytes) && ReportsPhysicalAddress(bytes) && sendResult == SENT_BUT_NOT_ACKD then Failed(NoAck)
    else Done
  }

  /** One call of `write`; an empty frame fails while its details are being printed, before anything else. */
  function WriteOutcome(status: Engine.Status, bytes: Bytes, err: int, sendResult: int): Outcome {
    if bytes == [] then Failed(OutOfRange)
    else if status != Engine.Opened then Failed(InvalidState)
    else Answer(bytes, err, sendResult)
  }

  // ---- reading

  datatype ReadResult = Got(bytes: Bytes) | Refused | Blocked

  /**
   * Where `read` stops skipping: at the first real frame, at the first sentinel it meets while the driver is not open,
   * or at the end. `open(j)` tells whether the driver is open when sentinel number `j` has just been taken.
   */
  function StopsAt(q: seq<Elem>, open: nat -> bool, i: nat): (k: nat)
    requires i <= |q|
    ensures i <= k <= |q|
    ensures forall j :: i <= j < k ==> q[j] == Engine.Null && open(j)
    ensures k < |q| ==> q[k].Ptr? || !open(k)
    decreases |q| - i
  {
    if i < |q| && q[i].Null? && open(i) then StopsAt(q, open, i + 1) else i
  }

  predicate Always(j: nat) { true }

  /** Where the first real frame is. */
  function FirstReal(q: seq<Elem>): (k: nat)
    ensures k <= |q| && (k < |q| ==> q[k].Ptr?) && forall j :: 0 <= j < k ==> q[j].Null?
  {
    StopsAt(q, Always, 0)
  }

  function IdOf(e: Elem): seq<nat> {
    if e.Ptr? then [e.id] else []
  }

  function Ids(q: seq<Elem>): seq<nat> {
    if q == [] then [] else IdOf(q[0]) + Ids(q[1..])
  }

  lemma Regrouped(a: seq<nat>, b: seq<nat>, c: seq<nat>)
    ensures (a + b) + c == a + (b + c)
  {
  }

  lemma IdsFront(q: seq<Elem>, before: seq<nat>)
    requires q != []
    ensures (before + IdOf(q[0])) + Ids(q[1..]) == before + Ids(q)
  {
    Regrouped(before, IdOf(q[0]), Ids(q[1..]));
  }

  lemma {:induction false} IdsConcat(a: seq<Elem>, b: seq<Elem>)
    ensures Ids(a + b) == Ids(a) + Ids(b)
  {
    if a == [] {
      assert a + b == b;
    } else {
      IdsConcat(a[1..], b);
      assert (a + b)[0] == a[0] && (a + b)[1..] == a[1..] + b;
      Regrouped(IdOf(a[0]), Ids(a[1..]), Ids(b));
    }
  }

  /** One element further along the queue. */
  lemma {:induction false} StopsHereOrLater(q: seq<Elem>, open: nat -> bool, i: nat)
    requires i < |q|
    ensures StopsAt(q, open, i) == if q[i].Null? && open(i) then StopsAt(q, open, i + 1) else i
    ensures q[i..][0] == q[i] && q[i..][1..] == q[i + 1..]
    ensures q[i].Null? ==> Ids(q[i..]) == Ids(q[i + 1..])
  {
    var rest := q[i..];
    assert rest[0] == q[i] && rest[1..] == q[i + 1..];
    assert IdOf(q[i]) + Ids(rest[1..]) == Ids(rest);
  }

  // ---- the driver

  class DriverImpl {
    var status: Engine.Status
    const rQueue: EventQueue<Elem>
    var logicalAddresses: seq<Byte>
    /** the calls made into the HAL, the frames freed and the successful registry calls, oldest first */
    ghost var hal: seq<Hal.Call>
    ghost var freed: seq<nat>
    ghost var addressOps: seq<ListOp<Byte>>

    /** The driver's session in the HAL is open exactly when its status says so. */
    ghost predicate Steady()
      reads `status, `hal
    {
      status != Engine.Closing && Hal.Scan(hal) == if status == Engine.Opened then Hal.Live else Hal.Shut
    }

    /** Between calls. */
    ghost predicate Valid()
      reads this, rQueue, rQueue.cond
    {
      && rQueue.Valid() && rQueue.cap == Engine.CAPACITY
      && Steady()
      && logicalAddresses == Listed(addressOps)
    }

    constructor ()
      ensures Valid() && fresh(rQueue) && fresh(rQueue.cond)
      ensures status == Engine.Closed && rQueue.events == [] && hal == [] && freed == [] && addressOps == []
    {
      status := Engine.Closed;
      rQueue := new EventQueue<Elem>(Engine.CAPACITY);
      logicalAddresses, hal, freed, addressOps := [], [], [], [];
    }

    method Open(ok: bool) returns (r: Outcome)
      requires Valid()
      modifies `status, `hal
      ensures Valid()
      ensures r == Failed(IO) <==> old(status) == Engine.Closed && !ok
      ensures r.Done? <==> status == Engine.Opened
      ensures hal == if old(status) == Engine.Closed then old(hal) + [Hal.Open(ok)] else old(hal)
    {
      if status != Engine.Closed {
        return Done;
      }
      Hal.ScanAppend(hal, Hal.Open(ok));
      hal := hal + [Hal.Open(ok)];
      if !ok {
        return Failed(IO);
      }
      status := Engine.Opened;
      return Done;
    }

    /** The sentinel is offered before the HAL is closed; a HAL that reports an error still ends the session. */
    method Close(ok: bool) returns (r: Outcome)
      requires Valid()
      modifies `status, `hal, rQueue, rQueue.cond
      ensures Valid() && status == Engine.Closed
      ensures r == if old(status) == Engine.Opened && !ok then Failed(IO) else Done
      ensures hal == if old(status) == Engine.Opened then old(hal) + [Hal.Close(ok)] else old(hal)
      ensures rQueue.events ==
        if old(status) == Engine.Opened then Offered(old(rQueue.events), Engine.CAPACITY, Engine.Null)
        else old(rQueue.events)
    {
      if status != Engine.Opened {
        return Done;
      }
      status := Engine.Closing;
      var accepted := rQueue.Offer(Engine.Null);
      Hal.ScanAppend(hal, Hal.Close(ok));
      hal := hal + [Hal.Close(ok)];
      status := Engine.Closed;
      return if ok then Done else Failed(IO);
    }

    /** DriverReceiveCallback; `id` is the number of the frame it allocates. A frame that is not queued is freed. */
    method Receive(bytes: Bytes, id: nat) returns (queued: bool)
      requires Valid()
      modifies `freed, rQueue, rQueue.cond
      ensures Valid()
      ensures queued <==> ValidFrame(bytes) && status == Engine.Opened && |old(rQueue.events)| < Engine.CAPACITY
      ensures rQueue.events == old(rQueue.events) + if queued then [Engine.Ptr(id, bytes)] else []
      ensures freed == old(freed) + if !queued && ValidFrame(bytes) then [id] else []
    {
      if !(|bytes| > 0 && |bytes| <= MAX_LENGTH) {
        return false;
      }
      queued := false;
      if status == Engine.Opened {
        queued := rQueue.Offer(Engine.Ptr(id, bytes));
      }
      if !queued {
        freed := freed + [id];
      }
    }

    /** delete */
    ghost method Free(e: Elem)
      modifies `freed
      ensures freed == old(freed) + IdOf(e)
    {
      freed := freed + IdOf(e);
    }

    /** The inner loop of `read`: everything queued is thrown away. */
    method Flush()
      requires rQueue.Valid()
      modifies `freed, rQueue, rQueue.cond
      ensures rQueue.Valid() && rQueue.events == []
      ensures freed == old(freed) + Ids(old(rQueue.events))
    {
      while rQueue.events != []
        invariant rQueue.Valid()
        invariant freed + Ids(rQueue.events) == old(freed) + Ids(old(rQueue.events))
        decreases |rQueue.events|
      {
        IdsFront(rQueue.events, freed);
        var front := rQueue.Poll(Engine.Null);
        Free(front.value);
      }
    }

    /**
     * The do-while loop of `read`, with nobody offering meanwhile but the status free to change between its turns.
     * It returns the first real frame and leaves the rest in order; a sentinel met while not open makes it flush.
     */
    method ReadLoop(open: nat -> bool) returns (r: ReadResult)
      requires rQueue.Valid()
      modifies `freed, rQueue, rQueue.cond
      ensures rQueue.Valid()
      ensures var q := old(rQueue.events); var k := StopsAt(q, open, 0);
        && (k == |q| ==> r == Blocked && rQueue.events == [] && freed == old(freed))
        && (k < |q| && q[k].Ptr? ==>
              r == Got(q[k].bytes) && rQueue.events == q[k + 1..] && freed == old(freed) + [q[k].id])
        && (k < |q| && q[k].Null? ==> r == Refused && rQueue.events == [] && freed == old(freed) + Ids(q[k..]))
    {
      ghost var q := rQueue.events;
      var i, backToPoll := 0, true;
      while backToPoll
        invariant rQueue.Valid() && backToPoll && freed == old(freed)
        invariant i <= |q| && rQueue.events == q[i..] && StopsAt(q, open, 0) == StopsAt(q, open, i)
        decreases |rQueue.events|
      {
        var front := rQueue.Poll(Engine.Null);
        if front.None? {
          return Blocked;
        }
        StopsHereOrLater(q, open, i);
        if front.value.Ptr? {
          Free(front.value);
          return Got(front.value.bytes);
        }
        if !open(i) {
          Flush();
          return Refused;
        }
        i := i + 1;
      }
    }

    /** `read` as a whole, with the driver's status left alone meanwhile. */
    method Read() returns (r: ReadResult)
      requires Valid()
      modifies `freed, rQueue, rQueue.cond
      ensures Valid()
      ensures status != Engine.Opened ==> r == Refused && rQueue.events == old(rQueue.events) && freed == old(freed)
      ensures status == Engine.Opened ==>
        var q := old(rQueue.events); var k := FirstReal(q);
        && (k == |q| ==> r == Blocked && rQueue.events == [] && freed == old(freed))
        && (k < |q| ==> r == Got(q[k].bytes) && rQueue.events == q[k + 1..] && freed == old(freed) + [q[k].id])
    {
      if status != Engine.Opened {
        return Refused;
      }
      r := ReadLoop(Always);
    }

    /** `write`; `writeAsync` differs in reporting every answer but success as IO, and nothing else. */
    method Write(bytes: Bytes, err: int, sendResult: int) returns (r: Outcome)
      requires Steady()
      modifies `hal
      ensures Steady()
      ensures r == WriteOutcome(status, bytes, err, sendResult)
      ensures hal == old(hal) + if bytes != [] && status == Engine.Opened then [Hal.Transmit(bytes)] else []
    {
      if bytes == [] {
        return Failed(OutOfRange);
      }
      if status != Engine.Opened {
        return Failed(InvalidState);
      }
      CallOpenHal(Hal.Transmit(bytes));
      if err != SUCCESS {
        return Failed(IO);
      }
      if sendResult != SUCCESS {
        if IsFailure(sendResult) {
          return Failed(IO);
        }
      }
      if !IsBroadcast(bytes) && sendResult == SENT_BUT_NOT_ACKD {
        return Failed(NoAck);
      } else if IsBroadcast(bytes) && ReportsPhysicalAddress(bytes) && sendResult == SENT_BUT_NOT_ACKD {
        return Failed(NoAck);
      }
      return Done;
    }

    /** A successful call about an address changes the registry. */
    method Register(op: ListOp<Byte>)
      requires logicalAddresses == Listed(addressOps)
      modifies `logicalAddresses, `addressOps
      ensures logicalAddresses == Listed(addressOps) && addressOps == old(addressOps) + [op]
    {
      ListedAppend(addressOps, op);
      logicalAddresses := AfterOp(logicalAddresses, op);
      addressOps := addressOps + [op];
    }

    /** A call other than open and close, of an open driver. */
    ghost method CallOpenHal(c: Hal.Call)
      requires Steady() && status == Engine.Opened && !c.Open? && !c.Close?
      modifies `hal
      ensures Steady() && hal == old(hal) + [c]
    {
      Hal.ScanAppend(hal, c);
      hal := hal + [c];
    }

    method AddLogicalAddress(address: Byte, answer: int) returns (r: Outcome)
      requires Valid()
      modifies `hal, `logicalAddresses, `addressOps
      ensures Valid()
      ensures r == if status != Engine.Opened then Failed(InvalidState)
                   else if answer == LOGICALADDRESS_UNAVAILABLE then Failed(AddressNotAvailable)
                   else if answer == GENERAL_ERROR then Failed(IO)
                   else Done
      ensures addressOps == old(addressOps) + if r.Done? then [Added(address)] else []
      ensures hal == old(hal) + if status == Engine.Opened then [Hal.AddAddress(address)] else []
    {
      if status != Engine.Opened {
        return Failed(InvalidState);
      }
      CallOpenHal(Hal.AddAddress(address));
      if answer == LOGICALADDRESS_UNAVAILABLE {
        return Failed(AddressNotAvailable);
      } else if answer == GENERAL_ERROR {
        return Failed(IO);
      }
      Register(Added(address));
      return Done;
    }

    method RemoveLogicalAddress(address: Byte) returns (r: Outcome)
      requires Valid()
      modifies `hal, `logicalAddresses, `addressOps
      ensures Valid()
      ensures r == if status != Engine.Opened then Failed(InvalidState) else Done
      ensures addressOps == old(addressOps) + if r.Done? then [Removed(address)] else []
      ensures hal == old(hal) + if status == Engine.Opened then [Hal.RemoveAddress(address)] else []
    {
      if status != Engine.Opened {
        return Failed(InvalidState);
      }
      Register(Removed(address));
      CallOpenHal(Hal.RemoveAddress(address));
      return Done;
    }

    /** Whether the latest of the successful calls about the address was an add. */
    method IsValidLogicalAddress(address: Byte) returns (found: bool)
      requires Valid()
      ensures found <==> Registered(addressOps, address)
    {
      ListedCount(addressOps, address);
      found := false;
      for i := 0 to |logicalAddresses|
        invariant !found && address !in logicalAddresses[..i]
      {
        if logicalAddresses[i] == address {
          found := true;
          break;
        }
      }
    }
  }
}
