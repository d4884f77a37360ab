/**
 * Bus and Connection, one call at a time: retried sends, the writer's loops, and the dispatch of received frames
 * through the listener lists. The threads around them are in Engine.
 */
module Buses {
  import opened Base
  import opened EventQueues
  import opened Lists
  import opened Stoppables
  import opened Drivers
  import opened Frames
  import Codec
  import CodecMethods
  import CodecProofs
  import Engine
  import Hal

  // ---- Bus::send

  /** How one attempt finds the bus and the driver, and what the HAL would answer. Attempts are made under the locks. */
  datatype Moment = Moment(started: bool, status: Engine.Status, err: int, sendResult: int)

  function Attempt(bytes: Bytes, m: Moment): Outcome {
    if !m.started then Failed(InvalidState) else WriteOutcome(m.status, bytes, m.err, m.sendResult)
  }

  /** Failures of CCEC's own kind are retried; out_of_range passes through. */
  predicate Retried(r: Outcome) {
    r.Failed? && r.error != OutOfRange
  }

  /** What is left of an outcome when CCEC's exceptions are swallowed. */
  function Quietly(r: Outcome): Outcome {
    if Retried(r) then Done else r
  }

  /** Whether `sendAsync` takes a frame, with so many queued. */
  function Accepting(started: bool, queued: nat): Outcome {
    if !started then Failed(InvalidState) else if queued == Engine.CAPACITY then Failed(QueueFull) else Done
  }

  /** How many attempts there may be. */
  function Limit(timeout: int): nat {
    (if timeout > 0 then timeout / 250 else 0) + 1
  }

  /** Attempts go on exactly while one fails with more to come. */
  ghost predicate Attempted(bytes: Bytes, timeout: int, moments: nat -> Moment, made: nat) {
    && 1 <= made <= Limit(timeout)
    && (forall i :: 0 <= i < made - 1 ==> Retried(Attempt(bytes, moments(i))))
    && (made < Limit(timeout) ==> !Retried(Attempt(bytes, moments(made - 1))))
  }

  /** An attempt that goes through: the bus runs, the driver is open, and the HAL reports success twice. */
  predicate Delivers(bytes: Bytes, m: Moment) {
    bytes != [] && m.started && m.status == Engine.Opened && m.err == 0 && m.sendResult == 0
  }

  /**
   * What a sender can rely on. An attempt that goes through ends it with success, and so it does not fail before the
   * last attempt there is time for, unless it has nothing to send, which the first attempt on a started bus reports.
   */
  ghost predicate Persistent(bytes: Bytes, timeout: int, moments: nat -> Moment, r: Outcome, made: nat) {
    var last := if timeout > 0 then timeout / 250 else 0;
    && 1 <= made <= last + 1 && r == Attempt(bytes, moments(made - 1))
    && (forall k: nat :: k <= last && Delivers(bytes, moments(k)) ==> r.Done? && made <= k + 1)
    && (forall k: nat :: k <= last && bytes == [] && moments(k).started ==> r == Failed(OutOfRange) && made <= k + 1)
    && (r.Failed? && (bytes != [] || r != Failed(OutOfRange)) ==> made == last + 1)
  }

  lemma AttemptedPersists(bytes: Bytes, timeout: int, moments: nat -> Moment, made: nat)
    requires Attempted(bytes, timeout, moments, made)
    ensures Persistent(bytes, timeout, moments, Attempt(bytes, moments(made - 1)), made)
  {
  }

  /**
   * `made` attempts, the last of which decided the result; `slept` milliseconds spent asleep. It goes on exactly while
   * an attempt fails with more to come.
   */
  method Send(bytes: Bytes, timeout: int, moments: nat -> Moment) returns (r: Outcome, made: nat, slept: nat)
    ensures Attempted(bytes, timeout, moments, made)
    ensures r == Attempt(bytes, moments(made - 1)) && Persistent(bytes, timeout, moments, r, made)
    ensures Retried(r) <==> forall i :: 0 <= i < Limit(timeout) ==> Retried(Attempt(bytes, moments(i)))
    ensures slept == if timeout > 0 then made + 250 * (made - 1) else 0
    ensures timeout > 0 ==> slept <= timeout + timeout / 250 + 1
  {
    if timeout <= 0 {
      r, made, slept := Attempt(bytes, moments(0)), 1, 0;
      AttemptedPersists(bytes, timeout, moments, made);
      return;
    }
    var retry := timeout / 250;
    r, made, slept := Done, 0, 0;
    var again := true;
    while again
      invariant 0 <= retry && made + retry + 1 == Limit(timeout) + if again then 0 else 1
      invariant again ==> slept == 251 * made
      invariant !again ==> made > 0 && slept == made + 250 * (made - 1) && r == Attempt(bytes, moments(made - 1))
      invariant !again && made < Limit(timeout) ==> !Retried(r)
      invariant forall i :: 0 <= i < (if again then made else made - 1) ==> Retried(Attempt(bytes, moments(i)))
      decreases if again then 1 else 0, retry
    {
      slept := slept + 1;
      r := Attempt(bytes, moments(made));
      made := made + 1;
      if !Retried(r) || retry == 0 {
        again := false;
      } else {
        slept := slept + 250;
        retry := retry - 1;
      }
    }
    AttemptedPersists(bytes, timeout, moments, made);
  }

  // ---- listeners

  type Listener = nat

  /** One call of an application's listener. */
  datatype Notice = Notice(connection: Connection, listener: Listener)

  /** Whether the frame gets past a filter for `source`: one without an address takes everything. */
  predicate Passes(source: Byte, bytes: Bytes)
    requires bytes != []
  {
    source == 15 || Low(bytes[0]) == 15 || Low(bytes[0]) == source
  }

  /** In terms of the frame's addresses: the destination is everybody, or the source. */
  lemma PassesMeans(source: Byte, frame: Bytes)
    requires Codec.Decode(frame).Processed?
    ensures var to := Codec.Decode(frame).header.to;
      Passes(source, frame) <==> source == 15 || to == 15 || to == source
  {
  }

  /**
   * What the HAL's two answers to an encoded message mean. A missing acknowledgement is an error unless the message went
   * to everybody, where only Report Physical Address gets one reported.
   */
  lemma {:induction false} AnswerMeans(h: Codec.Header, m: Codec.Message, err: int, sendResult: int)
    ensures var bytes := Codec.Encode(h, m);
      && bytes != []
      && (Answer(bytes, err, sendResult) == Failed(IO) <==> err != 0 || sendResult in {2, 3, 4, 5, 7})
      && (Answer(bytes, err, sendResult) == Failed(NoAck) <==>
            err == 0 && sendResult == 1 && (h.to != 15 || m.ReportPhysicalAddress?))
  {
    var bytes := Codec.Encode(h, m);
    CodecProofs.HeaderSurvives(h);
    assert bytes[0] == Codec.HeaderByte(h);
    if Codec.Opcode(m) != Codec.POLLING {
      CodedFirst(h, m);
    } else {
      assert bytes == [Codec.HeaderByte(h)];
    }
  }

  lemma {:induction false} CodedFirst(h: Codec.Header, m: Codec.Message)
    requires m != Codec.NoOperands(Codec.Polling)
    ensures |Codec.Encode(h, m)| > 1 && Codec.Encode(h, m)[1] == Codec.Opcode(m)
    ensures Codec.Opcode(m) == REPORT_PHYSICAL_ADDRESS <==> m.ReportPhysicalAddress?
  {
    if m.NoOperands? {
      CodecProofs.PlainIsByte(m.kind);
    } else {
      CodecProofs.OpcodeOfOperands(m);
    }
    CodecProofs.AssembledBytes(h, Codec.Opcode(m), Codec.Operands(m));
  }

  /** The calls that one frame leads to, in order: connection by connection, listener by listener. */
  ghost function NoticesOf(c: Connection, listeners: seq<Listener>): seq<Notice> {
    if listeners == [] then [] else [Notice(c, listeners[0])] + NoticesOf(c, listeners[1..])
  }

  /** ... that a connection on the bus's list passes on. */
  ghost function Heard(c: Connection, bytes: Bytes): seq<Notice>
    requires bytes != []
    reads c
  {
    if Passes(c.filterSource, bytes) then NoticesOf(c, c.frameListeners) else []
  }

  ghost function Notices(connections: seq<Connection>, bytes: Bytes): seq<Notice>
    requires bytes != []
    reads connections
  {
    if connections == [] then [] else Heard(connections[0], bytes) + Notices(connections[1..], bytes)
  }

  lemma {:induction false} NoticesOfCount(c: Connection, listeners: seq<Listener>, n: Notice)
    ensures Count(NoticesOf(c, listeners), n) == if n.connection == c then Count(listeners, n.listener) else 0
  {
    if listeners != [] {
      NoticesOfCount(c, listeners[1..], n);
      assert listeners == [listeners[0]] + listeners[1..];
    }
  }

  lemma NoticesFrom(connections: seq<Connection>, i: nat, bytes: Bytes, told: seq<Notice>)
    requires i < |connections| && bytes != []
    ensures (told + Heard(connections[i], bytes)) + Notices(connections[i + 1..], bytes) ==
      told + Notices(connections[i..], bytes)
  {
    var here, more, rest := Heard(connections[i], bytes), Notices(connections[i + 1..], bytes), connections[i..];
    assert rest[0] == connections[i] && rest[1..] == connections[i + 1..];
    assert Notices(rest, bytes) == here + more;
    assert (told + here) + more == told + (here + more);
  }

  lemma CountAppend<T>(a: seq<T>, b: seq<T>, x: T)
    ensures Count(a + b, x) == Count(a, x) + Count(b, x)
  {
  }

  lemma CountFirst<T>(s: seq<T>, x: T)
    requires s != []
    ensures Count(s, x) == Count(s[1..], x) + if s[0] == x then 1 else 0
  {
    assert s == [s[0]] + s[1..];
  }

  lemma NoticesFirst(connections: seq<Connection>, bytes: Bytes, n: Notice)
    requires connections != [] && bytes != []
    ensures Count(Notices(connections, bytes), n) ==
      Count(Notices(connections[1..], bytes), n)
      + if connections[0] == n.connection then Count(Heard(n.connection, bytes), n) else 0
  {
    var c := connections[0];
    CountAppend(Heard(c, bytes), Notices(connections[1..], bytes), n);
    NoticesOfCount(c, c.frameListeners, n);
  }

  lemma HeardCount(c: Connection, bytes: Bytes, l: Listener)
    requires bytes != []
    ensures Count(Heard(c, bytes), Notice(c, l)) == if Passes(c.filterSource, bytes) then Count(c.frameListeners, l) else 0
  {
    NoticesOfCount(c, c.frameListeners, Notice(c, l));
  }

  lemma NextProduct(k: nat, m: nat, hit: bool)
    ensures (k + if hit then 1 else 0) * m == k * m + if hit then m else 0
  {
  }

  // ---- the order of the calls

  /** How many calls a connection makes for a frame. */
  ghost function Calls(c: Connection, bytes: Bytes): nat
    requires bytes != []
    reads c
  {
    if Passes(c.filterSource, bytes) then |c.frameListeners| else 0
  }

  /** ... and how many the connections before number `i` on the list. */
  ghost function Before(connections: seq<Connection>, i: nat, bytes: Bytes): nat
    requires bytes != [] && i <= |connections|
    reads connections
  {
    if i == 0 then 0 else Calls(connections[0], bytes) + Before(connections[1..], i - 1, bytes)
  }

  ghost predicate IsAt(told: seq<Notice>, at: nat, n: Notice) {
    at < |told| && told[at] == n
  }

  lemma {:induction false} NoticesOfAt(c: Connection, listeners: seq<Listener>)
    ensures |NoticesOf(c, listeners)| == |listeners|
    ensures forall k :: 0 <= k < |listeners| ==> NoticesOf(c, listeners)[k] == Notice(c, listeners[k])
  {
    if listeners != [] {
      NoticesOfAt(c, listeners[1..]);
    }
  }

  lemma {:induction false} NoticesLength(connections: seq<Connection>, bytes: Bytes)
    requires bytes != []
    ensures |Notices(connections, bytes)| == Before(connections, |connections|, bytes)
  {
    if connections != [] {
      NoticesOfAt(connections[0], connections[0].frameListeners);
      NoticesLength(connections[1..], bytes);
    }
  }

  lemma Shifted<T>(a: seq<T>, b: seq<T>, j: nat)
    requires j < |b|
    ensures (a + b)[|a| + j] == b[j]
  {
  }

  /** Call number `k` of connection number `i` comes right after those of the connections before it. */
  lemma {:induction false} NoticesAt(connections: seq<Connection>, i: nat, k: nat, bytes: Bytes)
    requires bytes != [] && i < |connections| && k < Calls(connections[i], bytes)
    ensures IsAt(Notices(connections, bytes), Before(connections, i, bytes) + k,
                 Notice(connections[i], connections[i].frameListeners[k]))
  {
    var c, rest := connections[0], connections[1..];
    NoticesOfAt(c, c.frameListeners);
    if i > 0 {
      NoticesAt(rest, i - 1, k, bytes);
      assert connections[i] == rest[i - 1];
      Shifted(Heard(c, bytes), Notices(rest, bytes), Before(rest, i - 1, bytes) + k);
    }
  }

  /** The calls are those of the connections that pass the frame on, in the order of the list, each with its listeners. */
  ghost predicate InOrder(connections: seq<Connection>, bytes: Bytes, told: seq<Notice>)
    requires bytes != []
    reads connections
  {
    && |told| == Before(connections, |connections|, bytes)
    && forall i, k :: 0 <= i < |connections| && 0 <= k < Calls(connections[i], bytes) ==>
         IsAt(told, Before(connections, i, bytes) + k, Notice(connections[i], connections[i].frameListeners[k]))
  }

  lemma NoticesInOrder(connections: seq<Connection>, bytes: Bytes)
    requires bytes != []
    ensures InOrder(connections, bytes, Notices(connections, bytes))
  {
    NoticesLength(connections, bytes);
    forall i, k | 0 <= i < |connections| && 0 <= k < Calls(connections[i], bytes)
      ensures IsAt(Notices(connections, bytes), Before(connections, i, bytes) + k,
                   Notice(connections[i], connections[i].frameListeners[k]))
    {
      NoticesAt(connections, i, k, bytes);
    }
  }

  /** A listener is called once per registration with its connection and registration of that connection. */
  lemma {:induction false} NoticesCount(connections: seq<Connection>, bytes: Bytes, n: Notice)
    requires bytes != []
    ensures Count(Notices(connections, bytes), n) ==
      Count(connections, n.connection) * Count(Heard(n.connection, bytes), n)
  {
    var m := Count(Heard(n.connection, bytes), n);
    if connections == [] {
      NextProduct(0, m, false);
    } else {
      var rest, hit := connections[1..], connections[0] == n.connection;
      NoticesCount(rest, bytes, n);
      NoticesFirst(connections, bytes, n);
      CountFirst(connections, n.connection);
      NextProduct(Count(rest, n.connection), m, hit);
    }
  }

  // ---- the writer's queue

  /** An empty frame would make `write` throw something that the writer does not catch. */
  predicate Sendable(q: seq<Elem>) {
    forall j :: 0 <= j < |q| && q[j].Ptr? ==> q[j].bytes != []
  }

  /** What handling one element makes the driver ask of the HAL. */
  function Sent(status: Engine.Status, e: Elem): seq<Hal.Call> {
    if status == Engine.Opened && e.Ptr? then [Hal.Transmit(e.bytes)] else []
  }

  function Transmits(status: Engine.Status, q: seq<Elem>): seq<Hal.Call> {
    if q == [] then [] else Transmits(status, q[..|q| - 1]) + Sent(status, q[|q| - 1])
  }

  lemma {:induction false} HandledAppend(status: Engine.Status, q: seq<Elem>, i: nat, hal: seq<Hal.Call>, freed: seq<nat>)
    requires i < |q|
    ensures hal + Transmits(status, q[..i + 1]) == (hal + Transmits(status, q[..i])) + Sent(status, q[i])
    ensures freed + Ids(q[..i + 1]) == (freed + Ids(q[..i])) + IdOf(q[i])
    ensures q[i..][0] == q[i] && q[i..][1..] == q[i + 1..]
  {
    var before, next := q[..i], q[..i + 1];
    assert next == before + [q[i]] && next[..i] == before;
    assert Transmits(status, next) == Transmits(status, before) + Sent(status, q[i]);
    IdsConcat(before, [q[i]]);
    assert Ids([q[i]]) == IdOf(q[i]) + [];
  }

  lemma {:induction false} IdsSplit(q: seq<Elem>, i: nat, freed: seq<nat>)
    requires i <= |q|
    ensures (freed + Ids(q[..i])) + Ids(q[i..]) == freed + Ids(q)
  {
    var a, b := q[..i], q[i..];
    IdsConcat(a, b);
    assert q == a + b && (freed + Ids(a)) + Ids(b) == freed + (Ids(a) + Ids(b));
  }

  /** What a stop leaves in the transmit queue. */
  function Leftover(writer: Phase, q: seq<Elem>, early: bool): seq<Elem> {
    if writer == Stopped then q else if writer == Running && early then [Engine.Null] else []
  }

  lemma SentinelHasNoId(q: seq<Elem>, cap: nat)
    ensures Ids(Offered(q, cap, Engine.Null)) == Ids(q)
  {
    IdsConcat(q, [Engine.Null]);
    assert [Engine.Null][1..] == [];
    assert Ids([Engine.Null]) == [] + [];
  }

  // ---- the initiator of outgoing frames

  /**
   * What leaves for the bus when `before` is sent: the initiator is the connection's source if that is registered and
   * unchanged if not; the destination and every other byte are untouched.
   */
  predicate Matched(before: Bytes, sent: Bytes, source: Byte, registered: bool) {
    && |sent| == |before|
    && (before != [] ==>
          && High(sent[0]) == (if registered then source % 16 else High(before[0]))
          && Low(sent[0]) == Low(before[0])
          && sent[1..] == before[1..])
  }

  /** A frame that already carries the source leaves as it is. */
  lemma MatchedAlready(before: Bytes, sent: Bytes, source: Byte, registered: bool)
    requires Matched(before, sent, source, registered) && (before != [] ==> High(before[0]) == source % 16)
    ensures sent == before
  {
    if before != [] {
      assert sent == [sent[0]] + sent[1..] && before == [before[0]] + before[1..];
    }
  }

  class Connection {
    var source: Byte
    /** DefaultFilter copies the source when the connection is built. */
    const filterSource: Byte
    var frameListeners: seq<Listener>
    ghost var ops: seq<ListOp<Listener>>

    ghost predicate Valid()
      reads this
    {
      frameListeners == Listed(ops)
    }

    constructor (source: Byte)
      ensures Valid() && this.source == source && filterSource == source && ops == []
    {
      this.source, filterSource := source, source;
      frameListeners, ops := [], [];
    }

    method SetSource(from: Byte)
      modifies `source
      ensures source == from
    {
      source := from;
    }

    method AddFrameListener(l: Listener)
      requires Valid()
      modifies `frameListeners, `ops
      ensures Valid() && ops == old(ops) + [Added(l)]
    {
      ListedAppend(ops, Added(l));
      frameListeners, ops := frameListeners + [l], ops + [Added(l)];
    }

    method RemoveFrameListener(l: Listener)
      requires Valid()
      modifies `frameListeners, `ops
      ensures Valid() && ops == old(ops) + [Removed(l)]
    {
      ListedAppend(ops, Removed(l));
      frameListeners, ops := Without(frameListeners, l), ops + [Removed(l)];
    }

    method Open(bus: Bus) returns (r: Outcome)
      requires Valid() && bus.Valid()
      modifies bus`listeners, bus`ops
      ensures Valid() && bus.Valid()
      ensures r == if bus.started then Done else Failed(InvalidState)
      ensures bus.ops == old(bus.ops) + if bus.started then [Added(this)] else []
    {
      r := bus.AddFrameListener(this);
    }

    /** The application's listeners are gone even when the bus, not started, refuses to let go of the connection. */
    method Close(bus: Bus) returns (r: Outcome)
      requires Valid() && bus.Valid()
      modifies `frameListeners, `ops, bus`listeners, bus`ops
      ensures Valid() && bus.Valid()
      ensures r == if bus.started then Done else Failed(InvalidState)
      ensures ops == old(ops) + [Cleared]
      ensures bus.ops == old(bus.ops) + if bus.started then [Removed(this)] else []
    {
      ListedAppend(ops, Cleared);
      frameListeners, ops := [], ops + [Cleared];
      r := bus.RemoveFrameListener(this);
    }

    method IsFiltered(bytes: Bytes) returns (filtered: bool)
      requires bytes != []
      ensures filtered <==> !Passes(filterSource, bytes)
    {
      if filterSource == 15 {
        return false;
      }
      var to := Low(bytes[0]);
      return !(to == 15 || to == filterSource);
    }

    /** Puts this connection's source into the header, in place, if the driver has that address registered. */
    method MatchSource(driver: DriverImpl, frame: CECFrame)
      requires driver.Valid() && frame.Valid()
      modifies frame.buf
      ensures frame.Valid()
      ensures Matched(old(frame.Contents()), frame.Contents(), source, Registered(driver.addressOps, source))
    {
      var valid := driver.IsValidLogicalAddress(source);
      if valid && High(frame.buf[0]) != source % 16 {
        frame.buf[0] := Low(frame.buf[0]) + source % 16 * 16;
      }
    }

    /** `send` with Throw_e: the frame, with its source matched, and what the last attempt of the bus came to. */
    method SendThrowing(driver: DriverImpl, frame: CECFrame, timeout: int, moments: nat -> Moment)
      returns (r: Outcome, sent: Bytes, made: nat)
      requires driver.Valid() && frame.Valid()
      modifies frame.buf
      ensures frame.Valid() && sent == frame.Contents()
      ensures Matched(old(frame.Contents()), sent, source, Registered(driver.addressOps, source))
      ensures Attempted(sent, timeout, moments, made) && Persistent(sent, timeout, moments, r, made)
    {
      MatchSource(driver, frame);
      sent := frame.buf[..frame.len];
      var slept;
      r, made, slept := Send(sent, timeout, moments);
    }

    /** `send` without: the caller does not get to see CCEC's exceptions; the others come through. */
    method SendQuietly(driver: DriverImpl, frame: CECFrame, timeout: int, moments: nat -> Moment)
      returns (r: Outcome, sent: Bytes, made: nat)
      requires driver.Valid() && frame.Valid()
      modifies frame.buf
      ensures frame.Valid() && sent == frame.Contents()
      ensures Matched(old(frame.Contents()), sent, source, Registered(driver.addressOps, source))
      ensures Attempted(sent, timeout, moments, made) && r == Quietly(Attempt(sent, moments(made - 1)))
      ensures Persistent(sent, timeout, moments, Attempt(sent, moments(made - 1)), made)
      ensures r.Done? || (r == Failed(OutOfRange) && sent == [])
    {
      r, sent, made := SendThrowing(driver, frame, timeout, moments);
      if Retried(r) {
        r := Done;
      }
    }

    /** The start of sendTo and sendToAsync; false is out_of_range, for a payload with no room for the header. */
    method Address(to: Codec.Nibble, payload: CECFrame) returns (full: CECFrame, ok: bool)
      requires payload.Valid()
      ensures full.Valid() && fresh(full) && fresh(full.buf)
      ensures ok <==> |payload.Contents()| < MAX_LENGTH
      ensures ok ==> full.Contents() == Addressed(to, payload.Contents())
    {
      full := new CECFrame();
      ok := CodecMethods.AppendHeader(Codec.Header(source % 16, to), full);
      assert full.Contents() == [source % 16 * 16 + to];
      ok := full.AppendFrame(payload);
    }

    /** What sendTo sends: one header byte with this source, then the payload. */
    function Addressed(to: Codec.Nibble, payload: Bytes): Bytes
      reads `source
    {
      [source % 16 * 16 + to] + payload
    }

    /** `sendTo` with Throw_e. */
    method SendTo(driver: DriverImpl, to: Codec.Nibble, payload: CECFrame, timeout: int, moments: nat -> Moment)
      returns (r: Outcome, sent: Option<Bytes>, made: nat)
      requires driver.Valid() && payload.Valid()
      ensures sent == if |payload.Contents()| < MAX_LENGTH then Some(Addressed(to, payload.Contents())) else None
      ensures sent.None? ==> r == Failed(OutOfRange) && made == 0
      ensures sent.Some? ==>
        Attempted(sent.value, timeout, moments, made) && Persistent(sent.value, timeout, moments, r, made)
    {
      var full, ok := Address(to, payload);
      if !ok {
        return Failed(OutOfRange), None, 0;
      }
      ghost var before := full.Contents();
      var bytes;
      r, bytes, made := SendThrowing(driver, full, timeout, moments);
      MatchedAlready(before, bytes, source, Registered(driver.addressOps, source));
      sent := Some(bytes);
    }

    /** `sendTo` without: out_of_range comes out of it all the same. */
    method SendToQuietly(driver: DriverImpl, to: Codec.Nibble, payload: CECFrame, timeout: int, moments: nat -> Moment)
      returns (r: Outcome, sent: Option<Bytes>, made: nat)
      requires driver.Valid() && payload.Valid()
      ensures sent == if |payload.Contents()| < MAX_LENGTH then Some(Addressed(to, payload.Contents())) else None
      ensures sent.None? ==> r == Failed(OutOfRange) && made == 0
      ensures sent.Some? ==>
        && Attempted(sent.value, timeout, moments, made) && r == Quietly(Attempt(sent.value, moments(made - 1)))
        && Persistent(sent.value, timeout, moments, Attempt(sent.value, moments(made - 1)), made)
      ensures sent.Some? ==> r.Done?
    {
      var full, ok := Address(to, payload);
      if !ok {
        return Failed(OutOfRange), None, 0;
      }
      ghost var before := full.Contents();
      var bytes;
      r, bytes, made := SendQuietly(driver, full, timeout, moments);
      MatchedAlready(before, bytes, source, Registered(driver.addressOps, source));
      sent := Some(bytes);
    }

    /** A refusal comes out as it is, and the copy that was refused has been freed. */
    method SendAsync(driver: DriverImpl, bus: Bus, frame: CECFrame, id: nat) returns (r: Outcome)
      requires driver.Valid() && bus.Valid() && frame.Valid() && frame.Contents() != []
      modifies frame.buf, bus`freed, bus.wQueue, bus.wQueue.cond
      ensures bus.Valid() && frame.Valid()
      ensures Matched(old(frame.Contents()), frame.Contents(), source, old(Registered(driver.addressOps, source)))
      ensures r == Accepting(bus.started, |old(bus.wQueue.events)|)
      ensures bus.wQueue.events == old(bus.wQueue.events) + if r.Done? then [Engine.Ptr(id, frame.Contents())] else []
      ensures bus.freed == old(bus.freed) + if r == Failed(QueueFull) then [id] else []
    {
      MatchSource(driver, frame);
      r := bus.SendAsync(frame.buf[..frame.len], id);
    }

    method SendToAsync(driver: DriverImpl, bus: Bus, to: Codec.Nibble, payload: CECFrame, id: nat) returns (r: Outcome)
      requires driver.Valid() && bus.Valid() && payload.Valid()
      modifies bus`freed, bus.wQueue, bus.wQueue.cond
      ensures bus.Valid()
      ensures r == if |payload.Contents()| == MAX_LENGTH then Failed(OutOfRange)
                   else Accepting(bus.started, |old(bus.wQueue.events)|)
      ensures bus.wQueue.events == old(bus.wQueue.events) +
        if r.Done? then [Engine.Ptr(id, Addressed(to, payload.Contents()))] else []
      ensures bus.freed == old(bus.freed) + if r == Failed(QueueFull) then [id] else []
    {
      var full, ok := Address(to, payload);
      if !ok {
        return Failed(OutOfRange);
      }
      ghost var before, registered := full.Contents(), Registered(driver.addressOps, source);
      r := SendAsync(driver, bus, full, id);
      MatchedAlready(before, full.Contents(), source, registered);
    }

    /** DefaultFrameListener::notify */
    method Notify(bytes: Bytes) returns (told: seq<Notice>)
      requires bytes != []
      ensures told == Heard(this, bytes)
      ensures |told| == if Passes(filterSource, bytes) then |frameListeners| else 0
      ensures forall k :: 0 <= k < |told| ==> told[k] == Notice(this, frameListeners[k])
    {
      NoticesOfAt(this, frameListeners);
      told := [];
      var filtered := IsFiltered(bytes);
      if !filtered {
        for i := 0 to |frameListeners|
          invariant told + NoticesOf(this, frameListeners[i..]) == NoticesOf(this, frameListeners)
        {
          var n := Notice(this, frameListeners[i]);
          assert told + NoticesOf(this, frameListeners[i..]) == (told + [n]) + NoticesOf(this, frameListeners[i + 1..]) by {
            assert frameListeners[i..][1..] == frameListeners[i + 1..];
          }
          told := told + [n];
        }
        assert told + [] == told;
      }
    }
  }

  class Bus {
    var started: bool
    var listeners: seq<Connection>
    const wQueue: EventQueue<Elem>
    const reader: Stoppable
    const writer: Stoppable
    ghost var ops: seq<ListOp<Connection>>
    ghost var freed: seq<nat>

    ghost predicate Valid()
      reads this, wQueue, wQueue.cond
    {
      listeners == Listed(ops) && wQueue.Valid() && wQueue.cap == Engine.CAPACITY
    }

    constructor ()
      ensures Valid() && fresh(wQueue) && fresh(wQueue.cond) && fresh(reader) && fresh(writer) && reader != writer
      ensures !started && ops == [] && freed == [] && wQueue.events == []
      ensures reader.state == Running && writer.state == Running
    {
      started, listeners, ops, freed := false, [], [], [];
      wQueue := new EventQueue<Elem>(Engine.CAPACITY);
      reader := new Stoppable();
      writer := new Stoppable();
    }

    method AddFrameListener(c: Connection) returns (r: Outcome)
      requires Valid()
      modifies `listeners, `ops
      ensures Valid()
      ensures r == if started then Done else Failed(InvalidState)
      ensures ops == old(ops) + if started then [Added(c)] else []
    {
      if !started {
        return Failed(InvalidState);
      }
      ListedAppend(ops, Added(c));
      listeners, ops := listeners + [c], ops + [Added(c)];
      return Done;
    }

    method RemoveFrameListener(c: Connection) returns (r: Outcome)
      requires Valid()
      modifies `listeners, `ops
      ensures Valid()
      ensures r == if started then Done else Failed(InvalidState)
      ensures ops == old(ops) + if started then [Removed(c)] else []
    {
      if !started {
        return Failed(InvalidState);
      }
      ListedAppend(ops, Removed(c));
      listeners, ops := Without(listeners, c), ops + [Removed(c)];
      return Done;
    }

    /** Copies the frame, as number `id`, and queues the copy, or frees it again when the queue is full. */
    method SendAsync(bytes: Bytes, id: nat) returns (r: Outcome)
      requires Valid() && bytes != []
      modifies `freed, wQueue, wQueue.cond
      ensures Valid()
      ensures r == Accepting(started, |old(wQueue.events)|)
      ensures wQueue.events == old(wQueue.events) + if r.Done? then [Engine.Ptr(id, bytes)] else []
      ensures freed == old(freed) + if r == Failed(QueueFull) then [id] else []
    {
      if !started {
        return Failed(InvalidState);
      }
      var accepted := wQueue.Offer(Engine.Ptr(id, bytes));
      if !accepted {
        freed := freed + [id];
        return Failed(QueueFull);
      }
      return Done;
    }

    /** The loop in Writer::run after the writer has been asked to stop. */
    method Drain()
      requires wQueue.Valid()
      modifies `freed, wQueue, wQueue.cond
      ensures wQueue.Valid() && wQueue.events == []
      ensures freed == old(freed) + Ids(old(wQueue.events))
    {
      while wQueue.events != []
        invariant wQueue.Valid()
        invariant freed + Ids(wQueue.events) == old(freed) + Ids(old(wQueue.events))
        decreases |wQueue.events|
      {
        IdsFront(wQueue.events, freed);
        var front := wQueue.Poll(Engine.Null);
        freed := freed + IdOf(front.value);
      }
    }

    /** The writer has handled the first `turns` elements of what was the queue `q`, and freed their frames. */
    ghost predicate Handled(driver: DriverImpl, q: seq<Elem>, turns: nat, hal: seq<Hal.Call>, freed: seq<nat>)
      reads this, wQueue, wQueue.cond, driver
    {
      && wQueue.Valid() && driver.Steady()
      && turns <= |q| && wQueue.events == q[turns..]
      && driver.hal == hal + Transmits(driver.status, q[..turns])
      && this.freed == freed + Ids(q[..turns])
    }

    /** One turn of the loop. The frame is freed whether or not the write failed. */
    method WriteFront(driver: DriverImpl, err: int, sendResult: int)
      requires wQueue.Valid() && driver.Steady() && wQueue.events != []
      requires wQueue.events[0].Ptr? ==> wQueue.events[0].bytes != []
      modifies `freed, wQueue, wQueue.cond, driver`hal
      ensures wQueue.Valid() && driver.Steady() && wQueue.events == old(wQueue.events)[1..]
      ensures freed == old(freed) + IdOf(old(wQueue.events)[0])
      ensures driver.hal == old(driver.hal) + Sent(driver.status, old(wQueue.events)[0])
    {
      var front := wQueue.Poll(Engine.Null);
      if front.value.Ptr? {
        var r := driver.Write(front.value.bytes, err, sendResult);
      }
      freed := freed + IdOf(front.value);
    }

    method WriteNext(driver: DriverImpl, err: int, sendResult: int,
                     ghost q: seq<Elem>, ghost turns: nat, ghost hal: seq<Hal.Call>, ghost freed: seq<nat>)
      requires Handled(driver, q, turns, hal, freed) && turns < |q| && Sendable(q)
      modifies `freed, wQueue, wQueue.cond, driver`hal
      ensures Handled(driver, q, turns + 1, hal, freed)
    {
      HandledAppend(driver.status, q, turns, hal, freed);
      WriteFront(driver, err, sendResult);
    }

    /**
     * The first loop of Writer::run with nobody offering meanwhile: `running(j)` is what the test at the end of turn
     * `j` finds, and `answers(j)` what the HAL answers in that turn; a sentinel counts as a turn. It ends at the first
     * test that fails, or blocks with everything taken.
     */
    method WriteLoop(driver: DriverImpl, running: nat -> bool, answers: nat -> (int, int))
      returns (blocked: bool, turns: nat)
      requires wQueue.Valid() && driver.Steady() && Sendable(wQueue.events)
      modifies `freed, wQueue, wQueue.cond, driver`hal
      ensures Handled(driver, old(wQueue.events), turns, old(driver.hal), old(freed))
      ensures forall j :: 0 <= j < (if blocked then turns else turns - 1) ==> running(j)
      ensures if blocked then turns == |old(wQueue.events)| else turns > 0 && !running(turns - 1)
    {
      ghost var q := wQueue.events;
      turns := 0;
      var again := true;
      while again
        invariant Handled(driver, q, turns, old(driver.hal), old(freed))
        invariant forall j :: 0 <= j < (if again then turns else turns - 1) ==> running(j)
        invariant !again ==> turns > 0 && !running(turns - 1)
        decreases again, |q| - turns
      {
        if !wQueue.cond.flag {
          return true, turns;
        }
        WriteNext(driver, answers(turns).0, answers(turns).1, q, turns, old(driver.hal), old(freed));
        again := running(turns);
        turns := turns + 1;
      }
      blocked := false;
    }

    /** Writer::run. What is left when the loop ends is drained, so that every frame is freed exactly once, in order. */
    method RunWriter(driver: DriverImpl, running: nat -> bool, answers: nat -> (int, int))
      returns (blocked: bool, turns: nat)
      requires wQueue.Valid() && driver.Steady() && Sendable(wQueue.events)
      modifies `freed, wQueue, wQueue.cond, writer, driver`hal
      ensures wQueue.Valid() && driver.Steady() && wQueue.events == []
      ensures turns <= |old(wQueue.events)|
      ensures forall j :: 0 <= j < (if blocked then turns else turns - 1) ==> running(j)
      ensures if blocked then turns == |old(wQueue.events)| else turns > 0 && !running(turns - 1)
      ensures driver.hal == old(driver.hal) + Transmits(driver.status, old(wQueue.events)[..turns])
      ensures freed == old(freed) + Ids(old(wQueue.events))
      ensures writer.state == if blocked then Entered(old(writer.state)) else Stopped
    {
      ghost var q := wQueue.events;
      writer.Enter();
      blocked, turns := WriteLoop(driver, running, answers);
      IdsSplit(q, turns, old(freed));
      if !blocked {
        Drain();
        writer.StopCompleted();
      }
    }

    /**
     * `start`. A worker that has stopped is spawned again, and still counts as stopped until it enters its `run`; when
     * the driver does not open, the workers are spawned but the bus is not started.
     */
    method Start(driver: DriverImpl, ok: bool) returns (r: Outcome, spawnsReader: bool, spawnsWriter: bool)
      requires Valid() && driver.Valid()
      modifies `started, driver`status, driver`hal
      ensures Valid() && driver.Valid()
      ensures spawnsReader == (reader.state == Stopped) && spawnsWriter == (writer.state == Stopped)
      ensures r == if old(driver.status) == Engine.Closed && !ok then Failed(IO) else Done
      ensures started == (r.Done? || old(started)) && (driver.status == Engine.Opened <==> r.Done?)
      ensures driver.hal == old(driver.hal) + if old(driver.status) == Engine.Closed then [Hal.Open(ok)] else []
    {
      spawnsReader := reader.IsStopped();
      spawnsWriter := writer.IsStopped();
      r := driver.Open(ok);
      if r.Done? {
        started := true;
      }
    }

    /** Reader::stop up to its wait; it swallows what `close` throws. */
    method StopReader(driver: DriverImpl, ok: bool)
      requires driver.Valid()
      modifies reader, driver`status, driver`hal, driver.rQueue, driver.rQueue.cond
      ensures driver.Valid() && driver.status == Engine.Closed
      ensures reader.state == StopRequested(old(reader.state))
      ensures driver.hal == old(driver.hal) + if old(driver.status) == Engine.Opened then [Hal.Close(ok)] else []
      ensures driver.rQueue.events ==
        if old(driver.status) == Engine.Opened then Offered(old(driver.rQueue.events), Engine.CAPACITY, Engine.Null)
        else old(driver.rQueue.events)
    {
      reader.StopStarted();
      var r := driver.Close(ok);
    }

    /** What a writer that has been asked to stop still does, once its last write is done. */
    method EndWriter()
      requires wQueue.Valid()
      modifies `freed, writer, wQueue, wQueue.cond
      ensures wQueue.Valid() && wQueue.events == [] && writer.state == Stopped
      ensures freed == old(freed) + Ids(old(wQueue.events))
    {
      Drain();
      writer.StopCompleted();
    }

    /**
     * Writer::stop up to its wait. Only a running writer is asked, and offered a sentinel, which it does without when
     * the queue is full. It does not need it to notice: with `early` it ends between the request and the offer.
     */
    method StopWriter(early: bool)
      requires wQueue.Valid()
      modifies `freed, writer, wQueue, wQueue.cond
      ensures wQueue.Valid()
      ensures old(writer.state) != Running ==>
        writer.state == old(writer.state) && wQueue.events == old(wQueue.events) && freed == old(freed)
      ensures old(writer.state) == Running && !early ==>
        && writer.state == Stopping && freed == old(freed)
        && wQueue.events == Offered(old(wQueue.events), wQueue.cap, Engine.Null)
      ensures old(writer.state) == Running && early ==>
        && writer.state == Stopped && freed == old(freed) + Ids(old(wQueue.events))
        && wQueue.events == Offered([], wQueue.cap, Engine.Null)
    {
      if writer.IsRunning() {
        writer.StopStarted();
        if early {
          EndWriter();
        }
        var accepted := wQueue.Offer(Engine.Null);
      }
    }

    /** Reader::stop with its wait, which does not happen for a reader that counts as stopped. */
    method StopReaderAndWait(driver: DriverImpl, ok: bool)
      requires driver.Valid()
      modifies reader, driver`status, driver`hal, driver.rQueue, driver.rQueue.cond
      ensures driver.Valid() && driver.status == Engine.Closed && reader.state == Stopped
      ensures driver.hal == old(driver.hal) + if old(driver.status) == Engine.Opened then [Hal.Close(ok)] else []
    {
      StopReader(driver, ok);
      if !reader.IsStopped() {
        reader.StopCompleted();
      }
    }

    /** Writer::stop with its wait, during which the writer ends; there is none for a writer that counts as stopped. */
    method StopWriterAndWait(early: bool)
      requires wQueue.Valid() && wQueue.cap > 0
      modifies `freed, writer, wQueue, wQueue.cond
      ensures wQueue.Valid() && writer.state == Stopped
      ensures wQueue.events == Leftover(old(writer.state), old(wQueue.events), early)
      ensures freed == old(freed) + if old(writer.state) == Stopped then [] else Ids(old(wQueue.events))
    {
      SentinelHasNoId(wQueue.events, wQueue.cap);
      StopWriter(early);
      if !writer.IsStopped() {
        EndWriter();
      }
    }

    /**
     * `stop`, with a worker ending, when stop has to wait for it, as soon as it is waited for, or, for the writer and
     * with `early`, just before. Afterwards the driver is closed and both workers count as stopped. A writer that counts
     * as stopped already, because it has not entered its `run` yet, is neither asked nor waited for, and its queue stays;
     * any other leaves nothing, or the one sentinel that came too late for it, and every frame freed once.
     */
    method Stop(driver: DriverImpl, ok: bool, early: bool) returns (r: Outcome)
      requires Valid() && driver.Valid() && reader != writer
      requires driver.rQueue != wQueue && driver.rQueue.cond != wQueue.cond
      modifies `started, `freed, reader, writer, wQueue, wQueue.cond
      modifies driver`status, driver`hal, driver.rQueue, driver.rQueue.cond
      ensures Valid() && driver.Valid() && r.Done?
      ensures !started && reader.state == Stopped && writer.state == Stopped && driver.status == Engine.Closed
      ensures wQueue.events == Leftover(old(writer.state), old(wQueue.events), early)
      ensures freed == old(freed) + if old(writer.state) == Stopped then [] else Ids(old(wQueue.events))
      ensures driver.hal == old(driver.hal) + if old(driver.status) == Engine.Opened then [Hal.Close(ok)] else []
    {
      started := false;
      StopReaderAndWait(driver, ok);
      StopWriterAndWait(early);
      r := driver.Close(true);
    }

    /** The loop in Reader::run over the listeners of the bus. */
    method Dispatch(bytes: Bytes) returns (told: seq<Notice>)
      requires ValidFrame(bytes)
      ensures told == Notices(listeners, bytes) && InOrder(listeners, bytes, told)
    {
      NoticesInOrder(listeners, bytes);
      told := [];
      for i := 0 to |listeners|
        invariant told + Notices(listeners[i..], bytes) == Notices(listeners, bytes)
      {
        var more := listeners[i].Notify(bytes);
        NoticesFrom(listeners, i, bytes, told);
        told := told + more;
      }
      assert told + [] == told;
    }
  }

  /**
   * Dispatch is exact. After any history of opening and closing connections and of adding and removing listeners, one
   * frame calls listener `l` of connection `c` as often as `l` has registrations in force with `c`, times the
   * registrations of `c` with the bus, if the source that `c` was built with lets the frame pass, and never otherwise.
   */
  lemma DispatchIsExact(bus: Bus, c: Connection, l: Listener, bytes: Bytes)
    requires ValidFrame(bytes) && bus.Valid() && c.Valid()
    ensures Count(Notices(bus.listeners, bytes), Notice(c, l)) ==
      if Passes(c.filterSource, bytes) then Registrations(bus.ops, c) * Registrations(c.ops, l) else 0
  {
    NoticesCount(bus.listeners, bytes, Notice(c, l));
    HeardCount(c, bytes, l);
    ListedCount(bus.ops, c);
    ListedCount(c.ops, l);
  }
}
