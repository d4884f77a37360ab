/**
 * The engine's steps, run without interruption, add up to the calls of DriverImpl: what the class in Drivers does at
 * once is what the transition system does in pieces.
 */
module EngineCalls {
  import opened Base
  import opened EventQueues
  import opened Stoppables
  import opened Engine
  import opened Drivers
  import Hal

  /** Nobody but one thread takes a step. */
  ghost predicate Only(acts: seq<Action>, a: Action) {
    forall i :: 0 <= i < |acts| ==> acts[i] == a
  }

  lemma Turn(s: State, acts: seq<Action>, a: Action) returns (longer: seq<Action>)
    requires Only(acts, a)
    ensures Only(longer, a) && RunFrom(s, longer) == Do(RunFrom(s, acts), a)
  {
    longer := acts + [a];
    assert longer[..|acts|] == acts;
  }

  lemma ReaderTurn(s: State, acts: seq<Action>) returns (longer: seq<Action>)
    requires Only(acts, ReaderRuns) && ReaderCan(RunFrom(s, acts))
    ensures Only(longer, ReaderRuns) && RunFrom(s, longer) == ReaderStep(RunFrom(s, acts))
  {
    longer := Turn(s, acts, ReaderRuns);
  }

  lemma CloseTurn(s: State, acts: seq<Action>, ok: bool) returns (longer: seq<Action>)
    requires Only(acts, CtlRuns(ok)) && InClose(RunFrom(s, acts).ctl) && CtlCan(RunFrom(s, acts))
    ensures Only(longer, CtlRuns(ok)) && RunFrom(s, longer) == CloseStep(RunFrom(s, acts), ok)
  {
    longer := Turn(s, acts, CtlRuns(ok));
  }

  /** DriverImpl::close, from its entry to its return: DriverImpl.Close. */
  lemma ClosesAtOnce(s: State, site: Site, ok: bool) returns (acts: seq<Action>)
    requires s.ctl == CloseEnter(site) && s.status == Opened && DriverFree(s)
    ensures Only(acts, CtlRuns(ok))
    ensures RunFrom(s, acts) ==
      s.(status := Closed, rq := Offered(s.rq, CAPACITY, Null), log := CallHal(s.log, Hal.Close(ok)),
         ctl := if ok || site == InReaderStop then AfterClose(site) else Idle)
  {
    acts := CloseTurn(s, [], ok);
    acts := CloseTurn(s, acts, ok);
    var t := s.(status := Closing, rq := Offered(s.rq, CAPACITY, Null), ctl := CloseHal(site));
    assert RunFrom(s, acts) == t;
    acts := CloseTurn(s, acts, ok);
    acts := CloseTurn(s, acts, ok);
  }

  /** A sentinel that the reader takes while the driver is open. */
  lemma SkipsSentinel(s: State, acts: seq<Action>) returns (longer: seq<Action>)
    requires var t := RunFrom(s, acts);
      t.reader.RWait? && t.status == Opened && DriverFree(t) && t.rq != [] && t.rq[0].Null?
    requires Only(acts, ReaderRuns)
    ensures Only(longer, ReaderRuns) && RunFrom(s, longer) == RunFrom(s, acts).(rq := RunFrom(s, acts).rq[1..])
  {
    var t := RunFrom(s, acts);
    longer := ReaderTurn(s, acts);
    longer := ReaderTurn(s, longer);
    assert RunFrom(s, longer) == t.(rq := t.rq[1..], reader := RNull);
    longer := ReaderTurn(s, longer);
  }

  /** A frame that the reader takes. */
  lemma TakesFrame(s: State, acts: seq<Action>) returns (longer: seq<Action>)
    requires var t := RunFrom(s, acts); t.reader.RWait? && t.rq != [] && t.rq[0].Ptr?
    requires Only(acts, ReaderRuns)
    ensures var t := RunFrom(s, acts);
      Only(longer, ReaderRuns)
      && RunFrom(s, longer) == t.(rq := t.rq[1..], reader := RDispatch(t.rq[0]), log := Free(t.log, t.rq[0]))
  {
    var t := RunFrom(s, acts);
    longer := ReaderTurn(s, acts);
    longer := ReaderTurn(s, longer);
    assert RunFrom(s, longer) == t.(rq := t.rq[1..], reader := RCopy(t.rq[0]));
    longer := ReaderTurn(s, longer);
  }

  lemma FirstRealStep(q: seq<Elem>)
    requires q != [] && q[0].Null?
    ensures FirstReal(q) == 1 + FirstReal(q[1..])
  {
    var k, rest := FirstReal(q[1..]), q[1..];
    assert k < |rest| ==> rest[k] == q[k + 1];
    assert forall j :: 0 <= j < k ==> rest[j] == q[j + 1];
    assert forall j :: 0 < j <= k ==> q[j] == rest[j - 1];
  }

  /** What DriverImpl.Read does to an open driver's queue. */
  function AfterRead(t: State): State {
    var k := FirstReal(t.rq);
    if k == |t.rq| then t.(rq := [])
    else t.(rq := t.rq[k + 1..], reader := RDispatch(t.rq[k]), log := Free(t.log, t.rq[k]))
  }

  lemma AfterReadStep(t: State)
    requires t.rq != [] && t.rq[0].Null?
    ensures AfterRead(t) == AfterRead(t.(rq := t.rq[1..]))
  {
    FirstRealStep(t.rq);
    var k, rest := FirstReal(t.rq), t.rq[1..];
    if k < |t.rq| {
      assert rest[k - 1] == t.rq[k] && rest[k..] == t.rq[k + 1..];
    }
  }

  /**
   * `read` of an open driver, by the reader alone: it comes back with the first real frame and leaves what is behind
   * it, or it waits with every sentinel discarded.
   */
  lemma {:induction false} ReadsFirstReal(s: State, acts: seq<Action>) returns (longer: seq<Action>)
    requires var t := RunFrom(s, acts); t.reader.RWait? && t.status == Opened && DriverFree(t)
    requires Only(acts, ReaderRuns)
    ensures Only(longer, ReaderRuns) && RunFrom(s, longer) == AfterRead(RunFrom(s, acts))
    decreases |RunFrom(s, acts).rq|
  {
    var t := RunFrom(s, acts);
    if t.rq == [] {
      longer := acts;
    } else if t.rq[0].Ptr? {
      longer := TakesFrame(s, acts);
    } else {
      var next := SkipsSentinel(s, acts);
      AfterReadStep(t);
      longer := ReadsFirstReal(s, next);
    }
  }

  function Fates(q: seq<Elem>, fate: Fate): seq<Fated> {
    if q == [] then [] else (if q[0].Ptr? then [Fated(q[0], fate)] else []) + Fates(q[1..], fate)
  }

  function AfterFlush(t: State): State {
    t.(rq := [], reader := RTest,
       log := t.log.(freed := t.log.freed + Ids(t.rq), consumed := t.log.consumed + Fates(t.rq, Flushed)))
  }

  function FlushedOne(t: State): State
    requires t.rq != []
  {
    t.(rq := t.rq[1..], log := Flush(t.log, t.rq[0]))
  }

  lemma FlushesOne(s: State, acts: seq<Action>) returns (longer: seq<Action>)
    requires Only(acts, ReaderRuns) && RunFrom(s, acts).reader.RFlushTest? && RunFrom(s, acts).rq != []
    ensures Only(longer, ReaderRuns) && RunFrom(s, longer) == FlushedOne(RunFrom(s, acts))
  {
    var t := RunFrom(s, acts);
    longer := ReaderTurn(s, acts);
    longer := ReaderTurn(s, longer);
    assert RunFrom(s, longer) == t.(reader := RFlushPop);
    longer := ReaderTurn(s, longer);
    assert RunFrom(s, longer) == t.(rq := t.rq[1..], reader := RFlushFree(t.rq[0]));
    longer := ReaderTurn(s, longer);
  }

  lemma AfterFlushStep(t: State)
    requires t.rq != []
    ensures AfterFlush(t) == AfterFlush(FlushedOne(t))
  {
    IdsFront(t.rq, t.log.freed);
    var one := if t.rq[0].Ptr? then [Fated(t.rq[0], Flushed)] else [];
    assert (t.log.consumed + one) + Fates(t.rq[1..], Flushed) == t.log.consumed + (one + Fates(t.rq[1..], Flushed));
    if t.rq[0].Null? {
      assert t.log.freed + [] == t.log.freed && t.log.consumed + [] == t.log.consumed;
    }
  }

  /** The flush in `read`: every queued frame is freed once, in order, and none stays. */
  lemma {:induction false} FlushesAll(s: State, acts: seq<Action>) returns (longer: seq<Action>)
    requires Only(acts, ReaderRuns) && RunFrom(s, acts).reader.RFlushTest?
    ensures Only(longer, ReaderRuns) && RunFrom(s, longer) == AfterFlush(RunFrom(s, acts))
    decreases |RunFrom(s, acts).rq|
  {
    var t := RunFrom(s, acts);
    if t.rq == [] {
      longer := ReaderTurn(s, acts);
      assert t.log.freed + [] == t.log.freed && t.log.consumed + [] == t.log.consumed;
    } else {
      var next := FlushesOne(s, acts);
      AfterFlushStep(t);
      longer := FlushesAll(s, next);
    }
  }

  // ---- one round of Reader::run

  lemma EntersRead(s: State, acts: seq<Action>) returns (longer: seq<Action>)
    requires var t := RunFrom(s, acts); t.reader.RTest? && t.rPhase == Running && t.status == Opened && DriverFree(t)
    requires Only(acts, ReaderRuns)
    ensures Only(longer, ReaderRuns) && RunFrom(s, longer) == RunFrom(s, acts).(reader := RWait)
  {
    longer := ReaderTurn(s, acts);
    assert RunFrom(s, longer) == RunFrom(s, acts).(reader := RCheck);
    longer := ReaderTurn(s, longer);
  }

  /** What a round of a running reader on an open driver comes to, with a frame queued. */
  function AfterRound(t: State): State
    requires FirstReal(t.rq) < |t.rq|
  {
    var k := FirstReal(t.rq);
    var e := t.rq[k];
    t.(rq := t.rq[k + 1..],
       log := t.log.(freed := t.log.freed + [e.id], consumed := t.log.consumed + [Fated(e, Dispatched)]))
  }

  /**
   * One round of the reader, alone: from the test at the head of the loop back to it, with the first real frame
   * dispatched and freed, the sentinels before it gone, and the rest queued.
   */
  lemma DispatchesFirstReal(s: State, acts: seq<Action>) returns (longer: seq<Action>)
    requires var t := RunFrom(s, acts);
      && t.reader.RTest? && t.rPhase == Running && t.status == Opened && DriverFree(t) && !CtlHoldsBus(t.ctl)
      && FirstReal(t.rq) < |t.rq|
    requires Only(acts, ReaderRuns)
    ensures Only(longer, ReaderRuns) && RunFrom(s, longer) == AfterRound(RunFrom(s, acts))
  {
    var t := RunFrom(s, acts);
    longer := EntersRead(s, acts);
    longer := ReadsFirstReal(s, longer);
    RoundOfRead(t);
    longer := Dispatches(s, longer);
  }

  lemma Dispatches(s: State, acts: seq<Action>) returns (longer: seq<Action>)
    requires var t := RunFrom(s, acts); t.reader.RDispatch? && !CtlHoldsBus(t.ctl)
    requires Only(acts, ReaderRuns)
    ensures var t := RunFrom(s, acts);
      Only(longer, ReaderRuns) && RunFrom(s, longer) == t.(reader := RTest, log := Consume(t.log, t.reader.got, Dispatched))
  {
    longer := ReaderTurn(s, acts);
  }

  lemma RoundOfRead(t: State)
    requires t.reader.RTest? && FirstReal(t.rq) < |t.rq|
    ensures var u := AfterRead(t.(reader := RWait));
      && u.reader.RDispatch? && u.ctl == t.ctl
      && u.(reader := RTest, log := Consume(u.log, u.reader.got, Dispatched)) == AfterRound(t)
  {
  }

  /** A sentinel taken while the driver is not open: the reader flushes and is back at the head of its loop. */
  lemma FlushesAtSentinel(s: State, acts: seq<Action>) returns (longer: seq<Action>)
    requires var t := RunFrom(s, acts);
      t.reader.RWait? && t.status != Opened && DriverFree(t) && t.rq != [] && t.rq[0].Null?
    requires Only(acts, ReaderRuns)
    ensures var t := RunFrom(s, acts);
      Only(longer, ReaderRuns) && RunFrom(s, longer) == AfterFlush(t.(rq := t.rq[1..]))
  {
    var t := RunFrom(s, acts);
    longer := ReaderTurn(s, acts);
    longer := ReaderTurn(s, longer);
    assert RunFrom(s, longer) == t.(rq := t.rq[1..], reader := RNull);
    longer := ReaderTurn(s, longer);
    assert RunFrom(s, longer) == t.(rq := t.rq[1..], reader := RFlushTest);
    longer := FlushesAll(s, longer);
  }

  // ---- one turn of Writer::run

  /** Bus.WriteFront: the front of the queue is transmitted if it is a frame and the driver is open, and freed. */
  function AfterTurn(t: State): State
    requires t.wq != []
  {
    var e, taken := t.wq[0], t.(wq := t.wq[1..], writer := WTest);
    if e.Null? then taken
    else
      var isOpen := t.status == Opened;
      taken.(log := t.log.(
        hal := t.log.hal + (if isOpen then [Hal.Transmit(e.bytes)] else []),
        callers := t.log.callers + (if isOpen then [Writer] else []),
        finished := t.log.finished + [Fated(e, Written(t.log.sessions, isOpen))],
        freed := t.log.freed + [e.id]))
  }

  lemma WritesFront(s: State, acts: seq<Action>) returns (longer: seq<Action>)
    requires Only(acts, WriterRuns)
    requires var t := RunFrom(s, acts); t.writer.WWait? && t.wq != [] && DriverFree(t)
    ensures Only(longer, WriterRuns) && RunFrom(s, longer) == AfterTurn(RunFrom(s, acts))
  {
    var t := RunFrom(s, acts);
    longer := WriterTurn(s, acts);
    longer := WriterTurn(s, longer);
    if t.wq[0].Null? {
      assert RunFrom(s, longer) == t.(wq := t.wq[1..], writer := WFree(Null));
      longer := WriterTurn(s, longer);
    } else {
      assert RunFrom(s, longer) == t.(wq := t.wq[1..], writer := WWrite(t.wq[0]));
      longer := TransmitsAndFrees(s, longer);
      assert t.log.hal + [] == t.log.hal && t.log.callers + [] == t.log.callers;
    }
  }

  lemma TransmitsAndFrees(s: State, acts: seq<Action>) returns (longer: seq<Action>)
    requires Only(acts, WriterRuns)
    requires var t := RunFrom(s, acts); t.writer.WWrite? && t.writer.got.Ptr? && DriverFree(t)
    ensures var t := RunFrom(s, acts);
      var e, log := t.writer.got, HalIfOpen(t, Hal.Transmit(t.writer.got.bytes), Writer);
      && Only(longer, WriterRuns)
      && RunFrom(s, longer) ==
           t.(writer := WTest, log := Free(Finish(log, e, Written(t.log.sessions, t.status == Opened)), e))
  {
    longer := WriterTurn(s, acts);
    longer := WriterTurn(s, longer);
  }

  // ---- calls straight to the driver

  /** DriverImpl.Write, AddLogicalAddress and RemoveLogicalAddress: one HAL call if the driver is open. */
  lemma DirectCallReachesHal(s: State, a: Action)
    requires Can(s, a) && (a.SendNow? || a.AddAddress? || a.RemoveAddress?)
    ensures var c :=
        if a.SendNow? then Hal.Transmit(a.bytes)
        else if a.AddAddress? then Hal.AddAddress(a.address) else Hal.RemoveAddress(a.address);
      Do(s, a).log.hal == s.log.hal + if s.status == Opened then [c] else []
  {
    assert s.log.hal + [] == s.log.hal;
  }

  // ---- the drain loop of Writer::run

  lemma WriterTurn(s: State, acts: seq<Action>) returns (longer: seq<Action>)
    requires Only(acts, WriterRuns) && WriterCan(RunFrom(s, acts))
    ensures Only(longer, WriterRuns) && RunFrom(s, longer) == WriterStep(RunFrom(s, acts))
  {
    longer := Turn(s, acts, WriterRuns);
  }

  function AfterDrain(t: State): State {
    t.(wq := [], writer := WExit,
       log := t.log.(freed := t.log.freed + Ids(t.wq), finished := t.log.finished + Fates(t.wq, Drained(t.log.sessions))))
  }

  function DrainedOne(t: State): State
    requires t.wq != []
  {
    t.(wq := t.wq[1..], log := Drain(t.log, t.wq[0]))
  }

  lemma DrainsOne(s: State, acts: seq<Action>) returns (longer: seq<Action>)
    requires Only(acts, WriterRuns) && RunFrom(s, acts).writer.WDrainTest? && RunFrom(s, acts).wq != []
    ensures Only(longer, WriterRuns) && RunFrom(s, longer) == DrainedOne(RunFrom(s, acts))
  {
    var t := RunFrom(s, acts);
    longer := WriterTurn(s, acts);
    longer := WriterTurn(s, longer);
    assert RunFrom(s, longer) == t.(writer := WDrainPop);
    longer := WriterTurn(s, longer);
    assert RunFrom(s, longer) == t.(wq := t.wq[1..], writer := WDrainFree(t.wq[0]));
    longer := WriterTurn(s, longer);
  }

  lemma AfterDrainStep(t: State)
    requires t.wq != []
    ensures AfterDrain(t) == AfterDrain(DrainedOne(t))
  {
    IdsFront(t.wq, t.log.freed);
    var one := if t.wq[0].Ptr? then [Fated(t.wq[0], Drained(t.log.sessions))] else [];
    assert (t.log.finished + one) + Fates(t.wq[1..], Drained(t.log.sessions)) == t.log.finished + (one + Fates(t.wq[1..], Drained(t.log.sessions)));
    if t.wq[0].Null? {
      assert t.log.freed + [] == t.log.freed && t.log.finished + [] == t.log.finished;
    }
  }

  /** The drain: it never blocks, frees every queued frame once, in order, and leaves nothing: Bus.Drain. */
  lemma {:induction false} DrainsAll(s: State, acts: seq<Action>) returns (longer: seq<Action>)
    requires Only(acts, WriterRuns) && RunFrom(s, acts).writer.WDrainTest?
    ensures Only(longer, WriterRuns) && RunFrom(s, longer) == AfterDrain(RunFrom(s, acts))
    decreases |RunFrom(s, acts).wq|
  {
    var t := RunFrom(s, acts);
    if t.wq == [] {
      longer := WriterTurn(s, acts);
      assert t.log.freed + [] == t.log.freed && t.log.finished + [] == t.log.finished;
    } else {
      var next := DrainsOne(s, acts);
      AfterDrainStep(t);
      longer := DrainsAll(s, next);
    }
  }

  // ---- the callback and the senders

  lemma TwoSteps(s: State, a: Action, b: Action)
    ensures RunFrom(s, [a, b]) == Do(Do(s, a), b)
  {
    assert [a, b][..1] == [a] && [a][..0] == [];
    assert RunFrom(s, [a]) == Do(s, a);
  }

  /** DriverImpl.Receive: an accepted frame is queued, any other is freed. */
  function AfterReceive(s: State, bytes: Bytes): State {
    var e, log := Ptr(s.log.made, bytes), s.log.(made := s.log.made + 1);
    if s.status == Opened && |s.rq| < CAPACITY then s.(rq := s.rq + [e], log := log.(received := log.received + [e]))
    else s.(log := Free(log, e))
  }

  lemma DeliversWhatIsReceived(s: State, bytes: Bytes)
    requires s.status == Opened && s.log.made !in s.inflight && |s.rq| <= CAPACITY
    ensures var t := Received(s, bytes);
      s.log.made in t.inflight && Delivered(t, s.log.made) == AfterReceive(s, bytes)
  {
    assert s.inflight[s.log.made := bytes] - {s.log.made} == s.inflight;
  }

  /** The callback's check and its offer, with nothing in between. */
  lemma ReceivesAtOnce(s: State, bytes: Bytes)
    requires ValidFrame(bytes) && s.log.made !in s.inflight && |s.rq| <= CAPACITY
    ensures RunFrom(s, [Receive(bytes), Deliver(s.log.made)]) == AfterReceive(s, bytes)
  {
    TwoSteps(s, Receive(bytes), Deliver(s.log.made));
    if s.status == Opened {
      DeliversWhatIsReceived(s, bytes);
      assert Do(s, Receive(bytes)) == Received(s, bytes);
    } else {
      assert Do(s, Receive(bytes)) == AfterReceive(s, bytes);
    }
  }

  /** Bus.SendAsync: the copy is queued, or freed when the queue is full. */
  function AfterSend(s: State, bytes: Bytes): State {
    var id := s.log.made;
    var e, log := Ptr(id, bytes), s.log.(made := id + 1, copies := s.log.copies + [id]);
    if |s.wq| == CAPACITY then s.(log := Free(log, e))
    else s.(wq := s.wq + [e], log := log.(sent := log.sent + [e]))
  }

  /** sendAsync on a started bus, from taking wMutex to giving it back; on any other it does not begin. */
  lemma SendsAtOnce(s: State, bytes: Bytes)
    requires ValidFrame(bytes) && s.sender.None? && !CtlHoldsBus(s.ctl)
    ensures RunFrom(s, [SendBegin(bytes), SendOffer]) == if s.started then AfterSend(s, bytes) else s
  {
    TwoSteps(s, SendBegin(bytes), SendOffer);
  }

  // ---- Bus::start and Bus::stop

  lemma InitTurn(s: State, acts: seq<Action>, ok: bool) returns (longer: seq<Action>)
    requires Only(acts, CtlRuns(ok)) && InInit(RunFrom(s, acts).ctl) && CtlCan(RunFrom(s, acts))
    ensures Only(longer, CtlRuns(ok)) && RunFrom(s, longer) == InitStep(RunFrom(s, acts), ok)
  {
    longer := Turn(s, acts, CtlRuns(ok));
  }

  lemma TermTurn(s: State, acts: seq<Action>, ok: bool) returns (longer: seq<Action>)
    requires var t := RunFrom(s, acts); !t.ctl.Idle? && !InInit(t.ctl) && !InClose(t.ctl) && CtlCan(t)
    requires Only(acts, CtlRuns(ok))
    ensures Only(longer, CtlRuns(ok)) && RunFrom(s, longer) == TermStep(RunFrom(s, acts))
  {
    longer := Turn(s, acts, CtlRuns(ok));
  }

  /** What Bus.Start spawns. */
  function Spawned(s: State): State {
    s.(reader := if s.rPhase == Stopped then RSpawned else s.reader,
       writer := if s.wPhase == Stopped then WSpawned else s.writer)
  }

  /** Bus.Start: the stopped workers are spawned, and the bus has started if the driver is open in the end. */
  function AfterStart(s: State, ok: bool): State {
    if s.status != Closed then Spawned(s).(started := true, ctl := InitDone)
    else if ok then
      Spawned(s).(status := Opened, started := true, log := CallHal(s.log, Hal.Open(true)), ctl := InitDone)
    else Spawned(s).(log := CallHal(s.log, Hal.Open(false)), ctl := Idle)
  }

  lemma SpawnsAtOnce(s: State, ok: bool) returns (acts: seq<Action>)
    requires s.ctl.StartLock? && s.sender.None?
    ensures Only(acts, CtlRuns(ok)) && RunFrom(s, acts) == Spawned(s).(ctl := StartOpen)
  {
    acts := InitTurn(s, [], ok);
    acts := InitTurn(s, acts, ok);
    assert RunFrom(s, acts) == s.(reader := Spawned(s).reader, ctl := StartWriter);
    acts := InitTurn(s, acts, ok);
  }

  lemma StartsAtOnce(s: State, ok: bool) returns (acts: seq<Action>)
    requires s.ctl.StartLock? && s.sender.None? && DriverFree(s)
    ensures Only(acts, CtlRuns(ok)) && RunFrom(s, acts) == AfterStart(s, ok)
  {
    acts := SpawnsAtOnce(s, ok);
    acts := InitTurn(s, acts, ok);
    if s.status != Closed || ok {
      acts := InitTurn(s, acts, ok);
    }
  }

  /** Bus.StopReader: the reader is asked to stop, and the driver closed with its sentinel if it was open. */
  function AfterStopReader(s: State, ok: bool): State {
    var asked := s.(rPhase := StopRequested(s.rPhase), ctl := ReaderWait);
    if s.status != Opened then asked
    else asked.(status := Closed, rq := Offered(s.rq, CAPACITY, Null), log := CallHal(s.log, Hal.Close(ok)))
  }

  lemma StopsReaderAtOnce(s: State, ok: bool) returns (acts: seq<Action>)
    requires s.ctl.ReaderStop? && DriverFree(s)
    ensures Only(acts, CtlRuns(ok)) && RunFrom(s, acts) == AfterStopReader(s, ok)
  {
    acts := TermTurn(s, [], ok);
    var t := s.(rPhase := StopRequested(s.rPhase), ctl := CloseEnter(InReaderStop));
    assert RunFrom(s, acts) == t;
    acts := CloseTurn(s, acts, ok);
    if s.status == Opened {
      acts := CloseTurn(s, acts, ok);
      assert RunFrom(s, acts) == t.(status := Closing, rq := Offered(s.rq, CAPACITY, Null), ctl := CloseHal(InReaderStop));
      acts := CloseTurn(s, acts, ok);
      acts := CloseTurn(s, acts, ok);
    }
  }

  /** Bus.StopWriter: a running writer is asked to stop and offered a sentinel, any other is left alone. */
  function AfterStopWriter(s: State): State {
    if s.wPhase == Running then s.(wPhase := Stopping, wq := Offered(s.wq, CAPACITY, Null), ctl := WriterWait)
    else s.(ctl := WriterWait)
  }

  lemma StopsWriterAtOnce(s: State, ok: bool) returns (acts: seq<Action>)
    requires s.ctl.WriterStop?
    ensures Only(acts, CtlRuns(ok)) && RunFrom(s, acts) == AfterStopWriter(s)
  {
    acts := TermTurn(s, [], ok);
    if s.wPhase == Running {
      acts := TermTurn(s, acts, ok);
    }
  }
}
