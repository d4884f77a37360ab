/**
 * The threaded core: the Bus reader and writer threads, the thread inside LibCCEC::init or term, the HAL receive
 * callback and the application's senders, over the two queues and the driver's status.
 *
 * One step is one critical section, split further wherever another thread can look in without the lock: `close` sets
 * the status, offers its sentinel, closes the HAL and sets the status again in four steps, because the callback reads
 * the status unlocked; `poll` waits and then pops in two. Each queue call is one step here; QueueProtocol shows that
 * its finer steps come down to that.
 */
module Engine {
  import opened Base
  import opened EventQueues
  import opened Stoppables
  import Hal

  /** The default capacity of both queues. */
  const CAPACITY := 32

  datatype Status = Closed | Closing | Opened

  /** What the queues hold: the NULL sentinel, or a pointer to a heap frame, told apart by `id`. */
  datatype Elem = Null | Ptr(id: nat, bytes: Bytes)

  datatype ReaderPc =
    | RSpawned | RTest | RCheck | RWait | RPop
    | RCopy(got: Elem) | RDispatch(got: Elem)
    | RNull | RFlushTest | RFlushWait | RFlushPop | RFlushFree(got: Elem)
    | RExit | RGone

  datatype WriterPc =
    | WSpawned | WWait | WPop | WWrite(got: Elem) | WFree(got: Elem) | WTest
    | WDrainTest | WDrainWait | WDrainPop | WDrainFree(got: Elem)
    | WExit | WGone

  /** The three places that close the driver during term. */
  datatype Site = InReaderStop | InBusStop | InTerm

  datatype CtlPc =
    | Idle
    | InitOpen | StartLock | StartReader | StartWriter | StartOpen | StartDone | InitDone
    | StopLock | ReaderStop | ReaderWait
    | CloseEnter(site: Site) | CloseOffer(site: Site) | CloseHal(site: Site) | CloseSet(site: Site, ok: bool)
    | WriterLock | WriterStop | WriterOffer | WriterWait
    | TermDone

  /** `session` counts how often the writer has entered its `run`; `open` is whether the driver was open for the write. */
  datatype Fate = Dispatched | Flushed | Written(session: nat, open: bool) | Drained(session: nat)

  /** On whose behalf the HAL is called: init or term, the writer thread, or anybody else. */
  datatype Caller = Lifecycle | Writer | Application

  datatype Fated = Fated(elem: Elem, fate: Fate)

  /** What has happened so far. Frames get their numbers in the order they are allocated. */
  datatype Log = Log(
    made: nat,
    freed: seq<nat>,
    // receive path: accepted from the callback; dispatched or flushed
    received: seq<Elem>,
    consumed: seq<Fated>,
    // asynchronous transmit path: copies made; accepted from senders; handed to the driver or drained
    copies: seq<nat>,
    sent: seq<Elem>,
    finished: seq<Fated>,
    sessions: nat,
    // calls into the HAL, and who made them
    hal: seq<Hal.Call>,
    callers: seq<Caller>,
    terms: nat)

  datatype State = State(
    // driver
    status: Status,
    rq: seq<Elem>,
    // bus
    wq: seq<Elem>,
    started: bool,
    rPhase: Phase,
    wPhase: Phase,
    // library
    initialized: bool,
    // where each thread stands; `sender` is the one inside sendAsync, with its copy allocated and wMutex held
    reader: ReaderPc,
    writer: WriterPc,
    ctl: CtlPc,
    inflight: map<nat, Bytes>,
    sender: Option<Elem>,
    log: Log)

  /** Right after the Bus singleton is built: both threads are spawned, and both already count as running. */
  const INIT := State(
    Closed, [], [], false, Running, Running, false,
    RSpawned, WSpawned, Idle, map[], None,
    Log(0, [], [], [], [], [], [], 0, [], [], 0))

  // ---- locks, as far as they are held from one step to the next

  predicate CtlHoldsBus(c: CtlPc) {
    c.StartReader? || c.StartWriter? || c.StartOpen? || c.StartDone? || c.WriterStop? || c.WriterOffer? || c.WriterWait?
  }

  predicate CtlHoldsDriver(c: CtlPc) {
    c.CloseOffer? || c.CloseHal? || c.CloseSet?
  }

  predicate ReaderHoldsDriver(r: ReaderPc) {
    r.RFlushTest? || r.RFlushWait? || r.RFlushPop? || r.RFlushFree?
  }

  predicate DriverFree(s: State) {
    !CtlHoldsDriver(s.ctl) && !ReaderHoldsDriver(s.reader)
  }

  // ---- the reader thread

  predicate ReaderCan(s: State) {
    match s.reader
    case RCheck | RNull => DriverFree(s)
    case RWait | RFlushWait => s.rq != []
    case RDispatch(_) => !CtlHoldsBus(s.ctl)
    case RGone => false
    case _ => true
  }

  /** `poll` under the queue mutex, read side; an empty queue would yield the default value, NULL. */
  function Front(q: seq<Elem>): Elem {
    if q == [] then Null else q[0]
  }

  /** `delete`, which does nothing to NULL. */
  function Free(log: Log, e: Elem): Log {
    if e.Ptr? then log.(freed := log.freed + [e.id]) else log
  }

  function Consume(log: Log, e: Elem, f: Fate): Log {
    log.(consumed := log.consumed + [Fated(e, f)])
  }

  function Finish(log: Log, e: Elem, f: Fate): Log {
    log.(finished := log.finished + [Fated(e, f)])
  }

  /** The end of a frame that is thrown away unused; throwing away NULL is no event. */
  function Flush(log: Log, e: Elem): Log {
    if e.Ptr? then Consume(Free(log, e), e, Flushed) else log
  }

  function Drain(log: Log, e: Elem): Log {
    if e.Ptr? then Finish(Free(log, e), e, Drained(log.sessions)) else log
  }

  function CallHalBy(log: Log, c: Hal.Call, who: Caller): Log {
    log.(hal := log.hal + [c], callers := log.callers + [who])
  }

  function CallHal(log: Log, c: Hal.Call): Log {
    CallHalBy(log, c, Lifecycle)
  }

  function ReaderStep(s: State): (s': State)
    requires ReaderCan(s)
    ensures s' == s.(rq := s'.rq, rPhase := s'.rPhase, reader := s'.reader, log := s'.log)
    ensures s'.log == s.log.(freed := s'.log.freed, consumed := s'.log.consumed)
  {
    match s.reader
    case RSpawned => s.(rPhase := Entered(s.rPhase), reader := RTest)
    case RTest => s.(reader := if s.rPhase == Running then RCheck else RExit)
    case RCheck => s.(reader := if s.status == Opened then RWait else RTest)
    case RWait => s.(reader := RPop)
    case RPop =>
      var e := Front(s.rq);
      s.(rq := Taken(s.rq), reader := if e.Ptr? then RCopy(e) else RNull)
    case RCopy(e) => s.(log := Free(s.log, e), reader := RDispatch(e))
    case RDispatch(e) => s.(log := Consume(s.log, e, Dispatched), reader := RTest)
    case RNull => s.(reader := if s.status == Opened then RWait else RFlushTest)
    case RFlushTest => s.(reader := if s.rq != [] then RFlushWait else RTest)
    case RFlushWait => s.(reader := RFlushPop)
    case RFlushPop => s.(rq := Taken(s.rq), reader := RFlushFree(Front(s.rq)))
    case RFlushFree(e) => s.(log := Flush(s.log, e), reader := RFlushTest)
    case RExit => s.(rPhase := Stopped, reader := RGone)
  }

  // ---- the writer thread

  predicate WriterCan(s: State) {
    match s.writer
    case WWait | WDrainWait => s.wq != []
    case WWrite(_) => DriverFree(s)
    case WGone => false
    case _ => true
  }

  /** The calls that DriverImpl refuses unless it is open. */
  function HalIfOpen(s: State, c: Hal.Call, who: Caller): Log {
    if s.status == Opened then CallHalBy(s.log, c, who) else s.log
  }

  function WriterStep(s: State): (s': State)
    requires WriterCan(s)
    ensures s' == s.(wq := s'.wq, wPhase := s'.wPhase, writer := s'.writer, log := s'.log)
    ensures s'.log == s.log.(freed := s'.log.freed, finished := s'.log.finished, hal := s'.log.hal, callers := s'.log.callers,
                               sessions := s'.log.sessions)
  {
    match s.writer
    case WSpawned =>
      s.(wPhase := Entered(s.wPhase), writer := WWait, log := s.log.(sessions := s.log.sessions + 1))
    case WWait => s.(writer := WPop)
    case WPop =>
      var e := Front(s.wq);
      s.(wq := Taken(s.wq), writer := if e.Ptr? then WWrite(e) else WFree(e))
    case WWrite(e) =>
      // Whatever the HAL answers, and even when the driver is not open, the frame is done with.
      var log := if e.Ptr? then HalIfOpen(s, Hal.Transmit(e.bytes), Writer) else s.log;
      s.(log := Finish(log, e, Written(log.sessions, s.status == Opened)), writer := WFree(e))
    case WFree(e) => s.(log := Free(s.log, e), writer := WTest)
    case WTest => s.(writer := if s.wPhase == Running then WWait else WDrainTest)
    case WDrainTest => s.(writer := if s.wq != [] then WDrainWait else WExit)
    case WDrainWait => s.(writer := WDrainPop)
    case WDrainPop => s.(wq := Taken(s.wq), writer := WDrainFree(Front(s.wq)))
    case WDrainFree(e) => s.(log := Drain(s.log, e), writer := WDrainTest)
    case WExit => s.(wPhase := Stopped, writer := WGone)
  }

  // ---- the thread inside LibCCEC::init or term; `choice` picks the call, or whether the HAL reports success

  predicate CtlCan(s: State) {
    match s.ctl
    case InitOpen | StartOpen | CloseEnter(_) => DriverFree(s)
    case StartLock | StopLock | WriterLock => s.sender.None?
    case ReaderWait => s.rPhase == Stopped
    case WriterWait => s.wPhase == Stopped
    case _ => true
  }

  function AfterClose(site: Site): CtlPc {
    match site
    case InReaderStop => ReaderWait
    case InBusStop => CloseEnter(InTerm)
    case InTerm => TermDone
  }

  /** DriverImpl::open, then on to `next`; a HAL failure is thrown out of init. */
  function OpenDriver(s: State, ok: bool, next: CtlPc): State {
    if s.status != Closed then s.(ctl := next)
    else if ok then s.(log := CallHal(s.log, Hal.Open(true)), status := Opened, ctl := next)
    else s.(log := CallHal(s.log, Hal.Open(false)), ctl := Idle)
  }

  predicate InInit(c: CtlPc) {
    c.InitOpen? || c.StartLock? || c.StartReader? || c.StartWriter? || c.StartOpen? || c.StartDone? || c.InitDone?
  }

  predicate InClose(c: CtlPc) {
    c.CloseEnter? || c.CloseOffer? || c.CloseHal? || c.CloseSet?
  }

  /** LibCCEC::init past its check, with Bus::start inlined. */
  function InitStep(s: State, choice: bool): (s': State)
    requires InInit(s.ctl) && CtlCan(s)
    ensures s' == s.(status := s'.status, started := s'.started, initialized := s'.initialized, reader := s'.reader,
                     writer := s'.writer, ctl := s'.ctl, log := s'.log)
    ensures s'.log == s.log.(hal := s'.log.hal, callers := s'.log.callers)
  {
    match s.ctl
    case InitOpen => OpenDriver(s, choice, StartLock)
    case StartLock => s.(ctl := StartReader)
    case StartReader => (if s.rPhase == Stopped then s.(reader := RSpawned) else s).(ctl := StartWriter)
    case StartWriter => (if s.wPhase == Stopped then s.(writer := WSpawned) else s).(ctl := StartOpen)
    case StartOpen => OpenDriver(s, choice, StartDone)
    case StartDone => s.(started := true, ctl := InitDone)
    case InitDone => s.(initialized := true, ctl := Idle)
  }

  /** DriverImpl::close, and where its caller goes on. */
  function CloseStep(s: State, choice: bool): (s': State)
    requires InClose(s.ctl) && CtlCan(s)
    ensures s' == s.(status := s'.status, rq := s'.rq, ctl := s'.ctl, log := s'.log)
    ensures s'.log == s.log.(hal := s'.log.hal, callers := s'.log.callers)
  {
    match s.ctl
    case CloseEnter(site) =>
      if s.status != Opened then s.(ctl := AfterClose(site))
      else s.(status := Closing, ctl := CloseOffer(site))
    case CloseOffer(site) => s.(rq := Offered(s.rq, CAPACITY, Null), ctl := CloseHal(site))
    case CloseHal(site) => s.(log := CallHal(s.log, Hal.Close(choice)), ctl := CloseSet(site, choice))
    case CloseSet(site, ok) =>
      // Only Reader::stop catches the exception of a failed close.
      s.(status := Closed, ctl := if ok || site == InReaderStop then AfterClose(site) else Idle)
  }

  /** LibCCEC::term past its check, with Bus::stop and the two worker stops inlined. */
  function TermStep(s: State): (s': State)
    requires !s.ctl.Idle? && !InInit(s.ctl) && !InClose(s.ctl) && CtlCan(s)
    ensures s' == s.(wq := s'.wq, started := s'.started, rPhase := s'.rPhase, wPhase := s'.wPhase,
                     initialized := s'.initialized, ctl := s'.ctl, log := s'.log)
    ensures s'.log == s.log.(terms := s'.log.terms)
  {
    match s.ctl
    case StopLock => s.(started := false, ctl := ReaderStop)
    case ReaderStop => s.(rPhase := StopRequested(s.rPhase), ctl := CloseEnter(InReaderStop))
    case ReaderWait => s.(ctl := WriterLock)
    case WriterLock => s.(ctl := WriterStop)
    case WriterStop =>
      if s.wPhase == Running then s.(wPhase := StopRequested(s.wPhase), ctl := WriterOffer)
      else s.(ctl := WriterWait)
    case WriterOffer => s.(wq := Offered(s.wq, CAPACITY, Null), ctl := WriterWait)
    case WriterWait => s.(ctl := CloseEnter(InBusStop))
    case TermDone => s.(initialized := false, log := s.log.(terms := s.log.terms + 1), ctl := Idle)
  }

  /** From Idle, init is refused while initialized and term is refused otherwise. */
  function CtlStep(s: State, choice: bool): State
    requires CtlCan(s)
  {
    if s.ctl.Idle? then
      if choice == s.initialized then s else s.(ctl := if choice then InitOpen else StopLock)
    else if InInit(s.ctl) then InitStep(s, choice)
    else if InClose(s.ctl) then CloseStep(s, choice)
    else TermStep(s)
  }

  // ---- everybody else

  datatype Action =
    | ReaderRuns
    | WriterRuns
    | CtlRuns(choice: bool)
    /** the callback allocates a frame and passes or fails the unlocked status check */
    | Receive(bytes: Bytes)
    /** the callback offers the frame it still holds */
    | Deliver(id: nat)
    /** sendAsync takes wMutex, checks `started` and copies the frame */
    | SendBegin(bytes: Bytes)
    /** sendAsync offers the copy and releases wMutex */
    | SendOffer
    /** any other call of DriverImpl::write or writeAsync */
    | SendNow(bytes: Bytes)
    | AddAddress(address: Byte)
    | RemoveAddress(address: Byte)

  predicate Can(s: State, a: Action) {
    match a
    case ReaderRuns => ReaderCan(s)
    case WriterRuns => WriterCan(s)
    case CtlRuns(_) => CtlCan(s)
    case Receive(bytes) => ValidFrame(bytes)
    case Deliver(id) => id in s.inflight
    case SendBegin(bytes) => ValidFrame(bytes) && !CtlHoldsBus(s.ctl) && s.sender.None? && s.started
    case SendOffer => s.sender.Some?
    case SendNow(bytes) => ValidFrame(bytes) && DriverFree(s)
    case AddAddress(_) | RemoveAddress(_) => DriverFree(s)
  }

  function Received(s: State, bytes: Bytes): State {
    var id, log := s.log.made, s.log.(made := s.log.made + 1);
    if s.status == Opened then s.(inflight := s.inflight[id := bytes], log := log)
    else s.(log := Free(log, Ptr(id, bytes)))
  }

  function Delivered(s: State, id: nat): State
    requires id in s.inflight
  {
    var e, rest := Ptr(id, s.inflight[id]), s.inflight - {id};
    if |s.rq| == CAPACITY then s.(inflight := rest, log := Free(s.log, e))
    else s.(inflight := rest, rq := Offered(s.rq, CAPACITY, e), log := s.log.(received := s.log.received + [e]))
  }

  function SendStarted(s: State, bytes: Bytes): State {
    var log := s.log.(made := s.log.made + 1, copies := s.log.copies + [s.log.made]);
    s.(sender := Some(Ptr(s.log.made, bytes)), log := log)
  }

  function SendFinished(s: State): State
    requires s.sender.Some?
  {
    var e := s.sender.value;
    if |s.wq| == CAPACITY then s.(sender := None, log := Free(s.log, e))
    else s.(sender := None, wq := Offered(s.wq, CAPACITY, e), log := s.log.(sent := s.log.sent + [e]))
  }

  predicate IsWorker(a: Action) {
    a.ReaderRuns? || a.WriterRuns? || a.CtlRuns?
  }

  function OtherStep(s: State, a: Action): (s': State)
    requires Can(s, a) && !IsWorker(a)
    ensures s' == s.(rq := s'.rq, wq := s'.wq, inflight := s'.inflight, sender := s'.sender, log := s'.log)
  {
    match a
    case Receive(bytes) => Received(s, bytes)
    case Deliver(id) => Delivered(s, id)
    case SendBegin(bytes) => SendStarted(s, bytes)
    case SendOffer => SendFinished(s)
    case SendNow(bytes) => s.(log := HalIfOpen(s, Hal.Transmit(bytes), Application))
    case AddAddress(address) => s.(log := HalIfOpen(s, Hal.AddAddress(address), Application))
    case RemoveAddress(address) => s.(log := HalIfOpen(s, Hal.RemoveAddress(address), Application))
  }

  /** The next state; an action that cannot be taken changes nothing. */
  function Do(s: State, a: Action): State {
    if !Can(s, a) then s
    else if a.ReaderRuns? then ReaderStep(s)
    else if a.WriterRuns? then WriterStep(s)
    else if a.CtlRuns? then CtlStep(s, a.choice)
    else OtherStep(s, a)
  }

  function RunFrom(s: State, acts: seq<Action>): State {
    if acts == [] then s else Do(RunFrom(s, acts[..|acts| - 1]), acts[|acts| - 1])
  }

  function Run(acts: seq<Action>): State {
    RunFrom(INIT, acts)
  }

  /**
   * The one assumption about scheduling: a restarted thread reaches the top of its `run` before somebody asks it to
   * stop. Until then its state still says Stopped, and the request is lost.
   */
  predicate Settled(s: State, a: Action) {
    a.CtlRuns? ==>
      && (s.ctl.ReaderStop? ==> !(s.reader.RSpawned? && s.rPhase == Stopped))
      && (s.ctl.WriterStop? ==> !(s.writer.WSpawned? && s.wPhase == Stopped))
  }

  ghost predicate SettledFrom(s: State, acts: seq<Action>) {
    forall i :: 0 <= i < |acts| ==> Settled(RunFrom(s, acts[..i]), acts[i])
  }

  ghost predicate SettledRun(acts: seq<Action>) {
    SettledFrom(INIT, acts)
  }
}
