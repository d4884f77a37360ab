/** What every step of the engine keeps. */
module EngineInv {
  import opened Stoppables
  import opened Engine

  // ---- control: where the threads can be, given where init or term is

  predicate InStop(c: CtlPc, site: Site) {
    (c.CloseEnter? || c.CloseOffer? || c.CloseHal? || c.CloseSet?) && c.site == site
  }

  /** From the first critical section of Bus::stop to the end of term. */
  predicate Terminating(c: CtlPc) {
    c.ReaderStop? || InStop(c, InReaderStop) || c.ReaderWait? || ReaderJoined(c)
  }

  /** Past the wait for the reader thread. */
  predicate ReaderJoined(c: CtlPc) {
    c.WriterLock? || c.WriterStop? || c.WriterOffer? || c.WriterWait? || WriterJoined(c)
  }

  /** Past the wait for the writer thread. */
  predicate WriterJoined(c: CtlPc) {
    InStop(c, InBusStop) || InStop(c, InTerm) || c.TermDone?
  }

  predicate BeforeWriterStop(c: CtlPc) {
    c.ReaderStop? || InStop(c, InReaderStop) || c.ReaderWait? || c.WriterLock? || c.WriterStop?
  }

  predicate Starting(c: CtlPc) {
    c.StartLock? || c.StartReader? || c.StartWriter? || c.StartOpen? || c.StartDone?
  }

  /** Up and running, as far as init and term are concerned. */
  predicate Up(s: State) {
    s.ctl.InitDone? || s.ctl.StopLock? || (s.ctl.Idle? && s.initialized)
  }

  /** No session: before the driver is opened by init, after term. */
  predicate Down(s: State) {
    s.ctl.InitOpen? || (s.ctl.Idle? && !s.initialized)
  }

  predicate Lifecycle(s: State) {
    && (s.started <==> Up(s))
    && (s.status == Opened <==> Up(s) || Starting(s.ctl) || s.ctl.ReaderStop? || s.ctl == CloseEnter(InReaderStop))
    && (s.status == Closing <==> CtlHoldsDriver(s.ctl))
    && (s.ctl.CloseOffer? || s.ctl.CloseHal? || s.ctl.CloseSet? ==> s.ctl.site == InReaderStop)
    && (s.initialized <==> Terminating(s.ctl) || s.ctl.StopLock? || (s.ctl.Idle? && s.initialized))
  }

  predicate Exclusive(s: State) {
    && !(CtlHoldsDriver(s.ctl) && ReaderHoldsDriver(s.reader))
    && (s.sender.Some? ==> s.started && !CtlHoldsBus(s.ctl) && s.sender.value.Ptr?)
    && (ReaderHoldsDriver(s.reader) ==> s.status != Opened)
  }

  predicate ReaderPhase(s: State) {
    && (s.reader.RGone? ==> s.rPhase == Stopped)
    && (s.rPhase == Stopped ==> s.reader.RGone? || s.reader.RSpawned?)
    && (s.reader.RExit? ==> s.rPhase == Stopping)
    && (s.rPhase == Stopping ==> InStop(s.ctl, InReaderStop) || s.ctl.ReaderWait?)
    && (InStop(s.ctl, InReaderStop) || s.ctl.ReaderWait? ==> s.rPhase != Running && !(s.reader.RSpawned? && s.rPhase == Stopped))
    && (ReaderJoined(s.ctl) ==> s.reader.RGone?)
    && (Up(s) || s.ctl.ReaderStop? || s.ctl.StartWriter? || s.ctl.StartOpen? || s.ctl.StartDone? ==> !s.reader.RGone?)
    && (s.log.terms > 0 && (Down(s) || s.ctl.StartLock? || s.ctl.StartReader?) ==> s.reader.RGone?)
  }

  predicate WriterPhase(s: State) {
    && (s.writer.WGone? ==> s.wPhase == Stopped)
    && (s.wPhase == Stopped ==> s.writer.WGone? || s.writer.WSpawned?)
    && (s.writer.WExit? || s.writer.WDrainTest? || s.writer.WDrainWait? || s.writer.WDrainPop? || s.writer.WDrainFree? ==>
          s.wPhase == Stopping)
    && (s.wPhase == Stopping ==> s.ctl.WriterOffer? || s.ctl.WriterWait?)
    && (s.ctl.WriterOffer? || s.ctl.WriterWait? ==> s.wPhase != Running && !(s.writer.WSpawned? && s.wPhase == Stopped))
    && (WriterJoined(s.ctl) ==> s.writer.WGone?)
    && (Up(s) || s.ctl.StartOpen? || s.ctl.StartDone? || BeforeWriterStop(s.ctl) ==> !s.writer.WGone?)
    && (s.log.terms > 0 && (Down(s) || s.ctl.StartLock? || s.ctl.StartReader? || s.ctl.StartWriter?) ==> s.writer.WGone?)
  }

  /** What the threads dispatch and write is a frame, never a sentinel. */
  predicate Hands(s: State) {
    && (s.reader.RCopy? || s.reader.RDispatch? ==> s.reader.got.Ptr?)
    && (s.writer.WWrite? ==> s.writer.got.Ptr?)
  }

  predicate Control(s: State) {
    Lifecycle(s) && Exclusive(s) && ReaderPhase(s) && WriterPhase(s) && Hands(s)
  }

  // ---- wakeups

  /** The sentinel of a close is still to come. */
  predicate SentinelPending(s: State) {
    s.ctl.CloseOffer?
  }

  predicate Wakeups(s: State) {
    && (s.reader.RWait? && s.status != Opened ==> s.rq != [] || SentinelPending(s))
    && (s.reader.RPop? || s.reader.RFlushWait? || s.reader.RFlushPop? ==> s.rq != [])
    && ((s.writer.WWait? || s.writer.WSpawned?) && s.wPhase == Stopping ==> s.wq != [] || s.ctl.WriterOffer?)
    && (s.writer.WPop? || s.writer.WDrainWait? || s.writer.WDrainPop? ==> s.wq != [])
  }

  // ---- what the queues hold

  predicate Bounded(s: State) {
    |s.rq| <= CAPACITY && |s.wq| <= CAPACITY
  }

  /** A writer that is done leaves at most the sentinel that came too late for it. */
  predicate Emptied(s: State) {
    s.writer.WExit? || s.writer.WGone? ==> s.wq == if s.ctl.WriterOffer? then [] else if s.wq == [] then [] else [Null]
  }

  predicate Queues(s: State) {
    Wakeups(s) && Bounded(s) && Emptied(s)
  }

  predicate Shape(s: State) {
    Control(s) && Queues(s)
  }

  // ---- steps, thread by thread

  lemma ReaderKeepsLifecycle(s: State)
    requires Control(s) && ReaderCan(s)
    ensures Lifecycle(ReaderStep(s)) && Exclusive(ReaderStep(s))
  {
  }

  lemma WorkersKeepHands(s: State)
    requires Hands(s)
    ensures ReaderCan(s) ==> Hands(ReaderStep(s))
    ensures WriterCan(s) ==> Hands(WriterStep(s))
  {
  }

  lemma ReaderKeepsReaderPhase(s: State)
    requires Control(s) && ReaderCan(s)
    ensures ReaderPhase(ReaderStep(s))
  {
  }

  lemma ReaderKeepsWriterPhase(s: State)
    requires WriterPhase(s) && ReaderCan(s)
    ensures WriterPhase(ReaderStep(s))
  {
  }

  lemma WriterKeepsLifecycle(s: State)
    requires Control(s) && WriterCan(s)
    ensures Lifecycle(WriterStep(s)) && Exclusive(WriterStep(s))
  {
  }

  lemma WriterKeepsReaderPhase(s: State)
    requires ReaderPhase(s) && WriterCan(s)
    ensures ReaderPhase(WriterStep(s))
  {
  }

  lemma WriterKeepsWriterPhase(s: State)
    requires Control(s) && WriterCan(s)
    ensures WriterPhase(WriterStep(s))
  {
  }

  lemma InitKeepsLifecycle(s: State, choice: bool)
    requires Control(s) && InInit(s.ctl) && CtlCan(s)
    ensures Lifecycle(InitStep(s, choice)) && Exclusive(InitStep(s, choice)) && Hands(InitStep(s, choice))
  {
  }

  lemma InitKeepsPhases(s: State, choice: bool)
    requires Control(s) && InInit(s.ctl) && CtlCan(s)
    ensures ReaderPhase(InitStep(s, choice)) && WriterPhase(InitStep(s, choice))
  {
  }

  lemma CloseKeepsControl(s: State, choice: bool)
    requires Control(s) && InClose(s.ctl) && CtlCan(s)
    ensures Control(CloseStep(s, choice))
  {
  }

  lemma TermKeepsLifecycle(s: State)
    requires Control(s) && !s.ctl.Idle? && !InInit(s.ctl) && !InClose(s.ctl) && CtlCan(s)
    ensures Lifecycle(TermStep(s)) && Exclusive(TermStep(s)) && Hands(TermStep(s))
  {
  }

  lemma TermKeepsPhases(s: State)
    requires Control(s) && !s.ctl.Idle? && !InInit(s.ctl) && !InClose(s.ctl) && CtlCan(s) && Settled(s, CtlRuns(true))
    ensures ReaderPhase(TermStep(s)) && WriterPhase(TermStep(s))
  {
  }

  lemma CtlKeepsControl(s: State, choice: bool)
    requires Control(s) && CtlCan(s) && Settled(s, CtlRuns(choice))
    ensures Control(CtlStep(s, choice))
  {
    if InInit(s.ctl) {
      InitKeepsLifecycle(s, choice);
      InitKeepsPhases(s, choice);
    } else if InClose(s.ctl) {
      CloseKeepsControl(s, choice);
    } else if !s.ctl.Idle? {
      TermKeepsLifecycle(s);
      TermKeepsPhases(s);
    }
  }

  lemma OthersKeepControl(s: State, a: Action)
    requires Control(s) && Can(s, a) && !IsWorker(a)
    ensures Control(OtherStep(s, a))
  {
  }

  lemma StepKeepsControl(s: State, a: Action)
    requires Control(s) && Settled(s, a)
    ensures Control(Do(s, a))
  {
    WorkersKeepHands(s);
    if Can(s, a) {
      match a {
        case ReaderRuns => ReaderKeepsLifecycle(s); ReaderKeepsReaderPhase(s); ReaderKeepsWriterPhase(s);
        case WriterRuns => WriterKeepsLifecycle(s); WriterKeepsReaderPhase(s); WriterKeepsWriterPhase(s);
        case CtlRuns(choice) => CtlKeepsControl(s, choice);
        case _ => OthersKeepControl(s, a);
      }
    }
  }

  lemma ReaderKeepsQueues(s: State)
    requires Shape(s) && ReaderCan(s)
    ensures Queues(ReaderStep(s))
  {
  }

  lemma WriterKeepsQueues(s: State)
    requires Shape(s) && WriterCan(s)
    ensures Queues(WriterStep(s))
  {
  }

  lemma CtlKeepsQueues(s: State, choice: bool)
    requires Shape(s) && CtlCan(s)
    ensures Queues(CtlStep(s, choice))
  {
    if InInit(s.ctl) {
      assert Queues(InitStep(s, choice));
    } else if InClose(s.ctl) {
      assert Queues(CloseStep(s, choice));
    } else if !s.ctl.Idle? {
      assert Queues(TermStep(s));
    }
  }

  lemma OthersKeepQueues(s: State, a: Action)
    requires Shape(s) && Can(s, a) && !IsWorker(a)
    ensures Queues(OtherStep(s, a))
  {
  }

  lemma StepKeepsShape(s: State, a: Action)
    requires Shape(s) && Settled(s, a)
    ensures Shape(Do(s, a))
  {
    StepKeepsControl(s, a);
    if Can(s, a) {
      match a {
        case ReaderRuns => ReaderKeepsQueues(s);
        case WriterRuns => WriterKeepsQueues(s);
        case CtlRuns(choice) => CtlKeepsQueues(s, choice);
        case _ => OthersKeepQueues(s, a);
      }
    }
  }
}
