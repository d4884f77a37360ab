/**
 * The scheduling assumption cannot be dropped: settled runs in which init, term, init and term follow one another, up
 * to the point where the second term asks a restarted thread to stop that has not entered its loop, and how they go on.
 */
module EngineUnsettled {
  import opened EventQueues
  import opened Stoppables
  import opened Engine
  import opened EngineHistory
  import opened EngineTheorems
  import Hal

  lemma Extend(acts: seq<Action>, a: Action) returns (longer: seq<Action>)
    ensures Run(longer) == Do(Run(acts), a)
    ensures SettledRun(acts) && Settled(Run(acts), a) ==> SettledRun(longer)
  {
    longer := acts + [a];
    assert longer[..|acts|] == acts;
    if SettledRun(acts) && Settled(Run(acts), a) {
      forall i | 0 <= i < |longer| ensures Settled(RunFrom(INIT, longer[..i]), longer[i]) {
        assert i < |acts| ==> longer[..i] == acts[..i] && longer[i] == acts[i];
      }
    }
  }

  lemma InitRuns(acts: seq<Action>) returns (longer: seq<Action>)
    requires var s := Run(acts); InInit(s.ctl) && CtlCan(s)
    ensures Run(longer) == InitStep(Run(acts), true)
    ensures SettledRun(acts) ==> SettledRun(longer)
  {
    longer := Extend(acts, CtlRuns(true));
  }

  lemma CloseRuns(acts: seq<Action>) returns (longer: seq<Action>)
    requires var s := Run(acts); InClose(s.ctl) && CtlCan(s)
    ensures Run(longer) == CloseStep(Run(acts), true)
    ensures SettledRun(acts) ==> SettledRun(longer)
  {
    longer := Extend(acts, CtlRuns(true));
  }

  lemma TermRuns(acts: seq<Action>) returns (longer: seq<Action>)
    requires var s := Run(acts); !s.ctl.Idle? && !InInit(s.ctl) && !InClose(s.ctl) && CtlCan(s)
    ensures Run(longer) == TermStep(Run(acts))
    ensures SettledRun(acts) && Settled(Run(acts), CtlRuns(true)) ==> SettledRun(longer)
  {
    longer := Extend(acts, CtlRuns(true));
  }

  lemma ReaderMoves(acts: seq<Action>) returns (longer: seq<Action>)
    requires ReaderCan(Run(acts))
    ensures Run(longer) == ReaderStep(Run(acts))
    ensures SettledRun(acts) ==> SettledRun(longer)
  {
    longer := Extend(acts, ReaderRuns);
  }

  lemma WriterMoves(acts: seq<Action>) returns (longer: seq<Action>)
    requires WriterCan(Run(acts))
    ensures Run(longer) == WriterStep(Run(acts))
    ensures SettledRun(acts) ==> SettledRun(longer)
  {
    longer := Extend(acts, WriterRuns);
  }

  // ---- one call after another

  predicate Fresh(s: State) {
    && !s.initialized && s.ctl.Idle? && s.status == Closed && s.sender.None?
    && (if s.rPhase == Stopped then s.reader.RGone? else s.reader.RSpawned?)
    && (if s.wPhase == Stopped then s.writer.WGone? else s.writer.WSpawned?)
  }

  function AfterInit(s: State): State {
    s.(status := Opened, started := true, initialized := true, reader := RSpawned, writer := WSpawned,
       log := CallHal(s.log, Hal.Open(true)))
  }

  lemma InitOpens(acts: seq<Action>) returns (longer: seq<Action>)
    requires Fresh(Run(acts))
    ensures var s := Run(acts);
      Run(longer) == s.(status := Opened, log := CallHal(s.log, Hal.Open(true)), reader := RSpawned, ctl := StartWriter)
    ensures SettledRun(acts) ==> SettledRun(longer)
  {
    longer := Extend(acts, CtlRuns(true));
    longer := InitRuns(longer);
    var s := Run(acts).(status := Opened, log := CallHal(Run(acts).log, Hal.Open(true)));
    assert Run(longer) == s.(ctl := StartLock);
    longer := InitRuns(longer);
    longer := InitRuns(longer);
  }

  lemma InitCompletes(acts: seq<Action>) returns (longer: seq<Action>)
    requires Fresh(Run(acts))
    ensures Run(longer) == AfterInit(Run(acts))
    ensures SettledRun(acts) ==> SettledRun(longer)
  {
    longer := InitOpens(acts);
    var s := Run(longer);
    longer := InitRuns(longer);
    assert Run(longer) == s.(writer := WSpawned, ctl := StartOpen);
    longer := InitRuns(longer);
    longer := InitRuns(longer);
    longer := InitRuns(longer);
  }

  lemma TermBegins(acts: seq<Action>) returns (longer: seq<Action>)
    requires var s := Run(acts); s.initialized && s.ctl.Idle? && s.sender.None?
    ensures Run(longer) == Run(acts).(started := false, ctl := ReaderStop)
    ensures SettledRun(acts) ==> SettledRun(longer)
  {
    longer := Extend(acts, CtlRuns(false));
    longer := TermRuns(longer);
  }

  /** The reader's driver is closed under it, before or after it has been asked to stop. */
  lemma DriverCloses(acts: seq<Action>) returns (longer: seq<Action>)
    requires var s := Run(acts); s.ctl == CloseEnter(InReaderStop) && s.status == Opened && DriverFree(s)
    ensures var s := Run(acts);
      Run(longer) == s.(status := Closed, rq := Offered(s.rq, CAPACITY, Null),
                        log := CallHal(s.log, Hal.Close(true)), ctl := ReaderWait)
    ensures SettledRun(acts) ==> SettledRun(longer)
  {
    longer := CloseRuns(acts);
    longer := CloseRuns(longer);
    longer := CloseRuns(longer);
    longer := CloseRuns(longer);
  }

  lemma StopCloses(acts: seq<Action>) returns (longer: seq<Action>)
    requires var s := Run(acts); s.ctl.ReaderStop? && s.status == Opened && DriverFree(s)
    ensures var s, s' := Run(acts), Run(longer);
      && s'.ctl.ReaderWait? && s'.status == Closed && s'.reader == s.reader && s'.rPhase == StopRequested(s.rPhase)
      && s'.writer == s.writer && s'.wPhase == s.wPhase && s'.wq == s.wq && s'.sender == s.sender
      && s'.log.terms == s.log.terms && s'.initialized == s.initialized
    ensures SettledRun(acts) && Settled(Run(acts), CtlRuns(true)) ==> SettledRun(longer)
  {
    longer := TermRuns(acts);
    longer := DriverCloses(longer);
  }

  lemma ReaderExits(acts: seq<Action>) returns (longer: seq<Action>)
    requires var s := Run(acts); s.rPhase == Stopping && s.reader.RTest?
    ensures Run(longer) == Run(acts).(rPhase := Stopped, reader := RGone)
    ensures SettledRun(acts) ==> SettledRun(longer)
  {
    longer := ReaderMoves(acts);
    longer := ReaderMoves(longer);
  }

  /** A reader that stop has reached ends. */
  lemma ReaderEnds(acts: seq<Action>) returns (longer: seq<Action>)
    requires var s := Run(acts);
      s.ctl.ReaderWait? && s.rPhase == Stopping && (s.reader.RSpawned? || s.reader.RTest?)
    ensures Run(longer) == Run(acts).(rPhase := Stopped, reader := RGone, ctl := WriterLock)
    ensures SettledRun(acts) ==> SettledRun(longer)
  {
    longer := acts;
    if Run(acts).reader.RSpawned? {
      longer := ReaderMoves(longer);
    }
    longer := ReaderExits(longer);
    longer := TermRuns(longer);
  }

  lemma WriterTakesSentinel(acts: seq<Action>) returns (longer: seq<Action>)
    requires var s := Run(acts); s.writer.WSpawned? && s.wPhase == Stopping && s.wq == [Null]
    ensures var s := Run(acts);
      Run(longer) == s.(wq := [], writer := WTest, log := s.log.(sessions := s.log.sessions + 1))
    ensures SettledRun(acts) ==> SettledRun(longer)
  {
    longer := WriterMoves(acts);
    longer := WriterMoves(longer);
    longer := WriterMoves(longer);
    longer := WriterMoves(longer);
  }

  lemma WriterDrains(acts: seq<Action>) returns (longer: seq<Action>)
    requires var s := Run(acts); s.writer.WSpawned? && s.wPhase == Stopping && s.wq == [Null]
    ensures var s := Run(acts);
      Run(longer) == s.(wq := [], wPhase := Stopped, writer := WGone, log := s.log.(sessions := s.log.sessions + 1))
    ensures SettledRun(acts) ==> SettledRun(longer)
  {
    longer := WriterTakesSentinel(acts);
    longer := WriterMoves(longer);
    longer := WriterMoves(longer);
    longer := WriterMoves(longer);
  }

  lemma WriterIsAsked(acts: seq<Action>) returns (longer: seq<Action>)
    requires var s := Run(acts); s.ctl.WriterLock? && s.sender.None? && s.wPhase == Running && s.wq == []
    ensures Run(longer) == Run(acts).(wPhase := Stopping, wq := [Null], ctl := WriterWait)
    ensures SettledRun(acts) ==> SettledRun(longer)
  {
    longer := TermRuns(acts);
    var s := Run(longer);
    assert s == Run(acts).(ctl := WriterStop);
    longer := TermRuns(longer);
    assert Run(longer) == s.(wPhase := Stopping, ctl := WriterOffer);
    longer := TermRuns(longer);
  }

  lemma WriterEnds(acts: seq<Action>) returns (longer: seq<Action>)
    requires var s := Run(acts);
      s.ctl.WriterLock? && s.sender.None? && s.writer.WSpawned? && s.wPhase == Running && s.wq == []
    ensures var s := Run(acts);
      Run(longer) == s.(wPhase := Stopped, writer := WGone, log := s.log.(sessions := s.log.sessions + 1),
                        ctl := CloseEnter(InBusStop))
    ensures SettledRun(acts) ==> SettledRun(longer)
  {
    longer := WriterIsAsked(acts);
    longer := WriterDrains(longer);
    longer := TermRuns(longer);
  }

  /** The two closes of a driver that is closed already. */
  lemma ClosesFindNothing(acts: seq<Action>) returns (longer: seq<Action>)
    requires var s := Run(acts); s.ctl == CloseEnter(InBusStop) && s.status == Closed && DriverFree(s)
    ensures Run(longer) == Run(acts).(ctl := TermDone)
    ensures SettledRun(acts) ==> SettledRun(longer)
  {
    longer := CloseRuns(acts);
    assert Run(longer) == Run(acts).(ctl := CloseEnter(InTerm));
    longer := CloseRuns(longer);
  }

  lemma TermEnds(acts: seq<Action>) returns (longer: seq<Action>)
    requires var s := Run(acts); s.ctl == CloseEnter(InBusStop) && s.status == Closed && s.reader.RGone?
    ensures var s := Run(acts);
      Run(longer) == s.(initialized := false, ctl := Idle, log := s.log.(terms := s.log.terms + 1))
    ensures SettledRun(acts) ==> SettledRun(longer)
  {
    longer := ClosesFindNothing(acts);
    longer := TermRuns(longer);
  }

  /** Up again after init, term and init, with both threads spawned and neither in its `run`. */
  predicate Restarted(s: State) {
    && s.initialized && s.ctl.Idle? && s.status == Opened && s.sender.None?
    && s.reader.RSpawned? && s.rPhase == Stopped && s.writer.WSpawned? && s.wPhase == Stopped
  }

  lemma RestartedRunExists() returns (acts: seq<Action>)
    ensures SettledRun(acts) && Restarted(Run(acts))
  {
    acts := [];
    acts := InitCompletes(acts);
    acts := TermBegins(acts);
    acts := StopCloses(acts);
    acts := ReaderEnds(acts);
    acts := WriterEnds(acts);
    acts := TermEnds(acts);
    acts := InitCompletes(acts);
  }

  // ---- the reader is late

  predicate LateReader(s: State) {
    s.ctl.ReaderStop? && s.reader.RSpawned? && s.rPhase == Stopped && s.status == Opened && DriverFree(s)
  }

  lemma LateReaderExists() returns (acts: seq<Action>)
    ensures SettledRun(acts) && LateReader(Run(acts)) && !Settled(Run(acts), CtlRuns(true))
  {
    acts := RestartedRunExists();
    acts := TermBegins(acts);
  }

  /**
   * What can become of it. If the reader enters its loop only after Bus::stop has checked for it, stop goes on to the
   * writer with the reader alive; if it enters just before, stop waits for it for ever, whatever else happens.
   */
  lemma LateReaderFails() returns (missed: seq<Action>, stuck: seq<Action>)
    ensures Run(missed).ctl.WriterLock? && InReaderLoop(Run(missed).reader) && Run(missed).rPhase == Running
    ensures forall more :: RunFrom(Run(stuck), more).ctl.ReaderWait?
  {
    var late := LateReaderExists();
    late := StopCloses(late);
    missed := TermRuns(late);
    missed := ReaderMoves(missed);
    stuck := ReaderMoves(late);
    assert Stuck(Run(stuck));
    forall more ensures RunFrom(Run(stuck), more).ctl.ReaderWait? {
      StuckForGood(Run(stuck), more);
    }
  }

  // ---- the writer is late

  predicate LateWriter(s: State) {
    s.ctl.WriterStop? && s.writer.WSpawned? && s.wPhase == Stopped
  }

  lemma LateWriterExists() returns (acts: seq<Action>)
    ensures SettledRun(acts) && LateWriter(Run(acts)) && !Settled(Run(acts), CtlRuns(true))
  {
    acts := RestartedRunExists();
    acts := ReaderMoves(acts);
    acts := TermBegins(acts);
    acts := StopCloses(acts);
    acts := ReaderEnds(acts);
    acts := TermRuns(acts);
  }

  /**
   * If the writer enters its loop only after Bus::stop has checked for it, stop goes on to its end with the writer
   * alive; if it enters just before, stop waits for it for ever, with both bus mutexes held.
   */
  lemma LateWriterFails() returns (missed: seq<Action>, stuck: seq<Action>)
    ensures Run(missed).ctl == CloseEnter(InBusStop) && InWriterLoop(Run(missed).writer) && Run(missed).wPhase == Running
    ensures forall more :: var c := RunFrom(Run(stuck), more).ctl; c.WriterWait? && CtlHoldsBus(c)
  {
    var late := LateWriterExists();
    late := TermRuns(late);
    missed := TermRuns(late);
    missed := WriterMoves(missed);
    stuck := WriterMoves(late);
    assert Stuck(Run(stuck));
    forall more ensures RunFrom(Run(stuck), more).ctl.WriterWait? {
      StuckForGood(Run(stuck), more);
    }
  }
}
