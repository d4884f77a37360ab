/** What holds in every state of every run of the engine. */
module EngineTheorems {
  import opened Base
  import opened Stoppables
  import opened Engine
  import opened EngineInv
  import opened EngineHistory
  import Hal

  ghost predicate Good(s: State) {
    Shape(s) && Ownership(s) && Order(s) && HalTrace(s) && Phased(s) && CopiesApart(s) && WriterCalls(s)
  }

  lemma InitIsGood()
    ensures Good(INIT)
  {
  }

  lemma StepKeepsGood(s: State, a: Action)
    requires Good(s) && Settled(s, a)
    ensures Good(Do(s, a))
  {
    StepKeepsShape(s, a);
    StepKeepsOwnership(s, a);
    StepKeepsOrder(s, a);
    StepKeepsHalTrace(s, a);
    StepKeepsPhased(s, a);
    StepKeepsApart(s, a);
    StepKeepsCalls(s, a);
  }

  lemma SettledPrefix(s: State, acts: seq<Action>)
    requires acts != [] && SettledFrom(s, acts)
    ensures SettledFrom(s, acts[..|acts| - 1]) && Settled(RunFrom(s, acts[..|acts| - 1]), acts[|acts| - 1])
  {
    var before := acts[..|acts| - 1];
    forall i | 0 <= i < |before| ensures Settled(RunFrom(s, before[..i]), before[i]) {
      assert before[..i] == acts[..i];
    }
  }

  lemma {:induction false} RunFromKeepsGood(s: State, acts: seq<Action>)
    requires Good(s) && SettledFrom(s, acts)
    ensures Good(RunFrom(s, acts))
  {
    if acts != [] {
      SettledPrefix(s, acts);
      RunFromKeepsGood(s, acts[..|acts| - 1]);
      StepKeepsGood(RunFrom(s, acts[..|acts| - 1]), acts[|acts| - 1]);
    }
  }

  lemma RunIsGood(acts: seq<Action>)
    requires SettledRun(acts)
    ensures Good(Run(acts))
  {
    InitIsGood();
    RunFromKeepsGood(INIT, acts);
  }

  /**
   * No lost wakeup on the read side. A reader that waits while the driver is not open has something to wake up for,
   * or the close that will provide it is still under way; this includes the close whose sentinel found the queue
   * full. And where it polls without looking at the queue first, it cannot block.
   */
  lemma ReaderIsWoken(acts: seq<Action>)
    requires SettledRun(acts)
    ensures var s := Run(acts);
      && (s.reader.RWait? && s.status != Opened ==> s.rq != [] || s.ctl.CloseOffer?)
      && (s.reader.RPop? || s.reader.RFlushWait? || s.reader.RFlushPop? ==> s.rq != [])
  {
    RunIsGood(acts);
  }

  /** No lost wakeup on the write side: a writer asked to stop finds something to poll, or its sentinel is on the way. */
  lemma WriterIsWoken(acts: seq<Action>)
    requires SettledRun(acts)
    ensures var s := Run(acts);
      && (s.writer.WWait? && s.wPhase != Running ==> s.wq != [] || s.ctl.WriterOffer?)
      && (s.writer.WPop? || s.writer.WDrainWait? || s.writer.WDrainPop? ==> s.wq != [])
  {
    RunIsGood(acts);
  }

  /**
   * Every frame allocated is held in exactly one place until it is freed, and is freed at most once. A frame dropped
   * without being freed would be in no place at all.
   */
  lemma FreedExactlyOnce(acts: seq<Action>, id: nat)
    requires SettledRun(acts)
    ensures var s := Run(acts);
      && ReadSide(s, id) + WriteSide(s, id) + Is(SenderOwns(s), id) + (if id in s.inflight then 1 else 0)
         + Count(s.log.freed, id) == if id < s.log.made then 1 else 0
  {
    RunIsGood(acts);
    assert Places(Run(acts), id) == if id < Run(acts).log.made then 1 else 0;
  }

  /**
   * Once term has seen the writer stop, the transmit queue holds no frame and at most one stale sentinel. Every frame
   * sendAsync ever accepted has been written or drained, in the order of acceptance; and every copy it ever made, of a
   * frame that was refused too, has been freed exactly once.
   */
  lemma WriterLeavesNothingBehind(acts: seq<Action>)
    requires SettledRun(acts)
    requires var s := Run(acts); WriterJoined(s.ctl) || (s.ctl.Idle? && !s.initialized && s.log.terms > 0)
    ensures var s := Run(acts);
      && (s.wq == [] || s.wq == [Null])
      && s.log.sent == Elems(s.log.finished)
      && (forall e :: e in s.log.sent ==> e.Ptr? && Count(s.log.freed, e.id) == 1)
      && (forall id :: id in s.log.copies ==> Count(s.log.freed, id) == 1)
  {
    RunIsGood(acts);
    var s := Run(acts);
    assert s.writer.WGone? && s.sender.None?;
    AcceptedAreFreed(s);
    CopiesAreFreed(s);
  }

  lemma AcceptedAreFreed(s: State)
    requires Emptied(s) && Ownership(s) && Order(s) && s.writer.WGone? && !s.ctl.WriterOffer?
    ensures (s.wq == [] || s.wq == [Null]) && s.log.sent == Elems(s.log.finished)
    ensures forall e :: e in s.log.sent ==> e.Ptr? && Count(s.log.freed, e.id) == 1
  {
    assert Real([Null]) == [] && Real(s.wq) == [];
    forall e | e in s.log.sent ensures Count(s.log.freed, e.id) == 1 {
      ElemsMember(s.log.finished, e);
      assert Places(s, e.id) <= 1;
    }
  }

  lemma CopiesAreFreed(s: State)
    requires Ownership(s) && CopiesApart(s) && s.writer.WGone? && s.sender.None? && (s.wq == [] || s.wq == [Null])
    ensures forall id :: id in s.log.copies ==> Count(s.log.freed, id) == 1
  {
    forall id | id in s.log.copies ensures Count(s.log.freed, id) == 1 {
      assert [Null][1..] == [] && Times([Null], id) == 0;
      assert WriteSide(s, id) == 0;
      assert Places(s, id) == 1;
    }
  }

  /**
   * The receive path loses, duplicates and reorders nothing: what the callback got into the queue, in order, is what
   * was dispatched or flushed, then what the reader has in hand, then what is queued. Everything dispatched is a
   * frame of 1 to 128 bytes: neither what the reader is about to dispatch nor what it has dispatched is a sentinel.
   */
  lemma ReceivedInOrder(acts: seq<Action>)
    requires SettledRun(acts)
    ensures var s := Run(acts);
      && s.log.received == Elems(s.log.consumed) + Real([ReaderHolds(s.reader)]) + Real(s.rq)
      && Distinct(s.log.received)
      && (forall f :: f in s.log.consumed ==> f.elem.Ptr? && ValidFrame(f.elem.bytes))
      && (s.reader.RCopy? || s.reader.RDispatch? ==> s.reader.got.Ptr? && ValidFrame(s.reader.got.bytes))
  {
    RunIsGood(acts);
    var s := Run(acts);
    forall f | f in s.log.consumed ensures f.elem.Ptr? && ValidFrame(f.elem.bytes) {
      var i :| 0 <= i < |s.log.consumed| && s.log.consumed[i] == f;
      assert Elems(s.log.consumed)[i] == f.elem && f.elem in s.log.received;
    }
    if s.reader.RCopy? || s.reader.RDispatch? {
      assert Real([s.reader.got]) == [s.reader.got];
      assert s.reader.got in s.log.received;
    }
  }

  /**
   * sendAsync is FIFO with at most one attempt per frame: what it accepted, in order, is what was written or drained,
   * then what the writer has in hand, then what is queued; write failures and stale sentinels change nothing in that.
   * Within one session of the writer everything it wrote comes before everything it drained, and only frames go to
   * the driver.
   */
  lemma SentInOrder(acts: seq<Action>)
    requires SettledRun(acts)
    ensures var s := Run(acts);
      && s.log.sent == Elems(s.log.finished) + Real([WriterHolds(s.writer)]) + Real(s.wq)
      && Distinct(s.log.sent)
      && (forall f :: f in s.log.finished ==> f.elem.Ptr? && OfWriter(f.fate))
      && (forall i, j :: 0 <= i < j < |s.log.finished| ==> InTurn(s.log.finished[i].fate, s.log.finished[j].fate))
      && (s.writer.WWrite? ==> s.writer.got.Ptr?)
  {
    RunIsGood(acts);
  }

  /**
   * A frame counts as written only when it has been transmitted: the HAL calls that the writer makes are, in order,
   * exactly the transmissions of the frames it wrote while the driver was open.
   */
  lemma WrittenIsTransmitted(acts: seq<Action>)
    requires SettledRun(acts)
    ensures var log := Run(acts).log;
      |log.callers| == |log.hal| && CallsBy(log.hal, log.callers, Writer) == Transmissions(log.finished)
  {
    RunIsGood(acts);
  }

  /** The HAL sees opens and closes alternate, and everything else strictly between an open and its close. */
  lemma HalIsUsedProperly(acts: seq<Action>)
    requires SettledRun(acts)
    ensures Hal.Proper(Run(acts).log.hal)
  {
    RunIsGood(acts);
    Hal.ScanMeansProper(Run(acts).log.hal);
  }

  /**
   * Between calls of init and term the library is either entirely up or entirely down, whatever the HAL answered;
   * once a term has completed, down includes both threads having ended.
   */
  lemma LifecycleAgrees(acts: seq<Action>)
    requires SettledRun(acts) && Run(acts).ctl.Idle?
    ensures var s := Run(acts);
      && (s.initialized <==> s.started) && (s.initialized <==> s.status == Opened)
      && (!s.initialized ==> s.status == Closed)
      && (s.log.terms > 0 && !s.initialized ==>
            s.reader.RGone? && s.writer.WGone? && s.rPhase == Stopped && s.wPhase == Stopped)
  {
    RunIsGood(acts);
  }

  // ---- why runs have to be settled

  ghost predicate StaysTerminating(s: State, acts: seq<Action>) {
    forall i :: 0 <= i <= |acts| ==> Terminating(RunFrom(s, acts[..i]).ctl)
  }

  /** Spawned but not in its loop yet, or running without having been asked to stop. */
  predicate Missed(s: State) {
    (s.reader.RSpawned? && s.rPhase != Stopping) || (s.rPhase == Running && !s.reader.RExit? && !s.reader.RGone?)
  }

  lemma ReaderKeepsMissed(s: State)
    requires Missed(s) && ReaderCan(s)
    ensures Missed(ReaderStep(s))
  {
  }

  lemma CloseLeadsOn(s: State, choice: bool)
    requires InClose(s.ctl) && CtlCan(s)
    ensures !CloseStep(s, choice).ctl.ReaderStop?
  {
  }

  lemma TermKeepsMissed(s: State)
    requires Missed(s) && Terminating(s.ctl) && !s.ctl.ReaderStop? && !InClose(s.ctl) && CtlCan(s)
    ensures Missed(TermStep(s)) && !TermStep(s).ctl.ReaderStop?
  {
    var s' := TermStep(s);
    assert s'.reader == s.reader && s'.rPhase == s.rPhase;
  }

  lemma CtlKeepsMissed(s: State, choice: bool)
    requires Missed(s) && CtlCan(s) && Terminating(s.ctl) && !s.ctl.ReaderStop?
    ensures Missed(CtlStep(s, choice)) && !CtlStep(s, choice).ctl.ReaderStop?
  {
    if InClose(s.ctl) {
      var s' := CloseStep(s, choice);
      assert s'.reader == s.reader && s'.rPhase == s.rPhase;
      CloseLeadsOn(s, choice);
    } else {
      TermKeepsMissed(s);
    }
  }

  lemma StepKeepsMissed(s: State, a: Action)
    requires Missed(s) && Terminating(s.ctl) && !s.ctl.ReaderStop?
    ensures Missed(Do(s, a)) && !Do(s, a).ctl.ReaderStop?
  {
    if Can(s, a) {
      if a.ReaderRuns? {
        ReaderKeepsMissed(s);
      } else if a.CtlRuns? {
        CtlKeepsMissed(s, a.choice);
      } else {
        assert Do(s, a).reader == s.reader && Do(s, a).rPhase == s.rPhase && Do(s, a).ctl == s.ctl;
      }
    }
  }

  lemma {:induction false} MissedForGood(s: State, acts: seq<Action>)
    requires Missed(s) && !s.ctl.ReaderStop? && StaysTerminating(s, acts)
    ensures Missed(RunFrom(s, acts)) && !RunFrom(s, acts).ctl.ReaderStop?
  {
    assert acts[..|acts|] == acts;
    if acts != [] {
      var before := acts[..|acts| - 1];
      forall i | 0 <= i <= |before| ensures Terminating(RunFrom(s, before[..i]).ctl) {
        assert before[..i] == acts[..i];
      }
      MissedForGood(s, before);
      assert Terminating(RunFrom(s, before[..|before|]).ctl);
      assert before[..|before|] == before;
      StepKeepsMissed(RunFrom(s, before), acts[|acts| - 1]);
    }
  }

  /**
   * Exactly when Bus::stop gets rid of the reader: it has ended by the time stop goes on to the writer if and only if
   * it had entered its `run` when stop asked it to stop.
   */
  lemma StopEndsReaderIffSettled(acts: seq<Action>, choice: bool, more: seq<Action>)
    requires SettledRun(acts) && Run(acts).ctl.ReaderStop?
    requires var s := Do(Run(acts), CtlRuns(choice));
      SettledFrom(s, more) && StaysTerminating(s, more) && ReaderJoined(RunFrom(s, more).ctl)
    ensures RunFrom(Do(Run(acts), CtlRuns(choice)), more).reader.RGone? <==> Settled(Run(acts), CtlRuns(choice))
  {
    var s := Run(acts);
    RunIsGood(acts);
    if Settled(s, CtlRuns(choice)) {
      StepKeepsGood(s, CtlRuns(choice));
      RunFromKeepsGood(Do(s, CtlRuns(choice)), more);
    } else {
      MissedForGood(Do(s, CtlRuns(choice)), more);
    }
  }

  // ---- ... and the same for the writer

  /** Spawned but not in its loop yet, or in it without having been asked to stop. */
  predicate MissedWriter(s: State) {
    (s.writer.WSpawned? && s.wPhase != Stopping) || (InWriterLoop(s.writer) && s.wPhase == Running)
  }

  predicate PastWriterStop(c: CtlPc) {
    c.WriterWait? || WriterJoined(c)
  }

  lemma WriterKeepsMissed(s: State)
    requires MissedWriter(s) && WriterCan(s)
    ensures MissedWriter(WriterStep(s))
  {
  }

  lemma CtlKeepsWriterMissed(s: State, choice: bool)
    requires MissedWriter(s) && CtlCan(s) && PastWriterStop(s.ctl)
    ensures MissedWriter(CtlStep(s, choice))
    ensures Terminating(CtlStep(s, choice).ctl) ==> PastWriterStop(CtlStep(s, choice).ctl)
  {
    if InClose(s.ctl) {
      var s' := CloseStep(s, choice);
      assert s'.writer == s.writer && s'.wPhase == s.wPhase;
    } else {
      var s' := TermStep(s);
      assert s'.writer == s.writer && s'.wPhase == s.wPhase;
    }
  }

  lemma StepKeepsWriterMissed(s: State, a: Action)
    requires MissedWriter(s) && PastWriterStop(s.ctl)
    ensures MissedWriter(Do(s, a))
    ensures Terminating(Do(s, a).ctl) ==> PastWriterStop(Do(s, a).ctl)
  {
    if Can(s, a) {
      if a.WriterRuns? {
        WriterKeepsMissed(s);
      } else if a.CtlRuns? {
        CtlKeepsWriterMissed(s, a.choice);
      } else {
        assert Do(s, a).writer == s.writer && Do(s, a).wPhase == s.wPhase && Do(s, a).ctl == s.ctl;
      }
    }
  }

  lemma {:induction false} WriterMissedForGood(s: State, acts: seq<Action>)
    requires MissedWriter(s) && PastWriterStop(s.ctl) && StaysTerminating(s, acts)
    ensures MissedWriter(RunFrom(s, acts)) && PastWriterStop(RunFrom(s, acts).ctl)
  {
    assert acts[..|acts|] == acts;
    if acts != [] {
      var before := acts[..|acts| - 1];
      forall i | 0 <= i <= |before| ensures Terminating(RunFrom(s, before[..i]).ctl) {
        assert before[..i] == acts[..i];
      }
      WriterMissedForGood(s, before);
      StepKeepsWriterMissed(RunFrom(s, before), acts[|acts| - 1]);
      assert Terminating(RunFrom(s, acts[..|acts|]).ctl);
    }
  }

  /** Bus::stop gets past its wait for the writer with the writer gone if and only if it had entered its `run`. */
  lemma StopEndsWriterIffSettled(acts: seq<Action>, choice: bool, more: seq<Action>)
    requires SettledRun(acts) && Run(acts).ctl.WriterStop?
    requires var s := Do(Run(acts), CtlRuns(choice));
      SettledFrom(s, more) && StaysTerminating(s, more) && WriterJoined(RunFrom(s, more).ctl)
    ensures RunFrom(Do(Run(acts), CtlRuns(choice)), more).writer.WGone? <==> Settled(Run(acts), CtlRuns(choice))
  {
    var s := Run(acts);
    RunIsGood(acts);
    if Settled(s, CtlRuns(choice)) {
      StepKeepsGood(s, CtlRuns(choice));
      RunFromKeepsGood(Do(s, CtlRuns(choice)), more);
    } else {
      WriterMissedForGood(Do(s, CtlRuns(choice)), more);
    }
  }

  predicate InReaderLoop(r: ReaderPc) {
    !r.RSpawned? && !r.RExit? && !r.RGone?
  }

  /** A worker that has entered its loop unasked, with Bus::stop waiting for it. */
  predicate Stuck(s: State) {
    || (s.ctl.ReaderWait? && s.rPhase == Running && InReaderLoop(s.reader))
    || (s.ctl.WriterWait? && s.wPhase == Running && InWriterLoop(s.writer))
  }

  lemma StepKeepsStuck(s: State, a: Action)
    requires Stuck(s)
    ensures Stuck(Do(s, a)) && Do(s, a).ctl == s.ctl
  {
    if Can(s, a) {
      if a.WriterRuns? {
        assert WriterStep(s).rPhase == s.rPhase && WriterStep(s).reader == s.reader;
      } else if a.ReaderRuns? {
        assert ReaderStep(s).wPhase == s.wPhase && ReaderStep(s).writer == s.writer;
      } else {
        assert !a.CtlRuns?;
      }
    }
  }

  /** Then Bus::stop never returns, whatever anybody does. */
  lemma {:induction false} StuckForGood(s: State, acts: seq<Action>)
    requires Stuck(s)
    ensures Stuck(RunFrom(s, acts)) && RunFrom(s, acts).ctl == s.ctl
  {
    if acts != [] {
      StuckForGood(s, acts[..|acts| - 1]);
      StepKeepsStuck(RunFrom(s, acts[..|acts| - 1]), acts[|acts| - 1]);
    }
  }
}
