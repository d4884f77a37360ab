/**
 * The two worker threads do their work: while the library is up, every frame received is dispatched in the end, and
 * every frame accepted from a sender is written. Runs are infinite and weakly fair, as for shutdown.
 */
module EngineProgress {
  import opened Stoppables
  import opened EventQueues
  import opened Engine
  import opened EngineInv
  import opened EngineLiveness
  import opened FairProgress

  // ---- where a frame stands in a queue

  /** How many elements have to be taken before the first occurrence of `e`. */
  function Index(q: seq<Elem>, e: Elem): nat
    requires e in q
  {
    if q[0] == e then 0 else 1 + Index(q[1..], e)
  }

  lemma {:induction false} IndexAppend(q: seq<Elem>, more: seq<Elem>, e: Elem)
    requires e in q
    ensures Index(q + more, e) == Index(q, e)
  {
    assert (q + more)[0] == q[0];
    if q[0] != e {
      assert (q + more)[1..] == q[1..] + more;
      IndexAppend(q[1..], more, e);
    }
  }

  // ---- the reader

  /** A running reader on an open driver, with nobody inside Bus::start or Bus::stop. */
  predicate Serving(s: State) {
    s.rPhase == Running && s.status == Opened && !CtlHoldsBus(s.ctl)
  }

  predicate InReadersHand(s: State, e: Elem) {
    (s.reader.RCopy? || s.reader.RDispatch?) && s.reader.got == e
  }

  /** Received and neither dispatched nor flushed. */
  predicate Awaiting(s: State, e: Elem) {
    e.Ptr? && (InReadersHand(s, e) || e in s.rq)
  }

  ghost predicate IsDispatched(s: State, e: Elem) {
    Fated(e, Dispatched) in s.log.consumed
  }

  /** How many steps the reader is from taking the next element. */
  function StepsToPop(r: ReaderPc): nat {
    match r
    case RPop => 1
    case RWait => 2
    case RCheck => 3
    case RNull => 3
    case RTest => 4
    case RSpawned => 5
    case RDispatch(_) => 5
    case RCopy(_) => 6
    case _ => 0
  }

  function ReadDistance(s: State, e: Elem): nat {
    if InReadersHand(s, e) then if s.reader.RCopy? then 2 else 1
    else if e in s.rq then 7 * Index(s.rq, e) + StepsToPop(s.reader) + 2
    else 0
  }

  lemma ReaderIsReady(s: State, e: Elem)
    requires Shape(s) && Serving(s) && Awaiting(s, e)
    ensures ReaderCan(s)
    ensures !s.reader.RExit? && !s.reader.RGone? && !ReaderHoldsDriver(s.reader)
  {
  }

  lemma PoppingApproaches(s: State, e: Elem)
    requires s.reader.RPop? && e.Ptr? && e in s.rq
    ensures Awaiting(ReaderStep(s), e) && ReadDistance(ReaderStep(s), e) < ReadDistance(s, e)
  {
    if s.rq[0] != e {
      assert e in s.rq[1..];
    }
  }

  lemma ReaderApproaches(s: State, e: Elem)
    requires Shape(s) && Serving(s) && Awaiting(s, e)
    ensures ReaderCan(s)
    ensures var s' := ReaderStep(s);
      IsDispatched(s', e) || (Awaiting(s', e) && ReadDistance(s', e) < ReadDistance(s, e))
  {
    ReaderIsReady(s, e);
    var s' := ReaderStep(s);
    if s.reader.RPop? {
      PoppingApproaches(s, e);
    } else if s.reader.RDispatch? {
      assert s'.log.consumed == s.log.consumed + [Fated(s.reader.got, Dispatched)];
    } else {
      assert s'.rq == s.rq;
    }
  }

  lemma CtlKeepsReceived(s: State, choice: bool)
    requires Shape(s) && Serving(s) && CtlCan(s)
    ensures CtlStep(s, choice).rq == s.rq && CtlStep(s, choice).reader == s.reader
  {
  }

  /** Whatever the others do, the frame does not move back. */
  lemma OthersKeepReadDistance(s: State, a: Action, e: Elem)
    requires Shape(s) && Serving(s) && Awaiting(s, e) && !a.ReaderRuns?
    ensures var s' := Do(s, a); Awaiting(s', e) && ReadDistance(s', e) == ReadDistance(s, e)
  {
    if Can(s, a) {
      if a.CtlRuns? {
        CtlKeepsReceived(s, a.choice);
      } else if a.Deliver? && |s.rq| != CAPACITY {
        var more := [Ptr(a.id, s.inflight[a.id])];
        assert Do(s, a).rq == s.rq + more && Do(s, a).reader == s.reader;
        if e in s.rq {
          IndexAppend(s.rq, more, e);
        }
      } else {
        assert Do(s, a).rq == s.rq && Do(s, a).reader == s.reader;
      }
    }
  }

  // The run as seen by FairProgress.

  function DispatchedAt(at: nat -> State, e: Elem): nat -> bool {
    (i: nat) => Fated(e, Dispatched) in at(i).log.consumed
  }

  function AwaitingAt(at: nat -> State, n: nat, e: Elem): nat -> bool {
    (i: nat) => n <= i && Awaiting(at(i), e)
  }

  function ReadDistanceAt(at: nat -> State, e: Elem): nat -> (nat, nat) {
    (i: nat) => (ReadDistance(at(i), e), 0)
  }

  function Always(w: Worker): nat -> Worker {
    (i: nat) => w
  }

  lemma ReadingAdvances(at: nat -> State, act: nat -> Action, n: nat, e: Elem, i: nat)
    requires IsRun(at, act) && forall m: nat :: n <= m ==> Serving(at(m))
    ensures Advances(DispatchedAt(at, e), AwaitingAt(at, n, e), ReadDistanceAt(at, e), Always(TheReader), TurnAt(at, act), i)
  {
    AlwaysShaped(at, act, i);
    assert at(i + 1) == Do(at(i), act(i));
    if n <= i && Awaiting(at(i), e) {
      ReaderApproaches(at(i), e);
      if !act(i).ReaderRuns? {
        OthersKeepReadDistance(at(i), act(i), e);
      }
    }
  }

  lemma TurnsAreFair(at: nat -> State, act: nat -> Action)
    requires Fair(at, act)
    ensures FairTurns(TurnAt(at, act))
  {
    forall w, k: nat ensures TurnComes(TurnAt(at, act), w, k) {
      assert AttendedFrom(at, act, w, k);
      var m: nat :| k <= m && Attended(at(m), act(m), w);
      assert TurnAt(at, act)(w, m);
    }
  }

  /**
   * Nothing received is left lying: in every fair run in which from some time on the reader is running, the driver
   * stays open and nobody is inside Bus::start or Bus::stop, every frame queued then is dispatched at some later time.
   */
  lemma ReceivedIsDispatched(at: nat -> State, act: nat -> Action, n: nat, e: Elem)
    requires IsRun(at, act) && Fair(at, act)
    requires forall m: nat :: n <= m ==> Serving(at(m))
    requires e.Ptr? && e in at(n).rq
    ensures exists m: nat :: n < m && IsDispatched(at(m), e)
  {
    forall i: nat
      ensures Advances(DispatchedAt(at, e), AwaitingAt(at, n, e), ReadDistanceAt(at, e), Always(TheReader),
                       TurnAt(at, act), i)
    {
      ReadingAdvances(at, act, n, e, i);
    }
    TurnsAreFair(at, act);
    var m := GoalIsReached(
      DispatchedAt(at, e), AwaitingAt(at, n, e), ReadDistanceAt(at, e), Always(TheReader), TurnAt(at, act), n);
    assert IsDispatched(at(m), e);
  }

  // ---- the writer

  predicate Writing(s: State) {
    s.wPhase == Running && s.status == Opened
  }

  predicate InWritersHand(s: State, e: Elem) {
    s.writer.WWrite? && s.writer.got == e
  }

  /** Accepted from a sender and neither written nor drained. */
  predicate Unwritten(s: State, e: Elem) {
    e.Ptr? && (InWritersHand(s, e) || e in s.wq)
  }

  predicate IsWriting(e: Elem, f: Fated) {
    f.elem == e && f.fate.Written? && f.fate.open
  }

  /** Handed to an open driver. */
  predicate IsWritten(s: State, e: Elem) {
    exists f :: f in s.log.finished && IsWriting(e, f)
  }

  function StepsToTake(w: WriterPc): nat {
    match w
    case WPop => 1
    case WWait => 2
    case WTest => 3
    case WSpawned => 3
    case WFree(_) => 4
    case WWrite(_) => 5
    case _ => 0
  }

  function WriteDistance(s: State, e: Elem): nat {
    if InWritersHand(s, e) then 1
    else if e in s.wq then 6 * Index(s.wq, e) + StepsToTake(s.writer) + 1
    else 0
  }

  lemma WriterIsReady(s: State, e: Elem)
    requires Shape(s) && Writing(s) && Unwritten(s, e)
    ensures WriterCan(s)
    ensures s.writer.WSpawned? || s.writer.WWait? || s.writer.WPop? || s.writer.WWrite? || s.writer.WFree? || s.writer.WTest?
  {
  }

  lemma TakingApproaches(s: State, e: Elem)
    requires s.writer.WPop? && e.Ptr? && e in s.wq
    ensures Unwritten(WriterStep(s), e) && WriteDistance(WriterStep(s), e) < WriteDistance(s, e)
  {
    if s.wq[0] != e {
      assert e in s.wq[1..];
    }
  }

  lemma WriterApproaches(s: State, e: Elem)
    requires Shape(s) && Writing(s) && Unwritten(s, e)
    ensures WriterCan(s)
    ensures var s' := WriterStep(s);
      IsWritten(s', e) || (Unwritten(s', e) && WriteDistance(s', e) < WriteDistance(s, e))
  {
    WriterIsReady(s, e);
    var s' := WriterStep(s);
    if s.writer.WPop? {
      TakingApproaches(s, e);
    } else if s.writer.WWrite? {
      var f := Fated(s.writer.got, Written(s.log.sessions, true));
      assert s'.log.finished == s.log.finished + [f] && f in s'.log.finished;
      assert InWritersHand(s, e) ==> IsWriting(e, f);
    } else {
      assert s'.wq == s.wq;
    }
  }

  lemma CtlKeepsAccepted(s: State, choice: bool)
    requires Shape(s) && Writing(s) && CtlCan(s)
    ensures CtlStep(s, choice).wq == s.wq && CtlStep(s, choice).writer == s.writer
  {
  }

  lemma OthersKeepWriteDistance(s: State, a: Action, e: Elem)
    requires Shape(s) && Writing(s) && Unwritten(s, e) && !a.WriterRuns?
    ensures var s' := Do(s, a); Unwritten(s', e) && WriteDistance(s', e) == WriteDistance(s, e)
  {
    if Can(s, a) {
      if a.CtlRuns? {
        CtlKeepsAccepted(s, a.choice);
      } else if a.SendOffer? && |s.wq| != CAPACITY {
        var more := [s.sender.value];
        assert Do(s, a).wq == s.wq + more && Do(s, a).writer == s.writer;
        if e in s.wq {
          IndexAppend(s.wq, more, e);
        }
      } else {
        assert Do(s, a).wq == s.wq && Do(s, a).writer == s.writer;
      }
    }
  }

  function WrittenAt(at: nat -> State, e: Elem): nat -> bool {
    (i: nat) => IsWritten(at(i), e)
  }

  function UnwrittenAt(at: nat -> State, n: nat, e: Elem): nat -> bool {
    (i: nat) => n <= i && Unwritten(at(i), e)
  }

  function WriteDistanceAt(at: nat -> State, e: Elem): nat -> (nat, nat) {
    (i: nat) => (WriteDistance(at(i), e), 0)
  }

  lemma WritingAdvances(at: nat -> State, act: nat -> Action, n: nat, e: Elem, i: nat)
    requires IsRun(at, act) && forall m: nat :: n <= m ==> Writing(at(m))
    ensures Advances(WrittenAt(at, e), UnwrittenAt(at, n, e), WriteDistanceAt(at, e), Always(TheWriter), TurnAt(at, act), i)
  {
    AlwaysShaped(at, act, i);
    assert at(i + 1) == Do(at(i), act(i));
    if n <= i && Unwritten(at(i), e) {
      WriterApproaches(at(i), e);
      if !act(i).WriterRuns? {
        OthersKeepWriteDistance(at(i), act(i), e);
      }
    }
  }

  /**
   * Nothing accepted is left lying either: while the writer is running and the driver open, every frame queued for
   * transmission is handed to the open driver in the end.
   */
  lemma AcceptedIsWritten(at: nat -> State, act: nat -> Action, n: nat, e: Elem)
    requires IsRun(at, act) && Fair(at, act)
    requires forall m: nat :: n <= m ==> Writing(at(m))
    requires e.Ptr? && e in at(n).wq
    ensures exists m: nat :: n < m && IsWritten(at(m), e)
  {
    forall i: nat
      ensures Advances(WrittenAt(at, e), UnwrittenAt(at, n, e), WriteDistanceAt(at, e), Always(TheWriter),
                       TurnAt(at, act), i)
    {
      WritingAdvances(at, act, n, e, i);
    }
    TurnsAreFair(at, act);
    var m := GoalIsReached(
      WrittenAt(at, e), UnwrittenAt(at, n, e), WriteDistanceAt(at, e), Always(TheWriter), TurnAt(at, act), n);
    assert IsWritten(at(m), e);
  }
}
