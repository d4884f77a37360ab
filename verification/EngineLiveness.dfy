/**
 * Shutdown terminates. Runs are infinite here; each of the three long-lived threads is only asked not to be passed
 * over for ever while it can move. Callbacks and senders may do whatever they like.
 */
module EngineLiveness {
  import opened Stoppables
  import opened Engine
  import opened EngineInv
  import opened FairProgress

  /** An infinite run: the state at every time, and the action taken then. */
  ghost predicate IsRun(at: nat -> State, act: nat -> Action) {
    at(0) == INIT && forall n: nat :: at(n + 1) == Do(at(n), act(n)) && Settled(at(n), act(n))
  }

  datatype Worker = TheReader | TheWriter | TheCtl

  predicate CanMove(s: State, w: Worker) {
    match w
    case TheReader => ReaderCan(s)
    case TheWriter => WriterCan(s)
    case TheCtl => CtlCan(s)
  }

  predicate IsMoveOf(a: Action, w: Worker) {
    match w
    case TheReader => a.ReaderRuns?
    case TheWriter => a.WriterRuns?
    case TheCtl => a.CtlRuns?
  }

  /** The worker gets its turn, or could not move anyway. */
  predicate Attended(s: State, a: Action, w: Worker) {
    IsMoveOf(a, w) || !CanMove(s, w)
  }

  ghost predicate AttendedFrom(at: nat -> State, act: nat -> Action, w: Worker, n: nat) {
    exists m: nat :: n <= m && Attended(at(m), act(m), w)
  }

  /** Weak fairness: a worker that can move, and goes on being able to, is not passed over for ever. */
  ghost predicate Fair(at: nat -> State, act: nat -> Action) {
    forall w, n: nat :: AttendedFrom(at, act, w, n)
  }

  // ---- how far the shutdown still has to go

  /** Counts down along Bus::stop and the rest of term. */
  function Stage(c: CtlPc): nat {
    match c
    case ReaderStop => 14
    case CloseEnter(site) => if site == InReaderStop then 13 else if site == InBusStop then 4 else 3
    case CloseOffer(_) => 12
    case CloseHal(_) => 11
    case CloseSet(_, _) => 10
    case ReaderWait => 9
    case WriterLock => 8
    case WriterStop => 7
    case WriterOffer => 6
    case WriterWait => 5
    case TermDone => 2
    case _ => 0
  }

  function ReaderToGo(r: ReaderPc): nat {
    match r
    case RSpawned => 3
    case RTest => 2
    case RCheck => 3
    case RWait => 13
    case RPop => 12
    case RCopy(_) => 4
    case RDispatch(_) => 3
    case RNull => 9
    case RFlushTest => 8
    case RFlushWait => 7
    case RFlushPop => 6
    case RFlushFree(_) => 9
    case RExit => 1
    case RGone => 0
  }

  function WriterToGo(w: WriterPc): nat {
    match w
    case WSpawned => 11
    case WWait => 10
    case WPop => 9
    case WWrite(_) => 8
    case WFree(_) => 7
    case WTest => 6
    case WDrainTest => 5
    case WDrainWait => 4
    case WDrainPop => 3
    case WDrainFree(_) => 6
    case WExit => 1
    case WGone => 0
  }

  /** A frame in a callback weighs more than a queued one, so delivering it is progress too. */
  function Rank(s: State): nat {
    if s.ctl.ReaderWait? && s.rPhase != Stopped then ReaderToGo(s.reader) + 4 * |s.rq| + 5 * |s.inflight|
    else if s.ctl.WriterWait? && s.wPhase != Stopped then WriterToGo(s.writer) + 4 * |s.wq|
    else 0
  }

  /** Whose move brings the end nearer. */
  function Helper(s: State): Worker {
    if s.ctl.ReaderWait? && s.rPhase != Stopped then TheReader
    else if s.ctl.WriterWait? && s.wPhase != Stopped then TheWriter
    else TheCtl
  }

  /** term has completed, and neither thread is left. */
  predicate Ended(s: State) {
    s.ctl.Idle? && !s.initialized && s.status == Closed && s.reader.RGone? && s.writer.WGone?
  }

  predicate Nearer(s: State, s': State) {
    Ended(s') || (Terminating(s'.ctl) && (Stage(s'.ctl) < Stage(s.ctl) || (s'.ctl == s.ctl && Rank(s') < Rank(s))))
  }

  predicate NoFurther(s: State, s': State) {
    Nearer(s, s') || (s'.ctl == s.ctl && Rank(s') == Rank(s) && Helper(s') == Helper(s))
  }

  /** Nothing that anybody holds, and no empty queue, keeps the helper from moving. */
  lemma HelperCanMove(s: State)
    requires Shape(s) && Terminating(s.ctl)
    ensures CanMove(s, Helper(s))
  {
  }

  lemma ReaderComesNearer(s: State)
    requires Shape(s) && Terminating(s.ctl) && ReaderCan(s)
    ensures Helper(s) == TheReader ==> Nearer(s, ReaderStep(s))
    ensures NoFurther(s, ReaderStep(s))
  {
  }

  lemma WriterComesNearer(s: State)
    requires Shape(s) && Terminating(s.ctl) && WriterCan(s)
    ensures Helper(s) == TheWriter ==> Nearer(s, WriterStep(s))
    ensures NoFurther(s, WriterStep(s))
  {
  }

  lemma CtlComesNearer(s: State, choice: bool)
    requires Shape(s) && Terminating(s.ctl) && CtlCan(s)
    ensures Nearer(s, CtlStep(s, choice))
  {
  }

  lemma OthersDoNotInterfere(s: State, a: Action)
    requires Shape(s) && Terminating(s.ctl) && Can(s, a) && !IsWorker(a)
    ensures NoFurther(s, OtherStep(s, a))
  {
    if a.Deliver? {
      assert |s.inflight - {a.id}| == |s.inflight| - 1;
    }
  }

  lemma StepComesNearer(s: State, a: Action)
    requires Shape(s) && Terminating(s.ctl)
    ensures NoFurther(s, Do(s, a))
    ensures IsMoveOf(a, Helper(s)) ==> Nearer(s, Do(s, a))
  {
    HelperCanMove(s);
    if Can(s, a) {
      match a {
        case ReaderRuns => ReaderComesNearer(s);
        case WriterRuns => WriterComesNearer(s);
        case CtlRuns(choice) => CtlComesNearer(s, choice);
        case _ => OthersDoNotInterfere(s, a);
      }
    }
  }

  // ---- the argument over time

  lemma {:induction false} AlwaysShaped(at: nat -> State, act: nat -> Action, n: nat)
    requires IsRun(at, act)
    ensures Shape(at(n))
  {
    if n != 0 {
      AlwaysShaped(at, act, n - 1);
      StepKeepsShape(at(n - 1), act(n - 1));
      assert at(n - 1 + 1) == Do(at(n - 1), act(n - 1));
    }
  }

  // The run as seen by FairProgress.

  function EndedAt(at: nat -> State): nat -> bool {
    (i: nat) => Ended(at(i))
  }

  function TerminatingAt(at: nat -> State): nat -> bool {
    (i: nat) => Terminating(at(i).ctl)
  }

  function MeasureAt(at: nat -> State): nat -> (nat, nat) {
    (i: nat) => (Stage(at(i).ctl), Rank(at(i)))
  }

  function HelperAt(at: nat -> State): nat -> Worker {
    (i: nat) => Helper(at(i))
  }

  function TurnAt(at: nat -> State, act: nat -> Action): (Worker, nat) -> bool {
    (w: Worker, i: nat) => Attended(at(i), act(i), w)
  }

  lemma EveryStepAdvances(at: nat -> State, act: nat -> Action, n: nat)
    requires IsRun(at, act)
    ensures Advances(EndedAt(at), TerminatingAt(at), MeasureAt(at), HelperAt(at), TurnAt(at, act), n)
  {
    AlwaysShaped(at, act, n);
    assert at(n + 1) == Do(at(n), act(n));
    if Terminating(at(n).ctl) {
      HelperCanMove(at(n));
      StepComesNearer(at(n), act(n));
    }
  }

  /**
   * Every fair run in which term has got past the first critical section of Bus::stop reaches the end of term, with
   * the driver closed and both threads gone: neither the wait for the reader nor the wait for the writer can hang.
   */
  lemma StopTerminates(at: nat -> State, act: nat -> Action, n: nat)
    requires IsRun(at, act) && Fair(at, act)
    requires Terminating(at(n).ctl)
    ensures exists end: nat :: n < end && Ended(at(end))
  {
    forall i: nat
      ensures Advances(EndedAt(at), TerminatingAt(at), MeasureAt(at), HelperAt(at), TurnAt(at, act), i)
    {
      EveryStepAdvances(at, act, i);
    }
    forall w, k: nat ensures TurnComes(TurnAt(at, act), w, k) {
      assert AttendedFrom(at, act, w, k);
      var m: nat :| k <= m && Attended(at(m), act(m), w);
      assert TurnAt(at, act)(w, m);
    }
    var end := GoalIsReached(EndedAt(at), TerminatingAt(at), MeasureAt(at), HelperAt(at), TurnAt(at, act), n);
  }

  // ---- from the call of term on

  /** Weak fairness for the sender that holds wMutex: it does not keep it for ever. */
  ghost predicate SendersFinish(at: nat -> State, act: nat -> Action) {
    forall n: nat :: SenderServed(at, act, n)
  }

  ghost predicate SenderServed(at: nat -> State, act: nat -> Action, n: nat) {
    exists m: nat :: n <= m && (act(m).SendOffer? || at(m).sender.None?)
  }

  lemma SenderIsGone(at: nat -> State, act: nat -> Action, n: nat)
    requires IsRun(at, act) && SendersFinish(at, act)
    ensures exists m: nat :: n <= m && at(m).sender.None?
  {
    assert SenderServed(at, act, n);
    var m: nat :| n <= m && (act(m).SendOffer? || at(m).sender.None?);
    if act(m).SendOffer? {
      assert at(m + 1) == Do(at(m), act(m));
      assert at(m + 1).sender.None?;
    }
  }

  /** Strong fairness: a thread in init or term that can move time and again moves time and again. */
  ghost predicate CtlIsServed(at: nat -> State, act: nat -> Action) {
    (forall n: nat :: CtlReady(at, n)) ==> forall n: nat :: CtlMoves(at, act, n)
  }

  ghost predicate CtlReady(at: nat -> State, n: nat) {
    exists m: nat :: n <= m && CtlCan(at(m))
  }

  ghost predicate CtlMoves(at: nat -> State, act: nat -> Action, n: nat) {
    exists m: nat :: n <= m && act(m).CtlRuns? && CtlCan(at(m))
  }

  /** Only the step through the lock leads away from it. */
  lemma {:induction false} StaysAtLock(at: nat -> State, act: nat -> Action, n: nat, m: nat)
    requires IsRun(at, act) && at(n).ctl.StopLock? && n <= m && !at(m).ctl.StopLock?
    ensures exists k: nat :: n < k <= m && at(k).ctl.ReaderStop?
    decreases m - n
  {
    assert at(n + 1) == Do(at(n), act(n));
    if at(n + 1).ctl.StopLock? {
      StaysAtLock(at, act, n + 1, m);
    } else {
      LockLeadsOn(at(n), act(n));
    }
  }

  lemma LockLeadsOn(s: State, a: Action)
    requires s.ctl.StopLock?
    ensures Do(s, a).ctl.StopLock? || Do(s, a).ctl.ReaderStop?
    ensures a.CtlRuns? && CtlCan(s) ==> Do(s, a).ctl.ReaderStop?
  {
  }

  lemma LockIsLeft(at: nat -> State, act: nat -> Action, n: nat)
    requires IsRun(at, act) && SendersFinish(at, act) && CtlIsServed(at, act)
    ensures exists m: nat :: n <= m && !at(m).ctl.StopLock?
  {
    if idle: nat :| !CtlReady(at, idle) {
      SenderIsGone(at, act, n + idle);
      var m: nat :| n + idle <= m && at(m).sender.None?;
      assert !CtlCan(at(m)) && !at(m).ctl.StopLock?;
    } else {
      assert CtlMoves(at, act, n);
      var m: nat :| n <= m && act(m).CtlRuns? && CtlCan(at(m));
      if at(m).ctl.StopLock? {
        LockLeadsOn(at(m), act(m));
        assert at(m + 1) == Do(at(m), act(m));
      }
    }
  }

  lemma LockIsTaken(at: nat -> State, act: nat -> Action, n: nat)
    requires IsRun(at, act) && SendersFinish(at, act) && CtlIsServed(at, act) && at(n).ctl.StopLock?
    ensures exists k: nat :: n < k && at(k).ctl.ReaderStop?
  {
    LockIsLeft(at, act, n);
    var m: nat :| n <= m && !at(m).ctl.StopLock?;
    StaysAtLock(at, act, n, m);
  }

  /**
   * With wMutex handed on fairly as well, every call of term reaches its end: also the first critical section of
   * Bus::stop, for which senders compete with it, is entered in the end.
   */
  lemma TermTerminates(at: nat -> State, act: nat -> Action, n: nat)
    requires IsRun(at, act) && Fair(at, act) && SendersFinish(at, act) && CtlIsServed(at, act)
    requires at(n).ctl.StopLock?
    ensures exists end: nat :: n < end && Ended(at(end))
  {
    LockIsTaken(at, act, n);
    var k: nat :| n < k && at(k).ctl.ReaderStop?;
    StopTerminates(at, act, k);
  }
}
