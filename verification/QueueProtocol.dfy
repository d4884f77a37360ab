/**
 * EventQueue under any interleaving of any number of producers and consumers. One step is one access to the queue,
 * the flag or a mutex: `poll` tests the flag without the queue mutex and pops under it; `offer` pushes, sets the
 * flag and wakes the sleepers in three steps.
 */
module QueueProtocol {
  import opened Base
  import opened EventQueues

  datatype Pc<T> =
    | Idle
    | OfferLock(item: T) | OfferTest(item: T) | OfferSet | OfferNotify | OfferUnlock(accepted: bool)
    | WaitTest | Asleep | PollLock | PollTest | PollPop | PollReset(front: T) | PollUnlock(got: Option<T>)
    | SizeLock | SizeRead | SizeUnlock(size: nat)

  datatype Op<T> = OfferOp(item: T) | PollOp | SizeOp

  /** A refused offer throws, and a poll that got nothing returns the default value. */
  datatype Result<T> = Accepted | Refused | Got(value: T) | GotDefault | Size(size: nat)

  datatype State<T> = State(
    cap: nat,
    q: seq<T>,
    flag: bool,
    owner: Option<nat>,
    pcs: map<nat, Pc<T>>,
    accepted: seq<T>,
    polled: seq<T>,
    defaults: nat)

  datatype Action<T> =
    | BeginOffer(t: nat, item: T)
    | BeginPoll(t: nat)
    | BeginSize(t: nat)
    | Advance(t: nat)
    | Spurious(t: nat)

  function Init<T>(cap: nat, threads: set<nat>): State<T> {
    State(cap, [], false, None, map t | t in threads :: Idle, [], [], 0)
  }

  function Goto<T>(s: State<T>, t: nat, pc: Pc<T>): State<T> {
    s.(pcs := s.pcs[t := pc])
  }

  function Acquire<T>(s: State<T>, t: nat, pc: Pc<T>): State<T> {
    if s.owner.None? then Goto(s.(owner := Some(t)), t, pc) else s
  }

  function WakeAll<T>(s: State<T>): State<T> {
    s.(pcs := map t | t in s.pcs :: if s.pcs[t].Asleep? then WaitTest else s.pcs[t])
  }

  function Step<T>(s: State<T>, t: nat): State<T>
    requires t in s.pcs
  {
    match s.pcs[t]
    case Idle => s
    case OfferLock(item) => Acquire(s, t, OfferTest(item))
    case OfferTest(item) =>
      if |s.q| == s.cap then Goto(s, t, OfferUnlock(false))
      else Goto(s.(q := s.q + [item], accepted := s.accepted + [item]), t, OfferSet)
    case OfferSet => Goto(s.(flag := true), t, OfferNotify)
    case OfferNotify => Goto(WakeAll(s.(flag := true)), t, OfferUnlock(true))
    case OfferUnlock(_) => Goto(s.(owner := None), t, Idle)
    case WaitTest => Goto(s, t, if s.flag then PollLock else Asleep)
    case Asleep => s
    case PollLock => Acquire(s, t, PollTest)
    case PollTest =>
      if !s.flag || s.q == [] then Goto(s.(defaults := s.defaults + 1), t, PollUnlock(None))
      else Goto(s, t, PollPop)
    case PollPop =>
      if s.q == [] then s
      else Goto(s.(q := s.q[1..], polled := s.polled + [s.q[0]]), t, PollReset(s.q[0]))
    case PollReset(e) => Goto(if s.q == [] then s.(flag := false) else s, t, PollUnlock(Some(e)))
    case PollUnlock(_) => Goto(s.(owner := None), t, Idle)
    case SizeLock => Acquire(s, t, SizeRead)
    case SizeRead => Goto(s, t, SizeUnlock(|s.q|))
    case SizeUnlock(_) => Goto(s.(owner := None), t, Idle)
  }

  /** The next state; an action that cannot be taken changes nothing. */
  function Do<T>(s: State<T>, a: Action<T>): State<T> {
    if a.t !in s.pcs then s else
    match a
    case BeginOffer(t, item) => if s.pcs[t].Idle? then Goto(s, t, OfferLock(item)) else s
    case BeginPoll(t) => if s.pcs[t].Idle? then Goto(s, t, WaitTest) else s
    case BeginSize(t) => if s.pcs[t].Idle? then Goto(s, t, SizeLock) else s
    case Advance(t) => Step(s, t)
    case Spurious(t) => if s.pcs[t].Asleep? then Goto(s, t, WaitTest) else s
  }

  function Run<T>(s: State<T>, acts: seq<Action<T>>): State<T> {
    if acts == [] then s else Do(Run(s, acts[..|acts| - 1]), acts[|acts| - 1])
  }

  // ---- the invariant

  predicate InSection<T>(pc: Pc<T>) {
    !(pc.Idle? || pc.OfferLock? || pc.WaitTest? || pc.Asleep? || pc.PollLock? || pc.SizeLock?)
  }

  ghost predicate Exclusive<T>(s: State<T>) {
    && (s.owner.Some? ==> s.owner.value in s.pcs)
    && forall t :: t in s.pcs ==> (InSection(s.pcs[t]) <==> s.owner == Some(t))
  }

  /** Where the thread that holds the queue mutex stands; Idle when the mutex is free. */
  ghost function Holder<T>(s: State<T>): Pc<T>
    requires Exclusive(s)
  {
    if s.owner.Some? then s.pcs[s.owner.value] else Idle
  }

  ghost predicate FlagAgrees<T>(s: State<T>)
    requires Exclusive(s)
  {
    var h := Holder(s);
    && (!h.OfferSet? && !h.PollReset? ==> (s.flag <==> s.q != []))
    && (h.OfferSet? || h.OfferNotify? || h.PollPop? ==> s.q != [])
    && (h.OfferNotify? || h.PollPop? || h.PollReset? ==> s.flag)
  }

  ghost predicate NobodySleepsThrough<T>(s: State<T>)
    requires Exclusive(s)
  {
    s.flag && !Holder(s).OfferNotify? ==> forall t :: t in s.pcs ==> !s.pcs[t].Asleep?
  }

  ghost predicate Inv<T>(s: State<T>) {
    && Exclusive(s)
    && FlagAgrees(s)
    && NobodySleepsThrough(s)
    && |s.q| <= s.cap
    && s.accepted == s.polled + s.q
  }

  lemma StepKeepsExclusive<T>(s: State<T>, t: nat)
    requires Exclusive(s) && t in s.pcs
    ensures Exclusive(Step(s, t))
  {
    match s.pcs[t] {
      case OfferLock(_) =>
      case PollLock =>
      case SizeLock =>
      case OfferNotify =>
      case _ =>
    }
  }

  lemma StepKeepsFlag<T>(s: State<T>, t: nat)
    requires Exclusive(s) && FlagAgrees(s) && t in s.pcs && Exclusive(Step(s, t))
    ensures FlagAgrees(Step(s, t))
  {
    match s.pcs[t] {
      case OfferLock(_) =>
      case PollLock =>
      case SizeLock =>
      case OfferNotify =>
      case _ =>
    }
  }

  lemma StepKeepsSleepers<T>(s: State<T>, t: nat)
    requires Exclusive(s) && FlagAgrees(s) && NobodySleepsThrough(s) && t in s.pcs && Exclusive(Step(s, t))
    ensures NobodySleepsThrough(Step(s, t))
  {
    match s.pcs[t] {
      case OfferLock(_) =>
      case PollLock =>
      case SizeLock =>
      case OfferNotify =>
      case _ =>
    }
  }

  lemma StepKeepsHistory<T>(s: State<T>, t: nat)
    requires Inv(s) && t in s.pcs
    ensures var s' := Step(s, t); |s'.q| <= s'.cap && s'.accepted == s'.polled + s'.q
  {
    if s.pcs[t].PollPop? {
      assert s.q == [s.q[0]] + s.q[1..];
    }
  }

  lemma StepKeepsInv<T>(s: State<T>, a: Action<T>)
    requires Inv(s)
    ensures Inv(Do(s, a))
  {
    if a.Advance? && a.t in s.pcs {
      StepKeepsExclusive(s, a.t);
      StepKeepsFlag(s, a.t);
      StepKeepsSleepers(s, a.t);
      StepKeepsHistory(s, a.t);
    }
  }

  lemma {:induction false} RunKeepsInv<T>(cap: nat, threads: set<nat>, acts: seq<Action<T>>)
    ensures Inv(Run(Init(cap, threads), acts))
  {
    if acts != [] {
      RunKeepsInv(cap, threads, acts[..|acts| - 1]);
      StepKeepsInv(Run(Init(cap, threads), acts[..|acts| - 1]), acts[|acts| - 1]);
    }
  }

  // ---- what follows for every run

  /**
   * A bounded FIFO: what has been polled is a prefix of what was accepted, the rest is in the queue, and with the
   * mutex free the flag says exactly whether there is something to poll.
   */
  lemma BoundedFifo<T>(cap: nat, threads: set<nat>, acts: seq<Action<T>>)
    ensures var s := Run(Init(cap, threads), acts);
      && s.accepted == s.polled + s.q
      && |s.q| <= cap
      && (s.owner.None? ==> (s.flag <==> s.q != []))
  {
    RunKeepsInv(cap, threads, acts);
    CapacityIsFixed(Init(cap, threads), acts);
  }

  /** A step of `t` leaves the others where they are, but may wake them. */
  ghost predicate OthersStay<T>(s: State<T>, s': State<T>, t: nat) {
    && s'.pcs.Keys == s.pcs.Keys
    && forall u :: u in s.pcs && u != t ==> s'.pcs[u] == s.pcs[u] || (s.pcs[u].Asleep? && s'.pcs[u].WaitTest?)
  }

  lemma NotifyKeepsOthers<T>(s: State<T>, t: nat)
    requires t in s.pcs && s.pcs[t].OfferNotify?
    ensures Step(s, t).cap == s.cap && OthersStay(s, Step(s, t), t)
  {
  }

  lemma StepMovesOne<T>(s: State<T>, t: nat)
    requires t in s.pcs && !s.pcs[t].OfferNotify?
    ensures Step(s, t).cap == s.cap && t in Step(s, t).pcs && Step(s, t).pcs == s.pcs[t := Step(s, t).pcs[t]]
  {
  }

  lemma DoKeepsOthers<T>(s: State<T>, a: Action<T>)
    ensures Do(s, a).cap == s.cap && OthersStay(s, Do(s, a), a.t)
  {
    if a.Advance? && a.t in s.pcs {
      if s.pcs[a.t].OfferNotify? {
        NotifyKeepsOthers(s, a.t);
      } else {
        StepMovesOne(s, a.t);
      }
    }
  }

  lemma {:induction false} CapacityIsFixed<T>(s: State<T>, acts: seq<Action<T>>)
    ensures Run(s, acts).cap == s.cap && Run(s, acts).pcs.Keys == s.pcs.Keys
  {
    if acts != [] {
      CapacityIsFixed(s, acts[..|acts| - 1]);
      DoKeepsOthers(Run(s, acts[..|acts| - 1]), acts[|acts| - 1]);
    }
  }

  /** Whoever holds the queue mutex, or does not have to wait for it, can take a step. */
  lemma OwnerMoves<T>(s: State<T>, u: nat)
    requires Inv(s) && u in s.pcs && (s.owner == Some(u) || s.owner.None?) && !s.pcs[u].Idle? && !s.pcs[u].Asleep?
    ensures Step(s, u) != s
  {
    assert u in Step(s, u).pcs && Step(s, u).pcs[u] != s.pcs[u];
  }

  /**
   * No lost wakeup: with the mutex free nobody sleeps beside a non-empty queue; and the system only ever stands
   * still when every thread is idle or asleep on an empty queue.
   */
  lemma NoLostWakeup<T>(cap: nat, threads: set<nat>, acts: seq<Action<T>>, t: nat)
    requires t in threads
    ensures var s := Run(Init(cap, threads), acts);
      && t in s.pcs
      && (s.pcs[t].Asleep? && s.owner.None? ==> s.q == [])
      && (!s.pcs[t].Idle? && !(s.pcs[t].Asleep? && s.q == []) ==> exists u :: u in s.pcs && Step(s, u) != s)
  {
    var s := Run(Init(cap, threads), acts);
    RunKeepsInv(cap, threads, acts);
    CapacityIsFixed(Init<T>(cap, threads), acts);
    if !s.pcs[t].Idle? && !(s.pcs[t].Asleep? && s.q == []) {
      var u := if s.owner.Some? then s.owner.value else t;
      OwnerMoves(s, u);
    }
  }

  // ---- linearizability

  /** What happens to calls: thread `t` makes one, it takes effect on the queue, it returns. */
  datatype Event<T> =
    | Called(t: nat, op: Op<T>)
    | Effect(t: nat, op: Op<T>, result: Result<T>)
    | Returned(t: nat, result: Result<T>)

  /** What a step does to calls: nothing, or one event about the thread that takes it. */
  function Events<T>(s: State<T>, a: Action<T>): seq<Event<T>> {
    if a.t !in s.pcs then []
    else match a
      case BeginOffer(t, item) => if s.pcs[t].Idle? then [Called(t, OfferOp(item))] else []
      case BeginPoll(t) => if s.pcs[t].Idle? then [Called(t, PollOp)] else []
      case BeginSize(t) => if s.pcs[t].Idle? then [Called(t, SizeOp)] else []
      case Spurious(_) => []
      case Advance(t) =>
        match s.pcs[t]
        case OfferTest(item) => [Effect(t, OfferOp(item), if |s.q| == s.cap then Refused else Accepted)]
        case OfferUnlock(ok) => [Returned(t, if ok then Accepted else Refused)]
        case PollTest => if !s.flag || s.q == [] then [Effect(t, PollOp, GotDefault)] else []
        case PollPop => if s.q == [] then [] else [Effect(t, PollOp, Got(s.q[0]))]
        case PollUnlock(got) => [Returned(t, if got.Some? then Got(got.value) else GotDefault)]
        case SizeRead => [Effect(t, SizeOp, Size(|s.q|))]
        case SizeUnlock(n) => [Returned(t, Size(n))]
        case _ => []
  }

  function History<T>(s: State<T>, acts: seq<Action<T>>): seq<Event<T>> {
    if acts == [] then []
    else
      var before := acts[..|acts| - 1];
      History(s, before) + Events(Run(s, before), acts[|acts| - 1])
  }

  /** One call on the sequential queue; None where it could not have had that result. */
  function Apply<T(==)>(q: seq<T>, cap: nat, op: Op<T>, result: Result<T>): Option<seq<T>> {
    match op
    case OfferOp(item) =>
      if result == (if |q| == cap then Refused else Accepted) then Some(Offered(q, cap, item)) else None
    case PollOp =>
      if result == (if q == [] then GotDefault else Got(q[0])) then Some(Taken(q)) else None
    case SizeOp =>
      if result == Size(|q|) then Some(q) else None
  }

  /** The effects, in the order in which they happened, on the sequential queue. */
  function Replay<T(==)>(cap: nat, log: seq<Event<T>>): Option<seq<T>> {
    if log == [] then Some([])
    else
      var before, e := Replay(cap, log[..|log| - 1]), log[|log| - 1];
      if before.Some? && e.Effect? then Apply(before.value, cap, e.op, e.result) else before
  }

  /** Where a thread is between a call, its effect and its return. */
  datatype Progress<T> = Outside | Inside(op: Op<T>) | Done(result: Result<T>) | Muddled

  function Next<T(==)>(p: Progress<T>, e: Event<T>): Progress<T> {
    match e
    case Called(_, op) => if p.Outside? then Inside(op) else Muddled
    case Effect(_, op, result) => if p == Inside(op) then Done(result) else Muddled
    case Returned(_, result) => if p == Done(result) then Outside else Muddled
  }

  function ProgressOf<T(==)>(log: seq<Event<T>>, t: nat): Progress<T> {
    if log == [] then Outside
    else
      var before, e := ProgressOf(log[..|log| - 1], t), log[|log| - 1];
      if e.t == t then Next(before, e) else before
  }

  function Expected<T>(pc: Pc<T>): Progress<T> {
    match pc
    case Idle => Outside
    case OfferLock(item) => Inside(OfferOp(item))
    case OfferTest(item) => Inside(OfferOp(item))
    case OfferSet | OfferNotify => Done(Accepted)
    case OfferUnlock(ok) => Done(if ok then Accepted else Refused)
    case WaitTest | Asleep | PollLock | PollTest | PollPop => Inside(PollOp)
    case PollReset(e) => Done(Got(e))
    case PollUnlock(r) => Done(if r.Some? then Got(r.value) else GotDefault)
    case SizeLock | SizeRead => Inside(SizeOp)
    case SizeUnlock(n) => Done(Size(n))
  }

  ghost predicate LogAgrees<T>(s: State<T>, log: seq<Event<T>>) {
    && Replay(s.cap, log) == Some(s.q)
    && forall t :: t in s.pcs ==> ProgressOf(log, t) == Expected(s.pcs[t])
  }

  lemma LogAppend<T>(log: seq<Event<T>>, e: Event<T>, cap: nat, t: nat)
    ensures Replay(cap, log + [e]) ==
      var before := Replay(cap, log);
      if before.Some? && e.Effect? then Apply(before.value, cap, e.op, e.result) else before
    ensures ProgressOf(log + [e], t) == if e.t == t then Next(ProgressOf(log, t), e) else ProgressOf(log, t)
  {
    assert (log + [e])[..|log|] == log;
  }

  lemma LogGrows<T>(log: seq<Event<T>>, events: seq<Event<T>>, cap: nat, t: nat)
    requires |events| <= 1
    ensures Replay(cap, log + events) ==
      var before := Replay(cap, log);
      if events != [] && before.Some? && events[0].Effect? then Apply(before.value, cap, events[0].op, events[0].result)
      else before
    ensures ProgressOf(log + events, t) ==
      if events != [] && events[0].t == t then Next(ProgressOf(log, t), events[0]) else ProgressOf(log, t)
  {
    if events == [] {
      assert log + events == log;
    } else {
      assert events == [events[0]];
      LogAppend(log, events[0], cap, t);
    }
  }

  lemma EventsAreOwn<T>(s: State<T>, a: Action<T>)
    ensures |Events(s, a)| <= 1 && (Events(s, a) != [] ==> Events(s, a)[0].t == a.t)
  {
  }

  /** The step that takes effect is the one that changes the queue, and the sequential queue allows it. */
  lemma StepTakesEffect<T>(s: State<T>, a: Action<T>)
    requires Inv(s)
    ensures var events, s' := Events(s, a), Do(s, a);
      if events != [] && events[0].Effect? then Apply(s.q, s.cap, events[0].op, events[0].result) == Some(s'.q)
      else s'.q == s.q
  {
  }

  /** A step takes its own thread from one stage of a call to the next, by the event it records. */
  ghost predicate Progresses<T>(s: State<T>, a: Action<T>)
    requires a.t in s.pcs
  {
    var s', events := Do(s, a), Events(s, a);
    a.t in s'.pcs && Expected(s'.pcs[a.t]) ==
      if events == [] then Expected(s.pcs[a.t]) else Next(Expected(s.pcs[a.t]), events[0])
  }

  predicate Offers<T>(pc: Pc<T>) {
    pc.OfferLock? || pc.OfferTest? || pc.OfferSet? || pc.OfferNotify? || pc.OfferUnlock?
  }

  lemma OfferProgresses<T>(s: State<T>, t: nat)
    requires t in s.pcs && Offers(s.pcs[t])
    ensures Progresses(s, Advance(t))
  {
  }

  lemma PollProgresses<T>(s: State<T>, t: nat)
    requires Inv(s) && t in s.pcs && !Offers(s.pcs[t])
    ensures Progresses(s, Advance(t))
  {
  }

  lemma BeginProgresses<T>(s: State<T>, a: Action<T>)
    requires a.t in s.pcs && !a.Advance?
    ensures Progresses(s, a)
  {
  }

  lemma StepKeepsProgress<T>(s: State<T>, a: Action<T>)
    requires Inv(s) && a.t in s.pcs
    ensures Progresses(s, a)
  {
    if !a.Advance? {
      BeginProgresses(s, a);
    } else if Offers(s.pcs[a.t]) {
      OfferProgresses(s, a.t);
    } else {
      PollProgresses(s, a.t);
    }
  }

  lemma LogCarriesOver<T>(s: State<T>, s': State<T>, t: nat, log: seq<Event<T>>, events: seq<Event<T>>)
    requires LogAgrees(s, log) && s'.cap == s.cap && OthersStay(s, s', t)
    requires |events| <= 1 && (events != [] ==> events[0].t == t)
    requires if events != [] && events[0].Effect? then Apply(s.q, s.cap, events[0].op, events[0].result) == Some(s'.q)
             else s'.q == s.q
    requires t in s.pcs ==>
      Expected(s'.pcs[t]) == if events == [] then Expected(s.pcs[t]) else Next(Expected(s.pcs[t]), events[0])
    ensures LogAgrees(s', log + events)
  {
    LogGrows(log, events, s.cap, t);
    forall u | u in s.pcs ensures ProgressOf(log + events, u) == Expected(s'.pcs[u]) {
      LogGrows(log, events, s.cap, u);
      assert ProgressOf(log, u) == Expected(s.pcs[u]);
    }
  }

  lemma StepKeepsLog<T>(s: State<T>, a: Action<T>, log: seq<Event<T>>)
    requires Inv(s) && LogAgrees(s, log)
    ensures LogAgrees(Do(s, a), log + Events(s, a))
  {
    EventsAreOwn(s, a);
    DoKeepsOthers(s, a);
    StepTakesEffect(s, a);
    if a.t in s.pcs {
      StepKeepsProgress(s, a);
    }
    LogCarriesOver(s, Do(s, a), a.t, log, Events(s, a));
  }

  lemma {:induction false} RunKeepsLog<T>(cap: nat, threads: set<nat>, acts: seq<Action<T>>)
    ensures LogAgrees(Run(Init(cap, threads), acts), History(Init(cap, threads), acts))
  {
    if acts != [] {
      var s0, before := Init<T>(cap, threads), acts[..|acts| - 1];
      RunKeepsLog(cap, threads, before);
      RunKeepsInv(cap, threads, before);
      StepKeepsLog(Run(s0, before), acts[|acts| - 1], History(s0, before));
    }
  }

  /**
   * Linearizability. In every run each call of each thread takes effect once, between its call and its return, and
   * returns what the effect produced; and the effects, in their order, are a run of the sequential bounded queue
   * that ends with the actual contents.
   */
  lemma {:induction false} Linearizable<T>(cap: nat, threads: set<nat>, acts: seq<Action<T>>)
    ensures var s, log := Run(Init(cap, threads), acts), History(Init(cap, threads), acts);
      && Replay(cap, log) == Some(s.q)
      && forall t :: t in threads ==> !ProgressOf(log, t).Muddled?
  {
    var s, log := Run(Init(cap, threads), acts), History(Init(cap, threads), acts);
    RunKeepsLog(cap, threads, acts);
    CapacityIsFixed(Init<T>(cap, threads), acts);
    forall t | t in threads ensures !ProgressOf(log, t).Muddled? {
      assert ProgressOf(log, t) == Expected(s.pcs[t]);
    }
  }

  // ---- every call gets to its end

  /** How many steps of its own a call still has to take. */
  function Remaining<T>(pc: Pc<T>): nat {
    match pc
    case Idle => 0
    case OfferUnlock(_) | PollUnlock(_) | SizeUnlock(_) => 1
    case OfferNotify | PollReset(_) | SizeRead => 2
    case OfferSet | PollPop | SizeLock => 3
    case OfferTest(_) | PollTest => 4
    case OfferLock(_) | PollLock => 5
    case WaitTest => 6
    case Asleep => 7
  }

  /** The mutex is free or this thread's, and a poll before its wait finds the flag set. */
  ghost predicate Unhindered<T>(s: State<T>, t: nat) {
    && t in s.pcs && (s.owner == Some(t) || s.owner.None?)
    && (s.pcs[t].WaitTest? || s.pcs[t].PollLock? || s.pcs[t].PollTest? ==> s.flag && s.q != [])
    && !s.pcs[t].Asleep?
  }

  function Alone<T>(s: State<T>, t: nat, n: nat): State<T>
    decreases n
  {
    if n == 0 then s else Alone(Do(s, Advance(t)), t, n - 1)
  }

  /** What the rest of a call does to the contents: nothing more once it has taken effect. */
  ghost function Outcome<T>(s: State<T>, t: nat): seq<T>
    requires t in s.pcs
  {
    match s.pcs[t]
    case OfferLock(item) => Offered(s.q, s.cap, item)
    case OfferTest(item) => Offered(s.q, s.cap, item)
    case WaitTest | Asleep | PollLock | PollTest | PollPop => Taken(s.q)
    case _ => s.q
  }

  /** The thread's next step brings it nearer to the end, unhindered, and does not change what that will be. */
  ghost predicate GetsOn<T>(s: State<T>, t: nat)
    requires t in s.pcs
  {
    var s' := Step(s, t);
    Unhindered(s', t) && Remaining(s'.pcs[t]) < Remaining(s.pcs[t]) && Outcome(s', t) == Outcome(s, t)
  }

  lemma OfferGetsOn<T>(s: State<T>, t: nat)
    requires Inv(s) && Unhindered(s, t) && Offers(s.pcs[t])
    ensures GetsOn(s, t)
  {
    if s.pcs[t].OfferNotify? {
      NotifyKeepsOthers(s, t);
    }
  }

  lemma PollGetsOn<T>(s: State<T>, t: nat)
    requires Inv(s) && Unhindered(s, t) && !Offers(s.pcs[t]) && !s.pcs[t].Idle?
    ensures GetsOn(s, t)
  {
  }

  /**
   * Every call returns: a thread that is left alone with a call it can carry out, a poll with something to take, is out
   * of it after at most six steps, with the mutex free again and the queue as the call leaves it.
   */
  lemma {:induction false} CallReturns<T>(s: State<T>, t: nat) returns (n: nat)
    requires Inv(s) && Unhindered(s, t)
    ensures n <= Remaining(s.pcs[t]) <= 6
    ensures var s' := Alone(s, t, n);
      && t in s'.pcs && s'.pcs[t].Idle? && s'.owner.None? && s'.q == Outcome(s, t) && Inv(s')
    decreases Remaining(s.pcs[t])
  {
    if s.pcs[t].Idle? {
      n := 0;
    } else {
      var next := Do(s, Advance(t));
      StepKeepsInv(s, Advance(t));
      if Offers(s.pcs[t]) {
        OfferGetsOn(s, t);
      } else {
        PollGetsOn(s, t);
      }
      n := CallReturns(next, t);
      n := n + 1;
    }
  }

  // ---- one consumer

  ghost predicate OnlyConsumer<T>(acts: seq<Action<T>>, c: nat) {
    forall i :: 0 <= i < |acts| && acts[i].BeginPoll? ==> acts[i].t == c
  }

  predicate Polls<T>(pc: Pc<T>) {
    pc.WaitTest? || pc.Asleep? || pc.PollLock? || pc.PollTest? || pc.PollPop? || pc.PollReset?
  }

  /** Once past the wait, the only consumer is sure of an element. */
  ghost predicate Secured<T>(s: State<T>, c: nat) {
    && s.defaults == 0
    && (forall t :: t in s.pcs && Polls(s.pcs[t]) ==> t == c)
    && (c in s.pcs && (s.pcs[c].PollLock? || s.pcs[c].PollTest?) ==> s.flag && s.q != [])
  }

  lemma StepKeepsSecured<T>(s: State<T>, t: nat, c: nat)
    requires Inv(s) && Secured(s, c) && t in s.pcs
    ensures Secured(Step(s, t), c)
  {
    match s.pcs[t] {
      case OfferLock(_) =>
      case PollLock =>
      case SizeLock =>
      case OfferNotify =>
      case WaitTest =>
      case _ =>
    }
  }

  lemma {:induction false} OneConsumerSecured<T>(cap: nat, threads: set<nat>, acts: seq<Action<T>>, c: nat)
    requires OnlyConsumer(acts, c)
    ensures Secured(Run(Init(cap, threads), acts), c)
  {
    if acts != [] {
      var before, a := acts[..|acts| - 1], acts[|acts| - 1];
      OneConsumerSecured(cap, threads, before, c);
      RunKeepsInv(cap, threads, before);
      var s := Run(Init(cap, threads), before);
      if a.Advance? && a.t in s.pcs {
        StepKeepsSecured(s, a.t, c);
      }
    }
  }

  /** With one consumer `poll` never comes back with the default value. */
  lemma OneConsumerNeverSeesDefault<T>(cap: nat, threads: set<nat>, acts: seq<Action<T>>, c: nat)
    requires OnlyConsumer(acts, c)
    ensures Run(Init(cap, threads), acts).defaults == 0
  {
    OneConsumerSecured(cap, threads, acts, c);
  }

  function Thrice<T>(s: State<T>, t: nat): State<T> {
    Do(Do(Do(s, Advance(t)), Advance(t)), Advance(t))
  }

  lemma Extend<T>(s: State<T>, acts: seq<Action<T>>, a: Action<T>) returns (longer: seq<Action<T>>)
    ensures Run(s, longer) == Do(Run(s, acts), a)
  {
    longer := acts + [a];
    assert longer[..|acts|] == acts;
  }

  lemma ExtendSixfold<T>(s: State<T>, acts: seq<Action<T>>, t: nat) returns (longer: seq<Action<T>>)
    ensures Run(s, longer) == Thrice(Thrice(Run(s, acts), t), t)
  {
    longer := Extend(s, acts, Advance(t));
    longer := Extend(s, longer, Advance(t));
    longer := Extend(s, longer, Advance(t));
    longer := Extend(s, longer, Advance(t));
    longer := Extend(s, longer, Advance(t));
    longer := Extend(s, longer, Advance(t));
  }

  /** Three different threads. */
  predicate Apart<T>(s: State<T>, p: nat, c: nat, d: nat) {
    p != c && p != d && c != d && p in s.pcs && c in s.pcs && d in s.pcs
  }

  /**
   * With a second consumer it can, whatever the capacity and whoever they are: an element is pushed, one consumer
   * passes the wait, the other passes it too and takes the element, and the first finds the queue empty.
   */
  lemma TwoConsumersMaySeeDefault<T>(cap: nat, threads: set<nat>, p: nat, c: nat, d: nat, x: T) returns (acts: seq<Action<T>>)
    requires cap > 0 && {p, c, d} <= threads && p != c && p != d && c != d
    ensures Run(Init(cap, threads), acts).defaults == 1
  {
    var s0: State<T> := Init(cap, threads);
    acts := EveryoneStarts(cap, threads, p, c, d, x);
    PushRuns(Run(s0, acts), p, c, d, x);
    acts := ExtendSixfold(s0, acts, p);
    PassRuns(Run(s0, acts), p, c, d);
    acts := Extend(s0, acts, Advance(d));
    PopRuns(Run(s0, acts), p, c, d, x);
    acts := ExtendSixfold(s0, acts, c);
    LateRuns(Run(s0, acts), d);
    acts := Extend(s0, acts, Advance(d));
    acts := Extend(s0, acts, Advance(d));
  }

  lemma EveryoneStarts<T>(cap: nat, threads: set<nat>, p: nat, c: nat, d: nat, x: T) returns (acts: seq<Action<T>>)
    requires {p, c, d} <= threads && p != c && p != d && c != d
    ensures var s := Run(Init(cap, threads), acts);
      && s.cap == cap && s.q == [] && s.owner.None? && s.defaults == 0 && Apart(s, p, c, d)
      && s.pcs[p] == OfferLock(x) && s.pcs[c] == WaitTest && s.pcs[d] == WaitTest
  {
    var s0: State<T> := Init(cap, threads);
    assert Apart(s0, p, c, d);
    acts := Extend(s0, [], BeginOffer(p, x));
    assert Run(s0, acts).pcs == s0.pcs[p := OfferLock(x)];
    acts := Extend(s0, acts, BeginPoll(c));
    assert Run(s0, acts).pcs == s0.pcs[p := OfferLock(x)][c := WaitTest];
    acts := Extend(s0, acts, BeginPoll(d));
  }

  lemma PushBegins<T>(s: State<T>, p: nat, c: nat, d: nat, x: T)
    requires s.cap > 0 && s.q == [] && s.owner.None? && Apart(s, p, c, d)
    requires s.pcs[p] == OfferLock(x) && s.pcs[c] == WaitTest && s.pcs[d] == WaitTest
    ensures var u := Thrice(s, p);
      && u.q == [x] && u.flag && u.owner == Some(p) && u.defaults == s.defaults && Apart(u, p, c, d)
      && u.pcs[p] == OfferNotify && u.pcs[c] == WaitTest && u.pcs[d] == WaitTest
  {
    assert Do(s, Advance(p)).pcs[p] == OfferTest(x);
  }

  lemma PushEnds<T>(u: State<T>, p: nat, c: nat, d: nat)
    requires Apart(u, p, c, d) && u.pcs[p] == OfferNotify && u.pcs[c] == WaitTest && u.pcs[d] == WaitTest
    ensures var s' := Thrice(u, p);
      && s'.q == u.q && s'.flag && s'.owner.None? && s'.defaults == u.defaults && Apart(s', p, c, d)
      && s'.pcs[c] == WaitTest && s'.pcs[d] == WaitTest
  {
    assert Do(u, Advance(p)).pcs[p] == OfferUnlock(true);
  }

  lemma PushRuns<T>(s: State<T>, p: nat, c: nat, d: nat, x: T)
    requires s.cap > 0 && s.q == [] && s.owner.None? && Apart(s, p, c, d)
    requires s.pcs[p] == OfferLock(x) && s.pcs[c] == WaitTest && s.pcs[d] == WaitTest
    ensures var s' := Thrice(Thrice(s, p), p);
      && s'.q == [x] && s'.flag && s'.owner.None? && s'.defaults == s.defaults && Apart(s', p, c, d)
      && s'.pcs[c] == WaitTest && s'.pcs[d] == WaitTest
  {
    PushBegins(s, p, c, d, x);
    PushEnds(Thrice(s, p), p, c, d);
  }

  lemma PassRuns<T>(s: State<T>, p: nat, c: nat, d: nat)
    requires s.flag && Apart(s, p, c, d) && s.pcs[d] == WaitTest
    ensures Do(s, Advance(d)) == s.(pcs := s.pcs[d := PollLock])
  {
  }

  lemma PopBegins<T>(s: State<T>, c: nat, d: nat)
    requires s.q != [] && s.flag && s.owner.None? && c != d && c in s.pcs && d in s.pcs
    requires s.pcs[c] == WaitTest && s.pcs[d] == PollLock
    ensures var u := Thrice(s, c);
      && u.q == s.q && u.owner == Some(c) && u.defaults == s.defaults && c in u.pcs && d in u.pcs
      && u.pcs[c] == PollPop && u.pcs[d] == PollLock
  {
    assert Do(s, Advance(c)).pcs[c] == PollLock;
  }

  lemma PopEnds<T>(u: State<T>, c: nat, d: nat, x: T)
    requires u.q == [x] && c != d && c in u.pcs && d in u.pcs && u.pcs[c] == PollPop && u.pcs[d] == PollLock
    ensures var s' := Thrice(u, c);
      s'.q == [] && s'.owner.None? && s'.defaults == u.defaults && d in s'.pcs && s'.pcs[d] == PollLock
  {
    var v := Do(u, Advance(c));
    assert v.q == [] && v.pcs[c] == PollReset(x);
  }

  lemma PopRuns<T>(s: State<T>, p: nat, c: nat, d: nat, x: T)
    requires s.q == [x] && s.flag && s.owner.None? && Apart(s, p, c, d)
    requires s.pcs[c] == WaitTest && s.pcs[d] == PollLock
    ensures var s' := Thrice(Thrice(s, c), c);
      s'.q == [] && s'.owner.None? && s'.defaults == s.defaults && d in s'.pcs && s'.pcs[d] == PollLock
  {
    PopBegins(s, c, d);
    PopEnds(Thrice(s, c), c, d, x);
  }

  lemma LateRuns<T>(s: State<T>, d: nat)
    requires s.q == [] && s.owner.None? && d in s.pcs && s.pcs[d] == PollLock
    ensures Do(Do(s, Advance(d)), Advance(d)).defaults == s.defaults + 1
  {
    assert Do(s, Advance(d)).pcs[d] == PollTest;
  }
}
