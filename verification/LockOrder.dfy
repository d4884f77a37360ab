/**
 * Locks. Every path through the library is written down as the mutexes it takes and releases; all of them are taken
 * in one rank order, or again by the thread that has them, so no set of threads can wait for each other in a circle.
 *
 * The two waits of Bus::stop for a worker thread count as locks as well: the worker holds its own from start to end.
 */
module LockOrder {
  import opened Base

  datatype Queue = Incoming | Outgoing

  datatype Lock =
    | Library
    | ReaderAlive
    | RMutex
    | Connection(id: nat)
    | WMutex
    | WriterAlive
    | DriverMutex
    | QueueMutex(queue: Queue)
    | CondMutex(queue: Queue)

  function Rank(l: Lock): nat {
    match l
    case Library => 0
    case ReaderAlive => 1
    case RMutex => 2
    case Connection(_) => 3
    case WMutex => 4
    case WriterAlive => 5
    case DriverMutex => 6
    case QueueMutex(_) => 7
    case CondMutex(_) => 8
  }

  datatype Op = Acquire(lock: Lock) | Release(lock: Lock)

  type Script = seq<Op>

  type Held = multiset<Lock>

  // ---- scripts

  function Locked(l: Lock, body: Script): Script {
    [Acquire(l)] + body + [Release(l)]
  }

  function Repeat(n: nat, body: Script): Script {
    if n == 0 then [] else body + Repeat(n - 1, body)
  }

  /** One block after another. */
  function Each<A>(xs: seq<A>, f: A -> Script): Script {
    if xs == [] then [] else f(xs[0]) + Each(xs[1..], f)
  }

  function Looks(q: Queue, n: nat): Script {
    Repeat(n, Locked(CondMutex(q), []))
  }

  /** EventQueue::offer; ConditionVariable::set and notifyAll each take the flag's mutex. */
  function Offer(q: Queue, accepted: bool): Script {
    Locked(QueueMutex(q), Looks(q, if accepted then 2 else 0))
  }

  /** How often one call of `poll` is woken, and how often it looks at or resets the flag under the queue mutex. */
  datatype Polling = Polling(wakes: nat, looks: nat)

  /** EventQueue::poll. Waiting gives the flag's mutex up, and waking takes it again. */
  function Poll(q: Queue, p: Polling): Script {
    Looks(q, 1 + p.wakes) + Locked(QueueMutex(q), Looks(q, p.looks))
  }

  function Size(q: Queue): Script {
    Locked(QueueMutex(q), [])
  }

  /** `size` and then `poll`: one turn of the two loops that empty a queue. */
  function ClearTurn(q: Queue, p: Polling): Script {
    Size(q) + Poll(q, p)
  }

  /** DriverImpl::open, write, writeAsync and the address calls, in whatever state the driver is. */
  function DriverCall(): Script { Locked(DriverMutex, []) }

  datatype Closing = Closing(wasOpen: bool, accepted: bool)

  function DriverClose(c: Closing): Script {
    Locked(DriverMutex, if c.wasOpen then Offer(Incoming, c.accepted) else [])
  }

  function FlushTurn(p: Polling): Script { ClearTurn(Incoming, p) }

  /** The loop of DriverImpl::read that empties the queue. */
  function Flush(polls: seq<Polling>): Script {
    Each(polls, FlushTurn) + Size(Incoming)
  }

  /** A sentinel taken while the driver is open. */
  function StaleTurn(p: Polling): Script {
    Poll(Incoming, p) + DriverCall()
  }

  /** The three ways in which `read` can end. */
  datatype Reading =
    | NotOpen
    | Frame(stale: seq<Polling>, last: Polling)
    | Flushed(stale: seq<Polling>, last: Polling, polls: seq<Polling>)

  function DriverRead(r: Reading): Script {
    match r
    case NotOpen => DriverCall()
    case Frame(stale, last) => DriverCall() + (Each(stale, StaleTurn) + Poll(Incoming, last))
    case Flushed(stale, last, polls) =>
      DriverCall() + (Each(stale, StaleTurn) + Poll(Incoming, last)) + Locked(DriverMutex, Flush(polls))
  }

  /** Both bus mutexes around at most one driver call: Bus::start, Bus::send without a timeout, Bus::poll, Bus::ping. */
  function BusSection(called: bool): Script {
    Locked(RMutex, Locked(WMutex, if called then DriverCall() else []))
  }

  /** An attempt of a retrying send; on a bus that is not started it does not get to the nested send. */
  datatype Attempt = Attempt(started: bool, called: bool)

  function AttemptScript(a: Attempt): Script {
    Locked(RMutex, Locked(WMutex, if a.started then BusSection(a.called) else []))
  }

  /** `called` is false, and `offered` None, where the bus is not started; an offer may be refused. */
  datatype Call =
    | Send(called: bool)
    | SendRetrying(attempts: seq<Attempt>)
    | SendAsync(offered: Option<bool>)
    | Ping(called: bool)
    | AddressCall

  function OfferIf(q: Queue, offered: Option<bool>): Script {
    if offered.Some? then Offer(q, offered.value) else []
  }

  /** What an application, or a listener, may call; sending through a connection asks the driver about the source first. */
  function CallScript(c: Call): Script {
    match c
    case Send(called) => DriverCall() + BusSection(called)
    case SendRetrying(attempts) => DriverCall() + Each(attempts, AttemptScript)
    case SendAsync(offered) => DriverCall() + Locked(WMutex, OfferIf(Outgoing, offered))
    case Ping(called) => BusSection(called)
    case AddressCall => DriverCall()
  }

  /** One connection being notified, and everything its listeners call meanwhile. */
  datatype Visit = Visit(connection: nat, calls: seq<Call>)

  function VisitScript(v: Visit): Script {
    Locked(Connection(v.connection), Each(v.calls, CallScript))
  }

  /** One round of the reader's loop; a read that yields no frame throws past the dispatch. */
  datatype Round = Round(reading: Reading, visits: seq<Visit>)

  function RoundScript(r: Round): Script {
    DriverRead(r.reading) + if r.reading.Frame? then Locked(RMutex, Each(r.visits, VisitScript)) else []
  }

  /** One turn of the writer's first loop; a NULL is polled but not written. */
  datatype WriterTurn = WriterTurn(polling: Polling, wrote: bool)

  function WriterTurnScript(t: WriterTurn): Script {
    Poll(Outgoing, t.polling) + if t.wrote then DriverCall() else []
  }

  function DrainTurn(p: Polling): Script { ClearTurn(Outgoing, p) }

  /** The first half of Bus::stop, up to the wait for the reader. */
  function StopReader(c: Closing): Script {
    Locked(RMutex, Locked(WMutex, [])) + Locked(RMutex, []) + (DriverClose(c) + Locked(ReaderAlive, []))
  }

  /** Stopping the writer, with both bus mutexes held during the wait for it; it is not asked unless it is running. */
  function StopWriter(offered: Option<bool>): Script {
    Locked(RMutex, Locked(WMutex, Locked(WMutex, OfferIf(Outgoing, offered)) + Locked(WriterAlive, [])))
  }

  /** An init that is refused, whose first open fails, or that gets to Bus::start. */
  datatype Initiation = InitRefused | OpenFails | Starts

  /** A term that is refused, or that stops the bus; when the close at the end of Bus::stop throws, no other follows. */
  datatype Termination =
    | TermRefused
    | Stops(first: Closing, offered: Option<bool>, second: Closing, third: Option<Closing>)

  function InitBody(i: Initiation): Script {
    match i
    case InitRefused => []
    case OpenFails => DriverCall()
    case Starts => DriverCall() + BusSection(true)
  }

  function TermBody(t: Termination): Script {
    match t
    case TermRefused => []
    case Stops(first, offered, second, third) =>
      StopReader(first) + StopWriter(offered)
      + (DriverClose(second) + if third.Some? then DriverClose(third.value) else [])
  }

  datatype Path =
    | ReaderThread(rounds: seq<Round>)
    | WriterThread(turns: seq<WriterTurn>, drains: seq<Polling>)
    | Callback(offered: Option<bool>)
    | Init(initiation: Initiation)
    | Term(termination: Termination)
    | Application(calls: seq<Call>)
    | ConnectionOpen
    | ConnectionClose(id: nat)
    | ListenerChange(id: nat)

  function ScriptOf(p: Path): Script {
    match p
    case ReaderThread(rounds) => Locked(ReaderAlive, Each(rounds, RoundScript))
    case WriterThread(turns, drains) =>
      Locked(WriterAlive, Each(turns, WriterTurnScript) + (Each(drains, DrainTurn) + Size(Outgoing)))
    case Callback(offered) => OfferIf(Incoming, offered)
    case Init(initiation) => Locked(Library, InitBody(initiation))
    case Term(termination) => Locked(Library, TermBody(termination))
    case Application(calls) => Each(calls, CallScript)
    case ConnectionOpen => Locked(RMutex, [])
    case ConnectionClose(id) => Locked(Connection(id), []) + Locked(RMutex, [])
    case ListenerChange(id) => Locked(Connection(id), [])
  }

  // ---- the discipline

  ghost predicate MayTake(held: Held, l: Lock) {
    l in held || forall h :: h in held ==> Rank(h) < Rank(l)
  }

  /** What a thread holds after a script, if it keeps to the discipline throughout. */
  ghost function Follow(held: Held, script: Script): Option<Held>
    decreases |script|
  {
    if script == [] then Some(held)
    else match script[0]
      case Acquire(l) => if MayTake(held, l) then Follow(held + multiset{l}, script[1..]) else None
      case Release(l) => if l in held then Follow(held - multiset{l}, script[1..]) else None
  }

  ghost predicate Ordered(held: Held, script: Script) {
    Follow(held, script) == Some(held)
  }

  lemma {:induction false} FollowAppend(held: Held, a: Script, b: Script)
    requires Follow(held, a).Some?
    ensures Follow(held, a + b) == Follow(Follow(held, a).value, b)
    decreases |a|
  {
    if a == [] {
      assert a + b == b;
    } else {
      assert (a + b)[0] == a[0] && (a + b)[1..] == a[1..] + b;
      match a[0]
      case Acquire(l) => FollowAppend(held + multiset{l}, a[1..], b);
      case Release(l) => FollowAppend(held - multiset{l}, a[1..], b);
    }
  }

  lemma OrderedAppend(held: Held, a: Script, b: Script)
    requires Ordered(held, a) && Ordered(held, b)
    ensures Ordered(held, a + b)
  {
    FollowAppend(held, a, b);
  }

  lemma OrderedLocked(held: Held, l: Lock, body: Script)
    requires MayTake(held, l) && Ordered(held + multiset{l}, body)
    ensures Ordered(held, Locked(l, body))
  {
    var inner := held + multiset{l};
    FollowAppend(inner, body, [Release(l)]);
    assert [Release(l)][1..] == [];
    assert inner - multiset{l} == held;
    assert Locked(l, body)[1..] == body + [Release(l)];
  }

  lemma {:induction false} OrderedRepeat(held: Held, n: nat, body: Script)
    requires Ordered(held, body)
    ensures Ordered(held, Repeat(n, body))
  {
    if n != 0 {
      OrderedRepeat(held, n - 1, body);
      OrderedAppend(held, body, Repeat(n - 1, body));
    }
  }

  /** Everything held ranks below `r`. */
  ghost predicate Below(held: Held, r: nat) {
    forall h :: h in held ==> Rank(h) < r
  }

  lemma OrderedLeaf(held: Held, l: Lock)
    requires MayTake(held, l)
    ensures Ordered(held, Locked(l, []))
  {
    OrderedLocked(held, l, []);
  }

  lemma {:induction false} OrderedEach<A(!new)>(held: Held, xs: seq<A>, f: A -> Script)
    requires forall x :: Ordered(held, f(x))
    ensures Ordered(held, Each(xs, f))
  {
    if xs != [] {
      OrderedEach(held, xs[1..], f);
      OrderedAppend(held, f(xs[0]), Each(xs[1..], f));
    }
  }

  // ---- every path

  lemma LooksOrdered(held: Held, q: Queue, n: nat)
    requires Below(held, 8)
    ensures Ordered(held, Looks(q, n))
  {
    OrderedLeaf(held, CondMutex(q));
    OrderedRepeat(held, n, Locked(CondMutex(q), []));
  }

  lemma OfferOrdered(held: Held, q: Queue, accepted: bool)
    requires Below(held, 7)
    ensures Ordered(held, Offer(q, accepted))
  {
    LooksOrdered(held + multiset{QueueMutex(q)}, q, if accepted then 2 else 0);
    OrderedLocked(held, QueueMutex(q), Looks(q, if accepted then 2 else 0));
  }

  lemma OfferIfOrdered(held: Held, q: Queue, offered: Option<bool>)
    requires Below(held, 7)
    ensures Ordered(held, OfferIf(q, offered))
  {
    if offered.Some? {
      OfferOrdered(held, q, offered.value);
    }
  }

  lemma PollOrdered(held: Held, q: Queue, p: Polling)
    requires Below(held, 7)
    ensures Ordered(held, Poll(q, p))
  {
    LooksOrdered(held, q, 1 + p.wakes);
    LooksOrdered(held + multiset{QueueMutex(q)}, q, p.looks);
    OrderedLocked(held, QueueMutex(q), Looks(q, p.looks));
    OrderedAppend(held, Looks(q, 1 + p.wakes), Locked(QueueMutex(q), Looks(q, p.looks)));
  }

  lemma ClearTurnOrdered(held: Held, q: Queue, p: Polling)
    requires Below(held, 7)
    ensures Ordered(held, ClearTurn(q, p))
  {
    PollOrdered(held, q, p);
    OrderedLeaf(held, QueueMutex(q));
    OrderedAppend(held, Size(q), Poll(q, p));
  }

  lemma FlushOrdered(held: Held, polls: seq<Polling>)
    requires Below(held, 7)
    ensures Ordered(held, Flush(polls))
  {
    forall p ensures Ordered(held, FlushTurn(p)) {
      ClearTurnOrdered(held, Incoming, p);
    }
    OrderedEach(held, polls, FlushTurn);
    OrderedLeaf(held, QueueMutex(Incoming));
    OrderedAppend(held, Each(polls, FlushTurn), Size(Incoming));
  }

  lemma DriverCloseOrdered(held: Held, c: Closing)
    requires Below(held, 6)
    ensures Ordered(held, DriverClose(c))
  {
    OfferOrdered(held + multiset{DriverMutex}, Incoming, c.accepted);
    OrderedLocked(held, DriverMutex, if c.wasOpen then Offer(Incoming, c.accepted) else []);
  }

  lemma DriverCallOrdered(held: Held)
    requires Below(held, 6)
    ensures Ordered(held, DriverCall())
  {
    OrderedLeaf(held, DriverMutex);
  }

  lemma StaleTurnOrdered(held: Held, p: Polling)
    requires Below(held, 6)
    ensures Ordered(held, StaleTurn(p))
  {
    PollOrdered(held, Incoming, p);
    DriverCallOrdered(held);
    OrderedAppend(held, Poll(Incoming, p), DriverCall());
  }

  lemma PollsOrdered(held: Held, stale: seq<Polling>, last: Polling)
    requires Below(held, 6)
    ensures Ordered(held, DriverCall() + (Each(stale, StaleTurn) + Poll(Incoming, last)))
  {
    forall p ensures Ordered(held, StaleTurn(p)) {
      StaleTurnOrdered(held, p);
    }
    OrderedEach(held, stale, StaleTurn);
    PollOrdered(held, Incoming, last);
    OrderedAppend(held, Each(stale, StaleTurn), Poll(Incoming, last));
    DriverCallOrdered(held);
    OrderedAppend(held, DriverCall(), Each(stale, StaleTurn) + Poll(Incoming, last));
  }

  lemma DriverReadOrdered(held: Held, r: Reading)
    requires Below(held, 6)
    ensures Ordered(held, DriverRead(r))
  {
    match r {
      case NotOpen => DriverCallOrdered(held);
      case Frame(stale, last) => PollsOrdered(held, stale, last);
      case Flushed(stale, last, polls) =>
        PollsOrdered(held, stale, last);
        FlushOrdered(held + multiset{DriverMutex}, polls);
        OrderedLocked(held, DriverMutex, Flush(polls));
        OrderedAppend(held, DriverCall() + (Each(stale, StaleTurn) + Poll(Incoming, last)), Locked(DriverMutex, Flush(polls)));
    }
  }

  /** Where calls into the library come from: an application thread, or a listener under rMutex and a connection's mutex. */
  ghost predicate CallSite(held: Held) {
    Below(held, 4) && MayTake(held, RMutex)
  }

  lemma BusSectionOrdered(held: Held, called: bool)
    requires Below(held, 5) && MayTake(held, RMutex) && MayTake(held, WMutex)
    ensures Ordered(held, BusSection(called))
  {
    var r := held + multiset{RMutex};
    var body := if called then DriverCall() else [];
    DriverCallOrdered(r + multiset{WMutex});
    OrderedLocked(r, WMutex, body);
    OrderedLocked(held, RMutex, Locked(WMutex, body));
  }

  /** One attempt of a retrying send takes both bus mutexes twice over. */
  lemma AttemptOrdered(held: Held, a: Attempt)
    requires CallSite(held)
    ensures Ordered(held, AttemptScript(a))
  {
    var r := held + multiset{RMutex};
    var body := if a.started then BusSection(a.called) else [];
    BusSectionOrdered(r + multiset{WMutex}, a.called);
    OrderedLocked(r, WMutex, body);
    OrderedLocked(held, RMutex, Locked(WMutex, body));
  }

  lemma SendAsyncOrdered(held: Held, offered: Option<bool>)
    requires CallSite(held)
    ensures Ordered(held, DriverCall() + Locked(WMutex, OfferIf(Outgoing, offered)))
  {
    OfferIfOrdered(held + multiset{WMutex}, Outgoing, offered);
    OrderedLocked(held, WMutex, OfferIf(Outgoing, offered));
    DriverCallOrdered(held);
    OrderedAppend(held, DriverCall(), Locked(WMutex, OfferIf(Outgoing, offered)));
  }

  /** Every call that an application or a listener may make keeps to the order. */
  lemma CallOrdered(held: Held, c: Call)
    requires CallSite(held)
    ensures Ordered(held, CallScript(c))
  {
    DriverCallOrdered(held);
    match c {
      case Send(called) =>
        BusSectionOrdered(held, called);
        OrderedAppend(held, DriverCall(), BusSection(called));
      case SendRetrying(attempts) =>
        forall a ensures Ordered(held, AttemptScript(a)) {
          AttemptOrdered(held, a);
        }
        OrderedEach(held, attempts, AttemptScript);
        OrderedAppend(held, DriverCall(), Each(attempts, AttemptScript));
      case SendAsync(offered) => SendAsyncOrdered(held, offered);
      case Ping(called) => BusSectionOrdered(held, called);
      case AddressCall =>
    }
  }

  lemma CallsOrdered(held: Held, calls: seq<Call>)
    requires CallSite(held)
    ensures Ordered(held, Each(calls, CallScript))
  {
    forall c ensures Ordered(held, CallScript(c)) {
      CallOrdered(held, c);
    }
    OrderedEach(held, calls, CallScript);
  }

  lemma VisitOrdered(held: Held, v: Visit)
    requires Below(held, 3) && RMutex in held
    ensures Ordered(held, VisitScript(v))
  {
    CallsOrdered(held + multiset{Connection(v.connection)}, v.calls);
    OrderedLocked(held, Connection(v.connection), Each(v.calls, CallScript));
  }

  lemma RoundOrdered(held: Held, r: Round)
    requires Below(held, 2)
    ensures Ordered(held, RoundScript(r))
  {
    var inside := held + multiset{RMutex};
    DriverReadOrdered(held, r.reading);
    forall v ensures Ordered(inside, VisitScript(v)) {
      VisitOrdered(inside, v);
    }
    OrderedEach(inside, r.visits, VisitScript);
    OrderedLocked(held, RMutex, Each(r.visits, VisitScript));
    OrderedAppend(held, DriverRead(r.reading),
      if r.reading.Frame? then Locked(RMutex, Each(r.visits, VisitScript)) else []);
  }

  /** The reader's loop keeps to the order, with listeners that call back into the library during a notification. */
  lemma ReaderThreadOrdered(rounds: seq<Round>)
    ensures Ordered(multiset{}, ScriptOf(ReaderThread(rounds)))
  {
    var held := multiset{} + multiset{ReaderAlive};
    forall r ensures Ordered(held, RoundScript(r)) {
      RoundOrdered(held, r);
    }
    OrderedEach(held, rounds, RoundScript);
    OrderedLocked(multiset{}, ReaderAlive, Each(rounds, RoundScript));
  }

  lemma WriterTurnOrdered(held: Held, t: WriterTurn)
    requires Below(held, 6)
    ensures Ordered(held, WriterTurnScript(t))
  {
    PollOrdered(held, Outgoing, t.polling);
    DriverCallOrdered(held);
    OrderedAppend(held, Poll(Outgoing, t.polling), if t.wrote then DriverCall() else []);
  }

  lemma DrainOrdered(held: Held, drains: seq<Polling>)
    requires Below(held, 6)
    ensures Ordered(held, Each(drains, DrainTurn) + Size(Outgoing))
  {
    forall p ensures Ordered(held, DrainTurn(p)) {
      ClearTurnOrdered(held, Outgoing, p);
    }
    OrderedEach(held, drains, DrainTurn);
    OrderedLeaf(held, QueueMutex(Outgoing));
    OrderedAppend(held, Each(drains, DrainTurn), Size(Outgoing));
  }

  lemma WriterThreadOrdered(turns: seq<WriterTurn>, drains: seq<Polling>)
    ensures Ordered(multiset{}, ScriptOf(WriterThread(turns, drains)))
  {
    var held := multiset{} + multiset{WriterAlive};
    forall t ensures Ordered(held, WriterTurnScript(t)) {
      WriterTurnOrdered(held, t);
    }
    OrderedEach(held, turns, WriterTurnScript);
    DrainOrdered(held, drains);
    OrderedAppend(held, Each(turns, WriterTurnScript), Each(drains, DrainTurn) + Size(Outgoing));
    OrderedLocked(multiset{}, WriterAlive, Each(turns, WriterTurnScript) + (Each(drains, DrainTurn) + Size(Outgoing)));
  }

  lemma StopReaderOrdered(held: Held, c: Closing)
    requires Below(held, 1)
    ensures Ordered(held, StopReader(c))
  {
    OrderedLeaf(held + multiset{RMutex}, WMutex);
    OrderedLocked(held, RMutex, Locked(WMutex, []));
    OrderedLeaf(held, RMutex);
    OrderedAppend(held, Locked(RMutex, Locked(WMutex, [])), Locked(RMutex, []));
    DriverCloseOrdered(held, c);
    OrderedLeaf(held, ReaderAlive);
    OrderedAppend(held, DriverClose(c), Locked(ReaderAlive, []));
    OrderedAppend(held, Locked(RMutex, Locked(WMutex, [])) + Locked(RMutex, []), DriverClose(c) + Locked(ReaderAlive, []));
  }

  lemma StopWriterOrdered(held: Held, offered: Option<bool>)
    requires Below(held, 2)
    ensures Ordered(held, StopWriter(offered))
  {
    var r := held + multiset{RMutex};
    var w := r + multiset{WMutex};
    var asks := OfferIf(Outgoing, offered);
    OfferIfOrdered(w + multiset{WMutex}, Outgoing, offered);
    OrderedLocked(w, WMutex, asks);
    OrderedLeaf(w, WriterAlive);
    OrderedAppend(w, Locked(WMutex, asks), Locked(WriterAlive, []));
    OrderedLocked(r, WMutex, Locked(WMutex, asks) + Locked(WriterAlive, []));
    OrderedLocked(held, RMutex, Locked(WMutex, Locked(WMutex, asks) + Locked(WriterAlive, [])));
  }

  lemma TermBodyOrdered(held: Held, t: Termination)
    requires Below(held, 1)
    ensures Ordered(held, TermBody(t))
  {
    match t {
      case TermRefused =>
      case Stops(first, offered, second, third) =>
        var last := if third.Some? then DriverClose(third.value) else [];
        StopReaderOrdered(held, first);
        StopWriterOrdered(held, offered);
        OrderedAppend(held, StopReader(first), StopWriter(offered));
        DriverCloseOrdered(held, second);
        if third.Some? {
          DriverCloseOrdered(held, third.value);
        }
        OrderedAppend(held, DriverClose(second), last);
        OrderedAppend(held, StopReader(first) + StopWriter(offered), DriverClose(second) + last);
    }
  }

  lemma InitBodyOrdered(held: Held, i: Initiation)
    requires Below(held, 1)
    ensures Ordered(held, InitBody(i))
  {
    DriverCallOrdered(held);
    BusSectionOrdered(held, true);
    OrderedAppend(held, DriverCall(), BusSection(true));
  }

  lemma InitOrdered(i: Initiation)
    ensures Ordered(multiset{}, ScriptOf(Init(i)))
  {
    InitBodyOrdered(multiset{} + multiset{Library}, i);
    OrderedLocked(multiset{}, Library, InitBody(i));
  }

  /** Term keeps to the order, its two waits for worker threads included. */
  lemma TermOrdered(t: Termination)
    ensures Ordered(multiset{}, ScriptOf(Term(t)))
  {
    TermBodyOrdered(multiset{} + multiset{Library}, t);
    OrderedLocked(multiset{}, Library, TermBody(t));
  }

  lemma ConnectionCloseOrdered(id: nat)
    ensures Ordered(multiset{}, ScriptOf(ConnectionClose(id)))
  {
    OrderedLeaf(multiset{}, Connection(id));
    OrderedLeaf(multiset{}, RMutex);
    OrderedAppend(multiset{}, Locked(Connection(id), []), Locked(RMutex, []));
  }

  /** Every path keeps to the rank order, and ends with nothing held. */
  lemma EveryPathOrdered(p: Path)
    ensures Ordered(multiset{}, ScriptOf(p))
  {
    match p {
      case ReaderThread(rounds) => ReaderThreadOrdered(rounds);
      case WriterThread(turns, drains) => WriterThreadOrdered(turns, drains);
      case Callback(offered) => OfferIfOrdered(multiset{}, Incoming, offered);
      case Init(initiation) => InitOrdered(initiation);
      case Term(termination) => TermOrdered(termination);
      case Application(calls) => CallsOrdered(multiset{}, calls);
      case ConnectionOpen => OrderedLeaf(multiset{}, RMutex);
      case ConnectionClose(id) => ConnectionCloseOrdered(id);
      case ListenerChange(id) => OrderedLeaf(multiset{}, Connection(id));
    }
  }

  // ---- any number of threads, each on one path after another

  datatype Thread = Thread(held: Held, todo: Script)

  type State = map<nat, Thread>

  datatype Action = Begin(t: nat, path: Path) | Move(t: nat)

  ghost predicate WaitsFor(s: State, t: nat, u: nat) {
    && t in s && u in s && t != u
    && s[t].todo != [] && s[t].todo[0].Acquire? && s[t].todo[0].lock in s[u].held
  }

  ghost predicate Blocked(s: State, t: nat) {
    exists u :: WaitsFor(s, t, u)
  }

  ghost function Moved(th: Thread): Thread
    requires th.todo != []
  {
    match th.todo[0]
    case Acquire(l) => Thread(th.held + multiset{l}, th.todo[1..])
    case Release(l) => Thread(th.held - multiset{l}, th.todo[1..])
  }

  ghost function Do(s: State, a: Action): State {
    if a.t !in s then s else
    match a
    case Begin(t, path) => if s[t].todo == [] then s[t := Thread(s[t].held, ScriptOf(path))] else s
    case Move(t) => if s[t].todo == [] || Blocked(s, t) then s else s[t := Moved(s[t])]
  }

  ghost function Run(threads: set<nat>, acts: seq<Action>): State {
    if acts == [] then map t | t in threads :: Thread(multiset{}, [])
    else Do(Run(threads, acts[..|acts| - 1]), acts[|acts| - 1])
  }

  ghost predicate Disciplined(th: Thread) {
    Follow(th.held, th.todo) == Some(multiset{})
  }

  ghost predicate Inv(s: State) {
    (forall t :: t in s ==> Disciplined(s[t])) && Exclusive(s)
  }

  /** Nothing is held by two threads. */
  ghost predicate Exclusive(s: State) {
    forall t, u, l :: t in s && u in s && t != u && l in s[t].held ==> l !in s[u].held
  }

  lemma MoveKeepsDiscipline(th: Thread)
    requires Disciplined(th) && th.todo != []
    ensures Disciplined(Moved(th))
  {
  }

  lemma ReplacedIsExclusive(s: State, t: nat, th: Thread)
    requires Exclusive(s) && t in s
    requires forall u, l :: u in s && u != t && l in th.held ==> l !in s[u].held
    ensures Exclusive(s[t := th])
  {
  }

  /** One thread may change, if it stays disciplined and takes nothing that another holds. */
  lemma ReplacedThread(s: State, t: nat, th: Thread)
    requires Inv(s) && t in s && Disciplined(th)
    requires forall u, l :: u in s && u != t && l in th.held ==> l !in s[u].held
    ensures Inv(s[t := th])
  {
    ReplacedIsExclusive(s, t, th);
  }

  lemma BeginKeepsInv(s: State, t: nat, path: Path)
    requires Inv(s) && t in s && s[t].todo == []
    ensures Inv(s[t := Thread(s[t].held, ScriptOf(path))])
  {
    assert Disciplined(s[t]);
    EveryPathOrdered(path);
    ReplacedThread(s, t, Thread(s[t].held, ScriptOf(path)));
  }

  lemma MoveKeepsInv(s: State, t: nat)
    requires Inv(s) && t in s && s[t].todo != [] && !Blocked(s, t)
    ensures Inv(s[t := Moved(s[t])])
  {
    assert Disciplined(s[t]);
    MoveKeepsDiscipline(s[t]);
    MoveKeepsExclusion(s, t);
    ReplacedThread(s, t, Moved(s[t]));
  }

  lemma StepKeepsInv(s: State, a: Action)
    requires Inv(s)
    ensures Inv(Do(s, a))
  {
    if a.t in s {
      if a.Begin? {
        if s[a.t].todo == [] {
          BeginKeepsInv(s, a.t, a.path);
        }
      } else if s[a.t].todo != [] && !Blocked(s, a.t) {
        MoveKeepsInv(s, a.t);
      }
    }
  }

  lemma MoveKeepsExclusion(s: State, t: nat)
    requires Inv(s) && t in s && s[t].todo != [] && !Blocked(s, t)
    ensures forall u, l :: u in s && u != t && l in Moved(s[t]).held ==> l !in s[u].held
  {
    forall u, l | u in s && u != t && l in Moved(s[t]).held ensures l !in s[u].held {
      assert !WaitsFor(s, t, u);
    }
  }

  lemma {:induction false} RunKeepsInv(threads: set<nat>, acts: seq<Action>)
    ensures Inv(Run(threads, acts))
  {
    if acts != [] {
      RunKeepsInv(threads, acts[..|acts| - 1]);
      StepKeepsInv(Run(threads, acts[..|acts| - 1]), acts[|acts| - 1]);
    }
  }

  /** The rank of the lock a waiting thread wants. */
  function Wanted(s: State, t: nat): nat {
    if t in s && s[t].todo != [] then Rank(s[t].todo[0].lock) else 0
  }

  /** Along a chain of waiting threads the locks they want rank higher and higher. */
  lemma WantsHigher(s: State, t: nat, u: nat, v: nat)
    requires Inv(s) && WaitsFor(s, t, u) && WaitsFor(s, u, v)
    ensures Wanted(s, t) < Wanted(s, u)
  {
    assert Disciplined(s[u]);
    assert MayTake(s[u].held, s[u].todo[0].lock);
  }

  ghost predicate Chain(s: State, c: seq<nat>) {
    forall i, j :: 0 <= i < |c| && 0 <= j < |c| && j == i + 1 ==> WaitsFor(s, c[i], c[j])
  }

  lemma {:induction false} ChainRises(s: State, c: seq<nat>)
    requires Inv(s) && Chain(s, c) && |c| >= 3
    ensures Wanted(s, c[0]) < Wanted(s, c[|c| - 2])
  {
    var n := |c|;
    WantsHigher(s, c[n - 3], c[n - 2], c[n - 1]);
    if n > 3 {
      ChainRises(s, c[..n - 1]);
    }
  }

  /** No circular wait, whatever the number of threads and whatever they have been doing. */
  lemma NoCircularWait(threads: set<nat>, acts: seq<Action>, c: seq<nat>)
    requires |c| >= 2 && c[0] == c[|c| - 1]
    ensures !Chain(Run(threads, acts), c)
  {
    var s := Run(threads, acts);
    RunKeepsInv(threads, acts);
    if Chain(s, c) {
      var longer := c + [c[1]];
      assert Chain(s, longer);
      ChainRises(s, longer);
    }
  }

  lemma HolderHasWork(th: Thread, l: Lock)
    requires Disciplined(th) && l in th.held
    ensures th.todo != []
  {
  }

  lemma WantedIsRank(s: State, t: nat)
    ensures Wanted(s, t) <= 8
  {
  }

  lemma {:induction false} UnblockedFrom(s: State, t: nat) returns (u: nat)
    requires Inv(s) && t in s && s[t].todo != []
    ensures u in s && s[u].todo != [] && !Blocked(s, u)
    decreases 9 - Wanted(s, t)
  {
    if Blocked(s, t) {
      var v :| WaitsFor(s, t, v);
      HolderHasWork(s[v], s[t].todo[0].lock);
      if Blocked(s, v) {
        var w :| WaitsFor(s, v, w);
        WantsHigher(s, t, v, w);
        WantedIsRank(s, v);
        u := UnblockedFrom(s, v);
      } else {
        u := v;
      }
    } else {
      u := t;
    }
  }

  /** No deadlock: while any thread has something left to do, some thread can go on. */
  lemma SomebodyCanMove(threads: set<nat>, acts: seq<Action>, t: nat)
    requires var s := Run(threads, acts); t in s && s[t].todo != []
    ensures var s := Run(threads, acts); exists u :: u in s && s[u].todo != [] && !Blocked(s, u)
  {
    RunKeepsInv(threads, acts);
    var u := UnblockedFrom(Run(threads, acts), t);
  }
}
