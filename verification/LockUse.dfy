/**
 * The deepest nestings of locks that the paths in LockOrder come to: which locks a thread already has when it takes
 * another. They show that the order of the ranks is needed, and that it is used.
 */
module LockUse {
  import opened Base
  import opened LockOrder

  /** Somewhere in the script the thread takes `l`, and what it has by then is `inner`. */
  ghost predicate Takes(held: Held, script: Script, inner: Held, l: Lock) {
    exists i :: 0 <= i < |script| && script[i] == Acquire(l) && Follow(held, script[..i]) == Some(inner)
  }

  lemma TakesFirst(held: Held, l: Lock, body: Script)
    ensures Takes(held, Locked(l, body), held, l)
  {
    var script := Locked(l, body);
    assert script[0] == Acquire(l) && script[..0] == [];
  }

  lemma TakesInside(held: Held, l: Lock, body: Script, inner: Held, x: Lock)
    requires MayTake(held, l) && Takes(held + multiset{l}, body, inner, x)
    ensures Takes(held, Locked(l, body), inner, x)
  {
    var i :| 0 <= i < |body| && body[i] == Acquire(x) && Follow(held + multiset{l}, body[..i]) == Some(inner);
    var script := Locked(l, body);
    assert script[i + 1] == body[i] && script[..i + 1][0] == Acquire(l) && script[..i + 1][1..] == body[..i];
  }

  lemma TakesLeft(held: Held, a: Script, b: Script, inner: Held, x: Lock)
    requires Takes(held, a, inner, x)
    ensures Takes(held, a + b, inner, x)
  {
    var i :| 0 <= i < |a| && a[i] == Acquire(x) && Follow(held, a[..i]) == Some(inner);
    assert (a + b)[i] == a[i] && (a + b)[..i] == a[..i];
  }

  lemma TakesRight(held: Held, a: Script, b: Script, inner: Held, x: Lock)
    requires Ordered(held, a) && Takes(held, b, inner, x)
    ensures Takes(held, a + b, inner, x)
  {
    var i :| 0 <= i < |b| && b[i] == Acquire(x) && Follow(held, b[..i]) == Some(inner);
    FollowAppend(held, a, b[..i]);
    assert (a + b)[|a| + i] == b[i] && (a + b)[..|a| + i] == a + b[..i];
  }

  lemma TakesOnly<A>(held: Held, one: A, f: A -> Script, inner: Held, x: Lock)
    requires Takes(held, f(one), inner, x)
    ensures Takes(held, Each([one], f), inner, x)
  {
    assert [one][1..] == [];
    TakesLeft(held, f(one), Each([], f), inner, x);
  }

  /** An accepted offer sets the flag while it has the queue. */
  lemma OfferTakes(held: Held, q: Queue)
    requires Below(held, 7)
    ensures Takes(held, Offer(q, true), held + multiset{QueueMutex(q)}, CondMutex(q))
  {
    var inside, look := held + multiset{QueueMutex(q)}, Locked(CondMutex(q), []);
    TakesFirst(inside, CondMutex(q), []);
    TakesLeft(inside, look, Repeat(1, look), inside, CondMutex(q));
    TakesInside(held, QueueMutex(q), Looks(q, 2), inside, CondMutex(q));
  }

  lemma PollTakes(held: Held, q: Queue, p: Polling)
    requires Below(held, 7) && p.looks > 0
    ensures Takes(held, Poll(q, p), held + multiset{QueueMutex(q)}, CondMutex(q))
    ensures Takes(held, Poll(q, p), held, CondMutex(q))
  {
    var inside, look := held + multiset{QueueMutex(q)}, Locked(CondMutex(q), []);
    var waiting, rest := Looks(q, 1 + p.wakes), Locked(QueueMutex(q), Looks(q, p.looks));
    TakesFirst(inside, CondMutex(q), []);
    TakesLeft(inside, look, Repeat(p.looks - 1, look), inside, CondMutex(q));
    TakesInside(held, QueueMutex(q), Looks(q, p.looks), inside, CondMutex(q));
    LooksOrdered(held, q, 1 + p.wakes);
    TakesRight(held, waiting, rest, inside, CondMutex(q));
    TakesFirst(held, CondMutex(q), []);
    TakesLeft(held, look, Repeat(p.wakes, look), held, CondMutex(q));
    TakesLeft(held, waiting, rest, held, CondMutex(q));
  }

  lemma BusSectionTakes(held: Held)
    requires Below(held, 5) && MayTake(held, RMutex) && MayTake(held, WMutex)
    ensures Takes(held, BusSection(true), held + multiset{RMutex} + multiset{WMutex}, DriverMutex)
  {
    var r := held + multiset{RMutex};
    var w := r + multiset{WMutex};
    TakesFirst(w, DriverMutex, []);
    TakesInside(r, WMutex, DriverCall(), w, DriverMutex);
    TakesInside(held, RMutex, Locked(WMutex, DriverCall()), w, DriverMutex);
  }

  // ---- path by path

  lemma AttemptTakes(held: Held)
    requires CallSite(held)
    ensures Takes(held, AttemptScript(Attempt(true, true)),
                  held + multiset{RMutex} + multiset{WMutex} + multiset{RMutex} + multiset{WMutex}, DriverMutex)
  {
    var r, w := held + multiset{RMutex}, held + multiset{RMutex} + multiset{WMutex};
    var deepest := w + multiset{RMutex} + multiset{WMutex};
    BusSectionTakes(w);
    TakesInside(r, WMutex, BusSection(true), deepest, DriverMutex);
    TakesInside(held, RMutex, Locked(WMutex, BusSection(true)), deepest, DriverMutex);
  }

  lemma SendTakes(held: Held)
    requires CallSite(held)
    ensures Takes(held, CallScript(SendRetrying([Attempt(true, true)])),
                  held + multiset{RMutex} + multiset{WMutex} + multiset{RMutex} + multiset{WMutex}, DriverMutex)
  {
    var deepest := held + multiset{RMutex} + multiset{WMutex} + multiset{RMutex} + multiset{WMutex};
    AttemptTakes(held);
    TakesOnly(held, Attempt(true, true), AttemptScript, deepest, DriverMutex);
    DriverCallOrdered(held);
    TakesRight(held, DriverCall(), Each([Attempt(true, true)], AttemptScript), deepest, DriverMutex);
  }

  /** A listener that sends with retries, from within its notification, has both bus mutexes twice over. */
  lemma ListenerSends(id: nat, p: Polling)
    ensures
      var sends := SendRetrying([Attempt(true, true)]);
      Takes(multiset{}, ScriptOf(ReaderThread([Round(Frame([], p), [Visit(id, [sends])])])),
            multiset{ReaderAlive, RMutex, Connection(id), RMutex, WMutex, RMutex, WMutex}, DriverMutex)
  {
    var inside := multiset{ReaderAlive, RMutex, Connection(id)};
    var deepest := inside + multiset{RMutex} + multiset{WMutex} + multiset{RMutex} + multiset{WMutex};
    SendTakes(inside);
    DispatchTakes(id, p, SendRetrying([Attempt(true, true)]), deepest, DriverMutex);
    assert deepest == multiset{ReaderAlive, RMutex, Connection(id), RMutex, WMutex, RMutex, WMutex};
  }

  lemma RoundTakes(round: Round, inner: Held, l: Lock)
    requires Takes(multiset{ReaderAlive}, RoundScript(round), inner, l)
    ensures Takes(multiset{}, ScriptOf(ReaderThread([round])), inner, l)
  {
    var held := multiset{ReaderAlive};
    TakesOnly(held, round, RoundScript, inner, l);
    assert multiset{} + multiset{ReaderAlive} == held;
    TakesInside(multiset{}, ReaderAlive, Each([round], RoundScript), inner, l);
  }

  lemma VisitTakes(v: Visit, c: Call, inner: Held, l: Lock)
    requires v.calls == [c] && Takes(multiset{ReaderAlive, RMutex, Connection(v.connection)}, CallScript(c), inner, l)
    ensures Takes(multiset{ReaderAlive, RMutex}, VisitScript(v), inner, l)
  {
    var r, all := multiset{ReaderAlive, RMutex}, multiset{ReaderAlive, RMutex, Connection(v.connection)};
    TakesOnly(all, c, CallScript, inner, l);
    assert r + multiset{Connection(v.connection)} == all;
    TakesInside(r, Connection(v.connection), Each([c], CallScript), inner, l);
  }

  lemma VisitsTake(r: Reading, v: Visit, inner: Held, l: Lock)
    requires r.Frame? && Takes(multiset{ReaderAlive, RMutex}, VisitScript(v), inner, l)
    ensures Takes(multiset{ReaderAlive}, RoundScript(Round(r, [v])), inner, l)
  {
    var held := multiset{ReaderAlive};
    TakesOnly(multiset{ReaderAlive, RMutex}, v, VisitScript, inner, l);
    assert held + multiset{RMutex} == multiset{ReaderAlive, RMutex};
    TakesInside(held, RMutex, Each([v], VisitScript), inner, l);
    DriverReadOrdered(held, r);
    TakesRight(held, DriverRead(r), Locked(RMutex, Each([v], VisitScript)), inner, l);
  }

  /** What a listener's call takes is taken with the reader's own locks in hand. */
  lemma DispatchTakes(id: nat, p: Polling, c: Call, inner: Held, l: Lock)
    requires Takes(multiset{ReaderAlive, RMutex, Connection(id)}, CallScript(c), inner, l)
    ensures Takes(multiset{}, ScriptOf(ReaderThread([Round(Frame([], p), [Visit(id, [c])])])), inner, l)
  {
    VisitTakes(Visit(id, [c]), c, inner, l);
    VisitsTake(Frame([], p), Visit(id, [c]), inner, l);
    RoundTakes(Round(Frame([], p), [Visit(id, [c])]), inner, l);
  }

  lemma SendAsyncTakes(held: Held)
    requires CallSite(held)
    ensures Takes(held, CallScript(SendAsync(Some(true))),
                  held + multiset{WMutex} + multiset{QueueMutex(Outgoing)}, CondMutex(Outgoing))
  {
    var w, offer := held + multiset{WMutex}, OfferIf(Outgoing, Some(true));
    var deepest := w + multiset{QueueMutex(Outgoing)};
    OfferTakes(w, Outgoing);
    TakesInside(held, WMutex, offer, deepest, CondMutex(Outgoing));
    DriverCallOrdered(held);
    TakesRight(held, DriverCall(), Locked(WMutex, offer), deepest, CondMutex(Outgoing));
  }

  /** A listener that sends asynchronously reaches the transmit queue's flag. */
  lemma ListenerQueues(id: nat, p: Polling)
    ensures Takes(multiset{}, ScriptOf(ReaderThread([Round(Frame([], p), [Visit(id, [SendAsync(Some(true))])])])),
                  multiset{ReaderAlive, RMutex, Connection(id), WMutex, QueueMutex(Outgoing)}, CondMutex(Outgoing))
  {
    var inside := multiset{ReaderAlive, RMutex, Connection(id)};
    var deepest := inside + multiset{WMutex} + multiset{QueueMutex(Outgoing)};
    SendAsyncTakes(inside);
    DispatchTakes(id, p, SendAsync(Some(true)), deepest, CondMutex(Outgoing));
    assert deepest == multiset{ReaderAlive, RMutex, Connection(id), WMutex, QueueMutex(Outgoing)};
  }

  lemma FlushTakes(held: Held, q: Polling)
    requires Below(held, 7) && q.looks > 0
    ensures Takes(held, Flush([q]), held + multiset{QueueMutex(Incoming)}, CondMutex(Incoming))
  {
    var deepest, c := held + multiset{QueueMutex(Incoming)}, CondMutex(Incoming);
    PollTakes(held, Incoming, q);
    OrderedLeaf(held, QueueMutex(Incoming));
    TakesRight(held, Size(Incoming), Poll(Incoming, q), deepest, c);
    TakesOnly(held, q, FlushTurn, deepest, c);
    TakesLeft(held, Each([q], FlushTurn), Size(Incoming), deepest, c);
  }

  lemma FlushReadTakes(held: Held, p: Polling, q: Polling, inner: Held, l: Lock)
    requires Below(held, 6) && Takes(held + multiset{DriverMutex}, Flush([q]), inner, l)
    ensures Takes(held, DriverRead(Flushed([], p, [q])), inner, l)
  {
    TakesInside(held, DriverMutex, Flush([q]), inner, l);
    PollsOrdered(held, [], p);
    TakesRight(held, DriverCall() + (Each([], StaleTurn) + Poll(Incoming, p)), Locked(DriverMutex, Flush([q])), inner, l);
  }

  /** The reader that empties its queue has the driver. */
  lemma ReaderFlushes(p: Polling, q: Polling)
    requires q.looks > 0
    ensures Takes(multiset{}, ScriptOf(ReaderThread([Round(Flushed([], p, [q]), [])])),
                  multiset{ReaderAlive, DriverMutex, QueueMutex(Incoming)}, CondMutex(Incoming))
  {
    var held, round := multiset{ReaderAlive}, Round(Flushed([], p, [q]), []);
    var deepest := held + multiset{DriverMutex} + multiset{QueueMutex(Incoming)};
    FlushTakes(held + multiset{DriverMutex}, q);
    FlushReadTakes(held, p, q, deepest, CondMutex(Incoming));
    TakesLeft(held, DriverRead(round.reading), [], deepest, CondMutex(Incoming));
    RoundTakes(round, deepest, CondMutex(Incoming));
    assert deepest == multiset{ReaderAlive, DriverMutex, QueueMutex(Incoming)};
  }

  /** A turn of the writer takes the queue's locks and, with a frame, the driver's, one after the other. */
  lemma WriterTakes(p: Polling, drains: seq<Polling>)
    requires p.looks > 0
    ensures var script := ScriptOf(WriterThread([WriterTurn(p, true)], drains));
      && Takes(multiset{}, script, multiset{WriterAlive, QueueMutex(Outgoing)}, CondMutex(Outgoing))
      && Takes(multiset{}, script, multiset{WriterAlive}, DriverMutex)
  {
    var held := multiset{} + multiset{WriterAlive};
    var deepest := held + multiset{QueueMutex(Outgoing)};
    PollTakes(held, Outgoing, p);
    TakesLeft(held, Poll(Outgoing, p), DriverCall(), deepest, CondMutex(Outgoing));
    WriterTurnTakes(p, drains, deepest, CondMutex(Outgoing));
    PollOrdered(held, Outgoing, p);
    TakesFirst(held, DriverMutex, []);
    TakesRight(held, Poll(Outgoing, p), DriverCall(), held, DriverMutex);
    WriterTurnTakes(p, drains, held, DriverMutex);
    assert deepest == multiset{WriterAlive, QueueMutex(Outgoing)} && held == multiset{WriterAlive};
  }

  lemma WriterTurnTakes(p: Polling, drains: seq<Polling>, inner: Held, l: Lock)
    requires Takes(multiset{} + multiset{WriterAlive}, WriterTurnScript(WriterTurn(p, true)), inner, l)
    ensures Takes(multiset{}, ScriptOf(WriterThread([WriterTurn(p, true)], drains)), inner, l)
  {
    var held, t := multiset{} + multiset{WriterAlive}, WriterTurn(p, true);
    TakesOnly(held, t, WriterTurnScript, inner, l);
    TakesLeft(held, Each([t], WriterTurnScript), Each(drains, DrainTurn) + Size(Outgoing), inner, l);
    TakesInside(multiset{}, WriterAlive, Each([t], WriterTurnScript) + (Each(drains, DrainTurn) + Size(Outgoing)), inner, l);
  }

  /** What is taken in one of the three parts of a term that stops the bus. */
  lemma TermTakes(t: Termination, inner: Held, l: Lock)
    requires t.Stops?
    requires
      var held := multiset{} + multiset{Library};
      Takes(held, StopReader(t.first), inner, l) || Takes(held, StopWriter(t.offered), inner, l)
    ensures Takes(multiset{}, ScriptOf(Term(t)), inner, l)
  {
    var held := multiset{} + multiset{Library};
    var first, middle := StopReader(t.first), StopWriter(t.offered);
    if Takes(held, first, inner, l) {
      TakesLeft(held, first, middle, inner, l);
    } else {
      StopReaderOrdered(held, t.first);
      TakesRight(held, first, middle, inner, l);
    }
    TakesLeft(held, first + middle, DriverClose(t.second) + if t.third.Some? then DriverClose(t.third.value) else [], inner, l);
    TakesInside(multiset{}, Library, TermBody(t), inner, l);
  }

  /** Term waits for the reader with nothing but the library's mutex, after closing the driver. */
  lemma TermWaitsForReader(t: Termination)
    requires t.Stops?
    ensures Takes(multiset{}, ScriptOf(Term(t)), multiset{Library}, ReaderAlive)
  {
    var held := multiset{} + multiset{Library};
    StopReaderStarts(held);
    DriverCloseOrdered(held, t.first);
    TakesFirst(held, ReaderAlive, []);
    TakesRight(held, DriverClose(t.first), Locked(ReaderAlive, []), held, ReaderAlive);
    TakesRight(held, Locked(RMutex, Locked(WMutex, [])) + Locked(RMutex, []),
      DriverClose(t.first) + Locked(ReaderAlive, []), held, ReaderAlive);
    TermTakes(t, held, ReaderAlive);
    assert held == multiset{Library};
  }

  lemma StopReaderStarts(held: Held)
    requires Below(held, 1)
    ensures Ordered(held, Locked(RMutex, Locked(WMutex, [])) + Locked(RMutex, []))
  {
    OrderedLeaf(held + multiset{RMutex}, WMutex);
    OrderedLocked(held, RMutex, Locked(WMutex, []));
    OrderedLeaf(held, RMutex);
    OrderedAppend(held, Locked(RMutex, Locked(WMutex, [])), Locked(RMutex, []));
  }

  /** The sentinel of a close is offered under the driver's mutex. */
  lemma TermCloses(t: Termination)
    requires t.Stops? && t.first == Closing(true, true)
    ensures Takes(multiset{}, ScriptOf(Term(t)), multiset{Library, DriverMutex, QueueMutex(Incoming)}, CondMutex(Incoming))
  {
    var held := multiset{} + multiset{Library};
    var d := held + multiset{DriverMutex};
    var deepest, c := d + multiset{QueueMutex(Incoming)}, CondMutex(Incoming);
    OfferTakes(d, Incoming);
    TakesInside(held, DriverMutex, Offer(Incoming, true), deepest, c);
    TakesLeft(held, DriverClose(t.first), Locked(ReaderAlive, []), deepest, c);
    StopReaderStarts(held);
    TakesRight(held, Locked(RMutex, Locked(WMutex, [])) + Locked(RMutex, []),
      DriverClose(t.first) + Locked(ReaderAlive, []), deepest, c);
    TermTakes(t, deepest, c);
    assert deepest == multiset{Library, DriverMutex, QueueMutex(Incoming)};
  }

  lemma StopWriterStarts(held: Held, offered: Option<bool>)
    requires Below(held, 4)
    ensures Ordered(held + multiset{WMutex}, Locked(WMutex, OfferIf(Outgoing, offered)))
  {
    var w := held + multiset{WMutex};
    OfferIfOrdered(w + multiset{WMutex}, Outgoing, offered);
    OrderedLocked(w, WMutex, OfferIf(Outgoing, offered));
  }

  lemma StopWriterAsks(held: Held)
    requires Below(held, 4)
    ensures Takes(held + multiset{WMutex}, Locked(WMutex, OfferIf(Outgoing, Some(true))),
                  held + multiset{WMutex} + multiset{WMutex} + multiset{QueueMutex(Outgoing)}, CondMutex(Outgoing))
  {
    var w := held + multiset{WMutex};
    OfferTakes(w + multiset{WMutex}, Outgoing);
    TakesInside(w, WMutex, Offer(Outgoing, true), w + multiset{WMutex} + multiset{QueueMutex(Outgoing)}, CondMutex(Outgoing));
  }

  /** Term waits for the writer with both bus mutexes ... */
  lemma TermWaitsForWriter(t: Termination)
    requires t.Stops?
    ensures Takes(multiset{}, ScriptOf(Term(t)), multiset{Library, RMutex, WMutex}, WriterAlive)
  {
    var r := multiset{} + multiset{Library} + multiset{RMutex};
    var w := r + multiset{WMutex};
    StopWriterStarts(r, t.offered);
    TakesFirst(w, WriterAlive, []);
    TakesRight(w, Locked(WMutex, OfferIf(Outgoing, t.offered)), Locked(WriterAlive, []), w, WriterAlive);
    BothMutexes(t, w, WriterAlive);
    assert w == multiset{Library, RMutex, WMutex};
  }

  /** ... after it has offered it a sentinel, with wMutex taken once more. */
  lemma TermAsksWriter(t: Termination)
    requires t.Stops? && t.offered == Some(true)
    ensures Takes(multiset{}, ScriptOf(Term(t)),
                  multiset{Library, RMutex, WMutex, WMutex, QueueMutex(Outgoing)}, CondMutex(Outgoing))
  {
    var r := multiset{} + multiset{Library} + multiset{RMutex};
    var w := r + multiset{WMutex};
    var deepest := w + multiset{WMutex} + multiset{QueueMutex(Outgoing)};
    StopWriterAsks(r);
    TakesLeft(w, Locked(WMutex, OfferIf(Outgoing, t.offered)), Locked(WriterAlive, []), deepest, CondMutex(Outgoing));
    BothMutexes(t, deepest, CondMutex(Outgoing));
    assert deepest == multiset{Library, RMutex, WMutex, WMutex, QueueMutex(Outgoing)};
  }

  lemma BothMutexes(t: Termination, inner: Held, l: Lock)
    requires t.Stops?
    requires
      var w := multiset{} + multiset{Library} + multiset{RMutex} + multiset{WMutex};
      Takes(w, Locked(WMutex, OfferIf(Outgoing, t.offered)) + Locked(WriterAlive, []), inner, l)
    ensures Takes(multiset{}, ScriptOf(Term(t)), inner, l)
  {
    var held := multiset{} + multiset{Library};
    var body := Locked(WMutex, OfferIf(Outgoing, t.offered)) + Locked(WriterAlive, []);
    TakesInside(held + multiset{RMutex}, WMutex, body, inner, l);
    TakesInside(held, RMutex, Locked(WMutex, body), inner, l);
    TermTakes(t, inner, l);
  }

  /** Init opens the driver a second time from within the bus. */
  lemma InitTakes()
    ensures Takes(multiset{}, ScriptOf(Init(Starts)), multiset{Library, RMutex, WMutex}, DriverMutex)
  {
    var held := multiset{} + multiset{Library};
    BusSectionTakes(held);
    DriverCallOrdered(held);
    TakesRight(held, DriverCall(), BusSection(true), held + multiset{RMutex} + multiset{WMutex}, DriverMutex);
    TakesInside(multiset{}, Library, InitBody(Starts), held + multiset{RMutex} + multiset{WMutex}, DriverMutex);
    assert held + multiset{RMutex} + multiset{WMutex} == multiset{Library, RMutex, WMutex};
  }

  /** The callback from the HAL takes no lock but the queue's. */
  lemma CallbackTakes()
    ensures Takes(multiset{}, ScriptOf(Callback(Some(true))), multiset{QueueMutex(Incoming)}, CondMutex(Incoming))
  {
    OfferTakes(multiset{}, Incoming);
    assert multiset{} + multiset{QueueMutex(Incoming)} == multiset{QueueMutex(Incoming)};
  }

  /** Closing a connection gives the connection's mutex back before it asks for the bus. */
  lemma CloseTakes(id: nat)
    ensures var script := ScriptOf(ConnectionClose(id));
      Takes(multiset{}, script, multiset{}, Connection(id)) && Takes(multiset{}, script, multiset{}, RMutex)
  {
    var none: Held := multiset{};
    OrderedLeaf(none, Connection(id));
    TakesFirst(none, Connection(id), []);
    TakesLeft(none, Locked(Connection(id), []), Locked(RMutex, []), none, Connection(id));
    TakesFirst(none, RMutex, []);
    TakesRight(none, Locked(Connection(id), []), Locked(RMutex, []), none, RMutex);
  }
}
