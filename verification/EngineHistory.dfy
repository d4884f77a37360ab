/** Frame ownership, order of delivery and the HAL call trace, kept by every step of the engine. */
module EngineHistory {
  import opened Base
  import opened EventQueues
  import opened Engine
  import opened EngineInv
  import Hal

  // ---- sequences of queue elements

  /** The frames among the elements, in order. */
  function Real(q: seq<Elem>): seq<Elem> {
    if q == [] then [] else if q[0].Ptr? then [q[0]] + Real(q[1..]) else Real(q[1..])
  }

  function Is(e: Elem, id: nat): nat {
    if e.Ptr? && e.id == id then 1 else 0
  }

  /** How often frame `id` is in the queue. */
  function Times(q: seq<Elem>, id: nat): nat {
    if q == [] then 0 else Is(q[0], id) + Times(q[1..], id)
  }

  function Elems(fates: seq<Fated>): seq<Elem> {
    seq(|fates|, i requires 0 <= i < |fates| => fates[i].elem)
  }

  lemma {:induction false} AppendElem(q: seq<Elem>, e: Elem, id: nat)
    ensures Real(q + [e]) == Real(q) + Real([e])
    ensures Times(q + [e], id) == Times(q, id) + Is(e, id)
  {
    if q == [] {
      assert q + [e] == [e];
    } else {
      AppendElem(q[1..], e, id);
      assert (q + [e])[1..] == q[1..] + [e];
    }
  }

  lemma {:induction false} RealMembers(q: seq<Elem>, e: Elem)
    requires e in Real(q)
    ensures e.Ptr? && e in q && Times(q, e.id) > 0
  {
    if !(q[0].Ptr? && e == q[0]) {
      RealMembers(q[1..], e);
    }
  }

  lemma TakeElem(q: seq<Elem>, id: nat)
    ensures Real(q) == Real([Front(q)]) + Real(Taken(q))
    ensures Times(q, id) == Is(Front(q), id) + Times(Taken(q), id)
  {
  }

  // ---- who holds what

  /** The heap frame the reader is about to free. */
  function ReaderOwns(r: ReaderPc): Elem {
    match r
    case RCopy(e) => e
    case RFlushFree(e) => e
    case _ => Null
  }

  /** The frame the reader has taken off the queue and not yet dispatched or flushed. */
  function ReaderHolds(r: ReaderPc): Elem {
    match r
    case RCopy(e) => e
    case RDispatch(e) => e
    case RFlushFree(e) => e
    case _ => Null
  }

  function WriterOwns(w: WriterPc): Elem {
    match w
    case WWrite(e) => e
    case WFree(e) => e
    case WDrainFree(e) => e
    case _ => Null
  }

  /** The frame the writer has taken off the queue and not yet handed to the driver or drained. */
  function WriterHolds(w: WriterPc): Elem {
    match w
    case WWrite(e) => e
    case WDrainFree(e) => e
    case _ => Null
  }

  function SenderOwns(s: State): Elem {
    if s.sender.Some? then s.sender.value else Null
  }

  /** How often frame `id` is on the receive side: queue and reader. */
  function ReadSide(s: State, id: nat): nat {
    Times(s.rq, id) + Is(ReaderOwns(s.reader), id)
  }

  /** How often frame `id` is on the transmit side: queue and writer. */
  function WriteSide(s: State, id: nat): nat {
    Times(s.wq, id) + Is(WriterOwns(s.writer), id)
  }

  /** In how many places frame `id` is, a place being a queue, a thread, a callback, or the list of freed frames. */
  ghost function Places(s: State, id: nat): nat {
    ReadSide(s, id) + WriteSide(s, id) + Is(SenderOwns(s), id) + (if id in s.inflight then 1 else 0)
    + Count(s.log.freed, id)
  }

  /** Every frame ever allocated is in exactly one place, once; having been freed is one of the places. */
  ghost predicate Ownership(s: State) {
    forall id: nat :: Places(s, id) == if id < s.log.made then 1 else 0
  }

  // ---- order

  ghost predicate ReceiveOrder(s: State) {
    s.log.received == Elems(s.log.consumed) + Real([ReaderHolds(s.reader)]) + Real(s.rq)
  }

  ghost predicate SendOrder(s: State) {
    s.log.sent == Elems(s.log.finished) + Real([WriterHolds(s.writer)]) + Real(s.wq)
  }

  ghost predicate GoodFrames(s: State) {
    && (forall id :: id in s.inflight ==> ValidFrame(s.inflight[id]))
    && (s.sender.Some? ==> s.sender.value.Ptr? && ValidFrame(s.sender.value.bytes))
    && (forall e :: e in s.log.received || e in s.log.sent ==> e.Ptr? && ValidFrame(e.bytes))
  }

  /** A frame that is done with has been freed, or is just about to be. */
  ghost predicate DoneIsFreed(s: State) {
    && (forall f :: f in s.log.consumed ==> f.elem.Ptr? && f.elem.id in s.log.freed)
    && (s.reader.RDispatch? && s.reader.got.Ptr? ==> s.reader.got.id in s.log.freed)
    && (forall f :: f in s.log.finished ==> f.elem.Ptr? && (f.elem.id in s.log.freed || WriterOwns(s.writer) == f.elem))
  }

  ghost predicate Distinct(q: seq<Elem>) {
    forall i, j :: 0 <= i < j < |q| && q[i].Ptr? && q[j].Ptr? ==> q[i].id != q[j].id
  }

  ghost predicate Order(s: State) {
    && ReceiveOrder(s) && SendOrder(s) && GoodFrames(s) && DoneIsFreed(s)
    && Distinct(s.log.received) && Distinct(s.log.sent)
  }

  ghost predicate HalTrace(s: State) {
    Hal.Scan(s.log.hal) == if s.status == Opened || s.ctl.CloseOffer? || s.ctl.CloseHal? then Hal.Live else Hal.Shut
  }

  // ---- ownership

  lemma FreeCounts(log: Log, e: Elem, id: nat)
    ensures Count(Free(log, e).freed, id) == Count(log.freed, id) + Is(e, id)
  {
  }

  lemma ReaderTakes(s: State, id: nat)
    requires s.reader.RPop? || s.reader.RFlushPop?
    ensures Places(ReaderStep(s), id) == Places(s, id)
  {
    TakeElem(s.rq, id);
  }

  lemma ReaderFrees(s: State, id: nat)
    requires s.reader.RCopy? || s.reader.RFlushFree?
    ensures Places(ReaderStep(s), id) == Places(s, id)
  {
    FreeCounts(s.log, s.reader.got, id);
  }

  lemma ReaderKeepsPlaces(s: State, id: nat)
    requires ReaderCan(s)
    ensures Places(ReaderStep(s), id) == Places(s, id)
  {
    if s.reader.RPop? || s.reader.RFlushPop? {
      ReaderTakes(s, id);
    } else if s.reader.RCopy? || s.reader.RFlushFree? {
      ReaderFrees(s, id);
    } else {
      var s' := ReaderStep(s);
      assert s'.rq == s.rq && s'.log.freed == s.log.freed && ReaderOwns(s'.reader) == Null;
    }
  }

  lemma WriterTakes(s: State, id: nat)
    requires s.writer.WPop? || s.writer.WDrainPop?
    ensures Places(WriterStep(s), id) == Places(s, id)
  {
    TakeElem(s.wq, id);
  }

  lemma WriterFrees(s: State, id: nat)
    requires s.writer.WFree? || s.writer.WDrainFree?
    ensures Places(WriterStep(s), id) == Places(s, id)
  {
    var s' := WriterStep(s);
    FreeCounts(s.log, s.writer.got, id);
    assert s'.log.freed == Free(s.log, s.writer.got).freed && s'.wq == s.wq && WriterOwns(s'.writer) == Null;
  }

  lemma WriterKeepsPlaces(s: State, id: nat)
    requires WriterCan(s)
    ensures Places(WriterStep(s), id) == Places(s, id)
  {
    if s.writer.WPop? || s.writer.WDrainPop? {
      WriterTakes(s, id);
    } else if s.writer.WFree? || s.writer.WDrainFree? {
      WriterFrees(s, id);
    } else {
      var s' := WriterStep(s);
      assert s'.wq == s.wq && s'.log.freed == s.log.freed && WriterOwns(s'.writer) == WriterOwns(s.writer);
    }
  }

  lemma CtlKeepsPlaces(s: State, choice: bool, id: nat)
    requires Control(s) && CtlCan(s)
    ensures Places(CtlStep(s, choice), id) == Places(s, id)
  {
    var s' := CtlStep(s, choice);
    AppendElem(s.rq, Null, id);
    AppendElem(s.wq, Null, id);
    assert s'.rq == s.rq || s'.rq == s.rq + [Null];
    assert s'.wq == s.wq || s'.wq == s.wq + [Null];
    CtlKeepsOwners(s, choice);
  }

  ghost predicate SameHands(s: State, s': State) {
    && ReaderOwns(s'.reader) == ReaderOwns(s.reader) && ReaderHolds(s'.reader) == ReaderHolds(s.reader)
    && WriterOwns(s'.writer) == WriterOwns(s.writer) && WriterHolds(s'.writer) == WriterHolds(s.writer)
    && s'.log.freed == s.log.freed && s'.inflight == s.inflight && s'.sender == s.sender
  }

  lemma InitKeepsOwners(s: State, choice: bool)
    requires Control(s) && InInit(s.ctl) && CtlCan(s)
    ensures SameHands(s, InitStep(s, choice))
  {
  }

  lemma CtlKeepsOwners(s: State, choice: bool)
    requires Control(s) && CtlCan(s)
    ensures SameHands(s, CtlStep(s, choice))
  {
    if InInit(s.ctl) {
      InitKeepsOwners(s, choice);
    }
  }

  lemma ReceiveKeepsPlaces(s: State, bytes: Bytes, id: nat)
    requires s.log.made !in s.inflight
    ensures Places(Received(s, bytes), id) == Places(s, id) + if id == s.log.made then 1 else 0
  {
    if s.status != Opened {
      FreeCounts(s.log, Ptr(s.log.made, bytes), id);
    }
  }

  lemma DeliverKeepsPlaces(s: State, x: nat, id: nat)
    requires x in s.inflight
    ensures Places(Delivered(s, x), id) == Places(s, id)
  {
    var e := Ptr(x, s.inflight[x]);
    if |s.rq| == CAPACITY {
      FreeCounts(s.log, e, id);
    } else {
      AppendElem(s.rq, e, id);
    }
  }

  lemma SendKeepsPlaces(s: State, id: nat)
    requires s.sender.Some?
    ensures Places(SendFinished(s), id) == Places(s, id)
  {
    AppendElem(s.wq, s.sender.value, id);
    FreeCounts(s.log, s.sender.value, id);
  }

  lemma HalCallsKeepPlaces(s: State, a: Action, id: nat)
    requires a.SendNow? || a.AddAddress? || a.RemoveAddress?
    requires Can(s, a)
    ensures Places(OtherStep(s, a), id) == Places(s, id) && OtherStep(s, a).log.made == s.log.made
  {
    var s' := OtherStep(s, a);
    assert s' == s.(log := s.log.(hal := s'.log.hal, callers := s'.log.callers));
  }

  lemma OthersKeepPlaces(s: State, a: Action, id: nat)
    requires Ownership(s) && Can(s, a) && !IsWorker(a)
    ensures var s' := OtherStep(s, a);
      Places(s', id) == Places(s, id) + if s.log.made <= id < s'.log.made then 1 else 0
  {
    if a.Receive? {
      assert Places(s, s.log.made) == 0;
      ReceiveKeepsPlaces(s, a.bytes, id);
    } else if a.Deliver? {
      DeliverKeepsPlaces(s, a.id, id);
    } else if a.SendOffer? {
      SendKeepsPlaces(s, id);
    } else if !a.SendBegin? {
      HalCallsKeepPlaces(s, a, id);
    }
  }

  lemma StepKeepsOwnership(s: State, a: Action)
    requires Control(s) && Ownership(s)
    ensures Ownership(Do(s, a))
  {
    if Can(s, a) {
      forall id: nat ensures Places(Do(s, a), id) == if id < Do(s, a).log.made then 1 else 0 {
        match a {
          case ReaderRuns => ReaderKeepsPlaces(s, id);
          case WriterRuns => WriterKeepsPlaces(s, id);
          case CtlRuns(choice) => CtlKeepsPlaces(s, choice, id);
          case _ => OthersKeepPlaces(s, a, id);
        }
      }
    }
  }

  // ---- order

  lemma ElemsAppend(fates: seq<Fated>, f: Fated)
    ensures Elems(fates + [f]) == Elems(fates) + [f.elem]
  {
  }

  lemma ElemsMember(fates: seq<Fated>, e: Elem)
    requires e in Elems(fates)
    ensures exists f :: f in fates && f.elem == e
  {
    var i :| 0 <= i < |fates| && fates[i].elem == e;
    assert fates[i] in fates;
  }

  lemma ReaderTakesInOrder(s: State)
    requires ReceiveOrder(s) && (s.reader.RPop? || s.reader.RFlushPop?)
    ensures ReceiveOrder(ReaderStep(s))
  {
    var done, front, rest := Elems(s.log.consumed), Real([Front(s.rq)]), Real(Taken(s.rq));
    TakeElem(s.rq, 0);
    assert Real([Null]) == [];
    assert done + [] + (front + rest) == done + front + rest;
  }

  lemma ReaderKeepsReceiveOrder(s: State)
    requires ReceiveOrder(s) && Hands(s) && ReaderCan(s)
    ensures ReceiveOrder(ReaderStep(s))
  {
    if s.reader.RPop? || s.reader.RFlushPop? {
      ReaderTakesInOrder(s);
    } else if s.reader.RDispatch? {
      ElemsAppend(s.log.consumed, Fated(s.reader.got, Dispatched));
      assert Real([Null]) == [] && Real([s.reader.got]) == [s.reader.got];
    } else if s.reader.RFlushFree? {
      ElemsAppend(s.log.consumed, Fated(s.reader.got, Flushed));
      assert Real([Null]) == [] && Real([s.reader.got]) == if s.reader.got.Ptr? then [s.reader.got] else [];
    } else {
      var s' := ReaderStep(s);
      assert s'.rq == s.rq && s'.log.consumed == s.log.consumed && ReaderHolds(s'.reader) == ReaderHolds(s.reader);
    }
  }

  lemma WriterTakesInOrder(s: State)
    requires SendOrder(s) && (s.writer.WPop? || s.writer.WDrainPop?)
    ensures SendOrder(WriterStep(s))
  {
    var done, front, rest := Elems(s.log.finished), Real([Front(s.wq)]), Real(Taken(s.wq));
    TakeElem(s.wq, 0);
    assert Real([Null]) == [];
    assert done + [] + (front + rest) == done + front + rest;
  }

  lemma WriterKeepsSendOrder(s: State)
    requires SendOrder(s) && Hands(s) && WriterCan(s)
    ensures SendOrder(WriterStep(s))
  {
    if s.writer.WPop? || s.writer.WDrainPop? {
      WriterTakesInOrder(s);
    } else if s.writer.WWrite? {
      ElemsAppend(s.log.finished, Fated(s.writer.got, Written(s.log.sessions, s.status == Opened)));
      assert Real([Null]) == [] && Real([s.writer.got]) == [s.writer.got];
    } else if s.writer.WDrainFree? {
      ElemsAppend(s.log.finished, Fated(s.writer.got, Drained(s.log.sessions)));
      assert Real([Null]) == [] && Real([s.writer.got]) == if s.writer.got.Ptr? then [s.writer.got] else [];
    } else {
      var s' := WriterStep(s);
      assert s'.wq == s.wq && s'.log.finished == s.log.finished && WriterHolds(s'.writer) == WriterHolds(s.writer);
    }
  }

  lemma ReaderKeepsDone(s: State)
    requires DoneIsFreed(s) && Hands(s) && ReaderCan(s)
    ensures DoneIsFreed(ReaderStep(s))
  {
    var s' := ReaderStep(s);
    assert forall id :: id in s.log.freed ==> id in s'.log.freed;
    if !s.reader.RCopy? && !s.reader.RDispatch? && !s.reader.RFlushFree? {
      assert s'.log == s.log && !s'.reader.RDispatch?;
    }
  }

  lemma WriterKeepsDone(s: State)
    requires DoneIsFreed(s) && Hands(s) && WriterCan(s)
    ensures DoneIsFreed(WriterStep(s))
  {
    var s' := WriterStep(s);
    assert forall id :: id in s.log.freed ==> id in s'.log.freed;
    if !s.writer.WWrite? && !s.writer.WFree? && !s.writer.WDrainFree? {
      assert s'.log.finished == s.log.finished && s'.log.freed == s.log.freed && WriterOwns(s.writer) == Null;
    }
  }

  /** A callback never offers a frame a second time. */
  lemma InflightNotReceived(s: State, id: nat, e: Elem)
    requires Ownership(s) && Order(s) && id in s.inflight && e in s.log.received
    ensures e.id != id
  {
    if e.id == id {
      assert Places(s, id) <= 1;
      if e in Elems(s.log.consumed) {
        ElemsMember(s.log.consumed, e);
      } else if e in Real(s.rq) {
        RealMembers(s.rq, e);
      } else {
        RealMembers([ReaderHolds(s.reader)], e);
      }
    }
  }

  lemma SenderNotSent(s: State, e: Elem)
    requires Ownership(s) && Order(s) && s.sender.Some? && e in s.log.sent
    ensures e.id != s.sender.value.id
  {
    var id := s.sender.value.id;
    if e.id == id {
      assert Places(s, id) <= 1;
      if e in Elems(s.log.finished) {
        ElemsMember(s.log.finished, e);
      } else if e in Real(s.wq) {
        RealMembers(s.wq, e);
      } else {
        RealMembers([WriterHolds(s.writer)], e);
      }
    }
  }

  lemma DistinctAppend(q: seq<Elem>, e: Elem)
    requires Distinct(q) && e.Ptr? && forall x :: x in q && x.Ptr? ==> x.id != e.id
    ensures Distinct(q + [e])
  {
  }

  lemma DeliverKeepsFrames(s: State, id: nat)
    requires Order(s) && id in s.inflight
    ensures var s' := Delivered(s, id); GoodFrames(s') && DoneIsFreed(s')
  {
    var s' := Delivered(s, id);
    assert forall x :: x in s.log.freed ==> x in s'.log.freed;
  }

  lemma DeliverKeepsOrder(s: State, id: nat)
    requires Ownership(s) && Order(s) && id in s.inflight
    ensures Order(Delivered(s, id))
  {
    DeliverKeepsFrames(s, id);
    if |s.rq| != CAPACITY {
      var e := Ptr(id, s.inflight[id]);
      AppendElem(s.rq, e, id);
      forall x | x in s.log.received ensures x.id != id {
        InflightNotReceived(s, id, x);
      }
      DistinctAppend(s.log.received, e);
    }
  }

  lemma SendKeepsFrames(s: State)
    requires Order(s) && s.sender.Some?
    ensures var s' := SendFinished(s); GoodFrames(s') && DoneIsFreed(s')
  {
    var s' := SendFinished(s);
    assert forall x :: x in s.log.freed ==> x in s'.log.freed;
  }

  lemma AcceptedKeepsOrder(s: State)
    requires Ownership(s) && Order(s) && s.sender.Some? && |s.wq| != CAPACITY
    ensures var s' := SendFinished(s); SendOrder(s') && Distinct(s'.log.sent)
  {
    var e, rest := s.sender.value, Elems(s.log.finished) + Real([WriterHolds(s.writer)]);
    AppendElem(s.wq, e, e.id);
    assert Real([e]) == [e];
    assert rest + (Real(s.wq) + [e]) == (rest + Real(s.wq)) + [e];
    forall x | x in s.log.sent ensures x.id != e.id {
      SenderNotSent(s, x);
    }
    DistinctAppend(s.log.sent, e);
  }

  lemma SendKeepsOrder(s: State)
    requires Ownership(s) && Order(s) && s.sender.Some?
    ensures Order(SendFinished(s))
  {
    SendKeepsFrames(s);
    if |s.wq| != CAPACITY {
      AcceptedKeepsOrder(s);
    }
  }

  lemma CtlKeepsFrames(s: State, choice: bool)
    requires CtlCan(s)
    ensures Real(CtlStep(s, choice).rq) == Real(s.rq) && Real(CtlStep(s, choice).wq) == Real(s.wq)
  {
    var s' := CtlStep(s, choice);
    AppendElem(s.rq, Null, 0);
    AppendElem(s.wq, Null, 0);
    assert s'.rq == s.rq || s'.rq == s.rq + [Null];
    assert s'.wq == s.wq || s'.wq == s.wq + [Null];
  }

  lemma CtlKeepsOrder(s: State, choice: bool)
    requires Control(s) && Order(s) && CtlCan(s)
    ensures Order(CtlStep(s, choice))
  {
    CtlKeepsFrames(s, choice);
    CtlKeepsOwners(s, choice);
  }

  lemma ReceiveKeepsOrder(s: State, bytes: Bytes)
    requires Order(s) && ValidFrame(bytes)
    ensures Order(Received(s, bytes))
  {
    var s' := Received(s, bytes);
    assert forall id :: id in s.log.freed ==> id in s'.log.freed;
  }

  lemma OthersKeepOrder(s: State, a: Action)
    requires Ownership(s) && Order(s) && Can(s, a) && !IsWorker(a)
    ensures Order(OtherStep(s, a))
  {
    if a.Deliver? {
      DeliverKeepsOrder(s, a.id);
    } else if a.SendOffer? {
      SendKeepsOrder(s);
    } else if a.Receive? {
      ReceiveKeepsOrder(s, a.bytes);
    } else {
      var s' := OtherStep(s, a);
      assert s' == s.(sender := s'.sender, log := s.log.(made := s'.log.made, copies := s'.log.copies, hal := s'.log.hal, callers := s'.log.callers));
    }
  }

  lemma StepKeepsOrder(s: State, a: Action)
    requires Control(s) && Ownership(s) && Order(s)
    ensures Order(Do(s, a))
  {
    if Can(s, a) {
      match a {
        case ReaderRuns => ReaderKeepsReceiveOrder(s); ReaderKeepsDone(s);
        case WriterRuns => WriterKeepsSendOrder(s); WriterKeepsDone(s);
        case CtlRuns(choice) => CtlKeepsOrder(s, choice);
        case _ => OthersKeepOrder(s, a);
      }
    }
  }

  // ---- writer sessions

  /** The frames of one session of the writer: first those written, then those drained. */
  ghost predicate Phased(s: State) {
    && (forall i :: 0 <= i < |s.log.finished| ==> OfWriter(s.log.finished[i].fate))
    && (forall i :: 0 <= i < |s.log.finished| ==> s.log.finished[i].fate.session <= s.log.sessions)
    && (forall i, j :: 0 <= i < j < |s.log.finished| ==> InTurn(s.log.finished[i].fate, s.log.finished[j].fate))
    && (InWriterLoop(s.writer) ==> forall i :: 0 <= i < |s.log.finished| && s.log.finished[i].fate.Drained? ==>
          s.log.finished[i].fate.session < s.log.sessions)
  }

  predicate OfWriter(f: Fate) {
    f.Written? || f.Drained?
  }

  /** A fate and a later one. */
  predicate InTurn(f: Fate, g: Fate)
    requires OfWriter(f) && OfWriter(g)
  {
    f.session <= g.session && (f.session == g.session && f.Drained? ==> g.Drained?)
  }

  predicate InWriterLoop(w: WriterPc) {
    w.WWait? || w.WPop? || w.WWrite? || w.WFree? || w.WTest?
  }

  lemma WriterKeepsPhased(s: State)
    requires Phased(s) && WriterCan(s)
    ensures Phased(WriterStep(s))
  {
    if s.writer.WWrite? {
      WritingKeepsPhased(s);
    } else if s.writer.WDrainFree? {
      DrainingKeepsPhased(s);
    } else {
      assert WriterStep(s).log.finished == s.log.finished;
    }
  }

  lemma WritingKeepsPhased(s: State)
    requires Phased(s) && s.writer.WWrite? && WriterCan(s)
    ensures Phased(WriterStep(s))
  {
    var done, done' := s.log.finished, WriterStep(s).log.finished;
    assert done' == done + [Fated(s.writer.got, Written(s.log.sessions, s.status == Opened))];
  }

  lemma DrainingKeepsPhased(s: State)
    requires Phased(s) && s.writer.WDrainFree?
    ensures Phased(WriterStep(s))
  {
    var done, done' := s.log.finished, WriterStep(s).log.finished;
    assert done' == done || done' == done + [Fated(s.writer.got, Drained(s.log.sessions))];
  }

  lemma StepKeepsPhased(s: State, a: Action)
    requires Control(s) && Phased(s)
    ensures Phased(Do(s, a))
  {
    if Can(s, a) {
      if a.WriterRuns? {
        WriterKeepsPhased(s);
      } else if a.CtlRuns? {
        CtlKeepsPhased(s, a.choice);
      } else {
        assert Do(s, a).writer == s.writer && Do(s, a).log.finished == s.log.finished
          && Do(s, a).log.sessions == s.log.sessions;
      }
    }
  }

  lemma CtlKeepsPhased(s: State, choice: bool)
    requires Phased(s) && CtlCan(s)
    ensures Phased(CtlStep(s, choice))
  {
    var s' := CtlStep(s, choice);
    assert s'.log.finished == s.log.finished && s'.log.sessions == s.log.sessions;
    assert s'.writer == s.writer || s'.writer.WSpawned?;
  }

  // ---- copies made by sendAsync

  /** They are never on the receive side. */
  ghost predicate CopiesApart(s: State) {
    forall id :: id in s.log.copies ==> id < s.log.made && ReadSide(s, id) == 0 && id !in s.inflight
  }

  lemma ReaderKeepsApart(s: State, id: nat)
    requires ReaderCan(s) && ReadSide(s, id) == 0
    ensures ReadSide(ReaderStep(s), id) == 0
  {
    TakeElem(s.rq, id);
  }

  lemma CtlKeepsReadSide(s: State, choice: bool, id: nat)
    requires Control(s) && CtlCan(s)
    ensures ReadSide(CtlStep(s, choice), id) == ReadSide(s, id)
  {
    var s' := CtlStep(s, choice);
    AppendElem(s.rq, Null, id);
    assert s'.rq == s.rq || s'.rq == s.rq + [Null];
    CtlKeepsOwners(s, choice);
  }

  lemma OthersKeepApart(s: State, a: Action, id: nat)
    requires Ownership(s) && Can(s, a) && !IsWorker(a)
    requires id < s.log.made && ReadSide(s, id) == 0 && id !in s.inflight
    ensures var s' := OtherStep(s, a); ReadSide(s', id) == 0 && id !in s'.inflight
  {
    if a.Deliver? {
      AppendElem(s.rq, Ptr(a.id, s.inflight[a.id]), id);
    }
  }

  lemma StepKeepsApart(s: State, a: Action)
    requires Control(s) && Ownership(s) && CopiesApart(s)
    ensures CopiesApart(Do(s, a))
  {
    if Can(s, a) {
      var s' := Do(s, a);
      assert Places(s, s.log.made) == 0;
      forall id | id in s'.log.copies ensures id < s'.log.made && ReadSide(s', id) == 0 && id !in s'.inflight {
        if id in s.log.copies {
          StepKeepsOneApart(s, a, id);
        }
      }
    }
  }

  lemma StepKeepsOneApart(s: State, a: Action, id: nat)
    requires Control(s) && Ownership(s) && Can(s, a)
    requires id < s.log.made && ReadSide(s, id) == 0 && id !in s.inflight
    ensures var s' := Do(s, a); id < s'.log.made && ReadSide(s', id) == 0 && id !in s'.inflight
  {
    if a.ReaderRuns? {
      ReaderKeepsApart(s, id);
    } else if a.CtlRuns? {
      CtlKeepsReadSide(s, a.choice, id);
      CtlKeepsOwners(s, a.choice);
    } else if !a.WriterRuns? {
      OthersKeepApart(s, a, id);
    }
  }

  // ---- the HAL

  lemma InitKeepsHalTrace(s: State, choice: bool)
    requires Control(s) && HalTrace(s) && InInit(s.ctl) && CtlCan(s)
    ensures HalTrace(InitStep(s, choice))
  {
    Hal.ScanAppend(s.log.hal, Hal.Open(choice));
  }

  lemma CloseKeepsHalTrace(s: State, choice: bool)
    requires Control(s) && HalTrace(s) && InClose(s.ctl) && CtlCan(s)
    ensures HalTrace(CloseStep(s, choice))
  {
    Hal.ScanAppend(s.log.hal, Hal.Close(choice));
  }

  lemma CtlKeepsHalTrace(s: State, choice: bool)
    requires Control(s) && HalTrace(s) && CtlCan(s)
    ensures HalTrace(CtlStep(s, choice))
  {
    if InInit(s.ctl) {
      InitKeepsHalTrace(s, choice);
    } else if InClose(s.ctl) {
      CloseKeepsHalTrace(s, choice);
    }
  }

  lemma WriterKeepsHalTrace(s: State)
    requires HalTrace(s) && WriterCan(s)
    ensures HalTrace(WriterStep(s))
  {
    if s.writer.WWrite? && s.writer.got.Ptr? {
      Hal.ScanAppend(s.log.hal, Hal.Transmit(s.writer.got.bytes));
    } else {
      assert WriterStep(s).log.hal == s.log.hal;
    }
  }

  lemma CallKeepsSession(s: State, c: Hal.Call)
    requires HalTrace(s) && !c.Open? && !c.Close?
    ensures Hal.Scan(HalIfOpen(s, c, Application).hal) == Hal.Scan(s.log.hal)
  {
    Hal.ScanAppend(s.log.hal, c);
  }

  lemma OthersKeepHalTrace(s: State, a: Action)
    requires HalTrace(s) && Can(s, a) && !IsWorker(a)
    ensures HalTrace(OtherStep(s, a))
  {
    if a.SendNow? {
      CallKeepsSession(s, Hal.Transmit(a.bytes));
    } else if a.AddAddress? {
      CallKeepsSession(s, Hal.AddAddress(a.address));
    } else if a.RemoveAddress? {
      CallKeepsSession(s, Hal.RemoveAddress(a.address));
    } else {
      assert OtherStep(s, a).log.hal == s.log.hal;
    }
  }

  lemma StepKeepsHalTrace(s: State, a: Action)
    requires Control(s) && HalTrace(s)
    ensures HalTrace(Do(s, a))
  {
    if Can(s, a) {
      match a {
        case ReaderRuns => assert ReaderStep(s).log.hal == s.log.hal;
        case WriterRuns => WriterKeepsHalTrace(s);
        case CtlRuns(choice) => CtlKeepsHalTrace(s, choice);
        case _ => OthersKeepHalTrace(s, a);
      }
    }
  }

  // ---- what the writer transmits

  /** The calls that `who` made, in order. */
  function CallsBy(hal: seq<Hal.Call>, callers: seq<Caller>, who: Caller): seq<Hal.Call>
    requires |hal| == |callers|
  {
    if hal == [] then []
    else
      var n := |hal| - 1;
      CallsBy(hal[..n], callers[..n], who) + if callers[n] == who then [hal[n]] else []
  }

  /** The transmissions of the frames that were written while the driver was open, in order. */
  function Transmissions(finished: seq<Fated>): seq<Hal.Call> {
    if finished == [] then []
    else
      var n := |finished| - 1;
      var f := finished[n];
      Transmissions(finished[..n]) + if f.fate.Written? && f.fate.open && f.elem.Ptr? then [Hal.Transmit(f.elem.bytes)] else []
  }

  /** The writer calls the HAL for those frames and for nothing else. */
  ghost predicate WriterCalls(s: State) {
    |s.log.callers| == |s.log.hal| && CallsBy(s.log.hal, s.log.callers, Writer) == Transmissions(s.log.finished)
  }

  lemma CallsAppend(hal: seq<Hal.Call>, callers: seq<Caller>, c: Hal.Call, who: Caller)
    requires |hal| == |callers|
    ensures CallsBy(hal + [c], callers + [who], Writer) == CallsBy(hal, callers, Writer) + if who == Writer then [c] else []
  {
    assert (hal + [c])[..|hal|] == hal && (callers + [who])[..|hal|] == callers;
  }

  lemma TransmissionsAppend(finished: seq<Fated>, f: Fated)
    ensures Transmissions(finished + [f]) ==
      Transmissions(finished)
      + if f.fate.Written? && f.fate.open && f.elem.Ptr? then [Hal.Transmit(f.elem.bytes)] else []
  {
    assert (finished + [f])[..|finished|] == finished;
  }

  lemma WritingKeepsCalls(s: State)
    requires WriterCalls(s) && Hands(s) && s.writer.WWrite? && WriterCan(s)
    ensures WriterCalls(WriterStep(s))
  {
    var e := s.writer.got;
    CallsAppend(s.log.hal, s.log.callers, Hal.Transmit(e.bytes), Writer);
    TransmissionsAppend(s.log.finished, Fated(e, Written(s.log.sessions, s.status == Opened)));
  }

  lemma WriterKeepsCalls(s: State)
    requires WriterCalls(s) && Hands(s) && WriterCan(s)
    ensures WriterCalls(WriterStep(s))
  {
    if s.writer.WWrite? {
      WritingKeepsCalls(s);
    } else if s.writer.WDrainFree? {
      TransmissionsAppend(s.log.finished, Fated(s.writer.got, Drained(s.log.sessions)));
    } else {
      assert WriterStep(s).log.finished == s.log.finished && WriterStep(s).log.hal == s.log.hal;
    }
  }

  lemma OthersKeepCalls(s: State, c: Hal.Call, who: Caller, log: Log)
    requires WriterCalls(s) && who != Writer && log.finished == s.log.finished
    requires (log.hal == s.log.hal && log.callers == s.log.callers)
             || (log.hal == s.log.hal + [c] && log.callers == s.log.callers + [who])
    ensures |log.callers| == |log.hal| && CallsBy(log.hal, log.callers, Writer) == Transmissions(log.finished)
  {
    CallsAppend(s.log.hal, s.log.callers, c, who);
  }

  lemma CtlKeepsCalls(s: State, choice: bool)
    requires WriterCalls(s) && CtlCan(s)
    ensures WriterCalls(CtlStep(s, choice))
  {
    var log := CtlStep(s, choice).log;
    OthersKeepCalls(s, if InClose(s.ctl) then Hal.Close(choice) else Hal.Open(choice), Lifecycle, log);
  }

  lemma ApplicationsKeepCalls(s: State, a: Action)
    requires WriterCalls(s) && Can(s, a) && !IsWorker(a)
    ensures WriterCalls(OtherStep(s, a))
  {
    var log := OtherStep(s, a).log;
    var c :=
      if a.SendNow? then Hal.Transmit(a.bytes)
      else if a.AddAddress? then Hal.AddAddress(a.address)
      else if a.RemoveAddress? then Hal.RemoveAddress(a.address)
      else Hal.Open(false);
    OthersKeepCalls(s, c, Application, log);
  }

  lemma StepKeepsCalls(s: State, a: Action)
    requires Control(s) && WriterCalls(s)
    ensures WriterCalls(Do(s, a))
  {
    if Can(s, a) {
      match a {
        case ReaderRuns => assert ReaderStep(s).log.hal == s.log.hal && ReaderStep(s).log.callers == s.log.callers;
        case WriterRuns => WriterKeepsCalls(s);
        case CtlRuns(choice) => CtlKeepsCalls(s, choice);
        case _ => ApplicationsKeepCalls(s, a);
      }
    }
  }
}
