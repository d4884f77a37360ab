/** The bounded blocking queue of the OS layer, and the flag it waits on. */
module EventQueues {
  import opened Base

  // What one completed call does to the contents of the queue. The transition systems use these too.

  function Offered<E>(q: seq<E>, cap: nat, e: E): seq<E> {
    if |q| == cap then q else q + [e]
  }

  function Taken<E>(q: seq<E>): seq<E> {
    if q == [] then q else q[1..]
  }

  /** The flag half of ConditionVariable; blocking and waking are in QueueProtocol. */
  class ConditionVariable {
    var flag: bool

    constructor ()
      ensures !flag
    {
      flag := false;
    }

    method Set()
      modifies this
      ensures flag
    {
      flag := true;
    }

    method Reset()
      modifies this
      ensures !flag
    {
      flag := false;
    }
  }

  class EventQueue<E> {
    const cap: nat
    const cond: ConditionVariable
    var events: seq<E>

    /** What holds whenever no call is in progress. */
    ghost predicate Valid()
      reads this, cond
    {
      && |events| <= cap
      && (cond.flag <==> events != [])
    }

    constructor (cap: nat)
      ensures Valid() && fresh(cond)
      ensures this.cap == cap && events == []
    {
      this.cap := cap;
      this.cond := new ConditionVariable();
      this.events := [];
    }

    /** Refuses (the source throws) when the queue is full. */
    method Offer(e: E) returns (accepted: bool)
      requires Valid()
      modifies this, cond
      ensures Valid()
      ensures accepted <==> |old(events)| < cap
      ensures events == Offered(old(events), cap, e)
    {
      if |events| == cap {
        return false;
      }
      events := events + [e];
      cond.Set();
      return true;
    }

    /**
     * The part of `poll` that runs under the queue mutex, after the wait. Between the wait and the lock another
     * consumer may have emptied the queue, so nothing is required; then the default value comes back.
     */
    method PollLocked(dflt: E) returns (front: E)
      modifies this, cond
      ensures old(cond.flag && events != []) ==> front == old(events)[0]
      ensures !old(cond.flag && events != []) ==> front == dflt && cond.flag == old(cond.flag)
      ensures events == if old(cond.flag) then Taken(old(events)) else old(events)
      ensures old(Valid()) ==> Valid()
    {
      if !cond.flag || events == [] {
        return dflt;
      }
      front := events[0];
      events := events[1..];
      if events == [] {
        cond.Reset();
      }
    }

    /** `poll` by the only consumer, with no other call in between: None is a call that blocks. */
    method Poll(dflt: E) returns (front: Option<E>)
      requires Valid()
      modifies this, cond
      ensures Valid()
      ensures events == Taken(old(events))
      ensures front == if old(events) == [] then None else Some(old(events)[0])
    {
      if !cond.flag {
        return None;
      }
      var e := PollLocked(dflt);
      return Some(e);
    }
  }
}
