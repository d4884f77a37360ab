/** The run state a worker thread shares with whoever stops it. */
module Stoppables {

  datatype Phase = Running | Stopping | Stopped

  /** A stop request only reaches a thread that is running. */
  function StopRequested(p: Phase): Phase {
    if p == Running then Stopping else p
  }

  /** On entry to its `run`, a restarted thread declares itself running; a first-time thread already is. */
  function Entered(p: Phase): Phase {
    if p == Stopped then Running else p
  }

  class Stoppable {
    var state: Phase

    constructor ()
      ensures state == Running
    {
      state := Running;
    }

    predicate IsStopped()
      reads this
    {
      state == Stopped
    }

    predicate IsRunning()
      reads this
    {
      state == Running
    }

    method RunStarted()
      modifies this
      ensures state == Running
    {
      state := Running;
    }

    method StopStarted()
      modifies this
      ensures state == StopRequested(old(state))
    {
      if state == Running {
        state := Stopping;
      }
    }

    method StopCompleted()
      modifies this
      ensures state == Stopped
    {
      state := Stopped;
    }

    /** The opening lines of both worker loops. */
    method Enter()
      modifies this
      ensures state == Entered(old(state))
    {
      if IsStopped() {
        RunStarted();
      }
    }
  }
}
