/** Timers and the connection manager. Both read the wall clock in the
    source; here the clock's answer ("has the interval elapsed since the last
    reset?") is an input, and only the state the client itself can change is
    kept: whether a timer was rung manually, and which manager variant is in use. */
module Liveness {

  /** A timer of `duration` nanoseconds. `rungManually` records a
      `ring_manual()` since the last `reset()`: such a timer rings whatever
      the clock says. */
  datatype Timer = Timer(duration: nat, rungManually: bool)
  {
    /** `ringing()`, given whether the clock says `duration` has passed since the last reset. */
    predicate Ringing(elapsed: bool) {
      rungManually || elapsed
    }

    /** `reset()`: restart the interval; a manual ring is cleared. */
    function Reset(): (t: Timer)
      ensures t.duration == duration
      ensures forall elapsed: bool :: t.Ringing(elapsed) == elapsed
    {
      Timer(duration, false)
    }

    /** `ring_manual()`: the next check rings. */
    function RingManual(): (t: Timer)
      ensures t.duration == duration
      ensures forall elapsed: bool :: t.Ringing(elapsed)
    {
      Timer(duration, true)
    }
  }

  function NewTimer(duration: nat): Timer
  {
    Timer(duration, false)
  }

  /** `ConnectionManager::new(heartbeat_interval, disconnection_timeout)` or
      `ConnectionManager::connectionless()`. */
  datatype ConnectionManager =
    | Tracking(heartbeatInterval: nat, disconnectionTimeout: nat)
    | Connectionless
  {
    /** `should_drop()`, given whether the last-heard timer has elapsed. */
    predicate ShouldDrop(timeoutElapsed: bool) {
      Tracking? && timeoutElapsed
    }

    /** `should_send_heartbeat()`, given whether the heartbeat timer has elapsed. */
    predicate ShouldSendHeartbeat(heartbeatElapsed: bool) {
      Tracking? && heartbeatElapsed
    }
  }
}
