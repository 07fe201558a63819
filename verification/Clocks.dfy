/** The injected clock and sleep: an additive clock that moves only when someone sleeps on it or
    when a call that takes time is made. */
module Clocks {

  class Clock {
    var now: real

    constructor (start: real)
      ensures now == start
    {
      now := start;
    }

    method Sleep(seconds: real)
      requires seconds >= 0.0
      modifies this
      ensures now == old(now) + seconds
    {
      now := now + seconds;
    }

    /** Some amount of time passes, at most `limit`. */
    method Spend(limit: real)
      requires limit >= 0.0
      modifies this
      ensures old(now) <= now <= old(now) + limit
    {
      var spent: real := *;
      if 0.0 <= spent <= limit {
        now := now + spent;
      }
    }
  }

  /** The clock that threads of a run share: it never goes back, and unless it is additive time may
      also pass between any two readings and a sleep may last longer than asked. */
  class WallClock {
    const additive: bool
    var now: real

    constructor (start: real, additive: bool)
      ensures now == start && this.additive == additive
    {
      now, this.additive := start, additive;
    }

    method Drift()
      modifies this
      ensures now >= old(now) && (additive ==> now == old(now))
    {
      var passed: real := *;
      if !additive && passed > 0.0 {
        now := now + passed;
      }
    }

    method Read() returns (reading: real)
      modifies this
      ensures reading == now >= old(now) && (additive ==> now == old(now))
    {
      Drift();
      reading := now;
    }

    method Sleep(seconds: real)
      requires seconds >= 0.0
      modifies this
      ensures now >= old(now) + seconds && (additive ==> now == old(now) + seconds)
    {
      now := now + seconds;
      Drift();
    }
  }
}
