/**
 The token bucket object on a monotone clock, used by one thread at a time. Every method is one
 locked step of the value model; `Acquire` is at most two, with one sleep between them.
 */
module TokenBuckets {
  import opened Wrappers
  import opened Reals
  import opened Clocks
  import opened RateLimit

  datatype BadArgument = BadArgument

  /** After sleeping the whole deficit the tokens are there. */
  lemma SleepCoversDeficit(b: Bucket, wanted: real, later: real)
    requires Sound(b) && b.tokens < wanted <= b.capacity
    requires later - b.last >= (wanted - b.tokens) / b.rate
    ensures Refill(b, later).tokens >= wanted
  {
    var deficit := wanted - b.tokens;
    assert deficit / b.rate > 0.0;
    Scales(deficit, deficit / b.rate, later - b.last, b.rate);
  }

  /** Runs of `acquire` passes: refused, and then granted. */
  ghost predicate PassesUntilGranted(b: Bucket, wanted: real, passes: seq<Step>)
    requires Sound(b)
  {
    && 1 <= |passes| <= 2
    && (forall i :: 0 <= i < |passes| ==> passes[i].Pass? && passes[i].wanted == wanted)
    && (forall i :: 0 <= i < |passes| ==> (Grants(Run(b, passes[..i]), passes[i]) <==> i == |passes| - 1))
  }

  class TokenBucket {
    const capacity: real
    const clock: WallClock
    var rate: real
    var tokens: real
    var last: real

    function State(): Bucket
      reads this
    {
      Bucket(rate, capacity, tokens, last)
    }

    ghost predicate Valid()
      reads this, clock
    {
      Sound(State()) && last <= clock.now
    }

    constructor (rate: real, capacity: real, clock: WallClock)
      requires rate > 0.0 && capacity > 0.0
      modifies clock
      ensures Valid() && this.clock == clock && State() == Bucket(rate, capacity, capacity, clock.now)
      ensures clock.now >= old(clock.now) && (clock.additive ==> clock.now == old(clock.now))
    {
      this.rate, this.capacity, this.clock := rate, capacity, clock;
      tokens := capacity;
      last := clock.now;
      new;
      last := clock.Read();
    }

    /** The state after one locked step at the present reading of the clock. */
    twostate predicate Took(step: Step)
      reads this, clock
      requires old(rate) > 0.0
    {
      && State() == After(old(State()), step) && step.now == clock.now == last
      && old(clock.now) <= clock.now && (clock.additive ==> old(clock.now) == clock.now)
    }

    method RefillNow()
      requires Valid()
      modifies this, clock
      ensures Valid() && State() == Refill(old(State()), clock.now) && last == clock.now
      ensures old(clock.now) <= clock.now && (clock.additive ==> old(clock.now) == clock.now)
    {
      var now := clock.Read();
      RefillIsSound(State(), now);
      var elapsed := now - last;
      if elapsed > 0.0 {
        tokens := Min(capacity, tokens + elapsed * rate);
        last := now;
      }
    }

    method ChangeRate(rate: real) returns (r: Result<(), BadArgument>)
      requires Valid()
      modifies this, clock
      ensures Valid() && (r.Ok? <==> rate > 0.0)
      ensures r.Ok? ==> Took(SetRate(clock.now, rate))
      ensures r.Err? ==> State() == old(State()) && clock.now == old(clock.now)
    {
      if rate <= 0.0 {
        return Err(BadArgument);
      }
      RefillNow();
      this.rate := rate;
      r := Ok(());
    }

    method TimeUntil(wanted: real) returns (r: Result<real, BadArgument>)
      requires Valid()
      modifies this, clock
      ensures Valid() && (r.Ok? <==> wanted > 0.0)
      ensures r.Ok? ==> Took(WaitTime(clock.now, wanted))
      ensures r.Ok? ==> r.value == (if tokens >= wanted then 0.0 else (wanted - tokens) / rate) >= 0.0
      ensures r.Err? ==> State() == old(State()) && clock.now == old(clock.now)
    {
      if wanted <= 0.0 {
        return Err(BadArgument);
      }
      RefillNow();
      var deficit := wanted - tokens;
      r := Ok(if deficit <= 0.0 then 0.0 else deficit / rate);
    }

    method TryTake(wanted: real) returns (r: Result<bool, BadArgument>)
      requires Valid()
      modifies this, clock
      ensures Valid() && (r.Ok? <==> wanted > 0.0)
      ensures r.Ok? ==> Took(TryAcquire(clock.now, wanted))
      ensures r.Ok? ==> r.value == Grants(old(State()), TryAcquire(clock.now, wanted))
      ensures r.Err? ==> State() == old(State()) && clock.now == old(clock.now)
    {
      if wanted <= 0.0 {
        return Err(BadArgument);
      }
      RefillNow();
      if tokens >= wanted {
        tokens := tokens - wanted;
        return Ok(true);
      }
      return Ok(false);
    }

    /** One locked pass of `Acquire`: granted, or how long to sleep. */
    method TryPass(wanted: real) returns (taken: bool, remaining: real)
      requires Valid() && 0.0 < wanted <= capacity
      modifies this, clock
      ensures Valid() && Took(Pass(clock.now, wanted))
      ensures taken <==> Grants(old(State()), Pass(clock.now, wanted))
      ensures !taken ==> tokens < wanted && remaining == (wanted - tokens) / rate > MIN_WAIT
    {
      RefillNow();
      if tokens >= wanted {
        tokens := tokens - wanted;
        return true, 0.0;
      }
      remaining := (wanted - tokens) / rate;
      if remaining <= MIN_WAIT {
        // Covered to within what no clock can represent.
        tokens := 0.0;
        return true, 0.0;
      }
      return false, remaining;
    }

    /** How long one thread waits: nothing if the tokens are there or nearly there, else exactly the
        deficit. */
    ghost function WaitNeeded(wanted: real): real
      reads this, clock
      requires rate > 0.0
    {
      if Grants(State(), Pass(clock.now, wanted)) then 0.0 else (wanted - Refill(State(), clock.now).tokens) / rate
    }

    /** Blocks until the tokens are there. On its own a thread sleeps at most once, and then for
        exactly the deficit. */
    method Acquire(wanted: real) returns (r: Result<real, BadArgument>, ghost passes: seq<Step>)
      requires Valid()
      modifies this, clock
      ensures Valid() && clock.now >= old(clock.now)
      ensures r.Err? <==> !(0.0 < wanted <= capacity)
      ensures r.Err? ==> State() == old(State()) && clock.now == old(clock.now)
      ensures r.Ok? ==> PassesUntilGranted(old(State()), wanted, passes)
      ensures r.Ok? ==> State() == Run(old(State()), passes) && last == clock.now
      ensures r.Ok? ==> passes[|passes| - 1].now == clock.now
      ensures r.Ok? && clock.additive ==> passes[0].now == old(clock.now)
      ensures r.Ok? && clock.additive ==>
        clock.now == old(clock.now) + r.value && r.value == old(WaitNeeded(wanted))
    {
      passes := [];
      if wanted <= 0.0 || wanted > capacity {
        return Err(BadArgument), passes;
      }
      var waited := 0.0;
      var taken, remaining := TryPass(wanted);
      passes := [Pass(clock.now, wanted)];
      assert passes[..0] == [];
      while !taken
        invariant Valid() && clock.now >= old(clock.now) && last == clock.now
        invariant State() == Run(old(State()), passes)
        invariant taken ==> PassesUntilGranted(old(State()), wanted, passes)
        invariant passes != [] && passes[|passes| - 1].now == clock.now
        invariant clock.additive ==> passes[0].now == old(clock.now)
        invariant !taken ==> |passes| == 1 && passes[0].Pass? && passes[0].wanted == wanted && waited == 0.0
        invariant !taken ==> !Grants(old(State()), passes[0])
        invariant !taken ==> tokens < wanted && remaining == (wanted - tokens) / rate > MIN_WAIT
        invariant clock.additive ==> clock.now == old(clock.now) + waited
        invariant clock.additive ==> old(WaitNeeded(wanted)) == if taken then waited else remaining
        decreases !taken
      {
        ghost var first := passes[0];
        waited := waited + remaining;
        clock.Sleep(remaining);
        SleepCoversDeficit(State(), wanted, clock.now);
        SleepOutlasts(State(), wanted, clock.now);
        taken, remaining := TryPass(wanted);
        passes := [first, Pass(clock.now, wanted)];
        assert passes[..1] == [first] && passes[..0] == [];
      }
      r := Ok(waited);
    }
  }

  /** Sleeping longer does not lose the tokens again. */
  lemma SleepOutlasts(b: Bucket, wanted: real, later: real)
    requires Sound(b) && wanted <= b.capacity && later >= b.last && Refill(b, later).tokens >= wanted
    ensures forall t :: t >= later ==> Refill(b, t).tokens >= wanted
  {
    forall t | t >= later
      ensures Refill(b, t).tokens >= wanted
    {
      ProductIsNonNegative(t - later, b.rate);
      Distributes(b.rate, b.last, later, t);
    }
  }
}
