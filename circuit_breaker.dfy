/**
 * The per-target circuit breaker (backend/internal/circuit_breaker.go).
 * The Go methods read the wall clock; here the instant `now` is a parameter.
 * The class's mutex only serialises calls and is not modelled.
 */
module CircuitBreakers {
  import opened Types

  datatype Mode = Closed | Open | HalfOpen

  /** The fields a breaker updates in place, as one value. */
  datatype BreakerState = BreakerState(mode: Mode, failures: int, openUntil: Time)

  /** Allow: Closed and HalfOpen let the call through; Open does so only once `now` is strictly past the deadline, and then moves to HalfOpen. */
  function AllowStep(s: BreakerState, now: Time): (r: (bool, BreakerState))
    ensures r.0 <==> s.mode != Open || now > s.openUntil
    ensures r.1.mode == (if s.mode == Open && r.0 then HalfOpen else s.mode)
    ensures r.1.failures == s.failures && r.1.openUntil == s.openUntil
  {
    match s.mode
    case Closed => (true, s)
    case HalfOpen => (true, s)
    case Open => if now > s.openUntil then (true, s.(mode := HalfOpen)) else (false, s)
  }

  /** Success: the counter goes back to zero and a half-open breaker closes. */
  function SuccessStep(s: BreakerState): (r: BreakerState)
    ensures r.failures == 0 && r.openUntil == s.openUntil
    ensures r.mode == Closed <==> s.mode != Open
    ensures r.mode == Open <==> s.mode == Open
  {
    BreakerState(if s.mode == HalfOpen then Closed else s.mode, 0, s.openUntil)
  }

  /**
   * Failure: the counter always goes up by one. A closed breaker that reaches the
   * threshold opens until now + cooldown; a half-open one reopens at once, with a
   * fresh deadline and the counter set to the threshold; an open one stays as it is.
   */
  function FailureStep(s: BreakerState, threshold: int, cooldown: int, now: Time): (r: BreakerState)
    ensures s.mode == Closed ==>
              (r.mode == Open <==> s.failures + 1 >= threshold) && r.failures == s.failures + 1 &&
              r.openUntil == (if r.mode == Open then now + cooldown else s.openUntil)
    ensures s.mode == HalfOpen ==> r == BreakerState(Open, threshold, now + cooldown)
    ensures s.mode == Open ==> r == s.(failures := s.failures + 1)
  {
    var failures := s.failures + 1;
    match s.mode
    case Closed =>
      if failures >= threshold then BreakerState(Open, failures, now + cooldown)
      else s.(failures := failures)
    case HalfOpen => BreakerState(Open, threshold, now + cooldown)
    case Open => s.(failures := failures)
  }

  /** `Failure()` called once at each of the given instants, in order. */
  function Failures(s: BreakerState, threshold: int, cooldown: int, times: seq<Time>): BreakerState
  {
    if times == [] then s
    else FailureStep(Failures(s, threshold, cooldown, times[..|times| - 1]), threshold, cooldown, times[|times| - 1])
  }

  /** `Success()` called n times in a row. */
  function Successes(s: BreakerState, n: nat): BreakerState
  {
    if n == 0 then s else SuccessStep(Successes(s, n - 1))
  }

  /** A closed breaker that stays below the threshold stays closed and only counts. */
  lemma {:induction false} FailuresBelowThreshold(s: BreakerState, threshold: int, cooldown: int, times: seq<Time>)
    requires s.mode == Closed && s.failures + |times| < threshold
    ensures Failures(s, threshold, cooldown, times) == s.(failures := s.failures + |times|)
  {
    if times != [] {
      FailuresBelowThreshold(s, threshold, cooldown, times[..|times| - 1]);
    }
  }

  /**
   * Starting closed with no failures, `threshold` consecutive failures open the
   * breaker until the last failure's instant plus the cooldown; one fewer leaves it closed.
   */
  lemma ThresholdOpens(threshold: int, cooldown: int, times: seq<Time>)
    requires threshold >= 1 && |times| == threshold
    ensures Failures(BreakerState(Closed, 0, ZeroTime), threshold, cooldown, times)
         == BreakerState(Open, threshold, times[|times| - 1] + cooldown)
    ensures Failures(BreakerState(Closed, 0, ZeroTime), threshold, cooldown, times[..|times| - 1])
         == BreakerState(Closed, threshold - 1, ZeroTime)
  {
    FailuresBelowThreshold(BreakerState(Closed, 0, ZeroTime), threshold, cooldown, times[..|times| - 1]);
  }

  /** Success is idempotent: any positive number of successes acts like one. */
  lemma {:induction false} SuccessesCollapse(s: BreakerState, n: nat)
    requires n >= 1
    ensures Successes(s, n) == SuccessStep(s)
  {
    if n > 1 {
      SuccessesCollapse(s, n - 1);
    }
  }

  /**
   * The breaker law end to end: after `threshold` failures the breaker refuses
   * every call up to and including the deadline; the first call strictly after
   * it is let through and half-opens the breaker; from there a success closes
   * it with a zero count and a failure reopens it with a fresh deadline.
   */
  lemma BreakerLaw(threshold: int, cooldown: int, times: seq<Time>, early: Time, late: Time, t: Time)
    requires threshold >= 1 && |times| == threshold
    requires early <= times[|times| - 1] + cooldown < late
    ensures var tripped := Failures(BreakerState(Closed, 0, ZeroTime), threshold, cooldown, times);
            && AllowStep(tripped, early) == (false, tripped)
            && var (ok, trial) := AllowStep(tripped, late);
               && ok && trial.mode == HalfOpen
               && SuccessStep(trial) == BreakerState(Closed, 0, tripped.openUntil)
               && FailureStep(trial, threshold, cooldown, t) == BreakerState(Open, threshold, t + cooldown)
  {
    ThresholdOpens(threshold, cooldown, times);
  }

  /** A breaker as the Go struct holds it; threshold and cooldown never change after construction. */
  class CircuitBreaker {
    var mode: Mode
    var failures: int
    var openUntil: Time
    const failureThreshold: int
    const openCooldown: int

    function View(): BreakerState
      reads this
    {
      BreakerState(mode, failures, openUntil)
    }

    /** NewCircuitBreaker: closed, no failures, with the given threshold and cooldown. */
    constructor (failureThreshold: int, openCooldown: int)
      ensures View() == BreakerState(Closed, 0, ZeroTime)
      ensures this.failureThreshold == failureThreshold && this.openCooldown == openCooldown
    {
      mode := Closed;
      failures := 0;
      openUntil := ZeroTime;
      this.failureThreshold := failureThreshold;
      this.openCooldown := openCooldown;
    }

    method Allow(now: Time) returns (ok: bool)
      modifies this
      ensures (ok, View()) == AllowStep(old(View()), now)
    {
      match mode
      case Closed =>
        ok := true;
      case Open =>
        if now > openUntil {
          mode := HalfOpen;
          ok := true;
        } else {
          ok := false;
        }
      case HalfOpen =>
        ok := true;
    }

    method Success()
      modifies this
      ensures View() == SuccessStep(old(View()))
    {
      failures := 0;
      if mode == HalfOpen {
        mode := Closed;
      }
    }

    method Failure(now: Time)
      modifies this
      ensures View() == FailureStep(old(View()), failureThreshold, openCooldown, now)
    {
      failures := failures + 1;
      match mode
      case Closed =>
        if failures >= failureThreshold {
          mode := Open;
          openUntil := now + openCooldown;
        }
      case HalfOpen =>
        mode := Open;
        openUntil := now + openCooldown;
        failures := failureThreshold;
      case Open =>
    }

    /** The debugging name of the current state. */
    function StateName(): (name: string)
      reads this
      ensures name == "closed" <==> mode == Closed
      ensures name == "open" <==> mode == Open
      ensures name == "half_open" <==> mode == HalfOpen
    {
      match mode
      case Closed => "closed"
      case Open => "open"
      case HalfOpen => "half_open"
    }
  }
}
