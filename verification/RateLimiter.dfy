/** The process-local limiter: one deque per limit, popped and appended in place, and the
    wait-and-retry loop around it. */
module RateLimiter {
  import opened Options
  import opened LimiterRuns
  import opened RateLimits
  import opened RetryProgress

  /** A monotonic clock.  Reading it and sleeping on it may take any extra time. */
  class Clock {
    var now: real

    constructor (start: real)
      ensures now == start
    {
      now := start;
    }

    method Monotonic() returns (reading: real)
      modifies this
      ensures old(now) <= reading == now
    {
      var elapsed: real :| elapsed >= 0.0;
      now := now + elapsed;
      reading := now;
    }

    method Sleep(delay: real)
      modifies this
      ensures now >= old(now) && now >= old(now) + delay
    {
      var oversleep: real :| oversleep >= 0.0;
      now := now + Max(delay, 0.0) + oversleep;
    }
  }

  datatype AcquireResult = Acquired | ConfigurationError

  class RiotRateLimitManager {
    const config: Config
    const maxRetries: int
    const retryAfterBufferSeconds: real
    const retryAfterFallbackSeconds: real
    const clock: Clock
    var windows: seq<seq<Reservation>>
    var blockedUntil: real
    /** Every attempt and pause so far. */
    ghost var steps: seq<Step>

    /** The limiter is where the run of all its steps leads. */
    ghost predicate Valid()
      reads this, clock
      ensures Valid() ==> config.Valid()
    {
      && config.Valid() && State().Valid(config)
      && Chronological(steps) && Until(steps, clock.now)
      && State() == Exec(config, steps).limiter
    }

    /** The log of all grants. */
    ghost function Grants(): seq<Reservation>
      requires config.Valid()
      reads this
    {
      Exec(config, steps).grants
    }

    ghost function State(): Limiter
      reads this
    {
      Limiter(windows, blockedUntil)
    }

    constructor (config: Config, maxRetries: int, retryAfterBufferSeconds: real, retryAfterFallbackSeconds: real,
                 clock: Clock)
      requires config.Valid()
      ensures Valid() && steps == []
      ensures this.config == config && this.clock == clock && this.maxRetries == maxRetries
    {
      this.config := config;
      this.maxRetries := maxRetries;
      this.retryAfterBufferSeconds := retryAfterBufferSeconds;
      this.retryAfterFallbackSeconds := retryAfterFallbackSeconds;
      this.clock := clock;
      windows := seq(|config.limits|, _ => []);
      blockedUntil := 0.0;
      steps := [];
      new;
      assert windows == EmptyWindows(|config.limits|);
    }

    /** Pops the expired reservations of one window. */
    method PopExpired(i: nat, cutoff: real)
      requires i < |windows|
      modifies this`windows
      ensures windows == old(windows)[i := Prune(old(windows[i]), cutoff)]
    {
      while windows[i] != [] && windows[i][0].occurredAt <= cutoff
        invariant i < |windows| == |old(windows)|
        invariant windows == old(windows)[i := windows[i]]
        invariant Prune(windows[i], cutoff) == Prune(old(windows[i]), cutoff)
        decreases |windows[i]|
      {
        windows := windows[i := windows[i][1..]];
      }
    }

    /** Pops one window and says whether its limit lets the attempt through. */
    method CheckLimit(i: nat, now: real, audience: Audience) returns (verdict: Verdict)
      requires config.Valid() && i < |windows| == |config.limits|
      modifies this`windows
      ensures windows == old(windows)[i := Prune(old(windows[i]), now - config.limits[i].windowSeconds)]
      ensures verdict == Judge(config, config.limits[i], windows[i], now, audience)
    {
      var limit := config.limits[i];
      PopExpired(i, now - limit.windowSeconds);
      if |windows[i]| >= limit.requestCount {
        return Wait(windows[i][0].occurredAt + limit.windowSeconds);
      }
      if audience == Automatic {
        var automaticCapacity := config.AutomaticCapacity(limit);
        if |windows[i]| >= automaticCapacity {
          if windows[i] == [] {
            if limit.windowSeconds <= config.manualReserveUnlockSeconds {
              return Pass;
            }
            return NoCapacity;
          }
          var untilOldestExpires := windows[i][0].occurredAt + limit.windowSeconds - now;
          if untilOldestExpires <= config.manualReserveUnlockSeconds {
            return Pass;
          }
          return Wait(windows[i][0].occurredAt + limit.windowSeconds - config.manualReserveUnlockSeconds);
        }
      }
      return Pass;
    }

    /** Pops and judges every window in turn; `Granted` here only says that nothing objects. */
    method CheckLimits(now: real, audience: Audience) returns (outcome: Outcome)
      requires config.Valid() && |windows| == |config.limits|
      modifies this`windows
      ensures var live := PruneAll(config, old(windows), now);
        && outcome == Decide(config, live, now, audience)
        && windows == if outcome == Misconfigured
                      then var fault := FirstFault(config, live, now, audience, 0);
                        Splice(live, old(windows), fault + 1)
                      else live
    {
      hide Splice, PruneAll, PruneFirst, Judge;
      ghost var live := PruneAll(config, windows, now);
      var waitUntil := now;
      for i := 0 to |config.limits|
        invariant windows == Splice(live, old(windows), i)
        invariant waitUntil == WaitUntil(config, live, now, audience, i)
        invariant FirstFault(config, live, now, audience, 0) == FirstFault(config, live, now, audience, i)
      {
        SpliceNext(live, old(windows), i);
        var verdict := CheckLimit(i, now, audience);
        assert windows == Splice(live, old(windows), i + 1);
        assert verdict == VerdictAt(config, live, now, audience, i);
        match verdict
        case Wait(until) => waitUntil := Max(waitUntil, until);
        case NoCapacity => return Misconfigured;
        case Pass =>
      }
      var delay := waitUntil - now;
      return if delay > 0.0 then Refused(delay) else Granted;
    }

    /** Appends one reservation to every window. */
    method Record(r: Reservation)
      modifies this`windows
      ensures windows == Appended(old(windows), r)
    {
      hide Splice, Appended;
      for i := 0 to |windows|
        invariant |windows| == |old(windows)|
        invariant windows == Splice(Appended(old(windows), r), old(windows), i)
      {
        SpliceNext(Appended(old(windows), r), old(windows), i);
        windows := windows[i := windows[i] + [r]];
      }
    }

    /** One attempt, with no suspension inside. */
    method ReserveOrDelay(now: real, audience: Audience) returns (outcome: Outcome)
      requires Valid() && Until(steps, now) && now <= clock.now
      modifies this`windows, this`steps
      ensures Valid() && steps == old(steps) + [Attempt(now, audience)]
      ensures (State(), outcome) == Reserve(config, old(State()), now, audience)
      ensures outcome == OutcomeAt(config, steps, |old(steps)|)
      ensures Grants() == if outcome.Granted? then old(Grants()) + [Reservation(now, audience)] else old(Grants())
    {
      hide Splice, PruneAll, Appended, Decide, Chronological;
      ReserveKeepsValid(config, State(), now, audience);
      ExecNext(config, steps, Attempt(now, audience));
      steps := steps + [Attempt(now, audience)];
      hide Exec, OutcomeAt;
      var blockedDelay := blockedUntil - now;
      if blockedDelay > 0.0 {
        return Refused(blockedDelay);
      }
      outcome := CheckLimits(now, audience);
      if outcome == Granted {
        Record(Reservation(now, audience));
      }
    }

    /** The non-waiting form: whether the slot was reserved, and the delay otherwise. */
    method TryAcquire(audience: Audience) returns (acquired: bool, waitSeconds: real, misconfigured: bool)
      requires Valid()
      modifies this`windows, this`steps, clock
      ensures Valid() && clock.now >= old(clock.now)
      ensures steps == old(steps) + [Attempt(clock.now, audience)]
      ensures var outcome := OutcomeAt(config, steps, |old(steps)|);
        && misconfigured == outcome.Misconfigured?
        && acquired == outcome.Granted?
        && (outcome.Refused? ==> waitSeconds == outcome.delay > 0.0)
        && (acquired ==> waitSeconds == 0.0)
      ensures Grants() == if acquired then old(Grants()) + [Reservation(clock.now, audience)] else old(Grants())
    {
      hide Reserve, Exec, OutcomeAt, Chronological;
      OutcomeFacts(config, State(), clock.now, audience);
      var now := clock.Monotonic();
      OutcomeFacts(config, State(), now, audience);
      var outcome := ReserveOrDelay(now, audience);
      match outcome
      case Granted => return true, 0.0, false;
      case Refused(delay) => return false, Max(delay, 0.0), false;
      case Misconfigured => return false, 0.0, true;
    }

    /** How long a 429 answer asks this process to stay quiet; `retryAfter` is the number of
        seconds the header names, or nothing when the header is missing or unreadable. */
    function RetryAfterDelay(retryAfter: Option<real>): real {
      var seconds := if retryAfter.Some? then Max(0.0, retryAfter.value) else retryAfterFallbackSeconds;
      Max(0.0, seconds + retryAfterBufferSeconds)
    }

    /** Blocks every caller of this process until the pause is over, then sleeps through it. */
    method PauseForRetryAfter(retryAfter: Option<real>) returns (waits: seq<real>)
      requires Valid()
      modifies this`blockedUntil, this`steps, clock
      ensures Valid()
      ensures clock.now >= old(clock.now)
      ensures var named := if retryAfter.None? then retryAfterFallbackSeconds
                           else if retryAfter.value > 0.0 then retryAfter.value else 0.0;
        var delay := named + retryAfterBufferSeconds;
        if delay <= 0.0 then waits == [] && steps == old(steps)
        else
          && waits == [delay] && clock.now >= old(clock.now) + delay
          && |steps| == |old(steps)| + 1 && steps[|old(steps)|].now >= old(clock.now)
          && steps == old(steps) + [Quiet(steps[|old(steps)|].now, delay)]
      ensures Grants() == old(Grants())
    {
      hide Exec, Chronological;
      var delay := RetryAfterDelay(retryAfter);
      if delay <= 0.0 {
        return [];
      }
      var at := clock.Monotonic();
      blockedUntil := Max(blockedUntil, at + delay);
      ExecNext(config, steps, Quiet(at, delay));
      steps := steps + [Quiet(at, delay)];
      clock.Sleep(delay);
      return [delay];
    }

    /** One attempt at the current time, and how far a refusal is from being the last. */
    method AttemptNow(audience: Audience) returns (outcome: Outcome)
      requires Valid()
      modifies this`windows, this`steps, clock
      ensures Valid() && clock.now >= old(clock.now)
      ensures steps == old(steps) + [Attempt(clock.now, audience)] && outcome == OutcomeAt(config, steps, |old(steps)|)
      ensures Grants() == if outcome.Granted? then old(Grants()) + [Reservation(clock.now, audience)] else old(Grants())
      ensures outcome.Refused? ==> outcome.delay > 0.0
      ensures outcome.Misconfigured? ==> audience == Automatic
      ensures blockedUntil > clock.now ==> windows == old(windows) && outcome == Refused(blockedUntil - clock.now)
      ensures outcome.Refused? && blockedUntil <= clock.now ==>
        && Poised(config, State(), audience, clock.now + outcome.delay)
        && 1 <= Queued(windows) <= Queued(old(windows))
      ensures outcome.Refused? && Poised(config, old(State()), audience, old(clock.now)) ==>
        audience == Automatic && Queued(windows) < Queued(old(windows))
    {
      hide Reserve, Queued, Exec, OutcomeAt, Chronological;
      var now := clock.Monotonic();
      ghost var before := State();
      OutcomeFacts(config, before, now, audience);
      outcome := ReserveOrDelay(now, audience);
      if outcome.Refused? && before.blockedUntil <= now {
        RefusalQueues(config, before, now, audience);
        RetryMakesProgress(config, before, now, audience);
      }
    }

    /** Reserves a slot, sleeping and retrying until every window has room.  `waits` lists the
        delays reported to the caller, one for each sleep.  Nobody else uses the limiter meanwhile. */
    method Acquire(audience: Audience) returns (result: AcquireResult, waits: seq<real>)
      requires Valid()
      modifies this`windows, this`steps, clock
      ensures Valid() && clock.now >= old(clock.now)
      ensures |waits| <= 1 + Queued(old(windows))
      ensures audience == Manual ==> |waits| <= 2 && result == Acquired
      ensures forall k | 0 <= k < |waits| :: waits[k] > 0.0
      ensures |steps| == |old(steps)| + |waits| + 1 && steps[|steps| - 1] == Attempt(clock.now, audience)
      ensures OnlyRefused(config, old(steps), steps[..|steps| - 1], audience, waits)
      ensures OutcomeAt(config, steps, |steps| - 1) == if result == Acquired then Granted else Misconfigured
      ensures Grants() ==
              if result == Acquired then old(Grants()) + [Reservation(clock.now, audience)] else old(Grants())
    {
      hide Queued, Exec, OutcomeAt, OnlyRefused, Chronological, Until, Poised,
        Config.Valid, Limiter.Valid, Reserve, Prune, Recent;
      waits := [];
      ghost var blocks: nat := 0;
      NoRefusals(config, steps, audience);
      while true
        invariant Valid() && blockedUntil == old(blockedUntil) && clock.now >= old(clock.now)
        invariant forall k | 0 <= k < |waits| :: waits[k] > 0.0
        invariant OnlyRefused(config, old(steps), steps, audience, waits) && Grants() == old(Grants())
        invariant |steps| == |old(steps)| + |waits|
        invariant blocks <= |waits| && blocks <= 1
        invariant blocks == 1 ==> clock.now >= blockedUntil
        invariant |waits| == blocks ==> windows == old(windows)
        invariant |waits| > blocks ==>
          && Poised(config, State(), audience, clock.now)
          && |waits| + Queued(windows) <= blocks + Queued(old(windows)) + 1
          && Queued(windows) >= 1
          && (audience == Manual ==> |waits| == blocks + 1)
        decreases 1 + Queued(old(windows)) - |waits|
      {
        ghost var earlier := steps;
        var outcome := AttemptNow(audience);
        match outcome
        case Granted =>
          return Acquired, waits;
        case Misconfigured =>
          return ConfigurationError, waits;
        case Refused(delay) =>
          if blockedUntil > clock.now {
            blocks := 1;
          }
          OnlyRefusedNext(config, old(steps), earlier, audience, waits, clock.now, delay);
          waits := waits + [delay];
          ghost var refusedAt := clock.now;
          Sleep(delay);
          PoisedLater(config, State(), audience, refusedAt + delay, clock.now);
      }
    }

    method Sleep(delay: real)
      requires Valid()
      modifies clock
      ensures Valid() && clock.now >= old(clock.now) + delay && clock.now >= old(clock.now)
    {
      clock.Sleep(delay);
    }
  }
}
