/** The Redis limiter as it is written: a command at a time against the server's keys. */
module RedisLimiter {
  import opened RateLimits
  import opened RedisRateLimits

  /** Trimming one more set. */
  lemma {:induction false} TrimNext(cfg: Config, windows: seq<Key<ZSet>>, now: real, i: nat)
    requires cfg.Valid() && i < |windows| == |cfg.limits|
    ensures var keys := ZRemAll(cfg, windows, now, |windows|);
      var trimmed := Splice(keys, windows, i);
      && trimmed[i := ZRemUpTo(trimmed[i], now, now - cfg.limits[i].windowSeconds)] == Splice(keys, windows, i + 1)
      && Contents(keys)[i] == Stored(ZRemUpTo(trimmed[i], now, now - cfg.limits[i].windowSeconds))
  {
    hide Splice, ZRemUpTo, ZRemAll, Contents, Stored;
    SpliceNext(ZRemAll(cfg, windows, now, |windows|), windows, i);
  }

  class RedisRiotRateLimitManager {
    const config: Config
    var windowKeys: seq<Key<ZSet>>
    var blockedKey: Key<real>

    ghost predicate Valid()
      reads this
    {
      config.Valid() && |windowKeys| == |config.limits|
    }

    ghost function State(): Server
      reads this
    {
      Server(windowKeys, blockedKey)
    }

    constructor (config: Config)
      requires config.Valid()
      ensures Valid() && this.config == config && State() == Server(NoKeys(|config.limits|), Absent)
    {
      this.config := config;
      windowKeys := NoKeys(|config.limits|);
      blockedKey := Absent;
    }

    /** Trims one set and says whether its limit lets the attempt through. */
    method CheckLimit(i: nat, now: real, audience: Audience) returns (verdict: Verdict)
      requires config.Valid() && i < |windowKeys| == |config.limits|
      modifies this`windowKeys
      ensures windowKeys
              == old(windowKeys)[i := ZRemUpTo(old(windowKeys[i]), now, now - config.limits[i].windowSeconds)]
      ensures verdict == Judge(config, config.limits[i], Stored(windowKeys[i]), now, audience)
    {
      var limit := config.limits[i];
      windowKeys := windowKeys[i := ZRemUpTo(windowKeys[i], now, now - limit.windowSeconds)];
      var members := Stored(windowKeys[i]);
      var count := |members|;
      if count >= limit.requestCount {
        return Wait(members[0].occurredAt + limit.windowSeconds);
      }
      if audience == Automatic {
        var automaticCapacity := config.AutomaticCapacity(limit);
        if count >= automaticCapacity {
          if count == 0 {
            if limit.windowSeconds <= config.manualReserveUnlockSeconds {
              return Pass;
            }
            return NoCapacity;
          }
          var untilOldestExpires := members[0].occurredAt + limit.windowSeconds - now;
          if untilOldestExpires <= config.manualReserveUnlockSeconds {
            return Pass;
          }
          return Wait(members[0].occurredAt + limit.windowSeconds - config.manualReserveUnlockSeconds);
        }
      }
      return Pass;
    }

    /** Trims and judges every set in turn; `Granted` here only says that nothing objects. */
    method CheckLimits(now: real, audience: Audience) returns (outcome: Outcome)
      requires Valid()
      modifies this`windowKeys
      ensures var keys := ZRemAll(config, old(windowKeys), now, |old(windowKeys)|);
        && outcome == Decide(config, Contents(keys), now, audience)
        && windowKeys == if outcome == Misconfigured
                         then var fault := FirstFault(config, Contents(keys), now, audience, 0);
                           Splice(keys, old(windowKeys), fault + 1)
                         else keys
    {
      hide Splice, ZRemAll, Contents, ZRemUpTo, Stored, Judge;
      ghost var keys := ZRemAll(config, windowKeys, now, |windowKeys|);
      ghost var live := Contents(keys);
      var waitUntil := now;
      for i := 0 to |config.limits|
        invariant windowKeys == Splice(keys, old(windowKeys), i)
        invariant waitUntil == WaitUntil(config, live, now, audience, i)
        invariant FirstFault(config, live, now, audience, 0) == FirstFault(config, live, now, audience, i)
      {
        TrimNext(config, old(windowKeys), now, i);
        var verdict := CheckLimit(i, now, audience);
        assert windowKeys == Splice(keys, old(windowKeys), i + 1);
        assert verdict == VerdictAt(config, live, now, audience, i);
        match verdict
        case Wait(until) => waitUntil := Max(waitUntil, until);
        case NoCapacity => return Misconfigured;
        case Pass =>
      }
      var delay := waitUntil - now;
      return if delay > 0.0 then Refused(delay) else Granted;
    }

    /** Adds one reservation to every set and renews every set's expiry. */
    method Record(r: Reservation)
      requires Valid()
      modifies this`windowKeys
      ensures windowKeys == ZAddAll(config, old(windowKeys), r, |old(windowKeys)|)
    {
      hide Splice, ZAddAll, ZAdd, Stored;
      ghost var added := ZAddAll(config, windowKeys, r, |windowKeys|);
      for i := 0 to |config.limits|
        invariant windowKeys == Splice(added, old(windowKeys), i)
      {
        SpliceNext(added, old(windowKeys), i);
        windowKeys := windowKeys[i := Kept(ZAdd(Stored(windowKeys[i]), r),
                                           r.occurredAt + Ceil(config.limits[i].windowSeconds) as real)];
      }
    }

    /** One attempt, under the server's lock. */
    method ReserveOrDelay(now: real, audience: Audience) returns (outcome: Outcome)
      requires Valid()
      modifies this`windowKeys
      ensures Valid()
      ensures (State(), outcome) == RedisReserve(config, old(State()), now, audience)
    {
      hide Splice, ZRemAll, ZAddAll, Contents, Decide;
      var blockedUntil := VisibleBlock(blockedKey, now);
      if blockedUntil > now {
        return Refused(blockedUntil - now);
      }
      outcome := CheckLimits(now, audience);
      if outcome == Granted {
        Record(Reservation(now, audience));
      }
    }

    /** The server side of a 429 pause: the later of the two blocks wins. */
    method Block(now: real, delay: real)
      requires Valid()
      modifies this`blockedKey
      ensures Valid() && State() == RedisPause(old(State()), now, delay)
    {
      if delay <= 0.0 {
        return;
      }
      var blockedUntil := now + delay;
      var current := VisibleBlock(blockedKey, now);
      if blockedUntil > current {
        blockedKey := Kept(blockedUntil, now + Ceil(delay) as real);
      }
    }
  }
}
