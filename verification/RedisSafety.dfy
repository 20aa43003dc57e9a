/** What the Redis limiter guarantees in every run, grants that share a clock reading included: no window ever
    holds more different reservations than its limit counts. */
module RedisSafety {
  import opened RateLimits
  import opened LimiterRuns
  import opened RedisRateLimits

  /** Every reservation a run of the Redis limiter has granted, in order. */
  function RedisGrants(cfg: Config, steps: seq<Step>): seq<Reservation>
    requires cfg.Valid()
  {
    if steps == [] then []
    else
      var before, last := steps[..|steps| - 1], steps[|steps| - 1];
      RedisGrants(cfg, before)
      + if last.Attempt? && RedisReserve(cfg, RedisExec(cfg, before), last.now, last.audience).1 == Granted
        then [Reservation(last.now, last.audience)] else []
  }

  lemma {:induction false} RecentMembers(grants: seq<Reservation>, since: real)
    ensures forall r :: r in Recent(grants, since) <==> r in grants && r.occurredAt > since
  {
    if grants != [] {
      RecentMembers(grants[1..], since);
      assert grants == [grants[0]] + grants[1..];
    }
  }

  lemma {:induction false} InsertMembers(z: ZSet, r: Reservation)
    ensures forall other :: other in Insert(z, r) <==> other in z || other == r
  {
    if z == [] || z[|z| - 1].occurredAt <= r.occurredAt {
    } else {
      InsertMembers(z[..|z| - 1], r);
      assert z == z[..|z| - 1] + [z[|z| - 1]];
    }
  }

  /** The set holds every grant still inside the window, and outlives it. */
  ghost predicate Keeps(key: Key<ZSet>, grants: seq<Reservation>, windowSeconds: real, now: real) {
    forall r | r in grants && r.occurredAt + windowSeconds > now ::
      key.Kept? && r in key.value && r.occurredAt + windowSeconds <= key.expiresAt
  }

  lemma {:induction false} TrimKeeps(key: Key<ZSet>, grants: seq<Reservation>, windowSeconds: real, now: real)
    requires Keeps(key, grants, windowSeconds, now)
    ensures Keeps(ZRemUpTo(key, now, now - windowSeconds), grants, windowSeconds, now)
  {
    RecentMembers(Visible(key, now), now - windowSeconds);
  }

  lemma {:induction false} AddKeeps(key: Key<ZSet>, grants: seq<Reservation>, windowSeconds: real, r: Reservation)
    requires Keeps(key, grants, windowSeconds, r.occurredAt) && windowSeconds > 0.0
    requires forall other | other in grants :: other.occurredAt <= r.occurredAt
    ensures Keeps(Kept(ZAdd(Stored(key), r), r.occurredAt + Ceil(windowSeconds) as real), grants + [r], windowSeconds,
                  r.occurredAt)
  {
    InsertMembers(Stored(key), r);
  }

  ghost predicate KeepsAll(cfg: Config, s: Server, grants: seq<Reservation>, now: real) {
    && |s.windows| == |cfg.limits|
    && (forall i | 0 <= i < |cfg.limits| :: Keeps(s.windows[i], grants, cfg.limits[i].windowSeconds, now))
    && (forall r | r in grants :: r.occurredAt <= now)
  }

  lemma {:induction false} KeepsLater(cfg: Config, s: Server, grants: seq<Reservation>, earlier: real, now: real)
    requires KeepsAll(cfg, s, grants, earlier) && earlier <= now
    ensures KeepsAll(cfg, s, grants, now)
  {
  }

  lemma {:induction false} AllTrimmed(cfg: Config, s: Server, grants: seq<Reservation>, now: real)
    requires KeepsAll(cfg, s, grants, now)
    ensures KeepsAll(cfg, s.(windows := ZRemAll(cfg, s.windows, now, |s.windows|)), grants, now)
  {
    forall i | 0 <= i < |cfg.limits|
      ensures Keeps(ZRemUpTo(s.windows[i], now, now - cfg.limits[i].windowSeconds), grants,
                    cfg.limits[i].windowSeconds, now)
    {
      TrimKeeps(s.windows[i], grants, cfg.limits[i].windowSeconds, now);
    }
    hide Keeps, ZRemAll, ZRemUpTo;
  }

  lemma {:induction false} SomeTrimmed(cfg: Config, s: Server, keys: seq<Key<ZSet>>, grants: seq<Reservation>,
                                       now: real, n: nat)
    requires KeepsAll(cfg, s, grants, now) && KeepsAll(cfg, s.(windows := keys), grants, now) && n <= |keys|
    ensures KeepsAll(cfg, s.(windows := Splice(keys, s.windows, n)), grants, now)
  {
    hide Keeps, Splice;
  }

  lemma {:induction false} AllAdded(cfg: Config, s: Server, grants: seq<Reservation>, r: Reservation)
    requires cfg.Valid() && KeepsAll(cfg, s, grants, r.occurredAt)
    ensures KeepsAll(cfg, s.(windows := ZAddAll(cfg, s.windows, r, |s.windows|)), grants + [r], r.occurredAt)
  {
    forall i | 0 <= i < |cfg.limits|
      ensures Keeps(Kept(ZAdd(Stored(s.windows[i]), r), r.occurredAt + Ceil(cfg.limits[i].windowSeconds) as real),
                    grants + [r], cfg.limits[i].windowSeconds, r.occurredAt)
    {
      AddKeeps(s.windows[i], grants, cfg.limits[i].windowSeconds, r);
    }
    hide Keeps, ZAddAll, ZAdd;
  }

  lemma {:induction false} AttemptKeeps(cfg: Config, s: Server, grants: seq<Reservation>, now: real, audience: Audience)
    requires cfg.Valid() && KeepsAll(cfg, s, grants, now)
    ensures var (after, outcome) := RedisReserve(cfg, s, now, audience);
      KeepsAll(cfg, after, grants + (if outcome == Granted then [Reservation(now, audience)] else []), now)
  {
    assert grants + [] == grants && |s.windows| == |cfg.limits|;
    hide KeepsAll, ZRemAll, ZAddAll, Decide, Contents, Splice;
    var keys := ZRemAll(cfg, s.windows, now, |s.windows|);
    AllTrimmed(cfg, s, grants, now);
    if VisibleBlock(s.blockedUntil, now) <= now {
      match Decide(cfg, Contents(keys), now, audience)
      case Misconfigured =>
        SomeTrimmed(cfg, s, keys, grants, now, FirstFault(cfg, Contents(keys), now, audience, 0) + 1);
      case Refused(_) =>
      case Granted =>
        AllAdded(cfg, s.(windows := keys), grants, Reservation(now, audience));
    }
  }

  lemma {:induction false} PauseKeeps(cfg: Config, s: Server, grants: seq<Reservation>, now: real, delay: real)
    requires KeepsAll(cfg, s, grants, now)
    ensures KeepsAll(cfg, RedisPause(s, now, delay), grants + [], now)
  {
    assert grants + [] == grants;
    hide Keeps;
  }

  lemma {:induction false} RunKeepsAll(cfg: Config, steps: seq<Step>, now: real)
    requires cfg.Valid() && Chronological(steps) && Until(steps, now)
    ensures KeepsAll(cfg, RedisExec(cfg, steps), RedisGrants(cfg, steps), now)
  {
    if steps != [] {
      var before, last := steps[..|steps| - 1], steps[|steps| - 1];
      RunKeepsAll(cfg, before, last.now);
      hide KeepsAll, RedisReserve;
      match last
      case Quiet(at, delay) =>
        PauseKeeps(cfg, RedisExec(cfg, before), RedisGrants(cfg, before), at, delay);
      case Attempt(at, audience) =>
        AttemptKeeps(cfg, RedisExec(cfg, before), RedisGrants(cfg, before), at, audience);
      KeepsLater(cfg, RedisExec(cfg, steps), RedisGrants(cfg, steps), last.now, now);
    }
  }

  // Window safety.

  /** The different reservations inside the window that ends at `t`. */
  function Inside(grants: seq<Reservation>, windowSeconds: real, t: real): set<Reservation> {
    set r | r in grants && t - windowSeconds < r.occurredAt <= t
  }

  lemma {:induction false} NoMoreThanListed(z: ZSet, s: set<Reservation>)
    requires forall r | r in s :: r in z
    ensures |s| <= |z|
  {
    if z == [] {
      assert s == {};
    } else {
      var init, last := z[..|z| - 1], z[|z| - 1];
      assert z == init + [last];
      NoMoreThanListed(init, s - {last});
    }
  }

  /** When an attempt is granted there is room in every window, however it is placed. */
  lemma {:induction false} GrantHasRoom(cfg: Config, s: Server, grants: seq<Reservation>, now: real,
                                        audience: Audience, i: nat, t: real)
    requires cfg.Valid() && KeepsAll(cfg, s, grants, now) && i < |cfg.limits| && t >= now
    requires RedisReserve(cfg, s, now, audience).1 == Granted
    ensures |Inside(grants + [Reservation(now, audience)], cfg.limits[i].windowSeconds, t)|
            <= cfg.limits[i].requestCount
  {
    var r, windowSeconds := Reservation(now, audience), cfg.limits[i].windowSeconds;
    var keys := ZRemAll(cfg, s.windows, now, |s.windows|);
    var live := Contents(keys);
    RecentMembers(Visible(s.windows[i], now), now - windowSeconds);
    assert forall k | 0 <= k < |live[i]| :: live[i][k] in live[i];
    GrantedMeansPass(cfg, live, now, audience, i);
    var inside := Inside(grants + [r], windowSeconds, t);
    forall other | other in inside - {r}
      ensures other in live[i]
    {
      assert other in grants && other.occurredAt + windowSeconds > now;
    }
    NoMoreThanListed(live[i], inside - {r});
  }

  /** In every run of the Redis limiter, whatever its clock readings, for every limit and every instant at most
      `requestCount` different reservations lie in the window that ends there. */
  lemma {:induction false} RedisWindowSafety(cfg: Config, steps: seq<Step>, i: nat, t: real)
    requires cfg.Valid() && Chronological(steps) && i < |cfg.limits|
    ensures |Inside(RedisGrants(cfg, steps), cfg.limits[i].windowSeconds, t)| <= cfg.limits[i].requestCount
  {
    if steps == [] {
      assert Inside([], cfg.limits[i].windowSeconds, t) == {};
    } else {
      var before, last := steps[..|steps| - 1], steps[|steps| - 1];
      var grants := RedisGrants(cfg, before);
      RedisWindowSafety(cfg, before, i, t);
      assert grants + [] == grants;
      if last.Attempt? && RedisReserve(cfg, RedisExec(cfg, before), last.now, last.audience).1 == Granted {
        if t >= last.now {
          RunKeepsAll(cfg, before, last.now);
          GrantHasRoom(cfg, RedisExec(cfg, before), grants, last.now, last.audience, i, t);
        } else {
          assert Inside(grants + [Reservation(last.now, last.audience)], cfg.limits[i].windowSeconds, t)
                 == Inside(grants, cfg.limits[i].windowSeconds, t);
        }
      }
    }
  }
}
