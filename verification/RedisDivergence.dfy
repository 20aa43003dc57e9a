/** What a grant that repeats a reservation leads to: some attempts later the process-local limiter refuses what
    the Redis limiter grants. */
module RedisDivergence {
  import opened RateLimits
  import opened LimiterRuns
  import opened RedisRateLimits
  import opened RedisAgreement
  import opened RedisSafety

  /** The set is behind the deque, with room left, and nothing in either expires at this reading. */
  ghost predicate LagsWindow(limit: RateLimit, window: seq<Reservation>, key: Key<ZSet>, now: real) {
    && key.Kept? && now < key.expiresAt && 0 < |key.value| < |window| <= limit.requestCount
    && (forall r | r in window :: r.occurredAt > now - limit.windowSeconds)
    && (forall r | r in key.value :: r.occurredAt > now - limit.windowSeconds)
  }

  ghost predicate Lags(cfg: Config, s: Limiter, r: Server, now: real) {
    && |s.windows| == |r.windows| == |cfg.limits|
    && s.blockedUntil <= now && VisibleBlock(r.blockedUntil, now) <= now
    && forall i | 0 <= i < |cfg.limits| :: LagsWindow(cfg.limits[i], s.windows[i], r.windows[i], now)
  }

  /** Every window has room for one more. */
  predicate AllRoom(cfg: Config, s: Limiter)
    requires |s.windows| == |cfg.limits|
  {
    forall i | 0 <= i < |cfg.limits| :: |s.windows[i]| < cfg.limits[i].requestCount
  }

  lemma {:induction false} Open(cfg: Config, s: Limiter, r: Server, now: real)
    requires cfg.Valid() && Lags(cfg, s, r, now)
    ensures 0 < |cfg.limits| == |s.windows| == |r.windows|
    ensures s.blockedUntil <= now && VisibleBlock(r.blockedUntil, now) <= now
    ensures |s.windows[0]| <= cfg.limits[0].requestCount
  {
    assert LagsWindow(cfg.limits[0], s.windows[0], r.windows[0], now);
  }

  lemma {:induction false} AllKept(grants: seq<Reservation>, since: real)
    requires forall r | r in grants :: r.occurredAt > since
    ensures Prune(grants, since) == grants && Recent(grants, since) == grants
  {
    assert forall k | 0 <= k < |grants| :: grants[k] in grants;
    AllAreRecent(grants, since);
  }

  lemma {:induction false} InsertLengthens(z: ZSet, r: Reservation)
    ensures |Insert(z, r)| == |z| + 1
  {
    if z != [] {
      InsertLengthens(z[..|z| - 1], r);
    }
  }

  lemma {:induction false} AddLags(limit: RateLimit, window: seq<Reservation>, key: Key<ZSet>, now: real)
    requires LagsWindow(limit, window, key, now) && limit.windowSeconds > 0.0 && |window| < limit.requestCount
    ensures var r := Reservation(now, Manual);
      LagsWindow(limit, window + [r], Kept(ZAdd(Stored(key), r), now + Ceil(limit.windowSeconds) as real), now)
  {
    var r := Reservation(now, Manual);
    InsertMembers(Stored(key), r);
    InsertLengthens(Stored(key), r);
  }

  lemma {:induction false} NothingTrimmedAt(limit: RateLimit, window: seq<Reservation>, key: Key<ZSet>, now: real)
    requires LagsWindow(limit, window, key, now)
    ensures Prune(window, now - limit.windowSeconds) == window
    ensures ZRemUpTo(key, now, now - limit.windowSeconds) == key
  {
    AllKept(window, now - limit.windowSeconds);
    AllKept(key.value, now - limit.windowSeconds);
  }

  lemma {:induction false} NothingTrimmed(cfg: Config, s: Limiter, r: Server, now: real)
    requires Lags(cfg, s, r, now)
    ensures PruneAll(cfg, s.windows, now) == s.windows && ZRemAll(cfg, r.windows, now, |r.windows|) == r.windows
  {
    hide Prune, ZRemUpTo, LagsWindow, PruneAll, ZRemAll;
    forall i | 0 <= i < |cfg.limits|
      ensures Prune(s.windows[i], now - cfg.limits[i].windowSeconds) == s.windows[i]
      ensures ZRemUpTo(r.windows[i], now, now - cfg.limits[i].windowSeconds) == r.windows[i]
    {
      NothingTrimmedAt(cfg.limits[i], s.windows[i], r.windows[i], now);
    }
  }

  /** A manual attempt is granted if every window has room, and refused otherwise. */
  lemma {:induction false} ManualDecision(cfg: Config, live: seq<seq<Reservation>>, now: real)
    requires cfg.Valid() && |live| == |cfg.limits|
    requires forall i | 0 <= i < |live| && |live[i]| >= cfg.limits[i].requestCount ::
               live[i][0].occurredAt + cfg.limits[i].windowSeconds > now
    ensures (forall i | 0 <= i < |live| :: |live[i]| < cfg.limits[i].requestCount) ==>
              Decide(cfg, live, now, Manual) == Granted
    ensures (exists i | 0 <= i < |live| :: |live[i]| >= cfg.limits[i].requestCount) ==>
              Decide(cfg, live, now, Manual).Refused?
  {
    if i :| 0 <= i < |live| && |live[i]| >= cfg.limits[i].requestCount {
      assert VerdictAt(cfg, live, now, Manual, i).Wait?;
    }
  }

  lemma {:induction false} BothDecide(cfg: Config, s: Limiter, r: Server, now: real)
    requires cfg.Valid() && Lags(cfg, s, r, now)
    ensures Decide(cfg, Contents(r.windows), now, Manual) == Granted
    ensures if AllRoom(cfg, s) then Decide(cfg, s.windows, now, Manual) == Granted
            else Decide(cfg, s.windows, now, Manual).Refused?
  {
    forall i | 0 <= i < |cfg.limits|
      ensures |Contents(r.windows)[i]| < |s.windows[i]| <= cfg.limits[i].requestCount
      ensures s.windows[i][0].occurredAt + cfg.limits[i].windowSeconds > now
    {
      assert LagsWindow(cfg.limits[i], s.windows[i], r.windows[i], now);
      assert s.windows[i][0] in s.windows[i];
    }
    hide Decide, LagsWindow, Contents;
    ManualDecision(cfg, Contents(r.windows), now);
    ManualDecision(cfg, s.windows, now);
  }

  lemma {:induction false} BothAdd(cfg: Config, s: Limiter, r: Server, now: real)
    requires cfg.Valid() && Lags(cfg, s, r, now) && AllRoom(cfg, s)
    ensures Lags(cfg, s.(windows := Appended(s.windows, Reservation(now, Manual))),
                 r.(windows := ZAddAll(cfg, r.windows, Reservation(now, Manual), |r.windows|)), now)
  {
    hide LagsWindow, ZAdd, ZAddAll, Appended, Stored, VisibleBlock;
    forall i | 0 <= i < |cfg.limits|
      ensures LagsWindow(cfg.limits[i], s.windows[i] + [Reservation(now, Manual)],
                         Kept(ZAdd(Stored(r.windows[i]), Reservation(now, Manual)),
                              now + Ceil(cfg.limits[i].windowSeconds) as real), now)
    {
      AddLags(cfg.limits[i], s.windows[i], r.windows[i], now);
    }
  }

  /** At the same reading the Redis limiter grants one more manual attempt; the local one does so only if every
      window has room, and then the sets are behind as before. */
  lemma {:induction false} AttemptLags(cfg: Config, s: Limiter, r: Server, now: real)
    requires cfg.Valid() && Lags(cfg, s, r, now)
    ensures RedisReserve(cfg, r, now, Manual).1 == Granted
    ensures var (after, outcome) := Reserve(cfg, s, now, Manual);
      if outcome == Granted then
        Lags(cfg, after, RedisReserve(cfg, r, now, Manual).0, now) && |after.windows[0]| == |s.windows[0]| + 1
      else outcome.Refused?
  {
    hide Lags, AllRoom, PruneAll, ZRemAll, Decide, Contents, ZAddAll, VisibleBlock, Config.Valid;
    Open(cfg, s, r, now);
    NothingTrimmed(cfg, s, r, now);
    BothDecide(cfg, s, r, now);
    if AllRoom(cfg, s) {
      BothAdd(cfg, s, r, now);
    }
  }

  lemma {:induction false} AttemptNext(cfg: Config, steps: seq<Step>, now: real)
    requires cfg.Valid() && Chronological(steps) && Until(steps, now)
    requires Lags(cfg, Exec(cfg, steps).limiter, RedisExec(cfg, steps), now)
    ensures var s, longer := Exec(cfg, steps).limiter, steps + [Attempt(now, Manual)];
      && |s.windows[0]| <= cfg.limits[0].requestCount
      && Chronological(longer) && Until(longer, now)
      && RedisOutcomeAt(cfg, longer, |steps|) == Granted
      && if OutcomeAt(cfg, longer, |steps|) == Granted then
           && Lags(cfg, Exec(cfg, longer).limiter, RedisExec(cfg, longer), now)
           && |Exec(cfg, longer).limiter.windows[0]| == |s.windows[0]| + 1
         else OutcomeAt(cfg, longer, |steps|).Refused?
  {
    var s, r, longer := Exec(cfg, steps).limiter, RedisExec(cfg, steps), steps + [Attempt(now, Manual)];
    Open(cfg, s, r, now);
    ExecNext(cfg, steps, Attempt(now, Manual));
    assert longer[..|steps|] == steps;
    hide Lags, Reserve, RedisReserve, Chronological, Until;
    AttemptLags(cfg, s, r, now);
  }

  /** So manual attempts at this reading come to one that the local limiter refuses and the Redis one grants. */
  lemma {:induction false} Parts(cfg: Config, steps: seq<Step>, now: real) returns (longer: seq<Step>)
    requires cfg.Valid() && Chronological(steps) && Until(steps, now)
    requires Lags(cfg, Exec(cfg, steps).limiter, RedisExec(cfg, steps), now)
    ensures |longer| > |steps| && steps <= longer && Chronological(longer)
    ensures forall p | |steps| <= p < |longer| :: longer[p] == Attempt(now, Manual)
    ensures OutcomeAt(cfg, longer, |longer| - 1).Refused? && RedisOutcomeAt(cfg, longer, |longer| - 1) == Granted
    decreases cfg.limits[0].requestCount - |Exec(cfg, steps).limiter.windows[0]|
  {
    hide *;
    AttemptNext(cfg, steps, now);
    longer := steps + [Attempt(now, Manual)];
    if OutcomeAt(cfg, longer, |steps|) == Granted {
      longer := Parts(cfg, steps + [Attempt(now, Manual)], now);
    }
  }

  /** A reservation added again: the deque grows, the set does not. */
  lemma {:induction false} RepeatLagsWindow(limit: RateLimit, window: seq<Reservation>, key: Key<ZSet>, r: Reservation)
    requires limit.windowSeconds > 0.0 && SameWindow(window, key, limit.windowSeconds)
    requires r in window && |window| < limit.requestCount
    requires forall other | other in window :: other.occurredAt > r.occurredAt - limit.windowSeconds
    ensures LagsWindow(limit, window + [r],
                       Kept(ZAdd(Stored(key), r), r.occurredAt + Ceil(limit.windowSeconds) as real), r.occurredAt)
  {
  }

  lemma {:induction false} RoomWhenGranted(cfg: Config, live: seq<seq<Reservation>>, now: real, audience: Audience,
                                           i: nat)
    requires cfg.Valid() && |live| == |cfg.limits| && Decide(cfg, live, now, audience) == Granted && i < |live|
    requires forall other | other in live[i] :: other.occurredAt > now - cfg.limits[i].windowSeconds
    requires live[i] != []
    ensures |live[i]| < cfg.limits[i].requestCount
  {
    assert live[i][0] in live[i];
    GrantedMeansPass(cfg, live, now, audience, i);
  }

  lemma {:induction false} AllRecent(cfg: Config, live: seq<seq<Reservation>>, grants: seq<Reservation>, now: real,
                                     i: nat)
    requires i < |cfg.limits| && live == RecentPerLimit(cfg, grants, now, |cfg.limits|)
    ensures forall other | other in live[i] :: other.occurredAt > now - cfg.limits[i].windowSeconds
  {
    hide Recent, RecentPerLimit;
    RecentMembers(grants, now - cfg.limits[i].windowSeconds);
  }

  lemma {:induction false} RoomInEach(cfg: Config, live: seq<seq<Reservation>>, grants: seq<Reservation>, now: real,
                                      audience: Audience, i: nat)
    requires cfg.Valid() && Mirrors(cfg, live, grants, now) && i < |cfg.limits|
    requires live == RecentPerLimit(cfg, grants, now, |cfg.limits|) && Decide(cfg, live, now, audience) == Granted
    requires Reservation(now, audience) in grants
    ensures Reservation(now, audience) in live[i] && |live[i]| < cfg.limits[i].requestCount
    ensures forall other | other in live[i] :: other.occurredAt > now - cfg.limits[i].windowSeconds
  {
    hide Mirrors, Recent, RecentPerLimit, Decide;
    HeldWhenGranted(cfg, live, grants, now, Reservation(now, audience), i);
    AllRecent(cfg, live, grants, now, i);
    RoomWhenGranted(cfg, live, now, audience, i);
  }

  /** The first repeated grant leaves the sets behind. */
  lemma {:induction false} RepeatLags(cfg: Config, s: Limiter, r: Server, grants: seq<Reservation>, now: real,
                                      audience: Audience)
    requires cfg.Valid() && Same(cfg, s, r) && Mirrors(cfg, s.windows, grants, now)
    requires Reserve(cfg, s, now, audience).1 == Granted && Reservation(now, audience) in grants
    ensures Lags(cfg, Reserve(cfg, s, now, audience).0, RedisReserve(cfg, r, now, audience).0, now)
  {
    hide PruneAll, ZRemAll, Contents, Decide, Splice, Appended, ZAddAll, ZAdd, Mirrors, SameWindow, LagsWindow,
      RecentPerLimit;
    SameAllPruned(cfg, s.windows, r.windows, grants, now, now);
    PrunedAllIsRecent(cfg, s.windows, grants, now, now);
    var live, trimmed := PruneAll(cfg, s.windows, now), ZRemAll(cfg, r.windows, now, |r.windows|);
    forall i | 0 <= i < |cfg.limits|
      ensures LagsWindow(cfg.limits[i], live[i] + [Reservation(now, audience)],
                         Kept(ZAdd(Stored(trimmed[i]), Reservation(now, audience)),
                              now + Ceil(cfg.limits[i].windowSeconds) as real), now)
    {
      RoomInEach(cfg, live, grants, now, audience, i);
      RepeatLagsWindow(cfg.limits[i], live[i], trimmed[i], Reservation(now, audience));
    }
  }

  /** A run whose last step is the first to repeat a grant. */
  lemma {:induction false} RepeatLeaves(cfg: Config, before: seq<Step>, last: Step)
    requires cfg.Valid() && Chronological(before) && Until(before, last.now)
    requires Distinct(Exec(cfg, before).grants) && !Distinct(Exec(cfg, before + [last]).grants)
    ensures Lags(cfg, Exec(cfg, before + [last]).limiter, RedisExec(cfg, before + [last]), last.now)
  {
    var t := Exec(cfg, before);
    assert (before + [last])[..|before|] == before;
    assert last.Attempt? && Reserve(cfg, t.limiter, last.now, last.audience).1 == Granted;
    SameExactlyWhileDistinct(cfg, before);
    AlwaysSameNext(cfg, before, last);
    RunMirrors(cfg, before, last.now);
    DistinctNext(t.grants, Reservation(last.now, last.audience));
    hide Distinct, Reserve, RedisReserve, Same, Mirrors, Lags, AlwaysSame, AllLawful;
    RepeatLags(cfg, t.limiter, RedisExec(cfg, before), t.grants, last.now, last.audience);
  }

  lemma {:induction false} LastStep(cfg: Config, steps: seq<Step>) returns (before: seq<Step>, last: Step)
    requires cfg.Valid() && Chronological(steps) && !Distinct(Exec(cfg, steps).grants)
    ensures steps == before + [last] && Chronological(before) && Until(before, last.now) && Until(steps, last.now)
  {
    assert steps != [];
    before, last := steps[..|steps| - 1], steps[|steps| - 1];
  }

  lemma {:induction false} SamePart(steps: seq<Step>, before: seq<Step>, last: Step, m: nat)
    requires steps == before + [last] && 0 < m <= |steps|
    ensures m <= |before| ==> before[..m] == steps[..m] && before[m - 1] == steps[m - 1]
    ensures m == |steps| ==> steps[..m] == steps && steps[m - 1] == last
  {
  }

  /** A run with a repeated grant: from some point of it, manual attempts at the reading it has come to lead to one
      that the local limiter refuses and the Redis limiter grants. */
  lemma {:induction false} RepeatShows(cfg: Config, steps: seq<Step>) returns (m: nat, longer: seq<Step>)
    requires cfg.Valid() && Chronological(steps) && !Distinct(Exec(cfg, steps).grants)
    ensures 0 < m <= |steps| && m < |longer| && steps[..m] <= longer && Chronological(longer)
    ensures forall p | m <= p < |longer| :: longer[p] == Attempt(steps[m - 1].now, Manual)
    ensures OutcomeAt(cfg, longer, |longer| - 1).Refused? && RedisOutcomeAt(cfg, longer, |longer| - 1) == Granted
    decreases |steps|
  {
    hide *;
    var before, last := LastStep(cfg, steps);
    if !Distinct(Exec(cfg, before).grants) {
      m, longer := RepeatShows(cfg, before);
      SamePart(steps, before, last, m);
    } else {
      m := |steps|;
      SamePart(steps, before, last, m);
      RepeatLeaves(cfg, before, last);
      longer := Parts(cfg, steps, last.now);
    }
  }
}
