/** When the Redis limiter and the in-process limiter decide alike, and when they do not. */
module RedisAgreement {
  import opened RateLimits
  import opened LimiterRuns
  import opened RedisRateLimits

  predicate Distinct(grants: seq<Reservation>) {
    forall j, k | 0 <= j < k < |grants| :: grants[j] != grants[k]
  }

  lemma {:induction false} SortedWindow(window: seq<Reservation>, grants: seq<Reservation>, cutoff: real)
    requires Sorted(grants) && Holds(window, grants, cutoff)
    ensures Sorted(window)
    ensures forall r | r in window :: r in grants
  {
    var d := |grants| - |window|;
    assert forall k | 0 <= k < |window| :: window[k] == grants[k + d];
  }

  /** Popping the deques and trimming the sets leaves the same reservations, limit by limit. */
  lemma {:induction false} SameAllPruned(cfg: Config, windows: seq<seq<Reservation>>, keys: seq<Key<ZSet>>,
                                         grants: seq<Reservation>, earlier: real, now: real)
    requires |windows| == |keys| == |cfg.limits| && Mirrors(cfg, windows, grants, earlier)
    requires forall i | 0 <= i < |cfg.limits| :: SameWindow(windows[i], keys[i], cfg.limits[i].windowSeconds)
    ensures var live, trimmed := PruneAll(cfg, windows, now), ZRemAll(cfg, keys, now, |keys|);
      && live == Contents(trimmed)
      && forall i | 0 <= i < |cfg.limits| :: SameWindow(live[i], trimmed[i], cfg.limits[i].windowSeconds)
  {
    hide PruneAll, ZRemAll, Contents, ZRemUpTo, Prune, Sorted;
    var live, trimmed := PruneAll(cfg, windows, now), ZRemAll(cfg, keys, now, |keys|);
    forall i | 0 <= i < |cfg.limits|
      ensures SameWindow(live[i], trimmed[i], cfg.limits[i].windowSeconds)
    {
      SortedWindow(windows[i], grants, earlier - cfg.limits[i].windowSeconds);
      SamePruned(windows[i], keys[i], cfg.limits[i].windowSeconds, now);
    }
  }

  /** From the same state both limiters decide the same, with the same delay. */
  lemma {:induction false} SameDecision(cfg: Config, s: Limiter, r: Server, grants: seq<Reservation>, earlier: real,
                                        now: real, audience: Audience)
    requires cfg.Valid() && Same(cfg, s, r) && Mirrors(cfg, s.windows, grants, earlier)
    ensures RedisReserve(cfg, r, now, audience).1 == Reserve(cfg, s, now, audience).1
  {
    hide PruneAll, ZRemAll, Contents, Decide, Mirrors;
    SameAllPruned(cfg, s.windows, r.windows, grants, earlier, now);
  }

  lemma {:induction false} SamePause(cfg: Config, s: Limiter, r: Server, now: real, delay: real)
    requires Same(cfg, s, r)
    ensures Same(cfg, Pause(s, now, delay), RedisPause(r, now, delay))
  {
  }

  /** A reservation made at this reading is in every window if it was granted at all. */
  lemma {:induction false} HeldWhenGranted(cfg: Config, live: seq<seq<Reservation>>, grants: seq<Reservation>,
                                           now: real, r: Reservation, i: nat)
    requires i < |cfg.limits| && cfg.limits[i].windowSeconds > 0.0 && r.occurredAt == now
    requires Mirrors(cfg, live, grants, now)
    ensures forall k | 0 <= k < |live[i]| :: live[i][k].occurredAt <= now
    ensures r in live[i] <==> r in grants
  {
    SortedWindow(live[i], grants, now - cfg.limits[i].windowSeconds);
    var d := |grants| - |live[i]|;
    if j :| 0 <= j < |grants| && grants[j] == r {
      assert j >= d;
      assert live[i][j - d] == r;
    }
  }

  /** After an attempt the two limiters are in the same state again exactly when it added no reservation that
      has been granted before. */
  lemma {:induction false} SameAfterAttempt(cfg: Config, s: Limiter, r: Server, grants: seq<Reservation>, now: real,
                                            audience: Audience)
    requires cfg.Valid() && Same(cfg, s, r) && Mirrors(cfg, s.windows, grants, now)
    ensures Same(cfg, Reserve(cfg, s, now, audience).0, RedisReserve(cfg, r, now, audience).0)
            <==> (Reserve(cfg, s, now, audience).1.Granted? ==> Reservation(now, audience) !in grants)
  {
    hide PruneAll, ZRemAll, Contents, Decide, Splice, Appended, ZAddAll, ZAdd, Mirrors, SameWindow;
    if s.blockedUntil <= now {
      SameAllPruned(cfg, s.windows, r.windows, grants, now, now);
      PrunedAllIsRecent(cfg, s.windows, grants, now, now);
      var live, trimmed := PruneAll(cfg, s.windows, now), ZRemAll(cfg, r.windows, now, |r.windows|);
      var reservation := Reservation(now, audience);
      if Decide(cfg, live, now, audience) == Granted {
        forall i | 0 <= i < |cfg.limits|
          ensures (reservation !in grants) ==
                  SameWindow(live[i] + [reservation],
                             Kept(ZAdd(Stored(trimmed[i]), reservation),
                                  now + Ceil(cfg.limits[i].windowSeconds) as real),
                             cfg.limits[i].windowSeconds)
        {
          HeldWhenGranted(cfg, live, grants, now, reservation, i);
          SameAfterGrant(live[i], trimmed[i], cfg.limits[i].windowSeconds, reservation);
        }
        assert |cfg.limits| > 0;
      }
    }
  }

  lemma {:induction false} DistinctNext(grants: seq<Reservation>, r: Reservation)
    ensures Distinct(grants + [r]) <==> Distinct(grants) && r !in grants
  {
    var longer := grants + [r];
    assert longer[|grants|] == r && forall k | 0 <= k < |grants| :: longer[k] == grants[k];
    if Distinct(longer) {
      forall k | 0 <= k < |grants|
        ensures grants[k] != r
      {
        assert longer[k] != longer[|grants|];
      }
    }
  }

  /** The two limiters are in the same state after the first `n` steps. */
  ghost predicate SameAfter(cfg: Config, steps: seq<Step>, n: nat)
    requires cfg.Valid() && n <= |steps|
  {
    Same(cfg, Exec(cfg, steps[..n]).limiter, RedisExec(cfg, steps[..n]))
  }

  /** One step more: the states stay the same exactly when the grants stay pairwise different. */
  lemma {:induction false} SameNext(cfg: Config, before: seq<Step>, last: Step)
    requires cfg.Valid() && Chronological(before + [last]) && Until(before, last.now)
    requires Same(cfg, Exec(cfg, before).limiter, RedisExec(cfg, before)) && Distinct(Exec(cfg, before).grants)
    ensures Same(cfg, Exec(cfg, before + [last]).limiter, RedisExec(cfg, before + [last]))
            <==> Distinct(Exec(cfg, before + [last]).grants)
  {
    hide Mirrors, Same, Reserve, RedisReserve, BlockEnd, Distinct;
    var t, r := Exec(cfg, before), RedisExec(cfg, before);
    assert (before + [last])[..|before|] == before;
    match last
    case Quiet(now, delay) => SamePause(cfg, t.limiter, r, now, delay);
    case Attempt(now, audience) =>
      RunMirrors(cfg, before, now);
      SameAfterAttempt(cfg, t.limiter, r, t.grants, now, audience);
      DistinctNext(t.grants, Reservation(now, audience));
  }

  lemma {:induction false} GrantsOnlyGrow(cfg: Config, before: seq<Step>, last: Step)
    requires cfg.Valid()
    ensures Distinct(Exec(cfg, before + [last]).grants) ==> Distinct(Exec(cfg, before).grants)
  {
    hide Reserve;
    assert (before + [last])[..|before|] == before;
    if last.Attempt? {
      DistinctNext(Exec(cfg, before).grants, Reservation(last.now, last.audience));
    }
  }

  /** The two limiters are in the same state all along the run. */
  ghost predicate AlwaysSame(cfg: Config, steps: seq<Step>)
    requires cfg.Valid()
  {
    forall n | 0 <= n <= |steps| :: SameAfter(cfg, steps, n)
  }

  lemma {:induction false} AlwaysSameNext(cfg: Config, before: seq<Step>, last: Step)
    requires cfg.Valid()
    ensures AlwaysSame(cfg, before) ==> Same(cfg, Exec(cfg, before).limiter, RedisExec(cfg, before))
    ensures var steps := before + [last];
      AlwaysSame(cfg, steps) <==> AlwaysSame(cfg, before) && Same(cfg, Exec(cfg, steps).limiter, RedisExec(cfg, steps))
  {
    hide Same, Exec, RedisExec;
    var steps := before + [last];
    assert steps[..|steps|] == steps && before[..|before|] == before;
    forall n | 0 <= n <= |before|
      ensures SameAfter(cfg, steps, n) == SameAfter(cfg, before, n)
    {
      assert steps[..n] == before[..n];
    }
    if AlwaysSame(cfg, before) {
      assert SameAfter(cfg, before, |before|);
    }
    if AlwaysSame(cfg, steps) {
      assert SameAfter(cfg, steps, |steps|);
      assert forall n | 0 <= n <= |before| :: SameAfter(cfg, steps, n);
    }
  }

  /** The two limiters are in the same state all along a run exactly when its grants are pairwise different:
      with the first repeated one they part. */
  lemma {:induction false} SameExactlyWhileDistinct(cfg: Config, steps: seq<Step>)
    requires cfg.Valid() && Chronological(steps)
    ensures AlwaysSame(cfg, steps) <==> Distinct(Exec(cfg, steps).grants)
  {
    if steps == [] {
      assert steps[..0] == [];
    } else {
      var before, last := steps[..|steps| - 1], steps[|steps| - 1];
      assert steps == before + [last] && Chronological(before) && Until(before, last.now);
      hide *;
      SameExactlyWhileDistinct(cfg, before);
      AlwaysSameNext(cfg, before, last);
      GrantsOnlyGrow(cfg, before, last);
      if Distinct(Exec(cfg, before).grants) {
        SameNext(cfg, before, last);
      }
    }
  }

  /** On every run in which no two grants of one audience share a clock reading, the Redis limiter
      grants, refuses and delays exactly as the in-process limiter does. */
  lemma {:induction false} RedisAgrees(cfg: Config, steps: seq<Step>, q: nat)
    requires cfg.Valid() && Chronological(steps) && q < |steps| && steps[q].Attempt?
    requires Distinct(Exec(cfg, steps[..q]).grants)
    ensures RedisOutcomeAt(cfg, steps, q) == OutcomeAt(cfg, steps, q)
  {
    SameExactlyWhileDistinct(cfg, steps[..q]);
    assert steps[..q][..q] == steps[..q] && SameAfter(cfg, steps[..q], q);
    hide Mirrors, Same, Reserve, RedisReserve;
    RunMirrors(cfg, steps[..q], steps[q].now);
    SameDecision(cfg, Exec(cfg, steps[..q]).limiter, RedisExec(cfg, steps[..q]),
      Exec(cfg, steps[..q]).grants, steps[q].now, steps[q].now, steps[q].audience);
  }

  // ---- What goes wrong when clock readings coincide ----

  function Burst(n: nat, now: real): (steps: seq<Step>)
    ensures |steps| == n && forall p | 0 <= p < n :: steps[p] == Attempt(now, Manual)
  {
    if n == 0 then [] else Burst(n - 1, now) + [Attempt(now, Manual)]
  }

  lemma {:induction false} BurstPrefix(n: nat, now: real, q: nat)
    requires q <= n
    ensures Burst(n, now)[..q] == Burst(q, now)
  {
  }

  /** Every set holds at most the one reservation of this reading. */
  ghost predicate OnlyThisReading(cfg: Config, s: Server, now: real) {
    && |s.windows| == |cfg.limits|
    && VisibleBlock(s.blockedUntil, now) <= now
    && forall i | 0 <= i < |s.windows| ::
         Stored(s.windows[i]) == [] || Stored(s.windows[i]) == [Reservation(now, Manual)]
  }

  lemma {:induction false} AtMostOneHeld(cfg: Config, s: Server, now: real)
    requires cfg.Valid() && OnlyThisReading(cfg, s, now)
    requires forall i | 0 <= i < |cfg.limits| :: cfg.limits[i].requestCount >= 2
    ensures RedisReserve(cfg, s, now, Manual).1 == Granted
    ensures OnlyThisReading(cfg, RedisReserve(cfg, s, now, Manual).0, now)
  {
    hide ZRemAll, Contents, ZAddAll;
    var keys := ZRemAll(cfg, s.windows, now, |s.windows|);
    forall i | 0 <= i < |keys|
      ensures Stored(keys[i]) == [] || Stored(keys[i]) == [Reservation(now, Manual)]
    {
      var z, since := Visible(s.windows[i], now), now - cfg.limits[i].windowSeconds;
      assert z == [] || z == [Reservation(now, Manual)];
      assert z != [] ==> z[1..] == [] && Recent(z[1..], since) == [];
      assert keys[i] == ZRemUpTo(s.windows[i], now, since);
    }
    forall i | 0 <= i < |keys|
      ensures VerdictAt(cfg, Contents(keys), now, Manual, i) == Pass
    {
    }
  }

  lemma {:induction false} BurstState(cfg: Config, n: nat, now: real)
    requires cfg.Valid() && now >= 0.0
    requires forall i | 0 <= i < |cfg.limits| :: cfg.limits[i].requestCount >= 2
    ensures OnlyThisReading(cfg, RedisExec(cfg, Burst(n, now)), now)
  {
    if n > 0 {
      BurstState(cfg, n - 1, now);
      assert Burst(n, now)[..n - 1] == Burst(n - 1, now);
      AtMostOneHeld(cfg, RedisExec(cfg, Burst(n - 1, now)), now);
    }
  }

  /** Manual attempts that all read the same clock value are all granted by the Redis limiter,
      however many they are, as soon as every limit admits two requests. */
  lemma {:induction false} BurstIsNeverRefused(cfg: Config, n: nat, now: real)
    requires cfg.Valid() && now >= 0.0
    requires forall i | 0 <= i < |cfg.limits| :: cfg.limits[i].requestCount >= 2
    ensures forall q | 0 <= q < n :: RedisOutcomeAt(cfg, Burst(n, now), q) == Granted
  {
    forall q | 0 <= q < n
      ensures RedisOutcomeAt(cfg, Burst(n, now), q) == Granted
    {
      BurstPrefix(n, now, q);
      BurstState(cfg, q, now);
      AtMostOneHeld(cfg, RedisExec(cfg, Burst(q, now)), now);
    }
  }
}
