/** Why the wait-and-retry loop ends: with no other caller, a retry made once the reported delay
    has passed is granted unless it finds something to pop. */
module RetryProgress {
  import opened RateLimits

  /** All reservations queued in the windows together. */
  function Queued(windows: seq<seq<Reservation>>): nat {
    if windows == [] then 0 else |windows[0]| + Queued(windows[1..])
  }

  /** From `since` on, an attempt by `audience` is refused only if it finds something to pop, and a
      manual attempt is never refused. */
  ghost predicate Poised(cfg: Config, s: Limiter, audience: Audience, since: real)
    requires cfg.Valid() && s.Valid(cfg)
  {
    forall later: real | later >= since ::
      Reserve(cfg, s, later, audience).1.Refused? ==>
        && audience == Automatic
        && Queued(Reserve(cfg, s, later, audience).0.windows) < Queued(s.windows)
  }

  lemma {:induction false} PoisedLater(cfg: Config, s: Limiter, audience: Audience, since: real, later: real)
    requires cfg.Valid() && s.Valid(cfg) && since <= later
    ensures Poised(cfg, s, audience, since) ==> Poised(cfg, s, audience, later)
  {
  }

  lemma {:induction false} QueuedShrinks(from: seq<seq<Reservation>>, to: seq<seq<Reservation>>)
    requires |to| == |from| && forall i | 0 <= i < |from| :: |to[i]| <= |from[i]|
    ensures Queued(to) <= Queued(from)
    ensures (exists i | 0 <= i < |from| :: |to[i]| < |from[i]|) ==> Queued(to) < Queued(from)
  {
    if from != [] {
      assert forall i | 0 <= i < |from| - 1 :: from[1..][i] == from[i + 1] && to[1..][i] == to[i + 1];
      QueuedShrinks(from[1..], to[1..]);
      if i :| 0 <= i < |from| && |to[i]| < |from[i]| {
        assert i == 0 || |to[1..][i - 1]| < |from[1..][i - 1]|;
      }
    }
  }

  lemma {:induction false} NothingQueued(windows: seq<seq<Reservation>>)
    requires Queued(windows) == 0
    ensures forall i | 0 <= i < |windows| :: windows[i] == []
  {
    if windows != [] {
      NothingQueued(windows[1..]);
      assert forall i | 0 < i < |windows| :: windows[i] == windows[1..][i - 1];
    }
  }

  lemma {:induction false} PruneAllShrinks(cfg: Config, windows: seq<seq<Reservation>>, now: real)
    requires |windows| == |cfg.limits|
    ensures forall i | 0 <= i < |windows| :: |PruneAll(cfg, windows, now)[i]| <= |windows[i]|
    ensures Queued(PruneAll(cfg, windows, now)) <= Queued(windows)
    ensures PruneAll(cfg, windows, now) != windows ==> Queued(PruneAll(cfg, windows, now)) < Queued(windows)
  {
    var live := PruneAll(cfg, windows, now);
    forall i | 0 <= i < |windows|
      ensures |live[i]| <= |windows[i]| && (live[i] != windows[i] ==> |live[i]| < |windows[i]|)
    {
      PruneShrinks(windows[i], now - cfg.limits[i].windowSeconds);
    }
    QueuedShrinks(windows, live);
  }

  /** What the three outcomes say about the state that is left. */
  lemma {:induction false} OutcomeFacts(cfg: Config, s: Limiter, now: real, audience: Audience)
    requires cfg.Valid() && s.Valid(cfg)
    ensures var (after, outcome) := Reserve(cfg, s, now, audience);
      && after.Valid(cfg)
      && (s.blockedUntil > now ==> after == s && outcome == Refused(s.blockedUntil - now))
      && (outcome.Refused? ==> outcome.delay > 0.0)
      && (outcome.Misconfigured? ==> audience == Automatic)
      && (outcome.Granted? ==> forall i | 0 <= i < |after.windows| ::
            after.windows[i] != [] && after.windows[i][|after.windows[i]| - 1] == Reservation(now, audience))
  {
    ReserveKeepsValid(cfg, s, now, audience);
  }

  /** An attempt refused by the windows leaves something queued, and queues nothing new. */
  lemma {:induction false} RefusalQueues(cfg: Config, s: Limiter, now: real, audience: Audience)
    requires cfg.Valid() && s.Valid(cfg) && s.blockedUntil <= now
    requires Reserve(cfg, s, now, audience).1.Refused?
    ensures 1 <= Queued(Reserve(cfg, s, now, audience).0.windows) <= Queued(s.windows)
  {
    var live := PruneAll(cfg, s.windows, now);
    PruneAllShrinks(cfg, s.windows, now);
    if Queued(live) == 0 {
      NothingQueued(live);
    }
  }

  /** The case of one limit: once its own wait is over it passes, unless it has popped something. */
  lemma {:induction false} LimitPassesOnRetry(cfg: Config, limit: RateLimit, live: seq<Reservation>, now: real,
                                              audience: Audience, later: real)
    requires 1 <= limit.requestCount && |live| <= limit.requestCount && now <= later
    requires !Judge(cfg, limit, live, now, audience).NoCapacity?
    requires Judge(cfg, limit, live, now, audience).Wait? ==> later >= Judge(cfg, limit, live, now, audience).until
    requires audience == Manual || Prune(live, later - limit.windowSeconds) == live
    ensures Judge(cfg, limit, Prune(live, later - limit.windowSeconds), later, audience) == Pass
  {
    PruneShrinks(live, later - limit.windowSeconds);
  }

  lemma {:induction false} AllPassOnRetry(cfg: Config, live: seq<seq<Reservation>>, now: real, audience: Audience,
                                          later: real)
    requires cfg.Valid() && |live| == |cfg.limits| && now <= later
    requires forall i | 0 <= i < |live| :: |live[i]| <= cfg.limits[i].requestCount
    requires FirstFault(cfg, live, now, audience, 0) == |live|
    requires WaitUntil(cfg, live, now, audience, |live|) <= later
    requires audience == Manual || PruneAll(cfg, live, later) == live
    ensures Decide(cfg, PruneAll(cfg, live, later), later, audience) == Granted
  {
    var again := PruneAll(cfg, live, later);
    forall i | 0 <= i < |again|
      ensures VerdictAt(cfg, again, later, audience, i) == Pass
    {
      assert !VerdictAt(cfg, live, now, audience, i).NoCapacity?;
      LimitPassesOnRetry(cfg, cfg.limits[i], live[i], now, audience, later);
    }
  }

  /** After waiting out a refusal, the next attempt is granted, or runs into a limit without
      capacity, or has popped something; for a manual caller it is granted. */
  lemma {:induction false} RetryMakesProgress(cfg: Config, s: Limiter, now: real, audience: Audience)
    requires cfg.Valid() && s.Valid(cfg) && s.blockedUntil <= now
    requires Reserve(cfg, s, now, audience).1.Refused?
    ensures Reserve(cfg, s, now, audience).0.Valid(cfg)
    ensures Poised(cfg, Reserve(cfg, s, now, audience).0, audience, now + Reserve(cfg, s, now, audience).1.delay)
  {
    ReserveKeepsValid(cfg, s, now, audience);
    var (refused, outcome) := Reserve(cfg, s, now, audience);
    forall later: real | later >= now + outcome.delay && Reserve(cfg, refused, later, audience).1.Refused?
      ensures audience == Automatic
      ensures Queued(Reserve(cfg, refused, later, audience).0.windows) < Queued(refused.windows)
    {
      var live := refused.windows;
      PruneAllShrinks(cfg, live, later);
      if audience == Manual || PruneAll(cfg, live, later) == live {
        AllPassOnRetry(cfg, live, now, audience, later);
      }
    }
  }
}
