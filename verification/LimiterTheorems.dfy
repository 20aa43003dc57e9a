/** What every run of the limiter guarantees. */
module LimiterTheorems {
  import opened RateLimits
  import opened RetryProgress
  import opened LimiterRuns

  function Grants(cfg: Config, steps: seq<Step>): seq<Reservation>
    requires cfg.Valid()
  {
    Exec(cfg, steps).grants
  }

  /** The whole log of a run is sorted and lawful. */
  lemma {:induction false} LogFacts(cfg: Config, steps: seq<Step>)
    requires cfg.Valid() && Chronological(steps)
    ensures Sorted(Grants(cfg, steps)) && AllLawful(cfg, Grants(cfg, steps))
  {
    var now := if steps == [] then 0.0 else steps[|steps| - 1].now;
    RunMirrors(cfg, steps, now);
  }

  // ---- Window safety ----

  lemma {:induction false} IntervalCardinality(s: set<int>, low: int, n: nat)
    requires forall k | k in s :: low <= k < low + n
    ensures |s| <= n
    decreases n
  {
    if n == 0 {
      assert forall k :: k !in s;
    } else {
      var last := low + n - 1;
      IntervalCardinality(s - {last}, low, n - 1);
      assert s <= (s - {last}) + {last};
    }
  }

  /** Grants `requestCount` apart in the log are at least one window apart in time. */
  lemma {:induction false} Spacing(cfg: Config, steps: seq<Step>, i: nat, j: nat)
    requires cfg.Valid() && Chronological(steps) && i < |cfg.limits|
    requires j + cfg.limits[i].requestCount < |Grants(cfg, steps)|
    ensures var h := Grants(cfg, steps);
      h[j + cfg.limits[i].requestCount].occurredAt >= h[j].occurredAt + cfg.limits[i].windowSeconds
  {
    LogFacts(cfg, steps);
    var h, q := Grants(cfg, steps), j + cfg.limits[i].requestCount;
    assert Lawful(cfg, h, q, i);
    RecentIsSuffix(h[..q], h[q].occurredAt - cfg.limits[i].windowSeconds);
  }

  /** The first grant from `from` on that is later than `since`; `|h|` when there is none. */
  function First(h: seq<Reservation>, since: real, from: nat): (k: nat)
    requires from <= |h|
    ensures from <= k <= |h|
    ensures k < |h| ==> h[k].occurredAt > since
    ensures forall j | from <= j < k :: h[j].occurredAt <= since
    decreases |h| - from
  {
    if from == |h| || h[from].occurredAt > since then from else First(h, since, from + 1)
  }

  /** For every limit and every instant, at most `requestCount` grants of the whole run lie in the
      window that ends there. */
  lemma {:induction false} WindowSafety(cfg: Config, steps: seq<Step>, i: nat, t: real)
    requires cfg.Valid() && Chronological(steps) && i < |cfg.limits|
    ensures var h := Grants(cfg, steps);
      |set k | 0 <= k < |h| && t - cfg.limits[i].windowSeconds < h[k].occurredAt <= t| <= cfg.limits[i].requestCount
  {
    LogFacts(cfg, steps);
    var h, limit := Grants(cfg, steps), cfg.limits[i];
    var inside := set k | 0 <= k < |h| && t - limit.windowSeconds < h[k].occurredAt <= t;
    if inside != {} {
      var first := First(h, t - limit.windowSeconds, 0);
      forall k | k in inside
        ensures first <= k < first + limit.requestCount
      {
        if k >= first + limit.requestCount {
          Spacing(cfg, steps, i, first);
        }
      }
      IntervalCardinality(inside, first, limit.requestCount);
    }
  }

  // ---- 429 blocks ----

  lemma {:induction false} BlockEndCovers(steps: seq<Step>, p: nat)
    requires p < |steps| && steps[p].Quiet? && steps[p].delay > 0.0
    ensures BlockEnd(steps) >= steps[p].now + steps[p].delay
  {
    if p < |steps| - 1 {
      BlockEndCovers(steps[..|steps| - 1], p);
    }
  }

  /** No grant after a 429 pause is timed before the pause ends. */
  lemma {:induction false} BlockRespected(cfg: Config, steps: seq<Step>, p: nat, q: nat)
    requires cfg.Valid() && Chronological(steps) && p < q < |steps|
    requires steps[p].Quiet? && steps[q].Attempt? && OutcomeAt(cfg, steps, q).Granted?
    ensures steps[q].now >= steps[p].now + steps[p].delay
  {
    if steps[p].delay > 0.0 {
      RunMirrors(cfg, steps[..q], steps[q].now);
      BlockEndCovers(steps[..q], p);
    }
  }

  // ---- Throughput ----

  lemma {:induction false} OneMoreWindow(m: nat, c: int, w: real)
    requires m > 0 && c >= 1
    ensures m * c == (m - 1) * c + c && (m - 1) * c >= 0
    ensures m as real * w == (m - 1) as real * w + w
  {
    assert m as real == (m - 1) as real + 1.0;
  }

  /** Grants `m * requestCount` apart in the log are at least `m` windows apart in time. */
  lemma {:induction false} SpacingMany(cfg: Config, steps: seq<Step>, i: nat, j: nat, m: nat)
    requires cfg.Valid() && Chronological(steps) && i < |cfg.limits|
    requires j + m * cfg.limits[i].requestCount < |Grants(cfg, steps)|
    ensures var h := Grants(cfg, steps);
      h[j + m * cfg.limits[i].requestCount].occurredAt >= h[j].occurredAt + m as real * cfg.limits[i].windowSeconds
    decreases m
  {
    hide Grants;
    var c, w := cfg.limits[i].requestCount, cfg.limits[i].windowSeconds;
    if m == 0 {
      assert m * c == 0 && m as real * w == 0.0;
    } else {
      OneMoreWindow(m, c, w);
      SpacingMany(cfg, steps, i, j, m - 1);
      Spacing(cfg, steps, i, j + (m - 1) * c);
    }
  }

  lemma {:induction false} SpanOfBlocks(cfg: Config, steps: seq<Step>, i: nat, j: nat, k: nat, m: nat)
    requires cfg.Valid() && Chronological(steps) && i < |cfg.limits|
    requires j <= k < |Grants(cfg, steps)| && j + m * cfg.limits[i].requestCount <= k
    ensures var h := Grants(cfg, steps);
      h[k].occurredAt - h[j].occurredAt >= m as real * cfg.limits[i].windowSeconds
  {
    LogFacts(cfg, steps);
    SpacingMany(cfg, steps, i, j, m);
    hide Grants, Chronological, Config.Valid, AllLawful;
    var h, middle := Grants(cfg, steps), j + m * cfg.limits[i].requestCount;
    assert j <= middle by {
      assert m * cfg.limits[i].requestCount >= 0;
    }
    assert h[middle].occurredAt <= h[k].occurredAt;
  }

  lemma {:induction false} WholeWindows(n: nat, m: nat, c: int, w: real, first: real, last: real)
    requires c >= 1 && w > 0.0 && n <= m * c + c && last - first >= m as real * w
    ensures n as real * w <= c as real * (last - first + w)
  {
    var span := last - first;
    var blocks := (m + 1) as real;
    assert m * c + c == (m + 1) * c;
    assert n as real <= blocks * c as real;
    assert n as real * w <= (blocks * c as real) * w;
    assert (blocks * c as real) * w == c as real * (blocks * w);
    assert blocks * w == m as real * w + w <= span + w;
    assert c as real * (blocks * w) <= c as real * (span + w);
  }

  /** The grants `j .. k` of a run, `n` of them, span at least `n * window / requestCount - window`. */
  lemma {:induction false} Throughput(cfg: Config, steps: seq<Step>, i: nat, j: nat, k: nat)
    requires cfg.Valid() && Chronological(steps) && i < |cfg.limits|
    requires j <= k < |Grants(cfg, steps)|
    ensures var h, n := Grants(cfg, steps), k - j + 1;
      n as real * cfg.limits[i].windowSeconds
      <= cfg.limits[i].requestCount as real * (h[k].occurredAt - h[j].occurredAt + cfg.limits[i].windowSeconds)
  {
    hide Grants, Chronological;
    var h, c, w := Grants(cfg, steps), cfg.limits[i].requestCount, cfg.limits[i].windowSeconds;
    var m := (k - j) / c;
    SpanOfBlocks(cfg, steps, i, j, k, m);
    WholeWindows(k - j + 1, m, c, w, h[j].occurredAt, h[k].occurredAt);
  }

  /** The estimate the API publishes for `requestCount` outstanding requests under two limits. */
  function RateLimitSecondsForRequests(requestCount: int, short: RateLimit, long: RateLimit): real
    requires short.requestCount >= 1 && long.requestCount >= 1
  {
    if requestCount <= 0 then 0.0
    else
      requestCount as real * Max(short.windowSeconds / short.requestCount as real,
                                 long.windowSeconds / long.requestCount as real)
  }

  lemma {:induction false} DivideThrough(n: real, w: real, c: real, total: real)
    requires c > 0.0 && n * w <= c * total
    ensures n * (w / c) <= total
  {
    var rate := w / c;
    assert c * rate == w;
    assert n * w == c * (n * rate);
    if n * rate > total {
      assert c * (n * rate) > c * total;
    }
  }

  lemma {:induction false} TimesRate(n: real, w: real, c: real, other: real)
    requires c > 0.0 && n >= 0.0
    ensures n * (w / c) * c == n * w
    ensures other >= w / c ==> n * other * c >= n * w
  {
    var rate := w / c;
    assert rate * c == w;
    assert n * rate * c == n * (rate * c);
    if other >= rate {
      assert n * other >= n * rate;
      assert n * other * c >= n * rate * c;
    }
  }

  /** The estimate gives every request at least its part of the window under both limits, and no more than that under
      one of them. */
  lemma {:induction false} EstimateIsBinding(requestCount: int, short: RateLimit, long: RateLimit)
    requires short.requestCount >= 1 && long.requestCount >= 1
    ensures var seconds := RateLimitSecondsForRequests(requestCount, short, long);
      && (requestCount <= 0 ==> seconds == 0.0)
      && (requestCount > 0 ==>
            && seconds * short.requestCount as real >= requestCount as real * short.windowSeconds
            && seconds * long.requestCount as real >= requestCount as real * long.windowSeconds
            && (|| seconds * short.requestCount as real == requestCount as real * short.windowSeconds
                || seconds * long.requestCount as real == requestCount as real * long.windowSeconds))
  {
    if requestCount > 0 {
      var n := requestCount as real;
      var shortRate, longRate :=
        short.windowSeconds / short.requestCount as real, long.windowSeconds / long.requestCount as real;
      TimesRate(n, short.windowSeconds, short.requestCount as real, longRate);
      TimesRate(n, long.windowSeconds, long.requestCount as real, shortRate);
    }
  }

  /** The estimate for a batch of grants never exceeds the time they really span by more than the
      window of the limit that binds. */
  lemma {:induction false} EstimateWithinOneWindow(cfg: Config, steps: seq<Step>, j: nat, k: nat)
    requires cfg.Valid() && |cfg.limits| == 2 && Chronological(steps)
    requires j <= k < |Grants(cfg, steps)|
    ensures var h, short, long := Grants(cfg, steps), cfg.limits[0], cfg.limits[1];
      var binding := if short.windowSeconds / short.requestCount as real
                        >= long.windowSeconds / long.requestCount as real
                     then short else long;
      RateLimitSecondsForRequests(k - j + 1, short, long)
      <= h[k].occurredAt - h[j].occurredAt + binding.windowSeconds
  {
    var h, short, long := Grants(cfg, steps), cfg.limits[0], cfg.limits[1];
    var b := if short.windowSeconds / short.requestCount as real >= long.windowSeconds / long.requestCount as real
             then 0 else 1;
    Throughput(cfg, steps, b, j, k);
    var c, w, n := cfg.limits[b].requestCount as real, cfg.limits[b].windowSeconds, (k - j + 1) as real;
    var total := h[k].occurredAt - h[j].occurredAt + w;
    assert n * w <= c * total;
    DivideThrough(n, w, c, total);
  }

  // ---- The manual reserve ----

  /** An automatic grant made with the automatic share of a limit already used up came within the
      unlock time of the oldest reservation's expiry, or into an empty window no longer than it. */
  lemma {:induction false} OverShareOnlyWhenUnlocked(cfg: Config, steps: seq<Step>, i: nat, j: nat)
    requires cfg.Valid() && Chronological(steps) && i < |cfg.limits|
    requires j < |Grants(cfg, steps)| && Grants(cfg, steps)[j].audience == Automatic
    ensures var g, limit := Grants(cfg, steps)[j], cfg.limits[i];
      var live := Recent(Grants(cfg, steps)[..j], g.occurredAt - limit.windowSeconds);
      |live| < cfg.AutomaticCapacity(limit)
      || (live == [] && limit.windowSeconds <= cfg.manualReserveUnlockSeconds)
      || (live != [] && live[0].occurredAt + limit.windowSeconds - g.occurredAt <= cfg.manualReserveUnlockSeconds)
  {
    LogFacts(cfg, steps);
    assert Lawful(cfg, Grants(cfg, steps), j, i);
  }

  /** The reserve never exceeds the limit, so the automatic share is what it leaves. */
  lemma {:induction false} ReserveFits(cfg: Config, limit: RateLimit)
    requires cfg.Valid() && limit in cfg.limits
    ensures cfg.AutomaticCapacity(limit)
            == limit.requestCount - Ceil(limit.requestCount as real * cfg.manualReserveFraction)
    ensures 0 <= cfg.AutomaticCapacity(limit) <= limit.requestCount
  {
    var n := limit.requestCount as real;
    assert 0.0 <= n * cfg.manualReserveFraction <= n * 1.0;
  }

  /** The automatic grants from the `first` one on that come before its window unlocks. */
  function EarlyAutomatic(cfg: Config, h: seq<Reservation>, i: nat, first: nat): set<int>
    requires i < |cfg.limits| && first < |h|
  {
    var unlock := h[first].occurredAt + cfg.limits[i].windowSeconds - cfg.manualReserveUnlockSeconds;
    set k | first <= k < |h| && h[k].audience == Automatic && h[k].occurredAt < unlock
  }

  /** While the grant that found the window empty is still live, it is the oldest one there. */
  lemma {:induction false} LiveSinceFirst(h: seq<Reservation>, first: nat, k: nat, window: real)
    requires Sorted(h) && first <= k < |h| && h[k].occurredAt < h[first].occurredAt + window
    requires Recent(h[..first], h[first].occurredAt - window) == []
    ensures Recent(h[..k], h[k].occurredAt - window) == h[first..k]
  {
    hide Recent;
    RecentIsSuffix(h[..first], h[first].occurredAt - window);
    RecentIsSuffix(h[..k], h[k].occurredAt - window);
    SameSplit(h[..k], h[k].occurredAt - window, |Recent(h[..k], h[k].occurredAt - window)|, k - first);
  }

  lemma {:induction false} AutomaticShareHolds(cfg: Config, steps: seq<Step>, i: nat, first: nat)
    requires cfg.Valid() && Chronological(steps) && i < |cfg.limits| && first < |Grants(cfg, steps)|
    requires var h := Grants(cfg, steps);
      Recent(h[..first], h[first].occurredAt - cfg.limits[i].windowSeconds) == []
    ensures |EarlyAutomatic(cfg, Grants(cfg, steps), i, first)| <= cfg.AutomaticCapacity(cfg.limits[i])
  {
    hide Config.AutomaticCapacity, Grants, Recent, Chronological, AllLawful;
    LogFacts(cfg, steps);
    var h, limit := Grants(cfg, steps), cfg.limits[i];
    var early := EarlyAutomatic(cfg, h, i, first);
    forall k | k in early
      ensures first <= k < first + cfg.AutomaticCapacity(limit)
    {
      OverShareOnlyWhenUnlocked(cfg, steps, i, k);
      LiveSinceFirst(h, first, k, limit.windowSeconds);
    }
    IntervalCardinality(early, first, cfg.AutomaticCapacity(limit));
  }

  /** From the grant that finds a window empty until the reserve unlocks, automatic traffic gets at
      most what the reserve leaves of that limit, whatever else is granted in between. */
  lemma {:induction false} ManualReserve(cfg: Config, steps: seq<Step>, i: nat, first: nat)
    requires cfg.Valid() && Chronological(steps) && i < |cfg.limits| && first < |Grants(cfg, steps)|
    requires var h := Grants(cfg, steps);
      Recent(h[..first], h[first].occurredAt - cfg.limits[i].windowSeconds) == []
    ensures var h, limit := Grants(cfg, steps), cfg.limits[i];
      |EarlyAutomatic(cfg, h, i, first)|
      <= limit.requestCount - Ceil(limit.requestCount as real * cfg.manualReserveFraction)
  {
    hide EarlyAutomatic, Grants, Config.AutomaticCapacity;
    AutomaticShareHolds(cfg, steps, i, first);
    ReserveFits(cfg, cfg.limits[i]);
  }

  // ---- Delays are exact ----

  predicate HeldBy(cfg: Config, i: nat, window: seq<Reservation>, audience: Audience, deadline: real)
    requires cfg.Valid() && i < |cfg.limits|
  {
    var limit := cfg.limits[i];
    && window != []
    && var expiry := window[0].occurredAt + limit.windowSeconds;
       || (|window| >= limit.requestCount && expiry >= deadline)
       || (&& audience == Automatic
           && |window| >= cfg.AutomaticCapacity(limit)
           && expiry - cfg.manualReserveUnlockSeconds >= deadline)
  }

  /** Some limit, or the block, keeps `audience` out until `deadline`. */
  ghost predicate Held(cfg: Config, s: Limiter, audience: Audience, deadline: real)
    requires cfg.Valid() && |s.windows| == |cfg.limits|
  {
    s.blockedUntil >= deadline || exists i | 0 <= i < |s.windows| :: HeldBy(cfg, i, s.windows[i], audience, deadline)
  }

  lemma {:induction false} RefusalHolds(cfg: Config, s: Limiter, now: real, audience: Audience)
    requires cfg.Valid() && |s.windows| == |cfg.limits|
    requires Reserve(cfg, s, now, audience).1.Refused?
    ensures Held(cfg, Reserve(cfg, s, now, audience).0, audience, now + Reserve(cfg, s, now, audience).1.delay)
  {
    hide PruneAll, Config.AutomaticCapacity;
    if s.blockedUntil <= now {
      var live := PruneAll(cfg, s.windows, now);
      var until := WaitUntil(cfg, live, now, audience, |live|);
      var i :| 0 <= i < |live| && VerdictAt(cfg, live, now, audience, i) == Wait(until);
      assert HeldBy(cfg, i, live[i], audience, until);
    }
  }

  /** Before the deadline no attempt and no pause removes what holds the caller back. */
  lemma {:induction false} HeldPersists(cfg: Config, t: Track, step: Step, audience: Audience, deadline: real)
    requires cfg.Valid() && |t.limiter.windows| == |cfg.limits|
    requires Held(cfg, t.limiter, audience, deadline) && step.now < deadline
    ensures Held(cfg, Apply(cfg, t, step).limiter, audience, deadline)
  {
    hide PruneAll, Splice, Appended, Decide, Config.AutomaticCapacity;
    var s, after := t.limiter, Apply(cfg, t, step).limiter;
    if s.blockedUntil < deadline {
      var i :| 0 <= i < |s.windows| && HeldBy(cfg, i, s.windows[i], audience, deadline);
      var w := s.windows[i];
      assert Prune(w, step.now - cfg.limits[i].windowSeconds) == w;
      assert after.windows[i] == w || (step.Attempt? && after.windows[i] == w + [Reservation(step.now, step.audience)]);
      assert HeldBy(cfg, i, after.windows[i], audience, deadline);
    }
  }

  lemma {:induction false} HeldRefuses(cfg: Config, s: Limiter, now: real, audience: Audience, deadline: real)
    requires cfg.Valid() && |s.windows| == |cfg.limits|
    requires Held(cfg, s, audience, deadline) && now < deadline
    ensures !Reserve(cfg, s, now, audience).1.Granted?
  {
    hide PruneAll, Splice, Appended, Config.AutomaticCapacity;
    if s.blockedUntil <= now {
      var i :| 0 <= i < |s.windows| && HeldBy(cfg, i, s.windows[i], audience, deadline);
      var live := PruneAll(cfg, s.windows, now);
      assert live[i] == s.windows[i];
      if Decide(cfg, live, now, audience) == Granted {
        GrantedMeansPass(cfg, live, now, audience, i);
      }
    }
  }

  lemma {:induction false} HeldUntil(cfg: Config, steps: seq<Step>, p: nat, q: nat)
    requires cfg.Valid() && Chronological(steps) && p < q < |steps|
    requires steps[p].Attempt? && OutcomeAt(cfg, steps, p).Refused?
    requires steps[q].now < steps[p].now + OutcomeAt(cfg, steps, p).delay
    ensures Held(cfg, Exec(cfg, steps[..q]).limiter, steps[p].audience, steps[p].now + OutcomeAt(cfg, steps, p).delay)
    decreases q
  {
    hide Held, Reserve;
    var deadline := steps[p].now + OutcomeAt(cfg, steps, p).delay;
    assert steps[..q][..q - 1] == steps[..q - 1];
    if q == p + 1 {
      RefusalHolds(cfg, Exec(cfg, steps[..p]).limiter, steps[p].now, steps[p].audience);
    } else {
      HeldUntil(cfg, steps, p, q - 1);
      HeldPersists(cfg, Exec(cfg, steps[..q - 1]), steps[q - 1], steps[p].audience, deadline);
    }
  }

  /** A refusal stands: whatever other attempts, grants and pauses follow, nobody of the same
      audience gets a slot strictly before the announced delay is over. */
  lemma {:induction false} RefusalStands(cfg: Config, steps: seq<Step>, p: nat, q: nat)
    requires cfg.Valid() && Chronological(steps) && p < q < |steps|
    requires steps[p].Attempt? && OutcomeAt(cfg, steps, p).Refused?
    requires steps[q].Attempt? && steps[q].audience == steps[p].audience
    requires steps[q].now < steps[p].now + OutcomeAt(cfg, steps, p).delay
    ensures !OutcomeAt(cfg, steps, q).Granted?
  {
    HeldUntil(cfg, steps, p, q);
    HeldRefuses(cfg, Exec(cfg, steps[..q]).limiter, steps[q].now, steps[q].audience,
      steps[p].now + OutcomeAt(cfg, steps, p).delay);
  }

  lemma {:induction false} RunKeepsValid(cfg: Config, steps: seq<Step>)
    requires cfg.Valid()
    ensures Exec(cfg, steps).limiter.Valid(cfg)
  {
    if steps != [] {
      var before, last := steps[..|steps| - 1], steps[|steps| - 1];
      RunKeepsValid(cfg, before);
      if last.Attempt? {
        ReserveKeepsValid(cfg, Exec(cfg, before).limiter, last.now, last.audience);
      }
    }
  }

  lemma {:induction false} ManualRetryGranted(cfg: Config, s: Limiter, now: real)
    requires cfg.Valid() && s.Valid(cfg) && s.blockedUntil <= now && Reserve(cfg, s, now, Manual).1.Refused?
    ensures var (refused, outcome) := Reserve(cfg, s, now, Manual);
      outcome.delay > 0.0 && Reserve(cfg, refused, now + outcome.delay, Manual).1 == Granted
  {
    hide Reserve;
    OutcomeFacts(cfg, s, now, Manual);
    RetryMakesProgress(cfg, s, now, Manual);
    var (refused, outcome) := Reserve(cfg, s, now, Manual);
    OutcomeFacts(cfg, refused, now + outcome.delay, Manual);
  }

  /** The announced delay is not too long either: an unblocked manual caller that comes back at
      exactly that moment, with nothing in between, is granted. */
  lemma {:induction false} ManualDelayIsExact(cfg: Config, steps: seq<Step>, p: nat)
    requires cfg.Valid() && Chronological(steps) && p < |steps|
    requires steps[p].Attempt? && steps[p].audience == Manual && OutcomeAt(cfg, steps, p).Refused?
    requires BlockEnd(steps[..p]) <= steps[p].now
    ensures var back := steps[..p + 1] + [Attempt(steps[p].now + OutcomeAt(cfg, steps, p).delay, Manual)];
      Chronological(back) && OutcomeAt(cfg, back, p + 1) == Granted
  {
    hide Mirrors, Reserve, Poised, BlockEnd;
    var s, now := Exec(cfg, steps[..p]).limiter, steps[p].now;
    RunMirrors(cfg, steps[..p], now);
    RunKeepsValid(cfg, steps[..p]);
    var (refused, outcome) := Reserve(cfg, s, now, Manual);
    var later := now + outcome.delay;
    ManualRetryGranted(cfg, s, now);
    var back := steps[..p + 1] + [Attempt(later, Manual)];
    assert back[..p + 1] == steps[..p + 1] && steps[..p + 1][..p] == steps[..p];
    assert Exec(cfg, back[..p + 1]).limiter == refused;
  }
}
