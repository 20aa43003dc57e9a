/** Whole runs of the limiter: any interleaving of attempts and 429 pauses under a clock that
    never goes back, compared with a ledger that keeps every grant and forgets nothing. */
module LimiterRuns {
  import opened RateLimits

  datatype Step = Attempt(now: real, audience: Audience) | Quiet(now: real, delay: real)

  /** A limiter together with the log of everything it has granted. */
  datatype Track = Track(limiter: Limiter, grants: seq<Reservation>)

  predicate Chronological(steps: seq<Step>) {
    forall p, q | 0 <= p <= q < |steps| :: steps[p].now <= steps[q].now
  }

  function EmptyWindows(n: nat): (windows: seq<seq<Reservation>>)
    ensures |windows| == n && forall i | 0 <= i < n :: windows[i] == []
  {
    if n == 0 then [] else EmptyWindows(n - 1) + [[]]
  }

  function Apply(cfg: Config, t: Track, step: Step): (after: Track)
    requires cfg.Valid() && |t.limiter.windows| == |cfg.limits|
    ensures |after.limiter.windows| == |cfg.limits|
  {
    match step
    case Quiet(now, delay) => t.(limiter := Pause(t.limiter, now, delay))
    case Attempt(now, audience) =>
      var (limiter, outcome) := Reserve(cfg, t.limiter, now, audience);
      Track(limiter, if outcome.Granted? then t.grants + [Reservation(now, audience)] else t.grants)
  }

  /** The state after a run that starts with a fresh limiter. */
  function Exec(cfg: Config, steps: seq<Step>): (t: Track)
    requires cfg.Valid()
    ensures |t.limiter.windows| == |cfg.limits|
  {
    if steps == [] then Track(Limiter(EmptyWindows(|cfg.limits|), 0.0), [])
    else Apply(cfg, Exec(cfg, steps[..|steps| - 1]), steps[|steps| - 1])
  }

  function OutcomeAt(cfg: Config, steps: seq<Step>, q: nat): Outcome
    requires cfg.Valid() && q < |steps| && steps[q].Attempt?
  {
    Reserve(cfg, Exec(cfg, steps[..q]).limiter, steps[q].now, steps[q].audience).1
  }

  /** The run ends no later than `now`. */
  predicate Until(steps: seq<Step>, now: real) {
    steps != [] ==> steps[|steps| - 1].now <= now
  }

  /** A run and one step more. */
  lemma {:induction false} ExecNext(cfg: Config, steps: seq<Step>, step: Step)
    requires cfg.Valid() && Chronological(steps) && Until(steps, step.now)
    ensures Chronological(steps + [step]) && Until(steps + [step], step.now)
    ensures Exec(cfg, steps + [step]) == Apply(cfg, Exec(cfg, steps), step)
    ensures step.Attempt? ==>
              OutcomeAt(cfg, steps + [step], |steps|)
              == Reserve(cfg, Exec(cfg, steps).limiter, step.now, step.audience).1
  {
    assert (steps + [step])[..|steps|] == steps;
  }

  /** `after` continues `before` by attempts of this audience alone, refused with these delays one by one. */
  predicate OnlyRefused(cfg: Config, before: seq<Step>, after: seq<Step>, audience: Audience, delays: seq<real>)
    requires cfg.Valid()
    decreases |delays|
  {
    if delays == [] then after == before
    else
      && after != [] && after[|after| - 1].Attempt? && after[|after| - 1].audience == audience
      && OutcomeAt(cfg, after, |after| - 1) == Refused(delays[|delays| - 1])
      && OnlyRefused(cfg, before, after[..|after| - 1], audience, delays[..|delays| - 1])
  }

  lemma {:induction false} NoRefusals(cfg: Config, steps: seq<Step>, audience: Audience)
    requires cfg.Valid()
    ensures OnlyRefused(cfg, steps, steps, audience, [])
  {
  }

  lemma {:induction false} OnlyRefusedNext(cfg: Config, before: seq<Step>, after: seq<Step>, audience: Audience,
                                           delays: seq<real>, now: real, delay: real)
    requires cfg.Valid() && OnlyRefused(cfg, before, after, audience, delays)
    requires OutcomeAt(cfg, after + [Attempt(now, audience)], |after|) == Refused(delay)
    ensures OnlyRefused(cfg, before, after + [Attempt(now, audience)], audience, delays + [delay])
  {
    assert (after + [Attempt(now, audience)])[..|after|] == after;
    assert (delays + [delay])[..|delays|] == delays;
  }

  /** Refused attempts leave the log as it is. */
  lemma {:induction false} RefusalsGrantNothing(cfg: Config, before: seq<Step>, after: seq<Step>, audience: Audience,
                                                delays: seq<real>)
    requires cfg.Valid() && OnlyRefused(cfg, before, after, audience, delays)
    ensures |after| == |before| + |delays| && before <= after
    ensures Exec(cfg, after).grants == Exec(cfg, before).grants
    decreases |delays|
  {
    if delays != [] {
      RefusalsGrantNothing(cfg, before, after[..|after| - 1], audience, delays[..|delays| - 1]);
    }
  }

  /** The pauses of a run, in order. */
  function PausesOf(steps: seq<Step>): seq<real> {
    if steps == [] then []
    else
      var last := steps[|steps| - 1];
      PausesOf(steps[..|steps| - 1]) + if last.Quiet? then [last.delay] else []
  }

  lemma {:induction false} PausesNext(steps: seq<Step>, step: Step)
    ensures PausesOf(steps + [step]) == PausesOf(steps) + if step.Quiet? then [step.delay] else []
  {
    assert (steps + [step])[..|steps|] == steps;
  }

  lemma {:induction false} RefusalsPauseNothing(cfg: Config, before: seq<Step>, after: seq<Step>, audience: Audience,
                                                delays: seq<real>)
    requires cfg.Valid() && OnlyRefused(cfg, before, after, audience, delays)
    ensures PausesOf(after) == PausesOf(before)
    decreases |delays|
  {
    hide OutcomeAt;
    if delays != [] {
      RefusalsPauseNothing(cfg, before, after[..|after| - 1], audience, delays[..|delays| - 1]);
    }
  }

  // ---- The ledger: decisions from the whole history ----

  /** The grants made strictly after `since`. */
  function Recent(grants: seq<Reservation>, since: real): seq<Reservation> {
    if grants == [] then []
    else if grants[0].occurredAt > since then [grants[0]] + Recent(grants[1..], since)
    else Recent(grants[1..], since)
  }

  function RecentPerLimit(cfg: Config, grants: seq<Reservation>, now: real, n: nat): (live: seq<seq<Reservation>>)
    requires n <= |cfg.limits|
    ensures |live| == n
    ensures forall i | 0 <= i < n :: live[i] == Recent(grants, now - cfg.limits[i].windowSeconds)
  {
    if n == 0 then []
    else RecentPerLimit(cfg, grants, now, n - 1) + [Recent(grants, now - cfg.limits[n - 1].windowSeconds)]
  }

  /** The end of the longest block asked for so far. */
  function BlockEnd(steps: seq<Step>): real {
    if steps == [] then 0.0
    else
      var before, last := BlockEnd(steps[..|steps| - 1]), steps[|steps| - 1];
      if last.Quiet? && last.delay > 0.0 then Max(before, last.now + last.delay) else before
  }

  function LedgerOutcome(cfg: Config, grants: seq<Reservation>, blockEnd: real, now: real, audience: Audience): Outcome
    requires cfg.Valid()
  {
    if blockEnd > now then Refused(blockEnd - now)
    else Decide(cfg, RecentPerLimit(cfg, grants, now, |cfg.limits|), now, audience)
  }

  predicate Sorted(grants: seq<Reservation>) {
    forall j, k | 0 <= j <= k < |grants| :: grants[j].occurredAt <= grants[k].occurredAt
  }

  /** `window` holds the latest grants, and every grant it lacks is as old as `cutoff`. */
  ghost predicate Holds(window: seq<Reservation>, grants: seq<Reservation>, cutoff: real) {
    && |window| <= |grants|
    && window == grants[|grants| - |window|..]
    && forall k | 0 <= k < |grants| - |window| :: grants[k].occurredAt <= cutoff
  }

  /** What ties a limiter to its log at clock reading `now`. */
  ghost predicate Mirrors(cfg: Config, windows: seq<seq<Reservation>>, grants: seq<Reservation>, now: real) {
    && |windows| == |cfg.limits|
    && Sorted(grants)
    && (forall k | 0 <= k < |grants| :: grants[k].occurredAt <= now)
    && (forall i | 0 <= i < |cfg.limits| :: Holds(windows[i], grants, now - cfg.limits[i].windowSeconds))
  }

  lemma {:induction false} AllAreRecent(grants: seq<Reservation>, since: real)
    requires forall k | 0 <= k < |grants| :: grants[k].occurredAt > since
    ensures Recent(grants, since) == grants
  {
    if grants != [] {
      assert forall k | 0 <= k < |grants| - 1 :: grants[1..][k] == grants[k + 1];
      AllAreRecent(grants[1..], since);
    }
  }

  /** On a sorted log the recent grants are a suffix, split exactly at `since`. */
  lemma {:induction false} RecentIsSuffix(grants: seq<Reservation>, since: real)
    requires Sorted(grants)
    ensures var n := |Recent(grants, since)|;
      && n <= |grants|
      && Recent(grants, since) == grants[|grants| - n..]
      && (forall k | 0 <= k < |grants| - n :: grants[k].occurredAt <= since)
      && (forall k | |grants| - n <= k < |grants| :: grants[k].occurredAt > since)
  {
    if grants == [] {
    } else if grants[0].occurredAt > since {
      AllAreRecent(grants, since);
    } else {
      var rest := grants[1..];
      RecentIsSuffix(rest, since);
      var n := |Recent(rest, since)|;
      assert rest[|rest| - n..] == grants[|grants| - n..];
      assert forall k | 1 <= k < |grants| :: grants[k] == rest[k - 1];
    }
  }

  /** Two suffixes of the log that split it at the same point are the same. */
  lemma {:induction false} SameSplit(grants: seq<Reservation>, since: real, m: nat, n: nat)
    requires m <= |grants| && n <= |grants|
    requires forall k | 0 <= k < |grants| - m :: grants[k].occurredAt <= since
    requires forall k | 0 <= k < |grants| - n :: grants[k].occurredAt <= since
    requires m > 0 ==> grants[|grants| - m].occurredAt > since
    requires n > 0 ==> grants[|grants| - n].occurredAt > since
    ensures m == n
  {
  }

  /** Popping the deque yields exactly the recent grants of the whole log. */
  lemma {:induction false} PrunedIsRecent(window: seq<Reservation>, grants: seq<Reservation>, earlier: real,
                                          cutoff: real)
    requires Sorted(grants) && Holds(window, grants, earlier) && earlier <= cutoff
    ensures Prune(window, cutoff) == Recent(grants, cutoff)
    ensures Holds(Prune(window, cutoff), grants, cutoff)
  {
    hide Prune, Recent;
    PruneShrinks(window, cutoff);
    RecentIsSuffix(grants, cutoff);
    var n, d := |Prune(window, cutoff)|, |grants| - |window|;
    assert window[|window| - n..] == grants[|grants| - n..];
    assert forall k | d <= k < |grants| :: grants[k] == window[k - d];
    SameSplit(grants, cutoff, n, |Recent(grants, cutoff)|);
  }

  lemma {:induction false} PrunedAllIsRecent(cfg: Config, windows: seq<seq<Reservation>>, grants: seq<Reservation>,
                                             earlier: real, now: real)
    requires Mirrors(cfg, windows, grants, earlier) && earlier <= now
    ensures PruneAll(cfg, windows, now) == RecentPerLimit(cfg, grants, now, |cfg.limits|)
    ensures Mirrors(cfg, PruneAll(cfg, windows, now), grants, now)
  {
    hide PruneAll, RecentPerLimit;
    var live := PruneAll(cfg, windows, now);
    forall i | 0 <= i < |cfg.limits|
      ensures live[i] == RecentPerLimit(cfg, grants, now, |cfg.limits|)[i]
      ensures Holds(live[i], grants, now - cfg.limits[i].windowSeconds)
    {
      PrunedIsRecent(windows[i], grants, earlier - cfg.limits[i].windowSeconds, now - cfg.limits[i].windowSeconds);
    }
  }

  /** The grant with index `j` was let through by limit `i`, judged on the whole log before it. */
  predicate Lawful(cfg: Config, grants: seq<Reservation>, j: nat, i: nat)
    requires cfg.Valid() && j < |grants| && i < |cfg.limits|
  {
    var g, limit := grants[j], cfg.limits[i];
    Judge(cfg, limit, Recent(grants[..j], g.occurredAt - limit.windowSeconds), g.occurredAt, g.audience) == Pass
  }

  ghost predicate AllLawful(cfg: Config, grants: seq<Reservation>)
    requires cfg.Valid()
  {
    forall j, i | 0 <= j < |grants| && 0 <= i < |cfg.limits| :: Lawful(cfg, grants, j, i)
  }

  /** The deque machine decides what the ledger decides. */
  lemma {:induction false} AgreesWithLedger(cfg: Config, s: Limiter, grants: seq<Reservation>, earlier: real,
                                            now: real, audience: Audience)
    requires cfg.Valid() && Mirrors(cfg, s.windows, grants, earlier) && earlier <= now
    ensures Reserve(cfg, s, now, audience).1 == LedgerOutcome(cfg, grants, s.blockedUntil, now, audience)
  {
    PrunedAllIsRecent(cfg, s.windows, grants, earlier, now);
  }

  lemma {:induction false} GrantIsLawful(cfg: Config, grants: seq<Reservation>, now: real, audience: Audience)
    requires cfg.Valid() && AllLawful(cfg, grants) && Sorted(grants)
    requires Decide(cfg, RecentPerLimit(cfg, grants, now, |cfg.limits|), now, audience) == Granted
    ensures AllLawful(cfg, grants + [Reservation(now, audience)])
  {
    hide Decide, Judge, RecentPerLimit, Recent;
    var live, longer := RecentPerLimit(cfg, grants, now, |cfg.limits|), grants + [Reservation(now, audience)];
    forall j, i | 0 <= j < |longer| && 0 <= i < |cfg.limits|
      ensures Lawful(cfg, longer, j, i)
    {
      if j == |grants| {
        assert longer[..j] == grants;
        RecentIsSuffix(grants, now - cfg.limits[i].windowSeconds);
        GrantedMeansPass(cfg, live, now, audience, i);
      } else {
        assert longer[..j] == grants[..j];
        assert Lawful(cfg, grants, j, i);
      }
    }
  }

  lemma {:induction false} AppendMirrors(cfg: Config, windows: seq<seq<Reservation>>, grants: seq<Reservation>,
                                         now: real, audience: Audience)
    requires Mirrors(cfg, windows, grants, now)
    ensures Mirrors(cfg, Appended(windows, Reservation(now, audience)), grants + [Reservation(now, audience)], now)
  {
    hide Appended;
    var r := Reservation(now, audience);
    forall i | 0 <= i < |cfg.limits|
      ensures Holds(Appended(windows, r)[i], grants + [r], now - cfg.limits[i].windowSeconds)
    {
      var d := |grants| - |windows[i]|;
      assert (grants + [r])[d..] == grants[d..] + [r];
    }
  }

  lemma {:induction false} MirrorsLater(cfg: Config, windows: seq<seq<Reservation>>, grants: seq<Reservation>,
                                        earlier: real, now: real)
    requires Mirrors(cfg, windows, grants, earlier) && earlier <= now
    ensures Mirrors(cfg, windows, grants, now) && Sorted(grants)
  {
  }

  /** Popping only some of the windows is as good as popping all. */
  lemma {:induction false} PartlyPrunedMirrors(cfg: Config, windows: seq<seq<Reservation>>, grants: seq<Reservation>,
                                               earlier: real, now: real, n: nat)
    requires Mirrors(cfg, windows, grants, earlier) && earlier <= now && n <= |cfg.limits|
    ensures Mirrors(cfg, Splice(PruneAll(cfg, windows, now), windows, n), grants, now)
  {
    hide Splice, PruneAll, RecentPerLimit;
    PrunedAllIsRecent(cfg, windows, grants, earlier, now);
    MirrorsLater(cfg, windows, grants, earlier, now);
  }

  /** One step keeps the limiter in step with its log, and the log lawful. */
  lemma {:induction false} StepMirrors(cfg: Config, t: Track, earlier: real, step: Step)
    requires cfg.Valid() && |t.limiter.windows| == |cfg.limits|
    requires Mirrors(cfg, t.limiter.windows, t.grants, earlier) && AllLawful(cfg, t.grants) && earlier <= step.now
    ensures var after := Apply(cfg, t, step);
      Mirrors(cfg, after.limiter.windows, after.grants, step.now) && AllLawful(cfg, after.grants)
  {
    hide Mirrors, AllLawful, PruneAll, RecentPerLimit, Splice, Appended;
    var windows, grants := t.limiter.windows, t.grants;
    MirrorsLater(cfg, windows, grants, earlier, step.now);
    if step.Attempt? && t.limiter.blockedUntil <= step.now {
      var live := PruneAll(cfg, windows, step.now);
      PrunedAllIsRecent(cfg, windows, grants, earlier, step.now);
      match Decide(cfg, live, step.now, step.audience)
      case Refused(_) =>
      case Granted =>
        AppendMirrors(cfg, live, grants, step.now, step.audience);
        GrantIsLawful(cfg, grants, step.now, step.audience);
      case Misconfigured =>
        PartlyPrunedMirrors(cfg, windows, grants, earlier, step.now,
          FirstFault(cfg, live, step.now, step.audience, 0) + 1);
    }
  }

  /** After any chronological run the windows hold exactly the latest part of the log, every grant
      in the log obeyed every limit, and the block in force is the longest one asked for. */
  lemma {:induction false} RunMirrors(cfg: Config, steps: seq<Step>, now: real)
    requires cfg.Valid() && Chronological(steps)
    requires steps != [] ==> steps[|steps| - 1].now <= now
    ensures var t := Exec(cfg, steps);
      && Mirrors(cfg, t.limiter.windows, t.grants, now)
      && AllLawful(cfg, t.grants)
      && t.limiter.blockedUntil == BlockEnd(steps)
  {
    if steps != [] {
      var before, last := steps[..|steps| - 1], steps[|steps| - 1];
      RunMirrors(cfg, before, last.now);
      StepMirrors(cfg, Exec(cfg, before), last.now, last);
      MirrorsLater(cfg, Exec(cfg, steps).limiter.windows, Exec(cfg, steps).grants, last.now, now);
    }
  }

  /** Every decision of every run is the ledger's: it depends on the full history of grants and
      pauses alone, and forgetting popped reservations never shows. */
  lemma {:induction false} DecisionsMatchLedger(cfg: Config, steps: seq<Step>, q: nat)
    requires cfg.Valid() && Chronological(steps) && q < |steps| && steps[q].Attempt?
    ensures OutcomeAt(cfg, steps, q)
            == LedgerOutcome(cfg, Exec(cfg, steps[..q]).grants, BlockEnd(steps[..q]), steps[q].now, steps[q].audience)
  {
    hide Reserve, LedgerOutcome, Mirrors;
    var now := steps[q].now;
    RunMirrors(cfg, steps[..q], now);
    AgreesWithLedger(cfg, Exec(cfg, steps[..q]).limiter, Exec(cfg, steps[..q]).grants, now, now, steps[q].audience);
  }
}
