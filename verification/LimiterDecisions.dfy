/** What an attempt is told, from the settings, the grants inside each window and the pauses alone: an account of
    every decision beside the step by step one in `RateLimits`. */
module LimiterDecisions {
  import opened RateLimits
  import opened LimiterRuns

  /** Automatic traffic has used its share of this window, or the share is nothing. */
  predicate ShareUsed(cfg: Config, limit: RateLimit, held: seq<Reservation>) {
    |held| >= limit.requestCount - Ceil(limit.requestCount as real * cfg.manualReserveFraction)
  }

  /** What is kept for manual callers is open to all, as the window is over soon enough. */
  predicate Unlocked(cfg: Config, limit: RateLimit, held: seq<Reservation>, now: real) {
    var left := if held == [] then limit.windowSeconds else held[0].occurredAt + limit.windowSeconds - now;
    left <= cfg.manualReserveUnlockSeconds
  }

  /** The limit lets the attempt through. */
  predicate Admits(cfg: Config, limit: RateLimit, held: seq<Reservation>, now: real, audience: Audience) {
    && |held| < limit.requestCount
    && (audience == Automatic && ShareUsed(cfg, limit, held) ==> Unlocked(cfg, limit, held, now))
  }

  /** The limit will never let the attempt through: nobody is there to wait for. */
  predicate NeverAdmits(cfg: Config, limit: RateLimit, held: seq<Reservation>, audience: Audience) {
    && audience == Automatic && held == []
    && limit.requestCount - Ceil(limit.requestCount as real * cfg.manualReserveFraction) <= 0
    && limit.windowSeconds > cfg.manualReserveUnlockSeconds
  }

  /** When a limit that does not let the attempt through may do so: once its oldest grant has left a full window,
      or is about to leave a window whose share is used. */
  function OpensAt(cfg: Config, limit: RateLimit, held: seq<Reservation>): real
    requires held != []
  {
    var expires := held[0].occurredAt + limit.windowSeconds;
    if |held| >= limit.requestCount then expires else expires - cfg.manualReserveUnlockSeconds
  }

  /** The right answer to an attempt that is not blocked, given what each window holds. */
  ghost predicate Answers(cfg: Config, held: seq<seq<Reservation>>, now: real, audience: Audience, outcome: Outcome)
    requires |held| == |cfg.limits|
  {
    if exists i | 0 <= i < |held| :: NeverAdmits(cfg, cfg.limits[i], held[i], audience) then
      outcome == Misconfigured
    else if forall i | 0 <= i < |held| :: Admits(cfg, cfg.limits[i], held[i], now, audience) then
      outcome == Granted
    else
      && outcome.Refused?
      && (forall i | 0 <= i < |held| && !Admits(cfg, cfg.limits[i], held[i], now, audience) ::
            held[i] != [] && OpensAt(cfg, cfg.limits[i], held[i]) <= now + outcome.delay)
      && (exists i | 0 <= i < |held| && !Admits(cfg, cfg.limits[i], held[i], now, audience) ::
            held[i] != [] && OpensAt(cfg, cfg.limits[i], held[i]) == now + outcome.delay)
  }

  lemma {:induction false} VerdictIs(cfg: Config, limit: RateLimit, held: seq<Reservation>, now: real,
                                     audience: Audience)
    requires limit.requestCount >= 1
    requires held != [] ==> held[0].occurredAt + limit.windowSeconds > now
    ensures var verdict := Judge(cfg, limit, held, now, audience);
      && (verdict == NoCapacity <==> NeverAdmits(cfg, limit, held, audience))
      && (verdict == Pass <==> Admits(cfg, limit, held, now, audience))
      && (verdict.Wait? ==> held != [] && verdict.until == OpensAt(cfg, limit, held) > now)
  {
  }

  /** The decision on live windows is the right answer. */
  lemma {:induction false} DecisionAnswers(cfg: Config, held: seq<seq<Reservation>>, now: real, audience: Audience)
    requires cfg.Valid() && |held| == |cfg.limits|
    requires forall i | 0 <= i < |held| && held[i] != [] ::
               held[i][0].occurredAt + cfg.limits[i].windowSeconds > now
    ensures Answers(cfg, held, now, audience, Decide(cfg, held, now, audience))
  {
    forall i | 0 <= i < |held|
      ensures var verdict := VerdictAt(cfg, held, now, audience, i);
        && (verdict == NoCapacity <==> NeverAdmits(cfg, cfg.limits[i], held[i], audience))
        && (verdict == Pass <==> Admits(cfg, cfg.limits[i], held[i], now, audience))
        && (verdict.Wait? ==> held[i] != [] && verdict.until == OpensAt(cfg, cfg.limits[i], held[i]) > now)
    {
      VerdictIs(cfg, cfg.limits[i], held[i], now, audience);
    }
    hide VerdictAt, Admits, NeverAdmits, OpensAt, FirstFault, WaitUntil, Config.Valid;
  }

  /** `block` is when the longest of the pauses ends; before any of them it is the origin of the clock. */
  ghost predicate LastBlock(steps: seq<Step>, block: real) {
    && (forall p | 0 <= p < |steps| && steps[p].Quiet? && steps[p].delay > 0.0 ::
          steps[p].now + steps[p].delay <= block)
    && 0.0 <= block
    && (block == 0.0 || exists p | 0 <= p < |steps| && steps[p].Quiet? ::
          steps[p].delay > 0.0 && block == steps[p].now + steps[p].delay)
  }

  lemma {:induction false} LastBlockIsBlockEnd(steps: seq<Step>)
    ensures LastBlock(steps, BlockEnd(steps))
  {
    if steps != [] {
      var before, last := steps[..|steps| - 1], steps[|steps| - 1];
      LastBlockIsBlockEnd(before);
      assert forall p | 0 <= p < |before| :: before[p] == steps[p];
    }
  }

  lemma {:induction false} BlockEndIsLast(steps: seq<Step>, block: real)
    requires LastBlock(steps, block)
    ensures BlockEnd(steps) == block
  {
    LastBlockIsBlockEnd(steps);
  }

  lemma {:induction false} RecentAreInside(cfg: Config, grants: seq<Reservation>, now: real)
    requires Sorted(grants)
    ensures forall i | 0 <= i < |cfg.limits| && RecentPerLimit(cfg, grants, now, |cfg.limits|)[i] != [] ::
              RecentPerLimit(cfg, grants, now, |cfg.limits|)[i][0].occurredAt + cfg.limits[i].windowSeconds > now
  {
    hide RecentPerLimit, Recent;
    forall i | 0 <= i < |cfg.limits| && RecentPerLimit(cfg, grants, now, |cfg.limits|)[i] != []
      ensures RecentPerLimit(cfg, grants, now, |cfg.limits|)[i][0].occurredAt + cfg.limits[i].windowSeconds > now
    {
      RecentIsSuffix(grants, now - cfg.limits[i].windowSeconds);
    }
  }

  lemma {:induction false} RunIsSorted(cfg: Config, steps: seq<Step>, now: real)
    requires cfg.Valid() && Chronological(steps) && Until(steps, now)
    ensures Sorted(Exec(cfg, steps).grants)
  {
    hide Exec, AllLawful;
    RunMirrors(cfg, steps, now);
  }

  /** In every run each attempt gets the right answer: the rest of the longest pause while it lasts, and else what
      the grants so far inside each window call for. */
  lemma {:induction false} EveryAttemptIsAnswered(cfg: Config, steps: seq<Step>, q: nat, block: real)
    requires cfg.Valid() && Chronological(steps) && q < |steps| && steps[q].Attempt? && LastBlock(steps[..q], block)
    ensures var now, outcome := steps[q].now, OutcomeAt(cfg, steps, q);
      if block > now then outcome == Refused(block - now)
      else Answers(cfg, RecentPerLimit(cfg, Exec(cfg, steps[..q]).grants, now, |cfg.limits|), now, steps[q].audience,
                   outcome)
  {
    var now, grants := steps[q].now, Exec(cfg, steps[..q]).grants;
    hide OutcomeAt, Answers, Decide, RecentPerLimit, Mirrors, LastBlock, AllLawful, Exec, BlockEnd;
    BlockEndIsLast(steps[..q], block);
    DecisionsMatchLedger(cfg, steps, q);
    RunIsSorted(cfg, steps[..q], now);
    RecentAreInside(cfg, grants, now);
    DecisionAnswers(cfg, RecentPerLimit(cfg, grants, now, |cfg.limits|), now, steps[q].audience);
  }
}
