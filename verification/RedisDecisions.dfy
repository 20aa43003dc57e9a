/** What the Redis limiter answers in every run, clock readings that coincide included: the right answer for the
    different reservations inside each window. */
module RedisDecisions {
  import opened RateLimits
  import opened LimiterRuns
  import opened LimiterDecisions
  import opened RedisRateLimits
  import opened RedisAgreement
  import opened RedisSafety

  /** The set holds grants only, each once and in order. */
  ghost predicate Tidy(key: Key<ZSet>, grants: seq<Reservation>) {
    key.Kept? ==> Sorted(key.value) && Distinct(key.value) && forall r | r in key.value :: r in grants
  }

  ghost predicate AllTidy(keys: seq<Key<ZSet>>, grants: seq<Reservation>) {
    forall i | 0 <= i < |keys| :: Tidy(keys[i], grants)
  }

  lemma {:induction false} RecentIsTidy(z: ZSet, since: real)
    requires Sorted(z) && Distinct(z)
    ensures Sorted(Recent(z, since)) && Distinct(Recent(z, since))
  {
    hide Recent;
    RecentIsSuffix(z, since);
  }

  lemma {:induction false} EmptyIsTidy(cutoff: real)
    ensures Recent([], cutoff) == []
  {
  }

  lemma {:induction false} TrimIsTidy(key: Key<ZSet>, grants: seq<Reservation>, now: real, cutoff: real)
    requires Tidy(key, grants)
    ensures Tidy(ZRemUpTo(key, now, cutoff), grants)
  {
    hide Recent;
    if key.Kept? {
      RecentIsTidy(key.value, cutoff);
      RecentMembers(key.value, cutoff);
    }
    EmptyIsTidy(cutoff);
  }

  lemma {:induction false} AddIsTidy(key: Key<ZSet>, grants: seq<Reservation>, r: Reservation, expiresAt: real)
    requires Tidy(key, grants) && forall other | other in grants :: other.occurredAt <= r.occurredAt
    ensures Tidy(Kept(ZAdd(Stored(key), r), expiresAt), grants + [r])
  {
    var z := Stored(key);
    assert forall k | 0 <= k < |z| :: z[k] in z;
    if r !in z {
      assert ZAdd(z, r) == z + [r];
      DistinctNext(z, r);
    }
  }

  lemma {:induction false} MoreGrants(keys: seq<Key<ZSet>>, grants: seq<Reservation>, more: seq<Reservation>)
    requires AllTidy(keys, grants)
    ensures AllTidy(keys, grants + more)
  {
    hide Sorted, Distinct;
    forall i | 0 <= i < |keys|
      ensures Tidy(keys[i], grants + more)
    {
      assert Tidy(keys[i], grants);
    }
  }

  lemma {:induction false} TrimmedAreTidy(cfg: Config, keys: seq<Key<ZSet>>, grants: seq<Reservation>, now: real)
    requires |keys| == |cfg.limits| && AllTidy(keys, grants)
    ensures AllTidy(ZRemAll(cfg, keys, now, |keys|), grants)
  {
    hide Tidy, ZRemUpTo, ZRemAll;
    forall i | 0 <= i < |keys|
      ensures Tidy(ZRemUpTo(keys[i], now, now - cfg.limits[i].windowSeconds), grants)
    {
      TrimIsTidy(keys[i], grants, now, now - cfg.limits[i].windowSeconds);
    }
  }

  lemma {:induction false} SplicedAreTidy(done: seq<Key<ZSet>>, todo: seq<Key<ZSet>>, n: nat, grants: seq<Reservation>)
    requires n <= |done| == |todo| && AllTidy(done, grants) && AllTidy(todo, grants)
    ensures AllTidy(Splice(done, todo, n), grants)
  {
    hide Tidy, Splice;
  }

  lemma {:induction false} AddedAreTidy(cfg: Config, keys: seq<Key<ZSet>>, grants: seq<Reservation>, r: Reservation)
    requires |keys| == |cfg.limits| && AllTidy(keys, grants)
    requires forall other | other in grants :: other.occurredAt <= r.occurredAt
    ensures AllTidy(ZAddAll(cfg, keys, r, |keys|), grants + [r])
  {
    hide Tidy, ZAddAll, ZAdd;
    forall i | 0 <= i < |keys|
      ensures Tidy(Kept(ZAdd(Stored(keys[i]), r), r.occurredAt + Ceil(cfg.limits[i].windowSeconds) as real),
                   grants + [r])
    {
      AddIsTidy(keys[i], grants, r, r.occurredAt + Ceil(cfg.limits[i].windowSeconds) as real);
    }
  }

  lemma {:induction false} AttemptIsTidy(cfg: Config, s: Server, grants: seq<Reservation>, now: real,
                                         audience: Audience)
    requires cfg.Valid() && |s.windows| == |cfg.limits| && AllTidy(s.windows, grants)
    requires forall r | r in grants :: r.occurredAt <= now
    ensures var (after, outcome) := RedisReserve(cfg, s, now, audience);
      AllTidy(after.windows, grants + (if outcome == Granted then [Reservation(now, audience)] else []))
  {
    assert grants + [] == grants;
    hide AllTidy, ZRemAll, ZAddAll, Decide, Contents, Splice, VisibleBlock;
    var keys := ZRemAll(cfg, s.windows, now, |s.windows|);
    TrimmedAreTidy(cfg, s.windows, grants, now);
    if VisibleBlock(s.blockedUntil, now) <= now {
      match Decide(cfg, Contents(keys), now, audience)
      case Misconfigured =>
        SplicedAreTidy(keys, s.windows, FirstFault(cfg, Contents(keys), now, audience, 0) + 1, grants);
      case Refused(_) =>
      case Granted =>
        AddedAreTidy(cfg, keys, grants, Reservation(now, audience));
    }
  }

  lemma {:induction false} RunIsTidy(cfg: Config, steps: seq<Step>)
    requires cfg.Valid() && Chronological(steps)
    ensures AllTidy(RedisExec(cfg, steps).windows, RedisGrants(cfg, steps))
  {
    if steps != [] {
      var before, last := steps[..|steps| - 1], steps[|steps| - 1];
      var grants := RedisGrants(cfg, before);
      RunIsTidy(cfg, before);
      RunKeepsAll(cfg, before, last.now);
      assert grants + [] == grants;
      hide AllTidy, RedisReserve, Keeps;
      if last.Attempt? {
        AttemptIsTidy(cfg, RedisExec(cfg, before), grants, last.now, last.audience);
      }
    }
  }

  /** What a window holds at this moment: the different grants inside it, in order. */
  ghost predicate HeldAt(grants: seq<Reservation>, windowSeconds: real, now: real, held: seq<Reservation>) {
    && Sorted(held) && Distinct(held)
    && forall r :: r in held <==> r in grants && r.occurredAt + windowSeconds > now
  }

  ghost predicate HeldNow(cfg: Config, grants: seq<Reservation>, now: real, held: seq<seq<Reservation>>) {
    |held| == |cfg.limits| && forall i | 0 <= i < |held| :: HeldAt(grants, cfg.limits[i].windowSeconds, now, held[i])
  }

  lemma {:induction false} EmptyIsHeld()
    ensures Sorted([]) && Distinct([])
  {
  }

  lemma {:induction false} TrimmedMembers(key: Key<ZSet>, now: real, cutoff: real)
    ensures forall r | r in Stored(ZRemUpTo(key, now, cutoff)) :: r.occurredAt > cutoff
  {
    RecentMembers(Visible(key, now), cutoff);
    hide Recent, Visible;
  }

  lemma {:induction false} TidyIsHeld(key: Key<ZSet>, grants: seq<Reservation>, windowSeconds: real, now: real)
    requires Keeps(key, grants, windowSeconds, now) && Tidy(key, grants)
    requires forall r | r in Stored(key) :: r.occurredAt > now - windowSeconds
    ensures HeldAt(grants, windowSeconds, now, Stored(key))
  {
    EmptyIsHeld();
    hide Sorted, Distinct;
  }

  lemma {:induction false} TrimmedIsHeld(key: Key<ZSet>, grants: seq<Reservation>, windowSeconds: real, now: real)
    requires Keeps(key, grants, windowSeconds, now) && Tidy(key, grants) && windowSeconds > 0.0
    ensures HeldAt(grants, windowSeconds, now, Stored(ZRemUpTo(key, now, now - windowSeconds)))
  {
    hide *;
    TrimKeeps(key, grants, windowSeconds, now);
    TrimIsTidy(key, grants, now, now - windowSeconds);
    TrimmedMembers(key, now, now - windowSeconds);
    TidyIsHeld(ZRemUpTo(key, now, now - windowSeconds), grants, windowSeconds, now);
  }
  lemma {:induction false} ContentAt(cfg: Config, keys: seq<Key<ZSet>>, now: real, i: nat)
    requires i < |keys| == |cfg.limits|
    ensures Contents(ZRemAll(cfg, keys, now, |keys|))[i]
            == Stored(ZRemUpTo(keys[i], now, now - cfg.limits[i].windowSeconds))
  {
    hide ZRemUpTo, Stored;
  }

  lemma {:induction false} KeptAt(cfg: Config, s: Server, grants: seq<Reservation>, now: real, i: nat)
    requires cfg.Valid() && KeepsAll(cfg, s, grants, now) && AllTidy(s.windows, grants) && i < |cfg.limits|
    ensures |s.windows| == |cfg.limits| && cfg.limits[i].windowSeconds > 0.0
    ensures Keeps(s.windows[i], grants, cfg.limits[i].windowSeconds, now) && Tidy(s.windows[i], grants)
  {
    hide Keeps, Tidy;
  }

  lemma {:induction false} ContentIsHeld(cfg: Config, s: Server, grants: seq<Reservation>, now: real, i: nat)
    requires cfg.Valid() && KeepsAll(cfg, s, grants, now) && AllTidy(s.windows, grants)
    requires i < |cfg.limits| == |s.windows|
    ensures HeldAt(grants, cfg.limits[i].windowSeconds, now, Contents(ZRemAll(cfg, s.windows, now, |s.windows|))[i])
  {
    hide *;
    KeptAt(cfg, s, grants, now, i);
    ContentAt(cfg, s.windows, now, i);
    TrimmedIsHeld(s.windows[i], grants, cfg.limits[i].windowSeconds, now);
  }

  lemma {:induction false} ContentsAreHeld(cfg: Config, s: Server, grants: seq<Reservation>, now: real)
    requires cfg.Valid() && KeepsAll(cfg, s, grants, now) && AllTidy(s.windows, grants)
    ensures HeldNow(cfg, grants, now, Contents(ZRemAll(cfg, s.windows, now, |s.windows|)))
  {
    hide Keeps, Tidy, AllTidy, ZRemAll, ZRemUpTo, Contents, Stored, HeldAt;
    forall i | 0 <= i < |cfg.limits|
      ensures HeldAt(grants, cfg.limits[i].windowSeconds, now, Contents(ZRemAll(cfg, s.windows, now, |s.windows|))[i])
    {
      ContentIsHeld(cfg, s, grants, now, i);
    }
  }
  /** The block key stands for the longest pause until it expires. */
  lemma {:induction false} RunKeepsBlock(cfg: Config, steps: seq<Step>)
    requires cfg.Valid()
    ensures SameBlock(BlockEnd(steps), RedisExec(cfg, steps).blockedUntil)
  {
    if steps != [] {
      RunKeepsBlock(cfg, steps[..|steps| - 1]);
      hide ZRemAll, Decide, ZAddAll, Splice, Contents;
    }
  }

  lemma {:induction false} HeldAreInside(cfg: Config, grants: seq<Reservation>, now: real, held: seq<seq<Reservation>>)
    requires HeldNow(cfg, grants, now, held)
    ensures |held| == |cfg.limits|
    ensures forall i | 0 <= i < |held| && held[i] != [] :: held[i][0].occurredAt + cfg.limits[i].windowSeconds > now
  {
    hide Sorted, Distinct;
    forall i | 0 <= i < |held| && held[i] != []
      ensures held[i][0].occurredAt + cfg.limits[i].windowSeconds > now
    {
      assert HeldAt(grants, cfg.limits[i].windowSeconds, now, held[i]);
      assert held[i][0] in held[i];
    }
  }

  lemma {:induction false} RedisOutcomeIs(cfg: Config, steps: seq<Step>, q: nat, block: real)
    requires cfg.Valid() && q < |steps| && steps[q].Attempt?
    requires SameBlock(block, RedisExec(cfg, steps[..q]).blockedUntil)
    ensures var now, keys := steps[q].now, RedisExec(cfg, steps[..q]).windows;
      RedisOutcomeAt(cfg, steps, q)
      == if block > now then Refused(block - now)
         else Decide(cfg, Contents(ZRemAll(cfg, keys, now, |keys|)), now, steps[q].audience)
  {
    hide RedisExec, Decide, ZRemAll, ZAddAll, Contents, Splice;
  }

  lemma {:induction false} StartOf(steps: seq<Step>, q: nat)
    requires Chronological(steps) && q < |steps|
    ensures Chronological(steps[..q]) && Until(steps[..q], steps[q].now)
  {
  }

  /** In every run of the Redis limiter each attempt gets the right answer: the rest of the longest pause while it
      lasts, and else what the different grants so far inside each window call for. */
  lemma {:induction false} EveryRedisAttemptIsAnswered(cfg: Config, steps: seq<Step>, q: nat, block: real)
    returns (held: seq<seq<Reservation>>)
    requires cfg.Valid() && Chronological(steps) && q < |steps| && steps[q].Attempt? && LastBlock(steps[..q], block)
    ensures HeldNow(cfg, RedisGrants(cfg, steps[..q]), steps[q].now, held)
    ensures var now, outcome := steps[q].now, RedisOutcomeAt(cfg, steps, q);
      if block > now then outcome == Refused(block - now)
      else Answers(cfg, held, now, steps[q].audience, outcome)
  {
    hide *;
    var before, now := steps[..q], steps[q].now;
    var s, grants := RedisExec(cfg, before), RedisGrants(cfg, before);
    StartOf(steps, q);
    RunKeepsAll(cfg, before, now);
    RunIsTidy(cfg, before);
    RunKeepsBlock(cfg, before);
    BlockEndIsLast(before, block);
    RedisOutcomeIs(cfg, steps, q, block);
    held := Contents(ZRemAll(cfg, s.windows, now, |s.windows|));
    ContentsAreHeld(cfg, s, grants, now);
    HeldAreInside(cfg, grants, now, held);
    DecisionAnswers(cfg, held, now, steps[q].audience);
  }
}
