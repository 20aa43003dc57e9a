/** The Redis twin of the limiter: one sorted set per limit and a blocked-until key, all of which
    expire on their own.  Steps are atomic and there is one clock. */
module RedisRateLimits {
  import opened RateLimits
  import opened LimiterRuns

  /** A key that Redis drops by itself at `expiresAt`. */
  datatype Key<V> = Absent | Kept(value: V, expiresAt: real)

  /** A sorted set of reservations in score order; the member is the reading with the audience, so
      a reservation can be in it at most once. */
  type ZSet = seq<Reservation>

  datatype Server = Server(windows: seq<Key<ZSet>>, blockedUntil: Key<real>)

  function Stored(key: Key<ZSet>): ZSet {
    if key.Kept? then key.value else []
  }

  function Visible(key: Key<ZSet>, now: real): ZSet {
    if key.Kept? && now < key.expiresAt then key.value else []
  }

  function VisibleBlock(key: Key<real>, now: real): real {
    if key.Kept? && now < key.expiresAt then key.value else 0.0
  }

  /** ZREMRANGEBYSCORE from minus infinity up to `cutoff`; an emptied set is dropped. */
  function ZRemUpTo(key: Key<ZSet>, now: real, cutoff: real): Key<ZSet> {
    var left := Recent(Visible(key, now), cutoff);
    if left == [] then Absent else Kept(left, key.expiresAt)
  }

  function Insert(z: ZSet, r: Reservation): ZSet {
    if z == [] || z[|z| - 1].occurredAt <= r.occurredAt then z + [r]
    else Insert(z[..|z| - 1], r) + [z[|z| - 1]]
  }

  /** ZADD: a member that is already there is only given its score again. */
  function ZAdd(z: ZSet, r: Reservation): ZSet {
    if r in z then z else Insert(z, r)
  }

  function ZRemAll(cfg: Config, windows: seq<Key<ZSet>>, now: real, n: nat): (keys: seq<Key<ZSet>>)
    requires n <= |windows| == |cfg.limits|
    ensures |keys| == n
    ensures forall i | 0 <= i < n :: keys[i] == ZRemUpTo(windows[i], now, now - cfg.limits[i].windowSeconds)
  {
    if n == 0 then []
    else ZRemAll(cfg, windows, now, n - 1)
         + [ZRemUpTo(windows[n - 1], now, now - cfg.limits[n - 1].windowSeconds)]
  }

  function Contents(keys: seq<Key<ZSet>>): (sets: seq<ZSet>)
    ensures |sets| == |keys|
    ensures forall i | 0 <= i < |keys| :: sets[i] == Stored(keys[i])
  {
    if keys == [] then [] else [Stored(keys[0])] + Contents(keys[1..])
  }

  function ZAddAll(cfg: Config, keys: seq<Key<ZSet>>, r: Reservation, n: nat): (added: seq<Key<ZSet>>)
    requires n <= |keys| == |cfg.limits|
    ensures |added| == n
    ensures forall i | 0 <= i < n ::
              added[i] == Kept(ZAdd(Stored(keys[i]), r), r.occurredAt + Ceil(cfg.limits[i].windowSeconds) as real)
  {
    if n == 0 then []
    else ZAddAll(cfg, keys, r, n - 1)
         + [Kept(ZAdd(Stored(keys[n - 1]), r), r.occurredAt + Ceil(cfg.limits[n - 1].windowSeconds) as real)]
  }

  /** One whole attempt against the server. */
  function RedisReserve(cfg: Config, s: Server, now: real, audience: Audience): (result: (Server, Outcome))
    requires cfg.Valid() && |s.windows| == |cfg.limits|
    ensures |result.0.windows| == |s.windows|
  {
    var blockedUntil := VisibleBlock(s.blockedUntil, now);
    if blockedUntil > now then (s, Refused(blockedUntil - now))
    else
      var keys := ZRemAll(cfg, s.windows, now, |s.windows|);
      match Decide(cfg, Contents(keys), now, audience)
      case Misconfigured =>
        (s.(windows := Splice(keys, s.windows, FirstFault(cfg, Contents(keys), now, audience, 0) + 1)), Misconfigured)
      case Refused(delay) => (s.(windows := keys), Refused(delay))
      case Granted => (s.(windows := ZAddAll(cfg, keys, Reservation(now, audience), |keys|)), Granted)
  }

  function RedisPause(s: Server, now: real, delay: real): Server {
    if delay > 0.0 && now + delay > VisibleBlock(s.blockedUntil, now) then
      s.(blockedUntil := Kept(now + delay, now + Ceil(delay) as real))
    else s
  }

  function RedisApply(cfg: Config, s: Server, step: Step): (after: Server)
    requires cfg.Valid() && |s.windows| == |cfg.limits|
    ensures |after.windows| == |cfg.limits|
  {
    match step
    case Quiet(now, delay) => RedisPause(s, now, delay)
    case Attempt(now, audience) => RedisReserve(cfg, s, now, audience).0
  }

  function NoKeys(n: nat): (keys: seq<Key<ZSet>>)
    ensures |keys| == n && forall i | 0 <= i < n :: keys[i] == Absent
  {
    if n == 0 then [] else NoKeys(n - 1) + [Absent]
  }

  function RedisExec(cfg: Config, steps: seq<Step>): (s: Server)
    requires cfg.Valid()
    ensures |s.windows| == |cfg.limits|
  {
    if steps == [] then Server(NoKeys(|cfg.limits|), Absent)
    else RedisApply(cfg, RedisExec(cfg, steps[..|steps| - 1]), steps[|steps| - 1])
  }

  function RedisOutcomeAt(cfg: Config, steps: seq<Step>, q: nat): Outcome
    requires cfg.Valid() && q < |steps| && steps[q].Attempt?
  {
    RedisReserve(cfg, RedisExec(cfg, steps[..q]), steps[q].now, steps[q].audience).1
  }

  // ---- The relation between the two limiters ----

  /** The key holds the deque, and outlives every reservation in it. */
  ghost predicate SameWindow(window: seq<Reservation>, key: Key<ZSet>, windowSeconds: real) {
    && Stored(key) == window
    && (key.Kept? ==> forall k | 0 <= k < |window| :: window[k].occurredAt + windowSeconds <= key.expiresAt)
  }

  ghost predicate SameBlock(blockedUntil: real, key: Key<real>) {
    match key
    case Absent => blockedUntil == 0.0
    case Kept(value, expiresAt) => 0.0 < value == blockedUntil <= expiresAt
  }

  ghost predicate Same(cfg: Config, s: Limiter, r: Server)
  {
    && |s.windows| == |r.windows| == |cfg.limits|
    && (forall i | 0 <= i < |cfg.limits| :: SameWindow(s.windows[i], r.windows[i], cfg.limits[i].windowSeconds))
    && SameBlock(s.blockedUntil, r.blockedUntil)
  }

  lemma {:induction false} NothingRecent(grants: seq<Reservation>, since: real)
    requires forall k | 0 <= k < |grants| :: grants[k].occurredAt <= since
    ensures Recent(grants, since) == []
  {
    if grants != [] {
      assert forall k | 0 <= k < |grants| - 1 :: grants[1..][k] == grants[k + 1];
      NothingRecent(grants[1..], since);
    }
  }

  /** Dropping a key that has outlived its reservations changes nothing a limiter looks at. */
  lemma {:induction false} ExpiryIsInvisible(window: seq<Reservation>, key: Key<ZSet>, windowSeconds: real, now: real)
    requires SameWindow(window, key, windowSeconds)
    ensures Recent(Visible(key, now), now - windowSeconds) == Recent(window, now - windowSeconds)
  {
    if key.Kept? && now >= key.expiresAt {
      NothingRecent(window, now - windowSeconds);
    }
  }

  /** Removing expired members from the set does what popping the deque does. */
  lemma {:induction false} SamePruned(window: seq<Reservation>, key: Key<ZSet>, windowSeconds: real, now: real)
    requires SameWindow(window, key, windowSeconds) && Sorted(window)
    ensures SameWindow(Prune(window, now - windowSeconds), ZRemUpTo(key, now, now - windowSeconds), windowSeconds)
  {
    hide Prune, Recent;
    ExpiryIsInvisible(window, key, windowSeconds, now);
    PrunedIsRecent(window, window, now - windowSeconds, now - windowSeconds);
    PruneShrinks(window, now - windowSeconds);
  }

  /** Adding to both sides keeps them the same exactly when the set does not hold that member yet. */
  lemma {:induction false} SameAfterGrant(window: seq<Reservation>, key: Key<ZSet>, windowSeconds: real, r: Reservation)
    requires SameWindow(window, key, windowSeconds) && windowSeconds > 0.0
    requires forall k | 0 <= k < |window| :: window[k].occurredAt <= r.occurredAt
    ensures SameWindow(window + [r],
                       Kept(ZAdd(Stored(key), r), r.occurredAt + Ceil(windowSeconds) as real), windowSeconds)
            <==> r !in window
  {
    if r in window {
      assert |ZAdd(Stored(key), r)| < |window + [r]|;
    } else {
      assert ZAdd(Stored(key), r) == window + [r];
    }
  }
}
