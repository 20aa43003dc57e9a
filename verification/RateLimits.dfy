/** The arithmetic of the sliding-window budget: what one reservation attempt decides,
    and what it leaves in the windows, as functions on values.  The limiter class in
    `RateLimiter` is proved to compute exactly `Reserve`. */
module RateLimits {
  datatype Audience = Manual | Automatic

  datatype RateLimit = RateLimit(requestCount: int, windowSeconds: real)

  datatype Reservation = Reservation(occurredAt: real, audience: Audience)

  function Ceil(x: real): (n: int)
    ensures x <= n as real < x + 1.0
  {
    -((-x).Floor)
  }

  /** The settings of a limiter.  `Valid` holds the bounds that the application's
      settings enforce on these numbers before a limiter is built. */
  datatype Config = Config(
    limits: seq<RateLimit>,
    manualReserveFraction: real,
    manualReserveUnlockSeconds: real)
  {
    predicate Valid() {
      && |limits| > 0
      && (forall i | 0 <= i < |limits| :: limits[i].requestCount >= 1 && limits[i].windowSeconds > 0.0)
      && 0.0 <= manualReserveFraction <= 1.0
      && manualReserveUnlockSeconds >= 0.0
    }

    /** How many reservations of a window automatic traffic may use before the reserve. */
    function AutomaticCapacity(limit: RateLimit): (capacity: nat) {
      var reservedCount := Ceil(limit.requestCount as real * manualReserveFraction);
      if limit.requestCount - reservedCount >= 0 then limit.requestCount - reservedCount else 0
    }
  }

  function Max(x: real, y: real): real {
    if x >= y then x else y
  }

  /** What a single limit says about an attempt, given the reservations still inside its window. */
  datatype Verdict = Pass | Wait(until: real) | NoCapacity

  function Judge(cfg: Config, limit: RateLimit, live: seq<Reservation>, now: real, audience: Audience): Verdict
    requires limit.requestCount >= 1
  {
    if |live| >= limit.requestCount then
      Wait(live[0].occurredAt + limit.windowSeconds)
    else if audience == Automatic && |live| >= cfg.AutomaticCapacity(limit) then
      if live == [] then
        if limit.windowSeconds <= cfg.manualReserveUnlockSeconds then Pass else NoCapacity
      else if live[0].occurredAt + limit.windowSeconds - now <= cfg.manualReserveUnlockSeconds then
        Pass
      else
        Wait(live[0].occurredAt + limit.windowSeconds - cfg.manualReserveUnlockSeconds)
    else
      Pass
  }

  /** The reservations that remain after popping from the left everything not later than `cutoff`. */
  function Prune(window: seq<Reservation>, cutoff: real): seq<Reservation> {
    if window != [] && window[0].occurredAt <= cutoff then Prune(window[1..], cutoff) else window
  }

  function PruneFirst(cfg: Config, windows: seq<seq<Reservation>>, now: real, n: nat): (live: seq<seq<Reservation>>)
    requires n <= |windows| == |cfg.limits|
    ensures |live| == n
    ensures forall i | 0 <= i < n :: live[i] == Prune(windows[i], now - cfg.limits[i].windowSeconds)
  {
    if n == 0 then []
    else PruneFirst(cfg, windows, now, n - 1) + [Prune(windows[n - 1], now - cfg.limits[n - 1].windowSeconds)]
  }

  /** Every window pruned at `now`. */
  function PruneAll(cfg: Config, windows: seq<seq<Reservation>>, now: real): (live: seq<seq<Reservation>>)
    requires |windows| == |cfg.limits|
    ensures |live| == |windows|
    ensures forall i | 0 <= i < |windows| :: live[i] == Prune(windows[i], now - cfg.limits[i].windowSeconds)
  {
    PruneFirst(cfg, windows, now, |windows|)
  }

  function VerdictAt(cfg: Config, live: seq<seq<Reservation>>, now: real, audience: Audience, i: nat): Verdict
    requires cfg.Valid() && i < |live| == |cfg.limits|
  {
    Judge(cfg, cfg.limits[i], live[i], now, audience)
  }

  /** The first limit, from `i` on, that can never admit this attempt; `|live|` when there is none. */
  function FirstFault(cfg: Config, live: seq<seq<Reservation>>, now: real, audience: Audience, i: nat): (k: nat)
    requires cfg.Valid() && i <= |live| == |cfg.limits|
    ensures i <= k <= |live|
    ensures k < |live| ==> VerdictAt(cfg, live, now, audience, k).NoCapacity?
    ensures forall j | i <= j < k :: !VerdictAt(cfg, live, now, audience, j).NoCapacity?
    decreases |live| - i
  {
    if i == |live| || VerdictAt(cfg, live, now, audience, i).NoCapacity? then i
    else FirstFault(cfg, live, now, audience, i + 1)
  }

  /** The latest moment any of the first `n` limits asks to wait for, never before `now`. */
  function WaitUntil(cfg: Config, live: seq<seq<Reservation>>, now: real, audience: Audience, n: nat): (until: real)
    requires cfg.Valid() && n <= |live| == |cfg.limits|
    ensures until >= now
    ensures forall i | 0 <= i < n ::
              VerdictAt(cfg, live, now, audience, i).Wait? ==> until >= VerdictAt(cfg, live, now, audience, i).until
    ensures until == now || exists i | 0 <= i < n :: VerdictAt(cfg, live, now, audience, i) == Wait(until)
  {
    if n == 0 then now
    else
      var before := WaitUntil(cfg, live, now, audience, n - 1);
      match VerdictAt(cfg, live, now, audience, n - 1)
      case Wait(until) => Max(before, until)
      case _ => before
  }

  datatype Outcome = Granted | Refused(delay: real) | Misconfigured

  /** The decision on an unblocked attempt, from the live reservations of every window. */
  function Decide(cfg: Config, live: seq<seq<Reservation>>, now: real, audience: Audience): Outcome
    requires cfg.Valid() && |live| == |cfg.limits|
  {
    if FirstFault(cfg, live, now, audience, 0) < |live| then Misconfigured
    else if WaitUntil(cfg, live, now, audience, |live|) > now then
      Refused(WaitUntil(cfg, live, now, audience, |live|) - now)
    else Granted
  }

  /** The state a limiter keeps between attempts. */
  datatype Limiter = Limiter(windows: seq<seq<Reservation>>, blockedUntil: real)
  {
    predicate Valid(cfg: Config) {
      && |windows| == |cfg.limits|
      && (forall i | 0 <= i < |windows| :: |windows[i]| <= cfg.limits[i].requestCount)
    }
  }

  function Appended(live: seq<seq<Reservation>>, r: Reservation): (windows: seq<seq<Reservation>>)
    ensures |windows| == |live|
    ensures forall i | 0 <= i < |live| :: windows[i] == live[i] + [r]
  {
    if live == [] then [] else [live[0] + [r]] + Appended(live[1..], r)
  }

  /** `done` up to `i`, `todo` from `i` on: the state of a loop that replaces entry after entry. */
  function Splice<T>(done: seq<T>, todo: seq<T>, i: nat): (s: seq<T>)
    requires i <= |done| == |todo|
    ensures |s| == |done|
    ensures forall k | 0 <= k < |s| :: s[k] == if k < i then done[k] else todo[k]
    ensures i == 0 ==> s == todo
    ensures i == |done| ==> s == done
  {
    done[..i] + todo[i..]
  }

  /** One whole attempt.  A refused attempt keeps the pruned windows; an attempt that runs into a
      limit without capacity has pruned only the windows up to that limit. */
  function Reserve(cfg: Config, s: Limiter, now: real, audience: Audience): (result: (Limiter, Outcome))
    requires cfg.Valid() && |s.windows| == |cfg.limits|
    ensures |result.0.windows| == |s.windows| && result.0.blockedUntil == s.blockedUntil
  {
    if s.blockedUntil > now then (s, Refused(s.blockedUntil - now))
    else
      var live := PruneAll(cfg, s.windows, now);
      match Decide(cfg, live, now, audience)
      case Misconfigured =>
        var fault := FirstFault(cfg, live, now, audience, 0);
        (s.(windows := Splice(live, s.windows, fault + 1)), Misconfigured)
      case Refused(delay) => (s.(windows := live), Refused(delay))
      case Granted => (s.(windows := Appended(live, Reservation(now, audience))), Granted)
  }

  /** A 429 pause: blocks until `delay` from now, unless a later block is already in force. */
  function Pause(s: Limiter, now: real, delay: real): Limiter {
    if delay <= 0.0 then s else s.(blockedUntil := Max(s.blockedUntil, now + delay))
  }

  lemma {:induction false} SpliceNext<T>(done: seq<T>, todo: seq<T>, i: nat)
    requires i < |done| == |todo|
    ensures Splice(done, todo, i)[i := done[i]] == Splice(done, todo, i + 1)
  {
    var left, right := Splice(done, todo, i)[i := done[i]], Splice(done, todo, i + 1);
    assert forall k | 0 <= k < |left| :: left[k] == right[k];
  }

  lemma {:induction false} PruneShrinks(window: seq<Reservation>, cutoff: real)
    ensures |Prune(window, cutoff)| <= |window|
    ensures Prune(window, cutoff) == window[|window| - |Prune(window, cutoff)|..]
    ensures forall k | 0 <= k < |window| - |Prune(window, cutoff)| :: window[k].occurredAt <= cutoff
    ensures Prune(window, cutoff) != [] ==> Prune(window, cutoff)[0].occurredAt > cutoff
  {
    if window != [] && window[0].occurredAt <= cutoff {
      var rest := window[1..];
      PruneShrinks(rest, cutoff);
      var n := |Prune(rest, cutoff)|;
      assert rest[|rest| - n..] == window[|window| - n..];
      assert forall k | 1 <= k < |window| - n :: window[k] == rest[k - 1];
    }
  }

  /** An attempt is granted only if no limit objects; a wait that is already over cannot occur
      among pruned windows, which is what makes a zero delay and a pass the same thing. */
  lemma {:induction false} GrantedMeansPass(cfg: Config, live: seq<seq<Reservation>>, now: real, audience: Audience,
                                            i: nat)
    requires cfg.Valid() && i < |live| == |cfg.limits|
    requires live[i] != [] ==> live[i][0].occurredAt > now - cfg.limits[i].windowSeconds
    requires Decide(cfg, live, now, audience) == Granted
    ensures VerdictAt(cfg, live, now, audience, i) == Pass
  {
  }

  /** Every attempt and every pause keeps each window within its request count. */
  lemma {:induction false} ReserveKeepsValid(cfg: Config, s: Limiter, now: real, audience: Audience)
    requires cfg.Valid() && s.Valid(cfg)
    ensures Reserve(cfg, s, now, audience).0.Valid(cfg)
  {
    if s.blockedUntil <= now {
      var live := PruneAll(cfg, s.windows, now);
      forall i | 0 <= i < |live|
        ensures |live[i]| <= |s.windows[i]|
      {
        PruneShrinks(s.windows[i], now - cfg.limits[i].windowSeconds);
      }
      if Decide(cfg, live, now, audience) == Granted {
        forall i | 0 <= i < |live|
          ensures |live[i]| < cfg.limits[i].requestCount
        {
          PruneShrinks(s.windows[i], now - cfg.limits[i].windowSeconds);
          GrantedMeansPass(cfg, live, now, audience, i);
        }
      }
    }
  }
}
