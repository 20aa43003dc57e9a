/** One call of the Riot client: the cache decision, a reservation before every request, retries
    after 429 answers, and the events it emits; and how a job's record mirrors those events. */
module RiotRequests {
  import opened Options
  import opened LimiterRuns
  import opened RateLimits
  import opened RateLimiter
  import Cache = ResponseCache

  datatype WaitReason = RiotRateLimit | Riot429

  datatype Event =
    | RateLimitWait(attempt: int, waitSeconds: real, reason: WaitReason)
    | RequestStarted(attempt: int)
    | RequestFailed(attempt: int, status: Option<int>)
    | RequestSucceeded(attempt: int, code: int)

  const TOO_MANY_REQUESTS: int := 429

  // The order of events.

  /** Where a call stands: about to send its n-th request (right after a 429, perhaps still to report the
      pause), waiting for the answer, or done. */
  datatype Phase = Ready(attempt: int, justRefused: bool) | InFlight(attempt: int) | Over(attempt: int)

  function After(phase: Phase, event: Event, maxRetries: int): Option<Phase> {
    match (phase, event)
    case (Ready(n, justRefused), RateLimitWait(attempt, seconds, reason)) =>
      if attempt == n && seconds > 0.0 && (reason == Riot429 ==> justRefused) then Some(Ready(n, false)) else None
    case (Ready(n, _), RequestStarted(attempt)) =>
      if attempt == n then Some(InFlight(n)) else None
    case (InFlight(n), RequestFailed(attempt, status)) =>
      if attempt != n then None
      else if status == Some(TOO_MANY_REQUESTS) && n <= maxRetries then Some(Ready(n + 1, true))
      else Some(Over(n))
    case (InFlight(n), RequestSucceeded(attempt, status)) =>
      if attempt == n && 200 <= status < 300 then Some(Over(n)) else None
    case _ => None
  }

  /** The phase a call is in after these events, if they can be the events of a call so far. */
  function Follow(events: seq<Event>, maxRetries: int): Option<Phase> {
    if events == [] then Some(Ready(1, false))
    else
      var before := Follow(events[..|events| - 1], maxRetries);
      if before.None? then None else After(before.value, events[|events| - 1], maxRetries)
  }

  function Started(events: seq<Event>): nat {
    if events == [] then 0
    else Started(events[..|events| - 1]) + if events[|events| - 1].RequestStarted? then 1 else 0
  }

  function Retries(maxRetries: int): nat {
    if maxRetries > 0 then maxRetries else 0
  }

  /** A call sends at most one request more than it may retry. */
  lemma {:induction false} RequestsBounded(events: seq<Event>, maxRetries: int)
    requires Follow(events, maxRetries).Some?
    ensures var phase := Follow(events, maxRetries).value;
      && 1 <= phase.attempt <= Retries(maxRetries) + 1
      && Started(events) == if phase.Ready? then phase.attempt - 1 else phase.attempt
  {
    if events != [] {
      RequestsBounded(events[..|events| - 1], maxRetries);
    }
  }

  lemma {:induction false} FollowNext(events: seq<Event>, event: Event, maxRetries: int)
    ensures Follow(events + [event], maxRetries)
            == if Follow(events, maxRetries).None?
               then None else After(Follow(events, maxRetries).value, event, maxRetries)
    ensures Started(events + [event]) == Started(events) + if event.RequestStarted? then 1 else 0
  {
    assert (events + [event])[..|events|] == events;
  }

  /** `slots` lists, for every event, how many grants the limiter's log held when it was emitted.  At the k-th
      start of a request the log has grown by exactly k since it held `base` grants. */
  predicate Paced(events: seq<Event>, slots: seq<int>, base: int)
    requires |slots| == |events|
  {
    events == [] ||
    var n := |events| - 1;
    && Paced(events[..n], slots[..n], base)
    && (events[n].RequestStarted? ==> slots[n] == base + Started(events))
  }

  lemma {:induction false} PacedNext(events: seq<Event>, slots: seq<int>, base: int, event: Event, slot: int)
    requires |slots| == |events| && Paced(events, slots, base)
    requires event.RequestStarted? ==> slot == base + Started(events) + 1
    ensures Paced(events + [event], slots + [slot], base)
  {
    assert (events + [event])[..|events|] == events && (slots + [slot])[..|events|] == slots;
  }

  /** Spelled out for a single start. */
  lemma {:induction false} StartsArePaced(events: seq<Event>, slots: seq<int>, base: int, j: nat)
    requires |slots| == |events| && Paced(events, slots, base) && j < |events| && events[j].RequestStarted?
    ensures slots[j] == base + Started(events[..j + 1])
  {
    var n := |events| - 1;
    if j < n {
      StartsArePaced(events[..n], slots[..n], base, j);
      assert events[..n][..j + 1] == events[..j + 1];
    } else {
      assert events[..j + 1] == events;
    }
  }

  // What is sent and heard.

  /** The events without the waits for the budget. */
  function Heard(events: seq<Event>): seq<Event> {
    if events == [] then []
    else
      var last := events[|events| - 1];
      Heard(events[..|events| - 1]) + if last.RateLimitWait? && last.reason == RiotRateLimit then [] else [last]
  }

  lemma {:induction false} HeardNext(events: seq<Event>, event: Event)
    ensures Heard(events + [event])
            == Heard(events) + if event.RateLimitWait? && event.reason == RiotRateLimit then [] else [event]
  {
    assert (events + [event])[..|events|] == events;
  }

  // The call.

  /** The answer to one request: no response at all, or a status with the pause it names and a body. */
  datatype Reply = NetworkError | Answer(status: int, retryAfter: Option<real>, payload: int)

  datatype CallResult =
    | FromCache(payload: int, freshness: Cache.Freshness)
    | Live(payload: int)
    | ApiError
    | RateLimitError
    | NotConfigured
    | WouldWait(seconds: real)

  predicate Is429(reply: Reply) {
    reply.Answer? && reply.status == 429
  }

  /** What a call makes of the replies to the `sent` requests it has sent: all but the last are 429 answers, and that
      one decides, unless it is one too and the call ends before another request. */
  predicate Concludes(result: CallResult, sent: nat, replies: seq<Reply>, maxRetries: int) {
    && sent <= |replies| && (forall k | 0 <= k < sent - 1 :: Is429(replies[k]))
    && match result
       case FromCache(_, _) => sent == 0
       case NotConfigured => sent == 0 || (Is429(replies[sent - 1]) && sent <= maxRetries)
       case WouldWait(_) => sent == 0 || (Is429(replies[sent - 1]) && sent <= maxRetries)
       case Live(payload) =>
         sent > 0 && replies[sent - 1].Answer? && 200 <= replies[sent - 1].status < 300
         && payload == replies[sent - 1].payload
       case ApiError =>
         sent > 0 && !Is429(replies[sent - 1])
         && (replies[sent - 1].Answer? ==> replies[sent - 1].status < 200 || replies[sent - 1].status >= 300)
       case RateLimitError => sent > maxRetries && sent > 0 && Is429(replies[sent - 1])
  }

  /** So the reply to the last request decides alone. */
  lemma {:induction false} LastReplyDecides(result: CallResult, sent: nat, replies: seq<Reply>, maxRetries: int)
    requires Concludes(result, sent, replies, maxRetries) && sent > 0
    ensures var reply := replies[sent - 1];
      var answered := reply.Answer? && 200 <= reply.status < 300;
      && (forall k | 0 <= k < sent - 1 :: replies[k].Answer? && replies[k].status == 429)
      && (result.Live? <==> answered) && (answered ==> result == Live(reply.payload))
      && (result == ApiError <==> !answered && (reply.Answer? ==> reply.status != 429))
      && (result == RateLimitError <==> reply.Answer? && reply.status == 429 && sent > maxRetries)
      && (result == NotConfigured || result.WouldWait? <==> reply.Answer? && reply.status == 429 && sent <= maxRetries)
  {
    assert forall k | 0 <= k < sent - 1 :: Is429(replies[k]);
  }

  /** The event that a reply ends its request with. */
  function Closing(attempt: int, reply: Reply): Event {
    if reply.NetworkError? then RequestFailed(attempt, None)
    else if 200 <= reply.status < 300 then RequestSucceeded(attempt, reply.status)
    else RequestFailed(attempt, Some(reply.status))
  }

  /** The pause that a 429 answer asks this limiter for, if it is one at all. */
  function PauseFor(limiter: RiotRateLimitManager, reply: Reply): seq<real>
    requires Is429(reply)
  {
    var delay := limiter.RetryAfterDelay(reply.retryAfter);
    if delay > 0.0 then [delay] else []
  }

  /** The pauses that the first `n` replies ask for. */
  function PausesFor(limiter: RiotRateLimitManager, replies: seq<Reply>, n: nat): seq<real>
    requires n <= |replies| && forall k | 0 <= k < n :: Is429(replies[k])
  {
    if n == 0 then [] else PausesFor(limiter, replies, n - 1) + PauseFor(limiter, replies[n - 1])
  }

  /** What is heard of the pause after the `n`-th request. */
  function Announced(n: nat, pause: seq<real>): seq<Event> {
    if pause == [] then [] else [RateLimitWait(n + 1, pause[0], Riot429)]
  }

  /** What is heard of `n` requests that are all answered with 429 and followed by their pauses. */
  function Script(limiter: RiotRateLimitManager, replies: seq<Reply>, n: nat): seq<Event>
    requires n <= |replies| && forall k | 0 <= k < n :: Is429(replies[k])
  {
    if n == 0 then []
    else
      Script(limiter, replies, n - 1) + [RequestStarted(n), RequestFailed(n, Some(429))]
      + Announced(n, PauseFor(limiter, replies[n - 1]))
  }

  /** `n` requests were sent, refused and paused after; the limiter's pauses were `before` and are `now`. */
  ghost predicate HasSent(limiter: RiotRateLimitManager, replies: seq<Reply>, n: nat, events: seq<Event>,
                          before: seq<real>, now: seq<real>) {
    && n <= |replies| && (forall k | 0 <= k < n :: Is429(replies[k]))
    && Started(events) == n && Heard(events) == Script(limiter, replies, n)
    && now == before + PausesFor(limiter, replies, n)
  }

  /** All but the last of `n` requests were refused and paused after, and the last one has its reply. */
  ghost predicate HasClosed(limiter: RiotRateLimitManager, replies: seq<Reply>, n: nat, events: seq<Event>,
                            before: seq<real>, now: seq<real>) {
    && 0 < n <= |replies| && (forall k | 0 <= k < n - 1 :: Is429(replies[k]))
    && Started(events) == n
    && Heard(events) == Script(limiter, replies, n - 1) + [RequestStarted(n), Closing(n, replies[n - 1])]
    && now == before + PausesFor(limiter, replies, n - 1)
  }

  lemma {:induction false} NoneSent(limiter: RiotRateLimitManager, replies: seq<Reply>, pauses: seq<real>)
    ensures HasSent(limiter, replies, 0, [], pauses, pauses)
  {
  }

  /** Only waits for the budget come in between. */
  lemma {:induction false} SentStays(limiter: RiotRateLimitManager, replies: seq<Reply>, n: nat, events: seq<Event>,
                                     later: seq<Event>, before: seq<real>, now: seq<real>)
    requires HasSent(limiter, replies, n, events, before, now)
    requires Started(later) == Started(events) && Heard(later) == Heard(events)
    ensures HasSent(limiter, replies, n, later, before, now)
    ensures n <= |replies| && Started(later) == n && forall k | 0 <= k < n :: Is429(replies[k])
  {
  }

  lemma {:induction false} ReplyCloses(limiter: RiotRateLimitManager, replies: seq<Reply>, n: nat, events: seq<Event>,
                                       before: seq<real>, now: seq<real>, later: seq<Event>)
    requires HasSent(limiter, replies, n, events, before, now) && n < |replies|
    requires Started(later) == n + 1
    requires Heard(later) == Heard(events) + [RequestStarted(n + 1)] + [Closing(n + 1, replies[n])]
    ensures HasClosed(limiter, replies, n + 1, later, before, now)
  {
    hide Script, PausesFor, Heard, Started, Closing;
    assert Heard(events) + [RequestStarted(n + 1)] + [Closing(n + 1, replies[n])]
           == Heard(events) + [RequestStarted(n + 1), Closing(n + 1, replies[n])];
  }

  lemma {:induction false} PauseFollows(limiter: RiotRateLimitManager, replies: seq<Reply>, n: nat,
                                        events: seq<Event>, before: seq<real>, now: seq<real>, later: seq<Event>,
                                        then_: seq<real>)
    requires HasClosed(limiter, replies, n, events, before, now) && Is429(replies[n - 1])
    requires Started(later) == n
    requires Heard(later) == Heard(events) + Announced(n, PauseFor(limiter, replies[n - 1]))
    requires then_ == now + PauseFor(limiter, replies[n - 1])
    ensures HasSent(limiter, replies, n, later, before, then_)
  {
    hide Heard, Started, PauseFor, Announced;
    assert forall k | 0 <= k < n :: Is429(replies[k]);
    assert before + PausesFor(limiter, replies, n - 1) + PauseFor(limiter, replies[n - 1])
           == before + (PausesFor(limiter, replies, n - 1) + PauseFor(limiter, replies[n - 1]));
  }

  /** How a call can end given the phase its events lead to. */
  predicate EndsIn(result: CallResult, events: seq<Event>, phase: Phase) {
    match result
    case FromCache(_, _) => events == []
    case Live(_) => phase.Over? && events != [] && events[|events| - 1].RequestSucceeded?
    case ApiError => phase.Over? && events != [] && events[|events| - 1].RequestFailed?
    case RateLimitError =>
      phase.Over? && events != [] && events[|events| - 1] == RequestFailed(phase.attempt, Some(TOO_MANY_REQUESTS))
    case NotConfigured => phase.Ready?
    case WouldWait(_) => phase.Ready?
  }

  /** A log extended by `n` grants to this audience. */
  predicate Grew(before: seq<Reservation>, after: seq<Reservation>, n: nat, audience: Audience) {
    && |after| == |before| + n && before <= after
    && forall k | |before| <= k < |after| :: after[k].audience == audience
  }

  lemma {:induction false} NothingSent(log: seq<Reservation>, maxRetries: int, audience: Audience)
    ensures Follow([], maxRetries) == Some(Ready(1, false)) && Started([]) == 0
    ensures Paced([], [], |log|) && Grew(log, log, 0, audience)
  {
  }

  class RiotClient {
    const limiter: RiotRateLimitManager
    const cache: Cache.InMemoryRiotCacheStore
    const hasApiKey: bool
    const cacheEnabled: bool
    const staleWhileRevalidate: real
    /** The events the current call has handed to the handler, and the length of the limiter's log at each. */
    var emitted: seq<Event>
    ghost var slots: seq<int>

    ghost predicate Valid()
      reads this, limiter, limiter.clock
    {
      limiter.Valid() && |slots| == |emitted|
    }

    constructor (limiter: RiotRateLimitManager, cache: Cache.InMemoryRiotCacheStore, hasApiKey: bool,
                 cacheEnabled: bool, staleWhileRevalidate: real)
      requires limiter.Valid()
      ensures Valid() && emitted == []
      ensures this.limiter == limiter && this.cache == cache && this.hasApiKey == hasApiKey
      ensures this.cacheEnabled == cacheEnabled && this.staleWhileRevalidate == staleWhileRevalidate
    {
      this.limiter, this.cache, this.hasApiKey, this.cacheEnabled, this.staleWhileRevalidate :=
        limiter, cache, hasApiKey, cacheEnabled, staleWhileRevalidate;
      emitted, slots := [], [];
    }

    /** Hands one event to the handler. */
    method Emit(event: Event)
      requires Valid()
      modifies this`emitted, this`slots
      ensures Valid()
      ensures emitted == old(emitted) + [event] && slots == old(slots) + [|limiter.Grants()|]
    {
      emitted := emitted + [event];
      slots := slots + [|limiter.Grants()|];
    }

    /** The events so far are those of a call that stands before its request number `attempt`. */
    predicate Stands(attempt: int)
      reads this
    {
      var phase := Follow(emitted, limiter.maxRetries);
      phase.Some? && phase.value.Ready? && phase.value.attempt == attempt
    }

    /** The limiter's log has grown from `log` by one grant of this audience before each request started. */
    ghost predicate InStep(log: seq<Reservation>, audience: Audience)
      requires Valid()
      reads this, limiter, limiter.clock
    {
      Paced(emitted, slots, |log|) && Grew(log, limiter.Grants(), Started(emitted), audience)
    }

    /** What the limiter has said to the latest attempt, which was this audience's. */
    ghost predicate LastOutcome(audience: Audience, outcome: Outcome)
      requires limiter.config.Valid()
      reads limiter
    {
      var n := |limiter.steps| - 1;
      && n >= 0 && limiter.steps[n].Attempt? && limiter.steps[n].audience == audience
      && OutcomeAt(limiter.config, limiter.steps, n) == outcome
    }

    /** What the limiter said to the attempt before the call ended. */
    ghost predicate Follows(result: CallResult, audience: Audience)
      requires limiter.config.Valid()
      reads limiter
    {
      match result
      case NotConfigured => LastOutcome(audience, Misconfigured)
      case WouldWait(seconds) => LastOutcome(audience, Refused(seconds))
      case _ => LastOutcome(audience, Granted)
    }

    /** What has been heard, and the pauses made since the limiter had these: the requests up to the last one, which
        is refused like the others if the call ended before another one was sent. */
    ghost predicate Played(result: CallResult, replies: seq<Reply>, pauses: seq<real>)
      reads this, limiter
    {
      if result.NotConfigured? || result.WouldWait? then
        HasSent(limiter, replies, Started(emitted), emitted, pauses, PausesOf(limiter.steps))
      else HasClosed(limiter, replies, Started(emitted), emitted, pauses, PausesOf(limiter.steps))
    }

    /** Reports the waits of one acquisition. */
    method EmitWaits(attempt: int, waits: seq<real>)
      requires Valid() && forall k | 0 <= k < |waits| :: waits[k] > 0.0
      requires Stands(attempt)
      modifies this`emitted, this`slots
      ensures Valid() && Stands(attempt)
      ensures Started(emitted) == Started(old(emitted)) && Heard(emitted) == Heard(old(emitted))
      ensures forall base | Paced(old(emitted), old(slots), base) :: Paced(emitted, slots, base)
    {
      hide Follow, Started, Paced, Heard;
      for k := 0 to |waits|
        invariant Valid() && Stands(attempt)
        invariant Started(emitted) == Started(old(emitted)) && Heard(emitted) == Heard(old(emitted))
        invariant forall base | Paced(old(emitted), old(slots), base) :: Paced(emitted, slots, base)
      {
        var event := RateLimitWait(attempt, waits[k], RiotRateLimit);
        FollowNext(emitted, event, limiter.maxRetries);
        HeardNext(emitted, event);
        forall base | Paced(emitted, slots, base)
          ensures Paced(emitted + [event], slots + [|limiter.Grants()|], base)
        {
          PacedNext(emitted, slots, base, event, |limiter.Grants()|);
        }
        Emit(event);
      }
    }

    /** Emits an event other than the start of a request. */
    method Report(event: Event, ghost log: seq<Reservation>, audience: Audience)
      requires Valid() && InStep(log, audience) && !event.RequestStarted?
      requires event.RateLimitWait? ==> event.reason == Riot429
      modifies this`emitted, this`slots
      ensures Valid() && InStep(log, audience)
      ensures emitted == old(emitted) + [event] && Started(emitted) == Started(old(emitted))
      ensures Heard(emitted) == Heard(old(emitted)) + [event]
      ensures Follow(emitted, limiter.maxRetries)
              == var before := Follow(old(emitted), limiter.maxRetries);
                 if before.None? then None else After(before.value, event, limiter.maxRetries)
    {
      hide Follow, Started, Paced, After, Heard;
      FollowNext(emitted, event, limiter.maxRetries);
      HeardNext(emitted, event);
      PacedNext(emitted, slots, |log|, event, |limiter.Grants()|);
      Emit(event);
    }

    /** Reserves the slot for one request, reporting every wait. */
    method Reserve(attempt: int, audience: Audience, waitForRateLimit: bool, ghost log: seq<Reservation>)
      returns (refused: Option<CallResult>)
      requires Valid() && Stands(attempt) && InStep(log, audience)
      modifies this`emitted, this`slots, limiter, limiter.clock
      ensures Valid() && Stands(attempt) && Started(emitted) == Started(old(emitted))
      ensures Heard(emitted) == Heard(old(emitted)) && PausesOf(limiter.steps) == PausesOf(old(limiter.steps))
      ensures if refused.Some? then Follows(refused.value, audience) else LastOutcome(audience, Granted)
      ensures Paced(emitted, slots, |log|)
      ensures Grew(log, limiter.Grants(), Started(emitted) + if refused.None? then 1 else 0, audience)
      ensures refused.Some? ==>
        || refused.value == NotConfigured
        || (!waitForRateLimit && refused.value.WouldWait? && refused.value.seconds > 0.0)
    {
      hide Follow, Started, Paced, Chronological, Until, Exec, OutcomeAt, OnlyRefused, Limiter.Valid, Heard, PausesOf;
      ghost var before := limiter.steps;
      if waitForRateLimit {
        var result, waits := limiter.Acquire(audience);
        ghost var refusals, last := limiter.steps[..|limiter.steps| - 1], limiter.steps[|limiter.steps| - 1];
        RefusalsPauseNothing(limiter.config, before, refusals, audience, waits);
        PausesNext(refusals, last);
        assert limiter.steps == refusals + [last];
        EmitWaits(attempt, waits);
        return if result == RateLimiter.ConfigurationError then Some(NotConfigured) else None;
      }
      var acquired, waitSeconds, misconfigured := limiter.TryAcquire(audience);
      PausesNext(before, Attempt(limiter.clock.now, audience));
      return if misconfigured then Some(NotConfigured) else if !acquired then Some(WouldWait(waitSeconds)) else None;
    }

    /** Starts a request for which the slot has just been reserved. */
    method Start(attempt: int, audience: Audience, ghost log: seq<Reservation>)
      requires Valid() && Stands(attempt) && Paced(emitted, slots, |log|)
      requires Grew(log, limiter.Grants(), Started(emitted) + 1, audience)
      modifies this`emitted, this`slots
      ensures Valid() && InStep(log, audience) && Started(emitted) == Started(old(emitted)) + 1
      ensures Heard(emitted) == Heard(old(emitted)) + [RequestStarted(attempt)]
      ensures Follow(emitted, limiter.maxRetries) == Some(InFlight(attempt))
    {
      hide Follow, Started, Paced, Heard;
      HeardNext(emitted, RequestStarted(attempt));
      FollowNext(emitted, RequestStarted(attempt), limiter.maxRetries);
      PacedNext(emitted, slots, |log|, RequestStarted(attempt), |limiter.Grants()|);
      Emit(RequestStarted(attempt));
    }

    /** Sits out the pause that a 429 answer asks for, before the next request. */
    method PauseAfter429(attempt: int, reply: Reply, ghost log: seq<Reservation>, audience: Audience,
                         ghost replies: seq<Reply>, ghost pauses: seq<real>)
      requires Valid() && InStep(log, audience) && Follow(emitted, limiter.maxRetries) == Some(Ready(attempt, true))
      requires 2 <= attempt <= |replies| + 1 && reply == replies[attempt - 2] && Is429(reply)
      requires HasClosed(limiter, replies, attempt - 1, emitted, pauses, PausesOf(limiter.steps))
      modifies this`emitted, this`slots, limiter, limiter.clock
      ensures Valid() && InStep(log, audience) && Stands(attempt)
      ensures HasSent(limiter, replies, attempt - 1, emitted, pauses, PausesOf(limiter.steps))
    {
      hide Started, Follow, Paced, Grew, Chronological, Until, Exec, RiotRateLimitManager.Valid, Heard, PausesOf,
        Script, PausesFor;
      ghost var steps, closed := limiter.steps, emitted;
      var waits := limiter.PauseForRetryAfter(reply.retryAfter);
      if waits != [] {
        PausesNext(steps, limiter.steps[|steps|]);
        Report(RateLimitWait(attempt, waits[0], Riot429), log, audience);
      }
      PauseFollows(limiter, replies, attempt - 1, closed, pauses, PausesOf(steps), emitted, PausesOf(limiter.steps));
    }

    /** The request loop: one reservation before every request, and another try after a 429 answer
        while retries are left. */
    method SendUntilAnswered(audience: Audience, waitForRateLimit: bool, replies: seq<Reply>)
      returns (result: CallResult)
      requires Valid() && emitted == [] && |replies| > Retries(limiter.maxRetries)
      modifies this`emitted, this`slots, limiter, limiter.clock
      ensures Valid() && InStep(old(limiter.Grants()), audience)
      ensures !result.FromCache? && (result.WouldWait? ==> !waitForRateLimit)
      ensures Concludes(result, Started(emitted), replies, limiter.maxRetries) && Follows(result, audience)
      ensures Played(result, replies, PausesOf(old(limiter.steps)))
      ensures Follow(emitted, limiter.maxRetries).Some?
      ensures EndsIn(result, emitted, Follow(emitted, limiter.maxRetries).value)
    {
      hide Started, Follow, Paced, Grew, Chronological, Until, Exec, OutcomeAt, OnlyRefused, RiotRateLimitManager.Valid,
        Heard, PausesOf, Script, PausesFor, HasSent, HasClosed, LastOutcome;
      ghost var log, pauses := limiter.Grants(), PausesOf(limiter.steps);
      var attempts: nat := 0;
      NothingSent(log, limiter.maxRetries, audience);
      NoneSent(limiter, replies, pauses);
      while true
        invariant Valid() && 0 <= attempts <= Retries(limiter.maxRetries)
        invariant Stands(attempts + 1) && InStep(log, audience)
        invariant HasSent(limiter, replies, attempts, emitted, pauses, PausesOf(limiter.steps))
        decreases Retries(limiter.maxRetries) - attempts
      {
        var currentAttempt := attempts + 1;
        ghost var before := emitted;
        var refused := Reserve(currentAttempt, audience, waitForRateLimit, log);
        SentStays(limiter, replies, attempts, before, emitted, pauses, PausesOf(limiter.steps));
        if refused.Some? {
          return refused.value;
        }
        ghost var sofar := emitted;
        Start(currentAttempt, audience, log);
        var reply := replies[attempts];
        if reply.NetworkError? {
          Report(RequestFailed(currentAttempt, None), log, audience);
          ReplyCloses(limiter, replies, attempts, sofar, pauses, PausesOf(limiter.steps), emitted);
          return ApiError;
        }
        if reply.status == TOO_MANY_REQUESTS {
          Report(RequestFailed(currentAttempt, Some(TOO_MANY_REQUESTS)), log, audience);
          ReplyCloses(limiter, replies, attempts, sofar, pauses, PausesOf(limiter.steps), emitted);
          if attempts >= limiter.maxRetries {
            return RateLimitError;
          }
          attempts := attempts + 1;
          PauseAfter429(attempts + 1, reply, log, audience, replies, pauses);
        } else if reply.status < 200 || reply.status >= 300 {
          Report(RequestFailed(currentAttempt, Some(reply.status)), log, audience);
          ReplyCloses(limiter, replies, attempts, sofar, pauses, PausesOf(limiter.steps), emitted);
          return ApiError;
        } else {
          Report(RequestSucceeded(currentAttempt, reply.status), log, audience);
          ReplyCloses(limiter, replies, attempts, sofar, pauses, PausesOf(limiter.steps), emitted);
          return Live(reply.payload);
        }
      }
    }

    /** What the cache has to serve for this call, if it may be asked. */
    function Served(entries: Cache.Entries, key: Cache.CacheKey, bypassCache: bool,
                    now: real): Option<(int, Cache.Freshness)> {
      if bypassCache || !cacheEnabled then None else Cache.Visible(entries, key, now)
    }

    /** One call.  `replies` are the answers to its requests, `now` and `later` the wall clock when the
        cache is read and written, and `ttl` the time to live of this kind of payload. */
    method GetJson(key: Cache.CacheKey, ttl: real, audience: Audience, waitForRateLimit: bool, bypassCache: bool,
                   replies: seq<Reply>, now: real, later: real)
      returns (result: CallResult)
      requires Valid() && |replies| > Retries(limiter.maxRetries)
      modifies this`emitted, this`slots, limiter, limiter.clock, cache
      ensures Valid() && InStep(old(limiter.Grants()), audience)
      ensures Follow(emitted, limiter.maxRetries).Some?
      ensures EndsIn(result, emitted, Follow(emitted, limiter.maxRetries).value)
      ensures Started(emitted) <= Retries(limiter.maxRetries) + 1
      ensures Served(old(cache.entries), key, bypassCache, now).Some? <==> result.FromCache?
      ensures result.FromCache? || !hasApiKey ==> emitted == [] && limiter.steps == old(limiter.steps)
      ensures !result.FromCache? ==> if hasApiKey then Follows(result, audience) else result == NotConfigured
      ensures Concludes(result, Started(emitted), replies, limiter.maxRetries)
      ensures !result.FromCache? ==> Played(result, replies, PausesOf(old(limiter.steps)))
      ensures result.FromCache? ==>
                Served(old(cache.entries), key, bypassCache, now).value == (result.payload, result.freshness)
      ensures result.WouldWait? ==> !waitForRateLimit
      ensures cache.entries == if result.Live? && cacheEnabled && ttl > 0.0
                               then Cache.Apply(old(cache.entries),
                                                Cache.Store(key, result.payload, later, ttl, staleWhileRevalidate))
                               else old(cache.entries)
    {
      hide Started, Follow, Paced, Grew, Cache.Apply, Heard, PausesOf, Script, PausesFor, HasSent, HasClosed,
        LastOutcome;
      emitted, slots := [], [];
      NoneSent(limiter, replies, PausesOf(limiter.steps));
      NothingSent(limiter.Grants(), limiter.maxRetries, audience);
      if !bypassCache && cacheEnabled {
        var entry := cache.Get(key);
        if entry.Some? {
          var status := entry.value.StatusAt(now);
          if status.Some? {
            return FromCache(entry.value.payload, status.value);
          }
        }
      }
      if !hasApiKey {
        return NotConfigured;
      }
      result := SendUntilAnswered(audience, waitForRateLimit, replies);
      RequestsBounded(emitted, limiter.maxRetries);
      if result.Live? && cacheEnabled && ttl > 0.0 {
        cache.Put(key, result.payload, later, ttl, staleWhileRevalidate);
      }
    }
  }
}
