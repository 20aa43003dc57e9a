/** How a job's record follows the events of the Riot requests it makes, one after the other. */
module JobEvents {
  import opened Options
  import opened RiotRequests

  const MAX_EVENTS: nat := 100

  /** The part of a job's record the events drive: the latest events, and the wait in progress. */
  datatype Log = Log(events: seq<Event>, currentWait: Option<Event>)

  const EMPTY_LOG: Log := Log([], None)

  function Latest(events: seq<Event>): seq<Event> {
    if |events| > MAX_EVENTS then events[|events| - MAX_EVENTS..] else events
  }

  /** A wait is noted as the current one; a request that starts or succeeds clears it; a failure leaves
      it as it is. */
  function Handle(log: Log, event: Event): Log {
    Log(Latest(log.events + [event]),
        if event.RateLimitWait? then Some(event)
        else if event.RequestStarted? || event.RequestSucceeded? then None
        else log.currentWait)
  }

  function HandleAll(events: seq<Event>): Log {
    if events == [] then EMPTY_LOG else Handle(HandleAll(events[..|events| - 1]), events[|events| - 1])
  }

  class JobRecord {
    var events: seq<Event>
    var currentWait: Option<Event>

    constructor ()
      ensures Log(events, currentWait) == EMPTY_LOG
    {
      events, currentWait := [], None;
    }

    method RecordEvent(event: Event, wait: Option<Event>, clearCurrentWait: bool)
      modifies this
      ensures var all := old(events) + [event];
        && |events| == (if |all| < 100 then |all| else 100) && events == all[|all| - |events|..]
      ensures currentWait == if wait.Some? then wait else if clearCurrentWait then None else old(currentWait)
    {
      events := events + [event];
      if |events| > MAX_EVENTS {
        events := events[|events| - MAX_EVENTS..];
      }
      if wait.Some? {
        currentWait := wait;
      } else if clearCurrentWait {
        currentWait := None;
      }
    }

    /** The handler a job registers with its Riot client. */
    method HandleEvent(event: Event)
      modifies this
      ensures Log(events, currentWait) == Handle(old(Log(events, currentWait)), event)
      ensures var all := old(events) + [event];
        && |events| == (if |all| < 100 then |all| else 100) && events == all[|all| - |events|..]
      ensures currentWait == match event
                             case RateLimitWait(_, _, _) => Some(event)
                             case RequestFailed(_, _) => old(currentWait)
                             case _ => None
    {
      if event.RateLimitWait? {
        RecordEvent(event, Some(event), false);
        return;
      }
      RecordEvent(event, None, event.RequestStarted? || event.RequestSucceeded?);
    }
  }

  /** The latest event that is not a failure. */
  function LastUnfailed(events: seq<Event>): Option<Event> {
    if events == [] then None
    else if events[|events| - 1].RequestFailed? then LastUnfailed(events[..|events| - 1])
    else Some(events[|events| - 1])
  }

  lemma {:induction false} LatestTwice(events: seq<Event>, event: Event)
    ensures Latest(Latest(events) + [event]) == Latest(events + [event])
  {
  }

  lemma {:induction false} EventsFollow(events: seq<Event>)
    ensures HandleAll(events).events == Latest(events)
  {
    if events != [] {
      var init, last := events[..|events| - 1], events[|events| - 1];
      EventsFollow(init);
      LatestTwice(init, last);
      assert events == init + [last];
      hide Latest;
    }
  }

  /** For any events at all, the record keeps exactly the last hundred, and its current wait is the
      latest event that is not a failure, if that is a wait. */
  lemma {:induction false} LogFollows(events: seq<Event>)
    ensures var kept := HandleAll(events).events;
      |kept| == (if |events| < 100 then |events| else 100) && kept == events[|events| - |kept|..]
    ensures HandleAll(events).currentWait
            == var last := LastUnfailed(events); if last.Some? && last.value.RateLimitWait? then last else None
  {
    EventsFollow(events);
    if events != [] {
      LogFollows(events[..|events| - 1]);
    }
  }

  /** Every failure comes directly after the start of its request. */
  ghost predicate FailuresFollowStarts(events: seq<Event>) {
    forall k | 0 <= k < |events| && events[k].RequestFailed? :: k > 0 && events[k - 1].RequestStarted?
  }

  lemma {:induction false} CallsAreOrderly(events: seq<Event>, maxRetries: int)
    requires Follow(events, maxRetries).Some?
    ensures FailuresFollowStarts(events)
    ensures Follow(events, maxRetries).value.InFlight? ==> events != [] && events[|events| - 1].RequestStarted?
  {
    if events != [] {
      var init := events[..|events| - 1];
      CallsAreOrderly(init, maxRetries);
      forall k | 0 <= k < |events| && events[k].RequestFailed?
        ensures k > 0 && events[k - 1].RequestStarted?
      {
        if k < |init| {
          assert init[k].RequestFailed?;
        } else {
          assert init[|init| - 1].RequestStarted?;
        }
      }
    }
  }

  /** The events of a job's calls, made one after the other. */
  function Flatten(calls: seq<seq<Event>>): seq<Event> {
    if calls == [] then [] else Flatten(calls[..|calls| - 1]) + calls[|calls| - 1]
  }

  lemma {:induction false} JobsAreOrderly(calls: seq<seq<Event>>, maxRetries: int)
    requires forall c | 0 <= c < |calls| :: Follow(calls[c], maxRetries).Some?
    ensures FailuresFollowStarts(Flatten(calls))
  {
    if calls != [] {
      var init, last := Flatten(calls[..|calls| - 1]), calls[|calls| - 1];
      JobsAreOrderly(calls[..|calls| - 1], maxRetries);
      CallsAreOrderly(last, maxRetries);
      hide Follow, Flatten;
      var all := init + last;
      forall k | 0 <= k < |all| && all[k].RequestFailed?
        ensures k > 0 && all[k - 1].RequestStarted?
      {
        if k < |init| {
          assert init[k].RequestFailed?;
        } else {
          assert last[k - |init|].RequestFailed?;
        }
      }
    }
  }

  /** Whatever calls a job makes, its current wait is set exactly when its latest event is a rate-limit wait,
      and then it is that wait; the stored events are the last hundred. */
  lemma {:induction false} CurrentWaitIsLatestEvent(calls: seq<seq<Event>>, maxRetries: int)
    requires forall c | 0 <= c < |calls| :: Follow(calls[c], maxRetries).Some?
    ensures var events := Flatten(calls);
      && |HandleAll(events).events| == (if |events| < 100 then |events| else 100)
      && HandleAll(events).events == events[|events| - |HandleAll(events).events|..]
      && HandleAll(events).currentWait
         == if events != [] && events[|events| - 1].RateLimitWait? then Some(events[|events| - 1]) else None
  {
    var events := Flatten(calls);
    JobsAreOrderly(calls, maxRetries);
    hide Flatten, Follow;
    LogFollows(events);
    if events != [] && events[|events| - 1].RequestFailed? {
      var init := events[..|events| - 1];
      assert events[|events| - 2].RequestStarted?;
      assert LastUnfailed(init) == Some(events[|events| - 2]);
    }
  }
}
