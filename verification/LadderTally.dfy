/** What the request log says about the end of a ladder scan: why a page is left, and what the counters count. */
module LadderTally {
  import opened MatchStore
  import opened ProfileSync
  import opened LadderScan

  /** Request number `k` ended the scan of its player without recording a page: it failed, or the progress after it
      could not be recorded. */
  predicate Stopped(riot: Riot, k: int) {
    k in riot.failing || k in riot.unrecorded
  }

  /** The requests with these numbers are the player's, one after the other and from no earlier place each time;
      each of them stopped a scan, and the last one is for the page. */
  ghost predicate StopsBefore(riot: Riot, requests: seq<Request>, page: FailedPage, at: seq<nat>) {
    && at != [] && (forall j | 0 <= j < |at| :: at[j] < |requests|)
    && (forall j | 0 <= j < |at| :: requests[at[j]].puuid == page.puuid && Stopped(riot, at[j]))
    && (forall j, k | 0 <= j < k < |at| :: at[j] < at[k] && requests[at[j]].start <= requests[at[k]].start)
    && requests[at[|at| - 1]].start == page.start
  }

  /** The page is left after `n` scans of its player that were stopped. */
  ghost predicate StoppedTimes(riot: Riot, requests: seq<Request>, page: FailedPage, n: nat) {
    exists at: seq<nat> :: |at| == n && StopsBefore(riot, requests, page, at)
  }

  ghost predicate AllStoppedTimes(riot: Riot, requests: seq<Request>, pages: seq<FailedPage>, n: nat) {
    forall k | 0 <= k < |pages| :: StoppedTimes(riot, requests, pages[k], n)
  }

  lemma {:induction false} ScanStops(riot: Riot, puuid: Puuid, start: nat, output: seq<MatchId>, tally: Tally,
                                     requests: seq<Request>)
    requires |requests| == tally.attempted
    ensures var scanned := Scan(riot, puuid, start, output, tally, requests);
      var last := |scanned.requests| - 1;
      && requests <= scanned.requests && last >= |requests| && |scanned.requests| == scanned.tally.attempted
      && (scanned.resume.StoppedAt? ==>
            && Stopped(riot, last) && scanned.resume.start >= start
            && scanned.requests[last] == Request(puuid, scanned.resume.start))
    decreases if start <= |riot.IdsOf(puuid)| then |riot.IdsOf(puuid)| - start else 0
  {
    var page := Page(riot.IdsOf(puuid), start, MATCH_ID_PAGE_SIZE);
    if tally.attempted !in riot.failing && tally.attempted !in riot.unrecorded && |page| == MATCH_ID_PAGE_SIZE {
      var got := Tally(tally.attempted + 1, tally.fetched + 1, tally.withResults + 1, tally.failed, tally.retried);
      ScanStops(riot, puuid, start + MATCH_ID_PAGE_SIZE, output + page, got, requests + [Request(puuid, start)]);
    }
  }

  lemma {:induction false} LongerLog(riot: Riot, requests: seq<Request>, longer: seq<Request>, pages: seq<FailedPage>,
                                     n: nat)
    requires requests <= longer && AllStoppedTimes(riot, requests, pages, n)
    ensures AllStoppedTimes(riot, longer, pages, n)
  {
    forall k | 0 <= k < |pages|
      ensures StoppedTimes(riot, longer, pages[k], n)
    {
      assert StoppedTimes(riot, requests, pages[k], n);
      var at: seq<nat> :| |at| == n && StopsBefore(riot, requests, pages[k], at);
      assert forall j | 0 <= j < |at| :: longer[at[j]] == requests[at[j]];
      assert StopsBefore(riot, longer, pages[k], at);
    }
  }

  lemma {:induction false} StopsAgain(riot: Riot, requests: seq<Request>, longer: seq<Request>, page: FailedPage,
                                      start: nat, n: nat)
    requires requests <= longer && |longer| > |requests|
    requires n == 0 || StoppedTimes(riot, requests, page, n)
    requires Stopped(riot, |longer| - 1) && page.start <= start
    requires longer[|longer| - 1] == Request(page.puuid, start)
    ensures StoppedTimes(riot, longer, FailedPage(page.puuid, start), n + 1)
  {
    var last: nat := |longer| - 1;
    if n == 0 {
      var at: seq<nat> := [last];
      assert StopsBefore(riot, longer, FailedPage(page.puuid, start), at);
    } else {
      var at: seq<nat> :| |at| == n && StopsBefore(riot, requests, page, at);
      assert forall j | 0 <= j < |at| :: longer[at[j]] == requests[at[j]];
      assert forall j | 0 <= j < |at| :: requests[at[j]].start <= requests[at[|at| - 1]].start;
      assert StopsBefore(riot, longer, FailedPage(page.puuid, start), at + [last]);
    }
  }

  /** A visit of a page that was left `n` times leaves nothing, or a page left once more. */
  lemma {:induction false} VisitStopsAgain(riot: Riot, p: Progress, page: FailedPage, retry: bool, n: nat)
    requires page.puuid in p.output && |p.requests| == p.tally.attempted
    requires n == 0 || StoppedTimes(riot, p.requests, page, n)
    requires AllStoppedTimes(riot, p.requests, p.failed, n + 1)
    ensures var p' := Visit(riot, p, page, retry);
      && p.requests <= p'.requests && |p'.requests| == p'.tally.attempted
      && AllStoppedTimes(riot, p'.requests, p'.failed, n + 1)
  {
    var p' := Visit(riot, p, page, retry);
    var tally := if retry then p.tally.(retried := p.tally.retried + 1) else p.tally;
    var scanned := Scan(riot, page.puuid, page.start, p.output[page.puuid], tally, p.requests);
    ScanStops(riot, page.puuid, page.start, p.output[page.puuid], tally, p.requests);
    LongerLog(riot, p.requests, p'.requests, p.failed, n + 1);
    if scanned.resume.StoppedAt? {
      StopsAgain(riot, p.requests, p'.requests, page, scanned.resume.start, n);
    }
    hide Scan, StoppedTimes;
  }

  lemma {:induction false} PassStopsAgain(riot: Riot, p: Progress, work: seq<FailedPage>, m: nat, retry: bool, n: nat)
    requires m <= |work| && OfPlayers(work, p.output) && |p.requests| == p.tally.attempted && p.failed == []
    requires n == 0 || AllStoppedTimes(riot, p.requests, work, n)
    ensures var p' := VisitAll(riot, p, work, m, retry);
      && p.requests <= p'.requests && |p'.requests| == p'.tally.attempted
      && AllStoppedTimes(riot, p'.requests, p'.failed, n + 1)
  {
    if m > 0 {
      PassStopsAgain(riot, p, work, m - 1, retry, n);
      var before := VisitAll(riot, p, work, m - 1, retry);
      if n > 0 {
        LongerLog(riot, p.requests, before.requests, work, n);
      }
      hide Visit, StoppedTimes;
      VisitStopsAgain(riot, before, work[m - 1], retry, n);
    }
  }

  lemma {:induction false} NoneLeft(riot: Riot, requests: seq<Request>, n: nat)
    ensures AllStoppedTimes(riot, requests, [], n)
  {
  }

  lemma {:induction false} RetriesStopAgain(riot: Riot, p: Progress, passes: nat, n: nat)
    requires OfPlayers(p.failed, p.output) && |p.requests| == p.tally.attempted && n > 0
    requires AllStoppedTimes(riot, p.requests, p.failed, n)
    ensures var p' := Retries(riot, p, passes);
      AllStoppedTimes(riot, p'.requests, p'.failed, n + passes)
    decreases passes
  {
    hide VisitAll, StoppedTimes, AllStoppedTimes;
    NoneLeft(riot, p.requests, n + passes);
    if passes > 0 && p.failed != [] {
      PassStopsAgain(riot, p.(failed := []), p.failed, |p.failed|, true, n);
      RetriesStopAgain(riot, VisitAll(riot, p.(failed := []), p.failed, |p.failed|, true), passes - 1, n + 1);
    }
  }

  /** A page is left after discovery only if the first scan of its player and all three deferred ones after it were
      stopped, each where the one before had stopped or later, by a request that failed or could not be recorded. */
  lemma {:induction false} LeftMeansFourStops(riot: Riot, players: seq<Puuid>, k: nat)
    requires k < |Retries(riot, FirstPass(riot, players), DEFERRED_RETRY_PASSES).failed|
    ensures var p := Retries(riot, FirstPass(riot, players), DEFERRED_RETRY_PASSES);
      exists at: seq<nat> :: |at| == 4 && StopsBefore(riot, p.requests, p.failed[k], at)
  {
    hide StopsBefore;
    PassStopsAgain(riot, Fresh(players), FromTheStart(players), |players|, false, 0);
    hide VisitAll, Retries;
    var first := FirstPass(riot, players);
    RetriesStopAgain(riot, first, DEFERRED_RETRY_PASSES, 1);
    var p := Retries(riot, first, DEFERRED_RETRY_PASSES);
    assert StoppedTimes(riot, p.requests, p.failed[k], 4);
  }

  // The counters.

  /** How many of the first `n` requests were answered with ids. */
  function WithIds(riot: Riot, requests: seq<Request>, n: nat): nat
    requires n <= |requests|
  {
    if n == 0 then 0
    else
      var request := requests[n - 1];
      WithIds(riot, requests, n - 1)
      + if n - 1 !in riot.failing && request.start < |riot.IdsOf(request.puuid)| then 1 else 0
  }

  /** How many of the first `n` requests ended a scan: those that stopped one, and those answered with a page that is
      not full. */
  function Endings(riot: Riot, requests: seq<Request>, n: nat): nat
    requires n <= |requests|
  {
    if n == 0 then 0
    else
      var request := requests[n - 1];
      Endings(riot, requests, n - 1)
      + if Stopped(riot, n - 1) || |riot.IdsOf(request.puuid)| < request.start + 100 then 1 else 0
  }

  lemma {:induction false} CountsOfLonger(riot: Riot, requests: seq<Request>, request: Request, n: nat)
    requires n <= |requests|
    ensures WithIds(riot, requests + [request], n) == WithIds(riot, requests, n)
    ensures Endings(riot, requests + [request], n) == Endings(riot, requests, n)
  {
    if n > 0 {
      CountsOfLonger(riot, requests, request, n - 1);
    }
  }

  /** The counters so far count what the log says, with this many scans finished. */
  ghost predicate Tallied(riot: Riot, tally: Tally, requests: seq<Request>, scans: nat) {
    && |requests| == tally.attempted
    && tally.withResults == WithIds(riot, requests, |requests|)
    && Endings(riot, requests, |requests|) == scans
  }

  lemma {:induction false} CountsNext(riot: Riot, requests: seq<Request>, request: Request)
    ensures var log, n := requests + [request], |requests|;
      var size := |riot.IdsOf(request.puuid)|;
      && WithIds(riot, log, n + 1)
         == WithIds(riot, requests, n) + (if n !in riot.failing && request.start < size then 1 else 0)
      && Endings(riot, log, n + 1)
         == Endings(riot, requests, n) + (if Stopped(riot, n) || size < request.start + 100 then 1 else 0)
  {
    CountsOfLonger(riot, requests, request, |requests|);
  }

  lemma {:induction false} PageSize(ids: seq<MatchId>, start: nat)
    ensures var page := Page(ids, start, MATCH_ID_PAGE_SIZE);
      && (page != [] <==> start < |ids|) && |page| <= MATCH_ID_PAGE_SIZE
      && (|page| < MATCH_ID_PAGE_SIZE <==> |ids| < start + 100)
  {
  }

  lemma {:induction false} ScanTallies(riot: Riot, puuid: Puuid, start: nat, output: seq<MatchId>, tally: Tally,
                                       requests: seq<Request>, scans: nat)
    requires Tallied(riot, tally, requests, scans)
    ensures var scanned := Scan(riot, puuid, start, output, tally, requests);
      Tallied(riot, scanned.tally, scanned.requests, scans + 1) && scanned.tally.retried == tally.retried
    decreases if start <= |riot.IdsOf(puuid)| then |riot.IdsOf(puuid)| - start else 0
  {
    hide WithIds, Endings, Riot.IdsOf, Page;
    var ids, log := riot.IdsOf(puuid), requests + [Request(puuid, start)];
    var page := Page(ids, start, MATCH_ID_PAGE_SIZE);
    CountsNext(riot, requests, Request(puuid, start));
    PageSize(ids, start);
    if !Stopped(riot, tally.attempted) && |page| == MATCH_ID_PAGE_SIZE {
      var got := Tally(tally.attempted + 1, tally.fetched + 1, tally.withResults + 1, tally.failed, tally.retried);
      ScanTallies(riot, puuid, start + MATCH_ID_PAGE_SIZE, output + page, got, log, scans);
    }
  }

  lemma {:induction false} VisitTallies(riot: Riot, p: Progress, page: FailedPage, retry: bool, scans: nat)
    requires page.puuid in p.output && Tallied(riot, p.tally, p.requests, scans)
    ensures var p' := Visit(riot, p, page, retry);
      && Tallied(riot, p'.tally, p'.requests, scans + 1)
      && p'.tally.retried == p.tally.retried + if retry then 1 else 0
  {
    var tally := if retry then p.tally.(retried := p.tally.retried + 1) else p.tally;
    hide Scan, WithIds, Endings;
    ScanTallies(riot, page.puuid, page.start, p.output[page.puuid], tally, p.requests, scans);
  }

  lemma {:induction false} PassTallies(riot: Riot, p: Progress, work: seq<FailedPage>, m: nat, retry: bool, scans: nat)
    requires m <= |work| && OfPlayers(work, p.output) && Tallied(riot, p.tally, p.requests, scans)
    ensures var p' := VisitAll(riot, p, work, m, retry);
      && Tallied(riot, p'.tally, p'.requests, scans + m)
      && p'.tally.retried == p.tally.retried + if retry then m else 0
  {
    hide Tallied, Visit;
    if m > 0 {
      PassTallies(riot, p, work, m - 1, retry, scans);
      VisitTallies(riot, VisitAll(riot, p, work, m - 1, retry), work[m - 1], retry, scans + m - 1);
    }
  }

  lemma {:induction false} RetriesTally(riot: Riot, p: Progress, passes: nat, players: nat)
    requires OfPlayers(p.failed, p.output) && Tallied(riot, p.tally, p.requests, players + p.tally.retried)
    ensures var p' := Retries(riot, p, passes);
      Tallied(riot, p'.tally, p'.requests, players + p'.tally.retried)
    decreases passes
  {
    hide VisitAll, Tallied;
    if passes > 0 && p.failed != [] {
      var again := VisitAll(riot, p.(failed := []), p.failed, |p.failed|, true);
      PassTallies(riot, p.(failed := []), p.failed, |p.failed|, true, players + p.tally.retried);
      RetriesTally(riot, again, passes - 1, players);
    }
  }

  lemma {:induction false} FirstPassTallies(riot: Riot, players: seq<Puuid>)
    ensures var p := FirstPass(riot, players);
      OfPlayers(p.failed, p.output) && Tallied(riot, p.tally, p.requests, |players|) && p.tally.retried == 0
  {
    var start := Fresh(players);
    assert Tallied(riot, start.tally, start.requests, 0) && start.tally.retried == 0;
    hide VisitAll, Tallied;
    PassTallies(riot, start, FromTheStart(players), |players|, false, 0);
  }

  /** The counters of a whole discovery: pages with results are the requests answered with ids, and the scans
      started, one for each player and one for each retry counted, are the requests that ended one. */
  lemma {:induction false} CountersCountTheLog(riot: Riot, players: seq<Puuid>, passes: nat)
    ensures var p := Retries(riot, FirstPass(riot, players), passes);
      && p.tally.attempted == |p.requests| && p.tally.withResults == WithIds(riot, p.requests, |p.requests|)
      && |players| + p.tally.retried == Endings(riot, p.requests, |p.requests|)
  {
    hide VisitAll, Retries, WithIds, Endings, FirstPass;
    FirstPassTallies(riot, players);
    RetriesTally(riot, FirstPass(riot, players), passes, |players|);
  }
}
