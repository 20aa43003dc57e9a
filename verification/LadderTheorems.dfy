/** What the ladder scan guarantees for every pattern of failing page requests and of progress that cannot be
    recorded, and for every list of players. */
module LadderTheorems {
  import opened MatchStore
  import opened ProfileSync
  import opened LadderScan
  import opened LadderLog
  import ProfileTheorems

  /** Where the player's pages on a list begin, from entry `n` on. */
  function StartsOf(pages: seq<FailedPage>, n: nat, puuid: Puuid): seq<nat>
    requires n <= |pages|
    decreases |pages| - n
  {
    if n == |pages| then []
    else (if pages[n].puuid == puuid then [pages[n].start] else []) + StartsOf(pages, n + 1, puuid)
  }

  lemma {:induction false} StartsOfOneMore(pages: seq<FailedPage>, n: nat, page: FailedPage, puuid: Puuid)
    requires n <= |pages|
    ensures StartsOf(pages + [page], n, puuid)
            == StartsOf(pages, n, puuid) + if page.puuid == puuid then [page.start] else []
    decreases |pages| - n
  {
    if n < |pages| {
      StartsOfOneMore(pages, n + 1, page, puuid);
    }
  }

  function Sum(starts: seq<nat>): nat {
    if starts == [] then 0 else starts[0] + Sum(starts[1..])
  }

  lemma {:induction false} SumInParts(front: seq<nat>, back: seq<nat>)
    ensures Sum(front + back) == Sum(front) + Sum(back)
  {
    if front == [] {
      assert front + back == back;
    } else {
      assert (front + back)[1..] == front[1..] + back;
      SumInParts(front[1..], back);
    }
  }

  function Times(n: nat, size: nat): nat {
    if n == 0 then 0 else Times(n - 1, size) + size
  }

  lemma {:induction false} TimesFacts(n: nat, size: nat)
    requires n > 0
    ensures Times(n, size) >= size && (Times(n, size) == size <==> n == 1 || size == 0)
  {
    if n > 1 {
      TimesFacts(n - 1, size);
    }
  }

  function SurplusOf(riot: Riot, p: Progress, puuid: Puuid): nat {
    Surplus(riot, p.requests, |p.requests|, puuid)
  }

  /** What `times` scans of a list have passed by when those at the pending places are still to be resumed and
      the others have come to its end. */
  ghost predicate PassedBy(added: int, pending: seq<nat>, times: nat, size: nat) {
    && |pending| <= times && (forall k | 0 <= k < |pending| :: pending[k] <= size)
    && added == Sum(pending) + Times(times - |pending|, size)
  }

  /** A player who is visited `times` times, with scans still to be resumed at the pending places: as many ids
      have been added as these scans and the finished ones have passed, and the surplus; and for a single scan
      without surplus they are the upstream prefix up to its place. */
  ghost predicate Adds(riot: Riot, p: Progress, pending: seq<nat>, times: nat, puuid: Puuid) {
    var ids := riot.IdsOf(puuid);
    && puuid in p.output
    && PassedBy(|p.output[puuid]| - SurplusOf(riot, p, puuid), pending, times, |ids|)
    && (times == 1 && SurplusOf(riot, p, puuid) == 0 ==>
          p.output[puuid] == ids[..if pending == [] then |ids| else pending[0]])
  }

  /** The ids of such a player are those the log says were gathered, no pending place is out of reach, and once a
      scan has finished the whole list has been reached. */
  ghost predicate Gathers(riot: Riot, p: Progress, pending: seq<nat>, times: nat, puuid: Puuid) {
    && puuid in p.output && |pending| <= times
    && Logged(riot, puuid, p.output[puuid], p.requests)
    && (forall k | 0 <= k < |pending| :: CanResume(riot, p.requests, puuid, pending[k]))
    && (|pending| < times ==> ExtentOf(riot, p.requests, puuid) == |riot.IdsOf(puuid)|)
  }

  ghost predicate Tracks(riot: Riot, p: Progress, pending: seq<nat>, times: nat, puuid: Puuid) {
    Adds(riot, p, pending, times, puuid) && Gathers(riot, p, pending, times, puuid)
  }

  /** Every request is logged and counted, as fetched, as failed, or as both when it was late. */
  ghost predicate Counted(riot: Riot, p: Progress) {
    && |p.requests| == p.tally.attempted
    && p.tally.fetched + p.tally.failed == p.tally.attempted + Late(riot, p.tally.attempted)
  }

  function ResumeOf(riot: Riot, p: Progress, page: FailedPage, retry: bool): Resume
    requires page.puuid in p.output
  {
    var tally := if retry then p.tally.(retried := p.tally.retried + 1) else p.tally;
    Scan(riot, page.puuid, page.start, p.output[page.puuid], tally, p.requests).resume
  }

  /** Where the scan started for a page is to be resumed, if it is. */
  function StopOf(riot: Riot, p: Progress, page: FailedPage, retry: bool): seq<FailedPage>
    requires page.puuid in p.output
  {
    var resume := ResumeOf(riot, p, page, retry);
    if resume.StoppedAt? then [FailedPage(page.puuid, resume.start)] else []
  }

  lemma {:induction false} VisitStops(riot: Riot, p: Progress, page: FailedPage, retry: bool)
    requires page.puuid in p.output
    ensures Visit(riot, p, page, retry).failed == p.failed + StopOf(riot, p, page, retry)
  {
  }

  lemma {:induction false} VisitCounts(riot: Riot, p: Progress, page: FailedPage, retry: bool)
    requires page.puuid in p.output && Counted(riot, p)
    ensures Counted(riot, Visit(riot, p, page, retry))
  {
    var tally := if retry then p.tally.(retried := p.tally.retried + 1) else p.tally;
    ScanCounts(riot, page.puuid, page.start, p.output[page.puuid], tally, p.requests);
    hide Scan, Late, Surplus;
  }

  /** A visit of another player changes nothing for this one. */
  lemma {:induction false} OthersLogs(riot: Riot, p: Progress, page: FailedPage, retry: bool, puuid: Puuid)
    requires page.puuid in p.output && puuid in p.output && page.puuid != puuid && |p.requests| == p.tally.attempted
    ensures var p' := Visit(riot, p, page, retry);
      && puuid in p'.output && p'.output[puuid] == p.output[puuid]
      && SurplusOf(riot, p', puuid) == SurplusOf(riot, p, puuid)
      && ExtentOf(riot, p'.requests, puuid) == ExtentOf(riot, p.requests, puuid)
      && (Logged(riot, puuid, p.output[puuid], p.requests) ==> Logged(riot, puuid, p'.output[puuid], p'.requests))
      && (forall at: nat | CanResume(riot, p.requests, puuid, at) :: CanResume(riot, p'.requests, puuid, at))
  {
    var tally := if retry then p.tally.(retried := p.tally.retried + 1) else p.tally;
    ScanCounts(riot, page.puuid, page.start, p.output[page.puuid], tally, p.requests);
    ScanKeeps(riot, page.puuid, page.start, p.output[page.puuid], tally, p.requests, puuid);
    hide Scan, Late, Surplus, GatheredBy, ExtentOf, InReach, CanResume;
  }

  lemma {:induction false} OthersVisit(riot: Riot, p: Progress, page: FailedPage, retry: bool, pending: seq<nat>,
                                       times: nat, puuid: Puuid)
    requires page.puuid in p.output && page.puuid != puuid && Counted(riot, p)
    requires Tracks(riot, p, pending, times, puuid)
    ensures Tracks(riot, Visit(riot, p, page, retry), pending, times, puuid)
  {
    hide Visit, SurplusOf, PassedBy, ExtentOf, Logged, CanResume, Late;
    OthersLogs(riot, p, page, retry, puuid);
    var p' := Visit(riot, p, page, retry);
    assert Adds(riot, p', pending, times, puuid);
    assert forall k | 0 <= k < |pending| :: CanResume(riot, p'.requests, puuid, pending[k]);
  }

  /** Taking up the first pending place and stopping at the next one passes by the ids between them. */
  lemma {:induction false} PassedNext(added: int, start: nat, rest: seq<nat>, next: seq<nat>, times: nat, size: nat)
    requires PassedBy(added, [start] + rest, times, size)
    requires |next| <= 1 && forall k | 0 <= k < |next| :: next[k] <= size
    ensures PassedBy(added + (if next == [] then size else next[0]) - start, rest + next, times, size)
    ensures times == 1 ==> rest == []
  {
    var all := [start] + rest;
    SumInParts([start], rest);
    SumInParts(rest, next);
    assert next != [] ==> next[1..] == [];
    assert |all| == 1 + |rest| && forall k | 0 <= k < |rest| :: rest[k] == all[k + 1];
    assert Times(times - |rest|, size) == Times(times - |rest| - 1, size) + size;
  }

  lemma {:induction false} PlacesMove(riot: Riot, p: Progress, p': Progress, start: nat, rest: seq<nat>,
                                      resume: Resume, times: nat, puuid: Puuid)
    requires puuid in p.output && puuid in p'.output
    requires Adds(riot, p, [start] + rest, times, puuid)
    requires FillsGap(riot, puuid, start, p.output[puuid], p.requests,
                      Scanned(p'.output[puuid], p'.tally, p'.requests, resume))
    ensures Adds(riot, p', rest + (if resume.StoppedAt? then [resume.start] else []), times, puuid)
  {
    hide Surplus, Riot.IdsOf, PassedBy;
    var ids, position := riot.IdsOf(puuid), Position(riot.IdsOf(puuid), resume);
    var next := if resume.StoppedAt? then [resume.start] else [];
    PassedNext(|p.output[puuid]| - SurplusOf(riot, p, puuid), start, rest, next, times, |ids|);
    if times == 1 {
      assert [start] + rest == [start] && rest + next == next;
      assert ids[..position] == ids[..start] + ids[start..position];
    }
  }

  lemma {:induction false} VisitFillsGap(riot: Riot, p: Progress, page: FailedPage, retry: bool)
    requires page.puuid in p.output && page.start <= |riot.IdsOf(page.puuid)| && |p.requests| == p.tally.attempted
    ensures var p', puuid := Visit(riot, p, page, retry), page.puuid;
      && puuid in p'.output
      && FillsGap(riot, puuid, page.start, p.output[puuid], p.requests,
                  Scanned(p'.output[puuid], p'.tally, p'.requests, ResumeOf(riot, p, page, retry)))
  {
    var tally := if retry then p.tally.(retried := p.tally.retried + 1) else p.tally;
    ScanFillsGap(riot, page.puuid, page.start, p.output[page.puuid], tally, p.requests);
    hide Scan, FillsGap;
  }

  lemma {:induction false} StopStarts(riot: Riot, p: Progress, page: FailedPage, retry: bool, puuid: Puuid)
    requires page.puuid in p.output
    ensures var resume := ResumeOf(riot, p, page, retry);
      && StartsOf(StopOf(riot, p, page, retry), 0, puuid)
         == (if resume.StoppedAt? && page.puuid == puuid then [resume.start] else [])
      && StartsOf(Visit(riot, p, page, retry).failed, 0, puuid)
         == StartsOf(p.failed, 0, puuid) + StartsOf(StopOf(riot, p, page, retry), 0, puuid)
  {
    VisitStops(riot, p, page, retry);
    hide ResumeOf, Visit;
    var stop := StopOf(riot, p, page, retry);
    if stop == [] {
      assert p.failed + stop == p.failed;
    } else {
      assert stop == [stop[0]] && StartsOf(stop, 1, puuid) == [];
      StartsOfOneMore(p.failed, 0, stop[0], puuid);
    }
  }

  /** A visit that starts within reach gathers what it logs. */
  lemma {:induction false} VisitLogs(riot: Riot, p: Progress, page: FailedPage, retry: bool)
    requires page.puuid in p.output && |p.requests| == p.tally.attempted
    requires Logged(riot, page.puuid, p.output[page.puuid], p.requests)
    requires CanResume(riot, p.requests, page.puuid, page.start)
    ensures var p', puuid := Visit(riot, p, page, retry), page.puuid;
      && puuid in p'.output && Logged(riot, puuid, p'.output[puuid], p'.requests)
      && ExtentOf(riot, p.requests, puuid) <= ExtentOf(riot, p'.requests, puuid) <= |riot.IdsOf(puuid)|
      && (forall at: nat | CanResume(riot, p.requests, puuid, at) :: CanResume(riot, p'.requests, puuid, at))
      && Resumable(riot, p'.requests, puuid, ResumeOf(riot, p, page, retry))
  {
    var tally := if retry then p.tally.(retried := p.tally.retried + 1) else p.tally;
    ScanLogs(riot, page.puuid, page.start, p.output[page.puuid], tally, p.requests);
    ScanKeeps(riot, page.puuid, page.start, p.output[page.puuid], tally, p.requests, page.puuid);
    hide Scan, Logged, CanResume, Resumable;
  }

  lemma {:induction false} OwnGathers(riot: Riot, p: Progress, start: nat, retry: bool, rest: seq<nat>, times: nat,
                                      puuid: Puuid)
    requires puuid in p.output && Counted(riot, p)
    requires Gathers(riot, p, [start] + rest, times, puuid)
    ensures var page := FailedPage(puuid, start);
      Gathers(riot, Visit(riot, p, page, retry), rest + StartsOf(StopOf(riot, p, page, retry), 0, puuid), times, puuid)
  {
    var page, all := FailedPage(puuid, start), [start] + rest;
    assert all[0] == start && forall k | 0 <= k < |rest| :: rest[k] == all[k + 1];
    hide Logged, ExtentOf, Visit, ResumeOf, CanResume;
    VisitLogs(riot, p, page, retry);
    StopStarts(riot, p, page, retry, puuid);
    hide StartsOf, StopOf;
  }

  /** A visit of the player takes the first pending place up and leaves the next one last. */
  lemma {:induction false} OwnVisit(riot: Riot, p: Progress, start: nat, retry: bool, rest: seq<nat>, times: nat,
                                    puuid: Puuid)
    requires puuid in p.output && Counted(riot, p)
    requires Tracks(riot, p, [start] + rest, times, puuid)
    ensures var page := FailedPage(puuid, start);
      Tracks(riot, Visit(riot, p, page, retry), rest + StartsOf(StopOf(riot, p, page, retry), 0, puuid), times, puuid)
  {
    var page := FailedPage(puuid, start);
    assert ([start] + rest)[0] == start;
    assert start <= |riot.IdsOf(puuid)| && |p.requests| == p.tally.attempted;
    hide Visit, StopOf, StartsOf, ResumeOf, Counted, Adds, Gathers, FillsGap;
    OwnGathers(riot, p, start, retry, rest, times, puuid);
    VisitFillsGap(riot, p, page, retry);
    StopStarts(riot, p, page, retry, puuid);
    PlacesMove(riot, p, Visit(riot, p, page, retry), start, rest, ResumeOf(riot, p, page, retry), times, puuid);
  }

  lemma {:induction false} PassNext(riot: Riot, p: Progress, work: seq<FailedPage>, n: nat, retry: bool, puuid: Puuid)
    requires 0 < n <= |work| && OfPlayers(work, p.output)
    ensures var q, page := VisitAll(riot, p, work, n - 1, retry), work[n - 1];
      && page.puuid in q.output
      && VisitAll(riot, p, work, n, retry) == Visit(riot, q, page, retry)
      && StartsOf(work, n - 1, puuid) == (if page.puuid == puuid then [page.start] else []) + StartsOf(work, n, puuid)
  {
    hide Visit;
  }

  lemma {:induction false} NothingVisited(riot: Riot, p: Progress, work: seq<FailedPage>, retry: bool, puuid: Puuid)
    requires p.failed == [] && OfPlayers(work, p.output)
    ensures VisitAll(riot, p, work, 0, retry) == p
    ensures StartsOf(work, 0, puuid) + StartsOf(p.failed, 0, puuid) == StartsOf(work, 0, puuid)
  {
  }

  lemma {:induction false} VisitTracks(riot: Riot, p: Progress, page: FailedPage, retry: bool, ahead: seq<nat>,
                                       times: nat, puuid: Puuid)
    requires page.puuid in p.output && Counted(riot, p)
    requires Tracks(riot, p, ((if page.puuid == puuid then [page.start] else []) + ahead)
                             + StartsOf(p.failed, 0, puuid),
                    times, puuid)
    ensures var p' := Visit(riot, p, page, retry);
      Counted(riot, p') && Tracks(riot, p', ahead + StartsOf(p'.failed, 0, puuid), times, puuid)
  {
    hide *;
    var left, stop := StartsOf(p.failed, 0, puuid), StopOf(riot, p, page, retry);
    VisitCounts(riot, p, page, retry);
    StopStarts(riot, p, page, retry, puuid);
    if page.puuid == puuid {
      assert ([page.start] + ahead) + left == [page.start] + (ahead + left);
      OwnVisit(riot, p, page.start, retry, ahead + left, times, puuid);
      assert (ahead + left) + StartsOf(stop, 0, puuid) == ahead + (left + StartsOf(stop, 0, puuid));
    } else {
      assert ([] + ahead) + left == ahead + left && left + [] == left;
      OthersVisit(riot, p, page, retry, ahead + left, times, puuid);
    }
  }

  /** A pass over the pages left by the one before, up to entry `n`. */
  lemma {:induction false} PassTracks(riot: Riot, p: Progress, work: seq<FailedPage>, n: nat, retry: bool, times: nat,
                                      puuid: Puuid)
    requires n <= |work| && p.failed == [] && Counted(riot, p)
    requires OfPlayers(work, p.output)
    requires Tracks(riot, p, StartsOf(work, 0, puuid), times, puuid)
    ensures var p' := VisitAll(riot, p, work, n, retry);
      Counted(riot, p') && Tracks(riot, p', StartsOf(work, n, puuid) + StartsOf(p'.failed, 0, puuid), times, puuid)
  {
    hide *;
    if n == 0 {
      NothingVisited(riot, p, work, retry, puuid);
    } else {
      PassNext(riot, p, work, n, retry, puuid);
      PassTracks(riot, p, work, n - 1, retry, times, puuid);
      var q, page := VisitAll(riot, p, work, n - 1, retry), work[n - 1];
      VisitTracks(riot, q, page, retry, StartsOf(work, n, puuid), times, puuid);
    }
  }

  lemma {:induction false} RetriesNext(riot: Riot, p: Progress, passes: nat, times: nat, puuid: Puuid)
    requires passes > 0 && p.failed != [] && OfPlayers(p.failed, p.output)
    requires Counted(riot, p) && Tracks(riot, p, StartsOf(p.failed, 0, puuid), times, puuid)
    ensures var work, cleared := p.failed, p.(failed := []);
      && Retries(riot, p, passes) == Retries(riot, VisitAll(riot, cleared, work, |work|, true), passes - 1)
      && OfPlayers(cleared.failed, cleared.output)
      && StartsOf(work, |work|, puuid) == []
      && Counted(riot, cleared) && Tracks(riot, cleared, StartsOf(work, 0, puuid), times, puuid)
  {
    hide VisitAll, PassedBy, Logged, ExtentOf, CanResume;
  }

  lemma {:induction false} NoMoreRetries(riot: Riot, p: Progress, passes: nat)
    requires OfPlayers(p.failed, p.output) && (passes == 0 || p.failed == [])
    ensures Retries(riot, p, passes) == p
  {
  }

  lemma {:induction false} RetriesTrack(riot: Riot, p: Progress, passes: nat, times: nat, puuid: Puuid)
    requires Counted(riot, p) && OfPlayers(p.failed, p.output)
    requires Tracks(riot, p, StartsOf(p.failed, 0, puuid), times, puuid)
    ensures var p' := Retries(riot, p, passes);
      Counted(riot, p') && Tracks(riot, p', StartsOf(p'.failed, 0, puuid), times, puuid)
    decreases passes
  {
    hide *;
    if passes == 0 || p.failed == [] {
      NoMoreRetries(riot, p, passes);
    } else {
      var work, cleared := p.failed, p.(failed := []);
      RetriesNext(riot, p, passes, times, puuid);
      PassTracks(riot, cleared, work, |work|, true, times, puuid);
      var p' := VisitAll(riot, cleared, work, |work|, true);
      assert [] + StartsOf(p'.failed, 0, puuid) == StartsOf(p'.failed, 0, puuid);
      RetriesTrack(riot, p', passes - 1, times, puuid);
    }
  }

  function Occurrences(players: seq<Puuid>, n: nat, puuid: Puuid): nat
    requires n <= |players|
  {
    if n == 0 then 0 else Occurrences(players, n - 1, puuid) + if players[n - 1] == puuid then 1 else 0
  }

  lemma {:induction false} StartsOfAll(players: seq<Puuid>, n: nat, puuid: Puuid)
    requires n <= |players|
    ensures var starts := StartsOf(FromTheStart(players), n, puuid);
      && |starts| + Occurrences(players, n, puuid) == Occurrences(players, |players|, puuid)
      && Sum(starts) == 0 && forall k | 0 <= k < |starts| :: starts[k] == 0
    decreases |players| - n
  {
    if n < |players| {
      StartsOfAll(players, n + 1, puuid);
      var rest := StartsOf(FromTheStart(players), n + 1, puuid);
      assert ([0] + rest)[1..] == rest && [] + rest == rest;
      hide FromTheStart;
    }
  }

  lemma {:induction false} OccursWhenListed(players: seq<Puuid>, n: nat, puuid: Puuid)
    requires n <= |players|
    ensures Occurrences(players, n, puuid) > 0 <==> puuid in players[..n]
  {
    if n > 0 {
      OccursWhenListed(players, n - 1, puuid);
      assert players[..n] == players[..n - 1] + [players[n - 1]];
    }
  }

  lemma {:induction false} ScanTracks(riot: Riot, players: seq<Puuid>, passes: nat, puuid: Puuid)
    requires puuid in players
    ensures var p := Retries(riot, FirstPass(riot, players), passes);
      && Counted(riot, p)
      && Tracks(riot, p, StartsOf(p.failed, 0, puuid), Occurrences(players, |players|, puuid), puuid)
  {
    var start, work, times := Fresh(players), FromTheStart(players), Occurrences(players, |players|, puuid);
    StartsOfAll(players, 0, puuid);
    assert Adds(riot, start, StartsOf(work, 0, puuid), times, puuid) by {
      assert Times(0, |riot.IdsOf(puuid)|) == 0;
    }
    assert Gathers(riot, start, StartsOf(work, 0, puuid), times, puuid);
    hide Adds, Gathers;
    PassTracks(riot, start, work, |players|, false, times, puuid);
    var p := FirstPass(riot, players);
    hide Tracks, Counted, VisitAll, Retries;
    assert [] + StartsOf(p.failed, 0, puuid) == StartsOf(p.failed, 0, puuid);
    RetriesTrack(riot, p, passes, times, puuid);
  }

  /** No page of the player was answered with ids and then not recorded. */
  ghost predicate AllRecorded(riot: Riot, p: Progress, puuid: Puuid) {
    forall k | 0 <= k < |p.requests| :: !Unrecorded(riot, p.requests, puuid, k)
  }

  lemma {:induction false} GatheredWhenTracked(riot: Riot, p: Progress, left: seq<nat>, times: nat, puuid: Puuid)
    requires Tracks(riot, p, left, times, puuid) && times > 0
    ensures var ids, extent := riot.IdsOf(puuid), ExtentOf(riot, p.requests, puuid);
      && puuid in p.output && (forall k | 0 <= k < |left| :: left[k] <= extent)
      && (left == [] ==> extent == |ids|)
      && (forall n | 0 <= n <= extent ::
            p.output[puuid] == ids[..n] <==> n == extent && EachOnce(riot, p.requests, |p.requests|, puuid))
      && Merge(p.output[puuid]) == Merge(ids[..extent])
  {
    GatheredExactly(riot, p.requests, |p.requests|, puuid);
    MergedIsExact(riot, p.requests, |p.requests|, puuid);
    assert forall k | 0 <= k < |left| :: CanResume(riot, p.requests, puuid, left[k]);
    hide Adds, Gathered, Extent, InReach, EachOnce, Merge;
  }

  /** Whatever requests fail, whatever cannot be recorded, whoever is listed how often, and however many deferred
      passes follow: no page left to retry begins beyond the furthest answered page, which is the last one when
      none is left; and a player's ids are the upstream prefix up to its end, and up to no place before that,
      if and only if no page of theirs was answered twice. */
  lemma {:induction false} ScanIsExact(riot: Riot, players: seq<Puuid>, passes: nat, puuid: Puuid)
    requires puuid in players
    ensures var p := Retries(riot, FirstPass(riot, players), passes);
      var ids, left, extent := riot.IdsOf(puuid), StartsOf(p.failed, 0, puuid), ExtentOf(riot, p.requests, puuid);
      && puuid in p.output && (forall k | 0 <= k < |left| :: left[k] <= extent)
      && (left == [] ==> extent == |ids|)
      && (forall n | 0 <= n <= extent ::
            p.output[puuid] == ids[..n] <==> n == extent && EachOnce(riot, p.requests, |p.requests|, puuid))
  {
    ScanTracks(riot, players, passes, puuid);
    OccursWhenListed(players, |players|, puuid);
    assert players[..|players|] == players;
    var p := Retries(riot, FirstPass(riot, players), passes);
    GatheredWhenTracked(riot, p, StartsOf(p.failed, 0, puuid), Occurrences(players, |players|, puuid), puuid);
  }

  /** And with repeated ids dropped, as they are wherever the job uses them, a player's ids are always the upstream
      prefix up to the end of the furthest answered page: the whole list when no page is left to retry. */
  lemma {:induction false} MergedScanIsExact(riot: Riot, players: seq<Puuid>, passes: nat, puuid: Puuid)
    requires puuid in players
    ensures var p := Retries(riot, FirstPass(riot, players), passes);
      var ids, left, extent := riot.IdsOf(puuid), StartsOf(p.failed, 0, puuid), ExtentOf(riot, p.requests, puuid);
      && puuid in p.output && (forall k | 0 <= k < |left| :: left[k] <= extent)
      && (left == [] ==> extent == |ids|)
      && Merge(p.output[puuid]) == Merge(ids[..extent])
      && (Distinct(ids) ==> Merge(p.output[puuid]) == ids[..extent])
  {
    ScanTracks(riot, players, passes, puuid);
    OccursWhenListed(players, |players|, puuid);
    assert players[..|players|] == players;
    var p := Retries(riot, FirstPass(riot, players), passes);
    GatheredWhenTracked(riot, p, StartsOf(p.failed, 0, puuid), Occurrences(players, |players|, puuid), puuid);
    if Distinct(riot.IdsOf(puuid)) {
      ProfileTheorems.MergeOfDistinct(riot.IdsOf(puuid)[..ExtentOf(riot, p.requests, puuid)]);
    }
  }

  /** A player listed once has at most one page left to retry, and their ids are the upstream prefix up to its
      start, or all of them when none is left, if and only if none of their pages went unrecorded. */
  lemma {:induction false} ListedOnceIsExact(riot: Riot, players: seq<Puuid>, passes: nat, puuid: Puuid)
    requires puuid in players && Occurrences(players, |players|, puuid) == 1
    ensures var p := Retries(riot, FirstPass(riot, players), passes);
      var ids, left := riot.IdsOf(puuid), StartsOf(p.failed, 0, puuid);
      && puuid in p.output && |left| <= 1 && (left != [] ==> left[0] <= |ids|)
      && (p.output[puuid] == ids[..if left == [] then |ids| else left[0]] <==> AllRecorded(riot, p, puuid))
  {
    ScanTracks(riot, players, passes, puuid);
    var p := Retries(riot, FirstPass(riot, players), passes);
    var left := StartsOf(p.failed, 0, puuid);
    SurplusFacts(riot, p.requests, |p.requests|, puuid);
    assert left != [] ==> left == [left[0]];
    hide Retries, FirstPass, StartsOf, Surplus, Unrecorded;
  }

  /** Any list of players: with no page of a player left to retry, their ids are the upstream list if and only
      if it is empty, or the player is listed once and none of their pages went unrecorded. */
  lemma {:induction false} CompleteScanIsExact(riot: Riot, players: seq<Puuid>, passes: nat, puuid: Puuid)
    requires puuid in players
    ensures var p := Retries(riot, FirstPass(riot, players), passes);
      && puuid in p.output
      && |StartsOf(p.failed, 0, puuid)| <= Occurrences(players, |players|, puuid)
      && (StartsOf(p.failed, 0, puuid) == [] ==>
            (p.output[puuid] == riot.IdsOf(puuid) <==>
               riot.IdsOf(puuid) == []
               || (Occurrences(players, |players|, puuid) == 1 && AllRecorded(riot, p, puuid))))
  {
    ScanTracks(riot, players, passes, puuid);
    var p, times := Retries(riot, FirstPass(riot, players), passes), Occurrences(players, |players|, puuid);
    var ids := riot.IdsOf(puuid);
    SurplusFacts(riot, p.requests, |p.requests|, puuid);
    OccursWhenListed(players, |players|, puuid);
    assert players[..|players|] == players;
    TimesFacts(times, |ids|);
    assert ids[..|ids|] == ids && (ids == [] ==> AllRecorded(riot, p, puuid));
    hide Retries, FirstPass, StartsOf, Surplus, Unrecorded, Times, Occurrences;
  }

  lemma {:induction false} LateFacts(riot: Riot, n: nat)
    ensures Late(riot, n) == 0 <==> forall k | 0 <= k < n :: k in riot.failing || k !in riot.unrecorded
  {
    if n > 0 {
      LateFacts(riot, n - 1);
    }
  }

  /** Every request sent is counted, and the pages attempted are those fetched and those failed if and only if
      no answered request went unrecorded; each one that did is counted as both. */
  lemma {:induction false} PagesAreCounted(riot: Riot, players: seq<Puuid>, passes: nat)
    ensures var p := Retries(riot, FirstPass(riot, players), passes);
      && p.tally.attempted == |p.requests|
      && p.tally.fetched + p.tally.failed == p.tally.attempted + Late(riot, |p.requests|)
      && (p.tally.attempted == p.tally.fetched + p.tally.failed <==>
            forall k | 0 <= k < |p.requests| :: k in riot.failing || k !in riot.unrecorded)
  {
    if players == [] {
      assert FirstPass(riot, players) == Fresh(players);
    } else {
      ScanTracks(riot, players, passes, players[0]);
    }
    LateFacts(riot, |Retries(riot, FirstPass(riot, players), passes).requests|);
  }
}
