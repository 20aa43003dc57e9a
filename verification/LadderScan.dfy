/** The full history scan of a ladder fetch: every player's match ids page by page, a failed page
    ending that player's scan, and up to three deferred passes that resume where the scans stopped. */
module LadderScan {
  import opened MatchStore
  import opened ProfileSync

  const DEFERRED_RETRY_PASSES: nat := 3

  /** Riot's side of one job: every player's ids, newest first; the page requests that fail, by the
      number of requests sent before; and those after which recording the progress fails. */
  datatype Riot = Riot(ids: map<Puuid, seq<MatchId>>, failing: set<int>, unrecorded: set<int>)
  {
    function IdsOf(puuid: Puuid): seq<MatchId> {
      if puuid in ids then ids[puuid] else []
    }
  }

  datatype Tally = Tally(attempted: nat, fetched: nat, withResults: nat, failed: nat, retried: nat)

  datatype FailedPage = FailedPage(puuid: Puuid, start: nat)

  datatype Resume = Exhausted | StoppedAt(start: nat)

  /** A request for the page of one player that begins at one offset. */
  datatype Request = Request(puuid: Puuid, start: nat)

  datatype Scanned = Scanned(output: seq<MatchId>, tally: Tally, requests: seq<Request>, resume: Resume)

  /** Pages from `start` on until a short page or a failure. */
  function Scan(riot: Riot, puuid: Puuid, start: nat, output: seq<MatchId>, tally: Tally,
                requests: seq<Request>): Scanned
    decreases if start <= |riot.IdsOf(puuid)| then |riot.IdsOf(puuid)| - start else 0
  {
    var request, sent := tally.attempted, tally.(attempted := tally.attempted + 1);
    var log := requests + [Request(puuid, start)];
    if request in riot.failing then Scanned(output, sent.(failed := sent.failed + 1), log, StoppedAt(start))
    else
      var page := Page(riot.IdsOf(puuid), start, MATCH_ID_PAGE_SIZE);
      var got := sent.(fetched := sent.fetched + 1, withResults := sent.withResults + if page != [] then 1 else 0);
      if request in riot.unrecorded then Scanned(output + page, got.(failed := got.failed + 1), log, StoppedAt(start))
      else if |page| < MATCH_ID_PAGE_SIZE then Scanned(output + page, got, log, Exhausted)
      else Scan(riot, puuid, start + MATCH_ID_PAGE_SIZE, output + page, got, log)
  }

  function Position(ids: seq<MatchId>, resume: Resume): nat {
    if resume.StoppedAt? then resume.start else |ids|
  }

  /** The `k`-th request of the job was answered with ids of this player, and recording the progress failed
      after they had been added to the output. */
  predicate Unrecorded(riot: Riot, requests: seq<Request>, puuid: Puuid, k: nat)
    requires k < |requests|
  {
    && requests[k].puuid == puuid && requests[k].start < |riot.IdsOf(puuid)|
    && k !in riot.failing && k in riot.unrecorded
  }

  /** How many ids of a player the first `n` requests have added without their progress being recorded. */
  function Surplus(riot: Riot, requests: seq<Request>, n: nat, puuid: Puuid): nat
    requires n <= |requests|
  {
    if n == 0 then 0
    else
      Surplus(riot, requests, n - 1, puuid)
      + if Unrecorded(riot, requests, puuid, n - 1)
        then |Page(riot.IdsOf(puuid), requests[n - 1].start, MATCH_ID_PAGE_SIZE)| else 0
  }

  lemma {:induction false} SurplusFacts(riot: Riot, requests: seq<Request>, n: nat, puuid: Puuid)
    requires n <= |requests|
    ensures Surplus(riot, requests, n, puuid) == 0 <==> forall k | 0 <= k < n :: !Unrecorded(riot, requests, puuid, k)
  {
    if n > 0 {
      SurplusFacts(riot, requests, n - 1, puuid);
    }
  }

  lemma {:induction false} SurplusOfLonger(riot: Riot, requests: seq<Request>, more: seq<Request>, n: nat, puuid: Puuid)
    requires n <= |requests|
    ensures Surplus(riot, requests + more, n, puuid) == Surplus(riot, requests, n, puuid)
  {
    if n > 0 {
      SurplusOfLonger(riot, requests, more, n - 1, puuid);
    }
  }

  /** One request more adds to the surplus of its player only. */
  lemma {:induction false} SurplusNext(riot: Riot, requests: seq<Request>, request: Request, puuid: Puuid)
    ensures var log := requests + [request];
      Surplus(riot, log, |log|, puuid)
      == Surplus(riot, requests, |requests|, puuid)
         + if Unrecorded(riot, log, puuid, |requests|)
           then |Page(riot.IdsOf(puuid), request.start, MATCH_ID_PAGE_SIZE)| else 0
  {
    SurplusOfLonger(riot, requests, [request], |requests|, puuid);
  }

  /** A scan adds the ids between where it starts and where it is to be resumed, and then again the page at
      that place if it arrived without its progress being recorded: the surplus. */
  ghost predicate FillsGap(riot: Riot, puuid: Puuid, start: nat, output: seq<MatchId>, requests: seq<Request>,
                           scanned: Scanned) {
    var ids := riot.IdsOf(puuid);
    var before, after
      := Surplus(riot, requests, |requests|, puuid), Surplus(riot, scanned.requests, |scanned.requests|, puuid);
    var position := Position(ids, scanned.resume);
    && start <= position && before <= after && position + (after - before) <= |ids|
    && scanned.output == output + ids[start..position] + ids[position..position + (after - before)]
  }

  lemma {:induction false} GapGrows(riot: Riot, puuid: Puuid, start: nat, output: seq<MatchId>,
                                    requests: seq<Request>, log: seq<Request>, scanned: Scanned)
    requires start + MATCH_ID_PAGE_SIZE <= |riot.IdsOf(puuid)|
    requires Surplus(riot, log, |log|, puuid) == Surplus(riot, requests, |requests|, puuid)
    requires FillsGap(riot, puuid, start + MATCH_ID_PAGE_SIZE,
                      output + Page(riot.IdsOf(puuid), start, MATCH_ID_PAGE_SIZE), log, scanned)
    ensures FillsGap(riot, puuid, start, output, requests, scanned)
  {
    hide Surplus;
    var ids := riot.IdsOf(puuid);
    var page, position := Page(ids, start, MATCH_ID_PAGE_SIZE), Position(ids, scanned.resume);
    assert ids[start..position] == page + ids[start + |page|..position];
  }

  /** A scan fills the gap between its start and its resumption; a page is there in excess exactly when
      it arrived, was not empty, and its progress could not be recorded. */
  lemma {:induction false} ScanFillsGap(riot: Riot, puuid: Puuid, start: nat, output: seq<MatchId>, tally: Tally,
                                        requests: seq<Request>)
    requires start <= |riot.IdsOf(puuid)| && |requests| == tally.attempted
    ensures FillsGap(riot, puuid, start, output, requests, Scan(riot, puuid, start, output, tally, requests))
    decreases |riot.IdsOf(puuid)| - start
  {
    var ids, scanned := riot.IdsOf(puuid), Scan(riot, puuid, start, output, tally, requests);
    var page, log := Page(ids, start, MATCH_ID_PAGE_SIZE), requests + [Request(puuid, start)];
    SurplusNext(riot, requests, Request(puuid, start), puuid);
    hide Surplus;
    if tally.attempted in riot.failing || tally.attempted in riot.unrecorded {
      assert ids[start..start] == [];
    } else if |page| < MATCH_ID_PAGE_SIZE {
      assert ids[start..|ids|] == page;
    } else {
      hide FillsGap;
      var got := Tally(tally.attempted + 1, tally.fetched + 1, tally.withResults + 1, tally.failed, tally.retried);
      ScanFillsGap(riot, puuid, start + |page|, output + page, got, log);
      GapGrows(riot, puuid, start, output, requests, log, scanned);
    }
  }

  /** How many of the first `n` requests were answered without their progress being recorded. */
  function Late(riot: Riot, n: nat): nat {
    if n == 0 then 0 else Late(riot, n - 1) + if n - 1 !in riot.failing && n - 1 in riot.unrecorded then 1 else 0
  }

  /** Every request is logged, and is counted as fetched or as failed; as both exactly when it was answered
      and its progress could not be recorded.  The requests of a scan are its player's, so that it leaves the
      surplus of every other player alone. */
  lemma {:induction false} ScanCounts(riot: Riot, puuid: Puuid, start: nat, output: seq<MatchId>, tally: Tally,
                                      requests: seq<Request>)
    requires |requests| == tally.attempted
    ensures var scanned := Scan(riot, puuid, start, output, tally, requests);
      && |scanned.requests| == scanned.tally.attempted > tally.attempted
      && scanned.tally.fetched + scanned.tally.failed - scanned.tally.attempted - Late(riot, scanned.tally.attempted)
         == tally.fetched + tally.failed - tally.attempted - Late(riot, tally.attempted)
      && (forall other | other != puuid ::
            Surplus(riot, scanned.requests, |scanned.requests|, other) == Surplus(riot, requests, |requests|, other))
    decreases if start <= |riot.IdsOf(puuid)| then |riot.IdsOf(puuid)| - start else 0
  {
    var log := requests + [Request(puuid, start)];
    forall other | other != puuid
      ensures Surplus(riot, log, |log|, other) == Surplus(riot, requests, |requests|, other)
    {
      SurplusNext(riot, requests, Request(puuid, start), other);
    }
    hide Surplus;
    if tally.attempted in riot.failing || tally.attempted in riot.unrecorded {
    } else {
      var page := Page(riot.IdsOf(puuid), start, MATCH_ID_PAGE_SIZE);
      if |page| == MATCH_ID_PAGE_SIZE {
        var got := Tally(tally.attempted + 1, tally.fetched + 1, tally.withResults + 1, tally.failed, tally.retried);
        ScanCounts(riot, puuid, start + |page|, output + page, got, log);
      }
    }
  }

  // The scan of all players.

  /** The players' ids, the pages to try again, the counters, and every request sent so far. */
  datatype Progress = Progress(
    output: map<Puuid, seq<MatchId>>,
    failed: seq<FailedPage>,
    tally: Tally,
    requests: seq<Request>)

  /** One scan of one player; a stop is noted for the next pass. */
  function Visit(riot: Riot, p: Progress, page: FailedPage, retry: bool): Progress
    requires page.puuid in p.output
  {
    var tally := if retry then p.tally.(retried := p.tally.retried + 1) else p.tally;
    var scanned := Scan(riot, page.puuid, page.start, p.output[page.puuid], tally, p.requests);
    Progress(p.output[page.puuid := scanned.output],
             if scanned.resume.StoppedAt? then p.failed + [FailedPage(page.puuid, scanned.resume.start)] else p.failed,
             scanned.tally, scanned.requests)
  }

  /** Every page is one of a player of the job. */
  predicate OfPlayers(pages: seq<FailedPage>, output: map<Puuid, seq<MatchId>>) {
    forall k | 0 <= k < |pages| :: pages[k].puuid in output
  }

  /** One pass over the first `n` pages of the work list. */
  function VisitAll(riot: Riot, p: Progress, work: seq<FailedPage>, n: nat, retry: bool): (p': Progress)
    requires n <= |work| && OfPlayers(work, p.output)
    ensures p'.output.Keys == p.output.Keys
    ensures OfPlayers(p.failed, p.output) ==> OfPlayers(p'.failed, p'.output)
  {
    if n == 0 then p else Visit(riot, VisitAll(riot, p, work, n - 1, retry), work[n - 1], retry)
  }

  function Fresh(players: seq<Puuid>): Progress {
    Progress(map puuid | puuid in players :: [], [], Tally(0, 0, 0, 0, 0), [])
  }

  function FromTheStart(players: seq<Puuid>): (work: seq<FailedPage>)
    ensures |work| == |players| && forall k | 0 <= k < |players| :: work[k] == FailedPage(players[k], 0)
  {
    if players == [] then [] else FromTheStart(players[..|players| - 1]) + [FailedPage(players[|players| - 1], 0)]
  }

  function FirstPass(riot: Riot, players: seq<Puuid>): Progress {
    VisitAll(riot, Fresh(players), FromTheStart(players), |players|, false)
  }

  /** Up to `passes` deferred passes over whatever has failed. */
  function Retries(riot: Riot, p: Progress, passes: nat): Progress
    requires OfPlayers(p.failed, p.output)
    decreases passes
  {
    if passes == 0 || p.failed == [] then p
    else Retries(riot, VisitAll(riot, p.(failed := []), p.failed, |p.failed|, true), passes - 1)
  }
}
