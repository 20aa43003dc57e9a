/** What the log of page requests says about the ids a ladder job gathers for a player: those of the answered
    pages, one page after the other, any of which may have been asked for before. */
module LadderLog {
  import opened MatchStore
  import opened ProfileSync
  import opened LadderScan

  predicate Answered(riot: Riot, requests: seq<Request>, puuid: Puuid, k: nat)
    requires k < |requests|
  {
    requests[k].puuid == puuid && k !in riot.failing
  }

  /** The ids of the player's answered pages among the first `n` requests. */
  function Gathered(riot: Riot, requests: seq<Request>, n: nat, puuid: Puuid): seq<MatchId>
    requires n <= |requests|
  {
    if n == 0 then []
    else
      Gathered(riot, requests, n - 1, puuid)
      + if Answered(riot, requests, puuid, n - 1)
        then Page(riot.IdsOf(puuid), requests[n - 1].start, MATCH_ID_PAGE_SIZE) else []
  }

  /** Where a page ends. */
  function EndOf(ids: seq<MatchId>, start: nat): nat {
    Min(start + MATCH_ID_PAGE_SIZE, |ids|)
  }

  /** Where the furthest answered page ends. */
  function Extent(riot: Riot, requests: seq<Request>, n: nat, puuid: Puuid): (end: nat)
    requires n <= |requests|
    ensures end <= |riot.IdsOf(puuid)|
  {
    if n == 0 then 0
    else
      var before := Extent(riot, requests, n - 1, puuid);
      var end := EndOf(riot.IdsOf(puuid), requests[n - 1].start);
      if Answered(riot, requests, puuid, n - 1) && end > before then end else before
  }

  /** The player's requests are for whole pages, and none leaves a page out. */
  predicate InReach(riot: Riot, requests: seq<Request>, n: nat, puuid: Puuid)
    requires n <= |requests|
  {
    n == 0 ||
    (&& InReach(riot, requests, n - 1, puuid)
     && (requests[n - 1].puuid == puuid ==>
           && requests[n - 1].start % MATCH_ID_PAGE_SIZE == 0
           && requests[n - 1].start <= Extent(riot, requests, n - 1, puuid)))
  }

  /** Two answers of the player, the first `k` requests made, were the same page of ids. */
  predicate Twice(riot: Riot, requests: seq<Request>, puuid: Puuid, j: nat, k: nat)
    requires j < k < |requests|
  {
    && Answered(riot, requests, puuid, j) && Answered(riot, requests, puuid, k)
    && requests[j].start == requests[k].start < |riot.IdsOf(puuid)|
  }

  /** No page with ids of the player was answered twice among the first `n` requests. */
  predicate EachOnce(riot: Riot, requests: seq<Request>, n: nat, puuid: Puuid)
    requires n <= |requests|
  {
    forall j, k | 0 <= j < k < n :: !Twice(riot, requests, puuid, j, k)
  }

  lemma {:induction false} ExtentIsWholePages(riot: Riot, requests: seq<Request>, n: nat, puuid: Puuid)
    requires n <= |requests| && InReach(riot, requests, n, puuid)
    ensures var end := Extent(riot, requests, n, puuid);
      end == |riot.IdsOf(puuid)| || end % MATCH_ID_PAGE_SIZE == 0
  {
    if n > 0 {
      ExtentIsWholePages(riot, requests, n - 1, puuid);
    }
  }

  lemma {:induction false} AnsweredIsReached(riot: Riot, requests: seq<Request>, n: nat, puuid: Puuid, k: nat)
    requires k < n <= |requests| && Answered(riot, requests, puuid, k)
    ensures EndOf(riot.IdsOf(puuid), requests[k].start) <= Extent(riot, requests, n, puuid)
  {
    if k < n - 1 {
      AnsweredIsReached(riot, requests, n - 1, puuid, k);
    }
  }

  /** Every page that begins before the extent has been answered. */
  lemma {:induction false} ReachedIsAnswered(riot: Riot, requests: seq<Request>, n: nat, puuid: Puuid, start: nat)
    returns (k: nat)
    requires n <= |requests| && InReach(riot, requests, n, puuid)
    requires start % MATCH_ID_PAGE_SIZE == 0 && start < Extent(riot, requests, n, puuid)
    ensures k < n && Answered(riot, requests, puuid, k) && requests[k].start == start
  {
    if start < Extent(riot, requests, n - 1, puuid) {
      k := ReachedIsAnswered(riot, requests, n - 1, puuid, start);
    } else {
      k := n - 1;
    }
  }

  /** One more answered page either goes on where the others end or has been answered before. */
  lemma {:induction false} OneMoreAnswer(riot: Riot, requests: seq<Request>, n: nat, puuid: Puuid)
    requires n < |requests| && InReach(riot, requests, n + 1, puuid) && Answered(riot, requests, puuid, n)
    ensures var start, extent, ids := requests[n].start, Extent(riot, requests, n, puuid), riot.IdsOf(puuid);
      && start <= extent && start <= EndOf(ids, start) <= |ids|
      && Gathered(riot, requests, n + 1, puuid) == Gathered(riot, requests, n, puuid) + ids[start..EndOf(ids, start)]
      && Page(ids, start, MATCH_ID_PAGE_SIZE) == ids[start..EndOf(ids, start)]
      && (start == extent ==> Extent(riot, requests, n + 1, puuid) == EndOf(ids, start))
      && (start < extent ==> EndOf(ids, start) <= extent == Extent(riot, requests, n + 1, puuid))
      && (EachOnce(riot, requests, n + 1, puuid) <==>
            EachOnce(riot, requests, n, puuid) && (start == extent || start >= |ids|))
  {
    var start, extent, ids := requests[n].start, Extent(riot, requests, n, puuid), riot.IdsOf(puuid);
    ExtentIsWholePages(riot, requests, n, puuid);
    if start < extent {
      var k := ReachedIsAnswered(riot, requests, n, puuid, start);
      assert Twice(riot, requests, puuid, k, n);
    } else {
      forall k | 0 <= k < n && start < |ids|
        ensures !Twice(riot, requests, puuid, k, n)
      {
        if Answered(riot, requests, puuid, k) {
          AnsweredIsReached(riot, requests, n, puuid, k);
        }
      }
    }
  }

  /** A request that is not the player's, or fails, changes nothing for the player. */
  lemma {:induction false} NoMoreAnswer(riot: Riot, requests: seq<Request>, n: nat, puuid: Puuid)
    requires n < |requests| && !Answered(riot, requests, puuid, n)
    ensures Gathered(riot, requests, n + 1, puuid) == Gathered(riot, requests, n, puuid)
    ensures Extent(riot, requests, n + 1, puuid) == Extent(riot, requests, n, puuid)
    ensures EachOnce(riot, requests, n + 1, puuid) == EachOnce(riot, requests, n, puuid)
  {
    assert Gathered(riot, requests, n, puuid) + [] == Gathered(riot, requests, n, puuid);
    hide Answered;
    if EachOnce(riot, requests, n, puuid) {
      forall j, k | 0 <= j < k < n + 1
        ensures !Twice(riot, requests, puuid, j, k)
      {
      }
    }
  }

  /** What was gathered is the upstream list up to the extent exactly when no page was answered twice; otherwise
      it is longer. */
  lemma {:induction false} GatheredExactly(riot: Riot, requests: seq<Request>, n: nat, puuid: Puuid)
    requires n <= |requests| && InReach(riot, requests, n, puuid)
    ensures var gathered, extent := Gathered(riot, requests, n, puuid), Extent(riot, requests, n, puuid);
      if EachOnce(riot, requests, n, puuid) then gathered == riot.IdsOf(puuid)[..extent] else |gathered| > extent
  {
    if n > 0 {
      GatheredExactly(riot, requests, n - 1, puuid);
      if Answered(riot, requests, puuid, n - 1) {
        OneMoreAnswer(riot, requests, n - 1, puuid);
        hide Answered, InReach, Extent, EachOnce, Page, EndOf;
        var ids, start := riot.IdsOf(puuid), requests[n - 1].start;
        assert start == Extent(riot, requests, n - 1, puuid) ==>
            ids[..start] + ids[start..EndOf(ids, start)] == ids[..EndOf(ids, start)];
      } else {
        NoMoreAnswer(riot, requests, n - 1, puuid);
      }
    }
  }

  lemma {:induction false} MergeOn(a: seq<MatchId>, b: seq<MatchId>, c: seq<MatchId>)
    requires Merge(a) == Merge(b)
    ensures Merge(a + c) == Merge(b + c)
  {
    if c == [] {
      assert a + c == a && b + c == b;
    } else {
      var init := c[..|c| - 1];
      MergeOn(a, b, init);
      assert (a + c)[..|a + c| - 1] == a + init && (b + c)[..|b + c| - 1] == b + init;
    }
  }

  lemma {:induction false} MergeNothingNew(a: seq<MatchId>, c: seq<MatchId>)
    requires forall id | id in c :: id in a
    ensures Merge(a + c) == Merge(a)
  {
    if c == [] {
      assert a + c == a;
    } else {
      var init := c[..|c| - 1];
      assert c == init + [c[|c| - 1]];
      MergeNothingNew(a, init);
      assert (a + c)[..|a + c| - 1] == a + init && c[|c| - 1] in c;
    }
  }

  lemma {:induction false} PageInPlace(ids: seq<MatchId>, start: nat, end: nat, extent: nat)
    requires start <= extent <= |ids| && start <= end <= |ids|
    ensures start == extent ==> ids[..extent] + ids[start..end] == ids[..end]
    ensures end <= extent ==> forall id | id in ids[start..end] :: id in ids[..extent]
  {
    if end <= extent {
      forall id | id in ids[start..end]
        ensures id in ids[..extent]
      {
        var k :| 0 <= k < end - start && ids[start..end][k] == id;
        assert ids[..extent][start + k] == id;
      }
    }
  }

  lemma {:induction false} MergedNext(gathered: seq<MatchId>, ids: seq<MatchId>, start: nat, end: nat, extent: nat)
    requires start <= extent <= |ids| && start <= end <= |ids| && (start < extent ==> end <= extent)
    requires Merge(gathered) == Merge(ids[..extent])
    ensures Merge(gathered + ids[start..end]) == Merge(ids[..if start == extent then end else extent])
  {
    hide Merge;
    PageInPlace(ids, start, end, extent);
    MergeOn(gathered, ids[..extent], ids[start..end]);
    if start < extent {
      MergeNothingNew(ids[..extent], ids[start..end]);
    }
  }

  /** With repeated ids dropped, what was gathered is always the upstream list up to the extent. */
  lemma {:induction false} MergedIsExact(riot: Riot, requests: seq<Request>, n: nat, puuid: Puuid)
    requires n <= |requests| && InReach(riot, requests, n, puuid)
    ensures Merge(Gathered(riot, requests, n, puuid))
            == Merge(riot.IdsOf(puuid)[..Extent(riot, requests, n, puuid)])
  {
    if n > 0 {
      MergedIsExact(riot, requests, n - 1, puuid);
      if Answered(riot, requests, puuid, n - 1) {
        OneMoreAnswer(riot, requests, n - 1, puuid);
        hide Answered, InReach, Extent, EachOnce, Page, EndOf, Merge;
        var ids, start := riot.IdsOf(puuid), requests[n - 1].start;
        MergedNext(Gathered(riot, requests, n - 1, puuid), ids, start, EndOf(ids, start),
          Extent(riot, requests, n - 1, puuid));
      } else {
        NoMoreAnswer(riot, requests, n - 1, puuid);
      }
    }
  }

  // The log grows.

  lemma {:induction false} LogOfLonger(riot: Riot, requests: seq<Request>, more: seq<Request>, n: nat, puuid: Puuid)
    requires n <= |requests|
    ensures var longer := requests + more;
      && Gathered(riot, longer, n, puuid) == Gathered(riot, requests, n, puuid)
      && Extent(riot, longer, n, puuid) == Extent(riot, requests, n, puuid)
      && InReach(riot, longer, n, puuid) == InReach(riot, requests, n, puuid)
  {
    if n > 0 {
      LogOfLonger(riot, requests, more, n - 1, puuid);
    }
  }

  function GatheredBy(riot: Riot, requests: seq<Request>, puuid: Puuid): seq<MatchId> {
    Gathered(riot, requests, |requests|, puuid)
  }

  function ExtentOf(riot: Riot, requests: seq<Request>, puuid: Puuid): nat {
    Extent(riot, requests, |requests|, puuid)
  }

  /** The ids are those the log says were gathered. */
  predicate Logged(riot: Riot, puuid: Puuid, output: seq<MatchId>, requests: seq<Request>) {
    output == GatheredBy(riot, requests, puuid) && InReach(riot, requests, |requests|, puuid)
  }

  /** A place where a scan may go on: the start of a page that leaves nothing out. */
  predicate CanResume(riot: Riot, requests: seq<Request>, puuid: Puuid, start: nat) {
    start % MATCH_ID_PAGE_SIZE == 0 && start <= ExtentOf(riot, requests, puuid)
  }

  /** Where a scan has come to: the end of the list, or such a place. */
  predicate Resumable(riot: Riot, requests: seq<Request>, puuid: Puuid, resume: Resume) {
    match resume
    case Exhausted => ExtentOf(riot, requests, puuid) == |riot.IdsOf(puuid)|
    case StoppedAt(at) => CanResume(riot, requests, puuid, at)
  }

  /** One more request of the player: its page is gathered if it is answered. */
  lemma {:induction false} LoggedNext(riot: Riot, puuid: Puuid, output: seq<MatchId>, requests: seq<Request>,
                                      start: nat)
    requires Logged(riot, puuid, output, requests) && CanResume(riot, requests, puuid, start)
    ensures var ids, log := riot.IdsOf(puuid), requests + [Request(puuid, start)];
      && CanResume(riot, log, puuid, start)
      && if |requests| in riot.failing then Logged(riot, puuid, output, log)
         else
           && Logged(riot, puuid, output + Page(ids, start, MATCH_ID_PAGE_SIZE), log)
           && (|Page(ids, start, MATCH_ID_PAGE_SIZE)| < MATCH_ID_PAGE_SIZE ==> ExtentOf(riot, log, puuid) == |ids|)
           && (|Page(ids, start, MATCH_ID_PAGE_SIZE)| == MATCH_ID_PAGE_SIZE ==>
                 CanResume(riot, log, puuid, start + MATCH_ID_PAGE_SIZE))
  {
    LogOfLonger(riot, requests, [Request(puuid, start)], |requests|, puuid);
    assert output + [] == output;
  }

  lemma {:induction false} OthersNext(riot: Riot, requests: seq<Request>, request: Request, puuid: Puuid)
    requires request.puuid != puuid
    ensures var log := requests + [request];
      && GatheredBy(riot, log, puuid) == GatheredBy(riot, requests, puuid)
      && ExtentOf(riot, log, puuid) == ExtentOf(riot, requests, puuid)
      && InReach(riot, log, |log|, puuid) == InReach(riot, requests, |requests|, puuid)
  {
    LogOfLonger(riot, requests, [request], |requests|, puuid);
    assert GatheredBy(riot, requests, puuid) + [] == GatheredBy(riot, requests, puuid);
  }

  /** A scan that starts within reach gathers what it logs, and comes to the end of the list or stops within
      reach. */
  lemma {:induction false} ScanLogs(riot: Riot, puuid: Puuid, start: nat, output: seq<MatchId>, tally: Tally,
                                    requests: seq<Request>)
    requires |requests| == tally.attempted && Logged(riot, puuid, output, requests)
    requires CanResume(riot, requests, puuid, start)
    ensures var scanned := Scan(riot, puuid, start, output, tally, requests);
      && Logged(riot, puuid, scanned.output, scanned.requests)
      && Resumable(riot, scanned.requests, puuid, scanned.resume)
    decreases if start <= |riot.IdsOf(puuid)| then |riot.IdsOf(puuid)| - start else 0
  {
    LoggedNext(riot, puuid, output, requests, start);
    hide Logged, ExtentOf, CanResume, Page;
    var log, page := requests + [Request(puuid, start)], Page(riot.IdsOf(puuid), start, MATCH_ID_PAGE_SIZE);
    if tally.attempted !in riot.failing && tally.attempted !in riot.unrecorded && |page| == MATCH_ID_PAGE_SIZE {
      var got := Tally(tally.attempted + 1, tally.fetched + 1, tally.withResults + 1, tally.failed, tally.retried);
      ScanLogs(riot, puuid, start + MATCH_ID_PAGE_SIZE, output + page, got, log);
    }
  }

  lemma {:induction false} ExtentGrows(riot: Riot, requests: seq<Request>, request: Request, puuid: Puuid)
    ensures ExtentOf(riot, requests + [request], puuid) >= ExtentOf(riot, requests, puuid)
  {
    LogOfLonger(riot, requests, [request], |requests|, puuid);
  }

  /** No scan takes anything from what was reached, and one of another player changes nothing. */
  lemma {:induction false} ScanKeeps(riot: Riot, puuid: Puuid, start: nat, output: seq<MatchId>, tally: Tally,
                                     requests: seq<Request>, other: Puuid)
    ensures var scanned := Scan(riot, puuid, start, output, tally, requests);
      && ExtentOf(riot, scanned.requests, other) >= ExtentOf(riot, requests, other)
      && (forall at: nat | CanResume(riot, requests, other, at) :: CanResume(riot, scanned.requests, other, at))
      && (other != puuid ==>
            && GatheredBy(riot, scanned.requests, other) == GatheredBy(riot, requests, other)
            && ExtentOf(riot, scanned.requests, other) == ExtentOf(riot, requests, other)
            && InReach(riot, scanned.requests, |scanned.requests|, other)
               == InReach(riot, requests, |requests|, other))
    decreases if start <= |riot.IdsOf(puuid)| then |riot.IdsOf(puuid)| - start else 0
  {
    var log, page := requests + [Request(puuid, start)], Page(riot.IdsOf(puuid), start, MATCH_ID_PAGE_SIZE);
    hide ExtentOf, GatheredBy, InReach, Page;
    ExtentGrows(riot, requests, Request(puuid, start), other);
    if other != puuid {
      OthersNext(riot, requests, Request(puuid, start), other);
    }
    if tally.attempted !in riot.failing && tally.attempted !in riot.unrecorded && |page| == MATCH_ID_PAGE_SIZE {
      var got := Tally(tally.attempted + 1, tally.fetched + 1, tally.withResults + 1, tally.failed, tally.retried);
      ScanKeeps(riot, puuid, start + MATCH_ID_PAGE_SIZE, output + page, got, log, other);
    }
  }
}
