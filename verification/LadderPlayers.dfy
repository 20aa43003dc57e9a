/** The match part of a ladder job as it runs: discovery updates the players' lists and the page
    counters in place, then references, details and links are written to the stores. */
module LadderPlayers {
  import opened MatchStore
  import opened ProfileSync
  import opened LadderScan
  import opened LadderReferences
  import opened LadderFetch
  import opened LadderLog
  import LadderTheorems

  class MatchDiscovery {
    const riot: Riot
    var playerIds: map<Puuid, seq<MatchId>>
    var failedPages: seq<FailedPage>
    var tally: Tally
    ghost var requests: seq<Request>

    ghost function State(): Progress
      reads this
    {
      Progress(playerIds, failedPages, tally, requests)
    }

    constructor (riot: Riot, players: seq<Puuid>)
      ensures this.riot == riot && State() == Fresh(players)
    {
      this.riot := riot;
      playerIds := map puuid | puuid in players :: [];
      failedPages, tally, requests := [], Tally(0, 0, 0, 0, 0), [];
    }

    /** Reads one player's pages from `from` on, until the last page or a failure. */
    method ScanMatchIdPages(puuid: Puuid, from: nat) returns (resume: Resume)
      requires puuid in playerIds
      modifies this`playerIds, this`tally, this`requests
      ensures var scanned := Scan(riot, puuid, from, old(playerIds[puuid]), old(tally), old(requests));
        && playerIds == old(playerIds)[puuid := scanned.output]
        && tally == scanned.tally && requests == scanned.requests && resume == scanned.resume
    {
      var ids := riot.IdsOf(puuid);
      hide Riot.IdsOf;
      ghost var whole := Scan(riot, puuid, from, playerIds[puuid], tally, requests);
      var start := from;
      while true
        invariant puuid in playerIds && playerIds == old(playerIds)[puuid := playerIds[puuid]]
        invariant Scan(riot, puuid, start, playerIds[puuid], tally, requests) == whole
        decreases if start <= |ids| then |ids| - start else 0
      {
        var request := tally.attempted;
        requests := requests + [Request(puuid, start)];
        tally := tally.(attempted := tally.attempted + 1);
        if request in riot.failing {
          tally := tally.(failed := tally.failed + 1);
          return StoppedAt(start);
        }
        var page := Page(ids, start, MATCH_ID_PAGE_SIZE);
        playerIds := playerIds[puuid := playerIds[puuid] + page];
        tally := tally.(fetched := tally.fetched + 1);
        if page != [] {
          tally := tally.(withResults := tally.withResults + 1);
        }
        if request in riot.unrecorded {
          tally := tally.(failed := tally.failed + 1);
          return StoppedAt(start);
        }
        if |page| < MATCH_ID_PAGE_SIZE {
          return Exhausted;
        }
        start := start + MATCH_ID_PAGE_SIZE;
        assert whole == Scan(riot, puuid, start, playerIds[puuid], tally, requests);
      }
    }

    /** Scans one player and notes where the scan stopped. */
    method VisitPlayer(page: FailedPage, retry: bool)
      requires page.puuid in playerIds
      modifies this
      ensures State() == Visit(riot, old(State()), page, retry) && playerIds.Keys == old(playerIds.Keys)
    {
      hide Scan;
      if retry {
        tally := tally.(retried := tally.retried + 1);
      }
      var resume := ScanMatchIdPages(page.puuid, page.start);
      if resume.StoppedAt? {
        failedPages := failedPages + [FailedPage(page.puuid, resume.start)];
      }
    }

    /** One pass over a list of pages. */
    method Pass(work: seq<FailedPage>, retry: bool)
      requires OfPlayers(work, playerIds)
      modifies this
      ensures State() == VisitAll(riot, old(State()), work, |work|, retry)
    {
      hide Visit;
      for k := 0 to |work|
        invariant playerIds.Keys == old(playerIds.Keys)
        invariant State() == VisitAll(riot, old(State()), work, k, retry)
      {
        VisitPlayer(work[k], retry);
      }
    }

    /** The first scan of all players and the deferred passes. */
    method Discover(players: seq<Puuid>)
      requires State() == Fresh(players)
      modifies this
      ensures State() == Retries(riot, FirstPass(riot, players), DEFERRED_RETRY_PASSES)
    {
      hide VisitAll;
      Pass(FromTheStart(players), false);
      var passes := DEFERRED_RETRY_PASSES;
      while passes > 0 && failedPages != []
        invariant OfPlayers(failedPages, playerIds)
        invariant Retries(riot, State(), passes) == Retries(riot, FirstPass(riot, players), DEFERRED_RETRY_PASSES)
      {
        var retrying := failedPages;
        failedPages := [];
        Pass(retrying, true);
        passes := passes - 1;
      }
    }
  }

  method AddUnseen(seen: seq<MatchId>, ids: seq<MatchId>) returns (all: seq<MatchId>)
    ensures all == seen + NewOnPage(ids, seen, {})
  {
    ghost var added: seq<MatchId> := [];
    all := seen;
    for i := 0 to |ids|
      invariant added == NewAmongFirst(ids, i, seen, {}) && all == seen + added
    {
      if ids[i] !in all {
        all := all + [ids[i]];
        added := added + [ids[i]];
      }
    }
  }

  /** Records every player's references and collects the unique ids in the order they are met. */
  method RecordReferences(store: InMemoryMatchReferenceStore, order: seq<Puuid>, found: map<Puuid, seq<MatchId>>)
    returns (unique: seq<MatchId>, total: nat)
    requires forall k | 0 <= k < |order| :: order[k] in found
    modifies store
    ensures Ledger(store.references, unique, total) == Record(old(store.references), order, found, |order|)
  {
    hide Merge, NewOnPage, Upsert;
    unique, total := [], 0;
    for k := 0 to |order|
      invariant Ledger(store.references, unique, total) == Record(old(store.references), order, found, k)
    {
      RecordNext(old(store.references), order, found, k);
      var ids := Merge(found[order[k]]);
      total := total + |ids|;
      store.Upsert(order[k], ids);
      unique := AddUnseen(unique, ids);
    }
  }

  /** Fetches the details that are not stored yet; a failure is noted and the next id is tried. */
  method FetchMissingDetails(store: InMemoryMatchStore, unique: seq<MatchId>, details: Details)
    returns (available: set<MatchId>, fetched: nat, errors: seq<MatchId>)
    modifies store
    ensures Stage(store.State(), available, fetched, errors)
            == FetchDetails(old(store.State()), details, unique, |unique|)
  {
    var stored := store.GetMatches(unique);
    assert stored.Keys == StoredAmong(store.State(), unique);
    available, fetched, errors := stored.Keys, 0, [];
    for i := 0 to |unique|
      invariant Stage(store.State(), available, fetched, errors) == FetchDetails(old(store.State()), details, unique, i)
    {
      var matchId := unique[i];
      if matchId in stored {
        fetched := fetched + 1;
      } else if matchId !in details.arriving {
        errors := errors + [matchId];
      } else {
        store.SaveMatch(matchId, details.arriving[matchId]);
        if matchId in details.unhydrated {
          errors := errors + [matchId];
        } else {
          available := available + {matchId};
          fetched := fetched + 1;
        }
      }
    }
  }

  method LinkPlayers(store: InMemoryMatchStore, order: seq<Puuid>, found: map<Puuid, seq<MatchId>>,
                     available: set<MatchId>)
    requires forall k | 0 <= k < |order| :: order[k] in found
    modifies store
    ensures store.State() == LinkAvailable(old(store.State()), order, found, available, |order|)
  {
    hide Merge, Keep, Matches.Link;
    for k := 0 to |order|
      invariant store.State() == LinkAvailable(old(store.State()), order, found, available, k)
    {
      store.LinkPlayerMatches(order[k], Keep(Merge(found[order[k]]), available));
    }
  }

  /** What the job reports: ids discovered, unique ids, duplicates, details and detail errors. */
  datatype Report = Report(discovered: nat, unique: seq<MatchId>, duplicates: int, fetched: nat, errors: seq<MatchId>)

  /** Every player refers to exactly the ids found for them, and the report balances: its unique ids are those
      found for somebody, each once; the counts are those of the recorded references, they add up to the ids
      discovered, and what they count beyond one are the duplicates. */
  ghost predicate Balanced(refs: References, order: seq<Puuid>, found: map<Puuid, seq<MatchId>>, report: Report,
                           counts: map<MatchId, int>)
    requires forall k | 0 <= k < |order| :: order[k] in found
  {
    && refs.Keys == ToSet(order)
    && (forall k | 0 <= k < |order| :: RefsOf(refs, order[k]) == ToSet(found[order[k]]))
    && Distinct(report.unique)
    && (forall id :: id in report.unique <==> exists k :: 0 <= k < |order| && id in found[order[k]])
    && (forall id :: id in counts <==> id in report.unique)
    && (forall id | id in counts :: counts[id] == CountOf(refs, order, id))
    && SumCounts(refs, order, report.unique) == report.discovered
    && Excess(refs, order, report.unique) == report.duplicates >= 0
  }

  /** The errors are exactly the unique ids that were neither stored nor obtained, each once, and with the
      details fetched they make up the unique ids. */
  ghost predicate Accounted(s: Matches, details: Details, report: Report) {
    && Distinct(report.errors)
    && (forall id :: id in report.errors <==> id in report.unique && !Obtained(s, details, id))
    && report.fetched + |report.errors| == |report.unique|
  }

  /** Everything after discovery, starting from an empty reference store. */
  method KeepDiscovered(order: seq<Puuid>, found: map<Puuid, seq<MatchId>>, details: Details,
                        references: InMemoryMatchReferenceStore, store: InMemoryMatchStore)
    returns (report: Report, counts: map<MatchId, int>)
    requires Distinct(order) && references.references == map[]
    requires forall k | 0 <= k < |order| :: order[k] in found
    modifies references, store
    ensures Balanced(references.references, order, found, report, counts)
    ensures Accounted(old(store.State()), details, report)
    ensures Fills(old(store.State()), store.State(), details, report.unique)
    ensures LinkedToObtained(old(store.State()), store.State(), order, found, details)
    ensures old(store.State()).AllStored() ==> store.State().AllStored()
  {
    hide Record, FetchDetails, LinkAvailable, Distinct, LinkedToObtained, Fills, Obtained, Matches.AllStored;
    ReferencesConserved(order, found);
    ghost var s0 := store.State();
    var unique, total := RecordReferences(references, order, found);
    DetailsOutcome(s0, details, unique);
    LinksOutcome(s0, order, found, details, unique);
    var available, fetched, errors := FetchMissingDetails(store, unique, details);
    LinkPlayers(store, order, found, available);
    counts := references.CountsForPlayers(order);
    report := Report(total, unique, total - |unique|, fetched, errors);
  }

  lemma {:induction false} RetriesKeepPlayers(riot: Riot, p: Progress, passes: nat)
    requires OfPlayers(p.failed, p.output)
    ensures Retries(riot, p, passes).output.Keys == p.output.Keys
    decreases passes
  {
    hide VisitAll;
    if passes > 0 && p.failed != [] {
      RetriesKeepPlayers(riot, VisitAll(riot, p.(failed := []), p.failed, |p.failed|, true), passes - 1);
    }
  }

  lemma {:induction false} OutputKeys(riot: Riot, players: seq<Puuid>)
    ensures Retries(riot, FirstPass(riot, players), DEFERRED_RETRY_PASSES).output.Keys == ToSet(players)
  {
    RetriesKeepPlayers(riot, FirstPass(riot, players), DEFERRED_RETRY_PASSES);
  }

  /** What discovery has reached of a player's upstream list. */
  function Reached(riot: Riot, p: Progress, puuid: Puuid): set<MatchId> {
    ToSet(riot.IdsOf(puuid)[..ExtentOf(riot, p.requests, puuid)])
  }

  /** The player refers to exactly the upstream ids reached and is linked to those of them that are obtained, in
      upstream order in front of what they were linked to; with no page left to retry that is the whole list. */
  ghost predicate UpstreamKeptFor(riot: Riot, p: Progress, puuid: Puuid, refs: References, s: Matches, after: Matches,
                                  details: Details) {
    var ids, reached := riot.IdsOf(puuid), Reached(riot, p, puuid);
    && RefsOf(refs, puuid) == reached
    && Linked(after, puuid) == Linked(s, puuid) + (set id | id in reached && Obtained(s, details, id))
    && LinkedInFront(s, after, puuid, Merge(ids[..ExtentOf(riot, p.requests, puuid)]),
                     set id | id in reached && !Obtained(s, details, id))
    && (LadderTheorems.StartsOf(p.failed, 0, puuid) == [] ==>
          reached == ToSet(ids) && ExtentOf(riot, p.requests, puuid) == |ids|)
  }

  ghost predicate UpstreamKept(riot: Riot, p: Progress, order: seq<Puuid>, refs: References, s: Matches,
                               after: Matches, details: Details) {
    forall k | 0 <= k < |order| :: UpstreamKeptFor(riot, p, order[k], refs, s, after, details)
  }

  /** What discovery comes to. */
  function Discovered(riot: Riot, players: seq<Puuid>): Progress {
    Retries(riot, FirstPass(riot, players), DEFERRED_RETRY_PASSES)
  }

  lemma {:induction false} FoundIsReached(riot: Riot, players: seq<Puuid>, puuid: Puuid)
    requires puuid in players
    ensures var p := Discovered(riot, players);
      && puuid in p.output && ToSet(p.output[puuid]) == Reached(riot, p, puuid)
      && Merge(p.output[puuid]) == Merge(riot.IdsOf(puuid)[..ExtentOf(riot, p.requests, puuid)])
      && (LadderTheorems.StartsOf(p.failed, 0, puuid) == [] ==>
            && Reached(riot, p, puuid) == ToSet(riot.IdsOf(puuid))
            && ExtentOf(riot, p.requests, puuid) == |riot.IdsOf(puuid)|)
  {
    LadderTheorems.MergedScanIsExact(riot, players, DEFERRED_RETRY_PASSES, puuid);
    hide Retries, FirstPass;
    var p := Discovered(riot, players);
    var ids := riot.IdsOf(puuid);
    MergeFacts(p.output[puuid]);
    MergeFacts(ids[..ExtentOf(riot, p.requests, puuid)]);
    assert ids[..|ids|] == ids;
  }

  lemma {:induction false} SameObtained(found: seq<MatchId>, reached: set<MatchId>, s: Matches, details: Details)
    requires ToSet(found) == reached
    ensures (set id | id in found && Obtained(s, details, id)) == set id | id in reached && Obtained(s, details, id)
    ensures (set id | id in found && !Obtained(s, details, id)) == set id | id in reached && !Obtained(s, details, id)
  {
    hide Obtained;
    assert forall id :: id in found <==> id in reached;
  }

  lemma {:induction false} OneIsKept(riot: Riot, players: seq<Puuid>, puuid: Puuid, refs: References, s: Matches,
                                     after: Matches, details: Details, found: seq<MatchId>)
    requires puuid in players && RefsOf(refs, puuid) == ToSet(found)
    requires puuid in Discovered(riot, players).output && Discovered(riot, players).output[puuid] == found
    requires Linked(after, puuid) == Linked(s, puuid) + (set id | id in found && Obtained(s, details, id))
    requires LinkedInFront(s, after, puuid, Merge(found), set id | id in found && !Obtained(s, details, id))
    ensures UpstreamKeptFor(riot, Discovered(riot, players), puuid, refs, s, after, details)
  {
    hide Discovered, Reached, RefsOf, Linked, Obtained, LinkedInFront, Merge, ToSet, ExtentOf, Riot.IdsOf;
    FoundIsReached(riot, players, puuid);
    SameObtained(found, Reached(riot, Discovered(riot, players), puuid), s, details);
  }

  lemma {:induction false} UpstreamIsKept(riot: Riot, players: seq<Puuid>, order: seq<Puuid>, refs: References,
                                          s: Matches, after: Matches, details: Details,
                                          found: map<Puuid, seq<MatchId>>)
    requires found == Discovered(riot, players).output
    requires forall k | 0 <= k < |order| :: order[k] in players && order[k] in found
    requires forall k | 0 <= k < |order| :: RefsOf(refs, order[k]) == ToSet(found[order[k]])
    requires LinkedToObtained(s, after, order, found, details)
    ensures UpstreamKept(riot, Discovered(riot, players), order, refs, s, after, details)
  {
    hide Discovered, RefsOf, Linked, Obtained, LinkedInFront, Merge, ToSet, UpstreamKeptFor;
    forall k | 0 <= k < |order|
      ensures UpstreamKeptFor(riot, Discovered(riot, players), order[k], refs, s, after, details)
    {
      OneIsKept(riot, players, order[k], refs, s, after, details, found[order[k]]);
    }
  }

  /** The match part of a ladder job, starting from an empty reference store; `failed` are the pages it reports as
      failed after the deferred passes. */
  method DiscoverAndFetchMatches(riot: Riot, players: seq<Puuid>, details: Details,
                                 references: InMemoryMatchReferenceStore, store: InMemoryMatchStore)
    returns (report: Report, order: seq<Puuid>, found: map<Puuid, seq<MatchId>>, counts: map<MatchId, int>,
             failed: seq<FailedPage>)
    requires references.references == map[]
    modifies references, store
    ensures var p := Discovered(riot, players);
      && found == p.output && failed == p.failed
      && UpstreamKept(riot, p, order, references.references, old(store.State()), store.State(), details)
    ensures Distinct(order) && (forall puuid :: puuid in order <==> puuid in players) && found.Keys == ToSet(order)
    ensures Balanced(references.references, order, found, report, counts)
    ensures Accounted(old(store.State()), details, report)
    ensures Fills(old(store.State()), store.State(), details, report.unique)
    ensures LinkedToObtained(old(store.State()), store.State(), order, found, details)
    ensures old(store.State()).AllStored() ==> store.State().AllStored()
  {
    hide Merge, Accounted, Fills, LinkedToObtained, UpstreamKept, Matches.AllStored;
    var discovery := new MatchDiscovery(riot, players);
    discovery.Discover(players);
    found, failed := discovery.playerIds, discovery.failedPages;
    order := Merge(players);
    MergeFacts(players);
    OutputKeys(riot, players);
    hide Retries, FirstPass;
    ghost var s0 := store.State();
    report, counts := KeepDiscovered(order, found, details, references, store);
    UpstreamIsKept(riot, players, order, references.references, s0, store.State(), details, found);
  }
}
