/** The match part of a ladder fetch carried out step by step: scanning, recording references,
    fetching the missing details and linking every player to the matches that are available. */
module LadderFetch {
  import opened Options
  import opened MatchStore
  import opened ProfileSync
  import opened LadderReferences

  /** The details that arrive, and those whose identities cannot be recorded after the match is saved. */
  datatype Details = Details(arriving: map<MatchId, Payload>, unhydrated: set<MatchId>)

  datatype Stage = Stage(store: Matches, available: set<MatchId>, fetched: nat, errors: seq<MatchId>)

  function FetchOne(stored: set<MatchId>, details: Details, stage: Stage, id: MatchId): Stage {
    if id in stored then stage.(fetched := stage.fetched + 1)
    else if id !in details.arriving then stage.(errors := stage.errors + [id])
    else
      var saved := stage.store.Save(id, details.arriving[id]);
      if id in details.unhydrated then stage.(store := saved, errors := stage.errors + [id])
      else Stage(saved, stage.available + {id}, stage.fetched + 1, stage.errors)
  }

  function StoredAmong(s: Matches, ids: seq<MatchId>): set<MatchId> {
    set id | id in ids && id in s.payloads
  }

  function FetchDetails(s: Matches, details: Details, unique: seq<MatchId>, n: nat): Stage
    requires n <= |unique|
  {
    var stored := StoredAmong(s, unique);
    if n == 0 then Stage(s, stored, 0, [])
    else FetchOne(stored, details, FetchDetails(s, details, unique, n - 1), unique[n - 1])
  }

  /** Whether the id is among the first `n`. */
  predicate Among(ids: seq<MatchId>, n: nat, id: MatchId)
    requires n <= |ids|
  {
    n > 0 && (ids[n - 1] == id || Among(ids, n - 1, id))
  }

  lemma {:induction false} AmongFacts(ids: seq<MatchId>, n: nat, id: MatchId)
    requires n <= |ids|
    ensures Among(ids, n, id) <==> exists k :: 0 <= k < n && ids[k] == id
  {
    if n > 0 {
      AmongFacts(ids, n - 1, id);
    }
  }

  predicate Obtained(s: Matches, details: Details, id: MatchId) {
    id in s.payloads || (id in details.arriving && id !in details.unhydrated)
  }

  /** Where the fetching of details stands after the first `n` ids. */
  ghost predicate Fetched(s: Matches, details: Details, unique: seq<MatchId>, n: nat, stage: Stage)
    requires n <= |unique|
  {
    && stage.fetched + |stage.errors| == n
    && Distinct(stage.errors)
    && (forall id :: id in stage.errors <==> Among(unique, n, id) && !Obtained(s, details, id))
    && (forall id :: id in stage.available <==>
          id in unique && (id in s.payloads || (Among(unique, n, id) && Obtained(s, details, id))))
    && stage.store.links == s.links
    && (forall id :: id in stage.store.payloads
               <==> id in s.payloads || (Among(unique, n, id) && id in details.arriving))
    && (forall id | id in s.payloads :: stage.store.payloads[id] == s.payloads[id])
    && (forall id | id in stage.store.payloads && id !in s.payloads ::
          id in details.arriving && stage.store.payloads[id] == details.arriving[id])
  }

  lemma {:induction false} FetchedNext(s: Matches, details: Details, unique: seq<MatchId>, n: nat, stage: Stage)
    requires n < |unique| && Distinct(unique) && Fetched(s, details, unique, n, stage)
    ensures Fetched(s, details, unique, n + 1, FetchOne(StoredAmong(s, unique), details, stage, unique[n]))
  {
    var id := unique[n];
    assert id in unique;
    AmongFacts(unique, n, id);
    assert forall other :: Among(unique, n + 1, other) <==> other == id || Among(unique, n, other);
    assert !Among(unique, n, id);
    hide Among, Obtained;
    ProfileTheorems.DistinctAppend(stage.errors, [id]);
  }

  lemma {:induction false} DetailsFetched(s: Matches, details: Details, unique: seq<MatchId>, n: nat)
    requires n <= |unique| && Distinct(unique)
    ensures Fetched(s, details, unique, n, FetchDetails(s, details, unique, n))
  {
    hide FetchOne;
    if n == 0 {
    } else {
      DetailsFetched(s, details, unique, n - 1);
      hide Fetched, Distinct;
      FetchedNext(s, details, unique, n - 1, FetchDetails(s, details, unique, n - 1));
    }
  }

  function Keep(ids: seq<MatchId>, available: set<MatchId>): (kept: seq<MatchId>)
    ensures forall id :: id in kept <==> id in ids && id in available
  {
    if ids == [] then []
    else if ids[0] in available then [ids[0]] + Keep(ids[1..], available) else Keep(ids[1..], available)
  }

  /** The first `n` players linked to those of their matches that are available. */
  function LinkAvailable(s: Matches, order: seq<Puuid>, found: map<Puuid, seq<MatchId>>, available: set<MatchId>,
                         n: nat): Matches
    requires n <= |order| && forall k | 0 <= k < |order| :: order[k] in found
  {
    if n == 0 then s
    else LinkAvailable(s, order, found, available, n - 1)
           .Link(order[n - 1], Keep(Merge(found[order[n - 1]]), available))
  }

  function Linked(s: Matches, puuid: Puuid): set<MatchId> {
    ToSet(s.LinksOf(puuid))
  }

  /** The player's new links are in front of the old ones: these ids in their order, but for the ones dropped and the
      ones linked before. */
  ghost predicate LinkedInFront(s: Matches, after: Matches, puuid: Puuid, ids: seq<MatchId>, dropped: set<MatchId>) {
    exists added: seq<MatchId> ::
      && after.LinksOf(puuid) == added + s.LinksOf(puuid)
      && Rest(ids, dropped + ToSet(s.LinksOf(puuid)), added)
  }

  lemma {:induction false} UnlinkedFirst(id: MatchId, more: seq<MatchId>, existing: seq<MatchId>)
    ensures Unlinked([id] + more, existing)
            == if id in existing then Unlinked(more, existing) else [id] + Unlinked(more, existing)
  {
    assert ([id] + more)[1..] == more;
  }

  lemma {:induction false} UnlinkedKept(ids: seq<MatchId>, available: set<MatchId>, existing: seq<MatchId>,
                                        dropped: set<MatchId>)
    requires forall id | id in ids :: id in dropped <==> id !in available
    ensures Rest(ids, dropped + ToSet(existing), Unlinked(Keep(ids, available), existing))
  {
    var all := dropped + ToSet(existing);
    if ids == [] {
      assert Picks([], 0, all, [], []);
    } else {
      var rest := Unlinked(Keep(ids[1..], available), existing);
      UnlinkedKept(ids[1..], available, existing, dropped);
      assert ids[0] in ids;
      UnlinkedFirst(ids[0], Keep(ids[1..], available), existing);
      hide Rest, Unlinked;
      RestNext(ids, all, rest);
    }
  }

  /** What the first `n` players have gained: links exactly to those matches found for them that are
      available and were not linked; nobody loses a link, and nobody else gains one. */
  ghost predicate Gained(s: Matches, after: Matches, order: seq<Puuid>, found: map<Puuid, seq<MatchId>>,
                         available: set<MatchId>, n: nat)
    requires n <= |order| && forall k | 0 <= k < |order| :: order[k] in found
  {
    && after.payloads == s.payloads
    && (forall puuid | !Among(order, n, puuid) :: after.LinksOf(puuid) == s.LinksOf(puuid))
    && (forall k | 0 <= k < n :: Linked(after, order[k]) == Linked(s, order[k]) + ToSet(found[order[k]]) * available)
    && (forall k | 0 <= k < n ::
          LinkedInFront(s, after, order[k], Merge(found[order[k]]), ToSet(found[order[k]]) - available))
  }

  lemma {:induction false} LinkOnePlayer(s: Matches, puuid: Puuid, ids: seq<MatchId>, available: set<MatchId>)
    ensures var after := s.Link(puuid, Keep(Merge(ids), available));
      && after.payloads == s.payloads
      && (forall other | other != puuid :: after.LinksOf(other) == s.LinksOf(other))
      && Linked(after, puuid) == Linked(s, puuid) + ToSet(ids) * available
      && LinkedInFront(s, after, puuid, Merge(ids), ToSet(ids) - available)
  {
    UnlinkedKept(Merge(ids), available, s.LinksOf(puuid), ToSet(ids) - available);
    hide Merge, Keep, Rest;
  }

  /** What is true of two stores is true of others with the same links of the player. */
  lemma {:induction false} SameLinks(s: Matches, after: Matches, t: Matches, later: Matches, puuid: Puuid,
                                     ids: seq<MatchId>, dropped: set<MatchId>)
    requires LinkedInFront(s, after, puuid, ids, dropped)
    requires t.LinksOf(puuid) == s.LinksOf(puuid) && later.LinksOf(puuid) == after.LinksOf(puuid)
    ensures LinkedInFront(t, later, puuid, ids, dropped)
  {
  }

  lemma {:induction false} GainedNext(s: Matches, before: Matches, order: seq<Puuid>, found: map<Puuid, seq<MatchId>>,
                                      available: set<MatchId>, n: nat)
    requires n < |order| && Distinct(order) && forall k | 0 <= k < |order| :: order[k] in found
    requires Gained(s, before, order, found, available, n)
    ensures Gained(s, before.Link(order[n], Keep(Merge(found[order[n]]), available)), order, found, available, n + 1)
  {
    var puuid := order[n];
    var after := before.Link(puuid, Keep(Merge(found[puuid]), available));
    LinkOnePlayer(before, puuid, found[puuid], available);
    AmongFacts(order, n, puuid);
    assert before.LinksOf(puuid) == s.LinksOf(puuid);
    assert forall other :: Among(order, n + 1, other) <==> other == puuid || Among(order, n, other);
    hide Merge, Keep, Among, Matches.LinksOf, Matches.Link, ToSet, LinkedInFront;
    forall k | 0 <= k < n + 1
      ensures Linked(after, order[k]) == Linked(s, order[k]) + ToSet(found[order[k]]) * available
      ensures LinkedInFront(s, after, order[k], Merge(found[order[k]]), ToSet(found[order[k]]) - available)
    {
      if k < n {
        assert order[k] != puuid;
        SameLinks(s, before, s, after, order[k], Merge(found[order[k]]), ToSet(found[order[k]]) - available);
      } else {
        assert order[k] == puuid;
        SameLinks(before, after, s, after, puuid, Merge(found[puuid]), ToSet(found[puuid]) - available);
      }
    }
  }

  lemma {:induction false} LinksGained(s: Matches, order: seq<Puuid>, found: map<Puuid, seq<MatchId>>,
                                       available: set<MatchId>, n: nat)
    requires n <= |order| && Distinct(order) && forall k | 0 <= k < |order| :: order[k] in found
    ensures Gained(s, LinkAvailable(s, order, found, available, n), order, found, available, n)
  {
    hide Merge, Keep, Matches.Link, Matches.LinksOf, Distinct;
    if n == 0 {
    } else {
      LinksGained(s, order, found, available, n - 1);
      hide Gained;
      GainedNext(s, LinkAvailable(s, order, found, available, n - 1), order, found, available, n - 1);
    }
  }

  lemma {:induction false} LinkKeepsAllStored(s: Matches, puuid: Puuid, ids: seq<MatchId>, available: set<MatchId>)
    requires s.AllStored() && forall id | id in available :: id in s.payloads
    ensures var after := s.Link(puuid, Keep(Merge(ids), available)); after.AllStored() && after.payloads == s.payloads
  {
    hide Merge, Keep, Matches.AllStored;
    var kept := Keep(Merge(ids), available);
    assert forall id | id in kept :: id in s.payloads;
    MutationsKeepAllStored(s, puuid, kept, 0, Payload(0, None));
  }

  lemma {:induction false} LinkingKeepsAllStored(s: Matches, order: seq<Puuid>, found: map<Puuid, seq<MatchId>>,
                                                 available: set<MatchId>, n: nat)
    requires n <= |order| && forall k | 0 <= k < |order| :: order[k] in found
    requires s.AllStored() && forall id | id in available :: id in s.payloads
    ensures LinkAvailable(s, order, found, available, n).AllStored()
            && LinkAvailable(s, order, found, available, n).payloads == s.payloads
  {
    hide Merge, Keep, Matches.AllStored, Matches.Link;
    if n > 0 {
      LinkingKeepsAllStored(s, order, found, available, n - 1);
      LinkKeepsAllStored(LinkAvailable(s, order, found, available, n - 1), order[n - 1],
        found[order[n - 1]], available);
    }
  }

  /** The payloads stored already are as they were, and those of the unique ids that arrived are added. */
  ghost predicate Fills(s: Matches, after: Matches, details: Details, unique: seq<MatchId>) {
    && (forall id :: id in after.payloads <==> id in s.payloads || (id in unique && id in details.arriving))
    && (forall id | id in s.payloads :: after.payloads[id] == s.payloads[id])
    && (forall id | id in after.payloads && id !in s.payloads ::
          id in details.arriving && after.payloads[id] == details.arriving[id])
  }

  /** Details fetched and detail errors add up to the unique ids; the errors are exactly those not obtained,
      and no payload is replaced. */
  lemma {:induction false} DetailsOutcome(s: Matches, details: Details, unique: seq<MatchId>)
    requires Distinct(unique)
    ensures var stage := FetchDetails(s, details, unique, |unique|);
      && stage.fetched + |stage.errors| == |unique|
      && Distinct(stage.errors)
      && (forall id :: id in stage.errors <==> id in unique && !Obtained(s, details, id))
      && (forall id :: id in stage.available <==> id in unique && Obtained(s, details, id))
      && Fills(s, stage.store, details, unique)
      && stage.store.links == s.links
  {
    DetailsFetched(s, details, unique, |unique|);
    hide FetchDetails, Distinct;
    forall id
      ensures Among(unique, |unique|, id) <==> id in unique
    {
      AmongFacts(unique, |unique|, id);
    }
  }

  /** Every player is linked to exactly what they were linked to and those matches discovered for them
      that were stored already or arrived; the new ones come in front, in the order of their discovery. */
  ghost predicate LinkedToObtained(s: Matches, after: Matches, order: seq<Puuid>, found: map<Puuid, seq<MatchId>>,
                                   details: Details)
    requires forall k | 0 <= k < |order| :: order[k] in found
  {
    forall k | 0 <= k < |order| ::
      && Linked(after, order[k]) == Linked(s, order[k]) + (set id | id in found[order[k]] && Obtained(s, details, id))
      && LinkedInFront(s, after, order[k], Merge(found[order[k]]),
                       set id | id in found[order[k]] && !Obtained(s, details, id))
  }

  lemma {:induction false} GainedMeansObtained(s: Matches, stage: Stage, after: Matches, order: seq<Puuid>,
                                               found: map<Puuid, seq<MatchId>>, details: Details,
                                               unique: seq<MatchId>)
    requires forall k | 0 <= k < |order| :: order[k] in found
    requires forall k, id | 0 <= k < |order| && id in found[order[k]] :: id in unique
    requires stage.store.links == s.links
    requires forall id :: id in stage.available <==> id in unique && Obtained(s, details, id)
    requires Gained(stage.store, after, order, found, stage.available, |order|)
    ensures LinkedToObtained(s, after, order, found, details)
  {
    hide Among, Obtained, LinkedInFront, Merge;
    forall k | 0 <= k < |order|
      ensures Linked(after, order[k])
              == Linked(s, order[k]) + set id | id in found[order[k]] && Obtained(s, details, id)
      ensures LinkedInFront(s, after, order[k], Merge(found[order[k]]),
                            set id | id in found[order[k]] && !Obtained(s, details, id))
    {
      assert ToSet(found[order[k]]) - stage.available == set id | id in found[order[k]] && !Obtained(s, details, id);
      SameLinks(stage.store, after, s, after, order[k], Merge(found[order[k]]),
                ToSet(found[order[k]]) - stage.available);
      assert ToSet(found[order[k]]) * stage.available == set id | id in found[order[k]] && Obtained(s, details, id);
      assert Linked(stage.store, order[k]) == Linked(s, order[k]);
    }
  }

  lemma {:induction false} SamePayloads(s: Matches, middle: Matches, after: Matches, order: seq<Puuid>,
                                        found: map<Puuid, seq<MatchId>>, available: set<MatchId>, details: Details,
                                        unique: seq<MatchId>)
    requires Fills(s, middle, details, unique) && forall k | 0 <= k < |order| :: order[k] in found
    requires Gained(middle, after, order, found, available, |order|)
    ensures Fills(s, after, details, unique)
  {
  }

  lemma {:induction false} FilledIsStored(s: Matches, after: Matches, available: set<MatchId>, details: Details,
                                          unique: seq<MatchId>)
    requires Fills(s, after, details, unique) && after.links == s.links && s.AllStored()
    requires forall id :: id in available <==> id in unique && Obtained(s, details, id)
    ensures after.AllStored() && forall id | id in available :: id in after.payloads
  {
  }

  lemma {:induction false} LinksOutcome(s: Matches, order: seq<Puuid>, found: map<Puuid, seq<MatchId>>,
                                        details: Details, unique: seq<MatchId>)
    requires Distinct(order) && Distinct(unique) && forall k | 0 <= k < |order| :: order[k] in found
    requires forall k, id | 0 <= k < |order| && id in found[order[k]] :: id in unique
    ensures var stage := FetchDetails(s, details, unique, |unique|);
      var after := LinkAvailable(stage.store, order, found, stage.available, |order|);
      && LinkedToObtained(s, after, order, found, details)
      && Fills(s, after, details, unique)
      && (s.AllStored() ==> after.AllStored())
  {
    hide *;
    var stage := FetchDetails(s, details, unique, |unique|);
    DetailsOutcome(s, details, unique);
    var after := LinkAvailable(stage.store, order, found, stage.available, |order|);
    LinksGained(stage.store, order, found, stage.available, |order|);
    GainedMeansObtained(s, stage, after, order, found, details, unique);
    SamePayloads(s, stage.store, after, order, found, stage.available, details, unique);
    if s.AllStored() {
      FilledIsStored(s, stage.store, stage.available, details, unique);
      LinkingKeepsAllStored(stage.store, order, found, stage.available, |order|);
    }
  }

  function Counted(counts: map<MatchId, int>, id: MatchId): int {
    if id in counts then counts[id] else 0
  }

  method AnyOf<T(==)>(items: set<T>) returns (item: T)
    requires items != {}
    ensures item in items
  {
    item :| item in items;
  }

  /** Counts every match of a set once more. */
  method CountEach(counts: map<MatchId, int>, matches: set<MatchId>) returns (more: map<MatchId, int>)
    requires forall id | id in counts :: counts[id] > 0
    ensures forall id | id in more :: more[id] > 0
    ensures forall id :: Counted(more, id) == Counted(counts, id) + if id in matches then 1 else 0
  {
    more := counts;
    var rest := matches;
    while rest != {}
      invariant rest <= matches && forall id | id in more :: more[id] > 0
      invariant forall id :: Counted(more, id) == Counted(counts, id) + if id in matches && id !in rest then 1 else 0
      decreases |rest|
    {
      var id := AnyOf(rest);
      more := more[id := Counted(more, id) + 1];
      rest := rest - {id};
    }
  }

  class InMemoryMatchReferenceStore {
    var references: References

    constructor ()
      ensures references == map[]
    {
      references := map[];
    }

    method Upsert(puuid: Puuid, matchIds: seq<MatchId>)
      modifies this
      ensures references == LadderReferences.Upsert(old(references), puuid, matchIds)
      ensures forall p ::
                RefsOf(references, p) == RefsOf(old(references), p) + if p == puuid then ToSet(matchIds) else {}
    {
      if puuid !in references {
        references := references[puuid := {}];
      }
      references := references[puuid := references[puuid] + ToSet(matchIds)];
    }

    /** For every match somebody listed refers to, how many of the listed do. */
    method CountsForPlayers(puuids: seq<Puuid>) returns (counts: map<MatchId, int>)
      ensures forall id :: id in counts <==> CountOf(references, puuids, id) > 0
      ensures forall id | id in counts :: counts[id] == CountOf(references, puuids, id)
    {
      counts := map[];
      for i := 0 to |puuids|
        invariant forall id :: Counted(counts, id) == CountOf(references, puuids[..i], id)
        invariant forall id | id in counts :: counts[id] > 0
      {
        assert puuids[..i + 1][..i] == puuids[..i];
        counts := CountEach(counts, RefsOf(references, puuids[i]));
      }
      assert puuids[..|puuids|] == puuids;
    }
  }
}
