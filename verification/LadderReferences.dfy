/** What a ladder fetch does with the ids it discovered: who refers to which match, the details to
    fetch, and the links every player gains. */
module LadderReferences {
  import opened MatchStore
  import opened ProfileSync
  import ProfileTheorems

  type References = map<Puuid, set<MatchId>>

  function RefsOf(refs: References, puuid: Puuid): set<MatchId> {
    if puuid in refs then refs[puuid] else {}
  }

  function Upsert(refs: References, puuid: Puuid, ids: seq<MatchId>): References {
    refs[puuid := RefsOf(refs, puuid) + ToSet(ids)]
  }

  /** How many of the listed players refer to a match. */
  function CountOf(refs: References, puuids: seq<Puuid>, id: MatchId): nat {
    if puuids == [] then 0
    else CountOf(refs, puuids[..|puuids| - 1], id) + if id in RefsOf(refs, puuids[|puuids| - 1]) then 1 else 0
  }

  function SumCounts(refs: References, puuids: seq<Puuid>, ids: seq<MatchId>): nat {
    if ids == [] then 0 else SumCounts(refs, puuids, ids[..|ids| - 1]) + CountOf(refs, puuids, ids[|ids| - 1])
  }

  datatype Ledger = Ledger(references: References, unique: seq<MatchId>, total: nat)

  /** The references of the first `n` players recorded, each player's ids taken once. */
  function Record(refs: References, order: seq<Puuid>, found: map<Puuid, seq<MatchId>>, n: nat): Ledger
    requires n <= |order| && forall k | 0 <= k < |order| :: order[k] in found
  {
    if n == 0 then Ledger(refs, [], 0)
    else
      var before, ids := Record(refs, order, found, n - 1), Merge(found[order[n - 1]]);
      Ledger(Upsert(before.references, order[n - 1], ids),
             before.unique + NewOnPage(ids, before.unique, {}),
             before.total + |ids|)
  }

  lemma {:induction false} MergeFacts(ids: seq<MatchId>)
    ensures Distinct(Merge(ids)) && ToSet(Merge(ids)) == ToSet(ids)
  {
    if ids != [] {
      MergeFacts(ids[..|ids| - 1]);
    }
  }

  lemma {:induction false} DistinctSize(ids: seq<MatchId>)
    requires Distinct(ids)
    ensures |ToSet(ids)| == |ids|
  {
    if ids != [] {
      var init, last := ids[..|ids| - 1], ids[|ids| - 1];
      DistinctSize(init);
      assert ids == init + [last];
      assert ToSet(ids) == ToSet(init) + {last} && last !in ToSet(init);
    }
  }

  /** The first `n` players refer to exactly the ids found for them, the others to nothing, and the
      unique ids are exactly those somebody refers to, each once. */
  ghost predicate Covers(l: Ledger, order: seq<Puuid>, found: map<Puuid, seq<MatchId>>, n: nat)
    requires n <= |order| && forall k | 0 <= k < |order| :: order[k] in found
  {
    && (forall k | 0 <= k < n :: RefsOf(l.references, order[k]) == ToSet(found[order[k]]))
    && (forall k | n <= k < |order| :: RefsOf(l.references, order[k]) == {})
    && l.references.Keys == ToSet(order[..n])
    && Distinct(l.unique)
    && (forall k | 0 <= k < n :: ToSet(found[order[k]]) <= ToSet(l.unique))
    && (forall id | id in l.unique :: exists k :: 0 <= k < n && id in ToSet(found[order[k]]))
  }

  lemma {:induction false} CoversNext(before: Ledger, order: seq<Puuid>, found: map<Puuid, seq<MatchId>>, n: nat,
                                      ids: seq<MatchId>, added: seq<MatchId>)
    requires n < |order| && Distinct(order) && forall k | 0 <= k < |order| :: order[k] in found
    requires Covers(before, order, found, n)
    requires ToSet(ids) == ToSet(found[order[n]])
    requires Distinct(added) && forall id :: id in added <==> id in ids && id !in before.unique
    ensures Covers(Ledger(Upsert(before.references, order[n], ids), before.unique + added, before.total + |ids|),
                   order, found, n + 1)
  {
    var refs, unique := Upsert(before.references, order[n], ids), before.unique + added;
    assert RefsOf(refs, order[n]) == ToSet(found[order[n]]);
    assert forall k | 0 <= k < |order| && k != n :: RefsOf(refs, order[k]) == RefsOf(before.references, order[k]);
    assert order[..n + 1] == order[..n] + [order[n]];
    hide Upsert, RefsOf;
    assert ToSet(before.unique) <= ToSet(unique);
    forall id | id in ids
      ensures id in unique
    {
    }
    assert ToSet(ids) <= ToSet(unique);
    forall id | id in unique
      ensures exists k :: 0 <= k < n + 1 && id in ToSet(found[order[k]])
    {
      if id in before.unique {
        var k :| 0 <= k < n && id in ToSet(found[order[k]]);
        assert 0 <= k < n + 1;
      } else {
        assert id in ToSet(ids);
      }
    }
    ProfileTheorems.DistinctAppend(before.unique, added);
  }

  /** The players recorded so far and the next one. */
  lemma {:induction false} RecordNext(refs: References, order: seq<Puuid>, found: map<Puuid, seq<MatchId>>, n: nat)
    requires n < |order| && forall k | 0 <= k < |order| :: order[k] in found
    ensures var before, ids := Record(refs, order, found, n), Merge(found[order[n]]);
      Record(refs, order, found, n + 1)
      == Ledger(Upsert(before.references, order[n], ids), before.unique + NewOnPage(ids, before.unique, {}),
                before.total + |ids|)
  {
  }

  lemma {:induction false} NobodyYet(order: seq<Puuid>, found: map<Puuid, seq<MatchId>>)
    requires forall k | 0 <= k < |order| :: order[k] in found
    ensures Covers(Record(map[], order, found, 0), order, found, 0)
  {
    var start := Record(map[], order, found, 0);
    assert start == Ledger(map[], [], 0);
    hide Record;
  }

  lemma {:induction false} RecordCovers(order: seq<Puuid>, found: map<Puuid, seq<MatchId>>, n: nat)
    requires n <= |order| && Distinct(order) && forall k | 0 <= k < |order| :: order[k] in found
    ensures Covers(Record(map[], order, found, n), order, found, n)
  {
    hide Covers, Merge, NewOnPage, Upsert, Record, ToSet, Distinct;
    if n == 0 {
      NobodyYet(order, found);
    } else {
      RecordCovers(order, found, n - 1);
      RecordNext(map[], order, found, n - 1);
      var before, ids := Record(map[], order, found, n - 1), Merge(found[order[n - 1]]);
      MergeFacts(found[order[n - 1]]);
      NewOnPageFacts(ids, before.unique, {});
      CoversNext(before, order, found, n - 1, ids, NewOnPage(ids, before.unique, {}));
    }
  }

  // Counting references.

  lemma {:induction false} CountFacts(refs: References, puuids: seq<Puuid>, id: MatchId)
    ensures CountOf(refs, puuids, id) > 0 <==> exists k :: 0 <= k < |puuids| && id in RefsOf(refs, puuids[k])
  {
    if puuids != [] {
      var init, last := puuids[..|puuids| - 1], puuids[|puuids| - 1];
      CountFacts(refs, init, id);
      hide RefsOf;
      if k :| 0 <= k < |puuids| && id in RefsOf(refs, puuids[k]) {
        if k < |init| {
          assert init[k] == puuids[k];
        }
      }
      if k :| 0 <= k < |init| && id in RefsOf(refs, init[k]) {
        assert init[k] == puuids[k];
      }
    }
  }

  /** The sizes of the players' reference sets, added up. */
  function SumSizes(refs: References, puuids: seq<Puuid>): nat {
    if puuids == [] then 0 else SumSizes(refs, puuids[..|puuids| - 1]) + |RefsOf(refs, puuids[|puuids| - 1])|
  }

  lemma {:induction false} NoPlayersNoCounts(refs: References, ids: seq<MatchId>)
    ensures SumCounts(refs, [], ids) == 0
  {
    if ids != [] {
      NoPlayersNoCounts(refs, ids[..|ids| - 1]);
    }
  }

  lemma {:induction false} OneMoreId(mine: set<MatchId>, ids: seq<MatchId>)
    requires ids != [] && Distinct(ids)
    ensures var front, id := ids[..|ids| - 1], ids[|ids| - 1];
      |mine * ToSet(ids)| == |mine * ToSet(front)| + if id in mine then 1 else 0
  {
    var front, id := ids[..|ids| - 1], ids[|ids| - 1];
    assert ids == front + [id];
    assert ToSet(ids) == ToSet(front) + {id} && id !in ToSet(front);
    assert mine * ToSet(ids) == if id in mine then mine * ToSet(front) + {id} else mine * ToSet(front);
  }

  lemma {:induction false} OneMorePlayer(refs: References, puuids: seq<Puuid>, ids: seq<MatchId>)
    requires puuids != [] && Distinct(ids)
    ensures var init, last := puuids[..|puuids| - 1], puuids[|puuids| - 1];
      SumCounts(refs, puuids, ids) == SumCounts(refs, init, ids) + |RefsOf(refs, last) * ToSet(ids)|
  {
    hide RefsOf;
    var mine := RefsOf(refs, puuids[|puuids| - 1]);
    if ids == [] {
      assert mine * ToSet(ids) == {};
    } else {
      var front, id := ids[..|ids| - 1], ids[|ids| - 1];
      OneMorePlayer(refs, puuids, front);
      assert CountOf(refs, puuids, id) == CountOf(refs, puuids[..|puuids| - 1], id) + if id in mine then 1 else 0;
      hide CountOf;
      OneMoreId(mine, ids);
    }
  }

  /** Counting match by match or player by player comes to the same. */
  lemma {:induction false} CountedEitherWay(refs: References, puuids: seq<Puuid>, ids: seq<MatchId>)
    requires Distinct(ids) && forall k | 0 <= k < |puuids| :: RefsOf(refs, puuids[k]) <= ToSet(ids)
    ensures SumCounts(refs, puuids, ids) == SumSizes(refs, puuids)
  {
    if puuids == [] {
      NoPlayersNoCounts(refs, ids);
    } else {
      var init, last := puuids[..|puuids| - 1], puuids[|puuids| - 1];
      assert forall k | 0 <= k < |init| :: init[k] == puuids[k];
      CountedEitherWay(refs, init, ids);
      OneMorePlayer(refs, puuids, ids);
      assert RefsOf(refs, last) * ToSet(ids) == RefsOf(refs, last);
    }
  }

  lemma {:induction false} TotalIsSizes(order: seq<Puuid>, found: map<Puuid, seq<MatchId>>, n: nat, refs: References)
    requires n <= |order| && forall k | 0 <= k < |order| :: order[k] in found
    requires forall k | 0 <= k < n :: RefsOf(refs, order[k]) == ToSet(found[order[k]])
    ensures Record(map[], order, found, n).total == SumSizes(refs, order[..n])
  {
    hide Merge, NewOnPage, Upsert;
    if n > 0 {
      TotalIsSizes(order, found, n - 1, refs);
      RecordNext(map[], order, found, n - 1);
      var ids := Merge(found[order[n - 1]]);
      MergeFacts(found[order[n - 1]]);
      DistinctSize(ids);
      assert order[..n][..n - 1] == order[..n - 1];
    }
  }

  /** The references beyond the first to each match. */
  function Excess(refs: References, puuids: seq<Puuid>, ids: seq<MatchId>): int {
    if ids == [] then 0 else Excess(refs, puuids, ids[..|ids| - 1]) + CountOf(refs, puuids, ids[|ids| - 1]) - 1
  }

  lemma {:induction false} ExcessFacts(refs: References, puuids: seq<Puuid>, ids: seq<MatchId>)
    ensures Excess(refs, puuids, ids) == SumCounts(refs, puuids, ids) - |ids|
  {
    if ids != [] {
      ExcessFacts(refs, puuids, ids[..|ids| - 1]);
    }
  }

  lemma {:induction false} ExcessIsNoDebt(refs: References, puuids: seq<Puuid>, ids: seq<MatchId>)
    requires forall id | id in ids :: CountOf(refs, puuids, id) > 0
    ensures Excess(refs, puuids, ids) >= 0
  {
    hide CountOf;
    if ids != [] {
      var front, id := ids[..|ids| - 1], ids[|ids| - 1];
      assert id in ids && forall other | other in front :: other in ids;
      ExcessIsNoDebt(refs, puuids, front);
    }
  }

  /** From an empty reference store: every player ends up referring to exactly the ids found for them, the
      matches with a positive count are exactly the unique ids, the counts add up to the ids discovered, and
      the counts beyond one to the duplicates. */
  lemma {:induction false} ReferencesConserved(order: seq<Puuid>, found: map<Puuid, seq<MatchId>>)
    requires Distinct(order) && forall k | 0 <= k < |order| :: order[k] in found
    ensures var l := Record(map[], order, found, |order|);
      && l.references.Keys == ToSet(order)
      && (forall k | 0 <= k < |order| :: RefsOf(l.references, order[k]) == ToSet(found[order[k]]))
      && Distinct(l.unique)
      && (forall id :: id in l.unique <==> CountOf(l.references, order, id) > 0)
      && (forall id :: id in l.unique <==> exists k :: 0 <= k < |order| && id in found[order[k]])
      && SumCounts(l.references, order, l.unique) == l.total
      && Excess(l.references, order, l.unique) == l.total - |l.unique| >= 0
  {
    var l := Record(map[], order, found, |order|);
    RecordCovers(order, found, |order|);
    assert forall k | 0 <= k < |order| :: RefsOf(l.references, order[k]) == ToSet(found[order[k]]) <= ToSet(l.unique);
    CountedEitherWay(l.references, order, l.unique);
    TotalIsSizes(order, found, |order|, l.references);
    assert order[..|order|] == order;
    ExcessFacts(l.references, order, l.unique);
    forall id
      ensures id in l.unique <==> CountOf(l.references, order, id) > 0
      ensures id in l.unique <==> exists k :: 0 <= k < |order| && id in found[order[k]]
    {
      CountFacts(l.references, order, id);
    }
    ExcessIsNoDebt(l.references, order, l.unique);
  }
}
