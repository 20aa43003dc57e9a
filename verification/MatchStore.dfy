/** The durable match store: payloads by match id, and for every player the ids linked to them,
    latest link first. */
module MatchStore {
  import opened Options

  // Identifiers are only ever compared for equality.
  type MatchId = int
  type Puuid = int

  datatype Payload = Payload(body: int, gameCreation: Option<int>)

  /** The ids of `matchIds` that are not in `existing`, in order and as often as they occur. */
  function Unlinked(matchIds: seq<MatchId>, existing: seq<MatchId>): (ids: seq<MatchId>)
    ensures forall id :: id in ids <==> id in matchIds && id !in existing
  {
    if matchIds == [] then []
    else if matchIds[0] in existing then Unlinked(matchIds[1..], existing)
    else [matchIds[0]] + Unlinked(matchIds[1..], existing)
  }

  function Without(ids: seq<MatchId>, matchId: MatchId): (kept: seq<MatchId>)
    ensures forall id :: id in kept <==> id in ids && id != matchId
  {
    if ids == [] then []
    else if ids[0] == matchId then Without(ids[1..], matchId)
    else [ids[0]] + Without(ids[1..], matchId)
  }

  /** Whether the first match was created strictly after the second. */
  predicate Newer(payloads: map<MatchId, Payload>, a: MatchId, b: MatchId)
    requires a in payloads && b in payloads
  {
    match (payloads[a].gameCreation, payloads[b].gameCreation)
    case (Some(x), Some(y)) => x > y
    case (Some(_), None) => true
    case (None, _) => false
  }

  /** How many ids from the start of `sorted` are strictly newer than `id`. */
  function NewerAhead(payloads: map<MatchId, Payload>, id: MatchId, sorted: seq<MatchId>, from: nat): (p: nat)
    requires id in payloads && (forall other | other in sorted :: other in payloads)
    requires from <= |sorted| && forall k | 0 <= k < from :: Newer(payloads, sorted[k], id)
    ensures from <= p <= |sorted| && forall k | 0 <= k < p :: Newer(payloads, sorted[k], id)
    ensures p < |sorted| ==> !Newer(payloads, sorted[p], id)
    decreases |sorted| - from
  {
    if from < |sorted| && Newer(payloads, sorted[from], id) then NewerAhead(payloads, id, sorted, from + 1) else from
  }

  /** Puts an id behind the strictly newer ones and before everything else. */
  function InsertByAge(payloads: map<MatchId, Payload>, id: MatchId, sorted: seq<MatchId>): (r: seq<MatchId>)
    requires id in payloads && forall other | other in sorted :: other in payloads
    ensures multiset(r) == multiset{id} + multiset(sorted)
    ensures forall other | other in r :: other in payloads
  {
    var p := NewerAhead(payloads, id, sorted, 0);
    assert sorted == sorted[..p] + sorted[p..];
    sorted[..p] + [id] + sorted[p..]
  }

  function NewestFirst(payloads: map<MatchId, Payload>, ids: seq<MatchId>): (sorted: seq<MatchId>)
    requires forall id | id in ids :: id in payloads
    ensures multiset(sorted) == multiset(ids)
    ensures forall id | id in sorted :: id in payloads
  {
    if ids == [] then []
    else
      assert ids == [ids[0]] + ids[1..];
      InsertByAge(payloads, ids[0], NewestFirst(payloads, ids[1..]))
  }

  datatype Matches = Matches(payloads: map<MatchId, Payload>, links: map<Puuid, seq<MatchId>>)
  {
    function LinksOf(puuid: Puuid): seq<MatchId> {
      if puuid in links then links[puuid] else []
    }

    /** Every linked id has a stored payload. */
    predicate AllStored() {
      forall puuid, id | puuid in links && id in links[puuid] :: id in payloads
    }

    /** A payload once stored is never replaced. */
    function Save(matchId: MatchId, payload: Payload): Matches {
      if matchId in payloads then this else this.(payloads := payloads[matchId := payload])
    }

    function Link(puuid: Puuid, matchIds: seq<MatchId>): Matches {
      this.(links := links[puuid := Unlinked(matchIds, LinksOf(puuid)) + LinksOf(puuid)])
    }

    function Unlink(puuid: Puuid, matchId: MatchId): Matches {
      this.(links := links[puuid := Without(LinksOf(puuid), matchId)])
    }

    function Delete(matchId: MatchId): Matches {
      Matches(payloads - {matchId}, map p | p in links :: Without(links[p], matchId))
    }

    /** The ids linked to a player, most recently created match first; matches without a creation
        time come last, and ties keep the order of the links. */
    function History(puuid: Puuid): seq<MatchId>
      requires AllStored()
    {
      NewestFirst(payloads, LinksOf(puuid))
    }
  }

  /** No id is strictly newer than one listed before it. */
  ghost predicate InAgeOrder(payloads: map<MatchId, Payload>, ids: seq<MatchId>)
    requires forall id | id in ids :: id in payloads
  {
    forall j, k | 0 <= j < k < |ids| :: !Newer(payloads, ids[k], ids[j])
  }

  lemma {:induction false} SandwichInAgeOrder(payloads: map<MatchId, Payload>, front: seq<MatchId>, id: MatchId,
                                              back: seq<MatchId>)
    requires forall other | other in front + [id] + back :: other in payloads
    requires (forall other | other in front :: other in payloads) && (forall other | other in back :: other in payloads)
    requires InAgeOrder(payloads, front) && InAgeOrder(payloads, back)
    requires id in payloads && forall j, k | 0 <= j < |front| && 0 <= k < |back| :: !Newer(payloads, back[k], front[j])
    requires forall j | 0 <= j < |front| :: Newer(payloads, front[j], id)
    requires forall k | 0 <= k < |back| :: !Newer(payloads, back[k], id)
    ensures InAgeOrder(payloads, front + [id] + back)
  {
    var r, p := front + [id] + back, |front|;
    forall j, k | 0 <= j < k < |r|
      ensures !Newer(payloads, r[k], r[j])
    {
      assert j < p ==> r[j] == front[j];
      assert k < p ==> r[k] == front[k];
      assert j > p ==> r[j] == back[j - p - 1];
      assert k > p ==> r[k] == back[k - p - 1];
    }
  }

  lemma {:induction false} InsertKeepsAgeOrder(payloads: map<MatchId, Payload>, id: MatchId, sorted: seq<MatchId>)
    requires id in payloads && (forall other | other in sorted :: other in payloads) && InAgeOrder(payloads, sorted)
    ensures InAgeOrder(payloads, InsertByAge(payloads, id, sorted))
  {
    var p := NewerAhead(payloads, id, sorted, 0);
    var front, back := sorted[..p], sorted[p..];
    assert forall k | 0 <= k < |back| :: back[k] == sorted[p + k];
    forall k | 0 <= k < |back|
      ensures !Newer(payloads, back[k], id)
    {
      assert k > 0 ==> !Newer(payloads, sorted[p + k], sorted[p]);
    }
    hide InsertByAge, NewerAhead;
    SandwichInAgeOrder(payloads, front, id, back);
  }

  lemma {:induction false} HistoryInAgeOrder(payloads: map<MatchId, Payload>, ids: seq<MatchId>)
    requires forall id | id in ids :: id in payloads
    ensures InAgeOrder(payloads, NewestFirst(payloads, ids))
  {
    if ids != [] {
      HistoryInAgeOrder(payloads, ids[1..]);
      InsertKeepsAgeOrder(payloads, ids[0], NewestFirst(payloads, ids[1..]));
    }
  }

  /** The ids of a list created at the same time as `id`, in the order of the list. */
  function TiedWith(payloads: map<MatchId, Payload>, id: MatchId, ids: seq<MatchId>): seq<MatchId>
    requires id in payloads && forall other | other in ids :: other in payloads
  {
    if ids == [] then []
    else
      var first, rest := ids[0], TiedWith(payloads, id, ids[1..]);
      assert first in ids;
      if payloads[first].gameCreation == payloads[id].gameCreation then [first] + rest else rest
  }

  lemma {:induction false} TiedInParts(payloads: map<MatchId, Payload>, id: MatchId, front: seq<MatchId>,
                                       back: seq<MatchId>)
    requires id in payloads && (forall other | other in front :: other in payloads)
    requires (forall other | other in back :: other in payloads)
             && (forall other | other in front + back :: other in payloads)
    ensures TiedWith(payloads, id, front + back) == TiedWith(payloads, id, front) + TiedWith(payloads, id, back)
  {
    if front == [] {
      assert front + back == back;
    } else {
      assert front == [front[0]] + front[1..] && (front + back)[1..] == front[1..] + back;
      TiedInParts(payloads, id, front[1..], back);
    }
  }

  lemma {:induction false} NewerAreNotTied(payloads: map<MatchId, Payload>, id: MatchId, front: seq<MatchId>)
    requires id in payloads && (forall other | other in front :: other in payloads)
    requires forall k | 0 <= k < |front| :: Newer(payloads, front[k], id)
    ensures TiedWith(payloads, id, front) == []
  {
    if front != [] {
      NewerAreNotTied(payloads, id, front[1..]);
    }
  }

  lemma {:induction false} TiesAround(payloads: map<MatchId, Payload>, of: MatchId, front: seq<MatchId>, id: MatchId,
                                      back: seq<MatchId>)
    requires id in payloads && of in payloads
    requires (forall other | other in front :: other in payloads) && (forall other | other in back :: other in payloads)
    requires forall k | 0 <= k < |front| :: Newer(payloads, front[k], id)
    ensures (forall other | other in front + ([id] + back) :: other in payloads)
    ensures (forall other | other in [id] + (front + back) :: other in payloads)
    ensures TiedWith(payloads, of, front + ([id] + back)) == TiedWith(payloads, of, [id] + (front + back))
  {
    TiedInParts(payloads, of, front, [id] + back);
    TiedInParts(payloads, of, [id], back);
    TiedInParts(payloads, of, [id], front + back);
    TiedInParts(payloads, of, front, back);
    if payloads[id].gameCreation == payloads[of].gameCreation {
      NewerAreNotTied(payloads, of, front);
    } else {
      assert TiedWith(payloads, of, [id]) == [];
    }
  }

  lemma {:induction false} InsertKeepsTies(payloads: map<MatchId, Payload>, id: MatchId, sorted: seq<MatchId>,
                                           of: MatchId)
    requires id in payloads && of in payloads && (forall other | other in sorted :: other in payloads)
    ensures TiedWith(payloads, of, InsertByAge(payloads, id, sorted)) == TiedWith(payloads, of, [id] + sorted)
  {
    var p := NewerAhead(payloads, id, sorted, 0);
    var front, back := sorted[..p], sorted[p..];
    assert InsertByAge(payloads, id, sorted) == front + ([id] + back) && sorted == front + back;
    assert forall k | 0 <= k < |front| :: front[k] in sorted;
    assert forall k | 0 <= k < |back| :: back[k] in sorted;
    TiesAround(payloads, of, front, id, back);
  }

  /** Matches created at the same time keep the order they had. */
  lemma {:induction false} HistoryKeepsTies(payloads: map<MatchId, Payload>, ids: seq<MatchId>, of: MatchId)
    requires of in payloads && forall id | id in ids :: id in payloads
    ensures TiedWith(payloads, of, NewestFirst(payloads, ids)) == TiedWith(payloads, of, ids)
  {
    hide InsertByAge;
    if ids != [] {
      var sorted := NewestFirst(payloads, ids[1..]);
      HistoryKeepsTies(payloads, ids[1..], of);
      InsertKeepsTies(payloads, ids[0], sorted, of);
      assert [ids[0]] + ids[1..] == ids;
      assert ([ids[0]] + sorted)[1..] == sorted;
    }
  }

  function ToSet(ids: seq<MatchId>): set<MatchId> {
    set id | id in ids
  }

  /** `kept` is `ids` from this place on without the dropped ones: the places `at` are all the others, in order. */
  ghost predicate Picks(ids: seq<MatchId>, from: nat, dropped: set<MatchId>, at: seq<int>, kept: seq<MatchId>) {
    && |at| == |kept| && (forall k | 0 <= k < |at| :: from <= at[k] < |ids| && kept[k] == ids[at[k]])
    && (forall j, k | 0 <= j < k < |at| :: at[j] < at[k])
    && (forall j | from <= j < |ids| :: j in at <==> ids[j] !in dropped)
  }

  ghost predicate Rest(ids: seq<MatchId>, dropped: set<MatchId>, kept: seq<MatchId>) {
    exists at: seq<int> :: Picks(ids, 0, dropped, at, kept)
  }

  /** The same places of a list with one more element in front. */
  function Moved(at: seq<int>): (moved: seq<int>)
    ensures |moved| == |at| && forall k | 0 <= k < |at| :: moved[k] == at[k] + 1
  {
    if at == [] then [] else [at[0] + 1] + Moved(at[1..])
  }

  lemma {:induction false} MovedPicks(ids: seq<MatchId>, dropped: set<MatchId>, at: seq<int>, kept: seq<MatchId>)
    requires ids != [] && Picks(ids[1..], 0, dropped, at, kept)
    ensures Picks(ids, 1, dropped, Moved(at), kept)
  {
    var moved := Moved(at);
    forall j | 1 <= j < |ids|
      ensures j in moved <==> ids[j] !in dropped
    {
      assert ids[1..][j - 1] == ids[j];
      if j - 1 in at {
        var k :| 0 <= k < |at| && at[k] == j - 1;
        assert moved[k] == j;
      }
      if j in moved {
        var k :| 0 <= k < |at| && moved[k] == j;
        assert at[k] == j - 1;
      }
    }
  }

  lemma {:induction false} FirstIsDropped(ids: seq<MatchId>, dropped: set<MatchId>, at: seq<int>, kept: seq<MatchId>)
    requires ids != [] && ids[0] in dropped && Picks(ids, 1, dropped, at, kept)
    ensures Picks(ids, 0, dropped, at, kept)
  {
  }

  lemma {:induction false} FirstIsPicked(ids: seq<MatchId>, dropped: set<MatchId>, at: seq<int>, kept: seq<MatchId>)
    requires ids != [] && ids[0] !in dropped && Picks(ids, 1, dropped, at, kept)
    ensures Picks(ids, 0, dropped, [0] + at, [ids[0]] + kept)
  {
    var longer, all := [0] + at, [ids[0]] + kept;
    assert forall k | 0 < k < |longer| :: longer[k] == at[k - 1] && all[k] == kept[k - 1];
    assert forall j | 1 <= j < |ids| :: j in longer <==> j in at;
    assert longer[0] == 0 && 0 in longer;
  }

  lemma {:induction false} RestNext(ids: seq<MatchId>, dropped: set<MatchId>, kept: seq<MatchId>)
    requires ids != [] && Rest(ids[1..], dropped, kept)
    ensures Rest(ids, dropped, if ids[0] in dropped then kept else [ids[0]] + kept)
  {
    hide Picks, Moved;
    var at: seq<int> :| Picks(ids[1..], 0, dropped, at, kept);
    MovedPicks(ids, dropped, at, kept);
    if ids[0] in dropped {
      FirstIsDropped(ids, dropped, Moved(at), kept);
    } else {
      FirstIsPicked(ids, dropped, Moved(at), kept);
    }
  }

  /** Every mutation keeps links and payloads consistent, linking only when it links stored ids. */
  lemma {:induction false} MutationsKeepAllStored(s: Matches, puuid: Puuid, matchIds: seq<MatchId>, matchId: MatchId,
                                                  payload: Payload)
    requires s.AllStored()
    ensures s.Save(matchId, payload).AllStored()
    ensures s.Unlink(puuid, matchId).AllStored() && s.Delete(matchId).AllStored()
    ensures s.Link(puuid, matchIds).AllStored() <==> forall id | id in matchIds :: id in s.payloads
  {
    var linked, added := s.Link(puuid, matchIds), Unlinked(matchIds, s.LinksOf(puuid));
    if linked.AllStored() {
      forall id | id in matchIds
        ensures id in s.payloads
      {
        assert id in linked.links[puuid];
      }
    }
  }

  lemma {:induction false} UnlinkedIsRest(matchIds: seq<MatchId>, existing: seq<MatchId>)
    ensures Rest(matchIds, ToSet(existing), Unlinked(matchIds, existing))
  {
    if matchIds == [] {
      assert Picks([], 0, ToSet(existing), [], []);
    } else {
      UnlinkedIsRest(matchIds[1..], existing);
      RestNext(matchIds, ToSet(existing), Unlinked(matchIds[1..], existing));
    }
  }

  lemma {:induction false} WithoutIsRest(ids: seq<MatchId>, matchId: MatchId)
    ensures Rest(ids, {matchId}, Without(ids, matchId))
  {
    if ids == [] {
      assert Picks([], 0, {matchId}, [], []);
    } else {
      WithoutIsRest(ids[1..], matchId);
      RestNext(ids, {matchId}, Without(ids[1..], matchId));
    }
  }

  /** Linking puts the ids that are not linked yet in front, in their order, and touches nobody else's links and no
      payload. */
  lemma {:induction false} LinkIsExact(s: Matches, puuid: Puuid, matchIds: seq<MatchId>)
    ensures var after := s.Link(puuid, matchIds);
      && after.payloads == s.payloads && (forall p | p != puuid :: after.LinksOf(p) == s.LinksOf(p))
      && exists added: seq<MatchId> ::
           after.LinksOf(puuid) == added + s.LinksOf(puuid) && Rest(matchIds, ToSet(s.LinksOf(puuid)), added)
  {
    UnlinkedIsRest(matchIds, s.LinksOf(puuid));
  }

  /** Unlinking takes one match from one player and leaves everything else where it was. */
  lemma {:induction false} UnlinkIsExact(s: Matches, puuid: Puuid, matchId: MatchId)
    ensures var after := s.Unlink(puuid, matchId);
      && after.payloads == s.payloads && (forall p | p != puuid :: after.LinksOf(p) == s.LinksOf(p))
      && Rest(s.LinksOf(puuid), {matchId}, after.LinksOf(puuid))
  {
    WithoutIsRest(s.LinksOf(puuid), matchId);
  }

  /** Deleting takes one match from the payloads and from every player, and leaves all other payloads and links where
      they were. */
  lemma {:induction false} DeleteIsExact(s: Matches, matchId: MatchId)
    ensures var after := s.Delete(matchId);
      && matchId !in after.payloads
      && (forall id | id != matchId :: id in after.payloads <==> id in s.payloads)
      && (forall id | id in after.payloads :: after.payloads[id] == s.payloads[id])
      && forall p :: Rest(s.LinksOf(p), {matchId}, after.LinksOf(p))
  {
    forall p: Puuid
      ensures Rest(s.LinksOf(p), {matchId}, s.Delete(matchId).LinksOf(p))
    {
      WithoutIsRest(s.LinksOf(p), matchId);
    }
  }

  class InMemoryMatchStore {
    var payloads: map<MatchId, Payload>
    var links: map<Puuid, seq<MatchId>>

    function State(): Matches
      reads this
    {
      Matches(payloads, links)
    }

    constructor ()
      ensures State() == Matches(map[], map[])
    {
      payloads, links := map[], map[];
    }

    method GetPlayerMatchIds(puuid: Puuid) returns (matchIds: seq<MatchId>)
      requires State().AllStored()
      ensures matchIds == State().History(puuid)
      ensures multiset(matchIds) == multiset(State().LinksOf(puuid))
      ensures (forall id | id in matchIds :: id in payloads) && forall j, k | 0 <= j < k < |matchIds| ::
                var earlier, later := payloads[matchIds[j]].gameCreation, payloads[matchIds[k]].gameCreation;
                later.Some? ==> earlier.Some? && earlier.value >= later.value
      ensures forall id | id in payloads ::
                TiedWith(payloads, id, matchIds) == TiedWith(payloads, id, State().LinksOf(puuid))
    {
      var ids := State().LinksOf(puuid);
      matchIds := NewestFirst(payloads, ids);
      HistoryInAgeOrder(payloads, ids);
      forall id | id in payloads
        ensures TiedWith(payloads, id, matchIds) == TiedWith(payloads, id, ids)
      {
        HistoryKeepsTies(payloads, ids, id);
      }
    }

    method GetMatches(matchIds: seq<MatchId>) returns (found: map<MatchId, Payload>)
      ensures found == map id | id in matchIds && id in payloads :: payloads[id]
    {
      found := map[];
      for i := 0 to |matchIds|
        invariant found == map id | id in matchIds[..i] && id in payloads :: payloads[id]
      {
        assert matchIds[..i + 1] == matchIds[..i] + [matchIds[i]];
        if matchIds[i] in payloads {
          found := found[matchIds[i] := payloads[matchIds[i]]];
        }
      }
      assert matchIds[..|matchIds|] == matchIds;
    }

    method SaveMatch(matchId: MatchId, payload: Payload)
      modifies this`payloads
      ensures State() == old(State()).Save(matchId, payload)
    {
      if matchId !in payloads {
        payloads := payloads[matchId := payload];
      }
    }

    method LinkPlayerMatches(puuid: Puuid, matchIds: seq<MatchId>)
      modifies this`links
      ensures State() == old(State()).Link(puuid, matchIds)
    {
      var existing := State().LinksOf(puuid);
      links := links[puuid := Unlinked(matchIds, existing) + existing];
    }

    method UnlinkPlayerMatch(puuid: Puuid, matchId: MatchId) returns (unlinked: bool)
      modifies this`links
      ensures unlinked == (matchId in old(State()).LinksOf(puuid))
      ensures State() == if unlinked then old(State()).Unlink(puuid, matchId) else old(State())
    {
      var matchIds := State().LinksOf(puuid);
      if matchId !in matchIds {
        return false;
      }
      links := links[puuid := Without(matchIds, matchId)];
      return true;
    }

    method DeleteMatch(matchId: MatchId) returns (deleted: bool)
      modifies this
      ensures deleted == (matchId in old(payloads))
      ensures State() == if deleted then old(State()).Delete(matchId) else old(State())
    {
      if matchId !in payloads {
        return false;
      }
      payloads := payloads - {matchId};
      links := map p | p in links :: Without(links[p], matchId);
      return true;
    }
  }
}
