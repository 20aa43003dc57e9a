/** What becomes of the matches an interrupted profile run did not get to: when the next complete refresh picks
    them up, and that those it leaves out stay out for good. */
module ProfileGaps {
  import opened Options
  import opened MatchStore
  import opened ProfileSync
  import opened ProfileTheorems

  /** The linked ids are those of `front` and of `rest`, whatever upstream lists between them. */
  ghost predicate LinkedAround(s: Matches, puuid: Puuid, front: seq<MatchId>, rest: seq<MatchId>) {
    s.AllStored() && forall id :: id in s.LinksOf(puuid) <==> id in front || id in rest
  }

  /** How many of the `gap` ids behind `more` new and `front` linked ones a refresh comes to: those on the page
      that holds the first linked id. */
  function Reached(more: nat, front: nat, gap: nat): nat {
    if StopAfter(more) <= more + front then 0 else Min(StopAfter(more) - more - front, gap)
  }

  function FirstOf(ids: seq<MatchId>, n: int): seq<MatchId> {
    if n <= 0 then [] else ids[..Min(n, |ids|)]
  }

  lemma {:induction false} PrefixInParts(more: seq<MatchId>, front: seq<MatchId>, gap: seq<MatchId>,
                                         rest: seq<MatchId>, end: nat)
    requires |more| <= end <= |more + front + gap + rest|
    ensures (more + front + gap + rest)[..end]
            == more + FirstOf(front, end - |more|) + FirstOf(gap, end - |more| - |front|)
               + FirstOf(rest, end - |more| - |front| - |gap|)
  {
  }

  lemma {:induction false} PartsApart(more: seq<MatchId>, front: seq<MatchId>, gap: seq<MatchId>, rest: seq<MatchId>)
    requires Distinct(more + front + gap + rest)
    ensures Disjoint(more, front) && Disjoint(more, rest) && Disjoint(gap, front) && Disjoint(gap, rest)
    ensures Distinct(gap)
  {
    DistinctAppend(more + front + gap, rest);
    DistinctAppend(more + front, gap);
    DistinctAppend(more, front);
    assert forall id | id in more :: id in more + front + gap;
    assert forall id | id in gap :: id in more + front + gap;
    assert forall id | id in front :: id in more + front;
  }

  lemma {:induction false} GapReached(more: nat, front: nat, gap: seq<MatchId>, all: nat)
    requires more + front + |gap| <= all
    ensures FirstOf(gap, Min(StopAfter(more), all) - more - front) == gap[..Reached(more, front, |gap|)]
  {
    hide StopAfter;
  }

  predicate AllIn(ids: seq<MatchId>, known: set<MatchId>) {
    forall id | id in ids :: id in known
  }

  lemma {:induction false} UnknownOfParts(more: seq<MatchId>, front: seq<MatchId>, gap: seq<MatchId>,
                                          rest: seq<MatchId>, known: set<MatchId>)
    requires NoneKnown(more, known) && AllIn(front, known) && NoneKnown(gap, known) && AllIn(rest, known)
    ensures Unknown(more + front + gap + rest, known) == more + gap
  {
    AllUnknown(more, known);
    AllKnown(front, known);
    AllUnknown(gap, known);
    AllKnown(rest, known);
    hide *;
    UnknownInParts(more + front + gap, rest, known);
    UnknownInParts(more + front, gap, known);
    UnknownInParts(more, front, known);
    assert more + [] + gap + [] == more + gap;
  }

  lemma {:induction false} FirstOfMembers(ids: seq<MatchId>, n: int, known: set<MatchId>)
    ensures AllIn(ids, known) ==> AllIn(FirstOf(ids, n), known)
    ensures NoneKnown(ids, known) ==> NoneKnown(FirstOf(ids, n), known)
  {
  }

  /** Where the parts of the upstream list stand to the linked ids. */
  lemma {:induction false} PartsAndKnown(more: seq<MatchId>, front: seq<MatchId>, gap: seq<MatchId>,
                                         rest: seq<MatchId>, known: set<MatchId>)
    requires Distinct(more + front + gap + rest) && front != []
    requires forall id :: id in known <==> id in front || id in rest
    ensures NoneKnown(more, known) && AllIn(front, known) && NoneKnown(gap, known) && AllIn(rest, known)
    ensures FirstKnown(more + front + gap + rest, known, |more|)
  {
    PartsApart(more, front, gap, rest);
    hide Distinct;
    var ids := more + front + gap + rest;
    assert ids[..|more|] == more && ids[|more|] == front[0] && front[0] in front;
  }

  lemma {:induction false} MinFacts(x: nat, y: nat)
    ensures Min(x, y) == if x <= y then x else y
  {
  }

  /** What an unlimited run records: the new ids, and the part of the gap it comes to. */
  lemma {:induction false} RecordsOverGap(more: seq<MatchId>, front: seq<MatchId>, gap: seq<MatchId>,
                                          rest: seq<MatchId>, known: set<MatchId>)
    requires Distinct(more + front + gap + rest) && front != []
    requires forall id :: id in known <==> id in front || id in rest
    ensures Recorded(more + front + gap + rest, known, 0, Unlimited, [])
            == more + gap[..Reached(|more|, |front|, |gap|)]
  {
    hide *;
    var ids := more + front + gap + rest;
    var end := Min(StopAfter(|more|), |ids|);
    MinFacts(StopAfter(|more|), |ids|);
    PartsAndKnown(more, front, gap, rest, known);
    PagingStops(ids, known, |more|);
    assert ids[..0] == [];
    PrefixInParts(more, front, gap, rest, end);
    FirstOfMembers(front, end - |more|, known);
    FirstOfMembers(gap, end - |more| - |front|, known);
    FirstOfMembers(rest, end - |more| - |front| - |gap|, known);
    UnknownOfParts(more, FirstOf(front, end - |more|), FirstOf(gap, end - |more| - |front|),
      FirstOf(rest, end - |more| - |front| - |gap|), known);
    GapReached(|more|, |front|, gap, |ids|);
  }

  /** A complete refresh over a gap. */
  lemma {:induction false} RefreshOverGap(s0: Matches, up: Upstream, puuid: Puuid, s1: Matches, report: seq<MatchId>,
                                          more: seq<MatchId>, front: seq<MatchId>, gap: seq<MatchId>,
                                          rest: seq<MatchId>)
    requires Refreshed(s0, up, puuid, s1, report) && LinkedAround(s0, puuid, front, rest) && front != []
    requires up.ids == more + front + gap + rest && Distinct(up.ids)
    ensures LinkedAround(s1, puuid, more + front + gap[..Reached(|more|, |front|, |gap|)], rest)
  {
    var target := more + gap[..Reached(|more|, |front|, |gap|)];
    RecordsOverGap(more, front, gap, rest, KnownIds(s0, puuid));
    assert Target(up, KnownIds(s0, puuid), Unlimited, None) == target;
    RunLeavesConsistentStore(s0, up, puuid, Unlimited, None, s1, Finished, target, Missing(target, s0.payloads));
    hide Refreshed, Reached, Distinct, Target;
    ReverseMembers(target, s0.LinksOf(puuid));
  }

  lemma {:induction false} GapApart(more: seq<MatchId>, front: seq<MatchId>, gap: seq<MatchId>, rest: seq<MatchId>,
                                    d: nat)
    requires d <= |gap| && Distinct(more + front + gap + rest)
    ensures Disjoint(gap[d..], more + front + gap[..d]) && Disjoint(gap[d..], rest)
  {
    assert gap == gap[..d] + gap[d..];
    assert more + front + gap + rest == (more + front + gap[..d]) + gap[d..] + rest;
    DistinctAppend((more + front + gap[..d]) + gap[d..], rest);
    DistinctAppend(more + front + gap[..d], gap[d..]);
    assert forall id | id in gap[d..] :: id in (more + front + gap[..d]) + gap[d..];
  }

  /** The linked ids are those upstream lists exactly when the refresh came to the whole gap. */
  lemma {:induction false} GapClosedWhenReached(s1: Matches, puuid: Puuid, more: seq<MatchId>, front: seq<MatchId>,
                                                gap: seq<MatchId>, rest: seq<MatchId>, d: nat)
    requires d <= |gap| && LinkedAround(s1, puuid, more + front + gap[..d], rest)
    requires Distinct(more + front + gap + rest)
    ensures (forall id :: id in s1.LinksOf(puuid) <==> id in more + front + gap + rest) <==> d == |gap|
    ensures forall id | id in gap[d..] :: id !in s1.LinksOf(puuid)
  {
    var ids := more + front + gap + rest;
    GapApart(more, front, gap, rest, d);
    if d == |gap| {
      assert gap[..d] == gap;
    } else {
      assert gap[d] == gap[d..][0] && gap[d] in gap && gap[d] in ids;
    }
  }

  // After an interrupted run.

  /** A run on a store that has caught up, however it ends, leaves the ids it has processed linked and those
      behind them in a gap. */
  ghost predicate Interrupted(s0: Matches, up: Upstream, puuid: Puuid, added: seq<MatchId>, old_: seq<MatchId>,
                              after: Matches, ended: RunEnd, processed: seq<MatchId>, requested: seq<MatchId>) {
    && CaughtUp(s0, puuid, old_) && up.ids == added + old_
    && LeftBehind(s0, up, puuid, Target(up, KnownIds(s0, puuid), Unlimited, None), after, ended, processed, requested)
  }

  lemma {:induction false} InterruptedLeavesGap(s0: Matches, up: Upstream, puuid: Puuid, added: seq<MatchId>,
                                                old_: seq<MatchId>, after: Matches, ended: RunEnd,
                                                processed: seq<MatchId>, requested: seq<MatchId>)
    requires Interrupted(s0, up, puuid, added, old_, after, ended, processed, requested) && Distinct(up.ids)
    ensures processed <= added && LinkedAround(after, puuid, processed, old_)
  {
    PagingRecordsAllNew(added, old_, KnownIds(s0, puuid));
    assert Target(up, KnownIds(s0, puuid), Unlimited, None) == added;
    RunLeavesConsistentStore(s0, up, puuid, Unlimited, None, after, ended, processed, requested);
    hide Target;
    assert processed <= added;
    hide LeftBehind, StrictlyNewestFirst, Distinct;
    ReverseMembers(processed, s0.LinksOf(puuid));
  }

  lemma {:induction false} ReachesAll(more: nat, front: nat, gap: nat)
    ensures Reached(more, front, gap) <= gap
    ensures Reached(more, front, gap) == gap <==> gap == 0 || more + front + gap <= StopAfter(more)
    ensures Reached(more, front, gap) < gap ==> more + front + Reached(more, front, gap) >= MATCH_ID_PAGE_SIZE
  {
    hide StopAfter;
  }

  lemma {:induction false} NothingLinkedYet(s0: Matches, up: Upstream, puuid: Puuid, s1: Matches,
                                            report: seq<MatchId>, added: seq<MatchId>, old_: seq<MatchId>)
    requires Refreshed(s0, up, puuid, s1, report) && LinkedAround(s0, puuid, [], old_)
    requires up.ids == added + old_ && Distinct(up.ids)
    ensures forall id :: id in s1.LinksOf(puuid) <==> id in up.ids
  {
    RefreshLinks(s0, up, puuid, s1, report, added, old_);
    ReverseMembers(added, s0.LinksOf(puuid));
  }

  /** What is linked in front once a refresh has gone over the gap. */
  function FrontAfter(more: seq<MatchId>, front: seq<MatchId>, gap: seq<MatchId>): seq<MatchId> {
    more + front + gap[..Reached(|more|, |front|, |gap|)]
  }

  /** What it did not come to. */
  function LeftOut(more: seq<MatchId>, front: seq<MatchId>, gap: seq<MatchId>): seq<MatchId> {
    gap[Reached(|more|, |front|, |gap|)..]
  }

  lemma {:induction false} GapAfterRefresh(s0: Matches, up: Upstream, puuid: Puuid, s1: Matches, report: seq<MatchId>,
                                           more: seq<MatchId>, front: seq<MatchId>, gap: seq<MatchId>,
                                           rest: seq<MatchId>)
    requires Refreshed(s0, up, puuid, s1, report) && LinkedAround(s0, puuid, front, rest) && front != []
    requires up.ids == more + front + gap + rest && Distinct(up.ids)
    ensures LinkedAround(s1, puuid, FrontAfter(more, front, gap), rest)
    ensures (forall id :: id in s1.LinksOf(puuid) <==> id in up.ids)
            <==> gap == [] || |more| + |front| + |gap| <= StopAfter(|more|)
  {
    var d := Reached(|more|, |front|, |gap|);
    ReachesAll(|more|, |front|, |gap|);
    RefreshOverGap(s0, up, puuid, s1, report, more, front, gap, rest);
    hide Reached, LinkedAround, Refreshed, Distinct, StopAfter;
    GapClosedWhenReached(s1, puuid, more, front, gap, rest, d);
  }

  lemma {:induction false} IdsOfInterrupted(s0: Matches, up: Upstream, puuid: Puuid, added: seq<MatchId>,
                                            old_: seq<MatchId>, after: Matches, ended: RunEnd,
                                            processed: seq<MatchId>, requested: seq<MatchId>, more: seq<MatchId>)
    requires Interrupted(s0, up, puuid, added, old_, after, ended, processed, requested)
    requires Distinct(more + added + old_)
    ensures Distinct(up.ids)
  {
    assert more + added + old_ == more + (added + old_);
    DistinctAppend(more, added + old_);
  }

  lemma {:induction false} Regroup(more: seq<MatchId>, processed: seq<MatchId>, added: seq<MatchId>, old_: seq<MatchId>)
    requires processed <= added
    ensures more + added + old_ == more + processed + added[|processed|..] + old_
    ensures added[|processed|..] == [] <==> processed == added
  {
    assert added == processed + added[|processed|..];
  }

  /** After an interrupted run the next complete refresh makes up for it, with `more` matches played in between,
      exactly when the run had linked nothing or everything, or all it set out to link lies, counted from the
      latest match, before the end of the page that holds the first linked one. */
  lemma {:induction false} NextRefreshRecovers(
      s0: Matches, up: Upstream, puuid: Puuid, added: seq<MatchId>, old_: seq<MatchId>, after: Matches, ended: RunEnd,
      processed: seq<MatchId>, requested: seq<MatchId>, more: seq<MatchId>, up': Upstream, s1: Matches,
      report: seq<MatchId>)
    requires Interrupted(s0, up, puuid, added, old_, after, ended, processed, requested)
    requires up'.ids == more + added + old_ && Distinct(up'.ids) && Refreshed(after, up', puuid, s1, report)
    ensures (forall id :: id in s1.LinksOf(puuid) <==> id in up'.ids)
            <==> processed == [] || processed == added || |more| + |added| <= StopAfter(|more|)
    ensures processed <= added
    ensures processed != [] ==> LinkedAround(s1, puuid, FrontAfter(more, processed, added[|processed|..]), old_)
  {
    hide *;
    IdsOfInterrupted(s0, up, puuid, added, old_, after, ended, processed, requested, more);
    InterruptedLeavesGap(s0, up, puuid, added, old_, after, ended, processed, requested);
    Regroup(more, processed, added, old_);
    if processed == [] {
      NothingLinkedYet(after, up', puuid, s1, report, more + added, old_);
    } else {
      GapAfterRefresh(after, up', puuid, s1, report, more, processed, added[|processed|..], old_);
    }
  }

  // What a refresh leaves out stays out.

  function ListedBefore(ups: seq<Upstream>, base: seq<MatchId>, k: nat): seq<MatchId>
    requires k <= |ups|
  {
    if k == 0 then base else ups[k - 1].ids
  }

  /** Complete refreshes one after another, upstream having listed `base` before the first of them. */
  ghost predicate LaterRefreshes(states: seq<Matches>, ups: seq<Upstream>, reports: seq<seq<MatchId>>, puuid: Puuid,
                                 base: seq<MatchId>) {
    && |states| == |ups| + 1 && |reports| == |ups|
    && forall k | 0 <= k < |ups| ::
         && Refreshed(states[k], ups[k], puuid, states[k + 1], reports[k]) && Distinct(ups[k].ids)
         && GrownAtFront(ListedBefore(ups, base, k), ups[k].ids)
  }

  lemma {:induction false} LaterAt(states: seq<Matches>, ups: seq<Upstream>, reports: seq<seq<MatchId>>, puuid: Puuid,
                                   base: seq<MatchId>, k: nat)
    requires LaterRefreshes(states, ups, reports, puuid, base) && k < |ups|
    ensures |states| == |ups| + 1 && |reports| == |ups|
    ensures Refreshed(states[k], ups[k], puuid, states[k + 1], reports[k]) && Distinct(ups[k].ids)
    ensures GrownAtFront(ListedBefore(ups, base, k), ups[k].ids) && ListedBefore(ups, base, k + 1) == ups[k].ids
  {
    hide Refreshed, Distinct, GrownAtFront;
  }

  lemma {:induction false} NothingReached(more: seq<MatchId>, front: seq<MatchId>, gap: seq<MatchId>)
    requires |front| >= MATCH_ID_PAGE_SIZE
    ensures FrontAfter(more, front, gap) == more + front
  {
    assert more + front + gap[..0] == more + front;
  }

  lemma {:induction false} Regrouped(more: seq<MatchId>, front: seq<MatchId>, gap: seq<MatchId>, rest: seq<MatchId>)
    ensures more + (front + gap + rest) == more + front + gap + rest
  {
  }

  /** With at least a page of linked ids in front of it, a gap is never reached again. */
  lemma {:induction false} GapStays(states: seq<Matches>, ups: seq<Upstream>, reports: seq<seq<MatchId>>,
                                    puuid: Puuid, front: seq<MatchId>, gap: seq<MatchId>, rest: seq<MatchId>, k: nat)
    returns (front': seq<MatchId>)
    requires LaterRefreshes(states, ups, reports, puuid, front + gap + rest) && k <= |ups| < |states|
    requires LinkedAround(states[0], puuid, front, rest) && |front| >= MATCH_ID_PAGE_SIZE
    ensures |front'| >= MATCH_ID_PAGE_SIZE && ListedBefore(ups, front + gap + rest, k) == front' + gap + rest
    ensures LinkedAround(states[k], puuid, front', rest)
  {
    var base := front + gap + rest;
    if k == 0 {
      hide LinkedAround, LaterRefreshes;
      front' := front;
    } else {
      hide *;
      var before := GapStays(states, ups, reports, puuid, front, gap, rest, k - 1);
      LaterAt(states, ups, reports, puuid, base, k - 1);
      var more := FrontOf(ListedBefore(ups, base, k - 1), ups[k - 1].ids);
      Regrouped(more, before, gap, rest);
      GapAfterRefresh(states[k - 1], ups[k - 1], puuid, states[k], reports[k - 1], more, before, gap, rest);
      NothingReached(more, before, gap);
      front' := more + before;
    }
  }

  lemma {:induction false} LaterFromSecond(states: seq<Matches>, ups: seq<Upstream>, reports: seq<seq<MatchId>>,
                                           puuid: Puuid, base: seq<MatchId>)
    requires LaterRefreshes(states, ups, reports, puuid, base) && ups != []
    ensures LaterRefreshes(states[1..], ups[1..], reports[1..], puuid, ups[0].ids)
  {
    hide Refreshed, Distinct, GrownAtFront;
    forall k | 0 <= k < |ups| - 1
      ensures Refreshed(states[1..][k], ups[1..][k], puuid, states[1..][k + 1], reports[1..][k])
      ensures Distinct(ups[1..][k].ids) && GrownAtFront(ListedBefore(ups[1..], ups[0].ids, k), ups[1..][k].ids)
    {
      assert ListedBefore(ups[1..], ups[0].ids, k) == ListedBefore(ups, base, k + 1);
      assert GrownAtFront(ListedBefore(ups, base, k + 1), ups[k + 1].ids);
    }
  }

  lemma {:induction false} GapUnlinked(s: Matches, puuid: Puuid, front: seq<MatchId>, gap: seq<MatchId>,
                                       rest: seq<MatchId>)
    requires LinkedAround(s, puuid, front, rest) && Distinct(front + gap + rest)
    ensures forall id | id in gap :: id in front + gap + rest && id !in s.LinksOf(puuid)
  {
    assert [] + front + gap + rest == front + gap + rest;
    PartsApart([], front, gap, rest);
  }

  lemma {:induction false} LeavesOut(more: seq<MatchId>, front: seq<MatchId>, gap: seq<MatchId>, rest: seq<MatchId>)
    requires gap != [] && |more| + |front| + |gap| > StopAfter(|more|)
    ensures more + front + gap + rest == FrontAfter(more, front, gap) + LeftOut(more, front, gap) + rest
    ensures |FrontAfter(more, front, gap)| >= MATCH_ID_PAGE_SIZE && LeftOut(more, front, gap) != []
  {
    ReachesAll(|more|, |front|, |gap|);
    hide Reached, StopAfter;
    var d := Reached(|more|, |front|, |gap|);
    assert gap == gap[..d] + gap[d..];
  }

  lemma {:induction false} ListedFromSecond(ups: seq<Upstream>, base: seq<MatchId>, k: nat)
    requires 1 <= k <= |ups|
    ensures ListedBefore(ups[1..], ups[0].ids, k - 1) == ListedBefore(ups, base, k)
  {
  }

  /** When the next complete refresh does not make up for an interrupted run, no later one does: what it did not
      come to is never linked again by refreshes. */
  lemma {:induction false} LostForGood(
      s0: Matches, up: Upstream, puuid: Puuid, added: seq<MatchId>, old_: seq<MatchId>, after: Matches, ended: RunEnd,
      processed: seq<MatchId>, requested: seq<MatchId>, more: seq<MatchId>, states: seq<Matches>, ups: seq<Upstream>,
      reports: seq<seq<MatchId>>, k: nat)
    requires Interrupted(s0, up, puuid, added, old_, after, ended, processed, requested)
    requires processed != [] && processed != added && |more| + |added| > StopAfter(|more|)
    requires LaterRefreshes(states, ups, reports, puuid, added + old_) && states[0] == after && 1 <= k <= |ups|
    requires ups[0].ids == more + added + old_
    ensures |processed| <= |added|
    ensures var lost := LeftOut(more, processed, added[|processed|..]);
      lost != [] && forall id | id in lost :: id in ups[k - 1].ids && id !in states[k].LinksOf(puuid)
  {
    hide *;
    LaterAt(states, ups, reports, puuid, added + old_, 0);
    NextRefreshRecovers(s0, up, puuid, added, old_, after, ended, processed, requested, more, ups[0], states[1],
      reports[0]);
    var gap := added[|processed|..];
    var front, lost := FrontAfter(more, processed, gap), LeftOut(more, processed, gap);
    assert added == processed + gap && gap != [] && more + processed + gap + old_ == more + added + old_;
    LeavesOut(more, processed, gap, old_);
    LaterFromSecond(states, ups, reports, puuid, added + old_);
    var front' := GapStays(states[1..], ups[1..], reports[1..], puuid, front, lost, old_, k - 1);
    LaterAt(states, ups, reports, puuid, added + old_, k - 1);
    ListedFromSecond(ups, added + old_, k);
    GapUnlinked(states[k], puuid, front', lost, old_);
  }

  // The smallest example.

  const EMPTY_STORE: Matches := Matches(map[], map[])

  /** The store after a first run that is cancelled once the latest match is linked. */
  function AfterFirstMatch(ids: seq<MatchId>, up: Upstream, puuid: Puuid): Matches
    requires ids != [] && ids[0] in up.details
  {
    ProcessAll(EMPTY_STORE, up, puuid, [ids[0]])
  }

  lemma {:induction false} FirstMatchOnly(ids: seq<MatchId>, up: Upstream, puuid: Puuid)
    requires Distinct(ids) && ids != [] && ids[0] in up.details && up.ids == ids && AtReport(ids[0]) in up.cuts
    ensures Interrupted(EMPTY_STORE, up, puuid, ids, [], AfterFirstMatch(ids, up, puuid), CutAtReport, [ids[0]],
                        Missing([ids[0]], map[]))
  {
    NothingLinked(EMPTY_STORE, puuid);
    assert ids + [] == ids;
    PagingRecordsAllNew(ids, [], KnownIds(EMPTY_STORE, puuid));
    assert Target(up, KnownIds(EMPTY_STORE, puuid), Unlimited, None) == ids;
    hide Recorded, CaughtUp, ProcessAll;
    assert [ids[0]] <= ids;
  }

  lemma {:induction false} AllFetchable(s: Matches, up: Upstream, ids: seq<MatchId>)
    requires forall id | id in ids :: id in up.details
    ensures Fetchable(s, up, ids)
  {
    forall k | 0 <= k < |ids|
      ensures ids[k] in s.payloads || ids[k] in up.details
    {
      var id := ids[k];
      assert id in ids;
      assert id in up.details;
    }
  }

  lemma {:induction false} RefreshPossible(s0: Matches, up: Upstream, puuid: Puuid)
    returns (s1: Matches, report: seq<MatchId>)
    requires s0.AllStored() && forall id | id in Target(up, KnownIds(s0, puuid), Unlimited, None) :: id in up.details
    ensures Refreshed(s0, up, puuid, s1, report)
  {
    var target := Target(up, KnownIds(s0, puuid), Unlimited, None);
    AllFetchable(s0, up, target);
    hide Target, NewestFirst, Merge, Fetchable;
    s1, report := ProcessAll(s0, up, puuid, target), Merge(target + s0.History(puuid));
  }

  lemma {:induction false} TargetIsPart(up: Upstream, ids: seq<MatchId>, known: set<MatchId>, n: nat)
    requires up.ids == ids && 1 + n <= |ids| && Recorded(ids, known, 0, Unlimited, []) == [] + ids[1..][..n]
    ensures forall id | id in Target(up, known, Unlimited, None) :: id in ids
  {
    hide Recorded;
  }

  lemma {:induction false} LinkedInFront(s: Matches, puuid: Puuid, front: seq<MatchId>)
    requires LinkedAround(s, puuid, front, [])
    ensures forall id :: id in s.LinksOf(puuid) <==> id in front
  {
  }

  /** A player has more than a page of matches, and their first run is cancelled once the latest match is linked:
      the next complete refresh links the latest page of them and no more. */
  lemma {:induction false} OnlyTheLatestPage(ids: seq<MatchId>, up: Upstream, puuid: Puuid)
    returns (s1: Matches, report: seq<MatchId>)
    requires Distinct(ids) && |ids| > MATCH_ID_PAGE_SIZE && up.ids == ids && AtReport(ids[0]) in up.cuts
    requires forall id | id in ids :: id in up.details
    ensures Refreshed(AfterFirstMatch(ids, up, puuid), up, puuid, s1, report)
    ensures forall id :: id in s1.LinksOf(puuid) <==> id in ids[..MATCH_ID_PAGE_SIZE]
  {
    FirstMatchOnly(ids, up, puuid);
    var after, first, gap := AfterFirstMatch(ids, up, puuid), [ids[0]], ids[1..];
    InterruptedLeavesGap(EMPTY_STORE, up, puuid, ids, [], after, CutAtReport, first, Missing(first, map[]));
    assert ids == [] + first + gap + [] && StopAfter(0) == MATCH_ID_PAGE_SIZE;
    assert Reached(0, 1, |gap|) == MATCH_ID_PAGE_SIZE - 1;
    assert ids[..MATCH_ID_PAGE_SIZE] == [] + first + gap[..MATCH_ID_PAGE_SIZE - 1];
    assert forall id :: id in KnownIds(after, puuid) <==> id in first || id in [];
    hide *;
    RecordsOverGap([], first, gap, [], KnownIds(after, puuid));
    TargetIsPart(up, ids, KnownIds(after, puuid), MATCH_ID_PAGE_SIZE - 1);
    s1, report := RefreshPossible(after, up, puuid);
    RefreshOverGap(after, up, puuid, s1, report, [], first, gap, []);
    LinkedInFront(s1, puuid, ids[..MATCH_ID_PAGE_SIZE]);
  }
}
