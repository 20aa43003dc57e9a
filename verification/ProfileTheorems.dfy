/** What a profile run leaves in the store, wherever it stops, and what a succession of complete
    refreshes keeps. */
module ProfileTheorems {
  import opened Options
  import opened MatchStore
  import opened ProfileSync

  function Reverse(ids: seq<MatchId>): seq<MatchId> {
    if ids == [] then [] else [ids[|ids| - 1]] + Reverse(ids[..|ids| - 1])
  }

  lemma {:induction false} ReverseNext(init: seq<MatchId>, last: MatchId, links: seq<MatchId>)
    ensures Reverse(init + [last]) + links == [last] + (Reverse(init) + links)
  {
    assert (init + [last])[..|init|] == init;
  }

  lemma {:induction false} SameMembers(a: seq<MatchId>, b: seq<MatchId>)
    requires multiset(a) == multiset(b)
    ensures forall id :: id in a <==> id in b
  {
    forall id: MatchId
      ensures id in a <==> id in b
    {
      assert id in a <==> id in multiset(a);
      assert id in b <==> id in multiset(b);
    }
  }

  lemma {:induction false} ReverseMembers(ids: seq<MatchId>, links: seq<MatchId>)
    ensures forall id :: id in Reverse(ids) <==> id in ids
    ensures forall id :: id in Reverse(ids) + links <==> id in ids || id in links
  {
    if ids != [] {
      var init, last := ids[..|ids| - 1], ids[|ids| - 1];
      ReverseMembers(init, links);
      assert ids == init + [last];
      assert forall id :: id in Reverse(ids) <==> id == last || id in Reverse(init);
    }
  }

  // ---- One run, wherever it stops ----

  lemma {:induction false} DistinctAppend(a: seq<MatchId>, b: seq<MatchId>)
    ensures Distinct(a + b) <==> Distinct(a) && Distinct(b) && Disjoint(b, a)
  {
    var both := a + b;
    assert forall j | 0 <= j < |a| :: both[j] == a[j];
    assert forall j | 0 <= j < |b| :: both[|a| + j] == b[j];
    if Distinct(a) && Distinct(b) && Disjoint(b, a) {
      forall j, k | 0 <= j < k < |both|
        ensures both[j] != both[k]
      {
        if j < |a| <= k {
          assert b[k - |a|] in b && a[j] in a;
        } else if j >= |a| {
          assert b[j - |a|] != b[k - |a|];
        }
      }
    }
    if Distinct(both) {
      forall id | id in b
        ensures id !in a
      {
        var k :| 0 <= k < |b| && b[k] == id;
        assert forall j | 0 <= j < |a| :: both[j] != both[|a| + k];
      }
    }
  }

  lemma {:induction false} RecordedFacts(ids: seq<MatchId>, known: set<MatchId>, start: nat, remaining: Quota,
                                         seen: seq<MatchId>)
    requires Distinct(seen) && NoneKnown(seen, known)
    ensures Distinct(Recorded(ids, known, start, remaining, seen))
            && NoneKnown(Recorded(ids, known, start, remaining, seen), known)
    decreases if start <= |ids| then |ids| - start else 0
  {
    if remaining != AtMost(0) {
      var page := Page(ids, start, PageCount(remaining));
      NewOnPageFacts(page, seen, known);
      var sofar := seen + NewOnPage(page, seen, known);
      DistinctAppend(seen, NewOnPage(page, seen, known));
      if !ReachesKnown(page, known) && |page| == PageCount(remaining) {
        RecordedFacts(ids, known, start + |page|, remaining.Less(|page|), sofar);
      }
    }
  }

  /** The ids a run sets out to record are pairwise different and none of them is linked yet. */
  lemma {:induction false} TargetFacts(s: Matches, up: Upstream, puuid: Puuid, quota: Quota,
                                       seeded: Option<seq<MatchId>>)
    ensures Distinct(Target(up, KnownIds(s, puuid), quota, seeded))
    ensures Disjoint(Target(up, KnownIds(s, puuid), quota, seeded), s.LinksOf(puuid))
  {
    hide Recorded, NewOnPage;
    if seeded.Some? {
      NewOnPageFacts(seeded.value, [], KnownIds(s, puuid));
    } else {
      RecordedFacts(up.ids, KnownIds(s, puuid), 0, quota, []);
    }
  }

  lemma {:induction false} LastIsUnlinked(init: seq<MatchId>, last: MatchId, links: seq<MatchId>)
    requires Distinct(init + [last]) && Disjoint(init + [last], links)
    ensures Distinct(init) && Disjoint(init, links)
    ensures last !in Reverse(init) + links
  {
    DistinctAppend(init, [last]);
    ReverseMembers(init, links);
    assert last in [last] && last in init + [last];
    assert forall id | id in init :: id in init + [last];
  }

  lemma {:induction false} LinkOne(s: Matches, puuid: Puuid, id: MatchId)
    requires id !in s.LinksOf(puuid)
    ensures s.Link(puuid, [id]).LinksOf(puuid) == [id] + s.LinksOf(puuid)
    ensures forall p | p != puuid :: s.Link(puuid, [id]).LinksOf(p) == s.LinksOf(p)
  {
    assert [id][1..] == [];
    assert Unlinked([id], s.LinksOf(puuid)) == [id];
  }

  lemma {:induction false} SaveKeepsLinks(s: Matches, id: MatchId, payload: Payload)
    ensures forall p :: s.Save(id, payload).LinksOf(p) == s.LinksOf(p)
  {
  }

  lemma {:induction false} ProcessedLinks(s: Matches, up: Upstream, puuid: Puuid, ids: seq<MatchId>)
    requires Fetchable(s, up, ids) && Distinct(ids) && Disjoint(ids, s.LinksOf(puuid))
    ensures ProcessAll(s, up, puuid, ids).LinksOf(puuid) == Reverse(ids) + s.LinksOf(puuid)
    ensures forall p | p != puuid :: ProcessAll(s, up, puuid, ids).LinksOf(p) == s.LinksOf(p)
  {
    if ids != [] {
      var init, last := ids[..|ids| - 1], ids[|ids| - 1];
      assert ids == init + [last];
      ReverseNext(init, last, s.LinksOf(puuid));
      LastIsUnlinked(init, last, s.LinksOf(puuid));
      ProcessedLinks(s, up, puuid, init);
      ProcessNext(s, up, puuid, init, last);
      hide *;
      var before := ProcessAll(s, up, puuid, init);
      if last in s.payloads {
        LinkOne(before, puuid, last);
      } else {
        SaveKeepsLinks(before, last, up.details[last]);
        LinkOne(before.Save(last, up.details[last]), puuid, last);
      }
    }
  }
  lemma {:induction false} MissingFacts(ids: seq<MatchId>, payloads: map<MatchId, Payload>)
    requires Distinct(ids)
    ensures Distinct(Missing(ids, payloads))
    ensures forall id :: id in Missing(ids, payloads) <==> id in ids && id !in payloads
  {
    if ids != [] {
      var init, last := ids[..|ids| - 1], ids[|ids| - 1];
      MissingFacts(init, payloads);
      assert ids == init + [last];
    }
  }

  /** The payload of the next id is the only thing a run may leave that its links do not mention. */
  lemma {:induction false} OneMorePayload(s0: Matches, up: Upstream, puuid: Puuid, target: seq<MatchId>,
                                          after: Matches, ended: RunEnd, processed: seq<MatchId>,
                                          requested: seq<MatchId>)
    requires LeftBehind(s0, up, puuid, target, after, ended, processed, requested)
    ensures Fetchable(s0, up, processed)
    ensures var before := ProcessAll(s0, up, puuid, processed);
      && after.links == before.links
      && (forall id | id in before.payloads :: id in after.payloads && after.payloads[id] == before.payloads[id])
      && (forall id | id in after.payloads && id !in before.payloads && id !in s0.payloads ::
            ended.CutAtLink? && |processed| < |target| && id == target[|processed|] && id in up.details
            && up.details[id] == after.payloads[id])
  {
    hide ProcessAll, Missing, Fetchable;
  }

  /** The details asked for are the absent ones among the processed ids and, if the run stopped at it, the
      next id. */
  lemma {:induction false} AskedOnce(s0: Matches, up: Upstream, puuid: Puuid, target: seq<MatchId>, after: Matches,
                                     ended: RunEnd, processed: seq<MatchId>, requested: seq<MatchId>)
    requires LeftBehind(s0, up, puuid, target, after, ended, processed, requested) && Distinct(target)
    ensures Distinct(requested) && forall id | id in requested :: id !in s0.payloads && id in target
  {
    hide ProcessAll, Missing, Fetchable;
    assert forall k | 0 <= k < |processed| :: processed[k] == target[k];
    MissingFacts(processed, s0.payloads);
    if |processed| < |target| {
      var next := target[|processed|];
      assert next !in processed;
      DistinctAppend(processed, [next]);
      MissingFacts(processed + [next], s0.payloads);
    }
  }

  lemma {:induction false} StillStored(s0: Matches, puuid: Puuid, processed: seq<MatchId>, after: Matches)
    requires s0.AllStored()
    requires after.LinksOf(puuid) == Reverse(processed) + s0.LinksOf(puuid)
    requires forall p | p != puuid :: after.LinksOf(p) == s0.LinksOf(p)
    requires forall id | id in s0.payloads || id in processed :: id in after.payloads
    ensures after.AllStored()
  {
    ReverseMembers(processed, s0.LinksOf(puuid));
    hide Reverse;
    forall p, id | p in after.links && id in after.links[p]
      ensures id in after.payloads
    {
      assert id in after.LinksOf(p);
      if p == puuid {
        assert id in processed || id in s0.LinksOf(puuid);
      }
    }
  }

  /** Wherever a run stops, cut short or not: the player's links are the processed ids, latest first, on top
      of the links from before; no other player's links change; every linked id has a payload; no stored
      payload changes; a new payload belongs to a processed id or, when the run was cut between saving and
      linking, to the next one; and each detail asked for was absent and is asked for once. */
  lemma {:induction false} RunLeavesConsistentStore(s0: Matches, up: Upstream, puuid: Puuid, quota: Quota,
                                                    seeded: Option<seq<MatchId>>, after: Matches, ended: RunEnd,
                                                    processed: seq<MatchId>, requested: seq<MatchId>)
    requires s0.AllStored()
    requires LeftBehind(s0, up, puuid, Target(up, KnownIds(s0, puuid), quota, seeded), after, ended,
                        processed, requested)
    ensures after.LinksOf(puuid) == Reverse(processed) + s0.LinksOf(puuid)
    ensures forall p | p != puuid :: after.LinksOf(p) == s0.LinksOf(p)
    ensures after.AllStored()
    ensures forall id | id in s0.payloads :: id in after.payloads && after.payloads[id] == s0.payloads[id]
    ensures var target := Target(up, KnownIds(s0, puuid), quota, seeded);
      forall id | id in after.payloads && id !in s0.payloads ::
        && (id in processed || (ended.CutAtLink? && |processed| < |target| && id == target[|processed|]))
        && id in up.details && up.details[id] == after.payloads[id]
    ensures Distinct(requested) && forall id | id in requested :: id !in s0.payloads
  {
    var target := Target(up, KnownIds(s0, puuid), quota, seeded);
    TargetFacts(s0, up, puuid, quota, seeded);
    OneMorePayload(s0, up, puuid, target, after, ended, processed, requested);
    AskedOnce(s0, up, puuid, target, after, ended, processed, requested);
    assert processed <= target;
    assert forall k | 0 <= k < |processed| :: processed[k] == target[k];
    ProcessedLinks(s0, up, puuid, processed);
    ProcessedPayloads(s0, up, puuid, processed);
    var before := ProcessAll(s0, up, puuid, processed);
    assert forall p :: after.LinksOf(p) == before.LinksOf(p);
    hide *;
    StillStored(s0, puuid, processed, after);
  }

  // ---- Stopping at the first page with a linked id ----

  /** The ids of a list that are not linked yet. */
  function Unknown(ids: seq<MatchId>, known: set<MatchId>): seq<MatchId> {
    if ids == [] then []
    else
      var before, last := Unknown(ids[..|ids| - 1], known), ids[|ids| - 1];
      if last in known then before else before + [last]
  }

  lemma {:induction false} UnknownInParts(a: seq<MatchId>, b: seq<MatchId>, known: set<MatchId>)
    ensures Unknown(a + b, known) == Unknown(a, known) + Unknown(b, known)
  {
    if b == [] {
      assert a + b == a;
    } else {
      assert (a + b)[..|a + b| - 1] == a + b[..|b| - 1];
      UnknownInParts(a, b[..|b| - 1], known);
    }
  }

  lemma {:induction false} AllUnknown(ids: seq<MatchId>, known: set<MatchId>)
    requires NoneKnown(ids, known)
    ensures Unknown(ids, known) == ids
  {
    if ids != [] {
      var init := ids[..|ids| - 1];
      assert ids == init + [ids[|ids| - 1]];
      AllUnknown(init, known);
    }
  }

  lemma {:induction false} AllKnown(ids: seq<MatchId>, known: set<MatchId>)
    requires forall id | id in ids :: id in known
    ensures Unknown(ids, known) == []
  {
    if ids != [] {
      assert ids == ids[..|ids| - 1] + [ids[|ids| - 1]];
      AllKnown(ids[..|ids| - 1], known);
    }
  }

  /** On a page of ids not seen before, the new ones are those not linked yet. */
  lemma {:induction false} NewIsUnknown(page: seq<MatchId>, n: nat, seen: seq<MatchId>, known: set<MatchId>)
    requires n <= |page| && Distinct(page) && Disjoint(page, seen)
    ensures NewAmongFirst(page, n, seen, known) == Unknown(page[..n], known)
  {
    if n > 0 {
      NewIsUnknown(page, n - 1, seen, known);
      NewAmongFirstFacts(page, n - 1, seen, known);
      assert page[..n][..n - 1] == page[..n - 1];
      assert page[n - 1] in page && forall k | 0 <= k < n - 1 :: page[k] != page[n - 1];
    }
  }

  /** Where the page ends that holds the id at place `f`. */
  function StopAfter(f: nat): (end: nat)
    ensures f < end <= f + MATCH_ID_PAGE_SIZE && end >= MATCH_ID_PAGE_SIZE
  {
    (f / MATCH_ID_PAGE_SIZE + 1) * MATCH_ID_PAGE_SIZE
  }

  lemma {:induction false} StopWithinPage(pages: nat, f: nat)
    requires pages * MATCH_ID_PAGE_SIZE <= f
    ensures f < (pages + 1) * MATCH_ID_PAGE_SIZE <==> StopAfter(f) == (pages + 1) * MATCH_ID_PAGE_SIZE
  {
  }

  lemma {:induction false} PageOfUnseen(ids: seq<MatchId>, start: nat, end: nat)
    requires Distinct(ids) && start <= end <= |ids|
    ensures Distinct(ids[start..end]) && Disjoint(ids[start..end], ids[..start])
  {
    assert ids[..end] == ids[..start] + ids[start..end];
    assert Distinct(ids[..end]);
    DistinctAppend(ids[..start], ids[start..end]);
  }

  lemma {:induction false} OnePage(ids: seq<MatchId>, known: set<MatchId>, start: nat, end: nat)
    requires Distinct(ids) && start <= end <= |ids| && NoneKnown(ids[..start], known)
    ensures ids[..start] + NewOnPage(ids[start..end], ids[..start], known) == Unknown(ids[..end], known)
  {
    var page, seen := ids[start..end], ids[..start];
    PageOfUnseen(ids, start, end);
    NewIsUnknown(page, |page|, seen, known);
    AllUnknown(seen, known);
    UnknownInParts(seen, page, known);
    hide NewAmongFirst, Unknown, Distinct, Disjoint, NoneKnown;
    assert page[..|page|] == page && ids[..end] == seen + page;
  }

  /** The first linked id is at place `f`, or there is none and `f` is the length of the list. */
  ghost predicate FirstKnown(ids: seq<MatchId>, known: set<MatchId>, f: nat) {
    f <= |ids| && NoneKnown(ids[..f], known) && (f < |ids| ==> ids[f] in known)
  }

  lemma {:induction false} SeesFirstKnown(ids: seq<MatchId>, known: set<MatchId>, f: nat, start: nat, end: nat)
    requires FirstKnown(ids, known, f) && start <= end <= |ids| && start <= f
    ensures NoneKnown(ids[..start], known)
    ensures ReachesKnown(ids[start..end], known) <==> f < end
    ensures end <= f ==> NoneKnown(ids[..end], known)
  {
    var page := ids[start..end];
    assert forall k | 0 <= k < f :: ids[k] == ids[..f][k];
    assert forall k | 0 <= k < |page| :: page[k] == ids[start + k];
    if f < end {
      assert page[f - start] in known;
    }
  }

  lemma {:induction false} RecordedNext(ids: seq<MatchId>, known: set<MatchId>, start: nat, remaining: Quota,
                                        seen: seq<MatchId>)
    ensures remaining == AtMost(0) ==> Recorded(ids, known, start, remaining, seen) == seen
    ensures remaining != AtMost(0) ==>
      var count := if remaining.Unlimited? then 100 else Min(100, remaining.left);
      var page := Page(ids, start, count);
      var sofar := seen + NewOnPage(page, seen, known);
      Recorded(ids, known, start, remaining, seen)
      == if ReachesKnown(page, known) || |page| < count then sofar
         else
           Recorded(ids, known, start + count,
                    if remaining.Unlimited? then Unlimited else AtMost(remaining.left - count), sofar)
  {
    hide NewOnPage, ReachesKnown;
  }

  /** How far a run gets: to the end of the page with the first linked id, to the end of the list, or as far as it
      is allowed to. */
  function RunsTo(size: nat, f: nat, start: nat, remaining: Quota): nat {
    var end := Min(StopAfter(f), size);
    if remaining.Unlimited? then end else Min(start + remaining.left, end)
  }

  /** From any page before the first linked id on, a run records every unlinked id as far as it gets. */
  lemma {:induction false} PagesRecorded(ids: seq<MatchId>, known: set<MatchId>, f: nat, pages: nat, remaining: Quota)
    requires Distinct(ids) && pages * MATCH_ID_PAGE_SIZE <= f && FirstKnown(ids, known, f)
    ensures var start := pages * MATCH_ID_PAGE_SIZE;
      Recorded(ids, known, start, remaining, ids[..start])
      == Unknown(ids[..RunsTo(|ids|, f, start, remaining)], known)
    decreases |ids| - pages * MATCH_ID_PAGE_SIZE
  {
    hide NewOnPage, ReachesKnown, NoneKnown, Unknown, Distinct, Recorded;
    var start := pages * MATCH_ID_PAGE_SIZE;
    RecordedNext(ids, known, start, remaining, ids[..start]);
    StopWithinPage(pages, f);
    if remaining == AtMost(0) {
      SeesFirstKnown(ids, known, f, start, start);
      AllUnknown(ids[..start], known);
    } else {
      var count := if remaining.Unlimited? then 100 else Min(100, remaining.left);
      var end := Min(start + count, |ids|);
      assert Page(ids, start, count) == ids[start..end];
      SeesFirstKnown(ids, known, f, start, end);
      OnePage(ids, known, start, end);
      hide Page, FirstKnown;
      if f >= end && end == start + count {
        AllUnknown(ids[..end], known);
        if count == 100 {
          var left := if remaining.Unlimited? then Unlimited else AtMost(remaining.left - 100);
          PagesRecorded(ids, known, f, pages + 1, left);
        } else {
          RecordedNext(ids, known, end, AtMost(0), ids[..end]);
        }
      }
    }
  }

  /** A run that finishes has recorded exactly the unlinked ids, in upstream order, among those up to the end of the
      100-id page with the first linked one, and with a limit among the first that many: with nothing linked, the
      first ids up to the limit. */
  lemma {:induction false} FinishedRunRecords(s0: Matches, up: Upstream, puuid: Puuid, quota: Quota, f: nat,
                                              after: Matches, processed: seq<MatchId>, requested: seq<MatchId>)
    requires Distinct(up.ids) && FirstKnown(up.ids, KnownIds(s0, puuid), f)
    requires LeftBehind(s0, up, puuid, Target(up, KnownIds(s0, puuid), quota, None), after, Finished, processed,
                        requested)
    ensures var end := Min((f / 100 + 1) * 100, |up.ids|);
      var n := if quota.Unlimited? then end else Min(quota.left, end);
      && processed == Unknown(up.ids[..n], KnownIds(s0, puuid))
      && (s0.LinksOf(puuid) == [] ==>
            processed == up.ids[..if quota.Unlimited? then |up.ids| else Min(quota.left, |up.ids|)])
  {
    assert up.ids[..0] == [];
    FinishedMeansAll(s0, up, puuid, Target(up, KnownIds(s0, puuid), quota, None), after, processed, requested);
    PagesRecorded(up.ids, KnownIds(s0, puuid), f, 0, quota);
    if s0.LinksOf(puuid) == [] {
      assert KnownIds(s0, puuid) == {} && f == |up.ids|;
      AllUnknown(processed, {});
      AllUnknown(up.ids[..RunsTo(|up.ids|, f, 0, quota)], {});
    }
  }

  /** A page that is full and without a linked id adds all its ids. */
  lemma {:induction false} FullPageAdds(ids: seq<MatchId>, known: set<MatchId>, start: nat, count: nat)
    requires Distinct(ids) && start + count <= |ids| && NoneKnown(ids[..start], known)
    requires !ReachesKnown(ids[start..start + count], known)
    ensures NoneKnown(ids[..start + count], known)
    ensures ids[..start] + NewOnPage(ids[start..start + count], ids[..start], known) == ids[..start + count]
  {
    var end := start + count;
    var page := ids[start..end];
    OnePage(ids, known, start, end);
    forall id | id in ids[..end]
      ensures id !in known
    {
      var k :| 0 <= k < end && ids[..end][k] == id;
      if k < start {
        assert ids[..start][k] == id && id in ids[..start];
      } else {
        assert page[k - start] == id;
      }
    }
    AllUnknown(ids[..end], known);
  }

  lemma {:induction false} PageIsSlice(ids: seq<MatchId>, start: nat, count: nat)
    requires start <= |ids|
    ensures var page := Page(ids, start, count);
      |page| == count ==> start + count <= |ids| && page == ids[start..start + count]
  {
  }

  lemma {:induction false} ArrivesWithAllBefore(ids: seq<MatchId>, known: set<MatchId>, pages: nat, remaining: Quota,
                                                at: nat)
    requires var start := pages * MATCH_ID_PAGE_SIZE;
      && Distinct(ids) && start <= |ids| && NoneKnown(ids[..start], known)
      && ArrivesWith(ids, known, start, remaining, ids[..start], at).Some?
    ensures at <= |ids| && at % 100 == 0 && NoneKnown(ids[..at], known)
    ensures ArrivesWith(ids, known, pages * MATCH_ID_PAGE_SIZE, remaining, ids[..pages * MATCH_ID_PAGE_SIZE], at)
            == Some(ids[..at])
    ensures remaining.AtMost? ==> at < pages * MATCH_ID_PAGE_SIZE + remaining.left
    decreases |ids| - pages * MATCH_ID_PAGE_SIZE
  {
    hide NewOnPage, ReachesKnown, NoneKnown, Distinct, Page;
    var start, count := pages * MATCH_ID_PAGE_SIZE, PageCount(remaining);
    if start != at {
      var page := Page(ids, start, count);
      PageIsSlice(ids, start, count);
      FullPageAdds(ids, known, start, count);
      assert count == 100;
      ArrivesWithAllBefore(ids, known, pages + 1, remaining.Less(count), at);
    }
  }

  /** A run that ends at the request or the recording of a page has processed exactly the ids in front of that page, all
      of them new, and the page is one of its 100-id pages where it may end like this, within its limit. */
  lemma {:induction false} PageEndRecords(up: Upstream, known: set<MatchId>, quota: Quota, ended: RunEnd,
                                          processed: seq<MatchId>, at: nat)
    requires Distinct(up.ids) && (ended.PageFailed? || ended.CutAtPage?)
    requires EndsAtPage(up, known, quota, ended, processed, at)
    ensures at <= |up.ids| && at % 100 == 0 && (quota.AtMost? ==> at < quota.left)
    ensures processed == up.ids[..at] && NoneKnown(processed, known)
    ensures if ended.PageFailed? then at in up.failingPages else AtPage(at) in up.cuts
  {
    assert up.ids[..0] == [];
    ArrivesWithAllBefore(up.ids, known, 0, quota, at);
  }

  /** An unlimited run records every unlinked id up to the end of the page that holds the first linked one. */
  lemma {:induction false} PagingStops(ids: seq<MatchId>, known: set<MatchId>, f: nat)
    requires Distinct(ids) && FirstKnown(ids, known, f)
    ensures Recorded(ids, known, 0, Unlimited, []) == Unknown(ids[..Min(StopAfter(f), |ids|)], known)
  {
    assert ids[..0] == [];
    PagesRecorded(ids, known, f, 0, Unlimited);
  }

  /** Against a list of new ids in front of the linked ones, paging records all the new ones. */
  lemma {:induction false} PagingRecordsAllNew(added: seq<MatchId>, old_: seq<MatchId>, known: set<MatchId>)
    requires Distinct(added + old_) && forall id :: id in known <==> id in old_
    ensures Recorded(added + old_, known, 0, Unlimited, []) == added
  {
    var ids := added + old_;
    DistinctAppend(added, old_);
    var end := Min(StopAfter(|added|), |ids|);
    assert ids[..|added|] == added && (old_ != [] ==> ids[|added|] == old_[0]);
    PagingStops(ids, known, |added|);
    assert ids[..end] == added + old_[..end - |added|];
    UnknownInParts(added, old_[..end - |added|], known);
    AllUnknown(added, known);
    AllKnown(old_[..end - |added|], known);
  }

  // ---- The order of the history ----

  /** An id lands between `front` and `back` exactly when all of `front` is strictly newer and the
      head of `back` is not. */
  lemma {:induction false} InsertLandsBetween(payloads: map<MatchId, Payload>, id: MatchId, sorted: seq<MatchId>,
                                              front: seq<MatchId>, back: seq<MatchId>)
    requires id in payloads && (forall other | other in sorted :: other in payloads)
    requires id !in sorted && id !in front
    ensures InsertByAge(payloads, id, sorted) == front + [id] + back
            <==> sorted == front + back && NewerAhead(payloads, id, sorted, 0) == |front|
  {
    hide NewerAhead;
    var p := NewerAhead(payloads, id, sorted, 0);
    var left, right := sorted[..p] + [id] + sorted[p..], front + [id] + back;
    assert left[p] == id && right[|front|] == id;
    assert p < |front| ==> right[p] == front[p];
    assert p > |front| ==> left[|front|] == sorted[|front|];
    if left == right {
      assert sorted[..p] == left[..p] == right[..p] == front;
      assert sorted[p..] == left[p + 1..] == right[p + 1..] == back;
      assert sorted == sorted[..p] + sorted[p..];
    }
  }

  predicate NewestToOldest(payloads: map<MatchId, Payload>, added: seq<MatchId>, links: seq<MatchId>)
    requires forall id | id in added || id in links :: id in payloads
  {
    && (forall j, k | 0 <= j < k < |added| :: Newer(payloads, added[j], added[k]))
    && (forall j, id | 0 <= j < |added| && id in links :: !Newer(payloads, id, added[j]))
  }

  /** In a list in age order the head is not strictly newer than a match only if nothing is. */
  lemma {:induction false} HeadDecides(payloads: map<MatchId, Payload>, sorted: seq<MatchId>, links: seq<MatchId>,
                                       id: MatchId)
    requires id in payloads && (forall other | other in links :: other in payloads)
    requires sorted == NewestFirst(payloads, links)
    ensures (sorted != [] ==> !Newer(payloads, sorted[0], id))
            <==> forall other | other in links :: !Newer(payloads, other, id)
  {
    HistoryInAgeOrder(payloads, links);
    hide NewestFirst;
    SameMembers(sorted, links);
    if sorted != [] && !Newer(payloads, sorted[0], id) {
      forall other | other in links
        ensures !Newer(payloads, other, id)
      {
        var k :| 0 <= k < |sorted| && sorted[k] == other;
        assert k > 0 ==> !Newer(payloads, sorted[k], sorted[0]);
      }
    }
  }

  lemma {:induction false} FirstLinkIsInserted(payloads: map<MatchId, Payload>, first: MatchId, rest: seq<MatchId>)
    requires first in payloads && forall id | id in rest :: id in payloads
    ensures forall id | id in [first] + rest :: id in payloads
    ensures NewestFirst(payloads, [first] + rest) == InsertByAge(payloads, first, NewestFirst(payloads, rest))
  {
    assert ([first] + rest)[1..] == rest;
  }

  lemma {:induction false} NewestToOldestNext(payloads: map<MatchId, Payload>, init: seq<MatchId>, last: MatchId,
                                              links: seq<MatchId>)
    requires forall id | id in init + [last] || id in links :: id in payloads
    ensures last in payloads && (forall id | id in init :: id in payloads)
    ensures NewestToOldest(payloads, init + [last], links)
            <==> && NewestToOldest(payloads, init, links)
                 && (forall k | 0 <= k < |init| :: Newer(payloads, init[k], last))
                 && (forall other | other in links :: !Newer(payloads, other, last))
  {
    var all := init + [last];
    assert all[|init|] == last && last in all;
    assert forall k | 0 <= k < |init| :: all[k] == init[k];
    assert forall id | id in init :: id in all;
  }

  lemma {:induction false} AheadIsFront(payloads: map<MatchId, Payload>, id: MatchId, front: seq<MatchId>,
                                        back: seq<MatchId>)
    requires id in payloads && (forall other | other in front + back :: other in payloads)
    ensures (forall k | 0 <= k < |front| :: front[k] in payloads) && (back != [] ==> back[0] in payloads)
    ensures NewerAhead(payloads, id, front + back, 0) == |front|
            <==> (forall k | 0 <= k < |front| :: Newer(payloads, front[k], id))
                 && (back != [] ==> !Newer(payloads, back[0], id))
  {
    hide NewerAhead;
    var all, p := front + back, NewerAhead(payloads, id, front + back, 0);
    assert forall k | 0 <= k < |front| :: all[k] == front[k] && all[k] in all;
    assert back != [] ==> all[|front|] == back[0] && all[|front|] in all;
  }

  lemma {:induction false} LastInOrder(payloads: map<MatchId, Payload>, init: seq<MatchId>, last: MatchId,
                                       links: seq<MatchId>, before: seq<MatchId>, old_: seq<MatchId>)
    requires forall id | id in init + [last] || id in links :: id in payloads
    requires Distinct(init + [last]) && Disjoint(init + [last], links)
    requires forall id | id in Reverse(init) + links :: id in payloads
    requires before == NewestFirst(payloads, Reverse(init) + links) && old_ == NewestFirst(payloads, links)
    requires before == init + old_ <==> NewestToOldest(payloads, init, links)
    ensures InsertByAge(payloads, last, before) == (init + [last]) + old_
            <==> NewestToOldest(payloads, init + [last], links)
  {
    assert last !in before && last !in init by {
      SameMembers(before, Reverse(init) + links);
      ReverseMembers(init, links);
      LastIsUnlinked(init, last, links);
    }
    HeadDecides(payloads, old_, links, last);
    NewestToOldestNext(payloads, init, last, links);
    hide NewestFirst, InsertByAge, NewestToOldest, Reverse, Distinct, Disjoint;
    InsertLandsBetween(payloads, last, before, init, old_);
    if before == init + old_ {
      AheadIsFront(payloads, last, init, old_);
    }
  }

  /** A refresh that puts new links in front of `links` leaves the history in the order "new ids
      first, as listed, then the old history" exactly when each new match is strictly newer than
      the next and none is older than an old one. */
  lemma {:induction false} HistoryOrder(payloads: map<MatchId, Payload>, added: seq<MatchId>, links: seq<MatchId>)
    requires forall id | id in added || id in links :: id in payloads
    requires Distinct(added) && Disjoint(added, links)
    ensures forall id | id in Reverse(added) + links :: id in payloads
    ensures NewestFirst(payloads, Reverse(added) + links) == added + NewestFirst(payloads, links)
            <==> NewestToOldest(payloads, added, links)
  {
    ReverseMembers(added, links);
    if added == [] {
      assert Reverse(added) + links == links && added + NewestFirst(payloads, links) == NewestFirst(payloads, links);
    } else {
      var init, last := added[..|added| - 1], added[|added| - 1];
      assert added == init + [last];
      ReverseNext(init, last, links);
      LastIsUnlinked(init, last, links);
      ReverseMembers(init, links);
      hide Reverse, Distinct, Disjoint, NewestToOldest, NewestFirst;
      HistoryOrder(payloads, init, links);
      FirstLinkIsInserted(payloads, last, Reverse(init) + links);
      LastInOrder(payloads, init, last, links, NewestFirst(payloads, Reverse(init) + links),
        NewestFirst(payloads, links));
    }
  }

  lemma {:induction false} WithoutSpot(front: seq<MatchId>, id: MatchId, back: seq<MatchId>)
    requires id !in front && id !in back
    ensures Without(back, id) == back
    ensures Without(front + ([id] + back), id) == front + back
  {
    var all := front + ([id] + back);
    if front != [] {
      assert front == [front[0]] + front[1..] && all[1..] == front[1..] + ([id] + back);
      assert front[0] in front;
      WithoutSpot(front[1..], id, back);
    } else if back != [] {
      assert all[1..] == back && back == [back[0]] + back[1..];
      WithoutSpot([], id, back[1..]);
      assert [] + ([id] + back[1..]) == [id] + back[1..] && ([id] + back[1..])[1..] == back[1..];
    }
  }

  lemma {:induction false} InsertedComesOut(payloads: map<MatchId, Payload>, id: MatchId, sorted: seq<MatchId>)
    requires id in payloads && (forall other | other in sorted :: other in payloads) && id !in sorted
    ensures Without(InsertByAge(payloads, id, sorted), id) == sorted
  {
    var p := NewerAhead(payloads, id, sorted, 0);
    hide NewerAhead;
    WithoutSpot(sorted[..p], id, sorted[p..]);
    assert sorted[..p] + [id] + sorted[p..] == sorted[..p] + ([id] + sorted[p..]);
    assert sorted[..p] + sorted[p..] == sorted;
  }

  lemma {:induction false} OldOrderNext(payloads: map<MatchId, Payload>, init: seq<MatchId>, last: MatchId,
                                        rest: seq<MatchId>, old_: seq<MatchId>)
    requires last in payloads && forall id | id in rest :: id in payloads
    requires last !in rest && last !in init && last !in old_
    ensures forall id | id in [last] + rest :: id in payloads
    ensures NewestFirst(payloads, [last] + rest) == (init + [last]) + old_
            ==> NewestFirst(payloads, rest) == init + old_
  {
    var sorted := NewestFirst(payloads, rest);
    FirstLinkIsInserted(payloads, last, rest);
    SameMembers(sorted, rest);
    hide *;
    InsertedComesOut(payloads, last, sorted);
    assert (init + [last]) + old_ == init + ([last] + old_);
    WithoutSpot(init, last, old_);
  }

  /** New links in front of a history do not reorder it: when the new history lists the new ids and then
      `old_`, the history was `old_` before. */
  lemma {:induction false} OldOrderShows(payloads: map<MatchId, Payload>, added: seq<MatchId>, links: seq<MatchId>,
                                         old_: seq<MatchId>)
    requires forall id | id in added || id in links :: id in payloads
    requires Distinct(added) && Disjoint(added, links) && Disjoint(added, old_)
    ensures forall id | id in Reverse(added) + links :: id in payloads
    ensures NewestFirst(payloads, Reverse(added) + links) == added + old_ ==> NewestFirst(payloads, links) == old_
  {
    ReverseMembers(added, links);
    if added == [] {
      assert Reverse(added) + links == links && added + old_ == old_;
    } else {
      var init, last := added[..|added| - 1], added[|added| - 1];
      assert added == init + [last] && last in added;
      ReverseNext(init, last, links);
      LastIsUnlinked(init, last, links);
      LastIsUnlinked(init, last, old_);
      ReverseMembers(init, links);
      assert last !in init;
      hide *;
      OldOrderShows(payloads, init, links, old_);
      OldOrderNext(payloads, init, last, Reverse(init) + links, old_);
    }
  }

  // ---- Refreshes, one after another ----

  /** What a complete, unlimited run does to the store, and what it reports. */
  ghost predicate Refreshed(s0: Matches, up: Upstream, puuid: Puuid, s1: Matches, report: seq<MatchId>) {
    && s0.AllStored()
    && var target := Target(up, KnownIds(s0, puuid), Unlimited, None);
       && Fetchable(s0, up, target)
       && s1 == ProcessAll(s0, up, puuid, target)
       && report == Merge(target + s0.History(puuid))
  }

  lemma {:induction false} MergeOfDistinct(ids: seq<MatchId>)
    requires Distinct(ids)
    ensures Merge(ids) == ids
  {
    if ids != [] {
      var init, last := ids[..|ids| - 1], ids[|ids| - 1];
      MergeOfDistinct(init);
      assert ids == init + [last];
    }
  }

  lemma {:induction false} SameTimesSameInsert(payloads: map<MatchId, Payload>, more: map<MatchId, Payload>,
                                               id: MatchId, sorted: seq<MatchId>)
    requires id in payloads && forall other | other in sorted :: other in payloads
    requires forall id | id in payloads :: id in more && more[id] == payloads[id]
    ensures InsertByAge(more, id, sorted) == InsertByAge(payloads, id, sorted)
  {
    var p, q := NewerAhead(payloads, id, sorted, 0), NewerAhead(more, id, sorted, 0);
    assert p < |sorted| ==> !Newer(more, sorted[p], id);
    assert q < |sorted| ==> !Newer(payloads, sorted[q], id);
  }

  lemma {:induction false} SameTimesSameOrder(payloads: map<MatchId, Payload>, more: map<MatchId, Payload>,
                                              ids: seq<MatchId>)
    requires forall id | id in ids :: id in payloads
    requires forall id | id in payloads :: id in more && more[id] == payloads[id]
    ensures NewestFirst(more, ids) == NewestFirst(payloads, ids)
  {
    if ids != [] {
      SameTimesSameOrder(payloads, more, ids[1..]);
      SameTimesSameInsert(payloads, more, ids[0], NewestFirst(payloads, ids[1..]));
    }
  }

  lemma {:induction false} DistinctByCount(ids: seq<MatchId>)
    ensures Distinct(ids) <==> forall id :: multiset(ids)[id] <= 1
  {
    if ids != [] {
      var init, last := ids[..|ids| - 1], ids[|ids| - 1];
      assert ids == init + [last];
      DistinctByCount(init);
      DistinctAppend(init, [last]);
      assert last in init <==> multiset(init)[last] > 0;
      assert Disjoint([last], init) <==> last !in init by { assert last in [last]; }
      assert forall id :: multiset(ids)[id] == multiset(init)[id] + if id == last then 1 else 0;
    }
  }

  lemma {:induction false} ReverseCounts(ids: seq<MatchId>)
    ensures multiset(Reverse(ids)) == multiset(ids)
  {
    if ids != [] {
      ReverseCounts(ids[..|ids| - 1]);
      assert ids == ids[..|ids| - 1] + [ids[|ids| - 1]];
    }
  }

  lemma {:induction false} LinksStayDistinct(added: seq<MatchId>, links: seq<MatchId>)
    requires Distinct(added) && Distinct(links) && Disjoint(added, links)
    ensures Distinct(Reverse(added) + links)
  {
    ReverseCounts(added);
    DistinctByCount(added);
    DistinctByCount(Reverse(added));
    ReverseMembers(added, links);
    assert Disjoint(links, Reverse(added));
    DistinctAppend(Reverse(added), links);
  }

  /** A report lists the new ids and then the history. */
  lemma {:induction false} ReportIsMerged(payloads: map<MatchId, Payload>, added: seq<MatchId>, links: seq<MatchId>)
    requires forall id | id in links :: id in payloads
    requires Distinct(added) && Distinct(links) && Disjoint(added, links)
    ensures Merge(added + NewestFirst(payloads, links)) == added + NewestFirst(payloads, links)
  {
    var history := NewestFirst(payloads, links);
    DistinctByCount(links);
    DistinctByCount(history);
    SameMembers(history, links);
    assert Disjoint(history, added);
    DistinctAppend(added, history);
    MergeOfDistinct(added + history);
  }

  /** A complete refresh against the linked ids with new ones in front links exactly the new ones. */
  lemma {:induction false} RefreshLinks(s0: Matches, up: Upstream, puuid: Puuid, s1: Matches, report: seq<MatchId>,
                                        added: seq<MatchId>, old_: seq<MatchId>)
    requires Refreshed(s0, up, puuid, s1, report)
    requires up.ids == added + old_ && Distinct(up.ids)
    requires forall id :: id in s0.LinksOf(puuid) <==> id in old_
    ensures report == Merge(added + s0.History(puuid))
    ensures s1.AllStored() && s1.LinksOf(puuid) == Reverse(added) + s0.LinksOf(puuid)
    ensures forall id | id in s0.payloads :: id in s1.payloads && s1.payloads[id] == s0.payloads[id]
    ensures Distinct(added) && Disjoint(added, s0.LinksOf(puuid)) && Disjoint(added, old_)
  {
    var links := s0.LinksOf(puuid);
    PagingRecordsAllNew(added, old_, KnownIds(s0, puuid));
    assert Target(up, KnownIds(s0, puuid), Unlimited, None) == added;
    DistinctAppend(added, old_);
    RunLeavesConsistentStore(s0, up, puuid, Unlimited, None, s1, Finished, added, Missing(added, s0.payloads));
  }

  lemma {:induction false} LinkedAreStored(s: Matches, puuid: Puuid)
    requires s.AllStored()
    ensures forall id | id in s.LinksOf(puuid) :: id in s.payloads
  {
  }

  lemma {:induction false} SameFront(front: seq<MatchId>, a: seq<MatchId>, b: seq<MatchId>)
    ensures front + a == front + b <==> a == b
  {
    assert (front + a)[|front|..] == a && (front + b)[|front|..] == b;
  }

  /** The report of such a refresh is in upstream order exactly when the history was before it, and the
      history is so after it exactly when it was before and each new match is strictly newer than the next
      and none is older than an old one. */
  lemma {:induction false} OneRefresh(s0: Matches, up: Upstream, puuid: Puuid, s1: Matches, report: seq<MatchId>,
                                      added: seq<MatchId>, old_: seq<MatchId>)
    requires Refreshed(s0, up, puuid, s1, report)
    requires up.ids == added + old_ && Distinct(up.ids)
    requires Distinct(s0.LinksOf(puuid)) && forall id :: id in s0.LinksOf(puuid) <==> id in old_
    ensures s1.AllStored() && s1.LinksOf(puuid) == Reverse(added) + s0.LinksOf(puuid)
    ensures Distinct(s1.LinksOf(puuid)) && forall id :: id in s1.LinksOf(puuid) <==> id in up.ids
    ensures forall id | id in s0.payloads :: id in s1.payloads && s1.payloads[id] == s0.payloads[id]
    ensures forall id | id in added || id in s0.LinksOf(puuid) :: id in s1.payloads
    ensures report == up.ids <==> s0.History(puuid) == old_
    ensures s1.History(puuid) == up.ids
            <==> s0.History(puuid) == old_ && NewestToOldest(s1.payloads, added, s0.LinksOf(puuid))
  {
    var links, history := s0.LinksOf(puuid), s0.History(puuid);
    RefreshLinks(s0, up, puuid, s1, report, added, old_);
    LinkedAreStored(s0, puuid);
    LinkedAreStored(s1, puuid);
    ReverseMembers(added, links);
    assert s1.History(puuid) == NewestFirst(s1.payloads, s1.LinksOf(puuid));
    assert history == NewestFirst(s0.payloads, links);
    hide *;
    ReportIsMerged(s0.payloads, added, links);
    SameFront(added, history, old_);
    LinksStayDistinct(added, links);
    SameTimesSameOrder(s0.payloads, s1.payloads, links);
    OldOrderShows(s1.payloads, added, links, old_);
    HistoryOrder(s1.payloads, added, links);
  }

  predicate GrownAtFront(before: seq<MatchId>, after: seq<MatchId>) {
    |before| <= |after| && after[|after| - |before|..] == before
  }

  /** `states` are the store before and after each of several refreshes of one player, with no other
      writer; between refreshes the upstream list only grows at the front. */
  ghost predicate Refreshes(states: seq<Matches>, ups: seq<Upstream>, reports: seq<seq<MatchId>>, puuid: Puuid) {
    && |states| == |ups| + 1 && |reports| == |ups|
    && states[0].AllStored() && states[0].LinksOf(puuid) == []
    && (forall k | 0 <= k < |ups| :: Refreshed(states[k], ups[k], puuid, states[k + 1], reports[k]))
    && (forall k | 0 <= k < |ups| :: Distinct(ups[k].ids))
    && (forall k | 0 < k < |ups| :: GrownAtFront(ups[k - 1].ids, ups[k].ids))
  }

  function FrontOf(before: seq<MatchId>, after: seq<MatchId>): (front: seq<MatchId>)
    requires GrownAtFront(before, after)
    ensures after == front + before
  {
    after[..|after| - |before|]
  }

  lemma {:induction false} GrownFromNothing(ids: seq<MatchId>)
    ensures GrownAtFront([], ids)
  {
  }

  ghost predicate StrictlyNewestFirst(payloads: map<MatchId, Payload>, ids: seq<MatchId>) {
    && (forall id | id in ids :: id in payloads)
    && (forall j, k | 0 <= j < k < |ids| :: Newer(payloads, ids[j], ids[k]))
  }

  /** The store has caught up with an upstream list: the same ids are linked, each once, and if the list is
      strictly newest-first by creation time, the history lists them in the same order. */
  ghost predicate CaughtUp(s: Matches, puuid: Puuid, ids: seq<MatchId>) {
    && s.AllStored() && Distinct(s.LinksOf(puuid))
    && (forall id :: id in s.LinksOf(puuid) <==> id in ids)
    && (StrictlyNewestFirst(s.payloads, ids) ==> s.History(puuid) == ids)
  }

  lemma {:induction false} StrictParts(earlier: map<MatchId, Payload>, later: map<MatchId, Payload>,
                                       added: seq<MatchId>, old_: seq<MatchId>, links: seq<MatchId>)
    requires StrictlyNewestFirst(later, added + old_)
    requires forall id | id in earlier :: id in later && later[id] == earlier[id]
    requires forall id | id in links :: id in earlier
    requires forall id :: id in links <==> id in old_
    ensures StrictlyNewestFirst(earlier, old_)
    ensures forall id | id in added || id in links :: id in later
    ensures NewestToOldest(later, added, links)
  {
    var ids := added + old_;
    assert forall j | 0 <= j < |added| :: ids[j] == added[j];
    assert forall j | 0 <= j < |old_| :: ids[|added| + j] == old_[j];
    forall j, k | 0 <= j < k < |old_|
      ensures Newer(later, old_[j], old_[k])
    {
      assert Newer(later, ids[|added| + j], ids[|added| + k]);
    }
    forall j, id | 0 <= j < |added| && id in links
      ensures !Newer(later, id, added[j])
    {
      var k :| 0 <= k < |old_| && old_[k] == id;
      assert Newer(later, ids[j], ids[|added| + k]);
    }
  }

  lemma {:induction false} RefreshCatchesUp(s0: Matches, up: Upstream, puuid: Puuid, s1: Matches,
                                            report: seq<MatchId>, added: seq<MatchId>, old_: seq<MatchId>)
    requires Refreshed(s0, up, puuid, s1, report) && CaughtUp(s0, puuid, old_)
    requires up.ids == added + old_ && Distinct(up.ids)
    ensures CaughtUp(s1, puuid, up.ids)
    ensures StrictlyNewestFirst(s1.payloads, up.ids) ==> report == up.ids
  {
    hide Refreshed, NewestFirst, Reverse, NewestToOldest, Distinct, StrictlyNewestFirst, Matches.AllStored;
    OneRefresh(s0, up, puuid, s1, report, added, old_);
    LinkedAreStored(s0, puuid);
    if StrictlyNewestFirst(s1.payloads, up.ids) {
      StrictParts(s0.payloads, s1.payloads, added, old_, s0.LinksOf(puuid));
    }
  }

  lemma {:induction false} NothingLinked(s: Matches, puuid: Puuid)
    requires s.AllStored() && s.LinksOf(puuid) == []
    ensures CaughtUp(s, puuid, [])
  {
  }

  /** After every refresh of any sequence, the linked ids are exactly the upstream ids; and when the
      upstream list is strictly newest-first by creation time, both the report and the stored
      history list them in upstream order. */
  lemma {:induction false} RefreshesLoseNothing(states: seq<Matches>, ups: seq<Upstream>, reports: seq<seq<MatchId>>,
                                                puuid: Puuid, k: nat)
    requires Refreshes(states, ups, reports, puuid) && k < |ups|
    ensures CaughtUp(states[k + 1], puuid, ups[k].ids)
    ensures StrictlyNewestFirst(states[k + 1].payloads, ups[k].ids) ==> reports[k] == ups[k].ids
    decreases k
  {
    hide Refreshed, CaughtUp, StrictlyNewestFirst, GrownAtFront, Distinct, Matches.AllStored;
    var ids := ups[k].ids;
    var old_ := if k == 0 then [] else ups[k - 1].ids;
    if k == 0 {
      NothingLinked(states[0], puuid);
      GrownFromNothing(ids);
    } else {
      RefreshesLoseNothing(states, ups, reports, puuid, k - 1);
    }
    var added := FrontOf(old_, ids);
    RefreshCatchesUp(states[k], ups[k], puuid, states[k + 1], reports[k], added, old_);
  }

  /** The upstream list before refresh `k`. */
  function Before(ups: seq<Upstream>, k: nat): seq<MatchId>
    requires k <= |ups|
  {
    if k == 0 then [] else ups[k - 1].ids
  }

  lemma {:induction false} BeforeFacts(ups: seq<Upstream>, k: nat)
    requires k <= |ups|
    ensures Before(ups, k) == if k == 0 then [] else ups[k - 1].ids
  {
  }

  /** The history lists the given ids in the given order. */
  ghost predicate Lists(s: Matches, puuid: Puuid, ids: seq<MatchId>) {
    s.AllStored() && s.History(puuid) == ids
  }

  /** By creation time, the ids upstream has put in front of `before` are strictly newest first and none of
      them is older than a match linked already. */
  ghost predicate KeepsOrder(s0: Matches, s1: Matches, puuid: Puuid, before: seq<MatchId>, ids: seq<MatchId>) {
    && GrownAtFront(before, ids)
    && (forall id | id in FrontOf(before, ids) || id in s0.LinksOf(puuid) :: id in s1.payloads)
    && NewestToOldest(s1.payloads, FrontOf(before, ids), s0.LinksOf(puuid))
  }

  ghost predicate KeptOrderUpTo(states: seq<Matches>, ups: seq<Upstream>, puuid: Puuid, k: nat)
    requires k <= |ups| < |states|
  {
    forall m | 0 <= m < k :: KeepsOrder(states[m], states[m + 1], puuid, Before(ups, m), ups[m].ids)
  }

  lemma {:induction false} OrderNext(s0: Matches, up: Upstream, puuid: Puuid, s1: Matches, report: seq<MatchId>,
                                     before: seq<MatchId>)
    requires Refreshed(s0, up, puuid, s1, report) && CaughtUp(s0, puuid, before)
    requires GrownAtFront(before, up.ids) && Distinct(up.ids)
    ensures Lists(s1, puuid, up.ids) <==> Lists(s0, puuid, before) && KeepsOrder(s0, s1, puuid, before, up.ids)
    ensures report == up.ids <==> Lists(s0, puuid, before)
  {
    hide Refreshed, NewestFirst, NewestToOldest, StrictlyNewestFirst, GrownAtFront, Distinct, Matches.AllStored;
    OneRefresh(s0, up, puuid, s1, report, FrontOf(before, up.ids), before);
  }

  lemma {:induction false} KeptOrderNext(states: seq<Matches>, ups: seq<Upstream>, puuid: Puuid, k: nat)
    requires k < |ups| < |states|
    ensures KeptOrderUpTo(states, ups, puuid, k + 1)
            <==> KeptOrderUpTo(states, ups, puuid, k)
                 && KeepsOrder(states[k], states[k + 1], puuid, Before(ups, k), ups[k].ids)
    ensures KeptOrderUpTo(states, ups, puuid, 0)
  {
    hide KeepsOrder, Before;
  }

  lemma {:induction false} RefreshAt(states: seq<Matches>, ups: seq<Upstream>, reports: seq<seq<MatchId>>,
                                     puuid: Puuid, k: nat)
    requires Refreshes(states, ups, reports, puuid) && k < |ups|
    ensures Refreshed(states[k], ups[k], puuid, states[k + 1], reports[k])
    ensures |ups| < |states| && |reports| == |ups| && Distinct(ups[k].ids) && GrownAtFront(Before(ups, k), ups[k].ids)
    ensures k == 0 ==> CaughtUp(states[0], puuid, []) && Lists(states[0], puuid, [])
  {
    GrownFromNothing(ups[k].ids);
    NothingLinked(states[0], puuid);
    hide Refreshed;
  }

  /** The history lists the ids in upstream order after a refresh exactly when every refresh up to it kept
      the order by creation time, so that once out of order it stays so; and the report of a refresh is in
      upstream order exactly when every refresh before it kept the order. */
  lemma {:induction false} HistoryFollowsUpstream(states: seq<Matches>, ups: seq<Upstream>,
                                                  reports: seq<seq<MatchId>>, puuid: Puuid, k: nat)
    requires Refreshes(states, ups, reports, puuid) && k < |ups|
    ensures Lists(states[k + 1], puuid, ups[k].ids) <==> KeptOrderUpTo(states, ups, puuid, k + 1)
    ensures reports[k] == ups[k].ids <==> KeptOrderUpTo(states, ups, puuid, k)
    decreases k
  {
    hide *;
    RefreshAt(states, ups, reports, puuid, k);
    KeptOrderNext(states, ups, puuid, k);
    if k > 0 {
      HistoryFollowsUpstream(states, ups, reports, puuid, k - 1);
      RefreshesLoseNothing(states, ups, reports, puuid, k - 1);
    }
    BeforeFacts(ups, k);
    OrderNext(states[k], ups[k], puuid, states[k + 1], reports[k], Before(ups, k));
  }

  /** Two matches with the same creation time, first linked in one run, are enough to take the
      history out of upstream order. */
  lemma {:induction false} TieBreaksOrder(payloads: map<MatchId, Payload>, a: MatchId, b: MatchId)
    requires a in payloads && b in payloads && a != b
    requires payloads[a].gameCreation == payloads[b].gameCreation
    ensures forall id | id in Reverse([a, b]) :: id in payloads
    ensures NewestFirst(payloads, Reverse([a, b])) != [a, b]
  {
    HistoryOrder(payloads, [a, b], []);
    assert Reverse([a, b]) + [] == Reverse([a, b]) && [a, b] + NewestFirst(payloads, []) == [a, b];
    ReverseMembers([a, b], []);
    assert !Newer(payloads, [a, b][0], [a, b][1]);
  }
}
