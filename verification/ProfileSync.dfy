/** The incremental profile refresh: pages of match ids, newest first, until a page holds an id
    that is already linked; every new id is stored and linked before the next one is looked at. */
module ProfileSync {
  import opened Options
  import opened MatchStore

  const MATCH_ID_PAGE_SIZE: nat := 100

  /** A point at which a run may be cut short from inside, by a store that raises or a cancellation: once the
      page at some offset is recorded, before a fetched detail is saved, before a match is linked (with its
      payload already stored), and once it is linked. */
  datatype Cut = AtPage(start: int) | AtSave(id: MatchId) | AtLink(id: MatchId) | AtReport(id: MatchId)

  /** What one run meets: the player's match ids, the start offsets whose page request fails, the details
      whose request succeeds, and the points at which the run is cut short if it gets there. */
  datatype Upstream = Upstream(
    ids: seq<MatchId>,
    failingPages: set<int>,
    details: map<MatchId, Payload>,
    cuts: set<Cut>)

  function Min(x: nat, y: nat): nat {
    if x <= y then x else y
  }

  function Page(ids: seq<MatchId>, start: nat, count: nat): (page: seq<MatchId>)
    ensures |page| <= count && (count > 0 && |page| == count ==> start + count <= |ids|)
  {
    ids[Min(start, |ids|)..Min(start + count, |ids|)]
  }

  function NewAmongFirst(page: seq<MatchId>, n: nat, seen: seq<MatchId>, known: set<MatchId>): seq<MatchId>
    requires n <= |page|
  {
    if n == 0 then []
    else
      var before, last := NewAmongFirst(page, n - 1, seen, known), page[n - 1];
      if last in seen || last in before || last in known then before else before + [last]
  }

  /** The ids of a page that are neither recorded in this run nor linked before it, each once. */
  function NewOnPage(page: seq<MatchId>, seen: seq<MatchId>, known: set<MatchId>): seq<MatchId> {
    NewAmongFirst(page, |page|, seen, known)
  }

  predicate Distinct(ids: seq<MatchId>) {
    forall j, k | 0 <= j < k < |ids| :: ids[j] != ids[k]
  }

  lemma {:induction false} NewAmongFirstFacts(page: seq<MatchId>, n: nat, seen: seq<MatchId>, known: set<MatchId>)
    requires n <= |page|
    ensures Distinct(NewAmongFirst(page, n, seen, known))
    ensures forall id :: id in NewAmongFirst(page, n, seen, known) <==> id in page[..n] && id !in seen && id !in known
  {
    if n > 0 {
      NewAmongFirstFacts(page, n - 1, seen, known);
      assert page[..n] == page[..n - 1] + [page[n - 1]];
    }
  }

  /** A new id of a page is one of its ids, unseen and unknown, and listed once. */
  lemma {:induction false} NewOnPageFacts(page: seq<MatchId>, seen: seq<MatchId>, known: set<MatchId>)
    ensures Distinct(NewOnPage(page, seen, known))
    ensures forall id :: id in NewOnPage(page, seen, known) <==> id in page && id !in seen && id !in known
  {
    NewAmongFirstFacts(page, |page|, seen, known);
    assert page[..|page|] == page;
  }

  predicate Disjoint(ids: seq<MatchId>, others: seq<MatchId>) {
    forall id | id in ids :: id !in others
  }

  predicate NoneKnown(ids: seq<MatchId>, known: set<MatchId>) {
    forall id | id in ids :: id !in known
  }

  predicate KnownAmongFirst(page: seq<MatchId>, n: nat, known: set<MatchId>)
    requires n <= |page|
  {
    exists k | 0 <= k < n :: page[k] in known
  }

  predicate ReachesKnown(page: seq<MatchId>, known: set<MatchId>) {
    KnownAmongFirst(page, |page|, known)
  }

  /** How many match ids a run may still page through. */
  datatype Quota = Unlimited | AtMost(left: nat)
  {
    function Less(n: nat): Quota {
      if Unlimited? then this else AtMost(if left >= n then left - n else 0)
    }
  }

  function PageCount(remaining: Quota): nat {
    if remaining.Unlimited? then MATCH_ID_PAGE_SIZE else Min(MATCH_ID_PAGE_SIZE, remaining.left)
  }

  /** Everything the run has recorded when paging from `start` on is over, given what it has
      recorded before. */
  function Recorded(ids: seq<MatchId>, known: set<MatchId>, start: nat, remaining: Quota,
                    seen: seq<MatchId>): (all: seq<MatchId>)
    decreases if start <= |ids| then |ids| - start else 0
  {
    if remaining == AtMost(0) then seen
    else
      var page := Page(ids, start, PageCount(remaining));
      var sofar := seen + NewOnPage(page, seen, known);
      if ReachesKnown(page, known) || |page| < PageCount(remaining) then sofar
      else
        Recorded(ids, known, start + |page|,
                 remaining.Less(|page|), sofar)
  }

  lemma {:induction false} RecordedExtends(ids: seq<MatchId>, known: set<MatchId>, start: nat, remaining: Quota,
                                           seen: seq<MatchId>)
    ensures seen <= Recorded(ids, known, start, remaining, seen)
    decreases if start <= |ids| then |ids| - start else 0
  {
    hide NewOnPage, Distinct;
    if remaining != AtMost(0) {
      var page := Page(ids, start, PageCount(remaining));
      var sofar := seen + NewOnPage(page, seen, known);
      if !ReachesKnown(page, known) && |page| == PageCount(remaining) {
        RecordedExtends(ids, known, start + |page|,
                        remaining.Less(|page|), sofar);
      }
    }
  }

  predicate Fetchable(s: Matches, up: Upstream, ids: seq<MatchId>) {
    forall k | 0 <= k < |ids| :: ids[k] in s.payloads || ids[k] in up.details
  }

  /** The store after the given ids have been processed in order: fetched if absent, then linked. */
  function ProcessAll(s: Matches, up: Upstream, puuid: Puuid, ids: seq<MatchId>): Matches
    requires Fetchable(s, up, ids)
  {
    if ids == [] then s
    else
      var before, last := ProcessAll(s, up, puuid, ids[..|ids| - 1]), ids[|ids| - 1];
      (if last in s.payloads then before else before.Save(last, up.details[last])).Link(puuid, [last])
  }

  /** The ids whose details have to be asked for. */
  function Missing(ids: seq<MatchId>, payloads: map<MatchId, Payload>): seq<MatchId> {
    if ids == [] then []
    else
      var before, last := Missing(ids[..|ids| - 1], payloads), ids[|ids| - 1];
      if last in payloads then before else before + [last]
  }

  /** New ids followed by the history, keeping the first occurrence of each. */
  function Merge(ids: seq<MatchId>): (merged: seq<MatchId>)
    ensures forall id :: id in merged <==> id in ids
  {
    if ids == [] then []
    else
      var before, last := Merge(ids[..|ids| - 1]), ids[|ids| - 1];
      assert ids == ids[..|ids| - 1] + [last];
      if last in before then before else before + [last]
  }

  /** Processing adds exactly the payloads of the processed ids, taken from upstream when absent,
      and leaves every payload already stored as it was. */
  lemma {:induction false} ProcessedPayloads(s: Matches, up: Upstream, puuid: Puuid, ids: seq<MatchId>)
    requires Fetchable(s, up, ids)
    ensures var after := ProcessAll(s, up, puuid, ids).payloads;
      && (forall id :: id in after <==> id in s.payloads || id in ids)
      && (forall id | id in s.payloads :: after[id] == s.payloads[id])
      && (forall id | id in ids && id !in s.payloads :: id in up.details && up.details[id] == after[id])
  {
    if ids != [] {
      var init, last := ids[..|ids| - 1], ids[|ids| - 1];
      ProcessedPayloads(s, up, puuid, init);
      var before := ProcessAll(s, up, puuid, init);
      assert ProcessAll(s, up, puuid, ids).payloads
             == (if last in s.payloads then before else before.Save(last, up.details[last])).payloads;
      assert forall id :: id in ids <==> id in init || id == last by { assert ids == init + [last]; }
      hide ProcessAll;
    }
  }

  datatype RunEnd = Finished | PageFailed | CutAtPage | DetailFailed | CutAtSave | CutAtLink | CutAtReport

  lemma {:induction false} ProcessNext(s: Matches, up: Upstream, puuid: Puuid, ids: seq<MatchId>, next: MatchId)
    requires Fetchable(s, up, ids) && (next in s.payloads || next in up.details)
    ensures Fetchable(s, up, ids + [next])
    ensures var before := ProcessAll(s, up, puuid, ids);
      ProcessAll(s, up, puuid, ids + [next])
      == (if next in s.payloads then before else before.Save(next, up.details[next])).Link(puuid, [next])
    ensures Missing(ids + [next], s.payloads)
            == if next in s.payloads then Missing(ids, s.payloads) else Missing(ids, s.payloads) + [next]
  {
    assert (ids + [next])[..|ids|] == ids;
  }

  /** Sorts the ids of a page into new ones and, by its flag, the sight of a linked one. */
  method RecordPage(page: seq<MatchId>, known: set<MatchId>, unique: seq<MatchId>)
    returns (pageUnique: seq<MatchId>, reached: bool)
    requires NoneKnown(unique, known)
    ensures pageUnique == NewOnPage(page, unique, known)
    ensures reached == ReachesKnown(page, known)
    ensures Distinct(pageUnique) && Disjoint(pageUnique, unique) && NoneKnown(unique + pageUnique, known)
  {
    pageUnique, reached := [], false;
    for i := 0 to |page|
      invariant pageUnique == NewAmongFirst(page, i, unique, known)
      invariant reached == KnownAmongFirst(page, i, known)
      invariant forall id | id in pageUnique :: id !in known
    {
      var matchId := page[i];
      if matchId in unique || matchId in pageUnique {
      } else if matchId in known {
        reached := true;
      } else {
        pageUnique := pageUnique + [matchId];
      }
      NewAmongFirstFacts(page, i + 1, unique, known);
    }
    NewOnPageFacts(page, unique, known);
  }

  /** Stopped at a detail that had to be fetched: it did not arrive, or could not be saved. */
  ghost predicate StoppedBefore(s0: Matches, up: Upstream, puuid: Puuid, target: seq<MatchId>, after: Matches,
                                processed: seq<MatchId>, requested: seq<MatchId>, arrived: bool)
    requires Fetchable(s0, up, processed)
  {
    && |processed| < |target| && target[|processed|] !in s0.payloads
    && (target[|processed|] in up.details) == arrived
    && after == ProcessAll(s0, up, puuid, processed)
    && requested == Missing(processed, s0.payloads) + [target[|processed|]]
  }

  /** The payload of the next id is stored, and nothing else has changed. */
  predicate Kept(s0: Matches, up: Upstream, before: Matches, id: MatchId, after: Matches) {
    if id in s0.payloads then after == before
    else id in up.details && after == before.Save(id, up.details[id])
  }

  /** What a run leaves behind when it ends, from the store `s0` it started with: `processed` are
      the ids it stored and linked, out of the `target` it set out to record, and `requested` the
      details it asked for. */
  ghost predicate LeftBehind(s0: Matches, up: Upstream, puuid: Puuid, target: seq<MatchId>, after: Matches,
                             ended: RunEnd, processed: seq<MatchId>, requested: seq<MatchId>)
  {
    && processed <= target && Fetchable(s0, up, processed)
    && match ended
       case Finished =>
         after == ProcessAll(s0, up, puuid, processed) && requested == Missing(processed, s0.payloads)
         && processed == target
       case CutAtReport =>
         && after == ProcessAll(s0, up, puuid, processed) && requested == Missing(processed, s0.payloads)
         && processed != [] && AtReport(processed[|processed| - 1]) in up.cuts
       case DetailFailed => StoppedBefore(s0, up, puuid, target, after, processed, requested, false)
       case CutAtSave =>
         && StoppedBefore(s0, up, puuid, target, after, processed, requested, true)
         && AtSave(target[|processed|]) in up.cuts
       case CutAtLink =>
         && |processed| < |target| && AtLink(target[|processed|]) in up.cuts
         && requested == Missing(processed + [target[|processed|]], s0.payloads)
         && Kept(s0, up, ProcessAll(s0, up, puuid, processed), target[|processed|], after)
       case _ => after == ProcessAll(s0, up, puuid, processed) && requested == Missing(processed, s0.payloads)
  }

  /** An end reached on the way to a longer target is an end for that target. */
  lemma {:induction false} LeftOnTheWay(s0: Matches, up: Upstream, puuid: Puuid, sofar: seq<MatchId>,
                                        target: seq<MatchId>, after: Matches, ended: RunEnd, processed: seq<MatchId>,
                                        requested: seq<MatchId>)
    requires sofar <= target
    requires LeftBehind(s0, up, puuid, sofar, after, ended, processed, requested)
    ensures LeftBehind(s0, up, puuid, target, after, if ended.Finished? then PageFailed else ended,
                       processed, requested)
    ensures LeftBehind(s0, up, puuid, target, after, if ended.Finished? then CutAtPage else ended, processed, requested)
  {
    assert forall k | 0 <= k < |sofar| :: sofar[k] == target[k];
  }

  /** Stores and links the new ids of a page one after the other, until a detail cannot be had or the run is
      cut short.  `s0` is the store the run started from, `done` what it has processed. */
  method ProcessPage(store: InMemoryMatchStore, up: Upstream, puuid: Puuid, start: int, pageUnique: seq<MatchId>,
                     done: seq<MatchId>, requested: seq<MatchId>, ghost s0: Matches)
    returns (ended: RunEnd, processed: seq<MatchId>, requested': seq<MatchId>)
    requires LeftBehind(s0, up, puuid, done, store.State(), Finished, done, requested)
    requires Distinct(pageUnique) && Disjoint(pageUnique, done)
    modifies store
    ensures LeftBehind(s0, up, puuid, done + pageUnique, store.State(), ended, processed, requested')
    ensures !ended.PageFailed?
    ensures ended.CutAtPage? ==> AtPage(start) in up.cuts && processed == done
  {
    hide ProcessAll, Missing, Fetchable, Distinct;
    processed, requested' := done, requested;
    if AtPage(start) in up.cuts {
      return CutAtPage, processed, requested';
    }
    ProcessedPayloads(s0, up, puuid, done);
    var stored := store.GetMatches(pageUnique);
    for i := 0 to |pageUnique|
      invariant processed == done + pageUnique[..i]
      invariant Fetchable(s0, up, processed)
      invariant store.State() == ProcessAll(s0, up, puuid, processed)
      invariant requested' == Missing(processed, s0.payloads)
    {
      var matchId := pageUnique[i];
      assert matchId in pageUnique;
      assert pageUnique[..i + 1] == pageUnique[..i] + [matchId];
      if matchId !in stored {
        requested' := requested' + [matchId];
        if matchId !in up.details {
          return DetailFailed, processed, requested';
        }
        if AtSave(matchId) in up.cuts {
          return CutAtSave, processed, requested';
        }
        store.SaveMatch(matchId, up.details[matchId]);
      }
      ProcessNext(s0, up, puuid, processed, matchId);
      if AtLink(matchId) in up.cuts {
        return CutAtLink, processed, requested';
      }
      store.LinkPlayerMatches(puuid, [matchId]);
      processed := processed + [matchId];
      if AtReport(matchId) in up.cuts {
        assert processed <= done + pageUnique;
        return CutAtReport, processed, requested';
      }
    }
    assert pageUnique[..|pageUnique|] == pageUnique;
    ended := Finished;
  }

  lemma {:induction false} FinishedMeansAll(s0: Matches, up: Upstream, puuid: Puuid, target: seq<MatchId>,
                                            after: Matches, processed: seq<MatchId>, requested: seq<MatchId>)
    requires LeftBehind(s0, up, puuid, target, after, Finished, processed, requested)
    ensures processed == target
  {
  }

  /** What the processing of a page leaves behind, with `unique` recorded and processed before it. */
  ghost predicate Processed(s0: Matches, up: Upstream, puuid: Puuid, known: set<MatchId>, start: int,
                            page: seq<MatchId>, unique: seq<MatchId>, after: Matches, ended: RunEnd,
                            processed: seq<MatchId>, requested: seq<MatchId>) {
    && LeftBehind(s0, up, puuid, unique + NewOnPage(page, unique, known), after, ended, processed, requested)
    && (ended.Finished? ==> processed == unique + NewOnPage(page, unique, known) && NoneKnown(processed, known))
    && !ended.PageFailed?
    && (ended.CutAtPage? ==> AtPage(start) in up.cuts && processed == unique)
  }

  /** Takes the new ids of a page and processes them; says whether the page holds a linked id. */
  method RecordAndProcessPage(store: InMemoryMatchStore, up: Upstream, puuid: Puuid, known: set<MatchId>, start: int,
                              page: seq<MatchId>, unique: seq<MatchId>, requested: seq<MatchId>, ghost s0: Matches)
    returns (ended: RunEnd, processed: seq<MatchId>, requested': seq<MatchId>, reachedKnown: bool)
    requires LeftBehind(s0, up, puuid, unique, store.State(), Finished, unique, requested) && NoneKnown(unique, known)
    modifies store
    ensures Processed(s0, up, puuid, known, start, page, unique, store.State(), ended, processed, requested')
    ensures reachedKnown == ReachesKnown(page, known)
  {
    hide LeftBehind, NewOnPage, NoneKnown, ReachesKnown, Distinct, Disjoint;
    var pageUnique;
    pageUnique, reachedKnown := RecordPage(page, known, unique);
    ended, processed, requested' := ProcessPage(store, up, puuid, start, pageUnique, unique, requested, s0);
    if ended.Finished? {
      FinishedMeansAll(s0, up, puuid, unique + pageUnique, store.State(), processed, requested');
    }
  }

  /** What a run has recorded when it asks for the page at offset `at`, if it gets there. */
  function ArrivesWith(ids: seq<MatchId>, known: set<MatchId>, start: nat, remaining: Quota, seen: seq<MatchId>,
                       at: nat): Option<seq<MatchId>>
    decreases if start <= |ids| then |ids| - start else 0
  {
    if remaining == AtMost(0) then None
    else if start == at then Some(seen)
    else
      var page := Page(ids, start, PageCount(remaining));
      if ReachesKnown(page, known) || |page| < PageCount(remaining) then None
      else
        ArrivesWith(ids, known, start + |page|, remaining.Less(|page|), seen + NewOnPage(page, seen, known), at)
  }

  /** A run with this quota comes by here: at the page at `start` with `remaining` to go and `seen` recorded. */
  ghost predicate ComesBy(ids: seq<MatchId>, known: set<MatchId>, quota: Quota, start: nat, remaining: Quota,
                          seen: seq<MatchId>) {
    && Recorded(ids, known, 0, quota, []) == Recorded(ids, known, start, remaining, seen)
    && forall at: nat | at >= start ::
         ArrivesWith(ids, known, 0, quota, [], at) == ArrivesWith(ids, known, start, remaining, seen, at)
  }

  /** From a page the run goes on to the next one, or has recorded everything it will. */
  lemma {:induction false} ComesByNext(ids: seq<MatchId>, known: set<MatchId>, quota: Quota, start: nat,
                                       remaining: Quota, seen: seq<MatchId>)
    requires ComesBy(ids, known, quota, start, remaining, seen) && remaining != AtMost(0)
    ensures ArrivesWith(ids, known, 0, quota, [], start) == Some(seen)
    ensures seen <= Recorded(ids, known, 0, quota, [])
    ensures var page := Page(ids, start, PageCount(remaining));
      var sofar, all := seen + NewOnPage(page, seen, known), Recorded(ids, known, 0, quota, []);
      && sofar <= all
      && if ReachesKnown(page, known) || |page| < PageCount(remaining) then all == sofar
         else ComesBy(ids, known, quota, start + |page|, remaining.Less(|page|), sofar)
  {
    hide NewOnPage, ReachesKnown, Page, Distinct;
    RecordedExtends(ids, known, start, remaining, seen);
    var page := Page(ids, start, PageCount(remaining));
    if !ReachesKnown(page, known) && |page| == PageCount(remaining) {
      RecordedExtends(ids, known, start + |page|, remaining.Less(|page|), seen + NewOnPage(page, seen, known));
    }
  }

  lemma {:induction false} ComesByStart(ids: seq<MatchId>, known: set<MatchId>, quota: Quota)
    ensures ComesBy(ids, known, quota, 0, quota, [])
  {
  }

  /** A run that ends at a page it asked for, or at the recording of one, has processed what it had recorded when
      it came by that page, and that is a page where it may end like this. */
  ghost predicate EndsAtPage(up: Upstream, known: set<MatchId>, quota: Quota, ended: RunEnd, processed: seq<MatchId>,
                             at: nat) {
    ended.PageFailed? || ended.CutAtPage? ==>
      && ArrivesWith(up.ids, known, 0, quota, [], at) == Some(processed)
      && if ended.PageFailed? then at in up.failingPages else AtPage(at) in up.cuts
  }

  lemma {:induction false} NothingDone(s0: Matches, up: Upstream, puuid: Puuid)
    ensures LeftBehind(s0, up, puuid, [], s0, Finished, [], [])
  {
  }

  /** A run under way, at the page at `start`: what it has recorded it has also processed. */
  ghost predicate Underway(s0: Matches, up: Upstream, puuid: Puuid, known: set<MatchId>, quota: Quota, start: nat,
                           remaining: Quota, unique: seq<MatchId>, now: Matches, requested: seq<MatchId>) {
    && NoneKnown(unique, known)
    && ComesBy(up.ids, known, quota, start, remaining, unique)
    && LeftBehind(s0, up, puuid, unique, now, Finished, unique, requested)
  }

  lemma {:induction false} RunStarts(s0: Matches, up: Upstream, puuid: Puuid, known: set<MatchId>, quota: Quota)
    ensures Underway(s0, up, puuid, known, quota, 0, quota, [], s0, [])
  {
    NothingDone(s0, up, puuid);
    ComesByStart(up.ids, known, quota);
    hide ComesBy, LeftBehind;
  }

  /** What a paging run leaves behind when it ends. */
  ghost predicate PagedTo(s0: Matches, up: Upstream, puuid: Puuid, known: set<MatchId>, quota: Quota, after: Matches,
                          ended: RunEnd, processed: seq<MatchId>, requested: seq<MatchId>, at: nat) {
    && LeftBehind(s0, up, puuid, Recorded(up.ids, known, 0, quota, []), after, ended, processed, requested)
    && EndsAtPage(up, known, quota, ended, processed, at)
  }

  lemma {:induction false} AtThisPage(s0: Matches, up: Upstream, puuid: Puuid, known: set<MatchId>, quota: Quota,
                                      start: nat, remaining: Quota, unique: seq<MatchId>, now: Matches,
                                      requested: seq<MatchId>)
    requires Underway(s0, up, puuid, known, quota, start, remaining, unique, now, requested)
    requires remaining != AtMost(0)
    ensures start in up.failingPages ==>
              PagedTo(s0, up, puuid, known, quota, now, PageFailed, unique, requested, start)
  {
    hide NoneKnown, LeftBehind, ComesBy, ArrivesWith, Recorded, NewOnPage, ReachesKnown, Page, Distinct;
    ComesByNext(up.ids, known, quota, start, remaining, unique);
    LeftOnTheWay(s0, up, puuid, unique, Recorded(up.ids, known, 0, quota, []), now, Finished, unique, requested);
  }

  lemma {:induction false} EndsBeforePage(s0: Matches, up: Upstream, puuid: Puuid, known: set<MatchId>, quota: Quota,
                                          start: nat, remaining: Quota, unique: seq<MatchId>, now: Matches,
                                          requested: seq<MatchId>, at: nat)
    requires Underway(s0, up, puuid, known, quota, start, remaining, unique, now, requested)
    ensures remaining == AtMost(0) ==> PagedTo(s0, up, puuid, known, quota, now, Finished, unique, requested, at)
    ensures remaining != AtMost(0) && start in up.failingPages ==>
              PagedTo(s0, up, puuid, known, quota, now, PageFailed, unique, requested, start)
  {
    var target := Recorded(up.ids, known, 0, quota, []);
    if remaining == AtMost(0) {
      assert target == unique;
      hide LeftBehind;
    } else {
      hide *;
      AtThisPage(s0, up, puuid, known, quota, start, remaining, unique, now, requested);
    }
  }

  /** After a page the run has ended, or is under way at the next one. */
  lemma {:induction false} AfterPage(s0: Matches, up: Upstream, puuid: Puuid, known: set<MatchId>, quota: Quota,
                                     start: nat, remaining: Quota, unique: seq<MatchId>, now: Matches, ended: RunEnd,
                                     processed: seq<MatchId>, requested: seq<MatchId>)
    requires remaining != AtMost(0) && ComesBy(up.ids, known, quota, start, remaining, unique)
    requires Processed(s0, up, puuid, known, start, Page(up.ids, start, PageCount(remaining)), unique, now, ended,
                       processed, requested)
    ensures var page := Page(up.ids, start, PageCount(remaining));
      if !ended.Finished? || ReachesKnown(page, known) || |page| < PageCount(remaining) then
        PagedTo(s0, up, puuid, known, quota, now, ended, processed, requested, start)
      else Underway(s0, up, puuid, known, quota, start + |page|, remaining.Less(|page|), processed, now, requested)
  {
    var target, page := Recorded(up.ids, known, 0, quota, []), Page(up.ids, start, PageCount(remaining));
    hide NoneKnown, LeftBehind, ComesBy, ArrivesWith, Recorded, NewOnPage, ReachesKnown, Page, Distinct, PageCount;
    ComesByNext(up.ids, known, quota, start, remaining, unique);
    if !ended.Finished? {
      LeftOnTheWay(s0, up, puuid, unique + NewOnPage(page, unique, known), target, now, ended, processed, requested);
    }
  }

  /** Pages through the player's ids, processing the new ones of each page before the next; `reached` is the
      offset of the last page asked for. */
  method FetchPages(store: InMemoryMatchStore, up: Upstream, puuid: Puuid, known: set<MatchId>, matchCount: Quota)
    returns (ended: RunEnd, processed: seq<MatchId>, requested: seq<MatchId>, reached: nat)
    modifies store
    ensures PagedTo(old(store.State()), up, puuid, known, matchCount, store.State(), ended,
                    processed, requested, reached)
  {
    ghost var s0 := store.State();
    RunStarts(s0, up, puuid, known, matchCount);
    hide Underway, PagedTo, NewOnPage, ReachesKnown, Recorded, LeftBehind, ComesBy, ArrivesWith, Processed;
    var unique: seq<MatchId> := [];
    processed, requested := [], [];
    var start := 0;
    var remaining := matchCount;
    reached := 0;
    while remaining.Unlimited? || remaining.left > 0
      invariant processed == unique
      invariant Underway(s0, up, puuid, known, matchCount, start, remaining, unique, store.State(), requested)
      decreases if start <= |up.ids| then |up.ids| - start else 0
    {
      EndsBeforePage(s0, up, puuid, known, matchCount, start, remaining, unique, store.State(), requested, reached);
      var count := PageCount(remaining);
      reached := start;
      if start in up.failingPages {
        return PageFailed, processed, requested, reached;
      }
      var page := Page(up.ids, start, count);
      var reachedKnown;
      ended, processed, requested, reachedKnown :=
        RecordAndProcessPage(store, up, puuid, known, start, page, unique, requested, s0);
      AfterPage(s0, up, puuid, known, matchCount, start, remaining, unique, store.State(), ended, processed, requested);
      if !ended.Finished? || reachedKnown || |page| < count {
        return ended, processed, requested, reached;
      }
      unique := processed;
      start := start + |page|;
      remaining := remaining.Less(|page|);
    }
    EndsBeforePage(s0, up, puuid, known, matchCount, start, remaining, unique, store.State(), requested, reached);
    return Finished, processed, requested, reached;
  }

  /** The new ids a run sets out to record, whether it pages or was handed a list. */
  function Target(up: Upstream, known: set<MatchId>, matchCount: Quota, seeded: Option<seq<MatchId>>): seq<MatchId> {
    if seeded.Some? then NewOnPage(seeded.value, [], known) else Recorded(up.ids, known, 0, matchCount, [])
  }

  function KnownIds(s: Matches, puuid: Puuid): set<MatchId> {
    set id | id in s.LinksOf(puuid)
  }

  lemma {:induction false} NewestFirstMembers(s: Matches, puuid: Puuid)
    requires s.AllStored()
    ensures (set id | id in s.History(puuid)) == KnownIds(s, puuid)
  {
    var history, links := s.History(puuid), s.LinksOf(puuid);
    assert multiset(history) == multiset(links);
    forall id: MatchId
      ensures id in history <==> id in links
    {
      assert id in history <==> id in multiset(history);
      assert id in links <==> id in multiset(links);
    }
  }

  /** A whole profile run, paging through the player's ids or working off a given list. */
  method RunProfileFetch(store: InMemoryMatchStore, up: Upstream, puuid: Puuid, matchCount: Quota,
                         seeded: Option<seq<MatchId>>)
    returns (ended: RunEnd, matchIds: seq<MatchId>, processed: seq<MatchId>, requested: seq<MatchId>)
    requires store.State().AllStored()
    modifies store
    ensures var s0 := old(store.State());
      var target := Target(up, KnownIds(s0, puuid), matchCount, seeded);
      && LeftBehind(s0, up, puuid, target, store.State(), ended, processed, requested)
      && (ended.Finished? ==> matchIds == Merge(target + s0.History(puuid)))
      && (ended.PageFailed? ==> seeded.None?)
      && (seeded.None? ==> exists at :: EndsAtPage(up, KnownIds(s0, puuid), matchCount, ended, processed, at))
  {
    ghost var s0 := store.State();
    var history := store.GetPlayerMatchIds(puuid);
    var known := set id | id in history;
    NewestFirstMembers(s0, puuid);
    assert known == KnownIds(s0, puuid);
    NothingDone(s0, up, puuid);
    hide NewOnPage, Recorded, Missing, ProcessAll, Distinct, ReachesKnown, NewestFirst, Merge, ArrivesWith;
    if seeded.Some? {
      var reached;
      ended, processed, requested, reached :=
        RecordAndProcessPage(store, up, puuid, known, 0, seeded.value, [], [], s0);
      assert [] + NewOnPage(seeded.value, [], known) == NewOnPage(seeded.value, [], known);
    } else {
      var reached;
      ended, processed, requested, reached := FetchPages(store, up, puuid, known, matchCount);
    }
    matchIds := if ended.Finished? then Merge(processed + history) else [];
  }
}
