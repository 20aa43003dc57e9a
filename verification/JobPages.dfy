/** Listing stored jobs newest first, page by page, each page starting behind the last job of the
    one before. */
module JobPages {
  import opened Options
  import opened JobSystem

  /** Job ids are compared when creation times tie; any total order on them will do. */
  datatype Key = Key(createdAt: int, jobId: int)

  predicate Less(a: Key, b: Key) {
    a.createdAt < b.createdAt || (a.createdAt == b.createdAt && a.jobId < b.jobId)
  }

  /** What the listing looks at in a stored job; the Riot id is there for profile jobs, normalized. */
  datatype Row = Row(key: Key, status: Status, jobType: int, riotId: Option<int>)

  datatype Filter = Filter(statuses: Option<set<Status>>, jobType: Option<int>, riotId: Option<int>)
  {
    predicate Admits(row: Row) {
      && (statuses.Some? ==> row.status in statuses.value)
      && (jobType.Some? ==> row.jobType == jobType.value)
      && (riotId.Some? ==> row.riotId == riotId)
    }
  }

  function Select(rows: seq<Row>, filter: Filter): seq<Row> {
    if rows == [] then []
    else if filter.Admits(rows[0]) then [rows[0]] + Select(rows[1..], filter)
    else Select(rows[1..], filter)
  }

  function Insert(row: Row, sorted: seq<Row>): seq<Row> {
    if sorted == [] || Less(sorted[0].key, row.key) then [row] + sorted
    else [sorted[0]] + Insert(row, sorted[1..])
  }

  function NewestFirst(rows: seq<Row>): seq<Row> {
    if rows == [] then [] else Insert(rows[0], NewestFirst(rows[1..]))
  }

  function Listing(rows: seq<Row>, filter: Filter): seq<Row> {
    NewestFirst(Select(rows, filter))
  }

  function After(sorted: seq<Row>, cursor: Key): seq<Row> {
    if sorted == [] then []
    else if Less(sorted[0].key, cursor) then [sorted[0]] + After(sorted[1..], cursor)
    else After(sorted[1..], cursor)
  }

  datatype JobListPage = JobListPage(jobs: seq<Row>, nextCursor: Option<Key>, hasMore: bool)

  /** One row more than asked for is looked at, to tell whether there is another page. */
  function FirstPage(jobs: seq<Row>, limit: nat): JobListPage {
    var limited := if |jobs| > limit + 1 then jobs[..limit + 1] else jobs;
    var hasMore := |limited| > limit;
    var page := if hasMore then limited[..limit] else limited;
    JobListPage(page, if hasMore && page != [] then Some(page[|page| - 1].key) else None, hasMore)
  }

  function ListJobsPage(rows: seq<Row>, filter: Filter, limit: nat, cursor: Option<Key>): JobListPage {
    var listed := Listing(rows, filter);
    FirstPage(if cursor.Some? then After(listed, cursor.value) else listed, limit)
  }

  // Order.

  predicate Descending(sorted: seq<Row>) {
    forall j, k | 0 <= j < k < |sorted| :: Less(sorted[k].key, sorted[j].key)
  }

  predicate DistinctKeys(rows: seq<Row>) {
    forall j, k | 0 <= j < k < |rows| :: rows[j].key != rows[k].key
  }

  lemma {:induction false} InsertDescends(row: Row, sorted: seq<Row>)
    requires Descending(sorted) && forall k | 0 <= k < |sorted| :: sorted[k].key != row.key
    ensures Descending(Insert(row, sorted))
    ensures forall other :: other in Insert(row, sorted) <==> other == row || other in sorted
  {
    if sorted == [] || Less(sorted[0].key, row.key) {
    } else {
      InsertDescends(row, sorted[1..]);
      assert sorted == [sorted[0]] + sorted[1..];
      var rest := Insert(row, sorted[1..]);
      forall k | 0 <= k < |rest|
        ensures Less(rest[k].key, sorted[0].key)
      {
        assert rest[k] in rest;
        if rest[k] != row {
          var j :| 0 <= j < |sorted[1..]| && sorted[1..][j] == rest[k];
          assert sorted[j + 1] == rest[k];
        }
      }
    }
  }

  /** Sorting keeps the rows and puts every one before those with smaller keys. */
  lemma {:induction false} NewestFirstDescends(rows: seq<Row>)
    requires DistinctKeys(rows)
    ensures Descending(NewestFirst(rows))
    ensures forall row :: row in NewestFirst(rows) <==> row in rows
  {
    if rows == [] {
    } else {
      NewestFirstDescends(rows[1..]);
      var rest := NewestFirst(rows[1..]);
      assert rows == [rows[0]] + rows[1..];
      forall k | 0 <= k < |rest|
        ensures rest[k].key != rows[0].key
      {
        assert rest[k] in rows[1..];
      }
      InsertDescends(rows[0], rest);
    }
  }

  lemma {:induction false} SelectFacts(rows: seq<Row>, filter: Filter)
    requires DistinctKeys(rows)
    ensures DistinctKeys(Select(rows, filter))
    ensures forall row :: row in Select(rows, filter) <==> row in rows && filter.Admits(row)
  {
    if rows == [] {
    } else {
      SelectFacts(rows[1..], filter);
      assert rows == [rows[0]] + rows[1..];
      var rest := Select(rows[1..], filter);
      forall k | 0 <= k < |rest|
        ensures rest[k].key != rows[0].key
      {
        assert rest[k] in rows[1..];
      }
    }
  }

  /** The listing holds exactly the admitted rows, newest first. */
  lemma {:induction false} ListedRows(rows: seq<Row>, filter: Filter)
    requires DistinctKeys(rows)
    ensures Descending(Listing(rows, filter))
    ensures forall row :: row in Listing(rows, filter) <==> row in rows && filter.Admits(row)
  {
    SelectFacts(rows, filter);
    NewestFirstDescends(Select(rows, filter));
  }

  /** The listing is newest first, by creation time and then by id, and holds exactly the jobs that have one of the
      statuses, the type and the Riot id asked for, as far as these are asked for. */
  lemma {:induction false} ListingFacts(rows: seq<Row>, filter: Filter)
    requires DistinctKeys(rows)
    ensures var listing := Listing(rows, filter);
      forall j, k | 0 <= j < k < |listing| ::
        || listing[k].key.createdAt < listing[j].key.createdAt
        || (listing[k].key.createdAt == listing[j].key.createdAt && listing[k].key.jobId < listing[j].key.jobId)
    ensures forall row :: row in Listing(rows, filter) <==>
              && row in rows
              && (filter.statuses == None || row.status in filter.statuses.value)
              && (filter.jobType == None || filter.jobType == Some(row.jobType))
              && (filter.riotId == None || filter.riotId == row.riotId)
  {
    ListedRows(rows, filter);
  }

  lemma {:induction false} AfterEverything(sorted: seq<Row>, cursor: Key)
    requires forall k | 0 <= k < |sorted| :: Less(sorted[k].key, cursor)
    ensures After(sorted, cursor) == sorted
  {
    if sorted != [] {
      AfterEverything(sorted[1..], cursor);
    }
  }

  /** Behind the cursor of a row lies the rest of the listing. */
  lemma {:induction false} AfterRow(sorted: seq<Row>, m: nat)
    requires Descending(sorted) && m < |sorted|
    ensures After(sorted, sorted[m].key) == sorted[m + 1..]
  {
    var cursor := sorted[m].key;
    assert !Less(sorted[0].key, cursor);
    if m == 0 {
      AfterEverything(sorted[1..], cursor);
    } else {
      AfterRow(sorted[1..], m - 1);
    }
  }

  // Following the cursors.

  function KeysOf(rows: seq<Row>): (keys: seq<Key>)
    ensures |keys| == |rows|
  {
    if rows == [] then [] else KeysOf(rows[..|rows| - 1]) + [rows[|rows| - 1].key]
  }

  lemma {:induction false} KeyAt(rows: seq<Row>, k: nat)
    requires k < |rows|
    ensures KeysOf(rows)[k] == rows[k].key
  {
    if k < |rows| - 1 {
      KeyAt(rows[..|rows| - 1], k);
    }
  }

  lemma {:induction false} KeysOfPart(rows: seq<Row>, i: nat, j: nat)
    requires i <= j <= |rows|
    ensures KeysOf(rows[i..j]) == KeysOf(rows)[i..j]
    ensures i == 0 ==> KeysOf(rows[..j]) == KeysOf(rows)[..j]
    ensures j == |rows| ==> KeysOf(rows[i..]) == KeysOf(rows)[i..]
  {
    var part := rows[i..j];
    forall k | 0 <= k < |part|
      ensures KeysOf(part)[k] == KeysOf(rows)[i..j][k]
    {
      KeyAt(part, k);
      KeyAt(rows, i + k);
    }
    hide KeysOf;
    assert i == 0 ==> rows[..j] == part && KeysOf(rows)[..j] == KeysOf(rows)[i..j];
    assert j == |rows| ==> rows[i..] == part && KeysOf(rows)[i..] == KeysOf(rows)[i..j];
  }

  /** How many jobs so many full pages hold. */
  function Pages(n: nat, limit: nat): nat {
    n * limit
  }

  lemma {:induction false} PagesNext(n: nat, limit: nat)
    requires n >= 1
    ensures Pages(n, limit) == Pages(n - 1, limit) + limit
    ensures limit >= 1 ==> Pages(n, limit) >= 1
    ensures n == 1 ==> Pages(n, limit) == limit
  {
  }

  datatype Reader = Reader(keys: seq<Key>, cursor: Option<Key>, done: bool)

  /** The first `n` pages, the store being read as it stands when each of them is asked for. */
  function Follow(stores: seq<seq<Row>>, filter: Filter, limit: nat, n: nat): Reader
    requires n <= |stores|
  {
    if n == 0 then Reader([], None, false)
    else
      var before := Follow(stores, filter, limit, n - 1);
      if before.done then before
      else
        var page := ListJobsPage(stores[n - 1], filter, limit, before.cursor);
        Reader(before.keys + KeysOf(page.jobs), page.nextCursor, !page.hasMore)
  }

  function Min(x: int, y: int): int {
    if x <= y then x else y
  }

  /** The page holds the jobs of `base` that come after its first `m`. */
  predicate NextPage(page: JobListPage, base: seq<Row>, limit: nat, m: nat)
    requires limit >= 1 && m <= |base|
  {
    && KeysOf(page.jobs) == KeysOf(base)[m..Min(m + limit, |base|)]
    && (page.hasMore <==> m + limit < |base|)
    && page.nextCursor == if page.hasMore && m + limit < |base| then Some(base[m + limit - 1].key) else None
  }

  /** The reader has seen the first `m` jobs of `base`, or all of them. */
  predicate HasRead(reader: Reader, base: seq<Row>, m: nat) {
    && reader.keys == KeysOf(base)[..Min(m, |base|)]
    && (reader.done <==> m >= |base|)
    && (!reader.done ==> m > 0 && reader.cursor == Some(base[m - 1].key))
  }

  lemma {:induction false} FirstPageFacts(jobs: seq<Row>, limit: nat)
    requires limit >= 1
    ensures var page := FirstPage(jobs, limit);
      && page.jobs == jobs[..Min(limit, |jobs|)] && (page.hasMore <==> |jobs| > limit)
      && page.nextCursor == if page.hasMore then Some(jobs[limit - 1].key) else None
  {
  }

  /** A reader has read on exactly when the page it got was the next one. */
  lemma {:induction false} ReadsOn(before: Reader, page: JobListPage, limit: nat, base: seq<Row>, m: nat)
    requires limit >= 1 && m <= |base| && before.keys == KeysOf(base)[..m]
    requires page.nextCursor.Some? <==> page.hasMore
    ensures HasRead(Reader(before.keys + KeysOf(page.jobs), page.nextCursor, !page.hasMore), base, m + limit)
            <==> NextPage(page, base, limit, m)
  {
    var keys, end := KeysOf(base), Min(m + limit, |base|);
    assert keys[..end] == keys[..m] + keys[m..end];
    assert (before.keys + KeysOf(page.jobs))[m..] == KeysOf(page.jobs);
    assert keys[..end][m..] == keys[m..end];
  }

  /** The first page of a store is the first page of its listing. */
  lemma {:induction false} FollowStarts(stores: seq<seq<Row>>, filter: Filter, limit: nat)
    requires limit >= 1 && |stores| >= 1
    ensures HasRead(Follow(stores, filter, limit, 1), Listing(stores[0], filter), limit)
  {
    var base, page := Listing(stores[0], filter), ListJobsPage(stores[0], filter, limit, None);
    hide Listing, KeysOf;
    FirstPageFacts(base, limit);
    KeysOfPart(base, 0, Min(limit, |base|));
    assert Follow(stores, filter, limit, 0) == Reader([], None, false);
    assert [] + KeysOf(page.jobs) == KeysOf(page.jobs);
    assert Follow(stores, filter, limit, 1) == Reader(KeysOf(page.jobs), page.nextCursor, !page.hasMore);
  }

  /** One more page. */
  lemma {:induction false} FollowNext(stores: seq<seq<Row>>, filter: Filter, limit: nat, n: nat, base: seq<Row>, m: nat)
    requires limit >= 1 && 1 <= n < |stores| && HasRead(Follow(stores, filter, limit, n), base, m)
    ensures m >= |base| ==> HasRead(Follow(stores, filter, limit, n + 1), base, m + limit)
    ensures 0 < m < |base| ==>
              (HasRead(Follow(stores, filter, limit, n + 1), base, m + limit)
               <==> NextPage(ListJobsPage(stores[n], filter, limit, Some(base[m - 1].key)), base, limit, m))
  {
    hide Listing, KeysOf, After, FirstPage, NextPage;
    var before := Follow(stores, filter, limit, n);
    if 0 < m < |base| {
      var page := ListJobsPage(stores[n], filter, limit, before.cursor);
      assert Follow(stores, filter, limit, n + 1)
             == Reader(before.keys + KeysOf(page.jobs), page.nextCursor, !page.hasMore);
      FirstPageFacts(After(Listing(stores[n], filter), base[m - 1].key), limit);
      hide Follow, ListJobsPage, HasRead;
      ReadsOn(before, page, limit, base, m);
    }
  }

  /** What is listed behind the `m`-th job of the first store is listed behind it in this one too. */
  ghost predicate SameRest(rows: seq<Row>, filter: Filter, base: seq<Row>, m: nat) {
    0 < m < |base| && KeysOf(After(Listing(rows, filter), base[m - 1].key)) == KeysOf(base)[m..]
  }

  lemma {:induction false} PartOfTail(tail: seq<Key>, all: seq<Key>, m: nat, n: nat)
    requires m <= |all| && tail == all[m..] && n <= |tail|
    ensures tail[..n] == all[m..m + n] && forall k | 0 <= k < |tail| :: tail[k] == all[m + k]
  {
  }

  lemma {:induction false} RestIsNextPage(rows: seq<Row>, filter: Filter, limit: nat, base: seq<Row>, m: nat)
    requires limit >= 1 && SameRest(rows, filter, base, m)
    ensures NextPage(ListJobsPage(rows, filter, limit, Some(base[m - 1].key)), base, limit, m)
  {
    var rest := After(Listing(rows, filter), base[m - 1].key);
    FirstPageFacts(rest, limit);
    var n := Min(limit, |rest|);
    hide Listing, After, FirstPage, KeysOf;
    KeysOfPart(rest, 0, n);
    PartOfTail(KeysOf(rest), KeysOf(base), m, n);
    if |rest| > limit {
      KeyAt(rest, limit - 1);
      KeyAt(base, m + limit - 1);
    }
  }

  /** So it is for every page after the first, as far as the base goes. */
  ghost predicate SameRests(stores: seq<seq<Row>>, filter: Filter, limit: nat, base: seq<Row>, n: nat)
    requires n <= |stores|
  {
    forall i | 1 <= i < n && Pages(i, limit) < |base| :: SameRest(stores[i], filter, base, Pages(i, limit))
  }

  /** If every page but the first is read from a store that lists the same jobs behind its cursor, the pages
      together are exactly the first listing, in its order and without repetition, and the last page comes as
      early as it can. */
  lemma {:induction false} FollowingListsAll(stores: seq<seq<Row>>, filter: Filter, limit: nat, n: nat)
    requires limit >= 1 && 1 <= n <= |stores| && SameRests(stores, filter, limit, Listing(stores[0], filter), n)
    ensures HasRead(Follow(stores, filter, limit, n), Listing(stores[0], filter), Pages(n, limit))
  {
    hide Follow, Listing, HasRead, NextPage, SameRest;
    PagesNext(n, limit);
    hide Pages;
    var base, m := Listing(stores[0], filter), Pages(n - 1, limit);
    if n == 1 {
      FollowStarts(stores, filter, limit);
    } else {
      PagesNext(n - 1, limit);
      FollowingListsAll(stores, filter, limit, n - 1);
      FollowNext(stores, filter, limit, n - 1, base, m);
      if m < |base| {
        RestIsNextPage(stores[n - 1], filter, limit, base, m);
      }
    }
  }

  lemma {:induction false} AllRead(stores: seq<seq<Row>>, filter: Filter, limit: nat)
    requires limit >= 1 && |stores| >= 1 && Pages(|stores|, limit) >= |Listing(stores[0], filter)|
    requires HasRead(Follow(stores, filter, limit, |stores|), Listing(stores[0], filter), Pages(|stores|, limit))
    ensures var reader := Follow(stores, filter, limit, |stores|);
      reader.done && reader.keys == KeysOf(Listing(stores[0], filter))
  {
    hide Listing, Follow;
    var keys := KeysOf(Listing(stores[0], filter));
    assert keys[..|keys|] == keys;
  }

  lemma {:induction false} OwnRest(rows: seq<Row>, filter: Filter, m: nat)
    requires DistinctKeys(rows) && 0 < m < |Listing(rows, filter)|
    ensures SameRest(rows, filter, Listing(rows, filter), m)
  {
    var base := Listing(rows, filter);
    ListedRows(rows, filter);
    hide Listing, After;
    AfterRow(base, m - 1);
    KeysOfPart(base, m, |base|);
  }

  /** With a store that does not change, any page size and any filter: after enough pages the reader has seen
      every admitted job exactly once, newest first, and nothing else. */
  lemma {:induction false} PagesAreTheListing(rows: seq<Row>, filter: Filter, limit: nat, stores: seq<seq<Row>>)
    requires DistinctKeys(rows) && limit >= 1 && |stores| >= 1 && Pages(|stores|, limit) >= |Listing(rows, filter)|
    requires forall i | 0 <= i < |stores| :: stores[i] == rows
    ensures var reader := Follow(stores, filter, limit, |stores|);
      reader.done && reader.keys == KeysOf(Listing(rows, filter))
  {
    hide Listing, SameRest, DistinctKeys, HasRead, Follow, Pages;
    forall i | 1 <= i < |stores| && Pages(i, limit) < |Listing(stores[0], filter)|
      ensures SameRest(stores[i], filter, Listing(stores[0], filter), Pages(i, limit))
    {
      PagesNext(i, limit);
      OwnRest(rows, filter, Pages(i, limit));
    }
    FollowingListsAll(stores, filter, limit, |stores|);
    AllRead(stores, filter, limit);
  }

  // Which jobs are listed, as sets of keys.

  function KeySet(rows: seq<Row>): set<Key> {
    set row | row in rows :: row.key
  }

  lemma {:induction false} NoKeys(rows: seq<Row>)
    ensures KeySet(rows) == {} ==> rows == []
  {
    if rows != [] {
      assert rows[0].key in KeySet(rows);
    }
  }

  lemma {:induction false} HeadIsLargest(a: seq<Row>, b: seq<Row>)
    requires a != [] && Descending(b) && KeySet(a) == KeySet(b)
    ensures b != [] && (a[0].key == b[0].key || Less(a[0].key, b[0].key))
  {
    assert a[0].key in KeySet(b);
    var row :| row in b && row.key == a[0].key;
    var k :| 0 <= k < |b| && b[k] == row;
  }

  lemma {:induction false} RestOfKeys(a: seq<Row>)
    requires a != [] && Descending(a)
    ensures Descending(a[1..]) && KeySet(a[1..]) == KeySet(a) - {a[0].key}
  {
    assert a == [a[0]] + a[1..];
    forall row | row in a[1..]
      ensures row.key != a[0].key
    {
      var k :| 0 <= k < |a[1..]| && a[1..][k] == row;
      assert a[k + 1] == row;
    }
  }

  /** Two descending lists with the same keys have them in the same order. */
  lemma {:induction false} SameKeys(a: seq<Row>, b: seq<Row>)
    requires Descending(a) && Descending(b) && KeySet(a) == KeySet(b)
    ensures KeysOf(a) == KeysOf(b)
    decreases |a|
  {
    if a == [] {
      NoKeys(b);
    } else {
      assert a[0].key in KeySet(a);
      HeadIsLargest(a, b);
      HeadIsLargest(b, a);
      RestOfKeys(a);
      RestOfKeys(b);
      hide KeySet;
      SameKeys(a[1..], b[1..]);
      KeysOfPart(a, 1, |a|);
      KeysOfPart(b, 1, |b|);
      KeyAt(a, 0);
      KeyAt(b, 0);
      hide KeysOf;
      assert KeysOf(a) == [a[0].key] + KeysOf(a)[1..] && KeysOf(b) == [b[0].key] + KeysOf(b)[1..];
    }
  }

  /** Before a cursor, and from another key on if there is one. */
  predicate Inside(key: Key, low: Option<Key>, cursor: Key) {
    Less(key, cursor) && (low.Some? ==> !Less(key, low.value))
  }

  /** The keys listed there. */
  function Span(rows: seq<Row>, filter: Filter, low: Option<Key>, cursor: Key): set<Key> {
    set row | row in rows && filter.Admits(row) && Inside(row.key, low, cursor) :: row.key
  }

  /** The jobs of a list that are not behind a key. */
  function UpTo(sorted: seq<Row>, low: Key): seq<Row> {
    if sorted == [] then []
    else if Less(sorted[0].key, low) then UpTo(sorted[1..], low)
    else [sorted[0]] + UpTo(sorted[1..], low)
  }

  lemma {:induction false} AfterFacts(sorted: seq<Row>, cursor: Key)
    requires Descending(sorted)
    ensures Descending(After(sorted, cursor))
    ensures forall row :: row in After(sorted, cursor) <==> row in sorted && Less(row.key, cursor)
  {
    if sorted != [] {
      AfterFacts(sorted[1..], cursor);
      assert sorted == [sorted[0]] + sorted[1..];
      if Less(sorted[0].key, cursor) {
        assert forall k | 0 < k < |sorted| :: Less(sorted[k].key, sorted[0].key);
        AfterEverything(sorted[1..], cursor);
      }
    }
  }

  lemma {:induction false} UpToNothing(sorted: seq<Row>, low: Key)
    requires forall k | 0 <= k < |sorted| :: Less(sorted[k].key, low)
    ensures UpTo(sorted, low) == []
  {
    if sorted != [] {
      UpToNothing(sorted[1..], low);
    }
  }

  /** A descending list splits at any key. */
  lemma {:induction false} SplitAt(sorted: seq<Row>, low: Key)
    requires Descending(sorted)
    ensures sorted == UpTo(sorted, low) + After(sorted, low)
  {
    if sorted == [] {
    } else if Less(sorted[0].key, low) {
      forall k | 0 <= k < |sorted|
        ensures Less(sorted[k].key, low)
      {
        assert k > 0 ==> Less(sorted[k].key, sorted[0].key);
      }
      AfterEverything(sorted, low);
      UpToNothing(sorted, low);
    } else {
      var rest := sorted[1..];
      SplitAt(rest, low);
      assert sorted == [sorted[0]] + rest;
      hide Descending;
      assert [sorted[0]] + (UpTo(rest, low) + After(rest, low)) == ([sorted[0]] + UpTo(rest, low)) + After(rest, low);
    }
  }

  lemma {:induction false} UpToMembers(sorted: seq<Row>, low: Key)
    ensures forall row :: row in UpTo(sorted, low) <==> row in sorted && !Less(row.key, low)
  {
    if sorted != [] {
      UpToMembers(sorted[1..], low);
      assert sorted == [sorted[0]] + sorted[1..];
    }
  }

  /** The keys a listing has behind a cursor, and on the way down to a further key. */
  lemma {:induction false} ListedInside(rows: seq<Row>, filter: Filter, low: Key, cursor: Key)
    requires DistinctKeys(rows)
    ensures var rest := After(Listing(rows, filter), cursor);
      && Descending(rest) && Descending(UpTo(rest, low))
      && KeySet(rest) == Span(rows, filter, None, cursor)
      && KeySet(UpTo(rest, low)) == Span(rows, filter, Some(low), cursor)
  {
    var listing := Listing(rows, filter);
    ListedRows(rows, filter);
    AfterFacts(listing, cursor);
    hide Listing;
    var rest := After(listing, cursor);
    SplitAt(rest, low);
    UpToMembers(rest, low);
    assert UpTo(rest, low) == rest[..|UpTo(rest, low)|];
    hide After, UpTo, Descending, DistinctKeys, Filter.Admits;
  }

  // Jobs created between the pages.

  predicate SameJob(a: Row, b: Row) {
    a.key == b.key && a.jobType == b.jobType && a.riotId == b.riotId
  }

  /** The store after jobs have changed their status and jobs with larger keys have been created. */
  ghost predicate Grown(rows: seq<Row>, later: seq<Row>) {
    && (forall k | 0 <= k < |rows| :: exists j :: 0 <= j < |later| && SameJob(rows[k], later[j]))
    && (forall j | 0 <= j < |later| ::
          || (exists k :: 0 <= k < |rows| && SameJob(rows[k], later[j]))
          || (forall k | 0 <= k < |rows| :: Less(rows[k].key, later[j].key)))
  }

  /** Every store read has only grown since the first one. */
  ghost predicate OnlyGrows(stores: seq<seq<Row>>) {
    forall i | 0 <= i < |stores| :: DistinctKeys(stores[i]) && Grown(stores[0], stores[i])
  }

  lemma {:induction false} HasGrown(stores: seq<seq<Row>>, i: nat)
    requires OnlyGrows(stores) && i < |stores|
    ensures DistinctKeys(stores[0]) && DistinctKeys(stores[i]) && Grown(stores[0], stores[i])
  {
    hide DistinctKeys, Grown;
  }

  /** Every older job there is taken by the filter as before. */
  ghost predicate SameAdmission(rows: seq<Row>, later: seq<Row>, filter: Filter, low: Option<Key>, cursor: Key) {
    forall i, j | 0 <= i < |rows| && 0 <= j < |later|
                  && rows[i].key == later[j].key && Inside(rows[i].key, low, cursor) ::
      filter.Admits(rows[i]) == filter.Admits(later[j])
  }

  /** Without a status filter this is always so. */
  lemma {:induction false} StatusIsNoMatter(rows: seq<Row>, later: seq<Row>, filter: Filter, low: Option<Key>,
                                            cursor: Key)
    requires DistinctKeys(later) && Grown(rows, later) && filter.statuses.None?
    ensures SameAdmission(rows, later, filter, low, cursor)
  {
    forall i, j | 0 <= i < |rows| && 0 <= j < |later| && rows[i].key == later[j].key
      ensures filter.Admits(rows[i]) == filter.Admits(later[j])
    {
      var k :| 0 <= k < |later| && SameJob(rows[i], later[k]);
      assert k == j;
    }
  }

  lemma {:induction false} SpanOfRow(rows: seq<Row>, filter: Filter, low: Option<Key>, cursor: Key, i: nat)
    requires DistinctKeys(rows) && i < |rows| && Inside(rows[i].key, low, cursor)
    ensures rows[i].key in Span(rows, filter, low, cursor) <==> filter.Admits(rows[i])
  {
    if rows[i].key in Span(rows, filter, low, cursor) {
      var row :| row in rows && filter.Admits(row) && row.key == rows[i].key;
      var k :| 0 <= k < |rows| && rows[k] == row;
      assert k == i;
    }
    if filter.Admits(rows[i]) {
      assert rows[i] in rows;
    }
  }

  lemma {:induction false} SpanKept(rows: seq<Row>, later: seq<Row>, filter: Filter, low: Option<Key>, c: nat)
    requires Grown(rows, later) && c < |rows| && SameAdmission(rows, later, filter, low, rows[c].key)
    ensures Span(later, filter, low, rows[c].key) == Span(rows, filter, low, rows[c].key)
  {
    var cursor := rows[c].key;
    hide Filter.Admits;
    forall key | key in Span(rows, filter, low, cursor)
      ensures key in Span(later, filter, low, cursor)
    {
      var row :| row in rows && filter.Admits(row) && Inside(row.key, low, cursor) && row.key == key;
      var i :| 0 <= i < |rows| && rows[i] == row;
      var j :| 0 <= j < |later| && SameJob(rows[i], later[j]);
      assert later[j] in later;
    }
    forall key | key in Span(later, filter, low, cursor)
      ensures key in Span(rows, filter, low, cursor)
    {
      var row :| row in later && filter.Admits(row) && Inside(row.key, low, cursor) && row.key == key;
      var j :| 0 <= j < |later| && later[j] == row;
      assert !Less(rows[c].key, later[j].key);
      var i :| 0 <= i < |rows| && SameJob(rows[i], later[j]);
      assert rows[i] in rows;
    }
  }

  /** The same keys are listed there after growth exactly when the filter takes the older jobs there as before. */
  lemma {:induction false} SpanStays(rows: seq<Row>, later: seq<Row>, filter: Filter, low: Option<Key>, c: nat)
    requires DistinctKeys(rows) && DistinctKeys(later) && Grown(rows, later) && c < |rows|
    ensures Span(later, filter, low, rows[c].key) == Span(rows, filter, low, rows[c].key)
            <==> SameAdmission(rows, later, filter, low, rows[c].key)
  {
    var cursor := rows[c].key;
    hide DistinctKeys, Filter.Admits;
    if Span(later, filter, low, cursor) == Span(rows, filter, low, cursor) {
      hide Span, Inside;
      forall i, j | 0 <= i < |rows| && 0 <= j < |later|
                    && rows[i].key == later[j].key && Inside(rows[i].key, low, cursor)
        ensures filter.Admits(rows[i]) == filter.Admits(later[j])
      {
        SpanOfRow(rows, filter, low, cursor, i);
        SpanOfRow(later, filter, low, cursor, j);
      }
    }
    if SameAdmission(rows, later, filter, low, cursor) {
      SpanKept(rows, later, filter, low, c);
    }
  }

  lemma {:induction false} KeysAsSet(a: seq<Row>)
    ensures KeySet(a) == set key | key in KeysOf(a)
  {
    forall row | row in a
      ensures row.key in KeysOf(a)
    {
      var k :| 0 <= k < |a| && a[k] == row;
      KeyAt(a, k);
    }
    forall key | key in KeysOf(a)
      ensures key in KeySet(a)
    {
      var k :| 0 <= k < |a| && KeysOf(a)[k] == key;
      KeyAt(a, k);
      assert a[k] in a;
    }
  }

  lemma {:induction false} KeysAgree(a: seq<Row>, b: seq<Row>)
    requires Descending(a) && Descending(b)
    ensures KeysOf(a) == KeysOf(b) <==> KeySet(a) == KeySet(b)
  {
    if KeySet(a) == KeySet(b) {
      SameKeys(a, b);
    }
    KeysAsSet(a);
    KeysAsSet(b);
  }

  /** Growth leaves what is listed behind the cursor of a job as it was exactly when the filter takes every older
      job behind it as before. */
  lemma {:induction false} RestStays(rows: seq<Row>, later: seq<Row>, filter: Filter, c: nat)
    requires DistinctKeys(rows) && DistinctKeys(later) && Grown(rows, later) && c < |rows|
    ensures KeysOf(After(Listing(later, filter), rows[c].key)) == KeysOf(After(Listing(rows, filter), rows[c].key))
            <==> SameAdmission(rows, later, filter, None, rows[c].key)
  {
    var cursor := rows[c].key;
    ListedInside(rows, filter, cursor, cursor);
    ListedInside(later, filter, cursor, cursor);
    SpanStays(rows, later, filter, None, c);
    hide Listing, After, Span, SameAdmission, DistinctKeys, Grown;
    KeysAgree(After(Listing(later, filter), cursor), After(Listing(rows, filter), cursor));
  }

  // What the reader sees of it.

  /** What it takes for the page behind the `m`-th listed job to be the next one: on the last page the filter takes
      every older job behind the cursor as before; on others every older one down to the last job of the page,
      and it lists some job behind that. */
  ghost predicate PageStays(rows: seq<Row>, later: seq<Row>, filter: Filter, limit: nat, m: nat) {
    var base := Listing(rows, filter);
    && 0 < m < |base| && limit >= 1
    && if m + limit >= |base| then SameAdmission(rows, later, filter, None, base[m - 1].key)
       else
         && SameAdmission(rows, later, filter, Some(base[m + limit - 1].key), base[m - 1].key)
         && Span(later, filter, None, base[m + limit - 1].key) != {}
  }

  lemma {:induction false} LastPage(rest: seq<Row>, base: seq<Row>, limit: nat, m: nat)
    requires limit >= 1 && m <= |base| <= m + limit
    ensures NextPage(FirstPage(rest, limit), base, limit, m) <==> KeysOf(rest) == KeysOf(base)[m..]
  {
    FirstPageFacts(rest, limit);
    hide FirstPage, KeysOf;
    assert rest[..|rest|] == rest;
    assert |rest| > limit ==> |KeysOf(rest)| > |KeysOf(base)[m..]|;
  }

  lemma {:induction false} LastKeys(rest: seq<Row>, base: seq<Row>, limit: nat, m: nat)
    requires 1 <= limit <= |rest| && m + limit <= |base|
    requires KeysOf(rest[..limit]) == KeysOf(base)[m..m + limit]
    ensures rest[limit - 1].key == base[m + limit - 1].key
  {
    KeyAt(rest[..limit], limit - 1);
    KeyAt(base, m + limit - 1);
  }

  lemma {:induction false} FullPage(rest: seq<Row>, base: seq<Row>, limit: nat, m: nat)
    requires limit >= 1 && m + limit < |base|
    ensures NextPage(FirstPage(rest, limit), base, limit, m)
            <==> |rest| > limit && KeysOf(rest[..limit]) == KeysOf(base)[m..m + limit]
  {
    FirstPageFacts(rest, limit);
    hide FirstPage, KeysOf;
    if |rest| > limit && KeysOf(rest[..limit]) == KeysOf(base)[m..m + limit] {
      LastKeys(rest, base, limit, m);
    }
  }

  lemma {:induction false} UpToRow(sorted: seq<Row>, n: nat)
    requires Descending(sorted) && 0 < n <= |sorted|
    ensures UpTo(sorted, sorted[n - 1].key) == sorted[..n]
  {
    var upper := UpTo(sorted, sorted[n - 1].key);
    AfterRow(sorted, n - 1);
    SplitAt(sorted, sorted[n - 1].key);
    hide *;
    assert sorted == sorted[..n] + sorted[n..] && upper == sorted[..|upper|];
  }

  lemma {:induction false} CutAt(rest: seq<Row>, end: Key, wanted: seq<Key>)
    requires Descending(rest) && wanted != [] && wanted[|wanted| - 1] == end
    ensures |rest| > |wanted| && KeysOf(rest[..|wanted|]) == wanted
            <==> KeysOf(UpTo(rest, end)) == wanted && After(rest, end) != []
  {
    SplitAt(rest, end);
    hide *;
    var n, upper, behind := |wanted|, UpTo(rest, end), After(rest, end);
    assert |rest| == |upper| + |behind|;
    if |rest| > n && KeysOf(rest[..n]) == wanted {
      KeyAt(rest[..n], n - 1);
      UpToRow(rest, n);
    }
    if KeysOf(upper) == wanted && behind != [] {
      assert rest[..n] == upper;
    }
  }

  /** A page that is not the last holds the next jobs exactly when these are the ones listed down to their last,
      and there is more behind. */
  lemma {:induction false} MiddlePage(rest: seq<Row>, base: seq<Row>, limit: nat, m: nat)
    requires limit >= 1 && m + limit < |base| && Descending(rest)
    ensures var end := base[m + limit - 1].key;
      NextPage(FirstPage(rest, limit), base, limit, m)
      <==> KeysOf(UpTo(rest, end)) == KeysOf(base)[m..m + limit] && After(rest, end) != []
  {
    FullPage(rest, base, limit, m);
    KeyAt(base, m + limit - 1);
    hide *;
    CutAt(rest, base[m + limit - 1].key, KeysOf(base)[m..m + limit]);
  }

  lemma {:induction false} RestDescends(sorted: seq<Row>, m: nat, k: nat)
    requires Descending(sorted) && 0 < m <= k < |sorted|
    ensures Descending(sorted[m..]) && Less(sorted[k].key, sorted[m - 1].key)
  {
  }

  lemma {:induction false} PartOfRest(rows: seq<Row>, m: nat, n: nat) returns (rest: seq<Row>)
    requires 0 < n && m + n <= |rows|
    ensures rest == rows[m..] && |rest| == |rows| - m
    ensures rest[n - 1] == rows[m + n - 1] && rest[..n] == rows[m..m + n]
  {
    rest := rows[m..];
  }

  lemma {:induction false} MiddleOf(sorted: seq<Row>, limit: nat, m: nat)
    requires Descending(sorted) && limit >= 1 && 0 < m && m + limit < |sorted|
    ensures Less(sorted[m + limit - 1].key, sorted[m - 1].key)
    ensures UpTo(After(sorted, sorted[m - 1].key), sorted[m + limit - 1].key) == sorted[m..m + limit]
  {
    RestDescends(sorted, m, m + limit - 1);
    AfterRow(sorted, m - 1);
    var rest := PartOfRest(sorted, m, limit);
    hide *;
    UpToRow(rest, limit);
  }

  lemma {:induction false} BaseUpTo(rows: seq<Row>, filter: Filter, limit: nat, m: nat)
    requires DistinctKeys(rows) && limit >= 1 && 0 < m && m + limit < |Listing(rows, filter)|
    ensures var base := Listing(rows, filter);
      && Less(base[m + limit - 1].key, base[m - 1].key)
      && KeysOf(UpTo(After(base, base[m - 1].key), base[m + limit - 1].key)) == KeysOf(base)[m..m + limit]
  {
    ListedRows(rows, filter);
    hide *;
    MiddleOf(Listing(rows, filter), limit, m);
    KeysOfPart(Listing(rows, filter), m, m + limit);
  }

  lemma {:induction false} MoreBehind(rows: seq<Row>, filter: Filter, cursor: Key, end: Key)
    requires DistinctKeys(rows) && Less(end, cursor)
    ensures After(After(Listing(rows, filter), cursor), end) != [] <==> Span(rows, filter, None, end) != {}
  {
    var listing := Listing(rows, filter);
    ListedRows(rows, filter);
    AfterFacts(listing, cursor);
    hide Listing;
    var behind := After(After(listing, cursor), end);
    AfterFacts(After(listing, cursor), end);
    hide After;
    if behind != [] {
      assert behind[0] in behind;
      assert behind[0].key in Span(rows, filter, None, end);
    }
    if key :| key in Span(rows, filter, None, end) {
      var row :| row in rows && filter.Admits(row) && Inside(row.key, None, end) && row.key == key;
      assert row in behind;
    }
  }

  lemma {:induction false} ListedRow(rows: seq<Row>, filter: Filter, m: nat) returns (c: nat)
    requires DistinctKeys(rows) && m < |Listing(rows, filter)|
    ensures c < |rows| && rows[c] == Listing(rows, filter)[m]
  {
    ListedRows(rows, filter);
    assert Listing(rows, filter)[m] in rows;
    c :| 0 <= c < |rows| && rows[c] == Listing(rows, filter)[m];
  }

  lemma {:induction false} LastStays(rows: seq<Row>, later: seq<Row>, filter: Filter, limit: nat, m: nat)
    requires DistinctKeys(rows) && DistinctKeys(later) && Grown(rows, later) && limit >= 1
    requires 0 < m < |Listing(rows, filter)| <= m + limit
    ensures var base := Listing(rows, filter);
      NextPage(FirstPage(After(Listing(later, filter), base[m - 1].key), limit), base, limit, m)
      <==> SameAdmission(rows, later, filter, None, base[m - 1].key)
  {
    var base := Listing(rows, filter);
    OwnRest(rows, filter, m);
    assert KeysOf(After(base, base[m - 1].key)) == KeysOf(base)[m..];
    hide *;
    var c := ListedRow(rows, filter, m - 1);
    RestStays(rows, later, filter, c);
    LastPage(After(Listing(later, filter), base[m - 1].key), base, limit, m);
  }

  lemma {:induction false} MiddleStays(rows: seq<Row>, later: seq<Row>, filter: Filter, limit: nat, m: nat)
    requires DistinctKeys(rows) && DistinctKeys(later) && Grown(rows, later) && limit >= 1
    requires 0 < m && m + limit < |Listing(rows, filter)|
    ensures var base := Listing(rows, filter);
      var end, cursor := base[m + limit - 1].key, base[m - 1].key;
      NextPage(FirstPage(After(Listing(later, filter), cursor), limit), base, limit, m)
      <==> SameAdmission(rows, later, filter, Some(end), cursor) && Span(later, filter, None, end) != {}
  {
    hide *;
    var base := Listing(rows, filter);
    var end, cursor := base[m + limit - 1].key, base[m - 1].key;
    var rest := After(Listing(later, filter), cursor);
    var c := ListedRow(rows, filter, m - 1);
    ListedInside(later, filter, end, cursor);
    ListedInside(rows, filter, end, cursor);
    SpanStays(rows, later, filter, Some(end), c);
    BaseUpTo(rows, filter, limit, m);
    KeysAgree(UpTo(rest, end), UpTo(After(base, cursor), end));
    MoreBehind(later, filter, cursor, end);
    MiddlePage(rest, base, limit, m);
  }

  /** The page behind the `m`-th job of the first listing, read after growth, is the next one exactly when it
      stays. */
  lemma {:induction false} NextExactlyWhenStays(rows: seq<Row>, later: seq<Row>, filter: Filter, limit: nat, m: nat)
    requires DistinctKeys(rows) && DistinctKeys(later) && Grown(rows, later) && limit >= 1
    requires 0 < m < |Listing(rows, filter)|
    ensures var base := Listing(rows, filter);
      NextPage(ListJobsPage(later, filter, limit, Some(base[m - 1].key)), base, limit, m)
      <==> PageStays(rows, later, filter, limit, m)
  {
    hide Grown, DistinctKeys, Listing, SameAdmission, Span, NextPage, FirstPage, After;
    if m + limit >= |Listing(rows, filter)| {
      LastStays(rows, later, filter, limit, m);
    } else {
      MiddleStays(rows, later, filter, limit, m);
    }
  }

  /** Every page so far was the next one. */
  ghost predicate ReadsThrough(stores: seq<seq<Row>>, filter: Filter, limit: nat, n: nat)
    requires 1 <= n <= |stores|
  {
    forall k | 1 <= k <= n :: HasRead(Follow(stores, filter, limit, k), Listing(stores[0], filter), Pages(k, limit))
  }

  ghost predicate PagesStay(stores: seq<seq<Row>>, filter: Filter, limit: nat, n: nat)
    requires 1 <= n <= |stores|
  {
    forall i | 1 <= i < n && Pages(i, limit) < |Listing(stores[0], filter)| ::
      PageStays(stores[0], stores[i], filter, limit, Pages(i, limit))
  }

  lemma {:induction false} FirstPageOnly(stores: seq<seq<Row>>, filter: Filter, limit: nat)
    requires |stores| >= 1 && HasRead(Follow(stores, filter, limit, 1), Listing(stores[0], filter), Pages(1, limit))
    ensures ReadsThrough(stores, filter, limit, 1) && PagesStay(stores, filter, limit, 1)
  {
    hide HasRead, Follow, Listing, Pages;
  }

  lemma {:induction false} OneMorePage(stores: seq<seq<Row>>, filter: Filter, limit: nat, n: nat)
    requires 2 <= n <= |stores|
    ensures ReadsThrough(stores, filter, limit, n)
            <==> && ReadsThrough(stores, filter, limit, n - 1)
                 && HasRead(Follow(stores, filter, limit, n), Listing(stores[0], filter), Pages(n, limit))
    ensures ReadsThrough(stores, filter, limit, n - 1) ==>
              HasRead(Follow(stores, filter, limit, n - 1), Listing(stores[0], filter), Pages(n - 1, limit))
    ensures PagesStay(stores, filter, limit, n)
            <==> && PagesStay(stores, filter, limit, n - 1)
                 && (Pages(n - 1, limit) < |Listing(stores[0], filter)| ==>
                       PageStays(stores[0], stores[n - 1], filter, limit, Pages(n - 1, limit)))
  {
    hide Pages, HasRead, Follow, Listing, PageStays;
  }

  /** While jobs with larger keys are created and statuses change, a reader following the cursors gets page by page
      exactly the jobs listed when the first page was read exactly when every page stays. */
  lemma {:induction false} ReadsThroughExactly(stores: seq<seq<Row>>, filter: Filter, limit: nat, n: nat)
    requires limit >= 1 && 1 <= n <= |stores|
    requires OnlyGrows(stores)
    ensures ReadsThrough(stores, filter, limit, n) <==> PagesStay(stores, filter, limit, n)
  {
    hide *;
    PagesNext(n, limit);
    if n == 1 {
      FollowStarts(stores, filter, limit);
      FirstPageOnly(stores, filter, limit);
    } else {
      var base, m := Listing(stores[0], filter), Pages(n - 1, limit);
      ReadsThroughExactly(stores, filter, limit, n - 1);
      OneMorePage(stores, filter, limit, n);
      if HasRead(Follow(stores, filter, limit, n - 1), base, m) {
        FollowNext(stores, filter, limit, n - 1, base, m);
        if m < |base| {
          PagesNext(n - 1, limit);
          HasGrown(stores, n - 1);
          NextExactlyWhenStays(stores[0], stores[n - 1], filter, limit, m);
        }
      }
    }
  }

  /** Whenever a further page is read, the filter takes the older jobs behind the cursor as before. */
  ghost predicate TakenAsBefore(stores: seq<seq<Row>>, filter: Filter, limit: nat)
    requires |stores| >= 1
  {
    forall i | 1 <= i < |stores| && 0 < Pages(i, limit) < |Listing(stores[0], filter)| ::
      SameAdmission(stores[0], stores[i], filter, None, Listing(stores[0], filter)[Pages(i, limit) - 1].key)
  }

  lemma {:induction false} TakenAt(stores: seq<seq<Row>>, filter: Filter, limit: nat, i: nat)
    requires OnlyGrows(stores) && 1 <= i < |stores| && 0 < Pages(i, limit) < |Listing(stores[0], filter)|
    requires filter.statuses.None? || TakenAsBefore(stores, filter, limit)
    ensures SameAdmission(stores[0], stores[i], filter, None, Listing(stores[0], filter)[Pages(i, limit) - 1].key)
  {
    hide Pages, Listing, SameAdmission, Grown, DistinctKeys;
    if filter.statuses.None? {
      StatusIsNoMatter(stores[0], stores[i], filter, None, Listing(stores[0], filter)[Pages(i, limit) - 1].key);
    }
  }

  lemma {:induction false} AllRests(stores: seq<seq<Row>>, filter: Filter, limit: nat)
    requires |stores| >= 1
    requires forall i | 1 <= i < |stores| && Pages(i, limit) < |Listing(stores[0], filter)| ::
               SameRest(stores[i], filter, Listing(stores[0], filter), Pages(i, limit))
    ensures SameRests(stores, filter, limit, Listing(stores[0], filter), |stores|)
  {
    hide Pages, Listing, SameRest;
  }

  lemma {:induction false} RestKept(rows: seq<Row>, later: seq<Row>, filter: Filter, m: nat)
    requires DistinctKeys(rows) && DistinctKeys(later) && Grown(rows, later) && 0 < m < |Listing(rows, filter)|
    requires SameAdmission(rows, later, filter, None, Listing(rows, filter)[m - 1].key)
    ensures SameRest(later, filter, Listing(rows, filter), m)
  {
    var base := Listing(rows, filter);
    ListedRows(rows, filter);
    assert base[m - 1] in rows;
    var c :| 0 <= c < |rows| && rows[c] == base[m - 1];
    hide Listing, SameAdmission, Grown, DistinctKeys;
    RestStays(rows, later, filter, c);
    OwnRest(rows, filter, m);
  }

  /** So jobs created and changed between the pages neither repeat nor hide the jobs there were when the first
      page was read, provided new keys are larger and, when a page is read, the filter takes the older jobs behind
      its cursor as before; with no status filter it always does. */
  lemma {:induction false} NewJobsDoNotDisturb(stores: seq<seq<Row>>, filter: Filter, limit: nat)
    requires limit >= 1 && |stores| >= 1
    requires OnlyGrows(stores)
    requires filter.statuses.None? || TakenAsBefore(stores, filter, limit)
    requires Pages(|stores|, limit) >= |Listing(stores[0], filter)|
    ensures var reader := Follow(stores, filter, limit, |stores|);
      reader.done && reader.keys == KeysOf(Listing(stores[0], filter))
  {
    hide *;
    forall i | 1 <= i < |stores| && Pages(i, limit) < |Listing(stores[0], filter)|
      ensures SameRest(stores[i], filter, Listing(stores[0], filter), Pages(i, limit))
    {
      PagesNext(i, limit);
      HasGrown(stores, i);
      TakenAt(stores, filter, limit, i);
      RestKept(stores[0], stores[i], filter, Pages(i, limit));
    }
    AllRests(stores, filter, limit);
    FollowingListsAll(stores, filter, limit, |stores|);
    AllRead(stores, filter, limit);
  }

  lemma {:induction false} SelectTwo(first: Row, second: Row, filter: Filter)
    requires filter.Admits(second)
    ensures Select([first, second], filter) == if filter.Admits(first) then [first, second] else [second]
  {
    assert [first, second][1..] == [second] && [second][1..] == [];
    assert Select([second], filter) == [second] + Select([], filter);
  }

  lemma {:induction false} SortTwo(older: Row, newer: Row)
    requires Less(older.key, newer.key)
    ensures NewestFirst([newer]) == [newer] && NewestFirst([older, newer]) == [newer, older]
  {
    assert [older, newer][1..] == [newer] && [newer][1..] == [];
    assert NewestFirst([newer]) == Insert(newer, NewestFirst([]));
    assert Insert(older, [newer]) == [newer] + Insert(older, []);
  }

  lemma {:induction false} FollowTwo(stores: seq<seq<Row>>, filter: Filter, older: Row, newer: Row)
    requires |stores| == 2 && Listing(stores[0], filter) == [newer, older] && Listing(stores[1], filter) == [newer]
    ensures KeysOf([newer, older]) == [newer.key, older.key]
    ensures Follow(stores, filter, 1, 2) == Reader([newer.key], None, true)
  {
    hide Listing;
    assert [newer, older][..1] == [newer] && KeysOf([newer]) == [newer.key];
    assert ListJobsPage(stores[0], filter, 1, None) == JobListPage([newer], Some(newer.key), true);
    assert Follow(stores, filter, 1, 0) == Reader([], None, false);
    assert Follow(stores, filter, 1, 1) == Reader([newer.key], Some(newer.key), false);
    assert After([newer], newer.key) == [];
    assert ListJobsPage(stores[1], filter, 1, Some(newer.key)) == JobListPage([], None, false);
  }

  /** With a status filter a job can go missing: the older of two queued jobs, when pages of one job are read
      and it starts running before the second page. */
  lemma {:induction false} StatusChangeHidesAJob(older: Row, newer: Row)
    requires Less(older.key, newer.key) && older.status == Queued && newer.status == Queued
    ensures var filter := Filter(Some({Queued}), None, None);
      var stores := [[older, newer], [older.(status := Running), newer]];
      && Grown(stores[0], stores[1]) && !SameAdmission(stores[0], stores[1], filter, None, newer.key)
      && KeysOf(Listing(stores[0], filter)) == [newer.key, older.key]
      && Follow(stores, filter, 1, 2) == Reader([newer.key], None, true)
  {
    var filter := Filter(Some({Queued}), None, None);
    var rows, later := [older, newer], [older.(status := Running), newer];
    var stores := [rows, later];
    assert SameJob(rows[0], later[0]) && SameJob(rows[1], later[1]);
    assert !filter.Admits(later[0]) && filter.Admits(rows[0]) && Inside(rows[0].key, None, newer.key);
    SelectTwo(older, newer, filter);
    SelectTwo(later[0], newer, filter);
    SortTwo(older, newer);
    assert Listing(rows, filter) == NewestFirst(rows) && Listing(later, filter) == NewestFirst([newer]);
    FollowTwo(stores, filter, older, newer);
  }
}
