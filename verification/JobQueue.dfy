/** The process-local queue, job store and lock coordinator as objects updated in place; every
    method is tied to the step of the state machine it carries out. */
module JobQueue {
  import opened Options
  import opened JobSystem

  datatype Token = InMemory(jobId: JobId)

  class InMemoryJobLockCoordinator {
    var tokens: map<JobId, Token>

    ghost predicate Valid()
      reads this
    {
      forall id | id in tokens :: tokens[id] == InMemory(id)
    }

    constructor ()
      ensures Valid() && tokens.Keys == {}
    {
      tokens := map[];
    }

    method AcquireJobLock(jobId: JobId) returns (token: Option<Token>)
      requires Valid()
      modifies this
      ensures Valid() && tokens.Keys == old(tokens.Keys) + {jobId}
      ensures token == if jobId in old(tokens) then None else Some(InMemory(jobId))
    {
      if jobId in tokens {
        return None;
      }
      tokens := tokens[jobId := InMemory(jobId)];
      return Some(InMemory(jobId));
    }

    method ReleaseJobLock(jobId: JobId, token: Token)
      requires Valid()
      modifies this
      ensures Valid() && tokens.Keys ==
              if token == InMemory(jobId) then old(tokens.Keys) - {jobId} else old(tokens.Keys)
    {
      if jobId in tokens && tokens[jobId] == token {
        tokens := tokens - {jobId};
      }
    }
  }

  class InMemoryJobStore {
    var jobs: map<JobId, Job>
    var order: seq<JobId>

    ghost predicate Valid()
      reads this
    {
      (forall k | 0 <= k < |order| :: order[k] in jobs) && (forall id | id in jobs :: id in order)
    }

    constructor ()
      ensures Valid() && jobs == map[]
    {
      jobs, order := map[], [];
    }

    method CreateJob(jobId: JobId)
      requires Valid() && jobId !in jobs
      modifies this
      ensures Valid() && jobs == old(jobs)[jobId := Job(Queued, None)]
    {
      jobs, order := jobs[jobId := Job(Queued, None)], order + [jobId];
    }

    /** Returns the unfinished job for this work if there is one, and creates one otherwise. */
    method CreateOrGetActiveProfileJob(freshId: JobId, workKey: int) returns (jobId: JobId, created: bool)
      requires Valid() && freshId !in jobs
      modifies this
      ensures Valid() && created == !ActiveFor(old(jobs), workKey)
      ensures created ==> jobId == freshId && jobs == old(jobs)[freshId := Job(Queued, Some(workKey))]
      ensures !created ==>
        jobs == old(jobs) && jobId in jobs && jobs[jobId].workKey == Some(workKey) && !Terminal(jobs[jobId].status)
    {
      for i := 0 to |order|
        invariant forall k | 0 <= k < i :: jobs[order[k]].workKey != Some(workKey) || Terminal(jobs[order[k]].status)
      {
        var existing := jobs[order[i]];
        if !Terminal(existing.status) && existing.workKey == Some(workKey) {
          return order[i], false;
        }
      }
      jobs, order := jobs[freshId := Job(Queued, Some(workKey))], order + [freshId];
      return freshId, true;
    }

    method GetJob(jobId: JobId) returns (job: Option<Job>)
      ensures job == if jobId in jobs then Some(jobs[jobId]) else None
    {
      return if jobId in jobs then Some(jobs[jobId]) else None;
    }

    /** Marks a job running, succeeded or failed; an unknown id raises. */
    method Mark(jobId: JobId, status: Status) returns (known: bool)
      requires Valid()
      modifies this`jobs
      ensures Valid() && known == (jobId in old(jobs)) && jobs == WithStatus(old(jobs), jobId, status)
    {
      if jobId !in jobs {
        return false;
      }
      jobs := jobs[jobId := jobs[jobId].(status := status)];
      return true;
    }
  }

  /** How many awaited calls are left at most. */
  function Rank(phase: Phase): nat {
    match phase
    case Reading => 7
    case Locking(_) => 6
    case Starting(_) => 5
    case Handling => 4
    case Recording => 3
    case Failing => 2
    case Releasing => 1
    case Leaving(_) => 0
  }

  /** Which calls of one turn return; the others raise. */
  datatype Calls = Calls(read: bool, lock: bool, start: bool, handle: bool, record: bool, fail: bool, release: bool)
  {
    predicate Returns(phase: Phase) {
      match phase
      case Reading => read
      case Locking(_) => lock
      case Starting(_) => start
      case Handling => handle
      case Recording => record
      case Failing => fail
      case Releasing => release
      case Leaving(_) => true
    }
  }

  /** A turn in which only the handler may fail. */
  function Undisturbed(handlerOk: bool): Calls {
    Calls(true, true, true, handlerOk, true, true, true)
  }

  /** The rest of a worker's turn when nobody interferes. */
  function RunAlone(t: Turn, calls: Calls): (t': Turn)
    requires t.worker.Working?
    ensures t'.worker.Working? && t'.worker.phase.Leaving?
    decreases Rank(t.worker.phase)
  {
    if t.worker.phase.Leaving? then t else RunAlone(Advance(t, calls.Returns(t.worker.phase)), calls)
  }

  /** The status a job ends with whose worker got its lock, whatever raises: success needs the job to have
      been marked running, handled and recorded, and anything else is recorded as a failure if that can be. */
  function Ending(status: Status, calls: Calls): Status {
    var started := status == Running || calls.start;
    if started && calls.handle && calls.record then Succeeded
    else if calls.fail then Failed
    else if started then Running
    else status
  }

  lemma {:induction false} ReleasedResult(t: Turn, calls: Calls)
    requires t.worker.Working? && t.worker.phase.Releasing?
    ensures RunAlone(t, calls)
            == Turn(t.worker.(phase := Leaving(false), cancelled := t.worker.cancelled && calls.release), t.store,
                    if calls.release then t.locks - {t.worker.item.jobId} else t.locks)
  {
    var t' := Advance(t, calls.release);
    assert RunAlone(t, calls) == RunAlone(t', calls) == t';
  }

  lemma {:induction false} FailedResult(t: Turn, calls: Calls)
    requires t.worker.Working? && t.worker.phase.Failing?
    ensures RunAlone(t, calls) == Turn(t.worker.(phase := Leaving(false),
                                                 cancelled := t.worker.cancelled && calls.fail && calls.release),
                                       if calls.fail then WithStatus(t.store, t.worker.item.jobId, Failed) else t.store,
                                       if calls.release then t.locks - {t.worker.item.jobId} else t.locks)
  {
    var t' := Advance(t, calls.fail);
    assert RunAlone(t, calls) == RunAlone(t', calls);
    ReleasedResult(t', calls);
  }

  lemma {:induction false} HandledResult(t: Turn, calls: Calls)
    requires t.worker.Working? && t.worker.phase.Handling? && t.worker.item.jobId in t.store && !t.worker.cancelled
    ensures RunAlone(t, calls)
            == Turn(t.worker.(phase := Leaving(false)),
                    if calls.handle && calls.record then WithStatus(t.store, t.worker.item.jobId, Succeeded)
                    else if calls.fail then WithStatus(t.store, t.worker.item.jobId, Failed) else t.store,
                    if calls.release then t.locks - {t.worker.item.jobId} else t.locks)
  {
    var t' := Advance(t, calls.handle);
    assert RunAlone(t, calls) == RunAlone(t', calls);
    if t'.worker.phase.Failing? {
      FailedResult(t', calls);
    } else {
      var t'' := Advance(t', calls.record);
      assert RunAlone(t', calls) == RunAlone(t'', calls);
      if calls.record {
        ReleasedResult(t'', calls);
      } else {
        FailedResult(t'', calls);
      }
    }
  }

  lemma {:induction false} LockedResult(t: Turn, calls: Calls)
    requires t.worker.Working? && t.worker.phase.Starting? && t.worker.item.jobId in t.store
    requires t.store[t.worker.item.jobId].status == t.worker.phase.seen && !Terminal(t.worker.phase.seen)
    requires !t.worker.cancelled
    ensures var id := t.worker.item.jobId;
      RunAlone(t, calls) == Turn(t.worker.(phase := Leaving(false)),
                                 WithStatus(t.store, id, Ending(t.store[id].status, calls)),
                                 if calls.release then t.locks - {id} else t.locks)
  {
    var id, t' := t.worker.item.jobId, Advance(t, calls.start);
    assert RunAlone(t, calls) == RunAlone(t', calls);
    if t'.worker.phase.Failing? {
      FailedResult(t', calls);
    } else {
      HandledResult(t', calls);
      hide RunAlone;
    }
  }

  /** A whole turn without interference.  A job that cannot be read, is unknown or finished, or whose lock
      cannot be asked for is left alone; a lock held elsewhere means another try later; otherwise the job
      ends as above, and the lock is given back unless that very call raises. */
  lemma {:induction false} AloneResult(item: Item, store: map<JobId, Job>, locks: set<JobId>, calls: Calls)
    ensures var t := RunAlone(Turn(Working(item, Reading, false), store, locks), calls);
      var id := item.jobId;
      var asked := calls.read && calls.lock && id in store && !Terminal(store[id].status);
      && t.worker == Working(item, Leaving(asked && id in locks), false)
      && (asked && id !in locks ==>
            && t.store == WithStatus(store, id, Ending(store[id].status, calls))
            && t.locks == if calls.release then locks else locks + {id})
      && (!(asked && id !in locks) ==> t.store == store && t.locks == locks)
  {
    var t0 := Turn(Working(item, Reading, false), store, locks);
    var t1 := Advance(t0, calls.read);
    if t1.worker.phase.Locking? {
      var t2 := Advance(t1, calls.lock);
      assert RunAlone(t0, calls) == RunAlone(t1, calls) == RunAlone(t2, calls);
      if t2.worker.phase.Starting? {
        LockedResult(t2, calls);
        assert WithStatus(store, item.jobId, store[item.jobId].status) == store;
      }
    }
  }

  /** A worker cancelled between taking a job's lock and recording its failure goes on to fail the job and to give
      the lock back, whether or not the interrupted call took effect.  It then ends if both calls return;
      if either raises, the cancellation is lost and the worker waits for more work. */
  lemma {:induction false} CancelledJobFails(t: Turn, landed: bool, calls: Calls)
    requires t.worker.Working? && t.worker.item.jobId in t.store
    requires t.worker.phase.Starting? || t.worker.phase.Handling? || t.worker.phase.Recording?
    ensures var end := RunAlone(Cancel(t, landed), calls);
      && end.worker == Working(t.worker.item, Leaving(false), calls.fail && calls.release)
      && (calls.fail ==> end.store == WithStatus(t.store, t.worker.item.jobId, Failed))
      && end.locks == if calls.release then t.locks - {t.worker.item.jobId} else t.locks
  {
    var c := Cancel(t, landed);
    FailedResult(c, calls);
    hide RunAlone;
    assert WithStatus(c.store, t.worker.item.jobId, Failed) == WithStatus(t.store, t.worker.item.jobId, Failed);
  }

  datatype JobKind = LadderIngestion | LadderPlayers | ProfileFetch(explicitMatchIds: bool)

  /** The priority a recovered job is queued with. */
  function PriorityForJob(kind: JobKind): int {
    match kind
    case ProfileFetch(explicitMatchIds) => if explicitMatchIds then 50 else 0
    case LadderPlayers => LADDER_PLAYERS_PRIORITY
    case LadderIngestion => 200
  }

  /** What recovery looks at in a stored job.  Ids are compared when creation times tie; any total order on them
      will do. */
  datatype StoredJob = StoredJob(jobId: JobId, kind: JobKind, status: Status, createdAt: int)

  predicate Older(a: StoredJob, b: StoredJob) {
    a.createdAt < b.createdAt || (a.createdAt == b.createdAt && a.jobId < b.jobId)
  }

  function Unfinished(jobs: seq<StoredJob>): seq<StoredJob> {
    if jobs == [] then []
    else if jobs[0].status == Queued || jobs[0].status == Running then [jobs[0]] + Unfinished(jobs[1..])
    else Unfinished(jobs[1..])
  }

  function InsertByAge(job: StoredJob, sorted: seq<StoredJob>): seq<StoredJob> {
    if sorted == [] || Older(job, sorted[0]) then [job] + sorted else [sorted[0]] + InsertByAge(job, sorted[1..])
  }

  function OldestFirst(jobs: seq<StoredJob>): seq<StoredJob> {
    if jobs == [] then [] else InsertByAge(jobs[0], OldestFirst(jobs[1..]))
  }

  predicate DistinctJobs(jobs: seq<StoredJob>) {
    forall a, b | 0 <= a < b < |jobs| :: jobs[a].jobId != jobs[b].jobId
  }

  predicate ByAge(jobs: seq<StoredJob>) {
    forall a, b | 0 <= a < b < |jobs| :: Older(jobs[a], jobs[b])
  }

  lemma {:induction false} InsertedByAge(job: StoredJob, sorted: seq<StoredJob>)
    requires ByAge(sorted) && forall k | 0 <= k < |sorted| :: sorted[k].jobId != job.jobId
    ensures ByAge(InsertByAge(job, sorted))
    ensures forall other :: other in InsertByAge(job, sorted) <==> other == job || other in sorted
  {
    if sorted == [] || Older(job, sorted[0]) {
    } else {
      InsertedByAge(job, sorted[1..]);
      assert sorted == [sorted[0]] + sorted[1..];
      var rest := InsertByAge(job, sorted[1..]);
      forall k | 0 <= k < |rest|
        ensures Older(sorted[0], rest[k])
      {
        assert rest[k] in rest;
        if rest[k] != job {
          var j :| 0 <= j < |sorted[1..]| && sorted[1..][j] == rest[k];
          assert sorted[j + 1] == rest[k];
        }
      }
    }
  }

  lemma {:induction false} UnfinishedFacts(jobs: seq<StoredJob>)
    requires DistinctJobs(jobs)
    ensures DistinctJobs(Unfinished(jobs))
    ensures forall job :: job in Unfinished(jobs) <==> job in jobs && !Terminal(job.status)
  {
    if jobs == [] {
    } else {
      UnfinishedFacts(jobs[1..]);
      assert jobs == [jobs[0]] + jobs[1..];
      var rest := Unfinished(jobs[1..]);
      forall k | 0 <= k < |rest|
        ensures rest[k].jobId != jobs[0].jobId
      {
        assert rest[k] in jobs[1..];
      }
    }
  }

  lemma {:induction false} OldestFirstFacts(jobs: seq<StoredJob>)
    requires DistinctJobs(jobs)
    ensures ByAge(OldestFirst(jobs)) && forall job :: job in OldestFirst(jobs) <==> job in jobs
  {
    if jobs == [] {
    } else {
      OldestFirstFacts(jobs[1..]);
      assert jobs == [jobs[0]] + jobs[1..];
      var rest := OldestFirst(jobs[1..]);
      forall k | 0 <= k < |rest|
        ensures rest[k].jobId != jobs[0].jobId
      {
        assert rest[k] in jobs[1..];
      }
      InsertedByAge(jobs[0], rest);
    }
  }

  /** The jobs recovery queues again, in the order in which it does. */
  function ToRecover(jobs: seq<StoredJob>): seq<StoredJob> {
    OldestFirst(Unfinished(jobs))
  }

  function UnfinishedAmong(jobs: seq<StoredJob>): set<StoredJob> {
    set job | job in jobs && !Terminal(job.status)
  }

  lemma {:induction false} ToRecoverFacts(jobs: seq<StoredJob>)
    requires DistinctJobs(jobs)
    ensures ByAge(ToRecover(jobs)) && DistinctJobs(ToRecover(jobs))
    ensures (set job | job in ToRecover(jobs)) == UnfinishedAmong(jobs)
  {
    UnfinishedFacts(jobs);
    OldestFirstFacts(Unfinished(jobs));
    var all := ToRecover(jobs);
    forall a, b | 0 <= a < b < |all|
      ensures all[a].jobId != all[b].jobId
    {
      assert all[a] in jobs && all[b] in jobs;
      var i :| 0 <= i < |jobs| && jobs[i] == all[a];
      var j :| 0 <= j < |jobs| && jobs[j] == all[b];
      assert Older(all[a], all[b]) && i != j;
    }
  }

  /** Queued entries: every id is registered, no id and no sequence number occurs twice. */
  ghost predicate Lined(items: set<Item>, ids: set<JobId>, sequence: int) {
    && (forall i | i in items :: i.jobId in ids && i.sequence < sequence)
    && (forall i, j | i in items && j in items && (i.sequence == j.sequence || i.jobId == j.jobId) :: i == j)
  }

  function Ids(items: set<Item>): set<JobId> {
    set i | i in items :: i.jobId
  }

  /** A queue with idle workers after one of them has taken and finished an item. */
  function RoundTrip(queue: Queue, item: Item, onManual: bool, retry: bool): Queue {
    queue.Take(item, onManual).SetWorker(onManual, Working(item, Leaving(retry), false)).Finish(onManual)
  }

  lemma {:induction false} RoundTripEffect(queue: Queue, item: Item, onManual: bool, retry: bool)
    requires queue.manual == Waiting && queue.automatic == Waiting
    ensures RoundTrip(queue, item, onManual, retry)
            == queue.(items := queue.items - {item}, ids := queue.ids - {item.jobId},
                      retrying := if retry && !queue.stopping
                                  then queue.retrying + multiset{Retry(item.jobId, item.priority)}
                                  else queue.retrying)
  {
  }

  /** Enqueueing the first `n` stored jobs one after the other. */
  function EnqueueAll(queue: Queue, jobs: seq<StoredJob>, n: nat): Queue
    requires n <= |jobs|
  {
    if n == 0 then queue
    else EnqueueAll(queue, jobs, n - 1).Enqueue(jobs[n - 1].jobId, PriorityForJob(jobs[n - 1].kind))
  }

  function Entry(jobs: seq<StoredJob>, k: nat): Item
    requires k < |jobs|
  {
    Item(PriorityForJob(jobs[k].kind), k, jobs[k].jobId)
  }

  /** The entries are those of the first `n` jobs. */
  ghost predicate Numbered(jobs: seq<StoredJob>, n: nat, items: set<Item>)
    requires n <= |jobs|
  {
    && (forall k | 0 <= k < n :: Entry(jobs, k) in items)
    && (forall i | i in items :: 0 <= i.sequence < n && i == Entry(jobs, i.sequence))
  }

  /** Enqueueing distinct jobs into a fresh queue queues exactly them, each once, with the priority of its
      kind and numbered by its place in the list. */
  lemma {:induction false} EnqueuedInOrder(jobs: seq<StoredJob>, n: nat)
    requires n <= |jobs| && DistinctJobs(jobs)
    ensures var queue := EnqueueAll(IDLE_QUEUE, jobs, n);
      && queue == IDLE_QUEUE.(items := queue.items, ids := Ids(queue.items), sequence := n)
      && Numbered(jobs, n, queue.items)
  {
    if n == 0 {
    } else {
      EnqueuedInOrder(jobs, n - 1);
      var queue, after := EnqueueAll(IDLE_QUEUE, jobs, n - 1), EnqueueAll(IDLE_QUEUE, jobs, n);
      var entry := Entry(jobs, n - 1);
      assert entry.jobId !in Ids(queue.items);
      assert after == queue.(items := queue.items + {entry}, ids := queue.ids + {entry.jobId}, sequence := n);
      assert Ids(queue.items + {entry}) == Ids(queue.items) + {entry.jobId};
      hide EnqueueAll, Ids;
    }
  }

  /** What a queue holds that has recovered these jobs. */
  function Recovered(jobs: seq<StoredJob>): Queue {
    EnqueueAll(IDLE_QUEUE, ToRecover(jobs), |ToRecover(jobs)|)
  }

  /** The entry a recovered job is queued under, for some sequence number. */
  predicate QueuedAs(item: Item, job: StoredJob) {
    item.jobId == job.jobId && item.priority == PriorityForJob(job.kind)
  }

  /** Every job has its entry, and every entry its job. */
  ghost predicate HoldsJobs(items: set<Item>, jobs: set<StoredJob>) {
    && (forall job | job in jobs :: exists i :: i in items && QueuedAs(i, job))
    && (forall i | i in items :: exists job :: job in jobs && QueuedAs(i, job))
  }

  lemma {:induction false} CountEntries(jobs: seq<StoredJob>, n: nat, items: set<Item>)
    requires n <= |jobs| && Numbered(jobs, n, items)
    ensures |items| == n
  {
    if n == 0 {
      assert items == {};
    } else {
      CountEntries(jobs, n - 1, items - {Entry(jobs, n - 1)});
    }
  }

  lemma {:induction false} EntriesAreJobs(jobs: seq<StoredJob>, items: set<Item>)
    requires Numbered(jobs, |jobs|, items)
    ensures |items| == |jobs| && HoldsJobs(items, set job | job in jobs)
  {
    var all := set job | job in jobs;
    hide PriorityForJob;
    CountEntries(jobs, |jobs|, items);
    forall job | job in jobs
      ensures exists i :: i in items && QueuedAs(i, job)
    {
      var k :| 0 <= k < |jobs| && jobs[k] == job;
      assert QueuedAs(Entry(jobs, k), job);
    }
    forall i | i in items
      ensures exists job :: job in all && QueuedAs(i, job)
    {
      assert QueuedAs(i, jobs[i.sequence]) && jobs[i.sequence] in jobs;
    }
  }

  /** A fresh queue that recovers holds exactly the unfinished jobs, each once, and nothing else is registered. */
  lemma {:induction false} RecoveredExactly(jobs: seq<StoredJob>)
    requires DistinctJobs(jobs)
    ensures var queue := Recovered(jobs);
      && queue == IDLE_QUEUE.(items := queue.items, ids := Ids(queue.items), sequence := |queue.items|)
      && HoldsJobs(queue.items, UnfinishedAmong(jobs))
  {
    var list := ToRecover(jobs);
    ToRecoverFacts(jobs);
    EnqueuedInOrder(list, |list|);
    hide *;
    EntriesAreJobs(list, EnqueueAll(IDLE_QUEUE, list, |list|).items);
  }

  /** The order in which kinds of work go first: refreshes before given lists of matches, profiles before
      ladders, ladder players before the ladder ingestion. */
  function Place(kind: JobKind): nat {
    match kind
    case ProfileFetch(explicitMatchIds) => if explicitMatchIds then 1 else 0
    case LadderPlayers => 2
    case LadderIngestion => 3
  }

  predicate SoonerThan(job: StoredJob, other: StoredJob) {
    Place(job.kind) < Place(other.kind) || (job.kind == other.kind && (job == other || Older(job, other)))
  }

  lemma {:induction false} ListedAhead(list: seq<StoredJob>, items: set<Item>, item: Item, k: nat, onManual: bool)
    requires Numbered(list, |list|, items) && ByAge(list) && item in items && k < |list|
    requires IsManual(item) == onManual && list[k].kind.ProfileFetch? == onManual
    requires forall other | other in items && IsManual(other) == onManual && other != item :: Before(item, other)
    ensures SoonerThan(list[item.sequence], list[k])
  {
    assert Entry(list, k) in items && IsManual(Entry(list, k)) == onManual;
    assert item.sequence != k ==> Before(item, Entry(list, k));
  }

  /** Among the unfinished jobs of one side this one is of the most urgent kind, and of that kind the oldest. */
  ghost predicate GoesFirst(jobs: seq<StoredJob>, job: StoredJob, onManual: bool) {
    && job in UnfinishedAmong(jobs) && job.kind.ProfileFetch? == onManual
    && forall other | other in UnfinishedAmong(jobs) && other.kind.ProfileFetch? == onManual :: SoonerThan(job, other)
  }

  /** After recovery a worker is served, among the unfinished jobs of its side, the one of the most urgent kind,
      and among those the oldest; the manual side is exactly that of profile jobs. */
  lemma {:induction false} RecoveredNext(jobs: seq<StoredJob>, item: Item, onManual: bool)
    requires DistinctJobs(jobs) && Recovered(jobs).IsNext(item, onManual)
    ensures exists job :: QueuedAs(item, job) && GoesFirst(jobs, job, onManual)
  {
    var list, items := ToRecover(jobs), Recovered(jobs).items;
    ToRecoverFacts(jobs);
    EnqueuedInOrder(list, |list|);
    var job := list[item.sequence];
    assert QueuedAs(item, job) && job in list && (forall other | other in UnfinishedAmong(jobs) :: other in list);
    hide ToRecover, UnfinishedAmong, EnqueueAll, Ids, Numbered, QueuedAs, DistinctJobs;
    forall other | other in list && other.kind.ProfileFetch? == onManual
      ensures SoonerThan(job, other)
    {
      var k :| 0 <= k < |list| && list[k] == other;
      ListedAhead(list, items, item, k, onManual);
    }
  }

  function FailAll(store: map<JobId, Job>, ids: set<JobId>): (after: map<JobId, Job>)
    ensures after.Keys == store.Keys
  {
    map id | id in store :: if id in ids then store[id].(status := Failed) else store[id]
  }

  lemma {:induction false} FailNobody(store: map<JobId, Job>)
    ensures FailAll(store, {}) == store
  {
  }

  lemma {:induction false} FailNext(store: map<JobId, Job>, ids: set<JobId>, id: JobId)
    ensures WithStatus(FailAll(store, ids), id, Failed) == FailAll(store, ids + {id})
  {
  }

  /** The store knows the job of every one of these entries. */
  predicate AllStored(items: set<Item>, known: set<JobId>) {
    forall i | i in items :: i.jobId in known
  }

  /** What the drain of a side takes from it: the entries with no unknown job ahead of theirs. */
  ghost function Drained(items: set<Item>, known: set<JobId>): set<Item> {
    set i | i in items && forall u | u in items && Before(u, i) :: u.jobId in known
  }

  lemma {:induction false} AllDrained(items: set<Item>, known: set<JobId>)
    requires AllStored(items, known)
    ensures Drained(items, known) == items
  {
  }

  /** What shutdown drains: the manual side, and after it the automatic one unless the manual drain raised. */
  ghost function DrainedInTurn(manual: set<Item>, automatic: set<Item>, known: set<JobId>): set<Item> {
    Drained(manual, known) + if AllStored(manual, known) then Drained(automatic, known) else {}
  }

  /** The drain raised on the manual side, or both sides were drained one after the other. */
  lemma {:induction false} SidesInTurn(store: map<JobId, Job>, manual: set<Item>, automatic: set<Item>, ids: set<JobId>)
    requires forall i | i in manual :: IsManual(i)
    requires forall i | i in automatic :: !IsManual(i)
    ensures AllStored(manual + automatic, store.Keys)
            <==> AllStored(manual, store.Keys) && AllStored(automatic, store.Keys)
    ensures var drained := DrainedInTurn(manual, automatic, store.Keys);
      if AllStored(manual, store.Keys) then
        var after := Drained(automatic, store.Keys);
        && Drained(manual, store.Keys) == manual
        && manual + automatic - drained == automatic - after
        && ids - Ids(drained) == ids - Ids(manual) - Ids(after)
        && FailAll(store, Ids(drained)) == FailAll(FailAll(store, Ids(manual)), Ids(after))
      else
        drained == Drained(manual, store.Keys) && manual + automatic - drained == (manual - drained) + automatic
  {
    forall i | i in manual + automatic
      ensures i in manual || i in automatic
    {
    }
    if AllStored(manual, store.Keys) {
      AllDrained(manual, store.Keys);
      assert Ids(manual + Drained(automatic, store.Keys)) == Ids(manual) + Ids(Drained(automatic, store.Keys));
    }
  }

  /** These entries come before all the others, and the store knows their jobs. */
  ghost predicate Ahead(done: set<Item>, all: set<Item>, known: set<JobId>) {
    && done <= all && AllStored(done, known)
    && forall d, i | d in done && i in all - done :: Before(d, i)
  }

  lemma {:induction false} DrainMoves(done: set<Item>, all: set<Item>, known: set<JobId>, next: Item)
    requires Ahead(done, all, known) && next in all - done
    requires forall i | i in all - done && i != next :: Before(next, i)
    ensures next.jobId in known ==> Ahead(done + {next}, all, known)
    ensures next.jobId !in known ==> Drained(all, known) == done + {next} && !AllStored(all, known)
  {
    forall i | i in all
      ensures next.jobId !in known ==> (i in Drained(all, known) <==> i in done + {next})
    {
      if i in done + {next} {
        forall u | u in all && Before(u, i)
          ensures u in done
        {
          assert u in done || u in all - done;
          assert u in done || u == next || (i in done && Before(i, u)) || (i == next && Before(next, u));
        }
      } else {
        assert Before(next, i);
      }
    }
  }

  method First(items: set<Item>) returns (best: Item)
    requires items != {}
    requires forall i, j | i in items && j in items && i.sequence == j.sequence :: i == j
    ensures best in items && forall i | i in items && i != best :: Before(best, i)
  {
    best :| best in items;
    var rest := items - {best};
    while rest != {}
      invariant best in items && best !in rest && rest <= items
      invariant forall i | i in items && i !in rest && i != best :: Before(best, i)
      decreases |rest|
    {
      var item: Item :| item in rest;
      rest := rest - {item};
      if Before(item, best) {
        best := item;
      }
    }
  }

  class InMemoryJobQueue {
    const store: InMemoryJobStore
    const coordinator: InMemoryJobLockCoordinator
    var manualQueue: set<Item>
    var automaticQueue: set<Item>
    var sequence: int
    var enqueuedJobIds: set<JobId>
    var retryTasks: multiset<Retry>
    var stopping: bool

    /** The queue of the state machine, given what its two workers are doing. */
    function Seen(manual: Worker, automatic: Worker): Queue
      reads this
    {
      Queue(manualQueue + automaticQueue, enqueuedJobIds, sequence, retryTasks, stopping, manual, automatic)
    }

    function Side(onManual: bool): set<Item>
      reads this
    {
      if onManual then manualQueue else automaticQueue
    }

    ghost predicate Valid()
      reads this
    {
      && (forall i | i in manualQueue :: IsManual(i)) && (forall i | i in automaticQueue :: !IsManual(i))
      && Lined(manualQueue + automaticQueue, enqueuedJobIds, sequence)
    }

    constructor (store: InMemoryJobStore, coordinator: InMemoryJobLockCoordinator)
      ensures Valid() && Seen(Waiting, Waiting) == IDLE_QUEUE
      ensures this.store == store && this.coordinator == coordinator
    {
      this.store, this.coordinator := store, coordinator;
      manualQueue, automaticQueue, sequence := {}, {}, 0;
      enqueuedJobIds, retryTasks, stopping := {}, multiset{}, false;
    }

    method Enqueue(jobId: JobId, priority: int) returns (raised: bool)
      requires Valid()
      modifies this
      ensures Valid() && raised == old(stopping)
      ensures stopping == old(stopping) && retryTasks == old(retryTasks)
      ensures var added := !old(stopping) && jobId !in old(enqueuedJobIds);
        var item := Item(priority, old(sequence), jobId);
        && manualQueue == old(manualQueue) + (if added && priority < 100 then {item} else {})
        && automaticQueue == old(automaticQueue) + (if added && priority >= 100 then {item} else {})
        && enqueuedJobIds == old(enqueuedJobIds) + (if added then {jobId} else {})
        && sequence == old(sequence) + if added then 1 else 0
      ensures forall manual, automatic ::
                Seen(manual, automatic) == old(Seen(manual, automatic)).Enqueue(jobId, priority)
    {
      if stopping {
        return true;
      }
      if jobId in enqueuedJobIds {
        return false;
      }
      enqueuedJobIds := enqueuedJobIds + {jobId};
      var item := Item(priority, sequence, jobId);
      if priority < LADDER_PLAYERS_PRIORITY {
        manualQueue := manualQueue + {item};
      } else {
        automaticQueue := automaticQueue + {item};
      }
      sequence := sequence + 1;
      assert Seen(Off, Off).items == old(Seen(Off, Off)).items + {item};
      return false;
    }

    /** The entry a worker gets: lowest priority number first, then first come; none when its side
        is empty. */
    method Get(onManual: bool) returns (next: Option<Item>)
      requires Valid()
      modifies this`manualQueue, this`automaticQueue
      ensures Valid() && (next.None? <==> old(Side(onManual)) == {})
      ensures Side(!onManual) == old(Side(!onManual))
      ensures next.None? ==> Side(onManual) == {}
      ensures next.Some? ==>
        && old(Seen(Waiting, Waiting)).IsNext(next.value, onManual)
        && Side(onManual) == old(Side(onManual)) - {next.value}
        && forall i | i in manualQueue + automaticQueue :: i.jobId != next.value.jobId
    {
      if Side(onManual) == {} {
        return None;
      }
      var best := First(Side(onManual));
      assert Seen(Waiting, Waiting).IsNext(best, onManual);
      if onManual {
        manualQueue := manualQueue - {best};
      } else {
        automaticQueue := automaticQueue - {best};
      }
      return Some(best);
    }

    /** One job from reading it to giving its lock back, with nobody interfering in between. */
    method ProcessJob(item: Item, handlerOk: bool) returns (retry: bool)
      requires store.Valid() && coordinator.Valid()
      modifies store`jobs, coordinator
      ensures store.Valid() && coordinator.Valid()
      ensures var t := RunAlone(Turn(Working(item, Reading, false), old(store.jobs), old(coordinator.tokens.Keys)),
                               Undisturbed(handlerOk));
        && t == Turn(Working(item, Leaving(retry), false), store.jobs, coordinator.tokens.Keys)
    {
      hide RunAlone;
      AloneResult(item, store.jobs, coordinator.tokens.Keys, Undisturbed(handlerOk));
      var jobId := item.jobId;
      var job := store.GetJob(jobId);
      if job.None? {
        return false;
      }
      if job.value.status != Queued && job.value.status != Running {
        return false;
      }
      var lockToken := coordinator.AcquireJobLock(jobId);
      if lockToken.None? {
        assert coordinator.tokens.Keys == old(coordinator.tokens.Keys);
        return true;
      }
      if job.value.status == Queued {
        var _ := store.Mark(jobId, Running);
      }
      var _ := store.Mark(jobId, if handlerOk then Succeeded else Failed);
      coordinator.ReleaseJobLock(jobId, lockToken.value);
      assert coordinator.tokens.Keys == old(coordinator.tokens.Keys);
      return false;
    }

    /** One round of a worker whose neighbour waits: take a job, process it, free its id, and start a retry
        timer when its lock was taken. */
    method RunOnce(onManual: bool, handlerOk: bool) returns (taken: Option<Item>, retry: bool)
      requires Valid() && store.Valid() && coordinator.Valid()
      modifies this, store`jobs, coordinator
      ensures Valid() && store.Valid() && coordinator.Valid()
      ensures taken.None? ==> Seen(Waiting, Waiting) == old(Seen(Waiting, Waiting)) && old(Side(onManual)) == {}
      ensures taken.Some? ==>
        var item, before := taken.value, old(Seen(Waiting, Waiting));
        && before.IsNext(item, onManual)
        && RunAlone(Turn(Working(item, Reading, false), old(store.jobs), old(coordinator.tokens.Keys)),
                    Undisturbed(handlerOk))
           == Turn(Working(item, Leaving(retry), false), store.jobs, coordinator.tokens.Keys)
        && Seen(Waiting, Waiting) == RoundTrip(before, item, onManual, retry)
    {
      hide RunAlone, Lined, RoundTrip, Queue.IsNext, Terminal;
      retry := false;
      taken := Get(onManual);
      if taken.None? {
        return;
      }
      var item := taken.value;
      assert Seen(Waiting, Waiting).items == old(Seen(Waiting, Waiting)).items - {item};
      retry := ProcessJob(item, handlerOk);
      Conclude(item, retry);
      RoundTripEffect(old(Seen(Waiting, Waiting)), item, onManual, retry);
    }

    /** A retry timer goes off: it is forgotten, and its job queued again unless the queue is stopping. */
    method RetryEnqueue(retry: Retry)
      requires Valid() && retry in retryTasks
      modifies this
      ensures Valid() && Seen(Waiting, Waiting) == old(Seen(Waiting, Waiting)).Fire(retry)
      ensures stopping == old(stopping) && retryTasks == old(retryTasks) - multiset{retry}
      ensures var added := !old(stopping) && retry.jobId !in old(enqueuedJobIds);
        var item := Item(retry.priority, old(sequence), retry.jobId);
        && manualQueue == old(manualQueue) + (if added && retry.priority < 100 then {item} else {})
        && automaticQueue == old(automaticQueue) + (if added && retry.priority >= 100 then {item} else {})
        && enqueuedJobIds == old(enqueuedJobIds) + (if added then {retry.jobId} else {})
        && sequence == old(sequence) + if added then 1 else 0
    {
      retryTasks := retryTasks - multiset{retry};
      if !stopping {
        var _ := Enqueue(retry.jobId, retry.priority);
      }
    }

    /** What a worker does once a job is processed. */
    method Conclude(item: Item, retry: bool)
      requires Valid() && forall i | i in manualQueue + automaticQueue :: i.jobId != item.jobId
      modifies this`enqueuedJobIds, this`retryTasks
      ensures Valid()
      ensures Seen(Waiting, Waiting) ==
        var before := old(Seen(Waiting, Waiting));
        before.(ids := before.ids - {item.jobId},
                retrying := if retry && !before.stopping
                            then before.retrying + multiset{Retry(item.jobId, item.priority)}
                            else before.retrying)
    {
      Discard(item.jobId);
      if retry && !stopping {
        retryTasks := retryTasks + multiset{Retry(item.jobId, item.priority)};
      }
    }

    /** Frees the id of a job that is not queued any more. */
    method Discard(jobId: JobId)
      requires Valid() && forall i | i in manualQueue + automaticQueue :: i.jobId != jobId
      modifies this`enqueuedJobIds
      ensures Valid() && enqueuedJobIds == old(enqueuedJobIds) - {jobId}
    {
      enqueuedJobIds := enqueuedJobIds - {jobId};
    }

    /** Queues the unfinished ones of the stored jobs again, the oldest first; a queue that is stopping raises at the
        first of them. */
    method RecoverQueuedJobs(stored: seq<StoredJob>) returns (raised: bool, count: nat)
      requires Valid()
      modifies this
      ensures Valid() && raised == (old(stopping) && ToRecover(stored) != [])
      ensures raised ==> Seen(Waiting, Waiting) == old(Seen(Waiting, Waiting))
      ensures !raised ==>
        && count == |ToRecover(stored)|
        && Seen(Waiting, Waiting) == EnqueueAll(old(Seen(Waiting, Waiting)), ToRecover(stored), count)
    {
      var jobs := OldestFirst(Unfinished(stored));
      hide OldestFirst, Unfinished;
      raised, count := false, |jobs|;
      for k := 0 to |jobs|
        invariant Valid() && !raised && stopping == old(stopping) && (k > 0 ==> !stopping)
        invariant Seen(Waiting, Waiting) == EnqueueAll(old(Seen(Waiting, Waiting)), jobs, k)
      {
        raised := Enqueue(jobs[k].jobId, PriorityForJob(jobs[k].kind));
        if raised {
          return;
        }
      }
    }

    /** The part of shutdown that follows once both workers are gone: the manual side is drained, and then the
        automatic one, unless the first drain raised. */
    method FinishStop() returns (raised: bool)
      requires Valid() && store.Valid()
      modifies this, store`jobs
      ensures Valid() && store.Valid()
      ensures raised <==> !AllStored(old(manualQueue + automaticQueue), old(store.jobs.Keys))
      ensures var drained := DrainedInTurn(old(manualQueue), old(automaticQueue), old(store.jobs.Keys));
        && Seen(Off, Off) == Queue(old(manualQueue + automaticQueue) - drained, old(enqueuedJobIds) - Ids(drained),
                                   old(sequence), multiset{}, true, Off, Off)
        && store.jobs == FailAll(old(store.jobs), Ids(drained))
    {
      stopping := true;
      retryTasks := multiset{};
      ghost var manual, automatic, ids, jobs := manualQueue, automaticQueue, enqueuedJobIds, store.jobs;
      ghost var drained := DrainedInTurn(manual, automatic, jobs.Keys);
      SidesInTurn(jobs, manual, automatic, ids);
      hide Lined, Drained, DrainedInTurn, FailAll, IsManual, Ids, AllStored, Valid, InMemoryJobStore.Valid;
      raised := FailQueuedJobs(true);
      if !raised {
        assert manualQueue == {} && automaticQueue == automatic;
        assert store.jobs == FailAll(jobs, Ids(manual)) && enqueuedJobIds == ids - Ids(manual);
        raised := FailQueuedJobs(false);
        assert manualQueue == {};
      }
      assert manualQueue + automaticQueue == manual + automatic - drained;
      assert enqueuedJobIds == ids - Ids(drained) && store.jobs == FailAll(jobs, Ids(drained));
    }

    /** The shutdown drain of one side: its entries are taken in order, each one's job failed and its id freed, up to
        one whose job the store does not know: that raises, and what is queued behind it stays. */
    method FailQueuedJobs(onManual: bool) returns (raised: bool)
      requires Valid() && store.Valid()
      modifies this`manualQueue, this`automaticQueue, this`enqueuedJobIds, store`jobs
      ensures Valid() && store.Valid()
      ensures raised <==> !AllStored(old(Side(onManual)), old(store.jobs.Keys))
      ensures var drained := Drained(old(Side(onManual)), old(store.jobs.Keys));
        && Side(onManual) == old(Side(onManual)) - drained && Side(!onManual) == old(Side(!onManual))
        && enqueuedJobIds == old(enqueuedJobIds) - Ids(drained)
        && store.jobs == FailAll(old(store.jobs), Ids(drained))
    {
      hide FailAll, Lined;
      ghost var all, known := Side(onManual), store.jobs.Keys;
      ghost var done: set<Item> := {};
      FailNobody(store.jobs);
      assert Ids(done) == {};
      while true
        invariant Valid() && store.Valid()
        invariant Ahead(done, all, known) && Side(onManual) == all - done && Side(!onManual) == old(Side(!onManual))
        invariant enqueuedJobIds == old(enqueuedJobIds) - Ids(done)
        invariant store.jobs == FailAll(old(store.jobs), Ids(done))
        decreases Side(onManual)
      {
        var next := Get(onManual);
        if next.None? {
          assert done == all;
          AllDrained(all, known);
          return false;
        }
        var marked := store.Mark(next.value.jobId, Failed);
        Discard(next.value.jobId);
        DrainMoves(done, all, known, next.value);
        assert Ids(done + {next.value}) == Ids(done) + {next.value.jobId};
        FailNext(old(store.jobs), Ids(done), next.value.jobId);
        if !marked {
          return true;
        }
        done := done + {next.value};
      }
    }
  }
}
