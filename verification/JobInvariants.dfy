/** What every step of the job queues keeps: the books on queued and held ids, mutual exclusion of
    handlers through the job locks, and, while nothing raises and nobody stops, every accepted job. */
module JobInvariants {
  import opened JobSystem

  function At(s: System, q: QueueId, onManual: bool): Worker
    requires q in s.queues
  {
    s.queues[q].Worker(onManual)
  }

  ghost predicate HeldApart(queue: Queue, onManual: bool) {
    var w := queue.Worker(onManual);
    w.Working? ==>
      && w.item.jobId in queue.ids && IsManual(w.item) == onManual
      && forall i | i in queue.items :: i.jobId != w.item.jobId
  }

  /** The ids of one queue are those of its waiting items and those its workers hold, each once. */
  ghost predicate Books(queue: Queue) {
    && (forall i | i in queue.items :: i.jobId in queue.ids && i.sequence < queue.sequence)
    && (forall i, j | i in queue.items && j in queue.items && (i.jobId == j.jobId || i.sequence == j.sequence)
               :: i == j)
    && HeldApart(queue, true) && HeldApart(queue, false)
    && !(queue.manual.Working? && queue.automatic.Working? && queue.manual.item.jobId == queue.automatic.item.jobId)
    && (forall id | id in queue.ids ::
          queue.manual.HoldsJob(id) || queue.automatic.HoldsJob(id) || exists i :: i in queue.items && i.jobId == id)
  }

  lemma {:induction false} EnqueueBalances(queue: Queue, jobId: JobId, priority: int)
    requires Books(queue)
    ensures Books(queue.Enqueue(jobId, priority))
  {
    var after := queue.Enqueue(jobId, priority);
    if after != queue {
      var item := Item(priority, queue.sequence, jobId);
      assert item in after.items && item.jobId == jobId;
      forall id | id in after.ids
        ensures after.manual.HoldsJob(id) || after.automatic.HoldsJob(id)
                || exists i :: i in after.items && i.jobId == id
      {
        if id != jobId && !queue.manual.HoldsJob(id) && !queue.automatic.HoldsJob(id) {
          var i :| i in queue.items && i.jobId == id;
          assert i in after.items;
        }
      }
    }
  }

  lemma {:induction false} TakeBalances(queue: Queue, item: Item, onManual: bool)
    requires Books(queue) && queue.Worker(onManual) == Waiting && queue.IsNext(item, onManual)
    ensures Books(queue.Take(item, onManual))
  {
    var after := queue.Take(item, onManual);
    assert after.Worker(onManual).HoldsJob(item.jobId);
    forall id | id in after.ids
      ensures after.manual.HoldsJob(id) || after.automatic.HoldsJob(id) || exists i :: i in after.items && i.jobId == id
    {
      if id != item.jobId && !queue.manual.HoldsJob(id) && !queue.automatic.HoldsJob(id) {
        var i :| i in queue.items && i.jobId == id;
        assert i in after.items;
      }
    }
  }

  lemma {:induction false} FinishBalances(queue: Queue, onManual: bool)
    requires Books(queue) && queue.Worker(onManual).Working? && queue.Worker(onManual).phase.Leaving?
    ensures Books(queue.Finish(onManual))
  {
    var after, gone := queue.Finish(onManual), queue.Worker(onManual).item.jobId;
    assert after.items == queue.items && after.ids == queue.ids - {gone};
    assert after.Worker(!onManual) == queue.Worker(!onManual);
    forall id | id in after.ids
      ensures after.manual.HoldsJob(id) || after.automatic.HoldsJob(id) || exists i :: i in after.items && i.jobId == id
    {
    }
  }

  lemma {:induction false} DropBalances(queue: Queue, item: Item)
    requires Books(queue) && item in queue.items
    ensures Books(queue.Drop(item))
  {
    var after := queue.Drop(item);
    forall id | id in after.ids
      ensures after.manual.HoldsJob(id) || after.automatic.HoldsJob(id) || exists i :: i in after.items && i.jobId == id
    {
      if !queue.manual.HoldsJob(id) && !queue.automatic.HoldsJob(id) {
        var i :| i in queue.items && i.jobId == id;
        assert i in after.items;
      }
    }
  }

  /** A worker that only changes phase, or starts or stops waiting, leaves the books alone. */
  lemma {:induction false} SetWorkerBalances(queue: Queue, onManual: bool, w: Worker)
    requires Books(queue)
    requires if w.Working? then queue.Worker(onManual).Working? && queue.Worker(onManual).item == w.item
             else !queue.Worker(onManual).Working?
    ensures Books(queue.SetWorker(onManual, w))
  {
    var after := queue.SetWorker(onManual, w);
    assert after.Worker(!onManual) == queue.Worker(!onManual);
    forall id | id in after.ids
      ensures after.manual.HoldsJob(id) || after.automatic.HoldsJob(id) || exists i :: i in after.items && i.jobId == id
    {
      assert queue.Worker(onManual).HoldsJob(id) == w.HoldsJob(id);
    }
  }

  ghost predicate Moved(t: Turn, t': Turn)
    requires t.worker.Working?
  {
    var id := t.worker.item.jobId;
    && t'.worker.Working? && t'.worker.item == t.worker.item
    && (forall other | other != id :: other in t'.locks <==> other in t.locks)
    && (t'.worker.HoldsLock() && t.worker.HoldsLock() ==> t'.locks == t.locks)
    && (t'.worker.HoldsLock() && !t.worker.HoldsLock() ==> id !in t.locks && id in t'.locks)
    && (id in t.locks && id !in t'.locks ==> t.worker.HoldsLock())
    && t'.store.Keys == t.store.Keys
    && (t'.store == t.store || t.worker.HoldsLock())
    && (forall other | other != id && other in t.store :: t'.store[other] == t.store[other])
    && (id in t.store ==> t'.store[id].workKey == t.store[id].workKey)
  }

  /** What one awaited call of a busy worker can do to its job and to the locks. */
  lemma {:induction false} AdvanceFacts(t: Turn, ok: bool)
    requires t.worker.Working? && !t.worker.phase.Leaving?
    ensures Moved(t, Advance(t, ok))
  {
  }

  lemma {:induction false} CancelFacts(t: Turn, landed: bool)
    requires t.worker.Working? && !t.worker.phase.Leaving?
    ensures Moved(t, Cancel(t, landed))
  {
  }

  /** Every worker past its lock holds it, and no two workers of any queues hold the same one. */
  ghost predicate Exclusive(s: System) {
    && (forall q, m | q in s.queues && At(s, q, m).HoldsLock() :: At(s, q, m).item.jobId in s.locks)
    && (forall q1, m1, q2, m2 |
          && q1 in s.queues && q2 in s.queues && (q1 != q2 || m1 != m2)
          && At(s, q1, m1).HoldsLock() && At(s, q2, m2).HoldsLock() ::
          At(s, q1, m1).item.jobId != At(s, q2, m2).item.jobId)
  }

  ghost predicate AllBooks(s: System) {
    forall q | q in s.queues :: Books(s.queues[q])
  }

  /** One worker's move: everybody else stays where they were. */
  ghost predicate OnlyMoves(s: System, s': System, q: QueueId, m: bool) {
    && s'.queues.Keys == s.queues.Keys && q in s.queues
    && forall q2, m2 | q2 in s.queues && (q2 != q || m2 != m) :: At(s', q2, m2) == At(s, q2, m2)
  }

  lemma {:induction false} ExclusiveMove(s: System, s': System, q: QueueId, m: bool)
    requires Exclusive(s) && OnlyMoves(s, s', q, m) && At(s, q, m).Working?
    requires Moved(Turn(At(s, q, m), s.store, s.locks), Turn(At(s', q, m), s'.store, s'.locks))
    ensures Exclusive(s')
  {
    forall q2, m2 | q2 in s'.queues && At(s', q2, m2).HoldsLock()
      ensures At(s', q2, m2).item.jobId in s'.locks
    {
      if q2 != q || m2 != m {
        assert At(s, q2, m2).HoldsLock();
      }
    }
  }

  /** A step in which no worker comes to hold a lock, and no lock is given up. */
  lemma {:induction false} ExclusiveIdle(s: System, s': System)
    requires Exclusive(s) && s'.queues.Keys == s.queues.Keys && s'.locks == s.locks
    requires forall q, m | q in s.queues :: At(s', q, m) == At(s, q, m) || !At(s', q, m).HoldsLock()
    ensures Exclusive(s')
  {
  }

  lemma {:induction false} SameBooks(queue: Queue, other: Queue)
    requires Books(queue)
    requires other.items == queue.items && other.ids == queue.ids && other.sequence == queue.sequence
    requires other.manual == queue.manual && other.automatic == queue.automatic
    ensures Books(other)
  {
    assert forall m :: other.Worker(m) == queue.Worker(m);
  }

  lemma {:induction false} FireBalances(queue: Queue, retry: Retry)
    requires Books(queue)
    ensures Books(queue.Fire(retry))
  {
    var rest := queue.(retrying := queue.retrying - multiset{retry});
    SameBooks(queue, rest);
    EnqueueBalances(rest, retry.jobId, retry.priority);
  }

  lemma {:induction false} BooksKept(s: System, q: QueueId, step: Step)
    requires q in s.queues && Books(s.queues[q]) && Enabled(s, q, step)
    ensures Books(Next(s, q, step).queues[q])
  {
    hide Books;
    var queue := s.queues[q];
    match step
    case EnqueueJob(jobId, priority) => EnqueueBalances(queue, jobId, priority);
    case TakeJob(item, m) => TakeBalances(queue, item, m);
    case Continue(m, ok) =>
      var t := Turn(queue.Worker(m), s.store, s.locks);
      AdvanceFacts(t, ok);
      SetWorkerBalances(queue, m, Advance(t, ok).worker);
    case FinishJob(m) => FinishBalances(queue, m);
    case FireRetry(retry) => FireBalances(queue, retry);
    case BeginStop => SameBooks(queue, queue.(stopping := true));
    case CancelWorker(m, landed) =>
      if queue.Worker(m) == Waiting {
        SetWorkerBalances(queue, m, Off);
      } else {
        var t := Turn(queue.Worker(m), s.store, s.locks);
        CancelFacts(t, landed);
        SetWorkerBalances(queue, m, Cancel(t, landed).worker);
      }
    case DropRetries => SameBooks(queue, queue.(retrying := multiset{}));
    case DropQueued(item, _) => DropBalances(queue, item);
    case Restart =>
      SetWorkerBalances(queue, true, Waiting);
      SetWorkerBalances(queue.SetWorker(true, Waiting), false, Waiting);
      SameBooks(queue.SetWorker(true, Waiting).SetWorker(false, Waiting), Next(s, q, step).queues[q]);
    case CreateJob(_) =>
    case CreateOrGetProfile(_, _) =>
  }

  lemma {:induction false} ExclusiveKept(s: System, q: QueueId, step: Step)
    requires q in s.queues && Exclusive(s) && Enabled(s, q, step)
    ensures Exclusive(Next(s, q, step))
  {
    hide Exclusive;
    var queue, s' := s.queues[q], Next(s, q, step);
    if step.Continue? {
      var t := Turn(queue.Worker(step.onManual), s.store, s.locks);
      AdvanceFacts(t, step.ok);
      ExclusiveMove(s, s', q, step.onManual);
    } else if step.CancelWorker? && queue.Worker(step.onManual) != Waiting {
      var t := Turn(queue.Worker(step.onManual), s.store, s.locks);
      CancelFacts(t, step.landed);
      ExclusiveMove(s, s', q, step.onManual);
    } else {
      ExclusiveIdle(s, s');
    }
  }
}
