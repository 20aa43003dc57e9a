/** Statuses within one process, that is, one queue with its own store: failure is final, success is final unless
    a finished job is enqueued again or a success is recorded by a call that is then cancelled, and at most one
    unfinished profile job exists for each piece of work. */
module JobFinality {
  import opened JobSystem
  import opened JobInvariants
  import opened JobSafety

  /** What a worker knows about the status of the job it works on. */
  predicate Informed(w: Worker, store: map<JobId, Job>) {
    w.Working? ==>
      var id := w.item.jobId;
      match w.phase
      case Locking(seen) => id in store && store[id].status == seen && !Terminal(seen)
      case Starting(seen) => id in store && store[id].status == seen && !Terminal(seen)
      case Handling => id in store && !Terminal(store[id].status)
      case Recording => id in store && !Terminal(store[id].status)
      case Failing =>
        id in store && (Terminal(store[id].status) ==> w.cancelled && store[id].status == Succeeded)
      case _ => true
  }

  ghost predicate AllInformed(queue: Queue, store: map<JobId, Job>) {
    Informed(queue.manual, store) && Informed(queue.automatic, store)
  }

  /** The two ways a success is overwritten: shutdown drains a queued job that had succeeded
      already, or fails a job whose success was recorded by a call that was then cancelled. */
  predicate OverwritesSuccess(queue: Queue, store: map<JobId, Job>, step: Step, id: JobId) {
    && id in store && store[id].status == Succeeded
    && match step
       case DropQueued(item, ok) => ok && item.jobId == id
       case Continue(m, ok) => ok && queue.Worker(m).HoldsJob(id) && queue.Worker(m).phase.Failing?
       case _ => false
  }

  lemma {:induction false} AdvanceInformed(t: Turn, ok: bool)
    requires t.worker.Working? && !t.worker.phase.Leaving? && Informed(t.worker, t.store)
    ensures var t', id := Advance(t, ok), t.worker.item.jobId;
      && Informed(t'.worker, t'.store)
      && (id in t.store && Terminal(t.store[id].status) ==>
            (t'.store[id] != t.store[id] <==> t.store[id].status == Succeeded && ok && t.worker.phase.Failing?)
            && (t'.store[id] != t.store[id] ==> t'.store[id] == t.store[id].(status := Failed)))
  {
    AdvanceFacts(t, ok);
  }

  lemma {:induction false} CancelInformed(t: Turn, landed: bool)
    requires t.worker.Working? && !t.worker.phase.Leaving? && !t.worker.cancelled && Informed(t.worker, t.store)
    ensures var t', id := Cancel(t, landed), t.worker.item.jobId;
      && Informed(t'.worker, t'.store)
      && (id in t.store && Terminal(t.store[id].status) ==> t'.store == t.store)
  {
    CancelFacts(t, landed);
  }

  /** How a step treats the stored jobs of a lone queue: none disappears, none changes its work, an
      unfinished one comes only from an unfinished one or is new, and a finished one changes exactly when a success
      is overwritten. */
  ghost predicate Faithful(queue: Queue, store: map<JobId, Job>, step: Step, store': map<JobId, Job>) {
    && store.Keys <= store'.Keys
    && (forall id | id in store :: store'[id].workKey == store[id].workKey)
    && (forall id | id in store && Terminal(store[id].status) ::
          store'[id] == if OverwritesSuccess(queue, store, step, id) then store[id].(status := Failed) else store[id])
  }

  lemma {:induction false} OtherInformed(w: Worker, t: Turn, t': Turn)
    requires t.worker.Working? && Moved(t, t') && Informed(w, t.store)
    requires w.Working? ==> w.item.jobId != t.worker.item.jobId
    ensures Informed(w, t'.store)
  {
  }

  lemma {:induction false} TurnFaithful(s: System, q: QueueId, step: Step)
    requires q in s.queues && Enabled(s, q, step) && Books(s.queues[q]) && AllInformed(s.queues[q], s.store)
    requires step.Continue? || (step.CancelWorker? && s.queues[q].Worker(step.onManual) != Waiting)
    ensures AllInformed(Next(s, q, step).queues[q], Next(s, q, step).store)
    ensures Faithful(s.queues[q], s.store, step, Next(s, q, step).store)
  {
    var queue, m := s.queues[q], step.onManual;
    var t := Turn(queue.Worker(m), s.store, s.locks);
    var t' := if step.Continue? then Advance(t, step.ok) else Cancel(t, step.landed);
    if step.Continue? {
      AdvanceFacts(t, step.ok);
      AdvanceInformed(t, step.ok);
    } else {
      CancelFacts(t, step.landed);
      CancelInformed(t, step.landed);
    }
    assert Next(s, q, step) == System(s.queues[q := queue.SetWorker(m, t'.worker)], t'.store, t'.locks);
    hide Next, Enabled, Advance, Cancel;
    OtherInformed(queue.Worker(!m), t, t');
  }

  lemma {:induction false} RestFaithful(s: System, q: QueueId, step: Step)
    requires q in s.queues && Enabled(s, q, step) && AllInformed(s.queues[q], s.store)
    requires !step.Continue? && !(step.CancelWorker? && s.queues[q].Worker(step.onManual) != Waiting)
    ensures AllInformed(Next(s, q, step).queues[q], Next(s, q, step).store)
    ensures Faithful(s.queues[q], s.store, step, Next(s, q, step).store)
  {
  }

  lemma {:induction false} StepFaithful(s: System, q: QueueId, step: Step)
    requires q in s.queues && Enabled(s, q, step) && Books(s.queues[q]) && AllInformed(s.queues[q], s.store)
    ensures AllInformed(Next(s, q, step).queues[q], Next(s, q, step).store)
    ensures Faithful(s.queues[q], s.store, step, Next(s, q, step).store)
  {
    if step.Continue? || (step.CancelWorker? && s.queues[q].Worker(step.onManual) != Waiting) {
      TurnFaithful(s, q, step);
    } else {
      RestFaithful(s, q, step);
    }
  }

  lemma {:induction false} RunInformed(states: seq<System>, moves: seq<Move>, q: QueueId, n: nat)
    requires IsRun(states, moves) && n <= |moves| && states[0].queues.Keys == {q}
    ensures q in states[n].queues && AllInformed(states[n].queues[q], states[n].store)
  {
    if n == 0 {
      hide Next, Enabled;
    } else {
      hide Next, Enabled, Books, AllInformed, Exclusive, Initial;
      RunInformed(states, moves, q, n - 1);
      RunKeeps(states, moves, n - 1);
      RunStep(states, moves, n - 1);
      RunKeeps(states, moves, n);
      hide IsRun;
      StepFaithful(states[n - 1], q, moves[n - 1].step);
    }
  }

  /** In every run of one process, each move leaves every finished job exactly as it was, except that
      it fails a succeeded job precisely when it overwrites its success. */
  lemma {:induction false} FinishedJobsChangeOnlyByOverwriting(states: seq<System>, moves: seq<Move>, q: QueueId,
                                                               k: nat)
    requires IsRun(states, moves) && k < |moves| && states[0].queues.Keys == {q}
    ensures q in states[k].queues && Faithful(states[k].queues[q], states[k].store, moves[k].step, states[k + 1].store)
  {
    RunInformed(states, moves, q, k);
    RunKeeps(states, moves, k);
    RunStep(states, moves, k);
    hide IsRun, Next, Enabled, Informed;
    StepFaithful(states[k], q, moves[k].step);
  }

  lemma {:induction false} OneJobFaithful(queue: Queue, store: map<JobId, Job>, step: Step, store': map<JobId, Job>,
                                          id: JobId)
    requires Faithful(queue, store, step, store') && id in store && Terminal(store[id].status)
    ensures id in store' && Terminal(store'[id].status)
    ensures store'[id] == store[id] || (store[id].status == Succeeded && OverwritesSuccess(queue, store, step, id))
  {
  }

  /** No move from `i` to `j` overwrites the success of this job. */
  ghost predicate NeverOverwritten(states: seq<System>, moves: seq<Move>, q: QueueId, i: nat, j: nat, id: JobId)
    requires i <= j <= |moves| < |states|
  {
    forall k | i <= k < j ::
      q in states[k].queues && !OverwritesSuccess(states[k].queues[q], states[k].store, moves[k].step, id)
  }

  /** So FAILED is final in every run of one process, and SUCCEEDED is final from any point after
      which no success is overwritten. */
  lemma {:induction false} FinishedStaysFinished(states: seq<System>, moves: seq<Move>, q: QueueId, i: nat, j: nat,
                                                 id: JobId)
    requires IsRun(states, moves) && i <= j <= |moves| && states[0].queues.Keys == {q}
    requires id in states[i].store && Terminal(states[i].store[id].status)
    ensures id in states[j].store && Terminal(states[j].store[id].status)
    ensures states[i].store[id].status == Failed || NeverOverwritten(states, moves, q, i, j, id) ==>
              states[j].store[id] == states[i].store[id]
  {
    if i == j {
    } else {
      FinishedStaysFinished(states, moves, q, i, j - 1, id);
      FinishedJobsChangeOnlyByOverwriting(states, moves, q, j - 1);
      assert |states| == |moves| + 1;
      hide IsRun, Terminal;
      var queue, store, store', step
        := states[j - 1].queues[q], states[j - 1].store, states[j].store, moves[j - 1].step;
      OneJobFaithful(queue, store, step, store', id);
      assert NeverOverwritten(states, moves, q, i, j, id) ==>
        NeverOverwritten(states, moves, q, i, j - 1, id) && !OverwritesSuccess(queue, store, step, id);
      hide Faithful, OverwritesSuccess, NeverOverwritten;
    }
  }

  /** A worker fails a job that has succeeded only after being cancelled while recording the success. */
  lemma {:induction false} OverwritingNeedsShutdown(states: seq<System>, moves: seq<Move>, q: QueueId, k: nat,
                                                    id: JobId)
    requires IsRun(states, moves) && k < |moves| && states[0].queues.Keys == {q} && q in states[k].queues
    requires OverwritesSuccess(states[k].queues[q], states[k].store, moves[k].step, id)
    ensures moves[k].step.DropQueued? || moves[k].step.Continue?
    ensures moves[k].step.DropQueued? ==> states[k].queues[q].stopping
    ensures moves[k].step.Continue? ==> states[k].queues[q].Worker(moves[k].step.onManual).cancelled
  {
    RunInformed(states, moves, q, k);
    RunKeeps(states, moves, k);
    RunStep(states, moves, k);
    hide IsRun, Next, AllBooks, Exclusive;
  }

  // When success is final.

  predicate NotSucceeded(store: map<JobId, Job>, id: JobId) {
    id in store ==> store[id].status != Succeeded
  }

  /** What callers and stores can see to: only jobs that have not succeeded are enqueued, and no success is
      recorded by a call that is then cancelled. */
  predicate Prudent(s: System, q: QueueId, step: Step)
    requires q in s.queues
  {
    match step
    case EnqueueJob(jobId, _) => NotSucceeded(s.store, jobId)
    case CancelWorker(m, landed) => landed && At(s, q, m).Working? ==> !At(s, q, m).phase.Recording?
    case _ => true
  }

  /** The worker is past the lock of this job. */
  predicate PastLock(w: Worker, id: JobId) {
    w.HoldsLock() && w.item.jobId == id
  }

  /** The lock of this job is taken, and not by a worker of this queue. */
  predicate TakenElsewhere(queue: Queue, locks: set<JobId>, id: JobId) {
    id in locks && !PastLock(queue.manual, id) && !PastLock(queue.automatic, id)
  }

  predicate WorkAhead(w: Worker, store: map<JobId, Job>, locks: set<JobId>) {
    w.Working? ==>
      && (w.phase.Reading? || w.phase.Failing? || w.phase == Leaving(true) ==> NotSucceeded(store, w.item.jobId))
      && (w.phase == Leaving(true) ==> w.item.jobId in locks)
  }

  /** Whatever is queued, on a retry timer, or still to be worked on has not succeeded. */
  ghost predicate NothingDoneAhead(queue: Queue, store: map<JobId, Job>, locks: set<JobId>) {
    && (forall i | i in queue.items :: NotSucceeded(store, i.jobId))
    && (forall r | r in queue.retrying :: NotSucceeded(store, r.jobId) && TakenElsewhere(queue, locks, r.jobId))
    && WorkAhead(queue.manual, store, locks) && WorkAhead(queue.automatic, store, locks)
  }

  /** What a prudent turn does to the job it works on, and leaves alone. */
  lemma {:induction false} AdvanceAhead(t: Turn, ok: bool)
    requires t.worker.Working? && !t.worker.phase.Leaving?
    requires Informed(t.worker, t.store) && WorkAhead(t.worker, t.store, t.locks)
    ensures var t' := Advance(t, ok); WorkAhead(t'.worker, t'.store, t'.locks)
  {
  }

  lemma {:induction false} CancelAhead(t: Turn, landed: bool)
    requires t.worker.Working? && !t.worker.phase.Leaving? && (landed ==> !t.worker.phase.Recording?)
    requires Informed(t.worker, t.store) && WorkAhead(t.worker, t.store, t.locks)
    ensures var t' := Cancel(t, landed); WorkAhead(t'.worker, t'.store, t'.locks)
  {
  }

  /** A turn keeps everything queued, waiting or held by the other worker unfinished. */
  lemma {:induction false} TurnAhead(queue: Queue, t: Turn, t': Turn, m: bool)
    requires Books(queue) && t.worker == queue.Worker(m) && t.worker.Working? && Moved(t, t')
    requires NothingDoneAhead(queue, t.store, t.locks) && WorkAhead(t'.worker, t'.store, t'.locks)
    ensures NothingDoneAhead(queue.SetWorker(m, t'.worker), t'.store, t'.locks)
  {
    var id, after := t.worker.item.jobId, queue.SetWorker(m, t'.worker);
    assert HeldApart(queue, m);
    assert after.Worker(!m) == queue.Worker(!m);
    forall r | r in after.retrying
      ensures NotSucceeded(t'.store, r.jobId) && TakenElsewhere(after, t'.locks, r.jobId)
    {
      assert TakenElsewhere(queue, t.locks, r.jobId);
    }
  }

  lemma {:induction false} EnqueueAhead(queue: Queue, store: map<JobId, Job>, locks: set<JobId>, jobId: JobId,
                                        priority: int)
    requires NothingDoneAhead(queue, store, locks) && NotSucceeded(store, jobId)
    ensures NothingDoneAhead(queue.Enqueue(jobId, priority), store, locks)
  {
  }

  lemma {:induction false} FireAhead(queue: Queue, store: map<JobId, Job>, locks: set<JobId>, retry: Retry)
    requires NothingDoneAhead(queue, store, locks) && retry in queue.retrying
    ensures NothingDoneAhead(queue.Fire(retry), store, locks)
  {
    EnqueueAhead(queue.(retrying := queue.retrying - multiset{retry}), store, locks, retry.jobId, retry.priority);
  }

  lemma {:induction false} TakeAhead(queue: Queue, store: map<JobId, Job>, locks: set<JobId>, item: Item, m: bool)
    requires NothingDoneAhead(queue, store, locks) && item in queue.items && queue.Worker(m) == Waiting
    ensures NothingDoneAhead(queue.Take(item, m), store, locks)
  {
  }

  lemma {:induction false} FinishAhead(queue: Queue, store: map<JobId, Job>, locks: set<JobId>, m: bool)
    requires Books(queue) && NothingDoneAhead(queue, store, locks)
    requires queue.Worker(m).Working? && queue.Worker(m).phase.Leaving?
    ensures NothingDoneAhead(queue.Finish(m), store, locks)
  {
    var after, w := queue.Finish(m), queue.Worker(m);
    assert after.items == queue.items && after.Worker(!m) == queue.Worker(!m);
    assert w.phase.retry ==> TakenElsewhere(after, locks, w.item.jobId);
    forall r | r in after.retrying
      ensures NotSucceeded(store, r.jobId) && TakenElsewhere(after, locks, r.jobId)
    {
      assert r in queue.retrying || (w.phase.retry && r.jobId == w.item.jobId);
    }
  }

  lemma {:induction false} RestAhead(s: System, q: QueueId, step: Step)
    requires q in s.queues && Enabled(s, q, step) && Prudent(s, q, step) && Books(s.queues[q])
    requires !step.Continue? && !(step.CancelWorker? && s.queues[q].Worker(step.onManual) != Waiting)
    requires NothingDoneAhead(s.queues[q], s.store, s.locks)
    ensures var s' := Next(s, q, step); NothingDoneAhead(s'.queues[q], s'.store, s'.locks)
  {
    var queue, s' := s.queues[q], Next(s, q, step);
    if step.EnqueueJob? {
      EnqueueAhead(queue, s.store, s.locks, step.jobId, step.priority);
    } else if step.FireRetry? {
      FireAhead(queue, s.store, s.locks, step.retry);
    } else if step.TakeJob? {
      TakeAhead(queue, s.store, s.locks, step.item, step.onManual);
    } else if step.FinishJob? {
      FinishAhead(queue, s.store, s.locks, step.onManual);
    } else {
      hide Books;
      assert forall id :: NotSucceeded(s.store, id) ==> NotSucceeded(s'.store, id);
    }
  }

  lemma {:induction false} StepAhead(s: System, q: QueueId, step: Step)
    requires q in s.queues && Enabled(s, q, step) && Prudent(s, q, step) && Books(s.queues[q])
    requires AllInformed(s.queues[q], s.store) && NothingDoneAhead(s.queues[q], s.store, s.locks)
    ensures var s' := Next(s, q, step); NothingDoneAhead(s'.queues[q], s'.store, s'.locks)
  {
    if step.Continue? || (step.CancelWorker? && s.queues[q].Worker(step.onManual) != Waiting) {
      var queue, m := s.queues[q], step.onManual;
      var t := Turn(queue.Worker(m), s.store, s.locks);
      var t' := if step.Continue? then Advance(t, step.ok) else Cancel(t, step.landed);
      if step.Continue? {
        AdvanceFacts(t, step.ok);
        AdvanceAhead(t, step.ok);
      } else {
        CancelFacts(t, step.landed);
        CancelAhead(t, step.landed);
      }
      assert Next(s, q, step) == System(s.queues[q := queue.SetWorker(m, t'.worker)], t'.store, t'.locks);
      hide Next, Enabled, Advance, Cancel, NothingDoneAhead, Books;
      TurnAhead(queue, t, t', m);
    } else {
      RestAhead(s, q, step);
    }
  }

  lemma {:induction false} RunAhead(states: seq<System>, moves: seq<Move>, q: QueueId, n: nat)
    requires IsRun(states, moves) && n <= |moves| && states[0].queues.Keys == {q}
    requires forall k | 0 <= k < n :: Prudent(states[k], moves[k].queue, moves[k].step)
    ensures q in states[n].queues && NothingDoneAhead(states[n].queues[q], states[n].store, states[n].locks)
  {
    if n == 0 {
      hide Next, Enabled;
    } else {
      hide Next, Enabled, Books, AllInformed, Exclusive, Initial, NothingDoneAhead;
      RunAhead(states, moves, q, n - 1);
      RunInformed(states, moves, q, n - 1);
      RunKeeps(states, moves, n - 1);
      RunStep(states, moves, n - 1);
      RunKeeps(states, moves, n);
      hide IsRun;
      StepAhead(states[n - 1], q, moves[n - 1].step);
    }
  }

  /** A prudent step never overwrites a success. */
  lemma {:induction false} PrudentNeverOverwrites(states: seq<System>, moves: seq<Move>, q: QueueId, k: nat, id: JobId)
    requires IsRun(states, moves) && k < |moves| && states[0].queues.Keys == {q}
    requires forall l | 0 <= l < k :: Prudent(states[l], moves[l].queue, moves[l].step)
    ensures q in states[k].queues && !OverwritesSuccess(states[k].queues[q], states[k].store, moves[k].step, id)
  {
    RunAhead(states, moves, q, k);
    RunKeeps(states, moves, k);
    RunStep(states, moves, k);
    hide IsRun, Next, AllBooks, Exclusive;
  }

  /** In every run of one process in which only jobs that have not succeeded are enqueued and no success is
      recorded by a call that is then cancelled, SUCCEEDED and FAILED are final, whatever else raises, is
      cancelled, is drained or restarts. */
  lemma {:induction false} FinishedIsFinal(states: seq<System>, moves: seq<Move>, q: QueueId, i: nat, j: nat, id: JobId)
    requires IsRun(states, moves) && i <= j <= |moves| && states[0].queues.Keys == {q}
    requires forall k | 0 <= k < j :: Prudent(states[k], moves[k].queue, moves[k].step)
    requires id in states[i].store && Terminal(states[i].store[id].status)
    ensures id in states[j].store && states[j].store[id] == states[i].store[id]
  {
    forall k | i <= k < j
      ensures q in states[k].queues && !OverwritesSuccess(states[k].queues[q], states[k].store, moves[k].step, id)
    {
      PrudentNeverOverwrites(states, moves, q, k, id);
    }
    assert NeverOverwritten(states, moves, q, i, j, id);
    FinishedStaysFinished(states, moves, q, i, j, id);
    hide IsRun;
  }

  /** No two unfinished jobs do the same profile work. */
  ghost predicate OneActivePerWork(store: map<JobId, Job>) {
    forall a, b |
      && a in store && b in store && a != b
      && store[a].workKey.Some? && store[a].workKey == store[b].workKey ::
      Terminal(store[a].status) || Terminal(store[b].status)
  }

  lemma {:induction false} StepKeepsOneActive(queue: Queue, step: Step, s: System, q: QueueId)
    requires q in s.queues && queue == s.queues[q] && Enabled(s, q, step) && OneActivePerWork(s.store)
    requires Faithful(queue, s.store, step, Next(s, q, step).store)
    ensures OneActivePerWork(Next(s, q, step).store)
  {
    var store, store' := s.store, Next(s, q, step).store;
    if step.CreateJob? || step.CreateOrGetProfile? {
    } else {
      assert store'.Keys == store.Keys;
      forall id | id in store
        ensures Terminal(store[id].status) ==> Terminal(store'[id].status)
        ensures store'[id].workKey == store[id].workKey
      {
      }
      hide Next, Enabled, Faithful;
    }
  }

  /** In every run of one process whose store starts without such duplicates, whatever raises, stops or
      restarts, at most one unfinished profile job exists for each piece of work. */
  lemma {:induction false} OneActiveProfileJob(states: seq<System>, moves: seq<Move>, q: QueueId, n: nat)
    requires IsRun(states, moves) && n <= |moves| && states[0].queues.Keys == {q}
    requires OneActivePerWork(states[0].store)
    ensures OneActivePerWork(states[n].store)
  {
    if n == 0 {
    } else {
      OneActiveProfileJob(states, moves, q, n - 1);
      FinishedJobsChangeOnlyByOverwriting(states, moves, q, n - 1);
      RunStep(states, moves, n - 1);
      RunKeeps(states, moves, n - 1);
      hide IsRun, OneActivePerWork, Next, Enabled, Faithful;
      StepKeepsOneActive(states[n - 1].queues[q], moves[n - 1].step, states[n - 1], q);
    }
  }
}
