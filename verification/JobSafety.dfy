/** Whole runs of the job queues: two handlers never run for one job, ids are accounted for, and no
    accepted job is lost while calls do not raise and nobody stops. */
module JobSafety {
  import opened JobSystem
  import opened JobInvariants

  lemma {:induction false} InitialKeeps(s: System)
    requires Initial(s)
    ensures Exclusive(s) && AllBooks(s)
  {
    assert Books(IDLE_QUEUE);
  }

  lemma {:induction false} RunStep(states: seq<System>, moves: seq<Move>, k: nat)
    requires IsRun(states, moves) && k < |moves|
    ensures moves[k].queue in states[k].queues && Enabled(states[k], moves[k].queue, moves[k].step)
    ensures states[k + 1] == Next(states[k], moves[k].queue, moves[k].step)
  {
  }

  lemma {:induction false} OneQueueMoves(s: System, q: QueueId, step: Step)
    requires q in s.queues && Enabled(s, q, step)
    ensures Next(s, q, step).queues == s.queues[q := Next(s, q, step).queues[q]]
  {
    hide Advance, Cancel, Queue.Enqueue, Queue.Take, Queue.Finish, Queue.Fire, Queue.Drop, Queue.SetWorker;
  }

  lemma {:induction false} StepKeeps(s: System, q: QueueId, step: Step)
    requires q in s.queues && Enabled(s, q, step) && Exclusive(s) && AllBooks(s)
    ensures var s' := Next(s, q, step); Exclusive(s') && AllBooks(s') && s'.queues.Keys == s.queues.Keys
  {
    hide Books, Exclusive, Next, Enabled;
    BooksKept(s, q, step);
    ExclusiveKept(s, q, step);
    OneQueueMoves(s, q, step);
  }

  lemma {:induction false} RunKeeps(states: seq<System>, moves: seq<Move>, n: nat)
    requires IsRun(states, moves) && n <= |moves|
    ensures Exclusive(states[n]) && AllBooks(states[n]) && states[n].queues.Keys == states[0].queues.Keys
  {
    hide Next, Enabled, Exclusive, AllBooks, Initial;
    if n == 0 {
      InitialKeeps(states[0]);
    } else {
      RunKeeps(states, moves, n - 1);
      RunStep(states, moves, n - 1);
      hide IsRun;
      StepKeeps(states[n - 1], moves[n - 1].queue, moves[n - 1].step);
    }
  }

  /** In every reachable state, however many queues share the locks and whatever raises or is
      cancelled, a job's handler runs in at most one worker. */
  lemma {:induction false} HandlersNeverOverlap(states: seq<System>, moves: seq<Move>, n: nat, q1: QueueId, m1: bool,
                                                q2: QueueId, m2: bool)
    requires IsRun(states, moves) && n <= |moves|
    requires q1 in states[n].queues && q2 in states[n].queues && (q1 != q2 || m1 != m2)
    requires At(states[n], q1, m1).InHandler() && At(states[n], q2, m2).InHandler()
    ensures At(states[n], q1, m1).item.jobId != At(states[n], q2, m2).item.jobId
  {
    RunKeeps(states, moves, n);
  }

  function Held(w: Worker): set<JobId> {
    if w.Working? then {w.item.jobId} else {}
  }

  function Waiters(items: set<Item>, onManual: bool): set<JobId> {
    set i | i in items && IsManual(i) == onManual :: i.jobId
  }

  lemma {:induction false} BooksBalance(queue: Queue)
    requires Books(queue)
    ensures queue.ids == Waiters(queue.items, true) + Waiters(queue.items, false)
            + Held(queue.manual) + Held(queue.automatic)
    ensures Waiters(queue.items, true) !! Waiters(queue.items, false) !! Held(queue.manual) !! Held(queue.automatic)
    ensures queue.manual.Working? ==> IsManual(queue.manual.item)
    ensures queue.automatic.Working? ==> !IsManual(queue.automatic.item)
  {
    assert HeldApart(queue, true) && HeldApart(queue, false);
    forall id | id in queue.ids
      ensures id in Waiters(queue.items, true) + Waiters(queue.items, false)
              + Held(queue.manual) + Held(queue.automatic)
    {
      if !queue.manual.HoldsJob(id) && !queue.automatic.HoldsJob(id) {
        var i :| i in queue.items && i.jobId == id;
        assert id in Waiters(queue.items, IsManual(i));
      }
    }
  }

  /** In every reachable state the de-duplication set of a queue is the disjoint union of the ids
      waiting on the manual side, those waiting on the automatic side, and those being worked on;
      no id waits twice, and each worker only holds work of its own side. */
  lemma {:induction false} IdsAccountedFor(states: seq<System>, moves: seq<Move>, n: nat, q: QueueId)
    requires IsRun(states, moves) && n <= |moves| && q in states[n].queues
    ensures var queue := states[n].queues[q];
      && queue.ids == Waiters(queue.items, true) + Waiters(queue.items, false)
              + Held(queue.manual) + Held(queue.automatic)
      && Waiters(queue.items, true) !! Waiters(queue.items, false) !! Held(queue.manual) !! Held(queue.automatic)
      && (forall i, j | i in queue.items && j in queue.items && i.jobId == j.jobId :: i == j)
      && (queue.manual.Working? ==> IsManual(queue.manual.item))
      && (queue.automatic.Working? ==> !IsManual(queue.automatic.item))
  {
    RunKeeps(states, moves, n);
    hide IsRun, Exclusive;
    BooksBalance(states[n].queues[q]);
  }

  // No lost jobs.

  /** A step of normal operation: store and lock calls return, handlers may fail, nobody stops, and
      only stored jobs are enqueued. */
  predicate Smooth(s: System, q: QueueId, step: Step)
    requires q in s.queues
  {
    match step
    case EnqueueJob(jobId, _) => jobId in s.store
    case Continue(m, ok) => ok || At(s, q, m).InHandler()
    case BeginStop => false
    case _ => true
  }

  /** The job is finished, or some worker owns its lock and will finish it. */
  ghost predicate Settled(s: System, id: JobId) {
    && id in s.store
    && (Terminal(s.store[id].status)
        || exists q, m :: q in s.queues && At(s, q, m).HoldsLock() && At(s, q, m).item.jobId == id)
  }

  ghost predicate Calm(s: System) {
    && (forall q | q in s.queues :: !s.queues[q].stopping)
    && (forall q, id | q in s.queues && id in s.queues[q].ids :: id in s.store)
    && (forall q, r | q in s.queues && r in s.queues[q].retrying :: r.jobId in s.store)
    && (forall q, m | q in s.queues && At(s, q, m).Working? && At(s, q, m).phase.Releasing? ::
          At(s, q, m).item.jobId in s.store && Terminal(s.store[At(s, q, m).item.jobId].status))
    && (forall q, m | q in s.queues && At(s, q, m).Working? && At(s, q, m).phase == Leaving(false) ::
          Settled(s, At(s, q, m).item.jobId))
  }

  /** How a smooth step changes the job it works on. */
  lemma {:induction false} SmoothTurn(t: Turn, ok: bool)
    requires t.worker.Working? && !t.worker.phase.Leaving?
    requires ok || t.worker.InHandler()
    requires t.worker.item.jobId in t.store
    requires t.worker.phase.Releasing? ==> Terminal(t.store[t.worker.item.jobId].status)
    ensures var t', id := Advance(t, ok), t.worker.item.jobId;
      && id in t'.store
      && (t'.worker.phase.Releasing? ==> Terminal(t'.store[id].status))
      && (t'.worker.phase == Leaving(false) ==> Terminal(t'.store[id].status))
      && (t'.store != t.store ==> t'.worker.HoldsLock())
      && (t.worker.HoldsLock() ==> t'.worker.HoldsLock() || Terminal(t'.store[id].status))
  {
  }

  /** One busy worker moves on, the rest of the system stands still. */
  lemma {:induction false} ContinueFacts(s: System, q: QueueId, m: bool, ok: bool)
    requires q in s.queues && Enabled(s, q, Continue(m, ok))
    ensures var s', t := Next(s, q, Continue(m, ok)), Turn(At(s, q, m), s.store, s.locks);
      && OnlyMoves(s, s', q, m) && Moved(t, Advance(t, ok))
      && At(s', q, m) == Advance(t, ok).worker && s'.store == Advance(t, ok).store
      && (forall q2 | q2 in s.queues ::
            && s'.queues[q2].ids == s.queues[q2].ids && s'.queues[q2].retrying == s.queues[q2].retrying
            && s'.queues[q2].stopping == s.queues[q2].stopping)
  {
    AdvanceFacts(Turn(At(s, q, m), s.store, s.locks), ok);
  }

  predicate Early(w: Worker, w': Worker) {
    && !w.HoldsLock() && !w'.HoldsLock()
    && (w'.Working? ==> w'.phase.Reading?)
  }

  /** The other steps of normal operation change no stored job and reach no late phase. */
  lemma {:induction false} OtherFacts(s: System, q: QueueId, step: Step)
    requires q in s.queues && Enabled(s, q, step) && !s.queues[q].stopping && !step.Continue?
    ensures var s' := Next(s, q, step);
      && s'.queues.Keys == s.queues.Keys
      && (forall id | id in s.store :: id in s'.store && s'.store[id] == s.store[id])
      && (forall q2, m2 | q2 in s.queues :: At(s', q2, m2) == At(s, q2, m2) || Early(At(s, q2, m2), At(s', q2, m2)))
  {
  }

  lemma {:induction false} WorkingOnStored(s: System, q: QueueId, m: bool)
    requires q in s.queues && Calm(s) && AllBooks(s) && At(s, q, m).Working?
    ensures At(s, q, m).item.jobId in s.store
    ensures At(s, q, m).phase.Releasing? ==> Terminal(s.store[At(s, q, m).item.jobId].status)
  {
    assert HeldApart(s.queues[q], m);
  }

  lemma {:induction false} SettledThroughTurn(s: System, q: QueueId, m: bool, ok: bool, id: JobId)
    requires q in s.queues && Enabled(s, q, Continue(m, ok)) && Smooth(s, q, Continue(m, ok)) && Calm(s) && AllBooks(s)
    requires Settled(s, id)
    ensures Settled(Next(s, q, Continue(m, ok)), id)
  {
    var t, s' := Turn(At(s, q, m), s.store, s.locks), Next(s, q, Continue(m, ok));
    WorkingOnStored(s, q, m);
    ContinueFacts(s, q, m, ok);
    SmoothTurn(t, ok);
    hide Next, Enabled, Books, Advance;
    assert At(s', q, m) == Advance(t, ok).worker;
    if !Terminal(s.store[id].status) {
      var q2, m2 :| q2 in s.queues && At(s, q2, m2).HoldsLock() && At(s, q2, m2).item.jobId == id;
      if q2 != q || m2 != m {
        assert At(s', q2, m2) == At(s, q2, m2);
      }
    }
  }

  lemma {:induction false} SettledStays(s: System, q: QueueId, step: Step, id: JobId)
    requires q in s.queues && Enabled(s, q, step) && Smooth(s, q, step) && Calm(s) && AllBooks(s)
    requires Settled(s, id)
    ensures Settled(Next(s, q, step), id)
  {
    if step.Continue? {
      SettledThroughTurn(s, q, step.onManual, step.ok, id);
    } else {
      OtherFacts(s, q, step);
      hide Next, Enabled, Books;
      var s' := Next(s, q, step);
      if !Terminal(s.store[id].status) {
        var q2, m2 :| q2 in s.queues && At(s, q2, m2).HoldsLock() && At(s, q2, m2).item.jobId == id;
        assert At(s', q2, m2) == At(s, q2, m2);
      }
    }
  }

  /** The job a step brings into a queue's books, or takes out of them. */
  function Subject(queue: Queue, step: Step): JobId {
    match step
    case EnqueueJob(jobId, _) => jobId
    case FinishJob(m) => if queue.Worker(m).Working? then queue.Worker(m).item.jobId else 0
    case FireRetry(retry) => retry.jobId
    case _ => 0
  }

  lemma {:induction false} IdFacts(s: System, q: QueueId, step: Step)
    requires q in s.queues && Enabled(s, q, step) && !s.queues[q].stopping && !step.BeginStop?
    ensures var queue, queue' := s.queues[q], Next(s, q, step).queues[q];
      && !queue'.stopping
      && (forall id | id in queue'.ids && id !in queue.ids ::
            (step.EnqueueJob? || step.FireRetry?) && id == Subject(queue, step))
      && (forall id | id in queue.ids && id !in queue'.ids :: step.FinishJob? && id == Subject(queue, step))
      && (step.FireRetry? ==> Subject(queue, step) in queue'.ids)
  {
    hide Advance, Cancel;
    var queue, queue', id := s.queues[q], Next(s, q, step).queues[q], Subject(s.queues[q], step);
    if step.FinishJob? {
      assert queue'.ids == queue.ids - {id};
    } else if step.FireRetry? || step.EnqueueJob? {
      assert queue'.ids == queue.ids + {id};
    } else {
      assert queue'.ids == queue.ids && !queue'.stopping;
    }
    assert !queue'.stopping;
    hide Next, Enabled;
  }

  lemma {:induction false} FinishFacts(queue: Queue, m: bool)
    requires queue.Worker(m).Working? && queue.Worker(m).phase.Leaving? && !queue.stopping
    ensures var retry, after
          := Retry(queue.Worker(m).item.jobId, queue.Worker(m).item.priority), queue.Finish(m).retrying;
      && (forall r | r in after :: r in queue.retrying || r == retry)
      && (forall r | r in queue.retrying :: r in after)
      && (queue.Worker(m).phase.retry ==> retry in after)
  {
  }

  lemma {:induction false} FireFacts(queue: Queue, retry: Retry)
    ensures forall r | r in queue.Fire(retry).retrying :: r in queue.retrying
    ensures forall r | r in queue.retrying && r != retry :: r in queue.Fire(retry).retrying
  {
  }

  lemma {:induction false} RetryFacts(s: System, q: QueueId, step: Step)
    requires q in s.queues && Enabled(s, q, step) && !s.queues[q].stopping && !step.BeginStop?
    ensures var queue, queue' := s.queues[q], Next(s, q, step).queues[q];
      && (forall r | r in queue'.retrying && r !in queue.retrying :: step.FinishJob? && r.jobId == Subject(queue, step))
      && (forall r | r in queue.retrying && r !in queue'.retrying :: step.FireRetry? && r == step.retry)
      && (step.FinishJob? && queue.Worker(step.onManual).phase.retry ==>
            Retry(Subject(queue, step), queue.Worker(step.onManual).item.priority) in queue'.retrying)
  {
    hide Advance, Cancel;
    var queue, queue' := s.queues[q], Next(s, q, step).queues[q];
    if step.FinishJob? {
      FinishFacts(queue, step.onManual);
      hide Queue.Finish;
    } else if step.FireRetry? {
      FireFacts(queue, step.retry);
      hide Queue.Fire;
    } else {
      assert queue'.retrying == queue.retrying;
      hide Next, Enabled;
    }
  }

  lemma {:induction false} StoreGrows(s: System, q: QueueId, step: Step)
    requires q in s.queues && Enabled(s, q, step)
    ensures s.store.Keys <= Next(s, q, step).store.Keys
  {
    if step.Continue? {
      AdvanceFacts(Turn(At(s, q, step.onManual), s.store, s.locks), step.ok);
    } else if step.CancelWorker? && s.queues[q].Worker(step.onManual) != Waiting {
      CancelFacts(Turn(At(s, q, step.onManual), s.store, s.locks), step.landed);
    }
  }

  lemma {:induction false} BookFacts(s: System, q: QueueId, step: Step)
    requires q in s.queues && Enabled(s, q, step) && !s.queues[q].stopping && !step.BeginStop?
    ensures var s', queue, queue' := Next(s, q, step), s.queues[q], Next(s, q, step).queues[q];
      && s'.queues == s.queues[q := queue'] && !queue'.stopping && s.store.Keys <= s'.store.Keys
      && (forall id | id in queue'.ids && id !in queue.ids ::
            (step.EnqueueJob? || step.FireRetry?) && id == Subject(queue, step))
      && (forall id | id in queue.ids && id !in queue'.ids :: step.FinishJob? && id == Subject(queue, step))
      && (forall r | r in queue'.retrying && r !in queue.retrying :: step.FinishJob? && r.jobId == Subject(queue, step))
      && (forall r | r in queue.retrying && r !in queue'.retrying :: step.FireRetry? && r == step.retry)
      && (step.FireRetry? ==> Subject(queue, step) in queue'.ids)
      && (step.FinishJob? && queue.Worker(step.onManual).phase.retry ==>
            Retry(Subject(queue, step), queue.Worker(step.onManual).item.priority) in queue'.retrying)
  {
    OneQueueMoves(s, q, step);
    IdFacts(s, q, step);
    RetryFacts(s, q, step);
    StoreGrows(s, q, step);
    hide Next, Enabled, Subject;
  }

  lemma {:induction false} CalmBooksKept(s: System, q: QueueId, step: Step)
    requires q in s.queues && Enabled(s, q, step) && Smooth(s, q, step) && Calm(s) && AllBooks(s)
    ensures var s' := Next(s, q, step);
      && (forall q2 | q2 in s'.queues :: !s'.queues[q2].stopping)
      && (forall q2, id | q2 in s'.queues && id in s'.queues[q2].ids :: id in s'.store)
      && (forall q2, r | q2 in s'.queues && r in s'.queues[q2].retrying :: r.jobId in s'.store)
  {
    BookFacts(s, q, step);
    if step.FinishJob? {
      WorkingOnStored(s, q, step.onManual);
    }
    assert step.EnqueueJob? || step.FireRetry? || step.FinishJob? ==> Subject(s.queues[q], step) in s.store;
    hide Books, Settled, Next, Smooth, Subject;
  }

  lemma {:induction false} LeavingSettled(s: System, q: QueueId, step: Step, q2: QueueId, m2: bool)
    requires q in s.queues && Enabled(s, q, step) && Smooth(s, q, step)
    requires Calm(s) && AllBooks(s) && Exclusive(s)
    requires q2 in Next(s, q, step).queues
    requires At(Next(s, q, step), q2, m2).Working? && At(Next(s, q, step), q2, m2).phase == Leaving(false)
    ensures Settled(Next(s, q, step), At(Next(s, q, step), q2, m2).item.jobId)
  {
    var s' := Next(s, q, step);
    if step.Continue? {
      var m := step.onManual;
      WorkingOnStored(s, q, m);
      ContinueFacts(s, q, m, step.ok);
      SmoothTurn(Turn(At(s, q, m), s.store, s.locks), step.ok);
    } else {
      OtherFacts(s, q, step);
    }
    if At(s', q2, m2) == At(s, q2, m2) {
      SettledStays(s, q, step, At(s, q2, m2).item.jobId);
    }
    hide Next, Enabled, Books, Advance, Exclusive;
  }

  lemma {:induction false} ReleasingTerminal(s: System, q: QueueId, step: Step, q2: QueueId, m2: bool)
    requires q in s.queues && Enabled(s, q, step) && Smooth(s, q, step)
    requires Calm(s) && AllBooks(s) && Exclusive(s)
    requires q2 in Next(s, q, step).queues
    requires At(Next(s, q, step), q2, m2).Working? && At(Next(s, q, step), q2, m2).phase.Releasing?
    ensures var s', id := Next(s, q, step), At(Next(s, q, step), q2, m2).item.jobId;
      id in s'.store && Terminal(s'.store[id].status)
  {
    var s' := Next(s, q, step);
    if step.Continue? {
      var m := step.onManual;
      WorkingOnStored(s, q, m);
      ContinueFacts(s, q, m, step.ok);
      SmoothTurn(Turn(At(s, q, m), s.store, s.locks), step.ok);
      hide Next, Enabled, Books, Advance, Settled;
      if q2 != q || m2 != m {
        assert At(s', q2, m2) == At(s, q2, m2);
      }
    } else {
      OtherFacts(s, q, step);
      hide Next, Enabled, Books, Advance, Settled;
      assert At(s', q2, m2) == At(s, q2, m2);
    }
  }

  lemma {:induction false} CalmKept(s: System, q: QueueId, step: Step)
    requires q in s.queues && Enabled(s, q, step) && Smooth(s, q, step)
    requires Calm(s) && AllBooks(s) && Exclusive(s)
    ensures Calm(Next(s, q, step))
  {
    var s' := Next(s, q, step);
    CalmBooksKept(s, q, step);
    forall q2, m2 | q2 in s'.queues && At(s', q2, m2).Working? && At(s', q2, m2).phase == Leaving(false)
      ensures Settled(s', At(s', q2, m2).item.jobId)
    {
      LeavingSettled(s, q, step, q2, m2);
    }
    forall q2, m2 | q2 in s'.queues && At(s', q2, m2).Working? && At(s', q2, m2).phase.Releasing?
      ensures At(s', q2, m2).item.jobId in s'.store && Terminal(s'.store[At(s', q2, m2).item.jobId].status)
    {
      ReleasingTerminal(s, q, step, q2, m2);
    }
    hide Next, Enabled, Smooth, Books, Exclusive, Settled;
  }

  /** Where an accepted job can be: still among the queue's ids, on a retry timer, or settled. */
  ghost predicate Kept(s: System, q: QueueId, id: JobId)
    requires q in s.queues
  {
    id in s.queues[q].ids || (exists r :: r in s.queues[q].retrying && r.jobId == id) || Settled(s, id)
  }

  lemma {:induction false} UnsettledStays(s: System, q: QueueId, step: Step, home: QueueId, id: JobId)
    requires q in s.queues && Enabled(s, q, step) && Smooth(s, q, step) && Calm(s)
    requires home in s.queues && Kept(s, home, id) && !Settled(s, id)
    ensures home in Next(s, q, step).queues && Kept(Next(s, q, step), home, id)
  {
    BookFacts(s, q, step);
    var s' := Next(s, q, step);
    if id in s.queues[home].ids {
      if id !in s'.queues[home].ids {
        var w := At(s, q, step.onManual);
        assert home == q && step.FinishJob? && w.item.jobId == id;
        assert w.phase != Leaving(false);
        hide Settled, Next, Subject, Smooth;
        assert Retry(id, At(s, q, step.onManual).item.priority) in s'.queues[home].retrying;
      }
    } else {
      hide Settled, Next, Smooth, Enabled;
      var r :| r in s.queues[home].retrying && r.jobId == id;
      assert r in s'.queues[home].retrying || id in s'.queues[home].ids;
    }
  }

  lemma {:induction false} KeptStays(s: System, q: QueueId, step: Step, home: QueueId, id: JobId)
    requires q in s.queues && Enabled(s, q, step) && Smooth(s, q, step)
    requires Calm(s) && AllBooks(s)
    requires home in s.queues && Kept(s, home, id)
    ensures home in Next(s, q, step).queues && Kept(Next(s, q, step), home, id)
  {
    if Settled(s, id) {
      SettledStays(s, q, step, id);
    } else {
      UnsettledStays(s, q, step, home, id);
    }
  }

  lemma {:induction false} RunStaysCalm(states: seq<System>, moves: seq<Move>, n: nat)
    requires IsRun(states, moves) && n <= |moves|
    requires forall k | 0 <= k < n :: Smooth(states[k], moves[k].queue, moves[k].step)
    ensures Calm(states[n])
  {
    if n == 0 {
    } else {
      RunStaysCalm(states, moves, n - 1);
      RunKeeps(states, moves, n - 1);
      RunStep(states, moves, n - 1);
      hide IsRun, Calm, Next, Enabled, AllBooks, Exclusive;
      CalmKept(states[n - 1], moves[n - 1].queue, moves[n - 1].step);
    }
  }

  /** While store and lock calls return and stop has not begun, a job accepted at move `k` is, at any
      later point, among the queue's ids, waiting on its retry timer, finished, or being finished
      by the worker (possibly of another queue) that owns its lock. */
  lemma {:induction false} AcceptedJobsAreKept(states: seq<System>, moves: seq<Move>, k: nat, n: nat)
    requires IsRun(states, moves) && k < n <= |moves|
    requires forall i | 0 <= i < n :: Smooth(states[i], moves[i].queue, moves[i].step)
    requires moves[k].step.EnqueueJob?
    ensures moves[k].queue in states[n].queues && Kept(states[n], moves[k].queue, moves[k].step.jobId)
  {
    var s, q, step := states[n - 1], moves[n - 1].queue, moves[n - 1].step;
    RunStaysCalm(states, moves, n - 1);
    RunKeeps(states, moves, n - 1);
    RunStep(states, moves, n - 1);
    if k < n - 1 {
      AcceptedJobsAreKept(states, moves, k, n - 1);
      hide IsRun, Calm, Next, Enabled, AllBooks, Exclusive, Kept;
      KeptStays(s, q, step, moves[k].queue, moves[k].step.jobId);
    } else {
      hide IsRun, Exclusive, Settled;
      assert !s.queues[q].stopping;
    }
  }

  /** So once its workers are idle and nothing waits, every job a lone queue accepted is finished. */
  lemma {:induction false} IdleMeansAllDone(states: seq<System>, moves: seq<Move>, q: QueueId, k: nat, n: nat)
    requires IsRun(states, moves) && k < n <= |moves|
    requires forall i | 0 <= i < n :: Smooth(states[i], moves[i].queue, moves[i].step)
    requires moves[k].step.EnqueueJob? && moves[k].queue == q
    requires states[0].queues.Keys == {q} && q in states[n].queues
    requires var queue := states[n].queues[q];
      queue.items == {} && queue.retrying == multiset{} && !queue.manual.Working? && !queue.automatic.Working?
    ensures moves[k].step.jobId in states[n].store && Terminal(states[n].store[moves[k].step.jobId].status)
  {
    AcceptedJobsAreKept(states, moves, k, n);
    RunKeeps(states, moves, n);
    hide IsRun;
  }
}
