/** A job keeps the priority it was enqueued with, through every lock conflict and retry. */
module JobPriorities {
  import opened JobSystem
  import opened JobSafety

  /** A job together with a priority. */
  type Claim = Retry

  function ClaimOf(item: Item): Claim {
    Retry(item.jobId, item.priority)
  }

  /** Whatever the queue has, waiting, in hand or on a timer, is claimed. */
  ghost predicate Claimed(queue: Queue, claims: set<Claim>) {
    && (forall i | i in queue.items :: ClaimOf(i) in claims)
    && (queue.manual.Working? ==> ClaimOf(queue.manual.item) in claims)
    && (queue.automatic.Working? ==> ClaimOf(queue.automatic.item) in claims)
    && (forall r | r in queue.retrying :: r in claims)
  }

  /** What a step claims. */
  function NewClaim(step: Step): set<Claim> {
    if step.EnqueueJob? then {Retry(step.jobId, step.priority)} else {}
  }

  lemma {:induction false} TurnKeepsItem(t: Turn, ok: bool)
    requires t.worker.Working? && !t.worker.phase.Leaving?
    ensures Advance(t, ok).worker.Working? && Advance(t, ok).worker.item == t.worker.item
    ensures Cancel(t, ok).worker.Working? && Cancel(t, ok).worker.item == t.worker.item
  {
  }

  lemma {:induction false} WorkerKeepsClaims(queue: Queue, m: bool, w: Worker, claims: set<Claim>)
    requires Claimed(queue, claims)
    requires w.Working? ==> queue.Worker(m).Working? && queue.Worker(m).item == w.item
    ensures Claimed(queue.SetWorker(m, w), claims)
  {
  }

  lemma {:induction false} TurnKeepsClaims(s: System, q: QueueId, step: Step, claims: set<Claim>)
    requires q in s.queues && Enabled(s, q, step) && Claimed(s.queues[q], claims)
    requires step.Continue? || step.CancelWorker?
    ensures q in Next(s, q, step).queues && Claimed(Next(s, q, step).queues[q], claims)
  {
    var queue, m := s.queues[q], step.onManual;
    hide Claimed, Queue.SetWorker;
    if step.CancelWorker? && queue.Worker(m) == Waiting {
      WorkerKeepsClaims(queue, m, Off, claims);
    } else {
      var t, ok := Turn(queue.Worker(m), s.store, s.locks), if step.Continue? then step.ok else step.landed;
      TurnKeepsItem(t, ok);
      hide Advance, Cancel;
      WorkerKeepsClaims(queue, m, (if step.Continue? then Advance(t, ok) else Cancel(t, ok)).worker, claims);
    }
  }

  lemma {:induction false} EnqueueKeepsClaims(queue: Queue, jobId: JobId, priority: int, claims: set<Claim>)
    requires Claimed(queue, claims)
    ensures Claimed(queue.Enqueue(jobId, priority), claims + {Retry(jobId, priority)})
  {
  }

  lemma {:induction false} FireKeepsClaims(queue: Queue, retry: Retry, claims: set<Claim>)
    requires Claimed(queue, claims) && retry in queue.retrying
    ensures Claimed(queue.Fire(retry), claims)
  {
    EnqueueKeepsClaims(queue.(retrying := queue.retrying - multiset{retry}), retry.jobId, retry.priority, claims);
    assert claims + {retry} == claims;
    hide Queue.Enqueue;
  }

  lemma {:induction false} TakeKeepsClaims(queue: Queue, item: Item, m: bool, claims: set<Claim>)
    requires Claimed(queue, claims) && item in queue.items
    ensures Claimed(queue.Take(item, m), claims)
  {
  }

  lemma {:induction false} FinishKeepsClaims(queue: Queue, m: bool, claims: set<Claim>)
    requires Claimed(queue, claims) && queue.Worker(m).Working? && queue.Worker(m).phase.Leaving?
    ensures Claimed(queue.Finish(m), claims)
  {
  }

  lemma {:induction false} SimpleStepKeepsClaims(s: System, q: QueueId, step: Step, claims: set<Claim>)
    requires q in s.queues && Enabled(s, q, step) && Claimed(s.queues[q], claims)
    requires step.BeginStop? || step.DropRetries? || step.DropQueued? || step.Restart? || step.CreateJob?
             || step.CreateOrGetProfile?
    ensures q in Next(s, q, step).queues && Claimed(Next(s, q, step).queues[q], claims)
  {
  }

  lemma {:induction false} StepKeepsClaims(s: System, q: QueueId, step: Step, claims: set<Claim>)
    requires q in s.queues && Enabled(s, q, step) && Claimed(s.queues[q], claims)
    ensures q in Next(s, q, step).queues && Claimed(Next(s, q, step).queues[q], claims + NewClaim(step))
  {
    var queue := s.queues[q];
    assert claims + {} == claims;
    hide Claimed, Queue.Enqueue, Queue.Take, Queue.Fire, Queue.Finish, Queue.SetWorker, Queue.Drop, Advance, Cancel,
      ActiveFor;
    match step
    case EnqueueJob(jobId, priority) => EnqueueKeepsClaims(queue, jobId, priority, claims);
    case FireRetry(retry) => FireKeepsClaims(queue, retry, claims);
    case TakeJob(item, m) => TakeKeepsClaims(queue, item, m, claims);
    case FinishJob(m) => FinishKeepsClaims(queue, m, claims);
    case Continue(_, _) => TurnKeepsClaims(s, q, step, claims);
    case CancelWorker(_, _) => TurnKeepsClaims(s, q, step, claims);
    case _ => SimpleStepKeepsClaims(s, q, step, claims);
  }

  /** What the first `n` moves claimed at queue `q`. */
  function Claims(moves: seq<Move>, q: QueueId, n: nat): set<Claim>
    requires n <= |moves|
  {
    if n == 0 then {}
    else Claims(moves, q, n - 1) + if moves[n - 1].queue == q then NewClaim(moves[n - 1].step) else {}
  }

  lemma {:induction false} RunKeepsClaims(states: seq<System>, moves: seq<Move>, q: QueueId, n: nat)
    requires IsRun(states, moves) && n <= |moves| && q in states[0].queues
    ensures q in states[n].queues && Claimed(states[n].queues[q], Claims(moves, q, n))
  {
    if n == 0 {
    } else {
      RunKeepsClaims(states, moves, q, n - 1);
      RunStep(states, moves, n - 1);
      var move := moves[n - 1];
      hide IsRun, Enabled, Next, Claimed;
      OneQueueMoves(states[n - 1], move.queue, move.step);
      if move.queue == q {
        StepKeepsClaims(states[n - 1], q, move.step, Claims(moves, q, n - 1));
      }
    }
  }

  /** One of the first `n` moves enqueued the job with this priority at queue `q`. */
  ghost predicate EnqueuedWith(moves: seq<Move>, q: QueueId, n: nat, jobId: JobId, priority: int) {
    exists k | 0 <= k < n <= |moves| :: moves[k] == Move(q, EnqueueJob(jobId, priority))
  }

  lemma {:induction false} ClaimsMean(moves: seq<Move>, q: QueueId, n: nat, claim: Claim)
    requires n <= |moves|
    ensures claim in Claims(moves, q, n) ==> EnqueuedWith(moves, q, n, claim.jobId, claim.priority)
  {
    if n > 0 {
      ClaimsMean(moves, q, n - 1, claim);
      assert claim in Claims(moves, q, n) ==>
          claim in Claims(moves, q, n - 1) || moves[n - 1] == Move(q, EnqueueJob(claim.jobId, claim.priority));
    }
  }

  /** In every reachable state, each job waiting, in a worker's hands or on a retry timer is there with a priority
      it was enqueued with. */
  lemma {:induction false} PrioritiesAreKept(states: seq<System>, moves: seq<Move>, q: QueueId, n: nat)
    requires IsRun(states, moves) && n <= |moves| && q in states[0].queues
    ensures q in states[n].queues
    ensures var queue := states[n].queues[q];
      && (forall i | i in queue.items :: EnqueuedWith(moves, q, n, i.jobId, i.priority))
      && (queue.manual.Working? ==>
            EnqueuedWith(moves, q, n, queue.manual.item.jobId, queue.manual.item.priority))
      && (queue.automatic.Working? ==>
            EnqueuedWith(moves, q, n, queue.automatic.item.jobId, queue.automatic.item.priority))
      && (forall r | r in queue.retrying :: EnqueuedWith(moves, q, n, r.jobId, r.priority))
  {
    RunKeepsClaims(states, moves, q, n);
    forall claim: Claim
      ensures claim in Claims(moves, q, n) ==> EnqueuedWith(moves, q, n, claim.jobId, claim.priority)
    {
      ClaimsMean(moves, q, n, claim);
    }
    hide IsRun, EnqueuedWith, Claims;
  }

  /** So a job that is enqueued with one priority only never changes sides. */
  lemma {:induction false} SidesAreKept(states: seq<System>, moves: seq<Move>, q: QueueId, n: nat, jobId: JobId,
                                        priority: int)
    requires IsRun(states, moves) && n <= |moves| && q in states[0].queues
    requires forall k | 0 <= k < |moves| && moves[k].queue == q && moves[k].step.EnqueueJob? ::
               moves[k].step.jobId == jobId ==> moves[k].step.priority == priority
    ensures q in states[n].queues
    ensures var queue := states[n].queues[q];
      && (forall i | i in queue.items && i.jobId == jobId :: i.priority == priority)
      && (queue.manual.HoldsJob(jobId) ==> priority < 100)
      && (queue.automatic.HoldsJob(jobId) ==> priority >= 100)
      && (forall r | r in queue.retrying && r.jobId == jobId :: r.priority == priority)
  {
    PrioritiesAreKept(states, moves, q, n);
    RunKeeps(states, moves, n);
  }

  /** A timer that goes off at a running queue without the job puts it there with the timer's priority, behind
      everything of that priority; otherwise the queue only forgets the timer. */
  lemma {:induction false} TimerBringsBack(s: System, q: QueueId, retry: Retry)
    requires q in s.queues && Enabled(s, q, FireRetry(retry))
    ensures var queue, s' := s.queues[q], Next(s, q, FireRetry(retry));
      && q in s'.queues && s'.store == s.store && s'.locks == s.locks
      && s'.queues[q] ==
         if queue.stopping || retry.jobId in queue.ids then queue.(retrying := queue.retrying - multiset{retry})
         else queue.(items := queue.items + {Item(retry.priority, queue.sequence, retry.jobId)},
                     ids := queue.ids + {retry.jobId}, sequence := queue.sequence + 1,
                     retrying := queue.retrying - multiset{retry})
  {
  }

  /** While a queue is stopping nothing is added to it: what is queued, registered or on a timer only gets less until it
      is started again, whatever is enqueued, raises or is handed back. */
  lemma {:induction false} StoppingOnlyShrinks(s: System, q: QueueId, step: Step)
    requires q in s.queues && Enabled(s, q, step) && s.queues[q].stopping && !step.Restart?
    ensures q in Next(s, q, step).queues
    ensures var before, after := s.queues[q], Next(s, q, step).queues[q];
      && after.stopping && after.items <= before.items && after.ids <= before.ids
      && after.retrying <= before.retrying && after.sequence == before.sequence
  {
    hide Advance, Cancel;
  }

  /** A stopping queue with nothing to do. */
  predicate Drained(queue: Queue) {
    queue.stopping && queue.items == {} && queue.retrying == multiset{}
  }

  lemma {:induction false} StepLeavesDrained(s: System, q: QueueId, step: Step)
    requires q in s.queues && Enabled(s, q, step) && Drained(s.queues[q]) && !step.Restart?
    ensures q in Next(s, q, step).queues && Drained(Next(s, q, step).queues[q])
  {
    StoppingOnlyShrinks(s, q, step);
    hide Next, Enabled;
  }

  /** So once the timers of a stopping queue are dropped and its sides are drained, none are there at any time before
      its next start. */
  lemma {:induction false} DrainedStaysEmpty(states: seq<System>, moves: seq<Move>, q: QueueId, i: nat, j: nat)
    requires IsRun(states, moves) && i <= j <= |moves| && q in states[0].queues
    requires forall k | i <= k < j :: moves[k].queue == q ==> !moves[k].step.Restart?
    requires q in states[i].queues && Drained(states[i].queues[q])
    ensures q in states[j].queues && Drained(states[j].queues[q])
  {
    if i < j {
      DrainedStaysEmpty(states, moves, q, i, j - 1);
      RunStep(states, moves, j - 1);
      var move := moves[j - 1];
      hide IsRun, Enabled, Next, Drained;
      OneQueueMoves(states[j - 1], move.queue, move.step);
      if move.queue == q {
        StepLeavesDrained(states[j - 1], q, move.step);
      }
    }
  }
}
