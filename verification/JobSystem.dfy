/** Job queues as a state machine: any number of queues, each with a manual and an automatic worker,
    share one job store and one lock coordinator.  A step is what happens between two awaits; every
    awaited call may raise, and shutdown may cancel a worker at any of them. */
module JobSystem {
  import opened Options

  // Identifiers are only ever compared for equality.
  type JobId = int
  type QueueId = int

  datatype Status = Queued | Running | Succeeded | Failed

  predicate Terminal(status: Status) {
    status == Succeeded || status == Failed
  }

  /** A stored job; profile jobs carry the key of the work they do. */
  datatype Job = Job(status: Status, workKey: Option<int>)

  const LADDER_PLAYERS_PRIORITY: int := 100

  /** An entry of a priority queue; the lowest priority number goes first, then the oldest entry. */
  datatype Item = Item(priority: int, sequence: int, jobId: JobId)

  predicate Before(a: Item, b: Item) {
    a.priority < b.priority || (a.priority == b.priority && a.sequence < b.sequence)
  }

  predicate IsManual(item: Item) {
    item.priority < LADDER_PLAYERS_PRIORITY
  }

  /** Where a worker stands in processing a job: about to read the job, to take its lock, to mark it
      running, to run its handler, to record success, to record failure, to release the lock, or
      to hand the job back to the queue. */
  datatype Phase =
    | Reading
    | Locking(seen: Status)
    | Starting(seen: Status)
    | Handling
    | Recording
    | Failing
    | Releasing
    | Leaving(retry: bool)

  datatype Worker = Off | Waiting | Working(item: Item, phase: Phase, cancelled: bool)
  {
    predicate HoldsLock() {
      Working? && (phase.Starting? || phase.Handling? || phase.Recording? || phase.Failing? || phase.Releasing?)
    }

    predicate InHandler() {
      Working? && phase.Handling?
    }

    predicate HoldsJob(jobId: JobId) {
      Working? && item.jobId == jobId
    }
  }

  datatype Retry = Retry(jobId: JobId, priority: int)

  datatype Queue = Queue(
    items: set<Item>,
    ids: set<JobId>,
    sequence: int,
    retrying: multiset<Retry>,
    stopping: bool,
    manual: Worker,
    automatic: Worker)
  {
    function Worker(onManual: bool): Worker {
      if onManual then manual else automatic
    }

    function SetWorker(onManual: bool, w: Worker): Queue {
      if onManual then this.(manual := w) else this.(automatic := w)
    }

    /** Refused while stopping; ignored when the id is queued or being worked on already. */
    function Enqueue(jobId: JobId, priority: int): Queue {
      if stopping || jobId in ids then this
      else this.(items := items + {Item(priority, sequence, jobId)}, ids := ids + {jobId}, sequence := sequence + 1)
    }

    predicate IsNext(item: Item, onManual: bool) {
      && item in items && IsManual(item) == onManual
      && forall other | other in items && IsManual(other) == onManual && other != item :: Before(item, other)
    }

    function Take(item: Item, onManual: bool): Queue {
      this.(items := items - {item}).SetWorker(onManual, Working(item, Reading, false))
    }

    /** The worker hands its job back: the id is free again and a retry may be scheduled. */
    function Finish(onManual: bool): Queue
      requires Worker(onManual).Working? && Worker(onManual).phase.Leaving?
    {
      var w := Worker(onManual);
      this.(ids := ids - {w.item.jobId},
            retrying := if w.phase.retry && !stopping
                        then retrying + multiset{Retry(w.item.jobId, w.item.priority)} else retrying)
          .SetWorker(onManual, if w.cancelled then Off else Waiting)
    }

    function Fire(retry: Retry): Queue {
      this.(retrying := retrying - multiset{retry}).Enqueue(retry.jobId, retry.priority)
    }

    function Drop(item: Item): Queue {
      this.(items := items - {item}, ids := ids - {item.jobId})
    }
  }

  datatype System = System(queues: map<QueueId, Queue>, store: map<JobId, Job>, locks: set<JobId>)

  /** One worker with the shared state it touches. */
  datatype Turn = Turn(worker: Worker, store: map<JobId, Job>, locks: set<JobId>)

  function WithStatus(store: map<JobId, Job>, jobId: JobId, status: Status): map<JobId, Job> {
    if jobId in store then store[jobId := store[jobId].(status := status)] else store
  }

  /** The next awaited call of a busy worker returns (`ok`) or raises.  An exception raised while a cancelled
      worker fails its job or gives the lock back takes the place of the cancellation, which is then lost. */
  function Advance(t: Turn, ok: bool): Turn
    requires t.worker.Working? && !t.worker.phase.Leaving?
  {
    var w, id := t.worker, t.worker.item.jobId;
    match w.phase
    case Reading =>
      if ok && id in t.store && !Terminal(t.store[id].status)
      then t.(worker := w.(phase := Locking(t.store[id].status)))
      else t.(worker := w.(phase := Leaving(false)))
    case Locking(seen) =>
      if !ok then t.(worker := w.(phase := Leaving(false)))
      else if id in t.locks then t.(worker := w.(phase := Leaving(true)))
      else t.(worker := w.(phase := Starting(seen)), locks := t.locks + {id})
    case Starting(seen) =>
      if seen == Running then t.(worker := w.(phase := Handling))
      else if ok && id in t.store then Turn(w.(phase := Handling), WithStatus(t.store, id, Running), t.locks)
      else t.(worker := w.(phase := Failing))
    case Handling =>
      t.(worker := w.(phase := if ok then Recording else Failing))
    case Recording =>
      if ok && id in t.store then Turn(w.(phase := Releasing), WithStatus(t.store, id, Succeeded), t.locks)
      else t.(worker := w.(phase := Failing))
    case Failing =>
      Turn(w.(phase := Releasing, cancelled := w.cancelled && ok),
           if ok then WithStatus(t.store, id, Failed) else t.store, t.locks)
    case Releasing =>
      Turn(w.(phase := Leaving(false), cancelled := w.cancelled && ok), t.store, if ok then t.locks - {id} else t.locks)
  }

  /** Shutdown cancels a worker in the middle of its awaited call, whose effect may still have
      landed on the other side. */
  function Cancel(t: Turn, landed: bool): Turn
    requires t.worker.Working? && !t.worker.phase.Leaving?
  {
    var w, id := t.worker.(cancelled := true), t.worker.item.jobId;
    match w.phase
    case Reading => t.(worker := w.(phase := Leaving(false)))
    case Locking(_) =>
      Turn(w.(phase := Leaving(false)), t.store, if landed then t.locks + {id} else t.locks)
    case Starting(seen) =>
      Turn(w.(phase := Failing),
           if landed && seen == Queued then WithStatus(t.store, id, Running) else t.store, t.locks)
    case Handling => t.(worker := w.(phase := Failing))
    case Recording =>
      Turn(w.(phase := Failing), if landed then WithStatus(t.store, id, Succeeded) else t.store, t.locks)
    case Failing =>
      Turn(w.(phase := Releasing), if landed then WithStatus(t.store, id, Failed) else t.store, t.locks)
    case Releasing =>
      Turn(w.(phase := Leaving(false)), t.store, if landed then t.locks - {id} else t.locks)
  }

  datatype Step =
    | EnqueueJob(jobId: JobId, priority: int)
    | TakeJob(item: Item, onManual: bool)
    | Continue(onManual: bool, ok: bool)
    | FinishJob(onManual: bool)
    | FireRetry(retry: Retry)
    | BeginStop
    | CancelWorker(onManual: bool, landed: bool)
    | DropRetries
    | DropQueued(item: Item, ok: bool)
    | Restart
    | CreateJob(jobId: JobId)
    | CreateOrGetProfile(jobId: JobId, workKey: int)

  /** Whether an unfinished profile job for this work is stored. */
  predicate ActiveFor(store: map<JobId, Job>, workKey: int) {
    exists id | id in store :: store[id].workKey == Some(workKey) && !Terminal(store[id].status)
  }

  /** When a step can happen at queue `q`. */
  predicate Enabled(s: System, q: QueueId, step: Step)
    requires q in s.queues
  {
    var queue := s.queues[q];
    match step
    case EnqueueJob(_, _) => true
    case TakeJob(item, onManual) => queue.Worker(onManual) == Waiting && queue.IsNext(item, onManual)
    case Continue(onManual, _) => queue.Worker(onManual).Working? && !queue.Worker(onManual).phase.Leaving?
    case FinishJob(onManual) => queue.Worker(onManual).Working? && queue.Worker(onManual).phase.Leaving?
    case FireRetry(retry) => retry in queue.retrying
    case BeginStop => true
    case CancelWorker(onManual, _) =>
      queue.stopping
      && (queue.Worker(onManual) == Waiting
          || (queue.Worker(onManual).Working? && !queue.Worker(onManual).phase.Leaving?
              && !queue.Worker(onManual).cancelled))
    case DropRetries => queue.stopping && queue.manual == Off && queue.automatic == Off
    case DropQueued(item, _) =>
      queue.stopping && queue.manual == Off && queue.automatic == Off && queue.IsNext(item, IsManual(item))
    case Restart => queue.manual == Off && queue.automatic == Off
    case CreateJob(jobId) => jobId !in s.store
    case CreateOrGetProfile(jobId, _) => jobId !in s.store
  }

  function Next(s: System, q: QueueId, step: Step): System
    requires q in s.queues && Enabled(s, q, step)
  {
    var queue := s.queues[q];
    match step
    case EnqueueJob(jobId, priority) => s.(queues := s.queues[q := queue.Enqueue(jobId, priority)])
    case TakeJob(item, onManual) => s.(queues := s.queues[q := queue.Take(item, onManual)])
    case Continue(onManual, ok) =>
      var t := Advance(Turn(queue.Worker(onManual), s.store, s.locks), ok);
      System(s.queues[q := queue.SetWorker(onManual, t.worker)], t.store, t.locks)
    case FinishJob(onManual) => s.(queues := s.queues[q := queue.Finish(onManual)])
    case FireRetry(retry) => s.(queues := s.queues[q := queue.Fire(retry)])
    case BeginStop => s.(queues := s.queues[q := queue.(stopping := true)])
    case CancelWorker(onManual, landed) =>
      if queue.Worker(onManual) == Waiting then s.(queues := s.queues[q := queue.SetWorker(onManual, Off)])
      else
        var t := Cancel(Turn(queue.Worker(onManual), s.store, s.locks), landed);
        System(s.queues[q := queue.SetWorker(onManual, t.worker)], t.store, t.locks)
    case DropRetries => s.(queues := s.queues[q := queue.(retrying := multiset{})])
    case DropQueued(item, ok) =>
      System(s.queues[q := queue.Drop(item)],
             if ok then WithStatus(s.store, item.jobId, Failed) else s.store, s.locks)
    case Restart => s.(queues := s.queues[q := queue.(stopping := false, manual := Waiting, automatic := Waiting)])
    case CreateJob(jobId) => s.(store := s.store[jobId := Job(Queued, None)])
    case CreateOrGetProfile(jobId, workKey) =>
      if ActiveFor(s.store, workKey) then s else s.(store := s.store[jobId := Job(Queued, Some(workKey))])
  }

  datatype Move = Move(queue: QueueId, step: Step)

  const IDLE_QUEUE: Queue := Queue({}, {}, 0, multiset{}, false, Waiting, Waiting)

  /** Fresh queues over a store that already holds jobs, and no lock taken. */
  predicate Initial(s: System) {
    s.locks == {} && forall q | q in s.queues :: s.queues[q] == IDLE_QUEUE
  }

  /** A run: the states passed through when the moves are made one after the other. */
  ghost predicate IsRun(states: seq<System>, moves: seq<Move>) {
    && |states| == |moves| + 1
    && Initial(states[0])
    && forall k | 0 <= k < |moves| ::
         && moves[k].queue in states[k].queues
         && Enabled(states[k], moves[k].queue, moves[k].step)
         && states[k + 1] == Next(states[k], moves[k].queue, moves[k].step)
  }
}
