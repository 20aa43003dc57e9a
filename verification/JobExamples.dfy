/** Three runs, from fresh queues, in which a job that has succeeded does not stay succeeded: one for each
    hypothesis of `JobFinality.FinishedIsFinal`. */
module JobExamples {
  import opened Options
  import opened JobSystem
  import opened JobFinality

  const JOB: JobId := 7

  /** The job as an entry of the manual side. */
  function Entry(n: int): Item {
    Item(0, n, JOB)
  }

  /** A run in which every move is prudent, except for the one numbered `c`. */
  ghost predicate PrudentBut(states: seq<System>, moves: seq<Move>, c: int) {
    && IsRun(states, moves)
    && forall k | 0 <= k < |moves| && k != c :: Prudent(states[k], moves[k].queue, moves[k].step)
  }

  ghost predicate Leads(s: System, q: QueueId, step: Step, target: System) {
    q in s.queues && Enabled(s, q, step) && Next(s, q, step) == target
  }

  /** One more move of a run. */
  lemma {:induction false} Go(states: seq<System>, moves: seq<Move>, c: int, q: QueueId, step: Step, target: System)
    returns (states': seq<System>, moves': seq<Move>)
    requires PrudentBut(states, moves, c) && Leads(states[|moves|], q, step, target)
    requires |moves| == c || Prudent(states[|moves|], q, step)
    ensures PrudentBut(states', moves', c) && |states'| == |moves'| + 1
    ensures states' == states + [target] && moves' == moves + [Move(q, step)]
  {
    states', moves' := states + [target], moves + [Move(q, step)];
    forall k | 0 <= k < |moves'|
      ensures moves'[k].queue in states'[k].queues && Enabled(states'[k], moves'[k].queue, moves'[k].step)
      ensures states'[k + 1] == Next(states'[k], moves'[k].queue, moves'[k].step)
      ensures k != c ==> Prudent(states'[k], moves'[k].queue, moves'[k].step)
    {
      if k < |moves| {
        assert states'[k] == states[k] && states'[k + 1] == states[k + 1] && moves'[k] == moves[k];
      }
    }
  }

  /** A queue with nothing but the job: waiting as `items`, or worked on by the manual worker. */
  function Deals(items: set<Item>, n: int, stopping: bool, manual: Worker): Queue {
    Queue(items, if items == {} && !manual.Working? then {} else {JOB}, n, multiset{}, stopping, manual, Waiting)
  }

  /** The system after its queue `q` has become `queue`, the job's status `status` and the locks `locks`. */
  function Then(s: System, q: QueueId, queue: Queue, status: Status, locks: set<JobId>): System {
    System(s.queues[q := queue], map[JOB := Job(status, None)], locks)
  }

  ghost predicate Holding(s: System, q: QueueId, queue: Queue, status: Status, locks: set<JobId>) {
    q in s.queues && s.queues[q] == queue && s.store == map[JOB := Job(status, None)] && s.locks == locks
  }

  lemma {:induction false} Queues(s: System, q: QueueId, n: int, status: Status, locks: set<JobId>)
    requires Holding(s, q, Deals({}, n, false, Waiting), status, locks)
    ensures Leads(s, q, EnqueueJob(JOB, 0), Then(s, q, Deals({Entry(n)}, n + 1, false, Waiting), status, locks))
  {
    var queue := Deals({}, n, false, Waiting);
    assert queue.items + {Entry(n)} == {Entry(n)} && queue.ids + {JOB} == {JOB};
    assert queue.Enqueue(JOB, 0) == Deals({Entry(n)}, n + 1, false, Waiting);
  }

  lemma {:induction false} Takes(s: System, q: QueueId, n: int, status: Status, locks: set<JobId>)
    requires Holding(s, q, Deals({Entry(n)}, n + 1, false, Waiting), status, locks)
    ensures Leads(s, q, TakeJob(Entry(n), true),
                  Then(s, q, Deals({}, n + 1, false, Working(Entry(n), Reading, false)), status, locks))
  {
    var queue := Deals({Entry(n)}, n + 1, false, Waiting);
    assert queue.items - {Entry(n)} == {};
    assert queue.IsNext(Entry(n), true);
    assert queue.Take(Entry(n), true) == Deals({}, n + 1, false, Working(Entry(n), Reading, false));
  }

  function Stored(status: Status): map<JobId, Job> {
    map[JOB := Job(status, None)]
  }

  /** The run has gone on for `n` moves. */
  predicate Onward(states: seq<System>, moves: seq<Move>, states': seq<System>, moves': seq<Move>, n: nat) {
    |states'| == |moves'| + 1 && |moves'| == |moves| + n && states <= states' && moves <= moves'
  }

  /** The busy worker's call returns, and the run goes on. */
  lemma {:induction false} Returns(states: seq<System>, moves: seq<Move>, c: int, q: QueueId, n: int, stopping: bool,
                                   before: Turn, status: Status, after: Turn, status': Status)
    returns (states': seq<System>, moves': seq<Move>)
    requires before.worker.Working? && !before.worker.phase.Leaving?
    requires PrudentBut(states, moves, c)
    requires Holding(states[|moves|], q, Deals({}, n, stopping, before.worker), status, before.locks)
    requires before.store == Stored(status) && after.store == Stored(status')
    requires after.worker.Working? && Advance(before, true) == after
    ensures PrudentBut(states', moves', c) && Onward(states, moves, states', moves', 1)
    ensures states'[|moves'|] == Then(states[|moves|], q, Deals({}, n, stopping, after.worker), status', after.locks)
  {
    var s := states[|moves|];
    assert s.queues[q].SetWorker(true, after.worker) == Deals({}, n, stopping, after.worker);
    hide Advance;
    var target := Then(s, q, Deals({}, n, stopping, after.worker), status', after.locks);
    assert Leads(s, q, Continue(true, true), target);
    hide PrudentBut, IsRun, Next, Enabled, Leads;
    states', moves' := Go(states, moves, c, q, Continue(true, true), target);
  }

  function Busy(n: int, phase: Phase): Worker {
    Working(Entry(n), phase, false)
  }

  /** An idle queue takes up the job and reads it. */
  lemma {:induction false} Reads(states: seq<System>, moves: seq<Move>, c: int, q: QueueId, n: int, status: Status)
    returns (states': seq<System>, moves': seq<Move>)
    requires PrudentBut(states, moves, c) && Holding(states[|moves|], q, Deals({}, n, false, Waiting), status, {})
    requires !Terminal(status)
    ensures PrudentBut(states', moves', c) && Onward(states, moves, states', moves', 3)
    ensures states'[|moves'|]
            == Then(states[|moves|], q, Deals({}, n + 1, false, Busy(n, Locking(status))), status, {})
  {
    var s := states[|moves|];
    hide PrudentBut, IsRun, Next, Enabled, Leads;
    Queues(s, q, n, status, {});
    var queued := Then(s, q, Deals({Entry(n)}, n + 1, false, Waiting), status, {});
    states', moves' := Go(states, moves, c, q, EnqueueJob(JOB, 0), queued);
    Takes(queued, q, n, status, {});
    var taken := Then(queued, q, Deals({}, n + 1, false, Busy(n, Reading)), status, {});
    states', moves' := Go(states', moves', c, q, TakeJob(Entry(n), true), taken);
    states', moves' := Returns(states', moves', c, q, n + 1, false, Turn(Busy(n, Reading), Stored(status), {}), status,
      Turn(Busy(n, Locking(status)), Stored(status), {}), status);
    assert states <= states';
  }

  /** A worker that has read the queued job works on it up to where its success is about to be recorded. */
  lemma {:induction false} Handles(states: seq<System>, moves: seq<Move>, c: int, q: QueueId, n: int)
    returns (states': seq<System>, moves': seq<Move>)
    requires PrudentBut(states, moves, c)
    requires Holding(states[|moves|], q, Deals({}, n + 1, false, Busy(n, Locking(Queued))), Queued, {})
    ensures PrudentBut(states', moves', c) && Onward(states, moves, states', moves', 3)
    ensures states'[|moves'|] == Then(states[|moves|], q, Deals({}, n + 1, false, Busy(n, Recording)), Running, {JOB})
  {
    hide PrudentBut, IsRun;
    var locked := Turn(Busy(n, Starting(Queued)), Stored(Queued), {JOB});
    states', moves' := Returns(states, moves, c, q, n + 1, false,
      Turn(Busy(n, Locking(Queued)), Stored(Queued), {}), Queued, locked, Queued);
    var handling := Turn(Busy(n, Handling), Stored(Running), {JOB});
    states', moves' := Returns(states', moves', c, q, n + 1, false, locked, Queued, handling, Running);
    states', moves' := Returns(states', moves', c, q, n + 1, false, handling, Running,
      Turn(Busy(n, Recording), Stored(Running), {JOB}), Running);
  }

  lemma {:induction false} Finishes(s: System, q: QueueId, n: int)
    requires Holding(s, q, Deals({}, n + 1, false, Busy(n, Leaving(false))), Succeeded, {})
    ensures Leads(s, q, FinishJob(true), Then(s, q, Deals({}, n + 1, false, Waiting), Succeeded, {}))
  {
    assert {JOB} - {JOB} == {};
    assert s.queues[q].Finish(true) == Deals({}, n + 1, false, Waiting);
  }

  /** It records the success, gives the lock back, and waits for more. */
  lemma {:induction false} Succeeds(states: seq<System>, moves: seq<Move>, c: int, q: QueueId, n: int)
    returns (states': seq<System>, moves': seq<Move>)
    requires PrudentBut(states, moves, c)
    requires Holding(states[|moves|], q, Deals({}, n + 1, false, Busy(n, Recording)), Running, {JOB})
    ensures PrudentBut(states', moves', c) && Onward(states, moves, states', moves', 3)
    ensures states'[|moves'|] == Then(states[|moves|], q, Deals({}, n + 1, false, Waiting), Succeeded, {})
  {
    var s := states[|moves|];
    hide PrudentBut, IsRun, Leads;
    var releasing := Turn(Busy(n, Releasing), Stored(Succeeded), {JOB});
    states', moves' := Returns(states, moves, c, q, n + 1, false,
      Turn(Busy(n, Recording), Stored(Running), {JOB}), Running, releasing, Succeeded);
    var leaving := Turn(Busy(n, Leaving(false)), Stored(Succeeded), {});
    assert releasing.locks - {JOB} == {};
    states', moves' := Returns(states', moves', c, q, n + 1, false, releasing, Succeeded, leaving, Succeeded);
    Finishes(states'[|moves'|], q, n);
    states', moves' := Go(states', moves', c, q, FinishJob(true),
      Then(s, q, Deals({}, n + 1, false, Waiting), Succeeded, {}));
  }

  // The three runs.

  const FRESH: Queue := Deals({}, 0, false, Waiting)

  lemma {:induction false} Begins(queues: map<QueueId, Queue>, c: int) returns (states: seq<System>, moves: seq<Move>)
    requires forall q | q in queues :: queues[q] == FRESH
    ensures PrudentBut(states, moves, c) && states == [System(queues, Stored(Queued), {})] && moves == []
  {
    states, moves := [System(queues, Stored(Queued), {})], [];
    assert FRESH == IDLE_QUEUE;
  }

  /** The job has succeeded at point `i` and has another status at point `j`. */
  ghost predicate LosesSuccess(states: seq<System>, i: nat, j: nat, status: Status) {
    && i <= j < |states| && status != Succeeded
    && JOB in states[i].store && states[i].store[JOB].status == Succeeded
    && JOB in states[j].store && states[j].store[JOB].status == status
  }

  /** A fresh queue of its own brings the job to where its success is about to be recorded. */
  lemma {:induction false} AboutToSucceed(c: int) returns (states: seq<System>, moves: seq<Move>)
    ensures PrudentBut(states, moves, c) && |moves| == 6 && |states| == 7 && states[0].queues.Keys == {0}
    ensures Holding(states[6], 0, Deals({}, 1, false, Busy(0, Recording)), Running, {JOB})
    ensures states[6].queues.Keys == {0}
  {
    states, moves := Begins(map[0 := FRESH], c);
    hide PrudentBut, IsRun;
    states, moves := Reads(states, moves, c, 0, 0, Queued);
    states, moves := Handles(states, moves, c, 0, 0);
  }

  lemma {:induction false} Stops(s: System, q: QueueId, queue: Queue, queue': Queue, status: Status, locks: set<JobId>)
    requires Holding(s, q, queue, status, locks) && queue' == queue.(stopping := true)
    ensures Leads(s, q, BeginStop, Then(s, q, queue', status, locks))
  {
  }

  lemma {:induction false} Cancels(s: System)
    requires Holding(s, 0, Deals({}, 1, true, Busy(0, Recording)), Running, {JOB})
    ensures Leads(s, 0, CancelWorker(true, true),
                  Then(s, 0, Deals({}, 1, true, Working(Entry(0), Failing, true)), Succeeded, {JOB}))
  {
    assert s.queues[0].SetWorker(true, Working(Entry(0), Failing, true))
           == Deals({}, 1, true, Working(Entry(0), Failing, true));
  }

  /** Shutdown cancels the worker just when its success has been recorded. */
  lemma {:induction false} Interrupted(states: seq<System>, moves: seq<Move>, c: int)
    returns (states': seq<System>, moves': seq<Move>)
    requires PrudentBut(states, moves, c) && c == |moves| + 1 && |states| == |moves| + 1
    requires Holding(states[|moves|], 0, Deals({}, 1, false, Busy(0, Recording)), Running, {JOB})
    ensures PrudentBut(states', moves', c) && |states'| == |moves'| + 1 && states <= states'
    ensures |moves'| == |moves| + 2 && moves'[c].step == CancelWorker(true, true)
    ensures Holding(states'[|moves'|], 0, Deals({}, 1, true, Working(Entry(0), Failing, true)), Succeeded, {JOB})
  {
    var s := states[|moves|];
    hide PrudentBut, IsRun, Leads;
    var stopping := Then(s, 0, Deals({}, 1, true, Busy(0, Recording)), Running, {JOB});
    Stops(s, 0, Deals({}, 1, false, Busy(0, Recording)), Deals({}, 1, true, Busy(0, Recording)), Running, {JOB});
    states', moves' := Go(states, moves, c, 0, BeginStop, stopping);
    Cancels(stopping);
    states', moves' := Go(states', moves', c, 0, CancelWorker(true, true),
      Then(stopping, 0, Deals({}, 1, true, Working(Entry(0), Failing, true)), Succeeded, {JOB}));
  }

  /** Cancelling the worker whose success has just been recorded fails the job: one process, every other
      move prudent. */
  lemma {:induction false} CancelledSuccessIsFailed()
    returns (states: seq<System>, moves: seq<Move>, c: nat, i: nat, j: nat)
    ensures PrudentBut(states, moves, c) && states[0].queues.Keys == {0} && LosesSuccess(states, i, j, Failed)
    ensures c < |moves| && moves[c].step == CancelWorker(true, true)
  {
    c, i, j := 7, 8, 9;
    states, moves := AboutToSucceed(c);
    hide PrudentBut, IsRun, Deals;
    states, moves := Interrupted(states, moves, c);
    states, moves := Returns(states, moves, c, 0, 1, true,
      Turn(Working(Entry(0), Failing, true), Stored(Succeeded), {JOB}), Succeeded,
      Turn(Working(Entry(0), Releasing, true), Stored(Failed), {JOB}), Failed);
  }

  lemma {:induction false} Ends(s: System, waiting: Queue, half: Queue, off: Queue)
    requires Holding(s, 0, waiting, Succeeded, {}) && waiting.stopping
    requires waiting.manual == Waiting && waiting.automatic == Waiting
    requires half == waiting.(manual := Off) && off == half.(automatic := Off)
    ensures Leads(s, 0, CancelWorker(true, false), Then(s, 0, half, Succeeded, {}))
    ensures Leads(Then(s, 0, half, Succeeded, {}), 0, CancelWorker(false, false), Then(s, 0, off, Succeeded, {}))
  {
    assert Then(s, 0, half, Succeeded, {}).queues[0 := off] == s.queues[0 := off];
  }

  lemma {:induction false} Drops(s: System, n: int, off: Queue, empty: Queue)
    requires Holding(s, 0, off, Succeeded, {}) && off.items == {Entry(n)} && off.ids == {JOB} && off.stopping
    requires off.manual == Off && off.automatic == Off && empty == off.(items := {}, ids := {})
    ensures Leads(s, 0, DropQueued(Entry(n), true), Then(s, 0, empty, Failed, {}))
  {
    assert off.IsNext(Entry(n), true);
    assert {Entry(n)} - {Entry(n)} == {} && {JOB} - {JOB} == {};
    assert off.Drop(Entry(n)) == empty;
  }

  /** The queue stops while the job waits again and both workers are idle; they end, and the drain fails it. */
  lemma {:induction false} Drains(states: seq<System>, moves: seq<Move>, c: int, n: int)
    returns (states': seq<System>, moves': seq<Move>)
    requires PrudentBut(states, moves, c)
    requires Holding(states[|moves|], 0, Deals({Entry(n)}, n + 1, false, Waiting), Succeeded, {})
    ensures PrudentBut(states', moves', c) && |states'| == |moves'| + 1 && states <= states' && moves <= moves'
    ensures states'[|moves'|].store == Stored(Failed)
  {
    var s := states[|moves|];
    var waiting := Deals({Entry(n)}, n + 1, true, Waiting);
    var half, off := waiting.(manual := Off), waiting.(manual := Off, automatic := Off);
    var empty := off.(items := {}, ids := {});
    var stopped := Then(s, 0, waiting, Succeeded, {});
    Stops(s, 0, Deals({Entry(n)}, n + 1, false, Waiting), waiting, Succeeded, {});
    Ends(stopped, waiting, half, off);
    Drops(Then(s, 0, off, Succeeded, {}), n, off, empty);
    hide PrudentBut, IsRun, Leads;
    states', moves' := Go(states, moves, c, 0, BeginStop, stopped);
    states', moves' := Go(states', moves', c, 0, CancelWorker(true, false), Then(s, 0, half, Succeeded, {}));
    states', moves' := Go(states', moves', c, 0, CancelWorker(false, false), Then(s, 0, off, Succeeded, {}));
    states', moves' := Go(states', moves', c, 0, DropQueued(Entry(n), true), Then(s, 0, empty, Failed, {}));
  }

  /** Enqueueing a job that has succeeded lets the shutdown drain fail it: one process, every other move
      prudent. */
  lemma {:induction false} DrainedSuccessIsFailed()
    returns (states: seq<System>, moves: seq<Move>, c: nat, i: nat, j: nat)
    ensures PrudentBut(states, moves, c) && states[0].queues.Keys == {0} && LosesSuccess(states, i, j, Failed)
    ensures c < |moves| && moves[c].step == EnqueueJob(JOB, 0)
  {
    c := 9;
    states, moves := AboutToSucceed(c);
    hide PrudentBut, IsRun, Leads;
    states, moves := Succeeds(states, moves, c, 0, 0);
    i := 9;
    var s := states[9];
    Queues(s, 0, 1, Succeeded, {});
    states, moves := Go(states, moves, c, 0, EnqueueJob(JOB, 0),
      Then(s, 0, Deals({Entry(1)}, 2, false, Waiting), Succeeded, {}));
    states, moves := Drains(states, moves, c, 1);
    j := |moves|;
  }

  /** A worker that has read a job as queued takes its lock, which is free, and marks it running. */
  lemma {:induction false} Reopens(states: seq<System>, moves: seq<Move>, q: QueueId)
    returns (states': seq<System>, moves': seq<Move>)
    requires PrudentBut(states, moves, -1)
    requires Holding(states[|moves|], q, Deals({}, 1, false, Busy(0, Locking(Queued))), Succeeded, {})
    ensures PrudentBut(states', moves', -1) && |states'| == |moves'| + 1 && states <= states'
    ensures states'[|moves'|].store == Stored(Running)
  {
    hide PrudentBut, IsRun, Deals;
    var locked := Turn(Busy(0, Starting(Queued)), Stored(Succeeded), {JOB});
    states', moves' := Returns(states, moves, -1, q, 1, false,
      Turn(Busy(0, Locking(Queued)), Stored(Succeeded), {}), Succeeded, locked, Succeeded);
    states', moves' := Returns(states', moves', -1, q, 1, false, locked, Succeeded,
      Turn(Busy(0, Handling), Stored(Running), {JOB}), Running);
  }

  /** With two processes no move has to be imprudent: a worker that read the job before the other process finished
      it, and locks it afterwards, marks the succeeded job running again. */
  lemma {:induction false} StaleReadReopens() returns (states: seq<System>, moves: seq<Move>, i: nat, j: nat)
    ensures PrudentBut(states, moves, -1) && LosesSuccess(states, i, j, Running)
  {
    states, moves := Begins(map[0 := FRESH, 1 := FRESH], -1);
    hide PrudentBut, IsRun, Deals;
    states, moves := Reads(states, moves, -1, 1, 0, Queued);
    states, moves := Reads(states, moves, -1, 0, 0, Queued);
    states, moves := Handles(states, moves, -1, 0, 0);
    states, moves := Succeeds(states, moves, -1, 0, 0);
    i := |moves|;
    states, moves := Reopens(states, moves, 1);
    j := |moves|;
  }
}
