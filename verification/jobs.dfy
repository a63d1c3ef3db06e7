/**
 The job queue of core/src/jobs.rs: database rows, the two Redis lists, worker tasks and delayed
 requeues, as the steps between which other callers may run.  Times are seconds.
 */
module Jobs {
  import opened Numbers

  type JobId = nat

  datatype Status = Queued | Processing | Completed | Failed | Cancelled

  datatype Row = Row(status: Status, retryCount: nat)

  /** How far a worker task has come with the job it popped; `retries` is the count in the row it read. */
  datatype Stage = Popped | Loaded(retries: nat) | Executing(retries: nat) | Failing(retries: nat) | Settled

  datatype Task = Task(job: JobId, stage: Stage)

  /** A retry sleeping in the retry dispatcher. */
  datatype Delayed = Delayed(job: JobId, due: nat)

  /** What has happened to a job: bookkeeping of the model, not of the program. */
  datatype History = History(submittedAt: nat, retries: nat, executions: nat, delays: nat)

  datatype Config = Config(maxRetries: int, retryCapacity: nat)

  datatype State = State(
    now: nat,
    rows: map<JobId, Row>,
    queue: seq<JobId>,       // head first: LPUSH adds in front, the workers pop at the back
    processing: seq<JobId>,
    tasks: map<nat, Task>,
    delayed: map<nat, Delayed>,
    history: map<JobId, History>)

  const EMPTY: State := State(0, map[], [], [], map[], map[], map[])

  // ---- Retry delays ---------------------------------------------------------

  /** The delay before retry `k`, in u64 arithmetic: `2_u64.pow(k - 1) * 30`. */
  function RetryDelay(k: nat): nat
    requires k >= 1
  {
    Pow2(k - 1) % U64 * 30 % U64
  }

  /** The delays of the first `m` retries together. */
  function DelaySum(m: nat): nat {
    if m == 0 then 0 else DelaySum(m - 1) + RetryDelay(m)
  }

  // ---- Steps ----------------------------------------------------------------

  datatype Action =
    | Tick(dt: nat)
    | Submit(job: JobId, pushed: bool)
    | Pop(task: nat, answered: bool)
    | Load(task: nat, dbOk: bool)
    | Start(task: nat, dbOk: bool)
    | Succeed(task: nat, dbOk: bool)
    | Fail(task: nat, dbOk: bool)               // error or timeout
    | DecideRetry(task: nat, dbOk: bool, delayed: nat)
    | Requeue(delayed: nat, pushed: bool)
    | CleanUp(task: nat, connected: bool)
    | LoseTask(task: nat)                       // a worker dies
    | LoseDelayed(delayed: nat)
    | Cancel(job: JobId)
    | Expunge(job: JobId)                       // the cleanup task deletes a row

  function SetStage(s: State, task: nat, stage: Stage): State
    requires task in s.tasks
  {
    s.(tasks := s.tasks[task := s.tasks[task].(stage := stage)])
  }

  /** An UPDATE on a missing row changes nothing. */
  function SetStatus(rows: map<JobId, Row>, job: JobId, status: Status): map<JobId, Row> {
    if job in rows then rows[job := rows[job].(status := status)] else rows
  }

  function RemoveOne(list: seq<JobId>, job: JobId): seq<JobId> {
    if list == [] then [] else if list[0] == job then list[1..] else [list[0]] + RemoveOne(list[1..], job)
  }

  function AtStage(s: State, task: nat): Stage {
    if task in s.tasks then s.tasks[task].stage else Settled
  }

  function Submitted(s: State, job: JobId, pushed: bool): State {
    s.(rows := s.rows[job := Row(Queued, 0)],
       queue := if pushed then [job] + s.queue else s.queue,
       history := s.history[job := History(s.now, 0, 0, 0)])
  }

  function PoppedBy(s: State, task: nat, answered: bool): State
    requires s.queue != []
  {
    var n := |s.queue|;
    var job := s.queue[n - 1];
    s.(queue := s.queue[..n - 1], processing := [job] + s.processing,
       tasks := if answered then s.tasks[task := Task(job, Popped)] else s.tasks)
  }

  function Started(s: State, task: nat, retries: nat): State
    requires task in s.tasks
  {
    var job := s.tasks[task].job;
    var s1 := SetStage(s, task, Executing(retries)).(rows := SetStatus(s.rows, job, Processing));
    if job in s.history then
      s1.(history := s.history[job := s.history[job].(executions := s.history[job].executions + 1)])
    else s1
  }

  /** The job's `k`-th retry is recorded in its row. */
  function RetryRecorded(s: State, job: JobId, k: nat): State
    requires k >= 1
  {
    var s1 := s.(rows := if job in s.rows then s.rows[job := Row(Queued, k)] else s.rows);
    if job in s.history then
      s1.(history := s.history[job := s.history[job].(retries := k, delays := s.history[job].delays + RetryDelay(k))])
    else s1
  }

  /** `retry_job` on the row the worker read: count, then a delayed requeue if the dispatcher has a permit. */
  function Retried(c: Config, s: State, job: JobId, retries: nat, dbOk: bool, delayed: nat): State {
    if retries >= c.maxRetries || !dbOk then s
    else
      var s1 := RetryRecorded(s, job, retries + 1);
      if |s.delayed| < c.retryCapacity then
        s1.(delayed := s.delayed[delayed := Delayed(job, s.now + RetryDelay(retries + 1))])
      else s1
  }

  /** Actions that are not possible change nothing, so every action sequence is a run. */
  function Step(c: Config, s: State, a: Action): State {
    match a
    case Tick(dt) => s.(now := s.now + dt)
    case Submit(job, pushed) => if job in s.history then s else Submitted(s, job, pushed)
    case Pop(task, answered) => if s.queue == [] || task in s.tasks then s else PoppedBy(s, task, answered)
    case Load(task, dbOk) =>
      if !AtStage(s, task).Popped? then s
      else
        var job := s.tasks[task].job;
        SetStage(s, task, if dbOk && job in s.rows then Loaded(s.rows[job].retryCount) else Settled)
    case Start(task, dbOk) =>
      if !AtStage(s, task).Loaded? then s
      else if dbOk then Started(s, task, s.tasks[task].stage.retries)
      else SetStage(s, task, Settled)
    case Succeed(task, dbOk) =>
      if !AtStage(s, task).Executing? then s
      else SetStage(s, task, Settled).(rows := if dbOk then SetStatus(s.rows, s.tasks[task].job, Completed) else s.rows)
    case Fail(task, dbOk) =>
      if !AtStage(s, task).Executing? then s
      else if dbOk then
        SetStage(s, task, Failing(s.tasks[task].stage.retries)).(rows := SetStatus(s.rows, s.tasks[task].job, Failed))
      else SetStage(s, task, Settled)
    case DecideRetry(task, dbOk, delayed) =>
      if !AtStage(s, task).Failing? || delayed in s.delayed then s
      else Retried(c, SetStage(s, task, Settled), s.tasks[task].job, s.tasks[task].stage.retries, dbOk, delayed)
    case Requeue(delayed, pushed) =>
      if delayed !in s.delayed || s.now < s.delayed[delayed].due then s
      else s.(delayed := s.delayed - {delayed}, queue := if pushed then [s.delayed[delayed].job] + s.queue else s.queue)
    case CleanUp(task, connected) =>
      if task !in s.tasks || !s.tasks[task].stage.Settled? then s
      else s.(tasks := s.tasks - {task},
              processing := if connected then RemoveOne(s.processing, s.tasks[task].job) else s.processing)
    case LoseTask(task) => s.(tasks := s.tasks - {task})
    case LoseDelayed(delayed) => s.(delayed := s.delayed - {delayed})
    case Cancel(job) =>
      if job in s.rows && (s.rows[job].status.Queued? || s.rows[job].status.Processing?)
      then s.(rows := SetStatus(s.rows, job, Status.Cancelled)) else s
    case Expunge(job) =>
      if job in s.rows && !s.rows[job].status.Queued? && !s.rows[job].status.Processing?
      then s.(rows := s.rows - {job}) else s
  }

  function After(c: Config, s: State, run: seq<Action>): State {
    var n := |run|;
    if n == 0 then s else Step(c, After(c, s, run[..n - 1]), run[n - 1])
  }

  // ---- The program's objects --------------------------------------------------

  class JobQueue {
    const config: Config
    var rows: map<JobId, Row>
    var queue: seq<JobId>
    var processing: seq<JobId>
    var delayed: map<nat, Delayed>
    ghost var history: map<JobId, History>

    constructor (config: Config)
      ensures this.config == config
      ensures rows == map[] && queue == [] && processing == [] && delayed == map[] && history == map[]
    {
      this.config := config;
      rows, queue, processing, delayed, history := map[], [], [], map[], map[];
    }

    ghost function View(now: nat, tasks: map<nat, Task>): State
      reads this
    {
      State(now, rows, queue, processing, tasks, delayed, history)
    }

    /** `pushed` is whether the LPUSH after the INSERT succeeded. */
    method Submit(job: JobId, pushed: bool, ghost now: nat)
      requires job !in history
      modifies this
      ensures forall tasks :: View(now, tasks) == Submitted(old(View(now, tasks)), job, pushed)
    {
      rows := rows[job := Row(Queued, 0)];
      history := history[job := History(now, 0, 0, 0)];
      if pushed {
        queue := [job] + queue;
      }
    }

    method SetRowStatus(job: JobId, status: Status)
      modifies this`rows
      ensures rows == SetStatus(old(rows), job, status)
    {
      if job in rows {
        rows := rows[job := rows[job].(status := status)];
      }
    }

    method RetryJob(job: JobId, retryCount: nat, dbOk: bool, task: nat, now: nat)
      requires task !in delayed
      modifies this
      ensures forall tasks :: View(now, tasks) == Retried(config, old(View(now, tasks)), job, retryCount, dbOk, task)
    {
      if retryCount >= config.maxRetries {
        return;
      }
      var newRetryCount := retryCount + 1;
      var delaySecs := Pow2(newRetryCount - 1) % U64 * 30 % U64;
      if !dbOk {
        return;
      }
      if job in rows {
        rows := rows[job := Row(Queued, newRetryCount)];
      }
      if |delayed| < config.retryCapacity {
        delayed := delayed[task := Delayed(job, now + delaySecs)];
      }
      if job in history {
        history := history[job := history[job].(retries := newRetryCount, delays := history[job].delays + delaySecs)];
      }
    }

    /** A delayed retry wakes up and pushes its job again. */
    method Requeue(task: nat, pushed: bool, now: nat)
      requires task in delayed && delayed[task].due <= now
      modifies this
      ensures forall tasks :: View(now, tasks) == Step(config, old(View(now, tasks)), Action.Requeue(task, pushed))
    {
      var job := delayed[task].job;
      delayed := delayed - {task};
      if pushed {
        queue := [job] + queue;
      }
    }

    method Cancel(job: JobId, ghost now: nat) returns (outcome: CancelOutcome)
      modifies this`rows
      ensures forall tasks :: View(now, tasks) == Step(config, old(View(now, tasks)), Action.Cancel(job))
      ensures outcome == if job !in old(rows) then NotFound
                         else if old(rows[job].status) in {Queued, Processing} then CancelOutcome.Cancelled
                         else CannotCancel(old(rows[job].status))
    {
      if job !in rows {
        return NotFound;
      }
      var status := rows[job].status;
      if status.Queued? || status.Processing? {
        SetRowStatus(job, Status.Cancelled);
        return CancelOutcome.Cancelled;
      }
      return CannotCancel(status);
    }
  }

  datatype CancelOutcome = Cancelled | NotFound | CannotCancel(status: Status)

  /** The tasks of all workers on one queue. */
  class JobWorker {
    const queue: JobQueue
    var tasks: map<nat, Task>

    constructor (queue: JobQueue)
      ensures this.queue == queue && tasks == map[]
    {
      this.queue := queue;
      tasks := map[];
    }

    ghost function View(now: nat): State
      reads this, queue
    {
      queue.View(now, tasks)
    }

    /** BRPOPLPUSH; `answered` is whether the worker saw the reply. */
    method PopNext(task: nat, answered: bool, ghost now: nat)
      requires task !in tasks
      modifies this, queue
      ensures View(now) == Step(queue.config, old(View(now)), Pop(task, answered))
    {
      if queue.queue != [] {
        var n := |queue.queue|;
        var job := queue.queue[n - 1];
        queue.queue := queue.queue[..n - 1];
        queue.processing := [job] + queue.processing;
        if answered {
          tasks := tasks[task := Task(job, Popped)];
        }
      }
    }

    /** The first half of `process_job`: read the row, mark it as processing. */
    method BeginJob(task: nat, readOk: bool, markOk: bool, ghost now: nat)
      requires task in tasks && tasks[task].stage.Popped?
      modifies this, queue
      ensures View(now) ==
                Step(queue.config, Step(queue.config, old(View(now)), Load(task, readOk)), Start(task, markOk))
    {
      var job := tasks[task].job;
      if !readOk || job !in queue.rows {
        tasks := tasks[task := Task(job, Settled)];
        return;
      }
      var retries := queue.rows[job].retryCount;
      if !markOk {
        tasks := tasks[task := Task(job, Settled)];
        return;
      }
      queue.SetRowStatus(job, Processing);
      tasks := tasks[task := Task(job, Executing(retries))];
      if job in queue.history {
        queue.history := queue.history[job := queue.history[job].(executions := queue.history[job].executions + 1)];
      }
    }

    /** The second half of `process_job`: record the outcome; after a failure decide about a retry. */
    method EndJob(task: nat, success: bool, recordOk: bool, retryOk: bool, delayedTask: nat, now: nat)
      requires task in tasks && tasks[task].stage.Executing? && delayedTask !in queue.delayed
      modifies this, queue
      ensures View(now) == if success then Step(queue.config, old(View(now)), Succeed(task, recordOk))
                           else Step(queue.config, Step(queue.config, old(View(now)), Fail(task, recordOk)),
                                     DecideRetry(task, retryOk, delayedTask))
    {
      hide Retried;
      var job, retries := tasks[task].job, tasks[task].stage.retries;
      tasks := tasks[task := Task(job, Settled)];
      if success {
        if recordOk {
          queue.SetRowStatus(job, Completed);
        }
        return;
      }
      if !recordOk {
        return;
      }
      queue.SetRowStatus(job, Failed);
      assert old(tasks)[task := Task(job, Failing(retries))][task := Task(job, Settled)] == tasks;
      queue.RetryJob(job, retries, retryOk, delayedTask, now);
    }

    /** The LREM after `process_job`. */
    method CleanUpTask(task: nat, connected: bool, ghost now: nat)
      requires task in tasks && tasks[task].stage.Settled?
      modifies this, queue`processing
      ensures View(now) == Step(queue.config, old(View(now)), CleanUp(task, connected))
    {
      var job := tasks[task].job;
      tasks := tasks - {task};
      if connected {
        queue.processing := RemoveOne(queue.processing, job);
      }
    }
  }
}
