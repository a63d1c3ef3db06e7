/** What the steps of core/src/jobs.rs do to a job, its queue and its retries. */
module JobsScenarios {
  import opened Numbers
  import opened Jobs
  import opened JobsTheorems

  // ---- The retry decision ------------------------------------------------------

  /** Task `task` has failed a job that was read with `r` retries. */
  predicate HasFailed(s: State, task: nat, job: JobId, r: nat) {
    task in s.tasks && s.tasks[task] == Task(job, Failing(r))
  }

  /** Below the limit and with a permit free, the job is counted, queued in its row, and due in 30 * 2^r seconds. */
  lemma RetryIsScheduled(c: Config, s: State, task: nat, job: JobId, r: nat, delayed: nat)
    requires HasFailed(s, task, job, r) && r < c.maxRetries && r < 60 && job in s.rows
    requires delayed !in s.delayed && |s.delayed| < c.retryCapacity
    ensures var t := Step(c, s, DecideRetry(task, true, delayed));
            && t.rows == s.rows[job := Row(Queued, r + 1)]
            && t.delayed == s.delayed[delayed := Delayed(job, s.now + 30 * Pow2(r))]
            && t.tasks == s.tasks[task := Task(job, Settled)]
            && t.queue == s.queue && t.processing == s.processing && t.now == s.now
  {
    DelayWraps(r + 1);
  }

  /** Without a free permit the retry is counted and dropped. */
  lemma RetryIsDropped(c: Config, s: State, task: nat, job: JobId, r: nat, delayed: nat)
    requires HasFailed(s, task, job, r) && r < c.maxRetries && job in s.rows
    requires delayed !in s.delayed && |s.delayed| >= c.retryCapacity
    ensures var t := Step(c, s, DecideRetry(task, true, delayed));
            && t.rows == s.rows[job := Row(Queued, r + 1)] && t.delayed == s.delayed
            && t.tasks == s.tasks[task := Task(job, Settled)]
            && t.queue == s.queue && t.processing == s.processing
  {
  }

  /** At the limit, or with the database failing, only the task settles. */
  lemma RetryIsRefused(c: Config, s: State, task: nat, job: JobId, r: nat, dbOk: bool, delayed: nat)
    requires HasFailed(s, task, job, r) && delayed !in s.delayed && (r >= c.maxRetries || !dbOk)
    ensures Step(c, s, DecideRetry(task, dbOk, delayed)) == s.(tasks := s.tasks[task := Task(job, Settled)])
  {
  }

  /** The first delays are half a minute, a minute, two minutes. */
  lemma FirstDelays()
    ensures 30 * Pow2(0) == 30 && 30 * Pow2(1) == 60 && 30 * Pow2(2) == 120
  {
    assert Pow2(1) == 2 * Pow2(0);
  }

  // ---- First in, first out --------------------------------------------------------

  /** The jobs pushed on the queue, in order. */
  function Pushed(c: Config, run: seq<Action>): seq<JobId> {
    if run == [] then []
    else
      var s, a := After(c, EMPTY, run[..|run| - 1]), run[|run| - 1];
      Pushed(c, run[..|run| - 1])
      + (if a.Submit? && a.job !in s.history && a.pushed then [a.job]
         else if a.Requeue? && a.delayed in s.delayed && s.delayed[a.delayed].due <= s.now && a.pushed then
           [s.delayed[a.delayed].job]
         else [])
  }

  /** The jobs that workers took from the queue, in order: what went to the processing list. */
  function Taken(c: Config, run: seq<Action>): seq<JobId> {
    if run == [] then []
    else
      var s, a := After(c, EMPTY, run[..|run| - 1]), run[|run| - 1];
      var t := Step(c, s, a);
      Taken(c, run[..|run| - 1])
      + (if a.Pop? && t.processing != s.processing && t.processing != [] then [t.processing[0]] else [])
  }

  function Reversed(q: seq<JobId>): (r: seq<JobId>)
    ensures |r| == |q| && forall k :: 0 <= k < |q| ==> r[k] == q[|q| - 1 - k]
  {
    if q == [] then [] else Reversed(q[1..]) + [q[0]]
  }

  /** Over every run, jobs are taken in the order in which they were pushed, and the rest are those still queued. */
  lemma {:induction false} FirstInFirstOut(c: Config, run: seq<Action>)
    ensures Pushed(c, run) == Taken(c, run) + Reversed(After(c, EMPTY, run).queue)
    decreases |run|
  {
    if run != [] {
      var before, a := run[..|run| - 1], run[|run| - 1];
      var s := After(c, EMPTY, before);
      FirstInFirstOut(c, before);
      QueueStep(c, s, a);
    }
  }

  /** How a step changes the queue and the processing list. */
  lemma QueueStep(c: Config, s: State, a: Action)
    ensures var t := Step(c, s, a);
            && (a.Pop? && s.queue != [] && a.task !in s.tasks ==>
                  && t.processing == [s.queue[|s.queue| - 1]] + s.processing
                  && Reversed(s.queue) == [t.processing[0]] + Reversed(t.queue))
            && (a.Pop? && (s.queue == [] || a.task in s.tasks) ==> t == s)
            && (a.Submit? && a.job !in s.history ==> t.queue == if a.pushed then [a.job] + s.queue else s.queue)
            && (a.Submit? && a.job in s.history ==> t == s)
            && (a.Requeue? && a.delayed in s.delayed && s.delayed[a.delayed].due <= s.now ==>
                  t.queue == if a.pushed then [s.delayed[a.delayed].job] + s.queue else s.queue)
            && (a.Requeue? && !(a.delayed in s.delayed && s.delayed[a.delayed].due <= s.now) ==> t == s)
            && (!a.Pop? && !a.Submit? && !a.Requeue? ==> t.queue == s.queue)
            && (a.Pop? && t.processing != s.processing ==> s.queue != [] && a.task !in s.tasks)
  {
    var t := Step(c, s, a);
    if a.Pop? && s.queue != [] && a.task !in s.tasks {
      var n := |s.queue|;
      assert Reversed(s.queue) == [s.queue[n - 1]] + Reversed(s.queue[..n - 1]);
    }
  }

  // ---- The bound on executions is attained --------------------------------------------

  /** A worker takes the job, executes it and fails; the retry waits out its delay and is queued again. */
  function Round(k: nat): seq<Action> {
    [Pop(0, true), Load(0, true), Start(0, true), Fail(0, true), DecideRetry(0, true, 0), CleanUp(0, true),
     Tick(RetryDelay(k + 1)), Requeue(0, true)]
  }

  function Rounds(job: JobId, n: nat): seq<Action> {
    if n == 0 then [Submit(job, true)] else Rounds(job, n - 1) + Round(n - 1)
  }

  /** The job failed and was queued again `n` times, and nothing else is going on. */
  function AfterRetries(job: JobId, n: nat): State {
    State(DelaySum(n), map[job := Row(Queued, n)], [job], [], map[], map[], map[job := History(0, n, n, DelaySum(n))])
  }

  lemma {:induction false} AfterAppend(c: Config, s: State, a: seq<Action>, b: seq<Action>)
    ensures After(c, s, a + b) == After(c, After(c, s, a), b)
    decreases |b|
  {
    if b == [] {
      assert a + b == a;
    } else {
      var n := |a + b|;
      assert (a + b)[..n - 1] == a + b[..|b| - 1];
      AfterAppend(c, s, a, b[..|b| - 1]);
    }
  }

  lemma AfterFirst(c: Config, s: State, run: seq<Action>)
    requires run != []
    ensures After(c, s, run) == After(c, Step(c, s, run[0]), run[1..])
  {
    assert run == [run[0]] + run[1..];
    AfterAppend(c, s, [run[0]], run[1..]);
    assert [run[0]][..0] == [];
  }

  /** A worker has taken the job and is executing it for the `n + 1`-st time. */
  function InExecution(job: JobId, n: nat): State {
    State(DelaySum(n), map[job := Row(Processing, n)], [], [job], map[0 := Task(job, Executing(n))], map[],
          map[job := History(0, n, n + 1, DelaySum(n))])
  }

  lemma IsExecuted(c: Config, job: JobId, n: nat, rest: seq<Action>)
    ensures After(c, AfterRetries(job, n), [Pop(0, true), Load(0, true), Start(0, true)] + rest)
            == After(c, InExecution(job, n), rest)
  {
    hide After, DelaySum;
    var s, r := AfterRetries(job, n), [Pop(0, true), Load(0, true), Start(0, true)] + rest;
    AfterFirst(c, s, r);
    var s1 := s.(queue := [], processing := [job], tasks := map[0 := Task(job, Popped)]);
    assert Step(c, s, Pop(0, true)) == s1;
    AfterFirst(c, s1, r[1..]);
    var s2 := s1.(tasks := map[0 := Task(job, Loaded(n))]);
    assert Step(c, s1, Load(0, true)) == s2;
    AfterFirst(c, s2, r[2..]);
    assert Step(c, s2, Start(0, true)) == InExecution(job, n);
    assert r[2..][1..] == rest;
  }

  /** The `n + 1`-st retry sleeps until `due`; the task that failed has settled. */
  function Sleeping(job: JobId, n: nat, due: nat): State {
    State(DelaySum(n), map[job := Row(Queued, n + 1)], [], [job], map[0 := Task(job, Settled)],
          map[0 := Delayed(job, due)], map[job := History(0, n + 1, n + 1, DelaySum(n + 1))])
  }

  lemma IsPutOff(c: Config, job: JobId, n: nat, rest: seq<Action>)
    requires n < c.maxRetries && c.retryCapacity >= 1
    ensures After(c, InExecution(job, n), [Fail(0, true), DecideRetry(0, true, 0)] + rest)
            == After(c, Sleeping(job, n, DelaySum(n) + RetryDelay(n + 1)), rest)
  {
    hide After, RetryDelay, Step;
    var s, r := InExecution(job, n), [Fail(0, true), DecideRetry(0, true, 0)] + rest;
    AfterFirst(c, s, r);
    Fails(c, job, n);
    AfterFirst(c, AfterFailure(job, n), r[1..]);
    IsCounted(c, job, n);
    assert r[1..][1..] == rest;
  }

  /** The same worker has seen the execution fail. */
  function AfterFailure(job: JobId, n: nat): State {
    InExecution(job, n).(rows := map[job := Row(Failed, n)], tasks := map[0 := Task(job, Failing(n))])
  }

  lemma Fails(c: Config, job: JobId, n: nat)
    ensures Step(c, InExecution(job, n), Fail(0, true)) == AfterFailure(job, n)
  {
    hide DelaySum;
  }

  lemma IsCounted(c: Config, job: JobId, n: nat)
    requires n < c.maxRetries && c.retryCapacity >= 1
    ensures Step(c, AfterFailure(job, n), DecideRetry(0, true, 0)) == Sleeping(job, n, DelaySum(n) + RetryDelay(n + 1))
  {
    hide RetryDelay, DelaySum, RetryRecorded;
    IsRecorded(job, n);
    assert AtStage(AfterFailure(job, n), 0) == Failing(n);
  }

  lemma IsRecorded(job: JobId, n: nat)
    ensures RetryRecorded(SetStage(AfterFailure(job, n), 0, Settled), job, n + 1)
            == Sleeping(job, n, 0).(delayed := map[])
  {
    hide RetryDelay;
    var s := SetStage(AfterFailure(job, n), 0, Settled);
    assert s.tasks == map[0 := Task(job, Settled)];
    assert s.rows[job := Row(Queued, n + 1)] == map[job := Row(Queued, n + 1)];
    assert DelaySum(n + 1) == DelaySum(n) + RetryDelay(n + 1);
    hide DelaySum;
    var history := History(0, n + 1, n + 1, DelaySum(n + 1));
    assert s.history[job := history] == map[job := history];
  }

  lemma IsQueuedAgain(c: Config, job: JobId, n: nat, d: nat)
    requires d == RetryDelay(n + 1)
    ensures After(c, Sleeping(job, n, DelaySum(n) + d), [CleanUp(0, true), Tick(d), Requeue(0, true)])
            == AfterRetries(job, n + 1)
  {
    hide After, RetryDelay;
    var s, r := Sleeping(job, n, DelaySum(n) + d), [CleanUp(0, true), Tick(d), Requeue(0, true)];
    AfterFirst(c, s, r);
    var s1 := s.(tasks := map[], processing := []);
    assert Step(c, s, CleanUp(0, true)) == s1;
    AfterFirst(c, s1, r[1..]);
    var s2 := s1.(now := DelaySum(n) + d);
    assert Step(c, s1, Tick(d)) == s2;
    AfterFirst(c, s2, r[2..]);
    assert Step(c, s2, Requeue(0, true)) == AfterRetries(job, n + 1);
    AfterNone(c, AfterRetries(job, n + 1));
    assert r[2..][1..] == [];
  }

  /** The execution fails, and the retry is queued when it is due. */
  lemma IsRetried(c: Config, job: JobId, n: nat)
    requires n < c.maxRetries && c.retryCapacity >= 1
    ensures After(c, InExecution(job, n),
                  [Fail(0, true), DecideRetry(0, true, 0), CleanUp(0, true), Tick(RetryDelay(n + 1)), Requeue(0, true)])
            == AfterRetries(job, n + 1)
  {
    hide After, Sleeping, InExecution, AfterRetries, RetryDelay;
    var rest := [CleanUp(0, true), Tick(RetryDelay(n + 1)), Requeue(0, true)];
    IsPutOff(c, job, n, rest);
    IsQueuedAgain(c, job, n, RetryDelay(n + 1));
    assert [Fail(0, true), DecideRetry(0, true, 0)] + rest
           == [Fail(0, true), DecideRetry(0, true, 0), CleanUp(0, true), Tick(RetryDelay(n + 1)), Requeue(0, true)];
  }

  lemma OneRound(c: Config, job: JobId, n: nat)
    requires n < c.maxRetries && c.retryCapacity >= 1
    ensures After(c, AfterRetries(job, n), Round(n)) == AfterRetries(job, n + 1)
  {
    hide Step, AfterRetries, After, InExecution;
    var rest := [Fail(0, true), DecideRetry(0, true, 0), CleanUp(0, true), Tick(RetryDelay(n + 1)), Requeue(0, true)];
    assert Round(n) == [Pop(0, true), Load(0, true), Start(0, true)] + rest;
    IsExecuted(c, job, n, rest);
    IsRetried(c, job, n);
  }

  lemma AfterNone(c: Config, s: State)
    ensures After(c, s, []) == s
  {
  }

  lemma {:induction false} RoundsRetry(c: Config, job: JobId, n: nat)
    requires n <= c.maxRetries && c.retryCapacity >= 1
    ensures After(c, EMPTY, Rounds(job, n)) == AfterRetries(job, n)
    decreases n
  {
    if n == 0 {
      IsSubmitted(c, job, []);
      assert [Submit(job, true)] + [] == [Submit(job, true)];
    } else {
      RoundsRetry(c, job, n - 1);
      AfterAppend(c, EMPTY, Rounds(job, n - 1), Round(n - 1));
      OneRound(c, job, n - 1);
    }
  }

  /** For every limit there is a run in which a job is executed once more than the limit, failing each time. */
  lemma ExecutionsAreAttained(c: Config, job: JobId)
    requires c.maxRetries >= 0 && c.retryCapacity >= 1
    ensures var run := Rounds(job, c.maxRetries) + [Pop(0, true), Load(0, true), Start(0, true)];
            job in After(c, EMPTY, run).history && After(c, EMPTY, run).history[job].executions == c.maxRetries + 1
  {
    var last := [Pop(0, true), Load(0, true), Start(0, true)];
    RoundsRetry(c, job, c.maxRetries);
    AfterAppend(c, EMPTY, Rounds(job, c.maxRetries), last);
    IsExecuted(c, job, c.maxRetries, []);
    assert last + [] == last;
  }

  lemma IsSubmitted(c: Config, job: JobId, rest: seq<Action>)
    ensures After(c, EMPTY, [Submit(job, true)] + rest) == After(c, AfterRetries(job, 0), rest)
  {
    hide After;
    var r := [Submit(job, true)] + rest;
    AfterFirst(c, EMPTY, r);
    assert Step(c, EMPTY, Submit(job, true)) == AfterRetries(job, 0);
    assert r[1..] == rest;
  }

  // ---- Other ends -----------------------------------------------------------------------

  /** A job that succeeds is completed, leaves both lists, and is never retried. */
  lemma SuccessEnds(c: Config, job: JobId)
    ensures var run := [Submit(job, true)] + ([Pop(0, true), Load(0, true), Start(0, true)]
                       + [Succeed(0, true), CleanUp(0, true)]);
            After(c, EMPTY, run) ==
              State(0, map[job := Row(Completed, 0)], [], [], map[], map[], map[job := History(0, 0, 1, 0)])
  {
    hide After;
    var r := [Succeed(0, true), CleanUp(0, true)];
    IsSubmitted(c, job, [Pop(0, true), Load(0, true), Start(0, true)] + r);
    IsExecuted(c, job, 0, r);
    var s := InExecution(job, 0);
    AfterFirst(c, s, r);
    var s1 := s.(rows := map[job := Row(Completed, 0)], tasks := map[0 := Task(job, Settled)]);
    assert Step(c, s, Succeed(0, true)) == s1;
    AfterFirst(c, s1, r[1..]);
    assert r[1..][1..] == [];
    AfterNone(c, Step(c, s1, CleanUp(0, true)));
  }

  /** Database failures: an unread job settles its task, an unmarked one is not executed, an unrecorded end stays. */
  lemma DatabaseFailures(c: Config, s: State, task: nat, job: JobId, r: nat)
    requires task in s.tasks && s.tasks[task].job == job
    ensures var settled := s.(tasks := s.tasks[task := Task(job, Settled)]);
            && (s.tasks[task].stage == Popped ==> Step(c, s, Load(task, false)) == settled)
            && (s.tasks[task].stage == Popped && job !in s.rows ==> Step(c, s, Load(task, true)) == settled)
            && (s.tasks[task].stage == Loaded(r) ==> Step(c, s, Start(task, false)) == settled)
            && (s.tasks[task].stage == Executing(r) ==>
                  Step(c, s, Succeed(task, false)) == settled && Step(c, s, Fail(task, false)) == settled)
  {
  }

  /** A lost reply loses the job to the processing list; lost tasks and delays leave everything else alone. */
  lemma Losses(c: Config, s: State, id: nat, rest: seq<JobId>, job: JobId)
    ensures s.queue == rest + [job] && id !in s.tasks ==>
              Step(c, s, Pop(id, false)) == s.(queue := rest, processing := [job] + s.processing)
    ensures Step(c, s, LoseTask(id)) == s.(tasks := s.tasks - {id})
    ensures Step(c, s, LoseDelayed(id)) == s.(delayed := s.delayed - {id})
  {
    if s.queue == rest + [job] {
      assert s.queue[..|s.queue| - 1] == rest;
    }
  }

  /** Cancelling marks a queued or processing row and nothing else; old rows are deleted only at an end. */
  lemma CancelAndExpunge(c: Config, s: State, job: JobId)
    requires job in s.rows
    ensures var row := s.rows[job];
            if row.status.Queued? || row.status.Processing? then
              && Step(c, s, Cancel(job)) == s.(rows := s.rows[job := Row(Status.Cancelled, row.retryCount)])
              && Step(c, s, Expunge(job)) == s
            else
              && Step(c, s, Cancel(job)) == s
              && Step(c, s, Expunge(job)) == s.(rows := s.rows - {job})
  {
  }

  /** Cleaning up takes the job off the processing list once, if Redis can be reached. */
  lemma CleanUpIs(c: Config, s: State, task: nat, before: seq<JobId>, job: JobId, behind: seq<JobId>)
    requires task in s.tasks && s.tasks[task] == Task(job, Settled)
    requires s.processing == before + [job] + behind && job !in before
    ensures Step(c, s, CleanUp(task, true)) == s.(tasks := s.tasks - {task}, processing := before + behind)
    ensures Step(c, s, CleanUp(task, false)) == s.(tasks := s.tasks - {task})
  {
    RemoveFirst(before, job, behind);
  }

  lemma {:induction false} RemoveFirst(before: seq<JobId>, job: JobId, behind: seq<JobId>)
    requires job !in before
    ensures RemoveOne(before + [job] + behind, job) == before + behind
    decreases |before|
  {
    var list := before + [job] + behind;
    if before == [] {
      assert list[1..] == behind;
      assert before + behind == behind;
    } else {
      assert list[1..] == before[1..] + [job] + behind;
      RemoveFirst(before[1..], job, behind);
      assert before + behind == [before[0]] + (before[1..] + behind);
    }
  }
}
