/** What the retry protocol of core/src/jobs.rs keeps over every interleaving of its steps. */
module JobsTheorems {
  import opened Numbers
  import opened Jobs

  // ---- The invariant ----------------------------------------------------------

  ghost predicate LiveTask(s: State, t: nat) {
    t in s.tasks && !s.tasks[t].stage.Settled?
  }

  /** A job is queued, being executed up to its retry decision, or awaiting its delayed requeue:
      at one place, and there only once. */
  ghost predicate OneToken(s: State) {
    && (forall i, k :: 0 <= i < k < |s.queue| ==> s.queue[i] != s.queue[k])
    && (forall t, u :: LiveTask(s, t) && LiveTask(s, u) && t != u ==> s.tasks[t].job != s.tasks[u].job)
    && (forall d, e :: d in s.delayed && e in s.delayed && d != e ==> s.delayed[d].job != s.delayed[e].job)
    && (forall t :: LiveTask(s, t) ==> s.tasks[t].job !in s.queue)
    && (forall d :: d in s.delayed ==> s.delayed[d].job !in s.queue)
    && (forall t, d :: LiveTask(s, t) && d in s.delayed ==> s.tasks[t].job != s.delayed[d].job)
  }

  ghost predicate RowsAgree(s: State) {
    forall j :: j in s.rows ==> j in s.history && s.rows[j].retryCount == s.history[j].retries
  }

  function RetryLimit(c: Config): nat {
    if c.maxRetries < 0 then 0 else c.maxRetries
  }

  ghost predicate HistoryAgrees(c: Config, s: State) {
    forall j :: j in s.history ==>
      && s.history[j].retries <= RetryLimit(c)
      && s.history[j].delays == DelaySum(s.history[j].retries)
      && s.history[j].executions <= s.history[j].retries + 1
  }

  /** A job that waits for its next execution: not more executions than retries yet. */
  ghost predicate Unspent(s: State, j: JobId) {
    j in s.history && s.history[j].executions <= s.history[j].retries
  }

  /** All delays of the job's retries have passed since it was submitted. */
  ghost predicate Ripe(s: State, j: JobId, at: nat) {
    j in s.history && s.history[j].submittedAt + s.history[j].delays <= at
  }

  ghost predicate TokensAgree(s: State) {
    && (forall i :: 0 <= i < |s.queue| ==> Unspent(s, s.queue[i]) && Ripe(s, s.queue[i], s.now))
    && (forall d :: d in s.delayed ==> Unspent(s, s.delayed[d].job) && Ripe(s, s.delayed[d].job, s.delayed[d].due))
    && (forall t :: LiveTask(s, t) ==> TaskAgrees(s, s.tasks[t]))
  }

  ghost predicate TaskAgrees(s: State, t: Task) {
    && Ripe(s, t.job, s.now)
    && match t.stage
       case Popped => Unspent(s, t.job)
       case Loaded(r) => Unspent(s, t.job) && r == s.history[t.job].retries
       case Executing(r) => r == s.history[t.job].retries
       case Failing(r) => r == s.history[t.job].retries
       case Settled => true
  }

  ghost predicate Inv(c: Config, s: State) {
    OneToken(s) && RowsAgree(s) && HistoryAgrees(c, s) && TokensAgree(s)
  }

  // ---- Every step keeps it ------------------------------------------------------

  /** Whatever happens to rows, statuses, the processing list or settled tasks touches no token. */
  lemma SameTokens(c: Config, s: State, s': State)
    requires Inv(c, s) && s'.now >= s.now && s'.queue == s.queue && s'.history == s.history
    requires forall d :: d in s'.delayed ==> d in s.delayed && s'.delayed[d] == s.delayed[d]
    requires forall t :: LiveTask(s', t) ==> LiveTask(s, t) && s'.tasks[t] == s.tasks[t]
    requires forall j :: j in s'.rows ==> j in s.rows && s'.rows[j].retryCount == s.rows[j].retryCount
    ensures Inv(c, s')
  {
  }

  ghost predicate NoToken(s: State, j: JobId) {
    && j !in s.queue
    && (forall t :: LiveTask(s, t) ==> s.tasks[t].job != j)
    && (forall d :: d in s.delayed ==> s.delayed[d].job != j)
  }

  /** A job without a token, ready to run, enters the queue. */
  lemma EnqueueKeeps(c: Config, s: State, j: JobId)
    requires Inv(c, s) && NoToken(s, j) && Unspent(s, j) && Ripe(s, j, s.now)
    ensures Inv(c, s.(queue := [j] + s.queue))
  {
    var s' := s.(queue := [j] + s.queue);
    assert forall x :: x in s'.queue <==> x == j || x in s.queue;
    assert forall i :: 0 <= i < |s.queue| ==> s.queue[i] in s.queue;
    assert forall t :: LiveTask(s', t) <==> LiveTask(s, t);
    assert forall t :: LiveTask(s, t) ==> TaskAgrees(s', s.tasks[t]);
  }

  /** Where the tokens are does not depend on rows, history and the stages of live tasks. */
  lemma SamePlaces(s: State, s': State)
    requires OneToken(s) && s'.queue == s.queue && s'.delayed == s.delayed
    requires forall t :: LiveTask(s', t) ==> LiveTask(s, t) && s'.tasks[t].job == s.tasks[t].job
    ensures OneToken(s')
  {
  }

  lemma DelayedPlaces(s: State, s': State, j: JobId, delayed: nat, due: nat)
    requires OneToken(s) && NoToken(s, j) && s'.queue == s.queue && s'.tasks == s.tasks
    requires delayed !in s.delayed && s'.delayed == s.delayed[delayed := Delayed(j, due)]
    ensures OneToken(s')
  {
    assert forall t :: LiveTask(s', t) <==> LiveTask(s, t);
    assert forall d :: d in s'.delayed && d != delayed ==> d in s.delayed && s'.delayed[d] == s.delayed[d];
  }

  /** Rewriting the history of a job concerns only that job's tokens. */
  lemma OtherTokensAgree(s: State, s': State, j: JobId)
    requires TokensAgree(s) && NoToken(s, j)
    requires s'.now == s.now && s'.queue == s.queue && s'.tasks == s.tasks && s'.delayed == s.delayed
    requires forall x :: x in s.history && x != j ==> x in s'.history && s'.history[x] == s.history[x]
    ensures TokensAgree(s')
  {
    assert forall i :: 0 <= i < |s.queue| ==> s.queue[i] in s.queue && s.queue[i] != j;
    assert forall t :: LiveTask(s', t) <==> LiveTask(s, t);
    assert forall t :: LiveTask(s, t) ==> TaskAgrees(s', s.tasks[t]);
  }

  /** A job without a token gets a new row and a new history entry that agree. */
  lemma RewriteKeeps(c: Config, s: State, s': State, j: JobId)
    requires Inv(c, s) && NoToken(s, j)
    requires s'.now == s.now && s'.queue == s.queue && s'.tasks == s.tasks && s'.delayed == s.delayed
    requires s'.history.Keys == s.history.Keys + {j}
    requires forall x :: x in s.history && x != j ==> s'.history[x] == s.history[x]
    requires var h := s'.history[j];
             h.retries <= RetryLimit(c) && h.delays == DelaySum(h.retries) && h.executions <= h.retries + 1
    requires forall x :: x in s'.rows && x != j ==> x in s.rows && s'.rows[x] == s.rows[x]
    requires j in s'.rows ==> s'.rows[j].retryCount == s'.history[j].retries
    ensures Inv(c, s') && NoToken(s', j)
  {
    SamePlaces(s, s');
    OtherTokensAgree(s, s', j);
    hide OneToken, TokensAgree;
  }

  /** A job without a token sleeps until its next retry is due. */
  lemma DelayKeeps(c: Config, s: State, j: JobId, delayed: nat, due: nat)
    requires Inv(c, s) && NoToken(s, j) && Unspent(s, j) && Ripe(s, j, due) && delayed !in s.delayed
    ensures Inv(c, s.(delayed := s.delayed[delayed := Delayed(j, due)]))
  {
    var s' := s.(delayed := s.delayed[delayed := Delayed(j, due)]);
    DelayedPlaces(s, s', j, delayed, due);
    DelayedTokensAgree(s, s', j, delayed, due);
    hide OneToken, TokensAgree;
  }

  lemma DelayedTokensAgree(s: State, s': State, j: JobId, delayed: nat, due: nat)
    requires TokensAgree(s) && Unspent(s, j) && Ripe(s, j, due) && delayed !in s.delayed
    requires s' == s.(delayed := s.delayed[delayed := Delayed(j, due)])
    ensures TokensAgree(s')
  {
    assert forall d :: d in s'.delayed && d != delayed ==> d in s.delayed && s'.delayed[d] == s.delayed[d];
    assert forall t :: LiveTask(s', t) <==> LiveTask(s, t);
    assert forall t :: LiveTask(s, t) ==> TaskAgrees(s', s.tasks[t]);
  }

  /** A job without a token is taken up by a worker. */
  lemma TakeKeeps(c: Config, s: State, j: JobId, task: nat)
    requires Inv(c, s) && NoToken(s, j) && Unspent(s, j) && Ripe(s, j, s.now) && task !in s.tasks
    ensures Inv(c, s.(tasks := s.tasks[task := Task(j, Popped)]))
  {
    var s' := s.(tasks := s.tasks[task := Task(j, Popped)]);
    TakenPlaces(s, s', j, task);
    TakenTokensAgree(s, s', j, task);
    hide OneToken, TokensAgree;
  }

  lemma TakenPlaces(s: State, s': State, j: JobId, task: nat)
    requires OneToken(s) && NoToken(s, j) && task !in s.tasks
    requires s' == s.(tasks := s.tasks[task := Task(j, Popped)])
    ensures OneToken(s')
  {
    assert forall t :: LiveTask(s', t) && t != task ==> LiveTask(s, t) && s'.tasks[t] == s.tasks[t];
  }

  lemma TakenTokensAgree(s: State, s': State, j: JobId, task: nat)
    requires TokensAgree(s) && Unspent(s, j) && Ripe(s, j, s.now) && task !in s.tasks
    requires s' == s.(tasks := s.tasks[task := Task(j, Popped)])
    ensures TokensAgree(s')
  {
    forall t | LiveTask(s', t) && t != task ensures TaskAgrees(s', s'.tasks[t]) {
      assert LiveTask(s, t) && TaskAgrees(s, s.tasks[t]);
    }
  }

  lemma SubmitKeeps(c: Config, s: State, job: JobId, pushed: bool)
    requires Inv(c, s) && job !in s.history
    ensures Inv(c, Submitted(s, job, pushed))
  {
    assert NoToken(s, job) by {
      assert forall i :: 0 <= i < |s.queue| ==> s.queue[i] in s.history;
    }
    var s1 := Submitted(s, job, false);
    RewriteKeeps(c, s, s1, job);
    if pushed {
      EnqueueKeeps(c, s1, job);
    }
  }

  lemma DequeueKeeps(c: Config, s: State)
    requires Inv(c, s) && s.queue != []
    ensures var n := |s.queue|; var s' := s.(queue := s.queue[..n - 1]); var j := s.queue[n - 1];
            Inv(c, s') && NoToken(s', j) && Unspent(s', j) && Ripe(s', j, s'.now)
  {
    var n := |s.queue|;
    var s' := s.(queue := s.queue[..n - 1]);
    assert s.queue[n - 1] in s.queue && forall j :: j in s'.queue ==> j in s.queue;
    assert forall t :: LiveTask(s', t) <==> LiveTask(s, t);
    assert forall t :: LiveTask(s, t) ==> TaskAgrees(s', s.tasks[t]);
  }

  lemma PopKeeps(c: Config, s: State, task: nat, answered: bool)
    requires Inv(c, s) && s.queue != [] && task !in s.tasks
    ensures Inv(c, PoppedBy(s, task, answered))
  {
    hide Inv, NoToken, Unspent, Ripe;
    var n := |s.queue|;
    var s1 := s.(queue := s.queue[..n - 1]);
    DequeueKeeps(c, s);
    var s2 := if answered then s1.(tasks := s.tasks[task := Task(s.queue[n - 1], Popped)]) else s1;
    if answered {
      TakeKeeps(c, s1, s.queue[n - 1], task);
    }
    ProcessingKeeps(c, s2, [s.queue[n - 1]] + s.processing);
  }

  lemma ProcessingKeeps(c: Config, s: State, list: seq<JobId>)
    requires Inv(c, s)
    ensures Inv(c, s.(processing := list))
  {
    SameTokens(c, s, s.(processing := list));
  }

  /** A live task moves to a stage that fits what is known of its job. */
  lemma StageKeeps(c: Config, s: State, task: nat, stage: Stage)
    requires Inv(c, s) && LiveTask(s, task) && TaskAgrees(s, Task(s.tasks[task].job, stage))
    ensures Inv(c, SetStage(s, task, stage))
  {
    var s' := SetStage(s, task, stage);
    assert forall t :: LiveTask(s', t) ==> LiveTask(s, t) && s'.tasks[t].job == s.tasks[t].job;
  }

  lemma StatusKeeps(c: Config, s: State, job: JobId, status: Status)
    requires Inv(c, s)
    ensures Inv(c, s.(rows := SetStatus(s.rows, job, status)))
  {
    SameTokens(c, s, s.(rows := SetStatus(s.rows, job, status)));
  }

  /** Starting an execution spends the token's job on it. */
  lemma StartKeeps(c: Config, s: State, task: nat)
    requires Inv(c, s) && LiveTask(s, task) && s.tasks[task].stage.Loaded?
    ensures Inv(c, Started(s, task, s.tasks[task].stage.retries))
  {
    var s' := Started(s, task, s.tasks[task].stage.retries);
    assert TaskAgrees(s, s.tasks[task]);
    SamePlaces(s, s');
    StartTokensAgree(s, s', task);
    hide OneToken, TokensAgree;
  }

  lemma StartTokensAgree(s: State, s': State, task: nat)
    requires OneToken(s) && TokensAgree(s) && LiveTask(s, task) && s.tasks[task].stage.Loaded?
    requires s' == Started(s, task, s.tasks[task].stage.retries)
    ensures TokensAgree(s')
  {
    var job := s.tasks[task].job;
    assert forall i :: 0 <= i < |s.queue| ==> s.queue[i] in s.queue && s.queue[i] != job;
    assert TaskAgrees(s', s'.tasks[task]) by {
      assert TaskAgrees(s, s.tasks[task]);
    }
    forall t | LiveTask(s', t) && t != task ensures TaskAgrees(s', s'.tasks[t]) {
      assert LiveTask(s, t) && TaskAgrees(s, s.tasks[t]);
    }
  }

  /** A settled job's token goes to the delayed requeue of its next retry, or is dropped. */
  lemma RetryKeeps(c: Config, s: State, job: JobId, retries: nat, dbOk: bool, delayed: nat)
    requires Inv(c, s) && delayed !in s.delayed && job in s.history && retries == s.history[job].retries
    requires Ripe(s, job, s.now) && NoToken(s, job)
    ensures Inv(c, Retried(c, s, job, retries, dbOk, delayed))
  {
    hide Inv, NoToken, Unspent, Ripe, RetryRecorded;
    if retries < c.maxRetries && dbOk {
      RecordKeeps(c, s, job, retries);
      if |s.delayed| < c.retryCapacity {
        DelayKeeps(c, RetryRecorded(s, job, retries + 1), job, delayed, s.now + RetryDelay(retries + 1));
      }
    }
  }

  lemma RecordKeeps(c: Config, s: State, job: JobId, retries: nat)
    requires Inv(c, s) && job in s.history && retries == s.history[job].retries < c.maxRetries
    requires Ripe(s, job, s.now) && NoToken(s, job)
    ensures var s' := RetryRecorded(s, job, retries + 1);
            && Inv(c, s') && NoToken(s', job) && Unspent(s', job)
            && s'.now == s.now && s'.delayed == s.delayed && Ripe(s', job, s.now + RetryDelay(retries + 1))
  {
    var s' := RetryRecorded(s, job, retries + 1);
    assert s.history[job].executions <= retries + 1 && s.history[job].delays == DelaySum(retries);
    assert s'.history[job].delays == DelaySum(retries + 1);
    RewriteKeeps(c, s, s', job);
    hide Inv, NoToken;
  }

  lemma DecideKeeps(c: Config, s: State, task: nat, dbOk: bool, delayed: nat)
    requires Inv(c, s) && LiveTask(s, task) && s.tasks[task].stage.Failing? && delayed !in s.delayed
    ensures Inv(c, Step(c, s, DecideRetry(task, dbOk, delayed)))
  {
    var s1 := SetStage(s, task, Settled);
    assert TaskAgrees(s, s.tasks[task]);
    StageKeeps(c, s, task, Settled);
    SettledHasNoToken(c, s, task);
    RetryKeeps(c, s1, s.tasks[task].job, s.tasks[task].stage.retries, dbOk, delayed);
  }

  lemma SettledHasNoToken(c: Config, s: State, task: nat)
    requires Inv(c, s) && LiveTask(s, task)
    ensures NoToken(SetStage(s, task, Settled), s.tasks[task].job)
  {
    var s1 := SetStage(s, task, Settled);
    assert forall t :: LiveTask(s1, t) ==> LiveTask(s, t) && t != task && s1.tasks[t] == s.tasks[t];
  }

  lemma RequeueKeeps(c: Config, s: State, delayed: nat, pushed: bool)
    requires Inv(c, s) && delayed in s.delayed && s.now >= s.delayed[delayed].due
    ensures Inv(c, Step(c, s, Requeue(delayed, pushed)))
  {
    var s1 := s.(delayed := s.delayed - {delayed});
    var job := s.delayed[delayed].job;
    assert forall d :: d in s1.delayed ==> d in s.delayed && d != delayed && s1.delayed[d] == s.delayed[d];
    SameTokens(c, s, s1);
    assert NoToken(s1, job);
    if pushed {
      EnqueueKeeps(c, s1, job);
    }
  }

  lemma StepKeeps(c: Config, s: State, a: Action)
    requires Inv(c, s)
    ensures Inv(c, Step(c, s, a))
  {
    hide Inv, Submitted, PoppedBy, Started, Retried;
    match a
    case Tick(_) => SameTokens(c, s, Step(c, s, a));
    case Submit(job, pushed) => if job !in s.history { SubmitKeeps(c, s, job, pushed); }
    case Pop(task, answered) => if s.queue != [] && task !in s.tasks { PopKeeps(c, s, task, answered); }
    case Load(task, dbOk) => LoadKeeps(c, s, task, dbOk);
    case Start(task, dbOk) =>
      if AtStage(s, task).Loaded? {
        if dbOk { StartKeeps(c, s, task); } else { SettleKeeps(c, s, task); }
      }
    case Succeed(task, dbOk) =>
      if AtStage(s, task).Executing? {
        SettleKeeps(c, s, task);
        if dbOk { StatusKeeps(c, SetStage(s, task, Settled), s.tasks[task].job, Completed); }
      }
    case Fail(task, dbOk) =>
      if AtStage(s, task).Executing? {
        if dbOk { FailKeeps(c, s, task); } else { SettleKeeps(c, s, task); }
      }
    case DecideRetry(task, dbOk, delayed) =>
      if AtStage(s, task).Failing? && delayed !in s.delayed { DecideKeeps(c, s, task, dbOk, delayed); }
    case Requeue(delayed, pushed) =>
      if delayed in s.delayed && s.now >= s.delayed[delayed].due { RequeueKeeps(c, s, delayed, pushed); }
    case CleanUp(task, connected) => SameTokens(c, s, Step(c, s, a));
    case LoseTask(task) => SameTokens(c, s, Step(c, s, a));
    case LoseDelayed(delayed) => SameTokens(c, s, Step(c, s, a));
    case Cancel(job) => StatusKeeps(c, s, job, Status.Cancelled);
    case Expunge(job) => SameTokens(c, s, Step(c, s, a));
  }

  lemma SettleKeeps(c: Config, s: State, task: nat)
    requires Inv(c, s) && LiveTask(s, task)
    ensures Inv(c, SetStage(s, task, Settled))
  {
    StageKeeps(c, s, task, Settled);
  }

  lemma LoadKeeps(c: Config, s: State, task: nat, dbOk: bool)
    requires Inv(c, s)
    ensures Inv(c, Step(c, s, Load(task, dbOk)))
  {
    if AtStage(s, task).Popped? {
      var job := s.tasks[task].job;
      StageKeeps(c, s, task, if dbOk && job in s.rows then Loaded(s.rows[job].retryCount) else Settled);
    }
  }

  lemma FailKeeps(c: Config, s: State, task: nat)
    requires Inv(c, s) && LiveTask(s, task) && s.tasks[task].stage.Executing?
    ensures Inv(c, Step(c, s, Fail(task, true)))
  {
    var s1 := SetStage(s, task, Failing(s.tasks[task].stage.retries));
    StageKeeps(c, s, task, Failing(s.tasks[task].stage.retries));
    StatusKeeps(c, s1, s.tasks[task].job, Failed);
  }

  lemma {:induction false} RunKeeps(c: Config, run: seq<Action>)
    ensures Inv(c, After(c, EMPTY, run))
    decreases |run|
  {
    var n := |run|;
    if n > 0 {
      RunKeeps(c, run[..n - 1]);
      StepKeeps(c, After(c, EMPTY, run[..n - 1]), run[n - 1]);
    }
  }

  // ---- Main results -------------------------------------------------------------

  predicate Runs(s: State, t: nat) {
    t in s.tasks && s.tasks[t].stage.Executing?
  }

  /** Each job has at most one live token, so its executions are serialised. */
  lemma JobsAreSerialised(c: Config, run: seq<Action>)
    ensures var s := After(c, EMPTY, run);
            OneToken(s) && forall t, u :: Runs(s, t) && Runs(s, u) && t != u ==> s.tasks[t].job != s.tasks[u].job
  {
    RunKeeps(c, run);
    var s := After(c, EMPTY, run);
    assert forall t :: Runs(s, t) ==> LiveTask(s, t);
  }

  /** A job is executed at most once more than it may be retried, whatever else happens. */
  lemma ExecutionsAreBounded(c: Config, run: seq<Action>, job: JobId)
    requires job in After(c, EMPTY, run).history
    ensures var h := After(c, EMPTY, run).history[job];
            h.executions <= h.retries + 1 <= RetryLimit(c) + 1
  {
    RunKeeps(c, run);
  }

  lemma Powers()
    ensures Pow2(59) * 30 < U64 && U64 < Pow2(60) * 30
  {
    assert Pow2(10) == 1024 && Pow2(9) == 512;
    Pow2Add(10, 10);
    Pow2Add(20, 10);
    Pow2Add(20, 9);
    Pow2Add(30, 30);
    Pow2Add(30, 29);
  }

  /** A delay is 30 * 2^(k-1) seconds exactly up to the sixtieth retry; later ones come out shorter. */
  lemma DelayWraps(k: nat)
    requires k >= 1
    ensures RetryDelay(k) <= 30 * Pow2(k - 1)
    ensures RetryDelay(k) == 30 * Pow2(k - 1) <==> k <= 60
  {
    Powers();
    if k <= 60 {
      Pow2Monotone(k - 1, 59);
    } else {
      Pow2Monotone(60, k - 1);
    }
    hide Pow2;
    WrapAtMost(Pow2(k - 1));
  }

  lemma WrapAtMost(p: nat)
    ensures p % U64 * 30 % U64 <= 30 * p && p % U64 * 30 % U64 < U64
    ensures p * 30 < U64 ==> p % U64 * 30 % U64 == 30 * p
  {
    assert p == (p / U64) * U64 + p % U64;
    var q := p % U64 * 30;
    assert q == (q / U64) * U64 + q % U64;
  }

  /** The first m delays add up to 30 * (2^m - 1) seconds exactly when m is at most 60. */
  lemma {:induction false} DelaySumIff(m: nat)
    ensures DelaySum(m) <= 30 * (Pow2(m) - 1)
    ensures DelaySum(m) == 30 * (Pow2(m) - 1) <==> m <= 60
  {
    if m > 0 {
      DelaySumIff(m - 1);
      DelayWraps(m);
    }
  }

  /** While a job that was retried m <= 60 times is executed, at least 30 * (2^m - 1) seconds have passed since
      submission. */
  lemma BackoffIsRespected(c: Config, run: seq<Action>, task: nat)
    requires var s := After(c, EMPTY, run); task in s.tasks && s.tasks[task].stage.Executing?
    ensures var s := After(c, EMPTY, run);
            var job := s.tasks[task].job;
            && job in s.history
            && s.tasks[task].stage.retries == s.history[job].retries
            && s.now >= s.history[job].submittedAt + DelaySum(s.history[job].retries)
            && (s.history[job].retries <= 60 ==>
                  s.now >= s.history[job].submittedAt + 30 * (Pow2(s.history[job].retries) - 1))
  {
    RunKeeps(c, run);
    var s := After(c, EMPTY, run);
    assert LiveTask(s, task);
    DelaySumIff(s.history[s.tasks[task].job].retries);
  }
}
