/**
 Which reports decide the score.  A report stores what it makes of the score that it read, so a store keeps exactly
 the reports that were stored when it read, and loses those stored since.
 */
module BreakerScores {
  import opened Wrappers
  import opened Numbers
  import opened CircuitBreaker
  import opened BreakerRuns
  import opened BreakerTheorems

  /** The reports that survive in the score, and those that survived in what each call has read. */
  datatype Scores = Scores(current: seq<Report>, loaded: map<nat, seq<Report>>)

  function NextScores(b: Breaker, s: Scores, e: Event): Scores {
    var stage := StageOf(b, e.call);
    if e.move.LoadScore? && stage == Some(Counted) then s.(loaded := s.loaded[e.call := s.current])
    else if e.move.StoreScore? && stage.Some? && stage.value.Loaded? && e.call in s.loaded then
      s.(current := s.loaded[e.call] + [b.calls[e.call].report])
    else s
  }

  function ScoresOf(score: int, run: seq<Event>): Scores {
    if run == [] then Scores([], map[])
    else NextScores(After(score, Init(run)), ScoresOf(score, Init(run)), Last(run))
  }

  /** The score after reports that are made one after the other. */
  function Fold(score: int, chain: seq<Report>): int {
    if chain == [] then score else Rescored(chain[|chain| - 1], Fold(score, chain[..|chain| - 1]))
  }

  /** The score, and every score that was read, is that of its reports. */
  ghost predicate Folded(score: int, b: Breaker, s: Scores) {
    && b.health.score == Fold(score, s.current)
    && (forall id :: id in b.calls && b.calls[id].Reporting? && b.calls[id].stage.Loaded? ==>
          id in s.loaded && b.calls[id].stage.score == Fold(score, s.loaded[id]))
  }

  lemma StoreFolds(score: int, b: Breaker, s: Scores, e: Event)
    requires Folded(score, b, s) && e.move.StoreScore?
    ensures Folded(score, Step(b, e), NextScores(b, s, e))
  {
    if e.call in s.loaded {
      FoldNext(score, s.loaded[e.call]);
    }
  }

  lemma OthersFold(score: int, b: Breaker, s: Scores, e: Event)
    requires Folded(score, b, s) && !e.move.StoreScore?
    ensures Folded(score, Step(b, e), NextScores(b, s, e))
  {
    hide Fold;
  }

  /** Over every interleaved run, the score is that of the surviving reports, made one after the other. */
  lemma {:induction false} ScoreIsFold(score: int, run: seq<Event>)
    ensures Folded(score, After(score, run), ScoresOf(score, run))
    decreases |run|
  {
    if run != [] {
      hide Folded, Step, NextScores;
      ScoreIsFold(score, Init(run));
      if Last(run).move.StoreScore? {
        StoreFolds(score, After(score, Init(run)), ScoresOf(score, Init(run)), Last(run));
      } else {
        OthersFold(score, After(score, Init(run)), ScoresOf(score, Init(run)), Last(run));
      }
    }
  }

  lemma FoldNext(score: int, chain: seq<Report>)
    ensures forall r :: Fold(score, chain + [r]) == Rescored(r, Fold(score, chain))
  {
    forall r ensures Fold(score, chain + [r]) == Rescored(r, Fold(score, chain)) {
      assert (chain + [r])[..|chain|] == chain;
    }
  }

  // ---- What failures cost ---------------------------------------------------------------

  function Penalty(r: Report): int {
    match r
    case Failure => LOCAL_FAILURE_PENALTY
    case ProbeFailed => PROBE_FAILURE_PENALTY
    case _ => 0
  }

  /** The failures behind the last success of a chain. */
  function Tail(chain: seq<Report>): seq<Report> {
    if chain == [] || chain[|chain| - 1].Succeeds() then []
    else Tail(chain[..|chain| - 1]) + [chain[|chain| - 1]]
  }

  /** The score after the last success of a chain. */
  function Base(score: int, chain: seq<Report>): int {
    if chain == [] || chain[|chain| - 1].Succeeds() then Fold(score, chain) else Base(score, chain[..|chain| - 1])
  }

  function Penalties(failures: seq<Report>): int {
    if failures == [] then 0 else Penalties(failures[..|failures| - 1]) + Penalty(failures[|failures| - 1])
  }

  lemma {:induction false} FoldInRange(score: int, chain: seq<Report>)
    requires MIN_HEALTH_SCORE <= score <= MAX_HEALTH_SCORE
    ensures MIN_HEALTH_SCORE <= Fold(score, chain) <= MAX_HEALTH_SCORE
    decreases |chain|
  {
    if chain != [] {
      FoldInRange(score, chain[..|chain| - 1]);
    }
  }

  /** Penalties add up, down to zero. */
  lemma {:induction false} FoldIsBaseLessPenalties(score: int, chain: seq<Report>)
    requires MIN_HEALTH_SCORE <= score <= MAX_HEALTH_SCORE
    ensures var rest := Base(score, chain) - Penalties(Tail(chain));
            Fold(score, chain) == if rest < MIN_HEALTH_SCORE then MIN_HEALTH_SCORE else rest
    ensures Base(score, chain) <= MAX_HEALTH_SCORE && Penalties(Tail(chain)) >= 0
    decreases |chain|
  {
    FoldInRange(score, chain);
    if chain != [] && !chain[|chain| - 1].Succeeds() {
      var before, last := chain[..|chain| - 1], chain[|chain| - 1];
      FoldIsBaseLessPenalties(score, before);
      assert Tail(chain)[..|Tail(chain)| - 1] == Tail(before);
    }
  }

  /**
   * After three failures, once nothing refuses, a provider is offered if and only if the penalties of the surviving
   * failures leave 25 of the score after the last surviving success.
   */
  lemma EligibleIff(score: int, run: seq<Event>, now: nat)
    requires IsRun(score, run) && Streak(run) >= CIRCUIT_BREAKER_THRESHOLD && !Refuses(After(score, run).health, now)
    ensures var chain := ScoresOf(score, run).current;
            Offered(After(score, run).health, now) <==>
              Base(score, chain) - Penalties(Tail(chain)) >= MIN_PROVIDER_SCORE
  {
    CounterIsStreak(score, run);
    ScoreIsFold(score, run);
    FoldIsBaseLessPenalties(score, ScoresOf(score, run).current);
  }

  // ---- Scored in turn ---------------------------------------------------------------------

  /** Every report counted, in order, those not yet scored included. */
  function Reports(run: seq<Event>): seq<Report> {
    if run == [] then [] else Reports(Init(run)) + (if Last(run).Counts() then [Last(run).move.report] else [])
  }

  /** What has been stored, and what a call that is still to store has counted. */
  ghost predicate InStep(b: Breaker, s: Scores, reports: seq<Report>) {
    && (forall i, j :: i in b.calls && j in b.calls && ScorePending(b.calls[i]) && ScorePending(b.calls[j]) ==> i == j)
    && ((forall id :: id in b.calls ==> !ScorePending(b.calls[id])) ==> s.current == reports)
    && (forall id :: id in b.calls && ScorePending(b.calls[id]) ==>
          && reports == s.current + [b.calls[id].report]
          && (b.calls[id].stage.Loaded? ==> id in s.loaded && s.loaded[id] == s.current))
  }

  /** Scored in turn, no report is lost: all of them survive, in the order in which they were counted. */
  lemma {:induction false} InTurnNothingIsLost(score: int, run: seq<Event>)
    requires IsRun(score, run) && ScoresInTurn(score, run)
    ensures InStep(After(score, run), ScoresOf(score, run), Reports(run))
    decreases |run|
  {
    if run != [] {
      InTurnNothingIsLost(score, Init(run));
      hide InStep, After, NextScores, Step;
      AfterLast(score, run);
      InStepNext(After(score, Init(run)), ScoresOf(score, Init(run)), Reports(Init(run)), Last(run));
    }
  }

  lemma AfterLast(score: int, run: seq<Event>)
    requires run != []
    ensures After(score, run) == Step(After(score, Init(run)), Last(run))
    ensures IsRun(score, run) && ScoresInTurn(score, run) && Last(run).Counts() ==>
              && Last(run).call !in After(score, Init(run)).calls
              && forall id :: id in After(score, Init(run)).calls ==> !ScorePending(After(score, Init(run)).calls[id])
  {
  }

  lemma StoreInStep(b: Breaker, s: Scores, reports: seq<Report>, e: Event)
    requires InStep(b, s, reports) && e.move.StoreScore?
    ensures InStep(Step(b, e), NextScores(b, s, e), reports)
  {
    if StageOf(b, e.call).Some? && StageOf(b, e.call).value.Loaded? {
      var t := Step(b, e);
      assert ScorePending(b.calls[e.call]);
      assert forall id :: id in t.calls ==> !ScorePending(t.calls[id]);
    }
  }

  lemma LoadInStep(b: Breaker, s: Scores, reports: seq<Report>, e: Event)
    requires InStep(b, s, reports) && e.move.LoadScore?
    ensures InStep(Step(b, e), NextScores(b, s, e), reports)
  {
    if StageOf(b, e.call) == Some(Counted) {
      var t := Step(b, e);
      assert ScorePending(b.calls[e.call]) && ScorePending(t.calls[e.call]);
    }
  }

  lemma CountInStep(b: Breaker, s: Scores, reports: seq<Report>, e: Event)
    requires InStep(b, s, reports) && e.Counts() && e.call !in b.calls
    requires forall id :: id in b.calls ==> !ScorePending(b.calls[id])
    ensures InStep(Step(b, e), NextScores(b, s, e), reports + [e.move.report])
  {
    var t := Step(b, e);
    assert ScorePending(t.calls[e.call]);
  }

  lemma OthersInStep(b: Breaker, s: Scores, reports: seq<Report>, e: Event)
    requires InStep(b, s, reports) && (e.move.WriteTrip? || e.move.Drop? || e.move.Check?)
    ensures InStep(Step(b, e), NextScores(b, s, e), reports)
  {
    var t := Step(b, e);
    if forall id :: id in t.calls ==> !ScorePending(t.calls[id]) {
      forall id | id in b.calls ensures !ScorePending(b.calls[id]) {
        assert id in t.calls || b.calls[id].Writes();
      }
    }
  }

  lemma InStepNext(b: Breaker, s: Scores, reports: seq<Report>, e: Event)
    requires InStep(b, s, reports)
    requires e.Counts() ==> e.call !in b.calls && forall id :: id in b.calls ==> !ScorePending(b.calls[id])
    ensures InStep(Step(b, e), NextScores(b, s, e), reports + (if e.Counts() then [e.move.report] else []))
  {
    hide InStep, Step, NextScores;
    assert reports + [] == reports;
    if e.Counts() {
      CountInStep(b, s, reports, e);
    } else if e.move.StoreScore? {
      StoreInStep(b, s, reports, e);
    } else if e.move.LoadScore? {
      LoadInStep(b, s, reports, e);
    } else {
      OthersInStep(b, s, reports, e);
    }
  }

  /** Then the reports themselves decide: the penalties since the last success against the score it left. */
  lemma EligibleInTurnIff(score: int, run: seq<Event>, now: nat)
    requires IsRun(score, run) && ScoresInTurn(score, run)
    requires forall id :: id in After(score, run).calls ==> !ScorePending(After(score, run).calls[id])
    requires Streak(run) >= CIRCUIT_BREAKER_THRESHOLD && !Refuses(After(score, run).health, now)
    ensures Offered(After(score, run).health, now) <==>
              Base(score, Reports(run)) - Penalties(Tail(Reports(run))) >= MIN_PROVIDER_SCORE
  {
    EligibleIff(score, run, now);
    InTurnNothingIsLost(score, run);
  }
}
