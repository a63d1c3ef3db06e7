/** Interleavings in which the breaker of core/src/rpc_provider.rs breaks its promises. */
module BreakerWitnesses {
  import opened Wrappers
  import opened Numbers
  import opened CircuitBreaker
  import opened BreakerRuns
  import opened BreakerTheorems
  import opened BreakerAtomic

  const FULL: int := MAX_HEALTH_SCORE

  /** Reports of `r` as calls 1, ..., n, each in one go. */
  function InARow(run: seq<Event>, r: Report, n: nat): seq<Event> {
    if n == 0 then run else InARow(run, r, n - 1) + Whole(n, r, 0)
  }

  function ProbeFailures(run: seq<Event>, n: nat): seq<Event> {
    InARow(run, ProbeFailed, n)
  }

  /** From a full score, `n` failures in a row while at most call 0 is in flight. */
  lemma {:induction false} FailInARow(run: seq<Event>, r: Report, n: nat)
    requires IsRun(FULL, run) && |run| < 100 && Now(run) == 0 && Streak(run) == 0
    requires (r.Failure? && n <= 4) || (r.ProbeFailed? && n <= 6)
    requires After(FULL, run).health == Fresh(FULL) && forall id :: id in After(FULL, run).calls ==> id == 0
    ensures var end, score := InARow(run, r, n), FULL - (if r.Failure? then 25 * n else 15 * n);
            && IsRun(FULL, end) && |end| == |run| + 4 * n && Now(end) == 0 && Streak(end) == n
            && After(FULL, end) ==
                 Breaker(Health(score, n, if n >= 3 then Some(0) else None, 0), After(FULL, run).calls)
            && (n >= 3 ==> LastTrip(FULL, end) == Some(0))
  {
    hide IsRun, After, Now, Streak, LastTrip, LastFailure, Scoring, Whole;
    if n > 0 {
      FailInARow(run, r, n - 1);
      WholeRuns(FULL, InARow(run, r, n - 1), n, r, 0);
    }
  }

  /** Up to six probe failures in one go each, while at most call 0 is in flight. */
  lemma ProbesFail(run: seq<Event>, n: nat)
    requires IsRun(FULL, run) && |run| < 100 && Now(run) == 0 && n <= 6 && Streak(run) == 0
    requires After(FULL, run).health == Fresh(FULL) && forall id :: id in After(FULL, run).calls ==> id == 0
    ensures var end := ProbeFailures(run, n);
            && IsRun(FULL, end) && |end| == |run| + 4 * n && Now(end) == 0 && Streak(end) == n
            && After(FULL, end) ==
                 Breaker(Health(FULL - 15 * n, n, if n >= 3 then Some(0) else None, 0), After(FULL, run).calls)
            && (n >= 3 ==> LastTrip(FULL, end) == Some(0))
  {
    FailInARow(run, ProbeFailed, n);
  }

  lemma NewRun()
    ensures IsRun(FULL, []) && After(FULL, []) == Breaker(Fresh(FULL), map[]) && Now([]) == 0 && Streak([]) == 0
  {
  }

  lemma Moves(run: seq<Event>, e: Event)
    requires MayFollow(FULL, run, e)
    ensures IsRun(FULL, run + [e]) && Now(run + [e]) == e.at
    ensures After(FULL, run + [e]) == Step(After(FULL, run), e)
    ensures Streak(run + [e]) == if e.CountsSuccess() then 0 else Streak(run) + (if e.CountsFailure() then 1 else 0)
    ensures LastTrip(FULL, run + [e]) == if WritesTrip(After(FULL, run), e) then Some(e.at) else LastTrip(FULL, run)
    ensures LastFailure(run + [e]) == if e.CountsFailure() then e.at else LastFailure(run)
  {
    Appended(FULL, run, e);
    GoesOn(FULL, run, e);
  }

  // ---- A check ------------------------------------------------------------------------

  /** Three failures; when their cooldown is over a check reads, a probe fails, and the check writes. */
  function RacingCheck(): seq<Event> {
    var t := CIRCUIT_BREAKER_COOLDOWN;
    ProbeFailures([], 3) + [Event(t, 9, Check)] + Whole(4, ProbeFailed, t) + [Event(t, 9, WriteTrip)]
  }

  /** The failure between the two is forgotten: four in a row, and offered at once. */
  lemma FailureDuringCheckIsLost()
    ensures var run := RacingCheck();
            && IsRun(FULL, run) && InCooldown(FULL, run, Now(run)) && !TripPending(After(FULL, run))
            && Offered(After(FULL, run).health, Now(run)) && !ClearsTimely(FULL, run)
  {
    hide IsRun, After, Now, Streak, LastTrip, LastFailure, Scoring, Whole;
    var t := CIRCUIT_BREAKER_COOLDOWN;
    var r3 := ProbeFailures([], 3);
    var r4 := r3 + [Event(t, 9, Check)];
    var r5 := r4 + Whole(4, ProbeFailed, t);
    NewRun();
    ProbesFail([], 3);
    Moves(r3, Event(t, 9, Check));
    WholeRuns(FULL, r4, 4, ProbeFailed, t);
    assert After(FULL, r5) == Breaker(Health(40, 4, Some(t), 0), map[9 := Clearing]);
    Moves(r5, Event(t, 9, WriteTrip));
    OfferedInCooldownIsUntimely(RacingCheck());
  }

  lemma OfferedInCooldownIsUntimely(run: seq<Event>)
    requires IsRun(FULL, run) && InCooldown(FULL, run, Now(run)) && !TripPending(After(FULL, run))
    requires Offered(After(FULL, run).health, Now(run))
    ensures !ClearsTimely(FULL, run)
  {
    CooldownIsKeptIff(FULL, run);
    assert run[..|run|] == run;
    assert !Withheld(FULL, run);
  }

  // ---- A success ------------------------------------------------------------------------

  /** A success waits for the trip lock while three reports of failures come and go; then it clears their trip. */
  function SuspendedSuccess(): seq<Event> {
    InARow(Scoring(0, Success, 0), Failure, 3) + [Event(0, 0, WriteTrip)]
  }

  /** No check is involved: three failures after the success, and offered at once. */
  lemma FailuresDuringSuccessAreLost()
    ensures var run := SuspendedSuccess();
            && IsRun(FULL, run) && InCooldown(FULL, run, Now(run)) && !TripPending(After(FULL, run))
            && Offered(After(FULL, run).health, Now(run)) && !ClearsTimely(FULL, run)
  {
    hide IsRun, After, Now, Streak, LastTrip, LastFailure, Scoring, Whole;
    var r0 := Scoring(0, Success, 0);
    var r3 := InARow(r0, Failure, 3);
    NewRun();
    ScoringRuns(FULL, [], 0, Success, 0);
    assert [] + r0 == r0;
    FailInARow(r0, Failure, 3);
    assert After(FULL, r3) == Breaker(Health(25, 3, Some(0), 0), map[0 := Reporting(Success, false, Scored)]);
    Moves(r3, Event(0, 0, WriteTrip));
    OfferedInCooldownIsUntimely(SuspendedSuccess());
  }

  // ---- Dropped tasks ----------------------------------------------------------------------

  /** Three failures; then a success is dropped while it waits for the trip lock. */
  function DroppedSuccess(): seq<Event> {
    ProbeFailures([], 3) + Scoring(4, Success, 0) + [Event(0, 4, Drop)]
  }

  /** The provider has just succeeded, nothing is in flight, and it is refused for the rest of the cooldown. */
  lemma DroppedSuccessStaysRefused()
    ensures var run := DroppedSuccess();
            && IsRun(FULL, run) && Streak(run) == 0 && After(FULL, run).calls == map[]
            && (forall now :: 0 <= now < CIRCUIT_BREAKER_COOLDOWN ==> Refuses(After(FULL, run).health, now))
            && !TripsTimely(FULL, run)
  {
    hide IsRun, After, Now, Streak, LastTrip, LastFailure, Scoring, Whole;
    var r3 := ProbeFailures([], 3);
    var r4 := r3 + Scoring(4, Success, 0);
    NewRun();
    ProbesFail([], 3);
    ScoringRuns(FULL, r3, 4, Success, 0);
    assert After(FULL, r4) == Breaker(Health(67, 0, Some(0), 0), map[4 := Reporting(Success, false, Scored)]);
    Moves(r4, Event(0, 4, Drop));
    RefusedWithoutCause(DroppedSuccess());
  }

  lemma RefusedWithoutCause(run: seq<Event>)
    requires IsRun(FULL, run) && Streak(run) == 0 && After(FULL, run).calls == map[]
    requires Refuses(After(FULL, run).health, Now(run))
    ensures !TripsTimely(FULL, run)
  {
    RecoveredIsWelcomeIff(FULL, run);
    assert run[..|run|] == run && !Welcome(FULL, run);
  }

  /** Two failures; then the third is dropped while it waits for the trip lock. */
  function DroppedFailure(): seq<Event> {
    InARow([], Failure, 2) + Scoring(3, Failure, 0) + [Event(0, 3, Drop)]
  }

  /** Three failures, nothing in flight, no trip, and offered at once. */
  lemma DroppedFailureIsLost()
    ensures var run := DroppedFailure();
            && IsRun(FULL, run) && InCooldown(FULL, run, Now(run)) && After(FULL, run).calls == map[]
            && Offered(After(FULL, run).health, Now(run)) && !ClearsTimely(FULL, run)
  {
    hide IsRun, After, Now, Streak, LastTrip, LastFailure, Scoring, Whole;
    var r2 := InARow([], Failure, 2);
    var r3 := r2 + Scoring(3, Failure, 0);
    NewRun();
    FailInARow([], Failure, 2);
    ScoringRuns(FULL, r2, 3, Failure, 0);
    assert After(FULL, r3) == Breaker(Health(25, 3, None, 0), map[3 := Reporting(Failure, true, Scored)]);
    Moves(r3, Event(0, 3, Drop));
    OfferedInCooldownIsUntimely(DroppedFailure());
  }

  /** A suspended success clears while a fourth failure waits to trip, and that failure is then dropped. */
  function ClearedThenDropped(): seq<Event> {
    ProbeFailures(Scoring(0, Success, 0), 3) + Scoring(4, ProbeFailed, 0)
    + [Event(0, 0, WriteTrip)] + [Event(0, 4, Drop)]
  }

  /** Every clearing write finds a trip still to be written, and yet the cooldown of the trip written is lost. */
  lemma ClearedThenDroppedIsLost()
    ensures var run := ClearedThenDropped();
            && IsRun(FULL, run) && InCooldown(FULL, run, Now(run)) && After(FULL, run).calls == map[]
            && LastTrip(FULL, run) == Some(0)
            && Offered(After(FULL, run).health, Now(run)) && !ClearsTimely(FULL, run)
  {
    hide IsRun, After, Now, Streak, LastTrip, LastFailure, Scoring, Whole;
    var r0 := Scoring(0, Success, 0);
    var r3 := ProbeFailures(r0, 3);
    var r4 := r3 + Scoring(4, ProbeFailed, 0);
    var r5 := r4 + [Event(0, 0, WriteTrip)];
    NewRun();
    assert [] + r0 == r0;
    ScoringRuns(FULL, [], 0, Success, 0);
    ProbesFail(r0, 3);
    ScoringRuns(FULL, r3, 4, ProbeFailed, 0);
    Moves(r4, Event(0, 0, WriteTrip));
    assert After(FULL, r5) == Breaker(Health(40, 4, None, 0), map[4 := Reporting(ProbeFailed, true, Scored)]);
    Moves(r5, Event(0, 4, Drop));
    OfferedInCooldownIsUntimely(ClearedThenDropped());
  }

  // ---- A failure --------------------------------------------------------------------------

  /** The third failure waits for the trip lock while a success comes and goes; then it writes its trip. */
  function SuspendedFailure(): seq<Event> {
    ProbeFailures([], 2) + Scoring(3, ProbeFailed, 0) + Whole(4, Success, 0) + [Event(0, 3, WriteTrip)]
  }

  /** A provider that has just succeeded, with no failure since, is refused. */
  lemma LateTripRefusesTheRecovered()
    ensures var run := SuspendedFailure();
            && IsRun(FULL, run) && Streak(run) == 0 && After(FULL, run).calls == map[]
            && Refuses(After(FULL, run).health, Now(run)) && !TripsTimely(FULL, run)
  {
    hide IsRun, After, Now, Streak, LastTrip, LastFailure, Scoring, Whole;
    var r2 := ProbeFailures([], 2);
    var r3 := r2 + Scoring(3, ProbeFailed, 0);
    var r4 := r3 + Whole(4, Success, 0);
    NewRun();
    ProbesFail([], 2);
    ScoringRuns(FULL, r2, 3, ProbeFailed, 0);
    WholeRuns(FULL, r3, 4, Success, 0);
    assert After(FULL, r4) == Breaker(Health(67, 0, None, 0), map[3 := Reporting(ProbeFailed, true, Scored)]);
    Moves(r4, Event(0, 3, WriteTrip));
    var run := SuspendedFailure();
    RecoveredIsWelcomeIff(FULL, run);
    assert run[..|run|] == run && !Welcome(FULL, run);
  }

  // ---- Scores ---------------------------------------------------------------------------------

  /** Five are not final: probe failures take a full score down to 25, which suffices once the cooldown is over. */
  lemma FiveFailuresAreNot()
    ensures var run := ProbeFailures([], 5);
            && IsRun(FULL, run) && Streak(run) == 5 && After(FULL, run).calls == map[]
            && Offered(After(FULL, run).health, CIRCUIT_BREAKER_COOLDOWN)
  {
    NewRun();
    ProbesFail([], 5);
  }

  /** A success counts, six probes fail, and only then is the success scored. */
  function LateScore(): seq<Event> {
    ProbeFailures([Event(0, 0, Begin(Success))], 6) + [Event(0, 0, LoadScore)] + [Event(0, 0, StoreScore)]
  }

  /** Out of turn, even six failures in a row leave the provider eligible. */
  lemma SixFailuresOutOfTurn()
    ensures var run := LateScore();
            && IsRun(FULL, run) && Streak(run) == 6 && !ScoresInTurn(FULL, run)
            && (forall id :: id in After(FULL, run).calls ==> !ScorePending(After(FULL, run).calls[id]))
            && Offered(After(FULL, run).health, CIRCUIT_BREAKER_COOLDOWN)
  {
    hide IsRun, After, Now, Streak, LastTrip, LastFailure, Scoring, Whole;
    var first := Event(0, 0, Begin(Success));
    var r0 := [first];
    NewRun();
    assert [] + r0 == r0;
    MayFollowNew(first);
    Moves([], first);
    ProbesFail(r0, 6);
    var r6 := ProbeFailures(r0, 6);
    Moves(r6, Event(0, 0, LoadScore));
    var r7 := r6 + [Event(0, 0, LoadScore)];
    Moves(r7, Event(0, 0, StoreScore));
    if ScoresInTurn(FULL, LateScore()) {
      SixFailuresAreFinal(FULL, LateScore(), CIRCUIT_BREAKER_COOLDOWN);
    }
  }

  lemma MayFollowNew(e: Event)
    ensures MayFollow(FULL, [], e)
  {
  }
}
