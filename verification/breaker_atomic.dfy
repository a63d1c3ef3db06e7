/** Reports and checks that nothing interrupts, and interleavings that break the breaker's promises. */
module BreakerAtomic {
  import opened Wrappers
  import opened Numbers
  import opened CircuitBreaker
  import opened BreakerRuns
  import opened BreakerTheorems

  /** A report up to its wait for the trip lock. */
  function Scoring(id: nat, r: Report, at: nat): (moves: seq<Event>)
    ensures |moves| == 3
  {
    [Event(at, id, Begin(r)), Event(at, id, LoadScore), Event(at, id, StoreScore)]
  }

  /** A report in one go. */
  function Whole(id: nat, r: Report, at: nat): (moves: seq<Event>)
    ensures |moves| == 4
  {
    Scoring(id, r, at) + [Event(at, id, WriteTrip)]
  }

  /** A check that clears an expired trip at once. */
  function WholeCheck(id: nat, at: nat): (moves: seq<Event>)
    ensures |moves| == 2
  {
    [Event(at, id, Check)] + [Event(at, id, WriteTrip)]
  }

  /** What a report in one go does to the health. */
  function Reported(h: Health, r: Report, at: nat): Health {
    match r
    case Success => Succeeded(h)
    case ProbeOk(ledger) => Probed(h, ledger)
    case Failure => Failed(h, LOCAL_FAILURE_PENALTY, at)
    case ProbeFailed => Failed(h, PROBE_FAILURE_PENALTY, at)
  }

  /** Everything the theorems ask about a run, and that nothing is in flight. */
  ghost predicate Orderly(score: int, run: seq<Event>, h: Health) {
    && IsRun(score, run) && ClearsTimely(score, run) && TripsTimely(score, run) && ScoresInTurn(score, run)
    && After(score, run) == Breaker(h, map[])
  }

  lemma Appended(score: int, run: seq<Event>, e: Event)
    ensures Init(run + [e]) == run && Last(run + [e]) == e
    ensures After(score, run + [e]) == Step(After(score, run), e)
    ensures Now(run + [e]) == e.at
    ensures Streak(run + [e]) == if e.CountsSuccess() then 0 else Streak(run) + (if e.CountsFailure() then 1 else 0)
    ensures LastFailure(run + [e]) == if e.CountsFailure() then e.at else LastFailure(run)
    ensures LastTrip(score, run + [e]) == if WritesTrip(After(score, run), e) then Some(e.at) else LastTrip(score, run)
  {
    assert Init(run + [e]) == run;
  }

  /** The run may go on with `e`. */
  ghost predicate MayFollow(score: int, run: seq<Event>, e: Event) {
    && IsRun(score, run) && |run| + 1 < U64 && Now(run) <= e.at
    && (e.Counts() ==> e.call !in After(score, run).calls)
  }

  lemma GoesOn(score: int, run: seq<Event>, e: Event)
    requires MayFollow(score, run, e)
    ensures IsRun(score, run + [e])
    ensures !e.move.Drop? ==>
              (ClearsTimely(score, run + [e]) <==> ClearsTimely(score, run) && ClearIsTimely(After(score, run), e))
    ensures !e.move.Drop? ==>
              (TripsTimely(score, run + [e]) <==> TripsTimely(score, run) && TripIsTimely(After(score, run), e))
    ensures !e.Counts() && ScoresInTurn(score, run) ==> ScoresInTurn(score, run + [e])
  {
    Appended(score, run, e);
  }

  /** The breaker after the first three moves of a new report. */
  function AfterScoring(b: Breaker, id: nat, r: Report): Breaker {
    var h := Count(b.health, r).(score := Rescored(r, b.health.score));
    var trips := !r.Succeeds() && h.failures >= CIRCUIT_BREAKER_THRESHOLD;
    Breaker(h, if trips || r.Succeeds() then b.calls[id := Reporting(r, trips, Scored)] else b.calls)
  }

  lemma ThreeMoves(b: Breaker, id: nat, r: Report, at: nat)
    requires id !in b.calls
    ensures Step(Step(Step(b, Event(at, id, Begin(r))), Event(at, id, LoadScore)), Event(at, id, StoreScore))
            == AfterScoring(b, id, r)
  {
    var s1 := Step(b, Event(at, id, Begin(r)));
    var s2 := Step(s1, Event(at, id, LoadScore));
    var s3 := Step(s2, Event(at, id, StoreScore));
    assert s2.calls[id].stage == Loaded(b.health.score);
    assert s3.calls == AfterScoring(b, id, r).calls;
  }

  /** A report's first three moves, with others in flight. */
  lemma ScoringRuns(score: int, run: seq<Event>, id: nat, r: Report, at: nat)
    requires IsRun(score, run) && |run| + 3 < U64 && Now(run) <= at && id !in After(score, run).calls
    ensures var end := run + Scoring(id, r, at);
            && IsRun(score, end) && Now(end) == at && After(score, end) == AfterScoring(After(score, run), id, r)
            && Streak(end) == (if r.Succeeds() then 0 else Streak(run) + 1)
            && LastFailure(end) == (if r.Succeeds() then LastFailure(run) else at)
            && LastTrip(score, end) == LastTrip(score, run)
            && (ClearsTimely(score, run) ==> ClearsTimely(score, end))
            && (TripsTimely(score, run) ==> TripsTimely(score, end))
  {
    hide Step, IsRun;
    var e1, e2, e3 := Event(at, id, Begin(r)), Event(at, id, LoadScore), Event(at, id, StoreScore);
    var r1 := run + [e1];
    var r2 := r1 + [e2];
    assert run + Scoring(id, r, at) == r2 + [e3];
    Appended(score, run, e1);
    Appended(score, r1, e2);
    Appended(score, r2, e3);
    GoesOn(score, run, e1);
    GoesOn(score, r1, e2);
    GoesOn(score, r2, e3);
    ThreeMoves(After(score, run), id, r, at);
  }

  lemma InTurn(score: int, run: seq<Event>, id: nat, r: Report, at: nat)
    requires ScoresInTurn(score, run)
    requires forall c :: c in After(score, run).calls ==> !ScorePending(After(score, run).calls[c])
    ensures ScoresInTurn(score, run + Whole(id, r, at))
  {
    hide Step, After;
    var e1, e2, e3 := Event(at, id, Begin(r)), Event(at, id, LoadScore), Event(at, id, StoreScore);
    var e4 := Event(at, id, WriteTrip);
    var r1 := run + [e1];
    var r2 := r1 + [e2];
    var r3 := r2 + [e3];
    assert run + Whole(id, r, at) == r3 + [e4];
    assert Init(r1) == run && Init(r2) == r1 && Init(r3) == r2 && Init(r3 + [e4]) == r3;
    assert ScoresInTurn(score, r1) && ScoresInTurn(score, r2) && ScoresInTurn(score, r3);
  }

  /** A report in one go, with others in flight. */
  lemma WholeRuns(score: int, run: seq<Event>, id: nat, r: Report, at: nat)
    requires IsRun(score, run) && |run| + 4 < U64 && Now(run) <= at && id !in After(score, run).calls
    ensures var b, end := After(score, run), run + Whole(id, r, at);
            && IsRun(score, end) && Now(end) == at && After(score, end) == Breaker(Reported(b.health, r, at), b.calls)
            && Streak(end) == (if r.Succeeds() then 0 else Streak(run) + 1)
            && LastFailure(end) == (if r.Succeeds() then LastFailure(run) else at)
            && LastTrip(score, end) == (if !r.Succeeds() && b.health.failures + 1 >= CIRCUIT_BREAKER_THRESHOLD
                                        then Some(at) else LastTrip(score, run))
    ensures ClearsTimely(score, run) ==> ClearsTimely(score, run + Whole(id, r, at))
    ensures TripsTimely(score, run) ==> TripsTimely(score, run + Whole(id, r, at))
  {
    hide IsRun;
    var scoring, last := run + Scoring(id, r, at), Event(at, id, WriteTrip);
    CounterIsStreak(score, run);
    ScoringRuns(score, run, id, r, at);
    assert run + Whole(id, r, at) == scoring + [last];
    Appended(score, scoring, last);
    GoesOn(score, scoring, last);
    LastWrite(After(score, run), id, r, at);
  }

  /** With nothing in flight, it does what the objects' methods do, and writes in time. */
  lemma WholeReport(score: int, run: seq<Event>, h: Health, id: nat, r: Report, at: nat)
    requires Orderly(score, run, h) && |run| + 4 < U64 && Now(run) <= at
    ensures var end := run + Whole(id, r, at);
            && Orderly(score, end, Reported(h, r, at)) && Now(end) == at
            && Streak(end) == (if r.Succeeds() then 0 else Streak(run) + 1)
            && LastFailure(end) == (if r.Succeeds() then LastFailure(run) else at)
            && LastTrip(score, end) == (if !r.Succeeds() && h.failures + 1 >= CIRCUIT_BREAKER_THRESHOLD then Some(at)
                                        else LastTrip(score, run))
  {
    hide IsRun, ScoresInTurn;
    WholeRuns(score, run, id, r, at);
    InTurn(score, run, id, r, at);
  }

  lemma LastWrite(b: Breaker, id: nat, r: Report, at: nat)
    requires b.health.failures + 1 < U64 && id !in b.calls
    ensures var scored, last := AfterScoring(b, id, r), Event(at, id, WriteTrip);
            && Step(scored, last) == Breaker(Reported(b.health, r, at), b.calls)
            && ClearIsTimely(scored, last) && TripIsTimely(scored, last)
            && (WritesTrip(scored, last) <==> !r.Succeeds() && b.health.failures + 1 >= CIRCUIT_BREAKER_THRESHOLD)
  {
    assert Step(AfterScoring(b, id, r), Event(at, id, WriteTrip)).calls == b.calls;
  }

  /** So does a check. */
  lemma WholeCheckIs(score: int, run: seq<Event>, h: Health, id: nat, at: nat)
    requires Orderly(score, run, h) && |run| + 2 < U64 && Now(run) <= at
    ensures var end := run + WholeCheck(id, at);
            && Orderly(score, end, Checked(h, at)) && Now(end) == at
            && Streak(end) == Streak(run) && LastFailure(end) == LastFailure(run)
            && LastTrip(score, end) == LastTrip(score, run)
  {
    hide IsRun, Step, ClearIsTimely, TripIsTimely, WritesTrip, ClearsTimely, TripsTimely, ScoresInTurn;
    var read, last := run + [Event(at, id, Check)], Event(at, id, WriteTrip);
    assert run + WholeCheck(id, at) == read + [last];
    Appended(score, run, Event(at, id, Check));
    Appended(score, read, last);
    GoesOn(score, run, Event(at, id, Check));
    GoesOn(score, read, last);
    CheckMoves(h, id, at);
  }

  lemma CheckMoves(h: Health, id: nat, at: nat)
    ensures var check := Event(at, id, Check);
            && ClearIsTimely(Breaker(h, map[]), check) && TripIsTimely(Breaker(h, map[]), check)
            && !WritesTrip(Breaker(h, map[]), check)
    ensures var read, last := Step(Breaker(h, map[]), Event(at, id, Check)), Event(at, id, WriteTrip);
            && Step(read, last) == Breaker(Checked(h, at), map[])
            && ClearIsTimely(read, last) && TripIsTimely(read, last) && !WritesTrip(read, last)
  {
  }
}
