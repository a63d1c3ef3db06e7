/**
 Runs of one provider's breaker in core/src/rpc_provider.rs.  Reports, probes and availability checks are
 interleaved between any two of their accesses to the shared fields: a report first counts, then reads the score,
 then stores it, and, after waiting for locks, writes the trip time.  While it waits its task may be dropped.
 */
module BreakerRuns {
  import opened Wrappers
  import opened Numbers
  import opened CircuitBreaker

  datatype Report = Success | ProbeOk(ledger: nat) | Failure | ProbeFailed {
    predicate Succeeds() { Success? || ProbeOk? }
  }

  /** How far a report has come. */
  datatype Stage = Counted | Loaded(score: int) | Scored

  /** A report in flight, or a check that has read an expired trip and will clear it. */
  datatype Call =
    | Reporting(report: Report, trips: bool, stage: Stage)
    | Clearing
  {
    /** Will write a trip. */
    predicate Trips() { Reporting? && trips }

    /** Will clear the trip because of a success. */
    predicate Resets() { Reporting? && report.Succeeds() }

    predicate Writes() { Clearing? || stage.Scored? }
  }

  datatype Breaker = Breaker(health: Health, calls: map<nat, Call>)

  datatype Move = Begin(report: Report) | LoadScore | StoreScore | WriteTrip | Check | Drop

  /** Call `call` makes a move at time `at`. */
  datatype Event = Event(at: nat, call: nat, move: Move) {
    predicate Counts() { move.Begin? }
    predicate CountsSuccess() { move.Begin? && move.report.Succeeds() }
    predicate CountsFailure() { move.Begin? && !move.report.Succeeds() }
  }

  /** The counter's step, with the u64 wrapping. */
  function Count(h: Health, r: Report): Health {
    match r
    case Success => h.(failures := 0)
    case ProbeOk(ledger) => h.(failures := 0, latestLedger := ledger)
    case _ => h.(failures := (h.failures + 1) % U64)
  }

  function Rescored(r: Report, score: int): int {
    match r
    case Success => RecoveredScore(score)
    case ProbeOk(_) => AdjustScore(score, PROBE_SUCCESS_BONUS)
    case Failure => AdjustScore(score, -LOCAL_FAILURE_PENALTY)
    case ProbeFailed => AdjustScore(score, -PROBE_FAILURE_PENALTY)
  }

  function StageOf(b: Breaker, call: nat): Option<Stage> {
    if call in b.calls && b.calls[call].Reporting? then Some(b.calls[call].stage) else None
  }

  /** A report that has no trip to write ends with its score. */
  function ScoreStored(b: Breaker, call: nat): Breaker
    requires StageOf(b, call).Some? && StageOf(b, call).value.Loaded?
  {
    var c := b.calls[call];
    Breaker(b.health.(score := Rescored(c.report, c.stage.score)),
            if c.Trips() || c.Resets() then b.calls[call := c.(stage := Scored)] else b.calls - {call})
  }

  /** The call waits to write the trip time. */
  predicate CanWrite(b: Breaker, call: nat) {
    call in b.calls && b.calls[call].Writes()
  }

  function TripWritten(b: Breaker, call: nat, now: nat): Breaker
    requires CanWrite(b, call)
  {
    Breaker(b.health.(trippedAt := if b.calls[call].Trips() then Some(now) else None), b.calls - {call})
  }

  /** Moves that are not possible change nothing. */
  function Step(b: Breaker, e: Event): Breaker {
    match e.move
    case Begin(r) =>
      if e.call in b.calls then b
      else
        var h := Count(b.health, r);
        var trips := !r.Succeeds() && h.failures >= CIRCUIT_BREAKER_THRESHOLD;
        Breaker(h, b.calls[e.call := Reporting(r, trips, Counted)])
    case LoadScore =>
      if StageOf(b, e.call) == Some(Counted) then
        b.(calls := b.calls[e.call := b.calls[e.call].(stage := Loaded(b.health.score))])
      else b
    case StoreScore =>
      if StageOf(b, e.call).Some? && StageOf(b, e.call).value.Loaded? then ScoreStored(b, e.call) else b
    case WriteTrip => if CanWrite(b, e.call) then TripWritten(b, e.call, e.at) else b
    case Check =>
      if e.call !in b.calls && Expired(b.health, e.at) then b.(calls := b.calls[e.call := Clearing]) else b
    case Drop => if CanWrite(b, e.call) then b.(calls := b.calls - {e.call}) else b
  }

  function Init(run: seq<Event>): (r: seq<Event>)
    requires run != []
    ensures |r| == |run| - 1
  {
    run[..|run| - 1]
  }

  function Last(run: seq<Event>): Event
    requires run != []
  {
    run[|run| - 1]
  }

  function After(score: int, run: seq<Event>): Breaker {
    if run == [] then Breaker(Fresh(score), map[]) else Step(After(score, Init(run)), Last(run))
  }

  function Now(run: seq<Event>): nat {
    if run == [] then 0 else Last(run).at
  }

  /** Time does not run backwards, reports are new calls, and the run is too short to wrap the failure counter. */
  predicate IsRun(score: int, run: seq<Event>) {
    && |run| < U64 && MIN_HEALTH_SCORE <= score <= MAX_HEALTH_SCORE
    && (run != [] ==>
          && IsRun(score, Init(run)) && Now(Init(run)) <= Now(run)
          && (Last(run).Counts() ==> Last(run).call !in After(score, Init(run)).calls))
  }

  /** The failures counted since the last success was counted. */
  function Streak(run: seq<Event>): (n: nat)
    ensures n <= |run|
  {
    if run == [] || Last(run).CountsSuccess() then 0
    else Streak(Init(run)) + (if Last(run).CountsFailure() then 1 else 0)
  }

  /** When the latest failure was counted. */
  function LastFailure(run: seq<Event>): nat {
    if run == [] then 0 else if Last(run).CountsFailure() then Last(run).at else LastFailure(Init(run))
  }

  // ---- Trip writes and clearing writes ----------------------------------------------

  predicate WritesTrip(b: Breaker, e: Event) {
    e.move.WriteTrip? && CanWrite(b, e.call) && b.calls[e.call].Trips()
  }

  /** By a success, a good probe or a check. */
  predicate ClearsTrip(b: Breaker, e: Event) {
    e.move.WriteTrip? && CanWrite(b, e.call) && !b.calls[e.call].Trips()
  }

  /** When a trip was last written. */
  function LastTrip(score: int, run: seq<Event>): Option<nat> {
    if run == [] then None
    else if WritesTrip(After(score, Init(run)), Last(run)) then Some(Last(run).at)
    else LastTrip(score, Init(run))
  }

  ghost predicate TripPending(b: Breaker) {
    exists id :: id in b.calls && b.calls[id].Trips()
  }

  ghost predicate ResetPending(b: Breaker) {
    exists id :: id in b.calls && b.calls[id].Resets()
  }

  /** Three failures since the last success, and less than a cooldown since the latest failure or trip. */
  predicate InCooldown(score: int, run: seq<Event>, now: nat) {
    && Streak(run) >= CIRCUIT_BREAKER_THRESHOLD
    && now < Latest(LastFailure(run), LastTrip(score, run)) + CIRCUIT_BREAKER_COOLDOWN
  }

  function Latest(failure: nat, trip: Option<nat>): nat {
    if trip.Some? && trip.value > failure then trip.value else failure
  }

  /** With three failures counted and no trip still to be written, a clearing write finds no trip in force. */
  ghost predicate ClearIsTimely(b: Breaker, e: Event) {
    ClearsTrip(b, e) && b.health.failures >= CIRCUIT_BREAKER_THRESHOLD && !TripPending(b) ==> !Refuses(b.health, e.at)
  }

  /** A report that will never write its trip. */
  predicate DropsTrip(b: Breaker, e: Event) {
    e.move.Drop? && CanWrite(b, e.call) && b.calls[e.call].Trips()
  }

  /**
   * When three failures stay counted and no other trip is still to be written, a trip is dropped only if one was
   * written since the latest failure, or the cooldown is over.
   */
  ghost predicate TripDropIsTimely(score: int, run: seq<Event>, e: Event) {
    var b := After(score, run);
    DropsTrip(b, e) && b.health.failures >= CIRCUIT_BREAKER_THRESHOLD && !TripPending(Step(b, e)) ==>
      !InCooldown(score, run, e.at) || (b.health.trippedAt.Some? && b.health.trippedAt.value >= LastFailure(run))
  }

  /** A trip is written while three failures are still counted, or a success is about to clear it. */
  ghost predicate TripIsTimely(b: Breaker, e: Event) {
    WritesTrip(b, e) ==> b.health.failures >= CIRCUIT_BREAKER_THRESHOLD || ResetPending(b)
  }

  /** A success that will never clear the trip. */
  predicate DropsReset(b: Breaker, e: Event) {
    e.move.Drop? && CanWrite(b, e.call) && b.calls[e.call].Resets()
  }

  /** With fewer than three failures counted, the last reset is dropped only if no trip is in force. */
  ghost predicate ResetDropIsTimely(b: Breaker, e: Event) {
    DropsReset(b, e) && b.health.failures < CIRCUIT_BREAKER_THRESHOLD && !ResetPending(Step(b, e)) ==>
      !Refuses(b.health, e.at)
  }

  /** What the cooldown asks of clearing writes and dropped trips. */
  ghost predicate ClearsTimely(score: int, run: seq<Event>) {
    run != [] ==>
      && ClearsTimely(score, Init(run)) && ClearIsTimely(After(score, Init(run)), Last(run))
      && TripDropIsTimely(score, Init(run), Last(run))
  }

  /** What recovery asks of trip writes and dropped resets. */
  ghost predicate TripsTimely(score: int, run: seq<Event>) {
    run != [] ==>
      && TripsTimely(score, Init(run)) && TripIsTimely(After(score, Init(run)), Last(run))
      && ResetDropIsTimely(After(score, Init(run)), Last(run))
  }

  // ---- Invariants of every run ---------------------------------------------------------

  /** Scores, read ones included, are in range; a report that trips is a failure. */
  predicate Formed(b: Breaker) {
    && MIN_HEALTH_SCORE <= b.health.score <= MAX_HEALTH_SCORE
    && (forall id :: id in b.calls && b.calls[id].Trips() ==> !b.calls[id].Resets())
  }

  lemma StepKeepsFormed(b: Breaker, e: Event)
    requires Formed(b)
    ensures Formed(Step(b, e))
  {
  }

  lemma {:induction false} RunKeepsFormed(score: int, run: seq<Event>)
    requires IsRun(score, run)
    ensures Formed(After(score, run))
    decreases |run|
  {
    if run != [] {
      RunKeepsFormed(score, Init(run));
      StepKeepsFormed(After(score, Init(run)), Last(run));
    }
  }

  /** Nobody but a report's first step touches the counter. */
  lemma {:induction false} CounterIsStreak(score: int, run: seq<Event>)
    requires IsRun(score, run)
    ensures After(score, run).health.failures == Streak(run)
    decreases |run|
  {
    if run != [] {
      CounterIsStreak(score, Init(run));
    }
  }

  lemma {:induction false} TripIsLastTrip(score: int, run: seq<Event>)
    requires IsRun(score, run)
    ensures After(score, run).health.trippedAt.Some? ==> After(score, run).health.trippedAt == LastTrip(score, run)
    decreases |run|
  {
    if run != [] {
      TripIsLastTrip(score, Init(run));
    }
  }

  /**
   * Over every interleaved run the score stays in range, the counter counts the failures since the last success,
   * and a trip in place is the latest one written.
   */
  lemma HealthTracksTheRun(score: int, run: seq<Event>)
    requires IsRun(score, run)
    ensures var h := After(score, run).health;
            && MIN_HEALTH_SCORE <= h.score <= MAX_HEALTH_SCORE
            && h.failures == Streak(run)
            && (h.trippedAt.Some? ==> h.trippedAt == LastTrip(score, run))
  {
    RunKeepsFormed(score, run);
    CounterIsStreak(score, run);
    TripIsLastTrip(score, run);
  }

  /** A pending trip or reset stays pending until its own write or drop. */
  lemma PendingUntilWritten(b: Breaker, e: Event)
    requires Formed(b) && (e.Counts() ==> e.call !in b.calls)
    ensures TripPending(b) && !WritesTrip(b, e) && !DropsTrip(b, e) ==> TripPending(Step(b, e))
    ensures ResetPending(b) && !ClearsTrip(b, e) && !DropsReset(b, e) ==> ResetPending(Step(b, e))
    ensures TripPending(Step(b, e)) && !e.Counts() ==> TripPending(b)
    ensures ResetPending(Step(b, e)) && !e.Counts() ==> ResetPending(b)
  {
    var t := Step(b, e);
    if TripPending(b) && !WritesTrip(b, e) && !DropsTrip(b, e) {
      var id :| id in b.calls && b.calls[id].Trips();
      assert id in t.calls && t.calls[id].Trips();
    }
    if ResetPending(b) && !ClearsTrip(b, e) && !DropsReset(b, e) {
      var id :| id in b.calls && b.calls[id].Resets();
      assert id in t.calls && t.calls[id].Resets();
    }
  }

  lemma CountStartsPending(b: Breaker, e: Event)
    requires e.Counts() && e.call !in b.calls
    ensures e.CountsSuccess() ==> ResetPending(Step(b, e))
    ensures e.CountsFailure() && Step(b, e).health.failures >= CIRCUIT_BREAKER_THRESHOLD ==> TripPending(Step(b, e))
  {
    var t := Step(b, e);
    assert e.call in t.calls;
    assert e.CountsSuccess() ==> t.calls[e.call].Resets();
    assert e.CountsFailure() && t.health.failures >= CIRCUIT_BREAKER_THRESHOLD ==> t.calls[e.call].Trips();
  }

  lemma {:induction false} InOrder(score: int, run: seq<Event>)
    requires IsRun(score, run)
    ensures LastFailure(run) <= Now(run) && (LastTrip(score, run).Some? ==> LastTrip(score, run).value <= Now(run))
    decreases |run|
  {
    if run != [] {
      InOrder(score, Init(run));
    }
  }

  lemma WrittenTripIsThere(b: Breaker, e: Event)
    requires WritesTrip(b, e)
    ensures Step(b, e).health.trippedAt == Some(e.at)
  {
  }

  lemma OnlyClearsRemove(b: Breaker, e: Event)
    requires !WritesTrip(b, e)
    ensures Step(b, e).health.trippedAt == if ClearsTrip(b, e) then None else b.health.trippedAt
    ensures !e.Counts() ==> Step(b, e).health.failures == b.health.failures
  {
  }
}
