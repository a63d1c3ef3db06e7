/** When the breaker of core/src/rpc_provider.rs keeps its promises, over every interleaved run. */
module BreakerTheorems {
  import opened Wrappers
  import opened Numbers
  import opened CircuitBreaker
  import opened BreakerRuns

  // ---- The cooldown is kept ---------------------------------------------------------

  /** With no trip still to be written, the breaker refuses as long as the cooldown lasts, however long one waits. */
  ghost predicate Withheld(score: int, run: seq<Event>) {
    !TripPending(After(score, run)) ==>
      forall now :: now >= Now(run) && InCooldown(score, run, now) ==> Refuses(After(score, run).health, now)
  }

  /** A trip written since the latest failure is in place, or the cooldown is over. */
  predicate Shielded(score: int, run: seq<Event>) {
    || (After(score, run).health.trippedAt.Some? && After(score, run).health.trippedAt.value >= LastFailure(run))
    || !InCooldown(score, run, Now(run))
  }

  lemma WithheldIsShielded(score: int, run: seq<Event>)
    requires IsRun(score, run) && !TripPending(After(score, run)) && Streak(run) >= CIRCUIT_BREAKER_THRESHOLD
    ensures Withheld(score, run) <==> Shielded(score, run)
  {
    TripIsLastTrip(score, run);
    InOrder(score, run);
    var h := After(score, run).health;
    if Withheld(score, run) && InCooldown(score, run, Now(run)) {
      var last := Latest(LastFailure(run), LastTrip(score, run)) + CIRCUIT_BREAKER_COOLDOWN - 1;
      assert InCooldown(score, run, last);
      assert Refuses(h, last);
    }
  }

  /** With timely clears and drops, a streak of three without a pending trip is shielded. */
  lemma {:induction false} TimelyIsShielded(score: int, run: seq<Event>)
    requires IsRun(score, run) && ClearsTimely(score, run)
    requires Streak(run) >= CIRCUIT_BREAKER_THRESHOLD && !TripPending(After(score, run))
    ensures Shielded(score, run)
    decreases |run|
  {
    hide Step;
    var before, e := Init(run), Last(run);
    var b := After(score, before);
    RunKeepsFormed(score, before);
    CounterIsStreak(score, before);
    CounterIsStreak(score, run);
    TripIsLastTrip(score, before);
    PendingUntilWritten(b, e);
    InOrder(score, before);
    if e.Counts() {
      CountStartsPending(b, e);
    }
    if WritesTrip(b, e) {
      WrittenTripIsThere(b, e);
    } else {
      OnlyClearsRemove(b, e);
      if !DropsTrip(b, e) {
        TimelyIsShielded(score, before);
      }
    }
  }

  /** A clearing write or a dropped trip that is not timely leaves the provider open in its cooldown. */
  lemma UntimelyOpens(score: int, run: seq<Event>)
    requires IsRun(score, run) && run != [] && ClearsTimely(score, Init(run)) && !ClearsTimely(score, run)
    ensures !Withheld(score, run)
  {
    var before, e := Init(run), Last(run);
    var b := After(score, before);
    RunKeepsFormed(score, before);
    CounterIsStreak(score, before);
    TripIsLastTrip(score, before);
    PendingUntilWritten(b, e);
    OnlyClearsRemove(b, e);
    InOrder(score, before);
    WithheldIsShielded(score, run);
  }

  /** The last prefix of a run is the run; the others are prefixes of what came before. */
  lemma Prefixes(run: seq<Event>, k: nat)
    requires run != [] && k <= |run|
    ensures run[..k] == if k == |run| then run else Init(run)[..k]
  {
  }

  /**
   * Whenever no trip is still to be written the cooldown is kept, if and only if every clearing write and every
   * dropped trip is timely: with three failures counted, a clear finds no trip in force, and a drop of the last
   * pending trip finds one written since the latest failure.
   */
  lemma {:induction false} CooldownIsKeptIff(score: int, run: seq<Event>)
    requires IsRun(score, run)
    ensures (forall k: nat :: k <= |run| ==> Withheld(score, run[..k])) <==> ClearsTimely(score, run)
    decreases |run|
  {
    hide After, Withheld, ClearIsTimely, TripDropIsTimely, IsRun;
    if run == [] {
      NothingWithheld(score, run);
    } else {
      RunShrinks(score, run);
      CooldownIsKeptIff(score, Init(run));
      forall k: nat | k <= |run| ensures run[..k] == if k == |run| then run else Init(run)[..k] {
        Prefixes(run, k);
      }
      assert Withheld(score, run[..|run|]) <==> Withheld(score, run);
      assert forall k: nat :: k <= |Init(run)| ==> (Withheld(score, run[..k]) <==> Withheld(score, Init(run)[..k]));
      if ClearsTimely(score, run) {
        TimelyIsWithheld(score, run);
      } else if ClearsTimely(score, Init(run)) {
        UntimelyOpens(score, run);
      }
    }
  }

  lemma NothingWithheld(score: int, run: seq<Event>)
    requires run == []
    ensures forall k: nat :: k <= |run| ==> Withheld(score, run[..k])
  {
  }

  lemma RunShrinks(score: int, run: seq<Event>)
    requires IsRun(score, run) && run != []
    ensures IsRun(score, Init(run))
  {
  }

  lemma TimelyIsWithheld(score: int, run: seq<Event>)
    requires IsRun(score, run) && ClearsTimely(score, run)
    ensures Withheld(score, run)
  {
    if Streak(run) >= CIRCUIT_BREAKER_THRESHOLD && !TripPending(After(score, run)) {
      TimelyIsShielded(score, run);
      WithheldIsShielded(score, run);
    }
  }

  // ---- A provider that has recovered is not refused ---------------------------------------

  /** With fewer than three failures since the last success, and no reset still to be written, nothing refuses. */
  ghost predicate Welcome(score: int, run: seq<Event>) {
    Streak(run) < CIRCUIT_BREAKER_THRESHOLD && !ResetPending(After(score, run)) ==>
      !Refuses(After(score, run).health, Now(run))
  }

  lemma {:induction false} RecoveredIsFree(score: int, run: seq<Event>)
    requires IsRun(score, run) && TripsTimely(score, run)
    requires Streak(run) < CIRCUIT_BREAKER_THRESHOLD && !ResetPending(After(score, run))
    ensures !Refuses(After(score, run).health, Now(run))
    decreases |run|
  {
    if run != [] {
      hide Step;
      var before, e := Init(run), Last(run);
      var b := After(score, before);
      RunKeepsFormed(score, before);
      CounterIsStreak(score, before);
      PendingUntilWritten(b, e);
      if e.Counts() {
        CountStartsPending(b, e);
      }
      if !WritesTrip(b, e) {
        OnlyClearsRemove(b, e);
        if !ClearsTrip(b, e) && !DropsReset(b, e) {
          RecoveredIsFree(score, before);
        }
      }
    }
  }

  /** A trip written too late, or a reset dropped, refuses a provider that has recovered. */
  lemma LateTripRefuses(score: int, run: seq<Event>)
    requires IsRun(score, run) && run != [] && TripsTimely(score, Init(run)) && !TripsTimely(score, run)
    ensures !Welcome(score, run)
  {
    var before, e := Init(run), Last(run);
    var b := After(score, before);
    RunKeepsFormed(score, before);
    CounterIsStreak(score, before);
    PendingUntilWritten(b, e);
    if WritesTrip(b, e) {
      WrittenTripIsThere(b, e);
    }
  }

  /** A recovered provider is never refused, if and only if trips are written, and resets dropped, in time. */
  lemma {:induction false} RecoveredIsWelcomeIff(score: int, run: seq<Event>)
    requires IsRun(score, run)
    ensures (forall k: nat :: k <= |run| ==> Welcome(score, run[..k])) <==> TripsTimely(score, run)
    decreases |run|
  {
    hide After, Welcome, TripIsTimely, ResetDropIsTimely, IsRun;
    if run == [] {
      EveryoneWelcome(score, run);
    } else {
      RunShrinks(score, run);
      RecoveredIsWelcomeIff(score, Init(run));
      forall k: nat | k <= |run| ensures run[..k] == if k == |run| then run else Init(run)[..k] {
        Prefixes(run, k);
      }
      assert Welcome(score, run[..|run|]) <==> Welcome(score, run);
      assert forall k: nat :: k <= |Init(run)| ==> (Welcome(score, run[..k]) <==> Welcome(score, Init(run)[..k]));
      if TripsTimely(score, run) {
        TimelyIsWelcome(score, run);
      } else if TripsTimely(score, Init(run)) {
        LateTripRefuses(score, run);
      }
    }
  }

  lemma EveryoneWelcome(score: int, run: seq<Event>)
    requires run == []
    ensures forall k: nat :: k <= |run| ==> Welcome(score, run[..k])
  {
  }

  lemma TimelyIsWelcome(score: int, run: seq<Event>)
    requires IsRun(score, run) && TripsTimely(score, run)
    ensures Welcome(score, run)
  {
    if Streak(run) < CIRCUIT_BREAKER_THRESHOLD && !ResetPending(After(score, run)) {
      RecoveredIsFree(score, run);
    }
  }

  // ---- Who is offered ----------------------------------------------------------------

  /**
   * With all writes and drops in time and none pending: offered exactly with fewer than three failures since the last
   * success, or when the cooldown of the latest failure and of its trip is over and the score suffices.
   */
  lemma OfferedIff(score: int, run: seq<Event>, now: nat)
    requires IsRun(score, run) && ClearsTimely(score, run) && TripsTimely(score, run) && now >= Now(run)
    requires !TripPending(After(score, run)) && !ResetPending(After(score, run))
    ensures Offered(After(score, run).health, now) <==>
              || Streak(run) < CIRCUIT_BREAKER_THRESHOLD
              || (!InCooldown(score, run, now) && After(score, run).health.score >= MIN_PROVIDER_SCORE)
  {
    HealthTracksTheRun(score, run);
    if Streak(run) < CIRCUIT_BREAKER_THRESHOLD {
      RecoveredIsFree(score, run);
    } else {
      TimelyIsShielded(score, run);
      WithheldIsShielded(score, run);
    }
  }

  // ---- How long a failing provider stays eligible ----------------------------------

  predicate ScorePending(c: Call) {
    c.Reporting? && !c.stage.Scored?
  }

  /** No report starts while another has counted but not yet stored its score. */
  predicate ScoresInTurn(score: int, run: seq<Event>) {
    run != [] ==>
      && ScoresInTurn(score, Init(run))
      && (Last(run).Counts() ==> forall id :: id in After(score, Init(run)).calls ==>
            !ScorePending(After(score, Init(run)).calls[id]))
  }

  /** What `streak` failures, the last of them perhaps not yet scored, leave of the score. */
  predicate Costs(score: int, streak: int) {
    score == MIN_HEALTH_SCORE || score <= MAX_HEALTH_SCORE - PROBE_FAILURE_PENALTY * streak
  }

  /** At most one report is between its count and its score; it will make up for the failure it counted. */
  ghost predicate Charged(b: Breaker, streak: nat) {
    && Formed(b)
    && (forall i, j :: i in b.calls && j in b.calls && ScorePending(b.calls[i]) && ScorePending(b.calls[j]) ==> i == j)
    && ((forall id :: id in b.calls ==> !ScorePending(b.calls[id])) ==> Costs(b.health.score, streak))
    && (forall id :: id in b.calls && ScorePending(b.calls[id]) ==>
          if b.calls[id].report.Succeeds() then streak == 0
          else streak > 0 && Costs(b.health.score, streak - 1)
               && (b.calls[id].stage.Loaded? ==> b.calls[id].stage.score == b.health.score))
  }

  lemma StepCharges(b: Breaker, e: Event, streak: nat)
    requires Charged(b, streak)
    requires e.Counts() ==> e.call !in b.calls && forall id :: id in b.calls ==> !ScorePending(b.calls[id])
    ensures Charged(Step(b, e), if e.CountsSuccess() then 0 else if e.CountsFailure() then streak + 1 else streak)
  {
    StepKeepsFormed(b, e);
    var t := Step(b, e);
    if e.move.StoreScore? && StageOf(b, e.call).Some? && StageOf(b, e.call).value.Loaded? {
      assert ScorePending(b.calls[e.call]);
      assert forall id :: id in t.calls ==> !ScorePending(t.calls[id]);
    } else if e.Counts() {
      assert ScorePending(t.calls[e.call]);
    } else if forall id :: id in t.calls ==> !ScorePending(t.calls[id]) {
      forall id | id in b.calls ensures !ScorePending(b.calls[id]) {
        assert id in t.calls || b.calls[id].Writes();
      }
    }
  }

  lemma {:induction false} RunCharges(score: int, run: seq<Event>)
    requires IsRun(score, run) && ScoresInTurn(score, run)
    ensures Charged(After(score, run), Streak(run))
    decreases |run|
  {
    if run != [] {
      RunCharges(score, Init(run));
      StepCharges(After(score, Init(run)), Last(run), Streak(Init(run)));
    }
  }

  /** After six failures in a row, scored in turn, waiting does not help: only a success brings the provider back. */
  lemma SixFailuresAreFinal(score: int, run: seq<Event>, now: nat)
    requires IsRun(score, run) && ScoresInTurn(score, run) && Streak(run) >= 6
    requires forall id :: id in After(score, run).calls ==> !ScorePending(After(score, run).calls[id])
    ensures !Offered(After(score, run).health, now)
  {
    CounterIsStreak(score, run);
    RunCharges(score, run);
  }
}
