/** What reports and probes do to a provider's health in core/src/rpc_provider.rs, in numbers. */
module BreakerNumbers {
  import opened Wrappers
  import opened Numbers
  import opened CircuitBreaker
  import opened BreakerRuns
  import opened BreakerTheorems
  import opened BreakerAtomic

  function Min(a: int, b: int): int {
    if a < b then a else b
  }

  function Max(a: int, b: int): int {
    if a > b then a else b
  }

  /** One report in one go, with nothing in flight. */
  lemma ReportInNumbers(h: Health, ledger: nat, at: nat)
    requires 0 <= h.score <= 100 && h.failures < 0xFFFF_FFFF_FFFF_FFFF
    ensures Reported(h, Success, at) == Health(Min(100, Max(h.score, 55) + 12), 0, None, h.latestLedger)
    ensures Reported(h, ProbeOk(ledger), at) == Health(Min(100, h.score + 6), 0, None, ledger)
    ensures Reported(h, Failure, at) ==
              Health(Max(0, h.score - 25), h.failures + 1, if h.failures >= 2 then Some(at) else h.trippedAt,
                     h.latestLedger)
    ensures Reported(h, ProbeFailed, at) ==
              Health(Max(0, h.score - 15), h.failures + 1, if h.failures >= 2 then Some(at) else h.trippedAt,
                     h.latestLedger)
  {
  }

  /** The clock's unit is the nanosecond: a trip refuses for five minutes, and is then forgotten by the next check. */
  lemma TripInNumbers(h: Health, at: nat, now: nat)
    requires now >= at
    ensures h.trippedAt == Some(at) ==> (Refuses(h, now) <==> now - at < 5 * 60 * 1_000_000_000)
    ensures h.trippedAt == Some(at) ==>
              Checked(h, now) == if now - at < 5 * 60 * 1_000_000_000 then h else h.(trippedAt := None)
    ensures h.trippedAt == None ==>
              && !Refuses(h, now) && Checked(h, now) == h
              && (Offered(h, now) <==> h.score >= 25 || h.failures < 3)
  {
  }

  /** Seed providers start at 70 and discovered ones at 55, with nothing counted. */
  lemma StartInNumbers()
    ensures Fresh(LOCAL_PROVIDER_STARTING_SCORE) == Health(70, 0, None, 0)
    ensures Fresh(DISCOVERED_PROVIDER_STARTING_SCORE) == Health(55, 0, None, 0)
  {
  }

  // ---- A success, then failures -----------------------------------------------------

  /** Reports in one go, all at `at`, as calls 1, 2, ... */
  function Series(reports: seq<Report>, at: nat): (run: seq<Event>)
    ensures |run| == 4 * |reports|
  {
    if reports == [] then []
    else Series(reports[..|reports| - 1], at) + Whole(|reports|, reports[|reports| - 1], at)
  }

  function Failures(reports: seq<Report>): nat {
    multiset(reports)[Failure]
  }

  function FailedProbes(reports: seq<Report>): nat {
    multiset(reports)[ProbeFailed]
  }

  predicate AllFail(reports: seq<Report>) {
    forall k :: 0 <= k < |reports| ==> reports[k].Failure? || reports[k].ProbeFailed?
  }

  lemma CountNone()
    ensures Failures([]) == FailedProbes([]) == 0
  {
  }

  lemma CountLast(reports: seq<Report>)
    requires reports != []
    ensures var before, last := reports[..|reports| - 1], reports[|reports| - 1];
            && Failures(reports) == Failures(before) + (if last.Failure? then 1 else 0)
            && FailedProbes(reports) == FailedProbes(before) + (if last.ProbeFailed? then 1 else 0)
  {
    assert reports == reports[..|reports| - 1] + [reports[|reports| - 1]];
  }

  /** What a series of failures leaves of a provider that has just succeeded. */
  lemma {:induction false} SeriesLeaves(score: int, run: seq<Event>, h: Health, reports: seq<Report>, at: nat)
    requires Orderly(score, run, h) && Streak(run) == 0 && Now(run) <= at && h.trippedAt == None
    requires AllFail(reports) && |run| + 4 * |reports| < 0xFFFF_FFFF_FFFF_FFFF
    ensures var end := run + Series(reports, at);
            var h' := Health(Max(0, h.score - 25 * Failures(reports) - 15 * FailedProbes(reports)), |reports|,
                             if |reports| >= 3 then Some(at) else None, h.latestLedger);
            Orderly(score, end, h') && Streak(end) == |reports| && Now(end) <= at
    decreases |reports|
  {
    hide Orderly, Streak, Now, Whole, Failures, FailedProbes;
    OrderlyIs(score, run, h);
    if reports == [] {
      CountNone();
      assert run + Series(reports, at) == run;
    } else {
      var before, last := reports[..|reports| - 1], reports[|reports| - 1];
      assert AllFail(before);
      hide AllFail;
      SeriesLeaves(score, run, h, before, at);
      CountLast(reports);
      var middle := run + Series(before, at);
      assert run + Series(reports, at) == middle + Whole(|reports|, last, at);
      var h1 := Health(Max(0, h.score - 25 * Failures(before) - 15 * FailedProbes(before)), |before|,
                       if |before| >= 3 then Some(at) else None, h.latestLedger);
      FailureNext(score, middle, h1, |reports|, last, at);
    }
  }

  lemma FailureNext(score: int, run: seq<Event>, h: Health, id: nat, r: Report, at: nat)
    requires Orderly(score, run, h) && Now(run) <= at && |run| + 4 < U64 && (r.Failure? || r.ProbeFailed?)
    requires 0 <= h.score <= 100 && h.failures < 0xFFFF_FFFF_FFFF_FFFF
    ensures var end := run + Whole(id, r, at);
            var h' := Health(Max(0, h.score - (if r.Failure? then 25 else 15)), h.failures + 1,
                             if h.failures >= 2 then Some(at) else h.trippedAt, h.latestLedger);
            Orderly(score, end, h') && Streak(end) == Streak(run) + 1 && Now(end) == at
  {
    hide Orderly, Streak, Now, Whole, Reported;
    ReportInNumbers(h, 0, at);
    WholeReport(score, run, h, id, r, at);
  }

  lemma OrderlyIs(score: int, run: seq<Event>, h: Health)
    requires Orderly(score, run, h)
    ensures 0 <= h.score <= 100 && h.failures == Streak(run)
  {
    HealthTracksTheRun(score, run);
  }

  /**
   * From a score of at most 55: after one success, f failures and p failed probes, with at least three in all, the
   * provider is offered again after five minutes if and only if 25 f + 15 p <= 42.
   */
  lemma SuccessThenFailures(score: int, run: seq<Event>, h: Health, reports: seq<Report>, at: nat, now: nat)
    requires Orderly(score, run, h) && h.score <= 55 && Now(run) <= at
    requires AllFail(reports) && |reports| >= 3 && |run| + 4 * |reports| + 4 < 0xFFFF_FFFF_FFFF_FFFF
    requires now >= at + 5 * 60 * 1_000_000_000
    ensures var end := run + Whole(0, Success, at) + Series(reports, at);
            Offered(After(score, end).health, now) <==> 25 * Failures(reports) + 15 * FailedProbes(reports) <= 42
  {
    OrderlyIs(score, run, h);
    ReportInNumbers(h, 0, at);
    WholeReport(score, run, h, 0, Success, at);
    SeriesLeaves(score, run + Whole(0, Success, at), Reported(h, Success, at), reports, at);
  }
}
