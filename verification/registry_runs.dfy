/** Runs of the whole provider registry of core/src/rpc_provider.rs: all its operations, in any order. */
module RegistryRuns {
  import opened Wrappers
  import opened Numbers
  import opened CircuitBreaker
  import opened BreakerRuns
  import opened BreakerTheorems
  import opened BreakerAtomic
  import opened Gossip
  import opened GossipTheorems
  import opened RegistrySteps

  datatype Op =
    | Success(url: string, at: nat)
    | Failure(url: string, at: nat)
    | HealthCheck(outcome: Outcome)
    | Request(visit: Visit)                    // one provider's availability check
    | MergeSnapshot(snapshot: Snapshot, at: nat)
    | Contact(baseUrl: string, at: nat)
    | ContactError(baseUrl: string, error: string, at: nat)
  {
    function Time(): nat {
      match this
      case HealthCheck(o) => o.at
      case Request(v) => v.at
      case Success(_, _) => at
      case Failure(_, _) => at
      case MergeSnapshot(_, _) => at
      case Contact(_, _) => at
      case ContactError(_, _, _) => at
    }
  }

  function Apply(r: Registry, op: Op): Registry {
    match op
    case Success(url, _) => r.(providers := AfterSuccess(r.providers, url))
    case Failure(url, at) => r.(providers := AfterFailure(r.providers, url, at))
    case HealthCheck(o) => r.(providers := Probe(r.providers, o))
    case Request(v) => if v.url in r.providers then r.(providers := CheckAt(r.providers, v)) else r
    case MergeSnapshot(s, _) => Merge(r, s)
    case Contact(baseUrl, at) => r.(peers := AfterContact(r.peers, r.own, baseUrl, at))
    case ContactError(baseUrl, error, _) => r.(peers := AfterError(r.peers, r.own, baseUrl, error))
  }

  function ApplyAll(r: Registry, ops: seq<Op>): Registry {
    if ops == [] then r else Apply(ApplyAll(r, ops[..|ops| - 1]), ops[|ops| - 1])
  }

  /** Time does not run backwards. */
  predicate InTime(ops: seq<Op>) {
    forall i :: 0 < i < |ops| ==> ops[i - 1].Time() <= ops[i].Time()
  }

  function End(ops: seq<Op>): nat {
    if ops == [] then 0 else ops[|ops| - 1].Time()
  }

  // ---- Health -----------------------------------------------------------------------

  /** What an operation means to the breaker of the provider under `url`: all its moves, one after the other. */
  function EventsOf(url: string, op: Op): (events: seq<Event>)
    ensures |events| <= 4
  {
    match op
    case Success(u, at) => if u == url then Whole(0, Report.Success, at) else []
    case Failure(u, at) => if u == url then Whole(0, Report.Failure, at) else []
    case HealthCheck(o) =>
      if o.url != url then []
      else Whole(0, if o.answer.Some? then ProbeOk(o.answer.value) else ProbeFailed, o.at)
    case Request(v) => if v.url == url then WholeCheck(0, v.at) else []
    case _ => []
  }

  /** The breaker events of a provider since it became known. */
  function RunOf(r: Registry, ops: seq<Op>, url: string): seq<Event> {
    if ops == [] then []
    else
      var before := ApplyAll(r, ops[..|ops| - 1]);
      if url in before.providers then RunOf(r, ops[..|ops| - 1], url) + EventsOf(url, ops[|ops| - 1]) else []
  }

  /** `h` is the health after `run`, in which time has come to `now` at the latest. */
  ghost predicate Follows(score: int, run: seq<Event>, h: Health, now: nat, length: nat) {
    && Orderly(score, run, h) && Now(run) <= now && |run| <= length
    && (Streak(run) >= CIRCUIT_BREAKER_THRESHOLD ==> LastTrip(score, run) == Some(LastFailure(run)))
  }

  lemma ReportFollows(score: int, run: seq<Event>, h: Health, r: Report, at: nat, now: nat, length: nat)
    requires Follows(score, run, h, now, length) && now <= at && length + 4 < U64
    ensures Follows(score, run + Whole(0, r, at), Reported(h, r, at), at, length + 4)
  {
    CounterIsStreak(score, run);
    WholeReport(score, run, h, 0, r, at);
  }

  lemma CheckFollows(score: int, run: seq<Event>, h: Health, at: nat, now: nat, length: nat)
    requires Follows(score, run, h, now, length) && now <= at && length + 4 < U64
    ensures Follows(score, run + WholeCheck(0, at), Checked(h, at), at, length + 4)
  {
    WholeCheckIs(score, run, h, 0, at);
  }

  lemma Quiet(score: int, run: seq<Event>, h: Health, now: nat, later: nat, length: nat)
    requires Follows(score, run, h, now, length) && now <= later
    ensures Follows(score, run + [], h, later, length + 4)
  {
    assert run + [] == run;
  }

  /** What an operation does to the health of one known provider. */
  lemma HealthAfter(r: Registry, op: Op, url: string)
    requires url in r.providers
    ensures url in Apply(r, op).providers
    ensures var h, after := r.providers[url].health, Apply(r, op).providers[url].health;
            after == match op
                     case Success(u, at) => if u == url then Reported(h, Report.Success, at) else h
                     case Failure(u, at) => if u == url then Reported(h, Report.Failure, at) else h
                     case HealthCheck(o) =>
                       if o.url != url then h
                       else Reported(h, if o.answer.Some? then ProbeOk(o.answer.value) else ProbeFailed, o.at)
                     case Request(v) => if v.url == url then Checked(h, v.at) else h
                     case _ => h
  {
    if op.MergeSnapshot? {
      MergeKeepsKnown(r, op.snapshot, url);
    }
  }

  /** One operation moves a known provider's health by its events, and by nothing else. */
  lemma OpFollows(r: Registry, op: Op, url: string, score: int, run: seq<Event>, now: nat, length: nat)
    requires url in r.providers && Follows(score, run, r.providers[url].health, now, length)
    requires now <= op.Time() && length + 4 < U64
    ensures url in Apply(r, op).providers
    ensures Follows(score, run + EventsOf(url, op), Apply(r, op).providers[url].health, op.Time(), length + 4)
  {
    hide Follows, Reported, Checked, Apply, Whole, WholeCheck;
    var h := r.providers[url].health;
    HealthAfter(r, op, url);
    Quiet(score, run, h, now, op.Time(), length);
    match op
    case Success(u, at) => ReportFollows(score, run, h, Report.Success, at, now, length);
    case Failure(u, at) => ReportFollows(score, run, h, Report.Failure, at, now, length);
    case HealthCheck(o) =>
      ReportFollows(score, run, h, if o.answer.Some? then ProbeOk(o.answer.value) else ProbeFailed, o.at, now, length);
    case Request(v) => CheckFollows(score, run, h, v.at, now, length);
    case _ =>
  }

  /** Every known provider's health is that of a new provider after its own events. */
  ghost predicate HealthFollows(r: Registry, ops: seq<Op>, url: string, score: int) {
    url in ApplyAll(r, ops).providers &&
    Follows(score, RunOf(r, ops, url), ApplyAll(r, ops).providers[url].health, End(ops), 4 * |ops|)
  }

  function StartingScore(r: Registry, url: string): int {
    if url in r.providers then LOCAL_PROVIDER_STARTING_SCORE else DISCOVERED_PROVIDER_STARTING_SCORE
  }

  predicate AllNew(r: Registry) {
    forall u :: u in r.providers ==> r.providers[u].health == Fresh(LOCAL_PROVIDER_STARTING_SCORE)
  }

  lemma {:induction false} SeededAreNew(seeds: seq<RpcProvider>, peers: Peers, own: Option<string>)
    ensures AllNew(Registry(Seeded(seeds), peers, own))
    decreases |seeds|
  {
    if seeds != [] {
      SeededAreNew(seeds[..|seeds| - 1], peers, own);
      assert AllNew(Registry(Seeded(seeds[..|seeds| - 1]), peers, own));
    }
  }

  lemma NewFollows(score: int, now: nat, length: nat)
    requires MIN_HEALTH_SCORE <= score <= MAX_HEALTH_SCORE
    ensures Follows(score, [], Fresh(score), now, length)
  {
  }

  /** Only a merge makes a provider known, and then it is new. */
  lemma AppearsNew(r: Registry, op: Op, url: string)
    requires url !in r.providers && url in Apply(r, op).providers
    ensures Apply(r, op).providers[url].health == Fresh(DISCOVERED_PROVIDER_STARTING_SCORE)
  {
    if op.MergeSnapshot? {
      MergeDiscovers(r, op.snapshot, url);
    }
  }

  lemma Known(r: Registry, op: Op, url: string)
    requires url in r.providers
    ensures url in Apply(r, op).providers
  {
    if op.MergeSnapshot? {
      MergeKeepsKnown(r, op.snapshot, url);
    }
  }

  lemma {:induction false} KnownFromTheStart(r: Registry, ops: seq<Op>, url: string)
    requires url in r.providers
    ensures url in ApplyAll(r, ops).providers
    decreases |ops|
  {
    if ops != [] {
      KnownFromTheStart(r, ops[..|ops| - 1], url);
      Known(ApplyAll(r, ops[..|ops| - 1]), ops[|ops| - 1], url);
    }
  }

  /** Whatever else happens to the registry, a provider's breaker sees exactly its own events. */
  lemma {:induction false} RegistryRunsTheBreaker(r: Registry, ops: seq<Op>, url: string)
    requires AllNew(r) && InTime(ops) && 4 * |ops| < U64 && url in ApplyAll(r, ops).providers
    ensures HealthFollows(r, ops, url, StartingScore(r, url))
    decreases |ops|
  {
    hide Follows, Apply, EventsOf;
    var score := StartingScore(r, url);
    if ops == [] {
      NewFollows(score, 0, 0);
    } else {
      var first, op := ops[..|ops| - 1], ops[|ops| - 1];
      var before := ApplyAll(r, first);
      assert End(first) <= op.Time();
      if url in before.providers {
        RegistryRunsTheBreaker(r, first, url);
        OpFollows(before, op, url, score, RunOf(r, first, url), End(first), 4 * |first|);
      } else {
        if url in r.providers {
          KnownFromTheStart(r, first, url);
        }
        AppearsNew(before, op, url);
        NewFollows(score, op.Time(), 4 * |ops|);
      }
    }
  }

  /**
   * The breaker over every run of the registry: a provider's score stays in range, and it is offered exactly when fewer
   * than three failures have followed its last success, or the latest one's cooldown is over and the score suffices.
   */
  lemma OfferedInRegistryIff(r: Registry, ops: seq<Op>, url: string, now: nat)
    requires AllNew(r) && InTime(ops) && 4 * |ops| < U64 && url in ApplyAll(r, ops).providers && now >= End(ops)
    ensures var h, run := ApplyAll(r, ops).providers[url].health, RunOf(r, ops, url);
            && MIN_HEALTH_SCORE <= h.score <= MAX_HEALTH_SCORE
            && h.failures == Streak(run)
            && (Offered(h, now) <==>
                  || Streak(run) < CIRCUIT_BREAKER_THRESHOLD
                  || (now >= LastFailure(run) + CIRCUIT_BREAKER_COOLDOWN && h.score >= MIN_PROVIDER_SCORE))
            && (Streak(run) >= 6 ==> !Offered(h, now))
  {
    var score, run := StartingScore(r, url), RunOf(r, ops, url);
    RegistryRunsTheBreaker(r, ops, url);
    HealthTracksTheRun(score, run);
    OfferedIff(score, run, now);
    if Streak(run) >= 6 {
      SixFailuresAreFinal(score, run, now);
    }
  }

  // ---- Peers --------------------------------------------------------------------------

  predicate ScoresInRange(peers: Peers) {
    forall u :: u in peers ==> MIN_HEALTH_SCORE <= peers[u].score <= MAX_HEALTH_SCORE
  }

  /** What registering and reporting contacts can do to the set of peers. */
  lemma ContactKeeps(peers: Peers, own: Option<string>, baseUrl: string, now: int, error: string, url: string)
    requires own == Some(url) && url !in peers && ScoresInRange(peers)
    ensures url !in AfterContact(peers, own, baseUrl, now) && ScoresInRange(AfterContact(peers, own, baseUrl, now))
    ensures url !in AfterError(peers, own, baseUrl, error) && ScoresInRange(AfterError(peers, own, baseUrl, error))
  {
  }

  lemma {:induction false} MergeKeepsScores(peers: Peers, own: Option<string>, ads: seq<Announcement>)
    requires ScoresInRange(peers)
    ensures ScoresInRange(RegisterAll(peers, own, ads))
    decreases |ads|
  {
    if ads != [] {
      MergeKeepsScores(peers, own, ads[..|ads| - 1]);
    }
  }

  /** A node that did not start as its own peer never becomes one, and peer scores stay in range. */
  lemma {:induction false} NodeNeverBecomesItsPeer(r: Registry, ops: seq<Op>, url: string)
    requires r.own == Some(url) && url !in r.peers && ScoresInRange(r.peers)
    ensures ApplyAll(r, ops).own == r.own && url !in ApplyAll(r, ops).peers && ScoresInRange(ApplyAll(r, ops).peers)
    decreases |ops|
  {
    if ops != [] {
      var before, op := ApplyAll(r, ops[..|ops| - 1]), ops[|ops| - 1];
      NodeNeverBecomesItsPeer(r, ops[..|ops| - 1], url);
      if op.MergeSnapshot? {
        MergeKeepsPeers(before, op.snapshot, url);
        MergeKeepsScores(before.peers, before.own, Announced(op.snapshot));
      } else if op.Contact? {
        ContactKeeps(before.peers, before.own, op.baseUrl, op.at, "", url);
      } else if op.ContactError? {
        ContactKeeps(before.peers, before.own, op.baseUrl, 0, op.error, url);
      }
    }
  }
}
