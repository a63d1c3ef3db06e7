/** The circuit breaker of one RPC provider in core/src/rpc_provider.rs: its state, and what each report does to it. */
module CircuitBreaker {
  import opened Wrappers
  import opened Numbers

  const CIRCUIT_BREAKER_THRESHOLD: nat := 3
  const CIRCUIT_BREAKER_COOLDOWN: nat := 300_000_000_000   // nanoseconds
  const MAX_HEALTH_SCORE: int := 100
  const MIN_HEALTH_SCORE: int := 0
  const LOCAL_PROVIDER_STARTING_SCORE: int := 70
  const DISCOVERED_PROVIDER_STARTING_SCORE: int := 55
  const LOCAL_SUCCESS_BONUS: int := 12
  const LOCAL_FAILURE_PENALTY: int := 25
  const PROBE_SUCCESS_BONUS: int := 6
  const PROBE_FAILURE_PENALTY: int := 15
  const MIN_PROVIDER_SCORE: int := 25

  datatype Health = Health(score: int, failures: nat, trippedAt: Option<nat>, latestLedger: nat)

  function ClampScore(score: int): int {
    if score < MIN_HEALTH_SCORE then MIN_HEALTH_SCORE
    else if score > MAX_HEALTH_SCORE then MAX_HEALTH_SCORE
    else score
  }

  function AdjustScore(current: int, delta: int): int {
    ClampScore(current + delta)
  }

  function Fresh(score: int): Health {
    Health(score, 0, None, 0)
  }

  /** A success lifts a low score to that of a newly discovered provider first. */
  function RecoveredScore(score: int): int {
    var floor := if score < DISCOVERED_PROVIDER_STARTING_SCORE then DISCOVERED_PROVIDER_STARTING_SCORE else score;
    ClampScore(floor + LOCAL_SUCCESS_BONUS)
  }

  function Succeeded(h: Health): Health {
    Health(RecoveredScore(h.score), 0, None, h.latestLedger)
  }

  function Probed(h: Health, ledger: nat): Health {
    Health(AdjustScore(h.score, PROBE_SUCCESS_BONUS), 0, None, ledger)
  }

  /** One more failure, with the u64 counter wrapping. */
  function Failed(h: Health, penalty: int, now: nat): Health {
    var failures := (h.failures + 1) % U64;
    Health(AdjustScore(h.score, -penalty), failures,
           if failures >= CIRCUIT_BREAKER_THRESHOLD then Some(now) else h.trippedAt,
           h.latestLedger)
  }

  predicate Expired(h: Health, now: nat) {
    h.trippedAt.Some? && now >= h.trippedAt.value + CIRCUIT_BREAKER_COOLDOWN
  }

  /** Tripped, and the cooldown has not elapsed. */
  predicate Refuses(h: Health, now: nat) {
    h.trippedAt.Some? && !Expired(h, now)
  }

  function Cleared(h: Health): Health {
    h.(trippedAt := None)
  }

  /** An availability check forgets a trip whose cooldown is over. */
  function Checked(h: Health, now: nat): Health {
    if Expired(h, now) then Cleared(h) else h
  }

  /** The answer of `is_available`. */
  predicate Offered(h: Health, now: nat) {
    !Refuses(h, now) && (h.score >= MIN_PROVIDER_SCORE || h.failures < CIRCUIT_BREAKER_THRESHOLD)
  }
}
