/** The transitions of one durable job (src/app/domain/jobs.py). */
module Jobs {
  import opened Wrappers

  type Time = int   // seconds

  datatype JobState = Queued | Running | RetryWait | Completed | FailedReview

  datatype Kind =
    | FetchSourcePage | ExtractCandidate | DispatchOutbox | RefreshStatus | ReverifyDue
    | SweepDueJobs | AutoApproveSweep | ReconcileStuckJobs
    | NormalizeDiscovery | LinkCanonical | SyncCountries | PrepareReview
    | HarvestParsebot | HarvestTavily
    | Other(name: string)

  datatype DedupeKey = DedupeKey(text: string)

  predicate Retryable(kind: Kind) {
    kind.FetchSourcePage? || kind.ExtractCandidate? || kind.DispatchOutbox? || kind.RefreshStatus?
    || kind.ReverifyDue? || kind.SweepDueJobs? || kind.AutoApproveSweep? || kind.ReconcileStuckJobs?
  }

  datatype Transition = Transition(state: JobState, attempts: nat, nextAttemptAt: Option<Time>, error: Option<string>)

  const LEASE_SECONDS := 900
  const MAX_ATTEMPTS := 5
  const MAX_DELAY := 21600

  function ClaimJob(state: JobState, attempts: nat, now: Time, nextAttemptAt: Option<Time>): Result<Transition> {
    if !state.Queued? && !state.RetryWait? then Err("Job is not claimable")
    else if nextAttemptAt.Some? && nextAttemptAt.value > now then Err("Job is not due yet")
    else Ok(Transition(Running, attempts + 1, None, None))
  }

  function LeaseExpiry(now: Time): Time {
    now + LEASE_SECONDS
  }

  predicate IsLeaseExpired(leaseExpiresAt: Option<Time>, now: Time) {
    leaseExpiresAt.Some? && leaseExpiresAt.value <= now
  }

  function FinishJob(): Transition {
    Transition(Completed, 0, None, None)
  }

  function Pow2(n: nat): (p: nat)
    ensures p >= 1
  {
    if n == 0 then 1 else 2 * Pow2(n - 1)
  }

  /** The exponential schedule before its cap. */
  function Backoff(attempts: nat): nat {
    60 * Pow2(if attempts == 0 then 0 else attempts - 1)
  }

  function Delay(attempts: nat): nat {
    if Backoff(attempts) < MAX_DELAY then Backoff(attempts) else MAX_DELAY
  }

  function FailJob(kind: Kind, attempts: nat, error: string, now: Time): Transition {
    var safeError := if |error| <= 1000 then error else error[..1000];
    if Retryable(kind) && attempts < MAX_ATTEMPTS then
      Transition(RetryWait, attempts, Some(now + Delay(attempts)), Some(safeError))
    else
      Transition(FailedReview, attempts, None, Some(safeError))
  }
}
