/** The job table (src/app/infra/jobs.py). Each method is one committed transaction. */
module JobStore {
  import opened Wrappers
  import opened Ids
  import opened Jobs

  datatype Job = Job(
    kind: Kind,
    dedupeKey: DedupeKey,
    state: JobState,
    attempts: nat,
    nextAttemptAt: Option<Time>,
    leaseExpiresAt: Option<Time>,
    lastError: Option<string>)

  type Rows = map<Id, Job>

  /** The unique index on `dedupe_key`. */
  ghost predicate KeysUnique(rows: Rows) {
    forall i, j :: i in rows && j in rows && rows[i].dedupeKey == rows[j].dedupeKey ==> i == j
  }

  // ----- What each transaction does to a row -----

  function NewJob(kind: Kind, dedupeKey: DedupeKey): Job {
    Job(kind, dedupeKey, Queued, 0, None, None, None)
  }

  /** Claiming leaves `nextAttemptAt` and `lastError` as they were. */
  function ClaimedRow(job: Job, now: Time): Result<Job> {
    match ClaimJob(job.state, job.attempts, now, job.nextAttemptAt)
    case Err(e) => Err(e)
    case Ok(t) => Ok(job.(state := t.state, attempts := t.attempts, leaseExpiresAt := Some(LeaseExpiry(now))))
  }

  /** Completing keeps `attempts`; the transition's own zero is not written back. */
  function CompletedRow(job: Job): Job {
    job.(state := FinishJob().state, leaseExpiresAt := None, nextAttemptAt := None)
  }

  /** Failing uses the attempts the failing worker remembers. */
  function FailedRow(job: Job, attempts: nat, error: string, now: Time): Job {
    var t := FailJob(job.kind, attempts, error, now);
    job.(state := t.state, lastError := t.error, nextAttemptAt := t.nextAttemptAt, leaseExpiresAt := None)
  }

  const LEASE_ERROR := "lease expired before completion"

  predicate Stuck(job: Job, now: Time) {
    job.state.Running? && IsLeaseExpired(job.leaseExpiresAt, now)
  }

  predicate Due(job: Job, now: Time) {
    (job.state.Queued? || job.state.RetryWait?)
    && (job.nextAttemptAt.None? || job.nextAttemptAt.value <= now)
  }

  function StuckIds(rows: Rows, locked: set<Id>, now: Time): set<Id> {
    set id | id in rows && Stuck(rows[id], now) && id !in locked
  }

  function Reconciled(rows: Rows, ids: set<Id>, now: Time): Rows {
    map id | id in rows ::
      if id in ids then FailedRow(rows[id], rows[id].attempts, LEASE_ERROR, now) else rows[id]
  }

  /** Every due row can be claimed at once, and nothing else can. */
  lemma DueIsClaimable(job: Job, now: Time)
    ensures Due(job, now) <==> ClaimedRow(job, now).Ok?
  {
  }

  /** The backoff of a retry, in seconds: it doubles from one minute. */
  predicate Postponed(job: Job, attempts: nat, now: Time) {
    job.state.RetryWait? ==>
      job.nextAttemptAt == Some(now + (if attempts <= 1 then 60 else if attempts == 2 then 120
                                       else if attempts == 3 then 240 else 480))
  }

  lemma FirstDelays()
    ensures Delay(0) == 60 && Delay(1) == 60 && Delay(2) == 120 && Delay(3) == 240 && Delay(4) == 480
  {
    assert Pow2(1) == 2 * Pow2(0) && Pow2(2) == 2 * Pow2(1) && Pow2(3) == 2 * Pow2(2);
  }

  /** Whom a failure sends to review at once. */
  lemma NotRetried(kind: Kind)
    ensures !Retryable(kind) <==>
            || kind in {NormalizeDiscovery, LinkCanonical, SyncCountries, PrepareReview, HarvestParsebot, HarvestTavily}
            || kind.Other?
  {
  }

  predicate Abandoned(job: Job, now: Time) {
    job.state == Running && job.leaseExpiresAt.Some? && job.leaseExpiresAt.value <= now
  }

  /** Only abandoned rows that nobody has locked are taken, all of them or the oldest `limit`, and each of
      them waits for its retry or goes to review. */
  ghost predicate TakenBack(before: Rows, after: Rows, taken: set<Id>, limit: nat, locked: set<Id>, now: Time) {
    && after.Keys == before.Keys
    && (forall id :: id in before && id !in taken ==> after[id] == before[id])
    && (forall id :: id in taken ==>
          && id in before && Abandoned(before[id], now) && id !in locked
          && (if Retryable(before[id].kind) && before[id].attempts < 5
              then after[id].state.RetryWait? else after[id].state.FailedReview?)
          && after[id].leaseExpiresAt == None && after[id].lastError == Some("lease expired before completion")
          && after[id].attempts == before[id].attempts && after[id].kind == before[id].kind
          && after[id].dedupeKey == before[id].dedupeKey && Postponed(after[id], before[id].attempts, now))
    && (forall id :: id in before && id !in taken && id !in locked && Abandoned(before[id], now) ==>
          |taken| == limit && forall other :: other in taken ==> other < id)
  }

  lemma TakenRow(job: Job, now: Time)
    ensures var after := FailedRow(job, job.attempts, LEASE_ERROR, now);
            && after.state == (if Retryable(job.kind) && job.attempts < 5 then RetryWait else FailedReview)
            && after.leaseExpiresAt == None && after.lastError == Some("lease expired before completion")
            && after.attempts == job.attempts && after.kind == job.kind && after.dedupeKey == job.dedupeKey
            && Postponed(after, job.attempts, now)
  {
    FirstDelays();
    assert |LEASE_ERROR| == 31;
  }

  lemma AbandonedTaken(rows: Rows, limit: nat, locked: set<Id>, now: Time)
    ensures var taken := Members(FirstInOrder(StuckIds(rows, locked, now), limit));
            TakenBack(rows, Reconciled(rows, taken, now), taken, limit, locked, now)
  {
    var first := FirstInOrder(StuckIds(rows, locked, now), limit);
    AscendingMembers(first);
    forall id | id in Members(first) ensures id in first {
    }
    var taken := Members(first);
    forall id | id in taken && id in rows { TakenRow(rows[id], now); }
    OnlyStuck(rows, limit, locked, now, first);
  }

  lemma OnlyStuck(rows: Rows, limit: nat, locked: set<Id>, now: Time, first: seq<Id>)
    requires first == FirstInOrder(StuckIds(rows, locked, now), limit)
    ensures forall id :: id in first ==> id in rows && Abandoned(rows[id], now) && id !in locked
    ensures forall id :: id in rows && id !in first && id !in locked && Abandoned(rows[id], now) ==>
              |first| == limit && forall other :: other in first ==> other < id
  {
    var ids := StuckIds(rows, locked, now);
    forall id | id in rows && id !in first && id !in locked && Abandoned(rows[id], now)
      ensures id in ids && |first| == limit
    {
    }
  }

  lemma {:induction false} AscendingMembers(s: seq<Id>)
    requires forall i, j :: 0 <= i < j < |s| ==> s[i] < s[j]
    ensures |Members(s)| == |s|
  {
    if s != [] {
      var n := |s| - 1;
      AscendingMembers(s[..n]);
      assert s == s[..n] + [s[n]];
      assert Members(s) == Members(s[..n]) + {s[n]};
      assert s[n] !in Members(s[..n]);
    }
  }

  lemma ReconciledOneMore(rows: Rows, stuck: seq<Id>, i: nat, now: Time)
    requires i < |stuck| && stuck[i] in rows && stuck[i] !in stuck[..i]
    ensures var before := Reconciled(rows, Members(stuck[..i]), now);
            && before[stuck[i]] == rows[stuck[i]]
            && Reconciled(rows, Members(stuck[..i + 1]), now)
               == before[stuck[i] := FailedRow(rows[stuck[i]], rows[stuck[i]].attempts, LEASE_ERROR, now)]
  {
    assert stuck[..i + 1] == stuck[..i] + [stuck[i]];
  }

  lemma ReconciledKeys(rows: Rows, ids: set<Id>, now: Time)
    requires KeysUnique(rows)
    ensures KeysUnique(Reconciled(rows, ids, now))
  {
  }

  // ----- The table -----

  class JobTable {
    var rows: Rows

    ghost predicate Valid()
      reads this
    {
      KeysUnique(rows)
    }

    constructor ()
      ensures Valid() && rows == map[]
    {
      rows := map[];
    }

    /** One row per key however often the message is delivered. */
    method EnqueueJob(kind: Kind, dedupeKey: DedupeKey, newId: Id) returns (id: Id, created: bool)
      requires Valid() && newId !in rows
      modifies this
      ensures Valid()
      ensures id in rows && rows[id].dedupeKey == dedupeKey
      ensures created <==> forall i :: i in old(rows) ==> old(rows)[i].dedupeKey != dedupeKey
      ensures rows == if created then old(rows)[newId := NewJob(kind, dedupeKey)] else old(rows)
      ensures created ==> id == newId && rows[id] == Job(kind, dedupeKey, Queued, 0, None, None, None)
    {
      var same := set i | i in rows && rows[i].dedupeKey == dedupeKey;
      assert forall i :: i in rows && rows[i].dedupeKey == dedupeKey ==> i in same;
      if same == {} {
        rows := rows[newId := NewJob(kind, dedupeKey)];
        return newId, true;
      }
      return Least(same), false;
    }

    method ClaimJobForExecution(id: Id, now: Time) returns (r: Result<Job>)
      requires Valid()
      modifies this
      ensures Valid()
      ensures r.Ok? <==> id in old(rows) && Due(old(rows)[id], now)
      ensures r.Ok? <==>
                && id in old(rows) && old(rows)[id].state in {Queued, RetryWait}
                && (old(rows)[id].nextAttemptAt.Some? ==> old(rows)[id].nextAttemptAt.value <= now)
      ensures r.Ok? ==> ClaimedRow(old(rows)[id], now) == r && rows == old(rows)[id := r.value]
      ensures r.Ok? ==>
                var job, was := r.value, old(rows)[id];
                && job.state.Running? && job.attempts == was.attempts + 1 && job.leaseExpiresAt == Some(now + 900)
                && job.kind == was.kind && job.dedupeKey == was.dedupeKey
                && job.nextAttemptAt == was.nextAttemptAt && job.lastError == was.lastError
      ensures r.Err? ==> rows == old(rows)
    {
      if id !in rows {
        return Err("Job not found");
      }
      r := ClaimedRow(rows[id], now);
      if r.Ok? {
        rows := rows[id := r.value];
      }
    }

    /** Writes the outcome without looking at the state that is stored. */
    method CompleteJob(id: Id)
      requires Valid() && id in rows
      modifies this
      ensures Valid()
      ensures rows == old(rows)[id := CompletedRow(old(rows)[id])]
      ensures var job, was := rows[id], old(rows)[id];
              && job.state.Completed? && job.leaseExpiresAt.None? && job.nextAttemptAt.None?
              && job.attempts == was.attempts && job.kind == was.kind && job.dedupeKey == was.dedupeKey
              && job.lastError == was.lastError
      ensures rows.Keys == old(rows).Keys && forall i :: i in rows && i != id ==> rows[i] == old(rows)[i]
    {
      rows := rows[id := CompletedRow(rows[id])];
    }

    method FailJobForExecution(id: Id, attempts: nat, error: string, now: Time)
      requires Valid() && id in rows
      modifies this
      ensures Valid()
      ensures rows == old(rows)[id := FailedRow(old(rows)[id], attempts, error, now)]
      ensures var job, was := rows[id], old(rows)[id];
              && (job.state.RetryWait? <==> Retryable(was.kind) && attempts < MAX_ATTEMPTS)
              && (job.state.FailedReview? <==> !(Retryable(was.kind) && attempts < MAX_ATTEMPTS))
              && (job.nextAttemptAt.Some? <==> job.state.RetryWait?)
              && Postponed(job, attempts, now)
              && job.leaseExpiresAt.None?
              && job.lastError.Some? && job.lastError.value <= error
              && |job.lastError.value| == (if |error| <= 1000 then |error| else 1000)
              && job.attempts == was.attempts && job.kind == was.kind && job.dedupeKey == was.dedupeKey
      ensures rows.Keys == old(rows).Keys && forall i :: i in rows && i != id ==> rows[i] == old(rows)[i]
    {
      FirstDelays();
      rows := rows[id := FailedRow(rows[id], attempts, error, now)];
    }

    /** Returns the oldest `limit` abandoned claims that nobody else has locked to the queue. */
    method ReconcileStuckJobs(limit: nat, locked: set<Id>, now: Time) returns (count: nat)
      requires Valid()
      modifies this
      ensures Valid()
      ensures var taken := FirstInOrder(StuckIds(old(rows), locked, now), limit);
              && rows == Reconciled(old(rows), Members(taken), now) && count == |taken|
              && TakenBack(old(rows), rows, Members(taken), limit, locked, now)
    {
      AbandonedTaken(rows, limit, locked, now);
      var stuck := FirstInOrder(StuckIds(rows, locked, now), limit);
      ReconciledKeys(rows, Members(stuck), now);
      FailEach(stuck, now);
      return |stuck|;
    }

    /** The loop over the selected rows. */
    method FailEach(stuck: seq<Id>, now: Time)
      requires forall i, j :: 0 <= i < j < |stuck| ==> stuck[i] < stuck[j]
      requires forall id :: id in stuck ==> id in rows
      modifies this
      ensures rows == Reconciled(old(rows), Members(stuck), now)
    {
      for i := 0 to |stuck|
        invariant rows.Keys == old(rows).Keys
        invariant rows == Reconciled(old(rows), Members(stuck[..i]), now)
      {
        assert stuck[i] in stuck && stuck[i] !in stuck[..i];
        var job := rows[stuck[i]];
        ReconciledOneMore(old(rows), stuck, i, now);
        rows := rows[stuck[i] := FailedRow(job, job.attempts, LEASE_ERROR, now)];
      }
      assert stuck[..|stuck|] == stuck;
    }

    /** The oldest `limit` due rows that nobody else has locked. */
    method DueJobs(limit: nat, locked: set<Id>, now: Time) returns (due: seq<Id>)
      ensures forall id :: id in due ==> id in rows && Due(rows[id], now) && id !in locked
      ensures forall i, j :: 0 <= i < j < |due| ==> due[i] < due[j]
      ensures |due| <= limit
      ensures |due| < limit ==> forall id :: id in rows && Due(rows[id], now) && id !in locked ==> id in due
    {
      var ids := set id | id in rows && Due(rows[id], now) && id !in locked;
      due := FirstInOrder(ids, limit);
    }
  }
}
