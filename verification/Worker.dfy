/** Executing jobs (src/app/infra/worker.py, and `_enqueue` in src/app/api/routes.py): claim, run the
    handler, record the outcome. A sweep's handler executes every due job, sweeps included. */
module Worker {
  import opened Wrappers
  import opened Ids
  import opened Jobs
  import opened JobStore
  import opened Deliveries

  // ----- What the worker cannot see -----

  datatype Effect = Effect(rows: Rows, ok: bool)

  /** The clock at its n-th reading, the rows other sessions have locked at that moment, what the
      handler of a job other than a sweep does to the table, other processes included, what others do while
      a delivery holds no lock, and the texts of the dedupe keys. */
  datatype World = World(
    clock: nat -> Time, locked: nat -> set<Id>, handler: (Id, Rows, nat) -> Effect,
    others: (Rows, nat) -> Rows, texts: KeyTexts)

  /** What a delivery is answered with: 404, the job and its state, or 502. */
  datatype Answer = UnknownKind | Answered(id: Id, state: JobState, created: bool) | ExecutionFailed(id: Id)

  predicate Claimable(job: Job) {
    job.state.Queued? || job.state.RetryWait?
  }

  ghost predicate RowOk(job: Job) {
    job.attempts <= MAX_ATTEMPTS && (Claimable(job) ==> job.attempts < MAX_ATTEMPTS)
  }

  ghost predicate TableOk(rows: Rows) {
    (forall i :: i in rows ==> RowOk(rows[i])) && KeysUnique(rows)
  }

  /** No row is lost, attempts are never taken back, a claimable row changes only by being claimed, and
      no new sweep appears. */
  ghost predicate Advances(before: Rows, after: Rows) {
    && (forall i :: i in before ==>
          && i in after
          && after[i].kind == before[i].kind && after[i].dedupeKey == before[i].dedupeKey
          && after[i].attempts >= before[i].attempts
          && (Claimable(before[i]) && after[i].attempts == before[i].attempts ==> after[i] == before[i]))
    && (forall i :: i in after && i !in before ==> !after[i].kind.SweepDueJobs?)
  }

  ghost predicate Behaves(w: World) {
    && (forall i: nat, j: nat :: i <= j ==> w.clock(i) <= w.clock(j))
    && (forall id, rows, n :: TableOk(rows) ==>
          TableOk(w.handler(id, rows, n).rows) && Advances(rows, w.handler(id, rows, n).rows))
    && (forall rows, n :: TableOk(rows) ==> TableOk(w.others(rows, n)) && Advances(rows, w.others(rows, n)))
  }

  lemma AdvancesTwice(a: Rows, b: Rows, c: Rows)
    requires Advances(a, b) && Advances(b, c)
    ensures Advances(a, c)
  {
  }

  // ----- The clock-independent measure -----

  /** How often a sweep row can still be claimed. */
  function ClaimsLeft(job: Job): nat {
    if job.kind.SweepDueJobs? && job.attempts <= MAX_ATTEMPTS then MAX_ATTEMPTS - job.attempts else 0
  }

  function SumLeft(rows: Rows, ids: set<Id>): nat
    requires ids <= rows.Keys
    decreases |ids|
  {
    if ids == {} then 0
    else
      var i := Least(ids);
      ClaimsLeft(rows[i]) + SumLeft(rows, ids - {i})
  }

  function SweepsLeft(rows: Rows): nat {
    SumLeft(rows, rows.Keys)
  }

  lemma {:induction false} SumPick(rows: Rows, ids: set<Id>, i: Id)
    requires ids <= rows.Keys && i in ids
    ensures SumLeft(rows, ids) == ClaimsLeft(rows[i]) + SumLeft(rows, ids - {i})
    decreases |ids|
  {
    var m := Least(ids);
    if m != i {
      SumPick(rows, ids - {m}, i);
      SumPick(rows, ids - {i}, m);
      assert ids - {m} - {i} == ids - {i} - {m};
    }
  }

  lemma {:induction false} SumShrinks(before: Rows, after: Rows, ids: set<Id>)
    requires Advances(before, after) && ids <= after.Keys
    requires forall i :: i in after ==> RowOk(after[i])
    ensures SumLeft(after, ids) <= SumLeft(before, ids * before.Keys)
    decreases |ids|
  {
    if ids != {} {
      var i := Least(ids);
      SumShrinks(before, after, ids - {i});
      if i in before {
        SumPick(before, ids * before.Keys, i);
        assert ids * before.Keys - {i} == (ids - {i}) * before.Keys;
      } else {
        assert ids * before.Keys == (ids - {i}) * before.Keys;
      }
    } else {
      assert ids * before.Keys == {};
    }
  }

  lemma LeftShrinks(before: Rows, after: Rows)
    requires Advances(before, after) && forall i :: i in after ==> RowOk(after[i])
    ensures SweepsLeft(after) <= SweepsLeft(before)
  {
    SumShrinks(before, after, after.Keys);
    assert after.Keys * before.Keys == before.Keys;
  }

  /** Claiming a sweep uses one of its claims up. */
  lemma ClaimUsesLeft(rows: Rows, id: Id, now: Time)
    requires TableOk(rows) && id in rows && Due(rows[id], now) && rows[id].kind.SweepDueJobs?
    ensures ClaimedRow(rows[id], now).Ok?
    ensures SweepsLeft(rows[id := ClaimedRow(rows[id], now).value]) < SweepsLeft(rows)
  {
    var after := rows[id := ClaimedRow(rows[id], now).value];
    assert after.Keys == rows.Keys;
    SumPick(rows, rows.Keys, id);
    SumPick(after, rows.Keys, id);
    SameSum(rows, after, rows.Keys - {id});
  }

  lemma {:induction false} SameSum(a: Rows, b: Rows, ids: set<Id>)
    requires ids <= a.Keys && ids <= b.Keys && forall i :: i in ids ==> a[i] == b[i]
    ensures SumLeft(a, ids) == SumLeft(b, ids)
    decreases |ids|
  {
    if ids != {} {
      SameSum(a, b, ids - {Least(ids)});
    }
  }

  // ----- One row written by the worker that claimed it -----

  lemma ClaimAdvances(rows: Rows, id: Id, now: Time)
    requires TableOk(rows) && id in rows && Due(rows[id], now)
    ensures ClaimedRow(rows[id], now).Ok?
    ensures var after := rows[id := ClaimedRow(rows[id], now).value];
            TableOk(after) && Advances(rows, after) && after[id].attempts == rows[id].attempts + 1
  {
    var after := rows[id := ClaimedRow(rows[id], now).value];
    assert forall i :: i in rows ==> after[i].dedupeKey == rows[i].dedupeKey;
  }

  /** Writing a row that has been claimed since `start` still counts as an advance over `start`. */
  lemma WriteAdvances(start: Rows, rows: Rows, id: Id, job: Job)
    requires TableOk(rows) && Advances(start, rows) && id in start
    requires rows[id].attempts > start[id].attempts
    requires job.kind == rows[id].kind && job.dedupeKey == rows[id].dedupeKey && job.attempts == rows[id].attempts
    requires RowOk(job)
    ensures TableOk(rows[id := job]) && Advances(start, rows[id := job])
  {
    var after := rows[id := job];
    assert forall i :: i in rows ==> after[i].dedupeKey == rows[i].dedupeKey;
  }

  lemma ReconcileAdvances(rows: Rows, ids: set<Id>, now: Time)
    requires TableOk(rows) && forall id :: id in ids ==> id in rows && Stuck(rows[id], now)
    ensures TableOk(Reconciled(rows, ids, now)) && Advances(rows, Reconciled(rows, ids, now))
  {
    var after := Reconciled(rows, ids, now);
    forall i | i in rows ensures RowOk(after[i]) && after[i].dedupeKey == rows[i].dedupeKey {
      assert RowOk(rows[i]);
    }
    assert KeysUnique(after);
  }

  predicate FailureStored(job: Job) {
    (job.state.RetryWait? || job.state.FailedReview?) && job.leaseExpiresAt.None? && job.lastError.Some?
  }

  // ----- The worker -----

  const SWEEP_LIMIT: nat := 200
  const RECONCILE_LIMIT: nat := 100

  class Worker {
    const table: JobTable
    const world: World
    var ticks: nat   // clock readings so far

    ghost predicate Valid()
      reads this, table
    {
      TableOk(table.rows) && Behaves(world)
    }

    constructor (table: JobTable, world: World)
      requires TableOk(table.rows) && Behaves(world)
      ensures Valid() && this.table == table && this.world == world
    {
      this.table, this.world, this.ticks := table, world, 0;
    }

    /** Claims and executes one job. Success means the row was completed; failure means it could not be
        claimed, or its failure has been recorded. */
    method ExecuteJob(id: Id) returns (ok: bool)
      requires Valid()
      modifies this, table
      ensures Valid() && Advances(old(table.rows), table.rows) && ticks > old(ticks)
      ensures id in old(table.rows) && Due(old(table.rows)[id], world.clock(old(ticks))) ==>
                table.rows[id].attempts > old(table.rows)[id].attempts
      ensures ok ==> id in table.rows && table.rows[id].state.Completed?
      ensures !ok && id in old(table.rows) && Due(old(table.rows)[id], world.clock(old(ticks))) ==>
                FailureStored(table.rows[id])
      ensures !(id in old(table.rows) && Due(old(table.rows)[id], world.clock(old(ticks)))) ==>
                !ok && table.rows == old(table.rows)
      decreases SweepsLeft(table.rows), 3
    {
      var now := world.clock(ticks);
      ticks := ticks + 1;
      var claim := table.ClaimJobForExecution(id, now);
      if claim.Err? {
        return false;
      }
      ghost var start := old(table.rows);
      ClaimAdvances(start, id, now);
      if claim.value.kind.SweepDueJobs? {
        ClaimUsesLeft(start, id, now);
      }
      ghost var claimed := table.rows;
      ok := RunHandler(id, claim.value.kind, start);
      AdvancesTwice(start, claimed, table.rows);
      ghost var handled := table.rows;
      RecordOutcome(id, ok);
      WriteAdvances(start, handled, id, table.rows[id]);
    }

    /** Writes the outcome over whatever the row holds by now. */
    method RecordOutcome(id: Id, ok: bool)
      requires KeysUnique(table.rows) && id in table.rows && RowOk(table.rows[id])
      modifies this, table
      ensures id in table.rows && table.rows == old(table.rows)[id := table.rows[id]]
      ensures ticks >= old(ticks)
      ensures var before, after := old(table.rows)[id], table.rows[id];
              && after.kind == before.kind && after.dedupeKey == before.dedupeKey
              && after.attempts == before.attempts && RowOk(after)
              && (if ok then after.state.Completed? else FailureStored(after))
    {
      if ok {
        table.CompleteJob(id);
      } else {
        var now := world.clock(ticks);
        ticks := ticks + 1;
        table.FailJobForExecution(id, table.rows[id].attempts, "handler failed", now);
      }
    }

    /** The handler of one claimed job; a kind without a handler fails. */
    method RunHandler(id: Id, kind: Kind, ghost before: Rows) returns (ok: bool)
      requires Valid() && id in table.rows && table.rows[id].kind == kind
      requires kind.SweepDueJobs? ==> SweepsLeft(table.rows) < SweepsLeft(before)
      modifies this, table
      ensures Valid() && Advances(old(table.rows), table.rows) && ticks >= old(ticks)
      decreases if kind.SweepDueJobs? then SweepsLeft(table.rows) + 1 else 0, 0
    {
      match kind
      case SweepDueJobs =>
        var completed, failed, _ := ExecuteDueJobs(SWEEP_LIMIT);
        return true;
      case ReconcileStuckJobs =>
        var now, locked := world.clock(ticks), world.locked(ticks);
        ghost var rows := table.rows;
        var count := table.ReconcileStuckJobs(RECONCILE_LIMIT, locked, now);
        ReconcileAdvances(rows, Members(FirstInOrder(StuckIds(rows, locked, now), RECONCILE_LIMIT)), now);
        ticks := ticks + 1;
        return true;
      case Other(_) =>
        return false;
      case _ =>
        var effect := world.handler(id, table.rows, ticks);
        table.rows := effect.rows;
        return effect.ok;
    }

    /** Executes every due job it selects. Each of them is accounted for exactly once, and each has been
        claimed at least once by the time the call returns. */
    method ExecuteDueJobs(limit: nat) returns (completed: nat, failed: nat, selected: seq<Id>)
      requires Valid()
      modifies this, table
      ensures Valid() && Advances(old(table.rows), table.rows) && ticks >= old(ticks)
      ensures completed + failed == |selected| <= limit
      ensures forall id :: id in selected ==>
                && id in old(table.rows)
                && Due(old(table.rows)[id], world.clock(old(ticks)))
                && table.rows[id].attempts > old(table.rows)[id].attempts
      ensures |selected| < limit ==>
                forall id :: id in old(table.rows) && Due(old(table.rows)[id], world.clock(old(ticks))) ==>
                  id in selected || id in world.locked(old(ticks))
      decreases SweepsLeft(table.rows), 4
    {
      completed, failed := 0, 0;
      var now := world.clock(ticks);
      selected := table.DueJobs(limit, world.locked(ticks), now);
      ghost var start := table.rows;
      assert Advances(start, start);
      for i := 0 to |selected|
        invariant Valid() && Advances(start, table.rows) && ticks >= old(ticks)
        invariant completed + failed == i
        invariant EachClaimed(start, table.rows, selected[..i])
      {
        LeftShrinks(start, table.rows);
        ghost var before := table.rows;
        assert selected[i] in selected;
        StillDue(start, before, selected[i], now, world.clock(ticks));
        var ok := ExecuteJob(selected[i]);
        AdvancesTwice(start, before, table.rows);
        ClaimedSoFar(start, before, table.rows, selected, i);
        completed, failed := completed + (if ok then 1 else 0), failed + (if ok then 0 else 1);
      }
      assert selected[..|selected|] == selected;
    }

    /** One delivery: find its key, enqueue once, run the stored job if it is due, answer with where it
        stands. Redelivering a job that is not due changes nothing; a due one is claimed, by this very call
        or by somebody else before it; a failure of its own is stored before it is reported, a claim lost
        to somebody else is reported alike and changes nothing. */
    method Deliver(kind: Kind, body: DedupeKey, newId: Id) returns (answer: Answer)
      requires Valid() && newId !in table.rows
      modifies this, table
      ensures Valid()
      ensures answer.UnknownKind? <==> kind.Other? && kind.name != "import_feed"
      ensures answer.UnknownKind? ==> table.rows == old(table.rows)
      ensures !answer.UnknownKind? ==>
                var key := KeyFor(world.texts, kind, body, world.clock(old(ticks)));
                Delivered(old(table.rows), table.rows, kind, key, newId, answer.id, world.clock(old(ticks) + 1))
      ensures !answer.UnknownKind? && body != world.texts.scheduled(kind) ==>
                Delivered(old(table.rows), table.rows, kind, body, newId, answer.id, world.clock(old(ticks) + 1))
      ensures answer.Answered? ==>
                && answer.state == table.rows[answer.id].state
                && (answer.created <==> answer.id !in old(table.rows))
      ensures answer.Answered? && Runs(old(table.rows), answer.id, world.clock(old(ticks) + 1)) ==>
                answer.state.Completed?
      ensures answer.ExecutionFailed? ==>
                var key := KeyFor(world.texts, kind, body, world.clock(old(ticks)));
                var found := world.others(Enqueued(old(table.rows), kind, key, newId), old(ticks));
                && Runs(old(table.rows), answer.id, world.clock(old(ticks) + 1))
                && answer.id in found
                && if Due(found[answer.id], world.clock(old(ticks) + 2)) then FailureStored(table.rows[answer.id])
                   else table.rows == found
    {
      if !AllowedKind(kind) {
        return UnknownKind;
      }
      var key := KeyFor(world.texts, kind, body, world.clock(ticks));
      KeyMeans(world.texts, kind, body, world.clock(ticks));
      var id, created := table.EnqueueJob(kind, key, newId);
      var now := world.clock(ticks + 1);
      ghost var queued := table.rows;
      assert TableOk(queued);
      if !Due(table.rows[id], now) {
        ticks := ticks + 2;
        return Answered(id, table.rows[id].state, created);
      }
      var ok := ExecuteFound(id, now);
      return if ok then Answered(id, table.rows[id].state, created) else ExecutionFailed(id);
    }

    /** Executes a job that was due a moment ago, unless somebody else claims it first. */
    method ExecuteFound(id: Id, now: Time) returns (ok: bool)
      requires Valid() && id in table.rows && Due(table.rows[id], now) && now <= world.clock(ticks + 2)
      modifies this, table
      ensures Valid() && Advances(old(table.rows), table.rows)
      ensures table.rows[id].attempts > old(table.rows)[id].attempts
      ensures ok ==> table.rows[id].state.Completed?
      ensures var found := world.others(old(table.rows), old(ticks));
              && id in found
              && (!ok ==> if Due(found[id], world.clock(old(ticks) + 2)) then FailureStored(table.rows[id])
                          else table.rows == found)
    {
      ghost var queued := table.rows;
      assert TableOk(queued);
      table.rows := world.others(table.rows, ticks);
      ticks := ticks + 2;
      ghost var found := table.rows;
      StillDue(queued, found, id, now, world.clock(ticks));
      ok := ExecuteJob(id);
      AdvancesTwice(queued, found, table.rows);
    }
  }

  /** The table with a row for the key. */
  ghost function Enqueued(rows: Rows, kind: Kind, key: DedupeKey, newId: Id): Rows {
    if exists i :: i in rows && rows[i].dedupeKey == key then rows else rows[newId := NewJob(kind, key)]
  }

  /** The job that a delivery finds is new, or due when it looks. */
  predicate Runs(before: Rows, id: Id, now: Time) {
    id in before ==> Due(before[id], now)
  }

  /** What has become of the table after one accepted delivery: the row of its key exists, is new only if
      no row had that key, has been claimed if it was due, and otherwise nothing happened. */
  ghost predicate Delivered(
      before: Rows, after: Rows, kind: Kind, key: DedupeKey, newId: Id, id: Id, now: Time)
  {
    && id in after && after[id].dedupeKey == key
    && (id !in before <==> forall i :: i in before ==> before[i].dedupeKey != key)
    && (id !in before ==> id == newId && after[id].kind == kind && after[id].attempts >= 1)
    && (id in before && Due(before[id], now) ==> after[id].attempts > before[id].attempts)
    && (id in before && !Due(before[id], now) ==> after == before)
  }

  ghost predicate EachClaimed(start: Rows, rows: Rows, ids: seq<Id>) {
    forall id :: id in ids ==> id in start && id in rows && rows[id].attempts > start[id].attempts
  }

  lemma ClaimedSoFar(start: Rows, before: Rows, after: Rows, ids: seq<Id>, i: nat)
    requires i < |ids| && EachClaimed(start, before, ids[..i]) && Advances(before, after)
    requires ids[i] in start && ids[i] in after && after[ids[i]].attempts > start[ids[i]].attempts
    ensures EachClaimed(start, after, ids[..i + 1])
  {
    assert ids[..i + 1] == ids[..i] + [ids[i]];
  }

  /** A due row is still due later unless somebody has claimed it in between. */
  lemma StillDue(start: Rows, rows: Rows, id: Id, now: Time, later: Time)
    requires Advances(start, rows) && id in start && Due(start[id], now) && now <= later
    ensures Due(rows[id], later) || rows[id].attempts > start[id].attempts
  {
  }
}
