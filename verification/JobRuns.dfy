/** Every interleaving of deliveries, workers, crashes and sweeps over the job table.

    A live handler ends before its lease expires: time may not pass a live worker's expiry, so a
    handler that would outlive its lease counts as crashed. */
module JobRuns {
  import opened Wrappers
  import opened Ids
  import opened Jobs
  import opened JobStore

  type Worker = nat

  /** What a worker that is executing a job remembers of its claim. */
  datatype Claim = Claim(job: Id, attempts: nat, lease: Time)

  /** `claims` counts the successful claims of each job, and `waited` adds up every backoff it was
      given; no transition reads them. */
  datatype System = System(
    rows: Rows, live: map<Worker, Claim>, now: Time, claims: map<Id, nat>, waited: map<Id, nat>)

  datatype Event =
    | Enqueue(id: Id, kind: Kind, dedupeKey: DedupeKey)
    | StartJob(worker: Worker, id: Id)
    | Finish(worker: Worker)
    | Fail(worker: Worker, error: string)
    | Crash(worker: Worker)
    | Reconcile(ids: set<Id>)
    | Tick(to: Time)

  const INITIAL := System(map[], map[], 0, map[], map[])

  /** Which events can happen, leaving the lease assumption aside. */
  ghost predicate Possible(s: System, e: Event) {
    match e
    case Enqueue(id, _, key) => id !in s.rows && forall i :: i in s.rows ==> s.rows[i].dedupeKey != key
    case StartJob(w, id) => w !in s.live && id in s.rows && Due(s.rows[id], s.now) && id in s.claims
    case Finish(w) => w in s.live && s.live[w].job in s.rows && s.live[w].job in s.waited
    case Fail(w, _) => w in s.live && s.live[w].job in s.rows && s.live[w].job in s.waited
    case Crash(w) => w in s.live
    case Reconcile(ids) => forall id :: id in ids ==> id in s.rows && id in s.waited && Stuck(s.rows[id], s.now)
    case Tick(to) => s.now <= to
  }

  ghost predicate Enabled(s: System, e: Event) {
    Possible(s, e) && (e.Tick? ==> forall w :: w in s.live ==> e.to < s.live[w].lease)
  }

  /** The backoff a failure adds. */
  function Granted(job: Job, attempts: nat): nat {
    if Retryable(job.kind) && attempts < MAX_ATTEMPTS then Delay(attempts) else 0
  }

  function Enqueued(s: System, id: Id, kind: Kind, key: DedupeKey): System {
    s.(rows := s.rows[id := NewJob(kind, key)], claims := s.claims[id := 0], waited := s.waited[id := 0])
  }

  function Started(s: System, w: Worker, id: Id): System
    requires id in s.rows && Due(s.rows[id], s.now) && id in s.claims
  {
    DueIsClaimable(s.rows[id], s.now);
    var job := ClaimedRow(s.rows[id], s.now).value;
    s.(rows := s.rows[id := job],
       live := s.live[w := Claim(id, job.attempts, LeaseExpiry(s.now))],
       claims := s.claims[id := s.claims[id] + 1])
  }

  /** A worker writes its job's row and is done. */
  function Written(s: System, w: Worker, job: Job, granted: nat): System
    requires w in s.live && s.live[w].job in s.rows && s.live[w].job in s.waited
  {
    var id := s.live[w].job;
    s.(rows := s.rows[id := job], live := s.live - {w}, waited := s.waited[id := s.waited[id] + granted])
  }

  function TakenBack(s: System, ids: set<Id>): System
    requires forall id :: id in ids ==> id in s.rows
  {
    s.(rows := Reconciled(s.rows, ids, s.now),
       waited := map id | id in s.waited ::
                   s.waited[id] + (if id in ids then Granted(s.rows[id], s.rows[id].attempts) else 0))
  }

  ghost function Next(s: System, e: Event): System
    requires Possible(s, e)
  {
    match e
    case Enqueue(id, kind, key) => Enqueued(s, id, kind, key)
    case StartJob(w, id) => Started(s, w, id)
    case Finish(w) => Written(s, w, CompletedRow(s.rows[s.live[w].job]), 0)
    case Fail(w, error) =>
      var c := s.live[w];
      Written(s, w, FailedRow(s.rows[c.job], c.attempts, error, s.now), Granted(s.rows[c.job], c.attempts))
    case Crash(w) => s.(live := s.live - {w})
    case Reconcile(ids) => TakenBack(s, ids)
    case Tick(to) => s.(now := to)
  }

  ghost predicate Run(states: seq<System>, events: seq<Event>) {
    && |states| == |events| + 1
    && states[0] == INITIAL
    && forall i :: 0 <= i < |events| ==> Enabled(states[i], events[i]) && states[i + 1] == Next(states[i], events[i])
  }

  // ----- The invariant -----

  predicate Terminal(state: JobState) {
    state.Completed? || state.FailedReview?
  }

  /** Retries already granted: every claim but the last one failed. */
  function Retries(job: Job): nat {
    if job.state.RetryWait? || job.attempts == 0 then job.attempts else job.attempts - 1
  }

  ghost predicate JobOk(job: Job, claims: nat, waited: nat) {
    && (job.state.Running? <==> job.leaseExpiresAt.Some?)
    && (job.state.Queued? <==> job.attempts == 0)
    && (job.state.RetryWait? ==> job.nextAttemptAt.Some? && job.attempts < MAX_ATTEMPTS)
    && (Terminal(job.state) || job.state.Queued? ==> job.nextAttemptAt.None?)
    && job.attempts == claims <= MAX_ATTEMPTS
    && (!Retryable(job.kind) ==> job.attempts <= 1 && !job.state.RetryWait?)
    && waited == 60 * (Pow2(Retries(job)) - 1)
  }

  /** The live worker's job is running under this worker's lease, which has not expired. */
  ghost predicate ClaimOk(s: System, c: Claim) {
    && c.job in s.rows
    && s.rows[c.job].state.Running?
    && s.rows[c.job].leaseExpiresAt == Some(c.lease)
    && s.rows[c.job].attempts == c.attempts
    && s.now < c.lease
  }

  ghost predicate JobsOk(s: System) {
    && s.claims.Keys == s.rows.Keys == s.waited.Keys
    && forall id :: id in s.rows ==> JobOk(s.rows[id], s.claims[id], s.waited[id])
  }

  ghost predicate ClaimsOk(s: System) {
    forall w :: w in s.live ==> ClaimOk(s, s.live[w])
  }

  ghost predicate OneHolder(s: System) {
    forall v, w :: v in s.live && w in s.live && s.live[v].job == s.live[w].job ==> v == w
  }

  ghost predicate Ok(s: System) {
    JobsOk(s) && ClaimsOk(s)
  }

  lemma SmallPowers()
    ensures Pow2(0) == 1 && Pow2(1) == 2 && Pow2(2) == 4 && Pow2(3) == 8 && Pow2(4) == 16
  {
    assert Pow2(1) == 2 * Pow2(0);
    assert Pow2(2) == 2 * Pow2(1);
    assert Pow2(3) == 2 * Pow2(2);
    assert Pow2(4) == 2 * Pow2(3);
  }

  lemma ClaimKeeps(job: Job, claims: nat, waited: nat, now: Time)
    requires JobOk(job, claims, waited) && Due(job, now)
    ensures ClaimedRow(job, now).Ok? && JobOk(ClaimedRow(job, now).value, claims + 1, waited)
  {
  }

  lemma FailKeeps(job: Job, claims: nat, waited: nat, error: string, now: Time)
    requires JobOk(job, claims, waited) && job.state.Running?
    ensures JobOk(FailedRow(job, job.attempts, error, now), claims, waited + Granted(job, job.attempts))
  {
    SmallPowers();
    assert job.attempts < MAX_ATTEMPTS ==> Delay(job.attempts) == 60 * Pow2(job.attempts - 1);
    assert job.attempts < MAX_ATTEMPTS ==> Pow2(job.attempts) == 2 * Pow2(job.attempts - 1);
  }

  lemma EnqueuedOk(s: System, id: Id, kind: Kind, key: DedupeKey)
    requires Ok(s) && Possible(s, Enqueue(id, kind, key))
    ensures Ok(Enqueued(s, id, kind, key))
  {
    SmallPowers();
    var s' := Enqueued(s, id, kind, key);
    assert JobOk(s'.rows[id], 0, 0);
    forall w | w in s.live ensures ClaimOk(s', s.live[w]) {
      assert ClaimOk(s, s.live[w]);
    }
  }

  lemma StartedJobs(s: System, w: Worker, id: Id)
    requires Ok(s) && Possible(s, StartJob(w, id))
    ensures JobsOk(Started(s, w, id))
  {
    ClaimKeeps(s.rows[id], s.claims[id], s.waited[id], s.now);
  }

  lemma StartedClaims(s: System, w: Worker, id: Id)
    requires Ok(s) && Possible(s, StartJob(w, id))
    ensures ClaimsOk(Started(s, w, id))
  {
    var s' := Started(s, w, id);
    forall v | v in s.live ensures s.live[v].job != id && ClaimOk(s', s.live[v]) {
      assert ClaimOk(s, s.live[v]);
    }
    assert ClaimOk(s', s'.live[w]);
  }

  /** A write by a live worker: its claim goes, its row stays good, nobody else held that row. */
  lemma WrittenOk(s: System, w: Worker, job: Job, granted: nat)
    requires Ok(s) && w in s.live && s.live[w].job in s.rows
    requires OneHolder(s)
    requires JobOk(job, s.claims[s.live[w].job], s.waited[s.live[w].job] + granted)
    ensures Ok(Written(s, w, job, granted))
  {
    var s' := Written(s, w, job, granted);
    forall v | v in s'.live ensures ClaimOk(s', s'.live[v]) {
      assert ClaimOk(s, s.live[v]);
    }
  }

  lemma TakenBackOk(s: System, ids: set<Id>)
    requires Ok(s) && Possible(s, Reconcile(ids))
    ensures Ok(TakenBack(s, ids))
  {
    var s' := TakenBack(s, ids);
    forall id | id in s'.rows
      ensures JobOk(s'.rows[id], s'.claims[id], s'.waited[id])
    {
      assert JobOk(s.rows[id], s.claims[id], s.waited[id]);
      if id in ids {
        FailKeeps(s.rows[id], s.claims[id], s.waited[id], LEASE_ERROR, s.now);
      }
    }
    TakenBackClaims(s, ids);
  }

  lemma TakenBackClaims(s: System, ids: set<Id>)
    requires ClaimsOk(s) && Possible(s, Reconcile(ids))
    ensures ClaimsOk(TakenBack(s, ids))
  {
    forall w | w in s.live ensures ClaimOk(TakenBack(s, ids), s.live[w]) {
      assert ClaimOk(s, s.live[w]);
    }
  }

  lemma FailOk(s: System, w: Worker, error: string)
    requires Ok(s) && OneHolder(s) && Possible(s, Fail(w, error))
    ensures Ok(Next(s, Fail(w, error)))
  {
    var c := s.live[w];
    assert ClaimOk(s, c);
    FailKeeps(s.rows[c.job], s.claims[c.job], s.waited[c.job], error, s.now);
    WrittenOk(s, w, FailedRow(s.rows[c.job], c.attempts, error, s.now), Granted(s.rows[c.job], c.attempts));
  }

  lemma FinishOk(s: System, w: Worker)
    requires Ok(s) && OneHolder(s) && Possible(s, Finish(w))
    ensures Ok(Next(s, Finish(w)))
  {
    assert ClaimOk(s, s.live[w]);
    WrittenOk(s, w, CompletedRow(s.rows[s.live[w].job]), 0);
  }

  lemma QuietOk(s: System, s': System)
    requires Ok(s) && s'.rows == s.rows && s'.claims == s.claims && s'.waited == s.waited
    requires forall w :: w in s'.live ==> w in s.live && s'.live[w] == s.live[w] && s'.now < s.live[w].lease
    ensures Ok(s')
  {
    forall w | w in s'.live ensures ClaimOk(s', s'.live[w]) {
      assert ClaimOk(s, s.live[w]);
    }
  }

  lemma StepOk(s: System, e: Event)
    requires Ok(s) && OneHolder(s) && Enabled(s, e)
    ensures Ok(Next(s, e))
  {
    match e {
      case Enqueue(id, kind, key) => EnqueuedOk(s, id, kind, key);
      case StartJob(w, id) =>
        StartedJobs(s, w, id);
        StartedClaims(s, w, id);
      case Finish(w) => FinishOk(s, w);
      case Fail(w, error) => FailOk(s, w, error);
      case Crash(w) =>
        assert forall v :: v in s.live ==> ClaimOk(s, s.live[v]);
        QuietOk(s, Next(s, e));
      case Reconcile(ids) => TakenBackOk(s, ids);
      case Tick(_) => QuietOk(s, Next(s, e));
    }
  }

  lemma StepOneHolder(s: System, e: Event)
    requires Ok(s) && OneHolder(s) && Possible(s, e)
    ensures OneHolder(Next(s, e))
  {
    if e.StartJob? {
      forall v | v in s.live ensures s.live[v].job != e.id {
        assert ClaimOk(s, s.live[v]);
      }
    }
  }

  lemma StepKeysUnique(s: System, e: Event)
    requires KeysUnique(s.rows) && Possible(s, e)
    ensures KeysUnique(Next(s, e).rows)
  {
    if !e.Enqueue? {
      forall id | id in s.rows ensures Next(s, e).rows[id].dedupeKey == s.rows[id].dedupeKey {
      }
    }
  }

  // ----- Whole runs -----

  lemma {:induction false} RunIsOk(states: seq<System>, events: seq<Event>, i: nat)
    requires Run(states, events) && i < |states|
    ensures Ok(states[i]) && OneHolder(states[i]) && KeysUnique(states[i].rows)
  {
    if i > 0 {
      RunIsOk(states, events, i - 1);
      StepOk(states[i - 1], events[i - 1]);
      StepOneHolder(states[i - 1], events[i - 1]);
      StepKeysUnique(states[i - 1], events[i - 1]);
    }
  }

  /** What holds in every state of every interleaving: a job is running exactly when it has a lease,
      at most one live worker holds it, `attempts` counts its claims and stays within five (within one
      for a kind that is never retried), all its backoffs together last at most 900 seconds, and no
      dedupe key has two rows. */
  lemma EveryStateIsSafe(states: seq<System>, events: seq<Event>, i: nat)
    requires Run(states, events) && i < |states|
    ensures var s := states[i];
            && s.claims.Keys == s.rows.Keys == s.waited.Keys
            && (forall id :: id in s.rows ==>
                  && (s.rows[id].state.Running? <==> s.rows[id].leaseExpiresAt.Some?)
                  && s.rows[id].attempts == s.claims[id] <= (if Retryable(s.rows[id].kind) then 5 else 1)
                  && s.waited[id] <= 900)
            && (forall v, w :: v in s.live && w in s.live && s.live[v].job == s.live[w].job ==> v == w)
            && (forall w :: w in s.live ==> ClaimOk(s, s.live[w]))
            && KeysUnique(s.rows)
  {
    RunIsOk(states, events, i);
    SmallPowers();
    var s := states[i];
    forall id | id in s.rows ensures s.waited[id] <= 900 {
      assert JobOk(s.rows[id], s.claims[id], s.waited[id]);
      assert Retries(s.rows[id]) in {0, 1, 2, 3, 4};
    }
  }

  /** No failure in any run is ever delayed by the cap, whether the worker reports it or the lease runs
      out: the longest backoff is 480 seconds. */
  lemma CapNeverReached(states: seq<System>, events: seq<Event>, i: nat)
    requires Run(states, events) && i < |events|
    ensures events[i].Fail? ==>
              var c := states[i].live[events[i].worker];
              Granted(states[i].rows[c.job], c.attempts) <= 480
    ensures events[i].Reconcile? ==>
              forall id :: id in events[i].ids ==>
                Granted(states[i].rows[id], states[i].rows[id].attempts) <= 480
  {
    RunIsOk(states, events, i);
    var s := states[i];
    if events[i].Fail? {
      var c := s.live[events[i].worker];
      assert ClaimOk(s, c);
      ShortDelay(s, c.job);
    } else if events[i].Reconcile? {
      forall id | id in events[i].ids
        ensures Granted(s.rows[id], s.rows[id].attempts) <= 480
      {
        ShortDelay(s, id);
      }
    }
  }

  lemma ShortDelay(s: System, id: Id)
    requires JobsOk(s) && id in s.rows && s.rows[id].state.Running?
    ensures Granted(s.rows[id], s.rows[id].attempts) <= 480
  {
    SmallPowers();
    assert JobOk(s.rows[id], s.claims[id], s.waited[id]);
    assert s.rows[id].attempts in {1, 2, 3, 4, 5};
  }

  /** A completed row keeps the count of its claims for ever: the zero of the transition that completed
      it is never stored. */
  lemma CompletedKeepsAttempts(states: seq<System>, events: seq<Event>, i: nat, id: Id)
    requires Run(states, events) && i < |states|
    requires id in states[i].rows && states[i].rows[id].state.Completed?
    ensures id in states[i].claims && states[i].rows[id].attempts == states[i].claims[id] >= 1
    ensures states[i].rows[id].attempts != FinishJob().attempts
  {
    RunIsOk(states, events, i);
    assert JobOk(states[i].rows[id], states[i].claims[id], states[i].waited[id]);
  }

  lemma TerminalStays(s: System, e: Event, id: Id)
    requires Ok(s) && Enabled(s, e) && id in s.rows && Terminal(s.rows[id].state)
    ensures id in Next(s, e).rows && Next(s, e).rows[id] == s.rows[id]
  {
    if (e.Finish? || e.Fail?) {
      assert ClaimOk(s, s.live[e.worker]);
    }
  }

  /** `completed` and `failed_review` are never left, and the row never changes again. */
  lemma {:induction false} TerminalForEver(states: seq<System>, events: seq<Event>, i: nat, j: nat, id: Id)
    requires Run(states, events) && i <= j < |states|
    requires id in states[i].rows && Terminal(states[i].rows[id].state)
    ensures id in states[j].rows && states[j].rows[id] == states[i].rows[id]
  {
    if i < j {
      TerminalForEver(states, events, i, j - 1, id);
      RunIsOk(states, events, j - 1);
      TerminalStays(states[j - 1], events[j - 1], id);
    }
  }

  lemma WaitingStep(s: System, e: Event, id: Id)
    requires ClaimsOk(s) && Possible(s, e) && !(e.StartJob? && e.id == id)
    requires id in s.rows && s.rows[id].state.RetryWait?
    ensures id in Next(s, e).rows && Next(s, e).rows[id] == s.rows[id]
  {
    if e.Finish? || e.Fail? {
      assert ClaimOk(s, s.live[e.worker]);
    }
  }

  /** A waiting row does not change until somebody claims it. */
  lemma {:induction false} WaitingUntouched(states: seq<System>, events: seq<Event>, i: nat, j: nat, id: Id)
    requires Run(states, events) && i <= j < |states|
    requires id in states[i].rows && states[i].rows[id].state.RetryWait?
    requires forall k :: i <= k < j ==> !(events[k].StartJob? && events[k].id == id)
    ensures id in states[j].rows && states[j].rows[id] == states[i].rows[id]
  {
    if i < j {
      WaitingUntouched(states, events, i, j - 1, id);
      RunIsOk(states, events, j - 1);
      WaitingStep(states[j - 1], events[j - 1], id);
    }
  }

  lemma BackoffOf(s: System, e: Event, id: Id)
    requires Ok(s) && Possible(s, e) && id in s.rows && s.rows[id].state.Running? && !e.Fail?
    requires id in Next(s, e).rows && Next(s, e).rows[id].state.RetryWait?
    ensures Next(s, e).rows[id].nextAttemptAt == Some(s.now + Backoff(s.rows[id].attempts))
  {
    SmallPowers();
    assert JobOk(s.rows[id], s.claims[id], s.waited[id]);
  }

  lemma BackoffStep(s: System, e: Event, id: Id)
    requires Ok(s) && Possible(s, e) && id in s.rows && s.rows[id].state.Running?
    requires id in Next(s, e).rows && Next(s, e).rows[id].state.RetryWait?
    ensures Next(s, e).rows[id].nextAttemptAt == Some(s.now + Backoff(s.rows[id].attempts))
  {
    if e.Fail? {
      SmallPowers();
      assert JobOk(s.rows[id], s.claims[id], s.waited[id]);
      assert ClaimOk(s, s.live[e.worker]);
    } else {
      BackoffOf(s, e, id);
    }
  }

  /** A failed job is not claimed again before the whole of its uncapped backoff has passed. */
  lemma BackoffIsHonoured(states: seq<System>, events: seq<Event>, i: nat, j: nat, id: Id)
    requires Run(states, events) && i < j < |events|
    requires id in states[i].rows && states[i].rows[id].state.Running?
    requires id in states[i + 1].rows && states[i + 1].rows[id].state.RetryWait?
    requires events[j].StartJob? && events[j].id == id
    requires forall k :: i < k < j ==> !(events[k].StartJob? && events[k].id == id)
    ensures states[j].now >= states[i].now + Backoff(states[i].rows[id].attempts)
  {
    RunIsOk(states, events, i);
    BackoffStep(states[i], events[i], id);
    WaitingUntouched(states, events, i + 1, j, id);
    assert Enabled(states[j], events[j]);
  }

  lemma NobodyHoldsExpired(s: System, id: Id)
    requires ClaimsOk(s) && id in s.rows && IsLeaseExpired(s.rows[id].leaseExpiresAt, s.now)
    ensures forall w :: w in s.live ==> s.live[w].job != id
  {
    forall w | w in s.live ensures s.live[w].job != id {
      assert ClaimOk(s, s.live[w]);
    }
  }

  lemma TakenBackMovesOn(s: System, id: Id)
    requires JobsOk(s) && id in s.rows && Stuck(s.rows[id], s.now)
    ensures Enabled(s, Reconcile({id}))
    ensures var job := Next(s, Reconcile({id})).rows[id];
            job.state.RetryWait? || job.state.FailedReview?
  {
  }

  /** Once its lease has run out nobody live holds a running job, so a sweep may always take it back:
      no claim is stranded. */
  lemma NothingStranded(states: seq<System>, events: seq<Event>, i: nat, id: Id)
    requires Run(states, events) && i < |states|
    requires id in states[i].rows && states[i].rows[id].state.Running?
    requires IsLeaseExpired(states[i].rows[id].leaseExpiresAt, states[i].now)
    ensures forall w :: w in states[i].live ==> states[i].live[w].job != id
    ensures Enabled(states[i], Reconcile({id}))
    ensures var job := Next(states[i], Reconcile({id})).rows[id];
            job.state.RetryWait? || job.state.FailedReview?
  {
    RunIsOk(states, events, i);
    NobodyHoldsExpired(states[i], id);
    TakenBackMovesOn(states[i], id);
  }

  // ----- Why the lease assumption is needed -----

  /** `t` follows from `s` by these events when live handlers may outlive their lease. */
  ghost predicate Overruns(s: System, events: seq<Event>, t: System)
    decreases |events|
  {
    if events == [] then s == t
    else Possible(s, events[0]) && Overruns(Next(s, events[0]), events[1..], t)
  }

  lemma {:induction false} OverrunsChain(s: System, a: seq<Event>, t: System, b: seq<Event>, u: System)
    requires Overruns(s, a, t) && Overruns(t, b, u)
    ensures Overruns(s, a + b, u)
    decreases |a|
  {
    if a == [] {
      assert a + b == b;
    } else {
      assert (a + b)[1..] == a[1..] + b;
      OverrunsChain(Next(s, a[0]), a[1..], t, b, u);
    }
  }

  lemma OneEvent(s: System, e: Event)
    requires Possible(s, e)
    ensures Overruns(s, [e], Next(s, e))
  {
    assert [e][1..] == [];
  }

  /** The job after its first lease ran out under a worker that is still alive. */
  function TakenFromLiveWorker(key: DedupeKey): System {
    var row := Job(FetchSourcePage, key, RetryWait, 1, Some(960), None, Some(LEASE_ERROR));
    System(map[1 := row], map[1 := Claim(1, 1, 900)], 900, map[1 := 1], map[1 := 60])
  }

  /** The same job after a second worker completed it. */
  function CompletedBySecondWorker(key: DedupeKey): System {
    var row := Job(FetchSourcePage, key, Completed, 2, None, None, Some(LEASE_ERROR));
    System(map[1 := row], map[1 := Claim(1, 1, 900)], 960, map[1 := 2], map[1 := 60])
  }

  lemma FirstLeaseOverrun(key: DedupeKey)
    ensures Overruns(INITIAL, [Enqueue(1, FetchSourcePage, key)] + [StartJob(1, 1)] + [Tick(900)] + [Reconcile({1})],
                     TakenFromLiveWorker(key))
  {
    SmallPowers();
    var s1 := Next(INITIAL, Enqueue(1, FetchSourcePage, key));
    OneEvent(INITIAL, Enqueue(1, FetchSourcePage, key));
    var s2 := Next(s1, StartJob(1, 1));
    OneEvent(s1, StartJob(1, 1));
    OverrunsChain(INITIAL, [Enqueue(1, FetchSourcePage, key)], s1, [StartJob(1, 1)], s2);
    var s3 := Next(s2, Tick(900));
    OneEvent(s2, Tick(900));
    OverrunsChain(INITIAL, [Enqueue(1, FetchSourcePage, key)] + [StartJob(1, 1)], s2, [Tick(900)], s3);
    OneEvent(s3, Reconcile({1}));
    assert Next(s3, Reconcile({1})) == TakenFromLiveWorker(key);
    OverrunsChain(INITIAL, [Enqueue(1, FetchSourcePage, key)] + [StartJob(1, 1)] + [Tick(900)], s3,
                  [Reconcile({1})], TakenFromLiveWorker(key));
  }

  lemma SecondWorkerCompletes(key: DedupeKey)
    ensures Overruns(TakenFromLiveWorker(key), [Tick(960)] + [StartJob(2, 1)] + [Finish(2)],
                     CompletedBySecondWorker(key))
  {
    var s4 := TakenFromLiveWorker(key);
    var s5 := Next(s4, Tick(960));
    OneEvent(s4, Tick(960));
    var s6 := Next(s5, StartJob(2, 1));
    OneEvent(s5, StartJob(2, 1));
    OverrunsChain(s4, [Tick(960)], s5, [StartJob(2, 1)], s6);
    OneEvent(s6, Finish(2));
    assert Next(s6, Finish(2)) == CompletedBySecondWorker(key);
    OverrunsChain(s4, [Tick(960)] + [StartJob(2, 1)], s6, [Finish(2)], CompletedBySecondWorker(key));
  }

  /** Without the assumption the table alone does not protect a finished job: a worker that outlives
      its lease writes over the row another worker has completed. */
  lemma LateWorkerRevivesCompletedJob(key: DedupeKey)
    ensures exists events: seq<Event>, s: System, e: Event ::
              && Overruns(INITIAL, events, s) && Possible(s, e)
              && 1 in s.rows && s.rows[1].state == Completed
              && 1 in Next(s, e).rows && Next(s, e).rows[1].state == RetryWait
  {
    var s, e := CompletedBySecondWorker(key), Fail(1, "late");
    FirstLeaseOverrun(key);
    SecondWorkerCompletes(key);
    OverrunsChain(INITIAL,
                  [Enqueue(1, FetchSourcePage, key)] + [StartJob(1, 1)] + [Tick(900)] + [Reconcile({1})],
                  TakenFromLiveWorker(key), [Tick(960)] + [StartJob(2, 1)] + [Finish(2)], s);
    assert Possible(s, e) && Next(s, e).rows[1].state == RetryWait;
  }

  /** What a worker would have to check on the stored row before it writes: the job is unfinished, or
      the write would only repeat how it finished. */
  ghost predicate HarmlessWrite(s: System, e: Event)
    requires (e.Finish? || e.Fail?) && Possible(s, e)
  {
    var c := s.live[e.worker];
    var row := s.rows[c.job];
    || !Terminal(row.state)
    || (e.Finish? && row.state.Completed?)
    || (e.Fail? && row.state.FailedReview? && !(Retryable(row.kind) && c.attempts < MAX_ATTEMPTS))
  }

  /** Every finished job of `s` is still in its state in `t`. */
  ghost predicate FinishedStay(s: System, t: System) {
    forall id :: id in s.rows && Terminal(s.rows[id].state) ==> id in t.rows && t.rows[id].state == s.rows[id].state
  }

  /** One write leaves the finished jobs alone exactly when it passes that check. */
  lemma WriteIsHarmlessIff(s: System, e: Event)
    requires (e.Finish? || e.Fail?) && Possible(s, e)
    ensures FinishedStay(s, Next(s, e)) <==> HarmlessWrite(s, e)
  {
    var id := s.live[e.worker].job;
    assert forall j :: j in s.rows && j != id ==> Next(s, e).rows[j] == s.rows[j];
    assert id in s.rows;
  }

  lemma OthersLeaveFinished(s: System, e: Event)
    requires Possible(s, e) && !e.Finish? && !e.Fail?
    ensures FinishedStay(s, Next(s, e))
  {
  }

  /** A run in which handlers may outlive their lease. */
  ghost predicate FreeRun(states: seq<System>, events: seq<Event>) {
    && |states| == |events| + 1
    && states[0] == INITIAL
    && forall i :: 0 <= i < |events| ==> Possible(states[i], events[i]) && states[i + 1] == Next(states[i], events[i])
  }

  lemma StepLeavesFinishedIff(states: seq<System>, events: seq<Event>, k: nat)
    requires FreeRun(states, events) && k < |events|
    ensures FinishedStay(states[k], states[k + 1])
            <==> (events[k].Finish? || events[k].Fail? ==> HarmlessWrite(states[k], events[k]))
  {
    assert Possible(states[k], events[k]) && states[k + 1] == Next(states[k], events[k]);
    if events[k].Finish? || events[k].Fail? {
      WriteIsHarmlessIff(states[k], events[k]);
    } else {
      OthersLeaveFinished(states[k], events[k]);
    }
  }

  lemma {:induction false} FinishedStayAlong(states: seq<System>, events: seq<Event>, i: nat, j: nat)
    requires FreeRun(states, events) && i <= j < |states|
    requires forall k :: i <= k < j && (events[k].Finish? || events[k].Fail?) ==> HarmlessWrite(states[k], events[k])
    ensures FinishedStay(states[i], states[j])
  {
    if i < j {
      FinishedStayAlong(states, events, i, j - 1);
      StepLeavesFinishedIff(states, events, j - 1);
    }
  }

  /** Whatever the handlers do with their leases: throughout a run no job ever leaves its finished state
      exactly when every write of the run passes the check. */
  lemma FinishedStayIff(states: seq<System>, events: seq<Event>)
    requires FreeRun(states, events)
    ensures (forall i, j :: 0 <= i <= j < |states| ==> FinishedStay(states[i], states[j]))
            <==> (forall k :: 0 <= k < |events| && (events[k].Finish? || events[k].Fail?) ==>
                    HarmlessWrite(states[k], events[k]))
  {
    if forall k :: 0 <= k < |events| && (events[k].Finish? || events[k].Fail?) ==> HarmlessWrite(states[k], events[k]) {
      forall i, j | 0 <= i <= j < |states| ensures FinishedStay(states[i], states[j]) {
        FinishedStayAlong(states, events, i, j);
      }
    } else {
      var k :| 0 <= k < |events| && (events[k].Finish? || events[k].Fail?) && !HarmlessWrite(states[k], events[k]);
      StepLeavesFinishedIff(states, events, k);
      assert !FinishedStay(states[k], states[k + 1]);
    }
  }
}
