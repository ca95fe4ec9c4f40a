/** Which stored job a delivery is for (`_enqueue` and its dedupe keys, src/app/api/routes.py). A schedule
    delivers one fixed body for ever, so its key is replaced by one that names the current period. */
module Deliveries {
  import opened Wrappers
  import opened Ids
  import opened Jobs
  import opened JobStore
  import JobRuns

  datatype Cadence = Never | Weekly | QuarterHourly | Hourly

  predicate AllowedKind(kind: Kind) {
    kind.Other? ==> kind.name == "import_feed"
  }

  function CadenceOf(kind: Kind): Cadence {
    match kind
    case HarvestParsebot => Weekly
    case HarvestTavily => Weekly
    case SyncCountries => Weekly
    case RefreshStatus => QuarterHourly
    case ReverifyDue => QuarterHourly
    case SweepDueJobs => QuarterHourly
    case ReconcileStuckJobs => QuarterHourly
    case AutoApproveSweep => Hourly
    case _ => Never
  }

  function Period(c: Cadence): nat
    requires !c.Never?
  {
    match c
    case Weekly => 7 * 86400
    case QuarterHourly => 900
    case Hourly => 3600
  }

  /** Times are seconds since 1 January 1970, a Thursday; ISO weeks begin on Mondays. */
  function Bucket(c: Cadence, now: Time): int {
    match c
    case Never => 0
    case Weekly => (now / 86400 + 3) / 7
    case QuarterHourly => now / 900
    case Hourly => now / 3600
  }

  /** The texts of the keys: what the schedules' bodies carry, and what names a kind's period. */
  datatype KeyTexts = KeyTexts(scheduled: Kind -> DedupeKey, period: (Kind, int) -> DedupeKey)

  /** Every allowed kind and every period has a text of its own. */
  ghost predicate Distinct(t: KeyTexts) {
    && (forall k, l :: AllowedKind(k) && AllowedKind(l) && t.scheduled(k) == t.scheduled(l) ==> k == l)
    && (forall k, l, a, b :: AllowedKind(k) && AllowedKind(l) && t.period(k, a) == t.period(l, b) ==> k == l && a == b)
    && (forall k, l, b :: AllowedKind(k) && AllowedKind(l) ==> t.scheduled(k) != t.period(l, b))
  }

  function KeyFor(t: KeyTexts, kind: Kind, key: DedupeKey, now: Time): DedupeKey {
    if key == t.scheduled(kind) && !CadenceOf(kind).Never? then t.period(kind, Bucket(CadenceOf(kind), now))
    else key
  }

  /** Only a schedule's own body gets a key of its period, and only for the kinds that recur: the harvests and
      the countries by ISO week, the sweeps by quarter of an hour, the automatic approval by hour. */
  lemma KeyMeans(t: KeyTexts, kind: Kind, body: DedupeKey, now: Time)
    ensures KeyFor(t, kind, body, now) ==
            if body != t.scheduled(kind) then body
            else if kind in {HarvestParsebot, HarvestTavily, SyncCountries} then
              t.period(kind, (now + 259_200) / 604_800)
            else if kind in {RefreshStatus, ReverifyDue, SweepDueJobs, ReconcileStuckJobs} then
              t.period(kind, now / 900)
            else if kind == AutoApproveSweep then t.period(kind, now / 3600)
            else body
  {
    WeeksInSeconds(now);
  }

  lemma WeeksInSeconds(now: Time)
    ensures (now / 86400 + 3) / 7 == (now + 259_200) / 604_800
  {
    var w := (now + 259_200) / 604_800;
    assert 604_800 * w <= now + 259_200 < 604_800 * (w + 1);
    assert 86400 * (7 * w - 3) <= now < 86400 * (7 * w + 4);
    assert 7 * w - 3 <= now / 86400 < 7 * w + 4;
  }

  /** Periods are half-open intervals of their full length, one after the other. */
  lemma BucketIsAnInterval(c: Cadence, now: Time)
    requires !c.Never?
    ensures var start := Bucket(c, now) * Period(c) - (if c.Weekly? then 3 * 86400 else 0);
            start <= now < start + Period(c)
  {
  }

  /** Deliveries a whole period apart are never taken for one another, and the periods come in order. */
  lemma PeriodsApart(c: Cadence, s: Time, u: Time)
    requires !c.Never? && s <= u
    ensures Bucket(c, s) <= Bucket(c, u)
    ensures s + Period(c) <= u ==> Bucket(c, s) < Bucket(c, u)
  {
    BucketIsAnInterval(c, s);
    BucketIsAnInterval(c, u);
  }

  /** Two scheduled deliveries are for one job exactly when they are of one kind and of one period. */
  lemma ScheduledKeysAgreeIff(t: KeyTexts, k: Kind, l: Kind, s: Time, u: Time)
    requires Distinct(t) && AllowedKind(k) && AllowedKind(l)
    ensures KeyFor(t, k, t.scheduled(k), s) == KeyFor(t, l, t.scheduled(l), u)
            <==> k == l && Bucket(CadenceOf(k), s) == Bucket(CadenceOf(k), u)
  {
    if k == l {
      assert CadenceOf(k) == CadenceOf(l);
    }
  }

  /** A finished job of a schedule answers a later scheduled delivery, which then runs nothing, exactly
      when that delivery falls into the period the job was stored for. */
  lemma FinishedJobAnswersIff(
      t: KeyTexts, kind: Kind, stored: Time,
      states: seq<JobRuns.System>, events: seq<JobRuns.Event>, i: nat, j: nat, id: Id, later: Time)
    requires Distinct(t) && AllowedKind(kind)
    requires JobRuns.Run(states, events) && i <= j < |states|
    requires id in states[i].rows && JobRuns.Terminal(states[i].rows[id].state)
    requires states[i].rows[id].dedupeKey == KeyFor(t, kind, t.scheduled(kind), stored)
    ensures id in states[j].rows
    ensures states[j].rows[id].dedupeKey == KeyFor(t, kind, t.scheduled(kind), later)
            && !Due(states[j].rows[id], later)
            <==> Bucket(CadenceOf(kind), stored) == Bucket(CadenceOf(kind), later)
  {
    JobRuns.TerminalForEver(states, events, i, j, id);
    ScheduledKeysAgreeIff(t, kind, kind, stored, later);
  }

  /** The outbox has a schedule but no period: once its first job is finished, every later scheduled
      delivery of any run finds that job, and nothing is dispatched again. */
  lemma OutboxIsDispatchedOnce(
      t: KeyTexts, states: seq<JobRuns.System>, events: seq<JobRuns.Event>, i: nat, j: nat, id: Id, later: Time)
    requires Distinct(t)
    requires JobRuns.Run(states, events) && i <= j < |states|
    requires id in states[i].rows && JobRuns.Terminal(states[i].rows[id].state)
    requires states[i].rows[id].dedupeKey == t.scheduled(DispatchOutbox)
    ensures id in states[j].rows && !Due(states[j].rows[id], later)
    ensures KeyFor(t, DispatchOutbox, t.scheduled(DispatchOutbox), later) == states[j].rows[id].dedupeKey
  {
    FinishedJobAnswersIff(t, DispatchOutbox, later, states, events, i, j, id, later);
  }
}
