/** What the two freshness jobs, a reviewer's writes and a withdrawal do to a published cycle
    (src/app/infra/freshness.py, publication.py, withdrawals.py, source_persistence.py). */
module CycleStore {
  import opened Wrappers
  import opened Status
  import opened Freshness
  import Invariants

  /** The fields of one cycle that these writers touch. */
  datatype CycleRow = CycleRow(
    status: PublicStatus,
    validUntil: Option<Time>,
    lastVerifiedAt: Option<Time>,
    createdAt: Time,
    schedule: Schedule,
    autoDowngraded: bool)

  datatype Policy = Policy(cfg: Config, cal: Calendar)

  function BucketOf(c: CycleRow, now: Time, p: Policy): Bucket {
    ClassifyBucket(c.status, c.schedule, now, p.cfg, p.cal)
  }

  function ReadStatus(c: CycleRow, now: Time, p: Policy): PublicStatus {
    EvaluatePublicStatus(c.status, c.schedule, c.validUntil, now, p.cal)
  }

  /** The instant the current evidence goes stale, seen from `now`. */
  function EvidenceDeadline(c: CycleRow, now: Time, p: Policy): Time {
    (if c.lastVerifiedAt.Some? then c.lastVerifiedAt.value else c.createdAt)
    + MaxEvidenceAge(BucketOf(c, now, p), p.cfg)
  }

  predicate Stale(c: CycleRow, now: Time, p: Policy) {
    EvidenceDeadline(c, now, p) <= now
  }

  function Earliest(a: Time, b: Option<Time>): Time {
    if b.Some? && b.value < a then b.value else a
  }

  // ----- refresh_status -----

  function Refreshed(c: CycleRow, now: Time, p: Policy): CycleRow {
    var lapsed := ReadStatus(c, now, p).StatusUnknown?;
    var downgradingForStaleness := !lapsed && c.status.OpenVerified? && Stale(c, now, p);
    c.(status := if lapsed || downgradingForStaleness then StatusUnknown else c.status,
       validUntil :=
         if c.status.OpenVerified? then Some(Earliest(EvidenceDeadline(c, now, p), Cutoff(c.schedule, p.cal)))
         else c.validUntil,
       autoDowngraded := c.autoDowngraded || downgradingForStaleness)
  }

  /** The last evidence, or the publication if there is none, is as old as its bucket allows. */
  predicate TooOld(c: CycleRow, now: Time, p: Policy) {
    var anchor := if c.lastVerifiedAt.Some? then c.lastVerifiedAt.value else c.createdAt;
    now - anchor >= MaxEvidenceAge(ClassifyBucket(c.status, c.schedule, now, p.cfg, p.cal), p.cfg)
  }

  predicate DeadlineAhead(c: CycleRow, now: Time, p: Policy) {
    c.schedule.deadlineAt.None?
    || now < DeadlineCutoff(c.schedule.deadlineAt.value, c.schedule.precision, c.schedule.timezone, p.cal)
  }

  /** The whole of a tick, which touches open cycles only: past the deadline or the validity they become
      unknown, and so they do once the evidence is too old, which alone raises the flag; and their validity
      becomes the end of the evidence's life or the cutoff, whichever is first. */
  ghost predicate Ticks(before: CycleRow, after: CycleRow, now: Time, p: Policy) {
    var over := !DeadlineAhead(before, now, p) || (before.validUntil.Some? && before.validUntil.value <= now);
    var anchor := if before.lastVerifiedAt.Some? then before.lastVerifiedAt.value else before.createdAt;
    var end := anchor + MaxEvidenceAge(ClassifyBucket(before.status, before.schedule, now, p.cfg, p.cal), p.cfg);
    && after.lastVerifiedAt == before.lastVerifiedAt && after.createdAt == before.createdAt
    && after.schedule == before.schedule
    && if !before.status.OpenVerified? then
         after.status == before.status && after.validUntil == before.validUntil
         && after.autoDowngraded == before.autoDowngraded
       else
         && after.status == (if over || TooOld(before, now, p) then StatusUnknown else OpenVerified)
         && after.autoDowngraded == (before.autoDowngraded || (!over && TooOld(before, now, p)))
         && after.validUntil.Some? && after.validUntil.value <= end
         && (after.validUntil.value == end
             || (before.schedule.deadlineAt.Some?
                 && after.validUntil.value ==
                    DeadlineCutoff(before.schedule.deadlineAt.value, before.schedule.precision,
                                   before.schedule.timezone, p.cal)))
         && (before.schedule.deadlineAt.Some? ==>
               after.validUntil.value <= DeadlineCutoff(before.schedule.deadlineAt.value, before.schedule.precision,
                                                        before.schedule.timezone, p.cal))
  }

  /** After a tick the stored status is what a read at that instant says: open exactly when it read
      open and its evidence was not stale. A second tick at the same instant changes nothing. */
  lemma RefreshSettles(c: CycleRow, now: Time, p: Policy)
    ensures var after := Refreshed(c, now, p);
            && after.status == ReadStatus(after, now, p)
            && (after.status.OpenVerified? <==> ReadStatus(c, now, p).OpenVerified? && !Stale(c, now, p))
            && (after.status.ExpectedToReopen? <==> c.status.ExpectedToReopen?)
            && Refreshed(after, now, p) == after
            && Ticks(c, after, now, p)
  {
  }

  /** Until the next write, a read that says open comes before both the deadline's cutoff and the end
      of the evidence's life as the tick saw it. */
  lemma OpenUntilEvidenceEnds(c: CycleRow, tick: Time, read: Time, p: Policy)
    requires Refreshed(c, tick, p).status.OpenVerified?
    ensures ReadStatus(Refreshed(c, tick, p), read, p).OpenVerified?
            <==> read < EvidenceDeadline(c, tick, p) && !Passed(Cutoff(c.schedule, p.cal), read)
  {
  }

  // ----- reverify_due -----

  datatype Fetch = Unreachable | Fetched(httpStatus: int, hash: Hash)

  datatype PageRow = PageRow(hash: Option<Hash>, httpStatus: Option<int>)

  /** A fetch that raises leaves the page alone; any response, an error page included, overwrites the
      stored hash. */
  function Persisted(page: PageRow, fetch: Fetch): PageRow {
    match fetch
    case Unreachable => page
    case Fetched(status, hash) => PageRow(Some(hash), Some(status))
  }

  datatype Outcome = Renewed | Flagged(reason: string) | Deferred

  predicate FetchOk(page: PageRow) {
    page.hash.Some? && page.httpStatus.Some? && 200 <= page.httpStatus.value < 400
  }

  function DeferOrFlag(c: CycleRow, now: Time, p: Policy, reason: string): Outcome {
    if EvidenceDeadline(c, now, p) > now then Deferred else Flagged(reason)
  }

  predicate DeadlineStillValid(c: CycleRow, now: Time, p: Policy) {
    !Passed(Cutoff(c.schedule, p.cal), now)
  }

  /** The page was fetched successfully, its content is what it was, and the deadline is ahead. */
  predicate Unchanged(c: CycleRow, previous: Option<Hash>, page: PageRow, now: Time, p: Policy) {
    FetchOk(page)
    && IsUnchangedRecheck(previous, page.hash.value, page.httpStatus.value, DeadlineStillValid(c, now, p))
  }

  /** A successful recheck renews the evidence, and undoes a downgrade made for staleness alone. */
  function RenewedRow(c: CycleRow, now: Time): CycleRow {
    var renewed := c.(lastVerifiedAt := Some(now));
    if c.status.StatusUnknown? && c.autoDowngraded then
      renewed.(status := OpenVerified, autoDowngraded := false)
    else renewed
  }

  function ReverifyOutcome(
    c: CycleRow, previous: Option<Hash>, page: PageRow, raised: bool, now: Time, p: Policy): Outcome
  {
    if raised then DeferOrFlag(c, now, p, "reverify_fetch_failed")
    else if previous.None? || !FetchOk(page) then
      DeferOrFlag(c, now, p, if !FetchOk(page) then "reverify_link_unreachable" else "reverify_first_observation")
    else if Unchanged(c, previous, page, now, p) then Renewed
    else if previous != page.hash then Flagged("reverify_content_changed")
    else Deferred
  }

  function Reverified(
    c: CycleRow, previous: Option<Hash>, page: PageRow, raised: bool, now: Time, p: Policy): CycleRow
  {
    if ReverifyOutcome(c, previous, page, raised, now, p).Renewed? then RenewedRow(c, now) else c
  }

  /** What one recheck found. */
  predicate GoodFetch(page: PageRow) {
    page.hash.Some? && page.httpStatus.Some? && page.httpStatus.value >= 200 && page.httpStatus.value <= 399
  }

  /** The whole of a recheck's outcome. It flags a fetch that failed or had nothing to compare with once the
      evidence is too old, and a good fetch with other content at any age; it renews a good fetch with the
      same content while the deadline is ahead; and it defers whatever is left. */
  ghost predicate Decides(
    o: Outcome, c: CycleRow, previous: Option<Hash>, page: PageRow, raised: bool, now: Time, p: Policy)
  {
    var compared := !raised && previous.Some? && GoodFetch(page);
    && (o.Flagged? <==> if compared then page.hash != previous else TooOld(c, now, p))
    && (o.Renewed? <==> compared && page.hash == previous && DeadlineAhead(c, now, p))
    && (o.Flagged? ==> o.reason == if compared then "reverify_content_changed"
                                   else if raised then "reverify_fetch_failed"
                                   else if !GoodFetch(page) then "reverify_link_unreachable"
                                   else "reverify_first_observation")
  }

  /** What the outcome leaves of the row: only a renewal touches it, and opens only what a tick had
      downgraded for staleness. */
  ghost predicate Leaves(o: Outcome, before: CycleRow, after: CycleRow, now: Time) {
    var restored := o.Renewed? && before.status.StatusUnknown? && before.autoDowngraded;
    && after.lastVerifiedAt == (if o.Renewed? then Some(now) else before.lastVerifiedAt)
    && after.status == (if restored then OpenVerified else before.status)
    && after.autoDowngraded == (before.autoDowngraded && !restored)
    && after.validUntil == before.validUntil && after.schedule == before.schedule
    && after.createdAt == before.createdAt
  }

  lemma OutcomeOfReverify(c: CycleRow, previous: Option<Hash>, page: PageRow, raised: bool, now: Time, p: Policy)
    ensures var o := ReverifyOutcome(c, previous, page, raised, now, p);
            && Decides(o, c, previous, page, raised, now, p)
            && Leaves(o, c, Reverified(c, previous, page, raised, now, p), now)
  {
  }

  /** A restored cycle reads as open exactly when its stored validity lies in the future. The restore
      itself does not renew that validity. */
  lemma RestoreIsVisibleIff(c: CycleRow, previous: Option<Hash>, page: PageRow, now: Time, p: Policy)
    requires c.status.StatusUnknown? && c.autoDowngraded && Unchanged(c, previous, page, now, p)
    ensures var after := Reverified(c, previous, page, false, now, p);
            && after.status.OpenVerified? && !after.autoDowngraded
            && (ReadStatus(after, now, p).OpenVerified? <==> !Passed(c.validUntil, now))
            && (Passed(c.validUntil, now) ==>
                  Refreshed(after, now, p).status.StatusUnknown? && !Refreshed(after, now, p).autoDowngraded)
  {
  }

  /** An error page overwrites the hash a page had, so a single failed fetch is not forgotten: when the
      next recheck finds the page as it was, content is reported as changed exactly when the error page
      read differently, whatever the age of the evidence. */
  lemma ErrorPageFlagsIff(
    c: CycleRow, page: PageRow, good: Hash, error: Hash, okStatus: int, badStatus: int, now: Time, p: Policy)
    requires page.hash == Some(good) && 200 <= okStatus < 400 && !(200 <= badStatus < 400)
    ensures var broken := Persisted(page, Fetched(badStatus, error));
            var healed := Persisted(broken, Fetched(okStatus, good));
            && (!Stale(c, now, p) ==> ReverifyOutcome(c, page.hash, broken, false, now, p) == Deferred)
            && healed.hash == page.hash
            && (ReverifyOutcome(c, broken.hash, healed, false, now, p) == Flagged("reverify_content_changed")
                <==> error != good)
  {
  }

  // ----- A reviewer's edit and a withdrawal -----

  /** An edit writes what it is given and leaves `autoDowngraded` as it was. */
  function Edited(
    c: CycleRow, status: PublicStatus, validUntil: Option<Time>, lastVerifiedAt: Option<Time>,
    schedule: Schedule): CycleRow
  {
    c.(status := status, validUntil := validUntil, lastVerifiedAt := lastVerifiedAt, schedule := schedule)
  }

  function WithdrawnRow(c: CycleRow): CycleRow {
    c.(status := StatusUnknown, validUntil := None)
  }

  /** `autoDowngraded` is meant to hold only of a cycle whose status is unknown. */
  predicate FlagMeansUnknown(c: CycleRow) {
    c.autoDowngraded ==> c.status.StatusUnknown?
  }

  // ----- The records themselves -----

  class Cycle {
    var publicStatus: PublicStatus
    var statusValidUntil: Option<Time>
    var lastVerifiedAt: Option<Time>
    const createdAt: Time
    var schedule: Schedule
    var autoDowngraded: bool

    ghost function Row(): CycleRow
      reads this
    {
      CycleRow(publicStatus, statusValidUntil, lastVerifiedAt, createdAt, schedule, autoDowngraded)
    }

    /** A freshly published cycle has never been downgraded. */
    constructor (status: PublicStatus, validUntil: Option<Time>, verifiedAt: Option<Time>, now: Time,
                 schedule: Schedule)
      ensures Row() == CycleRow(status, validUntil, verifiedAt, now, schedule, false)
    {
      publicStatus, statusValidUntil, lastVerifiedAt := status, validUntil, verifiedAt;
      createdAt, this.schedule, autoDowngraded := now, schedule, false;
    }

    /** Re-evaluates the stored status in place; true exactly when it changed. */
    method RefreshOneStatus(now: Time, p: Policy) returns (changed: bool)
      modifies this
      ensures Row() == Refreshed(old(Row()), now, p)
      ensures changed <==> publicStatus != old(publicStatus)
      ensures Ticks(old(Row()), Row(), now, p)
    {
      RefreshSettles(Row(), now, p);
      var bucket := ClassifyBucket(publicStatus, schedule, now, p.cfg, p.cal);
      var evaluated := EvaluatePublicStatus(publicStatus, schedule, statusValidUntil, now, p.cal);
      var anchor := if lastVerifiedAt.Some? then lastVerifiedAt.value else createdAt;
      var evidenceDeadline := anchor + MaxEvidenceAge(bucket, p.cfg);
      var targetStatus, downgradingForStaleness := publicStatus, false;
      if evaluated.StatusUnknown? {
        targetStatus := StatusUnknown;
      } else if publicStatus.OpenVerified? && evidenceDeadline <= now {
        targetStatus, downgradingForStaleness := StatusUnknown, true;
      }
      if publicStatus.OpenVerified? {
        statusValidUntil := Some(Earliest(evidenceDeadline, Cutoff(schedule, p.cal)));
      }
      if targetStatus != publicStatus {
        publicStatus := targetStatus;
        if downgradingForStaleness {
          autoDowngraded := true;
        }
        return true;
      }
      return false;
    }

    /** The second half of one recheck, once the page has been fetched and stored. */
    method ApplyReverify(previous: Option<Hash>, page: PageRow, raised: bool, now: Time, p: Policy)
      returns (outcome: Outcome)
      modifies this
      ensures Row() == Reverified(old(Row()), previous, page, raised, now, p)
      ensures outcome == ReverifyOutcome(old(Row()), previous, page, raised, now, p)
      ensures Decides(outcome, old(Row()), previous, page, raised, now, p) && Leaves(outcome, old(Row()), Row(), now)
    {
      OutcomeOfReverify(Row(), previous, page, raised, now, p);
      var bucket := ClassifyBucket(publicStatus, schedule, now, p.cfg, p.cal);
      var anchor := if lastVerifiedAt.Some? then lastVerifiedAt.value else createdAt;
      var stale := anchor + MaxEvidenceAge(bucket, p.cfg) <= now;
      if raised {
        return if stale then Flagged("reverify_fetch_failed") else Deferred;
      }
      if previous.None? || !FetchOk(page) {
        var reason := if !FetchOk(page) then "reverify_link_unreachable" else "reverify_first_observation";
        return if stale then Flagged(reason) else Deferred;
      }
      var deadlineStillValid := !Passed(Cutoff(schedule, p.cal), now);
      if IsUnchangedRecheck(previous, page.hash.value, page.httpStatus.value, deadlineStillValid) {
        lastVerifiedAt := Some(now);
        if publicStatus.StatusUnknown? && autoDowngraded {
          publicStatus, autoDowngraded := OpenVerified, false;
        }
        return Renewed;
      }
      return if previous != page.hash then Flagged("reverify_content_changed") else Deferred;
    }

    /** `update_cycle`. */
    method Update(status: PublicStatus, validUntil: Option<Time>, verifiedAt: Option<Time>, newSchedule: Schedule)
      modifies this
      ensures Row() == Edited(old(Row()), status, validUntil, verifiedAt, newSchedule)
      ensures publicStatus == status && statusValidUntil == validUntil && lastVerifiedAt == verifiedAt
      ensures schedule == newSchedule && autoDowngraded == old(autoDowngraded)
    {
      publicStatus, statusValidUntil, lastVerifiedAt, schedule := status, validUntil, verifiedAt, newSchedule;
    }
  }

  ghost predicate Distinct(cycles: seq<Cycle>) {
    forall i, j :: 0 <= i < j < |cycles| ==> cycles[i] != cycles[j]
  }

  /** How many of these rows a tick moves to another status; `raises` marks those whose evaluation raises. */
  ghost function Downgrades(rows: seq<CycleRow>, raises: seq<bool>, now: Time, p: Policy): nat
    requires |raises| == |rows|
  {
    if rows == [] then 0
    else
      var n := |rows| - 1;
      Downgrades(rows[..n], raises[..n], now, p)
      + (if !raises[n] && Refreshed(rows[n], now, p).status != rows[n].status then 1 else 0)
  }

  /** Which rows end with another status than they had. */
  ghost function Changes(rows: seq<CycleRow>, raises: seq<bool>, now: Time, p: Policy): seq<bool>
    requires |raises| == |rows|
  {
    seq(|rows|, i requires 0 <= i < |rows| => !raises[i] && Refreshed(rows[i], now, p).status != rows[i].status)
  }

  lemma {:induction false} DowngradesAreNumbers(rows: seq<CycleRow>, raises: seq<bool>, now: Time, p: Policy)
    requires |raises| == |rows|
    ensures Downgrades(rows, raises, now, p) ==
            |Invariants.Places(Changes(rows, raises, now, p), (changed: bool) => changed)|
  {
    if rows != [] {
      var n := |rows| - 1;
      DowngradesAreNumbers(rows[..n], raises[..n], now, p);
      assert Changes(rows, raises, now, p)[..n] == Changes(rows[..n], raises[..n], now, p);
      Invariants.OneMorePlace(Changes(rows, raises, now, p), (changed: bool) => changed);
    }
  }

  ghost function Rows(cycles: seq<Cycle>): (rows: seq<CycleRow>)
    reads cycles
    ensures |rows| == |cycles| && forall i :: 0 <= i < |cycles| ==> rows[i] == cycles[i].Row()
  {
    seq(|cycles|, i requires 0 <= i < |cycles| reads cycles => cycles[i].Row())
  }

  /** The refresh sweep over the rows it locked: a row whose evaluation raises is left as it is, every other
      one settles, and the counters say how many were looked at and how many changed. */
  method RefreshDueStatuses(cycles: seq<Cycle>, raises: seq<bool>, now: Time, p: Policy)
    returns (checked: nat, downgraded: nat)
    requires Distinct(cycles) && |raises| == |cycles|
    modifies cycles
    ensures forall i :: 0 <= i < |cycles| ==>
              cycles[i].Row() == if raises[i] then old(cycles[i].Row()) else Refreshed(old(cycles[i].Row()), now, p)
    ensures checked == |cycles| && downgraded == Downgrades(old(Rows(cycles)), raises, now, p)
  {
    checked, downgraded := 0, 0;
    ghost var before := Rows(cycles);
    for i := 0 to |cycles|
      invariant checked == i && downgraded == Downgrades(before[..i], raises[..i], now, p)
      invariant forall k :: 0 <= k < i ==>
                  cycles[k].Row() == if raises[k] then before[k] else Refreshed(before[k], now, p)
      invariant forall k :: i <= k < |cycles| ==> cycles[k].Row() == before[k]
    {
      checked := checked + 1;
      var changed := false;
      if !raises[i] {
        changed := cycles[i].RefreshOneStatus(now, p);
      }
      assert before[..i + 1][..i] == before[..i] && raises[..i + 1][..i] == raises[..i];
      if changed {
        downgraded := downgraded + 1;
      }
    }
    assert before[..|cycles|] == before && raises[..|cycles|] == raises;
  }

  /** A withdrawal stops every cycle of the record from claiming anything. */
  method WithdrawCycles(cycles: seq<Cycle>) returns (affected: nat)
    requires Distinct(cycles)
    modifies cycles
    ensures affected == |cycles|
    ensures forall i :: 0 <= i < |cycles| ==> cycles[i].Row() == WithdrawnRow(old(cycles[i].Row()))
    ensures forall i :: 0 <= i < |cycles| ==>
              cycles[i].Row() == old(cycles[i].Row()).(status := StatusUnknown, validUntil := None)
  {
    for i := 0 to |cycles|
      invariant forall k :: 0 <= k < i ==> cycles[k].Row() == WithdrawnRow(old(cycles[k].Row()))
      invariant forall k :: i <= k < |cycles| ==> cycles[k].Row() == old(cycles[k].Row())
    {
      cycles[i].publicStatus := StatusUnknown;
      cycles[i].statusValidUntil := None;
    }
    return |cycles|;
  }
}
