/** The re-verification sweep: which cycles it picks and what it does to them, while nobody else writes
    them (src/app/infra/freshness.py). `CycleRuns` has the interleavings. */
module ReverifySweep {
  import opened Wrappers
  import opened Status
  import opened Freshness
  import opened CycleStore

  predicate DueRow(c: CycleRow, now: Time, p: Policy) {
    IsReverifyDue(BucketOf(c, now, p), c.lastVerifiedAt, now, p.cfg)
  }

  /** The first due cycles in scan order. The scan stops as soon as it has enough of them, looking only
      after each cycle it has read. */
  method SelectDue(cycles: seq<Cycle>, limit: nat, now: Time, p: Policy) returns (due: seq<nat>)
    ensures forall n :: 0 <= n < |due| ==> due[n] < |cycles| && DueRow(cycles[due[n]].Row(), now, p)
    ensures forall m, n :: 0 <= m < n < |due| ==> due[m] < due[n]
    ensures |due| <= if limit == 0 then 1 else limit
    ensures |due| < limit ==> forall k :: 0 <= k < |cycles| && DueRow(cycles[k].Row(), now, p) ==> k in due
    ensures forall n, k :: 0 <= n < |due| && 0 <= k < due[n] && DueRow(cycles[k].Row(), now, p) ==> k in due
  {
    due := [];
    for i := 0 to |cycles|
      invariant |due| < limit || (limit == 0 && i == 0 && due == [])
      invariant forall n :: 0 <= n < |due| ==> due[n] < i && DueRow(cycles[due[n]].Row(), now, p)
      invariant forall m, n :: 0 <= m < n < |due| ==> due[m] < due[n]
      invariant forall k :: 0 <= k < i && DueRow(cycles[k].Row(), now, p) ==> k in due
    {
      var c := cycles[i];
      var bucket := ClassifyBucket(c.publicStatus, c.schedule, now, p.cfg, p.cal);
      if IsReverifyDue(bucket, c.lastVerifiedAt, now, p.cfg) {
        due := due + [i];
      }
      if |due| >= limit {
        return;
      }
    }
  }

  /** What a visit finds: the record withdrawn meanwhile, an unexpected error that is rolled back, or a
      fetch. */
  datatype Visit = Gone | Crashed | Checked(previous: Option<Hash>, page: PageRow, raised: bool)

  function AfterVisit(c: CycleRow, v: Visit, now: Time, p: Policy): CycleRow {
    match v
    case Checked(previous, page, raised) => Reverified(c, previous, page, raised, now, p)
    case _ => c
  }

  datatype Counts = Counts(checked: nat, renewed: nat, flagged: nat, deferred: nat)

  function Counted(n: Counts, c: CycleRow, v: Visit, now: Time, p: Policy): Counts {
    match v
    case Gone => n
    case Crashed => n.(checked := n.checked + 1)
    case Checked(previous, page, raised) =>
      var seen := n.(checked := n.checked + 1);
      match ReverifyOutcome(c, previous, page, raised, now, p)
      case Renewed => seen.(renewed := n.renewed + 1)
      case Flagged(_) => seen.(flagged := n.flagged + 1)
      case Deferred => seen.(deferred := n.deferred + 1)
  }

  /** What a visit counts and leaves: nothing for a record that is gone, one check for a crash, and otherwise
      one check and the counter of what the fetch decides. */
  ghost predicate Visits(
    before: CycleRow, after: CycleRow, v: Visit, start: Counts, counts: Counts, now: Time, p: Policy)
  {
    match v
    case Gone => after == before && counts == start
    case Crashed => after == before && counts == Counts(start.checked + 1, start.renewed, start.flagged, start.deferred)
    case Checked(previous, page, raised) =>
      exists o: Outcome ::
        && Decides(o, before, previous, page, raised, now, p) && Leaves(o, before, after, now)
        && counts == Counts(start.checked + 1,
                            start.renewed + if o.Renewed? then 1 else 0,
                            start.flagged + if o.Flagged? then 1 else 0,
                            start.deferred + if o.Deferred? then 1 else 0)
  }

  lemma VisitVisits(c: CycleRow, v: Visit, start: Counts, now: Time, p: Policy)
    ensures Visits(c, AfterVisit(c, v, now, p), v, start, Counted(start, c, v, now, p), now, p)
  {
    if v.Checked? {
      OutcomeOfReverify(c, v.previous, v.page, v.raised, now, p);
    }
  }

  ghost function Totals(rows: seq<CycleRow>, visits: seq<Visit>, now: Time, p: Policy): Counts
    requires |rows| == |visits|
  {
    if rows == [] then Counts(0, 0, 0, 0)
    else
      var n := |rows| - 1;
      Counted(Totals(rows[..n], visits[..n], now, p), rows[n], visits[n], now, p)
  }

  ghost function CrashedCount(visits: seq<Visit>): nat {
    if visits == [] then 0 else CrashedCount(visits[..|visits| - 1]) + if visits[|visits| - 1].Crashed? then 1 else 0
  }

  ghost function GoneCount(visits: seq<Visit>): nat {
    if visits == [] then 0 else GoneCount(visits[..|visits| - 1]) + if visits[|visits| - 1].Gone? then 1 else 0
  }

  /** Every selected cycle is gone, crashed, renewed, flagged or deferred, and exactly one of these. */
  lemma {:induction false} CountsAddUp(rows: seq<CycleRow>, visits: seq<Visit>, now: Time, p: Policy)
    requires |rows| == |visits|
    ensures var n := Totals(rows, visits, now, p);
            && n.checked + GoneCount(visits) == |visits|
            && n.renewed + n.flagged + n.deferred + CrashedCount(visits) == n.checked
  {
    if rows != [] {
      var n := |rows| - 1;
      CountsAddUp(rows[..n], visits[..n], now, p);
    }
  }

  lemma OneMoreVisit(rows: seq<CycleRow>, visits: seq<Visit>, i: nat, now: Time, p: Policy)
    requires |rows| == |visits| && i < |rows|
    ensures Totals(rows[..i + 1], visits[..i + 1], now, p) ==
            Counted(Totals(rows[..i], visits[..i], now, p), rows[i], visits[i], now, p)
  {
    assert rows[..i + 1][..i] == rows[..i] && visits[..i + 1][..i] == visits[..i];
  }

  /** One visit; the flagged cycle's reviewer task is opened by the caller. */
  method VisitCycle(c: Cycle, v: Visit, now: Time, p: Policy, start: Counts) returns (counts: Counts)
    modifies c
    ensures c.Row() == AfterVisit(old(c.Row()), v, now, p)
    ensures counts == Counted(start, old(c.Row()), v, now, p)
    ensures Visits(old(c.Row()), c.Row(), v, start, counts, now, p)
  {
    VisitVisits(c.Row(), v, start, now, p);
    counts := start;
    if v.Gone? {
      return;
    }
    counts := counts.(checked := counts.checked + 1);
    if v.Crashed? {
      return;
    }
    var outcome := c.ApplyReverify(v.previous, v.page, v.raised, now, p);
    match outcome
    case Renewed => counts := counts.(renewed := counts.renewed + 1);
    case Flagged(_) => counts := counts.(flagged := counts.flagged + 1);
    case Deferred => counts := counts.(deferred := counts.deferred + 1);
  }

  /** The loop over the selected cycles: each is treated by its own visit whatever happens to the others,
      and the counters are the totals. */
  method ReverifyEach(due: seq<Cycle>, visits: seq<Visit>, now: Time, p: Policy) returns (counts: Counts)
    requires Distinct(due) && |visits| == |due|
    modifies due
    ensures forall i :: 0 <= i < |due| ==> due[i].Row() == AfterVisit(old(due[i].Row()), visits[i], now, p)
    ensures counts == Totals(old(Rows(due)), visits, now, p)
  {
    counts := Counts(0, 0, 0, 0);
    ghost var before := Rows(due);
    for i := 0 to |due|
      invariant counts == Totals(before[..i], visits[..i], now, p)
      invariant forall k :: 0 <= k < i ==> due[k].Row() == AfterVisit(before[k], visits[k], now, p)
      invariant forall k :: i <= k < |due| ==> due[k].Row() == before[k]
    {
      OneMoreVisit(before, visits, i, now, p);
      counts := VisitCycle(due[i], visits[i], now, p, counts);
    }
    assert before[..|due|] == before && visits[..|due|] == visits;
  }
}
