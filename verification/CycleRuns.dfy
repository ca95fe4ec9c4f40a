/** Every interleaving of publishing, editing, both freshness sweeps, withdrawals and time.

    One recheck reads what the page held, then commits the fetched page, which ends the lock on the
    cycle, reads the page again, and writes its verdict later still, with the time at which the sweep
    began. Anything may happen in between, other rechecks of the same cycle or page included. A refresh,
    too, writes with the time at which it began. */
module CycleRuns {
  import opened Wrappers
  import opened Ids
  import opened Status
  import opened Freshness
  import opened CycleStore

  datatype Lifecycle = NeedsReview | Published | Withdrawn

  datatype Record = Record(scholarship: Id, page: Id, row: CycleRow)

  /** A recheck before its fetch, before it reads the page again, and before its verdict. */
  datatype Recheck =
    | Looking(cycle: Id, previous: Option<Hash>, began: Time)
    | Rereading(cycle: Id, previous: Option<Hash>, began: Time)
    | Judging(cycle: Id, previous: Option<Hash>, page: PageRow, raised: bool, began: Time)

  datatype World = World(
    scholarships: map<Id, Lifecycle>, cycles: map<Id, Record>, pages: map<Id, PageRow>,
    rechecks: map<nat, Recheck>, now: Time)

  datatype Event =
    | Approve(scholarship: Id)
    | Publish(cycle: Id, scholarship: Id, page: Id, status: PublicStatus, validUntil: Option<Time>,
              lastVerifiedAt: Option<Time>, schedule: Schedule)
    | Edit(cycle: Id, newStatus: PublicStatus, newValidUntil: Option<Time>,
           newVerifiedAt: Option<Time>, newSchedule: Schedule)
    | Refresh(cycles: set<Id>, began: Time)
    | Look(recheck: nat, cycle: Id, began: Time)
    | FetchPage(recheck: nat, fetch: Fetch)
    | Reread(recheck: nat)
    | Conclude(recheck: nat)
    | Withdraw(scholarship: Id)
    | Tick(to: Time)

  const START := World(map[], map[], map[], map[], 0)

  predicate IsPublished(w: World, cycle: Id) {
    cycle in w.cycles && w.cycles[cycle].scholarship in w.scholarships
    && w.scholarships[w.cycles[cycle].scholarship].Published?
  }

  /** Publishing and editing refuse a withdrawn record; both sweeps look at published records only. */
  predicate Enabled(w: World, e: Event) {
    match e
    case Approve(s) => s !in w.scholarships
    case Publish(c, s, _, _, _, _, _) => c !in w.cycles && s in w.scholarships && !w.scholarships[s].Withdrawn?
    case Edit(c, _, _, _, _) =>
      c in w.cycles && w.cycles[c].scholarship in w.scholarships
      && !w.scholarships[w.cycles[c].scholarship].Withdrawn?
    case Refresh(cs, began) => began <= w.now && forall c :: c in cs ==> IsPublished(w, c)
    case Look(r, c, began) => IsPublished(w, c) && r !in w.rechecks && began <= w.now
    case FetchPage(r, _) => r in w.rechecks && w.rechecks[r].Looking? && w.rechecks[r].cycle in w.cycles
    case Reread(r) => r in w.rechecks && w.rechecks[r].Rereading? && w.rechecks[r].cycle in w.cycles
    case Conclude(r) => r in w.rechecks && w.rechecks[r].Judging? && w.rechecks[r].cycle in w.cycles
    case Withdraw(s) => s in w.scholarships && !w.scholarships[s].Withdrawn?
    case Tick(to) => w.now <= to
  }

  function PageOf(w: World, page: Id): PageRow {
    if page in w.pages then w.pages[page] else PageRow(None, None)
  }

  function WithRow(w: World, cycle: Id, row: CycleRow): World
    requires cycle in w.cycles
  {
    w.(cycles := w.cycles[cycle := w.cycles[cycle].(row := row)])
  }

  function Next(w: World, e: Event, p: Policy): World
    requires Enabled(w, e)
  {
    match e
    case Approve(s) => w.(scholarships := w.scholarships[s := NeedsReview])
    case Publish(c, s, page, status, validUntil, verifiedAt, schedule) =>
      w.(scholarships := w.scholarships[s := Published],
         cycles := w.cycles[c := Record(s, page, CycleRow(status, validUntil, verifiedAt, w.now, schedule, false))])
    case Edit(c, status, validUntil, verifiedAt, schedule) =>
      WithRow(w, c, Edited(w.cycles[c].row, status, validUntil, verifiedAt, schedule))
    case Refresh(cs, began) =>
      w.(cycles := map c | c in w.cycles ::
                     if c in cs then w.cycles[c].(row := Refreshed(w.cycles[c].row, began, p)) else w.cycles[c])
    case Look(r, c, began) =>
      w.(rechecks := w.rechecks[r := Looking(c, PageOf(w, w.cycles[c].page).hash, began)])
    case FetchPage(r, fetch) =>
      var look := w.rechecks[r];
      var page := w.cycles[look.cycle].page;
      var after := Persisted(PageOf(w, page), fetch);
      w.(pages := w.pages[page := after],
         rechecks := w.rechecks[r := if fetch.Unreachable?
                                     then Judging(look.cycle, look.previous, after, true, look.began)
                                     else Rereading(look.cycle, look.previous, look.began)])
    case Reread(r) =>
      var f := w.rechecks[r];
      var page := PageOf(w, w.cycles[f.cycle].page);
      w.(rechecks := w.rechecks[r := Judging(f.cycle, f.previous, page, false, f.began)])
    case Conclude(r) =>
      var f := w.rechecks[r];
      var row := Reverified(w.cycles[f.cycle].row, f.previous, f.page, f.raised, f.began, p);
      WithRow(w, f.cycle, row).(rechecks := w.rechecks - {r})
    case Withdraw(s) =>
      w.(scholarships := w.scholarships[s := Withdrawn],
         cycles := map c | c in w.cycles ::
                     if w.cycles[c].scholarship == s then w.cycles[c].(row := WithdrawnRow(w.cycles[c].row))
                     else w.cycles[c])
    case Tick(to) => w.(now := to)
  }

  ghost predicate Run(ws: seq<World>, es: seq<Event>, p: Policy) {
    && |ws| == |es| + 1
    && ws[0] == START
    && forall i :: 0 <= i < |es| ==> Enabled(ws[i], es[i]) && ws[i + 1] == Next(ws[i], es[i], p)
  }

  /** What a fresh read shows of a cycle, evaluated when it is read: nothing unless its record is published.
      Replayed search pages are stored reads; they are in `Replays`. */
  function Shown(w: World, cycle: Id, p: Policy): Option<Detail> {
    if !IsPublished(w, cycle) then None
    else
      var row := w.cycles[cycle].row;
      Some(EvaluateStatusDetail(ReadStatus(row, w.now, p), row.schedule, w.now, p.cal))
  }

  predicate ShownOpen(w: World, cycle: Id, p: Policy) {
    Shown(w, cycle, p) == Some(Open) || Shown(w, cycle, p) == Some(ClosingSoon)
  }

  // ----- Withdrawal is final -----

  lemma CycleStep(w: World, e: Event, p: Policy, c: Id)
    requires Enabled(w, e) && c in w.cycles
    ensures c in Next(w, e, p).cycles && Next(w, e, p).cycles[c].scholarship == w.cycles[c].scholarship
    ensures w.now <= Next(w, e, p).now
  {
  }

  lemma {:induction false} CyclesStay(ws: seq<World>, es: seq<Event>, p: Policy, i: nat, j: nat, c: Id)
    requires Run(ws, es, p) && i <= j < |ws| && c in ws[i].cycles
    ensures c in ws[j].cycles && ws[j].cycles[c].scholarship == ws[i].cycles[c].scholarship
    ensures ws[i].now <= ws[j].now
  {
    if i < j {
      CyclesStay(ws, es, p, i, j - 1, c);
      CycleStep(ws[j - 1], es[j - 1], p, c);
    }
  }

  lemma {:induction false} WithdrawnStays(ws: seq<World>, es: seq<Event>, p: Policy, i: nat, j: nat, s: Id)
    requires Run(ws, es, p) && i <= j < |ws| && s in ws[i].scholarships && ws[i].scholarships[s].Withdrawn?
    ensures s in ws[j].scholarships && ws[j].scholarships[s].Withdrawn?
  {
    if i < j {
      WithdrawnStays(ws, es, p, i, j - 1, s);
      assert Enabled(ws[j - 1], es[j - 1]);
    }
  }

  /** In every state, what is shown as open or closing soon belongs to a published record and is before
      its cutoff and before its validity ends; and in every run nothing of a record is ever shown again
      after it was withdrawn. */
  lemma OpenIsAlwaysInTime(ws: seq<World>, es: seq<Event>, p: Policy, i: nat, j: nat, c: Id)
    requires Run(ws, es, p) && i <= j < |ws| && c in ws[i].cycles
    ensures ShownOpen(ws[j], c, p) ==>
              && IsPublished(ws[j], c)
              && var row := ws[j].cycles[c].row;
                 row.status.OpenVerified? && !Passed(Cutoff(row.schedule, p.cal), ws[j].now)
                 && !Passed(row.validUntil, ws[j].now)
    ensures var s := ws[i].cycles[c].scholarship;
            s in ws[i].scholarships && ws[i].scholarships[s].Withdrawn? ==> Shown(ws[j], c, p) == None
  {
    CyclesStay(ws, es, p, i, j, c);
    var s := ws[i].cycles[c].scholarship;
    if s in ws[i].scholarships && ws[i].scholarships[s].Withdrawn? {
      WithdrawnStays(ws, es, p, i, j, s);
    }
  }

  // ----- Runs in which no reviewer edits the cycle -----

  predicate Edits(e: Event, c: Id) {
    e.Edit? && e.cycle == c
  }

  ghost predicate NoEdits(es: seq<Event>, c: Id) {
    forall i :: 0 <= i < |es| ==> !Edits(es[i], c)
  }

  /** A downgrade for staleness leaves the flag up, the status unknown and the validity in the past
      (or cleared by a withdrawal). */
  predicate FlagOk(w: World, c: Id)
    requires c in w.cycles
  {
    var row := w.cycles[c].row;
    row.autoDowngraded ==>
      row.status.StatusUnknown?
      && (Passed(row.validUntil, w.now)
          || (w.cycles[c].scholarship in w.scholarships && w.scholarships[w.cycles[c].scholarship].Withdrawn?))
  }

  lemma FlagStep(w: World, e: Event, p: Policy, c: Id)
    requires Enabled(w, e) && !Edits(e, c) && c in w.cycles && FlagOk(w, c)
    ensures c in Next(w, e, p).cycles && FlagOk(Next(w, e, p), c)
  {
  }

  lemma {:induction false} FlagAlways(ws: seq<World>, es: seq<Event>, p: Policy, i: nat, c: Id)
    requires Run(ws, es, p) && NoEdits(es, c) && i < |ws| && c in ws[i].cycles
    ensures FlagOk(ws[i], c)
  {
    if i > 0 {
      if c in ws[i - 1].cycles {
        FlagAlways(ws, es, p, i - 1, c);
        FlagStep(ws[i - 1], es[i - 1], p, c);
      } else {
        assert Enabled(ws[i - 1], es[i - 1]);
      }
    }
  }

  /** The tick that downgrades `c` for staleness and for nothing else. */
  predicate StalenessDowngrade(w: World, e: Event, p: Policy, c: Id) {
    && e.Refresh? && c in e.cycles && c in w.cycles
    && w.cycles[c].row.status.OpenVerified?
    && ReadStatus(w.cycles[c].row, e.began, p).OpenVerified?
    && Stale(w.cycles[c].row, e.began, p)
  }

  lemma FlagRaised(w: World, e: Event, p: Policy, c: Id)
    requires Enabled(w, e) && !Edits(e, c) && c in Next(w, e, p).cycles && Next(w, e, p).cycles[c].row.autoDowngraded
    ensures c in w.cycles
    ensures StalenessDowngrade(w, e, p, c) || w.cycles[c].row.autoDowngraded
  {
  }

  /** The flag is up only after such a tick, with the status unknown ever since. */
  lemma {:induction false} FlagHasACause(ws: seq<World>, es: seq<Event>, p: Policy, i: nat, c: Id) returns (k: nat)
    requires Run(ws, es, p) && NoEdits(es, c) && i < |ws| && c in ws[i].cycles && ws[i].cycles[c].row.autoDowngraded
    ensures k < i && StalenessDowngrade(ws[k], es[k], p, c)
    ensures forall m :: k < m <= i ==> c in ws[m].cycles && ws[m].cycles[c].row.status.StatusUnknown?
  {
    FlagAlways(ws, es, p, i, c);
    assert i > 0 && Enabled(ws[i - 1], es[i - 1]);
    FlagRaised(ws[i - 1], es[i - 1], p, c);
    if StalenessDowngrade(ws[i - 1], es[i - 1], p, c) {
      k := i - 1;
    } else {
      k := FlagHasACause(ws, es, p, i - 1, c);
    }
  }

  /** Without an edit of the cycle, the only way from unknown back to open is a recheck whose fetch succeeded,
      found the content the page had before it, and was made before the cutoff; and the cycle had been
      open until a tick downgraded it for staleness alone, since when it stayed unknown. */
  lemma OnlyRechecksReopen(ws: seq<World>, es: seq<Event>, p: Policy, i: nat, c: Id) returns (k: nat)
    requires Run(ws, es, p) && NoEdits(es, c) && i < |es| && c in ws[i].cycles
    requires ws[i].cycles[c].row.status.StatusUnknown?
    requires ws[i + 1].cycles[c].row.status.OpenVerified?
    ensures es[i].Conclude? && es[i].recheck in ws[i].rechecks
    ensures var r := ws[i].rechecks[es[i].recheck];
            r.Judging? && r.cycle == c && !r.raised && FetchOk(r.page) && r.previous == r.page.hash
            && !Passed(Cutoff(ws[i].cycles[c].row.schedule, p.cal), r.began)
    ensures k < i && StalenessDowngrade(ws[k], es[k], p, c)
    ensures forall m :: k < m <= i ==> c in ws[m].cycles && ws[m].cycles[c].row.status.StatusUnknown?
  {
    assert Enabled(ws[i], es[i]) && ws[i + 1] == Next(ws[i], es[i], p);
    k := FlagHasACause(ws, es, p, i, c);
  }

  /** A cycle that reads unknown. */
  predicate Lapsed(w: World, c: Id, p: Policy)
    requires c in w.cycles
  {
    ReadStatus(w.cycles[c].row, w.now, p).StatusUnknown?
  }

  /** A refresh that read the clock before the stored validity of an open cycle ended, commits after that
      end, and finds the cutoff and the life of the evidence still ahead. */
  predicate Rescue(w: World, e: Event, p: Policy, c: Id) {
    && e.Refresh? && c in e.cycles && c in w.cycles
    && var row := w.cycles[c].row;
       && row.status.OpenVerified?
       && row.validUntil.Some? && e.began < row.validUntil.value <= w.now
       && !Passed(Cutoff(row.schedule, p.cal), w.now)
       && w.now < EvidenceDeadline(row, e.began, p)
  }

  lemma RescueOpens(w: World, e: Event, p: Policy, c: Id)
    requires Enabled(w, e) && Rescue(w, e, p, c)
    ensures Shown(w, c, p) == Some(Unknown) && ShownOpen(Next(w, e, p), c, p)
  {
  }

  lemma LapsedRefreshed(row: CycleRow, began: Time, now: Time, p: Policy)
    requires began <= now && ReadStatus(row, now, p).StatusUnknown?
    requires row.status.OpenVerified? ==>
               || Passed(Cutoff(row.schedule, p.cal), now)
               || Passed(row.validUntil, began)
               || EvidenceDeadline(row, began, p) <= now
    ensures ReadStatus(Refreshed(row, began, p), now, p).StatusUnknown?
  {
  }

  lemma LapsedReverified(
      row: CycleRow, previous: Option<Hash>, page: PageRow, raised: bool, began: Time, now: Time, p: Policy)
    requires ReadStatus(row, now, p).StatusUnknown? && (row.autoDowngraded ==> Passed(row.validUntil, now))
    ensures ReadStatus(Reverified(row, previous, page, raised, began, p), now, p).StatusUnknown?
  {
  }

  lemma LapsedStep(w: World, e: Event, p: Policy, c: Id)
    requires Enabled(w, e) && !Edits(e, c) && c in w.cycles && FlagOk(w, c) && IsPublished(w, c) && Lapsed(w, c, p)
    requires !Rescue(w, e, p, c)
    ensures c in Next(w, e, p).cycles && (IsPublished(Next(w, e, p), c) ==> Lapsed(Next(w, e, p), c, p))
  {
    var row := w.cycles[c].row;
    if e.Refresh? && c in e.cycles {
      LapsedRefreshed(row, e.began, w.now, p);
    } else if e.Conclude? && w.rechecks[e.recheck].cycle == c {
      var f := w.rechecks[e.recheck];
      LapsedReverified(row, f.previous, f.page, f.raised, f.began, w.now, p);
    }
  }

  predicate ShownUnknown(w: World, c: Id, p: Policy) {
    Shown(w, c, p) == Some(Unknown) || Shown(w, c, p) == None
  }

  lemma {:induction false} UnknownSoFar(ws: seq<World>, es: seq<Event>, p: Policy, i: nat, j: nat, c: Id)
    requires Run(ws, es, p) && NoEdits(es, c) && i <= j < |ws| && c in ws[i].cycles
    requires Shown(ws[i], c, p) == Some(Unknown)
    requires forall k :: i <= k < j ==> !Rescue(ws[k], es[k], p, c)
    ensures ShownUnknown(ws[j], c, p)
  {
    CyclesStay(ws, es, p, i, j, c);
    if i < j {
      UnknownSoFar(ws, es, p, i, j - 1, c);
      CyclesStay(ws, es, p, i, j - 1, c);
      FlagAlways(ws, es, p, j - 1, c);
      assert Enabled(ws[j - 1], es[j - 1]);
      if Shown(ws[j - 1], c, p) == Some(Unknown) {
        LapsedStep(ws[j - 1], es[j - 1], p, c);
      } else {
        StaysHidden(ws, es, p, i, j - 1, c);
      }
    }
  }

  /** Without an edit of the cycle, one that once reads unknown never reads anything else again, restored
      or not, exactly when no refresh that began before the end of its validity commits after it with the
      cutoff and the life of the evidence still ahead. */
  lemma UnknownIsForEverIff(ws: seq<World>, es: seq<Event>, p: Policy, i: nat, c: Id)
    requires Run(ws, es, p) && NoEdits(es, c) && i < |ws| && c in ws[i].cycles
    requires Shown(ws[i], c, p) == Some(Unknown)
    ensures (forall j :: i <= j < |ws| ==> ShownUnknown(ws[j], c, p))
            <==> forall k :: i <= k < |es| ==> !Rescue(ws[k], es[k], p, c)
  {
    if forall k :: i <= k < |es| ==> !Rescue(ws[k], es[k], p, c) {
      forall j | i <= j < |ws| ensures ShownUnknown(ws[j], c, p) {
        UnknownSoFar(ws, es, p, i, j, c);
      }
    } else {
      var k :| i <= k < |es| && Rescue(ws[k], es[k], p, c);
      assert Enabled(ws[k], es[k]) && ws[k + 1] == Next(ws[k], es[k], p);
      RescueOpens(ws[k], es[k], p, c);
      assert !ShownUnknown(ws[k + 1], c, p);
    }
  }

  /** A cycle that was published once is hidden only by a withdrawal, so it stays hidden. */
  lemma {:induction false} StaysHidden(ws: seq<World>, es: seq<Event>, p: Policy, i: nat, j: nat, c: Id)
    requires Run(ws, es, p) && i <= j < |es| && IsPublished(ws[i], c) && !IsPublished(ws[j], c)
    ensures !IsPublished(ws[j + 1], c)
  {
    CyclesStay(ws, es, p, i, j, c);
    HiddenMeansWithdrawn(ws, es, p, i, j, c);
    assert Enabled(ws[j], es[j]);
  }

  ghost predicate PublishedOrWithdrawn(w: World, c: Id) {
    && c in w.cycles
    && (IsPublished(w, c)
        || (w.cycles[c].scholarship in w.scholarships && w.scholarships[w.cycles[c].scholarship].Withdrawn?))
  }

  lemma PublishedOrWithdrawnStep(w: World, e: Event, p: Policy, c: Id)
    requires Enabled(w, e) && PublishedOrWithdrawn(w, c)
    ensures PublishedOrWithdrawn(Next(w, e, p), c)
  {
  }

  lemma {:induction false} HiddenMeansWithdrawn(ws: seq<World>, es: seq<Event>, p: Policy, i: nat, j: nat, c: Id)
    requires Run(ws, es, p) && i <= j < |ws| && c in ws[i].cycles && IsPublished(ws[i], c)
    ensures PublishedOrWithdrawn(ws[j], c)
  {
    if i < j {
      HiddenMeansWithdrawn(ws, es, p, i, j - 1, c);
      PublishedOrWithdrawnStep(ws[j - 1], es[j - 1], p, c);
    }
  }

  // ----- How long a refreshed cycle is shown as open -----

  /** A refresh of `c` while its stored status is open. */
  predicate RefreshesOpen(w: World, e: Event, c: Id) {
    e.Refresh? && c in e.cycles && c in w.cycles && w.cycles[c].row.status.OpenVerified?
  }

  predicate IsWithdrawn(w: World, c: Id) {
    && c in w.cycles && w.cycles[c].scholarship in w.scholarships
    && w.scholarships[w.cycles[c].scholarship].Withdrawn?
  }

  lemma ValidityStep(w: World, e: Event, p: Policy, c: Id)
    requires Enabled(w, e) && c in w.cycles && !Edits(e, c)
    ensures c in Next(w, e, p).cycles
    ensures var before, after := w.cycles[c].row, Next(w, e, p).cycles[c].row;
            && after.schedule == before.schedule
            && (IsWithdrawn(Next(w, e, p), c)
                || after.validUntil ==
                   if RefreshesOpen(w, e, c)
                   then Some(Earliest(EvidenceDeadline(before, e.began, p), Cutoff(before.schedule, p.cal)))
                   else before.validUntil)
    ensures IsWithdrawn(w, c) ==> IsWithdrawn(Next(w, e, p), c)
  {
  }

  /** In `v` the cycle's validity is the one that the refresh `e` of `w` worked out. */
  predicate DatedBy(w: World, e: Event, v: World, p: Policy, c: Id)
    requires RefreshesOpen(w, e, c)
  {
    var row := w.cycles[c].row;
    && c in v.cycles && v.cycles[c].row.schedule == row.schedule
    && (IsWithdrawn(v, c)
        || v.cycles[c].row.validUntil == Some(Earliest(EvidenceDeadline(row, e.began, p), Cutoff(row.schedule, p.cal))))
  }

  lemma DatedAtOnce(w: World, e: Event, p: Policy, c: Id)
    requires Enabled(w, e) && RefreshesOpen(w, e, c)
    ensures DatedBy(w, e, Next(w, e, p), p, c)
  {
    ValidityStep(w, e, p, c);
  }

  lemma DatedStep(w: World, e: Event, v: World, f: Event, p: Policy, c: Id)
    requires RefreshesOpen(w, e, c) && DatedBy(w, e, v, p, c)
    requires Enabled(v, f) && !Edits(f, c) && !RefreshesOpen(v, f, c)
    ensures DatedBy(w, e, Next(v, f, p), p, c)
  {
    ValidityStep(v, f, p, c);
  }

  lemma {:induction false} LastRefreshDates(
      ws: seq<World>, es: seq<Event>, p: Policy, i: nat, j: nat, c: Id) returns (k: nat)
    requires Run(ws, es, p) && i < j < |ws| && RefreshesOpen(ws[i], es[i], c)
    requires forall m :: i <= m < j ==> !Edits(es[m], c)
    ensures i <= k < j && RefreshesOpen(ws[k], es[k], c)
    ensures forall m :: k < m < j ==> !RefreshesOpen(ws[m], es[m], c)
    ensures DatedBy(ws[k], es[k], ws[j], p, c)
  {
    var n := j - 1;
    assert Enabled(ws[n], es[n]) && ws[n + 1] == Next(ws[n], es[n], p);
    if RefreshesOpen(ws[n], es[n], c) {
      k := n;
      DatedAtOnce(ws[n], es[n], p, c);
    } else {
      k := LastRefreshDates(ws, es, p, i, n, c);
      DatedStep(ws[k], es[k], ws[n], es[n], p, c);
    }
  }

  /** After a refresh of an open cycle, and until somebody edits it, what is shown as open is before the
      cutoff and before the end of the life of the evidence that the last such refresh saw. */
  lemma OpenWhileEvidenceLives(
      ws: seq<World>, es: seq<Event>, p: Policy, i: nat, j: nat, c: Id) returns (k: nat)
    requires Run(ws, es, p) && i < j < |ws| && RefreshesOpen(ws[i], es[i], c)
    requires forall m :: i <= m < j ==> !Edits(es[m], c)
    ensures i <= k < j && RefreshesOpen(ws[k], es[k], c)
    ensures forall m :: k < m < j ==> !RefreshesOpen(ws[m], es[m], c)
    ensures ShownOpen(ws[j], c, p) ==>
              var row := ws[k].cycles[c].row;
              ws[j].now < EvidenceDeadline(row, es[k].began, p) && !Passed(Cutoff(row.schedule, p.cal), ws[j].now)
  {
    k := LastRefreshDates(ws, es, p, i, j, c);
    if ShownOpen(ws[j], c, p) {
      ShownBeforeItsDate(ws[k], es[k], ws[j], p, c);
    }
  }

  lemma ShownBeforeItsDate(w: World, e: Event, v: World, p: Policy, c: Id)
    requires RefreshesOpen(w, e, c) && DatedBy(w, e, v, p, c) && ShownOpen(v, c, p)
    ensures var row := w.cycles[c].row;
            v.now < EvidenceDeadline(row, e.began, p) && !Passed(Cutoff(row.schedule, p.cal), v.now)
  {
  }

  /** A recheck of `c` that found the page unchanged. */
  predicate RenewsEvidence(w: World, e: Event, p: Policy, c: Id) {
    && e.Conclude? && e.recheck in w.rechecks && w.rechecks[e.recheck].Judging?
    && w.rechecks[e.recheck].cycle == c && c in w.cycles
    && !w.rechecks[e.recheck].raised
    && Unchanged(w.cycles[c].row, w.rechecks[e.recheck].previous, w.rechecks[e.recheck].page,
                 w.rechecks[e.recheck].began, p)
  }

  ghost predicate NoRenewal(ws: seq<World>, es: seq<Event>, p: Policy, i: nat, j: nat, c: Id)
    requires i <= j <= |es| <= |ws|
  {
    forall m :: i <= m < j ==> !RenewsEvidence(ws[m], es[m], p, c)
  }

  /** The evidence itself is dated by the last recheck that found the page unchanged, at the time at which
      that recheck's sweep began, and by nothing else. */
  lemma {:induction false} EvidenceIsTheLastRecheck(
      ws: seq<World>, es: seq<Event>, p: Policy, i: nat, j: nat, c: Id) returns (k: nat)
    requires Run(ws, es, p) && i <= j < |ws| && c in ws[i].cycles
    requires forall m :: i <= m < j ==> !Edits(es[m], c)
    ensures i <= k <= j && c in ws[j].cycles
    ensures if k == j then NoRenewal(ws, es, p, i, j, c)
            else RenewsEvidence(ws[k], es[k], p, c) && NoRenewal(ws, es, p, k + 1, j, c)
    ensures ws[j].cycles[c].row.lastVerifiedAt ==
            if k == j then ws[i].cycles[c].row.lastVerifiedAt else Some(ws[k].rechecks[es[k].recheck].began)
  {
    k := j;
    if i < j {
      var n := j - 1;
      var before := EvidenceIsTheLastRecheck(ws, es, p, i, n, c);
      assert Enabled(ws[n], es[n]) && ws[n + 1] == Next(ws[n], es[n], p);
      EvidenceStep(ws[n], es[n], p, c);
      if RenewsEvidence(ws[n], es[n], p, c) {
        k := n;
      } else if before < n {
        k := before;
      }
    }
  }

  lemma EvidenceStep(w: World, e: Event, p: Policy, c: Id)
    requires Enabled(w, e) && c in w.cycles && !Edits(e, c)
    ensures c in Next(w, e, p).cycles
    ensures Next(w, e, p).cycles[c].row.lastVerifiedAt ==
            if RenewsEvidence(w, e, p, c) then Some(w.rechecks[e.recheck].began) else w.cycles[c].row.lastVerifiedAt
  {
  }

  // ----- A reviewer's own unknown -----

  /** A recheck that finds the page unchanged and the flag up. */
  predicate Promotes(w: World, e: Event, p: Policy, c: Id) {
    RenewsEvidence(w, e, p, c) && w.cycles[c].row.autoDowngraded
  }

  predicate StoredUnknown(w: World, c: Id) {
    c in w.cycles && w.cycles[c].row.status.StatusUnknown?
  }

  lemma UnknownStep(w: World, e: Event, p: Policy, c: Id)
    requires Enabled(w, e) && StoredUnknown(w, c) && !Edits(e, c)
    ensures c in Next(w, e, p).cycles
    ensures StoredUnknown(Next(w, e, p), c) <==> !Promotes(w, e, p, c)
    ensures StoredUnknown(Next(w, e, p), c) ==>
              Next(w, e, p).cycles[c].row.autoDowngraded == w.cycles[c].row.autoDowngraded
  {
  }

  predicate FlagAsAt(w: World, v: World, c: Id) {
    c in w.cycles && c in v.cycles && v.cycles[c].row.autoDowngraded == w.cycles[c].row.autoDowngraded
  }

  lemma FlagWaitsOneMore(u: World, w: World, e: Event, p: Policy, c: Id)
    requires FlagAsAt(u, w, c) && Enabled(w, e) && !Edits(e, c)
    requires StoredUnknown(w, c) && StoredUnknown(Next(w, e, p), c)
    ensures FlagAsAt(u, Next(w, e, p), c)
  {
    UnknownStep(w, e, p, c);
  }

  /** While the status stays unknown, the flag stays what it was. */
  lemma {:induction false} FlagWaits(ws: seq<World>, es: seq<Event>, p: Policy, i: nat, j: nat, c: Id)
    requires Run(ws, es, p) && i <= j < |ws|
    requires forall m :: i <= m <= j ==> StoredUnknown(ws[m], c)
    requires forall m :: i <= m < j ==> !Edits(es[m], c)
    ensures FlagAsAt(ws[i], ws[j], c)
  {
    assert StoredUnknown(ws[i], c);
    if i < j {
      var n := j - 1;
      FlagWaits(ws, es, p, i, n, c);
      assert Enabled(ws[n], es[n]) && ws[n + 1] == Next(ws[n], es[n], p);
      assert StoredUnknown(ws[n], c) && StoredUnknown(ws[n + 1], c);
      FlagWaitsOneMore(ws[i], ws[n], es[n], p, c);
    }
  }

  lemma {:induction false} UnknownUntil(ws: seq<World>, es: seq<Event>, p: Policy, i: nat, j: nat, c: Id)
    requires Run(ws, es, p) && i <= j < |ws| && StoredUnknown(ws[i], c)
    requires forall m :: i <= m < j ==> !Edits(es[m], c)
    requires !ws[i].cycles[c].row.autoDowngraded || NoRenewal(ws, es, p, i, j, c)
    ensures forall m :: i <= m <= j ==> StoredUnknown(ws[m], c)
  {
    if i < j {
      UnknownUntil(ws, es, p, i, j - 1, c);
      FlagWaits(ws, es, p, i, j - 1, c);
      assert Enabled(ws[j - 1], es[j - 1]) && ws[j] == Next(ws[j - 1], es[j - 1], p);
      UnknownStep(ws[j - 1], es[j - 1], p, c);
    }
  }

  /** The choice of unknown that an edit makes is stored until the next edit exactly when the edit found no
      flag, or no recheck since has found the page unchanged: the flag survives the edit, and the restore
      does not know whose unknown it promotes. */
  lemma ReviewersUnknownIff(ws: seq<World>, es: seq<Event>, p: Policy, i: nat, j: nat, c: Id)
    requires Run(ws, es, p) && i < j < |ws| && Edits(es[i], c) && es[i].newStatus.StatusUnknown?
    requires forall m :: i < m < j ==> !Edits(es[m], c)
    ensures c in ws[i].cycles
    ensures (forall m :: i < m <= j ==> StoredUnknown(ws[m], c))
            <==> !ws[i].cycles[c].row.autoDowngraded || NoRenewal(ws, es, p, i + 1, j, c)
  {
    assert Enabled(ws[i], es[i]) && ws[i + 1] == Next(ws[i], es[i], p);
    if !ws[i].cycles[c].row.autoDowngraded || NoRenewal(ws, es, p, i + 1, j, c) {
      UnknownUntil(ws, es, p, i + 1, j, c);
    }
    if forall m :: i < m <= j ==> StoredUnknown(ws[m], c) {
      UnpromotedMeanwhile(ws, es, p, i + 1, j, c);
    }
  }

  /** An unknown that was chosen at publication is never promoted: there is no flag yet. */
  lemma PublishersUnknownStays(ws: seq<World>, es: seq<Event>, p: Policy, i: nat, j: nat, c: Id)
    requires Run(ws, es, p) && i < j < |ws| && es[i].Publish? && es[i].cycle == c && es[i].status.StatusUnknown?
    requires forall m :: i < m < j ==> !Edits(es[m], c)
    ensures forall m :: i < m <= j ==> StoredUnknown(ws[m], c)
  {
    assert Enabled(ws[i], es[i]) && ws[i + 1] == Next(ws[i], es[i], p);
    UnknownUntil(ws, es, p, i + 1, j, c);
  }

  lemma UnpromotedMeanwhile(ws: seq<World>, es: seq<Event>, p: Policy, i: nat, j: nat, c: Id)
    requires Run(ws, es, p) && i <= j < |ws|
    requires forall m :: i <= m <= j ==> StoredUnknown(ws[m], c)
    requires forall m :: i <= m < j ==> !Edits(es[m], c)
    ensures StoredUnknown(ws[i], c)
    ensures !ws[i].cycles[c].row.autoDowngraded || NoRenewal(ws, es, p, i, j, c)
  {
    forall k | i <= k < j ensures !Promotes(ws[k], es[k], p, c) && FlagAsAt(ws[i], ws[k], c) {
      FlagWaits(ws, es, p, i, k, c);
      assert Enabled(ws[k], es[k]) && ws[k + 1] == Next(ws[k], es[k], p);
      UnknownStep(ws[k], es[k], p, c);
    }
  }

  // ----- What edits do to the flag -----

  /** An edit that gives a flagged cycle another status. */
  predicate Mislabels(w: World, e: Event, c: Id) {
    e.Edit? && e.cycle == c && c in w.cycles && w.cycles[c].row.autoDowngraded && !e.newStatus.StatusUnknown?
  }

  predicate FlagTrue(w: World, c: Id) {
    c in w.cycles ==> FlagMeansUnknown(w.cycles[c].row)
  }

  lemma FlagTrueStep(w: World, e: Event, p: Policy, c: Id)
    requires Enabled(w, e) && FlagTrue(w, c)
    ensures FlagTrue(Next(w, e, p), c) <==> !Mislabels(w, e, c)
  {
  }

  lemma {:induction false} FlagTrueSoFar(ws: seq<World>, es: seq<Event>, p: Policy, i: nat, c: Id)
    requires Run(ws, es, p) && i < |ws| && forall k :: 0 <= k < i ==> !Mislabels(ws[k], es[k], c)
    ensures FlagTrue(ws[i], c)
  {
    if i > 0 {
      FlagTrueSoFar(ws, es, p, i - 1, c);
      FlagTrueStep(ws[i - 1], es[i - 1], p, c);
    }
  }

  /** Throughout a run `auto_downgraded` holds only of an unknown cycle exactly when no edit ever gives a
      flagged cycle another status. */
  lemma FlagMeansUnknownIff(ws: seq<World>, es: seq<Event>, p: Policy, c: Id)
    requires Run(ws, es, p)
    ensures (forall i :: 0 <= i < |ws| ==> FlagTrue(ws[i], c))
            <==> forall k :: 0 <= k < |es| ==> !Mislabels(ws[k], es[k], c)
  {
    if forall k :: 0 <= k < |es| ==> !Mislabels(ws[k], es[k], c) {
      forall i | 0 <= i < |ws| ensures FlagTrue(ws[i], c) {
        FlagTrueSoFar(ws, es, p, i, c);
      }
    } else {
      var k :| 0 <= k < |es| && Mislabels(ws[k], es[k], c);
      if FlagTrue(ws[k], c) {
        FlagTrueStep(ws[k], es[k], p, c);
        assert !FlagTrue(ws[k + 1], c);
      }
    }
  }

  // ----- A withdrawal in the middle of a recheck -----

  /** The verdict is written without looking at the record again, so it may store `open_verified` on a
      withdrawn record: exactly when the flag was up and the page unchanged. Nobody is shown it. */
  lemma ConcludeOnWithdrawnRecord(w: World, n: nat, p: Policy)
    requires Enabled(w, Conclude(n)) && w.cycles[w.rechecks[n].cycle].row.status.StatusUnknown?
    requires var s := w.cycles[w.rechecks[n].cycle].scholarship; s in w.scholarships && w.scholarships[s].Withdrawn?
    ensures var w', r := Next(w, Conclude(n), p), w.rechecks[n];
            var row := w.cycles[r.cycle].row;
            && (w'.cycles[r.cycle].row.status.OpenVerified?
                <==> row.autoDowngraded && !r.raised && Unchanged(row, r.previous, r.page, r.began, p))
            && Shown(w', r.cycle, p) == None
  {
  }
}
