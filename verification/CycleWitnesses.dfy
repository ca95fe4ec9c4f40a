/** Two runs of `CycleRuns` under the hours the backend ships with (src/app/core/config.py:78-98). */
module CycleWitnesses {
  import opened Wrappers
  import opened Ids
  import opened Status
  import opened Freshness
  import opened CycleStore
  import opened CycleRuns

  const SHIPPED := Config(14, 1, 2, 24, 48, 6, 12, 24, 48, 24, 168, 336, 720, 1440)

  const NO_DEADLINE := Schedule(None, DateOnly, None, None)

  /** When a cycle without a deadline goes stale that was published at time 0 and never rechecked. */
  const STALE := 48 * HOUR

  // ----- A withdrawal in the middle of a recheck -----

  /** One record, one cycle, one page: published, fetched once, downgraded for staleness, fetched again,
      and withdrawn before the verdict. */
  function Happening(n: nat, h: Hash): Event {
    match n
    case 0 => Approve(0)
    case 1 => Publish(0, 0, 0, OpenVerified, None, None, NO_DEADLINE)
    case 2 => Look(0, 0, 0)
    case 3 => FetchPage(0, Fetched(200, h))
    case 4 => Reread(0)
    case 5 => Conclude(0)
    case 6 => Tick(STALE)
    case 7 => Refresh({0}, STALE)
    case 8 => Look(0, 0, STALE)
    case 9 => FetchPage(0, Fetched(200, h))
    case 10 => Reread(0)
    case 11 => Withdraw(0)
    case _ => Conclude(0)
  }

  function RowAt(n: nat): CycleRow {
    if n <= 7 then CycleRow(OpenVerified, None, None, 0, NO_DEADLINE, false)
    else if n <= 11 then CycleRow(StatusUnknown, Some(STALE), None, 0, NO_DEADLINE, true)
    else if n == 12 then CycleRow(StatusUnknown, None, None, 0, NO_DEADLINE, true)
    else CycleRow(OpenVerified, None, Some(STALE), 0, NO_DEADLINE, false)
  }

  function RechecksAt(n: nat, h: Hash): map<nat, Recheck> {
    var page := PageRow(Some(h), Some(200));
    match n
    case 3 => map[0 := Looking(0, None, 0)]
    case 4 => map[0 := Rereading(0, None, 0)]
    case 5 => map[0 := Judging(0, None, page, false, 0)]
    case 9 => map[0 := Looking(0, Some(h), STALE)]
    case 10 => map[0 := Rereading(0, Some(h), STALE)]
    case 11 | 12 => map[0 := Judging(0, Some(h), page, false, STALE)]
    case _ => map[]
  }

  function Stage(n: nat, h: Hash): World {
    if n == 0 then START
    else if n == 1 then START.(scholarships := map[0 := NeedsReview])
    else
      World(map[0 := if n <= 11 then Published else Withdrawn],
            map[0 := Record(0, 0, RowAt(n))],
            if n <= 3 then map[] else map[0 := PageRow(Some(h), Some(200))],
            RechecksAt(n, h), if n <= 6 then 0 else STALE)
  }

  ghost predicate Follows(n: nat, h: Hash, p: Policy) {
    Enabled(Stage(n, h), Happening(n, h)) && Stage(n + 1, h) == Next(Stage(n, h), Happening(n, h), p)
  }

  lemma PublishedThenFetched(h: Hash, p: Policy)
    ensures Follows(0, h, p) && Follows(1, h, p) && Follows(2, h, p) && Follows(3, h, p)
  {
  }

  lemma NothingToCompare(h: Hash, p: Policy)
    ensures Follows(4, h, p) && Follows(5, h, p) && Follows(6, h, p)
  {
    assert Stage(5, h).rechecks - {0} == map[];
  }

  lemma Downgraded(h: Hash, p: Policy)
    requires p.cfg == SHIPPED
    ensures Follows(7, h, p)
  {
    assert Next(Stage(7, h), Happening(7, h), p).cycles == Stage(8, h).cycles;
  }

  lemma FetchedAgain(h: Hash, p: Policy)
    ensures Follows(8, h, p) && Follows(9, h, p) && Follows(10, h, p)
  {
  }

  lemma WithdrawnMeanwhile(h: Hash, p: Policy)
    ensures Follows(11, h, p)
  {
    assert Next(Stage(11, h), Happening(11, h), p).cycles == Stage(12, h).cycles;
  }

  lemma ThenRestored(h: Hash, p: Policy)
    ensures Follows(12, h, p)
  {
    assert Stage(12, h).rechecks - {0} == map[];
  }

  ghost predicate StoresOpenOnWithdrawn(ws: seq<World>, es: seq<Event>, p: Policy) {
    && Run(ws, es, p) && NoEdits(es, 0)
    && 0 in ws[|es|].cycles && ws[|es|].cycles[0].row.status.OpenVerified?
    && IsWithdrawn(ws[|es|], 0)
  }

  lemma AllFollow(h: Hash, p: Policy, n: nat)
    requires p.cfg == SHIPPED && n < 13
    ensures Follows(n, h, p)
  {
    if n <= 3 {
      PublishedThenFetched(h, p);
    } else if n <= 6 {
      NothingToCompare(h, p);
    } else if n == 7 {
      Downgraded(h, p);
    } else if n <= 10 {
      FetchedAgain(h, p);
    } else if n == 11 {
      WithdrawnMeanwhile(h, p);
    } else {
      ThenRestored(h, p);
    }
  }

  lemma StagesAreARun(ws: seq<World>, es: seq<Event>, h: Hash, p: Policy)
    requires p.cfg == SHIPPED && |ws| == 14 && |es| == 13
    requires (forall n :: 0 <= n < 14 ==> ws[n] == Stage(n, h)) && forall n :: 0 <= n < 13 ==> es[n] == Happening(n, h)
    ensures Run(ws, es, p)
  {
    forall n | 0 <= n < 13 ensures Enabled(ws[n], es[n]) && ws[n + 1] == Next(ws[n], es[n], p) {
      AllFollow(h, p, n);
    }
  }

  lemma NoStageEdits(es: seq<Event>, h: Hash)
    requires |es| == 13 && forall n :: 0 <= n < 13 ==> es[n] == Happening(n, h)
    ensures NoEdits(es, 0)
  {
  }

  /** A withdrawal can fall between the fetch and the verdict, which then stores open on a withdrawn
      record. */
  lemma WithdrawnRecordCanStoreOpen(cal: Calendar, h: Hash)
    ensures exists ws: seq<World>, es: seq<Event> :: StoresOpenOnWithdrawn(ws, es, Policy(SHIPPED, cal))
  {
    var p := Policy(SHIPPED, cal);
    var ws := seq(14, n requires n >= 0 => Stage(n, h));
    var es := seq(13, n requires n >= 0 => Happening(n, h));
    StagesAreARun(ws, es, h, p);
    NoStageEdits(es, h);
    assert ws[13] == Stage(13, h);
    assert StoresOpenOnWithdrawn(ws, es, p);
  }

  // ----- A refresh in flight across the end of a validity -----

  /** A reviewer's validity of one hour, and a refresh that began before it ended and commits after. */
  const LATE_REFRESH: seq<Event> :=
    [Approve(0), Publish(0, 0, 0, OpenVerified, Some(HOUR), None, NO_DEADLINE), Tick(HOUR), Refresh({0}, 0)]

  function StepOf(n: nat): World {
    var validUntil := Some(if n <= 3 then HOUR else STALE);
    if n == 0 then START
    else if n == 1 then START.(scholarships := map[0 := NeedsReview])
    else
      World(map[0 := Published],
            map[0 := Record(0, 0, CycleRow(OpenVerified, validUntil, None, 0, NO_DEADLINE, false))],
            map[], map[], if n == 2 then 0 else HOUR)
  }

  lemma LateRefreshSteps(p: Policy)
    requires p.cfg == SHIPPED
    ensures forall n :: 0 <= n < 4 ==>
              Enabled(StepOf(n), LATE_REFRESH[n]) && StepOf(n + 1) == Next(StepOf(n), LATE_REFRESH[n], p)
  {
    assert Next(StepOf(3), LATE_REFRESH[3], p).cycles == StepOf(4).cycles;
    forall n | 0 <= n < 4
      ensures Enabled(StepOf(n), LATE_REFRESH[n]) && StepOf(n + 1) == Next(StepOf(n), LATE_REFRESH[n], p)
    {
      assert n in {0, 1, 2, 3};
    }
  }

  ghost predicate ReopensUnedited(ws: seq<World>, es: seq<Event>, p: Policy) {
    && Run(ws, es, p) && NoEdits(es, 0)
    && exists i: nat, j: nat :: i < j < |ws| && Shown(ws[i], 0, p) == Some(Unknown) && ShownOpen(ws[j], 0, p)
  }

  /** A reader is told unknown, and the next one open, without any edit in between. */
  lemma LateRefreshReopens(cal: Calendar)
    ensures exists ws: seq<World>, es: seq<Event> :: ReopensUnedited(ws, es, Policy(SHIPPED, cal))
  {
    var p := Policy(SHIPPED, cal);
    LateRefreshSteps(p);
    var ws := seq(5, n requires n >= 0 => StepOf(n));
    assert Run(ws, LATE_REFRESH, p);
    assert Shown(ws[3], 0, p) == Some(Unknown) && ShownOpen(ws[4], 0, p);
    assert ReopensUnedited(ws, LATE_REFRESH, p);
  }

  // ----- Edits of a flagged cycle -----

  /** A reviewer sets the downgraded cycle to unknown; the next recheck finds the page unchanged. */
  function Promotion(h: Hash): seq<Event> {
    [Edit(0, StatusUnknown, None, None, NO_DEADLINE), Look(0, 0, STALE), FetchPage(0, Fetched(200, h)), Reread(0),
     Conclude(0)]
  }

  function PromotionAt(n: nat, h: Hash): World {
    var row := CycleRow(StatusUnknown, None, None, 0, NO_DEADLINE, true);
    var rechecks :=
      match n
      case 2 => map[0 := Looking(0, Some(h), STALE)]
      case 3 => map[0 := Rereading(0, Some(h), STALE)]
      case 4 => map[0 := Judging(0, Some(h), PageRow(Some(h), Some(200)), false, STALE)]
      case _ => map[];
    if n == 0 then Stage(8, h)
    else
      World(map[0 := Published],
            map[0 := Record(0, 0, if n <= 4 then row else row.(status := OpenVerified, autoDowngraded := false,
                                                               lastVerifiedAt := Some(STALE)))],
            map[0 := PageRow(Some(h), Some(200))], rechecks, STALE)
  }

  ghost predicate PromotionStep(n: nat, h: Hash, p: Policy)
    requires n < |Promotion(h)|
  {
    Enabled(PromotionAt(n, h), Promotion(h)[n])
    && PromotionAt(n + 1, h) == Next(PromotionAt(n, h), Promotion(h)[n], p)
  }

  lemma EditedThenLooked(h: Hash, p: Policy)
    ensures PromotionStep(0, h, p) && PromotionStep(1, h, p)
  {
  }

  lemma FetchedThenReread(h: Hash, p: Policy)
    ensures PromotionStep(2, h, p) && PromotionStep(3, h, p)
  {
  }

  lemma ThenPromoted(h: Hash, p: Policy)
    ensures PromotionStep(4, h, p)
  {
    assert PromotionAt(4, h).rechecks - {0} == map[];
  }

  function PromotionStates(h: Hash): seq<World> {
    seq(14, n requires n >= 0 => if n <= 8 then Stage(n, h) else PromotionAt(n - 8, h))
  }

  function PromotionEvents(h: Hash): seq<Event> {
    seq(13, n requires 0 <= n < 13 => if n <= 7 then Happening(n, h) else Promotion(h)[n - 8])
  }

  lemma PromotionIsARun(h: Hash, p: Policy)
    requires p.cfg == SHIPPED
    ensures Run(PromotionStates(h), PromotionEvents(h), p)
  {
    var ws, es := PromotionStates(h), PromotionEvents(h);
    forall n | 0 <= n < 13 ensures Enabled(ws[n], es[n]) && ws[n + 1] == Next(ws[n], es[n], p) {
      if n <= 7 {
        AllFollow(h, p, n);
      } else {
        EditedThenLooked(h, p);
        FetchedThenReread(h, p);
        ThenPromoted(h, p);
        assert n - 8 in {0, 1, 2, 3, 4};
        assert PromotionStep(n - 8, h, p);
      }
    }
  }

  ghost predicate PromotesTheReviewersUnknown(ws: seq<World>, es: seq<Event>, p: Policy) {
    && Run(ws, es, p)
    && exists i: nat, j: nat ::
         && i < j < |ws| && Edits(es[i], 0) && es[i].newStatus.StatusUnknown? && ShownOpen(ws[j], 0, p)
         && forall m :: i < m < j ==> !Edits(es[m], 0)
  }

  /** What a reviewer has set to unknown is shown as open without any further edit. */
  lemma ReviewersUnknownIsPromoted(cal: Calendar, h: Hash)
    ensures exists ws: seq<World>, es: seq<Event> :: PromotesTheReviewersUnknown(ws, es, Policy(SHIPPED, cal))
  {
    var p := Policy(SHIPPED, cal);
    var ws, es := PromotionStates(h), PromotionEvents(h);
    PromotionIsARun(h, p);
    assert es[8] == Promotion(h)[0] && Edits(es[8], 0);
    forall m | 8 < m < 13 ensures !Edits(es[m], 0) {
      assert es[m] == Promotion(h)[m - 8] && m - 8 in {1, 2, 3, 4};
    }
    assert ws[13] == PromotionAt(5, h) && ShownOpen(ws[13], 0, p);
    assert PromotesTheReviewersUnknown(ws, es, p);
  }

  /** And a reviewer who sets it to open leaves a flagged cycle that is not unknown. */
  function MislabelEvents(h: Hash): seq<Event> {
    seq(9, n requires n >= 0 => if n <= 7 then Happening(n, h) else Edit(0, OpenVerified, None, None, NO_DEADLINE))
  }

  function MislabelStates(h: Hash): seq<World> {
    seq(10, n requires n >= 0 =>
      if n <= 8 then Stage(n, h)
      else Stage(8, h).(cycles := map[0 := Record(0, 0, CycleRow(OpenVerified, None, None, 0, NO_DEADLINE, true))]))
  }

  ghost predicate MislabelsOnce(ws: seq<World>, es: seq<Event>, p: Policy) {
    Run(ws, es, p) && exists i: nat :: i < |ws| && !FlagTrue(ws[i], 0)
  }

  lemma EditMislabels(cal: Calendar, h: Hash)
    ensures exists ws: seq<World>, es: seq<Event> :: MislabelsOnce(ws, es, Policy(SHIPPED, cal))
  {
    var p := Policy(SHIPPED, cal);
    var ws, es := MislabelStates(h), MislabelEvents(h);
    MislabelIsARun(h, p);
    assert !FlagTrue(ws[9], 0);
    assert MislabelsOnce(ws, es, p);
  }

  lemma MislabelIsARun(h: Hash, p: Policy)
    requires p.cfg == SHIPPED
    ensures Run(MislabelStates(h), MislabelEvents(h), p)
  {
    var ws, es := MislabelStates(h), MislabelEvents(h);
    forall n | 0 <= n < 9 ensures Enabled(ws[n], es[n]) && ws[n + 1] == Next(ws[n], es[n], p) {
      if n <= 7 {
        AllFollow(h, p, n);
      } else {
        MislabelStep(h, p);
      }
    }
  }

  lemma MislabelStep(h: Hash, p: Policy)
    ensures Enabled(Stage(8, h), Edit(0, OpenVerified, None, None, NO_DEADLINE))
    ensures Next(Stage(8, h), Edit(0, OpenVerified, None, None, NO_DEADLINE), p) == MislabelStates(h)[9]
  {
  }
}
