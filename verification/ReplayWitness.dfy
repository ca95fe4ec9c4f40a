/** A run in which a replay shows as open what a search at the same moment no longer shows. */
module ReplayWitness {
  import opened Wrappers
  import opened Ids
  import opened Replays
  import opened SearchService
  import Cursors
  import S = SearchRuns
  import Paging
  import Ranking
  import Facts
  import Matching
  import Publication
  import Taxonomy
  import Edits
  import Samples
  import Status

  function QueryAt(lib: Facts.Library, t: Taxonomy.Taxonomy, cal: Status.Calendar, now: Status.Time): Ranking.Query {
    Ranking.Query(Samples.TO_CANADA, now, cal, lib, t)
  }

  /** A published award in Canada without a deadline, whose status is valid for one hour. */
  function HourRow(lib: Facts.Library, t: Taxonomy.Taxonomy): Ranking.Row {
    Ranking.Row(0, 0, Publication.Built(lib, t, Samples.Sample(true, None)), Status.OpenVerified, Some(Status.HOUR))
  }

  lemma NoDeadlineStored(lib: Facts.Library, t: Taxonomy.Taxonomy, f: Facts.Blob)
    requires f == Publication.Built(lib, t, Samples.Sample(true, None))
    ensures Facts.SafeDeadline(lib, Facts.Get(f, Facts.DeadlineAt)) == None
  {
    var i := Samples.Sample(true, None);
    Publication.BuiltHolds(lib, t, i);
    Publication.Read(lib, t, i, f, Facts.DeadlineAt);
  }

  lemma WithoutDeadline(s: Status.Schedule, validUntil: Option<Status.Time>, now: Status.Time, cal: Status.Calendar)
    requires s.deadlineAt == None
    ensures Status.EvaluatePublicStatus(Status.OpenVerified, s, validUntil, now, cal) ==
            if Status.Passed(validUntil, now) then Status.StatusUnknown else Status.OpenVerified
    ensures Status.EvaluateStatusDetail(Status.OpenVerified, s, now, cal) == Status.Open
  {
  }

  lemma NoSchedule(q: Ranking.Query, row: Ranking.Row)
    requires Facts.SafeDeadline(q.lib, Facts.Get(row.facts, Facts.DeadlineAt)) == None
    ensures ScheduleOf(q, row).deadlineAt == None
  {
  }

  lemma MatchedRow(q: Ranking.Query, row: Ranking.Row, d: Matching.Decision)
    requires Matching.Match(q.lib, q.t, q.profile, row.facts) == Some(d)
    ensures Ranking.Result(q, row) == Ranking.SearchResult(q, row, d)
  {
  }

  /** What search makes of a matching row without a deadline. */
  lemma ReadWithoutDeadline(q: Ranking.Query, row: Ranking.Row, d: Matching.Decision)
    requires ScheduleOf(q, row).deadlineAt == None && row.publicStatus.OpenVerified?
    ensures var r := Ranking.SearchResult(q, row, d);
            if Status.Passed(row.validUntil, q.now) then r == None else r.Some? && r.value.status.Open?
  {
    WithoutDeadline(ScheduleOf(q, row), row.validUntil, q.now, q.cal);
  }

  lemma CollectOne<A, B>(f: A -> Option<B>, x: A)
    ensures Ranking.Collect(f, [x]) == if f(x).Some? then [f(x).value] else []
  {
    assert [x][1..] == [];
  }

  lemma OnlyOne<A>(ranked: seq<A>, x: A)
    requires multiset(ranked) == multiset([x])
    ensures ranked == [x]
  {
    assert |ranked| == |multiset(ranked)| == 1;
    assert ranked[0] in multiset(ranked);
  }

  lemma OneRowRanked(q: Ranking.Query, row: Ranking.Row)
    ensures var r := Ranking.Result(q, row); Ranking.Ranked(q, [row]) == if r.Some? then [r.value] else []
  {
    Ranking.RankedIsSorted(q, [row]);
    CollectOne((r: Ranking.Row) => Ranking.Result(q, r), row);
    var r, ranked := Ranking.Result(q, row), Ranking.Ranked(q, [row]);
    assert Ranking.Matched(q, [row]) == if r.Some? then [r.value] else [];
    if r.Some? {
      OnlyOne(ranked, r.value);
    } else {
      assert |ranked| == |multiset(ranked)|;
    }
  }

  lemma OpenThenGone(lib: Facts.Library, t: Taxonomy.Taxonomy, cal: Status.Calendar)
    requires Samples.Reads(lib, t)
    ensures var r := Ranking.Result(QueryAt(lib, t, cal, 0), HourRow(lib, t)); r.Some? && r.value.status.Open?
    ensures Ranking.Result(QueryAt(lib, t, cal, Status.HOUR), HourRow(lib, t)) == None
  {
    var row := HourRow(lib, t);
    var q, later := QueryAt(lib, t, cal, 0), QueryAt(lib, t, cal, Status.HOUR);
    NoDeadlineStored(lib, t, row.facts);
    Samples.FoundInCanada(lib, t, row.facts);
    NoSchedule(q, row);
    NoSchedule(later, row);
    var d := Matching.Match(lib, t, Samples.TO_CANADA, row.facts).value;
    MatchedRow(q, row, d);
    MatchedRow(later, row, d);
    ReadWithoutDeadline(q, row, d);
    ReadWithoutDeadline(later, row, d);
  }

  /** The award is published, searched for, and an hour goes by. */
  function Events(q: Ranking.Query, row: Ranking.Row, digest: Cursors.Digest): seq<Event> {
    [Change([row], {0}), Ask(S.Submit(0, digest, 1, ListingOf(q, [row])), q), Tick(Status.HOUR)]
  }

  function Worlds(c: Cursors.Codec, q: Ranking.Query, row: Ranking.Row, digest: Cursors.Digest): seq<World> {
    var es := Events(q, row, digest);
    var w1 := Next(c, EMPTY, es[0]);
    var w2 := Next(c, w1, es[1]);
    [EMPTY, w1, w2, Next(c, w2, es[2])]
  }

  lemma WorldsAreARun(c: Cursors.Codec, q: Ranking.Query, row: Ranking.Row, digest: Cursors.Digest)
    requires q.now == 0 && row.scholarship == 0
    ensures Run(c, Worlds(c, q, row, digest), Events(q, row, digest))
  {
    var ws, es := Worlds(c, q, row, digest), Events(q, row, digest);
    forall i | 0 <= i < |es| ensures Enabled(c, ws[i], es[i]) && ws[i + 1] == Next(c, ws[i], es[i]) {
      assert i in {0, 1, 2};
    }
  }

  lemma ReplayedAtTheEnd(
      c: Cursors.Codec, q: Ranking.Query, row: Ranking.Row, digest: Cursors.Digest, item: Ranking.Item)
    requires q.now == 0 && Ranking.Ranked(q, [row]) == [item] && item.scholarship == 0
    ensures Shown(Worlds(c, q, row, digest)[3], 0) == Some([item])
  {
    var w := Worlds(c, q, row, digest)[3];
    assert S.PageNumber(0, 1) == 1;
    var page := w.server.rows[S.Slot(0, 1)];
    assert page.items == Paging.PageAt([item], 0, 1) == [item];
    CollectOne((y: Ranking.Item) => if y.scholarship in w.published then Some(y) else None, item);
    assert StillPublished([item], w.published) == [item];
  }

  lemma LastWorld(c: Cursors.Codec, q: Ranking.Query, row: Ranking.Row, digest: Cursors.Digest)
    ensures var w := Worlds(c, q, row, digest)[3]; w.now == Status.HOUR && Scanned(w.index) == [row]
  {
  }

  /** The last world of the run, in which a replay shows `item` and a search ranks nothing. */
  ghost predicate Outlived(w: World, later: Ranking.Query, item: Ranking.Item) {
    && w.now == later.now && Shown(w, 0) == Some([item]) && Open(item)
    && Ranking.Ranked(later, Scanned(w.index)) == []
  }

  lemma ReplayOutlives(
      c: Cursors.Codec, q: Ranking.Query, later: Ranking.Query, row: Ranking.Row, digest: Cursors.Digest,
      item: Ranking.Item)
    requires q.now == 0 && later.now == Status.HOUR && item.scholarship == 0 && item.status.Open?
    requires Ranking.Ranked(q, [row]) == [item] && Ranking.Ranked(later, [row]) == []
    ensures Outlived(Worlds(c, q, row, digest)[3], later, item)
  {
    ReplayedAtTheEnd(c, q, row, digest, item);
    LastWorld(c, q, row, digest);
  }

  /** An hour later the replay shows the award as open, and a search over the same records shows nothing. */
  lemma ReplayOutlivesValidity(
      c: Cursors.Codec, lib: Facts.Library, t: Taxonomy.Taxonomy, cal: Status.Calendar, digest: Cursors.Digest)
    requires Samples.Reads(lib, t)
    ensures var q, later, row := QueryAt(lib, t, cal, 0), QueryAt(lib, t, cal, Status.HOUR), HourRow(lib, t);
            && Run(c, Worlds(c, q, row, digest), Events(q, row, digest))
            && Ranking.Result(q, row).Some?
            && Outlived(Worlds(c, q, row, digest)[3], later, Ranking.Result(q, row).value)
  {
    var q, later, row := QueryAt(lib, t, cal, 0), QueryAt(lib, t, cal, Status.HOUR), HourRow(lib, t);
    OpenThenGone(lib, t, cal);
    Ranking.ShownOpenIsInTime(q, row);
    OneRowRanked(q, row);
    OneRowRanked(later, row);
    WorldsAreARun(c, q, row, digest);
    ReplayOutlives(c, q, later, row, digest, Ranking.Result(q, row).value);
  }
}
