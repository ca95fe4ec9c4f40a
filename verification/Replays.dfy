/** What a replayed search page shows, in every run of searches, replays and changes of the published
    records. A replay evaluates nothing: it is a stored read. */
module Replays {
  import opened Wrappers
  import opened Ids
  import opened Cursors
  import opened Paging
  import opened SearchService
  import S = SearchRuns
  import Ranking
  import Facts
  import Status

  /** The stored pages, the cycles of the published records in the order of their ids, those records, and the
      clock. */
  datatype World = World(server: S.Server, index: seq<Ranking.Row>, published: set<Id>, now: Status.Time)

  /** `Change` is whatever publishing, edits, both freshness sweeps and withdrawals do to the records. */
  datatype Event =
    | Ask(request: S.Event, query: Ranking.Query)
    | Replay(search: Id)
    | Change(index: seq<Ranking.Row>, published: set<Id>)
    | Tick(to: Status.Time)

  ghost predicate Enabled(c: Codec, w: World, e: Event) {
    match e
    case Ask(request, q) =>
      && !request.Replay? && S.Enabled(c, w.server, request)
      && q.now == w.now && request.listing == ListingOf(q, w.index)
    case Replay(_) => true
    case Change(index, published) => forall row :: row in index ==> row.scholarship in published
    case Tick(to) => w.now <= to
  }

  function Next(c: Codec, w: World, e: Event): World
    requires e.Ask? ==> !e.request.Replay? && e.request.limit >= 1
  {
    match e
    case Ask(request, _) => w.(server := S.Next(c, w.server, request))
    case Replay(search) => w.(server := S.Replayed(w.server, search))
    case Change(index, published) => w.(index := index, published := published)
    case Tick(to) => w.(now := to)
  }

  const EMPTY := World(S.START, [], {}, 0)

  ghost predicate Run(c: Codec, ws: seq<World>, es: seq<Event>) {
    && |ws| == |es| + 1
    && ws[0] == EMPTY
    && forall i :: 0 <= i < |es| ==> Enabled(c, ws[i], es[i]) && ws[i + 1] == Next(c, ws[i], es[i])
  }

  /** What a replay shows, if the search is still kept. */
  function Shown(w: World, search: Id): Option<seq<Ranking.Item>> {
    match Kept(w.server.rows, search, w.now)
    case None => None
    case Some(row) => Some(StillPublished(row.items, w.published))
  }

  predicate Open(item: Ranking.Item) {
    item.status.Open? || item.status.ClosingSoon?
  }

  // ----- Where a stored first page comes from -----

  lemma StepServer(c: Codec, w: World, e: Event)
    requires Lawful(c) && S.ServerOk(w.server) && Enabled(c, w, e)
    ensures S.ServerOk(Next(c, w, e).server) && S.FirstPagesStay(w.server, Next(c, w, e).server)
    ensures w.now <= Next(c, w, e).now
  {
    if e.Ask? {
      S.StepKeeps(c, w.server, e.request);
    } else if e.Replay? {
      S.ReplayChangesNothing(w.server, e.search);
    }
  }

  lemma {:induction false} RunServer(c: Codec, ws: seq<World>, es: seq<Event>, i: nat)
    requires Lawful(c) && Run(c, ws, es) && i < |ws|
    ensures S.ServerOk(ws[i].server)
  {
    if i > 0 {
      RunServer(c, ws, es, i - 1);
      StepServer(c, ws[i - 1], es[i - 1]);
    }
  }

  /** The event submits this search. */
  predicate Submits(e: Event, search: Id) {
    e.Ask? && e.request.Submit? && e.request.search == search
  }

  lemma NewFirstPage(c: Codec, w: World, e: Event, search: Id)
    requires Lawful(c) && S.ServerOk(w.server) && Enabled(c, w, e)
    requires S.Slot(search, 1) !in w.server.rows && S.Slot(search, 1) in Next(c, w, e).server.rows
    ensures Submits(e, search)
  {
    if e.Ask? && e.request.Turn? && Decode(c, e.request.cursor, e.request.digest, e.request.limit).Ok? {
      TurnsAnOpenSearch(c, w.server, e.request);
    }
  }

  lemma TurnsAnOpenSearch(c: Codec, s: S.Server, e: S.Event)
    requires Lawful(c) && S.MintedOk(s) && S.Enabled(c, s, e) && e.Turn?
    requires Decode(c, e.cursor, e.digest, e.limit).Ok?
    ensures S.Slot(Decode(c, e.cursor, e.digest, e.limit).value.search, 1) in s.rows
  {
    AcceptedWasMinted(c, e.cursor, e.digest, e.limit, s.minted);
    var state := Decode(c, e.cursor, e.digest, e.limit).value;
    assert Payload(state.offset, e.digest, state.search, e.limit) in s.minted;
  }

  /** What the submission stored as page one. */
  ghost predicate StoredBy(w: World, e: Event, row: S.PageRow)
    requires e.Ask? && e.request.Submit?
  {
    var ranked := Ranking.Ranked(e.query, Scanned(w.index));
    && row.items == PageAt(ranked, 0, e.request.limit) && row.hasNext == HasNext(|ranked|, 0, e.request.limit)
    && row.limit == e.request.limit && row.digest == e.request.digest
    && row.confirmed == Counts(ranked) && row.possible == PossibleCount(ranked)
    && row.evaluatedAt == w.now == e.query.now
  }

  lemma SubmissionStores(c: Codec, w: World, e: Event, search: Id)
    requires Enabled(c, w, e) && Submits(e, search)
    ensures S.Slot(search, 1) in Next(c, w, e).server.rows
    ensures StoredBy(w, e, Next(c, w, e).server.rows[S.Slot(search, 1)])
  {
    assert S.PageNumber(0, e.request.limit) == 1;
  }

  /** Every stored first page was ranked by its submission, from the records as they were then, and has
      not changed since. */
  lemma {:induction false} PageIsItsSubmission(c: Codec, ws: seq<World>, es: seq<Event>, j: nat, search: Id)
    returns (i: nat)
    requires Lawful(c) && Run(c, ws, es) && j < |ws| && S.Slot(search, 1) in ws[j].server.rows
    ensures i < j && Submits(es[i], search) && ws[i].now <= ws[j].now
    ensures StoredBy(ws[i], es[i], ws[j].server.rows[S.Slot(search, 1)])
  {
    assert j > 0;
    var n := j - 1;
    RunServer(c, ws, es, n);
    StepServer(c, ws[n], es[n]);
    assert Enabled(c, ws[n], es[n]) && ws[n + 1] == Next(c, ws[n], es[n]);
    if S.Slot(search, 1) in ws[n].server.rows {
      i := PageIsItsSubmission(c, ws, es, n, search);
    } else {
      i := n;
      NewFirstPage(c, ws[n], es[n], search);
      SubmissionStores(c, ws[n], es[n], search);
    }
  }

  /** So the cursor a replay hands out is, in every run, the one the submission handed out. */
  lemma ReplayedCursorIsTheFirst(c: Codec, ws: seq<World>, es: seq<Event>, j: nat, search: Id) returns (i: nat)
    requires Lawful(c) && Run(c, ws, es) && j < |ws| && S.Slot(search, 1) in ws[j].server.rows
    ensures i < j && Submits(es[i], search)
    ensures var row := ws[j].server.rows[S.Slot(search, 1)];
            var total := |Ranking.Ranked(es[i].query, Scanned(ws[i].index))|;
            (if row.hasNext then Some(Encode(c, Payload(row.limit, row.digest, search, row.limit))) else None)
            == NextCursor(c, total, 0, es[i].request.digest, search, es[i].request.limit)
  {
    i := PageIsItsSubmission(c, ws, es, j, search);
  }

  // ----- What a replay claims -----

  function ScheduleOf(q: Ranking.Query, row: Ranking.Row): Status.Schedule {
    Facts.ScheduleOf(Facts.Derive(q.lib, q.t, row.facts))
  }

  predicate InTime(q: Ranking.Query, row: Ranking.Row, now: Status.Time) {
    !Status.Passed(Status.Cutoff(ScheduleOf(q, row), q.cal), now) && !Status.Passed(row.validUntil, now)
  }

  /** A search with the same profile at another time would still show the row as open. */
  predicate OpenAt(q: Ranking.Query, row: Ranking.Row, now: Status.Time) {
    var r := Ranking.Result(q.(now := now), row);
    r.Some? && Open(r.value)
  }

  lemma OpenAtIff(q: Ranking.Query, row: Ranking.Row, later: Status.Time)
    requires Ranking.Result(q, row).Some? && Open(Ranking.Result(q, row).value)
    ensures InTime(q, row, q.now) && row.publicStatus.OpenVerified?
    ensures OpenAt(q, row, later) <==> InTime(q, row, later)
  {
    Ranking.ShownOpenIsInTime(q, row);
    if Ranking.Result(q.(now := later), row).Some? {
      Ranking.ShownOpenIsInTime(q.(now := later), row);
    }
  }

  lemma {:induction false} CollectedToo<A, B>(f: A -> Option<B>, xs: seq<A>, x: A)
    requires x in xs && f(x).Some?
    ensures f(x).value in Ranking.Collect(f, xs)
  {
    if x != xs[0] {
      CollectedToo(f, xs[1..], x);
    }
  }

  /** Of a stored page a replay shows exactly the results whose record is published now. */
  lemma StillPublishedIff(items: seq<Ranking.Item>, published: set<Id>, item: Ranking.Item)
    ensures item in StillPublished(items, published) <==> item in items && item.scholarship in published
  {
    var f := (y: Ranking.Item) => if y.scholarship in published then Some(y) else None;
    if item in StillPublished(items, published) {
      var x := Ranking.Collected(f, items, item);
    } else if item in items && f(item).Some? {
      CollectedToo(f, items, item);
    }
  }

  lemma OnTheList(q: Ranking.Query, rows: seq<Ranking.Row>, limit: nat, item: Ranking.Item) returns (row: Ranking.Row)
    requires item in PageAt(Ranking.Ranked(q, Scanned(rows)), 0, limit)
    ensures row in rows && Ranking.Result(q, row) == Some(item)
  {
    var ranked := Ranking.Ranked(q, Scanned(rows));
    var k :| 0 <= k < |PageAt(ranked, 0, limit)| && PageAt(ranked, 0, limit)[k] == item;
    assert ranked[k] == item;
    row := Ranking.RowOf(q, Scanned(rows), item);
  }

  /** In every run: what a replay shows as open belongs to a record that is published now, and was open, before
      its cutoff and before its validity ended when the search was submitted, less than thirty days ago. It
      is what a search over the stored row would show now exactly when neither has passed meanwhile. */
  lemma ReplayedOpenWasInTime(
      c: Codec, ws: seq<World>, es: seq<Event>, j: nat, search: Id, item: Ranking.Item)
    returns (i: nat, row: Ranking.Row)
    requires Lawful(c) && Run(c, ws, es) && j < |ws|
    requires Shown(ws[j], search).Some? && item in Shown(ws[j], search).value && Open(item)
    ensures i < j && Submits(es[i], search) && row in ws[i].index
    ensures ws[i].now <= ws[j].now < ws[i].now + RETENTION
    ensures item.scholarship == row.scholarship && item.scholarship in ws[j].published
    ensures Ranking.Result(es[i].query, row) == Some(item)
    ensures row.publicStatus.OpenVerified? && InTime(es[i].query, row, ws[i].now)
    ensures OpenAt(es[i].query, row, ws[j].now) <==> InTime(es[i].query, row, ws[j].now)
  {
    i := PageIsItsSubmission(c, ws, es, j, search);
    var page := ws[j].server.rows[S.Slot(search, 1)];
    StillPublishedIff(page.items, ws[j].published, item);
    row := OnTheList(es[i].query, ws[i].index, es[i].request.limit, item);
    OpenAtIff(es[i].query, row, ws[j].now);
    Ranking.ShownOpenIsInTime(es[i].query, row);
  }

  /** The row is behind an open result of the page. */
  ghost predicate Behind(q: Ranking.Query, items: seq<Ranking.Item>, row: Ranking.Row) {
    var r := Ranking.Result(q, row);
    r.Some? && r.value in items && Open(r.value)
  }

  /** A search over the same rows would show all of the page's open results as open at that time. */
  ghost predicate AllOpenAt(q: Ranking.Query, index: seq<Ranking.Row>, items: seq<Ranking.Item>, now: Status.Time) {
    forall row :: row in index && Behind(q, items, row) ==> OpenAt(q, row, now)
  }

  ghost predicate AllInTime(q: Ranking.Query, index: seq<Ranking.Row>, items: seq<Ranking.Item>, now: Status.Time) {
    forall row :: row in index && Behind(q, items, row) ==> InTime(q, row, now)
  }

  lemma OpenRowsIff(q: Ranking.Query, items: seq<Ranking.Item>, row: Ranking.Row, later: Status.Time)
    requires Behind(q, items, row)
    ensures OpenAt(q, row, later) <==> InTime(q, row, later)
  {
    OpenAtIff(q, row, later);
  }

  /** A whole replayed page is true of the rows it was stored from exactly when none of its open results has
      outlived its cutoff or its validity. */
  lemma ReplayIsTrueIff(c: Codec, ws: seq<World>, es: seq<Event>, j: nat, search: Id) returns (i: nat)
    requires Lawful(c) && Run(c, ws, es) && j < |ws| && Shown(ws[j], search).Some?
    ensures i < j && Submits(es[i], search)
    ensures AllOpenAt(es[i].query, ws[i].index, Shown(ws[j], search).value, ws[j].now)
            <==> AllInTime(es[i].query, ws[i].index, Shown(ws[j], search).value, ws[j].now)
  {
    i := PageIsItsSubmission(c, ws, es, j, search);
    TrueIffInTime(es[i].query, ws[i].index, Shown(ws[j], search).value, ws[j].now);
  }

  lemma TrueIffInTime(q: Ranking.Query, index: seq<Ranking.Row>, items: seq<Ranking.Item>, later: Status.Time)
    ensures AllOpenAt(q, index, items, later) <==> AllInTime(q, index, items, later)
  {
    forall row | row in index && Behind(q, items, row) ensures OpenAt(q, row, later) <==> InTime(q, row, later) {
      OpenRowsIff(q, items, row, later);
    }
  }
}
