/** The search handler and its replay over the stored response pages (src/app/api/routes.py,
    src/app/infra/sessions.py). */
module SearchService {
  import opened Wrappers
  import opened Ids
  import opened Cursors
  import opened Paging
  import opened SearchRuns
  import Ranking
  import Status

  const RETENTION := 30 * Status.DAY

  const PUBLISHED_CYCLE_SCAN_LIMIT := 2000

  datatype Response = Response(
    data: seq<Ranking.Item>, nextCursor: Option<string>, search: Id, response: Id,
    confirmedCounts: map<Status.Detail, nat>, possibleCount: nat, truncated: bool)

  /** A replay of page one. */
  datatype ReplayResponse = ReplayResponse(
    data: seq<Ranking.Item>, nextCursor: Option<string>, response: Id, evaluatedAt: Status.Time,
    confirmedCounts: map<Status.Detail, nat>, possibleCount: nat, truncated: bool)

  /** The rows the scan reads, in the order of their ids. */
  function Scanned(rows: seq<Ranking.Row>): seq<Ranking.Row> {
    if |rows| > PUBLISHED_CYCLE_SCAN_LIMIT then rows[..PUBLISHED_CYCLE_SCAN_LIMIT] else rows
  }

  lemma ScannedIsAPrefix(rows: seq<Ranking.Row>)
    ensures Scanned(rows) == rows[..if |rows| <= 2000 then |rows| else 2000]
  {
  }

  /** Everything the request matches, ranked at its own time. */
  function ListingOf(q: Ranking.Query, published: seq<Ranking.Row>): Listing {
    Listing(Ranking.Ranked(q, Scanned(published)), q.now, |published| > PUBLISHED_CYCLE_SCAN_LIMIT)
  }

  /** The list shows exactly what is to be shown of the rows, and no uncertain award before one whose
      conditions are known. */
  ghost predicate ListsShown(q: Ranking.Query, rows: seq<Ranking.Row>, ranked: seq<Ranking.Item>) {
    && (forall item :: item in ranked <==> exists row :: row in rows && Ranking.Result(q, row) == Some(item))
    && (forall row :: row in rows ==> Ranking.Shows(q, row, Ranking.Result(q, row)))
    && (forall i, j, row, other ::
          && 0 <= i < |ranked| && 0 <= j < |ranked| && row in rows && other in rows
          && Ranking.Result(q, row) == Some(ranked[i]) && Ranking.Result(q, other) == Some(ranked[j])
          && !Ranking.Uncertain(row.facts) && Ranking.Uncertain(other.facts)
          ==> i < j)
  }

  lemma ListingShows(q: Ranking.Query, rows: seq<Ranking.Row>)
    ensures ListsShown(q, rows, Ranking.Ranked(q, rows))
    ensures PossibleCount(Ranking.Ranked(q, rows)) == Ranking.UncertainShown(q, rows)
  {
    var ranked := Ranking.Ranked(q, rows);
    Ranking.RankedMeans(q, rows);
    Ranking.PossibleRanked(q, rows);
    PossibleIsTheirNumber(ranked);
    forall row | row in rows ensures Ranking.Shows(q, row, Ranking.Result(q, row)) {
      Ranking.ResultShows(q, row);
    }
    forall i, j, row, other |
      0 <= i < |ranked| && 0 <= j < |ranked| && row in rows && other in rows
      && Ranking.Result(q, row) == Some(ranked[i]) && Ranking.Result(q, other) == Some(ranked[j])
      && !Ranking.Uncertain(row.facts) && Ranking.Uncertain(other.facts)
      ensures i < j
    {
      Ranking.KnownComeFirst(q, rows, i, j, row, other);
    }
  }

  /** What a replay shows of a stored page: its results as they were, but for those whose record is no
      longer published. */
  function StillPublished(items: seq<Ranking.Item>, published: set<Id>): seq<Ranking.Item> {
    Ranking.Collect((item: Ranking.Item) => if item.scholarship in published then Some(item) else None, items)
  }

  /** Page one of the search, while it is kept. */
  function Kept(rows: map<Slot, PageRow>, search: Id, now: Status.Time): Option<PageRow> {
    if Slot(search, 1) in rows && now < rows[Slot(search, 1)].evaluatedAt + RETENTION then Some(rows[Slot(search, 1)])
    else None
  }

  /** Where the request reads: page one of a new search, or where its cursor points. An empty cursor is
      none. */
  function StartOf(c: Codec, cursor: Option<string>, digest: Digest, limit: nat, newId: Id): Result<CursorState> {
    if cursor.None? || cursor.value == "" then Ok(CursorState(0, newId)) else Decode(c, cursor.value, digest, limit)
  }

  class SearchService {
    var rows: map<Slot, PageRow>
    var completed: set<Id>
    var nextRow: Id
    ghost var minted: set<Payload>

    ghost function State(): Server
      reads this
    {
      Server(rows, minted, completed, nextRow)
    }

    constructor ()
      ensures State() == START
    {
      rows, completed, nextRow, minted := map[], {}, 0, {};
    }

    /** Upsert: an existing row keeps its id and gets every other value anew. */
    method RecordSearchResponse(slot: Slot, page: PageRow) returns (id: Id)
      modifies `rows, `nextRow
      ensures id == ResponseId(old(State()), slot)
      ensures rows == old(rows)[slot := page.(id := id)]
      ensures nextRow == if slot in old(rows) then old(nextRow) else old(nextRow) + 1
    {
      if slot in rows {
        id := rows[slot].id;
      } else {
        id := nextRow;
        nextRow := nextRow + 1;
      }
      rows := rows[slot := page.(id := id)];
    }

    /** Counts, cuts the page, signs the next cursor and stores the response. */
    method Answer(c: Codec, l: Listing, digest: Digest, limit: nat, start: CursorState) returns (r: Response)
      requires limit >= 1
      modifies this
      ensures State() == Respond(old(State()), start.search, digest, limit, start.offset, l)
      ensures Stores(old(State()), State(), start.search, digest, limit, start.offset, l)
      ensures Cuts(r.data, l.ranked, start.offset, limit)
      ensures r.nextCursor.Some? <==> start.offset + limit < |l.ranked|
      ensures r.search == start.search && r.truncated == l.truncated
      ensures r.response == ResponseId(old(State()), Slot(start.search, PageNumber(start.offset, limit)))
      ensures r.data == PageAt(l.ranked, start.offset, limit)
      ensures r.nextCursor == NextCursor(c, |l.ranked|, start.offset, digest, start.search, limit)
      ensures forall s :: if s in r.confirmedCounts then r.confirmedCounts[s] == Count(l.ranked, s)
                          else Count(l.ranked, s) == 0
      ensures r.possibleCount == PossibleCount(l.ranked)
    {
      RespondStores(State(), start.search, digest, limit, start.offset, l);
      PageAtCuts(l.ranked, start.offset, limit);
      var offset, search, ranked := start.offset, start.search, l.ranked;
      var confirmed := ConfirmedCounts(ranked);
      var data := PageAt(ranked, offset, limit);
      var hasNext := HasNext(|ranked|, offset, limit);
      var next := None;
      if hasNext {
        next := Some(Encode(c, Payload(offset + limit, digest, search, limit)));
        minted := minted + {Payload(offset + limit, digest, search, limit)};
      }
      var page := PageNumber(offset, limit);
      var id := RecordSearchResponse(
        Slot(search, page),
        PageRow(0, digest, limit, data, |ranked|, hasNext, l.evaluatedAt, confirmed, PossibleCount(ranked),
                l.truncated));
      if page == 1 {
        completed := completed + {search};
      }
      r := Response(data, next, search, id, confirmed, PossibleCount(ranked), l.truncated);
    }

    /** One search request, over at most the first 2000 rows. An unacceptable cursor changes nothing; otherwise
        the answer is the page at the cursor's place in the list ranked now, and its row is stored. */
    method Search(c: Codec, q: Ranking.Query, published: seq<Ranking.Row>, digest: Digest, limit: nat,
                  cursor: Option<string>, newId: Id)
      returns (r: Result<Response>)
      requires limit >= 1
      modifies this
      ensures r.Err? <==> StartOf(c, cursor, digest, limit, newId).Err?
      ensures cursor.None? || cursor.value == "" ==> r.Ok? && r.value.search == newId
      ensures r.Err? ==> State() == old(State())
      ensures r.Ok? ==>
                var start := StartOf(c, cursor, digest, limit, newId).value;
                var ranked := Ranking.Ranked(q, Scanned(published));
                && State() == Respond(old(State()), start.search, digest, limit, start.offset, ListingOf(q, published))
                && r.value.search == start.search
                && r.value.data == PageAt(ranked, start.offset, limit)
                && r.value.nextCursor == NextCursor(c, |ranked|, start.offset, digest, start.search, limit)
                && r.value.response == ResponseId(old(State()), Slot(start.search, PageNumber(start.offset, limit)))
                && (forall s :: if s in r.value.confirmedCounts then r.value.confirmedCounts[s] == Count(ranked, s)
                                else Count(ranked, s) == 0)
                && r.value.possibleCount == PossibleCount(ranked)
                && r.value.truncated == (|published| > 2000)
                && Stores(old(State()), State(), start.search, digest, limit, start.offset, ListingOf(q, published))
                && Cuts(r.value.data, ranked, start.offset, limit)
                && (r.value.nextCursor.Some? <==> start.offset + limit < |ranked|)
      ensures r.Ok? ==> r.value.possibleCount == Ranking.UncertainShown(q, Scanned(published))
      ensures r.Ok? ==> ListsShown(q, Scanned(published), Ranking.Ranked(q, Scanned(published)))
    {
      ListingShows(q, Scanned(published));
      var start := StartOf(c, cursor, digest, limit, newId);
      if start.Err? {
        return Err(start.error);
      }
      var answer := Answer(c, ListingOf(q, published), digest, limit, start.value);
      r := Ok(answer);
    }

    /** The stored first page again, nothing evaluated anew: its results but for those of records no longer
        published, its counts as they were, and a cursor to the second. */
    method ReplaySearch(c: Codec, search: Id, published: set<Id>, now: Status.Time) returns (r: Option<ReplayResponse>)
      modifies `minted
      ensures r.Some? <==> Kept(rows, search, now).Some?
      ensures r.Some? <==> Slot(search, 1) in rows && now < rows[Slot(search, 1)].evaluatedAt + 2_592_000_000_000
      ensures State() == if r.Some? then Replayed(old(State()), search) else old(State())
      ensures r.Some? ==>
                var row := Kept(rows, search, now).value;
                && r.value.data == StillPublished(row.items, published)
                && r.value.nextCursor ==
                   (if row.hasNext then Some(Encode(c, Payload(row.limit, row.digest, search, row.limit))) else None)
                && r.value.response == row.id && r.value.evaluatedAt == row.evaluatedAt
                && r.value.confirmedCounts == row.confirmed && r.value.possibleCount == row.possible
                && r.value.truncated == row.truncated
    {
      if Slot(search, 1) !in rows || rows[Slot(search, 1)].evaluatedAt + RETENTION <= now {
        return None;
      }
      var row := rows[Slot(search, 1)];
      var data := StillPublished(row.items, published);
      var next := None;
      if row.hasNext {
        minted := minted + {Payload(row.limit, row.digest, search, row.limit)};
        next := Some(Encode(c, Payload(row.limit, row.digest, search, row.limit)));
      }
      return Some(ReplayResponse(data, next, row.id, row.evaluatedAt, row.confirmed, row.possible, row.truncated));
    }
  }
}
