/** Every interleaving of fresh searches, page requests and replays against the stored response pages
    (src/app/api/routes.py, src/app/infra/sessions.py). */
module SearchRuns {
  import opened Wrappers
  import opened Ids
  import opened Cursors
  import opened Ranking
  import opened Paging
  import Invariants
  import Status

  /** The unique key of a stored response page. */
  datatype Slot = Slot(search: Id, page: nat)

  /** A stored response page: its results as they were shown, the counts of the whole list, and when all of
      it was evaluated. */
  datatype PageRow = PageRow(
    id: Id, digest: Digest, limit: nat, items: seq<Item>, total: nat, hasNext: bool,
    evaluatedAt: Status.Time, confirmed: map<Status.Detail, nat>, possible: nat, truncated: bool)

  /** What one request has ranked, and when. */
  datatype Listing = Listing(ranked: seq<Item>, evaluatedAt: Status.Time, truncated: bool)

  /** The stored pages, what has been signed so far, and the searches counted as completed. */
  datatype Server = Server(rows: map<Slot, PageRow>, minted: set<Payload>, completed: set<Id>, nextRow: Id)

  function PageNumber(offset: nat, limit: nat): nat
    requires limit >= 1
  {
    offset / limit + 1
  }

  function ResponseId(s: Server, slot: Slot): Id {
    if slot in s.rows then s.rows[slot].id else s.nextRow
  }

  /** One evaluated response: the page's row is written or rewritten, its next cursor signed, and page one
      counts the search as completed. */
  function Respond(s: Server, search: Id, digest: Digest, limit: nat, offset: nat, l: Listing): Server
    requires limit >= 1
  {
    var slot := Slot(search, PageNumber(offset, limit));
    var more := HasNext(|l.ranked|, offset, limit);
    Server(
      s.rows[slot := PageRow(ResponseId(s, slot), digest, limit, PageAt(l.ranked, offset, limit), |l.ranked|, more,
                             l.evaluatedAt, Counts(l.ranked), PossibleCount(l.ranked), l.truncated)],
      if more then s.minted + {Payload(offset + limit, digest, search, limit)} else s.minted,
      if slot.page == 1 then s.completed + {search} else s.completed,
      if slot in s.rows then s.nextRow else s.nextRow + 1)
  }

  /** Everything one response stores: its own page and no other, under the id the page had or a new one, with
      the counts of the whole list; it signs a cursor exactly if something follows. */
  ghost predicate Stores(before: Server, after: Server, search: Id, digest: Digest, limit: nat, offset: nat, l: Listing)
    requires limit >= 1
  {
    var slot, n := Slot(search, offset / limit + 1), |l.ranked|;
    && slot in after.rows && after.rows == before.rows[slot := after.rows[slot]]
    && (if slot in before.rows
        then after.rows[slot].id == before.rows[slot].id && after.nextRow == before.nextRow
        else after.rows[slot].id == before.nextRow && after.nextRow == before.nextRow + 1)
    && StoresList(after.rows[slot], digest, limit, offset, l)
    && after.minted ==
       before.minted + (if offset + limit < n then {Payload(offset + limit, digest, search, limit)} else {})
    && after.completed == before.completed + (if offset < limit then {search} else {})
  }

  ghost predicate StoresList(row: PageRow, digest: Digest, limit: nat, offset: nat, l: Listing) {
    && row.digest == digest && row.limit == limit && row.evaluatedAt == l.evaluatedAt && row.truncated == l.truncated
    && Cuts(row.items, l.ranked, offset, limit) && row.total == |l.ranked|
    && (row.hasNext <==> offset + limit < |l.ranked|)
    && row.possible == |PossibleOnes(l.ranked)|
    && forall s: Status.Detail ::
         var confirmed := |Invariants.Places(l.ranked, (item: Item) => item.fit.Confirmed? && item.status == s)|;
         if s in row.confirmed then row.confirmed[s] == confirmed else confirmed == 0
  }

  lemma FirstPageIff(offset: nat, limit: nat)
    requires limit >= 1
    ensures PageNumber(offset, limit) == 1 <==> offset < limit
  {
  }

  lemma CountsAreNumbers(items: seq<Item>)
    ensures forall s: Status.Detail ::
              var confirmed := |Invariants.Places(items, (item: Item) => item.fit.Confirmed? && item.status == s)|;
              if s in Counts(items) then Counts(items)[s] == confirmed else confirmed == 0
  {
    forall s: Status.Detail
      ensures var confirmed := |Invariants.Places(items, (item: Item) => item.fit.Confirmed? && item.status == s)|;
              if s in Counts(items) then Counts(items)[s] == confirmed else confirmed == 0
    {
      CountIsTheirNumber(items, s);
      assert s.Open? || s.ClosingSoon? || s.LikelyToOpen? || s.Unknown?;
    }
  }

  lemma RespondStores(s: Server, search: Id, digest: Digest, limit: nat, offset: nat, l: Listing)
    requires limit >= 1
    ensures Stores(s, Respond(s, search, digest, limit, offset, l), search, digest, limit, offset, l)
  {
    PageAtCuts(l.ranked, offset, limit);
    PossibleIsTheirNumber(l.ranked);
    CountsAreNumbers(l.ranked);
    FirstPageIff(offset, limit);
    var row := Respond(s, search, digest, limit, offset, l).rows[Slot(search, PageNumber(offset, limit))];
    assert StoresList(row, digest, limit, offset, l);
  }

  /** Presenting the first page again signs a cursor for the second. */
  function Replayed(s: Server, search: Id): Server {
    var slot := Slot(search, 1);
    if slot in s.rows && s.rows[slot].hasNext then
      var row := s.rows[slot];
      s.(minted := s.minted + {Payload(row.limit, row.digest, search, row.limit)})
    else s
  }

  datatype Event =
    | Submit(search: Id, digest: Digest, limit: nat, listing: Listing)
    | Turn(cursor: string, digest: Digest, limit: nat, listing: Listing)   // ranked anew for every page
    | Replay(search: Id)

  /** A fresh search id is new, limits are positive, an empty cursor is none, and signatures cannot be
      forged. */
  ghost predicate Enabled(c: Codec, s: Server, e: Event) {
    match e
    case Submit(search, _, limit, _) => limit >= 1 && Slot(search, 1) !in s.rows
    case Turn(cursor, _, limit, _) => limit >= 1 && cursor != "" && Authentic(c, cursor, s.minted)
    case Replay(_) => true
  }

  function Next(c: Codec, s: Server, e: Event): Server
    requires e.Replay? || e.limit >= 1
  {
    match e
    case Submit(search, digest, limit, l) => Respond(s, search, digest, limit, 0, l)
    case Turn(cursor, digest, limit, l) =>
      (match Decode(c, cursor, digest, limit)
       case Err(_) => s
       case Ok(state) => Respond(s, state.search, digest, limit, state.offset, l))
    case Replay(search) => Replayed(s, search)
  }

  const START := Server(map[], {}, {}, 0)

  ghost predicate Run(c: Codec, ss: seq<Server>, es: seq<Event>) {
    && |ss| == |es| + 1
    && ss[0] == START
    && forall i :: 0 <= i < |es| ==> Enabled(c, ss[i], es[i]) && ss[i + 1] == Next(c, ss[i], es[i])
  }

  // ----- Arithmetic of places -----

  lemma NextMultiple(offset: nat, limit: nat)
    requires limit >= 1 && offset % limit == 0
    ensures (offset + limit) % limit == 0
  {
    var k := offset / limit;
    assert offset == limit * k;
    assert offset + limit == limit * (k + 1);
    MultipleOf(limit, k + 1);
  }

  lemma Product(limit: int, d: int)
    requires limit >= 1
    ensures d >= 1 ==> limit * d >= limit
    ensures d <= -1 ==> limit * d <= -limit
  {
  }

  lemma MultipleOf(limit: nat, k: nat)
    requires limit >= 1
    ensures (limit * k) % limit == 0
  {
    var q := (limit * k) / limit;
    assert (limit * k) % limit == limit * (k - q);
    Product(limit, k - q);
  }

  /** On multiples of one limit the page number determines the offset. */
  lemma PageDeterminesOffset(a: nat, b: nat, limit: nat)
    requires limit >= 1 && a % limit == 0 && b % limit == 0
    ensures PageNumber(a, limit) == PageNumber(b, limit) <==> a == b
    ensures a >= limit ==> PageNumber(a, limit) >= 2
  {
    assert a == limit * (a / limit) && b == limit * (b / limit);
    if a >= limit && a / limit == 0 {
      assert false;
    }
  }

  // ----- The invariant -----

  predicate Opened(s: Server, search: Id, digest: Digest, limit: int) {
    Slot(search, 1) in s.rows && s.rows[Slot(search, 1)].digest == digest && s.rows[Slot(search, 1)].limit == limit
  }

  /** Whatever is signed continues a search whose first page is stored, under that page's filters and limit,
      at a positive multiple of the limit. */
  ghost predicate MintedOk(s: Server) {
    forall p :: p in s.minted ==>
      Opened(s, p.search, p.digest, p.limit) && p.limit >= 1 && p.offset >= p.limit && p.offset % p.limit == 0
  }

  /** Every stored page belongs to a search whose first page is stored, with the same filters and limit. */
  ghost predicate RowsOk(s: Server) {
    forall slot :: slot in s.rows ==>
      slot.page >= 1 && Opened(s, slot.search, s.rows[slot].digest, s.rows[slot].limit) && s.rows[slot].limit >= 1
  }

  ghost predicate FirstPagesOk(s: Server) {
    forall search :: Slot(search, 1) in s.rows ==>
      var row := s.rows[Slot(search, 1)];
      search in s.completed && (row.hasNext ==> Payload(row.limit, row.digest, search, row.limit) in s.minted)
  }

  ghost predicate ServerOk(s: Server) {
    MintedOk(s) && RowsOk(s) && FirstPagesOk(s)
  }

  /** The first page of a search, once stored, is never written again. */
  ghost predicate FirstPagesStay(before: Server, after: Server) {
    forall search :: Slot(search, 1) in before.rows ==>
      Slot(search, 1) in after.rows && after.rows[Slot(search, 1)] == before.rows[Slot(search, 1)]
  }

  /** `after` is `s` with the first row of a new search and the cursor that goes with it. */
  ghost predicate Opens(s: Server, search: Id, row: PageRow, after: Server) {
    && Slot(search, 1) !in s.rows && row.limit >= 1
    && after.rows == s.rows[Slot(search, 1) := row] && after.completed == s.completed + {search}
    && after.minted == if row.hasNext then s.minted + {Payload(row.limit, row.digest, search, row.limit)} else s.minted
  }

  lemma OpeningMinted(s: Server, search: Id, row: PageRow, after: Server)
    requires MintedOk(s) && Opens(s, search, row, after)
    ensures MintedOk(after)
  {
    assert row.limit % row.limit == 0;
  }

  lemma OpeningRows(s: Server, search: Id, row: PageRow, after: Server)
    requires RowsOk(s) && Opens(s, search, row, after)
    ensures RowsOk(after) && FirstPagesStay(s, after)
  {
    assert forall slot :: slot in s.rows ==> slot.search != search;
  }

  lemma OpeningFirstPages(s: Server, search: Id, row: PageRow, after: Server)
    requires FirstPagesOk(s) && Opens(s, search, row, after)
    ensures FirstPagesOk(after)
  {
  }

  lemma SubmitKeeps(s: Server, search: Id, digest: Digest, limit: nat, l: Listing)
    requires ServerOk(s) && limit >= 1 && Slot(search, 1) !in s.rows
    ensures var after := Respond(s, search, digest, limit, 0, l);
            ServerOk(after) && FirstPagesStay(s, after)
  {
    var after := Respond(s, search, digest, limit, 0, l);
    assert PageNumber(0, limit) == 1;
    var row := after.rows[Slot(search, 1)];
    OpeningMinted(s, search, row, after);
    OpeningRows(s, search, row, after);
    OpeningFirstPages(s, search, row, after);
  }

  lemma TurnKeeps(s: Server, search: Id, digest: Digest, limit: nat, offset: nat, l: Listing)
    requires ServerOk(s) && Payload(offset, digest, search, limit) in s.minted && limit >= 1
    ensures var after := Respond(s, search, digest, limit, offset, l);
            ServerOk(after) && FirstPagesStay(s, after)
  {
    PageDeterminesOffset(offset, 0, limit);
    NextMultiple(offset, limit);
  }

  /** Replaying signs nothing new: the first page's own response signed the very same cursor. */
  lemma ReplayChangesNothing(s: Server, search: Id)
    requires FirstPagesOk(s)
    ensures Replayed(s, search) == s
  {
    if Slot(search, 1) in s.rows && s.rows[Slot(search, 1)].hasNext {
      var row := s.rows[Slot(search, 1)];
      assert s.minted + {Payload(row.limit, row.digest, search, row.limit)} == s.minted;
    }
  }

  lemma StepKeeps(c: Codec, s: Server, e: Event)
    requires Lawful(c) && ServerOk(s) && Enabled(c, s, e)
    ensures ServerOk(Next(c, s, e)) && FirstPagesStay(s, Next(c, s, e))
  {
    match e {
      case Submit(search, digest, limit, l) => SubmitKeeps(s, search, digest, limit, l);
      case Turn(cursor, digest, limit, l) =>
        if Decode(c, cursor, digest, limit).Ok? {
          var state := Decode(c, cursor, digest, limit).value;
          AcceptedWasMinted(c, cursor, digest, limit, s.minted);
          TurnKeeps(s, state.search, digest, limit, state.offset, l);
        }
      case Replay(search) => ReplayChangesNothing(s, search);
    }
  }

  lemma {:induction false} RunIsOk(c: Codec, ss: seq<Server>, es: seq<Event>, i: nat)
    requires Lawful(c) && Run(c, ss, es) && i < |ss|
    ensures ServerOk(ss[i])
  {
    if i > 0 {
      RunIsOk(c, ss, es, i - 1);
      StepKeeps(c, ss[i - 1], es[i - 1]);
    }
  }

  /** The first page of a search stays what its submission stored, whatever pages and replays follow. */
  lemma {:induction false} FirstPageIsForEver(c: Codec, ss: seq<Server>, es: seq<Event>, i: nat, j: nat)
    requires Lawful(c) && Run(c, ss, es) && i <= j < |ss|
    ensures FirstPagesStay(ss[i], ss[j])
  {
    if i < j {
      FirstPageIsForEver(c, ss, es, i, j - 1);
      RunIsOk(c, ss, es, j - 1);
      StepKeeps(c, ss[j - 1], es[j - 1]);
    }
  }

  // ----- Places -----

  datatype Place = Place(search: Id, digest: Digest, limit: nat, offset: nat)

  /** Where in which search an accepted request reads. */
  function PlaceOf(c: Codec, e: Event): Option<Place> {
    match e
    case Submit(search, digest, limit, _) => Some(Place(search, digest, limit, 0))
    case Turn(cursor, digest, limit, _) =>
      (match Decode(c, cursor, digest, limit)
       case Err(_) => None
       case Ok(state) => Some(Place(state.search, digest, limit, state.offset)))
    case Replay(_) => None
  }

  /** Every accepted request reads at a multiple of its limit, a positive one unless it submits the search,
      under the filters and limit of the stored first page. */
  lemma PlacesAreMultiples(c: Codec, ss: seq<Server>, es: seq<Event>, i: nat)
    requires Lawful(c) && Run(c, ss, es) && i < |es| && PlaceOf(c, es[i]).Some?
    ensures var p := PlaceOf(c, es[i]).value;
            && p.limit >= 1 && p.offset % p.limit == 0
            && (es[i].Turn? ==> p.offset >= p.limit)
            && Opened(ss[i + 1], p.search, p.digest, p.limit)
            && Slot(p.search, PageNumber(p.offset, p.limit)) in ss[i + 1].rows
  {
    var p := PlaceOf(c, es[i]).value;
    assert Enabled(c, ss[i], es[i]);
    RunIsOk(c, ss, es, i);
    RunIsOk(c, ss, es, i + 1);
    if es[i].Turn? {
      AcceptedWasMinted(c, es[i].cursor, es[i].digest, es[i].limit, ss[i].minted);
      assert Payload(p.offset, p.digest, p.search, p.limit) in ss[i].minted;
    }
    assert Slot(p.search, PageNumber(p.offset, p.limit)) in ss[i + 1].rows;
  }

  /** Two accepted requests of one search have the same filters and limit, and write the same row exactly
      when they read at the same offset. */
  lemma RowsAreNotShared(c: Codec, ss: seq<Server>, es: seq<Event>, i: nat, j: nat)
    requires Lawful(c) && Run(c, ss, es) && i <= j < |es|
    requires PlaceOf(c, es[i]).Some? && PlaceOf(c, es[j]).Some?
    requires PlaceOf(c, es[i]).value.search == PlaceOf(c, es[j]).value.search
    ensures var p, r := PlaceOf(c, es[i]).value, PlaceOf(c, es[j]).value;
            && p.limit == r.limit && p.limit >= 1 && p.digest == r.digest
            && (PageNumber(p.offset, p.limit) == PageNumber(r.offset, r.limit) <==> p.offset == r.offset)
  {
    var p, r := PlaceOf(c, es[i]).value, PlaceOf(c, es[j]).value;
    PlacesAreMultiples(c, ss, es, i);
    PlacesAreMultiples(c, ss, es, j);
    FirstPageIsForEver(c, ss, es, i + 1, j + 1);
    PageDeterminesOffset(p.offset, r.offset, p.limit);
  }

  // ----- Response ids -----

  /** Rows have their own ids. */
  ghost predicate IdsDiffer(s: Server) {
    && (forall slot :: slot in s.rows ==> s.rows[slot].id < s.nextRow)
    && forall a, b :: a in s.rows && b in s.rows && s.rows[a].id == s.rows[b].id ==> a == b
  }

  ghost predicate IdsStay(before: Server, after: Server) {
    forall slot :: slot in before.rows ==> slot in after.rows && after.rows[slot].id == before.rows[slot].id
  }

  lemma RespondIds(s: Server, search: Id, digest: Digest, limit: nat, offset: nat, l: Listing)
    requires IdsDiffer(s) && limit >= 1
    ensures var after := Respond(s, search, digest, limit, offset, l); IdsDiffer(after) && IdsStay(s, after)
  {
  }

  lemma StepIds(c: Codec, s: Server, e: Event)
    requires IdsDiffer(s) && Enabled(c, s, e)
    ensures IdsDiffer(Next(c, s, e)) && IdsStay(s, Next(c, s, e))
  {
    var p := PlaceOf(c, e);
    if p.Some? {
      RespondIds(s, p.value.search, p.value.digest, p.value.limit, p.value.offset, e.listing);
    }
  }

  lemma {:induction false} RowsHaveIds(c: Codec, ss: seq<Server>, es: seq<Event>, i: nat)
    requires Run(c, ss, es) && i < |ss|
    ensures IdsDiffer(ss[i])
  {
    if i > 0 {
      RowsHaveIds(c, ss, es, i - 1);
      StepIds(c, ss[i - 1], es[i - 1]);
    }
  }

  /** Asking for a page again rewrites its row under the same response id: one row per page, for ever. */
  lemma {:induction false} OneRowPerPage(c: Codec, ss: seq<Server>, es: seq<Event>, i: nat, j: nat)
    requires Run(c, ss, es) && i <= j < |ss|
    ensures IdsDiffer(ss[j]) && IdsStay(ss[i], ss[j])
  {
    RowsHaveIds(c, ss, es, j);
    if i < j {
      OneRowPerPage(c, ss, es, i, j - 1);
      StepIds(c, ss[j - 1], es[j - 1]);
    }
  }
}
