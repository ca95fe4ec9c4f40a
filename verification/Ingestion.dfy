/** How discoveries come into being: feed imports and list pages that an agent splits
    (src/app/infra/ingestion.py, src/app/infra/agent_integration.py, src/app/domain/ingestion.py). */
module Ingestion {
  import opened Wrappers
  import opened Ids
  import opened Database
  import Invariants

  /** The text library: URL canonicalization with its `ValueError`, whitespace, SHA-256, identity keys. */
  datatype Library = Library(
    canonical: Url -> Result<Url>, strip: string -> string, digest: string -> ContentHash, keyOf: Title -> IdentityKey)

  datatype Candidate = Candidate(url: Url, hash: ContentHash, title: Title, excerpt: Excerpt)

  function OrEmpty(e: Excerpt): string {
    if e.text.Some? then e.text.value else ""
  }

  function Prepare(lib: Library, url: Url, title: Title, excerpt: Excerpt): Result<Candidate> {
    match lib.canonical(url)
    case Err(why) => Err(why)
    case Ok(u) =>
      var t := lib.strip(title.text);
      var hash := lib.digest(u.text + "\n" + t + "\n" + lib.strip(OrEmpty(excerpt)));
      var stripped := if OrEmpty(excerpt) != "" then Some(lib.strip(OrEmpty(excerpt))) else None;
      Ok(Candidate(u, hash, Title(t), Excerpt(stripped)))
  }

  /** The tables of this component. */
  datatype Shelf = Shelf(
    sources: map<Id, bool>,        // source -> active
    pages: map<Page, Time>,        // page -> last_seen_at
    discoveries: Discoveries,
    jobs: multiset<JobRow>,
    quarantine: seq<Quarantined>,
    nextId: Id)

  datatype FeedRecord = FeedRecord(source: Id, url: Url, title: Title, excerpt: Excerpt)

  /** A record and the wall-clock time at which the loop reaches it. */
  datatype Arrival = Arrival(record: FeedRecord, at: Time)

  datatype Verdict = Imported | Repeated | Changed | Rejected(reason: string)

  // ----- Lookups -----

  function Same(ds: Discoveries, page: Page, hash: ContentHash): set<Id> {
    set d | d in ds && ds[d].page == page && ds[d].contentHash == hash
  }

  /** The discoveries of a page that were not split out of another one. */
  function Revisions(ds: Discoveries, page: Page): set<Id> {
    set d | d in ds && ds[d].page == page && ds[d].splitFrom.None?
  }

  function Newest(ds: Discoveries, page: Page): set<Id> {
    set d | d in Revisions(ds, page) && forall e :: e in Revisions(ds, page) ==> ds[e].createdAt <= ds[d].createdAt
  }

  /** `ORDER BY created_at DESC LIMIT 1`: the database picks any row among equals. */
  type TieBreak = set<Id> -> Id

  function Head(ds: Discoveries, page: Page, tie: TieBreak): (head: Option<Id>)
    ensures head.Some? ==> head.value in Newest(ds, page)
  {
    var newest := Newest(ds, page);
    if newest == {} then None
    else if tie(newest) in newest then Some(tie(newest))
    else Some(Least(newest))
  }

  // ----- One record -----

  function JobsOf(d: Id): multiset<JobRow> {
    multiset{JobRow(NormalizeDiscovery, d), JobRow(LinkCanonical, d)}
  }

  function Seen(s: Shelf, page: Page, at: Time): Shelf {
    s.(pages := s.pages[page := at])
  }

  function Insert(s: Shelf, row: Discovery): Shelf {
    s.(discoveries := s.discoveries[s.nextId := row], jobs := s.jobs + JobsOf(s.nextId), nextId := s.nextId + 1)
  }

  function NewRow(lib: Library, page: Page, began: Time, c: Candidate, excerpt: Excerpt,
                  supersedes: Option<Id>, splitFrom: Option<Id>): Discovery
  {
    Discovery(page, began, c.hash, c.title, excerpt, lib.keyOf(c.title), Normalized,
              supersedes, None, splitFrom, None, false)
  }

  predicate Active(s: Shelf, source: Id) {
    source in s.sources && s.sources[source]
  }

  function Judge(lib: Library, s: Shelf, r: FeedRecord): Verdict {
    match Prepare(lib, r.url, r.title, r.excerpt)
    case Err(_) => Rejected("invalid_url")
    case Ok(c) =>
      if !Active(s, r.source) then Rejected("unknown_or_inactive_source")
      else if Same(s.discoveries, Page(r.source, c.url), c.hash) != {} then Repeated
      else if Newest(s.discoveries, Page(r.source, c.url)) != {} then Changed
      else Imported
  }

  function ImportOne(lib: Library, tie: TieBreak, s: Shelf, a: Arrival, began: Time): Shelf {
    var r := a.record;
    match Prepare(lib, r.url, r.title, r.excerpt)
    case Err(_) => s.(quarantine := s.quarantine + [Quarantined(r.source, r.url, r.title, r.excerpt, "invalid_url")])
    case Ok(c) =>
      if !Active(s, r.source) then
        var kept := Quarantined(r.source, c.url, r.title, r.excerpt, "unknown_or_inactive_source");
        s.(quarantine := s.quarantine + [kept])
      else
        var page := Page(r.source, c.url);
        var seen := Seen(s, page, a.at);
        if Same(s.discoveries, page, c.hash) != {} then seen
        else Insert(seen, NewRow(lib, page, began, c, c.excerpt, Head(s.discoveries, page, tie), None))
  }

  // ----- What a record leaves, row by row -----

  /** What is kept of a submitted text: its canonical address, its stripped title, its excerpt, stripped and
      missing when empty, and a digest of the three, one to a line. */
  predicate Keeps(lib: Library, url: Url, title: Title, excerpt: Excerpt, c: Candidate) {
    && lib.canonical(url) == Ok(c.url)
    && c.title.text == lib.strip(title.text)
    && (match excerpt.text
        case Some(text) =>
          && c.hash == lib.digest(c.url.text + "\n" + c.title.text + "\n" + lib.strip(text))
          && c.excerpt.text == (if text == "" then None else Some(lib.strip(text)))
        case None =>
          && c.hash == lib.digest(c.url.text + "\n" + c.title.text + "\n" + lib.strip(""))
          && c.excerpt.text.None?)
  }

  /** Only the address decides whether a text can be kept. */
  lemma PrepareKeeps(lib: Library, url: Url, title: Title, excerpt: Excerpt)
    ensures var p := Prepare(lib, url, title, excerpt);
            match lib.canonical(url)
            case Err(why) => p == Err(why)
            case Ok(_) => p.Ok? && Keeps(lib, url, title, excerpt, p.value)
  {
  }

  predicate Holds(s: Shelf, page: Page, hash: ContentHash) {
    exists d :: d in s.discoveries && s.discoveries[d].page == page && s.discoveries[d].contentHash == hash
  }

  /** The latest of the page's own discoveries, one of them if several are; none if it has none. */
  ghost predicate LatestOf(s: Shelf, page: Page, head: Option<Id>) {
    match head
    case None => forall d :: d in s.discoveries && s.discoveries[d].page == page ==> s.discoveries[d].splitFrom.Some?
    case Some(h) =>
      && h in s.discoveries && s.discoveries[h].page == page && s.discoveries[h].splitFrom.None?
      && forall d :: d in s.discoveries && s.discoveries[d].page == page && s.discoveries[d].splitFrom.None? ==>
           s.discoveries[d].createdAt <= s.discoveries[h].createdAt
  }

  /** A discovery nobody has worked on yet. */
  predicate JustFound(lib: Library, row: Discovery, page: Page, began: Time, c: Candidate) {
    && row.page == page && row.createdAt == began && row.contentHash == c.hash && row.title == c.title
    && row.identityKey == lib.keyOf(c.title) && row.state.Normalized?
    && row.duplicateOf.None? && row.canonical.None? && !row.evaluated
  }

  /** The page was seen, and the row came to it with its two jobs. */
  ghost predicate Brought(s: Shelf, after: Shelf, page: Page, at: Time, row: Discovery) {
    after == Shelf(s.sources, s.pages[page := at], s.discoveries[s.nextId := row],
                   s.jobs + multiset{JobRow(NormalizeDiscovery, s.nextId), JobRow(LinkCanonical, s.nextId)},
                   s.quarantine, s.nextId + 1)
  }

  ghost predicate Quarantines(s: Shelf, after: Shelf, r: FeedRecord, url: Url, reason: string) {
    after == s.(quarantine := s.quarantine + [Quarantined(r.source, url, r.title, r.excerpt, reason)])
  }

  /** The four buckets: an address that is none, a source that is unknown or switched off, a content its page
      has already, and a new discovery, which revises the page's latest one if there is one. */
  ghost predicate Imports(lib: Library, s: Shelf, a: Arrival, began: Time, after: Shelf, v: Verdict) {
    var r := a.record;
    if lib.canonical(r.url).Err? then
      v == Rejected("invalid_url") && Quarantines(s, after, r, r.url, "invalid_url")
    else if r.source !in s.sources || !s.sources[r.source] then
      && v == Rejected("unknown_or_inactive_source")
      && Quarantines(s, after, r, lib.canonical(r.url).value, "unknown_or_inactive_source")
    else
      exists c: Candidate :: Keeps(lib, r.url, r.title, r.excerpt, c) && Accepts(lib, s, a, began, c, after, v)
  }

  ghost predicate Accepts(lib: Library, s: Shelf, a: Arrival, began: Time, c: Candidate, after: Shelf, v: Verdict) {
    var page := Page(a.record.source, c.url);
    if Holds(s, page, c.hash) then v.Repeated? && after == s.(pages := s.pages[page := a.at])
    else
      && s.nextId in after.discoveries
      && var row := after.discoveries[s.nextId];
      && Brought(s, after, page, a.at, row) && JustFound(lib, row, page, began, c)
      && row.excerpt == c.excerpt && row.splitFrom.None? && LatestOf(s, page, row.supersedes)
      && v == if row.supersedes.Some? then Changed else Imported
  }

  lemma {:induction false} SomeIsNewest(ds: Discoveries, ids: set<Id>)
    requires ids != {} && forall d :: d in ids ==> d in ds
    ensures exists d :: d in ids && forall e :: e in ids ==> ds[e].createdAt <= ds[d].createdAt
    decreases |ids|
  {
    var x :| x in ids;
    if ids != {x} {
      var rest := ids - {x};
      assert ids == rest + {x};
      assert rest != {};
      SomeIsNewest(ds, rest);
      var y :| y in rest && forall e :: e in rest ==> ds[e].createdAt <= ds[y].createdAt;
      var d := if ds[x].createdAt <= ds[y].createdAt then y else x;
      assert d in ids && forall e :: e in ids ==> ds[e].createdAt <= ds[d].createdAt;
    }
  }

  lemma HeadIsLatestOf(s: Shelf, page: Page, tie: TieBreak)
    ensures LatestOf(s, page, Head(s.discoveries, page, tie))
    ensures Head(s.discoveries, page, tie).Some? <==> Newest(s.discoveries, page) != {}
  {
    var rs := Revisions(s.discoveries, page);
    if rs != {} {
      SomeIsNewest(s.discoveries, rs);
      var d :| d in rs && forall e :: e in rs ==> s.discoveries[e].createdAt <= s.discoveries[d].createdAt;
      assert d in Newest(s.discoveries, page);
    }
    forall d | d in s.discoveries && s.discoveries[d].page == page && s.discoveries[d].splitFrom.None?
      ensures d in rs
    {
    }
  }

  lemma HoldsIsSame(s: Shelf, page: Page, hash: ContentHash)
    ensures Holds(s, page, hash) <==> Same(s.discoveries, page, hash) != {}
  {
    if d :| d in s.discoveries && s.discoveries[d].page == page && s.discoveries[d].contentHash == hash {
      assert d in Same(s.discoveries, page, hash);
    }
  }

  lemma ImportOneImports(lib: Library, tie: TieBreak, s: Shelf, a: Arrival, began: Time)
    ensures Imports(lib, s, a, began, ImportOne(lib, tie, s, a, began), Judge(lib, s, a.record))
  {
    var r := a.record;
    PrepareKeeps(lib, r.url, r.title, r.excerpt);
    var p := Prepare(lib, r.url, r.title, r.excerpt);
    if p.Ok? && Active(s, r.source) {
      var page := Page(r.source, p.value.url);
      HeadIsLatestOf(s, page, tie);
      HoldsIsSame(s, page, p.value.hash);
      assert Accepts(lib, s, a, began, p.value, ImportOne(lib, tie, s, a, began), Judge(lib, s, r));
    }
  }

  // ----- A batch, in one transaction -----

  function ImportAll(lib: Library, tie: TieBreak, s: Shelf, arrivals: seq<Arrival>, began: Time): Shelf {
    if arrivals == [] then s
    else
      var n := |arrivals| - 1;
      ImportOne(lib, tie, ImportAll(lib, tie, s, arrivals[..n], began), arrivals[n], began)
  }

  /** Each record is judged by the shelf its predecessors left. */
  function Verdicts(lib: Library, tie: TieBreak, s: Shelf, arrivals: seq<Arrival>, began: Time): (vs: seq<Verdict>)
    ensures |vs| == |arrivals|
  {
    if arrivals == [] then []
    else
      var n := |arrivals| - 1;
      Verdicts(lib, tie, s, arrivals[..n], began)
      + [Judge(lib, ImportAll(lib, tie, s, arrivals[..n], began), arrivals[n].record)]
  }

  datatype Tally = Tally(imported: nat, repeated: nat, changed: nat, rejected: nat)

  function Counted(t: Tally, v: Verdict): Tally {
    match v
    case Imported => t.(imported := t.imported + 1)
    case Repeated => t.(repeated := t.repeated + 1)
    case Changed => t.(changed := t.changed + 1)
    case Rejected(_) => t.(rejected := t.rejected + 1)
  }

  function Totals(vs: seq<Verdict>): Tally {
    if vs == [] then Tally(0, 0, 0, 0) else Counted(Totals(vs[..|vs| - 1]), vs[|vs| - 1])
  }

  /** Each counter is the number of records with its verdict. */
  lemma {:induction false} TotalsAreNumbers(vs: seq<Verdict>)
    ensures Totals(vs).imported == |Invariants.Places(vs, (v: Verdict) => v.Imported?)|
    ensures Totals(vs).repeated == |Invariants.Places(vs, (v: Verdict) => v.Repeated?)|
    ensures Totals(vs).changed == |Invariants.Places(vs, (v: Verdict) => v.Changed?)|
    ensures Totals(vs).rejected == |Invariants.Places(vs, (v: Verdict) => v.Rejected?)|
  {
    if vs != [] {
      TotalsAreNumbers(vs[..|vs| - 1]);
      Invariants.OneMorePlace(vs, (v: Verdict) => v.Imported?);
      Invariants.OneMorePlace(vs, (v: Verdict) => v.Repeated?);
      Invariants.OneMorePlace(vs, (v: Verdict) => v.Changed?);
      Invariants.OneMorePlace(vs, (v: Verdict) => v.Rejected?);
    }
  }

  lemma OneMore(lib: Library, tie: TieBreak, s: Shelf, arrivals: seq<Arrival>, began: Time, i: nat)
    requires i < |arrivals|
    ensures var before := ImportAll(lib, tie, s, arrivals[..i], began);
            && ImportAll(lib, tie, s, arrivals[..i + 1], began) == ImportOne(lib, tie, before, arrivals[i], began)
            && Verdicts(lib, tie, s, arrivals[..i + 1], began) ==
               Verdicts(lib, tie, s, arrivals[..i], began) + [Judge(lib, before, arrivals[i].record)]
            && Totals(Verdicts(lib, tie, s, arrivals[..i + 1], began)) ==
               Counted(Totals(Verdicts(lib, tie, s, arrivals[..i], began)), Judge(lib, before, arrivals[i].record))
  {
    assert arrivals[..i + 1][..i] == arrivals[..i];
    var vs := Verdicts(lib, tie, s, arrivals[..i], began);
    var v := Judge(lib, ImportAll(lib, tie, s, arrivals[..i], began), arrivals[i].record);
    assert (vs + [v])[..i] == vs;
  }

  // ----- Conservation -----

  ghost predicate IdsBelow(s: Shelf) {
    forall d :: d in s.discoveries ==> d < s.nextId
  }

  /** `created` new discoveries, each with one job of each of its two kinds, nothing else new in those
      tables and nothing lost; `rejected` new quarantine rows after the old ones. */
  ghost predicate Grown(s: Shelf, after: Shelf, created: nat, rejected: nat) {
    && after.sources == s.sources
    && after.nextId == s.nextId + created
    && (forall d :: d in after.discoveries <==> d in s.discoveries || s.nextId <= d < after.nextId)
    && (forall d :: d in s.discoveries ==> after.discoveries[d] == s.discoveries[d])
    && (forall job :: after.jobs[job] == s.jobs[job] + NewJobs(job, s.nextId, after.nextId))
    && s.quarantine <= after.quarantine && |after.quarantine| == |s.quarantine| + rejected
  }

  function NewJobs(job: JobRow, low: Id, high: Id): nat {
    if !job.kind.PrepareReview? && low <= job.subject < high then 1 else 0
  }

  lemma InsertGrows(s: Shelf, page: Page, at: Time, row: Discovery)
    requires IdsBelow(s)
    ensures IdsBelow(Insert(Seen(s, page, at), row)) && Grown(s, Insert(Seen(s, page, at), row), 1, 0)
  {
  }

  lemma OneGrows(lib: Library, tie: TieBreak, s: Shelf, a: Arrival, began: Time)
    requires IdsBelow(s)
    ensures var v := Judge(lib, s, a.record); var after := ImportOne(lib, tie, s, a, began);
            IdsBelow(after) &&
            Grown(s, after, if v.Imported? || v.Changed? then 1 else 0, if v.Rejected? then 1 else 0)
  {
    var r := a.record;
    var c := Prepare(lib, r.url, r.title, r.excerpt);
    if c.Ok? {
      var page := Page(r.source, c.value.url);
      InsertGrows(s, page, a.at,
                  NewRow(lib, page, began, c.value, c.value.excerpt, Head(s.discoveries, page, tie), None));
    }
  }

  lemma GrownTwice(a: Shelf, b: Shelf, c: Shelf, m: nat, n: nat, p: nat, q: nat)
    requires Grown(a, b, m, n) && Grown(b, c, p, q)
    ensures Grown(a, c, m + p, n + q)
  {
  }

  /** Every record lands in exactly one bucket; new discoveries are the imported and the changed ones,
      each with exactly its two jobs, and every rejected row is kept in quarantine. */
  lemma {:induction false} ImportConserves(lib: Library, tie: TieBreak, s: Shelf, arrivals: seq<Arrival>, began: Time)
    requires IdsBelow(s)
    ensures var t := Totals(Verdicts(lib, tie, s, arrivals, began));
            var after := ImportAll(lib, tie, s, arrivals, began);
            && t.imported + t.repeated + t.changed + t.rejected == |arrivals|
            && IdsBelow(after) && Grown(s, after, t.imported + t.changed, t.rejected)
  {
    if arrivals != [] {
      var n := |arrivals| - 1;
      var before := ImportAll(lib, tie, s, arrivals[..n], began);
      var vs := Verdicts(lib, tie, s, arrivals, began);
      ImportConserves(lib, tie, s, arrivals[..n], began);
      OneGrows(lib, tie, before, arrivals[n], began);
      assert vs[..n] == Verdicts(lib, tie, s, arrivals[..n], began);
      var t := Totals(vs[..n]);
      var v := vs[n];
      GrownTwice(s, before, ImportAll(lib, tie, s, arrivals, began), t.imported + t.changed, t.rejected,
                 if v.Imported? || v.Changed? then 1 else 0, if v.Rejected? then 1 else 0);
    }
  }

  // ----- Importing again -----

  /** The shelf holds the record's content on its page, or the record can never be accepted. */
  ghost predicate Known(lib: Library, s: Shelf, r: FeedRecord) {
    Judge(lib, s, r).Repeated? || Judge(lib, s, r).Rejected?
  }

  /** Whatever was found stays on its page with its content; sources may come and go. */
  ghost predicate Later(s: Shelf, u: Shelf) {
    forall d :: d in s.discoveries ==>
      d in u.discoveries && u.discoveries[d].page == s.discoveries[d].page
      && u.discoveries[d].contentHash == s.discoveries[d].contentHash
  }

  lemma KnownStays(lib: Library, s: Shelf, u: Shelf, r: FeedRecord)
    requires Known(lib, s, r) && Later(s, u) && u.sources == s.sources
    ensures Known(lib, u, r) && Judge(lib, u, r).Rejected? == Judge(lib, s, r).Rejected?
  {
    var p := Prepare(lib, r.url, r.title, r.excerpt);
    if p.Ok? && Active(s, r.source) {
      var page := Page(r.source, p.value.url);
      var d :| d in Same(s.discoveries, page, p.value.hash);
      assert d in Same(u.discoveries, page, p.value.hash);
    }
  }

  /** The record has been dealt with: rejected, or its content is on the shelf. */
  ghost predicate Dealt(lib: Library, s: Shelf, r: FeedRecord, rejected: bool) {
    Known(lib, s, r) && Judge(lib, s, r).Rejected? == rejected
  }

  lemma OneIsDealt(lib: Library, tie: TieBreak, s: Shelf, a: Arrival, began: Time, after: Shelf)
    requires after == ImportOne(lib, tie, s, a, began)
    ensures Dealt(lib, after, a.record, Judge(lib, s, a.record).Rejected?)
  {
    var r := a.record;
    var p := Prepare(lib, r.url, r.title, r.excerpt);
    if p.Ok? && Active(s, r.source) {
      var page := Page(r.source, p.value.url);
      if Same(s.discoveries, page, p.value.hash) == {} {
        assert s.nextId in Same(after.discoveries, page, p.value.hash);
      } else {
        assert after.discoveries == s.discoveries;
      }
    }
  }

  lemma DealtSurvives(lib: Library, tie: TieBreak, s: Shelf, a: Arrival, began: Time, after: Shelf,
                      r: FeedRecord, rejected: bool)
    requires IdsBelow(s) && Dealt(lib, s, r, rejected) && after == ImportOne(lib, tie, s, a, began)
    ensures Dealt(lib, after, r, rejected)
  {
    OneGrows(lib, tie, s, a, began);
    KnownStays(lib, s, after, r);
  }

  /** The shelf before each record of the batch, and after the last. */
  ghost function Trail(lib: Library, tie: TieBreak, s: Shelf, arrivals: seq<Arrival>, began: Time): seq<Shelf> {
    seq(|arrivals| + 1, k requires 0 <= k <= |arrivals| => ImportAll(lib, tie, s, arrivals[..k], began))
  }

  lemma TrailSteps(lib: Library, tie: TieBreak, s: Shelf, arrivals: seq<Arrival>, began: Time)
    ensures Invariants.Steps((u: Shelf, a: Arrival) => ImportOne(lib, tie, u, a, began),
                             Trail(lib, tie, s, arrivals, began), arrivals)
  {
    forall k | 0 <= k < |arrivals|
      ensures Trail(lib, tie, s, arrivals, began)[k + 1] ==
              ImportOne(lib, tie, Trail(lib, tie, s, arrivals, began)[k], arrivals[k], began)
    {
      OneMore(lib, tie, s, arrivals, began, k);
    }
  }

  lemma DealtToTheEnd(lib: Library, tie: TieBreak, shelves: seq<Shelf>, arrivals: seq<Arrival>, began: Time,
                      i: nat, rejected: bool)
    requires Invariants.Steps((u: Shelf, a: Arrival) => ImportOne(lib, tie, u, a, began), shelves, arrivals)
    requires i < |arrivals| && IdsBelow(shelves[i]) && rejected == Judge(lib, shelves[i], arrivals[i].record).Rejected?
    ensures Dealt(lib, shelves[|arrivals|], arrivals[i].record, rejected)
  {
    var next := (u: Shelf, a: Arrival) => ImportOne(lib, tie, u, a, began);
    var r := arrivals[i].record;
    var inv := (u: Shelf) => IdsBelow(u) && Dealt(lib, u, r, rejected);
    assert shelves[i + 1] == next(shelves[i], arrivals[i]);
    OneGrows(lib, tie, shelves[i], arrivals[i], began);
    OneIsDealt(lib, tie, shelves[i], arrivals[i], began, shelves[i + 1]);
    forall u, a | inv(u) ensures inv(next(u, a)) {
      OneGrows(lib, tie, u, a, began);
      DealtSurvives(lib, tie, u, a, began, next(u, a), r, rejected);
    }
    Invariants.Holds(next, inv, shelves, arrivals, i + 1, |arrivals|);
  }

  lemma VerdictAt(lib: Library, tie: TieBreak, s: Shelf, arrivals: seq<Arrival>, began: Time, i: nat)
    requires i < |arrivals|
    ensures Verdicts(lib, tie, s, arrivals, began)[i] ==
            Judge(lib, ImportAll(lib, tie, s, arrivals[..i], began), arrivals[i].record)
  {
    var log := (k: nat) => if k <= |arrivals| then Verdicts(lib, tie, s, arrivals[..k], began) else [];
    var added := (k: nat) =>
      Judge(lib, if k < |arrivals| then ImportAll(lib, tie, s, arrivals[..k], began) else s,
            arrivals[if k < |arrivals| then k else i].record);
    forall k | 0 <= k < |arrivals| ensures log(k + 1) == log(k) + [added(k)] {
      OneMore(lib, tie, s, arrivals, began, k);
    }
    assert arrivals[..|arrivals|] == arrivals;
    Invariants.Appended(log, added, |arrivals|, i);
  }

  lemma BatchIsDealt(lib: Library, tie: TieBreak, s: Shelf, arrivals: seq<Arrival>, began: Time, i: nat)
    requires i < |arrivals| && IdsBelow(s)
    ensures Dealt(lib, ImportAll(lib, tie, s, arrivals, began), arrivals[i].record,
                  Verdicts(lib, tie, s, arrivals, began)[i].Rejected?)
  {
    var shelves := Trail(lib, tie, s, arrivals, began);
    assert arrivals[..|arrivals|] == arrivals;
    TrailSteps(lib, tie, s, arrivals, began);
    ImportConserves(lib, tie, s, arrivals[..i], began);
    VerdictAt(lib, tie, s, arrivals, began, i);
    DealtToTheEnd(lib, tie, shelves, arrivals, began, i, Judge(lib, shelves[i], arrivals[i].record).Rejected?);
  }

  /** A shelf that differs at most in when pages were last seen and in what is in quarantine. */
  ghost predicate SameFinds(s: Shelf, u: Shelf) {
    s.discoveries == u.discoveries && s.jobs == u.jobs && s.nextId == u.nextId && s.sources == u.sources
  }

  lemma KnownIsIdle(lib: Library, tie: TieBreak, s: Shelf, a: Arrival, began: Time)
    requires Known(lib, s, a.record)
    ensures SameFinds(s, ImportOne(lib, tie, s, a, began))
  {
  }

  lemma JudgedAlike(lib: Library, s: Shelf, u: Shelf, r: FeedRecord)
    requires SameFinds(s, u)
    ensures Judge(lib, s, r) == Judge(lib, u, r)
  {
  }

  lemma {:induction false} KnownBatchIsIdle(lib: Library, tie: TieBreak, u: Shelf, again: seq<Arrival>, began: Time)
    requires forall i :: 0 <= i < |again| ==> Known(lib, u, again[i].record)
    ensures SameFinds(u, ImportAll(lib, tie, u, again, began))
    ensures forall i :: 0 <= i < |again| ==> Verdicts(lib, tie, u, again, began)[i] == Judge(lib, u, again[i].record)
  {
    if again != [] {
      var n := |again| - 1;
      var before := ImportAll(lib, tie, u, again[..n], began);
      KnownBatchIsIdle(lib, tie, u, again[..n], began);
      JudgedAlike(lib, u, before, again[n].record);
      KnownIsIdle(lib, tie, before, again[n], began);
    }
  }

  /** The record was turned away for its source, which is active now, and its content has not come to the
      shelf meanwhile. */
  ghost predicate Readmitted(lib: Library, u: Shelf, r: FeedRecord, before: Verdict) {
    && before == Rejected("unknown_or_inactive_source") && Active(u, r.source)
    && Prepare(lib, r.url, r.title, r.excerpt).Ok?
    && Same(u.discoveries, Page(r.source, Prepare(lib, r.url, r.title, r.excerpt).value.url),
            Prepare(lib, r.url, r.title, r.excerpt).value.hash) == {}
  }

  lemma ReasonOfRejection(lib: Library, s: Shelf, r: FeedRecord)
    requires Prepare(lib, r.url, r.title, r.excerpt).Ok? && Judge(lib, s, r).Rejected?
    ensures Judge(lib, s, r) == Rejected("unknown_or_inactive_source")
  {
  }

  lemma KnownUnlessReadmitted(lib: Library, s: Shelf, u: Shelf, r: FeedRecord, before: Verdict)
    requires Dealt(lib, s, r, before.Rejected?) && Later(s, u)
    requires before.Rejected? && Prepare(lib, r.url, r.title, r.excerpt).Ok? ==>
               before == Rejected("unknown_or_inactive_source")
    ensures Known(lib, u, r) <==> !Readmitted(lib, u, r, before)
  {
    var p := Prepare(lib, r.url, r.title, r.excerpt);
    if p.Ok? && !before.Rejected? {
      var page := Page(r.source, p.value.url);
      var d :| d in Same(s.discoveries, page, p.value.hash);
      assert d in Same(u.discoveries, page, p.value.hash);
    }
  }

  lemma NothingNewIsSame(s: Shelf, after: Shelf, rejected: nat)
    requires Grown(s, after, 0, rejected)
    ensures SameFinds(s, after)
  {
    assert after.discoveries == s.discoveries;
    assert after.jobs == s.jobs;
  }

  /** A record unknown to `u` is created by any later shelf that has found nothing new. */
  lemma UnknownGrows(lib: Library, tie: TieBreak, u: Shelf, before: Shelf, created: nat, rejected: nat,
                     a: Arrival, began: Time)
    requires Grown(u, before, created, rejected) && IdsBelow(before) && !Known(lib, u, a.record)
    ensures ImportOne(lib, tie, before, a, began).nextId > u.nextId
  {
    OneGrows(lib, tie, before, a, began);
    if created == 0 {
      NothingNewIsSame(u, before, rejected);
      JudgedAlike(lib, u, before, a.record);
    }
  }

  lemma IdsOnlyGrow(lib: Library, tie: TieBreak, s: Shelf, a: Arrival, began: Time)
    ensures ImportOne(lib, tie, s, a, began).nextId >= s.nextId
  {
  }

  lemma GrownToTheEnd(lib: Library, tie: TieBreak, shelves: seq<Shelf>, arrivals: seq<Arrival>, began: Time,
                      i: nat, low: nat)
    requires Invariants.Steps((u: Shelf, a: Arrival) => ImportOne(lib, tie, u, a, began), shelves, arrivals)
    requires i < |shelves| && shelves[i].nextId > low
    ensures shelves[|arrivals|].nextId > low
  {
    var next := (u: Shelf, a: Arrival) => ImportOne(lib, tie, u, a, began);
    var inv := (u: Shelf) => u.nextId > low;
    forall u, a | inv(u) ensures inv(next(u, a)) {
      IdsOnlyGrow(lib, tie, u, a, began);
    }
    Invariants.Holds(next, inv, shelves, arrivals, i, |arrivals|);
  }

  lemma UnknownIsCreated(lib: Library, tie: TieBreak, u: Shelf, again: seq<Arrival>, began: Time, i: nat)
    requires IdsBelow(u) && i < |again| && !Known(lib, u, again[i].record)
    ensures ImportAll(lib, tie, u, again, began).nextId > u.nextId
  {
    var shelves := Trail(lib, tie, u, again, began);
    var t := Totals(Verdicts(lib, tie, u, again[..i], began));
    assert again[..|again|] == again;
    TrailSteps(lib, tie, u, again, began);
    ImportConserves(lib, tie, u, again[..i], began);
    UnknownGrows(lib, tie, u, shelves[i], t.imported + t.changed, t.rejected, again[i], began);
    GrownToTheEnd(lib, tie, shelves, again, began, i + 1, u.nextId);
  }

  /** Replaying records of a batch, in any order and after any number of other transactions, creates no
      discovery and no job exactly when none of them is readmitted: turned away for its source the first
      time, with an active source now and its content still nowhere. */
  lemma ReimportCreatesNothingIff(lib: Library, tie: TieBreak, s: Shelf, first: seq<Arrival>, began: Time,
                                  u: Shelf, again: seq<Arrival>, tie': TieBreak, began': Time, origin: int -> nat)
    requires IdsBelow(s) && IdsBelow(u) && Later(ImportAll(lib, tie, s, first, began), u)
    requires forall i :: 0 <= i < |again| ==> origin(i) < |first| && again[i].record == first[origin(i)].record
    ensures SameFinds(u, ImportAll(lib, tie', u, again, began'))
            <==> forall i :: 0 <= i < |again| ==>
                   !Readmitted(lib, u, again[i].record, Verdicts(lib, tie, s, first, began)[origin(i)])
  {
    forall i | 0 <= i < |again|
      ensures Known(lib, u, again[i].record)
              <==> !Readmitted(lib, u, again[i].record, Verdicts(lib, tie, s, first, began)[origin(i)])
    {
      ReplayedIsKnownIff(lib, tie, s, first, began, u, origin(i));
    }
    if forall i :: 0 <= i < |again| ==> Known(lib, u, again[i].record) {
      KnownBatchIsIdle(lib, tie', u, again, began');
    } else {
      var i :| 0 <= i < |again| && !Known(lib, u, again[i].record);
      UnknownIsCreated(lib, tie', u, again, began', i);
    }
  }

  lemma ReplayedIsKnownIff(lib: Library, tie: TieBreak, s: Shelf, first: seq<Arrival>, began: Time, u: Shelf, i: nat)
    requires IdsBelow(s) && Later(ImportAll(lib, tie, s, first, began), u) && i < |first|
    ensures Known(lib, u, first[i].record)
            <==> !Readmitted(lib, u, first[i].record, Verdicts(lib, tie, s, first, began)[i])
  {
    var r, v := first[i].record, Verdicts(lib, tie, s, first, began)[i];
    BatchIsDealt(lib, tie, s, first, began, i);
    VerdictAt(lib, tie, s, first, began, i);
    if v.Rejected? && Prepare(lib, r.url, r.title, r.excerpt).Ok? {
      ReasonOfRejection(lib, ImportAll(lib, tie, s, first[..i], began), r);
    }
    KnownUnlessReadmitted(lib, ImportAll(lib, tie, s, first, began), u, r, v);
  }

  /** With the sources as they were, that is always so: what was accepted counts as repeated, what was
      rejected is rejected again. */
  lemma ReimportCreatesNothing(lib: Library, tie: TieBreak, s: Shelf, first: seq<Arrival>, began: Time,
                               u: Shelf, again: seq<Arrival>, tie': TieBreak, began': Time, origin: int -> nat)
    requires IdsBelow(s) && Later(ImportAll(lib, tie, s, first, began), u) && u.sources == s.sources
    requires forall i :: 0 <= i < |again| ==> origin(i) < |first| && again[i].record == first[origin(i)].record
    ensures SameFinds(u, ImportAll(lib, tie', u, again, began'))
    ensures forall i :: 0 <= i < |again| ==>
              if Verdicts(lib, tie, s, first, began)[origin(i)].Rejected?
              then Verdicts(lib, tie', u, again, began')[i].Rejected?
              else Verdicts(lib, tie', u, again, began')[i].Repeated?
  {
    ImportConserves(lib, tie, s, first, began);
    forall i | 0 <= i < |again|
      ensures Known(lib, u, again[i].record)
      ensures Judge(lib, u, again[i].record).Rejected? == Verdicts(lib, tie, s, first, began)[origin(i)].Rejected?
    {
      BatchIsDealt(lib, tie, s, first, began, origin(i));
      KnownStays(lib, ImportAll(lib, tie, s, first, began), u, first[origin(i)].record);
    }
    KnownBatchIsIdle(lib, tie', u, again, began');
  }

  /** A record that was turned away while its source was switched off, and the replay after somebody
      switched it on. */
  lemma SwitchedOnIsCreated(lib: Library, tie: TieBreak, s: Shelf, a: Arrival, began: Time, began': Time)
    requires IdsBelow(s) && !Active(s, a.record.source)
    requires Prepare(lib, a.record.url, a.record.title, a.record.excerpt).Ok?
    requires var c := Prepare(lib, a.record.url, a.record.title, a.record.excerpt).value;
             Same(s.discoveries, Page(a.record.source, c.url), c.hash) == {}
    ensures var after := ImportAll(lib, tie, s, [a], began);
            var u := after.(sources := after.sources[a.record.source := true]);
            && after.discoveries == s.discoveries
            && !SameFinds(u, ImportAll(lib, tie, u, [a], began'))
  {
    var after := ImportAll(lib, tie, s, [a], began);
    assert [a][..0] == [];
    assert ImportAll(lib, tie, s, [a][..0], began) == s;
    assert after == ImportOne(lib, tie, s, a, began);
    var u := after.(sources := after.sources[a.record.source := true]);
    UnknownIsCreated(lib, tie, u, [a], began', 0);
  }
}
