/** Feed imports and agent splits in any interleaving: which discovery revises which
    (src/app/infra/ingestion.py, src/app/infra/agent_integration.py). */
module Lineage {
  import opened Wrappers
  import opened Ids
  import opened Database
  import opened Ingestion
  import opened Splitting
  import Linking

  datatype Event =
    | Import(arrival: Arrival, began: Time)
    | Submit(parent: Id, item: Submission, began: Time)
    | Switch(source: Id, active: bool)
    | Rewrite(id: Id, row: Discovery)   // a link, a normalization, a review or an approval

  /** Creation times of a page's revisions grow strictly: the standing assumption on clocks and batches. */
  ghost predicate Untied(ds: Discoveries, page: Page, began: Time) {
    forall d :: d in Revisions(ds, page) ==> ds[d].createdAt < began
  }

  function Contents(lib: Library, a: Arrival): Result<Candidate> {
    Prepare(lib, a.record.url, a.record.title, a.record.excerpt)
  }

  function PageOf(lib: Library, a: Arrival): Page
    requires Contents(lib, a).Ok?
  {
    Page(a.record.source, Contents(lib, a).value.url)
  }

  /** The record is accepted and its content is new on its page. */
  predicate Inserts(lib: Library, s: Shelf, a: Arrival) {
    && Contents(lib, a).Ok? && Active(s, a.record.source)
    && Same(s.discoveries, PageOf(lib, a), Contents(lib, a).value.hash) == {}
  }

  /** Which events can happen, whatever their creation times. */
  ghost predicate Possible(s: Shelf, e: Event) {
    match e
    case Import(_, _) => true
    case Submit(parent, _, _) => parent in s.discoveries
    case Switch(_, _) => true
    case Rewrite(id, row) =>
      id in s.discoveries &&
      var was := s.discoveries[id];
      row.page == was.page && row.createdAt == was.createdAt && row.contentHash == was.contentHash
      && row.supersedes == was.supersedes && row.splitFrom == was.splitFrom
  }

  /** An import that creates a revision begins after the other revisions of the page. */
  ghost predicate Enabled(lib: Library, s: Shelf, e: Event) {
    && Possible(s, e)
    && (e.Import? && Inserts(lib, s, e.arrival) ==> Untied(s.discoveries, PageOf(lib, e.arrival), e.began))
  }

  ghost function Next(lib: Library, tie: TieBreak, s: Shelf, e: Event): Shelf
    requires Possible(s, e)
  {
    match e
    case Import(a, began) => ImportOne(lib, tie, s, a, began)
    case Submit(parent, item, began) => SubmitOne(lib, s, parent, item, began)
    case Switch(source, active) => s.(sources := s.sources[source := active])
    case Rewrite(id, row) => s.(discoveries := s.discoveries[id := row])
  }

  const EMPTY := Shelf(map[], map[], map[], multiset{}, [], 0)

  /** Any interleaving, ties in creation time included. */
  ghost predicate FreeRun(lib: Library, tie: TieBreak, ss: seq<Shelf>, es: seq<Event>) {
    && |ss| == |es| + 1
    && ss[0] == EMPTY
    && forall i :: 0 <= i < |es| ==> Possible(ss[i], es[i]) && ss[i + 1] == Next(lib, tie, ss[i], es[i])
  }

  ghost predicate Run(lib: Library, tie: TieBreak, ss: seq<Shelf>, es: seq<Event>) {
    FreeRun(lib, tie, ss, es) && forall i :: 0 <= i < |es| ==> Enabled(lib, ss[i], es[i])
  }

  // ----- The lineage -----

  function Before(ds: Discoveries, page: Page, d: Id): set<Id> {
    set e | e in Revisions(ds, page) && e < d
  }

  function Previous(ds: Discoveries, page: Page, d: Id): Option<Id> {
    if Before(ds, page, d) == {} then None else Some(Greatest(Before(ds, page, d)))
  }

  /** A split child points at its parent and revises nothing; any other discovery revises the one before
      it on its page, split children aside. */
  ghost predicate Placed(ds: Discoveries, d: Id)
    requires d in ds
  {
    match ds[d].splitFrom
    case Some(parent) => ds[d].supersedes.None? && parent in ds && parent < d
    case None => ds[d].supersedes == Previous(ds, ds[d].page, d)
  }

  ghost predicate LineageOk(ds: Discoveries) {
    forall d :: d in ds ==> Placed(ds, d)
  }

  /** On one page, creation times follow ids. */
  ghost predicate TimesFollowIds(ds: Discoveries) {
    forall d, e :: d in ds && e in ds && ds[d].splitFrom.None? && ds[e].splitFrom.None? && ds[d].page == ds[e].page ==>
      d < e ==> ds[d].createdAt < ds[e].createdAt
  }

  lemma LaterIdsDoNotMatter(ds: Discoveries, id: Id, row: Discovery, d: Id)
    requires (forall i :: i in ds ==> i < id) && d in ds && Placed(ds, d)
    ensures Placed(ds[id := row], d)
  {
    var after := ds[id := row];
    assert Before(after, ds[d].page, d) == Before(ds, ds[d].page, d);
  }

  function Latest(ds: Discoveries, page: Page): Option<Id> {
    if Revisions(ds, page) == {} then None else Some(Greatest(Revisions(ds, page)))
  }

  /** Without ties the head is the latest revision, however the database breaks ties. */
  lemma HeadIsLatest(ds: Discoveries, page: Page, tie: TieBreak)
    requires TimesFollowIds(ds)
    ensures Head(ds, page, tie) == Latest(ds, page)
  {
    var rs := Revisions(ds, page);
    if rs != {} {
      var g := Greatest(rs);
      assert g in Newest(ds, page);
      forall d | d in Newest(ds, page) ensures d == g {
      }
    }
  }

  /** And with a tie some database picks another one: two revisions of one transaction are enough. */
  lemma HeadIsLatestIff(ds: Discoveries, page: Page)
    requires Revisions(ds, page) != {}
    ensures (forall tie: TieBreak :: Head(ds, page, tie) == Some(Greatest(Revisions(ds, page))))
            <==> Newest(ds, page) == {Greatest(Revisions(ds, page))}
  {
    var g, newest := Greatest(Revisions(ds, page)), Newest(ds, page);
    if newest != {g} {
      if newest == {} {
        var any: TieBreak := _ => g;
        assert Head(ds, page, any) == None;
      } else {
        var other :| other in newest && other != g;
        var unlucky: TieBreak := _ => other;
        assert Head(ds, page, unlucky) == Some(other);
      }
    }
  }

  lemma InsertKeepsLineage(ds: Discoveries, id: Id, row: Discovery)
    requires LineageOk(ds) && forall i :: i in ds ==> i < id
    requires match row.splitFrom
             case Some(parent) => row.supersedes.None? && parent in ds
             case None => row.supersedes == Latest(ds, row.page)
    ensures LineageOk(ds[id := row])
  {
    var after := ds[id := row];
    forall d | d in after ensures Placed(after, d) {
      if d == id {
        assert Before(after, row.page, id) == Revisions(ds, row.page);
      } else {
        LaterIdsDoNotMatter(ds, id, row, d);
      }
    }
  }

  /** What one inserting import writes. */
  lemma ImportNew(lib: Library, tie: TieBreak, s: Shelf, a: Arrival, began: Time)
    requires Inserts(lib, s, a)
    ensures var after := ImportOne(lib, tie, s, a, began);
            && after.nextId == s.nextId + 1 && after.sources == s.sources
            && s.nextId in after.discoveries
            && after.discoveries == s.discoveries[s.nextId := after.discoveries[s.nextId]]
            && var row := after.discoveries[s.nextId];
               && row.page == PageOf(lib, a) && row.createdAt == began && row.contentHash == Contents(lib, a).value.hash
               && row.splitFrom.None? && row.supersedes == Head(s.discoveries, PageOf(lib, a), tie)
  {
  }

  /** An insert keeps the lineage exactly when it revises the latest revision. */
  lemma InsertKeepsLineageIff(ds: Discoveries, id: Id, row: Discovery)
    requires LineageOk(ds) && (forall i :: i in ds ==> i < id) && row.splitFrom.None?
    ensures LineageOk(ds[id := row]) <==> row.supersedes == Latest(ds, row.page)
  {
    var after := ds[id := row];
    assert Before(after, row.page, id) == Revisions(ds, row.page);
    if Placed(after, id) {
      InsertKeepsLineage(ds, id, row);
    } else {
      assert !LineageOk(after);
    }
  }

  lemma RewriteKeepsLineage(ds: Discoveries, id: Id, row: Discovery)
    requires LineageOk(ds) && id in ds && row.page == ds[id].page
    requires row.supersedes == ds[id].supersedes && row.splitFrom == ds[id].splitFrom
    ensures LineageOk(ds[id := row])
  {
    var after := ds[id := row];
    forall d | d in after ensures Placed(after, d) {
      assert Placed(ds, d);
      assert Before(after, ds[d].page, d) == Before(ds, ds[d].page, d);
    }
  }

  /** The event revises the latest revision, if it is an import that revises at all. */
  ghost predicate PicksLatest(lib: Library, tie: TieBreak, s: Shelf, e: Event) {
    e.Import? && Inserts(lib, s, e.arrival) ==>
      Head(s.discoveries, PageOf(lib, e.arrival), tie) == Latest(s.discoveries, PageOf(lib, e.arrival))
  }

  lemma ImportOld(lib: Library, tie: TieBreak, s: Shelf, a: Arrival, began: Time)
    requires !Inserts(lib, s, a)
    ensures ImportOne(lib, tie, s, a, began).discoveries == s.discoveries
  {
  }

  lemma StepLineageIff(lib: Library, tie: TieBreak, s: Shelf, e: Event)
    requires LineageOk(s.discoveries) && IdsBelow(s) && Possible(s, e)
    ensures LineageOk(Next(lib, tie, s, e).discoveries) <==> PicksLatest(lib, tie, s, e)
  {
    var after := Next(lib, tie, s, e).discoveries;
    match e {
      case Import(a, began) =>
        if Inserts(lib, s, a) {
          ImportNew(lib, tie, s, a, began);
          InsertKeepsLineageIff(s.discoveries, s.nextId, after[s.nextId]);
        } else {
          ImportOld(lib, tie, s, a, began);
        }
      case Submit(parent, item, began) =>
        if after != s.discoveries {
          InsertKeepsLineage(s.discoveries, s.nextId, after[s.nextId]);
        }
      case Switch(_, _) =>
      case Rewrite(id, row) => RewriteKeepsLineage(s.discoveries, id, row);
    }
  }

  lemma StepIds(lib: Library, tie: TieBreak, s: Shelf, e: Event)
    requires IdsBelow(s) && Possible(s, e)
    ensures IdsBelow(Next(lib, tie, s, e))
  {
  }

  lemma {:induction false} RunIds(lib: Library, tie: TieBreak, ss: seq<Shelf>, es: seq<Event>, i: nat)
    requires FreeRun(lib, tie, ss, es) && i < |ss|
    ensures IdsBelow(ss[i])
  {
    if i > 0 {
      RunIds(lib, tie, ss, es, i - 1);
      StepIds(lib, tie, ss[i - 1], es[i - 1]);
    }
  }

  lemma {:induction false} LineageSoFar(lib: Library, tie: TieBreak, ss: seq<Shelf>, es: seq<Event>, i: nat)
    requires FreeRun(lib, tie, ss, es) && i < |ss|
    requires forall k :: 0 <= k < i ==> PicksLatest(lib, tie, ss[k], es[k])
    ensures LineageOk(ss[i].discoveries)
  {
    if i > 0 {
      LineageSoFar(lib, tie, ss, es, i - 1);
      RunIds(lib, tie, ss, es, i - 1);
      StepLineageIff(lib, tie, ss[i - 1], es[i - 1]);
    }
  }

  /** Ties or none: throughout a run every discovery is in its place exactly when every import that
      creates a revision was given the latest one by the database. */
  lemma LineageIffHeads(lib: Library, tie: TieBreak, ss: seq<Shelf>, es: seq<Event>)
    requires FreeRun(lib, tie, ss, es)
    ensures (forall i :: 0 <= i < |ss| ==> LineageOk(ss[i].discoveries))
            <==> forall k :: 0 <= k < |es| ==> PicksLatest(lib, tie, ss[k], es[k])
  {
    if forall k :: 0 <= k < |es| ==> PicksLatest(lib, tie, ss[k], es[k]) {
      forall i | 0 <= i < |ss| ensures LineageOk(ss[i].discoveries) {
        LineageSoFar(lib, tie, ss, es, i);
      }
    } else {
      var k :| 0 <= k < |es| && !PicksLatest(lib, tie, ss[k], es[k]);
      RunIds(lib, tie, ss, es, k);
      if LineageOk(ss[k].discoveries) {
        StepLineageIff(lib, tie, ss[k], es[k]);
        assert !LineageOk(ss[k + 1].discoveries);
      }
    }
  }

  lemma StepTimes(lib: Library, tie: TieBreak, s: Shelf, e: Event)
    requires TimesFollowIds(s.discoveries) && IdsBelow(s) && Enabled(lib, s, e)
    ensures TimesFollowIds(Next(lib, tie, s, e).discoveries)
  {
    if e.Import? {
      if Inserts(lib, s, e.arrival) {
        var page := PageOf(lib, e.arrival);
        assert Untied(s.discoveries, page, e.began);
        assert forall d :: d in s.discoveries && s.discoveries[d].page == page && s.discoveries[d].splitFrom.None? ==>
          d in Revisions(s.discoveries, page);
      }
    }
  }

  lemma {:induction false} RunLineage(lib: Library, tie: TieBreak, ss: seq<Shelf>, es: seq<Event>, i: nat)
    requires Run(lib, tie, ss, es) && i < |ss|
    ensures LineageOk(ss[i].discoveries) && TimesFollowIds(ss[i].discoveries) && IdsBelow(ss[i])
  {
    if i > 0 {
      var s, e := ss[i - 1], es[i - 1];
      RunLineage(lib, tie, ss, es, i - 1);
      if e.Import? && Inserts(lib, s, e.arrival) {
        HeadIsLatest(s.discoveries, PageOf(lib, e.arrival), tie);
      }
      StepLineageIff(lib, tie, s, e);
      StepTimes(lib, tie, s, e);
      StepIds(lib, tie, s, e);
    }
  }

  /** The first revises nothing and each other one revises exactly the one before it. */
  ghost predicate Chain(ds: Discoveries, history: seq<Id>) {
    forall k :: 0 <= k < |history| ==>
      history[k] in ds && ds[history[k]].supersedes == if k == 0 then None else Some(history[k - 1])
  }

  lemma PreviousInOrder(ds: Discoveries, page: Page, k: nat)
    requires k < |InOrder(Revisions(ds, page))|
    ensures var history := InOrder(Revisions(ds, page));
            Previous(ds, page, history[k]) == if k == 0 then None else Some(history[k - 1])
  {
    BelowInOrder(Revisions(ds, page), Before(ds, page, InOrder(Revisions(ds, page))[k]), k);
  }

  lemma BelowInOrder(ids: set<Id>, below: set<Id>, k: nat)
    requires k < |InOrder(ids)|
    requires below == set e | e in ids && e < InOrder(ids)[k]
    ensures if k == 0 then below == {} else below != {} && Greatest(below) == InOrder(ids)[k - 1]
  {
    GreatestBelow(InOrder(ids), k, below);
  }

  /** In every run the revisions of a page, in creation order, form one chain. */
  lemma PageHistoryIsOneChain(lib: Library, tie: TieBreak, ss: seq<Shelf>, es: seq<Event>, i: nat, page: Page)
    requires Run(lib, tie, ss, es) && i < |ss|
    ensures Chain(ss[i].discoveries, InOrder(Revisions(ss[i].discoveries, page)))
  {
    RunLineage(lib, tie, ss, es, i);
    var ds := ss[i].discoveries;
    var history := InOrder(Revisions(ds, page));
    forall k | 0 <= k < |history|
      ensures history[k] in ds && ds[history[k]].supersedes == if k == 0 then None else Some(history[k - 1])
    {
      assert history[k] in history;
      assert Placed(ds, history[k]);
      PreviousInOrder(ds, page, k);
    }
  }

  /** A split child revises nothing and points at an older parent; what is revised is an older revision of
      the same page that is no split child. */
  ghost predicate PointsBack(ds: Discoveries, d: Id)
    requires d in ds
  {
    && (ds[d].splitFrom.Some? ==>
          ds[d].supersedes.None? && ds[d].splitFrom.value in ds && ds[d].splitFrom.value < d)
    && (ds[d].supersedes.Some? ==>
          var e := ds[d].supersedes.value;
          e in ds && e < d && ds[e].page == ds[d].page && ds[e].splitFrom.None? && ds[d].splitFrom.None?)
  }

  ghost predicate AllPointBack(ds: Discoveries) {
    forall d :: d in ds ==> PointsBack(ds, d)
  }

  lemma InsertPointsBack(ds: Discoveries, id: Id, row: Discovery)
    requires AllPointBack(ds) && (forall i :: i in ds ==> i < id) && PointsBack(ds[id := row], id)
    ensures AllPointBack(ds[id := row])
  {
    forall d | d in ds ensures PointsBack(ds[id := row], d) {
      assert PointsBack(ds, d);
    }
  }

  lemma RewritePointsBack(ds: Discoveries, id: Id, row: Discovery)
    requires AllPointBack(ds) && id in ds && row.page == ds[id].page
    requires row.supersedes == ds[id].supersedes && row.splitFrom == ds[id].splitFrom
    ensures AllPointBack(ds[id := row])
  {
    forall d | d in ds ensures PointsBack(ds[id := row], d) {
      assert PointsBack(ds, d);
    }
  }

  lemma StepPointsBack(lib: Library, tie: TieBreak, s: Shelf, e: Event)
    requires AllPointBack(s.discoveries) && IdsBelow(s) && Possible(s, e)
    ensures AllPointBack(Next(lib, tie, s, e).discoveries)
  {
    var after := Next(lib, tie, s, e).discoveries;
    match e {
      case Import(a, began) =>
        if Inserts(lib, s, a) {
          ImportNew(lib, tie, s, a, began);
          InsertPointsBack(s.discoveries, s.nextId, after[s.nextId]);
        } else {
          ImportOld(lib, tie, s, a, began);
        }
      case Submit(parent, item, began) =>
        if after != s.discoveries {
          InsertPointsBack(s.discoveries, s.nextId, after[s.nextId]);
        }
      case Switch(_, _) =>
      case Rewrite(id, row) => RewritePointsBack(s.discoveries, id, row);
    }
  }

  /** In every run, ties included, split children stand outside every chain: none revises or is revised,
      and each points at a parent older than itself. */
  lemma {:induction false} SplitChildrenStayOut(
      lib: Library, tie: TieBreak, ss: seq<Shelf>, es: seq<Event>, i: nat)
    requires FreeRun(lib, tie, ss, es) && i < |ss|
    ensures AllPointBack(ss[i].discoveries)
  {
    if i > 0 {
      SplitChildrenStayOut(lib, tie, ss, es, i - 1);
      RunIds(lib, tie, ss, es, i - 1);
      StepPointsBack(lib, tie, ss[i - 1], es[i - 1]);
    }
  }

  lemma RevisesTheLatest(ds: Discoveries, d: Id, e: Id)
    requires LineageOk(ds) && d in ds && e in ds && d < e && ds[d].page == ds[e].page
    requires ds[d].splitFrom.None? && ds[e].splitFrom.None?
    ensures ds[e].supersedes.Some? && d <= ds[e].supersedes.value
  {
    assert Placed(ds, e);
    assert d in Before(ds, ds[e].page, e);
  }

  /** No discovery is revised twice. */
  lemma NoFork(lib: Library, tie: TieBreak, ss: seq<Shelf>, es: seq<Event>, i: nat, d: Id, e: Id)
    requires Run(lib, tie, ss, es) && i < |ss| && d in ss[i].discoveries && e in ss[i].discoveries
    requires ss[i].discoveries[d].supersedes.Some?
    requires ss[i].discoveries[d].supersedes == ss[i].discoveries[e].supersedes
    ensures d == e
  {
    RunLineage(lib, tie, ss, es, i);
    var ds := ss[i].discoveries;
    SplitChildrenStayOut(lib, tie, ss, es, i);
    assert PointsBack(ds, d) && PointsBack(ds, e);
    if d < e {
      RevisesTheLatest(ds, d, e);
    } else if e < d {
      RevisesTheLatest(ds, e, d);
    }
  }

  // ----- What ties do -----

  /** One import keeps the lineage, whatever the database does with ties, exactly when the page has no
      revision yet or its newest revision by creation time is its latest one and no other. */
  lemma ImportKeepsLineageIff(lib: Library, s: Shelf, a: Arrival, began: Time)
    requires LineageOk(s.discoveries) && IdsBelow(s) && Inserts(lib, s, a)
    ensures (forall tie: TieBreak :: LineageOk(ImportOne(lib, tie, s, a, began).discoveries))
            <==> var rs := Revisions(s.discoveries, PageOf(lib, a));
                 rs == {} || Newest(s.discoveries, PageOf(lib, a)) == {Greatest(rs)}
  {
    var ds, page := s.discoveries, PageOf(lib, a);
    forall tie: TieBreak
      ensures LineageOk(ImportOne(lib, tie, s, a, began).discoveries)
              <==> Head(ds, page, tie) == Latest(ds, page)
    {
      ImportNew(lib, tie, s, a, began);
      InsertKeepsLineageIff(ds, s.nextId, ImportOne(lib, tie, s, a, began).discoveries[s.nextId]);
    }
    if Revisions(ds, page) != {} {
      HeadIsLatestIff(ds, page);
    }
  }

  ghost predicate Forked(ds: Discoveries, d: Id, e: Id) {
    d in ds && e in ds && d != e && ds[d].supersedes.Some? && ds[d].supersedes == ds[e].supersedes
  }

  /** Two revisions are tied and the second revises the first. */
  ghost predicate TiedPair(ds: Discoveries, page: Page, first: Id, second: Id) {
    && first in Newest(ds, page) && second in Newest(ds, page)
    && ds[second].supersedes == Some(first)
  }

  /** All rows of one transaction have the same creation time; once one such row revises another, the
      database may let the next import revise that other one a second time. */
  lemma TiesCanFork(lib: Library, s: Shelf, a: Arrival, began: Time, first: Id, second: Id)
    requires IdsBelow(s) && Inserts(lib, s, a) && TiedPair(s.discoveries, PageOf(lib, a), first, second)
    ensures var tie: TieBreak := _ => first;
            Forked(ImportOne(lib, tie, s, a, began).discoveries, second, s.nextId)
  {
    var tie: TieBreak := _ => first;
    ImportNew(lib, tie, s, a, began);
    assert Head(s.discoveries, PageOf(lib, a), tie) == Some(first);
  }

  /** The shelf with one active source and nothing on it. */
  function OneSource(source: Id): Shelf {
    EMPTY.(sources := map[source := true])
  }

  /** Two contents of one page. */
  ghost predicate Differ(lib: Library, a: Arrival, b: Arrival) {
    && Contents(lib, a).Ok? && Contents(lib, b).Ok? && PageOf(lib, a) == PageOf(lib, b)
    && Contents(lib, a).value.hash != Contents(lib, b).value.hash
  }

  lemma FirstOfBatch(lib: Library, tie: TieBreak, a: Arrival, began: Time)
    requires Contents(lib, a).Ok?
    ensures var s := ImportOne(lib, tie, OneSource(a.record.source), a, began);
            && s.discoveries.Keys == {0} && s.nextId == 1 && Active(s, a.record.source)
            && var row := s.discoveries[0];
               && row.page == PageOf(lib, a) && row.createdAt == began
               && row.contentHash == Contents(lib, a).value.hash && row.splitFrom.None?
  {
    ImportNew(lib, tie, OneSource(a.record.source), a, began);
  }

  lemma SecondOfBatch(lib: Library, tie: TieBreak, s: Shelf, a: Arrival, b: Arrival, began: Time)
    requires Differ(lib, a, b) && s == ImportOne(lib, tie, OneSource(a.record.source), a, began)
    ensures var after := ImportOne(lib, tie, s, b, began);
            && after.discoveries.Keys == {0, 1} && after.nextId == 2 && Active(after, b.record.source)
            && after.discoveries[0].contentHash == Contents(lib, a).value.hash
            && after.discoveries[1].contentHash == Contents(lib, b).value.hash
            && TiedPair(after.discoveries, PageOf(lib, b), 0, 1)
  {
    FirstOfBatch(lib, tie, a, began);
    assert Same(s.discoveries, PageOf(lib, b), Contents(lib, b).value.hash) == {};
    ImportNew(lib, tie, s, b, began);
    assert Revisions(s.discoveries, PageOf(lib, b)) == {0};
    assert Newest(s.discoveries, PageOf(lib, b)) == {0};
    var after := ImportOne(lib, tie, s, b, began);
    assert Revisions(after.discoveries, PageOf(lib, b)) == {0, 1};
  }

  lemma BatchOfTwo(lib: Library, tie: TieBreak, s: Shelf, a: Arrival, b: Arrival, began: Time)
    ensures ImportAll(lib, tie, s, [a, b], began) == ImportOne(lib, tie, ImportOne(lib, tie, s, a, began), b, began)
  {
    assert [a, b][..1] == [a];
    assert [a][..0] == [];
    assert ImportAll(lib, tie, s, [a], began) == ImportOne(lib, tie, ImportAll(lib, tie, s, [], began), a, began);
  }

  /** From the empty shelf: whatever the database does, a batch with two different contents of one page
      leaves them tied, the second revising the first. */
  lemma BatchReachesTie(lib: Library, tie: TieBreak, a: Arrival, b: Arrival, began: Time)
    requires Differ(lib, a, b)
    ensures Next(lib, tie, EMPTY, Switch(a.record.source, true)) == OneSource(a.record.source)
    ensures TiedPair(ImportAll(lib, tie, OneSource(a.record.source), [a, b], began).discoveries, PageOf(lib, b), 0, 1)
  {
    BatchOfTwo(lib, tie, OneSource(a.record.source), a, b, began);
    SecondOfBatch(lib, tie, ImportOne(lib, tie, OneSource(a.record.source), a, began), a, b, began);
  }

  /** And a third content of the page, imported at any later time, can then fork the history. */
  lemma EmptyShelfCanFork(lib: Library, a: Arrival, b: Arrival, c: Arrival, began: Time, later: Time)
    requires Differ(lib, a, b) && Differ(lib, b, c) && Differ(lib, a, c)
    ensures exists tie: TieBreak ::
              Forked(ImportOne(lib, tie, ImportAll(lib, tie, OneSource(a.record.source), [a, b], began), c, later)
                       .discoveries, 1, 2)
  {
    var tie: TieBreak := _ => 0;
    var start := OneSource(a.record.source);
    BatchOfTwo(lib, tie, start, a, b, began);
    SecondOfBatch(lib, tie, ImportOne(lib, tie, start, a, began), a, b, began);
    var s := ImportAll(lib, tie, start, [a, b], began);
    ThirdForks(lib, s, a, b, c, later);
  }

  lemma ThirdForks(lib: Library, s: Shelf, a: Arrival, b: Arrival, c: Arrival, later: Time)
    requires Differ(lib, b, c) && Differ(lib, a, c)
    requires s.discoveries.Keys == {0, 1} && s.nextId == 2 && Active(s, b.record.source)
    requires s.discoveries[0].contentHash == Contents(lib, a).value.hash
    requires s.discoveries[1].contentHash == Contents(lib, b).value.hash
    requires TiedPair(s.discoveries, PageOf(lib, b), 0, 1)
    ensures var tie: TieBreak := _ => 0;
            Forked(ImportOne(lib, tie, s, c, later).discoveries, 1, 2)
  {
    assert Same(s.discoveries, PageOf(lib, c), Contents(lib, c).value.hash) == {};
    TiesCanFork(lib, s, c, later, 0, 1);
  }

  // ----- One content per page -----

  ghost predicate ContentsUnique(ds: Discoveries) {
    forall d, e :: d in ds && e in ds && ds[d].page == ds[e].page && ds[d].contentHash == ds[e].contentHash ==> d == e
  }

  lemma InsertKeepsContents(ds: Discoveries, id: Id, row: Discovery)
    requires ContentsUnique(ds) && id !in ds && Same(ds, row.page, row.contentHash) == {}
    ensures ContentsUnique(ds[id := row])
  {
    assert forall d :: d in ds && ds[d].page == row.page && ds[d].contentHash == row.contentHash ==>
      d in Same(ds, row.page, row.contentHash);
  }

  lemma StepContents(lib: Library, tie: TieBreak, s: Shelf, e: Event)
    requires ContentsUnique(s.discoveries) && IdsBelow(s) && Possible(s, e)
    ensures ContentsUnique(Next(lib, tie, s, e).discoveries)
  {
    var after := Next(lib, tie, s, e).discoveries;
    match e {
      case Import(a, began) =>
        if Inserts(lib, s, a) {
          ImportNew(lib, tie, s, a, began);
          InsertKeepsContents(s.discoveries, s.nextId, after[s.nextId]);
        } else {
          ImportOld(lib, tie, s, a, began);
        }
      case Submit(parent, item, began) =>
        if after != s.discoveries {
          InsertKeepsContents(s.discoveries, s.nextId, after[s.nextId]);
        }
      case Switch(_, _) =>
      case Rewrite(id, row) => RewriteKeepsContents(s.discoveries, id, row);
    }
  }

  lemma RewriteKeepsContents(ds: Discoveries, id: Id, row: Discovery)
    requires ContentsUnique(ds) && id in ds && row.page == ds[id].page && row.contentHash == ds[id].contentHash
    ensures ContentsUnique(ds[id := row])
  {
  }

  /** The check before each insert is enough for the unique constraint in every run, ties included: no
      page ever holds the same content twice, whether it came by feed or by split. */
  lemma {:induction false} ContentsStayUnique(lib: Library, tie: TieBreak, ss: seq<Shelf>, es: seq<Event>, i: nat)
    requires FreeRun(lib, tie, ss, es) && i < |ss|
    ensures ContentsUnique(ss[i].discoveries)
  {
    if i > 0 {
      ContentsStayUnique(lib, tie, ss, es, i - 1);
      RunIds(lib, tie, ss, es, i - 1);
      StepContents(lib, tie, ss[i - 1], es[i - 1]);
    }
  }

  ghost predicate LinkableCreation(ds: Discoveries, id: Id, keyOf: Title -> IdentityKey, after: Discoveries) {
    && id in after
    && var create := Linking.Create(id, after[id]);
       Linking.Enabled(ds, create, keyOf) && after == Linking.Next(ds, create, keyOf)
  }

  lemma NewRowIsLinkable(ds: Discoveries, id: Id, keyOf: Title -> IdentityKey, row: Discovery)
    requires (forall i :: i in ds ==> i < id) && row.duplicateOf.None? && row.identityKey == keyOf(row.title)
    ensures LinkableCreation(ds, id, keyOf, ds[id := row])
  {
  }

  /** Whatever an import or a split creates is what the link jobs expect: the newest id, an identity key
      computed from the stored title, and no duplicate pointer yet. */
  lemma CreatedRowsCanBeLinked(lib: Library, tie: TieBreak, s: Shelf, e: Event)
    requires IdsBelow(s) && Possible(s, e) && (e.Import? || e.Submit?)
    ensures Next(lib, tie, s, e).discoveries == s.discoveries
            || LinkableCreation(s.discoveries, s.nextId, lib.keyOf, Next(lib, tie, s, e).discoveries)
  {
    var after := Next(lib, tie, s, e).discoveries;
    if after != s.discoveries {
      NewRowIsLinkable(s.discoveries, s.nextId, lib.keyOf, after[s.nextId]);
    }
  }
}
