/** Linking a discovery to an earlier report of the same award, or to a known scholarship
    (src/app/infra/linking.py, src/app/domain/linking.py). */
module Linking {
  import opened Wrappers
  import opened Ids
  import opened Database
  import opened Reviews
  import opened ReviewDesk

  datatype LinkOutcome = LinkedTo(scholarship: Id) | NewIdentity | Ambiguous | DuplicateOf(original: Id)

  function DecideLink(candidates: seq<Id>): LinkOutcome {
    if |candidates| == 1 then LinkedTo(candidates[0])
    else if |candidates| == 0 then NewIdentity
    else Ambiguous
  }

  predicate SameAward(a: Discovery, b: Discovery) {
    a.identityKey == b.identityKey && a.identityKey.text != ""
  }

  /** Earlier discoveries from other pages with the same key that are not duplicates themselves. */
  function Originals(ds: Discoveries, id: Id): set<Id>
    requires id in ds
  {
    set e | e in ds && e < id && SameAward(ds[e], ds[id]) && ds[e].page != ds[id].page && ds[e].duplicateOf.None?
  }

  function OutcomeOf(ds: Discoveries, id: Id, candidates: seq<Id>): LinkOutcome
    requires id in ds
  {
    if Originals(ds, id) != {} then DuplicateOf(Least(Originals(ds, id))) else DecideLink(candidates)
  }

  function LinkedRow(d: Discovery, o: LinkOutcome): Discovery {
    match o
    case DuplicateOf(original) => d.(duplicateOf := Some(original), state := DuplicatePending)
    case LinkedTo(s) => d.(canonical := Some(s), state := Linked)
    case NewIdentity => d.(state := NewCandidate)
    case Ambiguous => d.(state := NeedsReview)
  }

  function LinkAll(ds: Discoveries, id: Id, candidates: seq<Id>): Discoveries
    requires id in ds
  {
    ds[id := LinkedRow(ds[id], OutcomeOf(ds, id, candidates))]
  }

  /** Only a new or ambiguous identity needs a reviewer. */
  function TaskFor(k: Desk, id: Id, o: LinkOutcome): Desk {
    match o
    case NewIdentity => OpenOnce(k, OfDiscovery(id), "no_identity_candidate")
    case Ambiguous => OpenOnce(k, OfDiscovery(id), "ambiguous_identity_candidates")
    case _ => k
  }

  /** What one link job does to all the tables. */
  function LinkedDesk(k: Desk, id: Id, candidates: seq<Id>): Desk
    requires id in k.discoveries
  {
    TaskFor(k.(discoveries := LinkAll(k.discoveries, id, candidates)), id, OutcomeOf(k.discoveries, id, candidates))
  }

  /** `e` is an earlier report of the same award from another page, and no duplicate. */
  predicate IsOriginal(ds: Discoveries, e: Id, id: Id)
    requires id in ds
  {
    && e in ds && e < id && ds[e].duplicateOf == None
    && ds[e].identityKey == ds[id].identityKey && ds[id].identityKey.text != "" && ds[e].page != ds[id].page
  }

  /** Beside the discovery's own row, opening a task for it is all that happens. */
  ghost predicate AsksFor(before: Desk, after: Desk, id: Id, reason: string) {
    Opens(before.(discoveries := after.discoveries), after, OfDiscovery(id), reason)
  }

  ghost predicate AsksNobody(before: Desk, after: Desk) {
    after.tasks == before.tasks && after.jobs == before.jobs && after.nextId == before.nextId
  }

  /** The whole of a link job. With an original the discovery becomes the duplicate of the oldest one.
      Without, the number of scholarships of its name decides: one is linked, none makes it a new
      candidate, several need a review; and the last two open a task. */
  ghost predicate Links(before: Desk, after: Desk, id: Id, candidates: seq<Id>, answer: LinkOutcome) {
    && id in before.discoveries && id in after.discoveries
    && after.scholarships == before.scholarships
    && after.discoveries == before.discoveries[id := after.discoveries[id]]
    && var was, row := before.discoveries[id], after.discoveries[id];
       if exists e :: IsOriginal(before.discoveries, e, id) then
         && answer.DuplicateOf? && IsOriginal(before.discoveries, answer.original, id)
         && (forall e :: IsOriginal(before.discoveries, e, id) ==> answer.original <= e)
         && row == was.(duplicateOf := Some(answer.original), state := DuplicatePending)
         && AsksNobody(before, after)
       else if |candidates| == 1 then
         && answer == LinkedTo(candidates[0]) && row == was.(canonical := Some(candidates[0]), state := Linked)
         && AsksNobody(before, after)
       else if |candidates| == 0 then
         && answer == NewIdentity && row == was.(state := NewCandidate)
         && AsksFor(before, after, id, "no_identity_candidate")
       else
         && answer == Ambiguous && row == was.(state := NeedsReview)
         && AsksFor(before, after, id, "ambiguous_identity_candidates")
  }

  lemma OriginalsMean(ds: Discoveries, id: Id)
    requires id in ds
    ensures forall e :: e in Originals(ds, id) <==> IsOriginal(ds, e, id)
  {
  }

  lemma LinkedDeskLinks(k: Desk, id: Id, candidates: seq<Id>)
    requires id in k.discoveries
    ensures Links(k, LinkedDesk(k, id, candidates), id, candidates, OutcomeOf(k.discoveries, id, candidates))
  {
    OriginalsMean(k.discoveries, id);
    if e :| IsOriginal(k.discoveries, e, id) {
      assert e in Originals(k.discoveries, id);
    }
  }

  /** The link job as a transaction on the tables. */
  method LinkDiscovery(desk: ReviewDesk, id: Id, candidates: seq<Id>) returns (r: Result<LinkOutcome>)
    modifies desk
    ensures r.Ok? <==> id in old(desk.discoveries)
    ensures r.Err? ==> desk.State() == old(desk.State())
    ensures r.Ok? ==> r.value == OutcomeOf(old(desk.discoveries), id, candidates)
                      && desk.State() == LinkedDesk(old(desk.State()), id, candidates)
    ensures r.Ok? ==> Links(old(desk.State()), desk.State(), id, candidates, r.value)
  {
    if id in desk.discoveries {
      LinkedDeskLinks(desk.State(), id, candidates);
    }
    if id !in desk.discoveries {
      return Err("Discovery not found");
    }
    var discovery := desk.discoveries[id];
    if discovery.identityKey.text != "" {
      var originals := set e | e in desk.discoveries && e < id
                               && desk.discoveries[e].identityKey == discovery.identityKey
                               && desk.discoveries[e].page != discovery.page
                               && desk.discoveries[e].duplicateOf.None?;
      assert originals == Originals(desk.discoveries, id);
      if originals != {} {
        var original := Least(originals);
        desk.discoveries :=
          desk.discoveries[id := discovery.(duplicateOf := Some(original), state := DuplicatePending)];
        return Ok(DuplicateOf(original));
      }
    }
    assert Originals(desk.discoveries, id) == {};
    var decision := DecideLink(candidates);
    if decision.LinkedTo? {
      desk.discoveries := desk.discoveries[id := discovery.(canonical := Some(decision.scholarship), state := Linked)];
      return Ok(decision);
    }
    var needsReview := decision.Ambiguous?;
    desk.discoveries := desk.discoveries[id := discovery.(state := if needsReview then NeedsReview else NewCandidate)];
    var task, created := desk.AddReviewTaskOnce(
      OfDiscovery(id), if needsReview then "ambiguous_identity_candidates" else "no_identity_candidate");
    return Ok(decision);
  }

  lemma DiscoveriesAreFree(k: Desk, ds: Discoveries)
    requires DeskOk(k)
    ensures DeskOk(k.(discoveries := ds)) && ResolvedStay(k, k.(discoveries := ds))
  {
  }

  lemma TaskForKeeps(k: Desk, linked: Desk, id: Id, o: LinkOutcome)
    requires DeskOk(linked) && ResolvedStay(k, linked)
    ensures DeskOk(TaskFor(linked, id, o)) && ResolvedStay(k, TaskFor(linked, id, o))
  {
    if o.NewIdentity? || o.Ambiguous? {
      var reason := if o.NewIdentity? then "no_identity_candidate" else "ambiguous_identity_candidates";
      OpenOnceKeeps(linked, OfDiscovery(id), reason);
      ResolvedStayTwice(k, linked, OpenOnce(linked, OfDiscovery(id), reason));
    }
  }

  /** A link job keeps the desk's rules and, like every other transaction, leaves resolved tasks alone. */
  lemma LinkKeepsDesk(k: Desk, id: Id, candidates: seq<Id>)
    requires DeskOk(k) && id in k.discoveries
    ensures DeskOk(LinkedDesk(k, id, candidates)) && ResolvedStay(k, LinkedDesk(k, id, candidates))
  {
    var ds := LinkAll(k.discoveries, id, candidates);
    DiscoveriesAreFree(k, ds);
    TaskForKeeps(k, k.(discoveries := ds), id, OutcomeOf(k.discoveries, id, candidates));
  }

  // ----- Any order, any number of replays -----

  datatype Event =
    | Create(id: Id, row: Discovery)
    | Link(target: Id, candidates: seq<Id>)
    | Normalize(target: Id)   // a late job writes the key and the state again

  ghost predicate Enabled(ds: Discoveries, e: Event, keyOf: Title -> IdentityKey) {
    match e
    case Create(id, row) =>
      (forall i :: i in ds ==> i < id) && row.duplicateOf.None? && row.identityKey == keyOf(row.title)
    case Link(id, _) => id in ds
    case Normalize(id) => id in ds
  }

  ghost function Next(ds: Discoveries, e: Event, keyOf: Title -> IdentityKey): Discoveries
    requires Enabled(ds, e, keyOf)
  {
    match e
    case Create(id, row) => ds[id := row]
    case Link(id, candidates) => LinkAll(ds, id, candidates)
    case Normalize(id) => ds[id := ds[id].(identityKey := keyOf(ds[id].title), state := Normalized)]
  }

  ghost predicate Run(rs: seq<Discoveries>, es: seq<Event>, keyOf: Title -> IdentityKey) {
    && |rs| == |es| + 1
    && rs[0] == map[]
    && forall i :: 0 <= i < |es| ==> Enabled(rs[i], es[i], keyOf) && rs[i + 1] == Next(rs[i], es[i], keyOf)
  }

  /** Every pointer goes to an existing, older report of the same award on another page. */
  ghost predicate EdgeOk(ds: Discoveries, d: Id)
    requires d in ds
  {
    ds[d].duplicateOf.Some? ==>
      var o := ds[d].duplicateOf.value;
      o in ds && o < d && ds[o].page != ds[d].page && SameAward(ds[o], ds[d])
  }

  ghost predicate EdgesOk(ds: Discoveries, keyOf: Title -> IdentityKey) {
    forall d :: d in ds ==> EdgeOk(ds, d) && ds[d].identityKey == keyOf(ds[d].title)
  }

  lemma StepEdges(ds: Discoveries, e: Event, keyOf: Title -> IdentityKey)
    requires EdgesOk(ds, keyOf) && Enabled(ds, e, keyOf)
    ensures EdgesOk(Next(ds, e, keyOf), keyOf)
  {
    var after := Next(ds, e, keyOf);
    forall d | d in after ensures EdgeOk(after, d) && after[d].identityKey == keyOf(after[d].title) {
      assert d in ds ==> EdgeOk(ds, d);
    }
  }

  /** In every run, whatever the order of the link jobs and however often each is replayed, the
      pointers strictly decrease, join different pages and keep the identity key. */
  lemma {:induction false} EdgesAlwaysDecrease(
      rs: seq<Discoveries>, es: seq<Event>, keyOf: Title -> IdentityKey, i: nat)
    requires Run(rs, es, keyOf) && i < |rs|
    ensures EdgesOk(rs[i], keyOf)
  {
    if i > 0 {
      EdgesAlwaysDecrease(rs, es, keyOf, i - 1);
      StepEdges(rs[i - 1], es[i - 1], keyOf);
    }
  }

  /** Chasing pointers therefore ends, at a report of the same award that is nobody's duplicate. */
  ghost function Root(ds: Discoveries, d: Id, keyOf: Title -> IdentityKey): (r: Id)
    requires EdgesOk(ds, keyOf) && d in ds
    ensures r in ds && r <= d && ds[r].duplicateOf.None?
    ensures ds[d].duplicateOf.Some? ==> SameAward(ds[r], ds[d])
    decreases d
  {
    assert EdgeOk(ds, d);
    if ds[d].duplicateOf.None? then d else Root(ds, ds[d].duplicateOf.value, keyOf)
  }

  // ----- The star -----

  /** Every duplicate points straight at a discovery that is nobody's duplicate. */
  ghost predicate Star(ds: Discoveries) {
    forall d :: d in ds && ds[d].duplicateOf.Some? ==>
      ds[d].duplicateOf.value in ds && ds[ds[d].duplicateOf.value].duplicateOf.None?
  }

  ghost predicate IsTarget(ds: Discoveries, id: Id) {
    exists d :: d in ds && ds[d].duplicateOf == Some(id)
  }

  /** A link job keeps a star exactly unless it turns a discovery that others already point at into a
      duplicate. */
  lemma LinkKeepsStarIff(ds: Discoveries, id: Id, candidates: seq<Id>)
    requires Star(ds) && id in ds && !(ds[id].duplicateOf == Some(id))
    ensures Star(LinkAll(ds, id, candidates)) <==> !(IsTarget(ds, id) && Originals(ds, id) != {})
  {
    var after := LinkAll(ds, id, candidates);
    if IsTarget(ds, id) && Originals(ds, id) != {} {
      var d :| d in ds && ds[d].duplicateOf == Some(id);
      assert after[d].duplicateOf == Some(id) && after[id].duplicateOf.Some?;
    } else {
      forall d | d in after && after[d].duplicateOf.Some?
        ensures after[d].duplicateOf.value in after && after[after[d].duplicateOf.value].duplicateOf.None?
      {
        if d != id || Originals(ds, id) == {} {
          assert ds[d].duplicateOf == after[d].duplicateOf;
          assert ds[d].duplicateOf == Some(id) ==> IsTarget(ds, id);
        }
      }
    }
  }

  /** The job finds an original for a discovery that others already point at. */
  ghost predicate BreaksStar(ds: Discoveries, e: Event) {
    e.Link? && e.target in ds && IsTarget(ds, e.target) && Originals(ds, e.target) != {}
  }

  lemma StepStarIff(ds: Discoveries, e: Event, keyOf: Title -> IdentityKey)
    requires Star(ds) && EdgesOk(ds, keyOf) && Enabled(ds, e, keyOf)
    ensures Star(Next(ds, e, keyOf)) <==> !BreaksStar(ds, e)
  {
    if e.Link? {
      assert EdgeOk(ds, e.target);
      LinkKeepsStarIff(ds, e.target, e.candidates);
    }
  }

  lemma {:induction false} StarSoFar(rs: seq<Discoveries>, es: seq<Event>, keyOf: Title -> IdentityKey, i: nat)
    requires Run(rs, es, keyOf) && i < |rs| && forall k :: 0 <= k < i ==> !BreaksStar(rs[k], es[k])
    ensures Star(rs[i])
  {
    if i > 0 {
      StarSoFar(rs, es, keyOf, i - 1);
      EdgesAlwaysDecrease(rs, es, keyOf, i - 1);
      StepStarIff(rs[i - 1], es[i - 1], keyOf);
    }
  }

  /** Throughout a run the duplicates form a star exactly when no link job ever finds an original for a
      discovery that others already point at. */
  lemma StarIff(rs: seq<Discoveries>, es: seq<Event>, keyOf: Title -> IdentityKey)
    requires Run(rs, es, keyOf)
    ensures (forall i :: 0 <= i < |rs| ==> Star(rs[i])) <==> forall k :: 0 <= k < |es| ==> !BreaksStar(rs[k], es[k])
  {
    if forall k :: 0 <= k < |es| ==> !BreaksStar(rs[k], es[k]) {
      forall i | 0 <= i < |rs| ensures Star(rs[i]) {
        StarSoFar(rs, es, keyOf, i);
      }
    } else {
      var k :| 0 <= k < |es| && BreaksStar(rs[k], es[k]);
      if Star(rs[k]) {
        EdgesAlwaysDecrease(rs, es, keyOf, k);
        StepStarIff(rs[k], es[k], keyOf);
        assert !Star(rs[k + 1]);
      }
    }
  }

  /** Out of order it does happen: three reports on two pages, the third linked before the second. */
  lemma OutOfOrderBreaksStar(a: Discovery, b: Discovery, c: Discovery)
    requires a.duplicateOf.None? && b.duplicateOf.None? && c.duplicateOf.None?
    requires SameAward(a, b) && SameAward(b, c) && a.page == c.page && a.page != b.page
    ensures var ds := map[1 := a, 2 := b, 3 := c];
            var after := LinkAll(LinkAll(ds, 3, []), 2, []);
            && Star(ds) && Star(LinkAll(ds, 3, [])) && !Star(after)
            && after[3].duplicateOf == Some(2) && after[2].duplicateOf == Some(1)
  {
    var ds := map[1 := a, 2 := b, 3 := c];
    assert 2 in Originals(ds, 3) && Originals(ds, 3) <= {2};
    var mid := LinkAll(ds, 3, []);
    assert 1 in Originals(mid, 2) && Originals(mid, 2) <= {1};
    var after := LinkAll(mid, 2, []);
    assert after[3].duplicateOf == Some(2) && after[2].duplicateOf == Some(1);
  }

  // ----- First links in order -----

  /** The oldest report of an award. */
  ghost function First(ds: Discoveries, d: Id): (m: Id)
    requires d in ds
    ensures m in ds && m <= d && ds[m].identityKey == ds[d].identityKey
    ensures forall e :: e in ds && ds[e].identityKey == ds[d].identityKey ==> m <= e
  {
    var same := set e | e in ds && ds[e].identityKey == ds[d].identityKey;
    assert d in same;
    var m := Least(same);
    assert forall e :: e in ds && ds[e].identityKey == ds[d].identityKey ==> e in same;
    m
  }

  /** Neither a later arrival nor a change that keeps the keys moves the oldest report. */
  lemma FirstStays(ds: Discoveries, after: Discoveries, d: Id)
    requires d in ds && forall e :: e in ds ==> e in after && after[e].identityKey == ds[e].identityKey
    requires forall e :: e in after && e !in ds ==> e > d
    ensures First(after, d) == First(ds, d)
  {
    assert First(after, d) in ds;
    assert First(ds, d) in after;
  }

  /** A link job may run on `id` once every older report of its award has been linked. For a replay this
      always holds. */
  ghost predicate Ordered(ds: Discoveries, linked: set<Id>, id: Id)
    requires id in ds
  {
    forall e :: e in ds && e < id && ds[e].identityKey == ds[id].identityKey ==> e in linked
  }

  /** Where a discovery that has been linked in order points: nowhere if it is on the page of the oldest
      report, straight at that report otherwise. */
  ghost predicate Settled(ds: Discoveries, d: Id)
    requires d in ds
  {
    ds[d].duplicateOf ==
    if ds[d].identityKey.text == "" || ds[d].page == ds[First(ds, d)].page then None else Some(First(ds, d))
  }

  ghost predicate InOrderOk(ds: Discoveries, linked: set<Id>) {
    forall d :: d in ds ==>
      if d in linked then Settled(ds, d) && Ordered(ds, linked, d) else ds[d].duplicateOf.None?
  }

  ghost predicate OrderedRun(rs: seq<Discoveries>, es: seq<Event>, keyOf: Title -> IdentityKey) {
    && Run(rs, es, keyOf)
    && forall i :: 0 <= i < |es| && es[i].Link? ==> Ordered(rs[i], LinkedBefore(es, i), es[i].target)
  }

  ghost function LinkedBefore(es: seq<Event>, i: nat): set<Id>
    requires i <= |es|
  {
    if i == 0 then {}
    else LinkedBefore(es, i - 1) + (if es[i - 1].Link? then {es[i - 1].target} else {})
  }

  /** The search in a table linked in order finds the oldest report or nothing. */
  lemma OriginalIsFirst(ds: Discoveries, linked: set<Id>, id: Id)
    requires InOrderOk(ds, linked) && id in ds && Ordered(ds, linked, id)
    ensures ds[id].identityKey.text == "" || ds[id].page == ds[First(ds, id)].page ==> Originals(ds, id) == {}
    ensures ds[id].identityKey.text != "" && ds[id].page != ds[First(ds, id)].page ==>
              Originals(ds, id) != {} && Least(Originals(ds, id)) == First(ds, id)
  {
    var m := First(ds, id);
    forall e | e in Originals(ds, id) ensures ds[e].page == ds[m].page {
      assert First(ds, e) == m;
      assert Settled(ds, e);
    }
    if ds[id].identityKey.text != "" && ds[id].page != ds[m].page {
      assert m < id && First(ds, m) == m && m in linked && Settled(ds, m);
      assert m in Originals(ds, id);
    }
  }

  /** Linking in order leaves every pointer of the others alone and settles this one. */
  lemma LinkInOrder(ds: Discoveries, linked: set<Id>, id: Id, candidates: seq<Id>)
    requires InOrderOk(ds, linked) && id in ds && Ordered(ds, linked, id)
    ensures InOrderOk(LinkAll(ds, id, candidates), linked + {id})
    ensures id in linked ==> LinkAll(ds, id, candidates)[id].duplicateOf == ds[id].duplicateOf
  {
    OriginalIsFirst(ds, linked, id);
    var after := LinkAll(ds, id, candidates);
    forall d | d in after
      ensures First(after, d) == First(ds, d)
      ensures if d in linked + {id} then Settled(after, d) && Ordered(after, linked + {id}, d)
              else after[d].duplicateOf.None?
    {
      FirstStays(ds, after, d);
      if d in linked {
        assert Settled(ds, d) && Ordered(ds, linked, d);
      }
    }
  }

  lemma OtherStepInOrder(ds: Discoveries, linked: set<Id>, e: Event, keyOf: Title -> IdentityKey)
    requires EdgesOk(ds, keyOf) && InOrderOk(ds, linked) && Enabled(ds, e, keyOf) && !e.Link?
    requires linked <= ds.Keys
    ensures InOrderOk(Next(ds, e, keyOf), linked)
  {
    var after := Next(ds, e, keyOf);
    forall d | d in after
      ensures if d in linked then Settled(after, d) && Ordered(after, linked, d) else after[d].duplicateOf.None?
    {
      if d in linked {
        assert Settled(ds, d) && Ordered(ds, linked, d);
        FirstStays(ds, after, d);
      }
    }
  }

  lemma {:induction false} OrderedRunOk(rs: seq<Discoveries>, es: seq<Event>, keyOf: Title -> IdentityKey, i: nat)
    requires OrderedRun(rs, es, keyOf) && i < |rs|
    ensures InOrderOk(rs[i], LinkedBefore(es, i)) && LinkedBefore(es, i) <= rs[i].Keys
  {
    if i > 0 {
      OrderedRunOk(rs, es, keyOf, i - 1);
      assert Enabled(rs[i - 1], es[i - 1], keyOf);
      if es[i - 1].Link? {
        LinkInOrder(rs[i - 1], LinkedBefore(es, i - 1), es[i - 1].target, es[i - 1].candidates);
      } else {
        EdgesAlwaysDecrease(rs, es, keyOf, i - 1);
        OtherStepInOrder(rs[i - 1], LinkedBefore(es, i - 1), es[i - 1], keyOf);
      }
    }
  }

  /** When first links happen in order, with any replays: every duplicate points at a root, so the table
      is a star throughout; all linked roots of one award are on one page; and a replay changes no
      pointer. */
  lemma OrderedLinksKeepStar(rs: seq<Discoveries>, es: seq<Event>, keyOf: Title -> IdentityKey, i: nat)
    requires OrderedRun(rs, es, keyOf) && i < |rs|
    ensures Star(rs[i])
    ensures LinkedBefore(es, i) <= rs[i].Keys
    ensures forall c, d :: c in LinkedBefore(es, i) && d in LinkedBefore(es, i)
                           && SameAward(rs[i][c], rs[i][d])
                           && rs[i][c].duplicateOf.None? && rs[i][d].duplicateOf.None? ==>
                             rs[i][c].page == rs[i][d].page
    ensures i < |es| && es[i].Link? && es[i].target in LinkedBefore(es, i) ==>
              rs[i + 1][es[i].target].duplicateOf == rs[i][es[i].target].duplicateOf
  {
    OrderedRunOk(rs, es, keyOf, i);
    var ds, linked := rs[i], LinkedBefore(es, i);
    forall d | d in ds && ds[d].duplicateOf.Some?
      ensures ds[d].duplicateOf.value in ds && ds[ds[d].duplicateOf.value].duplicateOf.None?
    {
      var m := First(ds, d);
      assert d in linked && Settled(ds, d) && Ordered(ds, linked, d);
      assert m in linked && First(ds, m) == m && Settled(ds, m);
    }
    forall c, d | c in linked && d in linked && SameAward(ds[c], ds[d])
                  && ds[c].duplicateOf.None? && ds[d].duplicateOf.None?
      ensures ds[c].page == ds[d].page
    {
      assert Settled(ds, c) && Settled(ds, d) && First(ds, c) == First(ds, d);
    }
    if i < |es| && es[i].Link? && es[i].target in linked {
      assert Enabled(rs[i], es[i], keyOf);
      LinkInOrder(ds, linked, es[i].target, es[i].candidates);
    }
  }
}
