/** Counts and pages of one ranked list (src/app/api/routes.py). */
module Paging {
  import opened Wrappers
  import opened Ids
  import opened Ranking
  import opened Cursors
  import Invariants
  import Status

  // ----- Counts -----

  predicate ConfirmedWith(item: Item, status: Status.Detail) {
    item.fit.Confirmed? && item.status == status
  }

  function Count(items: seq<Item>, status: Status.Detail): nat {
    if items == [] then 0
    else Count(items[..|items| - 1], status) + if ConfirmedWith(items[|items| - 1], status) then 1 else 0
  }

  function PossibleCount(items: seq<Item>): nat {
    if items == [] then 0
    else PossibleCount(items[..|items| - 1]) + if items[|items| - 1].fit.Possible? then 1 else 0
  }

  const STATUSES: set<Status.Detail> := {Status.Open, Status.ClosingSoon, Status.LikelyToOpen, Status.Unknown}

  /** One entry for each status that occurs among the confirmed results. */
  function Counts(items: seq<Item>): map<Status.Detail, nat> {
    map s | s in STATUSES && Count(items, s) > 0 :: Count(items, s)
  }

  /** One dictionary entry per status that occurs among the confirmed results. */
  method ConfirmedCounts(items: seq<Item>) returns (counts: map<Status.Detail, nat>)
    ensures forall s :: s in counts <==> Count(items, s) > 0
    ensures forall s :: s in counts ==> counts[s] == Count(items, s)
    ensures counts == Counts(items)
  {
    counts := map[];
    var i := 0;
    while i < |items|
      invariant 0 <= i <= |items|
      invariant forall s :: s in counts <==> Count(items[..i], s) > 0
      invariant forall s :: s in counts ==> counts[s] == Count(items[..i], s)
    {
      var item := items[i];
      assert items[..i + 1][..i] == items[..i];
      if item.fit.Confirmed? {
        counts := counts[item.status := (if item.status in counts then counts[item.status] else 0) + 1];
      }
      i := i + 1;
    }
    assert items[..i] == items;
    forall s: Status.Detail ensures s in STATUSES {
      assert s.Open? || s.ClosingSoon? || s.LikelyToOpen? || s.Unknown?;
    }
  }

  /** A confirmed count is how many results are confirmed with that status. */
  lemma {:induction false} CountIsTheirNumber(items: seq<Item>, status: Status.Detail)
    ensures Count(items, status) ==
            |Invariants.Places(items, (item: Item) => item.fit.Confirmed? && item.status == status)|
  {
    if items != [] {
      CountIsTheirNumber(items[..|items| - 1], status);
      Invariants.OneMorePlace(items, (item: Item) => item.fit.Confirmed? && item.status == status);
    }
  }

  /** The possible count is how many of the rows are shown and uncertain. */
  lemma {:induction false} PossibleIsTheirNumber(items: seq<Item>)
    ensures PossibleCount(items) == |PossibleOnes(items)|
  {
    if items != [] {
      var n := |items| - 1;
      PossibleIsTheirNumber(items[..n]);
      assert items[..n] + [items[n]] == items;
      CollectConcat((item: Item) => if item.fit.Possible? then Some(item) else None, items[..n], [items[n]]);
      assert [items[n]][1..] == [];
    }
  }

  /** The confirmed counts and the possible ones add up to the total. */
  lemma {:induction false} CountsAddUp(items: seq<Item>)
    requires forall item :: item in items ==> !item.status.Unknown?
    ensures Count(items, Status.Open) + Count(items, Status.ClosingSoon) + Count(items, Status.LikelyToOpen)
            + PossibleCount(items) == |items|
    ensures Count(items, Status.Unknown) == 0
  {
    if items != [] {
      assert items[|items| - 1] in items;
      CountsAddUp(items[..|items| - 1]);
    }
  }

  // ----- Pages -----

  function Clamp(i: nat, n: nat): nat {
    if i < n then i else n
  }

  /** `items[offset : offset + limit]`. */
  function PageAt<T>(items: seq<T>, offset: nat, limit: nat): seq<T> {
    items[Clamp(offset, |items|)..Clamp(offset + limit, |items|)]
  }

  /** At most `limit` results from the offset on; fewer only at the end of the list. */
  ghost predicate Cuts<T>(data: seq<T>, items: seq<T>, offset: nat, limit: nat) {
    && (forall k :: 0 <= k < |data| ==> offset + k < |items| && data[k] == items[offset + k])
    && |data| == if offset + limit <= |items| then limit else if offset < |items| then |items| - offset else 0
  }

  lemma PageAtCuts<T>(items: seq<T>, offset: nat, limit: nat)
    ensures Cuts(PageAt(items, offset, limit), items, offset, limit)
  {
  }

  predicate HasNext(total: nat, offset: nat, limit: nat) {
    offset + limit < total
  }

  function NextCursor(c: Codec, total: nat, offset: nat, digest: Digest, search: Id, limit: nat): Option<string> {
    if HasNext(total, offset, limit) then Some(Encode(c, Payload(offset + limit, digest, search, limit))) else None
  }

  /** What a client sees that asks for one page after another, presenting each cursor it is given. */
  function Follow(c: Codec, items: seq<Item>, digest: Digest, search: Id, limit: nat, offset: nat): seq<seq<Item>>
    requires limit >= 1
    decreases |items| - offset
  {
    var page := [PageAt(items, offset, limit)];
    match NextCursor(c, |items|, offset, digest, search, limit)
    case None => page
    case Some(cursor) =>
      match Decode(c, cursor, digest, limit)
      case Err(_) => page
      case Ok(state) =>
        if state.offset > offset then page + Follow(c, items, digest, search, limit, state.offset) else page
  }

  function Flatten<T>(pages: seq<seq<T>>): seq<T> {
    if pages == [] then [] else pages[0] + Flatten(pages[1..])
  }

  /** The pages themselves, without the cursors between them. */
  function Pages<T>(items: seq<T>, limit: nat, offset: nat): seq<seq<T>>
    requires limit >= 1
    decreases |items| - offset
  {
    [PageAt(items, offset, limit)]
    + if HasNext(|items|, offset, limit) then Pages(items, limit, offset + limit) else []
  }

  /** Every cursor leads to the page after the one it came with. */
  lemma {:induction false} CursorsLeadOn(
      c: Codec, items: seq<Item>, digest: Digest, search: Id, limit: nat, offset: nat)
    requires Lawful(c) && limit >= 1
    ensures Follow(c, items, digest, search, limit, offset) == Pages(items, limit, offset)
    decreases |items| - offset
  {
    if HasNext(|items|, offset, limit) {
      var p := Payload(offset + limit, digest, search, limit);
      DecodeOfEncodeIff(c, p, digest, limit);
      assert Decode(c, Encode(c, p), digest, limit) == Ok(CursorState(offset + limit, search));
      CursorsLeadOn(c, items, digest, search, limit, offset + limit);
    }
  }

  lemma FlattenFirst<T>(page: seq<T>, pages: seq<seq<T>>)
    ensures Flatten([page] + pages) == page + Flatten(pages)
  {
    assert ([page] + pages)[1..] == pages;
  }

  lemma PageThenRest<T>(items: seq<T>, offset: nat, limit: nat)
    requires offset <= |items|
    ensures if HasNext(|items|, offset, limit)
            then items[offset..] == PageAt(items, offset, limit) + items[offset + limit..]
            else items[offset..] == PageAt(items, offset, limit)
  {
  }

  lemma {:induction false} PagesFlatten<T>(items: seq<T>, limit: nat, offset: nat)
    requires limit >= 1 && offset <= |items|
    ensures Flatten(Pages(items, limit, offset)) == items[offset..]
    decreases |items| - offset
  {
    var page := PageAt(items, offset, limit);
    PageThenRest(items, offset, limit);
    if HasNext(|items|, offset, limit) {
      PagesFlatten(items, limit, offset + limit);
      FlattenFirst(page, Pages(items, limit, offset + limit));
    } else {
      FlattenFirst(page, []);
    }
  }

  /** Every page but the last holds `limit` results, the last at least one and no more. */
  ghost predicate Full<T>(pages: seq<seq<T>>, limit: nat) {
    && pages != []
    && (forall k :: 0 <= k < |pages| - 1 ==> |pages[k]| == limit)
    && 0 < |pages[|pages| - 1]| <= limit
  }

  lemma FullFirst<T>(page: seq<T>, pages: seq<seq<T>>, limit: nat)
    requires if pages == [] then 0 < |page| <= limit else |page| == limit && Full(pages, limit)
    ensures Full([page] + pages, limit)
  {
  }

  lemma {:induction false} PagesAreFull<T>(items: seq<T>, limit: nat, offset: nat)
    requires limit >= 1 && offset < |items|
    ensures Full(Pages(items, limit, offset), limit)
    decreases |items| - offset
  {
    var page := PageAt(items, offset, limit);
    if HasNext(|items|, offset, limit) {
      PagesAreFull(items, limit, offset + limit);
      FullFirst(page, Pages(items, limit, offset + limit), limit);
    } else {
      FullFirst(page, [], limit);
    }
  }

  /** A client that follows the cursors from page one sees the whole list, no result twice and none left
      out, in full pages but for the last. */
  lemma FollowedPagesAreTheList(c: Codec, items: seq<Item>, digest: Digest, search: Id, limit: nat)
    requires Lawful(c) && limit >= 1
    ensures var pages := Follow(c, items, digest, search, limit, 0);
            Flatten(pages) == items && (items != [] ==> Full(pages, limit))
  {
    CursorsLeadOn(c, items, digest, search, limit, 0);
    PagesFlatten(items, limit, 0);
    if items != [] {
      PagesAreFull(items, limit, 0);
    }
  }
}
