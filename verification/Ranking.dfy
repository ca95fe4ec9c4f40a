/** From published cycles to one ranked list, its counts and its pages (src/app/api/routes.py). */
module Ranking {
  import opened Wrappers
  import opened Ids
  import opened Sorting
  import Words
  import Taxonomy
  import Facts
  import Matching
  import Status

  /** A published cycle as the scan reads it. */
  datatype Row = Row(
    cycle: Id, scholarship: Id, facts: Facts.Blob, publicStatus: Status.PublicStatus, validUntil: Option<Status.Time>)

  /** A search result, as far as it decides the order and what a replay still shows. */
  datatype Item = Item(
    cycle: Id, scholarship: Id, fit: Matching.Fit, status: Status.Detail, deadlineAt: Option<Status.DateTime>,
    reopenMonth: Option<int>)

  /** Who asks, when, and the libraries in use. */
  datatype Query = Query(
    profile: Matching.Profile, now: Status.Time, cal: Status.Calendar, lib: Facts.Library, t: Taxonomy.Taxonomy)

  // ----- Matching one row -----

  /** The public status is evaluated again at read time; an unknown one is not shown. */
  function SearchResult(q: Query, row: Row, decision: Matching.Decision): Option<Item> {
    var derived := Facts.Derive(q.lib, q.t, row.facts);
    var s := Facts.ScheduleOf(derived);
    var status := Status.EvaluatePublicStatus(row.publicStatus, s, row.validUntil, q.now, q.cal);
    if status.StatusUnknown? then None
    else
      Some(Item(row.cycle, row.scholarship, decision.fit, Status.EvaluateStatusDetail(status, s, q.now, q.cal),
                derived.deadlineAt, derived.reopenMonth))
  }

  function Result(q: Query, row: Row): Option<Item> {
    match Matching.Match(q.lib, q.t, q.profile, row.facts)
    case None => None
    case Some(decision) => SearchResult(q, row, decision)
  }

  /** A comprehension with a condition. */
  function Collect<A, B>(f: A -> Option<B>, xs: seq<A>): seq<B> {
    if xs == [] then []
    else (if f(xs[0]).Some? then [f(xs[0]).value] else []) + Collect(f, xs[1..])
  }

  function Matched(q: Query, rows: seq<Row>): seq<Item> {
    Collect(row => Result(q, row), rows)
  }

  lemma {:induction false} Collected<A, B>(f: A -> Option<B>, xs: seq<A>, y: B) returns (x: A)
    requires y in Collect(f, xs)
    ensures x in xs && f(x) == Some(y)
  {
    if f(xs[0]) == Some(y) {
      x := xs[0];
    } else {
      x := Collected(f, xs[1..], y);
    }
  }

  lemma {:induction false} CollectConcat<A, B>(f: A -> Option<B>, xs: seq<A>, ys: seq<A>)
    ensures Collect(f, xs + ys) == Collect(f, xs) + Collect(f, ys)
  {
    if xs == [] {
      assert xs + ys == ys;
    } else {
      CollectConcat(f, xs[1..], ys);
      CollectFirst(f, xs[0], xs[1..] + ys);
      CollectFirst(f, xs[0], xs[1..]);
      assert xs == [xs[0]] + xs[1..];
      assert [xs[0]] + (xs[1..] + ys) == xs + ys;
    }
  }

  lemma CollectFirst<A, B>(f: A -> Option<B>, x: A, xs: seq<A>)
    ensures Collect(f, [x] + xs) == Collect(f, [x]) + Collect(f, xs)
  {
    assert ([x] + xs)[1..] == xs && [x][1..] == [];
  }

  lemma CollectMiddle<A, B>(f: A -> Option<B>, xs: seq<A>, y: A, zs: seq<A>)
    ensures multiset(Collect(f, xs + ([y] + zs))) == multiset(Collect(f, [y])) + multiset(Collect(f, xs + zs))
  {
    CollectConcat(f, xs, [y] + zs);
    CollectFirst(f, y, zs);
    CollectConcat(f, xs, zs);
  }

  lemma CollectWithout<A, B>(f: A -> Option<B>, ys: seq<A>, i: nat)
    requires i < |ys|
    ensures multiset(Collect(f, ys)) == multiset(Collect(f, [ys[i]])) + multiset(Collect(f, ys[..i] + ys[i + 1..]))
  {
    assert ys == ys[..i] + ([ys[i]] + ys[i + 1..]);
    CollectMiddle(f, ys[..i], ys[i], ys[i + 1..]);
  }

  lemma Without<A>(ys: seq<A>, i: nat)
    requires i < |ys|
    ensures multiset(ys[..i] + ys[i + 1..]) == multiset(ys) - multiset{ys[i]}
  {
    assert ys == ys[..i] + ([ys[i]] + ys[i + 1..]);
  }

  lemma Rest<A>(xs: seq<A>)
    requires xs != []
    ensures multiset(xs[1..]) == multiset(xs) - multiset{xs[0]} && xs[0] in multiset(xs)
  {
    assert xs == [xs[0]] + xs[1..];
  }

  lemma Counterpart<A>(xs: seq<A>, ys: seq<A>) returns (i: nat)
    requires multiset(xs) == multiset(ys) && xs != []
    ensures i < |ys| && ys[i] == xs[0] && multiset(xs[1..]) == multiset(ys[..i] + ys[i + 1..])
  {
    Rest(xs);
    i :| i < |ys| && ys[i] == xs[0];
    Without(ys, i);
  }

  /** The rows' order decides only the order of what is collected. */
  lemma {:induction false} CollectPermutes<A, B>(f: A -> Option<B>, xs: seq<A>, ys: seq<A>)
    requires multiset(xs) == multiset(ys)
    ensures multiset(Collect(f, xs)) == multiset(Collect(f, ys))
  {
    if xs == [] {
      assert |multiset(ys)| == 0;
    } else {
      var i := Counterpart(xs, ys);
      CollectPermutes(f, xs[1..], ys[..i] + ys[i + 1..]);
      CollectWithout(f, ys, i);
      CollectConcat(f, [xs[0]], xs[1..]);
      assert xs == [xs[0]] + xs[1..];
    }
  }

  /** Nothing is shown as open at or after its deadline's cutoff or the end of its validity. */
  lemma ShownOpenIsInTime(q: Query, row: Row)
    requires Result(q, row).Some?
    ensures var item := Result(q, row).value;
            var s := Facts.ScheduleOf(Facts.Derive(q.lib, q.t, row.facts));
            && item.cycle == row.cycle && item.scholarship == row.scholarship && !item.status.Unknown?
            && (item.status.Open? || item.status.ClosingSoon? <==>
                  row.publicStatus.OpenVerified?
                  && !Status.Passed(Status.Cutoff(s, q.cal), q.now) && !Status.Passed(row.validUntil, q.now))
  {
    Status.OpenReadIsInTime(
      row.publicStatus, Facts.ScheduleOf(Facts.Derive(q.lib, q.t, row.facts)), row.validUntil, q.now, q.cal);
  }

  /** Nobody knows yet whom the award is open to, or for which fields. */
  predicate Uncertain(f: Facts.Blob) {
    Matching.ModeOpen(f, Facts.OriginModeKey) || Matching.ModeOpen(f, Facts.FieldModeKey)
  }

  function Schedule(q: Query, row: Row): Status.Schedule {
    Facts.ScheduleOf(Facts.Derive(q.lib, q.t, row.facts))
  }

  /** Open as stored, before the cutoff and within its validity. */
  predicate Live(q: Query, row: Row) {
    && row.publicStatus.OpenVerified?
    && (row.validUntil.Some? ==> q.now < row.validUntil.value)
    && (Schedule(q, row).deadlineAt.Some? ==>
          q.now < Status.DeadlineCutoff(Schedule(q, row).deadlineAt.value, Schedule(q, row).precision,
                                        Schedule(q, row).timezone, q.cal))
  }

  /** A row is shown exactly if it suits the searcher and is live or expected to reopen, and this is what is
      shown of it. */
  ghost predicate Shows(q: Query, row: Row, r: Option<Item>) {
    && (r.Some? <==> Matching.Suits(q.lib, q.t, q.profile, row.facts)
                     && (Live(q, row) || row.publicStatus.ExpectedToReopen?))
    && (r.Some? ==>
          && r.value.cycle == row.cycle && r.value.scholarship == row.scholarship
          && (r.value.fit.Possible? <==> Uncertain(row.facts))
          && (r.value.status.Open? || r.value.status.ClosingSoon? <==> Live(q, row))
          && (r.value.status.LikelyToOpen? <==> row.publicStatus.ExpectedToReopen?)
          && r.value.status == Status.EvaluateStatusDetail(row.publicStatus, Schedule(q, row), q.now, q.cal)
          && r.value.deadlineAt == Schedule(q, row).deadlineAt && r.value.reopenMonth == Schedule(q, row).reopenMonth)
  }

  lemma LiveRead(q: Query, row: Row, s: Status.Schedule)
    requires s == Schedule(q, row)
    ensures var read := Status.EvaluatePublicStatus(row.publicStatus, s, row.validUntil, q.now, q.cal);
            && (read.OpenVerified? <==> Live(q, row))
            && (read.ExpectedToReopen? <==> row.publicStatus.ExpectedToReopen?)
            && (!read.StatusUnknown? ==> read == row.publicStatus)
  {
  }

  lemma MatchedShows(q: Query, row: Row, d: Matching.Decision)
    requires d.fit.Possible? <==> Uncertain(row.facts)
    requires Matching.Suits(q.lib, q.t, q.profile, row.facts)
    ensures Shows(q, row, SearchResult(q, row, d))
  {
    LiveRead(q, row, Schedule(q, row));
    Status.DetailMeans(row.publicStatus, Schedule(q, row), q.now, q.cal);
  }

  lemma ResultShows(q: Query, row: Row)
    ensures Shows(q, row, Result(q, row))
  {
    Matching.MatchMeans(q.lib, q.t, q.profile, row.facts);
    var m := Matching.Match(q.lib, q.t, q.profile, row.facts);
    if m.Some? {
      MatchedShows(q, row, m.value);
    }
  }

  // ----- The order -----

  function StatusRank(s: Status.Detail): nat {
    match s
    case Open => 0
    case ClosingSoon => 1
    case LikelyToOpen => 2
    case Unknown => 9
  }

  function Digit(n: nat): char
    requires n < 10
  {
    "0123456789"[n]
  }

  /** `f"{n:02d}"`. */
  function TwoDigits(n: nat): string
    requires n < 100
  {
    [Digit(n / 10), Digit(n % 10)]
  }

  /** Live results by their deadline's text, upcoming ones by how many months away they reopen; those that
      say neither come last. */
  function SortValue(q: Query, item: Item): (int, string) {
    if item.status.Open? || item.status.ClosingSoon? then
      (if item.deadlineAt.Some? then 0 else 1, if item.deadlineAt.Some? then q.lib.iso(item.deadlineAt.value) else "")
    else if item.reopenMonth.None? then (1, "13")
    else (0, TwoDigits((item.reopenMonth.value - q.cal.month(q.now)) % 12))
  }

  function FitRank(f: Matching.Fit): nat {
    if f.Confirmed? then 0 else 1
  }

  /** Tuple comparison of the sort keys. */
  predicate Before(q: Query, a: Item, b: Item) {
    var (x, s) := SortValue(q, a);
    var (y, u) := SortValue(q, b);
    if FitRank(a.fit) != FitRank(b.fit) then FitRank(a.fit) < FitRank(b.fit)
    else if StatusRank(a.status) != StatusRank(b.status) then StatusRank(a.status) < StatusRank(b.status)
    else if x != y then x < y
    else if s != u then Words.Less(s, u)
    else a.cycle <= b.cycle
  }

  function Order(q: Query): (Item, Item) -> bool {
    (a, b) => Before(q, a, b)
  }

  lemma BeforeTransitive(q: Query, a: Item, b: Item, c: Item)
    requires Before(q, a, b) && Before(q, b, c)
    ensures Before(q, a, c)
  {
    var s, u, w := SortValue(q, a).1, SortValue(q, b).1, SortValue(q, c).1;
    if Words.Less(s, u) && Words.Less(u, w) {
      Words.Transitive(s, u, w);
      Words.Asymmetric(s, w);
    }
  }

  lemma OrderIsTotal(q: Query)
    ensures TotalPreorder(Order(q))
  {
    forall a, b ensures Order(q)(a, b) || Order(q)(b, a) {
      Words.Trichotomy(SortValue(q, a).1, SortValue(q, b).1);
    }
    forall a, b, c | Order(q)(a, b) && Order(q)(b, c) ensures Order(q)(a, c) {
      BeforeTransitive(q, a, b, c);
    }
  }

  function Ranked(q: Query, rows: seq<Row>): seq<Item> {
    Sort(Order(q), Matched(q, rows))
  }

  /** A permutation of the matches in which no possible result precedes a confirmed one, whatever their
      status. */
  lemma RankedIsSorted(q: Query, rows: seq<Row>)
    ensures var ranked := Ranked(q, rows);
            && multiset(ranked) == multiset(Matched(q, rows))
            && Ascending(Order(q), ranked)
            && forall i, j :: 0 <= i < j < |ranked| ==> FitRank(ranked[i].fit) <= FitRank(ranked[j].fit)
  {
    OrderIsTotal(q);
    SortSorts(Order(q), Matched(q, rows));
    var ranked := Ranked(q, rows);
    forall i, j | 0 <= i < j < |ranked| ensures FitRank(ranked[i].fit) <= FitRank(ranked[j].fit) {
      assert Order(q)(ranked[i], ranked[j]);
    }
  }

  lemma BeforeBothWays(q: Query, a: Item, b: Item)
    requires Before(q, a, b) && Before(q, b, a)
    ensures a.cycle == b.cycle
  {
    var s, u := SortValue(q, a).1, SortValue(q, b).1;
    if Words.Less(s, u) {
      Words.Asymmetric(s, u);
    }
  }

  /** Two ascending arrangements of the same results are equal when each cycle has one result. */
  lemma {:induction false} OrderIsUnique(q: Query, a: seq<Item>, b: seq<Item>)
    requires Ascending(Order(q), a) && Ascending(Order(q), b) && multiset(a) == multiset(b)
    requires forall x, y :: x in a && y in a && x.cycle == y.cycle ==> x == y
    ensures a == b
  {
    assert |a| == |multiset(a)| == |multiset(b)| == |b|;
    if a != [] {
      Rest(a);
      Rest(b);
      SameFirst(q, a, b);
      OrderIsUnique(q, a[1..], b[1..]);
    }
  }

  lemma SameFirst(q: Query, a: seq<Item>, b: seq<Item>)
    requires a != [] && b != [] && Ascending(Order(q), a) && Ascending(Order(q), b)
    requires a[0] in b && b[0] in a
    requires forall x, y :: x in a && y in a && x.cycle == y.cycle ==> x == y
    ensures a[0] == b[0]
  {
    var i :| 0 <= i < |b| && b[i] == a[0];
    var j :| 0 <= j < |a| && a[j] == b[0];
    if i > 0 && j > 0 {
      assert Order(q)(b[0], b[i]) && Order(q)(a[0], a[j]);
      BeforeBothWays(q, a[0], b[0]);
    }
  }

  /** The order is fixed by the results themselves: in whatever order the database delivers the rows, the
      ranked list is the same. */
  lemma ScanOrderDoesNotMatter(q: Query, rows: seq<Row>, again: seq<Row>)
    requires multiset(rows) == multiset(again)
    requires forall r, u :: r in rows && u in rows && r.cycle == u.cycle ==> r == u
    ensures Ranked(q, rows) == Ranked(q, again)
  {
    RankedIsSorted(q, rows);
    RankedIsSorted(q, again);
    CollectPermutes(row => Result(q, row), rows, again);
    forall x, y | x in Ranked(q, rows) && y in Ranked(q, rows) && x.cycle == y.cycle ensures x == y {
      var r := RowOf(q, rows, x);
      var u := RowOf(q, rows, y);
    }
    OrderIsUnique(q, Ranked(q, rows), Ranked(q, again));
  }

  lemma RowOf(q: Query, rows: seq<Row>, item: Item) returns (row: Row)
    requires item in Ranked(q, rows)
    ensures row in rows && Result(q, row) == Some(item) && row.cycle == item.cycle
  {
    RankedIsSorted(q, rows);
    assert item in multiset(Ranked(q, rows));
    row := Collected(r => Result(q, r), rows, item);
    ShownOpenIsInTime(q, row);
  }

  /** Every shown result comes from a row, and every row that is to be shown has its result. */
  lemma RankedMeans(q: Query, rows: seq<Row>)
    ensures forall item :: item in Ranked(q, rows) <==> exists row :: row in rows && Result(q, row) == Some(item)
  {
    RankedIsSorted(q, rows);
    forall item ensures item in Ranked(q, rows) <==> item in Matched(q, rows) {
      assert item in multiset(Ranked(q, rows)) <==> item in multiset(Matched(q, rows));
    }
    forall item | item in Matched(q, rows) ensures exists row :: row in rows && Result(q, row) == Some(item) {
      var row := Collected(r => Result(q, r), rows, item);
    }
    forall row | row in rows && Result(q, row).Some? ensures Result(q, row).value in Matched(q, rows) {
      CollectHas(r => Result(q, r), rows, row);
    }
  }

  lemma {:induction false} CollectHas<A, B>(f: A -> Option<B>, xs: seq<A>, x: A)
    requires x in xs && f(x).Some?
    ensures f(x).value in Collect(f, xs)
  {
    if x != xs[0] {
      CollectHas(f, xs[1..], x);
    }
  }

  /** Awards whose conditions are all known come before every uncertain one. */
  lemma KnownComeFirst(q: Query, rows: seq<Row>, i: nat, j: nat, row: Row, other: Row)
    requires i < |Ranked(q, rows)| && j < |Ranked(q, rows)|
    requires Result(q, row) == Some(Ranked(q, rows)[i]) && Result(q, other) == Some(Ranked(q, rows)[j])
    requires !Uncertain(row.facts) && Uncertain(other.facts)
    ensures i < j
  {
    RankedIsSorted(q, rows);
    ResultShows(q, row);
    ResultShows(q, other);
  }

  /** How many of the rows are shown and uncertain. */
  function UncertainShown(q: Query, rows: seq<Row>): nat {
    |Collect((row: Row) => if Uncertain(row.facts) then Result(q, row) else None, rows)|
  }

  function PossibleOnes(items: seq<Item>): seq<Item> {
    Collect((item: Item) => if item.fit.Possible? then Some(item) else None, items)
  }

  lemma {:induction false} CollectTwice<A, B, C>(f: A -> Option<B>, g: B -> Option<C>, both: A -> Option<C>, xs: seq<A>)
    requires forall x :: x in xs ==> both(x) == if f(x).Some? then g(f(x).value) else None
    ensures Collect(g, Collect(f, xs)) == Collect(both, xs)
  {
    if xs != [] {
      CollectTwice(f, g, both, xs[1..]);
      var ys := Collect(f, xs[1..]);
      if f(xs[0]).Some? {
        var y := f(xs[0]).value;
        assert Collect(f, xs) == [y] + ys && ([y] + ys)[1..] == ys;
      } else {
        assert Collect(f, xs) == ys;
      }
    }
  }

  lemma UncertainIsPossible(q: Query, row: Row)
    requires Result(q, row).Some?
    ensures Result(q, row).value.fit.Possible? <==> Uncertain(row.facts)
  {
    ResultShows(q, row);
  }

  lemma PossibleMatched(q: Query, rows: seq<Row>)
    ensures |PossibleOnes(Matched(q, rows))| == UncertainShown(q, rows)
  {
    forall row | row in rows && Result(q, row).Some?
      ensures Result(q, row).value.fit.Possible? <==> Uncertain(row.facts)
    {
      UncertainIsPossible(q, row);
    }
    CollectTwice((row: Row) => Result(q, row),
                 (item: Item) => if item.fit.Possible? then Some(item) else None,
                 (row: Row) => if Uncertain(row.facts) then Result(q, row) else None, rows);
  }

  /** Ranking loses none of them. */
  lemma PossibleRanked(q: Query, rows: seq<Row>)
    ensures |PossibleOnes(Ranked(q, rows))| == UncertainShown(q, rows)
  {
    RankedIsSorted(q, rows);
    CollectPermutes((item: Item) => if item.fit.Possible? then Some(item) else None, Ranked(q, rows), Matched(q, rows));
    var a, b := PossibleOnes(Ranked(q, rows)), PossibleOnes(Matched(q, rows));
    assert |a| == |multiset(a)| == |multiset(b)| == |b|;
    PossibleMatched(q, rows);
  }

  /** Among results of one fit the open ones come before those that close soon, and both before those that
      are only expected. */
  lemma OpenFirst(q: Query, a: Item, b: Item)
    requires a.fit == b.fit
    requires (a.status.Open? && !b.status.Open?) || (a.status.ClosingSoon? && b.status.LikelyToOpen?)
    ensures Before(q, a, b) && !Before(q, b, a)
  {
  }

  /** Among live results of one fit and status the earlier deadline's text comes first, and no deadline last;
      among equals the older cycle. */
  lemma EarlierDeadlineFirst(q: Query, a: Item, b: Item)
    requires a.fit == b.fit && a.status == b.status && (a.status.Open? || a.status.ClosingSoon?)
    ensures a.deadlineAt.Some? && b.deadlineAt.None? ==> Before(q, a, b) && !Before(q, b, a)
    ensures a.deadlineAt.Some? && b.deadlineAt.Some?
            && Words.Less(q.lib.iso(a.deadlineAt.value), q.lib.iso(b.deadlineAt.value)) ==>
              Before(q, a, b) && !Before(q, b, a)
    ensures a.deadlineAt == b.deadlineAt ==> (Before(q, a, b) <==> a.cycle <= b.cycle)
  {
    if a.deadlineAt.Some? && b.deadlineAt.Some?
       && Words.Less(q.lib.iso(a.deadlineAt.value), q.lib.iso(b.deadlineAt.value)) {
      Words.Asymmetric(q.lib.iso(a.deadlineAt.value), q.lib.iso(b.deadlineAt.value));
    }
  }

  /** Among upcoming results of one fit that reopen in the same month, or say nothing, the older cycle. */
  lemma SameMonthByAge(q: Query, a: Item, b: Item)
    requires a.fit == b.fit && a.status.LikelyToOpen? && b.status.LikelyToOpen? && a.reopenMonth == b.reopenMonth
    ensures Before(q, a, b) <==> a.cycle <= b.cycle
  {
  }

  lemma TwoDigitsInOrder(a: nat, b: nat)
    requires a < b < 100
    ensures Words.Less(TwoDigits(a), TwoDigits(b))
  {
    DigitsInOrder(a / 10, b / 10);
    DigitsInOrder(a % 10, b % 10);
    var s, u := TwoDigits(a), TwoDigits(b);
    assert s[1..] == [Digit(a % 10)] && u[1..] == [Digit(b % 10)];
  }

  lemma DigitsInOrder(a: nat, b: nat)
    requires a < 10 && b < 10
    ensures a < b ==> Digit(a) < Digit(b)
    ensures a == b ==> Digit(a) == Digit(b)
  {
  }

  /** Padding to two digits makes the text order the numeric one: of two upcoming results of one fit, the
      one that reopens in fewer months comes first, across the turn of the year, and one without a month
      comes after both. */
  lemma SoonerReopeningFirst(q: Query, a: Item, b: Item)
    requires a.fit == b.fit && a.status.LikelyToOpen? && b.status.LikelyToOpen? && a.reopenMonth.Some?
    requires b.reopenMonth.Some? ==>
               (a.reopenMonth.value - q.cal.month(q.now)) % 12 < (b.reopenMonth.value - q.cal.month(q.now)) % 12
    ensures Before(q, a, b) && !Before(q, b, a)
  {
    if b.reopenMonth.Some? {
      var x, y := (a.reopenMonth.value - q.cal.month(q.now)) % 12, (b.reopenMonth.value - q.cal.month(q.now)) % 12;
      TwoDigitsInOrder(x, y);
      Words.Asymmetric(TwoDigits(x), TwoDigits(y));
    }
  }
}
