/** Splitting a list page: an agent submits the items it found under a parent discovery
    (src/app/infra/agent_integration.py). */
module Splitting {
  import opened Wrappers
  import opened Ids
  import opened Database
  import opened Ingestion
  import Invariants

  /** One list item; an empty heading counts as none. */
  datatype Submission = Submission(title: Title, url: Option<Url>, excerpt: Excerpt, heading: string, at: Time)

  datatype Status = Created | Duplicate | Refused

  datatype CandidateResult = CandidateResult(
    title: Title, discovery: Option<Id>, status: Status, reason: Option<string>)

  /** The join of discovery, page and source. */
  predicate HasContext(s: Shelf, parent: Id) {
    && parent in s.discoveries
    && s.discoveries[parent].page in s.pages
    && s.discoveries[parent].page.source in s.sources
  }

  function SubmittedUrl(ds: Discoveries, parent: Id, c: Submission): Url
    requires parent in ds
  {
    if c.url.Some? then c.url.value else ds[parent].page.url
  }

  function WithHeading(lib: Library, heading: string, excerpt: Excerpt): Excerpt {
    if heading == "" then excerpt else Excerpt(Some(lib.strip("[" + heading + "]\n" + OrEmpty(excerpt))))
  }

  function SubmitOne(lib: Library, s: Shelf, parent: Id, c: Submission, began: Time): Shelf
    requires parent in s.discoveries
  {
    match Prepare(lib, SubmittedUrl(s.discoveries, parent, c), c.title, c.excerpt)
    case Err(_) => s
    case Ok(p) =>
      var page := Page(s.discoveries[parent].page.source, p.url);
      var seen := Seen(s, page, c.at);
      if Same(s.discoveries, page, p.hash) != {} then seen
      else Insert(seen, NewRow(lib, page, began, p, WithHeading(lib, c.heading, p.excerpt), None, Some(parent)))
  }

  function ResultOf(lib: Library, s: Shelf, parent: Id, c: Submission): CandidateResult
    requires parent in s.discoveries
  {
    match Prepare(lib, SubmittedUrl(s.discoveries, parent, c), c.title, c.excerpt)
    case Err(why) => CandidateResult(c.title, None, Refused, Some(why))
    case Ok(p) =>
      var same := Same(s.discoveries, Page(s.discoveries[parent].page.source, p.url), p.hash);
      if same != {} then CandidateResult(c.title, Some(Least(same)), Duplicate, None)
      else CandidateResult(c.title, Some(s.nextId), Created, None)
  }

  // ----- What an item leaves, row by row -----

  /** The excerpt of the new discovery, under the heading the item stood below. */
  predicate UnderHeading(lib: Library, heading: string, kept: Excerpt, stored: Excerpt) {
    if heading == "" then stored == kept
    else
      match kept.text
      case Some(text) => stored.text == Some(lib.strip("[" + heading + "]\n" + text))
      case None => stored.text == Some(lib.strip("[" + heading + "]\n" + ""))
  }

  /** An item without a link of its own is found on the parent's page; an address that is none is refused
      with its reason; a content its page has already is answered with a discovery that has it; anything
      else becomes a child of the parent, which revises nothing. */
  ghost predicate Submits(lib: Library, s: Shelf, parent: Id, c: Submission, began: Time,
                          after: Shelf, r: CandidateResult)
    requires parent in s.discoveries
  {
    var home := s.discoveries[parent].page;
    var url := match c.url case Some(own) => own case None => home.url;
    match lib.canonical(url)
    case Err(why) => after == s && r == CandidateResult(c.title, None, Refused, Some(why))
    case Ok(_) =>
      exists p: Candidate ::
        && Keeps(lib, url, c.title, c.excerpt, p)
        && Admits(lib, s, parent, c, Page(home.source, p.url), began, p, after, r)
  }

  ghost predicate Admits(lib: Library, s: Shelf, parent: Id, c: Submission, page: Page, began: Time, p: Candidate,
                         after: Shelf, r: CandidateResult)
  {
    && r.title == c.title && r.reason.None? && r.discovery.Some?
    && var d := r.discovery.value;
    if Holds(s, page, p.hash) then
      && r.status.Duplicate? && after == s.(pages := s.pages[page := c.at])
      && d in s.discoveries && s.discoveries[d].page == page && s.discoveries[d].contentHash == p.hash
    else
      && r.status.Created? && d == s.nextId && d in after.discoveries
      && var row := after.discoveries[d];
      && Brought(s, after, page, c.at, row) && JustFound(lib, row, page, began, p)
      && UnderHeading(lib, c.heading, p.excerpt, row.excerpt)
      && row.splitFrom == Some(parent) && row.supersedes.None?
  }

  lemma SubmitOneSubmits(lib: Library, s: Shelf, parent: Id, c: Submission, began: Time)
    requires parent in s.discoveries
    ensures Submits(lib, s, parent, c, began, SubmitOne(lib, s, parent, c, began), ResultOf(lib, s, parent, c))
  {
    var url := SubmittedUrl(s.discoveries, parent, c);
    PrepareKeeps(lib, url, c.title, c.excerpt);
    var p := Prepare(lib, url, c.title, c.excerpt);
    if p.Ok? {
      var page := Page(s.discoveries[parent].page.source, p.value.url);
      HoldsIsSame(s, page, p.value.hash);
      assert Admits(lib, s, parent, c, page, began, p.value, SubmitOne(lib, s, parent, c, began),
                    ResultOf(lib, s, parent, c));
    }
  }

  function SubmitAll(lib: Library, s: Shelf, parent: Id, cs: seq<Submission>, began: Time): (after: Shelf)
    requires parent in s.discoveries
    ensures parent in after.discoveries
  {
    if cs == [] then s
    else
      var n := |cs| - 1;
      SubmitOne(lib, SubmitAll(lib, s, parent, cs[..n], began), parent, cs[n], began)
  }

  function Results(lib: Library, s: Shelf, parent: Id, cs: seq<Submission>, began: Time): (rs: seq<CandidateResult>)
    requires parent in s.discoveries
    ensures |rs| == |cs|
  {
    if cs == [] then []
    else
      var n := |cs| - 1;
      Results(lib, s, parent, cs[..n], began)
      + [ResultOf(lib, SubmitAll(lib, s, parent, cs[..n], began), parent, cs[n])]
  }

  function Having(status: Status, rs: seq<CandidateResult>): nat {
    if rs == [] then 0 else Having(status, rs[..|rs| - 1]) + if rs[|rs| - 1].status == status then 1 else 0
  }

  lemma OneMoreItem(lib: Library, s: Shelf, parent: Id, cs: seq<Submission>, began: Time, i: nat)
    requires i < |cs| && parent in s.discoveries
    ensures var before := SubmitAll(lib, s, parent, cs[..i], began);
            && SubmitAll(lib, s, parent, cs[..i + 1], began) == SubmitOne(lib, before, parent, cs[i], began)
            && Results(lib, s, parent, cs[..i + 1], began) ==
               Results(lib, s, parent, cs[..i], began) + [ResultOf(lib, before, parent, cs[i])]
  {
    assert cs[..i + 1][..i] == cs[..i];
  }

  lemma OneMoreHaving(status: Status, rs: seq<CandidateResult>, r: CandidateResult)
    ensures Having(status, rs + [r]) == Having(status, rs) + if r.status == status then 1 else 0
  {
    assert (rs + [r])[..|rs|] == rs;
  }

  lemma {:induction false} HavingIsTheNumber(status: Status, rs: seq<CandidateResult>)
    ensures Having(status, rs) == |Invariants.Places(rs, (r: CandidateResult) => r.status == status)|
  {
    if rs != [] {
      HavingIsTheNumber(status, rs[..|rs| - 1]);
      Invariants.OneMorePlace(rs, (r: CandidateResult) => r.status == status);
    }
  }

  ghost predicate AreCounts(rs: seq<CandidateResult>, created: nat, duplicates: nat, rejected: nat) {
    created == Having(Created, rs) && duplicates == Having(Duplicate, rs) && rejected == Having(Refused, rs)
  }

  lemma OneMoreCounted(rs: seq<CandidateResult>, r: CandidateResult, created: nat, duplicates: nat, rejected: nat)
    requires AreCounts(rs, created, duplicates, rejected)
    ensures AreCounts(rs + [r], created + if r.status == Created then 1 else 0,
                      duplicates + if r.status == Duplicate then 1 else 0,
                      rejected + if r.status == Refused then 1 else 0)
  {
    OneMoreHaving(Created, rs, r);
    OneMoreHaving(Duplicate, rs, r);
    OneMoreHaving(Refused, rs, r);
  }

  // ----- Conservation and replay -----

  lemma OneSubmissionGrows(lib: Library, s: Shelf, parent: Id, c: Submission, began: Time)
    requires IdsBelow(s) && parent in s.discoveries
    ensures var after := SubmitOne(lib, s, parent, c, began);
            IdsBelow(after) && Grown(s, after, if ResultOf(lib, s, parent, c).status.Created? then 1 else 0, 0)
  {
    var p := Prepare(lib, SubmittedUrl(s.discoveries, parent, c), c.title, c.excerpt);
    if p.Ok? {
      var page := Page(s.discoveries[parent].page.source, p.value.url);
      InsertGrows(s, page, c.at,
                  NewRow(lib, page, began, p.value, WithHeading(lib, c.heading, p.value.excerpt), None, Some(parent)));
    }
  }

  /** Each item is created, a duplicate or refused; the new discoveries are the created ones, each with its
      two jobs; nothing goes to quarantine, the refusal is in the answer. */
  lemma {:induction false} SubmitConserves(lib: Library, s: Shelf, parent: Id, cs: seq<Submission>, began: Time)
    requires IdsBelow(s) && parent in s.discoveries
    ensures var rs := Results(lib, s, parent, cs, began); var after := SubmitAll(lib, s, parent, cs, began);
            && Having(Created, rs) + Having(Duplicate, rs) + Having(Refused, rs) == |cs|
            && IdsBelow(after) && Grown(s, after, Having(Created, rs), 0)
  {
    if cs != [] {
      var n := |cs| - 1;
      var rs := Results(lib, s, parent, cs, began);
      var before := SubmitAll(lib, s, parent, cs[..n], began);
      SubmitConserves(lib, s, parent, cs[..n], began);
      OneSubmissionGrows(lib, before, parent, cs[n], began);
      assert rs[..n] == Results(lib, s, parent, cs[..n], began);
      GrownTwice(s, before, SubmitAll(lib, s, parent, cs, began), Having(Created, rs[..n]), 0,
                 if rs[n].status.Created? then 1 else 0, 0);
    }
  }

  /** An answer that names a discovery names one with the item's content, on the page of its own link or
      of the parent. */
  ghost predicate Answers(lib: Library, s: Shelf, parent: Id, c: Submission, r: CandidateResult)
    requires parent in s.discoveries
  {
    var p := Prepare(lib, SubmittedUrl(s.discoveries, parent, c), c.title, c.excerpt);
    if p.Err? then r == CandidateResult(c.title, None, Refused, Some(p.error))
    else
      && r.discovery.Some? && !r.status.Refused?
      && r.discovery.value in Same(s.discoveries, Page(s.discoveries[parent].page.source, p.value.url), p.value.hash)
  }

  lemma OneAnswer(lib: Library, s: Shelf, parent: Id, c: Submission, began: Time, after: Shelf)
    requires IdsBelow(s) && parent in s.discoveries && after == SubmitOne(lib, s, parent, c, began)
    ensures parent in after.discoveries && Answers(lib, after, parent, c, ResultOf(lib, s, parent, c))
  {
    var p := Prepare(lib, SubmittedUrl(s.discoveries, parent, c), c.title, c.excerpt);
    if p.Ok? {
      var page := Page(s.discoveries[parent].page.source, p.value.url);
      var same := Same(s.discoveries, page, p.value.hash);
      if same != {} {
        assert after.discoveries == s.discoveries && Least(same) in same;
      } else {
        assert s.nextId in Same(after.discoveries, page, p.value.hash);
      }
    }
  }

  lemma AnswerStays(lib: Library, s: Shelf, u: Shelf, parent: Id, c: Submission, r: CandidateResult)
    requires parent in s.discoveries && Answers(lib, s, parent, c, r) && Later(s, u)
    ensures Answers(lib, u, parent, c, r)
  {
  }

  lemma AnswerSurvives(lib: Library, s: Shelf, parent: Id, c: Submission, r: CandidateResult, next: Submission,
                       began: Time, after: Shelf)
    requires IdsBelow(s) && parent in s.discoveries && Answers(lib, s, parent, c, r)
    requires after == SubmitOne(lib, s, parent, next, began)
    ensures parent in after.discoveries && Answers(lib, after, parent, c, r)
  {
    OneSubmissionGrows(lib, s, parent, next, began);
    AnswerStays(lib, s, after, parent, c, r);
  }

  function SubmitNext(lib: Library, s: Shelf, parent: Id, c: Submission, began: Time): Shelf {
    if parent in s.discoveries then SubmitOne(lib, s, parent, c, began) else s
  }

  /** The shelf before each item, and after the last. */
  ghost function Trail(lib: Library, s: Shelf, parent: Id, cs: seq<Submission>, began: Time): seq<Shelf>
    requires parent in s.discoveries
  {
    seq(|cs| + 1, k requires 0 <= k <= |cs| => SubmitAll(lib, s, parent, cs[..k], began))
  }

  lemma TrailSteps(lib: Library, s: Shelf, parent: Id, cs: seq<Submission>, began: Time)
    requires parent in s.discoveries
    ensures Invariants.Steps((u: Shelf, c: Submission) => SubmitNext(lib, u, parent, c, began),
                             Trail(lib, s, parent, cs, began), cs)
  {
    forall k | 0 <= k < |cs|
      ensures Trail(lib, s, parent, cs, began)[k + 1] ==
              SubmitNext(lib, Trail(lib, s, parent, cs, began)[k], parent, cs[k], began)
    {
      OneMoreItem(lib, s, parent, cs, began, k);
    }
  }

  lemma AnsweredToTheEnd(lib: Library, parent: Id, shelves: seq<Shelf>, cs: seq<Submission>, began: Time, i: nat)
    requires Invariants.Steps((u: Shelf, c: Submission) => SubmitNext(lib, u, parent, c, began), shelves, cs)
    requires i < |cs| && IdsBelow(shelves[i]) && parent in shelves[i].discoveries
    ensures var last := shelves[|cs|];
            parent in last.discoveries && Answers(lib, last, parent, cs[i], ResultOf(lib, shelves[i], parent, cs[i]))
  {
    var next := (u: Shelf, c: Submission) => SubmitNext(lib, u, parent, c, began);
    var r := ResultOf(lib, shelves[i], parent, cs[i]);
    var inv := (u: Shelf) => IdsBelow(u) && parent in u.discoveries && Answers(lib, u, parent, cs[i], r);
    assert shelves[i + 1] == next(shelves[i], cs[i]);
    OneSubmissionGrows(lib, shelves[i], parent, cs[i], began);
    OneAnswer(lib, shelves[i], parent, cs[i], began, shelves[i + 1]);
    forall u, c | inv(u) ensures inv(next(u, c)) {
      OneSubmissionGrows(lib, u, parent, c, began);
      AnswerSurvives(lib, u, parent, cs[i], r, c, began, next(u, c));
    }
    Invariants.Holds(next, inv, shelves, cs, i + 1, |cs|);
  }

  lemma ResultAt(lib: Library, s: Shelf, parent: Id, cs: seq<Submission>, began: Time, i: nat)
    requires parent in s.discoveries && i < |cs|
    ensures Results(lib, s, parent, cs, began)[i] ==
            ResultOf(lib, SubmitAll(lib, s, parent, cs[..i], began), parent, cs[i])
  {
    var log := (k: nat) => if k <= |cs| then Results(lib, s, parent, cs[..k], began) else [];
    var added := (k: nat) =>
      ResultOf(lib, if k < |cs| then SubmitAll(lib, s, parent, cs[..k], began) else s, parent,
               cs[if k < |cs| then k else i]);
    forall k | 0 <= k < |cs| ensures log(k + 1) == log(k) + [added(k)] {
      OneMoreItem(lib, s, parent, cs, began, k);
    }
    assert cs[..|cs|] == cs;
    Invariants.Appended(log, added, |cs|, i);
  }

  lemma EveryItemIsAnswered(lib: Library, s: Shelf, parent: Id, cs: seq<Submission>, began: Time, i: nat)
    requires IdsBelow(s) && parent in s.discoveries && i < |cs|
    ensures Answers(lib, SubmitAll(lib, s, parent, cs, began), parent, cs[i], Results(lib, s, parent, cs, began)[i])
  {
    var shelves := Trail(lib, s, parent, cs, began);
    assert cs[..|cs|] == cs;
    TrailSteps(lib, s, parent, cs, began);
    SubmitConserves(lib, s, parent, cs[..i], began);
    ResultAt(lib, s, parent, cs, began, i);
    AnsweredToTheEnd(lib, parent, shelves, cs, began, i);
  }

  /** Submitting an item again, however much later, creates nothing. */
  lemma ResubmitCreatesNothing(lib: Library, s: Shelf, parent: Id, cs: seq<Submission>, began: Time, i: nat,
                               u: Shelf, c: Submission, began': Time)
    requires IdsBelow(s) && parent in s.discoveries && i < |cs| && Later(SubmitAll(lib, s, parent, cs, began), u)
    requires c.title == cs[i].title && c.url == cs[i].url && c.excerpt == cs[i].excerpt
    ensures SameFinds(u, SubmitOne(lib, u, parent, c, began'))
    ensures ResultOf(lib, u, parent, c).status ==
            if Results(lib, s, parent, cs, began)[i].status.Refused? then Refused else Duplicate
  {
    EveryItemIsAnswered(lib, s, parent, cs, began, i);
    AnswerStays(lib, SubmitAll(lib, s, parent, cs, began), u, parent, cs[i], Results(lib, s, parent, cs, began)[i]);
  }
}
