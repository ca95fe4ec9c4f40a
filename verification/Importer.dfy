/** The import and the agent's submission as loops over mutable tables
    (src/app/infra/ingestion.py, src/app/infra/agent_integration.py). */
module Importer {
  import opened Wrappers
  import opened Ids
  import opened Database
  import opened Ingestion
  import opened Splitting

  datatype Submitted = Submitted(created: nat, duplicates: nat, rejected: nat, results: seq<CandidateResult>)

  class Importer {
    var sources: map<Id, bool>
    var pages: map<Page, Time>
    var discoveries: Discoveries
    var jobs: multiset<JobRow>
    var quarantine: seq<Quarantined>
    var nextId: Id

    function State(): Shelf
      reads this
    {
      Shelf(sources, pages, discoveries, jobs, quarantine, nextId)
    }

    /** Inserts a discovery and its two jobs, which wait for the commit before they are dispatched. */
    method AddDiscovery(row: Discovery) returns (d: Id, pending: seq<JobRow>)
      modifies `discoveries, `jobs, `nextId
      ensures State() == Insert(old(State()), row)
      ensures d == old(nextId) && multiset(pending) == JobsOf(d)
    {
      d := nextId;
      discoveries := discoveries[d := row];
      pending := [JobRow(NormalizeDiscovery, d), JobRow(LinkCanonical, d)];
      jobs := jobs + multiset(pending);
      nextId := nextId + 1;
    }

    method ImportRecord(lib: Library, tie: TieBreak, a: Arrival, began: Time)
      returns (verdict: Verdict, pending: seq<JobRow>)
      modifies this
      ensures State() == ImportOne(lib, tie, old(State()), a, began)
      ensures verdict == Judge(lib, old(State()), a.record)
      ensures Imports(lib, old(State()), a, began, State(), verdict)
      ensures jobs == old(jobs) + multiset(pending)
    {
      ImportOneImports(lib, tie, State(), a, began);
      var r := a.record;
      pending := [];
      var candidate := Prepare(lib, r.url, r.title, r.excerpt);
      if candidate.Err? {
        quarantine := quarantine + [Quarantined(r.source, r.url, r.title, r.excerpt, "invalid_url")];
        return Rejected("invalid_url"), pending;
      }
      var c := candidate.value;
      if r.source !in sources || !sources[r.source] {
        quarantine := quarantine + [Quarantined(r.source, c.url, r.title, r.excerpt, "unknown_or_inactive_source")];
        return Rejected("unknown_or_inactive_source"), pending;
      }
      var page := Page(r.source, c.url);
      pages := pages[page := a.at];
      if Same(discoveries, page, c.hash) != {} {
        return Repeated, pending;
      }
      var head := Head(discoveries, page, tie);
      var d;
      d, pending := AddDiscovery(NewRow(lib, page, began, c, c.excerpt, head, None));
      verdict := if head.Some? then Changed else Imported;
    }

    /** The four counters are the totals of the verdicts, and exactly the jobs created are dispatched. */
    method ImportFeedRecords(lib: Library, tie: TieBreak, arrivals: seq<Arrival>, began: Time)
      returns (outcome: Tally, dispatched: seq<JobRow>)
      modifies this
      ensures State() == ImportAll(lib, tie, old(State()), arrivals, began)
      ensures outcome == Totals(Verdicts(lib, tie, old(State()), arrivals, began))
      ensures jobs == old(jobs) + multiset(dispatched)
    {
      ghost var s := State();
      outcome := Tally(0, 0, 0, 0);
      dispatched := [];
      var i := 0;
      while i < |arrivals|
        invariant 0 <= i <= |arrivals|
        invariant State() == ImportAll(lib, tie, s, arrivals[..i], began)
        invariant outcome == Totals(Verdicts(lib, tie, s, arrivals[..i], began))
        invariant jobs == s.jobs + multiset(dispatched)
      {
        OneMore(lib, tie, s, arrivals, began, i);
        var verdict, pending := ImportRecord(lib, tie, arrivals[i], began);
        outcome := Counted(outcome, verdict);
        dispatched := dispatched + pending;
        i := i + 1;
      }
      assert arrivals[..i] == arrivals;
    }

    method SubmitCandidate(lib: Library, parent: Id, c: Submission, began: Time)
      returns (result: CandidateResult, pending: seq<JobRow>)
      requires parent in discoveries
      modifies this
      ensures State() == SubmitOne(lib, old(State()), parent, c, began)
      ensures result == ResultOf(lib, old(State()), parent, c)
      ensures Submits(lib, old(State()), parent, c, began, State(), result)
      ensures jobs == old(jobs) + multiset(pending)
    {
      SubmitOneSubmits(lib, State(), parent, c, began);
      pending := [];
      var prepared := Prepare(lib, SubmittedUrl(discoveries, parent, c), c.title, c.excerpt);
      if prepared.Err? {
        return CandidateResult(c.title, None, Refused, Some(prepared.error)), pending;
      }
      var p := prepared.value;
      var page := Page(discoveries[parent].page.source, p.url);
      pages := pages[page := c.at];
      var same := Same(discoveries, page, p.hash);
      if same != {} {
        return CandidateResult(c.title, Some(Least(same)), Duplicate, None), pending;
      }
      var d;
      d, pending := AddDiscovery(
        NewRow(lib, page, began, p, WithHeading(lib, c.heading, p.excerpt), None, Some(parent)));
      result := CandidateResult(c.title, Some(d), Created, None);
    }

    /** `None` for a missing parent, an error for a switched-off source, one result per item otherwise. */
    method SubmitCandidates(lib: Library, parent: Id, cs: seq<Submission>, began: Time)
      returns (r: Result<Option<Submitted>>, dispatched: seq<JobRow>)
      modifies this
      ensures r == Ok(None) <==>
                || parent !in old(discoveries) || old(discoveries)[parent].page !in old(pages)
                || old(discoveries)[parent].page.source !in old(sources)
      ensures r != Ok(None) ==> HasContext(old(State()), parent)
      ensures r.Err? <==>
                HasContext(old(State()), parent) && !old(sources)[old(discoveries)[parent].page.source]
      ensures r == Ok(None) || r.Err? ==> State() == old(State())
      ensures r.Ok? && r.value.Some? ==>
                && State() == SubmitAll(lib, old(State()), parent, cs, began)
                && r.value.value.results == Results(lib, old(State()), parent, cs, began)
                && r.value.value.created == Having(Created, r.value.value.results)
                && r.value.value.duplicates == Having(Duplicate, r.value.value.results)
                && r.value.value.rejected == Having(Refused, r.value.value.results)
      ensures jobs == old(jobs) + multiset(dispatched)
    {
      dispatched := [];
      if !HasContext(State(), parent) {
        return Ok(None), dispatched;
      }
      if !sources[discoveries[parent].page.source] {
        return Err("InactiveSource"), dispatched;
      }
      var answer;
      answer, dispatched := SubmitEach(lib, parent, cs, began);
      r := Ok(Some(answer));
    }

    method SubmitEach(lib: Library, parent: Id, cs: seq<Submission>, began: Time)
      returns (answer: Submitted, dispatched: seq<JobRow>)
      requires parent in discoveries
      modifies this
      ensures State() == SubmitAll(lib, old(State()), parent, cs, began)
      ensures answer.results == Results(lib, old(State()), parent, cs, began)
      ensures answer.created == Having(Created, answer.results)
      ensures answer.duplicates == Having(Duplicate, answer.results)
      ensures answer.rejected == Having(Refused, answer.results)
      ensures jobs == old(jobs) + multiset(dispatched)
    {
      ghost var s := State();
      var created, duplicates, rejected := 0, 0, 0;
      var results := [];
      dispatched := [];
      var i := 0;
      while i < |cs|
        invariant 0 <= i <= |cs|
        invariant State() == SubmitAll(lib, s, parent, cs[..i], began)
        invariant results == Results(lib, s, parent, cs[..i], began)
        invariant AreCounts(results, created, duplicates, rejected)
        invariant jobs == s.jobs + multiset(dispatched)
      {
        OneMoreItem(lib, s, parent, cs, began, i);
        var result, pending := SubmitCandidate(lib, parent, cs[i], began);
        OneMoreCounted(results, result, created, duplicates, rejected);
        results := results + [result];
        created := created + if result.status == Created then 1 else 0;
        duplicates := duplicates + if result.status == Duplicate then 1 else 0;
        rejected := rejected + if result.status == Refused then 1 else 0;
        dispatched := dispatched + pending;
        i := i + 1;
      }
      assert cs[..i] == cs;
      answer := Submitted(created, duplicates, rejected, results);
    }
  }
}
