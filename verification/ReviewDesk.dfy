/** The same transactions as methods that change the tables in place. */
module ReviewDesk {
  import opened Wrappers
  import opened Ids
  import opened Database
  import opened Reviews
  import opened Evaluations

  datatype AutoApprovalOutcome = AutoApprovalOutcome(approved: bool, reason: string, scholarship: Option<Id>)

  /** What everybody else may have done by the time an attempt locks its rows again. */
  type Others = (Desk, nat) -> Desk

  ghost predicate Cooperative(others: Others) {
    forall k, n :: DeskOk(k) ==> DeskOk(others(k, n)) && ResolvedStay(k, others(k, n))
  }

  /** The database refuses the new row, with an error that the attempt does not catch. */
  predicate Raised(refusal: Option<string>) {
    refusal == Some("slug too long") || refusal == Some("duplicate slug")
  }

  /** Nobody else is at work. */
  ghost predicate Alone(others: Others) {
    forall k, n :: others(k, n) == k
  }

  class ReviewDesk {
    var discoveries: Discoveries
    var tasks: Tasks
    var scholarships: map<Id, Scholarship>
    var jobs: multiset<JobRow>
    var nextId: Id

    function State(): Desk
      reads this
    {
      Desk(discoveries, tasks, scholarships, jobs, nextId)
    }

    constructor ()
      ensures State() == START.desk && DeskOk(State())
    {
      discoveries, tasks, scholarships, jobs, nextId := map[], map[], map[], multiset{}, 0;
    }

    /** Insert on conflict do nothing. The answer names a live task of the subject, new or not. */
    method AddReviewTaskOnce(subject: Subject, reason: string) returns (task: Id, created: bool)
      modifies this
      ensures State() == OpenOnce(old(State()), subject, reason)
      ensures Opens(old(State()), State(), subject, reason)
      ensures created <==> !HasLive(old(tasks), subject)
      ensures task in tasks && tasks[task].subject == subject && Live(tasks[task])
    {
      OpenOnceOpens(State(), subject, reason);
      var live := set t | t in tasks && tasks[t].subject == subject && Live(tasks[t]);
      if live != {} {
        assert Least(live) in live;
        return Least(live), false;
      }
      assert forall t :: t in tasks && tasks[t].subject == subject && Live(tasks[t]) ==> t in live;
      task, created := nextId, true;
      tasks := tasks[task := ReviewTask(subject, reason, OpenTask, None, None)];
      if subject.OfDiscovery? {
        jobs := jobs + multiset{JobRow(PrepareReview, task)};
      }
      nextId := nextId + 1;
    }

    /** Resolves an open task; an approval also creates the scholarship and links the discovery. */
    method DecideReview(task: Id, decision: Decision, reason: string) returns (r: Result<Option<Id>>)
      modifies this
      ensures State() == Decided(old(State()), task, decision, reason)
      ensures r.Ok? <==> Acceptable(old(State()), task, decision)
      ensures r.Ok? ==> Resolves(old(State()), State(), task, decision, reason)
      ensures r.Err? ==> State() == old(State())
      ensures Refusal(old(State()), task, decision) == if r.Err? then Some(r.error) else None
      ensures r.Ok? && decision.Approve? ==> r.value == Some(old(nextId))
      ensures r.Ok? && decision.Reject? ==> r.value == None
    {
      DecidedResolves(State(), task, decision, reason);
      if task !in tasks || !tasks[task].state.OpenTask? {
        return Err("Open review task not found");
      }
      var created: Option<Id> := None;
      if decision.Approve? {
        if !tasks[task].subject.OfDiscovery? || !decision.complete {
          return Err("Approval requires discovery and details");
        }
        if !decision.awardTypeKnown {
          return Err("Unsupported award type");
        }
        var d := tasks[task].subject.discovery;
        if d !in discoveries {
          return Err("Discovery not found");
        }
        if |decision.slug.text| > SLUG_LIMIT {
          return Err("slug too long");
        }
        if SlugTaken(State(), decision.slug) {
          return Err("duplicate slug");
        }
        scholarships := scholarships[nextId := Scholarship(decision.slug, task, decision.evidence, false)];
        discoveries := discoveries[d := discoveries[d].(canonical := Some(nextId), state := Linked)];
        created := Some(nextId);
        nextId := nextId + 1;
      }
      tasks := tasks[task := tasks[task].(state := ResolvedTask, resolution := Some(Shorten(reason, 2000)))];
      return Ok(created);
    }

    /** The scholarship is new, published, and of this task. */
    ghost predicate OwnPublished(before: map<Id, Scholarship>, s: Option<Id>, task: Id)
      reads this
    {
      s.Some? && s.value !in before && Owned(State(), s.value, task) && scholarships[s.value].published
    }

    method Load(k: Desk)
      modifies this
      ensures State() == k
    {
      discoveries, tasks, scholarships, jobs, nextId := k.discoveries, k.tasks, k.scholarships, k.jobs, k.nextId;
    }

    /** Stops an attempt, marking the discovery when the verdict is final. */
    method StopAt(stop: Stop, d: Id) returns (outcome: AutoApprovalOutcome)
      requires DeskOk(State())
      modifies this
      ensures State() == Stopped(old(State()), d, stop) && DeskOk(State()) && ResolvedStay(old(State()), State())
      ensures outcome == AutoApprovalOutcome(false, stop.reason, None)
    {
      if stop.Defer? && d in discoveries {
        discoveries := discoveries[d := discoveries[d].(evaluated := true)];
      }
      return AutoApprovalOutcome(false, stop.reason, None);
    }

    /** One automatic attempt with everybody else at work whenever it holds no lock. It approves only if
        every gate passed and the task was still undecided, and then through a scholarship of its own; an
        error means that the database refused the row for its slug. */
    method AttemptAutoApproval(task: Id, ev: Evidence, others: Others) returns (outcome: Result<AutoApprovalOutcome>)
      requires DeskOk(State()) && Cooperative(others)
      modifies this
      ensures DeskOk(State()) && ResolvedStay(old(State()), State())
      ensures outcome.Ok? && outcome.value.approved ==>
                && EveryGatePassed(ev) && ev.publishable
                && task in old(tasks) && old(tasks)[task].state.OpenTask?
                && OwnPublished(old(scholarships), outcome.value.scholarship, task)
      ensures EarlyGate(old(State()), task, ev).Some? ==>
                var stop := EarlyGate(old(State()), task, ev).value;
                && outcome == Ok(AutoApprovalOutcome(false, stop.reason, None))
                && (stop.Leave? ==> State() == old(State()))
                && tasks == old(tasks) && scholarships == old(scholarships)
      ensures Alone(others) ==> State() == Attempted(old(State()), task, ev, "auto")
      ensures Alone(others) ==> Attempts(old(State()), State(), task, ev, "auto")
    {
      AttemptMeans(State(), task, ev, "auto");
      if EarlyGate(State(), task, ev).Some? {
        var stopped := StopEarly(task, ev);
        return Ok(stopped);
      }
      outcome := FinishAttempt(task, tasks[task].subject.discovery, ev, others);
    }

    /** A stop before the page is fetched. */
    method StopEarly(task: Id, ev: Evidence) returns (outcome: AutoApprovalOutcome)
      requires DeskOk(State()) && EarlyGate(State(), task, ev).Some?
      modifies this
      ensures DeskOk(State()) && ResolvedStay(old(State()), State())
      ensures var stop := EarlyGate(old(State()), task, ev).value;
              && outcome == AutoApprovalOutcome(false, stop.reason, None)
              && (stop.Leave? ==> State() == old(State()))
      ensures tasks == old(tasks) && scholarships == old(scholarships)
      ensures State() == Attempted(old(State()), task, ev, "auto")
    {
      var d := if task in tasks && tasks[task].subject.OfDiscovery? then tasks[task].subject.discovery else 0;
      outcome := StopAt(EarlyGate(State(), task, ev).value, d);
    }

    /** Tries one slug after another until none has it. */
    method FindSlug(base: string) returns (slug: Option<Slug>)
      ensures slug == AvailableSlug(State(), base)
      ensures slug.Some? ==> !SlugTaken(State(), slug.value)
    {
      for n := 0 to |SUFFIXES|
        invariant AvailableSlug(State(), base) == FirstFree(State(), base, n)
      {
        if !SlugTaken(State(), Candidate(base, n)) {
          return Some(Candidate(base, n));
        }
      }
      return None;
    }

    /** The late gates in their order; the last one looks for a slug. */
    method PassLateGates(ev: Evidence) returns (stop: Option<Stop>, slug: Slug)
      ensures stop == LateGate(State(), ev)
      ensures stop.None? ==> Some(slug) == AvailableSlug(State(), ev.base)
    {
      slug := Slug(ev.base);
      if !ev.pageAgrees { return Some(Defer("page_disagreement")), slug; }
      if !ev.derivable { return Some(Defer("facts_not_derivable")), slug; }
      if !ev.hasDeadline { return Some(Defer("no_deadline_evidence")), slug; }
      if !ev.sane { return Some(Defer("sanity_check_failed")), slug; }
      if !ev.providerKnown { return Some(Defer("provider_not_resolved")), slug; }
      var found := FindSlug(ev.base);
      if found.None? { return Some(Defer("slug_unavailable")), slug; }
      return None, found.value;
    }

    /** What follows the fetched page, whose commit has given the locks up. */
    method FinishAttempt(task: Id, d: Id, ev: Evidence, others: Others) returns (outcome: Result<AutoApprovalOutcome>)
      requires DeskOk(State()) && Cooperative(others)
      requires LateGate(others(State(), 0), ev).None? ==> EveryGatePassed(ev)
      requires task in tasks && tasks[task].state.OpenTask?
      modifies this
      ensures DeskOk(State()) && ResolvedStay(old(State()), State())
      ensures var stop := LateGate(others(old(State()), 0), ev);
              && (outcome.Ok? && outcome.value.approved ==>
                    stop.None? && ev.publishable && OwnPublished(old(scholarships), outcome.value.scholarship, task))
              && (stop.Some? ==> outcome == Ok(AutoApprovalOutcome(false, stop.value.reason, None)))
      ensures Alone(others) ==> State() == Finished(old(State()), task, d, ev, "auto")
    {
      ghost var before := State();
      Load(others(State(), 0));
      ghost var locked := State();
      var late, slug := PassLateGates(ev);
      if late.Some? {
        var stopped := StopAt(late.value, d);
        ResolvedStayTwice(before, locked, State());
        return Ok(stopped);
      }
      outcome := DecideAndPublish(task, d, ev, slug, others);
      ResolvedStayTwice(before, locked, State());
    }

    /** The ordinary decision, then the publication, each in its own transaction. */
    method DecideAndPublish(task: Id, d: Id, ev: Evidence, slug: Slug, others: Others)
      returns (outcome: Result<AutoApprovalOutcome>)
      requires DeskOk(State()) && Cooperative(others) && EveryGatePassed(ev)
      modifies this
      ensures DeskOk(State()) && ResolvedStay(old(State()), State())
      ensures var refusal := Refusal(others(old(State()), 1), task, AutoDecision(ev, slug));
              && (outcome.Ok? && outcome.value.approved ==>
                    && refusal.None? && ev.publishable
                    && OwnPublished(old(scholarships), outcome.value.scholarship, task))
              && (outcome.Err? <==> Raised(refusal))
              && (outcome.Ok? ==> (outcome.value.reason == "approve_failed" <==> refusal.Some?))
              && (refusal.Some? ==> State() == others(old(State()), 1))
      ensures Alone(others) ==> State() == Concluded(old(State()), task, d, ev, slug, "auto")
    {
      ghost var start := State();
      Load(others(State(), 1));  // others commit between the last read and the decision
      ghost var before := State();
      DecidedKeeps(before, task, AutoDecision(ev, slug), "auto");
      var decision := DecideReview(task, AutoDecision(ev, slug), "auto");
      if decision.Err? {
        if Raised(Some(decision.error)) {
          return Err(decision.error);
        }
        return Ok(AutoApprovalOutcome(false, "approve_failed", None));
      }
      var s := decision.value.value;
      outcome := PublishOwn(s, task, d, ev, others, before);
      ResolvedStayTwice(start, before, State());
    }

    /** The publication of the scholarship that the decision on `before` has just created. */
    method PublishOwn(s: Id, task: Id, d: Id, ev: Evidence, others: Others, ghost before: Desk)
      returns (outcome: Result<AutoApprovalOutcome>)
      requires DeskOk(State()) && Cooperative(others) && ResolvedStay(before, State())
      requires s !in before.scholarships && Owned(State(), s, task)
      modifies this
      ensures DeskOk(State()) && ResolvedStay(before, State())
      ensures outcome.Ok? && (outcome.value.approved <==> ev.publishable)
      ensures outcome.value.reason == if ev.publishable then "auto_approved" else "publish_failed"
      ensures outcome.value.approved ==> OwnPublished(before.scholarships, outcome.value.scholarship, task)
      ensures Alone(others) ==>
                State() == if ev.publishable then MarkEvaluated(MarkPublished(old(State()), s), d) else old(State())
    {
      ghost var approved := State();
      Load(others(State(), 2));  // the decision is committed
      ResolvedStayTwice(before, approved, State());
      assert Owned(State(), s, task);
      if !ev.publishable {
        return Ok(AutoApprovalOutcome(false, "publish_failed", Some(s)));
      }
      ghost var ready := State();
      Publish(s, d, task);
      ResolvedStayTwice(before, ready, State());
      return Ok(AutoApprovalOutcome(true, "auto_approved", Some(s)));
    }

    method Publish(s: Id, d: Id, ghost task: Id)
      requires DeskOk(State()) && Owned(State(), s, task)
      modifies this
      ensures State() == MarkEvaluated(MarkPublished(old(State()), s), d)
      ensures DeskOk(State()) && ResolvedStay(old(State()), State())
      ensures Owned(State(), s, task) && scholarships[s].published
    {
      MarkPublishedKeeps(State(), s);
      scholarships := scholarships[s := scholarships[s].(published := true)];
      if d in discoveries {
        discoveries := discoveries[d := discoveries[d].(evaluated := true)];
      }
    }
  }
}
