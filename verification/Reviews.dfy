/** Review tasks: opening them once, deciding them, and the automatic approval that goes through the same
    decision (src/app/infra/linking.py, agent_integration.py, freshness.py, reviews.py,
    auto_approval.py). */
module Reviews {
  import opened Wrappers
  import opened Ids
  import opened Database

  /** What one automatic evaluation finds out, gate by gate; `base` is what the title's slug begins with. An
      award type is derived from the taxonomy or not at all, so it is part of `derivable`. */
  datatype Evidence = Evidence(
    tooYoung: bool, sourceKnown: bool, corroborated: bool, verified: bool,
    pageAgrees: bool, derivable: bool, hasDeadline: bool, sane: bool, providerKnown: bool,
    base: string, publishable: bool)

  datatype Scholarship = Scholarship(slug: Slug, approvedBy: Id, evidence: Option<Evidence>, published: bool)

  /** The tables; a table of jobs is a multiset of rows. Identifiers grow with creation. */
  datatype Desk = Desk(
    discoveries: Discoveries, tasks: Tasks, scholarships: map<Id, Scholarship>, jobs: multiset<JobRow>, nextId: Id)

  // ----- Opening a task -----

  predicate Live(task: ReviewTask) {
    task.state.OpenTask? && task.resolution.None?
  }

  predicate HasLive(tasks: Tasks, subject: Subject) {
    exists t :: t in tasks && tasks[t].subject == subject && Live(tasks[t])
  }

  /** Insert unless the partial unique index already holds a live task of this subject; only a
      discovery's task gets a drafting job. */
  function OpenOnce(k: Desk, subject: Subject, reason: string): Desk {
    if HasLive(k.tasks, subject) then k
    else
      k.(tasks := k.tasks[k.nextId := ReviewTask(subject, reason, OpenTask, None, None)],
         jobs := if subject.OfDiscovery? then k.jobs + multiset{JobRow(PrepareReview, k.nextId)} else k.jobs,
         nextId := k.nextId + 1)
  }

  // ----- Deciding a task -----

  datatype Decision =
    | Approve(slug: Slug, complete: bool, awardTypeKnown: bool, evidence: Option<Evidence>)
    | Reject

  predicate SlugTaken(k: Desk, slug: Slug) {
    exists s :: s in k.scholarships && k.scholarships[s].slug == slug
  }

  const SLUG_LIMIT := 255   // the width of the column

  function Shorten(s: string, n: nat): string {
    if |s| <= n then s else s[..n]
  }

  /** Why a decision is refused, if it is. */
  function Refusal(k: Desk, task: Id, decision: Decision): Option<string> {
    if task !in k.tasks || !k.tasks[task].state.OpenTask? then Some("Open review task not found")
    else if decision.Reject? then None
    else
      var subject := k.tasks[task].subject;
      if !subject.OfDiscovery? || !decision.complete then Some("Approval requires discovery and details")
      else if !decision.awardTypeKnown then Some("Unsupported award type")
      else if subject.discovery !in k.discoveries then Some("Discovery not found")
      else if |decision.slug.text| > SLUG_LIMIT then Some("slug too long")
      else if SlugTaken(k, decision.slug) then Some("duplicate slug")
      else None
  }

  function Decided(k: Desk, task: Id, decision: Decision, reason: string): Desk {
    if Refusal(k, task, decision).Some? then k
    else
      var resolved := k.tasks[task].(state := ResolvedTask, resolution := Some(Shorten(reason, 2000)));
      if decision.Reject? then k.(tasks := k.tasks[task := resolved])
      else
        var d := k.tasks[task].subject.discovery;
        k.(tasks := k.tasks[task := resolved],
           discoveries := k.discoveries[d := k.discoveries[d].(canonical := Some(k.nextId), state := Linked)],
           scholarships := k.scholarships[k.nextId := Scholarship(decision.slug, task, decision.evidence, false)],
           nextId := k.nextId + 1)
  }

  /** The drafting job writes its draft whatever has become of the task. */
  function DraftWritten(k: Desk, task: Id, draft: Draft): Desk
    requires task in k.tasks
  {
    k.(tasks := k.tasks[task := k.tasks[task].(draft := Some(draft))])
  }

  function MarkEvaluated(k: Desk, d: Id): Desk {
    if d in k.discoveries then k.(discoveries := k.discoveries[d := k.discoveries[d].(evaluated := true)]) else k
  }

  function MarkPublished(k: Desk, s: Id): Desk {
    if s in k.scholarships then k.(scholarships := k.scholarships[s := k.scholarships[s].(published := true)]) else k
  }

  // ----- The automatic approval -----

  /** The gates before the page is fetched. `None` lets the evaluation go on; deferring marks the
      discovery as evaluated, the other refusals leave it for a later sweep. */
  datatype Stop = Leave(reason: string) | Defer(reason: string)

  function EarlyGate(k: Desk, task: Id, ev: Evidence): Option<Stop> {
    if task !in k.tasks || !k.tasks[task].state.OpenTask? || !k.tasks[task].subject.OfDiscovery? then
      Some(Leave("task_not_eligible"))
    else
      var d := k.tasks[task].subject.discovery;
      if d !in k.discoveries || k.discoveries[d].evaluated then Some(Leave("not_eligible"))
      else if k.tasks[task].draft.None? then Some(Leave("draft_not_ready"))
      else if k.tasks[task].draft.value.reject then Some(Defer("draft_rejected"))
      else if ev.tooYoung then Some(Leave("too_young"))
      else if !ev.sourceKnown then Some(Defer("source_missing"))
      else if !ev.corroborated then Some(Defer("insufficient_corroboration"))
      else if !ev.verified then Some(Defer("verification_failed"))
      else None
  }

  const SUFFIXES: seq<string> := ["", "-2", "-3", "-4", "-5"]

  function Candidate(base: string, n: nat): Slug
    requires n < |SUFFIXES|
  {
    Slug(base + SUFFIXES[n])
  }

  /** The first of the slugs from the n-th on that no scholarship has. */
  function FirstFree(k: Desk, base: string, n: nat): (slug: Option<Slug>)
    ensures slug.Some? ==> !SlugTaken(k, slug.value)
    ensures slug.Some? ==> |base| <= |slug.value.text| <= |base| + 2
    decreases |SUFFIXES| - n
  {
    if n >= |SUFFIXES| then None
    else if SlugTaken(k, Candidate(base, n)) then FirstFree(k, base, n + 1)
    else Some(Candidate(base, n))
  }

  function AvailableSlug(k: Desk, base: string): Option<Slug> {
    FirstFree(k, base, 0)
  }

  /** The gates after the page is fetched but for the slug, and then the slug. */
  function LateGate(k: Desk, ev: Evidence): Option<Stop> {
    if !ev.pageAgrees then Some(Defer("page_disagreement"))
    else if !ev.derivable then Some(Defer("facts_not_derivable"))
    else if !ev.hasDeadline then Some(Defer("no_deadline_evidence"))
    else if !ev.sane then Some(Defer("sanity_check_failed"))
    else if !ev.providerKnown then Some(Defer("provider_not_resolved"))
    else if AvailableSlug(k, ev.base).None? then Some(Defer("slug_unavailable"))
    else None
  }

  /** Every check the verification standard asks for. */
  predicate EveryGatePassed(ev: Evidence) {
    !ev.tooYoung && ev.sourceKnown && ev.corroborated && ev.verified && ev.pageAgrees && ev.derivable
    && ev.hasDeadline && ev.sane && ev.providerKnown
  }

  function AutoDecision(ev: Evidence, slug: Slug): Decision {
    Approve(slug, true, true, Some(ev))
  }

  function Stopped(k: Desk, d: Id, stop: Stop): Desk {
    if stop.Defer? then MarkEvaluated(k, d) else k
  }

  // ----- What the transactions mean -----

  /** Nothing of a desk but the tasks, the jobs and the next id. */
  ghost predicate OnlyTasks(before: Desk, after: Desk) {
    after.discoveries == before.discoveries && after.scholarships == before.scholarships
  }

  /** Opening once: if the subject has a task that is open and without a resolution, nothing happens;
      otherwise it gets one, with the reason, and, if it is a discovery, the job that drafts it. */
  ghost predicate Opens(before: Desk, after: Desk, subject: Subject, reason: string) {
    if exists t :: t in before.tasks && before.tasks[t].subject == subject
                   && before.tasks[t].state == OpenTask && before.tasks[t].resolution == None
    then after == before
    else
      && OnlyTasks(before, after) && after.nextId == before.nextId + 1
      && after.tasks == before.tasks[before.nextId := ReviewTask(subject, reason, OpenTask, None, None)]
      && after.jobs == before.jobs + (match subject
                                      case OfDiscovery(_) => multiset{JobRow(PrepareReview, before.nextId)}
                                      case OfCycle(_) => multiset{})
  }

  lemma OpenOnceOpens(k: Desk, subject: Subject, reason: string)
    ensures Opens(k, OpenOnce(k, subject, reason), subject, reason)
  {
  }

  /** A decision is accepted exactly for an open task, and an approval only with every detail, a known award
      type, an existing discovery and a slug that is free and fits. */
  ghost predicate Acceptable(k: Desk, task: Id, decision: Decision) {
    && task in k.tasks && k.tasks[task].state == OpenTask
    && match decision
       case Reject => true
       case Approve(slug, complete, awardTypeKnown, _) =>
         && complete && awardTypeKnown
         && k.tasks[task].subject.OfDiscovery? && k.tasks[task].subject.discovery in k.discoveries
         && |slug.text| <= 255 && forall s :: s in k.scholarships ==> k.scholarships[s].slug != slug
  }

  /** An accepted decision resolves the task with the first 2000 characters of its reason; an approval also
      creates an unpublished scholarship and links the discovery to it; nothing else changes. */
  ghost predicate Resolves(before: Desk, after: Desk, task: Id, decision: Decision, reason: string) {
    && task in before.tasks && after.jobs == before.jobs
    && after.tasks == before.tasks[task := before.tasks[task].(
                                     state := ResolvedTask,
                                     resolution := Some(if |reason| <= 2000 then reason else reason[..2000]))]
    && match decision
       case Reject => OnlyTasks(before, after) && after.nextId == before.nextId
       case Approve(slug, _, _, evidence) =>
         && before.tasks[task].subject.OfDiscovery? && before.tasks[task].subject.discovery in before.discoveries
         && after.nextId == before.nextId + 1
         && after.scholarships == before.scholarships[before.nextId := Scholarship(slug, task, evidence, false)]
         && var d := before.tasks[task].subject.discovery;
            after.discoveries == before.discoveries[d := before.discoveries[d].(canonical := Some(before.nextId),
                                                                                state := Linked)]
  }

  lemma DecidedResolves(k: Desk, task: Id, decision: Decision, reason: string)
    ensures Refusal(k, task, decision).None? <==> Acceptable(k, task, decision)
    ensures var after := Decided(k, task, decision, reason);
            if Acceptable(k, task, decision) then Resolves(k, after, task, decision, reason) else after == k
  {
  }

  /** Whether the task can be evaluated at all. */
  predicate Eligible(k: Desk, task: Id) {
    task in k.tasks && k.tasks[task].state == OpenTask && k.tasks[task].subject.OfDiscovery?
  }

  predicate Unevaluated(k: Desk, task: Id) {
    && Eligible(k, task) && k.tasks[task].subject.discovery in k.discoveries
    && !k.discoveries[k.tasks[task].subject.discovery].evaluated
  }

  /** The gates before the page, in their order: what each stop means, and which of them are final. */
  lemma EarlyGateMeans(k: Desk, task: Id, ev: Evidence)
    ensures var stop := EarlyGate(k, task, ev);
            if !Eligible(k, task) then stop == Some(Leave("task_not_eligible"))
            else if !Unevaluated(k, task) then stop == Some(Leave("not_eligible"))
            else
              match k.tasks[task].draft
              case None => stop == Some(Leave("draft_not_ready"))
              case Some(draft) =>
                && (draft.reject ==> stop == Some(Defer("draft_rejected")))
                && (!draft.reject && ev.tooYoung ==> stop == Some(Leave("too_young")))
                && (!draft.reject && !ev.tooYoung ==>
                      && (stop.None? <==> ev.sourceKnown && ev.corroborated && ev.verified)
                      && (!ev.sourceKnown ==> stop == Some(Defer("source_missing")))
                      && (ev.sourceKnown && !ev.corroborated ==> stop == Some(Defer("insufficient_corroboration")))
                      && (ev.sourceKnown && ev.corroborated && !ev.verified ==>
                            stop == Some(Defer("verification_failed"))))
  {
  }

  /** The gates after it are all final, and all pass exactly if the page agrees, the facts are derived with a
      deadline and sane, the provider is known, and one of five slugs is free. */
  lemma LateGateMeans(k: Desk, ev: Evidence)
    ensures LateGate(k, ev).Some? ==> LateGate(k, ev).value.Defer?
    ensures LateGate(k, ev).None? <==>
              && ev.pageAgrees && ev.derivable && ev.hasDeadline && ev.sane && ev.providerKnown
              && exists suffix :: suffix in {"", "-2", "-3", "-4", "-5"}
                                  && forall s :: s in k.scholarships ==> k.scholarships[s].slug.text != ev.base + suffix
    ensures !ev.pageAgrees ==> LateGate(k, ev) == Some(Defer("page_disagreement"))
    ensures ev.pageAgrees && !ev.derivable ==> LateGate(k, ev) == Some(Defer("facts_not_derivable"))
    ensures ev.pageAgrees && ev.derivable && !ev.hasDeadline ==> LateGate(k, ev) == Some(Defer("no_deadline_evidence"))
    ensures ev.pageAgrees && ev.derivable && ev.hasDeadline && !ev.sane ==>
              LateGate(k, ev) == Some(Defer("sanity_check_failed"))
    ensures ev.pageAgrees && ev.derivable && ev.hasDeadline && ev.sane && !ev.providerKnown ==>
              LateGate(k, ev) == Some(Defer("provider_not_resolved"))
  {
    FreeAmongFive(k, ev.base, 0);
    assert SUFFIXES[0] == "" && SUFFIXES[1] == "-2" && SUFFIXES[2] == "-3";
    assert SUFFIXES[3] == "-4" && SUFFIXES[4] == "-5";
  }

  lemma {:induction false} FreeAmongFive(k: Desk, base: string, n: nat)
    requires n <= 5
    ensures FirstFree(k, base, n).Some? <==>
              exists m :: n <= m < 5 &&
                forall s :: s in k.scholarships ==> k.scholarships[s].slug.text != base + SUFFIXES[m]
    ensures forall m :: n <= m < 5 && FirstFree(k, base, n) == Some(Slug(base + SUFFIXES[m])) ==>
              forall s :: s in k.scholarships ==> k.scholarships[s].slug.text != base + SUFFIXES[m]
    decreases 5 - n
  {
    if n < 5 {
      FreeAmongFive(k, base, n + 1);
    }
  }

  // ----- The rules of the desk -----

  /** At most one live task per subject. */
  ghost predicate OneLive(tasks: Tasks) {
    forall t, u :: t in tasks && u in tasks && Live(tasks[t]) && Live(tasks[u]) ==>
      tasks[t].subject == tasks[u].subject ==> t == u
  }

  /** A task is resolved exactly when it has a resolution. */
  ghost predicate TasksOk(k: Desk) {
    forall t :: t in k.tasks ==>
      && t < k.nextId
      && (k.tasks[t].state.ResolvedTask? <==> k.tasks[t].resolution.Some?)
      && k.jobs[JobRow(PrepareReview, t)] == if k.tasks[t].subject.OfDiscovery? then 1 else 0
  }

  ghost predicate NoStrayJobs(k: Desk) {
    forall t :: t !in k.tasks ==> k.jobs[JobRow(PrepareReview, t)] == 0
  }

  /** Every scholarship comes from a resolved task, and an automatic one passed every gate. */
  ghost predicate ScholarshipsOk(k: Desk) {
    forall s :: s in k.scholarships ==>
      && s < k.nextId
      && k.scholarships[s].approvedBy in k.tasks
      && k.tasks[k.scholarships[s].approvedBy].state.ResolvedTask?
      && (k.scholarships[s].evidence.Some? ==> EveryGatePassed(k.scholarships[s].evidence.value))
  }

  ghost predicate OnePerTask(k: Desk) {
    forall s, u :: s in k.scholarships && u in k.scholarships ==>
      k.scholarships[s].approvedBy == k.scholarships[u].approvedBy ==> s == u
  }

  ghost predicate DeskOk(k: Desk) {
    OneLive(k.tasks) && TasksOk(k) && NoStrayJobs(k) && ScholarshipsOk(k) && OnePerTask(k)
  }

  /** A resolved task keeps its subject, state and resolution for ever, and no scholarship disappears. */
  ghost predicate ResolvedStay(before: Desk, after: Desk) {
    && (forall s :: s in before.scholarships ==>
          s in after.scholarships && after.scholarships[s].approvedBy == before.scholarships[s].approvedBy)
    && forall t :: t in before.tasks ==>
         && t in after.tasks && after.tasks[t].subject == before.tasks[t].subject
         && (before.tasks[t].state.ResolvedTask? ==>
               after.tasks[t].state.ResolvedTask? && after.tasks[t].resolution == before.tasks[t].resolution)
  }

  lemma ResolvedStayTwice(a: Desk, b: Desk, c: Desk)
    requires ResolvedStay(a, b) && ResolvedStay(b, c)
    ensures ResolvedStay(a, c)
  {
  }

  predicate Owned(k: Desk, s: Id, task: Id) {
    s in k.scholarships && k.scholarships[s].approvedBy == task
  }

  lemma OpenOnceKeeps(k: Desk, subject: Subject, reason: string)
    requires DeskOk(k)
    ensures var after := OpenOnce(k, subject, reason);
            DeskOk(after) && ResolvedStay(k, after) && HasLive(after.tasks, subject)
  {
    var after := OpenOnce(k, subject, reason);
    if !HasLive(k.tasks, subject) {
      assert Live(after.tasks[k.nextId]) && after.tasks[k.nextId].subject == subject;
      assert forall t :: t in k.tasks ==> t != k.nextId;
      assert OneLive(after.tasks);
    }
  }

  lemma DecidedTasks(k: Desk, task: Id, decision: Decision, reason: string)
    requires OneLive(k.tasks) && TasksOk(k) && NoStrayJobs(k)
    ensures var after := Decided(k, task, decision, reason);
            OneLive(after.tasks) && TasksOk(after) && NoStrayJobs(after)
  {
  }

  lemma DecidedStays(k: Desk, task: Id, decision: Decision, reason: string)
    requires TasksOk(k) && ScholarshipsOk(k)
    ensures ResolvedStay(k, Decided(k, task, decision, reason))
  {
  }

  lemma DecidedScholarships(k: Desk, task: Id, decision: Decision, reason: string)
    requires ScholarshipsOk(k) && OnePerTask(k)
    requires decision.Approve? && decision.evidence.Some? ==> EveryGatePassed(decision.evidence.value)
    ensures ScholarshipsOk(Decided(k, task, decision, reason)) && OnePerTask(Decided(k, task, decision, reason))
  {
    if Refusal(k, task, decision).None? {
      assert forall s :: s in k.scholarships ==> k.scholarships[s].approvedBy != task;
    }
  }

  lemma DecidedKeeps(k: Desk, task: Id, decision: Decision, reason: string)
    requires DeskOk(k)
    requires decision.Approve? && decision.evidence.Some? ==> EveryGatePassed(decision.evidence.value)
    ensures DeskOk(Decided(k, task, decision, reason)) && ResolvedStay(k, Decided(k, task, decision, reason))
  {
    DecidedTasks(k, task, decision, reason);
    DecidedStays(k, task, decision, reason);
    DecidedScholarships(k, task, decision, reason);
  }

  lemma DraftKeeps(k: Desk, task: Id, draft: Draft)
    requires DeskOk(k) && task in k.tasks
    ensures DeskOk(DraftWritten(k, task, draft)) && ResolvedStay(k, DraftWritten(k, task, draft))
  {
    assert OneLive(DraftWritten(k, task, draft).tasks);
  }

  lemma MarkKeeps(k: Desk, d: Id)
    requires DeskOk(k)
    ensures DeskOk(MarkEvaluated(k, d)) && ResolvedStay(k, MarkEvaluated(k, d))
  {
  }

  lemma MarkPublishedKeeps(k: Desk, s: Id)
    requires DeskOk(k)
    ensures DeskOk(MarkPublished(k, s)) && ResolvedStay(k, MarkPublished(k, s))
  {
  }

  // ----- Every interleaving -----

  /** Where an automatic attempt stands: after the transaction that fetched the page, which gave the locks
      up, after it has read which slug is free, and after the decision. */
  datatype Attempt =
    | Verified(task: Id, discovery: Id, evidence: Evidence)
    | Gated(task: Id, discovery: Id, evidence: Evidence, slug: Slug)
    | Approved(discovery: Id, evidence: Evidence, scholarship: Id)

  datatype System = System(desk: Desk, attempts: map<nat, Attempt>)

  datatype Event =
    | Discover(row: Discovery)
    | Link(discovery: Id, reason: string)
    | AgentRequest(discovery: Id, reason: string)
    | FlagCycle(cycle: Id, reason: string)
    | Prepare(task: Id, draft: Draft)
    | HumanDecision(task: Id, decision: Decision, reason: string)
    | AutoBegin(attempt: nat, task: Id, evidence: Evidence)
    | AutoGate(attempt: nat)
    | AutoDecide(attempt: nat, reason: string)
    | AutoPublish(attempt: nat)

  ghost predicate Enabled(y: System, e: Event) {
    match e
    case Prepare(t, _) => t in y.desk.tasks
    case HumanDecision(_, decision, _) => decision.Approve? ==> decision.evidence.None?
    case AutoBegin(a, _, _) => a !in y.attempts
    case AutoGate(a) => a in y.attempts && y.attempts[a].Verified?
    case AutoDecide(a, _) => a in y.attempts && y.attempts[a].Gated?
    case AutoPublish(a) => a in y.attempts && y.attempts[a].Approved?
    case _ => true
  }

  function Discovered(k: Desk, row: Discovery): Desk {
    k.(discoveries := k.discoveries[k.nextId := row], nextId := k.nextId + 1)
  }

  /** The first transaction: the gates up to the fetched page, whose commit lets the locks go. */
  function Begun(y: System, a: nat, task: Id, ev: Evidence): System {
    match EarlyGate(y.desk, task, ev)
    case Some(stop) =>
      if stop.Defer? then y.(desk := Stopped(y.desk, y.desk.tasks[task].subject.discovery, stop)) else y
    case None => y.(attempts := y.attempts[a := Verified(task, y.desk.tasks[task].subject.discovery, ev)])
  }

  /** The remaining gates, the last of which looks for a free slug. */
  function AutoGated(y: System, a: nat): System
    requires a in y.attempts && y.attempts[a].Verified?
  {
    var v := y.attempts[a];
    match LateGate(y.desk, v.evidence)
    case Some(stop) => System(Stopped(y.desk, v.discovery, stop), y.attempts - {a})
    case None =>
      y.(attempts := y.attempts[a := Gated(v.task, v.discovery, v.evidence,
                                           AvailableSlug(y.desk, v.evidence.base).value)])
  }

  /** The ordinary decision, which looks at the task again and may find the slug taken by now. */
  function AutoDecided(y: System, a: nat, reason: string): System
    requires a in y.attempts && y.attempts[a].Gated?
  {
    var v := y.attempts[a];
    var decision := AutoDecision(v.evidence, v.slug);
    if Refusal(y.desk, v.task, decision).Some? then y.(attempts := y.attempts - {a})
    else System(Decided(y.desk, v.task, decision, reason),
                y.attempts[a := Approved(v.discovery, v.evidence, y.desk.nextId)])
  }

  /** Publishing, which may still fail and then leaves an ordinary unpublished record. */
  function AutoPublished(y: System, a: nat): System
    requires a in y.attempts && y.attempts[a].Approved?
  {
    var v := y.attempts[a];
    var published := MarkEvaluated(MarkPublished(y.desk, v.scholarship), v.discovery);
    System(if v.evidence.publishable then published else y.desk, y.attempts - {a})
  }

  ghost function Next(y: System, e: Event): System
    requires Enabled(y, e)
  {
    match e
    case Discover(row) => y.(desk := Discovered(y.desk, row))
    case Link(d, reason) => y.(desk := OpenOnce(y.desk, OfDiscovery(d), reason))
    case AgentRequest(d, reason) => y.(desk := OpenOnce(y.desk, OfDiscovery(d), reason))
    case FlagCycle(c, reason) => y.(desk := OpenOnce(y.desk, OfCycle(c), Shorten(reason, 255)))
    case Prepare(t, draft) => y.(desk := DraftWritten(y.desk, t, draft))
    case HumanDecision(t, decision, reason) => y.(desk := Decided(y.desk, t, decision, reason))
    case AutoBegin(a, t, ev) => Begun(y, a, t, ev)
    case AutoGate(a) => AutoGated(y, a)
    case AutoDecide(a, reason) => AutoDecided(y, a, reason)
    case AutoPublish(a) => AutoPublished(y, a)
  }

  const START := System(Desk(map[], map[], map[], multiset{}, 0), map[])

  ghost predicate Run(ys: seq<System>, es: seq<Event>) {
    && |ys| == |es| + 1
    && ys[0] == START
    && forall i :: 0 <= i < |es| ==> Enabled(ys[i], es[i]) && ys[i + 1] == Next(ys[i], es[i])
  }

  /** An attempt past the page fetch has passed the early gates; one past the late gates has passed all. */
  ghost predicate AttemptOk(k: Desk, attempt: Attempt) {
    match attempt
    case Verified(_, _, ev) => !ev.tooYoung && ev.sourceKnown && ev.corroborated && ev.verified
    case Gated(_, _, ev, _) => EveryGatePassed(ev)
    case Approved(_, ev, s) => s in k.scholarships && EveryGatePassed(ev)
  }

  ghost predicate AttemptsOk(y: System) {
    forall a :: a in y.attempts ==> AttemptOk(y.desk, y.attempts[a])
  }

  lemma StepDesk(y: System, e: Event)
    requires DeskOk(y.desk) && AttemptsOk(y) && Enabled(y, e)
    ensures DeskOk(Next(y, e).desk) && ResolvedStay(y.desk, Next(y, e).desk)
  {
    match e {
      case Discover(row) =>
      case Link(d, reason) => OpenOnceKeeps(y.desk, OfDiscovery(d), reason);
      case AgentRequest(d, reason) => OpenOnceKeeps(y.desk, OfDiscovery(d), reason);
      case FlagCycle(c, reason) => OpenOnceKeeps(y.desk, OfCycle(c), Shorten(reason, 255));
      case Prepare(t, draft) => DraftKeeps(y.desk, t, draft);
      case HumanDecision(t, decision, reason) => DecidedKeeps(y.desk, t, decision, reason);
      case AutoBegin(a, t, ev) =>
        if EarlyGate(y.desk, t, ev).Some? && EarlyGate(y.desk, t, ev).value.Defer? {
          MarkKeeps(y.desk, y.desk.tasks[t].subject.discovery);
        }
      case AutoGate(a) =>
        if LateGate(y.desk, y.attempts[a].evidence).Some? {
          MarkKeeps(y.desk, y.attempts[a].discovery);
        }
      case AutoDecide(a, reason) => AutoDecideDesk(y, a, reason);
      case AutoPublish(a) =>
        MarkPublishedKeeps(y.desk, y.attempts[a].scholarship);
        MarkKeeps(MarkPublished(y.desk, y.attempts[a].scholarship), y.attempts[a].discovery);
    }
  }

  lemma AutoDecideDesk(y: System, a: nat, reason: string)
    requires DeskOk(y.desk) && AttemptsOk(y) && a in y.attempts && y.attempts[a].Gated?
    ensures DeskOk(AutoDecided(y, a, reason).desk) && ResolvedStay(y.desk, AutoDecided(y, a, reason).desk)
  {
    var v := y.attempts[a];
    assert AttemptOk(y.desk, v);
    DecidedKeeps(y.desk, v.task, AutoDecision(v.evidence, v.slug), reason);
  }

  lemma StepAttempts(y: System, e: Event)
    requires AttemptsOk(y) && Enabled(y, e) && ResolvedStay(y.desk, Next(y, e).desk)
    ensures AttemptsOk(Next(y, e))
  {
    var y' := Next(y, e);
    forall a | a in y'.attempts ensures AttemptOk(y'.desk, y'.attempts[a]) {
      if a in y.attempts {
        assert AttemptOk(y.desk, y.attempts[a]);
      }
    }
  }

  lemma {:induction false} RunIsOk(ys: seq<System>, es: seq<Event>, i: nat)
    requires Run(ys, es) && i < |ys|
    ensures DeskOk(ys[i].desk) && AttemptsOk(ys[i])
  {
    if i > 0 {
      RunIsOk(ys, es, i - 1);
      StepDesk(ys[i - 1], es[i - 1]);
      StepAttempts(ys[i - 1], es[i - 1]);
    }
  }

  /** In every interleaving: at most one live task per discovery and per cycle; every discovery's task has
      exactly one drafting job and a cycle's task none; every scholarship comes from its own resolved
      task, so no task creates two; and an automatic one passed every gate. */
  lemma EveryStateIsOk(ys: seq<System>, es: seq<Event>, i: nat)
    requires Run(ys, es) && i < |ys|
    ensures OneLive(ys[i].desk.tasks) && TasksOk(ys[i].desk)
    ensures ScholarshipsOk(ys[i].desk) && OnePerTask(ys[i].desk)
  {
    RunIsOk(ys, es, i);
  }

  /** A resolved task never changes state or resolution again. */
  lemma {:induction false} ResolvedForEver(ys: seq<System>, es: seq<Event>, i: nat, j: nat)
    requires Run(ys, es) && i <= j < |ys|
    ensures ResolvedStay(ys[i].desk, ys[j].desk)
  {
    if i < j {
      ResolvedForEver(ys, es, i, j - 1);
      RunIsOk(ys, es, j - 1);
      StepDesk(ys[j - 1], es[j - 1]);
    }
  }

  /** An attempt whose task was decided by somebody else while it had no lock creates nothing. */
  lemma LostRaceCreatesNothing(ys: seq<System>, es: seq<Event>, i: nat, j: nat, a: nat)
    requires Run(ys, es) && i <= j < |es| && es[j].AutoDecide? && es[j].attempt == a
    requires a in ys[j].attempts && ys[j].attempts[a].Gated?
    requires var t := ys[j].attempts[a].task; t in ys[i].desk.tasks && ys[i].desk.tasks[t].state.ResolvedTask?
    ensures ys[j + 1].desk.scholarships == ys[j].desk.scholarships && ys[j + 1].desk.tasks == ys[j].desk.tasks
  {
    ResolvedForEver(ys, es, i, j);
  }
}
