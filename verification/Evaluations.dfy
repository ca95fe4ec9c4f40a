/** How often a discovery is evaluated automatically. `auto_review_evaluated_at` is described as a single
    evaluation ever (src/app/domain/models.py:322-325); what follows says exactly when it is one. */
module Evaluations {
  import opened Wrappers
  import opened Ids
  import opened Database
  import opened Reviews

  predicate Marked(k: Desk, d: Id) {
    d in k.discoveries && k.discoveries[d].evaluated
  }

  /** All that the early gates ask of a task besides the mark of its discovery. */
  predicate Ready(k: Desk, task: Id, d: Id, ev: Evidence) {
    && task in k.tasks && k.tasks[task].state.OpenTask? && k.tasks[task].subject == OfDiscovery(d)
    && d in k.discoveries
    && k.tasks[task].draft.Some? && !k.tasks[task].draft.value.reject
    && !ev.tooYoung && ev.sourceKnown && ev.corroborated && ev.verified
  }

  // ----- Runs -----

  /** The steps that set the mark: a final verdict before or after the page is fetched, or a publication
      that succeeds. A decision that fails and a publication that fails are not among them. */
  predicate Settles(y: System, e: Event, d: Id) {
    match e
    case AutoBegin(_, t, ev) =>
      var stop := EarlyGate(y.desk, t, ev);
      stop.Some? && stop.value.Defer? && y.desk.tasks[t].subject.discovery == d
    case AutoGate(a) =>
      && a in y.attempts && y.attempts[a].Verified? && y.attempts[a].discovery == d
      && LateGate(y.desk, y.attempts[a].evidence).Some?
    case AutoPublish(a) =>
      && a in y.attempts && y.attempts[a].Approved? && y.attempts[a].discovery == d
      && y.attempts[a].evidence.publishable
    case _ => false
  }

  ghost predicate Below(k: Desk) {
    forall d :: d in k.discoveries ==> d < k.nextId
  }

  lemma StepBelow(y: System, e: Event)
    requires Below(y.desk) && Enabled(y, e)
    ensures Below(Next(y, e).desk)
  {
  }

  predicate MayMark(e: Event) {
    e.AutoBegin? || e.AutoGate? || e.AutoPublish?
  }

  lemma OthersLeaveMark(y: System, e: Event, d: Id)
    requires Below(y.desk) && Enabled(y, e) && d in y.desk.discoveries && !MayMark(e)
    ensures d in Next(y, e).desk.discoveries
    ensures Next(y, e).desk.discoveries[d].evaluated == y.desk.discoveries[d].evaluated
  {
  }

  lemma BeginMarks(y: System, e: Event, d: Id)
    requires Enabled(y, e) && d in y.desk.discoveries && e.AutoBegin?
    ensures d in Next(y, e).desk.discoveries
    ensures Next(y, e).desk.discoveries[d].evaluated == (y.desk.discoveries[d].evaluated || Settles(y, e, d))
  {
  }

  lemma GateMarks(y: System, e: Event, d: Id)
    requires Enabled(y, e) && d in y.desk.discoveries && e.AutoGate?
    ensures d in Next(y, e).desk.discoveries
    ensures Next(y, e).desk.discoveries[d].evaluated == (y.desk.discoveries[d].evaluated || Settles(y, e, d))
  {
  }

  lemma PublishMarks(y: System, e: Event, d: Id)
    requires Enabled(y, e) && d in y.desk.discoveries && e.AutoPublish?
    ensures d in Next(y, e).desk.discoveries
    ensures Next(y, e).desk.discoveries[d].evaluated == (y.desk.discoveries[d].evaluated || Settles(y, e, d))
  {
  }

  lemma StepMark(y: System, e: Event, d: Id)
    requires Below(y.desk) && Enabled(y, e) && d in y.desk.discoveries
    ensures d in Next(y, e).desk.discoveries
    ensures Marked(Next(y, e).desk, d) <==> Marked(y.desk, d) || Settles(y, e, d)
  {
    if e.AutoBegin? {
      BeginMarks(y, e, d);
    } else if e.AutoGate? {
      GateMarks(y, e, d);
    } else if e.AutoPublish? {
      PublishMarks(y, e, d);
    } else {
      OthersLeaveMark(y, e, d);
    }
  }

  lemma {:induction false} RunBelow(ys: seq<System>, es: seq<Event>, i: nat)
    requires Run(ys, es) && i < |ys|
    ensures Below(ys[i].desk)
  {
    if i > 0 {
      RunBelow(ys, es, i - 1);
      StepBelow(ys[i - 1], es[i - 1]);
    }
  }

  ghost predicate Settled(ys: seq<System>, es: seq<Event>, i: nat, j: nat, d: Id)
    requires i <= j <= |es| <= |ys|
  {
    exists k :: i <= k < j && Settles(ys[k], es[k], d)
  }

  lemma SettledOneMore(ys: seq<System>, es: seq<Event>, i: nat, j: nat, d: Id)
    requires i <= j < |es| <= |ys|
    ensures Settled(ys, es, i, j + 1, d) <==> Settled(ys, es, i, j, d) || Settles(ys[j], es[j], d)
  {
  }

  /** In every run a mark is never cleared, and it is set by exactly the steps named above. */
  lemma {:induction false} MarkIffSettled(ys: seq<System>, es: seq<Event>, i: nat, j: nat, d: Id)
    requires Run(ys, es) && i <= j < |ys| && d in ys[i].desk.discoveries
    ensures d in ys[j].desk.discoveries
    ensures Marked(ys[j].desk, d) <==> Marked(ys[i].desk, d) || Settled(ys, es, i, j, d)
  {
    if i < j {
      MarkIffSettled(ys, es, i, j - 1, d);
      RunBelow(ys, es, j - 1);
      StepMark(ys[j - 1], es[j - 1], d);
      SettledOneMore(ys, es, i, j - 1, d);
    }
  }

  lemma GateIffUnmarked(k: Desk, task: Id, d: Id, ev: Evidence)
    requires Ready(k, task, d, ev)
    ensures EarlyGate(k, task, ev).None? <==> !Marked(k, d)
  {
  }

  /** A discovery that was evaluated at step `i` is evaluated once more at step `j`, its page fetched
      again, exactly when nothing settled it in between. */
  lemma EvaluatedAgainIff(ys: seq<System>, es: seq<Event>, i: nat, j: nat, d: Id)
    requires Run(ys, es) && i < j < |es| && es[i].AutoBegin? && es[j].AutoBegin?
    requires Ready(ys[i].desk, es[i].task, d, es[i].evidence)
    requires EarlyGate(ys[i].desk, es[i].task, es[i].evidence).None?
    requires Ready(ys[j].desk, es[j].task, d, es[j].evidence)
    ensures es[j].attempt in ys[j + 1].attempts <==> forall k :: i < k < j ==> !Settles(ys[k], es[k], d)
  {
    MarkIffSettled(ys, es, i, j, d);
    assert !Settles(ys[i], es[i], d);
    GateIffUnmarked(ys[j].desk, es[j].task, d, es[j].evidence);
    assert Enabled(ys[j], es[j]) && ys[j + 1] == Next(ys[j], es[j]);
  }

  /** After a mark no attempt on the discovery, through whatever task, gets past the early gates. */
  lemma NeverAgainOnceMarked(ys: seq<System>, es: seq<Event>, i: nat, j: nat, d: Id)
    requires Run(ys, es) && i <= j < |es| && es[j].AutoBegin? && Marked(ys[i].desk, d)
    requires es[j].task in ys[j].desk.tasks && ys[j].desk.tasks[es[j].task].subject == OfDiscovery(d)
    ensures es[j].attempt !in ys[j + 1].attempts && ys[j + 1].desk == ys[j].desk
  {
    MarkIffSettled(ys, es, i, j, d);
    assert Enabled(ys[j], es[j]) && ys[j + 1] == Next(ys[j], es[j]);
  }

  // ----- One attempt with nobody else at work -----

  /** The decision and the publication, one right after the other. */
  function Concluded(k: Desk, task: Id, d: Id, ev: Evidence, slug: Slug, reason: string): Desk {
    if Refusal(k, task, AutoDecision(ev, slug)).Some? then k
    else
      var decided := Decided(k, task, AutoDecision(ev, slug), reason);
      if ev.publishable then MarkEvaluated(MarkPublished(decided, k.nextId), d) else decided
  }

  /** What follows the fetched page, with nothing in between. */
  function Finished(k: Desk, task: Id, d: Id, ev: Evidence, reason: string): Desk {
    if LateGate(k, ev).Some? then Stopped(k, d, LateGate(k, ev).value)
    else Concluded(k, task, d, ev, AvailableSlug(k, ev.base).value, reason)
  }

  /** The desk after one attempt with nothing in between its transactions. */
  function Attempted(k: Desk, task: Id, ev: Evidence, reason: string): Desk {
    match EarlyGate(k, task, ev)
    case Some(stop) => if stop.Defer? then Stopped(k, k.tasks[task].subject.discovery, stop) else k
    case None => Finished(k, task, k.tasks[task].subject.discovery, ev, reason)
  }

  predicate Taken(k: Desk, text: string) {
    exists s :: s in k.scholarships && k.scholarships[s].slug.text == text
  }

  /** The first of five texts that no scholarship has. */
  predicate FirstUntaken(k: Desk, base: string, text: string) {
    exists n :: 0 <= n < 5 && text == base + ["", "-2", "-3", "-4", "-5"][n] && !Taken(k, text)
                && forall m :: 0 <= m < n ==> Taken(k, base + ["", "-2", "-3", "-4", "-5"][m])
  }

  lemma TakenIsSlugTaken(k: Desk, text: string)
    ensures Taken(k, text) <==> SlugTaken(k, Slug(text))
  {
    if s :| s in k.scholarships && k.scholarships[s].slug.text == text {
      assert k.scholarships[s].slug == Slug(text);
    }
  }

  lemma {:induction false} FirstFreeFrom(k: Desk, base: string, n: nat)
    requires n <= 5 && forall m :: 0 <= m < n ==> Taken(k, base + SUFFIXES[m])
    ensures match FirstFree(k, base, n)
            case Some(slug) => FirstUntaken(k, base, slug.text)
            case None => forall m :: 0 <= m < 5 ==> Taken(k, base + SUFFIXES[m])
    decreases 5 - n
  {
    if n < 5 {
      TakenIsSlugTaken(k, base + SUFFIXES[n]);
      if Taken(k, base + SUFFIXES[n]) {
        FirstFreeFrom(k, base, n + 1);
      } else {
        assert base + SUFFIXES[n] == base + ["", "-2", "-3", "-4", "-5"][n];
      }
    }
  }

  /** The discovery is marked, and that is all. */
  ghost predicate Marks(before: Desk, after: Desk, d: Id) {
    && d in before.discoveries
    && after == before.(discoveries := before.discoveries[d := before.discoveries[d].(evaluated := true)])
  }

  /** A new scholarship under the slug, approved by the task with this evidence; the discovery is linked to it,
      the task resolved. Only if it could be published it is published and the discovery marked. */
  ghost predicate Approves(before: Desk, after: Desk, task: Id, d: Id, ev: Evidence, slug: string, reason: string) {
    && task in before.tasks && d in before.discoveries
    && after.scholarships ==
       before.scholarships[before.nextId := Scholarship(Slug(slug), task, Some(ev), ev.publishable)]
    && after.discoveries ==
       before.discoveries[d := before.discoveries[d].(canonical := Some(before.nextId), state := Linked,
                                                      evaluated := ev.publishable)]
    && after.tasks == before.tasks[task := before.tasks[task].(state := ResolvedTask,
                                                               resolution := Some(Shorten(reason, 2000)))]
    && after.jobs == before.jobs && after.nextId == before.nextId + 1
  }

  /** Whether everything that was found out speaks for an approval. */
  predicate Speaks(ev: Evidence) {
    && ev.sourceKnown && ev.corroborated && ev.verified && ev.pageAgrees && ev.derivable && ev.hasDeadline
    && ev.sane && ev.providerKnown
  }

  /** The whole of an undisturbed attempt. A task or discovery that is settled, a missing draft and a young
      discovery leave everything as it is, and so does a slug that the column cannot hold; a draft that rejects,
      evidence that does not speak for it and five taken slugs mark the discovery; all else is an approval. */
  ghost predicate Attempts(k: Desk, after: Desk, task: Id, ev: Evidence, reason: string) {
    if !Unevaluated(k, task) then after == k
    else
      var d := k.tasks[task].subject.discovery;
      match k.tasks[task].draft
      case None => after == k
      case Some(draft) =>
        if draft.reject then Marks(k, after, d)
        else if ev.tooYoung then after == k
        else if !Speaks(ev) || forall m :: 0 <= m < 5 ==> Taken(k, ev.base + SUFFIXES[m]) then Marks(k, after, d)
        else
          exists text :: FirstUntaken(k, ev.base, text)
                         && if |text| > 255 then after == k else Approves(k, after, task, d, ev, text, reason)
  }

  lemma ApprovalMeans(k: Desk, task: Id, d: Id, ev: Evidence, reason: string, slug: Slug)
    requires Unevaluated(k, task) && d == k.tasks[task].subject.discovery && !SlugTaken(k, slug)
    ensures var after := Concluded(k, task, d, ev, slug, reason);
            if |slug.text| > 255 then after == k else Approves(k, after, task, d, ev, slug.text, reason)
  {
  }

  lemma AttemptMeans(k: Desk, task: Id, ev: Evidence, reason: string)
    ensures Attempts(k, Attempted(k, task, ev, reason), task, ev, reason)
  {
    EarlyGateMeans(k, task, ev);
    FirstFreeFrom(k, ev.base, 0);
    var slug := AvailableSlug(k, ev.base);
    if EarlyGate(k, task, ev).None? && slug.Some? {
      ApprovalMeans(k, task, k.tasks[task].subject.discovery, ev, reason, slug.value);
    }
  }

  /** It is these steps of a run, as many as the attempt survives. */
  lemma AttemptedIsItsSteps(y: System, a: nat, task: Id, ev: Evidence, reason: string)
    requires a !in y.attempts
    ensures var begun := Next(y, AutoBegin(a, task, ev));
            if a !in begun.attempts then begun.desk == Attempted(y.desk, task, ev, reason)
            else
              begun.attempts[a].Verified?
              && var gated := Next(begun, AutoGate(a));
                 if a !in gated.attempts then gated.desk == Attempted(y.desk, task, ev, reason)
                 else
                   gated.attempts[a].Gated?
                   && var decided := Next(gated, AutoDecide(a, reason));
                      if a !in decided.attempts then decided.desk == Attempted(y.desk, task, ev, reason)
                      else
                        decided.attempts[a].Approved?
                        && Next(decided, AutoPublish(a)).desk == Attempted(y.desk, task, ev, reason)
  {
  }

  /** The title makes a slug that the column cannot hold. */
  predicate TooLong(k: Desk, ev: Evidence)
    requires LateGate(k, ev).None?
  {
    |AvailableSlug(k, ev.base).value.text| > SLUG_LIMIT
  }

  /** With nobody else at work nothing but the length of the slug can fail the decision. */
  lemma OnlyTheLengthRefuses(k: Desk, task: Id, d: Id, ev: Evidence)
    requires Ready(k, task, d, ev) && LateGate(k, ev).None?
    ensures Refusal(k, task, AutoDecision(ev, AvailableSlug(k, ev.base).value)) ==
            if TooLong(k, ev) then Some("slug too long") else None
  {
  }

  /** After one undisturbed evaluation of a discovery, another one through any task of it gets past the
      same gates exactly when the first passed all late gates and then could not store its slug or could
      not publish. */
  lemma SequentialEvaluatesAgainIff(
      k: Desk, task: Id, d: Id, ev: Evidence, reason: string, later: Id, evidence: Evidence)
    requires Ready(k, task, d, ev) && !Marked(k, d)
    requires Ready(Attempted(k, task, ev, reason), later, d, evidence)
    ensures EarlyGate(Attempted(k, task, ev, reason), later, evidence).None?
            <==> LateGate(k, ev).None? && (TooLong(k, ev) || !ev.publishable)
  {
    GateIffUnmarked(k, task, d, ev);
    GateIffUnmarked(Attempted(k, task, ev, reason), later, d, evidence);
    if LateGate(k, ev).None? {
      OnlyTheLengthRefuses(k, task, d, ev);
    }
  }

  /** Through the same task it needs the task to be open still: exactly when the slug is too long. */
  lemma SameTaskAgainIff(k: Desk, task: Id, d: Id, ev: Evidence, reason: string, evidence: Evidence)
    requires Ready(k, task, d, ev) && !Marked(k, d)
    requires !evidence.tooYoung && evidence.sourceKnown && evidence.corroborated && evidence.verified
    ensures EarlyGate(Attempted(k, task, ev, reason), task, evidence).None?
            <==> LateGate(k, ev).None? && TooLong(k, ev)
  {
    GateIffUnmarked(k, task, d, ev);
    if LateGate(k, ev).None? {
      OnlyTheLengthRefuses(k, task, d, ev);
    }
  }

  /** So a task whose title leaves room for a suffix is never evaluated twice undisturbed. */
  lemma ShortTitleOnce(k: Desk, task: Id, d: Id, ev: Evidence, reason: string, evidence: Evidence)
    requires Ready(k, task, d, ev) && !Marked(k, d) && |ev.base| + 2 <= SLUG_LIMIT
    ensures EarlyGate(Attempted(k, task, ev, reason), task, evidence).Some?
  {
    if EarlyGate(Attempted(k, task, ev, reason), task, evidence).None? {
      SameTaskAgainIff(k, task, d, ev, reason, evidence);
    }
  }

  // ----- A discovery evaluated twice -----

  /** Step `i` is an attempt on `d`, alone at work, that gets past every early gate. */
  ghost predicate EvaluatesAt(ys: seq<System>, es: seq<Event>, i: nat, d: Id) {
    && i < |es| && i + 1 < |ys| && es[i].AutoBegin? && ys[i].attempts == map[]
    && Ready(ys[i].desk, es[i].task, d, es[i].evidence) && es[i].attempt in ys[i + 1].attempts
  }

  ghost predicate EvaluatesTwice(ys: seq<System>, es: seq<Event>, d: Id) {
    Run(ys, es) && exists i: nat, j: nat :: i < j && EvaluatesAt(ys, es, i, d) && EvaluatesAt(ys, es, j, d)
  }

  const REPORT := Discovery(Page(0, Url("https://example.org")), 0, ContentHash("00"), Title("award"), Excerpt(None),
                            IdentityKey("award"), Normalized, None, None, None, None, false)

  function Asked(drafted: bool): ReviewTask {
    ReviewTask(OfDiscovery(0), "review", OpenTask, None, if drafted then Some(Draft(false)) else None)
  }

  // ----- ... because its publication failed -----

  /** Everything in order except the publication. */
  const UNPUBLISHED := Evidence(false, true, true, true, true, true, true, true, true, "award", false)

  /** One attempt after the other, with nobody else at work: the first approves and cannot publish, the
      discovery is asked about again, and the second begins. */
  const NEW_TASK: seq<Event> :=
    [Discover(REPORT), AgentRequest(0, "review"), Prepare(1, Draft(false)),
     AutoBegin(0, 1, UNPUBLISHED), AutoGate(0), AutoDecide(0, "auto"), AutoPublish(0),
     AgentRequest(0, "review"), Prepare(3, Draft(false)), AutoBegin(1, 3, UNPUBLISHED)]

  function DecidedDesk(n: nat): Desk {
    var done := ReviewTask(OfDiscovery(0), "review", ResolvedTask, Some("auto"), Some(Draft(false)));
    var jobs := multiset{JobRow(PrepareReview, 1)};
    Desk(map[0 := REPORT.(canonical := Some(2), state := Linked)],
         if n <= 7 then map[1 := done] else map[1 := done, 3 := Asked(n >= 9)],
         map[2 := Scholarship(Slug("award"), 1, Some(UNPUBLISHED), false)],
         if n <= 7 then jobs else jobs + multiset{JobRow(PrepareReview, 3)},
         if n <= 7 then 3 else 4)
  }

  function AskedDesk(n: nat): Desk {
    if n == 0 then START.desk
    else if n == 1 then Desk(map[0 := REPORT], map[], map[], multiset{}, 1)
    else Desk(map[0 := REPORT], map[1 := Asked(n >= 3)], map[], multiset{JobRow(PrepareReview, 1)}, 2)
  }

  function NewTaskAt(n: nat): System {
    System(if n <= 5 then AskedDesk(n) else DecidedDesk(n),
           if n == 4 then map[0 := Verified(1, 0, UNPUBLISHED)]
           else if n == 5 then map[0 := Gated(1, 0, UNPUBLISHED, Slug("award"))]
           else if n == 6 then map[0 := Approved(0, UNPUBLISHED, 2)]
           else if n == 10 then map[1 := Verified(3, 0, UNPUBLISHED)]
           else map[])
  }

  ghost predicate NewTaskStep(n: nat)
    requires n < |NEW_TASK|
  {
    Enabled(NewTaskAt(n), NEW_TASK[n]) && Next(NewTaskAt(n), NEW_TASK[n]) == NewTaskAt(n + 1)
  }

  lemma OpensTheTask()
    ensures NewTaskStep(0) && NewTaskStep(1) && NewTaskStep(2)
  {
  }

  lemma BeginsTheFirst()
    ensures NewTaskStep(3)
  {
  }

  lemma PassesTheGates()
    ensures NewTaskStep(4)
  {
    assert "award" + SUFFIXES[0] == "award";
    assert Candidate("award", 0) == Slug("award");
    assert AvailableSlug(NewTaskAt(4).desk, "award") == Some(Slug("award"));
  }

  lemma ApprovesIt()
    ensures NewTaskStep(5)
  {
    assert Refusal(NewTaskAt(5).desk, 1, AutoDecision(UNPUBLISHED, Slug("award"))).None?;
  }

  lemma CannotPublishIt()
    ensures NewTaskStep(6)
  {
  }

  lemma AsksAgain()
    ensures NewTaskStep(7) && NewTaskStep(8)
  {
  }

  lemma BeginsTheSecond()
    ensures NewTaskStep(9)
  {
  }

  lemma EachNewTaskStep(n: nat)
    requires n < |NEW_TASK|
    ensures NewTaskStep(n)
  {
    if n < 3 {
      OpensTheTask();
    } else if n == 3 {
      BeginsTheFirst();
    } else if n == 4 {
      PassesTheGates();
    } else if n == 5 {
      ApprovesIt();
    } else if n == 6 {
      CannotPublishIt();
    } else if n < 9 {
      AsksAgain();
    } else {
      BeginsTheSecond();
    }
  }

  lemma NewTaskIsARun(ys: seq<System>)
    requires |ys| == 11 && forall n :: 0 <= n < 11 ==> ys[n] == NewTaskAt(n)
    ensures Run(ys, NEW_TASK)
  {
    forall i | 0 <= i < |NEW_TASK| ensures Enabled(ys[i], NEW_TASK[i]) && ys[i + 1] == Next(ys[i], NEW_TASK[i]) {
      EachNewTaskStep(i);
    }
  }

  lemma BothTasksEvaluate(ys: seq<System>)
    requires |ys| == 11 && forall n :: 0 <= n < 11 ==> ys[n] == NewTaskAt(n)
    ensures EvaluatesAt(ys, NEW_TASK, 3, 0) && EvaluatesAt(ys, NEW_TASK, 9, 0)
  {
  }

  /** A run of one attempt after another in which a discovery gets past every early gate through one task,
      is approved but not published, and gets past them again through the next. */
  lemma EvaluatedTwice()
    ensures exists ys: seq<System> :: EvaluatesTwice(ys, NEW_TASK, 0)
  {
    var ys := seq(11, n requires 0 <= n => NewTaskAt(n));
    NewTaskIsARun(ys);
    BothTasksEvaluate(ys);
    assert EvaluatesTwice(ys, NEW_TASK, 0);
  }

  // ----- ... because its slug is too long -----

  function LongName(): (base: string)
    ensures |base| == 256
  {
    seq(256, _ => 'a')
  }

  function LongTitle(): Evidence {
    Evidence(false, true, true, true, true, true, true, true, true, LongName(), true)
  }

  /** The database refuses the row, the error leaves everything as it was, and the same task begins again. */
  function SameTask(): seq<Event> {
    [Discover(REPORT), AgentRequest(0, "review"), Prepare(1, Draft(false)),
     AutoBegin(0, 1, LongTitle()), AutoGate(0), AutoDecide(0, "auto"), AutoBegin(1, 1, LongTitle())]
  }

  function SameTaskAt(n: nat): System {
    System(AskedDesk(n),
           if n == 4 then map[0 := Verified(1, 0, LongTitle())]
           else if n == 5 then map[0 := Gated(1, 0, LongTitle(), Candidate(LongName(), 0))]
           else if n == 7 then map[1 := Verified(1, 0, LongTitle())]
           else map[])
  }

  ghost predicate SameTaskStep(n: nat)
    requires n < |SameTask()|
  {
    Enabled(SameTaskAt(n), SameTask()[n]) && Next(SameTaskAt(n), SameTask()[n]) == SameTaskAt(n + 1)
  }

  lemma OpensTheLongOne()
    ensures SameTaskStep(0) && SameTaskStep(1) && SameTaskStep(2)
  {
  }

  lemma BeginsTheLongOne()
    ensures SameTaskStep(3) && SameTaskStep(6)
  {
  }

  lemma GatesTheLongOne()
    ensures SameTaskStep(4)
  {
    assert AvailableSlug(SameTaskAt(4).desk, LongName()) == Some(Candidate(LongName(), 0));
  }

  lemma CannotStoreIt()
    ensures SameTaskStep(5)
  {
    assert Refusal(SameTaskAt(5).desk, 1, AutoDecision(LongTitle(), Candidate(LongName(), 0))) == Some("slug too long");
    assert SameTaskAt(5).attempts - {0} == map[];
  }

  lemma SameTaskIsARun(ys: seq<System>)
    requires |ys| == 8 && forall n :: 0 <= n < 8 ==> ys[n] == SameTaskAt(n)
    ensures Run(ys, SameTask())
  {
    OpensTheLongOne();
    BeginsTheLongOne();
    GatesTheLongOne();
    CannotStoreIt();
    forall i | 0 <= i < |SameTask()| ensures Enabled(ys[i], SameTask()[i]) && ys[i + 1] == Next(ys[i], SameTask()[i]) {
      assert i in {0, 1, 2, 3, 4, 5, 6};
      assert SameTaskStep(i);
    }
  }

  lemma BothTimesEvaluate(ys: seq<System>)
    requires |ys| == 8 && forall n :: 0 <= n < 8 ==> ys[n] == SameTaskAt(n)
    ensures EvaluatesAt(ys, SameTask(), 3, 0) && EvaluatesAt(ys, SameTask(), 6, 0)
  {
  }

  /** A run of one attempt after another in which one task gets past every early gate twice. */
  lemma SameTaskTwice()
    ensures exists ys: seq<System> :: EvaluatesTwice(ys, SameTask(), 0)
  {
    var ys := seq(8, n requires 0 <= n => SameTaskAt(n));
    SameTaskIsARun(ys);
    BothTimesEvaluate(ys);
    assert EvaluatesTwice(ys, SameTask(), 0);
  }
}
