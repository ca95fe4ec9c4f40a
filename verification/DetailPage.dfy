/** Two answers to one searcher: search asks the raw facts of every cycle about the searcher's targets; the
    detail page asks the sanitized facts of whichever cycle of the scholarship it is given, with that
    cycle's own destinations for targets (src/app/api/routes.py). */
module DetailPage {
  import opened Wrappers
  import opened Words
  import opened Taxonomy
  import opened Facts
  import opened Publication
  import opened Matching
  import Display

  /** The profile the detail page builds. */
  function OwnTargets(lib: Library, t: Taxonomy, p: Profile, f: Blob): Profile {
    p.(targets := Elements(Derive(lib, t, f).destinations))
  }

  function SearchDecision(lib: Library, t: Taxonomy, p: Profile, f: Blob): Option<Decision> {
    Match(lib, t, p, f)
  }

  function DetailDecision(lib: Library, t: Taxonomy, p: Profile, f: Blob): Option<Decision> {
    Match(lib, t, OwnTargets(lib, t, p, f), Sanitize(lib, t, f))
  }

  /** The record has a destination among the searcher's targets. */
  predicate Wanted(lib: Library, p: Profile, f: Blob) {
    !(FoldedItems(lib, Get(f, Destinations)) !! FoldAll(lib.fold, p.targets))
  }

  lemma OwnTargetsFold(lib: Library, t: Taxonomy, p: Profile, f: Blob)
    ensures FoldAll(lib.fold, OwnTargets(lib, t, p, f).targets) == FoldedItems(lib, Get(f, Destinations))
  {
    assert Derive(lib, t, f).destinations == Sorted(ShownSet(lib, Get(f, Destinations)));
  }

  /** The gates but for the destinations do not look at the targets, and neither does the decision. */
  lemma TargetsDecideOneGate(fold: Fold, p: Profile, q: Profile, v: View)
    requires q == p.(targets := q.targets)
    ensures !(v.destinations !! FoldAll(fold, p.targets)) && !(v.destinations !! FoldAll(fold, q.targets)) ==>
              (Admits(fold, p, v) <==> Admits(fold, q, v))
    ensures v.destinations !! FoldAll(fold, p.targets) ==> !Admits(fold, p, v)
    ensures Decide(fold, p, v) == Decide(fold, q, v)
  {
  }

  /** On the raw facts, search's answer is the answer for the record's own destinations wherever the
      searcher wants one of them, and no match elsewhere. */
  lemma SearchByOwnTargets(lib: Library, t: Taxonomy, p: Profile, f: Blob)
    ensures SearchDecision(lib, t, p, f) ==
            if Wanted(lib, p, f) then Match(lib, t, OwnTargets(lib, t, p, f), f) else None
  {
    var v, own := ViewOf(lib, t, f), OwnTargets(lib, t, p, f);
    OwnTargetsFold(lib, t, p, f);
    TargetsDecideOneGate(lib.fold, p, own, v);
    if Wanted(lib, p, f) {
      assert v.destinations == FoldedItems(lib, Get(f, Destinations));
      var d :| d in v.destinations && d in FoldAll(lib.fold, p.targets);
      assert d in v.destinations && d in FoldAll(lib.fold, own.targets);
    }
  }

  /** The restricted award names the searcher's origin as a string. */
  predicate OriginIsText(lib: Library, p: Profile, f: Blob) {
    OrUnknown(Get(f, OriginModeKey)) == Str("restricted") ==> lib.fold(p.origin) in StringsOnly(lib, Get(f, OriginsKey))
  }

  /** On any stored facts: whatever search finds, the detail page matches too, exactly when a restricted
      award names the origin as a string. */
  lemma FoundIsExplainedIff(lib: Library, t: Taxonomy, p: Profile, f: Blob)
    requires Lawful(lib) && WellFormed(t) && CodesAreFolded(t, lib.fold)
    requires SearchDecision(lib, t, p, f).Some?
    ensures DetailDecision(lib, t, p, f).Some? <==> OriginIsText(lib, p, f)
  {
    SearchByOwnTargets(lib, t, p, f);
    MatchSurvivesIff(lib, t, OwnTargets(lib, t, p, f), f);
  }

  /** And what the detail page matches, search finds exactly when the record has a destination among the
      searcher's targets. */
  lemma ExplainedIsFoundIff(lib: Library, t: Taxonomy, p: Profile, f: Blob)
    requires Lawful(lib) && WellFormed(t) && CodesAreFolded(t, lib.fold)
    requires DetailDecision(lib, t, p, f).Some?
    ensures SearchDecision(lib, t, p, f).Some? <==> Wanted(lib, p, f)
  {
    SearchByOwnTargets(lib, t, p, f);
    MatchSurvivesIff(lib, t, OwnTargets(lib, t, p, f), f);
  }

  /** For published facts search's whole decision is the detail page's, for those who want one of the
      record's destinations; for everybody else there is none, whatever the detail page says. */
  lemma PublishedSearchIsDetail(lib: Library, t: Taxonomy, v: Vocabulary, i: CycleInputs, p: Profile)
    requires Lawful(lib) && WellFormed(t) && CodesAreFolded(t, lib.fold)
    requires Build(lib, t, v, i).Ok? && Display.Typed(i, OriginModeKey) && Display.Typed(i, FieldModeKey)
    ensures var f := Build(lib, t, v, i).value;
            SearchDecision(lib, t, p, f) == if Wanted(lib, p, f) then DetailDecision(lib, t, p, f) else None
  {
    var f := Build(lib, t, v, i).value;
    SearchByOwnTargets(lib, t, p, f);
    PublishedDecisionsAgree(lib, t, v, i, OwnTargets(lib, t, p, f));
  }

  // ----- A scholarship with several cycles -----

  /** `LIMIT 1` without an order: the database picks any published cycle of the scholarship. */
  type Pick = seq<Blob> -> nat

  function Picked(cycles: seq<Blob>, pick: Pick): (f: Blob)
    requires cycles != []
    ensures f in cycles
  {
    if pick(cycles) < |cycles| then cycles[pick(cycles)] else cycles[0]
  }

  /** The page's answer, search's, and what search would say were all destinations of the cycle wanted. */
  function DetailAnswer(lib: Library, t: Taxonomy, p: Profile): Blob -> Option<Decision> {
    f => DetailDecision(lib, t, p, f)
  }

  function SearchAnswer(lib: Library, t: Taxonomy, p: Profile): Blob -> Option<Decision> {
    f => SearchDecision(lib, t, p, f)
  }

  function OwnAnswer(lib: Library, t: Taxonomy, p: Profile): Blob -> Option<Decision> {
    f => Match(lib, t, OwnTargets(lib, t, p, f), f)
  }

  /** What the page says about the scholarship. */
  function PageAnswer(answer: Blob -> Option<Decision>, cycles: seq<Blob>, pick: Pick): Option<Decision>
    requires cycles != []
  {
    answer(Picked(cycles, pick))
  }

  /** What holds of every pick holds of every cycle. */
  lemma EveryCycleCanBePicked(cycles: seq<Blob>, ok: Blob -> bool)
    requires cycles != []
    ensures (forall pick: Pick :: ok(Picked(cycles, pick))) <==> forall f :: f in cycles ==> ok(f)
  {
    if f :| f in cycles && !ok(f) {
      var n :| 0 <= n < |cycles| && cycles[n] == f;
      var unlucky: Pick := _ => n;
      assert !ok(Picked(cycles, unlucky));
    }
  }

  lemma OwnSurvives(lib: Library, t: Taxonomy, p: Profile, f: Blob)
    requires Lawful(lib) && WellFormed(t) && CodesAreFolded(t, lib.fold)
    ensures DetailAnswer(lib, t, p)(f).Some? <==> OwnAnswer(lib, t, p)(f).Some? && OriginIsText(lib, p, f)
  {
    MatchSurvivesIff(lib, t, OwnTargets(lib, t, p, f), f);
  }

  /** On any stored facts: the page has a match to explain, whichever cycle it is given, exactly when each
      of them admits the searcher but for the destinations and names a restricted origin as a string. */
  lemma ExplainedByAllIff(lib: Library, t: Taxonomy, p: Profile, cycles: seq<Blob>)
    requires Lawful(lib) && WellFormed(t) && CodesAreFolded(t, lib.fold) && cycles != []
    ensures (forall pick: Pick :: PageAnswer(DetailAnswer(lib, t, p), cycles, pick).Some?)
            <==> forall f :: f in cycles ==> OwnAnswer(lib, t, p)(f).Some? && OriginIsText(lib, p, f)
  {
    var detail, own := DetailAnswer(lib, t, p), OwnAnswer(lib, t, p);
    EveryCycleCanBePicked(cycles, f => detail(f).Some?);
    assert forall pick: Pick :: PageAnswer(detail, cycles, pick).Some? <==> detail(Picked(cycles, pick)).Some?;
    forall f | f in cycles ensures detail(f).Some? <==> own(f).Some? && OriginIsText(lib, p, f) {
      OwnSurvives(lib, t, p, f);
    }
  }

  /** Facts that were published from some inputs under the API's own modes and some vocabulary. */
  ghost predicate Published(lib: Library, t: Taxonomy, f: Blob) {
    exists v, i ::
      Build(lib, t, v, i) == Ok(f) && Display.Typed(i, OriginModeKey) && Display.Typed(i, FieldModeKey)
  }

  lemma OwnIsDetail(lib: Library, t: Taxonomy, f: Blob, p: Profile)
    requires Lawful(lib) && WellFormed(t) && CodesAreFolded(t, lib.fold) && Published(lib, t, f)
    ensures DetailAnswer(lib, t, p)(f) == OwnAnswer(lib, t, p)(f)
    ensures SearchAnswer(lib, t, p)(f) == if Wanted(lib, p, f) then OwnAnswer(lib, t, p)(f) else None
  {
    var v, i :|
      Build(lib, t, v, i) == Ok(f) && Display.Typed(i, OriginModeKey) && Display.Typed(i, FieldModeKey);
    SearchByOwnTargets(lib, t, p, f);
    PublishedDecisionsAgree(lib, t, v, i, OwnTargets(lib, t, p, f));
  }

  /** All cycles get the same answer. */
  ghost predicate OneAnswer(answer: Blob -> Option<Decision>, cycles: seq<Blob>) {
    forall f, g :: f in cycles && g in cycles ==> answer(f) == answer(g)
  }

  lemma PickedAlike(answer: Blob -> Option<Decision>, cycles: seq<Blob>, found: Blob)
    requires found in cycles
    ensures (forall pick: Pick :: PageAnswer(answer, cycles, pick) == answer(found)) <==> OneAnswer(answer, cycles)
  {
    EveryCycleCanBePicked(cycles, f => answer(f) == answer(found));
    assert forall pick: Pick :: PageAnswer(answer, cycles, pick) == answer(Picked(cycles, pick));
  }

  lemma SameAnswers(a: Blob -> Option<Decision>, b: Blob -> Option<Decision>, cycles: seq<Blob>)
    requires forall f :: f in cycles ==> a(f) == b(f)
    ensures OneAnswer(a, cycles) <==> OneAnswer(b, cycles)
  {
  }

  /** For published facts: whichever cycle of the scholarship the page is given, it explains the decision
      that search found on one of them, exactly when all of them would give the searcher one decision, were
      their destinations wanted. */
  lemma EveryPickExplainsIff(lib: Library, t: Taxonomy, cycles: seq<Blob>, p: Profile, found: Blob)
    requires Lawful(lib) && WellFormed(t) && CodesAreFolded(t, lib.fold)
    requires forall f :: f in cycles ==> Published(lib, t, f)
    requires found in cycles && SearchAnswer(lib, t, p)(found).Some?
    ensures (forall pick: Pick ::
               PageAnswer(DetailAnswer(lib, t, p), cycles, pick) == SearchAnswer(lib, t, p)(found))
            <==> OneAnswer(OwnAnswer(lib, t, p), cycles)
  {
    var detail, own := DetailAnswer(lib, t, p), OwnAnswer(lib, t, p);
    forall f | f in cycles ensures detail(f) == own(f) {
      OwnIsDetail(lib, t, f, p);
    }
    OwnIsDetail(lib, t, found, p);
    SameAnswers(detail, own, cycles);
    PickedAlike(detail, cycles, found);
    assert SearchAnswer(lib, t, p)(found) == detail(found);
  }
}
