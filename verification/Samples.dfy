/** Records on which the published rules do not hold: a stored deadline that an empty edit moves, stored
    evidence that it makes fresh, a record that only one of the two public answers matches, and a
    scholarship whose page may be given another cycle than the one search has found. */
module Samples {
  import opened Wrappers
  import opened Words
  import opened Taxonomy
  import opened Facts
  import opened Publication
  import opened Matching
  import opened DetailPage
  import Display
  import Edits
  import Status

  /** What Python's text functions say about the few words used here; the shipped tables qualify. */
  ghost predicate Reads(lib: Library, t: Taxonomy) {
    && Lawful(lib) && WellFormed(t) && CodesAreFolded(t, lib.fold) && "masters" in t.degrees
    && lib.upper("CA") == "CA" && lib.fold("CA") == "ca" && lib.fold("GB") == "gb" && lib.fold("US") == "us"
  }

  lemma ShippedTablesQualify()
    ensures WellFormed(TAXONOMY) && "masters" in TAXONOMY.degrees && "doctorate" in TAXONOMY.degrees
    ensures "law" in TAXONOMY.fields && "education" in TAXONOMY.fields
  {
    TaxonomyIsWellFormed();
    assert TAXONOMY.degrees == DEGREES && TAXONOMY.fields == Table(FIELDS);
    forall i, j | 0 <= i < j < |FIELDS| ensures FIELDS[i].code != FIELDS[j].code {
      FieldsAscend(i, j);
    }
    TableHolds(FIELDS, 4);
    TableHolds(FIELDS, 8);
  }

  const CANADA := Vocabulary({"CA"}, {"CA"})

  /** A master's award in Canada, without any of the optional values. */
  function Sample(recent: bool, deadline: Option<Status.DateTime>): CycleInputs {
    CycleInputs(["CA"], ["masters"], Str("unknown"), [], Str("unknown"), [], recent, deadline, Str("date"), Null, Null,
                Null, None, Some([]), Null)
  }

  lemma OneCode(code: string -> string, value: string)
    requires code(value) == value
    ensures Codes(code, [value]) == [value]
  {
    assert (set v | v in [value] :: code(v)) == Elements([value]);
    SortedAgain([value]);
  }

  lemma NoCodes(code: string -> string)
    ensures Codes(code, []) == []
  {
  }

  lemma MastersIsACode(lib: Library, t: Taxonomy)
    requires Reads(lib, t)
    ensures DegreeCode(t, lib.fold, "masters") == "masters"
  {
    assert lib.fold("masters") == "masters";
  }

  lemma Accepted(lib: Library, t: Taxonomy, recent: bool, deadline: Option<Status.DateTime>)
    requires Reads(lib, t)
    ensures Build(lib, t, CANADA, Sample(recent, deadline)) == Ok(Built(lib, t, Sample(recent, deadline)))
  {
    var i := Sample(recent, deadline);
    OneCode(lib.upper, "CA");
    NoCodes(lib.upper);
    MastersIsACode(lib, t);
    OneCode(DegreeCoder(lib, t), "masters");
    NoCodes(FieldCoder(lib, t));
    var r := Resolve(lib, t, i);
    assert r.destinations == ["CA"] && r.levels == ["masters"] && r.origins == [] && r.fields == [];
    assert r.timezoneOk && r.fundingOk;
    UnknownIsNotRestricted();
    assert Check(t, CANADA, r).None?;
  }

  lemma UnknownIsNotRestricted()
    ensures Str("unknown") != Str("restricted")
  {
    assert "unknown"[0] == 'u' && "restricted"[0] == 'r';
  }

  // ----- Blobs as they may be stored -----

  const PLACES := Arr([Str("CA")])
  const STUDIES := Arr([Str("masters")])

  /** From before precisions were stored. */
  function Undated(lib: Library, d: Status.DateTime): Blob {
    map[Destinations := PLACES, Levels := STUDIES, DeadlineAt := Str(lib.iso(d))]
  }

  /** Marked fresh by a number. */
  const NUMBERED: Blob := map[Destinations := PLACES, Levels := STUDIES, EvidenceFresh := Int(1)]

  lemma OneString(s: string)
    ensures StringList(Arr([Str(s)])) == [s]
  {
    assert [Str(s)][1..] == [];
    assert Strings([Str(s)]) == [s] + Strings([]);
  }

  lemma UndatedInputs(lib: Library, d: Status.DateTime)
    requires Lawful(lib)
    ensures Publication.Inputs(lib, Undated(lib, d)) == Ok(Sample(false, Some(d)))
  {
    OneString("CA");
    OneString("masters");
  }

  lemma NumberedInputs(lib: Library)
    ensures Publication.Inputs(lib, NUMBERED) == Ok(Sample(true, None))
  {
    OneString("CA");
    OneString("masters");
  }

  lemma NothingChanges(i: CycleInputs)
    ensures Merge(i, NO_CHANGE) == i
  {
  }

  /** Midnight without a zone. */
  const MIDNIGHT := Status.DateTime(0, None)

  lemma BeforeAndAfter(lib: Library, t: Taxonomy, g: Blob, cal: Status.Calendar)
    requires Lawful(lib)
    requires SafeDeadline(lib, Get(g, DeadlineAt)) == Some(MIDNIGHT)
    requires Get(g, DeadlineTimezone) == Null
    ensures var s := ScheduleOf(Derive(lib, t, g));
            Status.Cutoff(s, cal) ==
            Some(if PrecisionOf(Get(g, DeadlinePrecision)).Instant? then 0 else 10 * Status.HOUR - Status.SECOND)
  {
  }

  lemma EditAccepted(lib: Library, t: Taxonomy)
    requires Reads(lib, t)
    ensures Edit(lib, t, CANADA, Undated(lib, MIDNIGHT), NO_CHANGE) == Ok(Built(lib, t, Sample(false, Some(MIDNIGHT))))
  {
    UndatedInputs(lib, MIDNIGHT);
    NothingChanges(Sample(false, Some(MIDNIGHT)));
    Accepted(lib, t, false, Some(MIDNIGHT));
  }

  lemma ReadAsInstant(lib: Library, f: Blob)
    requires Lawful(lib) && f == Undated(lib, MIDNIGHT)
    ensures SafeDeadline(lib, Get(f, DeadlineAt)) == Some(MIDNIGHT) && Get(f, DeadlineTimezone) == Null
    ensures Get(f, DeadlinePrecision) == Null && GetOr(f, DeadlinePrecision, Str("date")) == Str("date")
  {
    assert lib.parse(lib.iso(MIDNIGHT)) == Some(MIDNIGHT);
  }

  lemma RewrittenAsDate(lib: Library, t: Taxonomy, g: Blob)
    requires Reads(lib, t) && g == Built(lib, t, Sample(false, Some(MIDNIGHT)))
    ensures SafeDeadline(lib, Get(g, DeadlineAt)) == Some(MIDNIGHT) && Get(g, DeadlineTimezone) == Null
    ensures Get(g, DeadlinePrecision) == Str("date")
  {
    var i := Sample(false, Some(MIDNIGHT));
    UndatedInputs(lib, MIDNIGHT);
    ReadAsInstant(lib, Undated(lib, MIDNIGHT));
    BuiltHolds(lib, t, i);
    Edits.ScheduleAfterEdit(lib, t, Undated(lib, MIDNIGHT), i, g);
  }

  /** An edit that sends nothing is accepted and moves the deadline ten hours ahead: what had been over
      since midnight is open again. */
  lemma EmptyEditMovesDeadline(lib: Library, t: Taxonomy, cal: Status.Calendar)
    requires Reads(lib, t)
    ensures var f := Undated(lib, MIDNIGHT); var edited := Edit(lib, t, CANADA, f, NO_CHANGE);
            && edited.Ok?
            && Status.Cutoff(ScheduleOf(Derive(lib, t, f)), cal) == Some(0)
            && Status.Cutoff(ScheduleOf(Derive(lib, t, edited.value)), cal)
               == Some(10 * Status.HOUR - Status.SECOND)
  {
    var f, g := Undated(lib, MIDNIGHT), Built(lib, t, Sample(false, Some(MIDNIGHT)));
    EditAccepted(lib, t);
    ReadAsInstant(lib, f);
    RewrittenAsDate(lib, t, g);
    BeforeAndAfter(lib, t, f, cal);
    BeforeAndAfter(lib, t, g, cal);
  }

  /** And one that makes evidence fresh which no reader saw as fresh. */
  lemma EmptyEditFreshens(lib: Library, t: Taxonomy)
    requires Reads(lib, t)
    ensures var edited := Edit(lib, t, CANADA, NUMBERED, NO_CHANGE);
            && edited.Ok?
            && !Derive(lib, t, NUMBERED).evidenceFresh
            && Derive(lib, t, edited.value).evidenceFresh
  {
    var i := Sample(true, None);
    NumberedInputs(lib);
    NothingChanges(i);
    Accepted(lib, t, true, None);
    BuiltHolds(lib, t, i);
    Edits.FreshnessAfterEdit(lib, t, NUMBERED, i, Built(lib, t, i));
    Edits.FreshReading(lib, t, NUMBERED);
    Edits.FreshReading(lib, t, Built(lib, t, i));
  }

  // ----- Two answers -----

  /** Somebody who looks for a master's degree in Britain. */
  const TO_BRITAIN := Profile("US", {"GB"}, {"masters"}, None)

  lemma SeenByMatcher(lib: Library, t: Taxonomy, f: Blob)
    requires Reads(lib, t) && Get(f, Destinations) == PLACES && Get(f, Levels) == STUDIES
    requires Get(f, OriginModeKey) == Str("unknown") && Get(f, FieldModeKey) == Str("unknown")
    ensures var v := ViewOf(lib, t, f);
            v.destinations == {"ca"} && v.levels == {"masters"}
            && v.originMode == Str("unknown") && v.fieldMode == Str("unknown")
  {
    OnlyCanadians(lib);
    OneString("masters");
    MastersIsACode(lib, t);
    CanonicalOfCodes(DegreeResolver(t, lib.fold), ["masters"]);
    SortedAgain(["masters"]);
  }

  lemma SampleIsStored(lib: Library, t: Taxonomy)
    requires Reads(lib, t)
    ensures var f := Built(lib, t, Sample(true, None));
            && Get(f, Destinations) == PLACES && Get(f, Levels) == STUDIES
            && Get(f, OriginModeKey) == Str("unknown") && Get(f, FieldModeKey) == Str("unknown")
  {
    var i := Sample(true, None);
    BuiltHolds(lib, t, i);
    Edits.DestinationsHeld(lib, t, i, Built(lib, t, i));
    Edits.LevelsHeld(lib, t, i, Built(lib, t, i));
    Edits.ModesHeld(lib, t, i, Built(lib, t, i));
    OneCode(lib.upper, "CA");
    MastersIsACode(lib, t);
    OneCode(DegreeCoder(lib, t), "masters");
  }

  lemma AdmittedAtHome(lib: Library, t: Taxonomy, p: Profile, v: View)
    requires Reads(lib, t)
    requires v.destinations == {"ca"} && v.levels == {"masters"}
    requires v.originMode == Str("unknown") && v.fieldMode == Str("unknown")
    requires p.levels == {"masters"} && FoldAll(lib.fold, p.targets) == {"ca"}
    ensures Admits(lib.fold, p, v)
  {
    UnknownIsNotRestricted();
    assert lib.fold("masters") == "masters";
    assert "masters" in FoldAll(lib.fold, p.levels);
  }

  /** A published award in Canada: search has nothing for them, the detail page explains a match. */
  lemma ExplainedButNotFound(lib: Library, t: Taxonomy)
    requires Reads(lib, t)
    ensures var i := Sample(true, None); var built := Build(lib, t, CANADA, i);
            && built.Ok?
            && SearchDecision(lib, t, TO_BRITAIN, built.value).None?
            && DetailDecision(lib, t, TO_BRITAIN, built.value).Some?
  {
    var i := Sample(true, None);
    Accepted(lib, t, true, None);
    var f := Built(lib, t, i);
    SampleIsStored(lib, t);
    SeenByMatcher(lib, t, f);
    BritainIsNotWanted(lib, t, f);
    SearchByOwnTargets(lib, t, TO_BRITAIN, f);
    OwnTargetsFold(lib, t, TO_BRITAIN, f);
    AdmittedAtHome(lib, t, OwnTargets(lib, t, TO_BRITAIN, f), ViewOf(lib, t, f));
    ModesAreTyped();
    PublishedDecisionsAgree(lib, t, CANADA, i, OwnTargets(lib, t, TO_BRITAIN, f));
  }

  lemma ModesAreTyped()
    ensures var i := Sample(true, None); Display.Typed(i, OriginModeKey) && Display.Typed(i, FieldModeKey)
  {
    TextsReadBack(Unknown, Status.DateOnly);
  }

  lemma BritainIsNotWanted(lib: Library, t: Taxonomy, f: Blob)
    requires Reads(lib, t) && FoldedItems(lib, Get(f, Destinations)) == {"ca"}
    ensures !Wanted(lib, TO_BRITAIN, f)
  {
    assert "ca"[0] == 'c' && "gb"[0] == 'g';
    assert FoldAll(lib.fold, {"GB"}) == {"gb"};
  }

  // ----- Two cycles of one scholarship -----

  /** Somebody from the United States who looks for a master's degree in Canada. */
  const TO_CANADA := Profile("US", {"CA"}, {"masters"}, None)

  /** The same award for Canadians only. */
  function LocalSample(): CycleInputs {
    Sample(true, None).(originMode := Str("restricted"), origins := ["CA"])
  }

  lemma LocalAccepted(lib: Library, t: Taxonomy)
    requires Reads(lib, t)
    ensures Build(lib, t, CANADA, LocalSample()) == Ok(Built(lib, t, LocalSample()))
  {
    OneCode(lib.upper, "CA");
    MastersIsACode(lib, t);
    OneCode(DegreeCoder(lib, t), "masters");
    NoCodes(FieldCoder(lib, t));
    UnknownIsNotRestricted();
    var r := Resolve(lib, t, LocalSample());
    assert r.destinations == ["CA"] && r.levels == ["masters"] && r.origins == ["CA"] && r.fields == [];
    assert r.timezoneOk && r.fundingOk;
    assert Check(t, CANADA, r).None?;
  }

  lemma LocalIsStored(lib: Library, t: Taxonomy)
    requires Reads(lib, t)
    ensures var f := Built(lib, t, LocalSample());
            Get(f, OriginModeKey) == Str("restricted") && Get(f, OriginsKey) == PLACES
  {
    var i := LocalSample();
    BuiltHolds(lib, t, i);
    Edits.OriginsHeld(lib, t, i, Built(lib, t, i));
    Edits.ModesHeld(lib, t, i, Built(lib, t, i));
    OneCode(lib.upper, "CA");
  }

  lemma OnlyCanadians(lib: Library)
    requires Lawful(lib) && lib.fold("CA") == "ca"
    ensures FoldedItems(lib, PLACES) == {"ca"}
  {
    assert lib.show(Str("CA")) == "CA";
    assert ShownSet(lib, PLACES) == {"CA"};
  }

  lemma ForeignerIsRefused(fold: Fold, p: Profile, v: View)
    requires p.origin == "US" && fold("US") == "us"
    requires v.originMode == Str("restricted") && v.origins == {"ca"}
    ensures !Admits(fold, p, v)
  {
    assert "us"[0] == 'u' && "ca"[0] == 'c';
  }

  lemma NotForForeigners(lib: Library, t: Taxonomy, p: Profile, f: Blob)
    requires Reads(lib, t) && p.origin == "US"
    requires Get(f, OriginModeKey) == Str("restricted") && Get(f, OriginsKey) == PLACES
    ensures Match(lib, t, p, f).None?
  {
    OnlyCanadians(lib);
    assert |"restricted"| == 10;
    ForeignerIsRefused(lib.fold, p, ViewOf(lib, t, f));
  }

  lemma LocalIsTyped()
    ensures Display.Typed(LocalSample(), OriginModeKey) && Display.Typed(LocalSample(), FieldModeKey)
  {
    TextsReadBack(Restricted, Status.DateOnly);
    TextsReadBack(Unknown, Status.DateOnly);
  }

  lemma FoundInCanada(lib: Library, t: Taxonomy, f: Blob)
    requires Reads(lib, t) && f == Built(lib, t, Sample(true, None))
    ensures SearchAnswer(lib, t, TO_CANADA)(f).Some?
  {
    SampleIsStored(lib, t);
    SeenByMatcher(lib, t, f);
    assert FoldAll(lib.fold, {"CA"}) == {"ca"};
    AdmittedAtHome(lib, t, TO_CANADA, ViewOf(lib, t, f));
  }

  lemma UnexplainedLocally(lib: Library, t: Taxonomy, g: Blob)
    requires Reads(lib, t) && g == Built(lib, t, LocalSample())
    ensures DetailAnswer(lib, t, TO_CANADA)(g).None?
  {
    LocalAccepted(lib, t);
    LocalIsStored(lib, t);
    LocalIsTyped();
    NotForForeigners(lib, t, OwnTargets(lib, t, TO_CANADA, g), g);
    PublishedDecisionsAgree(lib, t, CANADA, LocalSample(), OwnTargets(lib, t, TO_CANADA, g));
  }

  /** A scholarship with an open and a local cycle: search finds the open one, and a page that is given the
      local one has nothing to explain. */
  lemma PickedTheOtherCycle(lib: Library, t: Taxonomy)
    requires Reads(lib, t)
    ensures var f, g := Built(lib, t, Sample(true, None)), Built(lib, t, LocalSample());
            && Build(lib, t, CANADA, Sample(true, None)) == Ok(f) && Build(lib, t, CANADA, LocalSample()) == Ok(g)
            && SearchAnswer(lib, t, TO_CANADA)(f).Some?
            && exists pick: Pick :: PageAnswer(DetailAnswer(lib, t, TO_CANADA), [f, g], pick).None?
  {
    var f, g := Built(lib, t, Sample(true, None)), Built(lib, t, LocalSample());
    Accepted(lib, t, true, None);
    LocalAccepted(lib, t);
    FoundInCanada(lib, t, f);
    UnexplainedLocally(lib, t, g);
    SecondIsPicked(DetailAnswer(lib, t, TO_CANADA), f, g);
  }

  lemma SecondIsPicked(answer: Blob -> Option<Decision>, f: Blob, g: Blob)
    requires answer(g).None?
    ensures exists pick: Pick :: PageAnswer(answer, [f, g], pick).None?
  {
    var second: Pick := _ => 1;
    assert PageAnswer(answer, [f, g], second).None?;
  }

  // ----- Each gate refuses -----

  /** A master's award in Canadian law for Canadians. */
  const CANADIAN_LAW: Blob := map[
    Destinations := PLACES, Levels := STUDIES,
    OriginModeKey := Str("restricted"), OriginsKey := PLACES,
    FieldModeKey := Str("restricted"), FieldsKey := Arr([Str("law")])]

  /** And about the words used here. */
  ghost predicate ReadsLaw(lib: Library, t: Taxonomy) {
    Reads(lib, t) && "doctorate" in t.degrees && "law" in t.fields && "education" in t.fields
  }

  /** The one it is for. */
  const AT_HOME := Profile("CA", {"CA"}, {"masters"}, Some({"law"}))

  lemma OneListed(lib: Library, f: Blob, key: Key, s: string, w: string)
    requires Lawful(lib) && key in f && f[key] == Arr([Str(s)])
    ensures Lists(lib, f, key, w) <==> lib.fold(s) == w
  {
    assert lib.show(Str(s)) == s;
    assert Str(s) in f[key].items;
  }

  lemma OneCodeListed(
      fold: Fold, codes: set<string>, aliases: map<string, string>, f: Blob, key: Key, s: string, code: string)
    requires key in f && f[key] == Arr([Str(s)])
    requires s in codes && fold(s) == s && codes !! aliases.Keys
    ensures ListsCode(fold, codes, aliases, f, key, code) <==> code == s
  {
    assert Str(s) in f[key].items;
  }

  lemma ModesOfLaw()
    ensures ModeIs(CANADIAN_LAW, OriginModeKey, "restricted") && ModeIs(CANADIAN_LAW, FieldModeKey, "restricted")
    ensures !ModeOpen(CANADIAN_LAW, OriginModeKey) && !ModeOpen(CANADIAN_LAW, FieldModeKey)
    ensures !ModeIs(CANADIAN_LAW, FieldModeKey, "all") && !ModeIs(CANADIAN_LAW, OriginModeKey, "unrestricted")
  {
    assert |"all"| == 3 && |"unknown"| == 7 && |"restricted"| == 10 && |"unrestricted"| == 12;
  }

  lemma WordsDiffer()
    ensures "ca" != "gb" && "ca" != "us" && "masters" != "doctorate" && "law" != "education"
  {
    assert |"law"| == 3 && |"education"| == 9 && |"masters"| == 7 && |"doctorate"| == 9;
    assert "ca"[0] == 'c' && "gb"[0] == 'g' && "us"[0] == 'u';
  }

  /** Whom the award suits: each of the four gates on its own. */
  lemma LawSuits(lib: Library, t: Taxonomy, p: Profile)
    requires ReadsLaw(lib, t)
    ensures Suits(lib, t, p, CANADIAN_LAW) <==>
            && (exists target :: target in p.targets && lib.fold(target) == "ca")
            && (exists level :: level in p.levels && lib.fold(level) == "masters")
            && lib.fold(p.origin) == "ca"
            && (p.fields.Some? ==> exists field :: field in p.fields.value && lib.fold(field) == "law")
  {
    ModesOfLaw();
    forall w ensures Lists(lib, CANADIAN_LAW, Destinations, w) <==> w == "ca" {
      OneListed(lib, CANADIAN_LAW, Destinations, "CA", w);
    }
    OneListed(lib, CANADIAN_LAW, OriginsKey, "CA", lib.fold(p.origin));
    forall c ensures ListsCode(lib.fold, t.degrees, t.degreeAliases, CANADIAN_LAW, Levels, c) <==> c == "masters" {
      OneCodeListed(lib.fold, t.degrees, t.degreeAliases, CANADIAN_LAW, Levels, "masters", c);
    }
    forall c ensures ListsCode(lib.fold, t.fields.Keys, t.fieldAliases, CANADIAN_LAW, FieldsKey, c) <==> c == "law" {
      OneCodeListed(lib.fold, t.fields.Keys, t.fieldAliases, CANADIAN_LAW, FieldsKey, "law", c);
    }
  }

  lemma AnswerForLaw(lib: Library, t: Taxonomy, p: Profile)
    requires ReadsLaw(lib, t)
    ensures Match(lib, t, p, CANADIAN_LAW).Some? <==> Suits(lib, t, p, CANADIAN_LAW)
    ensures Match(lib, t, p, CANADIAN_LAW).Some? ==>
              Tells(lib, t, p, CANADIAN_LAW, Match(lib, t, p, CANADIAN_LAW).value)
  {
    MatchMeans(lib, t, p, CANADIAN_LAW);
  }

  /** The award is found by the one it is for, preference or none. */
  lemma RightfulIsAdmitted(lib: Library, t: Taxonomy)
    requires ReadsLaw(lib, t)
    ensures Match(lib, t, AT_HOME, CANADIAN_LAW).Some?
    ensures Match(lib, t, AT_HOME.(fields := None), CANADIAN_LAW).Some?
  {
    Admitted(lib, t, AT_HOME);
    Admitted(lib, t, AT_HOME.(fields := None));
  }

  /** And by nobody who differs in one point. */
  lemma OtherTargetIsRefused(lib: Library, t: Taxonomy)
    requires ReadsLaw(lib, t)
    ensures Match(lib, t, AT_HOME.(targets := {"GB"}), CANADIAN_LAW).None?
  {
    WordsDiffer();
    Refused(lib, t, AT_HOME.(targets := {"GB"}));
  }

  lemma OtherLevelIsRefused(lib: Library, t: Taxonomy)
    requires ReadsLaw(lib, t)
    ensures Match(lib, t, AT_HOME.(levels := {"doctorate"}), CANADIAN_LAW).None?
  {
    WordsDiffer();
    assert lib.fold("doctorate") == "doctorate";
    Refused(lib, t, AT_HOME.(levels := {"doctorate"}));
  }

  lemma OtherOriginIsRefused(lib: Library, t: Taxonomy)
    requires ReadsLaw(lib, t)
    ensures Match(lib, t, AT_HOME.(origin := "US"), CANADIAN_LAW).None?
  {
    WordsDiffer();
    Refused(lib, t, AT_HOME.(origin := "US"));
  }

  lemma OtherFieldIsRefused(lib: Library, t: Taxonomy)
    requires ReadsLaw(lib, t)
    ensures Match(lib, t, AT_HOME.(fields := Some({"education"})), CANADIAN_LAW).None?
  {
    WordsDiffer();
    assert lib.fold("education") == "education";
    Refused(lib, t, AT_HOME.(fields := Some({"education"})));
  }

  lemma Admitted(lib: Library, t: Taxonomy, p: Profile)
    requires ReadsLaw(lib, t) && p.origin == "CA" && "CA" in p.targets && "masters" in p.levels
    requires p.fields.Some? ==> "law" in p.fields.value
    ensures Match(lib, t, p, CANADIAN_LAW).Some?
  {
    assert lib.fold("masters") == "masters" && lib.fold("law") == "law";
    LawSuits(lib, t, p);
    AnswerForLaw(lib, t, p);
  }

  lemma Refused(lib: Library, t: Taxonomy, p: Profile)
    requires ReadsLaw(lib, t)
    requires
      || (forall target :: target in p.targets ==> lib.fold(target) != "ca")
      || (forall level :: level in p.levels ==> lib.fold(level) != "masters")
      || lib.fold(p.origin) != "ca"
      || (p.fields.Some? && forall field :: field in p.fields.value ==> lib.fold(field) != "law")
    ensures Match(lib, t, p, CANADIAN_LAW).None?
  {
    LawSuits(lib, t, p);
    AnswerForLaw(lib, t, p);
  }

  lemma TellsOfLaw(lib: Library, t: Taxonomy, d: Decision)
    requires ReadsLaw(lib, t) && Tells(lib, t, AT_HOME, CANADIAN_LAW, d)
    ensures d == Decision(Confirmed, 40, [FieldCompatible, OriginEligible], false)
  {
    ModesOfLaw();
    OneListed(lib, CANADIAN_LAW, OriginsKey, "CA", lib.fold("CA"));
    OneCodeListed(lib.fold, t.fields.Keys, t.fieldAliases, CANADIAN_LAW, FieldsKey, "law", "law");
    assert lib.fold("law") == "law" && SharesField(lib, t, AT_HOME, CANADIAN_LAW);
  }

  /** It is a sure match: both restrictions are known and met, and nothing says how recent it is. */
  lemma SureButNotFresh(lib: Library, t: Taxonomy)
    requires ReadsLaw(lib, t)
    ensures Match(lib, t, AT_HOME, CANADIAN_LAW)
            == Some(Decision(Confirmed, 40, [FieldCompatible, OriginEligible], false))
  {
    Admitted(lib, t, AT_HOME);
    AnswerForLaw(lib, t, AT_HOME);
    TellsOfLaw(lib, t, Match(lib, t, AT_HOME, CANADIAN_LAW).value);
  }
}
