/** What readers of published facts see after sanitizing (src/app/domain/facts.py,
    src/app/domain/publication.py). */
module Display {
  import opened Wrappers
  import opened Words
  import opened Taxonomy
  import opened Facts
  import opened Publication
  import Edits
  import Status

  /** The value stored under the key has the type the API schema promises; the builder itself checks none
      of these. */
  predicate Typed(i: CycleInputs, key: Key) {
    match key
    case OriginModeKey => i.originMode == OriginModeText(OriginModeOf(i.originMode))
    case FieldModeKey => i.fieldMode == FieldModeText(FieldModeOf(i.fieldMode))
    case EligibilityNote => Truthy(i.eligibilityNote) ==> i.eligibilityNote.Str?
    case ExpectedReopenMonth => i.expectedReopenMonth.Null? || SafeMonth(i.expectedReopenMonth).Some?
    case DeadlinePrecision =>
      i.deadlineAt.Some? ==> i.deadlinePrecision == PrecisionText(PrecisionOf(i.deadlinePrecision))
    case DeadlineTimezone => i.deadlineAt.Some? ==> i.deadlineTimezone.Null? || i.deadlineTimezone.Str?
    case _ => true
  }

  lemma CodesStay(t: Taxonomy, fold: Fold, codes: seq<string>)
    requires WellFormed(t) && CodesAreFolded(t, fold) && Ascending(codes)
    ensures All(codes, t.degrees) ==> Degrees(t, fold, codes) == codes
    ensures All(codes, t.fields.Keys) ==> Fields(t, fold, codes) == codes
  {
    SortedAgain(codes);
    if All(codes, t.degrees) {
      CanonicalOfCodes(DegreeResolver(t, fold), codes);
    }
    if All(codes, t.fields.Keys) {
      CanonicalOfCodes(FieldResolver(t, fold), codes);
    }
  }

  lemma DegreesShown(t: Taxonomy, fold: Fold, codes: seq<string>, stored: Json)
    requires WellFormed(t) && CodesAreFolded(t, fold) && Ascending(codes) && All(codes, t.degrees)
    requires stored == Wrap(codes)
    ensures Degrees(t, fold, StringList(stored)) == codes
  {
    StringsOfWrapped(codes);
    CodesStay(t, fold, codes);
  }

  lemma FieldsShown(t: Taxonomy, fold: Fold, codes: seq<string>, stored: Json)
    requires WellFormed(t) && CodesAreFolded(t, fold) && Ascending(codes) && All(codes, t.fields.Keys)
    requires stored == Wrap(codes)
    ensures Fields(t, fold, StringList(stored)) == codes
    ensures Labels(t, codes) == FieldLabels(t, codes)
  {
    StringsOfWrapped(codes);
    CodesStay(t, fold, codes);
    LabelsInCodeOrder(t, codes);
  }

  /** What sanitizing shows under one key, straight from the stored values it depends on. */
  function Cleaned(lib: Library, t: Taxonomy, f: Blob, key: Key): Option<Json> {
    match key
    case Destinations => Some(Wrap(Sorted(ShownSet(lib, Get(f, Destinations)))))
    case Levels => Some(Wrap(Degrees(t, lib.fold, StringList(Get(f, Levels)))))
    case OriginModeKey => Some(OriginModeText(OriginModeOf(Get(f, OriginModeKey))))
    case OriginsKey => Some(Wrap(StringList(Get(f, OriginsKey))))
    case FieldModeKey => Some(FieldModeText(FieldModeOf(Get(f, FieldModeKey))))
    case FieldsKey => Some(Wrap(Fields(t, lib.fold, StringList(Get(f, FieldsKey)))))
    case EvidenceFresh => Some(Bool(Get(f, EvidenceFresh) == Bool(true)))
    case EligibilityNote => OptionalText(Note(Get(f, EligibilityNote)))
    case ExpectedReopenMonth =>
      var month := SafeMonth(Get(f, ExpectedReopenMonth));
      if month.None? then None else Some(Int(month.value))
    case FieldNames =>
      var codes := Fields(t, lib.fold, StringList(Get(f, FieldsKey)));
      FieldsAreCodes(t, lib.fold, StringList(Get(f, FieldsKey)));
      Present(Labels(t, codes))
    case ProgrammeNames => Present(StringList(Get(f, ProgrammeNames)))
    case FundingTypeKey => OptionalText(SafeFunding(lib, t, Get(f, FundingTypeKey)))
    case DeadlineAt => OptionalDeadline(lib, SafeDeadline(lib, Get(f, DeadlineAt)))
    case DeadlinePrecision =>
      if SafeDeadline(lib, Get(f, DeadlineAt)).None? then None
      else Some(PrecisionText(PrecisionOf(Get(f, DeadlinePrecision))))
    case DeadlineTimezone =>
      if SafeDeadline(lib, Get(f, DeadlineAt)).None? then None else OptionalText(Text(Get(f, DeadlineTimezone)))
    case Other(_) => None
  }

  function OptionalDeadline(lib: Library, d: Option<Status.DateTime>): Option<Json> {
    if d.None? then None else Some(Str(lib.iso(d.value)))
  }

  lemma CleanedLists(lib: Library, t: Taxonomy, f: Blob)
    ensures var d := Derive(lib, t, f);
            && Shown(lib, d, FieldsKey) == Cleaned(lib, t, f, FieldsKey)
            && Shown(lib, d, FieldNames) == Cleaned(lib, t, f, FieldNames)
  {
  }

  lemma CleanedDeadline(lib: Library, t: Taxonomy, f: Blob)
    ensures var d := Derive(lib, t, f);
            && Shown(lib, d, DeadlineAt) == Cleaned(lib, t, f, DeadlineAt)
            && Shown(lib, d, DeadlinePrecision) == Cleaned(lib, t, f, DeadlinePrecision)
            && Shown(lib, d, DeadlineTimezone) == Cleaned(lib, t, f, DeadlineTimezone)
  {
  }

  lemma CleanedIsShown(lib: Library, t: Taxonomy, f: Blob, key: Key)
    ensures Shown(lib, Derive(lib, t, f), key) == Cleaned(lib, t, f, key)
  {
    match key {
      case FieldsKey | FieldNames => CleanedLists(lib, t, f);
      case DeadlineAt | DeadlinePrecision | DeadlineTimezone => CleanedDeadline(lib, t, f);
      case _ =>
    }
  }

  ghost predicate Stays(lib: Library, t: Taxonomy, i: CycleInputs, f: Blob, key: Key) {
    Cleaned(lib, t, f, key) == Stored(lib, t, i, key)
  }

  lemma LevelsStay(lib: Library, t: Taxonomy, i: CycleInputs, f: Blob)
    requires WellFormed(t) && CodesAreFolded(t, lib.fold) && Holds(lib, t, i, f)
    requires All(DegreeCodes(lib, t, i.levels), t.degrees)
    ensures Stays(lib, t, i, f, Levels)
  {
    Read(lib, t, i, f, Levels);
    DegreesShown(t, lib.fold, DegreeCodes(lib, t, i.levels), Get(f, Levels));
  }

  lemma FieldsStay(lib: Library, t: Taxonomy, i: CycleInputs, f: Blob)
    requires WellFormed(t) && CodesAreFolded(t, lib.fold) && Holds(lib, t, i, f)
    requires All(FieldCodes(lib, t, i.fields), t.fields.Keys)
    ensures Stays(lib, t, i, f, FieldsKey) && Stays(lib, t, i, f, FieldNames)
  {
    Read(lib, t, i, f, FieldsKey);
    FieldsShown(t, lib.fold, FieldCodes(lib, t, i.fields), Get(f, FieldsKey));
  }

  lemma DestinationsStay(lib: Library, t: Taxonomy, i: CycleInputs, f: Blob)
    requires Lawful(lib) && Holds(lib, t, i, f)
    ensures Stays(lib, t, i, f, Destinations)
  {
    Read(lib, t, i, f, Destinations);
    ShownOfWrapped(lib, CountryCodes(lib, i.destinations));
    SortedAgain(CountryCodes(lib, i.destinations));
  }

  lemma OriginsStay(lib: Library, t: Taxonomy, i: CycleInputs, f: Blob)
    requires Holds(lib, t, i, f)
    ensures Stays(lib, t, i, f, OriginsKey)
  {
    Read(lib, t, i, f, OriginsKey);
    StringsOfWrapped(CountryCodes(lib, i.origins));
  }

  lemma ProgrammesStay(lib: Library, t: Taxonomy, i: CycleInputs, f: Blob)
    requires Holds(lib, t, i, f)
    ensures Stays(lib, t, i, f, ProgrammeNames)
  {
    Read(lib, t, i, f, ProgrammeNames);
    StringsOfWrapped(ProgrammeNamesOf(lib, i));
  }

  lemma ModesStayIff(lib: Library, t: Taxonomy, i: CycleInputs, f: Blob)
    requires Holds(lib, t, i, f)
    ensures Stays(lib, t, i, f, EvidenceFresh)
    ensures Stays(lib, t, i, f, OriginModeKey) <==> Typed(i, OriginModeKey)
    ensures Stays(lib, t, i, f, FieldModeKey) <==> Typed(i, FieldModeKey)
  {
    Read(lib, t, i, f, OriginModeKey);
    Read(lib, t, i, f, FieldModeKey);
    Read(lib, t, i, f, EvidenceFresh);
  }

  lemma OptionalsStayIff(lib: Library, t: Taxonomy, i: CycleInputs, f: Blob)
    requires Holds(lib, t, i, f)
    ensures Stays(lib, t, i, f, EligibilityNote) <==> Typed(i, EligibilityNote)
    ensures Stays(lib, t, i, f, ExpectedReopenMonth) <==> Typed(i, ExpectedReopenMonth)
  {
    Read(lib, t, i, f, EligibilityNote);
    Read(lib, t, i, f, ExpectedReopenMonth);
  }

  lemma FundingStays(lib: Library, t: Taxonomy, i: CycleInputs, f: Blob)
    requires WellFormed(t) && CodesAreFolded(t, lib.fold) && Holds(lib, t, i, f)
    requires Truthy(i.fundingType) ==> SafeFunding(lib, t, i.fundingType).Some?
    ensures Stays(lib, t, i, f, FundingTypeKey)
  {
    Read(lib, t, i, f, FundingTypeKey);
    FundingRebuilt(lib, t, i, Get(f, FundingTypeKey));
  }

  lemma DeadlineRead(lib: Library, t: Taxonomy, i: CycleInputs, f: Blob)
    requires Lawful(lib) && Holds(lib, t, i, f)
    ensures SafeDeadline(lib, Get(f, DeadlineAt)) == i.deadlineAt
  {
    Read(lib, t, i, f, DeadlineAt);
  }

  lemma DeadlineStays(lib: Library, t: Taxonomy, i: CycleInputs, f: Blob)
    requires Lawful(lib) && Holds(lib, t, i, f)
    ensures Stays(lib, t, i, f, DeadlineAt)
  {
    DeadlineRead(lib, t, i, f);
  }

  lemma PrecisionStaysIff(lib: Library, t: Taxonomy, i: CycleInputs, f: Blob)
    requires Lawful(lib) && Holds(lib, t, i, f)
    ensures Stays(lib, t, i, f, DeadlinePrecision) <==> Typed(i, DeadlinePrecision)
  {
    DeadlineRead(lib, t, i, f);
    Read(lib, t, i, f, DeadlinePrecision);
  }

  lemma TimezoneStaysIff(lib: Library, t: Taxonomy, i: CycleInputs, f: Blob)
    requires Lawful(lib) && Holds(lib, t, i, f)
    ensures Stays(lib, t, i, f, DeadlineTimezone) <==> Typed(i, DeadlineTimezone)
  {
    DeadlineRead(lib, t, i, f);
    Read(lib, t, i, f, DeadlineTimezone);
  }

  /** The checks that matter to a reader. */
  predicate Checked(lib: Library, t: Taxonomy, i: CycleInputs) {
    && All(DegreeCodes(lib, t, i.levels), t.degrees) && All(FieldCodes(lib, t, i.fields), t.fields.Keys)
    && (Truthy(i.fundingType) ==> SafeFunding(lib, t, i.fundingType).Some?)
  }

  /** Under each key, sanitizing leaves what was stored exactly when its type is the promised one. */
  lemma KeyStaysIff(lib: Library, t: Taxonomy, i: CycleInputs, f: Blob, key: Key)
    requires Lawful(lib) && WellFormed(t) && CodesAreFolded(t, lib.fold)
    requires Holds(lib, t, i, f) && Checked(lib, t, i) && !key.Other?
    ensures Stays(lib, t, i, f, key) <==> Typed(i, key)
  {
    match key {
      case Destinations => DestinationsStay(lib, t, i, f);
      case OriginsKey => OriginsStay(lib, t, i, f);
      case ProgrammeNames => ProgrammesStay(lib, t, i, f);
      case Levels => LevelsStay(lib, t, i, f);
      case FieldsKey | FieldNames => FieldsStay(lib, t, i, f);
      case FundingTypeKey => FundingStays(lib, t, i, f);
      case DeadlineAt => DeadlineStays(lib, t, i, f);
      case DeadlinePrecision => PrecisionStaysIff(lib, t, i, f);
      case DeadlineTimezone => TimezoneStaysIff(lib, t, i, f);
      case OriginModeKey | FieldModeKey | EvidenceFresh => ModesStayIff(lib, t, i, f);
      case EligibilityNote | ExpectedReopenMonth => OptionalsStayIff(lib, t, i, f);
      case Other(_) =>
    }
  }

  ghost predicate Agree(f: Blob, g: Blob, key: Key) {
    (key in f <==> key in g) && (key in f && key in g ==> f[key] == g[key])
  }

  lemma SameBlob(f: Blob, g: Blob)
    requires f.Keys <= KEYS && g.Keys <= KEYS && forall key: Key :: !key.Other? ==> Agree(f, g, key)
    ensures f == g
  {
    forall key: Key ensures key in f <==> key in g {
      assert Agree(f, g, key);
    }
    forall key | key in f ensures f[key] == g[key] {
      assert Agree(f, g, key);
    }
  }

  lemma SameBlobIff(f: Blob, g: Blob, i: CycleInputs)
    requires f.Keys <= KEYS && g.Keys <= KEYS
    requires forall key: Key :: !key.Other? ==> (Agree(g, f, key) <==> Typed(i, key))
    ensures g == f <==> forall key: Key :: Typed(i, key)
  {
    if forall key: Key :: Typed(i, key) {
      SameBlob(g, f);
    }
  }

  lemma KeyAgrees(lib: Library, t: Taxonomy, i: CycleInputs, f: Blob, d: DerivedFacts, g: Blob, key: Key)
    requires Holds(lib, t, i, f) && Filled(lib, d, g, 5) && !key.Other?
    ensures Shown(lib, d, key) == Stored(lib, t, i, key) <==> Agree(g, f, key)
  {
    assert Step(key) < 5;
  }

  lemma DictHolds(lib: Library, d: DerivedFacts)
    ensures Filled(lib, d, SanitizedDict(lib, d), 5) && SanitizedDict(lib, d).Keys <= KEYS
  {
  }

  lemma EveryKeyAgreesIff(lib: Library, t: Taxonomy, i: CycleInputs, f: Blob, key: Key)
    requires Lawful(lib) && WellFormed(t) && CodesAreFolded(t, lib.fold)
    requires Holds(lib, t, i, f) && Checked(lib, t, i) && !key.Other?
    ensures Agree(Sanitize(lib, t, f), f, key) <==> Typed(i, key)
  {
    var d := Derive(lib, t, f);
    DictHolds(lib, d);
    KeyAgrees(lib, t, i, f, d, SanitizedDict(lib, d), key);
    CleanedIsShown(lib, t, f, key);
    KeyStaysIff(lib, t, i, f, key);
  }

  lemma BuiltAgreesIff(lib: Library, t: Taxonomy, v: Vocabulary, i: CycleInputs)
    requires Lawful(lib) && WellFormed(t) && CodesAreFolded(t, lib.fold) && Check(t, v, Resolve(lib, t, i)).None?
    ensures forall key: Key :: !key.Other? ==>
              (Agree(Sanitize(lib, t, Built(lib, t, i)), Built(lib, t, i), key) <==> Typed(i, key))
  {
    BuiltHolds(lib, t, i);
    Passed(t, v, Resolve(lib, t, i));
    forall key: Key | !key.Other?
      ensures Agree(Sanitize(lib, t, Built(lib, t, i)), Built(lib, t, i), key) <==> Typed(i, key)
    {
      EveryKeyAgreesIff(lib, t, i, Built(lib, t, i), key);
    }
  }

  /** Readers see published facts exactly as stored if and only if every value has its promised type. */
  lemma SanitizingKeepsBuiltIff(lib: Library, t: Taxonomy, v: Vocabulary, i: CycleInputs)
    requires Lawful(lib) && WellFormed(t) && CodesAreFolded(t, lib.fold) && Refusal(lib, t, v, i).None?
    ensures Sanitize(lib, t, Built(lib, t, i)) == Built(lib, t, i) <==> forall key: Key :: Typed(i, key)
  {
    var f := Built(lib, t, i);
    BuiltAgreesIff(lib, t, v, i);
    DictHolds(lib, Derive(lib, t, f));
    BuiltKeys(lib, t, i);
    SameBlobIff(f, Sanitize(lib, t, f), i);
  }
}
