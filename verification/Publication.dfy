/** Validating a cycle's facts, reading them back and editing them (src/app/domain/publication.py and the
    merge in src/app/api/routes.py). */
module Publication {
  import opened Wrappers
  import opened Words
  import opened Taxonomy
  import opened Facts
  import Status

  /** Known countries, and those with verified coverage. */
  datatype Vocabulary = Vocabulary(names: set<string>, destinations: set<string>)

  ghost predicate CountriesAreUpper(v: Vocabulary, lib: Library) {
    forall c :: c in v.names ==> lib.upper(c) == c
  }

  /** The builder's arguments. Those it stores without looking at them may hold any value. */
  datatype CycleInputs = CycleInputs(
    destinations: seq<string>,
    levels: seq<string>,
    originMode: Json,
    origins: seq<string>,
    fieldMode: Json,
    fields: seq<string>,
    evidenceFresh: bool,
    deadlineAt: Option<Status.DateTime>,
    deadlinePrecision: Json,
    deadlineTimezone: Json,
    eligibilityNote: Json,
    expectedReopenMonth: Json,
    fieldNames: Option<seq<string>>,
    programmeNames: Option<seq<string>>,
    fundingType: Json)

  predicate Truthy(j: Json) {
    match j
    case Null => false
    case Bool(b) => b
    case Int(n) => n != 0
    case Float(x) => x != 0.0
    case Str(s) => s != ""
    case Arr(items) => items != []
    case Obj(members) => members != map[]
  }

  // ----- Building -----

  function Codes(code: string -> string, values: seq<string>): seq<string> {
    Sorted(set v | v in values :: code(v))
  }

  function DegreeCoder(lib: Library, t: Taxonomy): string -> string {
    v => DegreeCode(t, lib.fold, v)
  }

  function FieldCoder(lib: Library, t: Taxonomy): string -> string {
    v => FieldCode(t, lib.fold, v)
  }

  function DegreeCodes(lib: Library, t: Taxonomy, values: seq<string>): seq<string> {
    Codes(DegreeCoder(lib, t), values)
  }

  function FieldCodes(lib: Library, t: Taxonomy, values: seq<string>): seq<string> {
    Codes(FieldCoder(lib, t), values)
  }

  function CountryCodes(lib: Library, values: seq<string>): seq<string> {
    Codes(lib.upper, values)
  }

  predicate All(codes: seq<string>, known: set<string>) {
    forall c :: c in codes ==> c in known
  }

  /** The inputs as the checks see them. */
  datatype Resolved = Resolved(
    destinations: seq<string>, levels: seq<string>, originMode: Json, origins: seq<string>,
    fieldMode: Json, fields: seq<string>, timezoneOk: bool, fundingOk: bool)

  function Resolve(lib: Library, t: Taxonomy, i: CycleInputs): Resolved {
    Resolved(
      CountryCodes(lib, i.destinations), DegreeCodes(lib, t, i.levels), i.originMode, CountryCodes(lib, i.origins),
      i.fieldMode, FieldCodes(lib, t, i.fields), TimezoneOk(lib, i.deadlineTimezone),
      Truthy(i.fundingType) ==> SafeFunding(lib, t, i.fundingType).Some?)
  }

  /** The first check that fails. The last two stand for uncaught exceptions as well. */
  function Check(t: Taxonomy, v: Vocabulary, r: Resolved): Option<string> {
    if !All(r.destinations, v.names) then Some("Unsupported country")
    else if !All(r.destinations, v.destinations) then Some("No verified coverage for destination")
    else if r.destinations == [] then Some("At least one destination is required")
    else if !All(r.levels, t.degrees) then Some("Unsupported degree level")
    else if r.levels == [] then Some("At least one degree level is required")
    else if !All(r.origins, v.names) then Some("Unsupported country")
    else if r.originMode == Str("restricted") && r.origins == [] then
      Some("origin_mode 'restricted' requires at least one origin")
    else if !All(r.fields, t.fields.Keys) then Some("Unsupported field")
    else if r.fieldMode == Str("restricted") && r.fields == [] then
      Some("field_mode 'restricted' requires at least one field")
    else if !r.timezoneOk then Some("Unknown deadline_timezone")
    else if !r.fundingOk then Some("Unsupported funding type")
    else None
  }

  function Refusal(lib: Library, t: Taxonomy, v: Vocabulary, i: CycleInputs): Option<string> {
    Check(t, v, Resolve(lib, t, i))
  }

  predicate TimezoneOk(lib: Library, j: Json) {
    j.Null? || (j.Str? && lib.zoneKnown(j.text))
  }

  function ProgrammeNamesOf(lib: Library, i: CycleInputs): seq<string> {
    var source := if i.programmeNames.Some? then i.programmeNames.value
                  else if i.fieldNames.Some? then i.fieldNames.value else [];
    Sorted(set n | n in source && lib.strip(n) != "" :: lib.strip(n))
  }

  function NonNull(j: Json): Option<Json> {
    if j.Null? then None else Some(j)
  }

  function FieldLabel(t: Taxonomy, code: string): string {
    if code in t.fields then t.fields[code] else code
  }

  function FieldLabels(t: Taxonomy, codes: seq<string>): seq<string> {
    seq(|codes|, k requires 0 <= k < |codes| => FieldLabel(t, codes[k]))
  }

  /** What the built facts hold under a key. */
  function Stored(lib: Library, t: Taxonomy, i: CycleInputs, key: Key): Option<Json> {
    match key
    case Destinations => Some(Wrap(CountryCodes(lib, i.destinations)))
    case Levels => Some(Wrap(DegreeCodes(lib, t, i.levels)))
    case OriginModeKey => Some(i.originMode)
    case OriginsKey => Some(Wrap(CountryCodes(lib, i.origins)))
    case FieldModeKey => Some(i.fieldMode)
    case FieldsKey => Some(Wrap(FieldCodes(lib, t, i.fields)))
    case EvidenceFresh => Some(Bool(i.evidenceFresh))
    case EligibilityNote => if Truthy(i.eligibilityNote) then Some(i.eligibilityNote) else None
    case ExpectedReopenMonth => NonNull(i.expectedReopenMonth)
    case FieldNames => Present(FieldLabels(t, FieldCodes(lib, t, i.fields)))
    case ProgrammeNames => Present(ProgrammeNamesOf(lib, i))
    case FundingTypeKey => if Truthy(i.fundingType) then OptionalText(SafeFunding(lib, t, i.fundingType)) else None
    case DeadlineAt => if i.deadlineAt.None? then None else Some(Str(lib.iso(i.deadlineAt.value)))
    case DeadlinePrecision => if i.deadlineAt.None? then None else Some(i.deadlinePrecision)
    case DeadlineTimezone => if i.deadlineAt.None? then None else NonNull(i.deadlineTimezone)
    case Other(_) => None
  }

  function Built(lib: Library, t: Taxonomy, i: CycleInputs): Blob {
    map key | key in KEYS && Stored(lib, t, i, key).Some? :: Stored(lib, t, i, key).value
  }

  function Build(lib: Library, t: Taxonomy, v: Vocabulary, i: CycleInputs): Result<Blob> {
    match Refusal(lib, t, v, i)
    case Some(why) => Err(why)
    case None => Ok(Built(lib, t, i))
  }

  /** The keys of the first steps hold what is to be stored, the others are still missing. */
  ghost predicate FilledFrom(lib: Library, t: Taxonomy, i: CycleInputs, result: Blob, steps: nat) {
    forall key :: if Step(key) < steps && Stored(lib, t, i, key).Some?
                  then key in result && result[key] == Stored(lib, t, i, key).value
                  else key !in result
  }

  method AddAlways(r: Resolved, evidenceFresh: bool) returns (facts: Blob)
    ensures forall key :: key in facts <==> Step(key) == 0
    ensures Get(facts, Destinations) == Wrap(r.destinations) && Get(facts, Levels) == Wrap(r.levels)
    ensures Get(facts, OriginModeKey) == r.originMode && Get(facts, OriginsKey) == Wrap(r.origins)
    ensures Get(facts, FieldModeKey) == r.fieldMode && Get(facts, FieldsKey) == Wrap(r.fields)
    ensures Get(facts, EvidenceFresh) == Bool(evidenceFresh)
  {
    facts := map[
      Destinations := Wrap(r.destinations),
      Levels := Wrap(r.levels),
      OriginModeKey := r.originMode,
      OriginsKey := Wrap(r.origins),
      FieldModeKey := r.fieldMode,
      FieldsKey := Wrap(r.fields),
      EvidenceFresh := Bool(evidenceFresh)];
  }

  lemma AlwaysFilled(lib: Library, t: Taxonomy, i: CycleInputs, facts: Blob, key: Key)
    requires forall key :: key in facts <==> Step(key) == 0
    requires Get(facts, Destinations) == Wrap(CountryCodes(lib, i.destinations))
    requires Get(facts, Levels) == Wrap(DegreeCodes(lib, t, i.levels))
    requires Get(facts, OriginModeKey) == i.originMode && Get(facts, OriginsKey) == Wrap(CountryCodes(lib, i.origins))
    requires Get(facts, FieldModeKey) == i.fieldMode && Get(facts, FieldsKey) == Wrap(FieldCodes(lib, t, i.fields))
    requires Get(facts, EvidenceFresh) == Bool(i.evidenceFresh)
    ensures if Step(key) < 1 && Stored(lib, t, i, key).Some?
            then key in facts && facts[key] == Stored(lib, t, i, key).value
            else key !in facts
  {
  }

  method AddNotes(lib: Library, t: Taxonomy, i: CycleInputs, start: Blob) returns (facts: Blob)
    requires FilledFrom(lib, t, i, start, 1)
    ensures FilledFrom(lib, t, i, facts, 2)
  {
    facts := start;
    if Truthy(i.eligibilityNote) {
      facts := facts[EligibilityNote := i.eligibilityNote];
    }
    if !i.expectedReopenMonth.Null? {
      facts := facts[ExpectedReopenMonth := i.expectedReopenMonth];
    }
  }

  method AddLabels(lib: Library, t: Taxonomy, i: CycleInputs, start: Blob) returns (facts: Blob)
    requires FilledFrom(lib, t, i, start, 2)
    ensures FilledFrom(lib, t, i, facts, 3)
  {
    facts := start;
    var labels := FieldLabels(t, FieldCodes(lib, t, i.fields));
    if labels != [] {
      facts := facts[FieldNames := Wrap(labels)];
    }
  }

  method AddProgrammes(lib: Library, t: Taxonomy, i: CycleInputs, start: Blob) returns (facts: Blob)
    requires FilledFrom(lib, t, i, start, 3)
    requires Truthy(i.fundingType) ==> SafeFunding(lib, t, i.fundingType).Some?
    ensures FilledFrom(lib, t, i, facts, 4)
  {
    facts := start;
    var programmes := ProgrammeNamesOf(lib, i);
    if programmes != [] {
      facts := facts[ProgrammeNames := Wrap(programmes)];
    }
    if Truthy(i.fundingType) {
      facts := facts[FundingTypeKey := Str(SafeFunding(lib, t, i.fundingType).value)];
    }
  }

  method AddDeadline(lib: Library, t: Taxonomy, i: CycleInputs, start: Blob) returns (facts: Blob)
    requires FilledFrom(lib, t, i, start, 4)
    ensures FilledFrom(lib, t, i, facts, 5)
  {
    facts := start;
    if i.deadlineAt.Some? {
      facts := facts[DeadlineAt := Str(lib.iso(i.deadlineAt.value))];
      facts := facts[DeadlinePrecision := i.deadlinePrecision];
      if !i.deadlineTimezone.Null? {
        facts := facts[DeadlineTimezone := i.deadlineTimezone];
      }
    }
  }

  // ----- What is published, item by item -----

  /** What a text stands for: the code it is an alias of, or its own folded form. */
  function Entry(fold: Fold, aliases: map<string, string>): string -> string {
    v => if fold(v) in aliases then aliases[fold(v)] else fold(v)
  }

  lemma TruthyMeans(j: Json)
    ensures !Truthy(j) <==>
            j == Null || j == Bool(false) || j == Int(0) || j == Float(0.0) || j == Str("") || j == Arr([])
            || j == Obj(map[])
  {
  }

  predicate KnownBy(values: seq<string>, code: string -> string, known: set<string>) {
    forall v :: v in values ==> code(v) in known
  }

  /** A time zone exists, a funding type is known. */
  predicate OptionsKnown(lib: Library, t: Taxonomy, i: CycleInputs) {
    && (i.deadlineTimezone != Null ==> i.deadlineTimezone.Str? && lib.zoneKnown(i.deadlineTimezone.text))
    && (Truthy(i.fundingType) ==> i.fundingType.Str? && lib.fold(i.fundingType.text) in t.fundingTypes)
  }

  /** Every destination is covered, every country, level and field known, there is a destination and a
      level, a restriction names something, and what may be missing is known when it is not. */
  predicate Publishable(lib: Library, t: Taxonomy, v: Vocabulary, i: CycleInputs) {
    && i.destinations != [] && KnownBy(i.destinations, lib.upper, v.names * v.destinations)
    && i.levels != [] && KnownBy(i.levels, Entry(lib.fold, t.degreeAliases), t.degrees)
    && KnownBy(i.origins, lib.upper, v.names) && (i.originMode == Str("restricted") ==> i.origins != [])
    && KnownBy(i.fields, Entry(lib.fold, t.fieldAliases), t.fields.Keys)
    && (i.fieldMode == Str("restricted") ==> i.fields != []) && OptionsKnown(lib, t, i)
  }

  lemma AllCodes(code: string -> string, values: seq<string>, known: set<string>)
    ensures All(Codes(code, values), known) <==> KnownBy(values, code, known)
    ensures Codes(code, values) == [] <==> values == []
  {
    var codes := Codes(code, values);
    forall v | v in values ensures code(v) in codes {
      assert code(v) in Elements(codes);
    }
    forall c | c in codes ensures exists v :: v in values && code(v) == c {
      assert c in Elements(codes);
    }
    if values != [] {
      assert code(values[0]) in codes;
    }
  }

  lemma CodesAlike(values: seq<string>, code: string -> string, coder: string -> string)
    requires forall v :: code(v) == coder(v)
    ensures Codes(code, values) == Codes(coder, values)
  {
    assert (set v | v in values :: code(v)) == (set v | v in values :: coder(v));
  }

  lemma EntriesAreCodes(lib: Library, t: Taxonomy, values: seq<string>)
    ensures DegreeCodes(lib, t, values) == Codes(Entry(lib.fold, t.degreeAliases), values)
    ensures FieldCodes(lib, t, values) == Codes(Entry(lib.fold, t.fieldAliases), values)
  {
    CodesAlike(values, Entry(lib.fold, t.degreeAliases), DegreeCoder(lib, t));
    CodesAlike(values, Entry(lib.fold, t.fieldAliases), FieldCoder(lib, t));
  }

  /** The codes as the checks see them, and the values as they were given. */
  lemma CountriesKnown(lib: Library, v: Vocabulary, i: CycleInputs)
    ensures CountryCodes(lib, i.destinations) == [] <==> i.destinations == []
    ensures CountryCodes(lib, i.origins) == [] <==> i.origins == []
    ensures All(CountryCodes(lib, i.origins), v.names) <==> KnownBy(i.origins, lib.upper, v.names)
    ensures All(CountryCodes(lib, i.destinations), v.names) && All(CountryCodes(lib, i.destinations), v.destinations)
            <==> KnownBy(i.destinations, lib.upper, v.names * v.destinations)
  {
    AllCodes(lib.upper, i.destinations, v.names * v.destinations);
    AllCodes(lib.upper, i.origins, v.names);
  }

  lemma EntriesKnown(lib: Library, t: Taxonomy, i: CycleInputs)
    ensures DegreeCodes(lib, t, i.levels) == [] <==> i.levels == []
    ensures FieldCodes(lib, t, i.fields) == [] <==> i.fields == []
    ensures All(DegreeCodes(lib, t, i.levels), t.degrees)
            <==> KnownBy(i.levels, Entry(lib.fold, t.degreeAliases), t.degrees)
    ensures All(FieldCodes(lib, t, i.fields), t.fields.Keys)
            <==> KnownBy(i.fields, Entry(lib.fold, t.fieldAliases), t.fields.Keys)
  {
    EntriesAreCodes(lib, t, i.levels);
    EntriesAreCodes(lib, t, i.fields);
    AllCodes(Entry(lib.fold, t.degreeAliases), i.levels, t.degrees);
    AllCodes(Entry(lib.fold, t.fieldAliases), i.fields, t.fields.Keys);
  }

  lemma OptionsChecked(lib: Library, t: Taxonomy, i: CycleInputs)
    ensures OptionsKnown(lib, t, i) <==> Resolve(lib, t, i).timezoneOk && Resolve(lib, t, i).fundingOk
  {
  }

  lemma ListsResolved(lib: Library, t: Taxonomy, i: CycleInputs, r: Resolved)
    requires r == Resolve(lib, t, i)
    ensures r.destinations == CountryCodes(lib, i.destinations) && r.origins == CountryCodes(lib, i.origins)
    ensures r.levels == DegreeCodes(lib, t, i.levels) && r.fields == FieldCodes(lib, t, i.fields)
    ensures r.originMode == i.originMode && r.fieldMode == i.fieldMode
  {
  }

  lemma ChecksMean(t: Taxonomy, v: Vocabulary, r: Resolved)
    ensures Check(t, v, r).None? <==>
            && r.destinations != [] && All(r.destinations, v.names) && All(r.destinations, v.destinations)
            && r.levels != [] && All(r.levels, t.degrees)
            && All(r.origins, v.names) && (r.originMode == Str("restricted") ==> r.origins != [])
            && All(r.fields, t.fields.Keys) && (r.fieldMode == Str("restricted") ==> r.fields != [])
            && r.timezoneOk && r.fundingOk
  {
  }

  lemma PassesIffPublishable(lib: Library, t: Taxonomy, v: Vocabulary, i: CycleInputs, r: Resolved)
    requires r.destinations == CountryCodes(lib, i.destinations) && r.origins == CountryCodes(lib, i.origins)
    requires r.levels == DegreeCodes(lib, t, i.levels) && r.fields == FieldCodes(lib, t, i.fields)
    requires r.originMode == i.originMode && r.fieldMode == i.fieldMode
    requires OptionsKnown(lib, t, i) <==> r.timezoneOk && r.fundingOk
    ensures Check(t, v, r).None? <==> Publishable(lib, t, v, i)
  {
    ChecksMean(t, v, r);
    CountriesKnown(lib, v, i);
    EntriesKnown(lib, t, i);
  }

  lemma RefusedUnlessPublishable(lib: Library, t: Taxonomy, v: Vocabulary, i: CycleInputs)
    ensures Refusal(lib, t, v, i).None? <==> Publishable(lib, t, v, i)
  {
    OptionsChecked(lib, t, i);
    ListsResolved(lib, t, i, Resolve(lib, t, i));
    PassesIffPublishable(lib, t, v, i, Resolve(lib, t, i));
  }

  /** The codes of the values and nothing else, each once, in ascending order. */
  ghost predicate AreCodes(codes: seq<string>, values: seq<string>, code: string -> string) {
    && Ascending(codes)
    && (forall c :: c in codes ==> exists v :: v in values && code(v) == c)
    && forall v :: v in values ==> code(v) in codes
  }

  ghost predicate HoldsCodes(j: Json, values: seq<string>, code: string -> string) {
    exists codes: seq<string> :: AreCodes(codes, values, code) && j == Wrap(codes)
  }

  lemma CodesAreHeld(values: seq<string>, code: string -> string)
    ensures HoldsCodes(Wrap(Codes(code, values)), values, code)
  {
    var codes := Codes(code, values);
    forall c | c in codes ensures exists v :: v in values && code(v) == c {
      assert c in Elements(codes);
    }
    forall v | v in values ensures code(v) in codes {
      assert code(v) in Elements(codes);
    }
    assert AreCodes(codes, values, code);
  }

  /** The lists that are always stored. */
  ghost predicate RecordsCountries(lib: Library, i: CycleInputs, f: Blob) {
    && Destinations in f && HoldsCodes(f[Destinations], i.destinations, lib.upper)
    && OriginsKey in f && HoldsCodes(f[OriginsKey], i.origins, lib.upper)
  }

  ghost predicate RecordsEntries(lib: Library, t: Taxonomy, i: CycleInputs, f: Blob) {
    && Levels in f && HoldsCodes(f[Levels], i.levels, Entry(lib.fold, t.degreeAliases))
    && FieldsKey in f && HoldsCodes(f[FieldsKey], i.fields, Entry(lib.fold, t.fieldAliases))
  }

  /** The values that are always stored. */
  ghost predicate RecordsModes(i: CycleInputs, f: Blob) {
    && OriginModeKey in f && f[OriginModeKey] == i.originMode
    && FieldModeKey in f && f[FieldModeKey] == i.fieldMode
    && EvidenceFresh in f && f[EvidenceFresh] == Bool(i.evidenceFresh)
  }

  /** A note, a month and a funding type only when there is one, and the deadline with its precision and
      its zone only when there is a deadline. */
  ghost predicate RecordsOptions(lib: Library, i: CycleInputs, f: Blob) {
    && (EligibilityNote in f <==> Truthy(i.eligibilityNote))
    && (EligibilityNote in f ==> f[EligibilityNote] == i.eligibilityNote)
    && (ExpectedReopenMonth in f <==> i.expectedReopenMonth != Null)
    && (ExpectedReopenMonth in f ==> f[ExpectedReopenMonth] == i.expectedReopenMonth)
    && (FundingTypeKey in f <==> Truthy(i.fundingType))
    && (FundingTypeKey in f ==> i.fundingType.Str? && f[FundingTypeKey] == Str(lib.fold(i.fundingType.text)))
    && (DeadlineAt in f <==> i.deadlineAt.Some?) && (DeadlinePrecision in f <==> i.deadlineAt.Some?)
    && (DeadlineTimezone in f <==> i.deadlineAt.Some? && i.deadlineTimezone != Null)
    && (DeadlineAt in f ==> f[DeadlineAt] == Str(lib.iso(i.deadlineAt.value)))
    && (DeadlinePrecision in f ==> f[DeadlinePrecision] == i.deadlinePrecision)
    && (DeadlineTimezone in f ==> f[DeadlineTimezone] == i.deadlineTimezone)
  }

  function GivenNames(i: CycleInputs): seq<string> {
    match i.programmeNames
    case Some(names) => names
    case None => (match i.fieldNames case Some(names) => names case None => [])
  }

  predicate AreLabels(t: Taxonomy, codes: seq<string>, labels: seq<string>) {
    |labels| == |codes| && forall k :: 0 <= k < |codes| ==> codes[k] in t.fields && labels[k] == t.fields[codes[k]]
  }

  /** The label of every stored field, in the same order, if there is any. */
  ghost predicate RecordsLabels(t: Taxonomy, i: CycleInputs, f: Blob)
    requires FieldsKey in f
  {
    && (FieldNames in f <==> i.fields != [])
    && (FieldNames in f ==>
          exists codes, labels :: AreLabels(t, codes, labels)
                                  && f[FieldsKey] == Wrap(codes) && f[FieldNames] == Wrap(labels))
  }

  /** The stripped programme names that are not blank, each once and in order; the older argument counts
      only when the newer one is missing. */
  ghost predicate RecordsProgrammes(lib: Library, i: CycleInputs, f: Blob) {
    && (ProgrammeNames in f <==> exists n :: n in GivenNames(i) && lib.strip(n) != "")
    && (ProgrammeNames in f ==>
          HoldsCodes(f[ProgrammeNames], Filtered(GivenNames(i), (n: string) => lib.strip(n) != ""), lib.strip))
  }

  function Filtered(values: seq<string>, keep: string -> bool): seq<string> {
    if values == [] then []
    else (if keep(values[0]) then [values[0]] else []) + Filtered(values[1..], keep)
  }

  lemma {:induction false} FilteredHas(values: seq<string>, keep: string -> bool, v: string)
    ensures v in Filtered(values, keep) <==> v in values && keep(v)
  {
    if values != [] {
      FilteredHas(values[1..], keep, v);
      assert values == [values[0]] + values[1..];
    }
  }

  /** Accepted facts in full; nothing is stored under any other key. */
  ghost predicate Records(lib: Library, t: Taxonomy, i: CycleInputs, f: Blob) {
    && RecordsCountries(lib, i, f) && RecordsEntries(lib, t, i, f) && RecordsModes(i, f)
    && RecordsOptions(lib, i, f) && RecordsLabels(t, i, f) && RecordsProgrammes(lib, i, f)
    && forall name :: Other(name) !in f
  }

  lemma ListWritten(lib: Library, t: Taxonomy, i: CycleInputs, f: Blob, key: Key, values: seq<string>,
                    code: string -> string)
    requires Holds(lib, t, i, f) && !key.Other? && Stored(lib, t, i, key) == Some(Wrap(Codes(code, values)))
    ensures key in f && HoldsCodes(f[key], values, code)
  {
    CodesAreHeld(values, code);
  }

  lemma HoldsCountries(lib: Library, t: Taxonomy, i: CycleInputs, f: Blob)
    requires Holds(lib, t, i, f)
    ensures RecordsCountries(lib, i, f)
  {
    ListWritten(lib, t, i, f, Destinations, i.destinations, lib.upper);
    ListWritten(lib, t, i, f, OriginsKey, i.origins, lib.upper);
  }

  lemma HoldsLevels(lib: Library, t: Taxonomy, i: CycleInputs, f: Blob)
    requires Holds(lib, t, i, f)
    ensures Levels in f && HoldsCodes(f[Levels], i.levels, Entry(lib.fold, t.degreeAliases))
  {
    Read(lib, t, i, f, Levels);
    EntriesAreCodes(lib, t, i.levels);
    CodesAreHeld(i.levels, Entry(lib.fold, t.degreeAliases));
  }

  lemma HoldsFields(lib: Library, t: Taxonomy, i: CycleInputs, f: Blob)
    requires Holds(lib, t, i, f)
    ensures FieldsKey in f && HoldsCodes(f[FieldsKey], i.fields, Entry(lib.fold, t.fieldAliases))
  {
    Read(lib, t, i, f, FieldsKey);
    EntriesAreCodes(lib, t, i.fields);
    CodesAreHeld(i.fields, Entry(lib.fold, t.fieldAliases));
  }

  lemma HoldsEntries(lib: Library, t: Taxonomy, i: CycleInputs, f: Blob)
    requires Holds(lib, t, i, f)
    ensures RecordsEntries(lib, t, i, f)
  {
    HoldsLevels(lib, t, i, f);
    HoldsFields(lib, t, i, f);
  }

  lemma HoldsModes(lib: Library, t: Taxonomy, i: CycleInputs, f: Blob)
    requires Holds(lib, t, i, f)
    ensures RecordsModes(i, f)
  {
    Read(lib, t, i, f, OriginModeKey);
    Read(lib, t, i, f, FieldModeKey);
    Read(lib, t, i, f, EvidenceFresh);
  }

  lemma HoldsOptions(lib: Library, t: Taxonomy, i: CycleInputs, f: Blob)
    requires Holds(lib, t, i, f) && (Truthy(i.fundingType) ==> SafeFunding(lib, t, i.fundingType).Some?)
    ensures RecordsOptions(lib, i, f)
  {
  }

  lemma HoldsLabels(lib: Library, t: Taxonomy, i: CycleInputs, f: Blob, codes: seq<string>)
    requires Holds(lib, t, i, f) && codes == FieldCodes(lib, t, i.fields) && All(codes, t.fields.Keys)
    ensures FieldsKey in f && RecordsLabels(t, i, f)
  {
    AllCodes(FieldCoder(lib, t), i.fields, t.fields.Keys);
    Read(lib, t, i, f, FieldsKey);
    Read(lib, t, i, f, FieldNames);
    assert AreLabels(t, codes, FieldLabels(t, codes));
  }

  lemma HoldsProgrammes(lib: Library, t: Taxonomy, i: CycleInputs, f: Blob)
    requires Holds(lib, t, i, f)
    ensures RecordsProgrammes(lib, i, f)
  {
    Read(lib, t, i, f, ProgrammeNames);
    ProgrammesHeld(lib, i);
  }

  lemma NamesKept(lib: Library, given: seq<string>, kept: seq<string>)
    requires kept == Filtered(given, (n: string) => lib.strip(n) != "")
    ensures forall n :: n in kept <==> n in given && lib.strip(n) != ""
  {
    forall n ensures n in kept <==> n in given && lib.strip(n) != "" {
      FilteredHas(given, (m: string) => lib.strip(m) != "", n);
    }
  }

  lemma ProgrammesAreCodes(lib: Library, i: CycleInputs, kept: seq<string>)
    requires forall n :: n in kept <==> n in GivenNames(i) && lib.strip(n) != ""
    ensures ProgrammeNamesOf(lib, i) == Codes(lib.strip, kept)
  {
    var given := GivenNames(i);
    assert (set n | n in given && lib.strip(n) != "" :: lib.strip(n)) == (set n | n in kept :: lib.strip(n));
  }

  lemma ProgrammesHeld(lib: Library, i: CycleInputs)
    ensures ProgrammeNamesOf(lib, i) != [] <==> exists n :: n in GivenNames(i) && lib.strip(n) != ""
    ensures HoldsCodes(Wrap(ProgrammeNamesOf(lib, i)),
                       Filtered(GivenNames(i), (n: string) => lib.strip(n) != ""), lib.strip)
  {
    var kept := Filtered(GivenNames(i), (n: string) => lib.strip(n) != "");
    NamesKept(lib, GivenNames(i), kept);
    ProgrammesAreCodes(lib, i, kept);
    CodesAreHeld(kept, lib.strip);
    AllCodes(lib.strip, kept, {});
    assert kept != [] ==> kept[0] in kept;
  }

  lemma HoldsNothingElse(f: Blob)
    requires f.Keys <= KEYS
    ensures forall name :: Other(name) !in f
  {
  }

  lemma BuiltRecords(lib: Library, t: Taxonomy, i: CycleInputs)
    requires All(FieldCodes(lib, t, i.fields), t.fields.Keys)
    requires Truthy(i.fundingType) ==> SafeFunding(lib, t, i.fundingType).Some?
    ensures Records(lib, t, i, Built(lib, t, i))
  {
    BuiltHolds(lib, t, i);
    BuiltKeys(lib, t, i);
    HeldRecords(lib, t, i, Built(lib, t, i));
  }

  lemma HeldRecords(lib: Library, t: Taxonomy, i: CycleInputs, f: Blob)
    requires Holds(lib, t, i, f) && f.Keys <= KEYS && All(FieldCodes(lib, t, i.fields), t.fields.Keys)
    requires Truthy(i.fundingType) ==> SafeFunding(lib, t, i.fundingType).Some?
    ensures Records(lib, t, i, f)
  {
    HoldsCountries(lib, t, i, f);
    HoldsEntries(lib, t, i, f);
    assert RecordsModes(i, f) by { HoldsModes(lib, t, i, f); }
    assert RecordsOptions(lib, i, f) by { HoldsOptions(lib, t, i, f); }
    assert RecordsLabels(t, i, f) by { HoldsLabels(lib, t, i, f, FieldCodes(lib, t, i.fields)); }
    assert RecordsProgrammes(lib, i, f) by { HoldsProgrammes(lib, t, i, f); }
    HoldsNothingElse(f);
  }

  lemma AcceptedRecords(lib: Library, t: Taxonomy, v: Vocabulary, i: CycleInputs)
    ensures Build(lib, t, v, i).Ok? <==> Publishable(lib, t, v, i)
    ensures Build(lib, t, v, i).Ok? ==> Records(lib, t, i, Build(lib, t, v, i).value)
  {
    RefusedUnlessPublishable(lib, t, v, i);
    if Refusal(lib, t, v, i).None? {
      Passed(t, v, Resolve(lib, t, i));
      BuiltRecords(lib, t, i);
    }
  }

  /** The checks, then the dictionary filled step by step. */
  method BuildCycleFacts(lib: Library, t: Taxonomy, v: Vocabulary, i: CycleInputs) returns (r: Result<Blob>)
    ensures r == Build(lib, t, v, i)
    ensures r.Ok? <==> Publishable(lib, t, v, i)
    ensures r.Ok? ==> Records(lib, t, i, r.value)
  {
    AcceptedRecords(lib, t, v, i);
    var refusal := Refusal(lib, t, v, i);
    if refusal.Some? {
      return Err(refusal.value);
    }
    Passed(t, v, Resolve(lib, t, i));
    var facts := AddAlways(Resolve(lib, t, i), i.evidenceFresh);
    forall key ensures if Step(key) < 1 && Stored(lib, t, i, key).Some?
                       then key in facts && facts[key] == Stored(lib, t, i, key).value
                       else key !in facts
    {
      AlwaysFilled(lib, t, i, facts, key);
    }
    facts := AddNotes(lib, t, i, facts);
    facts := AddLabels(lib, t, i, facts);
    facts := AddProgrammes(lib, t, i, facts);
    facts := AddDeadline(lib, t, i, facts);
    FilledIsBuilt(lib, t, i, facts);
    r := Ok(facts);
  }

  /** What passing the checks says about the resolved codes. */
  lemma Passed(t: Taxonomy, v: Vocabulary, r: Resolved)
    requires Check(t, v, r).None?
    ensures All(r.destinations, v.names) && All(r.origins, v.names)
    ensures All(r.levels, t.degrees) && All(r.fields, t.fields.Keys)
    ensures r.timezoneOk && r.fundingOk
  {
  }

  lemma FilledIsBuilt(lib: Library, t: Taxonomy, i: CycleInputs, facts: Blob)
    requires FilledFrom(lib, t, i, facts, 5)
    ensures facts == Built(lib, t, i)
  {
  }

  // ----- Reading back -----

  function GetOr(f: Blob, key: Key, default: Json): Json {
    if key in f then f[key] else default
  }

  function Inputs(lib: Library, f: Blob): Result<CycleInputs> {
    var deadline := Get(f, DeadlineAt);
    if deadline.Str? && deadline.text != "" && lib.parse(deadline.text).None? then
      Err("Stored deadline_at is not a valid timestamp")
    else
      Ok(CycleInputs(
           StringList(Get(f, Destinations)),
           StringList(Get(f, Levels)),
           GetOr(f, OriginModeKey, Str("unknown")),
           StringList(Get(f, OriginsKey)),
           GetOr(f, FieldModeKey, Str("unknown")),
           StringList(Get(f, FieldsKey)),
           Truthy(Get(f, EvidenceFresh)),
           SafeDeadline(lib, deadline),
           GetOr(f, DeadlinePrecision, Str("date")),
           Get(f, DeadlineTimezone),
           Get(f, EligibilityNote),
           Get(f, ExpectedReopenMonth),
           None,
           Some(StringList(Get(f, ProgrammeNames))),
           Get(f, FundingTypeKey)))
  }

  // ----- Editing -----

  /** What an edit sends: `None` leaves a value alone, a null clears a nullable one. */
  datatype Patch = Patch(
    destinations: Option<seq<string>>,
    levels: Option<seq<string>>,
    originMode: Option<Json>,
    origins: Option<seq<string>>,
    fieldMode: Option<Json>,
    fields: Option<seq<string>>,
    programmeNames: Option<seq<string>>,
    evidenceFresh: Option<bool>,
    deadlineAt: Option<Option<Status.DateTime>>,
    deadlinePrecision: Option<Json>,
    deadlineTimezone: Option<Json>,
    eligibilityNote: Option<Json>,
    expectedReopenMonth: Option<Json>,
    fundingType: Option<Json>)

  const NO_CHANGE := Patch(None, None, None, None, None, None, None, None, None, None, None, None, None, None)

  function Either<T>(change: Option<T>, current: T): T {
    if change.Some? then change.value else current
  }

  function Merge(i: CycleInputs, p: Patch): CycleInputs {
    CycleInputs(
      Either(p.destinations, i.destinations),
      Either(p.levels, i.levels),
      Either(p.originMode, i.originMode),
      Either(p.origins, i.origins),
      Either(p.fieldMode, i.fieldMode),
      Either(p.fields, i.fields),
      Either(p.evidenceFresh, i.evidenceFresh),
      Either(p.deadlineAt, i.deadlineAt),
      Either(p.deadlinePrecision, i.deadlinePrecision),
      Either(p.deadlineTimezone, i.deadlineTimezone),
      Either(p.eligibilityNote, i.eligibilityNote),
      Either(p.expectedReopenMonth, i.expectedReopenMonth),
      i.fieldNames,
      if p.programmeNames.Some? then p.programmeNames else i.programmeNames,
      Either(p.fundingType, i.fundingType))
  }

  function Edit(lib: Library, t: Taxonomy, v: Vocabulary, f: Blob, p: Patch): Result<Blob> {
    match Inputs(lib, f)
    case Err(why) => Err(why)
    case Ok(i) => Build(lib, t, v, Merge(i, p))
  }

  /** The strings of a stored list, whatever else it holds. */
  ghost predicate StringsOf(f: Blob, key: Key, ss: seq<string>) {
    forall s :: s in ss <==> key in f && f[key].Arr? && Str(s) in f[key].items
  }

  /** A stored value, or what a missing one stands for. */
  predicate StoredOr(f: Blob, key: Key, default: Json, value: Json) {
    if key in f then value == f[key] else value == default
  }

  /** The lists an edit asks for: those it sends, else the stored ones. */
  ghost predicate AsksLists(f: Blob, p: Patch, i: CycleInputs) {
    && (match p.destinations case Some(ss) => i.destinations == ss
        case None => StringsOf(f, Destinations, i.destinations))
    && (match p.levels case Some(ss) => i.levels == ss
        case None => StringsOf(f, Levels, i.levels))
    && (match p.origins case Some(ss) => i.origins == ss
        case None => StringsOf(f, OriginsKey, i.origins))
    && (match p.fields case Some(ss) => i.fields == ss
        case None => StringsOf(f, FieldsKey, i.fields))
    && i.programmeNames.Some?
    && (match p.programmeNames
        case Some(ss) => i.programmeNames.value == ss
        case None => StringsOf(f, ProgrammeNames, i.programmeNames.value))
  }

  /** The other values an edit asks for: those it sends, else the stored ones; a deadline that is no text or
      empty is none. */
  ghost predicate AsksValues(lib: Library, f: Blob, p: Patch, i: CycleInputs) {
    && (match p.originMode case Some(j) => i.originMode == j
        case None => StoredOr(f, OriginModeKey, Str("unknown"), i.originMode))
    && (match p.fieldMode case Some(j) => i.fieldMode == j
        case None => StoredOr(f, FieldModeKey, Str("unknown"), i.fieldMode))
    && (match p.evidenceFresh case Some(b) => i.evidenceFresh == b
        case None => i.evidenceFresh == (EvidenceFresh in f && Truthy(f[EvidenceFresh])))
    && (match p.deadlineAt case Some(d) => i.deadlineAt == d
        case None =>
          if DeadlineAt in f && f[DeadlineAt].Str? && f[DeadlineAt] != Str("")
          then i.deadlineAt == lib.parse(f[DeadlineAt].text) else i.deadlineAt.None?)
    && (match p.deadlinePrecision case Some(j) => i.deadlinePrecision == j
        case None => StoredOr(f, DeadlinePrecision, Str("date"), i.deadlinePrecision))
    && (match p.deadlineTimezone case Some(j) => i.deadlineTimezone == j
        case None => StoredOr(f, DeadlineTimezone, Null, i.deadlineTimezone))
    && (match p.eligibilityNote case Some(j) => i.eligibilityNote == j
        case None => StoredOr(f, EligibilityNote, Null, i.eligibilityNote))
    && (match p.expectedReopenMonth case Some(j) => i.expectedReopenMonth == j
        case None => StoredOr(f, ExpectedReopenMonth, Null, i.expectedReopenMonth))
    && (match p.fundingType case Some(j) => i.fundingType == j
        case None => StoredOr(f, FundingTypeKey, Null, i.fundingType))
  }

  /** A stored deadline text that is no timestamp. */
  predicate BrokenDeadline(lib: Library, f: Blob) {
    DeadlineAt in f && f[DeadlineAt].Str? && f[DeadlineAt] != Str("") && lib.parse(f[DeadlineAt].text).None?
  }

  lemma MergedLists(lib: Library, f: Blob, p: Patch)
    requires Inputs(lib, f).Ok?
    ensures AsksLists(f, p, Merge(Inputs(lib, f).value, p))
  {
    forall s, key ensures s in StringList(Get(f, key)) <==> key in f && f[key].Arr? && Str(s) in f[key].items {
      ListedStrings(f, key, s);
    }
  }

  lemma MergedValues(lib: Library, f: Blob, p: Patch)
    requires Inputs(lib, f).Ok?
    ensures AsksValues(lib, f, p, Merge(Inputs(lib, f).value, p))
  {
  }

  /** An edit publishes what it asks for: with a stored deadline that is no timestamp nothing; else it is
      accepted exactly when what it asks for may be published, and stores just that. */
  lemma EditStoresWhatItAsks(lib: Library, t: Taxonomy, v: Vocabulary, f: Blob, p: Patch)
    ensures BrokenDeadline(lib, f) ==> Edit(lib, t, v, f, p).Err?
    ensures !BrokenDeadline(lib, f) ==>
              exists i :: AsksLists(f, p, i) && AsksValues(lib, f, p, i) && i.fieldNames.None?
                          && (Edit(lib, t, v, f, p).Ok? <==> Publishable(lib, t, v, i))
                          && (Edit(lib, t, v, f, p).Ok? ==> Records(lib, t, i, Edit(lib, t, v, f, p).value))
  {
    if !BrokenDeadline(lib, f) {
      MergedLists(lib, f, p);
      MergedValues(lib, f, p);
      AcceptedRecords(lib, t, v, Merge(Inputs(lib, f).value, p));
    }
  }

  // ----- Rebuilding -----

  /** What the checks establish about a code list. */
  ghost predicate Stable(codes: seq<string>, code: string -> string) {
    Ascending(codes) && forall c :: c in codes ==> code(c) == c
  }

  lemma CodesAgain(code: string -> string, codes: seq<string>)
    requires Stable(codes, code)
    ensures Codes(code, codes) == codes
  {
    assert (set v | v in codes :: code(v)) == Elements(codes);
    SortedAgain(codes);
  }

  lemma StableCodes(code: string -> string, values: seq<string>, known: set<string>)
    requires All(Codes(code, values), known) && forall c :: c in known ==> code(c) == c
    ensures Stable(Codes(code, values), code)
  {
  }

  /** `f` holds exactly what building from `i` writes. */
  ghost predicate Holds(lib: Library, t: Taxonomy, i: CycleInputs, f: Blob) {
    forall key: Key :: !key.Other? ==>
      if Stored(lib, t, i, key).Some? then key in f && f[key] == Stored(lib, t, i, key).value else key !in f
  }

  lemma BuiltHolds(lib: Library, t: Taxonomy, i: CycleInputs)
    ensures Holds(lib, t, i, Built(lib, t, i))
  {
  }

  lemma HeldTwice(lib: Library, t: Taxonomy, i: CycleInputs, j: CycleInputs, f: Blob, key: Key)
    requires Holds(lib, t, i, f) && Stored(lib, t, i, key) == Stored(lib, t, j, key) && !key.Other?
    ensures if Stored(lib, t, j, key).Some? then key in f && f[key] == Stored(lib, t, j, key).value else key !in f
  {
  }

  lemma HeldIsBuilt(lib: Library, t: Taxonomy, i: CycleInputs, f: Blob)
    requires Holds(lib, t, i, f) && f.Keys <= KEYS
    ensures f == Built(lib, t, i)
  {
  }

  lemma BuiltKeys(lib: Library, t: Taxonomy, i: CycleInputs)
    ensures Built(lib, t, i).Keys <= KEYS
  {
  }

  lemma SameStoredSameBlob(lib: Library, t: Taxonomy, i: CycleInputs, j: CycleInputs)
    requires forall key: Key :: !key.Other? ==> Stored(lib, t, i, key) == Stored(lib, t, j, key)
    ensures Built(lib, t, i) == Built(lib, t, j)
  {
    var f := Built(lib, t, i);
    BuiltHolds(lib, t, i);
    BuiltKeys(lib, t, i);
    forall key: Key | !key.Other?
      ensures if Stored(lib, t, j, key).Some? then key in f && f[key] == Stored(lib, t, j, key).value else key !in f
    {
      HeldTwice(lib, t, i, j, f, key);
    }
    HeldIsBuilt(lib, t, j, f);
  }

  /** The code lists of accepted inputs resolve to themselves. */
  ghost predicate Settled(lib: Library, t: Taxonomy, i: CycleInputs) {
    && Stable(CountryCodes(lib, i.destinations), lib.upper)
    && Stable(CountryCodes(lib, i.origins), lib.upper)
    && Stable(DegreeCodes(lib, t, i.levels), DegreeCoder(lib, t))
    && Stable(FieldCodes(lib, t, i.fields), FieldCoder(lib, t))
    && TimezoneOk(lib, i.deadlineTimezone)
    && (Truthy(i.fundingType) ==> SafeFunding(lib, t, i.fundingType).Some?)
  }

  lemma AcceptedIsSettled(lib: Library, t: Taxonomy, v: Vocabulary, i: CycleInputs)
    requires WellFormed(t) && CodesAreFolded(t, lib.fold) && CountriesAreUpper(v, lib)
    requires Refusal(lib, t, v, i).None?
    ensures Settled(lib, t, i)
  {
    Passed(t, v, Resolve(lib, t, i));
    StableCodes(lib.upper, i.destinations, v.names);
    StableCodes(lib.upper, i.origins, v.names);
    StableCodes(DegreeCoder(lib, t), i.levels, t.degrees);
    StableCodes(FieldCoder(lib, t), i.fields, t.fields.Keys);
  }

  lemma CodesRebuilt(code: string -> string, values: seq<string>, stored: Json)
    requires Stable(Codes(code, values), code) && stored == Wrap(Codes(code, values))
    ensures Codes(code, StringList(stored)) == Codes(code, values)
  {
    StringsOfWrapped(Codes(code, values));
    CodesAgain(code, Codes(code, values));
  }

  /** One stored value, read. */
  lemma Read(lib: Library, t: Taxonomy, i: CycleInputs, f: Blob, key: Key)
    requires Holds(lib, t, i, f) && !key.Other?
    ensures Get(f, key) == OrNull(Stored(lib, t, i, key)) && (key in f <==> Stored(lib, t, i, key).Some?)
  {
  }

  lemma DestinationsAgain(lib: Library, t: Taxonomy, i: CycleInputs, stored: Json)
    requires Stable(CountryCodes(lib, i.destinations), lib.upper) && Some(stored) == Stored(lib, t, i, Destinations)
    ensures CountryCodes(lib, StringList(stored)) == CountryCodes(lib, i.destinations)
  {
    CodesRebuilt(lib.upper, i.destinations, stored);
  }

  lemma DestinationsRebuilt(lib: Library, t: Taxonomy, i: CycleInputs, f: Blob)
    requires Stable(CountryCodes(lib, i.destinations), lib.upper) && Holds(lib, t, i, f)
    ensures CountryCodes(lib, StringList(Get(f, Destinations))) == CountryCodes(lib, i.destinations)
  {
    Read(lib, t, i, f, Destinations);
    DestinationsAgain(lib, t, i, Get(f, Destinations));
  }

  lemma OriginsAgain(lib: Library, t: Taxonomy, i: CycleInputs, stored: Json)
    requires Stable(CountryCodes(lib, i.origins), lib.upper) && Some(stored) == Stored(lib, t, i, OriginsKey)
    ensures CountryCodes(lib, StringList(stored)) == CountryCodes(lib, i.origins)
  {
    CodesRebuilt(lib.upper, i.origins, stored);
  }

  lemma OriginsRebuilt(lib: Library, t: Taxonomy, i: CycleInputs, f: Blob)
    requires Stable(CountryCodes(lib, i.origins), lib.upper) && Holds(lib, t, i, f)
    ensures CountryCodes(lib, StringList(Get(f, OriginsKey))) == CountryCodes(lib, i.origins)
  {
    Read(lib, t, i, f, OriginsKey);
    OriginsAgain(lib, t, i, Get(f, OriginsKey));
  }

  lemma DegreesAgain(lib: Library, t: Taxonomy, i: CycleInputs, stored: Json)
    requires Stable(DegreeCodes(lib, t, i.levels), DegreeCoder(lib, t)) && Some(stored) == Stored(lib, t, i, Levels)
    ensures DegreeCodes(lib, t, StringList(stored)) == DegreeCodes(lib, t, i.levels)
  {
    CodesRebuilt(DegreeCoder(lib, t), i.levels, stored);
  }

  lemma DegreesRebuilt(lib: Library, t: Taxonomy, i: CycleInputs, f: Blob)
    requires Stable(DegreeCodes(lib, t, i.levels), DegreeCoder(lib, t)) && Holds(lib, t, i, f)
    ensures DegreeCodes(lib, t, StringList(Get(f, Levels))) == DegreeCodes(lib, t, i.levels)
  {
    Read(lib, t, i, f, Levels);
    DegreesAgain(lib, t, i, Get(f, Levels));
  }

  lemma FieldsAgain(lib: Library, t: Taxonomy, i: CycleInputs, stored: Json)
    requires Stable(FieldCodes(lib, t, i.fields), FieldCoder(lib, t)) && Some(stored) == Stored(lib, t, i, FieldsKey)
    ensures FieldCodes(lib, t, StringList(stored)) == FieldCodes(lib, t, i.fields)
  {
    CodesRebuilt(FieldCoder(lib, t), i.fields, stored);
  }

  lemma FieldsRebuilt(lib: Library, t: Taxonomy, i: CycleInputs, f: Blob)
    requires Stable(FieldCodes(lib, t, i.fields), FieldCoder(lib, t)) && Holds(lib, t, i, f)
    ensures FieldCodes(lib, t, StringList(Get(f, FieldsKey))) == FieldCodes(lib, t, i.fields)
  {
    Read(lib, t, i, f, FieldsKey);
    FieldsAgain(lib, t, i, Get(f, FieldsKey));
  }

  /** Stripped, non-empty, sorted names stay as they are. */
  lemma NamesRebuilt(lib: Library, t: Taxonomy, i: CycleInputs, f: Blob, j: CycleInputs)
    requires Lawful(lib) && Holds(lib, t, i, f)
    requires j.programmeNames == Some(StringList(Get(f, ProgrammeNames)))
    ensures ProgrammeNamesOf(lib, j) == ProgrammeNamesOf(lib, i)
  {
    var names := ProgrammeNamesOf(lib, i);
    assert Get(f, ProgrammeNames) == OrNull(Present(names));
    StringsOfWrapped(names);
    assert j.programmeNames.value == names;
    forall n | n in names ensures lib.strip(n) == n && n != "" {
      assert n in Elements(names);
    }
    assert (set n | n in names && lib.strip(n) != "" :: lib.strip(n)) == Elements(names);
    SortedAgain(names);
  }

  lemma ModesRebuilt(lib: Library, t: Taxonomy, i: CycleInputs, f: Blob)
    requires Holds(lib, t, i, f)
    ensures GetOr(f, OriginModeKey, Str("unknown")) == i.originMode
    ensures GetOr(f, FieldModeKey, Str("unknown")) == i.fieldMode
    ensures Truthy(Get(f, EvidenceFresh)) == i.evidenceFresh
  {
    Read(lib, t, i, f, OriginModeKey);
    Read(lib, t, i, f, FieldModeKey);
    Read(lib, t, i, f, EvidenceFresh);
  }

  lemma OptionalsRebuilt(lib: Library, t: Taxonomy, i: CycleInputs, f: Blob)
    requires Holds(lib, t, i, f)
    ensures Get(f, ExpectedReopenMonth) == i.expectedReopenMonth
    ensures Get(f, EligibilityNote) == if Truthy(i.eligibilityNote) then i.eligibilityNote else Null
  {
    Read(lib, t, i, f, ExpectedReopenMonth);
    Read(lib, t, i, f, EligibilityNote);
  }

  lemma FundingRebuilt(lib: Library, t: Taxonomy, i: CycleInputs, stored: Json)
    requires WellFormed(t) && CodesAreFolded(t, lib.fold) && stored == OrNull(Stored(lib, t, i, FundingTypeKey))
    requires Truthy(i.fundingType) ==> SafeFunding(lib, t, i.fundingType).Some?
    ensures Truthy(stored) == Truthy(i.fundingType)
    ensures Truthy(stored) ==> SafeFunding(lib, t, stored) == SafeFunding(lib, t, i.fundingType)
  {
  }

  lemma DeadlineParses(lib: Library, t: Taxonomy, i: CycleInputs, stored: Json)
    requires Lawful(lib) && stored == OrNull(Stored(lib, t, i, DeadlineAt))
    ensures SafeDeadline(lib, stored) == i.deadlineAt
    ensures stored.Str? ==> lib.parse(stored.text).Some?
  {
  }

  lemma DeadlineDetails(lib: Library, t: Taxonomy, i: CycleInputs, f: Blob)
    requires Holds(lib, t, i, f)
    ensures i.deadlineAt.Some? ==> GetOr(f, DeadlinePrecision, Str("date")) == i.deadlinePrecision
    ensures Get(f, DeadlineTimezone) == if i.deadlineAt.Some? then i.deadlineTimezone else Null
  {
    Read(lib, t, i, f, DeadlinePrecision);
    Read(lib, t, i, f, DeadlineTimezone);
  }

  lemma DeadlineRebuilt(lib: Library, t: Taxonomy, i: CycleInputs, f: Blob)
    requires Lawful(lib) && Holds(lib, t, i, f)
    ensures Inputs(lib, f).Ok?
    ensures SafeDeadline(lib, Get(f, DeadlineAt)) == i.deadlineAt
    ensures i.deadlineAt.Some? ==> GetOr(f, DeadlinePrecision, Str("date")) == i.deadlinePrecision
    ensures Get(f, DeadlineTimezone) == if i.deadlineAt.Some? then i.deadlineTimezone else Null
  {
    Read(lib, t, i, f, DeadlineAt);
    DeadlineParses(lib, t, i, Get(f, DeadlineAt));
    DeadlineDetails(lib, t, i, f);
  }

  /** Reading built facts back and building again writes the same under every key. */
  lemma StoredAgain(lib: Library, t: Taxonomy, i: CycleInputs, f: Blob, j: CycleInputs, key: Key)
    requires Lawful(lib) && WellFormed(t) && CodesAreFolded(t, lib.fold)
    requires Settled(lib, t, i) && Holds(lib, t, i, f) && Inputs(lib, f) == Ok(j) && !key.Other?
    ensures Stored(lib, t, j, key) == Stored(lib, t, i, key)
  {
    match key {
      case Destinations => DestinationsRebuilt(lib, t, i, f);
      case OriginsKey => OriginsRebuilt(lib, t, i, f);
      case Levels => DegreesRebuilt(lib, t, i, f);
      case FieldsKey | FieldNames => FieldsRebuilt(lib, t, i, f);
      case OriginModeKey | FieldModeKey | EvidenceFresh => ModesRebuilt(lib, t, i, f);
      case EligibilityNote | ExpectedReopenMonth => OptionalsRebuilt(lib, t, i, f);
      case ProgrammeNames => NamesRebuilt(lib, t, i, f, j);
      case FundingTypeKey =>
        Read(lib, t, i, f, FundingTypeKey);
        FundingRebuilt(lib, t, i, Get(f, FundingTypeKey));
      case DeadlineAt | DeadlinePrecision | DeadlineTimezone => DeadlineRebuilt(lib, t, i, f);
      case Other(_) =>
    }
  }

  /** The countries of a blob are still known, its destinations still covered. */
  predicate StillCovered(v: Vocabulary, f: Blob) {
    && All(StringList(Get(f, Destinations)), v.names) && All(StringList(Get(f, Destinations)), v.destinations)
    && All(StringList(Get(f, OriginsKey)), v.names)
  }

  lemma ResolvedAgain(lib: Library, t: Taxonomy, i: CycleInputs, f: Blob, j: CycleInputs)
    requires WellFormed(t) && CodesAreFolded(t, lib.fold) && Lawful(lib)
    requires Settled(lib, t, i) && Holds(lib, t, i, f) && Inputs(lib, f) == Ok(j)
    ensures Resolve(lib, t, j) == Resolve(lib, t, i)
  {
    DestinationsRebuilt(lib, t, i, f);
    OriginsRebuilt(lib, t, i, f);
    DegreesRebuilt(lib, t, i, f);
    FieldsRebuilt(lib, t, i, f);
    ModesRebuilt(lib, t, i, f);
    Read(lib, t, i, f, FundingTypeKey);
    FundingRebuilt(lib, t, i, Get(f, FundingTypeKey));
    DeadlineRebuilt(lib, t, i, f);
  }

  lemma OnlyCoverageMatters(t: Taxonomy, v: Vocabulary, v': Vocabulary, r: Resolved)
    requires Check(t, v, r).None?
    ensures Check(t, v', r).None? <==> All(r.destinations, v'.names) && All(r.destinations, v'.destinations)
                                       && All(r.origins, v'.names)
  {
  }

  predicate Covered(lib: Library, i: CycleInputs, v: Vocabulary) {
    && All(CountryCodes(lib, i.destinations), v.names) && All(CountryCodes(lib, i.destinations), v.destinations)
    && All(CountryCodes(lib, i.origins), v.names)
  }

  lemma CoveredAsStored(lib: Library, t: Taxonomy, i: CycleInputs, f: Blob, v: Vocabulary)
    requires Holds(lib, t, i, f)
    ensures StillCovered(v, f) == Covered(lib, i, v)
  {
    Read(lib, t, i, f, Destinations);
    Read(lib, t, i, f, OriginsKey);
    StringsOfWrapped(CountryCodes(lib, i.destinations));
    StringsOfWrapped(CountryCodes(lib, i.origins));
  }

  /** An empty edit of published facts is the identity as long as the vocabulary still covers them, and is
      refused as soon as it does not. */
  lemma EmptyEditIsIdentityIff(lib: Library, t: Taxonomy, v: Vocabulary, i: CycleInputs, v': Vocabulary)
    requires Lawful(lib) && WellFormed(t) && CodesAreFolded(t, lib.fold) && CountriesAreUpper(v, lib)
    requires Build(lib, t, v, i).Ok?
    ensures var f := Build(lib, t, v, i).value;
            if StillCovered(v', f) then Edit(lib, t, v', f, NO_CHANGE) == Ok(f) else Edit(lib, t, v', f, NO_CHANGE).Err?
  {
    var f := Build(lib, t, v, i).value;
    BuiltHolds(lib, t, i);
    AcceptedIsSettled(lib, t, v, i);
    DeadlineRebuilt(lib, t, i, f);
    var j := Inputs(lib, f).value;
    CoveredAsStored(lib, t, i, f, v');
    ResolvedAgain(lib, t, i, f, j);
    OnlyCoverageMatters(t, v, v', Resolve(lib, t, i));
    forall key: Key | !key.Other? ensures Stored(lib, t, i, key) == Stored(lib, t, j, key) {
      StoredAgain(lib, t, i, f, j, key);
    }
    SameStoredSameBlob(lib, t, i, j);
    assert Merge(j, NO_CHANGE) == j;
  }

  lemma EmptyEditOfBuilt(lib: Library, t: Taxonomy, v: Vocabulary, i: CycleInputs, f: Blob, v': Vocabulary)
    requires Lawful(lib) && WellFormed(t) && CodesAreFolded(t, lib.fold) && CountriesAreUpper(v, lib)
    requires Build(lib, t, v, i) == Ok(f)
    ensures Edit(lib, t, v', f, NO_CHANGE).Ok? ==> Edit(lib, t, v', f, NO_CHANGE).value == f
  {
    EmptyEditIsIdentityIff(lib, t, v, i, v');
  }

  /** Rebuilding published facts from their stored form is the identity. */
  lemma RebuildIsIdentity(lib: Library, t: Taxonomy, v: Vocabulary, i: CycleInputs)
    requires Lawful(lib) && WellFormed(t) && CodesAreFolded(t, lib.fold) && CountriesAreUpper(v, lib)
    requires Build(lib, t, v, i).Ok?
    ensures var f := Build(lib, t, v, i).value;
            Inputs(lib, f).Ok? && Build(lib, t, v, Inputs(lib, f).value) == Ok(f)
  {
    var f := Build(lib, t, v, i).value;
    EmptyEditIsIdentityIff(lib, t, v, i, v);
    OnlyCoverageMatters(t, v, v, Resolve(lib, t, i));
    BuiltHolds(lib, t, i);
    CoveredAsStored(lib, t, i, f, v);
    DeadlineRebuilt(lib, t, i, f);
    assert Merge(Inputs(lib, f).value, NO_CHANGE) == Inputs(lib, f).value;
  }
}
