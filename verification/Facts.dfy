/** The stored `facts` of a cycle and their one sanitization pass (src/app/domain/facts.py). */
module Facts {
  import opened Wrappers
  import opened Words
  import opened Taxonomy
  import Status

  datatype Json =
    | Null
    | Bool(truth: bool)
    | Int(whole: int)
    | Float(number: real)
    | Str(text: string)
    | Arr(items: seq<Json>)
    | Obj(members: map<string, Json>)

  datatype Key =
    | Destinations | Levels | OriginModeKey | OriginsKey | FieldModeKey | FieldsKey | EvidenceFresh
    | EligibilityNote | ExpectedReopenMonth | FieldNames | ProgrammeNames | FundingTypeKey
    | DeadlineAt | DeadlinePrecision | DeadlineTimezone
    | Other(name: string)

  /** Nothing in the database enforces a shape: any key may hold anything. */
  type Blob = map<Key, Json>

  const KEYS: set<Key> := {
    Destinations, Levels, OriginModeKey, OriginsKey, FieldModeKey, FieldsKey, EvidenceFresh, EligibilityNote,
    ExpectedReopenMonth, FieldNames, ProgrammeNames, FundingTypeKey, DeadlineAt, DeadlinePrecision, DeadlineTimezone}

  /** Python's text functions: `strip`, `strip().lower()`, `strip().upper()`, `str`, `fromisoformat` with
      its `ValueError`, `isoformat`, and whether `ZoneInfo` knows a name. */
  datatype Library = Library(
    strip: string -> string,
    fold: Fold,
    upper: string -> string,
    show: Json -> string,
    parse: string -> Option<Status.DateTime>,
    iso: Status.DateTime -> string,
    zoneKnown: string -> bool)

  ghost predicate Lawful(lib: Library) {
    && (forall s {:trigger lib.strip(s)} :: lib.strip(lib.strip(s)) == lib.strip(s))
    && (forall s {:trigger lib.show(Str(s))} :: lib.show(Str(s)) == s)
    && (forall d {:trigger lib.iso(d)} :: lib.parse(lib.iso(d)) == Some(d) && lib.iso(d) != "")
  }

  // ----- Reading a blob -----

  /** `facts.get(key)`: a missing key and an explicit null read alike. */
  function Get(f: Blob, key: Key): Json {
    if key in f then f[key] else Null
  }

  function Strings(items: seq<Json>): seq<string> {
    if items == [] then []
    else (if items[0].Str? then [items[0].text] else []) + Strings(items[1..])
  }

  function StringList(j: Json): seq<string> {
    if j.Arr? then Strings(j.items) else []
  }

  lemma {:induction false} StringsAre(items: seq<Json>, s: string)
    ensures s in Strings(items) <==> Str(s) in items
  {
    if items != [] {
      StringsAre(items[1..], s);
      assert items == [items[0]] + items[1..];
    }
  }

  lemma ListedStrings(f: Blob, key: Key, s: string)
    ensures s in StringList(Get(f, key)) <==> key in f && f[key].Arr? && Str(s) in f[key].items
  {
    if Get(f, key).Arr? {
      StringsAre(Get(f, key).items, s);
    }
  }

  function Wrap(ss: seq<string>): Json {
    Arr(seq(|ss|, i requires 0 <= i < |ss| => Str(ss[i])))
  }

  lemma {:induction false} StringsOfWrapped(ss: seq<string>)
    ensures StringList(Wrap(ss)) == ss
  {
    if ss != [] {
      StringsOfWrapped(ss[1..]);
      assert Wrap(ss).items[1..] == Wrap(ss[1..]).items;
    }
  }

  function ShownSet(lib: Library, j: Json): set<string> {
    if j.Arr? then set v | v in j.items :: lib.show(v) else {}
  }

  lemma ShownOfWrapped(lib: Library, ss: seq<string>)
    requires Lawful(lib)
    ensures ShownSet(lib, Wrap(ss)) == Elements(ss)
  {
    var items := Wrap(ss).items;
    forall s | s in ss ensures s in ShownSet(lib, Wrap(ss)) {
      var i :| 0 <= i < |ss| && ss[i] == s;
      assert items[i] == Str(s) && items[i] in items && lib.show(items[i]) == s;
    }
  }

  // ----- Modes -----

  datatype Mode = Restricted | Open | Unknown

  function OriginModeText(m: Mode): Json {
    match m
    case Restricted => Str("restricted")
    case Open => Str("unrestricted")
    case Unknown => Str("unknown")
  }

  function FieldModeText(m: Mode): Json {
    match m
    case Restricted => Str("restricted")
    case Open => Str("all")
    case Unknown => Str("unknown")
  }

  /** Anything outside the three literals reads as unknown. */
  function OriginModeOf(j: Json): Mode {
    if j == OriginModeText(Restricted) then Restricted else if j == OriginModeText(Open) then Open else Unknown
  }

  function FieldModeOf(j: Json): Mode {
    if j == FieldModeText(Restricted) then Restricted else if j == FieldModeText(Open) then Open else Unknown
  }

  function PrecisionText(p: Status.Precision): Json {
    if p.DateOnly? then Str("date") else Str("datetime")
  }

  function PrecisionOf(j: Json): Status.Precision {
    if j == Str("date") then Status.DateOnly else Status.Instant
  }

  lemma TextsReadBack(m: Mode, p: Status.Precision)
    ensures OriginModeOf(OriginModeText(m)) == m && FieldModeOf(FieldModeText(m)) == m
    ensures PrecisionOf(PrecisionText(p)) == p
  {
    assert "restricted"[0] == 'r' && "unrestricted"[0] == 'u' && "unknown"[2] == 'k' && "unrestricted"[2] == 'r';
    assert "all"[0] == 'a' && |"date"| == 4 && |"datetime"| == 8;
  }

  // ----- Sanitizing -----

  datatype DerivedFacts = DerivedFacts(
    deadlineAt: Option<Status.DateTime>,
    precision: Status.Precision,
    timezone: Option<string>,
    levels: seq<string>,
    reopenMonth: Option<int>,
    fundingType: Option<string>,
    destinations: seq<string>,
    eligibilityNote: Option<string>,
    fieldNames: seq<string>,
    programmeNames: seq<string>,
    originMode: Mode,
    origins: seq<string>,
    fieldMode: Mode,
    fields: seq<string>,
    evidenceFresh: bool)

  function SafeDeadline(lib: Library, j: Json): Option<Status.DateTime> {
    if j.Str? && j.text != "" then lib.parse(j.text) else None
  }

  function SafeFunding(lib: Library, t: Taxonomy, j: Json): Option<string> {
    if !j.Str? then None
    else
      match FundingType(t, lib.fold, j.text)
      case Ok(code) => Some(code)
      case Err(_) => None
  }

  function SafeMonth(j: Json): Option<int> {
    if j.Int? && 1 <= j.whole <= 12 then Some(j.whole) else None
  }

  function Note(j: Json): Option<string> {
    if j.Str? && j.text != "" then Some(j.text) else None
  }

  function Text(j: Json): Option<string> {
    if j.Str? then Some(j.text) else None
  }

  function Derive(lib: Library, t: Taxonomy, f: Blob): DerivedFacts {
    var fields := Fields(t, lib.fold, StringList(Get(f, FieldsKey)));
    FieldsAreCodes(t, lib.fold, StringList(Get(f, FieldsKey)));
    DerivedFacts(
      SafeDeadline(lib, Get(f, DeadlineAt)),
      PrecisionOf(Get(f, DeadlinePrecision)),
      Text(Get(f, DeadlineTimezone)),
      Degrees(t, lib.fold, StringList(Get(f, Levels))),
      SafeMonth(Get(f, ExpectedReopenMonth)),
      SafeFunding(lib, t, Get(f, FundingTypeKey)),
      Sorted(ShownSet(lib, Get(f, Destinations))),
      Note(Get(f, EligibilityNote)),
      Labels(t, fields),
      StringList(Get(f, ProgrammeNames)),
      OriginModeOf(Get(f, OriginModeKey)),
      StringList(Get(f, OriginsKey)),
      FieldModeOf(Get(f, FieldModeKey)),
      fields,
      Get(f, EvidenceFresh) == Bool(true))
  }

  function Present(ss: seq<string>): Option<Json> {
    if ss == [] then None else Some(Wrap(ss))
  }

  function OptionalText(o: Option<string>): Option<Json> {
    if o.None? then None else Some(Str(o.value))
  }

  /** What the sanitized dictionary holds under a key, if it has the key at all. */
  function Shown(lib: Library, d: DerivedFacts, key: Key): Option<Json> {
    match key
    case Destinations => Some(Wrap(d.destinations))
    case Levels => Some(Wrap(d.levels))
    case OriginModeKey => Some(OriginModeText(d.originMode))
    case OriginsKey => Some(Wrap(d.origins))
    case FieldModeKey => Some(FieldModeText(d.fieldMode))
    case FieldsKey => Some(Wrap(d.fields))
    case EvidenceFresh => Some(Bool(d.evidenceFresh))
    case EligibilityNote => OptionalText(d.eligibilityNote)
    case ExpectedReopenMonth => if d.reopenMonth.None? then None else Some(Int(d.reopenMonth.value))
    case FieldNames => Present(d.fieldNames)
    case ProgrammeNames => Present(d.programmeNames)
    case FundingTypeKey => OptionalText(d.fundingType)
    case DeadlineAt => if d.deadlineAt.None? then None else Some(Str(lib.iso(d.deadlineAt.value)))
    case DeadlinePrecision => if d.deadlineAt.None? then None else Some(PrecisionText(d.precision))
    case DeadlineTimezone => if d.deadlineAt.None? then None else OptionalText(d.timezone)
    case Other(_) => None
  }

  function SanitizedDict(lib: Library, d: DerivedFacts): Blob {
    map key | key in KEYS && Shown(lib, d, key).Some? :: Shown(lib, d, key).value
  }

  /** The order in which the dictionary is filled. */
  function Step(key: Key): nat {
    match key
    case EligibilityNote | ExpectedReopenMonth => 1
    case FieldNames => 2
    case ProgrammeNames | FundingTypeKey => 3
    case DeadlineAt | DeadlinePrecision | DeadlineTimezone => 4
    case Other(_) => 5
    case _ => 0
  }

  /** The keys of the first steps hold what they should, the others are still missing. */
  ghost predicate Filled(lib: Library, d: DerivedFacts, result: Blob, steps: nat) {
    forall key :: if Step(key) < steps && Shown(lib, d, key).Some?
                  then key in result && result[key] == Shown(lib, d, key).value
                  else key !in result
  }

  method FillAlways(lib: Library, d: DerivedFacts) returns (result: Blob)
    ensures Filled(lib, d, result, 1)
  {
    result := map[
      Destinations := Wrap(d.destinations),
      Levels := Wrap(d.levels),
      OriginModeKey := OriginModeText(d.originMode),
      OriginsKey := Wrap(d.origins),
      FieldModeKey := FieldModeText(d.fieldMode),
      FieldsKey := Wrap(d.fields),
      EvidenceFresh := Bool(d.evidenceFresh)];
  }

  method FillText(lib: Library, d: DerivedFacts, start: Blob) returns (result: Blob)
    requires Filled(lib, d, start, 1)
    ensures Filled(lib, d, result, 2)
  {
    result := start;
    if d.eligibilityNote.Some? {
      result := result[EligibilityNote := Str(d.eligibilityNote.value)];
    }
    if d.reopenMonth.Some? {
      result := result[ExpectedReopenMonth := Int(d.reopenMonth.value)];
    }
  }

  method FillLabels(lib: Library, d: DerivedFacts, start: Blob) returns (result: Blob)
    requires Filled(lib, d, start, 2)
    ensures Filled(lib, d, result, 3)
  {
    result := start;
    if d.fieldNames != [] {
      result := result[FieldNames := Wrap(d.fieldNames)];
    }
  }

  method FillNames(lib: Library, d: DerivedFacts, start: Blob) returns (result: Blob)
    requires Filled(lib, d, start, 3)
    ensures Filled(lib, d, result, 4)
  {
    result := start;
    if d.programmeNames != [] {
      result := result[ProgrammeNames := Wrap(d.programmeNames)];
    }
    if d.fundingType.Some? {
      result := result[FundingTypeKey := Str(d.fundingType.value)];
    }
  }

  method FillDeadline(lib: Library, d: DerivedFacts, start: Blob) returns (result: Blob)
    requires Filled(lib, d, start, 4)
    ensures Filled(lib, d, result, 5)
  {
    result := start;
    if d.deadlineAt.Some? {
      result := result[DeadlineAt := Str(lib.iso(d.deadlineAt.value))];
      result := result[DeadlinePrecision := PrecisionText(d.precision)];
      if d.timezone.Some? {
        result := result[DeadlineTimezone := Str(d.timezone.value)];
      }
    }
  }

  /** The dictionary filled step by step, as the property does. */
  method FillSanitizedDict(lib: Library, d: DerivedFacts) returns (result: Blob)
    ensures result == SanitizedDict(lib, d)
  {
    result := FillAlways(lib, d);
    result := FillText(lib, d, result);
    result := FillLabels(lib, d, result);
    result := FillNames(lib, d, result);
    result := FillDeadline(lib, d, result);
    FilledIsAll(lib, d, result);
  }

  lemma FilledIsAll(lib: Library, d: DerivedFacts, result: Blob)
    requires Filled(lib, d, result, 5)
    ensures result == SanitizedDict(lib, d)
  {
  }

  function Sanitize(lib: Library, t: Taxonomy, f: Blob): Blob {
    SanitizedDict(lib, Derive(lib, t, f))
  }

  function ScheduleOf(d: DerivedFacts): Status.Schedule {
    Status.Schedule(d.deadlineAt, d.precision, d.timezone, d.reopenMonth)
  }

  /** The deadline and the reopening month, as they stand in the blob: a text that parses, with the zone
      beside it and read as an instant unless it says `date`; and a whole number that is a month. */
  lemma ScheduleMeans(lib: Library, t: Taxonomy, f: Blob)
    ensures var s := ScheduleOf(Derive(lib, t, f));
            && s.deadlineAt == (if DeadlineAt in f && f[DeadlineAt].Str? && f[DeadlineAt].text != ""
                                then lib.parse(f[DeadlineAt].text) else None)
            && (s.precision.DateOnly? <==> DeadlinePrecision in f && f[DeadlinePrecision] == Str("date"))
            && s.timezone == (if DeadlineTimezone in f && f[DeadlineTimezone].Str?
                              then Some(f[DeadlineTimezone].text) else None)
            && s.reopenMonth == (if ExpectedReopenMonth in f && f[ExpectedReopenMonth].Int?
                                    && f[ExpectedReopenMonth].whole >= 1 && f[ExpectedReopenMonth].whole <= 12
                                 then Some(f[ExpectedReopenMonth].whole) else None)
  {
  }

  // ----- Codes in a blob -----

  /** A string in the list stands for `code`: its folded text is an alias of it, or is the code and no
      alias. */
  predicate ListsCode(fold: Fold, codes: set<string>, aliases: map<string, string>, f: Blob, key: Key, code: string) {
    && key in f && f[key].Arr? && code in codes
    && exists x :: x in f[key].items && x.Str?
                   && if fold(x.text) in aliases then aliases[fold(x.text)] == code else fold(x.text) == code
  }

  lemma ListedDegrees(lib: Library, t: Taxonomy, f: Blob, code: string)
    ensures code in Elements(Degrees(t, lib.fold, StringList(Get(f, Levels))))
            <==> ListsCode(lib.fold, t.degrees, t.degreeAliases, f, Levels, code)
  {
    var ss := StringList(Get(f, Levels));
    if code in Elements(Degrees(t, lib.fold, ss)) {
      var s :| s in ss && Degree(t, lib.fold, s) == Ok(code);
      ListedStrings(f, Levels, s);
      assert Str(s) in f[Levels].items;
    }
    if ListsCode(lib.fold, t.degrees, t.degreeAliases, f, Levels, code) {
      var x :| x in f[Levels].items && x.Str?
               && if lib.fold(x.text) in t.degreeAliases then t.degreeAliases[lib.fold(x.text)] == code
                  else lib.fold(x.text) == code;
      ListedStrings(f, Levels, x.text);
      assert DegreeResolver(t, lib.fold)(x.text) == Ok(code);
    }
  }

  lemma ListedFields(lib: Library, t: Taxonomy, f: Blob, code: string)
    ensures code in Elements(Fields(t, lib.fold, StringList(Get(f, FieldsKey))))
            <==> ListsCode(lib.fold, t.fields.Keys, t.fieldAliases, f, FieldsKey, code)
  {
    var ss := StringList(Get(f, FieldsKey));
    if code in Elements(Fields(t, lib.fold, ss)) {
      var s :| s in ss && Field(t, lib.fold, s) == Ok(code);
      ListedStrings(f, FieldsKey, s);
      assert Str(s) in f[FieldsKey].items;
    }
    if ListsCode(lib.fold, t.fields.Keys, t.fieldAliases, f, FieldsKey, code) {
      var x :| x in f[FieldsKey].items && x.Str?
               && if lib.fold(x.text) in t.fieldAliases then t.fieldAliases[lib.fold(x.text)] == code
                  else lib.fold(x.text) == code;
      ListedStrings(f, FieldsKey, x.text);
      assert FieldResolver(t, lib.fold)(x.text) == Ok(code);
    }
  }

  // ----- Sanitizing twice -----

  /** What holds of sanitized values, wherever they come from. */
  ghost predicate Clean(lib: Library, t: Taxonomy, d: DerivedFacts) {
    && Degrees(t, lib.fold, d.levels) == d.levels
    && Fields(t, lib.fold, d.fields) == d.fields
    && (forall c :: c in d.fields ==> c in t.fields) && d.fieldNames == Labels(t, d.fields)
    && (d.fundingType.Some? ==> FundingType(t, lib.fold, d.fundingType.value) == Ok(d.fundingType.value))
    && Ascending(d.destinations)
    && (d.eligibilityNote.Some? ==> d.eligibilityNote.value != "")
    && (d.reopenMonth.Some? ==> 1 <= d.reopenMonth.value <= 12)
  }

  lemma DerivedIsClean(lib: Library, t: Taxonomy, f: Blob)
    requires WellFormed(t) && CodesAreFolded(t, lib.fold)
    ensures Clean(lib, t, Derive(lib, t, f))
  {
    NormalizeTwice(t, lib.fold, StringList(Get(f, FieldsKey)));
    NormalizeTwice(t, lib.fold, StringList(Get(f, Levels)));
    FieldsAreCodes(t, lib.fold, StringList(Get(f, FieldsKey)));
  }

  function OrNull(o: Option<Json>): Json {
    if o.Some? then o.value else Null
  }

  /** Reading `f` gives what `d` shows. */
  ghost predicate Shows(lib: Library, f: Blob, d: DerivedFacts) {
    forall key: Key :: !key.Other? ==> Get(f, key) == OrNull(Shown(lib, d, key))
  }

  lemma DictShows(lib: Library, d: DerivedFacts)
    ensures Shows(lib, SanitizedDict(lib, d), d)
  {
  }

  /** Without a deadline, its precision and zone are not shown. */
  function Visible(d: DerivedFacts): DerivedFacts {
    if d.deadlineAt.Some? then d else d.(precision := Status.Instant, timezone := None)
  }

  lemma CodesReadBack(lib: Library, t: Taxonomy, d: DerivedFacts, f: Blob)
    requires Shows(lib, f, d)
    ensures Degrees(t, lib.fold, StringList(Get(f, Levels))) == Degrees(t, lib.fold, d.levels)
    ensures Fields(t, lib.fold, StringList(Get(f, FieldsKey))) == Fields(t, lib.fold, d.fields)
  {
    assert Get(f, Levels) == Wrap(d.levels) && Get(f, FieldsKey) == Wrap(d.fields);
    StringsOfWrapped(d.levels);
    StringsOfWrapped(d.fields);
  }

  lemma ListsReadBack(lib: Library, d: DerivedFacts, f: Blob)
    requires Lawful(lib) && Ascending(d.destinations) && Shows(lib, f, d)
    ensures Sorted(ShownSet(lib, Get(f, Destinations))) == d.destinations
    ensures StringList(Get(f, OriginsKey)) == d.origins
    ensures StringList(Get(f, ProgrammeNames)) == d.programmeNames
  {
    assert Get(f, Destinations) == Wrap(d.destinations) && Get(f, OriginsKey) == Wrap(d.origins);
    assert Get(f, ProgrammeNames) == OrNull(Present(d.programmeNames));
    StringsOfWrapped(d.origins);
    StringsOfWrapped(d.programmeNames);
    ShownOfWrapped(lib, d.destinations);
    SortedAgain(d.destinations);
  }

  lemma ModesReadBack(lib: Library, d: DerivedFacts, f: Blob)
    requires Shows(lib, f, d)
    ensures OriginModeOf(Get(f, OriginModeKey)) == d.originMode
    ensures FieldModeOf(Get(f, FieldModeKey)) == d.fieldMode
    ensures (Get(f, EvidenceFresh) == Bool(true)) == d.evidenceFresh
  {
    TextsReadBack(d.originMode, d.precision);
    TextsReadBack(d.fieldMode, d.precision);
  }

  lemma OptionalsReadBack(lib: Library, t: Taxonomy, d: DerivedFacts, f: Blob)
    requires Shows(lib, f, d)
    ensures d.eligibilityNote != Some("") ==> Note(Get(f, EligibilityNote)) == d.eligibilityNote
    ensures (d.reopenMonth.Some? ==> 1 <= d.reopenMonth.value <= 12) ==>
              SafeMonth(Get(f, ExpectedReopenMonth)) == d.reopenMonth
    ensures (d.fundingType.Some? ==> FundingType(t, lib.fold, d.fundingType.value) == Ok(d.fundingType.value)) ==>
              SafeFunding(lib, t, Get(f, FundingTypeKey)) == d.fundingType
  {
  }

  lemma DeadlineReadsBack(lib: Library, d: DerivedFacts, f: Blob)
    requires Lawful(lib) && Shows(lib, f, d)
    ensures SafeDeadline(lib, Get(f, DeadlineAt)) == d.deadlineAt
    ensures PrecisionOf(Get(f, DeadlinePrecision)) == Visible(d).precision
    ensures Text(Get(f, DeadlineTimezone)) == Visible(d).timezone
  {
    TextsReadBack(d.originMode, d.precision);
  }

  /** Clean values survive being written and read: all but the details of a deadline that is not there. */
  lemma CleanReadsBack(lib: Library, t: Taxonomy, d: DerivedFacts, f: Blob)
    requires Lawful(lib) && Clean(lib, t, d) && Shows(lib, f, d)
    ensures Derive(lib, t, f) == Visible(d)
  {
    CodesReadBack(lib, t, d, f);
    ListsReadBack(lib, d, f);
    ModesReadBack(lib, d, f);
    OptionalsReadBack(lib, t, d, f);
    DeadlineReadsBack(lib, d, f);
  }

  lemma VisibleIsShown(lib: Library, d: DerivedFacts)
    ensures SanitizedDict(lib, Visible(d)) == SanitizedDict(lib, d)
  {
    forall key | key in KEYS ensures Shown(lib, Visible(d), key) == Shown(lib, d, key) {
    }
  }

  lemma SanitizedStays(lib: Library, t: Taxonomy, d: DerivedFacts)
    requires Lawful(lib) && Clean(lib, t, d)
    ensures Derive(lib, t, SanitizedDict(lib, d)) == Visible(d)
    ensures Sanitize(lib, t, SanitizedDict(lib, d)) == SanitizedDict(lib, d)
  {
    DictShows(lib, d);
    CleanReadsBack(lib, t, d, SanitizedDict(lib, d));
    VisibleIsShown(lib, d);
  }

  /** Sanitizing is idempotent on any stored facts whatever. */
  lemma SanitizeTwice(lib: Library, t: Taxonomy, f: Blob)
    requires Lawful(lib) && WellFormed(t) && CodesAreFolded(t, lib.fold)
    ensures Sanitize(lib, t, Sanitize(lib, t, f)) == Sanitize(lib, t, f)
  {
    DerivedIsClean(lib, t, f);
    SanitizedStays(lib, t, Derive(lib, t, f));
  }

  /** And the freshness jobs, which read the raw facts, see the same deadline as a reader of the
      sanitized ones. */
  lemma SanitizingKeepsSchedule(lib: Library, t: Taxonomy, f: Blob, cal: Status.Calendar)
    requires Lawful(lib) && WellFormed(t) && CodesAreFolded(t, lib.fold)
    ensures var raw := ScheduleOf(Derive(lib, t, f));
            var clean := ScheduleOf(Derive(lib, t, Sanitize(lib, t, f)));
            Status.Cutoff(raw, cal) == Status.Cutoff(clean, cal) && raw.reopenMonth == clean.reopenMonth
  {
    DerivedIsClean(lib, t, f);
    SanitizedStays(lib, t, Derive(lib, t, f));
  }
}
