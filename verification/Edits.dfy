/** What holds of every stored blob, whatever was published and edited, and what an edit leaves alone
    (src/app/domain/publication.py, src/app/api/routes.py). */
module Edits {
  import opened Wrappers
  import opened Words
  import opened Taxonomy
  import opened Facts
  import opened Publication
  import Status
  import Invariants

  /** A sorted, repetition-free list of strings out of `known`. */
  ghost predicate CodeList(j: Json, known: set<string>) {
    && j == Wrap(StringList(j)) && Ascending(StringList(j)) && All(StringList(j), known)
  }

  /** What matching relies on. */
  ghost predicate BlobOk(t: Taxonomy, v: Vocabulary, f: Blob) {
    && CodeList(Get(f, Destinations), v.destinations) && StringList(Get(f, Destinations)) != []
    && CodeList(Get(f, Levels), t.degrees) && StringList(Get(f, Levels)) != []
    && CodeList(Get(f, OriginsKey), v.names)
    && CodeList(Get(f, FieldsKey), t.fields.Keys)
    && (Get(f, OriginModeKey) == Str("restricted") ==> StringList(Get(f, OriginsKey)) != [])
    && (Get(f, FieldModeKey) == Str("restricted") ==> StringList(Get(f, FieldsKey)) != [])
    && (forall key :: key in f ==> key in KEYS)
  }

  lemma CodeListOf(codes: seq<string>, known: set<string>)
    requires Ascending(codes) && All(codes, known)
    ensures CodeList(Wrap(codes), known) && StringList(Wrap(codes)) == codes
  {
    StringsOfWrapped(codes);
  }

  lemma LevelsHeld(lib: Library, t: Taxonomy, i: CycleInputs, f: Blob)
    requires Holds(lib, t, i, f)
    ensures Get(f, Levels) == Wrap(DegreeCodes(lib, t, i.levels))
  {
    Read(lib, t, i, f, Levels);
  }

  lemma FieldsHeld(lib: Library, t: Taxonomy, i: CycleInputs, f: Blob)
    requires Holds(lib, t, i, f)
    ensures Get(f, FieldsKey) == Wrap(FieldCodes(lib, t, i.fields))
  {
    Read(lib, t, i, f, FieldsKey);
  }

  lemma DestinationsHeld(lib: Library, t: Taxonomy, i: CycleInputs, f: Blob)
    requires Holds(lib, t, i, f)
    ensures Get(f, Destinations) == Wrap(CountryCodes(lib, i.destinations))
  {
    Read(lib, t, i, f, Destinations);
  }

  lemma OriginsHeld(lib: Library, t: Taxonomy, i: CycleInputs, f: Blob)
    requires Holds(lib, t, i, f)
    ensures Get(f, OriginsKey) == Wrap(CountryCodes(lib, i.origins))
  {
    Read(lib, t, i, f, OriginsKey);
  }

  lemma ModesHeld(lib: Library, t: Taxonomy, i: CycleInputs, f: Blob)
    requires Holds(lib, t, i, f)
    ensures Get(f, OriginModeKey) == i.originMode && Get(f, FieldModeKey) == i.fieldMode
  {
    Read(lib, t, i, f, OriginModeKey);
    Read(lib, t, i, f, FieldModeKey);
  }

  lemma ListsAscend(lib: Library, t: Taxonomy, i: CycleInputs)
    ensures var r := Resolve(lib, t, i);
            Ascending(r.destinations) && Ascending(r.levels) && Ascending(r.origins) && Ascending(r.fields)
  {
  }

  lemma HeldIsOk(t: Taxonomy, v: Vocabulary, r: Resolved, f: Blob)
    requires Check(t, v, r).None? && forall key :: key in f ==> key in KEYS
    requires Get(f, Destinations) == Wrap(r.destinations) && Get(f, Levels) == Wrap(r.levels)
    requires Get(f, OriginsKey) == Wrap(r.origins) && Get(f, FieldsKey) == Wrap(r.fields)
    requires Get(f, OriginModeKey) == r.originMode && Get(f, FieldModeKey) == r.fieldMode
    requires Ascending(r.destinations) && Ascending(r.levels) && Ascending(r.origins) && Ascending(r.fields)
    ensures BlobOk(t, v, f)
  {
    CodeListOf(r.destinations, v.destinations);
    CodeListOf(r.levels, t.degrees);
    CodeListOf(r.origins, v.names);
    CodeListOf(r.fields, t.fields.Keys);
  }

  /** Whatever a publish or an edit stores has supported codes without repetition, and a non-empty list
      under each restricted mode. */
  lemma BuiltIsOk(lib: Library, t: Taxonomy, v: Vocabulary, i: CycleInputs)
    requires Refusal(lib, t, v, i).None?
    ensures BlobOk(t, v, Built(lib, t, i))
  {
    BuiltHolds(lib, t, i);
    LevelsHeld(lib, t, i, Built(lib, t, i));
    FieldsHeld(lib, t, i, Built(lib, t, i));
    DestinationsHeld(lib, t, i, Built(lib, t, i));
    OriginsHeld(lib, t, i, Built(lib, t, i));
    ModesHeld(lib, t, i, Built(lib, t, i));
    ListsAscend(lib, t, i);
    HeldIsOk(t, v, Resolve(lib, t, i), Built(lib, t, i));
  }

  // ----- Runs -----

  /** A stored blob and the vocabulary in force when it was written. */
  datatype Version = Version(blob: Blob, under: Vocabulary)

  /** A refused edit leaves the blob as it was. */
  function AfterEdit(lib: Library, t: Taxonomy, current: Version, v: Vocabulary, p: Patch): Version {
    match Edit(lib, t, v, current.blob, p)
    case Ok(g) => Version(g, v)
    case Err(_) => current
  }

  ghost predicate Accepted(lib: Library, t: Taxonomy, version: Version) {
    exists i :: Build(lib, t, version.under, i) == Ok(version.blob)
  }

  /** One edit request and the vocabulary it meets. */
  datatype Request = Request(vocabulary: Vocabulary, patch: Patch)

  /** One published blob and the edits sent to it. */
  ghost predicate EditRun(lib: Library, t: Taxonomy, requests: seq<Request>, versions: seq<Version>) {
    && Invariants.Steps((s: Version, r: Request) => AfterEdit(lib, t, s, r.vocabulary, r.patch), versions, requests)
    && Good(lib, t, versions[0])
    && forall r :: r in requests ==> CountriesAreUpper(r.vocabulary, lib)
  }

  ghost predicate Good(lib: Library, t: Taxonomy, version: Version) {
    Accepted(lib, t, version) && CountriesAreUpper(version.under, lib)
  }

  lemma EditAccepts(lib: Library, t: Taxonomy, current: Version, v: Vocabulary, p: Patch)
    requires Good(lib, t, current) && CountriesAreUpper(v, lib)
    ensures Good(lib, t, AfterEdit(lib, t, current, v, p))
  {
    if Edit(lib, t, v, current.blob, p).Ok? {
      var i := Merge(Inputs(lib, current.blob).value, p);
      assert Build(lib, t, v, i) == Edit(lib, t, v, current.blob, p);
    }
  }

  lemma AcceptedIsOk(lib: Library, t: Taxonomy, version: Version)
    requires Accepted(lib, t, version)
    ensures BlobOk(t, version.under, version.blob)
  {
    var i :| Build(lib, t, version.under, i) == Ok(version.blob);
    BuiltIsOk(lib, t, version.under, i);
  }

  lemma AfterEditIs(lib: Library, t: Taxonomy, current: Version, v: Vocabulary, p: Patch, edited: Result<Blob>)
    requires edited == Edit(lib, t, v, current.blob, p)
    ensures AfterEdit(lib, t, current, v, p).blob == if edited.Ok? then edited.value else current.blob
  {
  }

  lemma BuiltStays(lib: Library, t: Taxonomy, version: Version, v: Vocabulary, i: CycleInputs)
    requires Lawful(lib) && WellFormed(t) && CodesAreFolded(t, lib.fold) && CountriesAreUpper(version.under, lib)
    requires Build(lib, t, version.under, i) == Ok(version.blob)
    ensures AfterEdit(lib, t, version, v, NO_CHANGE).blob == version.blob
  {
    EmptyEditOfBuilt(lib, t, version.under, i, version.blob, v);
    AfterEditIs(lib, t, version, v, NO_CHANGE, Edit(lib, t, v, version.blob, NO_CHANGE));
  }

  lemma AcceptedStays(lib: Library, t: Taxonomy, version: Version, v: Vocabulary)
    requires Lawful(lib) && WellFormed(t) && CodesAreFolded(t, lib.fold) && CountriesAreUpper(version.under, lib)
    requires Accepted(lib, t, version)
    ensures AfterEdit(lib, t, version, v, NO_CHANGE).blob == version.blob
  {
    var i :| Build(lib, t, version.under, i) == Ok(version.blob);
    BuiltStays(lib, t, version, v, i);
  }

  lemma EveryVersionIsGood(lib: Library, t: Taxonomy, requests: seq<Request>, versions: seq<Version>, k: nat)
    requires EditRun(lib, t, requests, versions) && k < |versions|
    ensures Good(lib, t, versions[k])
  {
    forall s, r | r in requests && Good(lib, t, s) ensures Good(lib, t, AfterEdit(lib, t, s, r.vocabulary, r.patch)) {
      EditAccepts(lib, t, s, r.vocabulary, r.patch);
    }
    Invariants.Holds((s: Version, r: Request) => AfterEdit(lib, t, s, r.vocabulary, r.patch),
                     (s: Version) => Good(lib, t, s), versions, requests, 0, k);
  }

  /** Whatever the edits, the stored blob meets the publishing rules of the vocabulary it was written under,
      and a further empty edit under any vocabulary changes nothing. */
  lemma EveryVersionIsOk(
      lib: Library, t: Taxonomy, requests: seq<Request>, versions: seq<Version>, k: nat, v: Vocabulary)
    requires Lawful(lib) && WellFormed(t) && CodesAreFolded(t, lib.fold)
    requires EditRun(lib, t, requests, versions) && k < |versions|
    ensures BlobOk(t, versions[k].under, versions[k].blob)
    ensures AfterEdit(lib, t, versions[k], v, NO_CHANGE).blob == versions[k].blob
  {
    EveryVersionIsGood(lib, t, requests, versions, k);
    AcceptedIsOk(lib, t, versions[k]);
    AcceptedStays(lib, t, versions[k], v);
  }

  // ----- What an edit leaves alone -----

  /** The patch sends nothing that this key is computed from. */
  predicate Untouched(p: Patch, key: Key) {
    match key
    case Destinations => p.destinations.None?
    case Levels => p.levels.None?
    case OriginModeKey => p.originMode.None?
    case OriginsKey => p.origins.None?
    case FieldModeKey => p.fieldMode.None?
    case FieldsKey | FieldNames => p.fields.None?
    case EvidenceFresh => p.evidenceFresh.None?
    case EligibilityNote => p.eligibilityNote.None?
    case ExpectedReopenMonth => p.expectedReopenMonth.None?
    case ProgrammeNames => p.programmeNames.None?
    case FundingTypeKey => p.fundingType.None?
    case DeadlineAt => p.deadlineAt.None?
    case DeadlinePrecision => p.deadlineAt.None? && p.deadlinePrecision.None?
    case DeadlineTimezone => p.deadlineAt.None? && p.deadlineTimezone.None?
    case Other(_) => false
  }

  lemma MergeLeaves(lib: Library, t: Taxonomy, j: CycleInputs, p: Patch, key: Key)
    requires Untouched(p, key)
    ensures Stored(lib, t, Merge(j, p), key) == Stored(lib, t, j, key)
  {
  }

  /** An edit of published facts that is accepted changes no key it does not mention. */
  lemma EditKeepsTheRest(lib: Library, t: Taxonomy, v: Vocabulary, i: CycleInputs, v': Vocabulary, p: Patch, key: Key)
    requires Lawful(lib) && WellFormed(t) && CodesAreFolded(t, lib.fold) && CountriesAreUpper(v, lib)
    requires Build(lib, t, v, i).Ok? && Untouched(p, key)
    requires Edit(lib, t, v', Build(lib, t, v, i).value, p).Ok?
    ensures var f := Build(lib, t, v, i).value; var g := Edit(lib, t, v', f, p).value;
            (key in f <==> key in g) && Get(f, key) == Get(g, key)
  {
    var f := Build(lib, t, v, i).value;
    var j := Inputs(lib, f).value;
    BuiltHolds(lib, t, i);
    AcceptedIsSettled(lib, t, v, i);
    StoredAgain(lib, t, i, f, j, key);
    MergeLeaves(lib, t, j, p, key);
    BuiltHolds(lib, t, Merge(j, p));
    Read(lib, t, i, f, key);
    Read(lib, t, Merge(j, p), Built(lib, t, Merge(j, p)), key);
  }

  // ----- Blobs that were not built -----

  lemma ScheduleAfterEdit(lib: Library, t: Taxonomy, f: Blob, j: CycleInputs, g: Blob)
    requires Lawful(lib) && Inputs(lib, f) == Ok(j) && Holds(lib, t, j, g)
    ensures SafeDeadline(lib, Get(g, DeadlineAt)) == SafeDeadline(lib, Get(f, DeadlineAt))
    ensures SafeDeadline(lib, Get(f, DeadlineAt)).Some? ==>
              && Get(g, DeadlinePrecision) == GetOr(f, DeadlinePrecision, Str("date"))
              && Get(g, DeadlineTimezone) == Get(f, DeadlineTimezone)
    ensures Get(g, ExpectedReopenMonth) == Get(f, ExpectedReopenMonth)
  {
    Read(lib, t, j, g, DeadlineAt);
    Read(lib, t, j, g, DeadlinePrecision);
    Read(lib, t, j, g, DeadlineTimezone);
    Read(lib, t, j, g, ExpectedReopenMonth);
  }

  lemma EmptyEdit(lib: Library, t: Taxonomy, v: Vocabulary, f: Blob) returns (j: CycleInputs)
    requires Edit(lib, t, v, f, NO_CHANGE).Ok?
    ensures Inputs(lib, f) == Ok(j) && Holds(lib, t, j, Edit(lib, t, v, f, NO_CHANGE).value)
  {
    j := Inputs(lib, f).value;
    assert Merge(j, NO_CHANGE) == j;
    BuiltHolds(lib, t, j);
  }

  /** A blob from before the precision was stored reads as a precise instant, but any edit, even an empty
      one, turns it into a calendar date: the deadline moves exactly when the key is missing. */
  lemma EmptyEditKeepsScheduleIff(lib: Library, t: Taxonomy, v: Vocabulary, f: Blob, g: Blob)
    requires Lawful(lib)
    requires Edit(lib, t, v, f, NO_CHANGE) == Ok(g) && SafeDeadline(lib, Get(f, DeadlineAt)).Some?
    ensures ScheduleOf(Derive(lib, t, g)) == ScheduleOf(Derive(lib, t, f)) <==> DeadlinePrecision in f
  {
    var j := EmptyEdit(lib, t, v, f);
    ScheduleAfterEdit(lib, t, f, j, g);
  }

  lemma FreshnessAfterEdit(lib: Library, t: Taxonomy, f: Blob, j: CycleInputs, g: Blob)
    requires Inputs(lib, f) == Ok(j) && Holds(lib, t, j, g)
    ensures Get(g, EvidenceFresh) == Bool(Truthy(Get(f, EvidenceFresh)))
  {
    Read(lib, t, j, g, EvidenceFresh);
  }

  lemma FreshReading(lib: Library, t: Taxonomy, f: Blob)
    ensures Derive(lib, t, f).evidenceFresh == (Get(f, EvidenceFresh) == Bool(true))
  {
  }

  /** And evidence marked fresh by something other than `true` counts as stale until an edit, which makes
      it fresh. */
  lemma EmptyEditKeepsFreshnessIff(lib: Library, t: Taxonomy, v: Vocabulary, f: Blob, g: Blob)
    requires Edit(lib, t, v, f, NO_CHANGE) == Ok(g)
    ensures var raw := Get(f, EvidenceFresh);
            Derive(lib, t, g).evidenceFresh == Derive(lib, t, f).evidenceFresh <==> raw.Bool? || !Truthy(raw)
  {
    var j := EmptyEdit(lib, t, v, f);
    FreshnessAfterEdit(lib, t, f, j, g);
    FreshReading(lib, t, f);
    FreshReading(lib, t, g);
  }
}
