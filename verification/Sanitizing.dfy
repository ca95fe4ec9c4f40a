/** What sanitizing shows of arbitrary stored facts, key by key (src/app/domain/facts.py). */
module Sanitizing {
  import opened Wrappers
  import opened Words
  import opened Taxonomy
  import opened Facts
  import Status

  /** The texts that satisfy `has`, each once, in ascending order. */
  ghost predicate IsSortedList(j: Json, has: string -> bool) {
    exists ss: seq<string> :: Ascending(ss) && j == Wrap(ss) && HasExactly(ss, has)
  }

  ghost predicate HasExactly(ss: seq<string>, has: string -> bool) {
    forall w :: w in ss <==> has(w)
  }

  predicate ListsShownAs(lib: Library, f: Blob, key: Key, w: string) {
    key in f && f[key].Arr? && exists x :: x in f[key].items && lib.show(x) == w
  }

  predicate ListsString(f: Blob, key: Key, w: string) {
    key in f && f[key].Arr? && Str(w) in f[key].items
  }

  /** Destinations in whatever form they are listed, levels and fields as the codes they stand for. */
  ghost predicate CodesShown(lib: Library, t: Taxonomy, f: Blob, s: Blob) {
    && Destinations in s && IsSortedList(s[Destinations], (w: string) => ListsShownAs(lib, f, Destinations, w))
    && Levels in s
    && IsSortedList(s[Levels], (c: string) => ListsCode(lib.fold, t.degrees, t.degreeAliases, f, Levels, c))
    && FieldsKey in s
    && IsSortedList(s[FieldsKey], (c: string) => ListsCode(lib.fold, t.fields.Keys, t.fieldAliases, f, FieldsKey, c))
  }

  /** The strings of a list in their order; other items are dropped. */
  ghost predicate IsStringsOf(j: Json, f: Blob, key: Key) {
    exists ss: seq<string> ::
      && j == Wrap(ss) && HasExactly(ss, (w: string) => ListsString(f, key, w))
      && forall given: seq<string> :: key in f && f[key] == Wrap(given) ==> given == ss
  }

  /** Origins always, programme names only if there is any. */
  ghost predicate StringsShown(f: Blob, s: Blob) {
    && OriginsKey in s && IsStringsOf(s[OriginsKey], f, OriginsKey)
    && (ProgrammeNames in s <==> exists w :: ListsString(f, ProgrammeNames, w))
    && (ProgrammeNames in s ==> IsStringsOf(s[ProgrammeNames], f, ProgrammeNames))
  }

  predicate LabelOfListed(lib: Library, t: Taxonomy, f: Blob, text: string) {
    exists c :: c in t.fields && t.fields[c] == text
                && ListsCode(lib.fold, t.fields.Keys, t.fieldAliases, f, FieldsKey, c)
  }

  /** The labels of the fields it lists, if it lists any. */
  ghost predicate LabelsShown(lib: Library, t: Taxonomy, f: Blob, s: Blob) {
    && (FieldNames in s <==> exists c :: ListsCode(lib.fold, t.fields.Keys, t.fieldAliases, f, FieldsKey, c))
    && (FieldNames in s ==> IsSortedList(s[FieldNames], (w: string) => LabelOfListed(lib, t, f, w)))
  }

  /** A mode outside its three literals is unknown, freshness is only a stored `true`. */
  predicate ModesShown(f: Blob, s: Blob) {
    && ModeShown(f, s, OriginModeKey, {Str("restricted"), Str("unrestricted")})
    && ModeShown(f, s, FieldModeKey, {Str("restricted"), Str("all")})
    && EvidenceFresh in s && s[EvidenceFresh] == Bool(EvidenceFresh in f && f[EvidenceFresh] == Bool(true))
  }

  predicate ModeShown(f: Blob, s: Blob, key: Key, known: set<Json>) {
    key in s && s[key] == if key in f && f[key] in known then f[key] else Str("unknown")
  }

  /** A note that is a text and not empty, a whole number that is a month, a funding type that is known. */
  predicate OptionsShown(lib: Library, t: Taxonomy, f: Blob, s: Blob) {
    NoteShown(f, s) && MonthShown(f, s) && FundingShown(lib, t, f, s)
  }

  predicate NoteShown(f: Blob, s: Blob) {
    && (EligibilityNote in s <==> EligibilityNote in f && f[EligibilityNote].Str? && f[EligibilityNote] != Str(""))
    && (EligibilityNote in s ==> s[EligibilityNote] == f[EligibilityNote])
  }

  predicate MonthShown(f: Blob, s: Blob) {
    && (ExpectedReopenMonth in s <==>
          ExpectedReopenMonth in f && f[ExpectedReopenMonth].Int? && 1 <= f[ExpectedReopenMonth].whole <= 12)
    && (ExpectedReopenMonth in s ==> s[ExpectedReopenMonth] == f[ExpectedReopenMonth])
  }

  predicate FundingShown(lib: Library, t: Taxonomy, f: Blob, s: Blob) {
    && (FundingTypeKey in s <==>
          FundingTypeKey in f && f[FundingTypeKey].Str? && lib.fold(f[FundingTypeKey].text) in t.fundingTypes)
    && (FundingTypeKey in s ==> s[FundingTypeKey] == Str(lib.fold(f[FundingTypeKey].text)))
  }

  /** A deadline that parses, with a precision, an instant unless it says `date`, and a zone that is a text. */
  predicate DeadlineShown(lib: Library, f: Blob, s: Blob) {
    TimeShown(lib, f, s) && PrecisionShown(f, s) && ZoneShown(f, s)
  }

  predicate TimeShown(lib: Library, f: Blob, s: Blob) {
    && (DeadlineAt in s <==>
          DeadlineAt in f && f[DeadlineAt].Str? && f[DeadlineAt] != Str("") && lib.parse(f[DeadlineAt].text).Some?)
    && (DeadlineAt in s ==> s[DeadlineAt] == Str(lib.iso(lib.parse(f[DeadlineAt].text).value)))
  }

  predicate PrecisionShown(f: Blob, s: Blob) {
    && (DeadlinePrecision in s <==> DeadlineAt in s)
    && (DeadlinePrecision in s ==>
          s[DeadlinePrecision] == if DeadlinePrecision in f && f[DeadlinePrecision] == Str("date") then Str("date")
                                  else Str("datetime"))
  }

  predicate ZoneShown(f: Blob, s: Blob) {
    && (DeadlineTimezone in s <==> DeadlineAt in s && DeadlineTimezone in f && f[DeadlineTimezone].Str?)
    && (DeadlineTimezone in s ==> s[DeadlineTimezone] == f[DeadlineTimezone])
  }

  lemma ListShown(ss: seq<string>, has: string -> bool)
    requires Ascending(ss) && HasExactly(ss, has)
    ensures IsSortedList(Wrap(ss), has)
  {
  }

  lemma DestinationsAre(lib: Library, f: Blob)
    ensures HasExactly(Sorted(ShownSet(lib, Get(f, Destinations))),
                       (w: string) => ListsShownAs(lib, f, Destinations, w))
  {
    var ss := Sorted(ShownSet(lib, Get(f, Destinations)));
    forall w ensures w in ss <==> ListsShownAs(lib, f, Destinations, w) {
      assert w in ss <==> w in Elements(ss);
    }
  }

  lemma LevelsAre(lib: Library, t: Taxonomy, f: Blob)
    ensures HasExactly(Degrees(t, lib.fold, StringList(Get(f, Levels))),
                       (c: string) => ListsCode(lib.fold, t.degrees, t.degreeAliases, f, Levels, c))
  {
    var ss := Degrees(t, lib.fold, StringList(Get(f, Levels)));
    forall c ensures c in ss <==> ListsCode(lib.fold, t.degrees, t.degreeAliases, f, Levels, c) {
      ListedDegrees(lib, t, f, c);
      assert c in ss <==> c in Elements(ss);
    }
  }

  lemma FieldsAre(lib: Library, t: Taxonomy, f: Blob)
    ensures HasExactly(Fields(t, lib.fold, StringList(Get(f, FieldsKey))),
                       (c: string) => ListsCode(lib.fold, t.fields.Keys, t.fieldAliases, f, FieldsKey, c))
  {
    var ss := Fields(t, lib.fold, StringList(Get(f, FieldsKey)));
    forall c ensures c in ss <==> ListsCode(lib.fold, t.fields.Keys, t.fieldAliases, f, FieldsKey, c) {
      ListedFields(lib, t, f, c);
      assert c in ss <==> c in Elements(ss);
    }
  }

  lemma StringsAreThose(f: Blob, key: Key)
    ensures IsStringsOf(Wrap(StringList(Get(f, key))), f, key)
    ensures StringList(Get(f, key)) != [] <==> exists w :: ListsString(f, key, w)
  {
    var ss := StringList(Get(f, key));
    forall w ensures w in ss <==> ListsString(f, key, w) {
      ListedStrings(f, key, w);
    }
    forall given: seq<string> | key in f && f[key] == Wrap(given) ensures given == ss {
      StringsOfWrapped(given);
    }
    assert HasExactly(ss, (w: string) => ListsString(f, key, w));
    assert ss != [] ==> ss[0] in ss;
  }

  lemma LabelsAre(lib: Library, t: Taxonomy, f: Blob, codes: seq<string>)
    requires codes == Fields(t, lib.fold, StringList(Get(f, FieldsKey))) && forall c :: c in codes ==> c in t.fields
    ensures HasExactly(Labels(t, codes), (w: string) => LabelOfListed(lib, t, f, w))
    ensures Labels(t, codes) != [] <==> exists c :: ListsCode(lib.fold, t.fields.Keys, t.fieldAliases, f, FieldsKey, c)
  {
    FieldsAre(lib, t, f);
    var ss := Labels(t, codes);
    forall w ensures w in ss <==> LabelOfListed(lib, t, f, w) {
      assert w in ss <==> w in Elements(ss);
    }
    if codes != [] {
      assert codes[0] in codes && t.fields[codes[0]] in Elements(ss);
    }
    assert forall c :: c in codes <==> ListsCode(lib.fold, t.fields.Keys, t.fieldAliases, f, FieldsKey, c);
    assert ss != [] ==> ss[0] in Elements(ss);
  }

  /** One value of the sanitized facts. */
  lemma ShownUnder(lib: Library, d: DerivedFacts, key: Key)
    requires !key.Other?
    ensures var s := SanitizedDict(lib, d);
            if Shown(lib, d, key).Some? then key in s && s[key] == Shown(lib, d, key).value else key !in s
  {
  }

  lemma CodesAreShown(lib: Library, t: Taxonomy, f: Blob)
    ensures CodesShown(lib, t, f, Sanitize(lib, t, f))
  {
    var d := Derive(lib, t, f);
    DestinationsAre(lib, f);
    LevelsAre(lib, t, f);
    FieldsAre(lib, t, f);
    ListShown(d.destinations, (w: string) => ListsShownAs(lib, f, Destinations, w));
    ListShown(d.levels, (c: string) => ListsCode(lib.fold, t.degrees, t.degreeAliases, f, Levels, c));
    ListShown(d.fields, (c: string) => ListsCode(lib.fold, t.fields.Keys, t.fieldAliases, f, FieldsKey, c));
    ShownUnder(lib, d, Destinations);
    ShownUnder(lib, d, Levels);
    ShownUnder(lib, d, FieldsKey);
  }

  lemma StringsAreShown(lib: Library, t: Taxonomy, f: Blob)
    ensures StringsShown(f, Sanitize(lib, t, f))
  {
    StringsAreThose(f, OriginsKey);
    StringsAreThose(f, ProgrammeNames);
    ShownUnder(lib, Derive(lib, t, f), OriginsKey);
    ShownUnder(lib, Derive(lib, t, f), ProgrammeNames);
  }

  lemma LabelsAreShown(lib: Library, t: Taxonomy, f: Blob)
    ensures LabelsShown(lib, t, f, Sanitize(lib, t, f))
  {
    var d := Derive(lib, t, f);
    FieldsAreCodes(t, lib.fold, StringList(Get(f, FieldsKey)));
    LabelsAre(lib, t, f, d.fields);
    ListShown(d.fieldNames, (w: string) => LabelOfListed(lib, t, f, w));
    ShownUnder(lib, d, FieldNames);
  }

  lemma OriginModeIsShown(lib: Library, t: Taxonomy, f: Blob, s: Blob)
    requires s == Sanitize(lib, t, f)
    ensures ModeShown(f, s, OriginModeKey, {Str("restricted"), Str("unrestricted")})
  {
    ShownUnder(lib, Derive(lib, t, f), OriginModeKey);
  }

  lemma FieldModeIsShown(lib: Library, t: Taxonomy, f: Blob, s: Blob)
    requires s == Sanitize(lib, t, f)
    ensures ModeShown(f, s, FieldModeKey, {Str("restricted"), Str("all")})
  {
    ShownUnder(lib, Derive(lib, t, f), FieldModeKey);
  }

  lemma ModesAreShown(lib: Library, t: Taxonomy, f: Blob)
    ensures ModesShown(f, Sanitize(lib, t, f))
  {
    OriginModeIsShown(lib, t, f, Sanitize(lib, t, f));
    FieldModeIsShown(lib, t, f, Sanitize(lib, t, f));
    ShownUnder(lib, Derive(lib, t, f), EvidenceFresh);
  }

  lemma NoteIsShown(lib: Library, t: Taxonomy, f: Blob, s: Blob)
    requires s == Sanitize(lib, t, f)
    ensures NoteShown(f, s)
  {
    ShownUnder(lib, Derive(lib, t, f), EligibilityNote);
  }

  lemma MonthIsShown(lib: Library, t: Taxonomy, f: Blob, s: Blob)
    requires s == Sanitize(lib, t, f)
    ensures MonthShown(f, s)
  {
    ShownUnder(lib, Derive(lib, t, f), ExpectedReopenMonth);
  }

  lemma FundingIsShown(lib: Library, t: Taxonomy, f: Blob, s: Blob)
    requires s == Sanitize(lib, t, f)
    ensures FundingShown(lib, t, f, s)
  {
    ShownUnder(lib, Derive(lib, t, f), FundingTypeKey);
  }

  lemma OptionsAreShown(lib: Library, t: Taxonomy, f: Blob)
    ensures OptionsShown(lib, t, f, Sanitize(lib, t, f))
  {
    NoteIsShown(lib, t, f, Sanitize(lib, t, f));
    MonthIsShown(lib, t, f, Sanitize(lib, t, f));
    FundingIsShown(lib, t, f, Sanitize(lib, t, f));
  }

  lemma TimeIsShown(lib: Library, t: Taxonomy, f: Blob, s: Blob)
    requires s == Sanitize(lib, t, f)
    ensures TimeShown(lib, f, s) && (DeadlineAt in s <==> SafeDeadline(lib, Get(f, DeadlineAt)).Some?)
  {
    ShownUnder(lib, Derive(lib, t, f), DeadlineAt);
  }

  lemma PrecisionIsShown(lib: Library, t: Taxonomy, f: Blob, s: Blob)
    requires s == Sanitize(lib, t, f) && (DeadlineAt in s <==> SafeDeadline(lib, Get(f, DeadlineAt)).Some?)
    ensures PrecisionShown(f, s)
  {
    ShownUnder(lib, Derive(lib, t, f), DeadlinePrecision);
  }

  lemma ZoneIsShown(lib: Library, t: Taxonomy, f: Blob, s: Blob)
    requires s == Sanitize(lib, t, f) && (DeadlineAt in s <==> SafeDeadline(lib, Get(f, DeadlineAt)).Some?)
    ensures ZoneShown(f, s)
  {
    ShownUnder(lib, Derive(lib, t, f), DeadlineTimezone);
  }

  lemma DeadlineIsShown(lib: Library, t: Taxonomy, f: Blob)
    ensures DeadlineShown(lib, f, Sanitize(lib, t, f))
  {
    TimeIsShown(lib, t, f, Sanitize(lib, t, f));
    PrecisionIsShown(lib, t, f, Sanitize(lib, t, f));
    ZoneIsShown(lib, t, f, Sanitize(lib, t, f));
  }

  lemma NothingElseIsShown(lib: Library, t: Taxonomy, f: Blob)
    ensures forall name :: Other(name) !in Sanitize(lib, t, f)
  {
  }

  ghost predicate ShowsAllOf(lib: Library, t: Taxonomy, f: Blob, s: Blob) {
    && CodesShown(lib, t, f, s) && StringsShown(f, s) && LabelsShown(lib, t, f, s)
    && ModesShown(f, s) && OptionsShown(lib, t, f, s) && DeadlineShown(lib, f, s)
    && forall name :: Other(name) !in s
  }

  /** All of what sanitizing shows; nothing else is kept, whatever else is stored. */
  lemma SanitizedMeans(lib: Library, t: Taxonomy, f: Blob)
    ensures ShowsAllOf(lib, t, f, Sanitize(lib, t, f))
  {
    var s := Sanitize(lib, t, f);
    assert CodesShown(lib, t, f, s) by { CodesAreShown(lib, t, f); }
    assert StringsShown(f, s) by { StringsAreShown(lib, t, f); }
    assert LabelsShown(lib, t, f, s) by { LabelsAreShown(lib, t, f); }
    assert ModesShown(f, s) by { ModesAreShown(lib, t, f); }
    assert OptionsShown(lib, t, f, s) by { OptionsAreShown(lib, t, f); }
    assert DeadlineShown(lib, f, s) by { DeadlineIsShown(lib, t, f); }
    NothingElseIsShown(lib, t, f);
  }
}
