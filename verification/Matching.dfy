/** The hard gates and the score (src/app/domain/matching.py), and what sanitizing the facts does to them
    for one and the same profile. */
module Matching {
  import opened Wrappers
  import opened Words
  import opened Taxonomy
  import opened Facts
  import opened Publication
  import Display
  import Edits

  /** No `fields` means no preference. */
  datatype Profile = Profile(origin: string, targets: set<string>, levels: set<string>, fields: Option<set<string>>)

  datatype Fit = Confirmed | Possible

  datatype Reason = FieldCompatible | OriginEligible | FreshVerifiedEvidence

  datatype Decision = Decision(fit: Fit, score: nat, reasons: seq<Reason>, needsChecking: bool)

  function FoldAll(fold: Fold, values: set<string>): set<string> {
    set v | v in values :: fold(v)
  }

  /** `_normalised_set` for the free-text lists. */
  function FoldedItems(lib: Library, j: Json): set<string> {
    FoldAll(lib.fold, ShownSet(lib, j))
  }

  function OrUnknown(j: Json): Json {
    if Truthy(j) then j else Str("unknown")
  }

  /** What the matcher reads from a blob. */
  datatype View = View(
    destinations: set<string>, levels: set<string>, originMode: Json, origins: set<string>,
    fieldMode: Json, fields: set<string>, freshEvidence: bool)

  function ViewOf(lib: Library, t: Taxonomy, f: Blob): View {
    View(
      FoldedItems(lib, Get(f, Destinations)),
      Elements(Degrees(t, lib.fold, StringList(Get(f, Levels)))),
      OrUnknown(Get(f, OriginModeKey)),
      FoldedItems(lib, Get(f, OriginsKey)),
      OrUnknown(Get(f, FieldModeKey)),
      Elements(Fields(t, lib.fold, StringList(Get(f, FieldsKey)))),
      Truthy(Get(f, EvidenceFresh)))
  }

  predicate AcceptsField(fold: Fold, p: Profile, v: View) {
    p.fields.Some? && !(v.fields !! FoldAll(fold, p.fields.value))
  }

  /** The four hard gates. */
  predicate Admits(fold: Fold, p: Profile, v: View) {
    && !(v.destinations !! FoldAll(fold, p.targets))
    && !(FoldAll(fold, p.levels) !! v.levels)
    && (v.originMode == Str("restricted") ==> fold(p.origin) in v.origins)
    && (v.fieldMode == Str("restricted") && p.fields.Some? ==> AcceptsField(fold, p, v))
  }

  predicate FieldFits(fold: Fold, p: Profile, v: View) {
    v.fieldMode == Str("all") || AcceptsField(fold, p, v)
  }

  predicate OriginFits(fold: Fold, p: Profile, v: View) {
    v.originMode == Str("unrestricted") || fold(p.origin) in v.origins
  }

  predicate NeedsChecking(v: View) {
    v.originMode == Str("unknown") || v.fieldMode == Str("unknown")
  }

  function Decide(fold: Fold, p: Profile, v: View): Decision {
    Decision(
      if NeedsChecking(v) then Possible else Confirmed,
      (if FieldFits(fold, p, v) then 25 else 0)
      + (if OriginFits(fold, p, v) then 15 else 0)
      + (if v.freshEvidence then 10 else 0),
      (if FieldFits(fold, p, v) then [FieldCompatible] else [])
      + (if OriginFits(fold, p, v) then [OriginEligible] else [])
      + (if v.freshEvidence then [FreshVerifiedEvidence] else []),
      NeedsChecking(v))
  }

  function Match(lib: Library, t: Taxonomy, p: Profile, f: Blob): Option<Decision> {
    var v := ViewOf(lib, t, f);
    if Admits(lib.fold, p, v) then Some(Decide(lib.fold, p, v)) else None
  }

  // ----- What a match means -----

  /** A list value of the blob reads, folded, as `w`; the values need not be strings. */
  predicate Lists(lib: Library, f: Blob, key: Key, w: string) {
    key in f && f[key].Arr? && exists x :: x in f[key].items && lib.fold(lib.show(x)) == w
  }

  /** The blob leaves the mode open: missing, null or anything else Python calls false, or `unknown`. */
  predicate ModeOpen(f: Blob, key: Key) {
    key !in f || !Truthy(f[key]) || f[key] == Str("unknown")
  }

  predicate ModeIs(f: Blob, key: Key, mode: string) {
    key in f && f[key] == Str(mode)
  }

  /** One of the searcher's fields is among those of the blob. */
  predicate SharesField(lib: Library, t: Taxonomy, p: Profile, f: Blob) {
    p.fields.Some? && exists field ::
      field in p.fields.value && ListsCode(lib.fold, t.fields.Keys, t.fieldAliases, f, FieldsKey, lib.fold(field))
  }

  lemma ListedFolds(lib: Library, f: Blob, key: Key, w: string)
    ensures w in FoldedItems(lib, Get(f, key)) <==> Lists(lib, f, key, w)
  {
    if Lists(lib, f, key, w) {
      var x :| x in f[key].items && lib.fold(lib.show(x)) == w;
      assert lib.show(x) in ShownSet(lib, Get(f, key));
    }
  }

  /** What the view holds, value by value of the blob. */
  ghost predicate ListsMeant(lib: Library, t: Taxonomy, f: Blob, v: View) {
    && (forall w :: w in v.destinations <==> Lists(lib, f, Destinations, w))
    && (forall c :: c in v.levels <==> ListsCode(lib.fold, t.degrees, t.degreeAliases, f, Levels, c))
    && (forall w :: w in v.origins <==> Lists(lib, f, OriginsKey, w))
    && (forall c :: c in v.fields <==> ListsCode(lib.fold, t.fields.Keys, t.fieldAliases, f, FieldsKey, c))
  }

  ghost predicate ModesMeant(f: Blob, v: View) {
    && (v.originMode == Str("unknown") <==> ModeOpen(f, OriginModeKey))
    && (v.fieldMode == Str("unknown") <==> ModeOpen(f, FieldModeKey))
    && (v.originMode == Str("restricted") <==> ModeIs(f, OriginModeKey, "restricted"))
    && (v.fieldMode == Str("restricted") <==> ModeIs(f, FieldModeKey, "restricted"))
    && (v.originMode == Str("unrestricted") <==> ModeIs(f, OriginModeKey, "unrestricted"))
    && (v.fieldMode == Str("all") <==> ModeIs(f, FieldModeKey, "all"))
    && (v.freshEvidence <==> EvidenceFresh in f && Truthy(f[EvidenceFresh]))
  }

  ghost predicate ViewMeans(lib: Library, t: Taxonomy, f: Blob, v: View) {
    ListsMeant(lib, t, f, v) && ModesMeant(f, v)
  }

  lemma ListsMean(lib: Library, t: Taxonomy, f: Blob)
    ensures ListsMeant(lib, t, f, ViewOf(lib, t, f))
  {
    var v := ViewOf(lib, t, f);
    forall w ensures w in v.destinations <==> Lists(lib, f, Destinations, w) {
      ListedFolds(lib, f, Destinations, w);
    }
    forall w ensures w in v.origins <==> Lists(lib, f, OriginsKey, w) {
      ListedFolds(lib, f, OriginsKey, w);
    }
    forall c ensures c in v.levels <==> ListsCode(lib.fold, t.degrees, t.degreeAliases, f, Levels, c) {
      ListedDegrees(lib, t, f, c);
    }
    forall c ensures c in v.fields <==> ListsCode(lib.fold, t.fields.Keys, t.fieldAliases, f, FieldsKey, c) {
      ListedFields(lib, t, f, c);
    }
  }

  lemma ModeMeans(j: Json)
    ensures OrUnknown(j) == Str("unknown") <==> !Truthy(j) || j == Str("unknown")
    ensures OrUnknown(j) == Str("restricted") <==> j == Str("restricted")
    ensures OrUnknown(j) == Str("unrestricted") <==> j == Str("unrestricted")
    ensures OrUnknown(j) == Str("all") <==> j == Str("all")
  {
    assert |"all"| == 3 && |"unknown"| == 7 && |"restricted"| == 10 && |"unrestricted"| == 12;
  }

  lemma ModesMean(lib: Library, t: Taxonomy, f: Blob)
    ensures ModesMeant(f, ViewOf(lib, t, f))
  {
    ModeMeans(Get(f, OriginModeKey));
    ModeMeans(Get(f, FieldModeKey));
  }

  lemma ViewIsMeant(lib: Library, t: Taxonomy, f: Blob)
    ensures ViewMeans(lib, t, f, ViewOf(lib, t, f))
  {
    ListsMean(lib, t, f);
    ModesMean(lib, t, f);
  }

  /** The four gates on the blob itself: a listed destination is a target, a listed level is a wanted one, a
      restricted award lists the origin, and a restricted list of fields has one that is preferred. */
  predicate Suits(lib: Library, t: Taxonomy, p: Profile, f: Blob) {
    && (exists target :: target in p.targets && Lists(lib, f, Destinations, lib.fold(target)))
    && (exists level :: level in p.levels
                        && ListsCode(lib.fold, t.degrees, t.degreeAliases, f, Levels, lib.fold(level)))
    && (ModeIs(f, OriginModeKey, "restricted") ==> Lists(lib, f, OriginsKey, lib.fold(p.origin)))
    && (ModeIs(f, FieldModeKey, "restricted") && p.fields.Some? ==> SharesField(lib, t, p, f))
  }

  /** What a decision says, on the blob itself. */
  predicate Tells(lib: Library, t: Taxonomy, p: Profile, f: Blob, d: Decision) {
    var field := ModeIs(f, FieldModeKey, "all") || SharesField(lib, t, p, f);
    var origin := ModeIs(f, OriginModeKey, "unrestricted") || Lists(lib, f, OriginsKey, lib.fold(p.origin));
    var recent := EvidenceFresh in f && Truthy(f[EvidenceFresh]);
    && (d.fit.Possible? <==> ModeOpen(f, OriginModeKey) || ModeOpen(f, FieldModeKey))
    && (d.needsChecking <==> d.fit.Possible?)
    && d.score == (if field then 25 else 0) + (if origin then 15 else 0) + (if recent then 10 else 0)
    && d.reasons == (if field then [FieldCompatible] else []) + (if origin then [OriginEligible] else [])
                    + (if recent then [FreshVerifiedEvidence] else [])
  }

  lemma Meets(a: set<string>, fold: Fold, wanted: set<string>)
    ensures !(a !! FoldAll(fold, wanted)) <==> exists w :: w in wanted && fold(w) in a
  {
    if !(a !! FoldAll(fold, wanted)) {
      var x :| x in a && x in FoldAll(fold, wanted);
      var w :| w in wanted && fold(w) == x;
    }
    if w :| w in wanted && fold(w) in a {
      assert fold(w) in FoldAll(fold, wanted);
    }
  }

  lemma GatesMean(lib: Library, t: Taxonomy, p: Profile, f: Blob, v: View)
    requires ViewMeans(lib, t, f, v)
    ensures Admits(lib.fold, p, v) <==> Suits(lib, t, p, f)
    ensures AcceptsField(lib.fold, p, v) <==> SharesField(lib, t, p, f)
  {
    Meets(v.destinations, lib.fold, p.targets);
    Meets(v.levels, lib.fold, p.levels);
    if p.fields.Some? {
      Meets(v.fields, lib.fold, p.fields.value);
    }
  }

  /** A decision exists exactly when the blob suits the profile, and says what the blob says. */
  lemma MatchMeans(lib: Library, t: Taxonomy, p: Profile, f: Blob)
    ensures Match(lib, t, p, f).Some? <==> Suits(lib, t, p, f)
    ensures Match(lib, t, p, f).Some? ==> Tells(lib, t, p, f, Match(lib, t, p, f).value)
  {
    ViewIsMeant(lib, t, f);
    GatesMean(lib, t, p, f, ViewOf(lib, t, f));
  }

  /** Point by point. */
  method Score(fold: Fold, p: Profile, v: View) returns (score: nat, reasons: seq<Reason>)
    ensures score == Decide(fold, p, v).score && reasons == Decide(fold, p, v).reasons
  {
    score, reasons := 0, [];
    if v.fieldMode == Str("all") || AcceptsField(fold, p, v) {
      score := score + 25;
      reasons := reasons + [FieldCompatible];
    }
    assert FieldFits(fold, p, v) <==> score == 25;
    if v.originMode == Str("unrestricted") || fold(p.origin) in v.origins {
      score := score + 15;
      reasons := reasons + [OriginEligible];
    }
    if v.freshEvidence {
      score := score + 10;
      reasons := reasons + [FreshVerifiedEvidence];
    }
  }

  /** Gate by gate, then the score. */
  method EvaluateMatch(lib: Library, t: Taxonomy, p: Profile, f: Blob) returns (decision: Option<Decision>)
    ensures decision == Match(lib, t, p, f)
    ensures decision.Some? <==> Suits(lib, t, p, f)
    ensures decision.Some? ==> Tells(lib, t, p, f, decision.value)
  {
    MatchMeans(lib, t, p, f);
    var fold := lib.fold;
    var v := ViewOf(lib, t, f);
    if v.destinations !! FoldAll(fold, p.targets) {
      return None;
    }
    if FoldAll(fold, p.levels) !! v.levels {
      return None;
    }
    if v.originMode == Str("restricted") && fold(p.origin) !in v.origins {
      return None;
    }
    if v.fieldMode == Str("restricted") && p.fields.Some? && v.fields !! FoldAll(fold, p.fields.value) {
      return None;
    }
    var possible := v.originMode == Str("unknown") || v.fieldMode == Str("unknown");
    var score, reasons := Score(fold, p, v);
    return Some(Decision(if possible then Possible else Confirmed, score, reasons, possible));
  }

  function Weight(r: Reason): nat {
    match r
    case FieldCompatible => 25
    case OriginEligible => 15
    case FreshVerifiedEvidence => 10
  }

  function Sum(reasons: seq<Reason>): nat {
    if reasons == [] then 0 else Weight(reasons[0]) + Sum(reasons[1..])
  }

  /** The score is what the listed reasons are worth, and no reason is listed twice. */
  lemma ScoreIsTheReasons(fold: Fold, p: Profile, v: View)
    ensures var d := Decide(fold, p, v);
            d.score == Sum(d.reasons) && forall i, j :: 0 <= i < j < |d.reasons| ==> d.reasons[i] != d.reasons[j]
  {
    var d := Decide(fold, p, v);
    var third := if v.freshEvidence then [FreshVerifiedEvidence] else [];
    var second := (if OriginFits(fold, p, v) then [OriginEligible] else []) + third;
    assert Sum(third) == if v.freshEvidence then 10 else 0;
    assert OriginFits(fold, p, v) ==> second[1..] == third;
    assert d.reasons == (if FieldFits(fold, p, v) then [FieldCompatible] else []) + second;
    assert FieldFits(fold, p, v) ==> d.reasons[1..] == second;
  }

  // ----- Raw against sanitized -----

  predicate LiteralOriginMode(m: Json) {
    m == OriginModeText(OriginModeOf(m))
  }

  predicate LiteralFieldMode(m: Json) {
    m == FieldModeText(FieldModeOf(m))
  }

  function StringsOnly(lib: Library, j: Json): set<string> {
    FoldAll(lib.fold, Elements(StringList(j)))
  }

  lemma {:induction false} StringsAreShown(lib: Library, items: seq<Json>, s: string)
    requires Lawful(lib)
    requires s in Strings(items)
    ensures Str(s) in items
  {
    if items[0] != Str(s) {
      StringsAreShown(lib, items[1..], s);
    }
  }

  lemma {:induction false} ShownStrings(items: seq<Json>, i: nat)
    requires i < |items| && items[i].Str?
    ensures items[i].text in Strings(items)
  {
    if i > 0 {
      ShownStrings(items[1..], i - 1);
    }
  }

  /** Dropping what is not a string can only shrink the folded set, and keeps it if everything is one. */
  lemma StringsOnlyShrinks(lib: Library, j: Json)
    requires Lawful(lib)
    ensures StringsOnly(lib, j) <= FoldedItems(lib, j)
    ensures (j.Arr? ==> forall x :: x in j.items ==> x.Str?) ==> StringsOnly(lib, j) == FoldedItems(lib, j)
  {
    forall s | s in Elements(StringList(j)) ensures s in ShownSet(lib, j) {
      StringsAreShown(lib, j.items, s);
      assert lib.show(Str(s)) == s;
    }
    if j.Arr? && forall x :: x in j.items ==> x.Str? {
      forall s | s in ShownSet(lib, j) ensures s in Elements(StringList(j)) {
        var x :| x in j.items && lib.show(x) == s;
        var i :| 0 <= i < |j.items| && j.items[i] == x;
        ShownStrings(j.items, i);
        assert lib.show(Str(x.text)) == x.text;
      }
    }
  }

  lemma WrappedFolds(lib: Library, ss: seq<string>)
    requires Lawful(lib)
    ensures FoldedItems(lib, Wrap(ss)) == FoldAll(lib.fold, Elements(ss))
  {
    ShownOfWrapped(lib, ss);
  }

  /** What sanitizing does to the matcher's view. */
  ghost predicate SanitizedView(lib: Library, f: Blob, raw: View, clean: View) {
    && clean.destinations == raw.destinations && clean.levels == raw.levels && clean.fields == raw.fields
    && clean.originMode == OriginModeText(OriginModeOf(raw.originMode))
    && clean.fieldMode == FieldModeText(FieldModeOf(raw.fieldMode))
    && clean.origins == StringsOnly(lib, Get(f, OriginsKey))
    && clean.freshEvidence == (Get(f, EvidenceFresh) == Bool(true))
  }

  lemma ModesRead(j: Json, m: Mode)
    ensures OriginModeOf(OrUnknown(j)) == OriginModeOf(j) && FieldModeOf(OrUnknown(j)) == FieldModeOf(j)
    ensures OrUnknown(OriginModeText(m)) == OriginModeText(m) && OrUnknown(FieldModeText(m)) == FieldModeText(m)
  {
    TextsReadBack(m, PrecisionOf(j));
    TextsReadBack(Unknown, PrecisionOf(j));
  }

  lemma CodesSeen(lib: Library, t: Taxonomy, f: Blob)
    requires Lawful(lib) && WellFormed(t) && CodesAreFolded(t, lib.fold)
    ensures var raw := ViewOf(lib, t, f); var clean := ViewOf(lib, t, Sanitize(lib, t, f));
            clean.levels == raw.levels && clean.fields == raw.fields
  {
    var d := Derive(lib, t, f);
    DictShows(lib, d);
    CodesReadBack(lib, t, d, SanitizedDict(lib, d));
    NormalizeTwice(t, lib.fold, StringList(Get(f, Levels)));
    NormalizeTwice(t, lib.fold, StringList(Get(f, FieldsKey)));
  }

  lemma PlacesSeen(lib: Library, t: Taxonomy, f: Blob)
    requires Lawful(lib)
    ensures var raw := ViewOf(lib, t, f); var clean := ViewOf(lib, t, Sanitize(lib, t, f));
            clean.destinations == raw.destinations && clean.origins == StringsOnly(lib, Get(f, OriginsKey))
  {
    var d := Derive(lib, t, f);
    var s := SanitizedDict(lib, d);
    DictShows(lib, d);
    assert Get(s, Destinations) == Wrap(d.destinations) && Get(s, OriginsKey) == Wrap(d.origins);
    WrappedFolds(lib, d.destinations);
    WrappedFolds(lib, d.origins);
  }

  lemma ModesShown(lib: Library, d: DerivedFacts, s: Blob)
    requires Shows(lib, s, d)
    ensures OrUnknown(Get(s, OriginModeKey)) == OriginModeText(d.originMode)
    ensures OrUnknown(Get(s, FieldModeKey)) == FieldModeText(d.fieldMode)
    ensures Truthy(Get(s, EvidenceFresh)) == d.evidenceFresh
  {
    ModesRead(Null, d.originMode);
    ModesRead(Null, d.fieldMode);
    assert Get(s, EvidenceFresh) == Bool(d.evidenceFresh);
  }

  lemma ModesSeen(lib: Library, t: Taxonomy, f: Blob)
    ensures var d := Derive(lib, t, f); var clean := ViewOf(lib, t, Sanitize(lib, t, f));
            && clean.originMode == OriginModeText(d.originMode)
            && clean.fieldMode == FieldModeText(d.fieldMode)
            && clean.freshEvidence == d.evidenceFresh
  {
    var d := Derive(lib, t, f);
    DictShows(lib, d);
    ModesShown(lib, d, SanitizedDict(lib, d));
  }

  lemma SanitizingSeen(lib: Library, t: Taxonomy, f: Blob)
    requires Lawful(lib) && WellFormed(t) && CodesAreFolded(t, lib.fold)
    ensures SanitizedView(lib, f, ViewOf(lib, t, f), ViewOf(lib, t, Sanitize(lib, t, f)))
  {
    CodesSeen(lib, t, f);
    PlacesSeen(lib, t, f);
    ModesSeen(lib, t, f);
    ModesRead(Get(f, OriginModeKey), Unknown);
    ModesRead(Get(f, FieldModeKey), Unknown);
  }

  lemma SameGates(lib: Library, f: Blob, p: Profile, raw: View, clean: View)
    requires SanitizedView(lib, f, raw, clean) && clean.origins <= raw.origins
    ensures Admits(lib.fold, p, clean) <==>
            Admits(lib.fold, p, raw) && (raw.originMode == Str("restricted") ==> lib.fold(p.origin) in clean.origins)
  {
    TextsReadBack(OriginModeOf(raw.originMode), PrecisionOf(Null));
    TextsReadBack(FieldModeOf(raw.fieldMode), PrecisionOf(Null));
  }

  /** Exactly when a match on the raw facts survives sanitizing: a restricted award must name the origin as
      a string. Sanitizing never creates a match. */
  lemma MatchSurvivesIff(lib: Library, t: Taxonomy, p: Profile, f: Blob)
    requires Lawful(lib) && WellFormed(t) && CodesAreFolded(t, lib.fold)
    ensures Match(lib, t, p, Sanitize(lib, t, f)).Some? <==>
            Match(lib, t, p, f).Some?
            && (OrUnknown(Get(f, OriginModeKey)) == Str("restricted") ==>
                  lib.fold(p.origin) in StringsOnly(lib, Get(f, OriginsKey)))
  {
    SanitizingSeen(lib, t, f);
    StringsOnlyShrinks(lib, Get(f, OriginsKey));
    SameGates(lib, f, p, ViewOf(lib, t, f), ViewOf(lib, t, Sanitize(lib, t, f)));
  }

  predicate StringOrigins(f: Blob) {
    Get(f, OriginsKey).Arr? ==> forall x :: x in Get(f, OriginsKey).items ==> x.Str?
  }

  /** With string origins, raw and sanitized facts give one profile the same answer: match or no match. */
  lemma StringOriginsAgree(lib: Library, t: Taxonomy, p: Profile, f: Blob)
    requires Lawful(lib) && WellFormed(t) && CodesAreFolded(t, lib.fold) && StringOrigins(f)
    ensures Match(lib, t, p, Sanitize(lib, t, f)).Some? <==> Match(lib, t, p, f).Some?
  {
    MatchSurvivesIff(lib, t, p, f);
    StringsOnlyShrinks(lib, Get(f, OriginsKey));
  }

  /** Fresh evidence is `true` itself, or nothing that Python calls true. */
  predicate PlainFreshness(f: Blob) {
    Get(f, EvidenceFresh).Bool? || !Truthy(Get(f, EvidenceFresh))
  }

  lemma CompareDecisions(lib: Library, f: Blob, p: Profile, raw: View, clean: View)
    requires SanitizedView(lib, f, raw, clean) && clean.origins <= raw.origins
    requires raw.freshEvidence == Truthy(Get(f, EvidenceFresh))
    ensures var a := Decide(lib.fold, p, raw); var b := Decide(lib.fold, p, clean);
            && (a.fit.Possible? ==> b.fit.Possible?)
            && (a.fit == b.fit <==>
                  a.fit.Possible? || (LiteralOriginMode(raw.originMode) && LiteralFieldMode(raw.fieldMode)))
            && b.score <= a.score
            && (clean.origins == raw.origins ==> a.score - b.score == if PlainFreshness(f) then 0 else 10)
            && (clean.origins == raw.origins && a.score == b.score ==> a.reasons == b.reasons)
  {
    TextsReadBack(OriginModeOf(raw.originMode), PrecisionOf(Null));
    TextsReadBack(FieldModeOf(raw.fieldMode), PrecisionOf(Null));
  }

  /** Where both match: sanitizing only moves the fit from confirmed to possible, exactly when a mode is
      outside its literals, and only takes away points, exactly ten when the evidence is marked fresh by
      something other than `true`. */
  lemma SanitizingOnlyWeakens(lib: Library, t: Taxonomy, p: Profile, f: Blob)
    requires Lawful(lib) && WellFormed(t) && CodesAreFolded(t, lib.fold)
    requires Match(lib, t, p, Sanitize(lib, t, f)).Some?
    ensures var a := Match(lib, t, p, f); var b := Match(lib, t, p, Sanitize(lib, t, f)).value;
            && a.Some? && b.score <= a.value.score
            && (a.value.fit.Possible? ==> b.fit.Possible?)
            && (a.value.fit == b.fit <==>
                  a.value.fit.Possible?
                  || (LiteralOriginMode(OrUnknown(Get(f, OriginModeKey)))
                      && LiteralFieldMode(OrUnknown(Get(f, FieldModeKey)))))
            && (StringOrigins(f) ==> a.value.score - b.score == if PlainFreshness(f) then 0 else 10)
  {
    MatchSurvivesIff(lib, t, p, f);
    SanitizingSeen(lib, t, f);
    StringsOnlyShrinks(lib, Get(f, OriginsKey));
    CompareDecisions(lib, f, p, ViewOf(lib, t, f), ViewOf(lib, t, Sanitize(lib, t, f)));
  }

  lemma DecisionsAgree(lib: Library, t: Taxonomy, p: Profile, f: Blob)
    requires Lawful(lib) && WellFormed(t) && CodesAreFolded(t, lib.fold) && StringOrigins(f) && PlainFreshness(f)
    requires LiteralOriginMode(OrUnknown(Get(f, OriginModeKey))) && LiteralFieldMode(OrUnknown(Get(f, FieldModeKey)))
    ensures Match(lib, t, p, Sanitize(lib, t, f)) == Match(lib, t, p, f)
  {
    StringOriginsAgree(lib, t, p, f);
    SanitizingSeen(lib, t, f);
    StringsOnlyShrinks(lib, Get(f, OriginsKey));
    CompareDecisions(lib, f, p, ViewOf(lib, t, f), ViewOf(lib, t, Sanitize(lib, t, f)));
  }

  lemma BuiltIsPlain(lib: Library, t: Taxonomy, i: CycleInputs, f: Blob)
    requires Holds(lib, t, i, f) && Display.Typed(i, OriginModeKey) && Display.Typed(i, FieldModeKey)
    ensures StringOrigins(f) && PlainFreshness(f)
    ensures LiteralOriginMode(OrUnknown(Get(f, OriginModeKey))) && LiteralFieldMode(OrUnknown(Get(f, FieldModeKey)))
  {
    Read(lib, t, i, f, OriginsKey);
    Read(lib, t, i, f, OriginModeKey);
    Read(lib, t, i, f, FieldModeKey);
    Read(lib, t, i, f, EvidenceFresh);
    ModesRead(Null, OriginModeOf(i.originMode));
    ModesRead(Null, FieldModeOf(i.fieldMode));
  }

  /** For published facts under the API's own modes, raw and sanitized facts give one profile the same whole
      decision, whatever the profile. */
  lemma PublishedDecisionsAgree(lib: Library, t: Taxonomy, v: Vocabulary, i: CycleInputs, p: Profile)
    requires Lawful(lib) && WellFormed(t) && CodesAreFolded(t, lib.fold)
    requires Build(lib, t, v, i).Ok? && Display.Typed(i, OriginModeKey) && Display.Typed(i, FieldModeKey)
    ensures var f := Build(lib, t, v, i).value; Match(lib, t, p, Sanitize(lib, t, f)) == Match(lib, t, p, f)
  {
    BuiltHolds(lib, t, i);
    BuiltIsPlain(lib, t, i, Built(lib, t, i));
    DecisionsAgree(lib, t, p, Built(lib, t, i));
  }
}
