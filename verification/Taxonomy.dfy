/** The controlled vocabulary: codes, aliases and labels (src/app/domain/taxonomy.py). */
module Taxonomy {
  import opened Wrappers
  import opened Words

  datatype Taxonomy = Taxonomy(
    degrees: set<string>,
    fields: map<string, string>,   // code -> label
    fieldAliases: map<string, string>,
    degreeAliases: map<string, string>,
    awardTypes: set<string>,
    fundingTypes: set<string>)

  /** `value.strip().lower()`. */
  type Fold = string -> string

  function DegreeCode(t: Taxonomy, fold: Fold, value: string): string {
    if fold(value) in t.degreeAliases then t.degreeAliases[fold(value)] else fold(value)
  }

  function Degree(t: Taxonomy, fold: Fold, value: string): Result<string> {
    var code := DegreeCode(t, fold, value);
    if code in t.degrees then Ok(code) else Err("Unsupported degree level")
  }

  function FieldCode(t: Taxonomy, fold: Fold, value: string): string {
    if fold(value) in t.fieldAliases then t.fieldAliases[fold(value)] else fold(value)
  }

  function Field(t: Taxonomy, fold: Fold, value: string): Result<string> {
    var code := FieldCode(t, fold, value);
    if code in t.fields then Ok(code) else Err("Unsupported field")
  }

  function FundingType(t: Taxonomy, fold: Fold, value: string): Result<string> {
    if fold(value) in t.fundingTypes then Ok(fold(value)) else Err("Unsupported funding type")
  }

  // ----- Normalizing a list -----

  type Resolver = string -> Result<string>

  function Canonical(resolve: Resolver, values: seq<string>): set<string> {
    set v | v in values && resolve(v).Ok? :: resolve(v).value
  }

  function Unmapped(resolve: Resolver, values: seq<string>): set<string> {
    set v | v in values && resolve(v).Err?
  }

  /** Sorted canonical codes, and the sorted values nobody recognises. */
  method NormalizeCodes(values: seq<string>, resolve: Resolver) returns (codes: seq<string>, rest: seq<string>)
    ensures codes == Sorted(Canonical(resolve, values))
    ensures rest == Sorted(Unmapped(resolve, values))
  {
    var canonical: set<string>, unmapped: set<string> := {}, {};
    var i := 0;
    while i < |values|
      invariant 0 <= i <= |values|
      invariant canonical == Canonical(resolve, values[..i])
      invariant unmapped == Unmapped(resolve, values[..i])
    {
      var value := values[i];
      assert values[..i + 1] == values[..i] + [value];
      var code := resolve(value);
      if code.Ok? {
        canonical := canonical + {code.value};
      } else {
        unmapped := unmapped + {value};
      }
      i := i + 1;
    }
    assert values[..i] == values;
    codes, rest := Sorted(canonical), Sorted(unmapped);
  }

  function FieldResolver(t: Taxonomy, fold: Fold): Resolver {
    value => Field(t, fold, value)
  }

  function DegreeResolver(t: Taxonomy, fold: Fold): Resolver {
    value => Degree(t, fold, value)
  }

  /** `normalize_fields` and `normalize_degrees`, their canonical half. */
  function Fields(t: Taxonomy, fold: Fold, values: seq<string>): seq<string> {
    Sorted(Canonical(FieldResolver(t, fold), values))
  }

  function Degrees(t: Taxonomy, fold: Fold, values: seq<string>): seq<string> {
    Sorted(Canonical(DegreeResolver(t, fold), values))
  }

  /** `sorted({fields[code] for code in codes})`. */
  function Labels(t: Taxonomy, codes: seq<string>): seq<string>
    requires forall c :: c in codes ==> c in t.fields
  {
    Sorted(set c | c in codes :: t.fields[c])
  }

  // ----- What the tables must satisfy -----

  /** No code is an alias of something else or an empty funding type, and sorting codes sorts their labels. */
  ghost predicate WellFormed(t: Taxonomy) {
    && t.degrees !! t.degreeAliases.Keys
    && t.fields.Keys !! t.fieldAliases.Keys
    && "" !in t.fundingTypes
    && forall c, d :: c in t.fields && d in t.fields && Less(c, d) ==> Less(t.fields[c], t.fields[d])
  }

  /** Codes are lower case without surrounding blanks. */
  ghost predicate CodesAreFolded(t: Taxonomy, fold: Fold) {
    forall c :: c in t.degrees || c in t.fields || c in t.fundingTypes ==> fold(c) == c
  }

  lemma CanonicalOfCodes(resolve: Resolver, codes: seq<string>)
    requires forall c :: c in codes ==> resolve(c) == Ok(c)
    ensures Canonical(resolve, codes) == Elements(codes)
  {
  }

  lemma CanonicalResolves(resolve: Resolver, values: seq<string>, codes: set<string>)
    requires forall v :: v in values && resolve(v).Ok? ==> resolve(v).value in codes
    requires forall c :: c in codes ==> resolve(c) == Ok(c)
    ensures forall c :: c in Sorted(Canonical(resolve, values)) ==> resolve(c) == Ok(c)
    ensures Sorted(Canonical(resolve, Sorted(Canonical(resolve, values)))) == Sorted(Canonical(resolve, values))
  {
    var sorted := Sorted(Canonical(resolve, values));
    forall c | c in sorted ensures resolve(c) == Ok(c) {
      assert c in Elements(sorted);
    }
    CanonicalOfCodes(resolve, sorted);
  }

  /** Normalizing twice is normalizing once. */
  lemma NormalizeTwice(t: Taxonomy, fold: Fold, values: seq<string>)
    requires WellFormed(t) && CodesAreFolded(t, fold)
    ensures Fields(t, fold, Fields(t, fold, values)) == Fields(t, fold, values)
    ensures Degrees(t, fold, Degrees(t, fold, values)) == Degrees(t, fold, values)
  {
    CanonicalResolves(FieldResolver(t, fold), values, t.fields.Keys);
    CanonicalResolves(DegreeResolver(t, fold), values, t.degrees);
  }

  lemma FieldsAreCodes(t: Taxonomy, fold: Fold, values: seq<string>)
    ensures forall c :: c in Fields(t, fold, values) ==> c in t.fields
    ensures forall c :: c in Degrees(t, fold, values) ==> c in t.degrees
  {
    forall c | c in Fields(t, fold, values) ensures c in t.fields {
      assert c in Elements(Fields(t, fold, values));
    }
    forall c | c in Degrees(t, fold, values) ensures c in t.degrees {
      assert c in Elements(Degrees(t, fold, values));
    }
  }

  /** The labels of ascending codes, taken one by one, are already the sorted label set. */
  lemma LabelsInCodeOrder(t: Taxonomy, codes: seq<string>)
    requires WellFormed(t) && Ascending(codes) && forall c :: c in codes ==> c in t.fields
    ensures Labels(t, codes) == seq(|codes|, i requires 0 <= i < |codes| => t.fields[codes[i]])
  {
    var labels := seq(|codes|, i requires 0 <= i < |codes| => t.fields[codes[i]]);
    var all := set c | c in codes :: t.fields[c];
    forall l | l in all ensures l in Elements(labels) {
      var c :| c in codes && t.fields[c] == l;
      var i :| 0 <= i < |codes| && codes[i] == c;
      assert labels[i] == l;
    }
    assert Elements(labels) == all;
    SortedAgain(labels);
  }

  // ----- The product's own tables -----

  datatype Entry = Entry(code: string, name: string)

  function Table(entries: seq<Entry>): map<string, string> {
    if entries == [] then map[] else Table(entries[1..])[entries[0].code := entries[0].name]
  }

  const FIELDS: seq<Entry> := [
    Entry("agriculture_and_food_systems", "Agriculture and Food Systems"),
    Entry("arts_humanities_and_design", "Arts, Humanities and Design"),
    Entry("business_and_management", "Business and Management"),
    Entry("economics_and_development", "Economics and Development"),
    Entry("education", "Education"),
    Entry("engineering", "Engineering"),
    Entry("environmental_and_climate_sciences", "Environmental and Climate Sciences"),
    Entry("health_and_medical_sciences", "Health and Medical Sciences"),
    Entry("law", "Law"),
    Entry("mathematics_and_statistics", "Mathematics and Statistics"),
    Entry("natural_sciences", "Natural Sciences"),
    Entry("public_policy_and_governance", "Public Policy and Governance"),
    Entry("social_sciences", "Social Sciences"),
    Entry("technology", "Technology")]

  const FIELD_ALIASES: seq<Entry> := [
    Entry("ict", "technology"), Entry("computer science", "technology"), Entry("cs", "technology"),
    Entry("public health", "health_and_medical_sciences"), Entry("mph", "health_and_medical_sciences"),
    Entry("health", "health_and_medical_sciences"), Entry("welfare", "health_and_medical_sciences"),
    Entry("health_and_welfare", "health_and_medical_sciences"),
    Entry("business_and_administration", "business_and_management"),
    Entry("business_administration_law", "business_and_management"),
    Entry("social_behavioural_sciences", "social_sciences"),
    Entry("social_sciences_journalism_information", "social_sciences"),
    Entry("journalism_and_information", "social_sciences"), Entry("engineering_trades", "engineering"),
    Entry("engineering_manufacturing_construction", "engineering"),
    Entry("manufacturing_and_processing", "engineering"),
    Entry("architecture_and_construction", "engineering"), Entry("physical_sciences", "natural_sciences"),
    Entry("biological_sciences", "natural_sciences"), Entry("natural_sciences_math_stats", "natural_sciences"),
    Entry("environment", "environmental_and_climate_sciences"),
    Entry("agriculture", "agriculture_and_food_systems"), Entry("forestry", "agriculture_and_food_systems"),
    Entry("fisheries", "agriculture_and_food_systems"), Entry("veterinary", "agriculture_and_food_systems"),
    Entry("agriculture_forestry_fisheries_veterinary", "agriculture_and_food_systems"),
    Entry("arts_and_humanities", "arts_humanities_and_design"), Entry("arts", "arts_humanities_and_design"),
    Entry("humanities", "arts_humanities_and_design"), Entry("languages", "arts_humanities_and_design"),
    Entry("mathematics", "mathematics_and_statistics"), Entry("public_policy", "public_policy_and_governance")]

  const DEGREE_ALIASES: seq<Entry> := [
    Entry("phd", "doctorate"), Entry("ph.d", "doctorate"), Entry("ph.d.", "doctorate"),
    Entry("doctoral", "doctorate"), Entry("master's", "masters"), Entry("master", "masters"),
    Entry("msc", "masters"), Entry("ma", "masters")]

  const DEGREES := {"masters", "mba", "doctorate"}

  const FUNDING_TYPES := {"fully_funded", "partial_funding", "tuition_only", "stipend_only"}

  const TAXONOMY := Taxonomy(
    DEGREES, Table(FIELDS), Table(FIELD_ALIASES), Table(DEGREE_ALIASES),
    {"scholarship", "fellowship", "assistantship", "studentship", "grant"},
    FUNDING_TYPES)

  lemma {:induction false} Neighbours(s: seq<string>, i: nat, j: nat)
    requires forall k :: 0 <= k < |s| - 1 ==> Less(s[k], s[k + 1])
    requires i < j < |s|
    ensures Less(s[i], s[j])
  {
    if i + 1 < j {
      Neighbours(s, i, j - 1);
      Transitive(s[i], s[j - 1], s[j]);
    }
  }

  lemma {:induction false} TableHolds(entries: seq<Entry>, i: nat)
    requires i < |entries|
    requires forall j, k :: 0 <= j < k < |entries| ==> entries[j].code != entries[k].code
    ensures entries[i].code in Table(entries) && Table(entries)[entries[i].code] == entries[i].name
  {
    if i > 0 {
      TableHolds(entries[1..], i - 1);
    }
  }

  lemma {:induction false} TableHoldsOnly(entries: seq<Entry>, c: string) returns (i: nat)
    requires c in Table(entries)
    ensures i < |entries| && entries[i].code == c
  {
    if entries[0].code == c {
      i := 0;
    } else {
      i := TableHoldsOnly(entries[1..], c);
      i := i + 1;
    }
  }

  lemma CodesAscend(k: nat)
    requires k < |FIELDS| - 1
    ensures Less(FIELDS[k].code, FIELDS[k + 1].code)
  {
  }

  lemma NamesAscend(k: nat)
    requires k < |FIELDS| - 1
    ensures Less(FIELDS[k].name, FIELDS[k + 1].name)
  {
  }

  lemma FieldsAscend(i: nat, j: nat)
    requires i < j < |FIELDS|
    ensures Less(FIELDS[i].code, FIELDS[j].code) && Less(FIELDS[i].name, FIELDS[j].name)
    ensures FIELDS[i].code != FIELDS[j].code
  {
    var codes := seq(|FIELDS|, k requires 0 <= k < |FIELDS| => FIELDS[k].code);
    var names := seq(|FIELDS|, k requires 0 <= k < |FIELDS| => FIELDS[k].name);
    forall k | 0 <= k < |FIELDS| - 1 ensures Less(codes[k], codes[k + 1]) && Less(names[k], names[k + 1]) {
      CodesAscend(k);
      NamesAscend(k);
    }
    Neighbours(codes, i, j);
    Neighbours(names, i, j);
    Asymmetric(codes[i], codes[j]);
  }

  lemma EarlyFieldIsNoAlias(i: nat, j: nat)
    requires i < 7 && j < |FIELD_ALIASES|
    ensures FIELDS[i].code != FIELD_ALIASES[j].code
  {
  }

  lemma LateFieldIsNoAlias(i: nat, j: nat)
    requires 7 <= i < |FIELDS| && j < |FIELD_ALIASES|
    ensures FIELDS[i].code != FIELD_ALIASES[j].code
  {
  }

  lemma DisjointTables(a: seq<Entry>, b: seq<Entry>)
    requires forall i, j :: 0 <= i < |a| && 0 <= j < |b| ==> a[i].code != b[j].code
    ensures Table(a).Keys !! Table(b).Keys
  {
    forall c | c in Table(a) ensures c !in Table(b) {
      var i := TableHoldsOnly(a, c);
      if c in Table(b) {
        var j := TableHoldsOnly(b, c);
      }
    }
  }

  lemma DegreeIsNoAlias(c: string, j: nat)
    requires c in DEGREES && j < |DEGREE_ALIASES|
    ensures c != DEGREE_ALIASES[j].code
  {
  }

  lemma NamesFollowCodes(c: string, d: string)
    requires c in Table(FIELDS) && d in Table(FIELDS) && Less(c, d)
    ensures Less(Table(FIELDS)[c], Table(FIELDS)[d])
  {
    var i := TableHoldsOnly(FIELDS, c);
    var j := TableHoldsOnly(FIELDS, d);
    forall k, l | 0 <= k < l < |FIELDS| ensures FIELDS[k].code != FIELDS[l].code {
      FieldsAscend(k, l);
    }
    TableHolds(FIELDS, i);
    TableHolds(FIELDS, j);
    Asymmetric(c, d);
    if i < j {
      FieldsAscend(i, j);
    } else if j < i {
      FieldsAscend(j, i);
    }
  }

  lemma DegreesAreNoAliases()
    ensures DEGREES !! Table(DEGREE_ALIASES).Keys
  {
    forall c | c in DEGREES ensures c !in Table(DEGREE_ALIASES) {
      if c in Table(DEGREE_ALIASES) {
        var j := TableHoldsOnly(DEGREE_ALIASES, c);
        DegreeIsNoAlias(c, j);
      }
    }
  }

  lemma FieldsAreNoAliases()
    ensures Table(FIELDS).Keys !! Table(FIELD_ALIASES).Keys
  {
    forall i, j | 0 <= i < |FIELDS| && 0 <= j < |FIELD_ALIASES| ensures FIELDS[i].code != FIELD_ALIASES[j].code {
      if i < 7 {
        EarlyFieldIsNoAlias(i, j);
      } else {
        LateFieldIsNoAlias(i, j);
      }
    }
    DisjointTables(FIELDS, FIELD_ALIASES);
  }

  lemma FieldNamesFollowCodes()
    ensures forall c, d :: c in Table(FIELDS) && d in Table(FIELDS) && Less(c, d) ==>
              Less(Table(FIELDS)[c], Table(FIELDS)[d])
  {
    forall c, d | c in Table(FIELDS) && d in Table(FIELDS) && Less(c, d)
      ensures Less(Table(FIELDS)[c], Table(FIELDS)[d])
    {
      NamesFollowCodes(c, d);
    }
  }

  lemma NoEmptyFundingType()
    ensures "" !in FUNDING_TYPES
  {
  }

  /** The shipped vocabulary meets the conditions. */
  lemma TaxonomyIsWellFormed()
    ensures WellFormed(TAXONOMY)
  {
    DegreesAreNoAliases();
    FieldsAreNoAliases();
    FieldNamesFollowCodes();
    NoEmptyFundingType();
  }
}
