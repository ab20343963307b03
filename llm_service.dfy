/**
 * The rule-based side of the schema mapper (utils/llm_service.py): the
 * three tiers of the mock mapper, the confidence categories, the counters
 * of a whole-source mapping and the checks applied to a model reply once
 * its JSON object has been extracted. The live model call is an opaque
 * `Mapper` parameter.
 */
module LlmService {
  import opened Wrappers
  import opened Strings
  import opened Config
  import opened Dicts

  type Table = seq<(string, seq<string>)>

  /** `[v.lower() for v in variations]`. */
  function LowerAll(vs: seq<string>): (r: seq<string>)
    ensures |r| == |vs|
    ensures forall i :: 0 <= i < |vs| ==> r[i] == Lower(vs[i])
  {
    seq(|vs|, i requires 0 <= i < |vs| => Lower(vs[i]))
  }

  // ---------------------------------------------------------------------
  // _mock_field_mapping: exact tier, substring tier, contextual tier

  datatype Tier = Exact | Substring

  /** `variation.lower() in s or s in variation.lower()`. */
  predicate Related(s: string, v: string)
  {
    Contains(s, Lower(v)) || Contains(Lower(v), s)
  }

  /** Whether one table entry accepts the lower-cased, stripped field `s`
      in the given tier. */
  predicate Hit(tier: Tier, s: string, e: (string, seq<string>))
  {
    match tier
    case Exact => s in LowerAll(e.1)
    case Substring => exists v :: v in e.1 && Related(s, v)
  }

  /** The unified field of the first table entry that `s` hits. */
  function FirstHit(tier: Tier, s: string, t: Table): (r: Option<string>)
    decreases |t|
  {
    if |t| == 0 then None
    else if Hit(tier, s, t[0]) then Some(t[0].0)
    else FirstHit(tier, s, t[1..])
  }

  /** `FirstHit` finds nothing exactly when no entry is hit, and otherwise
      names the first entry that is. */
  lemma {:induction false} FirstHitSpec(tier: Tier, s: string, t: Table)
    ensures FirstHit(tier, s, t).None? <==> forall i :: 0 <= i < |t| ==> !Hit(tier, s, t[i])
    ensures FirstHit(tier, s, t).Some? ==>
              exists i :: 0 <= i < |t| && Hit(tier, s, t[i]) && t[i].0 == FirstHit(tier, s, t).value
                          && forall j :: 0 <= j < i ==> !Hit(tier, s, t[j])
    decreases |t|
  {
    if |t| > 0 {
      FirstHitSpec(tier, s, t[1..]);
      if !Hit(tier, s, t[0]) {
        forall i | 0 < i < |t| ensures t[i] == t[1..][i - 1] { }
        if FirstHit(tier, s, t[1..]).Some? {
          var k :| 0 <= k < |t[1..]| && Hit(tier, s, t[1..][k]) && t[1..][k].0 == FirstHit(tier, s, t[1..]).value
                   && forall j :: 0 <= j < k ==> !Hit(tier, s, t[1..][j]);
          assert Hit(tier, s, t[k + 1]);
          forall j | 0 <= j < k + 1 ensures !Hit(tier, s, t[j]) {
            if j > 0 { assert t[j] == t[1..][j - 1]; }
          }
        }
      }
    }
  }

  function LooksLike(context: string, terms: seq<string>): bool
  {
    exists t :: t in terms && Contains(context, t)
  }

  /** `_contextual_field_mapping`: rules for the three ambiguous names,
      applied to the blank-joined, lower-cased context columns. */
  function Contextual(s: string, sourceContext: seq<string>): (r: Option<(string, real)>)
    ensures r.Some? ==> s in ["id", "name", "date"]
  {
    var context := Join(LowerAll(sourceContext), " ");
    if s == "id" then
      if LooksLike(context, ["customer", "client", "user"]) then Some(("customer_id", 0.6)) else None
    else if s == "name" then
      if !LooksLike(context, ["first", "last", "given", "family"]) then Some(("full_name", 0.6)) else None
    else if s == "date" then
      if LooksLike(context, ["birth", "born", "dob"]) then Some(("dob", 0.5)) else None
    else None
  }

  /** What `_mock_field_mapping` returns. */
  function MockMapping(sourceField: string, sourceContext: seq<string>): (r: (Option<string>, real))
  {
    var s := Strip(Lower(sourceField));
    match FirstHit(Exact, s, FieldVariations)
    case Some(u) => (Some(u), HighConfidence)
    case None =>
      match FirstHit(Substring, s, FieldVariations)
      case Some(u) => (Some(u), MediumConfidence)
      case None =>
        match Contextual(s, sourceContext)
        case Some(m) => (Some(m.0), m.1)
        case None => (None, 0.0)
  }

  /** The first table entry (in table order) hit by `s`, by a linear search
      that returns at the first hit. */
  method FindFirstHit(tier: Tier, s: string, t: Table) returns (r: Option<string>)
    ensures r == FirstHit(tier, s, t)
  {
    var i := 0;
    while i < |t|
      invariant 0 <= i <= |t|
      invariant FirstHit(tier, s, t) == FirstHit(tier, s, t[i..])
    {
      assert t[i..][1..] == t[i + 1..];
      var hit;
      match tier {
        case Exact => hit := s in LowerAll(t[i].1);
        case Substring => hit := AnyRelated(s, t[i].1);
      }
      if hit {
        return Some(t[i].0);
      }
      i := i + 1;
    }
    return None;
  }

  /** The inner loop of the substring tier. */
  method AnyRelated(s: string, vs: seq<string>) returns (b: bool)
    ensures b <==> exists v :: v in vs && Related(s, v)
  {
    var j := 0;
    while j < |vs|
      invariant 0 <= j <= |vs|
      invariant forall k :: 0 <= k < j ==> !Related(s, vs[k])
    {
      if Related(s, vs[j]) {
        return true;
      }
      j := j + 1;
    }
    return false;
  }

  /** `_mock_field_mapping`. */
  method MockFieldMapping(sourceField: string, sourceContext: seq<string>) returns (unifiedField: Option<string>, confidence: real)
    ensures (unifiedField, confidence) == MockMapping(sourceField, sourceContext)
  {
    var s := Strip(Lower(sourceField));
    var exact := FindFirstHit(Exact, s, FieldVariations);
    if exact.Some? {
      return exact, HighConfidence;
    }
    var near := FindFirstHit(Substring, s, FieldVariations);
    if near.Some? {
      return near, MediumConfidence;
    }
    var contextual := Contextual(s, sourceContext);
    if contextual.Some? {
      return Some(contextual.value.0), contextual.value.1;
    }
    return None, 0.0;
  }

  /** A field equal (ignoring case and surrounding blanks) to a listed
      variation maps to the first unified field listing it, with
      confidence 0.9. */
  lemma MockExactTier(sourceField: string, sourceContext: seq<string>)
    requires exists i :: 0 <= i < |FieldVariations| && Hit(Exact, Strip(Lower(sourceField)), FieldVariations[i])
    ensures exists i :: 0 <= i < |FieldVariations|
                        && Hit(Exact, Strip(Lower(sourceField)), FieldVariations[i])
                        && (forall j :: 0 <= j < i ==> !Hit(Exact, Strip(Lower(sourceField)), FieldVariations[j]))
                        && MockMapping(sourceField, sourceContext) == (Some(FieldVariations[i].0), 0.9)
  {
    FirstHitSpec(Exact, Strip(Lower(sourceField)), FieldVariations);
  }

  /** Failing that, a field that contains, or is contained in, a listed
      variation maps to the first unified field listing such a variation,
      with confidence 0.7. */
  lemma MockSubstringTier(sourceField: string, sourceContext: seq<string>)
    requires forall i :: 0 <= i < |FieldVariations| ==> !Hit(Exact, Strip(Lower(sourceField)), FieldVariations[i])
    requires exists i :: 0 <= i < |FieldVariations| && Hit(Substring, Strip(Lower(sourceField)), FieldVariations[i])
    ensures exists i :: 0 <= i < |FieldVariations|
                        && Hit(Substring, Strip(Lower(sourceField)), FieldVariations[i])
                        && (forall j :: 0 <= j < i ==> !Hit(Substring, Strip(Lower(sourceField)), FieldVariations[j]))
                        && MockMapping(sourceField, sourceContext) == (Some(FieldVariations[i].0), 0.7)
  {
    var s := Strip(Lower(sourceField));
    FirstHitSpec(Exact, s, FieldVariations);
    FirstHitSpec(Substring, s, FieldVariations);
  }

  /** "id" is a variation of customer_id, the first table entry, so every
      field containing "id" that is not an exact variation maps there. */
  lemma MockContainsId(sourceField: string, sourceContext: seq<string>)
    requires Contains(Strip(Lower(sourceField)), "id")
    requires forall i :: 0 <= i < |FieldVariations| ==> !Hit(Exact, Strip(Lower(sourceField)), FieldVariations[i])
    ensures MockMapping(sourceField, sourceContext) == (Some("customer_id"), 0.7)
  {
    var s := Strip(Lower(sourceField));
    FirstHitSpec(Exact, s, FieldVariations);
    IdEntry(s);
    HeadHit(Substring, s, FieldVariations);
  }

  /** The first table entry is customer_id, and it lists "id". */
  lemma IdEntry(s: string)
    requires Contains(s, "id")
    ensures FieldVariations[0].0 == "customer_id"
    ensures Hit(Substring, s, FieldVariations[0])
  {
    LowerIdentity("id");
    assert FieldVariations[0].1[4] == "id";
    assert Related(s, FieldVariations[0].1[4]);
  }

  /** A hit on the first entry is the first hit. */
  lemma HeadHit(tier: Tier, s: string, t: Table)
    requires |t| > 0 && Hit(tier, s, t[0])
    ensures FirstHit(tier, s, t) == Some(t[0].0)
  {
  }

  /** So `national_id` (in any case, with any surrounding blanks), though
      itself a unified field, maps to customer_id with confidence 0.7. */
  lemma MockNationalId(sourceField: string, sourceContext: seq<string>)
    requires Strip(Lower(sourceField)) == "national_id"
    ensures MockMapping(sourceField, sourceContext) == (Some("customer_id"), 0.7)
  {
    NationalIdHasId();
    NationalIdNotExact();
    MockContainsId(sourceField, sourceContext);
  }

  lemma NationalIdHasId()
    ensures Contains("national_id", "id")
  {
    assert Contains("national_id"[9..], "id");
  }

  lemma NationalIdNotExact()
    ensures forall i :: 0 <= i < |FieldVariations| ==> !Hit(Exact, "national_id", FieldVariations[i])
  {
    forall i | 0 <= i < |FieldVariations| ensures !Hit(Exact, "national_id", FieldVariations[i]) {
      NotExactVariation(i);
    }
  }

  lemma NotExactVariation(i: nat)
    requires i < |FieldVariations|
    ensures !Hit(Exact, "national_id", FieldVariations[i])
  {
    var vs := FieldVariations[i].1;
    forall j | 0 <= j < |vs| ensures LowerAll(vs)[j] != "national_id" {
      var w := vs[j];
      if |w| == 11 {
        assert w[0] != 'n';
        assert Lower(w)[0] != 'n';
      }
    }
  }

  /** The contextual tier is never reached with a name it has a rule for:
      "id" is an exact variation, "name" lies inside "fname" and "date"
      inside "date_of_birth". So the mock mapper only ever answers with
      0.9, 0.7 or no field at 0.0. */
  lemma MockContextualUnreachable(sourceField: string, sourceContext: seq<string>)
    ensures MockMapping(sourceField, sourceContext).0.Some? ==>
              (MockMapping(sourceField, sourceContext).1 == 0.9 || MockMapping(sourceField, sourceContext).1 == 0.7)
    ensures MockMapping(sourceField, sourceContext).0.None? ==>
              MockMapping(sourceField, sourceContext).1 == 0.0
  {
    var s := Strip(Lower(sourceField));
    if FirstHit(Exact, s, FieldVariations).None? && FirstHit(Substring, s, FieldVariations).None? {
      FirstHitSpec(Exact, s, FieldVariations);
      FirstHitSpec(Substring, s, FieldVariations);
      IdIsVariation();
      NameIsNear();
      DateIsNear();
      assert !Hit(Exact, s, FieldVariations[0]);
      assert !Hit(Substring, s, FieldVariations[1]);
      assert !Hit(Substring, s, FieldVariations[4]);
      assert s != "id" && s != "name" && s != "date";
      assert Contextual(s, sourceContext).None?;
    }
  }

  lemma IdIsVariation()
    ensures Hit(Exact, "id", FieldVariations[0])
  {
    var vs := FieldVariations[0].1;
    LowerIdentity("id");
    assert vs[4] == "id";
    assert LowerAll(vs)[4] == "id";
  }

  lemma NameIsNear()
    ensures Hit(Substring, "name", FieldVariations[1])
  {
    var vs := FieldVariations[1].1;
    LowerIdentity("fname");
    assert vs[0] == "fname";
    assert Contains("fname"[1..], "name");
    assert Related("name", vs[0]);
  }

  lemma DateIsNear()
    ensures Hit(Substring, "date", FieldVariations[4])
  {
    var vs := FieldVariations[4].1;
    LowerIdentity("date_of_birth");
    assert vs[1] == "date_of_birth";
    assert Related("date", vs[1]);
  }

  /** The contextual rules alone: only "id", "name" and "date" can map,
      each to its own field and confidence, and only under its context
      condition. */
  lemma ContextualRules(s: string, sourceContext: seq<string>)
    ensures Contextual(s, sourceContext) == Some(("customer_id", 0.6)) <==>
              s == "id" && LooksLike(Join(LowerAll(sourceContext), " "), ["customer", "client", "user"])
    ensures Contextual(s, sourceContext) == Some(("full_name", 0.6)) <==>
              s == "name" && !LooksLike(Join(LowerAll(sourceContext), " "), ["first", "last", "given", "family"])
    ensures Contextual(s, sourceContext) == Some(("dob", 0.5)) <==>
              s == "date" && LooksLike(Join(LowerAll(sourceContext), " "), ["birth", "born", "dob"])
    ensures Contextual(s, sourceContext).Some? ==>
              Contextual(s, sourceContext).value in [("customer_id", 0.6), ("full_name", 0.6), ("dob", 0.5)]
  {
  }

  /** Every field the mock mapper names is a key of the unified schema. */
  lemma MockMapsIntoSchema(sourceField: string, sourceContext: seq<string>)
    ensures MockMapping(sourceField, sourceContext).0.Some? ==>
              MockMapping(sourceField, sourceContext).0.value in UnifiedSchema
  {
    var s := Strip(Lower(sourceField));
    TableKeysAreSchema();
    FirstHitInSchema(Exact, s);
    FirstHitInSchema(Substring, s);
  }

  /** Whatever a tier finds is a unified field. */
  lemma FirstHitInSchema(tier: Tier, s: string)
    requires forall i :: 0 <= i < |FieldVariations| ==> FieldVariations[i].0 in UnifiedSchema
    ensures FirstHit(tier, s, FieldVariations).Some? ==> FirstHit(tier, s, FieldVariations).value in UnifiedSchema
  {
    FirstHitSpec(tier, s, FieldVariations);
  }

  lemma TableKeysAreSchema()
    ensures forall i :: 0 <= i < |FieldVariations| ==> FieldVariations[i].0 in UnifiedSchema
  {
    var keys := seq(|FieldVariations|, i requires 0 <= i < |FieldVariations| => FieldVariations[i].0);
    assert keys == UnifiedSchema;
  }

  // ---------------------------------------------------------------------
  // _get_confidence_category

  datatype Category = High | Medium | Low

  function ConfidenceCategory(confidence: real): (k: Category)
  {
    if confidence >= HighConfidence then High
    else if confidence >= MediumConfidence then Medium
    else Low
  }

  function Rank(k: Category): nat
  {
    match k
    case Low => 0
    case Medium => 1
    case High => 2
  }

  /** Exactly one category applies, each on its own band of confidences,
      and a higher confidence never gets a lower category. */
  lemma ConfidenceCategoryBands(c: real, d: real)
    ensures ConfidenceCategory(c) == High <==> c >= 0.9
    ensures ConfidenceCategory(c) == Medium <==> 0.7 <= c < 0.9
    ensures ConfidenceCategory(c) == Low <==> c < 0.7
    ensures c <= d ==> Rank(ConfidenceCategory(c)) <= Rank(ConfidenceCategory(d))
  {
  }

  // ---------------------------------------------------------------------
  // generate_schema_mapping

  /** `map_field_to_unified_schema`: the mock mapper or the live model,
      from a source field and the source's other fields. */
  type Mapper = (string, seq<string>) -> (Option<string>, real)

  /** The mapper in mock mode. */
  function MockMapper(): (m: Mapper)
    ensures forall f, ctx :: m(f, ctx) == MockMapping(f, ctx)
  {
    (f, ctx) => MockMapping(f, ctx)
  }

  /** Python truthiness of the returned field: present and non-empty. */
  predicate Truthy(u: Option<string>)
  {
    u.Some? && u.value != ""
  }

  datatype MappingEntry = MappingEntry(unifiedField: string, confidence: real, mappingType: Category)

  /** A dictionary keyed by field name, in insertion order. */
  type Entries = seq<(string, MappingEntry)>

  datatype MappingStats = MappingStats(
    totalFields: nat, mappedFields: nat,
    highConfidence: nat, mediumConfidence: nat, lowConfidence: nat,
    successRate: real)

  datatype MappingResult = MappingResult(
    sourceName: string, sourceFields: seq<string>,
    mappings: Entries, unmappedFields: seq<string>, stats: MappingStats)

  /** The running state of the loop over the source fields. */
  datatype Tally = Tally(mappings: Entries, unmapped: seq<string>, mapped: nat, high: nat, medium: nat, low: nat)

  /** One field's effect on the running state. */
  function Step(t: Tally, field: string, context: seq<string>, mapper: Mapper): (r: Tally)
  {
    var (u, c) := mapper(field, context);
    if Truthy(u) then
      var t1 := t.(mappings := Put(t.mappings, field, MappingEntry(u.value, c, ConfidenceCategory(c))), mapped := t.mapped + 1);
      if c >= HighConfidence then t1.(high := t1.high + 1)
      else if c >= MediumConfidence then t1.(medium := t1.medium + 1)
      else t1.(low := t1.low + 1)
    else
      t.(unmapped := t.unmapped + [field])
  }

  /** The loop state after the given prefix of the source fields. */
  function TallyOf(fields: seq<string>, context: seq<string>, mapper: Mapper): (t: Tally)
  {
    if |fields| == 0 then Tally([], [], 0, 0, 0, 0)
    else Step(TallyOf(fields[..|fields| - 1], context, mapper), fields[|fields| - 1], context, mapper)
  }

  function SuccessRate(mapped: nat, total: nat): real
  {
    if total > 0 then mapped as real / total as real else 0.0
  }

  /** The dictionary `generate_schema_mapping` returns. */
  function SchemaMappingOf(sourceFields: seq<string>, sourceName: string, mapper: Mapper): MappingResult
  {
    var t := TallyOf(sourceFields, sourceFields, mapper);
    MappingResult(sourceName, sourceFields, t.mappings, t.unmapped,
                  MappingStats(|sourceFields|, t.mapped, t.high, t.medium, t.low,
                               SuccessRate(t.mapped, |sourceFields|)))
  }

  method GenerateSchemaMapping(sourceFields: seq<string>, sourceName: string, mapper: Mapper) returns (r: MappingResult)
    ensures r == SchemaMappingOf(sourceFields, sourceName, mapper)
  {
    var mappings: Entries := [];
    var unmapped: seq<string> := [];
    var mapped, high, medium, low := 0, 0, 0, 0;
    var i := 0;
    while i < |sourceFields|
      invariant 0 <= i <= |sourceFields|
      invariant Tally(mappings, unmapped, mapped, high, medium, low) == TallyOf(sourceFields[..i], sourceFields, mapper)
    {
      assert sourceFields[..i + 1][..i] == sourceFields[..i];
      var field := sourceFields[i];
      var unifiedField, confidence := mapper(field, sourceFields).0, mapper(field, sourceFields).1;
      if unifiedField.Some? && unifiedField.value != "" {
        mappings := Put(mappings, field, MappingEntry(unifiedField.value, confidence, ConfidenceCategory(confidence)));
        mapped := mapped + 1;
        if confidence >= HighConfidence {
          high := high + 1;
        } else if confidence >= MediumConfidence {
          medium := medium + 1;
        } else {
          low := low + 1;
        }
      } else {
        unmapped := unmapped + [field];
      }
      i := i + 1;
    }
    assert sourceFields[..|sourceFields|] == sourceFields;
    var total := |sourceFields|;
    r := MappingResult(sourceName, sourceFields, mappings, unmapped,
                       MappingStats(total, mapped, high, medium, low,
                                    if total > 0 then mapped as real / total as real else 0.0));
  }

  /** The loop state after any prefix: every field is counted once, as
      mapped or unmapped, and every mapped one once in a confidence band. */
  lemma {:induction false} TallyCounts(fields: seq<string>, context: seq<string>, mapper: Mapper)
    ensures TallyOf(fields, context, mapper).mapped + |TallyOf(fields, context, mapper).unmapped| == |fields|
    ensures TallyOf(fields, context, mapper).high + TallyOf(fields, context, mapper).medium
            + TallyOf(fields, context, mapper).low == TallyOf(fields, context, mapper).mapped
    decreases |fields|
  {
    if |fields| > 0 {
      TallyCounts(fields[..|fields| - 1], context, mapper);
    }
  }

  /** The loop state after any prefix: the entries are exactly the mapped
      fields, each holding the mapper's answer and its category, and the
      unmapped list holds the others. */
  lemma {:induction false} TallyInvariant(fields: seq<string>, context: seq<string>, mapper: Mapper)
    ensures forall f :: f in Keys(TallyOf(fields, context, mapper).mappings) <==>
                        f in fields && Truthy(mapper(f, context).0)
    ensures forall f :: f in TallyOf(fields, context, mapper).unmapped <==>
                        f in fields && !Truthy(mapper(f, context).0)
    ensures forall f, e :: (f, e) in TallyOf(fields, context, mapper).mappings ==>
                           && Some(e.unifiedField) == mapper(f, context).0
                           && e.confidence == mapper(f, context).1
                           && e.mappingType == ConfidenceCategory(e.confidence)
    decreases |fields|
  {
    if |fields| > 0 {
      var init := fields[..|fields| - 1];
      TallyInvariant(init, context, mapper);
      assert forall f :: f in fields <==> f in init || f == fields[|fields| - 1] by {
        assert fields == init + [fields[|fields| - 1]];
      }
    }
  }

  /** The mappings dictionary never holds a field twice. */
  lemma {:induction false} TallyDistinct(fields: seq<string>, context: seq<string>, mapper: Mapper)
    ensures KeysDistinct(TallyOf(fields, context, mapper).mappings)
    decreases |fields|
  {
    if |fields| > 0 {
      var init := fields[..|fields| - 1];
      var f := fields[|fields| - 1];
      TallyDistinct(init, context, mapper);
      var c := mapper(f, context).1;
      if Truthy(mapper(f, context).0) {
        PutDistinct(TallyOf(init, context, mapper).mappings, f,
                    MappingEntry(mapper(f, context).0.value, c, ConfidenceCategory(c)));
      }
    }
  }

  /** The counters of a whole-source mapping, and its success rate. */
  lemma SchemaMappingStats(sourceFields: seq<string>, sourceName: string, mapper: Mapper)
    ensures var r := SchemaMappingOf(sourceFields, sourceName, mapper);
            && r.stats.totalFields == |sourceFields|
            && r.stats.mappedFields + |r.unmappedFields| == r.stats.totalFields
            && r.stats.highConfidence + r.stats.mediumConfidence + r.stats.lowConfidence == r.stats.mappedFields
            && (r.stats.totalFields == 0 ==> r.stats.successRate == 0.0)
            && 0.0 <= r.stats.successRate <= 1.0
            && (r.stats.successRate == 1.0 <==> r.stats.totalFields > 0 && r.unmappedFields == [])
  {
    var t := TallyOf(sourceFields, sourceFields, mapper);
    TallyCounts(sourceFields, sourceFields, mapper);
    if |sourceFields| > 0 {
      RateBounds(t.mapped, |sourceFields|);
    }
  }

  lemma RateBounds(mapped: nat, total: nat)
    requires 0 < total && mapped <= total
    ensures 0.0 <= mapped as real / total as real <= 1.0
    ensures mapped as real / total as real == 1.0 <==> mapped == total
  {
    var q := mapped as real / total as real;
    assert q * total as real == mapped as real;
  }

  /** Which fields end up where in a whole-source mapping. */
  lemma SchemaMappingEntries(sourceFields: seq<string>, sourceName: string, mapper: Mapper)
    ensures var r := SchemaMappingOf(sourceFields, sourceName, mapper);
            && (forall f :: f in Keys(r.mappings) <==> f in sourceFields && Truthy(mapper(f, sourceFields).0))
            && (forall f :: f in r.unmappedFields <==> f in sourceFields && !Truthy(mapper(f, sourceFields).0))
            && (forall f, e :: (f, e) in r.mappings ==>
                  && Some(e.unifiedField) == mapper(f, sourceFields).0
                  && e.confidence == mapper(f, sourceFields).1
                  && e.mappingType == ConfidenceCategory(e.confidence))
  {
    TallyInvariant(sourceFields, sourceFields, mapper);
  }

  /** In mock mode nothing is ever counted as low confidence. */
  lemma {:induction false} MockNeverLow(fields: seq<string>, context: seq<string>)
    ensures TallyOf(fields, context, MockMapper()).low == 0
    decreases |fields|
  {
    if |fields| > 0 {
      MockNeverLow(fields[..|fields| - 1], context);
      MockContextualUnreachable(fields[|fields| - 1], context);
    }
  }

  // ---------------------------------------------------------------------
  // _parse_llm_response, after the JSON object has been located

  /** The value of `unified_field` in the parsed object: absent or null, a
      string, or any other JSON value, which is only told apart by its
      truthiness. */
  datatype JsonValue = JNull | JStr(s: string) | JOther(truthy: bool)

  /** What the regular-expression search and `json.loads` made of the
      reply: an object with its `unified_field` and the result of
      `float(parsed.get('confidence', 0.0))` (None when that conversion
      raises), a `{...}` block that is not valid JSON, or no block at all. */
  datatype Reply =
    | JsonObject(unifiedField: JsonValue, confidence: Option<real>)
    | MalformedJson
    | NoJson(text: string)

  /** `max(0.0, min(1.0, c))`. */
  function Clamp(c: real): (r: real)
    ensures 0.0 <= r <= 1.0
    ensures 0.0 <= c <= 1.0 ==> r == c
  {
    var m := if c < 1.0 then c else 1.0;
    if 0.0 < m then m else 0.0
  }

  /** The first key (in schema order) whose lower-case form occurs in
      `hay`. */
  function FirstMentioned(hay: string, keys: seq<string>): (r: Option<string>)
    decreases |keys|
  {
    if |keys| == 0 then None
    else if Contains(hay, Lower(keys[0])) then Some(keys[0])
    else FirstMentioned(hay, keys[1..])
  }

  lemma {:induction false} FirstMentionedSpec(hay: string, keys: seq<string>)
    ensures FirstMentioned(hay, keys).None? <==> forall i :: 0 <= i < |keys| ==> !Contains(hay, Lower(keys[i]))
    ensures FirstMentioned(hay, keys).Some? ==>
              exists i :: 0 <= i < |keys| && keys[i] == FirstMentioned(hay, keys).value
                          && Contains(hay, Lower(keys[i]))
                          && forall j :: 0 <= j < i ==> !Contains(hay, Lower(keys[j]))
    decreases |keys|
  {
    if |keys| > 0 {
      FirstMentionedSpec(hay, keys[1..]);
      if !Contains(hay, Lower(keys[0])) {
        forall i | 0 < i < |keys| ensures keys[i] == keys[1..][i - 1] { }
        if FirstMentioned(hay, keys[1..]).Some? {
          var k :| 0 <= k < |keys[1..]| && keys[1..][k] == FirstMentioned(hay, keys[1..]).value
                   && Contains(hay, Lower(keys[1..][k]))
                   && forall j :: 0 <= j < k ==> !Contains(hay, Lower(keys[1..][j]));
          assert keys[k + 1] == keys[1..][k];
          forall j | 0 <= j < k + 1 ensures !Contains(hay, Lower(keys[j])) {
            if j > 0 { assert keys[j] == keys[1..][j - 1]; }
          }
        }
      }
    }
  }

  /** What `_parse_llm_response` returns. A truthy `unified_field` that is
      not a string makes `not in` or `.lower()` raise, which the handler
      turns into (None, 0.0). A falsy one other than a string is returned
      as no field. */
  function ParseReply(reply: Reply): (r: (Option<string>, real))
  {
    match reply
    case MalformedJson => (None, 0.0)
    case JsonObject(u, c) =>
      if c.None? then (None, 0.0)
      else
        (match u
         case JNull => (None, Clamp(c.value))
         case JOther(truthy) => if truthy then (None, 0.0) else (None, Clamp(c.value))
         case JStr(s) =>
           if s != "" && s !in UnifiedSchema && Lower(s) != "none" then (None, 0.0)
           else if s != "" && Lower(s) == "none" then (None, 0.0)
           else (Some(s), Clamp(c.value)))
    case NoJson(text) =>
      match FirstMentioned(Lower(text), UnifiedSchema)
      case Some(k) => (Some(k), 0.7)
      case None => (None, 0.0)
  }

  /** The fallback search over the schema keys. */
  method FindMentioned(hay: string, keys: seq<string>) returns (r: Option<string>)
    ensures r == FirstMentioned(hay, keys)
  {
    var i := 0;
    while i < |keys|
      invariant 0 <= i <= |keys|
      invariant FirstMentioned(hay, keys) == FirstMentioned(hay, keys[i..])
    {
      assert keys[i..][1..] == keys[i + 1..];
      if Contains(hay, Lower(keys[i])) {
        return Some(keys[i]);
      }
      i := i + 1;
    }
    return None;
  }

  /** `_parse_llm_response`. */
  method ParseLlmResponse(reply: Reply) returns (unifiedField: Option<string>, confidence: real)
    ensures (unifiedField, confidence) == ParseReply(reply)
  {
    match reply {
      case MalformedJson =>
        return None, 0.0;
      case JsonObject(u, c) =>
        if c.None? {
          return None, 0.0;
        }
        var conf := c.value;
        match u {
          case JNull =>
            return None, Clamp(conf);
          case JOther(truthy) =>
            if truthy {
              return None, 0.0;
            }
            return None, Clamp(conf);
          case JStr(s) =>
            if s != "" && s !in UnifiedSchema && Lower(s) != "none" {
              return None, 0.0;
            }
            if s != "" && Lower(s) == "none" {
              return None, 0.0;
            }
            return Some(s), Clamp(conf);
        }
      case NoJson(text) =>
        var k := FindMentioned(Lower(text), UnifiedSchema);
        if k.Some? {
          return k, 0.7;
        }
        return None, 0.0;
    }
  }

  /** Whatever the reply, the confidence lies in [0, 1] and a returned
      non-empty field is a key of the unified schema. */
  lemma ParseReplySafe(reply: Reply)
    ensures 0.0 <= ParseReply(reply).1 <= 1.0
    ensures ParseReply(reply).0.Some? && ParseReply(reply).0.value != "" ==>
              ParseReply(reply).0.value in UnifiedSchema
  {
    if reply.NoJson? {
      FirstMentionedSpec(Lower(reply.text), UnifiedSchema);
    }
  }

  /** A JSON answer naming "none" in any case, or a name outside the
      schema, yields no field at confidence 0.0; a schema key is returned
      with its clamped confidence. */
  lemma ParseReplyJsonField(s: string, c: real)
    ensures Lower(s) == "none" ==> ParseReply(JsonObject(JStr(s), Some(c))) == (None, 0.0)
    ensures s != "" && s !in UnifiedSchema ==> ParseReply(JsonObject(JStr(s), Some(c))) == (None, 0.0)
    ensures s in UnifiedSchema ==> ParseReply(JsonObject(JStr(s), Some(c))) == (Some(s), Clamp(c))
  {
    if s in UnifiedSchema {
      assert |s| != 4;
      assert Lower(s) != "none";
    }
  }

  /** Without a JSON block, the answer is the first schema key that occurs
      in the reply ignoring case, at 0.7, or no field at 0.0. */
  lemma ParseReplyText(text: string)
    ensures ParseReply(NoJson(text)).0.None? <==>
              forall i :: 0 <= i < |UnifiedSchema| ==> !Contains(Lower(text), Lower(UnifiedSchema[i]))
    ensures ParseReply(NoJson(text)).0.None? ==> ParseReply(NoJson(text)).1 == 0.0
    ensures ParseReply(NoJson(text)).0.Some? ==>
              && ParseReply(NoJson(text)).1 == 0.7
              && exists i :: 0 <= i < |UnifiedSchema| && UnifiedSchema[i] == ParseReply(NoJson(text)).0.value
                             && Contains(Lower(text), Lower(UnifiedSchema[i]))
                             && forall j :: 0 <= j < i ==> !Contains(Lower(text), Lower(UnifiedSchema[j]))
  {
    FirstMentionedSpec(Lower(text), UnifiedSchema);
  }
}
