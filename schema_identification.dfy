/**
 * The deterministic transforms of the schema identification agent
 * (agents/schema_identification_agent.py): growing the agent's own unified
 * schema, the map-or-log decision for each source field, deriving and
 * splitting person names, remapping a table onto the unified column
 * order, validating a stored mapping and the structured/unstructured
 * heuristic. The field mapper and the "should the schema grow" question
 * are oracle parameters.
 */
module SchemaIdentification {
  import opened Wrappers
  import opened Strings
  import opened Dicts
  import LlmService

  /** A table cell: missing (NaN/None), a string, or any other value shown
      by its `str()`. */
  datatype Cell = NA | Str(s: string) | Other(text: string)

  /** The agent's unified schema: field name to its (here always empty)
      description, in insertion order. */
  type Schema = seq<(string, string)>

  /** The schema the agent starts from when none is stored
      (agents/schema_identification_agent.py:122-135). It differs from the mapper's UNIFIED_SCHEMA: it has
      source_name and raw_text instead of gender and updated_at. */
  const DefaultSchema: Schema := [
    ("customer_id", ""), ("first_name", ""), ("last_name", ""), ("full_name", ""),
    ("dob", ""), ("email", ""), ("phone", ""), ("address", ""),
    ("national_id", ""), ("country", ""), ("source_name", ""), ("raw_text", "")
  ]

  // ---------------------------------------------------------------------
  // _extend_unified_schema

  /** The schema after `_extend_unified_schema(field)`. */
  function Extend(schema: Schema, field: string): (r: Schema)
    ensures Keys(r) == Keys(schema) + {field}
    ensures |schema| <= |r| <= |schema| + 1 && r[..|schema|] == schema
    ensures field !in Keys(schema) ==> r[|schema|] == (field, "")
    ensures field in Keys(schema) ==> r == schema
  {
    KeysCons((field, ""), []);
    if field in Keys(schema) then schema
    else
      var r := schema + [(field, "")];
      assert Keys(r) == Keys(schema) + {field} by {
        forall k | k in Keys(r) ensures k in Keys(schema) + {field} {
          var i :| 0 <= i < |r| && r[i].0 == k;
          if i < |schema| { assert schema[i].0 == k; }
        }
        forall k | k in Keys(schema) ensures k in Keys(r) {
          var i :| 0 <= i < |schema| && schema[i].0 == k;
          assert r[i].0 == k;
        }
        assert r[|schema|].0 == field;
      }
      r
  }

  /** Extending twice with the same field is extending once, and an
      extension keeps the field names distinct. */
  lemma ExtendIdempotent(schema: Schema, field: string)
    ensures Extend(Extend(schema, field), field) == Extend(schema, field)
    ensures KeysDistinct(schema) ==> KeysDistinct(Extend(schema, field))
  {
  }

  // ---------------------------------------------------------------------
  // The map-or-log decision of process_structured_data

  datatype FieldMapping = FieldMapping(unifiedField: string, confidence: real, autoExtended: bool)

  datatype UnmappedEntry = UnmappedEntry(sourceField: string, sourceName: string, confidence: real, contextFields: seq<string>)

  /** `_should_extend_schema`: the live model's yes/no answer for a field
      and its context (false whenever the call fails). */
  type ExtendOracle = (string, seq<string>) -> bool

  /** The mapper's answer is accepted: a field and a confidence above 0.5. */
  predicate Accepted(answer: (Option<string>, real))
  {
    LlmService.Truthy(answer.0) && answer.1 > 0.5
  }

  /** The log entry a decision adds: one for a rejected field, none for an
      accepted one. */
  function Logged(field: string, context: seq<string>, sourceName: string, mapper: LlmService.Mapper): seq<UnmappedEntry>
  {
    if Accepted(mapper(field, context)) then [] else [UnmappedEntry(field, sourceName, mapper(field, context).1, context)]
  }

  /** What the loop over the source fields has built so far. */
  datatype Pass = Pass(mappings: seq<(string, FieldMapping)>, unmapped: seq<UnmappedEntry>, schema: Schema)

  function Decide(p: Pass, field: string, context: seq<string>, sourceName: string,
                  mapper: LlmService.Mapper, autoExtend: bool, shouldExtend: ExtendOracle): Pass
  {
    var answer := mapper(field, context);
    if Accepted(answer) then
      Pass(Put(p.mappings, field, FieldMapping(answer.0.value, answer.1, false)), p.unmapped, p.schema)
    else
      var logged := p.unmapped + [UnmappedEntry(field, sourceName, answer.1, context)];
      if autoExtend && shouldExtend(field, context) then
        Pass(Put(p.mappings, field, FieldMapping(field, 0.8, true)), logged, Extend(p.schema, field))
      else Pass(p.mappings, logged, p.schema)
  }

  /** One decision changes the schema only by the extension. */
  lemma DecideSchema(p: Pass, field: string, context: seq<string>, sourceName: string,
                     mapper: LlmService.Mapper, autoExtend: bool, shouldExtend: ExtendOracle)
    ensures var r := Decide(p, field, context, sourceName, mapper, autoExtend, shouldExtend);
            r.schema == if !Accepted(mapper(field, context)) && autoExtend && shouldExtend(field, context)
                        then Extend(p.schema, field) else p.schema
  {
  }

  /** One decision logs the field exactly when the mapper's answer is
      rejected. */
  lemma DecideLog(p: Pass, field: string, context: seq<string>, sourceName: string,
                  mapper: LlmService.Mapper, autoExtend: bool, shouldExtend: ExtendOracle)
    ensures var r := Decide(p, field, context, sourceName, mapper, autoExtend, shouldExtend);
            r.unmapped == if Accepted(mapper(field, context)) then p.unmapped
                          else p.unmapped + [UnmappedEntry(field, sourceName, mapper(field, context).1, context)]
  {
  }

  /** The state after the decisions for a prefix of the source fields. */
  function PassOf(fields: seq<string>, context: seq<string>, sourceName: string,
                  mapper: LlmService.Mapper, autoExtend: bool, shouldExtend: ExtendOracle, schema: Schema): Pass
  {
    if |fields| == 0 then Pass([], [], schema)
    else
      Decide(PassOf(fields[..|fields| - 1], context, sourceName, mapper, autoExtend, shouldExtend, schema),
             fields[|fields| - 1], context, sourceName, mapper, autoExtend, shouldExtend)
  }

  /** One decision maps the field to the mapper's answer when it is
      accepted, to itself when the schema is extended with it, and
      otherwise leaves the mappings alone. */
  lemma DecideMappings(p: Pass, field: string, context: seq<string>, sourceName: string,
                       mapper: LlmService.Mapper, autoExtend: bool, shouldExtend: ExtendOracle)
    ensures var r := Decide(p, field, context, sourceName, mapper, autoExtend, shouldExtend);
            var answer := mapper(field, context);
            r.mappings == if Accepted(answer) then Put(p.mappings, field, FieldMapping(answer.0.value, answer.1, false))
                          else if autoExtend && shouldExtend(field, context) then Put(p.mappings, field, FieldMapping(field, 0.8, true))
                          else p.mappings
  {
  }

  /** Which fields are mapped, and to what: exactly the accepted ones, to
      the mapper's field, and (with auto-extension on) the ones the oracle
      says to add, to themselves with confidence 0.8. */
  lemma PassMappings(fields: seq<string>, context: seq<string>, sourceName: string,
                     mapper: LlmService.Mapper, autoExtend: bool, shouldExtend: ExtendOracle, schema: Schema)
    ensures var p := PassOf(fields, context, sourceName, mapper, autoExtend, shouldExtend, schema);
            && (forall f :: f in Keys(p.mappings) <==>
                  f in fields && (Accepted(mapper(f, context)) || (autoExtend && shouldExtend(f, context))))
            && (forall f, m :: (f, m) in p.mappings && Accepted(mapper(f, context)) ==>
                  m == FieldMapping(mapper(f, context).0.value, mapper(f, context).1, false))
            && (forall f, m :: (f, m) in p.mappings && !Accepted(mapper(f, context)) ==>
                  m == FieldMapping(f, 0.8, true))
            && |p.mappings| <= |fields|
  {
    PassMappedKeys(fields, context, sourceName, mapper, autoExtend, shouldExtend, schema);
    PassMappedValues(fields, context, sourceName, mapper, autoExtend, shouldExtend, schema);
  }

  /** The mapped fields, and the size of the mapping dictionary. */
  lemma {:induction false} PassMappedKeys(fields: seq<string>, context: seq<string>, sourceName: string,
                                           mapper: LlmService.Mapper, autoExtend: bool, shouldExtend: ExtendOracle, schema: Schema)
    ensures var p := PassOf(fields, context, sourceName, mapper, autoExtend, shouldExtend, schema);
            && (forall f :: f in Keys(p.mappings) <==>
                  f in fields && (Accepted(mapper(f, context)) || (autoExtend && shouldExtend(f, context))))
            && |p.mappings| <= |fields|
    decreases |fields|
  {
    if |fields| > 0 {
      var init := fields[..|fields| - 1];
      var f := fields[|fields| - 1];
      var p0 := PassOf(init, context, sourceName, mapper, autoExtend, shouldExtend, schema);
      PassMappedKeys(init, context, sourceName, mapper, autoExtend, shouldExtend, schema);
      DecideMappings(p0, f, context, sourceName, mapper, autoExtend, shouldExtend);
      assert fields == init + [f];
      assert forall g :: g in fields <==> g in init || g == f;
    }
  }

  /** What each mapped field is mapped to. */
  lemma {:induction false} PassMappedValues(fields: seq<string>, context: seq<string>, sourceName: string,
                                             mapper: LlmService.Mapper, autoExtend: bool, shouldExtend: ExtendOracle, schema: Schema)
    ensures var p := PassOf(fields, context, sourceName, mapper, autoExtend, shouldExtend, schema);
            && (forall f, m :: (f, m) in p.mappings && Accepted(mapper(f, context)) ==>
                  m == FieldMapping(mapper(f, context).0.value, mapper(f, context).1, false))
            && (forall f, m :: (f, m) in p.mappings && !Accepted(mapper(f, context)) ==>
                  m == FieldMapping(f, 0.8, true))
    decreases |fields|
  {
    if |fields| > 0 {
      var init := fields[..|fields| - 1];
      var f := fields[|fields| - 1];
      var p0 := PassOf(init, context, sourceName, mapper, autoExtend, shouldExtend, schema);
      PassMappedValues(init, context, sourceName, mapper, autoExtend, shouldExtend, schema);
      DecideMappings(p0, f, context, sourceName, mapper, autoExtend, shouldExtend);
    }
  }

  /** The unmapped log gets one entry per rejected field, recording the
      mapper's confidence and the context. */
  lemma {:induction false} PassLog(fields: seq<string>, context: seq<string>, sourceName: string,
                                    mapper: LlmService.Mapper, autoExtend: bool, shouldExtend: ExtendOracle, schema: Schema)
    ensures var p := PassOf(fields, context, sourceName, mapper, autoExtend, shouldExtend, schema);
            && (forall e :: e in p.unmapped ==>
                  && e.sourceField in fields && !Accepted(mapper(e.sourceField, context))
                  && e == UnmappedEntry(e.sourceField, sourceName, mapper(e.sourceField, context).1, context))
            && (forall f :: f in fields && !Accepted(mapper(f, context)) ==>
                  exists e :: e in p.unmapped && e.sourceField == f)
    decreases |fields|
  {
    if |fields| > 0 {
      var init := fields[..|fields| - 1];
      var f := fields[|fields| - 1];
      PassLog(init, context, sourceName, mapper, autoExtend, shouldExtend, schema);
      assert fields == init + [f];
      var q := PassOf(init, context, sourceName, mapper, autoExtend, shouldExtend, schema);
      var p := PassOf(fields, context, sourceName, mapper, autoExtend, shouldExtend, schema);
      DecideLog(q, f, context, sourceName, mapper, autoExtend, shouldExtend);
      if !Accepted(mapper(f, context)) {
        assert UnmappedEntry(f, sourceName, mapper(f, context).1, context) in p.unmapped;
      }
    }
  }

  /** The schema only grows at its end. */
  lemma {:induction false} PassSchemaPrefix(fields: seq<string>, context: seq<string>, sourceName: string,
                                             mapper: LlmService.Mapper, autoExtend: bool, shouldExtend: ExtendOracle, schema: Schema)
    ensures var p := PassOf(fields, context, sourceName, mapper, autoExtend, shouldExtend, schema);
            |p.schema| >= |schema| && p.schema[..|schema|] == schema
    decreases |fields|
  {
    if |fields| > 0 {
      var init := fields[..|fields| - 1];
      var f := fields[|fields| - 1];
      PassSchemaPrefix(init, context, sourceName, mapper, autoExtend, shouldExtend, schema);
      var q := PassOf(init, context, sourceName, mapper, autoExtend, shouldExtend, schema);
      var p := PassOf(fields, context, sourceName, mapper, autoExtend, shouldExtend, schema);
      DecideSchema(q, f, context, sourceName, mapper, autoExtend, shouldExtend);
      if !Accepted(mapper(f, context)) && autoExtend && shouldExtend(f, context) {
        assert p.schema[..|schema|] == p.schema[..|q.schema|][..|schema|];
      }
    }
  }

  /** The schema gains exactly the rejected fields the oracle says to add. */
  lemma {:induction false} PassSchema(fields: seq<string>, context: seq<string>, sourceName: string,
                                       mapper: LlmService.Mapper, autoExtend: bool, shouldExtend: ExtendOracle, schema: Schema)
    ensures var p := PassOf(fields, context, sourceName, mapper, autoExtend, shouldExtend, schema);
            forall f :: f in Keys(p.schema) <==>
              f in Keys(schema) || (f in fields && !Accepted(mapper(f, context)) && autoExtend && shouldExtend(f, context))
    decreases |fields|
  {
    if |fields| > 0 {
      var init := fields[..|fields| - 1];
      var f := fields[|fields| - 1];
      PassSchema(init, context, sourceName, mapper, autoExtend, shouldExtend, schema);
      assert fields == init + [f];
      var q := PassOf(init, context, sourceName, mapper, autoExtend, shouldExtend, schema);
      DecideSchema(q, f, context, sourceName, mapper, autoExtend, shouldExtend);
    }
  }

  datatype MappingInfo = MappingInfo(
    sourceName: string, fieldMappings: seq<(string, FieldMapping)>, unmappedFields: seq<UnmappedEntry>,
    totalFields: nat, mappedFields: nat, mappingSuccessRate: real)

  function InfoOf(sourceName: string, sourceFields: seq<string>, p: Pass): MappingInfo
  {
    MappingInfo(sourceName, p.mappings, p.unmapped, |sourceFields|, |p.mappings|,
                if |sourceFields| > 0 then |p.mappings| as real / |sourceFields| as real else 0.0)
  }

  /** The success rate of `process_structured_data` lies in [0, 1]. */
  lemma InfoRate(sourceFields: seq<string>, sourceName: string, mapper: LlmService.Mapper,
                 autoExtend: bool, shouldExtend: ExtendOracle, schema: Schema)
    ensures var info := InfoOf(sourceName, sourceFields,
                               PassOf(sourceFields, sourceFields, sourceName, mapper, autoExtend, shouldExtend, schema));
            && info.mappedFields <= info.totalFields
            && 0.0 <= info.mappingSuccessRate <= 1.0
  {
    PassMappings(sourceFields, sourceFields, sourceName, mapper, autoExtend, shouldExtend, schema);
    var p := PassOf(sourceFields, sourceFields, sourceName, mapper, autoExtend, shouldExtend, schema);
    if |sourceFields| > 0 {
      LlmService.RateBounds(|p.mappings|, |sourceFields|);
    }
  }

  // ---------------------------------------------------------------------
  // _handle_name_fields

  type Row = map<string, Cell>

  function At(r: Row, column: string): Cell
  {
    if column in r then r[column] else NA
  }

  /** Missing or the empty string. */
  predicate Blank(c: Cell)
  {
    c == NA || c == Str("")
  }

  /** `str(value)` of a cell. */
  function Text(c: Cell): string
  {
    match c
    case NA => "nan"
    case Str(s) => s
    case Other(t) => t
  }

  predicate HasNameColumns(columns: seq<string>)
  {
    "first_name" in columns && "last_name" in columns && "full_name" in columns
  }

  /** The first pass: a blank full name is filled from non-blank first and
      last names. */
  function DeriveFullName(r: Row): Row
  {
    var first, last := At(r, "first_name"), At(r, "last_name");
    if Blank(At(r, "full_name")) && !Blank(first) && !Blank(last) && first.Str? && last.Str? then
      r["full_name" := Str(first.s + " " + last.s)]
    else r
  }

  /** The second pass: a non-blank full name of two or more words fills the
      blank one(s) of first name (first word) and last name (the other
      words, blank-separated). */
  function SplitFullName(r: Row): Row
  {
    var full := At(r, "full_name");
    if !Blank(full) && (Blank(At(r, "first_name")) || Blank(At(r, "last_name"))) then
      var parts := Split(Strip(Text(full)));
      if |parts| >= 2 then FillNames(r, parts[0], Join(parts[1..], " ")) else r
    else r
  }

  /** Fills the blank one(s) of first and last name with the given words. */
  function FillNames(r: Row, first: string, last: string): Row
  {
    var r1 := if Blank(At(r, "first_name")) then r["first_name" := Str(first)] else r;
    if Blank(At(r1, "last_name")) then r1["last_name" := Str(last)] else r1
  }

  /** Filling writes only blank first and last names. */
  lemma FillNamesSpec(r: Row, first: string, last: string)
    ensures var d := FillNames(r, first, last);
            && (forall k :: k != "first_name" && k != "last_name" ==> At(d, k) == At(r, k))
            && At(d, "first_name") == (if Blank(At(r, "first_name")) then Str(first) else At(r, "first_name"))
            && At(d, "last_name") == (if Blank(At(r, "last_name")) then Str(last) else At(r, "last_name"))
  {
  }

  /** One row after `_handle_name_fields`. */
  function HandleNames(columns: seq<string>, r: Row): Row
  {
    if HasNameColumns(columns) then SplitFullName(DeriveFullName(r)) else r
  }

  /** Deriving touches only a blank full name, and only when both parts
      are present. */
  lemma DeriveFullNameSpec(r: Row)
    ensures var d := DeriveFullName(r);
            && (forall k :: k != "full_name" ==> At(d, k) == At(r, k))
            && (Blank(At(r, "full_name")) && At(r, "first_name").Str? && At(r, "first_name").s != ""
                && At(r, "last_name").Str? && At(r, "last_name").s != "" ==>
                  At(d, "full_name") == Str(At(r, "first_name").s + " " + At(r, "last_name").s))
            && (!Blank(At(r, "full_name")) || Blank(At(r, "first_name")) || Blank(At(r, "last_name")) ==> d == r)
  {
  }

  /** Splitting fills only blank first/last names, from a full name of at
      least two words; it never overwrites a non-blank value and changes
      no other column. */
  lemma SplitFullNameSpec(r: Row)
    ensures var d := SplitFullName(r);
            var parts := Split(Strip(Text(At(r, "full_name"))));
            && (forall k :: k != "first_name" && k != "last_name" ==> At(d, k) == At(r, k))
            && (!Blank(At(r, "first_name")) ==> At(d, "first_name") == At(r, "first_name"))
            && (!Blank(At(r, "last_name")) ==> At(d, "last_name") == At(r, "last_name"))
            && (Blank(At(r, "full_name")) || |parts| < 2 ==> d == r)
            && (!Blank(At(r, "full_name")) && |parts| >= 2 ==>
                  && (Blank(At(r, "first_name")) ==> At(d, "first_name") == Str(parts[0]))
                  && (Blank(At(r, "last_name")) ==> At(d, "last_name") == Str(Join(parts[1..], " "))))
  {
    var full := At(r, "full_name");
    var parts := Split(Strip(Text(full)));
    var d := SplitFullName(r);
    if !Blank(full) && (Blank(At(r, "first_name")) || Blank(At(r, "last_name"))) && |parts| >= 2 {
      assert d == FillNames(r, parts[0], Join(parts[1..], " "));
      FillNamesSpec(r, parts[0], Join(parts[1..], " "));
    } else {
      assert d == r;
    }
  }

  /** When both parts were blank, the filled first and last names put back
      together with a blank give the full name's words, blank-separated. */
  lemma SplitRecombines(r: Row)
    requires !Blank(At(r, "full_name")) && Blank(At(r, "first_name")) && Blank(At(r, "last_name"))
    requires |Split(Strip(Text(At(r, "full_name"))))| >= 2
    ensures var d := SplitFullName(r);
            Str(At(d, "first_name").s + " " + At(d, "last_name").s) == Str(Join(Split(Strip(Text(At(r, "full_name")))), " "))
  {
    var parts := Split(Strip(Text(At(r, "full_name"))));
    FillNamesSpec(r, parts[0], Join(parts[1..], " "));
    assert parts == [parts[0]] + parts[1..];
  }

  /** Running the name handling a second time changes nothing. */
  lemma HandleNamesIdempotent(columns: seq<string>, r: Row)
    ensures HandleNames(columns, HandleNames(columns, r)) == HandleNames(columns, r)
  {
    if HasNameColumns(columns) {
      var d := DeriveFullName(r);
      var s := SplitFullName(d);
      DeriveIdempotent(r);
      SplitKeepsFullName(d);
      if Blank(At(d, "full_name")) {
        assert s == d;
      }
      assert DeriveFullName(s) == s;
      SplitIdempotent(d);
    }
  }

  lemma DeriveIdempotent(r: Row)
    ensures DeriveFullName(DeriveFullName(r)) == DeriveFullName(r)
  {
  }

  lemma SplitKeepsFullName(r: Row)
    ensures At(SplitFullName(r), "full_name") == At(r, "full_name")
    ensures Blank(At(r, "full_name")) ==> SplitFullName(r) == r
  {
    var full := At(r, "full_name");
    var parts := Split(Strip(Text(full)));
    var d := SplitFullName(r);
    if !Blank(full) && (Blank(At(r, "first_name")) || Blank(At(r, "last_name"))) && |parts| >= 2 {
      assert d == FillNames(r, parts[0], Join(parts[1..], " "));
      FillNamesSpec(r, parts[0], Join(parts[1..], " "));
    } else {
      assert d == r;
    }
  }

  lemma SplitIdempotent(r: Row)
    ensures SplitFullName(SplitFullName(r)) == SplitFullName(r)
  {
    var full := At(r, "full_name");
    var parts := Split(Strip(Text(full)));
    if !Blank(full) && (Blank(At(r, "first_name")) || Blank(At(r, "last_name"))) && |parts| >= 2 {
      SplitTokens(Strip(Text(full)));
      assert parts[0] in parts;
      assert parts[1] in parts;
      JoinNonEmpty(parts[1..]);
      FilledIsFixed(r, parts[0], Join(parts[1..], " "));
    } else {
      assert SplitFullName(r) == r;
    }
  }

  /** Filling both names with non-empty words leaves nothing to split. */
  lemma FilledIsFixed(r: Row, first: string, last: string)
    requires first != "" && last != ""
    ensures SplitFullName(FillNames(r, first, last)) == FillNames(r, first, last)
  {
    var s := FillNames(r, first, last);
    FillNamesSpec(r, first, last);
    assert !Blank(At(s, "first_name"));
    assert !Blank(At(s, "last_name"));
  }

  lemma JoinNonEmpty(ts: seq<string>)
    requires |ts| > 0 && ts[0] != ""
    ensures Join(ts, " ") != ""
  {
    if |ts| > 1 {
      assert |Join(ts, " ")| >= |ts[0]|;
    }
  }

  /** `_handle_name_fields`, updating the rows of the frame in place: the
      first pass over all rows derives full names, the second splits them. */
  method HandleNameFields(columns: seq<string>, rows: array<Row>)
    modifies rows
    ensures forall i :: 0 <= i < rows.Length ==> rows[i] == HandleNames(columns, old(rows[i]))
  {
    if !HasNameColumns(columns) {
      return;
    }
    DeriveAll(rows);
    SplitAll(rows);
  }

  /** The first pass of `_handle_name_fields`. */
  method DeriveAll(rows: array<Row>)
    modifies rows
    ensures forall i :: 0 <= i < rows.Length ==> rows[i] == DeriveFullName(old(rows[i]))
  {
    ghost var orig := rows[..];
    var i := 0;
    while i < rows.Length
      invariant 0 <= i <= rows.Length
      invariant forall j :: 0 <= j < i ==> rows[j] == DeriveFullName(orig[j])
      invariant forall j :: i <= j < rows.Length ==> rows[j] == orig[j]
    {
      rows[i] := DeriveFullName(rows[i]);
      i := i + 1;
    }
  }

  /** The second pass of `_handle_name_fields`. */
  method SplitAll(rows: array<Row>)
    modifies rows
    ensures forall i :: 0 <= i < rows.Length ==> rows[i] == SplitFullName(old(rows[i]))
  {
    ghost var orig := rows[..];
    var i := 0;
    while i < rows.Length
      invariant 0 <= i <= rows.Length
      invariant forall j :: 0 <= j < i ==> rows[j] == SplitFullName(orig[j])
      invariant forall j :: i <= j < rows.Length ==> rows[j] == orig[j]
    {
      var r := SplitRow(rows[i]);
      rows[i] := r;
      i := i + 1;
    }
  }

  /** The body of the second pass for one row. */
  method SplitRow(row: Row) returns (r: Row)
    ensures r == SplitFullName(row)
  {
    r := row;
    var full := At(r, "full_name");
    if !Blank(full) && (Blank(At(r, "first_name")) || Blank(At(r, "last_name"))) {
      var parts := Split(Strip(Text(full)));
      if |parts| >= 2 {
        if Blank(At(r, "first_name")) {
          r := r["first_name" := Str(parts[0])];
        }
        if Blank(At(r, "last_name")) {
          r := r["last_name" := Str(Join(parts[1..], " "))];
        }
      }
    }
  }

  // ---------------------------------------------------------------------
  // map_to_unified_schema

  /** A frame by position: column labels (which may repeat after a
      rename) and rows of cells in column order. */
  datatype Table = Table(columns: seq<string>, rows: seq<seq<Cell>>)

  /** `rename_dict`: each mapped source field present among the columns,
      to its unified field, in mapping order. */
  function RenameDict(mappings: seq<(string, LlmService.MappingEntry)>, columns: seq<string>): seq<(string, string)>
  {
    if |mappings| == 0 then []
    else
      var rd := RenameDict(mappings[..|mappings| - 1], columns);
      var (source, info) := mappings[|mappings| - 1];
      if source in columns then Put(rd, source, info.unifiedField) else rd
  }

  /** The rename dictionary only names present source columns, each to a
      unified field the mapping gives it, and names every present mapped
      column. */
  lemma {:induction false} RenameDictSpec(mappings: seq<(string, LlmService.MappingEntry)>, columns: seq<string>)
    ensures forall c, u :: (c, u) in RenameDict(mappings, columns) ==>
              c in columns && exists e :: (c, e) in mappings && e.unifiedField == u
    ensures forall c :: c in Keys(RenameDict(mappings, columns)) <==> c in columns && c in Keys(mappings)
    decreases |mappings|
  {
    if |mappings| > 0 {
      var init := mappings[..|mappings| - 1];
      RenameDictSpec(init, columns);
      assert mappings == init + [mappings[|mappings| - 1]];
      assert mappings[|mappings| - 1] in mappings;
      assert forall e :: e in init ==> e in mappings;
      assert Keys(mappings) == Keys(init) + {mappings[|mappings| - 1].0} by {
        forall k | k in Keys(mappings) ensures k in Keys(init) + {mappings[|mappings| - 1].0} {
          var i :| 0 <= i < |mappings| && mappings[i].0 == k;
          if i < |init| { assert init[i].0 == k; }
        }
        forall k | k in Keys(init) ensures k in Keys(mappings) {
          var i :| 0 <= i < |init| && init[i].0 == k;
          assert mappings[i].0 == k;
        }
      }
    }
  }

  /** A column's label after `rename(columns=rename_dict)`. */
  function Renamed(rd: seq<(string, string)>, c: string): string
  {
    match Get(rd, c)
    case Some(u) => u
    case None => c
  }

  /** The positions whose label is `k`, in order. */
  function Positions(labels: seq<string>, k: string): (ps: seq<nat>)
    ensures forall j :: 0 <= j < |labels| ==> (j in ps <==> labels[j] == k)
    ensures forall a, b :: 0 <= a < b < |ps| ==> ps[a] < ps[b]
    ensures forall a :: 0 <= a < |ps| ==> ps[a] < |labels| && labels[ps[a]] == k
  {
    if |labels| == 0 then []
    else
      var ps := Positions(labels[..|labels| - 1], k);
      if labels[|labels| - 1] == k then ps + [|labels| - 1] else ps
  }

  /** The columns `mapped_df[available_columns]` selects for one unified
      field `k`: each column of the renamed frame labelled `k`, or the
      all-None column added for it. */
  function Here(labels: seq<string>, k: string): (h: seq<(string, Option<nat>)>)
    ensures |h| >= 1
    ensures forall e :: e in h ==> e.0 == k
    ensures forall e :: e in h && e.1.Some? ==> e.1.value < |labels| && labels[e.1.value] == k
    ensures forall e :: e in h && e.1.None? ==> k !in labels
    ensures |Positions(labels, k)| <= 1 ==> |h| == 1
    ensures forall j :: 0 <= j < |labels| && labels[j] == k ==> (k, Some(j)) in h
  {
    var ps := Positions(labels, k);
    if |ps| == 0 then
      assert forall j :: 0 <= j < |labels| ==> labels[j] != k;
      [(k, None)]
    else
      var h := seq(|ps|, a requires 0 <= a < |ps| => (k, Some(ps[a])));
      assert forall a :: 0 <= a < |ps| ==> h[a] == (k, Some(ps[a]));
      h
  }

  /** All selected columns, unified field by unified field in schema
      order. */
  function Selection(labels: seq<string>, keys: seq<string>): (sel: seq<(string, Option<nat>)>)
  {
    if |keys| == 0 then [] else Here(labels, keys[0]) + Selection(labels, keys[1..])
  }

  function CellAt(row: seq<Cell>, source: Option<nat>): Cell
  {
    if source.Some? && source.value < |row| then row[source.value] else NA
  }

  function SelectRow(row: seq<Cell>, sel: seq<(string, Option<nat>)>): (r: seq<Cell>)
    ensures |r| == |sel|
    ensures forall i :: 0 <= i < |sel| ==> r[i] == CellAt(row, sel[i].1)
  {
    seq(|sel|, i requires 0 <= i < |sel| => CellAt(row, sel[i].1))
  }

  function SelectRows(rows: seq<seq<Cell>>, sel: seq<(string, Option<nat>)>): (r: seq<seq<Cell>>)
    ensures |r| == |rows|
    ensures forall i :: 0 <= i < |rows| ==> r[i] == SelectRow(rows[i], sel)
  {
    seq(|rows|, i requires 0 <= i < |rows| => SelectRow(rows[i], sel))
  }

  function SelectedLabels(sel: seq<(string, Option<nat>)>): (ls: seq<string>)
    ensures |ls| == |sel|
    ensures forall i :: 0 <= i < |sel| ==> ls[i] == sel[i].0
  {
    seq(|sel|, i requires 0 <= i < |sel| => sel[i].0)
  }

  function RenamedLabels(rd: seq<(string, string)>, columns: seq<string>): (ls: seq<string>)
    ensures |ls| == |columns|
    ensures forall j :: 0 <= j < |columns| ==> ls[j] == Renamed(rd, columns[j])
  {
    seq(|columns|, j requires 0 <= j < |columns| => Renamed(rd, columns[j]))
  }

  /** The frame `map_to_unified_schema` returns. */
  function MapToUnified(t: Table, mappings: seq<(string, LlmService.MappingEntry)>, keys: seq<string>): Table
  {
    var sel := Selection(RenamedLabels(RenameDict(mappings, t.columns), t.columns), keys);
    Table(SelectedLabels(sel), SelectRows(t.rows, sel))
  }

  /** Every selected column is labelled by a unified field and comes from a
      column of the renamed frame with that label, or is the added all-None
      one of a field with no such column ... */
  lemma {:induction false} SelectionSound(labels: seq<string>, keys: seq<string>)
    ensures forall e :: e in Selection(labels, keys) ==> e.0 in keys
    ensures forall e :: e in Selection(labels, keys) && e.1.Some? ==> e.1.value < |labels| && labels[e.1.value] == e.0
    ensures forall e :: e in Selection(labels, keys) && e.1.None? ==> e.0 !in labels
    decreases |keys|
  {
    if |keys| > 0 {
      var h := Here(labels, keys[0]);
      var rest := Selection(labels, keys[1..]);
      SelectionSound(labels, keys[1..]);
      assert Selection(labels, keys) == h + rest;
      forall e: (string, Option<nat>) | e in h + rest ensures e.0 in keys {
        if e in rest {
          assert e.0 in keys[1..];
        }
      }
    }
  }

  /** ... and every unified field is selected. */
  lemma {:induction false} SelectionComplete(labels: seq<string>, keys: seq<string>)
    ensures forall k :: k in keys ==> Here(labels, k)[0] in Selection(labels, keys)
    ensures forall j :: 0 <= j < |labels| && labels[j] in keys ==> (labels[j], Some(j)) in Selection(labels, keys)
    decreases |keys|
  {
    if |keys| > 0 {
      var h := Here(labels, keys[0]);
      var rest := Selection(labels, keys[1..]);
      SelectionComplete(labels, keys[1..]);
      assert Selection(labels, keys) == h + rest;
      forall k | k in keys ensures Here(labels, k)[0] in h + rest {
        if k != keys[0] {
          assert k in keys[1..];
        }
      }
      forall j | 0 <= j < |labels| && labels[j] in keys ensures (labels[j], Some(j)) in h + rest {
        if labels[j] != keys[0] {
          assert labels[j] in keys[1..];
        }
      }
    }
  }

  /** When no two columns of the frame end up with the same unified label,
      the output columns are exactly the unified fields in schema order. */
  lemma {:induction false} SelectionExact(labels: seq<string>, keys: seq<string>)
    requires forall k :: k in keys ==> |Positions(labels, k)| <= 1
    ensures SelectedLabels(Selection(labels, keys)) == keys
    decreases |keys|
  {
    if |keys| > 0 {
      assert keys[0] in keys;
      assert forall k :: k in keys[1..] ==> k in keys;
      SelectionExact(labels, keys[1..]);
      var sel := Selection(labels, keys);
      var rest := Selection(labels, keys[1..]);
      assert |Here(labels, keys[0])| == 1;
      assert Here(labels, keys[0])[0] in Here(labels, keys[0]);
      forall i | 0 <= i < |keys| ensures SelectedLabels(sel)[i] == keys[i] {
        if i > 0 {
          assert sel[i] == rest[i - 1];
          assert SelectedLabels(rest)[i - 1] == keys[1..][i - 1];
        }
      }
    }
  }

  /** The output frame's columns are unified fields, all of them, and in
      schema order without repeats when no two source columns are renamed
      to the same field. */
  lemma MapToUnifiedColumns(t: Table, mappings: seq<(string, LlmService.MappingEntry)>, keys: seq<string>)
    ensures var out := MapToUnified(t, mappings, keys);
            var labels := RenamedLabels(RenameDict(mappings, t.columns), t.columns);
            && |out.rows| == |t.rows|
            && (forall c :: c in out.columns ==> c in keys)
            && (forall k :: k in keys ==> k in out.columns)
            && ((forall k :: k in keys ==> |Positions(labels, k)| <= 1) ==> out.columns == keys)
  {
    var labels := RenamedLabels(RenameDict(mappings, t.columns), t.columns);
    var sel := Selection(labels, keys);
    var out := MapToUnified(t, mappings, keys);
    SelectionSound(labels, keys);
    SelectionComplete(labels, keys);
    forall c | c in out.columns ensures c in keys {
      var i :| 0 <= i < |out.columns| && out.columns[i] == c;
      assert sel[i] in sel;
    }
    forall k | k in keys ensures k in out.columns {
      var e := Here(labels, k)[0];
      var i :| 0 <= i < |sel| && sel[i] == e;
      assert out.columns[i] == k;
    }
    if forall k :: k in keys ==> |Positions(labels, k)| <= 1 {
      SelectionExact(labels, keys);
    }
  }

  /** Each output cell is missing or copied from a source column whose new
      name is that output column's field: a source column renamed to
      something outside the schema feeds nothing, and a unified field no
      column is renamed to is missing in every row. */
  lemma MapToUnifiedCells(t: Table, mappings: seq<(string, LlmService.MappingEntry)>, keys: seq<string>)
    ensures var out := MapToUnified(t, mappings, keys);
            var labels := RenamedLabels(RenameDict(mappings, t.columns), t.columns);
            && (forall i, r :: 0 <= i < |out.columns| && 0 <= r < |t.rows| && out.columns[i] !in labels ==>
                  out.rows[r][i] == NA)
            && (forall i, r :: 0 <= i < |out.columns| && 0 <= r < |t.rows| && out.rows[r][i] != NA ==>
                  exists j :: 0 <= j < |t.rows[r]| && j < |labels| && labels[j] == out.columns[i] && out.rows[r][i] == t.rows[r][j])
  {
    var labels := RenamedLabels(RenameDict(mappings, t.columns), t.columns);
    var sel := Selection(labels, keys);
    var out := MapToUnified(t, mappings, keys);
    SelectionSound(labels, keys);
    SelectionComplete(labels, keys);
    forall i, r | 0 <= i < |out.columns| && 0 <= r < |t.rows|
      ensures out.columns[i] !in labels ==> out.rows[r][i] == NA
      ensures out.rows[r][i] != NA ==>
                exists j :: 0 <= j < |t.rows[r]| && j < |labels| && labels[j] == out.columns[i] && out.rows[r][i] == t.rows[r][j]
    {
      assert sel[i] in sel;
      assert out.rows[r][i] == CellAt(t.rows[r], sel[i].1);
    }
  }

  /** Each source column renamed to a unified field reaches the output: some
      output column with that label carries its values in every row. */
  lemma MapToUnifiedCellsComplete(t: Table, mappings: seq<(string, LlmService.MappingEntry)>, keys: seq<string>)
    ensures var out := MapToUnified(t, mappings, keys);
            var labels := RenamedLabels(RenameDict(mappings, t.columns), t.columns);
            forall j :: 0 <= j < |labels| && labels[j] in keys ==>
              exists i :: 0 <= i < |out.columns| && out.columns[i] == labels[j] &&
                forall r :: 0 <= r < |t.rows| && j < |t.rows[r]| ==> out.rows[r][i] == t.rows[r][j]
  {
    var labels := RenamedLabels(RenameDict(mappings, t.columns), t.columns);
    var sel := Selection(labels, keys);
    var out := MapToUnified(t, mappings, keys);
    SelectionComplete(labels, keys);
    forall j | 0 <= j < |labels| && labels[j] in keys
      ensures exists i :: 0 <= i < |out.columns| && out.columns[i] == labels[j] &&
                forall r :: 0 <= r < |t.rows| && j < |t.rows[r]| ==> out.rows[r][i] == t.rows[r][j]
    {
      var i :| 0 <= i < |sel| && sel[i] == (labels[j], Some(j));
      assert out.columns[i] == labels[j];
      forall r | 0 <= r < |t.rows| && j < |t.rows[r]| ensures out.rows[r][i] == t.rows[r][j] {
        assert out.rows[r][i] == CellAt(t.rows[r], sel[i].1);
      }
    }
  }

  /** When exactly one source column is renamed to an output column's field,
      that output column is a copy of it. */
  lemma MapToUnifiedCellsUnique(t: Table, mappings: seq<(string, LlmService.MappingEntry)>, keys: seq<string>)
    ensures var out := MapToUnified(t, mappings, keys);
            var labels := RenamedLabels(RenameDict(mappings, t.columns), t.columns);
            forall i: nat, j: nat :: i < |out.columns| && Positions(labels, out.columns[i]) == [j] ==>
              forall r :: 0 <= r < |t.rows| && j < |t.rows[r]| ==> out.rows[r][i] == t.rows[r][j]
  {
    var labels := RenamedLabels(RenameDict(mappings, t.columns), t.columns);
    var sel := Selection(labels, keys);
    var out := MapToUnified(t, mappings, keys);
    SelectionSound(labels, keys);
    forall i: nat, j: nat | i < |out.columns| && Positions(labels, out.columns[i]) == [j]
      ensures forall r :: 0 <= r < |t.rows| && j < |t.rows[r]| ==> out.rows[r][i] == t.rows[r][j]
    {
      SelectedSource(labels, keys, i, j);
      forall r | 0 <= r < |t.rows| && j < |t.rows[r]| ensures out.rows[r][i] == t.rows[r][j] {
        assert out.rows[r][i] == CellAt(t.rows[r], sel[i].1);
      }
    }
  }

  /** The selected column of an output position whose field labels exactly
      one column of the renamed frame is that column. */
  lemma SelectedSource(labels: seq<string>, keys: seq<string>, i: nat, j: nat)
    requires i < |Selection(labels, keys)|
    requires Positions(labels, Selection(labels, keys)[i].0) == [j]
    ensures Selection(labels, keys)[i].1 == Some(j)
  {
    var sel := Selection(labels, keys);
    var ps := Positions(labels, sel[i].0);
    SelectionSound(labels, keys);
    assert sel[i] in sel;
    assert ps[0] == j;
    assert labels[j] == sel[i].0;
    assert sel[i].1.Some? by {
      assert sel[i].0 in labels;
    }
    assert sel[i].1.value in ps;
  }



  /** The loop building `rename_dict`. */
  method BuildRenameDict(mappings: seq<(string, LlmService.MappingEntry)>, columns: seq<string>) returns (rd: seq<(string, string)>)
    ensures rd == RenameDict(mappings, columns)
  {
    rd := [];
    var i := 0;
    while i < |mappings|
      invariant 0 <= i <= |mappings|
      invariant rd == RenameDict(mappings[..i], columns)
    {
      assert mappings[..i + 1][..i] == mappings[..i];
      var (source, info) := mappings[i];
      if source in columns {
        rd := Put(rd, source, info.unifiedField);
      }
      i := i + 1;
    }
    assert mappings[..|mappings|] == mappings;
  }

  /** The loop over the unified fields that adds the missing ones, fused
      with the selection in schema order. */
  method BuildSelection(labels: seq<string>, keys: seq<string>) returns (sel: seq<(string, Option<nat>)>)
    ensures sel == Selection(labels, keys)
  {
    sel := [];
    var k := 0;
    while k < |keys|
      invariant 0 <= k <= |keys|
      invariant sel + Selection(labels, keys[k..]) == Selection(labels, keys)
    {
      var h := Here(labels, keys[k]);
      SelectionUnfold(labels, keys, k);
      Regroup(sel, h, Selection(labels, keys[k + 1..]), Selection(labels, keys));
      sel := sel + h;
      k := k + 1;
    }
    assert keys[|keys|..] == [];
  }

  /** The selection from key `k` on starts with that key's columns. */
  lemma SelectionUnfold(labels: seq<string>, keys: seq<string>, k: nat)
    requires k < |keys|
    ensures Selection(labels, keys[k..]) == Here(labels, keys[k]) + Selection(labels, keys[k + 1..])
  {
    assert keys[k..][1..] == keys[k + 1..];
  }

  lemma Regroup<T>(a: seq<T>, b: seq<T>, c: seq<T>, whole: seq<T>)
    requires a + (b + c) == whole
    ensures (a + b) + c == whole
  {
  }

  /** `map_to_unified_schema`: build the rename dictionary, rename, and
      select the unified fields in schema order, adding missing ones. */
  method MapToUnifiedSchema(t: Table, mappings: seq<(string, LlmService.MappingEntry)>, keys: seq<string>) returns (out: Table)
    ensures out == MapToUnified(t, mappings, keys)
  {
    var rd := BuildRenameDict(mappings, t.columns);
    var labels := RenamedLabels(rd, t.columns);
    var sel := BuildSelection(labels, keys);
    out := Table(SelectedLabels(sel), SelectRows(t.rows, sel));
  }

  // ---------------------------------------------------------------------
  // _process_field_mapping

  /** The per-field step of the agent's own mapping generation. */
  function ProcessFieldMapping(field: string, sourceFields: seq<string>, mapper: LlmService.Mapper)
    : (r: (string, Option<LlmService.MappingEntry>))
  {
    var (u, c) := mapper(field, sourceFields);
    if LlmService.Truthy(u) then
      (field, Some(LlmService.MappingEntry(u.value, c,
                     if c >= 0.9 then LlmService.High else if c >= 0.7 then LlmService.Medium else LlmService.Low)))
    else (field, None)
  }

  /** The agent's inline categorisation agrees with the mapper's, and a
      field without an answer gets no mapping. */
  lemma ProcessFieldMappingSpec(field: string, sourceFields: seq<string>, mapper: LlmService.Mapper)
    ensures var r := ProcessFieldMapping(field, sourceFields, mapper);
            && r.0 == field
            && (r.1.None? <==> !LlmService.Truthy(mapper(field, sourceFields).0))
            && (r.1.Some? ==>
                  && Some(r.1.value.unifiedField) == mapper(field, sourceFields).0
                  && r.1.value.confidence == mapper(field, sourceFields).1
                  && r.1.value.mappingType == LlmService.ConfidenceCategory(r.1.value.confidence))
  {
  }

  // ---------------------------------------------------------------------
  // validate_mapping

  /** One stored entry: its `unified_field` (None when absent) and its
      confidence (0 when absent). */
  datatype StoredEntry = StoredEntry(unifiedField: Option<string>, confidence: real)

  /** A stored mapping document: its `mappings` (empty when absent),
      whether `mapping_stats` and `generated_at` are present and truthy,
      and whether it has any other key. */
  datatype MappingDoc = MappingDoc(mappings: seq<(string, StoredEntry)>, hasStats: bool, hasTimestamp: bool, otherKeys: bool)

  /** Python truthiness of the document: a non-empty dictionary. */
  predicate DocTruthy(d: MappingDoc)
  {
    d.mappings != [] || d.hasStats || d.hasTimestamp || d.otherKeys
  }

  datatype Validation =
    | NoMappingFound
    | Checked(valid: bool, hasMappings: bool, hasStats: bool, hasTimestamp: bool,
              allUnifiedFieldsValid: bool, confidenceScoresValid: bool)

  predicate EntryFieldValid(e: StoredEntry, fields: set<string>)
  {
    e.unifiedField.Some? && e.unifiedField.value in fields
  }

  predicate EntryConfidenceValid(e: StoredEntry)
  {
    0.0 <= e.confidence <= 1.0
  }

  /** What `validate_mapping` returns for a document (or its absence)
      against the set of unified field names. */
  function ValidationOf(doc: Option<MappingDoc>, fields: set<string>): Validation
  {
    if doc.None? || !DocTruthy(doc.value) then NoMappingFound
    else
      var d := doc.value;
      var fieldsOk := forall i :: 0 <= i < |d.mappings| ==> EntryFieldValid(d.mappings[i].1, fields);
      var confOk := forall i :: 0 <= i < |d.mappings| ==> EntryConfidenceValid(d.mappings[i].1);
      Checked(d.mappings != [] && d.hasStats && fieldsOk && confOk,
              d.mappings != [], d.hasStats, d.hasTimestamp, fieldsOk, confOk)
  }

  predicate IsValid(v: Validation)
  {
    v.Checked? && v.valid
  }

  /** A mapping is valid exactly when it has entries and statistics and
      every entry names a unified field with a confidence in [0, 1]; the
      timestamp plays no part; no mapping is never valid. */
  lemma ValidationSpec(doc: Option<MappingDoc>, fields: set<string>, stamp: bool)
    ensures IsValid(ValidationOf(doc, fields)) <==>
              && doc.Some? && doc.value.mappings != [] && doc.value.hasStats
              && forall f, e :: (f, e) in doc.value.mappings ==>
                   e.unifiedField.Some? && e.unifiedField.value in fields && 0.0 <= e.confidence <= 1.0
    ensures doc.Some? ==>
              IsValid(ValidationOf(Some(doc.value.(hasTimestamp := stamp)), fields)) == IsValid(ValidationOf(doc, fields))
    ensures doc.None? ==> ValidationOf(doc, fields) == NoMappingFound
  {
    if doc.Some? {
      var d := doc.value;
      if forall f, e :: (f, e) in d.mappings ==> EntryFieldValid(e, fields) && EntryConfidenceValid(e) {
        forall i | 0 <= i < |d.mappings| ensures EntryFieldValid(d.mappings[i].1, fields) && EntryConfidenceValid(d.mappings[i].1) {
          assert (d.mappings[i].0, d.mappings[i].1) in d.mappings;
        }
      }
    }
  }

  // ---------------------------------------------------------------------
  // detect_if_unstructured

  /** One column: whether pandas stores it with the `object` dtype, and
      its values. */
  datatype Column = Column(isObject: bool, values: seq<Cell>)

  /** `dropna()`: every present value, and only those, as many times as
      they occur. */
  function Present(vs: seq<Cell>): (r: seq<Cell>)
    ensures forall c :: c in r ==> c in vs && c != NA
    ensures forall c :: c in vs && c != NA ==> c in r
    ensures multiset(r) == multiset(vs)[NA := 0]
    ensures |r| == |vs| - multiset(vs)[NA]
  {
    if |vs| == 0 then []
    else
      assert vs == [vs[0]] + vs[1..];
      if vs[0] == NA then Present(vs[1..])
      else [vs[0]] + Present(vs[1..])
  }

  /** `dropna()` keeps the order of the values: dropping from a
      concatenation is dropping from each part. */
  lemma {:induction false} PresentAppend(a: seq<Cell>, b: seq<Cell>)
    ensures Present(a + b) == Present(a) + Present(b)
    decreases |a|
  {
    var ab := a + b;
    if |a| > 0 {
      assert ab[0] == a[0];
      assert ab[1..] == a[1..] + b;
      PresentAppend(a[1..], b);
      if a[0] == NA {
        assert Present(ab) == Present(ab[1..]);
        assert Present(a) == Present(a[1..]);
      } else {
        assert Present(ab) == [a[0]] + Present(ab[1..]);
        assert Present(a) == [a[0]] + Present(a[1..]);
      }
    } else {
      assert ab == b;
    }
  }

  /** A string of more than five words. */
  predicate FreeText(c: Cell)
  {
    c.Str? && |Split(c.s)| > 5
  }

  /** An `object` column with free text among its first ten present values. */
  predicate TextColumn(c: Column)
  {
    var sample := Present(c.values);
    var sample := if |sample| > 10 then sample[..10] else sample;
    c.isObject && exists v :: v in sample && FreeText(v)
  }

  function TextColumnCount(cols: seq<Column>): (n: nat)
    ensures n <= |cols|
  {
    if |cols| == 0 then 0
    else TextColumnCount(cols[..|cols| - 1]) + (if TextColumn(cols[|cols| - 1]) then 1 else 0)
  }

  lemma TextColumnCountStep(cols: seq<Column>, i: nat)
    requires i < |cols|
    ensures TextColumnCount(cols[..i + 1]) == TextColumnCount(cols[..i]) + (if TextColumn(cols[i]) then 1 else 0)
  {
    assert cols[..i + 1][..i] == cols[..i];
  }

  /** What `detect_if_unstructured` returns. */
  function IsUnstructured(cols: seq<Column>): bool
  {
    if |cols| <= 1 then true
    else
      var threshold := if 2.0 > |cols| as real * 0.7 then 2.0 else |cols| as real * 0.7;
      TextColumnCount(cols) as real >= threshold
  }

  /** At most one column is always unstructured; with two, both must be
      free text; from three on, at least seven in ten must be. */
  lemma UnstructuredThreshold(cols: seq<Column>)
    ensures |cols| <= 1 ==> IsUnstructured(cols)
    ensures |cols| == 2 ==> (IsUnstructured(cols) <==> TextColumnCount(cols) == 2)
    ensures |cols| >= 3 ==> (IsUnstructured(cols) <==> 10 * TextColumnCount(cols) >= 7 * |cols|)
  {
    var n := TextColumnCount(cols);
    if |cols| >= 3 {
      assert |cols| as real * 0.7 >= 2.1;
      assert (n as real >= |cols| as real * 0.7) <==> (10 * n) as real >= (7 * |cols|) as real;
    }
  }

  /** The sampling loop of one column: looks at up to ten present values
      and stops at the first free text. */
  method IsTextColumn(c: Column) returns (b: bool)
    ensures b == TextColumn(c)
  {
    if !c.isObject {
      return false;
    }
    var sample := Present(c.values);
    sample := if |sample| > 10 then sample[..10] else sample;
    var j := 0;
    while j < |sample|
      invariant 0 <= j <= |sample|
      invariant forall k :: 0 <= k < j ==> !FreeText(sample[k])
    {
      var v := sample[j];
      if v.Str? && |Split(v.s)| > 5 {
        assert v in sample && FreeText(v);
        return true;
      }
      j := j + 1;
    }
    return false;
  }

  /** `detect_if_unstructured`. */
  method DetectIfUnstructured(cols: seq<Column>) returns (unstructured: bool)
    ensures unstructured == IsUnstructured(cols)
  {
    if |cols| <= 1 {
      return true;
    }
    var textColumns := 0;
    var i := 0;
    while i < |cols|
      invariant 0 <= i <= |cols|
      invariant textColumns == TextColumnCount(cols[..i])
    {
      TextColumnCountStep(cols, i);
      var isText := IsTextColumn(cols[i]);
      if isText {
        textColumns := textColumns + 1;
      }
      i := i + 1;
    }
    assert cols[..|cols|] == cols;
    var threshold := if 2.0 > |cols| as real * 0.7 then 2.0 else |cols| as real * 0.7;
    unstructured := textColumns as real >= threshold;
  }

  // ---------------------------------------------------------------------
  // The agent

  /** Once a source's mapping is stored, validating that source without a
      mapping checks the stored document, and every other source's lookup
      is as it was. */
  lemma StoredMappingValidated(store: seq<(string, MappingDoc)>, sourceName: string, doc: MappingDoc,
                               other: string, fields: set<string>)
    requires KeysDistinct(store)
    ensures ValidationOf(Get(Put(store, sourceName, doc), sourceName), fields) == ValidationOf(Some(doc), fields)
    ensures other != sourceName ==> Get(Put(store, sourceName, doc), other) == Get(store, other)
  {
    GetPut(store, sourceName, doc, sourceName);
    GetPut(store, sourceName, doc, other);
  }

  class SchemaAgent {
    var unifiedSchema: Schema
    var unmappedFields: seq<UnmappedEntry>
    var schemaMappings: seq<(string, MappingDoc)>
    const autoExtendSchema: bool

    /** The schema and the store of mappings are dictionaries, so no key
        occurs twice in either. */
    ghost predicate Valid()
      reads this
    {
      KeysDistinct(unifiedSchema) && KeysDistinct(schemaMappings)
    }

    /** The stored schema and unmapped log are what the files on disk
        held, if anything. */
    constructor(autoExtend: bool, storedSchema: Option<Schema>, storedUnmapped: seq<UnmappedEntry>)
      requires storedSchema.Some? ==> KeysDistinct(storedSchema.value)
      ensures Valid()
      ensures autoExtendSchema == autoExtend
      ensures unifiedSchema == if storedSchema.Some? then storedSchema.value else DefaultSchema
      ensures unmappedFields == storedUnmapped
      ensures schemaMappings == []
    {
      autoExtendSchema := autoExtend;
      unifiedSchema := if storedSchema.Some? then storedSchema.value else DefaultSchema;
      unmappedFields := storedUnmapped;
      schemaMappings := [];
    }

    /** `_extend_unified_schema`. */
    method ExtendUnifiedSchema(field: string)
      requires Valid()
      modifies this
      ensures Valid()
      ensures unifiedSchema == Extend(old(unifiedSchema), field)
      ensures unmappedFields == old(unmappedFields) && schemaMappings == old(schemaMappings)
    {
      if field !in Keys(unifiedSchema) {
        unifiedSchema := unifiedSchema + [(field, "")];
      }
    }

    /** The field loop of `process_structured_data` and its mapping info:
        accepted fields are mapped, the others logged here and in the
        agent's log, and, with auto-extension on, added to the schema when
        the oracle says so. */
    method ProcessStructuredFields(sourceFields: seq<string>, sourceName: string,
                                   mapper: LlmService.Mapper, shouldExtend: ExtendOracle)
      returns (info: MappingInfo)
      requires Valid()
      modifies this
      ensures Valid()
      ensures var p := PassOf(sourceFields, sourceFields, sourceName, mapper, autoExtendSchema, shouldExtend, old(unifiedSchema));
              && info == InfoOf(sourceName, sourceFields, p)
              && unifiedSchema == p.schema
              && unmappedFields == old(unmappedFields) + p.unmapped
      ensures schemaMappings == old(schemaMappings)
    {
      var fieldMappings: seq<(string, FieldMapping)> := [];
      var unmapped: seq<UnmappedEntry> := [];
      var i := 0;
      while i < |sourceFields|
        invariant 0 <= i <= |sourceFields|
        invariant Valid()
        invariant Pass(fieldMappings, unmapped, unifiedSchema)
                  == PassOf(sourceFields[..i], sourceFields, sourceName, mapper, autoExtendSchema, shouldExtend, old(unifiedSchema))
        invariant unmappedFields == old(unmappedFields) + unmapped
        invariant schemaMappings == old(schemaMappings)
      {
        ghost var log := unmappedFields;
        ghost var logged := unmapped;
        fieldMappings, unmapped := DecideField(sourceFields, i, sourceName, mapper, shouldExtend, old(unifiedSchema),
                                               fieldMappings, unmapped);
        assert old(unmappedFields) + (logged + Logged(sourceFields[i], sourceFields, sourceName, mapper))
               == (old(unmappedFields) + logged) + Logged(sourceFields[i], sourceFields, sourceName, mapper);
        i := i + 1;
      }
      assert sourceFields[..|sourceFields|] == sourceFields;
      info := MappingInfo(sourceName, fieldMappings, unmapped, |sourceFields|, |fieldMappings|,
                          if |sourceFields| > 0 then |fieldMappings| as real / |sourceFields| as real else 0.0);
    }

    /** The body of the field loop of `process_structured_data`: map the
        field, or log it (here and in the agent's log) and, with
        auto-extension on, add it to the schema when the oracle says so. */
    method DecideField(sourceFields: seq<string>, i: nat, sourceName: string,
                       mapper: LlmService.Mapper, shouldExtend: ExtendOracle, ghost schema0: Schema,
                       fieldMappings: seq<(string, FieldMapping)>, unmapped: seq<UnmappedEntry>)
      returns (fieldMappings': seq<(string, FieldMapping)>, unmapped': seq<UnmappedEntry>)
      requires Valid()
      requires i < |sourceFields|
      requires Pass(fieldMappings, unmapped, unifiedSchema)
               == PassOf(sourceFields[..i], sourceFields, sourceName, mapper, autoExtendSchema, shouldExtend, schema0)
      modifies this
      ensures Valid()
      ensures Pass(fieldMappings', unmapped', unifiedSchema)
              == PassOf(sourceFields[..i + 1], sourceFields, sourceName, mapper, autoExtendSchema, shouldExtend, schema0)
      ensures unmapped' == unmapped + Logged(sourceFields[i], sourceFields, sourceName, mapper)
      ensures unmappedFields == old(unmappedFields) + Logged(sourceFields[i], sourceFields, sourceName, mapper)
      ensures schemaMappings == old(schemaMappings)
    {
      assert sourceFields[..i + 1][..i] == sourceFields[..i];
      var field := sourceFields[i];
      fieldMappings', unmapped' := fieldMappings, unmapped;
      var answer := mapper(field, sourceFields);
      if LlmService.Truthy(answer.0) && answer.1 > 0.5 {
        fieldMappings' := Put(fieldMappings', field, FieldMapping(answer.0.value, answer.1, false));
      } else {
        var entry := UnmappedEntry(field, sourceName, answer.1, sourceFields);
        unmapped' := unmapped' + [entry];
        unmappedFields := unmappedFields + [entry];
        if autoExtendSchema && shouldExtend(field, sourceFields) {
          ExtendUnifiedSchema(field);
          fieldMappings' := Put(fieldMappings', field, FieldMapping(field, 0.8, true));
        }
      }
    }

    /** `self.schema_mappings[source_name] = mapping_result`, the store at
        the end of `generate_schema_mapping`. */
    method StoreMapping(sourceName: string, doc: MappingDoc)
      requires Valid()
      modifies this
      ensures Valid()
      ensures schemaMappings == Put(old(schemaMappings), sourceName, doc)
      ensures unifiedSchema == old(unifiedSchema) && unmappedFields == old(unmappedFields)
    {
      PutDistinct(schemaMappings, sourceName, doc);
      schemaMappings := Put(schemaMappings, sourceName, doc);
    }

    /** `validate_mapping`: the given document, or else the one stored for
        the source, checked against the agent's current schema. */
    method ValidateMapping(sourceName: string, mapping: Option<MappingDoc>) returns (r: Validation)
      ensures r == ValidationOf(if mapping.Some? then mapping else Get(schemaMappings, sourceName), Keys(unifiedSchema))
    {
      var doc := if mapping.Some? then mapping else Get(schemaMappings, sourceName);
      if doc.None? || !DocTruthy(doc.value) {
        return NoMappingFound;
      }
      var d := doc.value;
      var fields := Keys(unifiedSchema);
      var fieldsOk, confOk := true, true;
      var i := 0;
      while i < |d.mappings|
        invariant 0 <= i <= |d.mappings|
        invariant fieldsOk <==> forall j :: 0 <= j < i ==> EntryFieldValid(d.mappings[j].1, fields)
        invariant confOk <==> forall j :: 0 <= j < i ==> EntryConfidenceValid(d.mappings[j].1)
      {
        var e := d.mappings[i].1;
        if !(e.unifiedField.Some? && e.unifiedField.value in fields) {
          fieldsOk := false;
        }
        if !(0.0 <= e.confidence <= 1.0) {
          confOk := false;
        }
        i := i + 1;
      }
      r := Checked(d.mappings != [] && d.hasStats && fieldsOk && confOk,
                   d.mappings != [], d.hasStats, d.hasTimestamp, fieldsOk, confOk);
    }
  }
}
