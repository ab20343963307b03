/**
 * Record scoring, acceptance, per-source ranking and merging of the
 * profile matching agent.
 *
 * A record is a row of a unified data frame: its column names in frame
 * order plus a map from column name to cell text (missing cells are the
 * empty string, as after `fillna('')`). The data pool is an ordered
 * sequence of (source name, frame) pairs, keeping the insertion order of
 * the dictionary the agent iterates over.
 */
module ProfileMatching {
  import opened Wrappers
  import opened Strings
  import opened ProfileScoring

  /** A record: each present column's value as `str(value)`. The
      truthiness of non-string values (a `0` or `0.0` cell is falsy) is
      not kept. */
  type Row = map<string, string>

  /** A search query: (unified field, value) pairs in dictionary order. */
  type Query = seq<(string, string)>

  /** The `mappings` of one source's schema map: (source field, unified
      field) pairs in file order. */
  type SchemaMapping = seq<(string, string)>

  datatype Frame = Frame(columns: seq<string>, rows: seq<Row>)

  type FieldScores = map<string, real>

  // ---------------------------------------------------------------------
  // Weights

  /** The keys of MATCH_WEIGHTS, in declaration order. */
  const WeightFields: seq<string> := ["national_id", "full_name", "dob", "email", "phone"]

  /** MATCH_WEIGHTS.get(field, 0). */
  function Weight(f: string): (w: real)
    ensures f in WeightFields <==> w > 0.0
    ensures w >= 0.0
  {
    if f == "national_id" then 0.15
    else if f == "full_name" then 0.45
    else if f == "dob" then 0.25
    else if f == "email" then 0.10
    else if f == "phone" then 0.05
    else 0.0
  }

  // ---------------------------------------------------------------------
  // Which columns a query field is compared against

  /** _get_field_mapping, as a specification: the source fields mapped to
      `field`, in mapping order. */
  function MappedFields(sm: SchemaMapping, field: string): seq<string>
  {
    if |sm| == 0 then []
    else
      var init := MappedFields(sm[..|sm| - 1], field);
      if sm[|sm| - 1].1 == field then init + [sm[|sm| - 1].0] else init
  }

  /** A source field is listed exactly when the mapping sends it to the
      field. */
  lemma {:induction false} MappedFieldsSpec(sm: SchemaMapping, field: string)
    ensures forall c :: c in MappedFields(sm, field) <==> (c, field) in sm
  {
    if |sm| > 0 {
      var init := sm[..|sm| - 1];
      MappedFieldsSpec(init, field);
      assert sm == init + [sm[|sm| - 1]];
    }
  }

  /** _get_field_mapping. */
  method GetFieldMapping(sm: SchemaMapping, field: string) returns (r: seq<string>)
    ensures r == MappedFields(sm, field)
  {
    r := [];
    var i := 0;
    while i < |sm|
      invariant 0 <= i <= |sm|
      invariant r == MappedFields(sm[..i], field)
    {
      assert sm[..i + 1][..i] == sm[..i];
      if sm[i].1 == field {
        r := r + [sm[i].0];
      }
      i := i + 1;
    }
    assert sm[..|sm|] == sm;
  }

  /** The columns satisfying `p`, in column order. */
  function FilterColumns(cols: seq<string>, p: string -> bool): (r: seq<string>)
    ensures forall c :: c in r <==> c in cols && p(c)
  {
    if |cols| == 0 then []
    else
      var init := FilterColumns(cols[..|cols| - 1], p);
      var c := cols[|cols| - 1];
      assert cols == cols[..|cols| - 1] + [c];
      if p(c) then init + [c] else init
  }

  predicate IsNameColumn(col: string)
  {
    Contains(Lower(col), "full_name") || Contains(Lower(col), "name")
  }

  predicate IsIdColumn(col: string)
  {
    Contains(Lower(col), "id") || Contains(Lower(col), "customer_id") || Contains(Lower(col), "national_id")
  }

  /** The source fields of a query field: the schema mapping's when it has
      any, otherwise the column of the same name, otherwise (for the name
      and the identifier only) every column whose name suggests it. */
  function SourceFields(sm: SchemaMapping, field: string, cols: seq<string>, row: Row): seq<string>
  {
    var mapped := MappedFields(sm, field);
    if mapped != [] then mapped
    else if field in row then [field]
    else if field == "full_name" then FilterColumns(cols, IsNameColumn)
    else if field == "national_id" then FilterColumns(cols, IsIdColumn)
    else []
  }

  /** Without a schema mapping, the source fields are the column of the
      same name if there is one, and otherwise, for the name and the
      identifier, exactly the columns whose name suggests that field. */
  lemma SourceFieldsFallback(sm: SchemaMapping, field: string, cols: seq<string>, row: Row)
    requires forall p :: p in sm ==> p.1 != field
    ensures field in row ==> SourceFields(sm, field, cols, row) == [field]
    ensures field !in row && field == "full_name" ==>
      forall c :: c in SourceFields(sm, field, cols, row) <==> c in cols && IsNameColumn(c)
    ensures field !in row && field == "national_id" ==>
      forall c :: c in SourceFields(sm, field, cols, row) <==> c in cols && IsIdColumn(c)
    ensures field !in row && field != "full_name" && field != "national_id" ==>
      SourceFields(sm, field, cols, row) == []
  {
    MappedFieldsSpec(sm, field);
    if MappedFields(sm, field) != [] {
      assert MappedFields(sm, field)[0] in MappedFields(sm, field);
    }
  }

  // ---------------------------------------------------------------------
  // The score of one query field against one record

  /** The name parts of the combined-name rule: the stripped non-empty
      values of the source fields, first occurrence only, in order. */
  function NameParts(srcs: seq<string>, row: Row): seq<string>
  {
    if |srcs| == 0 then []
    else
      var parts := NameParts(srcs[..|srcs| - 1], row);
      var c := srcs[|srcs| - 1];
      if c in row && row[c] != "" && Strip(row[c]) != "" && Strip(row[c]) !in parts
      then parts + [Strip(row[c])]
      else parts
  }

  /** Name parts are distinct. */
  lemma {:induction false} NamePartsDistinct(srcs: seq<string>, row: Row)
    ensures forall i, j :: 0 <= i < j < |NameParts(srcs, row)| ==> NameParts(srcs, row)[i] != NameParts(srcs, row)[j]
  {
    if |srcs| > 0 {
      var init := srcs[..|srcs| - 1];
      var c := srcs[|srcs| - 1];
      NamePartsDistinct(init, row);
      var p0 := NameParts(init, row);
      var ps := NameParts(srcs, row);
      if c in row && row[c] != "" && Strip(row[c]) != "" && Strip(row[c]) !in p0 {
        assert ps == p0 + [Strip(row[c])];
        forall i, j | 0 <= i < j < |ps| ensures ps[i] != ps[j] {
          if j == |p0| {
            assert ps[i] == p0[i];
          }
        }
      } else {
        assert ps == p0;
      }
    }
  }

  /** The name parts are exactly the non-empty stripped values of the
      present source fields. */
  lemma {:induction false} NamePartsMembers(srcs: seq<string>, row: Row)
    ensures forall p :: p in NameParts(srcs, row) <==>
      p != "" && exists c :: c in srcs && c in row && p == Strip(row[c])
  {
    if |srcs| > 0 {
      var init := srcs[..|srcs| - 1];
      var c := srcs[|srcs| - 1];
      NamePartsMembers(init, row);
      var p0 := NameParts(init, row);
      var ps := NameParts(srcs, row);
      assert srcs == init + [c];
      if c in row && row[c] != "" && Strip(row[c]) != "" && Strip(row[c]) !in p0 {
        assert ps == p0 + [Strip(row[c])];
      } else {
        assert ps == p0;
        if c in row && row[c] == "" {
          StripEmpty();
        }
      }
      forall p | p in ps ensures p != "" && exists d :: d in srcs && d in row && p == Strip(row[d]) {
        if p !in p0 {
          assert c in srcs && p == Strip(row[c]);
        } else {
          var d :| d in init && d in row && p == Strip(row[d]);
          assert d in srcs;
        }
      }
      forall p | p != "" && exists d :: d in srcs && d in row && p == Strip(row[d]) ensures p in ps {
        var d :| d in srcs && d in row && p == Strip(row[d]);
        if d in init {
          assert p in p0;
        } else {
          assert d == c;
        }
      }
    }
  }

  /** The score of the query value against one column of the record (the
      body of the source-field loop of _calculate_match_score, with the
      score computed afresh for every column). */
  function ColumnScore(o: Oracles, field: string, value: string, col: string, srcs: seq<string>, row: Row): real
    requires col in row
  {
    var rv := row[col];
    if field == "national_id" then IdScore(o, value, rv)
    else if field == "full_name" then
      var individual := NameScore(o, value, rv);
      var parts := NameParts(srcs, row);
      if Contains(col, "full_name") && |srcs| > 1 && |parts| > 1
      then Max(NameScore(o, value, Join(parts, " ")), individual)
      else individual
    else if field == "dob" then DateScore(o, value, rv)
    else if field == "email" then EmailScore(o, value, rv)
    else if field == "phone" then PhoneScore(o, value, rv)
    else o.ratio(Lower(value), Lower(rv))
  }

  /** The best column score over the first `n` source fields, starting
      from 0 and skipping fields the record lacks. */
  function BestOver(o: Oracles, field: string, value: string, srcs: seq<string>, row: Row, n: nat): real
    requires n <= |srcs|
  {
    if n == 0 then 0.0
    else
      var acc := BestOver(o, field, value, srcs, row, n - 1);
      var c := srcs[n - 1];
      if c in row then Max(acc, ColumnScore(o, field, value, c, srcs, row)) else acc
  }

  /** The best score is the maximum of 0 and every present column's score. */
  lemma BestOverIsMax(o: Oracles, field: string, value: string, srcs: seq<string>, row: Row, n: nat)
    requires n <= |srcs|
    ensures BestOver(o, field, value, srcs, row, n) >= 0.0
    ensures forall i :: 0 <= i < n && srcs[i] in row ==>
      ColumnScore(o, field, value, srcs[i], srcs, row) <= BestOver(o, field, value, srcs, row, n)
    ensures BestOver(o, field, value, srcs, row, n) == 0.0 ||
      exists i :: 0 <= i < n && srcs[i] in row &&
        BestOver(o, field, value, srcs, row, n) == ColumnScore(o, field, value, srcs[i], srcs, row)
  {
    BestOverNonNegative(o, field, value, srcs, row, n);
    BestOverBounds(o, field, value, srcs, row, n);
    BestOverAttained(o, field, value, srcs, row, n);
  }

  /** The best score is never negative. */
  lemma {:induction false} BestOverNonNegative(o: Oracles, field: string, value: string, srcs: seq<string>, row: Row, n: nat)
    requires n <= |srcs|
    ensures BestOver(o, field, value, srcs, row, n) >= 0.0
  {
    if n > 0 {
      BestOverNonNegative(o, field, value, srcs, row, n - 1);
      var acc := BestOver(o, field, value, srcs, row, n - 1);
      var best := BestOver(o, field, value, srcs, row, n);
      assert acc <= best;
    }
  }

  /** The best score is at least every present column's score. */
  lemma {:induction false} BestOverBounds(o: Oracles, field: string, value: string, srcs: seq<string>, row: Row, n: nat)
    requires n <= |srcs|
    ensures forall i :: 0 <= i < n && srcs[i] in row ==>
      ColumnScore(o, field, value, srcs[i], srcs, row) <= BestOver(o, field, value, srcs, row, n)
  {
    if n > 0 {
      BestOverBounds(o, field, value, srcs, row, n - 1);
      var acc := BestOver(o, field, value, srcs, row, n - 1);
      var best := BestOver(o, field, value, srcs, row, n);
      assert acc <= best;
      forall i | 0 <= i < n && srcs[i] in row
        ensures ColumnScore(o, field, value, srcs[i], srcs, row) <= best
      {
        if i < n - 1 {
          assert ColumnScore(o, field, value, srcs[i], srcs, row) <= acc;
        }
      }
    }
  }

  /** A positive best score is some present column's score. */
  lemma {:induction false} BestOverAttained(o: Oracles, field: string, value: string, srcs: seq<string>, row: Row, n: nat)
    requires n <= |srcs|
    ensures BestOver(o, field, value, srcs, row, n) == 0.0 ||
      exists i :: 0 <= i < n && srcs[i] in row &&
        BestOver(o, field, value, srcs, row, n) == ColumnScore(o, field, value, srcs[i], srcs, row)
  {
    if n > 0 {
      BestOverAttained(o, field, value, srcs, row, n - 1);
      var acc := BestOver(o, field, value, srcs, row, n - 1);
      var best := BestOver(o, field, value, srcs, row, n);
      var c := srcs[n - 1];
      if c in row {
        var s := ColumnScore(o, field, value, c, srcs, row);
        assert best == Max(acc, s);
        if acc < s {
          assert srcs[n - 1] in row && best == ColumnScore(o, field, value, srcs[n - 1], srcs, row);
        } else {
          assert best == acc;
        }
      } else {
        assert best == acc;
      }
    }
  }

  /** The score recorded for a query field, if positive. */
  function FieldBest(o: Oracles, field: string, value: string, cols: seq<string>, row: Row, sm: SchemaMapping): real
  {
    var srcs := SourceFields(sm, field, cols, row);
    BestOver(o, field, value, srcs, row, |srcs|)
  }

  /** The field scores of _calculate_match_score: for every query field
      with a weight, its best score, recorded only when positive. */
  function ScoreFields(o: Oracles, query: Query, cols: seq<string>, row: Row, sm: SchemaMapping): FieldScores
  {
    if |query| == 0 then map[]
    else ScoreStep(o, ScoreFields(o, query[..|query| - 1], cols, row, sm), query[|query| - 1], cols, row, sm)
  }

  /** One query entry's contribution to the field scores. */
  function ScoreStep(o: Oracles, fs: FieldScores, entry: (string, string), cols: seq<string>, row: Row, sm: SchemaMapping)
    : FieldScores
  {
    var (f, v) := entry;
    if f !in WeightFields then fs
    else
      var best := FieldBest(o, f, v, cols, row, sm);
      if best > 0.0 then fs[f := best] else fs
  }

  /** Only weighted query fields are scored, every recorded score is
      positive and is the best score of a query entry for that field, and
      every weighted query field with a positive best score is recorded. */
  lemma {:induction false} ScoreFieldsSpec(o: Oracles, query: Query, cols: seq<string>, row: Row, sm: SchemaMapping)
    ensures forall k :: k in ScoreFields(o, query, cols, row, sm) ==>
      k in WeightFields && ScoreFields(o, query, cols, row, sm)[k] > 0.0 &&
      exists i :: 0 <= i < |query| && query[i].0 == k &&
        ScoreFields(o, query, cols, row, sm)[k] == FieldBest(o, k, query[i].1, cols, row, sm)
    ensures forall i :: (0 <= i < |query| && query[i].0 in WeightFields &&
      FieldBest(o, query[i].0, query[i].1, cols, row, sm) > 0.0) ==> query[i].0 in ScoreFields(o, query, cols, row, sm)
  {
    if |query| > 0 {
      var init := query[..|query| - 1];
      ScoreFieldsSpec(o, init, cols, row, sm);
      var fs := ScoreFields(o, query, cols, row, sm);
      var fs0 := ScoreFields(o, init, cols, row, sm);
      forall k | k in fs
        ensures exists i :: 0 <= i < |query| && query[i].0 == k && fs[k] == FieldBest(o, k, query[i].1, cols, row, sm)
      {
        var (f, v) := query[|query| - 1];
        if k == f && f in WeightFields && FieldBest(o, f, v, cols, row, sm) > 0.0 {
          var i := |query| - 1;
          assert query[i].0 == k && fs[k] == FieldBest(o, k, query[i].1, cols, row, sm);
        } else {
          assert k in fs0;
          var i :| 0 <= i < |init| && init[i].0 == k && fs0[k] == FieldBest(o, k, init[i].1, cols, row, sm);
          assert query[i] == init[i];
        }
      }
      forall i | 0 <= i < |query| && query[i].0 in WeightFields && FieldBest(o, query[i].0, query[i].1, cols, row, sm) > 0.0
        ensures query[i].0 in fs
      {
        if i < |init| {
          assert init[i] == query[i];
        }
      }
    }
  }

  /** Inserting a field whose best score is 0 anywhere into the query
      changes no recorded score: a queried field that scores 0 never
      lowers the overall score. */
  lemma {:induction false} ZeroFieldNeutral(o: Oracles, q1: Query, f: string, v: string, q2: Query,
                                            cols: seq<string>, row: Row, sm: SchemaMapping)
    requires !(f in WeightFields && FieldBest(o, f, v, cols, row, sm) > 0.0)
    ensures ScoreFields(o, q1 + [(f, v)] + q2, cols, row, sm) == ScoreFields(o, q1 + q2, cols, row, sm)
    ensures OverallScore(ScoreFields(o, q1 + [(f, v)] + q2, cols, row, sm)) ==
            OverallScore(ScoreFields(o, q1 + q2, cols, row, sm))
    decreases |q2|
  {
    if |q2| == 0 {
      assert q1 + [(f, v)] + q2 == q1 + [(f, v)];
      assert (q1 + [(f, v)])[..|q1|] == q1;
      assert q1 + q2 == q1;
    } else {
      var init := q2[..|q2| - 1];
      ZeroFieldNeutral(o, q1, f, v, init, cols, row, sm);
      var a := q1 + [(f, v)] + q2;
      var b := q1 + q2;
      assert a[..|a| - 1] == q1 + [(f, v)] + init;
      assert b[..|b| - 1] == q1 + init;
      assert a[|a| - 1] == q2[|q2| - 1] == b[|b| - 1];
      assert ScoreFields(o, a, cols, row, sm) == ScoreStep(o, ScoreFields(o, a[..|a| - 1], cols, row, sm), a[|a| - 1], cols, row, sm);
      assert ScoreFields(o, b, cols, row, sm) == ScoreStep(o, ScoreFields(o, b[..|b| - 1], cols, row, sm), b[|b| - 1], cols, row, sm);
    }
  }

  // ---------------------------------------------------------------------
  // The weighted average

  /** Σ score·weight over the recorded fields among `fields`. */
  function SumOver(fields: seq<string>, fs: FieldScores, wt: string -> real): real
  {
    if |fields| == 0 then 0.0
    else
      var f := fields[|fields| - 1];
      SumOver(fields[..|fields| - 1], fs, wt) + (if f in fs then fs[f] * wt(f) else 0.0)
  }

  /** Σ weight over the recorded fields among `fields`. */
  function TotalOver(fields: seq<string>, fs: FieldScores, wt: string -> real): real
  {
    if |fields| == 0 then 0.0
    else
      var f := fields[|fields| - 1];
      TotalOver(fields[..|fields| - 1], fs, wt) + (if f in fs then wt(f) else 0.0)
  }

  /** Σ score·weight / Σ weight over the recorded fields among `fields`,
      0 when their weights sum to 0. */
  function WeightedAverage(fields: seq<string>, fs: FieldScores, wt: string -> real): real
  {
    var total := TotalOver(fields, fs, wt);
    if total > 0.0 then SumOver(fields, fs, wt) / total else 0.0
  }

  /** The overall score: the weighted average of the recorded field
      scores, 0 when none is recorded. */
  function OverallScore(fs: FieldScores): real
  {
    if |fs| == 0 then 0.0 else WeightedAverage(WeightFields, fs, Weight)
  }

  lemma {:induction false} TotalNonNegative(fields: seq<string>, fs: FieldScores, wt: string -> real)
    requires forall f :: wt(f) >= 0.0
    ensures TotalOver(fields, fs, wt) >= 0.0
  {
    if |fields| > 0 {
      TotalNonNegative(fields[..|fields| - 1], fs, wt);
    }
  }

  lemma LowerStep(t0: real, s0: real, w: real, x: real, lo: real)
    requires w >= 0.0 && lo <= x && lo * t0 <= s0
    ensures lo * (t0 + w) <= s0 + x * w
  {
    assert lo * w <= x * w;
  }

  lemma UpperStep(t0: real, s0: real, w: real, x: real, hi: real)
    requires w >= 0.0 && x <= hi && s0 <= hi * t0
    ensures s0 + x * w <= hi * (t0 + w)
  {
    assert x * w <= hi * w;
  }

  lemma DivBounds(s: real, t: real, lo: real, hi: real)
    requires t > 0.0 && lo * t <= s <= hi * t
    ensures lo <= s / t <= hi
  {
    assert (s / t) * t == s;
  }

  lemma {:induction false} WeightedLower(fields: seq<string>, fs: FieldScores, wt: string -> real, lo: real)
    requires forall f :: wt(f) >= 0.0
    requires forall k :: k in fs ==> lo <= fs[k]
    ensures lo * TotalOver(fields, fs, wt) <= SumOver(fields, fs, wt)
  {
    if |fields| > 0 {
      var init := fields[..|fields| - 1];
      var f := fields[|fields| - 1];
      WeightedLower(init, fs, wt, lo);
      var t0, s0 := TotalOver(init, fs, wt), SumOver(init, fs, wt);
      var t, s := TotalOver(fields, fs, wt), SumOver(fields, fs, wt);
      if f in fs {
        var w, x := wt(f), fs[f];
        assert t == t0 + w && s == s0 + x * w;
        LowerStep(t0, s0, w, x, lo);
        assert lo * t == lo * (t0 + w);
      } else {
        assert t == t0 && s == s0;
      }
      assert lo * t <= s;
    } else {
      assert TotalOver(fields, fs, wt) == 0.0 && SumOver(fields, fs, wt) == 0.0;
      assert lo * 0.0 == 0.0;
    }
  }

  lemma {:induction false} WeightedUpper(fields: seq<string>, fs: FieldScores, wt: string -> real, hi: real)
    requires forall f :: wt(f) >= 0.0
    requires forall k :: k in fs ==> fs[k] <= hi
    ensures SumOver(fields, fs, wt) <= hi * TotalOver(fields, fs, wt)
  {
    if |fields| > 0 {
      var init := fields[..|fields| - 1];
      var f := fields[|fields| - 1];
      WeightedUpper(init, fs, wt, hi);
      var t0, s0 := TotalOver(init, fs, wt), SumOver(init, fs, wt);
      var t, s := TotalOver(fields, fs, wt), SumOver(fields, fs, wt);
      if f in fs {
        var w, x := wt(f), fs[f];
        assert t == t0 + w && s == s0 + x * w;
        UpperStep(t0, s0, w, x, hi);
        assert hi * t == hi * (t0 + w);
      } else {
        assert t == t0 && s == s0;
      }
      assert s <= hi * t;
    } else {
      assert TotalOver(fields, fs, wt) == 0.0 && SumOver(fields, fs, wt) == 0.0;
      assert hi * 0.0 == 0.0;
    }
  }

  lemma {:induction false} TotalPositive(fields: seq<string>, fs: FieldScores, wt: string -> real, k: string)
    requires forall f :: wt(f) >= 0.0
    requires k in fields && k in fs && wt(k) > 0.0
    ensures TotalOver(fields, fs, wt) > 0.0
  {
    var init := fields[..|fields| - 1];
    TotalNonNegative(init, fs, wt);
    if fields[|fields| - 1] != k {
      assert fields == init + [fields[|fields| - 1]];
      TotalPositive(init, fs, wt, k);
    }
  }

  /** A weighted average with non-negative weights, one of them positive
      on a recorded field, lies between the bounds of the field scores. */
  lemma AverageBetween(fields: seq<string>, fs: FieldScores, wt: string -> real, k: string, lo: real, hi: real)
    requires forall f :: wt(f) >= 0.0
    requires k in fields && k in fs && wt(k) > 0.0
    requires forall f :: f in fs ==> lo <= fs[f] <= hi
    ensures lo <= WeightedAverage(fields, fs, wt) <= hi
  {
    TotalPositive(fields, fs, wt, k);
    WeightedLower(fields, fs, wt, lo);
    WeightedUpper(fields, fs, wt, hi);
    DivBounds(SumOver(fields, fs, wt), TotalOver(fields, fs, wt), lo, hi);
  }

  /** The overall score lies between the lowest and the highest recorded
      field score. */
  lemma OverallBetween(fs: FieldScores, lo: real, hi: real)
    requires |fs| > 0
    requires forall k :: k in fs ==> k in WeightFields
    requires forall k :: k in fs ==> lo <= fs[k] <= hi
    ensures lo <= OverallScore(fs) <= hi
  {
    var k :| k in fs;
    AverageBetween(WeightFields, fs, Weight, k, lo, hi);
  }

  // ---------------------------------------------------------------------
  // _calculate_match_score

  /** The name-part loop of the combined-name rule. */
  method CollectNameParts(srcs: seq<string>, row: Row) returns (parts: seq<string>)
    ensures parts == NameParts(srcs, row)
  {
    parts := [];
    var i := 0;
    while i < |srcs|
      invariant 0 <= i <= |srcs|
      invariant parts == NameParts(srcs[..i], row)
    {
      assert srcs[..i + 1][..i] == srcs[..i];
      var c := srcs[i];
      if c in row && row[c] != "" {
        var part := Strip(row[c]);
        if part != "" && part !in parts {
          parts := parts + [part];
        }
      }
      i := i + 1;
    }
    assert srcs[..|srcs|] == srcs;
  }

  /** The source-field loop: the best score of one query field over its
      source fields. */
  method BestFieldScore(o: Oracles, field: string, value: string, srcs: seq<string>, row: Row)
    returns (best: real)
    ensures best == BestOver(o, field, value, srcs, row, |srcs|)
  {
    best := 0.0;
    var i := 0;
    while i < |srcs|
      invariant 0 <= i <= |srcs|
      invariant best == BestOver(o, field, value, srcs, row, i)
    {
      var c := srcs[i];
      if c in row {
        var score := ColumnScoreOf(o, field, value, c, srcs, row);
        best := Max(best, score);
      }
      i := i + 1;
    }
  }

  /** The score of one present column, as the comparison loop computes it. */
  method ColumnScoreOf(o: Oracles, field: string, value: string, c: string, srcs: seq<string>, row: Row)
    returns (score: real)
    requires c in row
    ensures score == ColumnScore(o, field, value, c, srcs, row)
  {
    var rv := row[c];
    if field == "national_id" {
      score := IdScore(o, value, rv);
    } else if field == "full_name" {
      var combined: Option<real> := None;
      if Contains(c, "full_name") && |srcs| > 1 {
        var parts := CollectNameParts(srcs, row);
        if |parts| > 1 {
          combined := Some(NameScore(o, value, Join(parts, " ")));
        }
      }
      var individual := NameScore(o, value, rv);
      score := if combined.Some? then Max(combined.value, individual) else individual;
    } else if field == "dob" {
      score := DateScore(o, value, rv);
    } else if field == "email" {
      score := EmailScore(o, value, rv);
    } else if field == "phone" {
      score := PhoneScore(o, value, rv);
    } else {
      score := o.ratio(Lower(value), Lower(rv));
    }
  }

  /** _calculate_match_score: the recorded field scores and their weighted
      average. */
  method CalculateMatchScore(o: Oracles, query: Query, cols: seq<string>, row: Row, sm: SchemaMapping)
    returns (score: real, fs: FieldScores)
    ensures fs == ScoreFields(o, query, cols, row, sm)
    ensures score == OverallScore(fs)
  {
    fs := map[];
    var i := 0;
    while i < |query|
      invariant 0 <= i <= |query|
      invariant fs == ScoreFields(o, query[..i], cols, row, sm)
    {
      assert query[..i + 1][..i] == query[..i];
      var (field, value) := query[i];
      if field in WeightFields {
        var srcs := GetFieldMapping(sm, field);
        if srcs == [] {
          if field in row {
            srcs := [field];
          } else if field == "full_name" {
            srcs := FilterColumns(cols, IsNameColumn);
          } else if field == "national_id" {
            srcs := FilterColumns(cols, IsIdColumn);
          }
        }
        assert srcs == SourceFields(sm, field, cols, row);
        if srcs != [] {
          var best := BestFieldScore(o, field, value, srcs, row);
          if best > 0.0 {
            fs := fs[field := best];
          }
        }
      }
      i := i + 1;
    }
    assert query[..|query|] == query;
    if |fs| == 0 {
      return 0.0, fs;
    }
    score := WeightedAverageOf(WeightFields, fs, Weight);
  }

  /** The averaging loop of _calculate_match_score. */
  method WeightedAverageOf(fields: seq<string>, fs: FieldScores, wt: string -> real) returns (avg: real)
    ensures avg == WeightedAverage(fields, fs, wt)
  {
    var total, sum := 0.0, 0.0;
    var j := 0;
    while j < |fields|
      invariant 0 <= j <= |fields|
      invariant total == TotalOver(fields[..j], fs, wt)
      invariant sum == SumOver(fields[..j], fs, wt)
    {
      assert fields[..j + 1][..j] == fields[..j];
      var field := fields[j];
      if field in fs {
        var weight := wt(field);
        total := total + weight;
        sum := sum + fs[field] * weight;
      }
      j := j + 1;
    }
    assert fields[..|fields|] == fields;
    avg := if total > 0.0 then sum / total else 0.0;
  }

  // ---------------------------------------------------------------------
  // _is_strong_match

  /** _is_strong_match, rule by rule: a name and a date of birth must both
      be recorded, and then one of three name/date threshold pairs, or a
      near-certain e-mail or phone, makes the match strong. */
  predicate IsStrongMatch(fs: FieldScores)
  {
    if "full_name" in fs && "dob" in fs then
      var name, date := fs["full_name"], fs["dob"];
      if name >= 70.0 && date >= 80.0 then true
      else if name >= 80.0 && date >= 70.0 then true
      else if date >= 90.0 && name >= 60.0 then true
      else if "email" in fs && fs["email"] >= 90.0 then true
      else "phone" in fs && fs["phone"] >= 90.0
    else false
  }

  /** The rule as one equivalence. */
  lemma StrongMatchIff(fs: FieldScores)
    ensures IsStrongMatch(fs) <==>
      "full_name" in fs && "dob" in fs &&
      ((fs["full_name"] >= 70.0 && fs["dob"] >= 80.0) ||
       (fs["full_name"] >= 80.0 && fs["dob"] >= 70.0) ||
       (fs["dob"] >= 90.0 && fs["full_name"] >= 60.0) ||
       ("email" in fs && fs["email"] >= 90.0) ||
       ("phone" in fs && fs["phone"] >= 90.0))
  {
  }

  /** Recording more fields or raising scores never turns a strong match
      into a weak one. */
  lemma StrongMatchMonotone(fs: FieldScores, gs: FieldScores)
    requires forall k :: k in fs ==> k in gs && fs[k] <= gs[k]
    ensures IsStrongMatch(fs) ==> IsStrongMatch(gs)
  {
  }

  // ---------------------------------------------------------------------
  // Ranking: the stable descending sort by (is_strong_match, match_score)

  /** A scored and accepted record: the row plus the three keys the agent
      adds to it. */
  datatype Match = Match(row: Row, score: real, fieldScores: FieldScores, strong: bool)

  /** (strong, score) of `a` is below that of `b` in tuple order. */
  predicate KeyLt(a: Match, b: Match)
  {
    (!a.strong && b.strong) || (a.strong == b.strong && a.score < b.score)
  }

  predicate KeyLe(a: Match, b: Match) { !KeyLt(b, a) }

  /** Puts `x` before the first element whose key is not above its own. */
  function Insert(x: Match, s: seq<Match>): (r: seq<Match>)
    ensures |r| == |s| + 1
    ensures multiset(r) == multiset(s) + multiset{x}
  {
    if |s| == 0 then [x]
    else if KeyLe(s[0], x) then [x] + s
    else
      assert s == [s[0]] + s[1..];
      [s[0]] + Insert(x, s[1..])
  }

  /** Python's stable `sort(key=..., reverse=True)` on (strong, score). */
  function SortDesc(s: seq<Match>): (r: seq<Match>)
    ensures |r| == |s|
    ensures multiset(r) == multiset(s)
  {
    if |s| == 0 then []
    else
      assert s == [s[0]] + s[1..];
      Insert(s[0], SortDesc(s[1..]))
  }

  predicate SortedDesc(s: seq<Match>)
  {
    forall i, j :: 0 <= i < j < |s| ==> KeyLe(s[j], s[i])
  }

  lemma {:induction false} InsertSorted(x: Match, s: seq<Match>)
    requires SortedDesc(s)
    ensures SortedDesc(Insert(x, s))
  {
    if |s| > 0 && !KeyLe(s[0], x) {
      var t := Insert(x, s[1..]);
      InsertSorted(x, s[1..]);
      forall j | 0 <= j < |t| ensures KeyLe(t[j], s[0]) {
        assert t[j] in multiset(t);
        if t[j] != x {
          assert t[j] in multiset(s[1..]);
          var m :| 0 <= m < |s[1..]| && s[1..][m] == t[j];
          assert s[m + 1] == t[j];
        }
      }
      assert Insert(x, s) == [s[0]] + t;
    }
  }

  /** The sort orders by descending (strong, score) ... */
  lemma {:induction false} SortDescSorted(s: seq<Match>)
    ensures SortedDesc(SortDesc(s))
  {
    if |s| > 0 {
      SortDescSorted(s[1..]);
      InsertSorted(s[0], SortDesc(s[1..]));
    }
  }

  function Key(m: Match): (bool, real) { (m.strong, m.score) }

  /** The elements with key `k`, in order. */
  function WithKey(s: seq<Match>, k: (bool, real)): seq<Match>
  {
    if |s| == 0 then []
    else (if Key(s[0]) == k then [s[0]] else []) + WithKey(s[1..], k)
  }

  lemma WithKeyCons(a: Match, r: seq<Match>, k: (bool, real))
    ensures WithKey([a] + r, k) == (if Key(a) == k then [a] else []) + WithKey(r, k)
  {
    assert ([a] + r)[1..] == r;
  }

  lemma {:induction false} InsertWithKey(x: Match, s: seq<Match>, k: (bool, real))
    ensures WithKey(Insert(x, s), k) == (if Key(x) == k then [x] else []) + WithKey(s, k)
  {
    if |s| == 0 {
      WithKeyCons(x, [], k);
    } else if KeyLe(s[0], x) {
      WithKeyCons(x, s, k);
    } else {
      var rest := Insert(x, s[1..]);
      InsertWithKey(x, s[1..], k);
      WithKeyCons(s[0], rest, k);
      WithKeyCons(s[0], s[1..], k);
      assert s == [s[0]] + s[1..];
      assert Key(s[0]) != Key(x);
    }
  }

  /** ... and it is stable: records with equal keys keep their order. */
  lemma {:induction false} SortDescStable(s: seq<Match>, k: (bool, real))
    ensures WithKey(SortDesc(s), k) == WithKey(s, k)
  {
    if |s| > 0 {
      SortDescStable(s[1..], k);
      InsertWithKey(s[0], SortDesc(s[1..]), k);
    }
  }

  /** Index `i` holds the first record with the greatest key. */
  predicate FirstBest(s: seq<Match>, i: int)
  {
    && 0 <= i < |s|
    && (forall j :: 0 <= j < |s| ==> KeyLe(s[j], s[i]))
    && (forall j :: 0 <= j < i ==> KeyLt(s[j], s[i]))
  }

  /** The head of the sorted list has the greatest key. */
  lemma SortDescHeadIsMax(s: seq<Match>)
    requires s != []
    ensures forall j :: 0 <= j < |s| ==> KeyLe(s[j], SortDesc(s)[0])
  {
    var t := SortDesc(s);
    SortDescSorted(s);
    forall j | 0 <= j < |s| ensures KeyLe(s[j], t[0]) {
      assert s[j] in multiset(s);
      assert s[j] in multiset(t);
      var m :| 0 <= m < |t| && t[m] == s[j];
      if m > 0 {
        assert KeyLe(t[m], t[0]);
      }
    }
  }

  /** The head of the sorted list is the first record with the greatest
      key. */
  lemma {:induction false} TopIsFirstBest(s: seq<Match>)
    requires s != []
    ensures exists i :: FirstBest(s, i) && SortDesc(s)[0] == s[i]
  {
    var t := SortDesc(s[1..]);
    SortDescHeadIsMax(s);
    if |t| == 0 || KeyLe(t[0], s[0]) {
      assert SortDesc(s) == [s[0]] + t;
      assert FirstBest(s, 0);
    } else {
      TopIsFirstBest(s[1..]);
      var i :| FirstBest(s[1..], i) && t[0] == s[1..][i];
      assert SortDesc(s)[0] == t[0];
      forall j | 0 <= j < i + 1 ensures KeyLt(s[j], s[i + 1]) {
        if j > 0 {
          assert s[j] == s[1..][j - 1];
        }
      }
      assert FirstBest(s, i + 1);
    }
  }

  // ---------------------------------------------------------------------
  // find_matches

  /** The default `fuzzy_threshold` of find_matches. */
  const DefaultFuzzyThreshold: real := 60.0

  /** The acceptance rule of find_matches. */
  predicate Accepted(m: Match, threshold: real)
  {
    || m.strong
    || m.score >= threshold
    || ("national_id" in m.fieldScores && m.fieldScores["national_id"] == 100.0)
  }

  /** A row with its match score, field scores and strong-match flag. */
  function ScoreRecord(o: Oracles, query: Query, cols: seq<string>, row: Row, sm: SchemaMapping): Match
  {
    var fs := ScoreFields(o, query, cols, row, sm);
    Match(row, OverallScore(fs), fs, IsStrongMatch(fs))
  }

  /** Every row of a frame with its match score, field scores and
      strong-match flag, in row order. */
  function Scored(o: Oracles, query: Query, frame: Frame, sm: SchemaMapping): (ms: seq<Match>)
    ensures |ms| == |frame.rows|
    ensures forall k :: 0 <= k < |ms| ==> ms[k] == ScoreRecord(o, query, frame.columns, frame.rows[k], sm)
  {
    seq(|frame.rows|, k requires 0 <= k < |frame.rows| => ScoreRecord(o, query, frame.columns, frame.rows[k], sm))
  }

  /** The matches that pass the acceptance rule, in order. */
  function Kept(ms: seq<Match>, threshold: real): seq<Match>
  {
    if |ms| == 0 then []
    else
      var acc := Kept(ms[..|ms| - 1], threshold);
      var m := ms[|ms| - 1];
      if Accepted(m, threshold) then acc + [m] else acc
  }

  /** A match is kept exactly when it is one of the matches and passes the
      acceptance rule. */
  lemma {:induction false} KeptSpec(ms: seq<Match>, threshold: real)
    ensures forall m :: m in Kept(ms, threshold) <==> m in ms && Accepted(m, threshold)
  {
    if |ms| > 0 {
      var init := ms[..|ms| - 1];
      KeptSpec(init, threshold);
      assert ms == init + [ms[|ms| - 1]];
    }
  }

  /** The accepted matches among the rows of a frame, in row order. */
  function AcceptedRows(o: Oracles, query: Query, frame: Frame, sm: SchemaMapping, threshold: real): seq<Match>
  {
    Kept(Scored(o, query, frame, sm), threshold)
  }

  /** A match is kept exactly when it scores one of the rows and passes the
      acceptance rule. */
  lemma AcceptedRowsSpec(o: Oracles, query: Query, frame: Frame, sm: SchemaMapping, threshold: real)
    ensures forall m :: m in AcceptedRows(o, query, frame, sm, threshold) <==>
      Accepted(m, threshold) && exists k :: 0 <= k < |frame.rows| && m == ScoreRecord(o, query, frame.columns, frame.rows[k], sm)
  {
    var ms := Scored(o, query, frame, sm);
    KeptSpec(ms, threshold);
    forall m | m in ms ensures exists k :: 0 <= k < |frame.rows| && m == ScoreRecord(o, query, frame.columns, frame.rows[k], sm) {
      var k :| 0 <= k < |ms| && ms[k] == m;
    }
    forall m | exists k :: 0 <= k < |frame.rows| && m == ScoreRecord(o, query, frame.columns, frame.rows[k], sm) ensures m in ms {
      var k :| 0 <= k < |frame.rows| && m == ScoreRecord(o, query, frame.columns, frame.rows[k], sm);
      assert ms[k] == m;
    }
  }

  /** The schema mapping of a source, empty when it has none. */
  function MappingOf(mappings: map<string, SchemaMapping>, name: string): SchemaMapping
  {
    if name in mappings then mappings[name] else []
  }

  type Pool = seq<(string, Frame)>
  type SourceMatches = seq<(string, seq<Match>)>

  function AcceptedIn(o: Oracles, query: Query, mappings: map<string, SchemaMapping>, threshold: real,
                      source: (string, Frame)): seq<Match>
  {
    AcceptedRows(o, query, source.1, MappingOf(mappings, source.0), threshold)
  }

  /** The source names of a pool, in order. */
  function PoolNames(data: Pool): (names: seq<string>)
    ensures |names| == |data|
    ensures forall j :: 0 <= j < |data| ==> names[j] == data[j].0
  {
    seq(|data|, j requires 0 <= j < |data| => data[j].0)
  }

  /** The accepted records of every source of a pool, each list sorted. */
  function SortedLists(o: Oracles, query: Query, data: Pool, mappings: map<string, SchemaMapping>, threshold: real)
    : (lists: seq<seq<Match>>)
    ensures |lists| == |data|
    ensures forall j :: 0 <= j < |data| ==> lists[j] == SortDesc(AcceptedIn(o, query, mappings, threshold, data[j]))
  {
    seq(|data|, j requires 0 <= j < |data| => SortDesc(AcceptedIn(o, query, mappings, threshold, data[j])))
  }

  /** The (name, list) pairs whose list is non-empty, in order. */
  function Collect(names: seq<string>, lists: seq<seq<Match>>): SourceMatches
    requires |names| == |lists|
  {
    if |lists| == 0 then []
    else
      var r := Collect(names[..|names| - 1], lists[..|lists| - 1]);
      if lists[|lists| - 1] == [] then r else r + [(names[|names| - 1], lists[|lists| - 1])]
  }

  /** find_matches, as a specification. */
  function MatchesOf(o: Oracles, query: Query, data: Pool, mappings: map<string, SchemaMapping>, threshold: real): SourceMatches
  {
    Collect(PoolNames(data), SortedLists(o, query, data, mappings, threshold))
  }

  predicate Distinct(names: seq<string>)
  {
    forall i, j :: 0 <= i < j < |names| ==> names[i] != names[j]
  }

  /** The pool is a dictionary: its source names are distinct. */
  predicate DistinctNames(data: Pool)
  {
    Distinct(PoolNames(data))
  }

  /** The pairs of names and lists, position by position. */
  function Zip(names: seq<string>, lists: seq<seq<Match>>): (z: SourceMatches)
    requires |names| == |lists|
    ensures |z| == |lists|
    ensures forall j :: 0 <= j < |lists| ==> z[j] == (names[j], lists[j])
  {
    seq(|lists|, j requires 0 <= j < |lists| => (names[j], lists[j]))
  }

  lemma CollectStep(names: seq<string>, lists: seq<seq<Match>>, i: nat)
    requires |names| == |lists| && i < |lists|
    ensures Collect(names[..i + 1], lists[..i + 1]) ==
      if lists[i] == [] then Collect(names[..i], lists[..i])
      else Collect(names[..i], lists[..i]) + [(names[i], lists[i])]
  {
    assert names[..i + 1][..i] == names[..i];
    assert lists[..i + 1][..i] == lists[..i];
  }

  /** Every collected entry is a name with its non-empty list, and every
      name with a non-empty list is collected. */
  lemma {:induction false} CollectSpec(names: seq<string>, lists: seq<seq<Match>>)
    requires |names| == |lists|
    ensures forall e :: e in Collect(names, lists) ==> e.1 != [] && e in Zip(names, lists)
    ensures forall j :: 0 <= j < |lists| && lists[j] != [] ==> (names[j], lists[j]) in Collect(names, lists)
  {
    if |lists| > 0 {
      var n := |lists| - 1;
      var ns, ls := names[..n], lists[..n];
      CollectSpec(ns, ls);
      var r0 := Collect(ns, ls);
      var r := Collect(names, lists);
      forall e | e in r ensures e.1 != [] && e in Zip(names, lists) {
        if e in r0 {
          var j :| 0 <= j < n && Zip(ns, ls)[j] == e;
          assert Zip(names, lists)[j] == e;
        } else {
          assert Zip(names, lists)[n] == e;
        }
      }
      forall j | 0 <= j < |lists| && lists[j] != [] ensures (names[j], lists[j]) in r {
        if j < n {
          assert (ns[j], ls[j]) in r0;
        }
      }
    }
  }

  /** Every listed source is a source of the pool with its accepted
      records, sorted; a source of the pool is listed exactly when it has
      an accepted record. */
  lemma MatchesOfSpec(o: Oracles, query: Query, data: Pool, mappings: map<string, SchemaMapping>, threshold: real)
    requires DistinctNames(data)
    ensures forall e :: e in MatchesOf(o, query, data, mappings, threshold) ==>
      exists j :: 0 <= j < |data| && AcceptedIn(o, query, mappings, threshold, data[j]) != [] &&
                  e == (data[j].0, SortDesc(AcceptedIn(o, query, mappings, threshold, data[j])))
    ensures forall j :: 0 <= j < |data| ==>
      (data[j].0 in SourceNames(MatchesOf(o, query, data, mappings, threshold))
       <==> AcceptedIn(o, query, mappings, threshold, data[j]) != [])
  {
    var names := PoolNames(data);
    var lists := SortedLists(o, query, data, mappings, threshold);
    var r := MatchesOf(o, query, data, mappings, threshold);
    CollectSpec(names, lists);
    forall e | e in r
      ensures exists j :: 0 <= j < |data| && AcceptedIn(o, query, mappings, threshold, data[j]) != [] &&
                          e == (data[j].0, SortDesc(AcceptedIn(o, query, mappings, threshold, data[j])))
    {
      var j :| 0 <= j < |data| && Zip(names, lists)[j] == e;
      assert e == (data[j].0, SortDesc(AcceptedIn(o, query, mappings, threshold, data[j])));
    }
    forall j | 0 <= j < |data|
      ensures data[j].0 in SourceNames(r) <==> AcceptedIn(o, query, mappings, threshold, data[j]) != []
    {
      if AcceptedIn(o, query, mappings, threshold, data[j]) != [] {
        assert (names[j], lists[j]) in r;
        var i :| 0 <= i < |r| && r[i] == (names[j], lists[j]);
        assert SourceNames(r)[i] == data[j].0;
      }
      if data[j].0 in SourceNames(r) {
        var i :| 0 <= i < |r| && SourceNames(r)[i] == data[j].0;
        assert r[i] in r;
        var j' :| 0 <= j' < |data| && Zip(names, lists)[j'] == r[i];
        assert names[j'] == names[j];
        assert j' == j;
      }
    }
  }

  /** Every list find_matches returns is non-empty, sorted by descending
      (strong, score) with ties in row order, and holds exactly the
      accepted records of its source. */
  lemma MatchesSorted(o: Oracles, query: Query, data: Pool, mappings: map<string, SchemaMapping>, threshold: real,
                      e: (string, seq<Match>), k: (bool, real))
    requires DistinctNames(data)
    requires e in MatchesOf(o, query, data, mappings, threshold)
    ensures e.1 != [] && SortedDesc(e.1)
    ensures forall m :: m in e.1 ==> Accepted(m, threshold)
    ensures exists j :: 0 <= j < |data| && data[j].0 == e.0 &&
                        multiset(e.1) == multiset(AcceptedIn(o, query, mappings, threshold, data[j])) &&
                        WithKey(e.1, k) == WithKey(AcceptedIn(o, query, mappings, threshold, data[j]), k)
  {
    MatchesOfSpec(o, query, data, mappings, threshold);
    var j :| 0 <= j < |data| && AcceptedIn(o, query, mappings, threshold, data[j]) != [] &&
             e == (data[j].0, SortDesc(AcceptedIn(o, query, mappings, threshold, data[j])));
    var acc := AcceptedIn(o, query, mappings, threshold, data[j]);
    SortDescSorted(acc);
    SortDescStable(acc, k);
    AcceptedRowsSpec(o, query, data[j].1, MappingOf(mappings, data[j].0), threshold);
    forall m | m in e.1 ensures Accepted(m, threshold) {
      assert m in multiset(acc);
    }
  }

  /** The record loop of find_matches for one source. */
  method AcceptRecords(o: Oracles, query: Query, frame: Frame, sm: SchemaMapping, threshold: real)
    returns (sourceMatches: seq<Match>)
    ensures sourceMatches == AcceptedRows(o, query, frame, sm, threshold)
  {
    ghost var ms := Scored(o, query, frame, sm);
    sourceMatches := [];
    var k := 0;
    while k < |frame.rows|
      invariant 0 <= k <= |frame.rows|
      invariant sourceMatches == Kept(ms[..k], threshold)
    {
      assert ms[..k + 1][..k] == ms[..k];
      var record := frame.rows[k];
      var matchScore, fieldScores := CalculateMatchScore(o, query, frame.columns, record, sm);
      var isStrong := IsStrongMatch(fieldScores);
      var m := Match(record, matchScore, fieldScores, isStrong);
      assert m == ms[k];
      if Accepted(m, threshold) {
        sourceMatches := sourceMatches + [m];
      }
      k := k + 1;
    }
    assert ms[..|ms|] == ms;
  }

  /** find_matches; `fuzzy_threshold` defaults to 60. */
  method FindMatches(o: Oracles, query: Query, data: Pool, mappings: map<string, SchemaMapping>,
                     threshold: real := DefaultFuzzyThreshold)
    returns (matches: SourceMatches)
    ensures matches == MatchesOf(o, query, data, mappings, threshold)
  {
    matches := [];
    ghost var names := PoolNames(data);
    ghost var lists := SortedLists(o, query, data, mappings, threshold);
    var i := 0;
    while i < |data|
      invariant 0 <= i <= |data|
      invariant matches == Collect(names[..i], lists[..i])
    {
      CollectStep(names, lists, i);
      var (name, frame) := data[i];
      var sourceMatches := AcceptRecords(o, query, frame, MappingOf(mappings, name), threshold);
      assert SortDesc(sourceMatches) == lists[i];
      if sourceMatches != [] {
        matches := matches + [(name, SortDesc(sourceMatches))];
      }
      i := i + 1;
    }
    assert names[..|data|] == names;
    assert lists[..|data|] == lists;
  }

  // ---------------------------------------------------------------------
  // merge_matches

  datatype Quality = Quality(strong: bool, overall: real, fieldScores: FieldScores)

  /** A merged profile: the top record's own fields, then the keys the
      merge adds. `mergedAt` is the caller-supplied timestamp. */
  datatype Profile = Profile(fields: Row, sources: seq<string>, matchCount: nat, quality: Quality, mergedAt: string)

  /** The keys the merge removes from or writes over the top record. */
  const ProfileKeys: set<string> :=
    {"match_score", "field_scores", "is_strong_match", "sources", "match_count", "match_quality", "merged_at"}

  /** Every source's matches, source after source. */
  function Flatten(matches: SourceMatches): seq<Match>
  {
    if |matches| == 0 then []
    else Flatten(matches[..|matches| - 1]) + matches[|matches| - 1].1
  }

  lemma {:induction false} FlattenSpec(matches: SourceMatches)
    ensures forall m :: m in Flatten(matches) <==> exists i :: 0 <= i < |matches| && m in matches[i].1
  {
    if |matches| > 0 {
      var init := matches[..|matches| - 1];
      FlattenSpec(init);
      forall m | m in Flatten(matches)
        ensures exists i :: 0 <= i < |matches| && m in matches[i].1
      {
        if m in Flatten(init) {
          var i :| 0 <= i < |init| && m in init[i].1;
          assert matches[i] == init[i];
        }
      }
      forall m | exists i :: 0 <= i < |matches| && m in matches[i].1
        ensures m in Flatten(matches)
      {
        var i :| 0 <= i < |matches| && m in matches[i].1;
        if i < |init| {
          assert init[i] == matches[i];
        }
      }
    }
  }

  function SourceNames(matches: SourceMatches): (names: seq<string>)
    ensures |names| == |matches|
    ensures forall i :: 0 <= i < |matches| ==> names[i] == matches[i].0
  {
    if |matches| == 0 then []
    else SourceNames(matches[..|matches| - 1]) + [matches[|matches| - 1].0]
  }

  /** merge_matches: `None` (the empty dictionary) when there is no
      record; otherwise the first record with the greatest (strong, score)
      over all sources, stripped of the match keys, with every source name
      in order, the total record count and the top record's match
      quality. */
  method MergeMatches(matches: SourceMatches, now: string) returns (p: Option<Profile>)
    ensures p.None? <==> Flatten(matches) == []
    ensures p.Some? ==>
      var all := Flatten(matches);
      exists i :: FirstBest(all, i) &&
        p.value == Profile(all[i].row - ProfileKeys, SourceNames(matches), |all|,
                           Quality(all[i].strong, all[i].score, all[i].fieldScores), now)
  {
    var all: seq<Match> := [];
    var i := 0;
    while i < |matches|
      invariant 0 <= i <= |matches|
      invariant all == Flatten(matches[..i])
    {
      assert matches[..i + 1][..i] == matches[..i];
      all := all + matches[i].1;
      i := i + 1;
    }
    assert matches[..|matches|] == matches;
    if all == [] {
      return None;
    }
    var sorted := SortDesc(all);
    var top := sorted[0];
    TopIsFirstBest(all);
    var names: seq<string> := [];
    i := 0;
    while i < |matches|
      invariant 0 <= i <= |matches|
      invariant names == SourceNames(matches[..i])
    {
      assert matches[..i + 1][..i] == matches[..i];
      names := names + [matches[i].0];
      i := i + 1;
    }
    p := Some(Profile(top.row - ProfileKeys, names, |all|, Quality(top.strong, top.score, top.fieldScores), now));
  }

  // ---------------------------------------------------------------------
  // The `score` variable as written

  /** The column score as the source computes it: the name branch tests
      `'score' in locals()`, so a `score` left over from an earlier column
      or an earlier query field (`carried`) takes part in the maximum. */
  function ColumnScoreAsWritten(o: Oracles, field: string, value: string, col: string, srcs: seq<string>,
                                row: Row, carried: Option<real>): real
    requires col in row
  {
    if field == "full_name" then
      var rv := row[col];
      var parts := NameParts(srcs, row);
      var before :=
        if Contains(col, "full_name") && |srcs| > 1 && |parts| > 1 then
          var combined := NameScore(o, value, Join(parts, " "));
          Some(if carried.Some? then Max(carried.value, combined) else combined)
        else carried;
      var individual := NameScore(o, value, rv);
      if before.Some? then Max(before.value, individual) else individual
    else ColumnScore(o, field, value, col, srcs, row)
  }

  /** The source-field loop as written: the best score and the `score`
      variable it leaves behind. */
  function BestOverAsWritten(o: Oracles, field: string, value: string, srcs: seq<string>, row: Row, n: nat,
                             carried: Option<real>): (real, Option<real>)
    requires n <= |srcs|
  {
    if n == 0 then (0.0, carried)
    else
      var (acc, left) := BestOverAsWritten(o, field, value, srcs, row, n - 1, carried);
      var c := srcs[n - 1];
      if c in row then
        var score := ColumnScoreAsWritten(o, field, value, c, srcs, row, left);
        (Max(acc, score), Some(score))
      else (acc, left)
  }

  /** The field loop as written, threading `score` through all fields. */
  function ScoreFieldsAsWritten(o: Oracles, query: Query, cols: seq<string>, row: Row, sm: SchemaMapping)
    : (FieldScores, Option<real>)
  {
    if |query| == 0 then (map[], None)
    else
      var (fs, left) := ScoreFieldsAsWritten(o, query[..|query| - 1], cols, row, sm);
      var (f, v) := query[|query| - 1];
      if f !in WeightFields then (fs, left)
      else
        var srcs := SourceFields(sm, f, cols, row);
        var (best, left') := BestOverAsWritten(o, f, v, srcs, row, |srcs|, left);
        (if best > 0.0 then fs[f := best] else fs, left')
  }

  /** Libraries under which every fuzzy ratio is 0 and every non-empty
      string parses as the same date. */
  function BlindOracles(): Oracles
  {
    Oracles((a, b) => 0.0, (a, b) => 0.0, (a, b) => 0.0, (a, b) => 0.0, (a, b) => 0.0,
            s => Some(7), s => None, s => None)
  }

  lemma BlindNameScore(a: string, b: string)
    ensures NameScore(BlindOracles(), a, b) == 0.0
  {
  }

  lemma BlindDateScore(a: string, b: string)
    requires a != "" && b != ""
    ensures DateScore(BlindOracles(), a, b) == 100.0
  {
  }

  /** The carried `score`: a query whose date of birth matches but whose
      name shares nothing with the record's (every ratio is 0). As
      written, the date's 100 is carried into the name, which is recorded
      as 100 and makes the match strong; scored afresh, the name scores 0,
      is not recorded, and the match is not strong. */
  lemma {:induction false} CarriedScoreCounterexample(date: string, name: string, other: string)
    requires date != ""
    ensures
      var o := BlindOracles();
      var query := [("dob", date), ("full_name", name)];
      var row := map["dob" := date, "full_name" := other];
      var cols := ["dob", "full_name"];
      var asWritten := ScoreFieldsAsWritten(o, query, cols, row, []).0;
      var corrected := ScoreFields(o, query, cols, row, []);
      && asWritten == map["dob" := 100.0, "full_name" := 100.0]
      && IsStrongMatch(asWritten)
      && corrected == map["dob" := 100.0]
      && !IsStrongMatch(corrected)
  {
    var o := BlindOracles();
    var query := [("dob", date), ("full_name", name)];
    var row := map["dob" := date, "full_name" := other];
    var cols := ["dob", "full_name"];
    var q1 := query[..1];
    assert q1 == [("dob", date)];
    assert q1[..0] == [];
    var dobSrcs := SourceFields([], "dob", cols, row);
    var nameSrcs := SourceFields([], "full_name", cols, row);
    assert dobSrcs == ["dob"];
    assert nameSrcs == ["full_name"];
    BlindDateScore(date, date);
    BlindNameScore(name, other);
    assert ColumnScore(o, "dob", date, "dob", dobSrcs, row) == 100.0;
    assert BestOver(o, "dob", date, dobSrcs, row, 1) == 100.0;
    assert BestOverAsWritten(o, "dob", date, dobSrcs, row, 1, None) == (100.0, Some(100.0));
    assert ColumnScore(o, "full_name", name, "full_name", nameSrcs, row) == 0.0;
    assert BestOver(o, "full_name", name, nameSrcs, row, 1) == 0.0;
    assert ColumnScoreAsWritten(o, "full_name", name, "full_name", nameSrcs, row, Some(100.0)) == 100.0;
    assert BestOverAsWritten(o, "full_name", name, nameSrcs, row, 1, Some(100.0)).0 == 100.0;
    assert ScoreFields(o, q1, cols, row, []) == map["dob" := 100.0];
    assert ScoreFieldsAsWritten(o, q1, cols, row, []) == (map["dob" := 100.0], Some(100.0));
  }
}
