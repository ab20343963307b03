/**
 * The pure parts of the data loader (utils/data_loader.py): which file a
 * source name resolves to, and the column-set comparison of two sources.
 * The directory listing and the loaded column lists are parameters.
 */
module DataLoader {
  import opened Wrappers
  import LlmService

  /** SUPPORTED_FILE_TYPES of the data loader, in lookup order. */
  const SupportedFileTypes: seq<string> := [".csv", ".xlsx", ".json"]

  // ---------------------------------------------------------------------
  // _find_source_file

  /** The first `name + ext`, over `exts` in order, that names an existing
      file. */
  function SourceFile(name: string, exts: seq<string>, existing: set<string>): (r: Option<string>)
    decreases |exts|
  {
    if |exts| == 0 then None
    else if name + exts[0] in existing then Some(name + exts[0])
    else SourceFile(name, exts[1..], existing)
  }

  /** `_find_source_file`, with the files of the sources directory given as
      the set of their names. */
  function FindSourceFile(name: string, existing: set<string>): Option<string>
  {
    SourceFile(name, SupportedFileTypes, existing)
  }

  /** The search finds nothing exactly when no extension gives an existing
      file, and otherwise returns the existing file of the earliest such
      extension. */
  lemma {:induction false} SourceFileSpec(name: string, exts: seq<string>, existing: set<string>)
    ensures var r := SourceFile(name, exts, existing);
            && (r.None? <==> forall i :: 0 <= i < |exts| ==> name + exts[i] !in existing)
            && (r.Some? ==> exists i :: 0 <= i < |exts| && r.value == name + exts[i] && r.value in existing &&
                              forall j :: 0 <= j < i ==> name + exts[j] !in existing)
    decreases |exts|
  {
    if |exts| > 0 && name + exts[0] !in existing {
      SourceFileSpec(name, exts[1..], existing);
      var r := SourceFile(name, exts[1..], existing);
      if r.Some? {
        var i :| 0 <= i < |exts[1..]| && r.value == name + exts[1..][i] && r.value in existing &&
                 forall j :: 0 <= j < i ==> name + exts[1..][j] !in existing;
        assert r.value == name + exts[i + 1];
        forall j | 0 <= j < i + 1 ensures name + exts[j] !in existing {
          if j > 0 {
            assert exts[j] == exts[1..][j - 1];
          }
        }
      } else {
        forall i | 0 <= i < |exts| ensures name + exts[i] !in existing {
          if i > 0 {
            assert exts[i] == exts[1..][i - 1];
          }
        }
      }
    }
  }

  /** A CSV file wins over an Excel file, which wins over a JSON file; a
      name with none of the three resolves to nothing. */
  lemma FindSourceFileOrder(name: string, existing: set<string>)
    ensures var r := FindSourceFile(name, existing);
            && (name + ".csv" in existing ==> r == Some(name + ".csv"))
            && (name + ".csv" !in existing && name + ".xlsx" in existing ==> r == Some(name + ".xlsx"))
            && (r == Some(name + ".json") <==>
                  name + ".csv" !in existing && name + ".xlsx" !in existing && name + ".json" in existing)
            && (r.None? <==>
                  name + ".csv" !in existing && name + ".xlsx" !in existing && name + ".json" !in existing)
  {
    var r := FindSourceFile(name, existing);
    SourceFileSpec(name, SupportedFileTypes, existing);
    if r.Some? {
      var i :| 0 <= i < 3 && r.value == name + SupportedFileTypes[i] && r.value in existing &&
               forall j :: 0 <= j < i ==> name + SupportedFileTypes[j] !in existing;
      if r.value == name + ".json" {
        ExtensionsDiffer(name);
        assert i == 2;
      }
    }
  }

  /** Different extensions give different file names. */
  lemma ExtensionsDiffer(name: string)
    ensures name + ".json" != name + ".csv" && name + ".json" != name + ".xlsx"
  {
    assert (name + ".json")[|name| + 1] == 'j';
    assert (name + ".csv")[|name| + 1] == 'c';
    assert (name + ".xlsx")[|name| + 1] == 'x';
  }

  // ---------------------------------------------------------------------
  // compare_schemas

  /** The columns of a source as a set. */
  function ColumnSet(columns: seq<string>): (s: set<string>)
    ensures forall c :: c in s <==> c in columns
  {
    set c | c in columns
  }

  /** `set(df.columns)` has no more elements than the frame has columns,
      and exactly as many when no column name repeats. */
  lemma {:induction false} ColumnSetSize(columns: seq<string>)
    ensures |ColumnSet(columns)| <= |columns|
    ensures |ColumnSet(columns)| == |columns| <==> forall i, j :: 0 <= i < j < |columns| ==> columns[i] != columns[j]
    decreases |columns|
  {
    if |columns| > 0 {
      var init := columns[..|columns| - 1];
      var last := columns[|columns| - 1];
      ColumnSetSize(init);
      assert ColumnSet(columns) == ColumnSet(init) + {last};
      if last in init {
        var i :| 0 <= i < |init| && init[i] == last;
        assert columns[i] == columns[|columns| - 1];
      } else {
        assert |ColumnSet(columns)| == |ColumnSet(init)| + 1;
        assert forall i :: 0 <= i < |init| ==> columns[i] == init[i];
      }
    }
  }

  /** The dictionary `compare_schemas` returns. The three column lists are
      built from sets, so their order is arbitrary and they are kept as
      sets here. */
  datatype Comparison =
    | LoadError
    | Compared(source1: string, source2: string,
               source1Columns: nat, source2Columns: nat,
               commonColumns: set<string>, source1Only: set<string>, source2Only: set<string>,
               similarityRatio: real)

  /** Jaccard similarity of two column sets, 0 when both are empty. */
  function Similarity(cols1: set<string>, cols2: set<string>): real
  {
    if cols1 + cols2 != {} then |cols1 * cols2| as real / |cols1 + cols2| as real else 0.0
  }

  /** `compare_schemas`, given the column lists `get_source_info` yields
      for the two sources, or None where a source could not be loaded. */
  function CompareSchemas(source1: string, source2: string,
                          columns1: Option<seq<string>>, columns2: Option<seq<string>>): Comparison
  {
    if columns1.None? || columns2.None? then LoadError
    else
      var cols1 := ColumnSet(columns1.value);
      var cols2 := ColumnSet(columns2.value);
      Compared(source1, source2, |cols1|, |cols2|,
               cols1 * cols2, cols1 - cols2, cols2 - cols1, Similarity(cols1, cols2))
  }

  /** The error result comes exactly when a source is unavailable; otherwise
      the three lists split the columns: pairwise disjoint, and the common
      columns with either source's own give all of that source's columns;
      the counts are the numbers of distinct columns. */
  lemma CompareSchemasSpec(source1: string, source2: string,
                           columns1: Option<seq<string>>, columns2: Option<seq<string>>)
    ensures var r := CompareSchemas(source1, source2, columns1, columns2);
            && (r.LoadError? <==> columns1.None? || columns2.None?)
            && (r.Compared? ==>
                  var cols1 := ColumnSet(columns1.value);
                  var cols2 := ColumnSet(columns2.value);
                  && r.source1 == source1 && r.source2 == source2
                  && r.commonColumns * r.source1Only == {}
                  && r.commonColumns * r.source2Only == {}
                  && r.source1Only * r.source2Only == {}
                  && r.commonColumns + r.source1Only == cols1
                  && r.commonColumns + r.source2Only == cols2
                  && (forall c :: c in r.commonColumns <==> c in columns1.value && c in columns2.value)
                  && r.source1Columns == |r.commonColumns| + |r.source1Only|
                  && r.source2Columns == |r.commonColumns| + |r.source2Only|)
  {
    if columns1.Some? && columns2.Some? {
      SetSplit(ColumnSet(columns1.value), ColumnSet(columns2.value));
    }
  }

  /** Two sets split into their intersection and the two differences. */
  lemma SetSplit(a: set<string>, b: set<string>)
    ensures (a * b) * (a - b) == {} && (a * b) * (b - a) == {} && (a - b) * (b - a) == {}
    ensures (a * b) + (a - b) == a && (a * b) + (b - a) == b
    ensures |a| == |a * b| + |a - b| && |b| == |a * b| + |b - a|
  {
    DisjointCard(a * b, a - b);
    DisjointCard(a * b, b - a);
  }

  /** The size of a disjoint union is the sum of the sizes. */
  lemma DisjointCard(a: set<string>, b: set<string>)
    requires a * b == {}
    ensures |a + b| == |a| + |b|
  {
  }

  /** The similarity ratio lies between 0 and 1, and is 1 exactly when the
      two sources have the same, non-empty, set of columns. */
  lemma SimilarityBounds(cols1: set<string>, cols2: set<string>)
    ensures 0.0 <= Similarity(cols1, cols2) <= 1.0
    ensures Similarity(cols1, cols2) == 1.0 <==> cols1 == cols2 && cols1 != {}
  {
    if cols1 + cols2 != {} {
      var u := cols1 + cols2;
      var n := cols1 * cols2;
      DisjointCard(n, u - n);
      assert n + (u - n) == u;
      LlmService.RateBounds(|n|, |u|);
      if |n| == |u| {
        assert u - n == {};
        assert cols1 == cols2 by {
          forall c | c in u ensures c in n {
            assert c !in u - n;
          }
        }
      }
    }
  }

  /** Comparing the sources the other way round swaps the source-specific
      lists and counts and keeps the common columns and the ratio. */
  lemma CompareSchemasSwap(source1: string, source2: string,
                           columns1: Option<seq<string>>, columns2: Option<seq<string>>)
    ensures var r := CompareSchemas(source1, source2, columns1, columns2);
            var s := CompareSchemas(source2, source1, columns2, columns1);
            && (r.LoadError? <==> s.LoadError?)
            && (r.Compared? ==>
                  && s.source1Columns == r.source2Columns && s.source2Columns == r.source1Columns
                  && s.source1Only == r.source2Only && s.source2Only == r.source1Only
                  && s.commonColumns == r.commonColumns
                  && s.similarityRatio == r.similarityRatio)
  {
    var r := CompareSchemas(source1, source2, columns1, columns2);
    if r.Compared? {
      var cols1 := ColumnSet(columns1.value);
      var cols2 := ColumnSet(columns2.value);
      assert cols1 * cols2 == cols2 * cols1;
      assert cols1 + cols2 == cols2 + cols1;
    }
  }
}
