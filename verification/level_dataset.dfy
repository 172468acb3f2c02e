/** The level-aware view of a time-series table: which hierarchy level its
    segments form, and the same data aggregated to a coarser level. */
module LevelDataset {
  import opened Wrappers
  import opened Seqs
  import opened Errors
  import opened Sparse
  import opened Hierarchy

  /** The "target" feature of a wide table: one row per timestamp, one
      column per segment; `None` is a missing (NaN) cell. */
  datatype Table = Table(index: seq<int>, segments: seq<string>, values: seq<seq<Option<real>>>)

  predicate WellFormedTable(t: Table)
  {
    && |t.values| == |t.index|
    && NoDup(t.segments)
    && (forall k :: 0 <= k < |t.values| ==> |t.values[k]| == |t.segments|)
  }

  function SegmentSet(t: Table): set<string>
  {
    set x | x in t.segments
  }

  /** The value of segment `name` at row `k`; missing when there is no such cell. */
  function Cell(t: Table, k: nat, name: string): Option<real>
  {
    if name in t.segments && k < |t.values| && |t.values[k]| == |t.segments|
    then t.values[k][IndexOf(t.segments, name)]
    else None
  }

  /** With distinct segment names, a segment's cell is the value at its own position. */
  lemma CellAt(t: Table, k: nat, i: nat)
    requires NoDup(t.segments) && k < |t.values| && i < |t.segments| && |t.values[k]| == |t.segments|
    ensures Cell(t, k, t.segments[i]) == t.values[k][i]
  {
    IndexOfNoDup(t.segments, i);
  }

  /** The series of one segment (`ts[:, segment, "target"]`). */
  function Series(t: Table, name: string): (r: seq<Option<real>>)
    ensures |r| == |t.values|
  {
    seq(|t.values|, k requires 0 <= k < |t.values| => Cell(t, k, name))
  }

  /** Sum, at row `k`, of the values of the listed segments. */
  function SumOfSegments(t: Table, k: nat, names: seq<string>): Option<real>
  {
    SumSeq(seq(|names|, m requires 0 <= m < |names| => Cell(t, k, names[m])))
  }

  /** The columns of `t` named by `names`, in that order (`df.loc[:, names]`). */
  function Select(t: Table, names: seq<string>): (r: Table)
    requires WellFormedTable(t) && NoDup(names)
    ensures WellFormedTable(r) && r.index == t.index && r.segments == names
    ensures forall k, i :: 0 <= k < |r.values| && 0 <= i < |names| ==> r.values[k][i] == Cell(t, k, names[i])
  {
    Table(t.index, names,
          seq(|t.values|, k requires 0 <= k < |t.values| =>
            seq(|names|, i requires 0 <= i < |names| => Cell(t, k, names[i]))))
  }

  /** The cell of a selected column is the original cell. */
  lemma SelectCell(t: Table, names: seq<string>, k: nat, x: string)
    requires WellFormedTable(t) && NoDup(names)
    requires forall y :: y in names <==> y in t.segments
    ensures Cell(Select(t, names), k, x) == Cell(t, k, x)
  {
    if x in names && k < |t.values| {
      var i := IndexOf(names, x);
      assert Select(t, names).values[k][i] == Cell(t, k, names[i]);
    }
  }

  /** The table with its columns in name order, each column unchanged. */
  function SortColumns(t: Table): (r: Table)
    requires WellFormedTable(t)
    ensures WellFormedTable(r) && LexSorted(r.segments) && r.index == t.index
    ensures |r.values| == |t.values| && SegmentSet(r) == SegmentSet(t)
    ensures forall k, x :: Cell(r, k, x) == Cell(t, k, x)
    ensures LexSorted(t.segments) ==> r == t
  {
    if LexSorted(t.segments) then t
    else
      SortMembers(t.segments);
      var r := Select(t, Sort(t.segments));
      assert forall k, x :: Cell(r, k, x) == Cell(t, k, x) by {
        forall k, x
          ensures Cell(r, k, x) == Cell(t, k, x)
        {
          SelectCell(t, Sort(t.segments), k, x);
        }
      }
      r
  }

  /** The sum at row `k` over a non-empty list of names is the first
      name's cell plus the sum over the rest. */
  lemma SumOfSegmentsCons(t: Table, k: nat, names: seq<string>)
    requires |names| > 0
    ensures SumOfSegments(t, k, names) == AddOpt(Cell(t, k, names[0]), SumOfSegments(t, k, names[1..]))
  {
    var c := seq(|names|, m requires 0 <= m < |names| => Cell(t, k, names[m]));
    assert c[1..] == seq(|names[1..]|, m requires 0 <= m < |names[1..]| => Cell(t, k, names[1..][m]));
  }

  /** Any one name's cell can be taken out of the sum first. */
  lemma {:induction false} SumOfSegmentsRemove(t: Table, k: nat, names: seq<string>, p: nat)
    requires p < |names|
    ensures SumOfSegments(t, k, names) ==
              AddOpt(Cell(t, k, names[p]), SumOfSegments(t, k, names[..p] + names[p + 1..]))
  {
    SumOfSegmentsCons(t, k, names);
    if p == 0 {
      assert names[..p] + names[p + 1..] == names[1..];
    } else {
      var tail := names[1..];
      SumOfSegmentsRemove(t, k, tail, p - 1);
      var rest := tail[..p - 1] + tail[p..];
      assert names[..p] + names[p + 1..] == [names[0]] + rest;
      SumOfSegmentsCons(t, k, [names[0]] + rest);
      assert ([names[0]] + rest)[1..] == rest;
    }
  }

  /** The sum over distinct names does not depend on their order. */
  lemma {:induction false} SumOfSegmentsReorder(t: Table, k: nat, a: seq<string>, b: seq<string>)
    requires NoDup(a) && NoDup(b) && forall x :: x in a <==> x in b
    ensures SumOfSegments(t, k, a) == SumOfSegments(t, k, b)
    decreases |a|
  {
    if |a| == 0 {
      HeadMember(b);
    } else {
      assert a[0] in b;
      var p := IndexOf(b, a[0]);
      var b' := b[..p] + b[p + 1..];
      SumOfSegmentsRemove(t, k, b, p);
      SumOfSegmentsCons(t, k, a);
      RemoveAt(b, p);
      RemoveAt(a, 0);
      assert a[..0] + a[1..] == a[1..];
      forall x
        ensures x in a[1..] <==> x in b'
      {
        assert x in a[..0] + a[1..] <==> x in a && x != a[0];
        assert x in b' <==> x in b && x != b[p];
      }
      SumOfSegmentsReorder(t, k, a[1..], b');
    }
  }

  /** The names of `names` that occur in `d`, in the order of `names`. */
  function Among(names: seq<string>, d: seq<string>): (r: seq<string>)
    ensures forall x :: x in r <==> x in names && x in d
    ensures NoDup(names) ==> NoDup(r)
  {
    if |names| == 0 then []
    else
      assert names == [names[0]] + names[1..];
      if names[0] in d then [names[0]] + Among(names[1..], d) else Among(names[1..], d)
  }

  /** Weights 1 on the columns named in `d` and nothing elsewhere sum the
      cells of those columns. */
  lemma {:induction false} DotAmong(t: Table, k: nat, names: seq<string>, d: seq<string>,
                                    ws: seq<Option<real>>, xs: seq<Option<real>>)
    requires |ws| == |xs| == |names|
    requires forall j :: 0 <= j < |names| ==> xs[j] == Cell(t, k, names[j])
    requires forall j :: 0 <= j < |names| ==> ws[j] == (if names[j] in d then Some(1.0) else None)
    ensures Dot(ws, xs) == SumOfSegments(t, k, Among(names, d))
  {
    if |names| > 0 {
      DotAmong(t, k, names[1..], d, ws[1..], xs[1..]);
      if names[0] in d {
        SumOfSegmentsCons(t, k, Among(names, d));
      }
    }
  }

  /** A table together with its hierarchy and the level its segments form. */
  datatype Dataset = Dataset(table: Table, hierarchy: Option<HierarchicalStructure>, currentLevel: Option<string>)

  /** The state a dataset is in after construction. */
  predicate ValidDataset(ds: Dataset)
  {
    && WellFormedTable(ds.table)
    && LexSorted(ds.table.segments)
    && (ds.hierarchy.None? ==> ds.currentLevel.None?)
    && (ds.hierarchy.Some? ==>
          && Valid(ds.hierarchy.value)
          && ds.currentLevel.Some?
          && ds.currentLevel.value in ds.hierarchy.value.levelNames
          && SegmentSet(ds.table) == LayerSet(ds.hierarchy.value, IndexOf(ds.hierarchy.value.levelNames, ds.currentLevel.value)))
  }

  // ---------------------------------------------------------------------
  // Level inference

  lemma LayerSetNonEmpty(hs: HierarchicalStructure, d: nat)
    requires Valid(hs) && d < |hs.levelNames|
    ensures LayerSet(hs, d) != {}
  {
    LayerNonEmpty(hs, d);
    assert Layer(hs, d)[0] in LayerSet(hs, d);
  }

  /** Two different levels share no segment. */
  lemma LayerSetsDisjoint(hs: HierarchicalStructure, d: nat, e: nat)
    requires Valid(hs) && d < |hs.levelNames| && e < |hs.levelNames| && d != e
    ensures LayerSet(hs, d) !! LayerSet(hs, e)
  {
    if d < e {
      assert Disjoint(Layer(hs, d), Layer(hs, e));
    } else {
      assert Disjoint(Layer(hs, e), Layer(hs, d));
    }
  }

  /** A non-empty set of segments lies within at most one level. */
  lemma CoveringLevelUnique(hs: HierarchicalStructure, s: set<string>, d: nat, e: nat)
    requires Valid(hs) && d < |hs.levelNames| && e < |hs.levelNames|
    requires s != {} && s <= LayerSet(hs, d) && s <= LayerSet(hs, e)
    ensures d == e
  {
    var x :| x in s;
    var kd := IndexOf(Layer(hs, d), x);
    assert Layer(hs, d)[kd] == x && x in Layer(hs, e);
    assert Layer(hs, e)[IndexOf(Layer(hs, e), x)] == x && x in Layer(hs, d);
  }

  /** The first level, from depth `d` on, that contains every segment of `s`. */
  function FirstCoveringLevel(hs: HierarchicalStructure, s: set<string>, d: nat): (r: Option<nat>)
    ensures r.Some? ==> d <= r.value < |hs.levelNames| && s <= LayerSet(hs, r.value)
    ensures r.None? ==> forall e :: d <= e < |hs.levelNames| ==> !(s <= LayerSet(hs, e))
    decreases |hs.levelNames| - d
  {
    if d >= |hs.levelNames| then None
    else if s <= LayerSet(hs, d) then Some(d)
    else FirstCoveringLevel(hs, s, d + 1)
  }

  /** `_get_dataframe_level`: the level whose segments are exactly `s`. */
  function DataframeLevel(hs: HierarchicalStructure, s: set<string>): (r: Result<string, Error>)
    requires Valid(hs)
    ensures r.Ok? <==> exists d :: 0 <= d < |hs.levelNames| && s == LayerSet(hs, d)
    ensures r.Ok? ==> r.value in hs.levelNames && s == LayerSet(hs, IndexOf(hs.levelNames, r.value))
    ensures r.Err? ==> r.error == MixedLevels || r.error == MissingSegments
    ensures r == Err(MixedLevels) <==> s == {} || forall d :: 0 <= d < |hs.levelNames| ==> !(s <= LayerSet(hs, d))
    ensures r == Err(MissingSegments) <==> s != {} && exists d :: 0 <= d < |hs.levelNames| && s < LayerSet(hs, d)
  {
    if s == {} then
      assert forall d :: 0 <= d < |hs.levelNames| ==> s != LayerSet(hs, d) by {
        forall d | 0 <= d < |hs.levelNames| { LayerSetNonEmpty(hs, d); }
      }
      Err(MixedLevels)
    else
      match FirstCoveringLevel(hs, s, 0)
      case None => Err(MixedLevels)
      case Some(d) =>
        assert forall e :: 0 <= e < |hs.levelNames| && s <= LayerSet(hs, e) ==> e == d by {
          forall e | 0 <= e < |hs.levelNames| && s <= LayerSet(hs, e) { CoveringLevelUnique(hs, s, d, e); }
        }
        IndexOfNoDup(hs.levelNames, d);
        if s == LayerSet(hs, d) then Ok(hs.levelNames[d]) else Err(MissingSegments)
  }

  /** Inference is idempotent: the segments of a level infer that level. */
  lemma DataframeLevelOfLayer(hs: HierarchicalStructure, d: nat)
    requires Valid(hs) && d < |hs.levelNames|
    ensures DataframeLevel(hs, LayerSet(hs, d)) == Ok(hs.levelNames[d])
  {
    var r := DataframeLevel(hs, LayerSet(hs, d));
    assert r.Ok?;
    var e := IndexOf(hs.levelNames, r.value);
    LayerSetNonEmpty(hs, d);
    CoveringLevelUnique(hs, LayerSet(hs, d), d, e);
  }

  /** Building a dataset sorts its columns by segment name and infers its
      level when a hierarchy is given (`TSDataset.__init__`). */
  function MakeDataset(t: Table, h: Option<HierarchicalStructure>): (r: Result<Dataset, Error>)
    requires WellFormedTable(t) && (h.Some? ==> Valid(h.value))
    ensures r.Ok? ==> ValidDataset(r.value) && r.value.hierarchy == h
    ensures r.Ok? ==>
              && r.value.table.index == t.index
              && SegmentSet(r.value.table) == SegmentSet(t)
              && (forall k, x :: Cell(r.value.table, k, x) == Cell(t, k, x))
              && (LexSorted(t.segments) ==> r.value.table == t)
    ensures h.None? ==> r.Ok? && r.value.currentLevel.None?
    ensures h.Some? ==> (r.Ok? <==> exists d :: 0 <= d < |h.value.levelNames| && SegmentSet(t) == LayerSet(h.value, d))
    ensures h.Some? && r.Ok? ==> r.value.currentLevel == Some(DataframeLevel(h.value, SegmentSet(t)).value)
    ensures h.Some? && r.Err? ==> DataframeLevel(h.value, SegmentSet(t)) == Err(r.error)
  {
    var sorted := SortColumns(t);
    if h.None? then Ok(Dataset(sorted, None, None))
    else
      match DataframeLevel(h.value, SegmentSet(t))
      case Err(e) => Err(e)
      case Ok(level) => Ok(Dataset(sorted, h, Some(level)))
  }

  // ---------------------------------------------------------------------
  // Aggregation to a coarser level

  /** Every cell of `t` is the sum, at its row, of its segment's
      descendants `depth` levels below it in `src`. */
  predicate DescendantSums(src: Table, hs: HierarchicalStructure, depth: nat, t: Table)
  {
    forall k, i :: 0 <= k < |t.values| && 0 <= i < |t.segments| && i < |t.values[k]| ==>
      t.values[k][i] == SumOfSegments(src, k, DescendantsAt(hs, t.segments[i], depth))
  }

  /** `expected` is what aggregating `ds` to `level` must produce: the
      level's segments in the program's order, the same timestamps, and in
      every cell the sum of that segment's descendants in the current table. */
  predicate AggregatesTo(ds: Dataset, level: string, expected: Table)
  {
    && ValidDataset(ds) && ds.hierarchy.Some? && level in ds.hierarchy.value.levelNames
    && var hs := ds.hierarchy.value;
       var d := IndexOf(hs.levelNames, level);
       var dc := IndexOf(hs.levelNames, ds.currentLevel.value);
       && d <= dc && expected.index == ds.table.index && |expected.values| == |ds.table.values|
       && expected.segments == Segments(hs, d)
       && (forall k :: 0 <= k < |expected.values| ==> |expected.values[k]| == |expected.segments|)
       && DescendantSums(ds.table, hs, dc - d, expected)
  }

  /** `get_level_dataset`: the data summed up to `targetLevel`. */
  function GetLevelDataset(ds: Dataset, targetLevel: string): (r: Result<Dataset, Error>)
    requires ValidDataset(ds)
    ensures ds.hierarchy.None? ==> r == Err(LevelNoHierarchy)
    ensures ds.hierarchy.Some? && targetLevel !in ds.hierarchy.value.levelNames ==> r == Err(UnknownLevel(targetLevel))
    ensures ds.hierarchy.Some? && targetLevel in ds.hierarchy.value.levelNames ==>
              (r == Err(WrongDirection) <==>
                 IndexOf(ds.hierarchy.value.levelNames, targetLevel) > IndexOf(ds.hierarchy.value.levelNames, ds.currentLevel.value))
    ensures r.Ok? <==>
              ds.hierarchy.Some? && targetLevel in ds.hierarchy.value.levelNames &&
              IndexOf(ds.hierarchy.value.levelNames, targetLevel) <= IndexOf(ds.hierarchy.value.levelNames, ds.currentLevel.value)
    ensures r.Ok? ==>
              && ValidDataset(r.value)
              && r.value.hierarchy == ds.hierarchy
              && r.value.currentLevel == Some(targetLevel)
              && AggregatesTo(ds, targetLevel, r.value.table)
  {
    if ds.hierarchy.None? then Err(LevelNoHierarchy)
    else
      var hs := ds.hierarchy.value;
      var current := ds.currentLevel.value;
      if targetLevel !in hs.levelNames then Err(UnknownLevel(targetLevel))
      else
        var dc := IndexOf(hs.levelNames, current);
        var dt := IndexOf(hs.levelNames, targetLevel);
        if dt > dc then Err(WrongDirection)
        else Ok(AggregatedDataset(ds, targetLevel))
  }

  /** The successful case of `get_level_dataset`. */
  function AggregatedDataset(ds: Dataset, targetLevel: string): (r: Dataset)
    requires ValidDataset(ds) && ds.hierarchy.Some? && targetLevel in ds.hierarchy.value.levelNames
    requires IndexOf(ds.hierarchy.value.levelNames, targetLevel) <= IndexOf(ds.hierarchy.value.levelNames, ds.currentLevel.value)
    ensures ValidDataset(r) && r.hierarchy == ds.hierarchy && r.currentLevel == Some(targetLevel)
    ensures AggregatesTo(ds, targetLevel, r.table)
  {
    var hs := ds.hierarchy.value;
    var dc := IndexOf(hs.levelNames, ds.currentLevel.value);
    var dt := IndexOf(hs.levelNames, targetLevel);
    var m := SummingMatrix(hs, targetLevel, ds.currentLevel.value).value;
    SegmentsOfLayer(hs, dc);
    var out := AggregateTable(hs, ds.table, dt, dc, m);
    AggregatedTableValid(ds, targetLevel, out);
    Dataset(out, ds.hierarchy, Some(targetLevel))
  }

  /** The summing matrix applied to every row of the current level's
      columns (`summing_matrix @ ts[:, current_level_segments, "target"]`). */
  function AggregateTable(hs: HierarchicalStructure, t: Table, dt: nat, dc: nat, m: SparseMatrix): (r: Table)
    requires Valid(hs) && dt <= dc < |hs.levelNames| && WellFormedTable(t) && IsSummingMatrix(hs, dt, dc, m)
    requires NoDup(Segments(hs, dc))
    ensures r.index == t.index && r.segments == Segments(hs, dt) && |r.values| == |t.values|
    ensures forall k :: 0 <= k < |r.values| ==> |r.values[k]| == |r.segments|
    ensures DescendantSums(t, hs, dc - dt, r)
  {
    var src := Select(t, Segments(hs, dc));
    var out := Table(t.index, Segments(hs, dt),
                     seq(|src.values|, k requires 0 <= k < |src.values| => MatVec(m, src.values[k])));
    AggregatedCells(hs, t, dt, dc, m, out);
    out
  }

  /** A table of the target level's segments, over the same timestamps,
      is a valid dataset at that level. */
  lemma AggregatedTableValid(ds: Dataset, targetLevel: string, out: Table)
    requires ValidDataset(ds) && ds.hierarchy.Some? && targetLevel in ds.hierarchy.value.levelNames
    requires out.index == ds.table.index && |out.values| == |ds.table.values|
    requires out.segments == Segments(ds.hierarchy.value, IndexOf(ds.hierarchy.value.levelNames, targetLevel))
    requires forall k :: 0 <= k < |out.values| ==> |out.values[k]| == |out.segments|
    ensures ValidDataset(Dataset(out, ds.hierarchy, Some(targetLevel)))
  {
    var hs := ds.hierarchy.value;
    var dt := IndexOf(hs.levelNames, targetLevel);
    SegmentsOfLayer(hs, dt);
    assert WellFormedTable(out);
    assert SegmentSet(out) == LayerSet(hs, dt);
  }

  /** Every cell of the aggregated table. */
  lemma AggregatedCells(hs: HierarchicalStructure, t: Table, dt: nat, dc: nat, m: SparseMatrix, out: Table)
    requires Valid(hs) && dt <= dc < |hs.levelNames| && WellFormedTable(t) && IsSummingMatrix(hs, dt, dc, m)
    requires NoDup(Segments(hs, dc))
    requires var src := Select(t, Segments(hs, dc));
             out.segments == Segments(hs, dt) &&
             out.values == seq(|src.values|, k requires 0 <= k < |src.values| => MatVec(m, src.values[k]))
    ensures DescendantSums(t, hs, dc - dt, out)
  {
    forall k, i | 0 <= k < |out.values| && 0 <= i < |out.segments| && i < |out.values[k]|
      ensures out.values[k][i] == SumOfSegments(t, k, DescendantsAt(hs, out.segments[i], dc - dt))
    {
      AggregatedCellAt(hs, t, dt, dc, m, k, i);
    }
  }

  /** One cell: the summing matrix's row `i` applied to row `k` of the
      current level sums the descendants of the `i`-th target segment. */
  lemma AggregatedCellAt(hs: HierarchicalStructure, t: Table, dt: nat, dc: nat, m: SparseMatrix, k: nat, i: nat)
    requires Valid(hs) && dt <= dc < |hs.levelNames| && WellFormedTable(t) && IsSummingMatrix(hs, dt, dc, m)
    requires NoDup(Segments(hs, dc))
    requires k < |t.values| && i < |Segments(hs, dt)|
    ensures MatVec(m, Select(t, Segments(hs, dc)).values[k])[i]
            == SumOfSegments(t, k, DescendantsAt(hs, Segments(hs, dt)[i], dc - dt))
  {
    var names := Segments(hs, dc);
    var d := DescendantsAt(hs, Segments(hs, dt)[i], dc - dt);
    var ws := RowWeights(m, i);
    var xs := Select(t, names).values[k];
    assert forall j :: 0 <= j < |names| ==> ws[j] == (if names[j] in d then Some(1.0) else None);
    DotAmong(t, k, names, d, ws, xs);
    SortedPosition(hs, dt, i);
    assert NoDup(Layer(hs, dc));
    DescendantsInLayer(hs, dt, dc, IndexOf(Layer(hs, dt), Segments(hs, dt)[i]));
    SortMembers(Layer(hs, dc));
    SumOfSegmentsReorder(t, k, Among(names, d), d);
  }

  /** The descendants of a segment at depth `dt`, down at depth `ds`, are
      distinct nodes of that level. */
  lemma DescendantsInLayer(hs: HierarchicalStructure, dt: nat, ds: nat, i0: nat)
    requires dt <= ds && NoDup(Layer(hs, ds)) && i0 < |Layer(hs, dt)|
    ensures NoDup(DescendantsAt(hs, Layer(hs, dt)[i0], ds - dt))
    ensures forall x :: x in DescendantsAt(hs, Layer(hs, dt)[i0], ds - dt) ==> x in Layer(hs, ds)
  {
    var k := ds - dt;
    assert dt + k == ds;
    DescendantsBlock(hs, dt, k, i0);
    NoDupSlice(Layer(hs, dt + k), BlockStart(hs, dt, k, i0), BlockStart(hs, dt, k, i0 + 1));
  }

  /** A table is the aggregation of `ds` to `level` exactly when it has the
      level's segments, the same timestamps, and the descendant sums as cells. */
  lemma GetLevelDatasetIs(ds: Dataset, level: string, expected: Table)
    requires AggregatesTo(ds, level, expected)
    ensures GetLevelDataset(ds, level) == Ok(Dataset(expected, ds.hierarchy, Some(level)))
  {
    var r := GetLevelDataset(ds, level).value;
    AggregationUnique(ds, level, r.table, expected);
    DatasetFields(r, Dataset(expected, ds.hierarchy, Some(level)));
  }

  /** The aggregation of a dataset to a level is determined cell by cell. */
  lemma AggregationUnique(ds: Dataset, level: string, a: Table, b: Table)
    requires AggregatesTo(ds, level, a) && AggregatesTo(ds, level, b)
    ensures a == b
  {
    forall k, i | 0 <= k < |a.values| && 0 <= i < |a.segments|
      ensures a.values[k][i] == b.values[k][i]
    {
      assert b.segments[i] == a.segments[i];
    }
    TableCellsEqual(a, b);
  }

  /** Datasets with the same fields are equal. */
  lemma DatasetFields(a: Dataset, b: Dataset)
    requires a.table == b.table && a.hierarchy == b.hierarchy && a.currentLevel == b.currentLevel
    ensures a == b
  {
  }

  /** Two tables with the same timestamps, segments and cells are equal. */
  lemma TableCellsEqual(a: Table, b: Table)
    requires a.index == b.index && a.segments == b.segments && |a.values| == |b.values|
    requires forall k :: 0 <= k < |a.values| ==> |a.values[k]| == |a.segments| == |b.values[k]|
    requires forall k, i :: 0 <= k < |a.values| && 0 <= i < |a.segments| ==> a.values[k][i] == b.values[k][i]
    ensures a == b
  {
    forall k | 0 <= k < |a.values|
      ensures a.values[k] == b.values[k]
    {
    }
  }

  /** The series of the sum of `x`'s descendants `depth` levels below it. */
  function DescendantSeries(t: Table, hs: HierarchicalStructure, x: string, depth: nat): (r: seq<Option<real>>)
    ensures |r| == |t.values|
  {
    seq(|t.values|, k requires 0 <= k < |t.values| => SumOfSegments(t, k, DescendantsAt(hs, x, depth)))
  }

  /** Every segment's series in an aggregated dataset is the per-timestamp
      sum of its descendants in the current table. */
  lemma LevelSeries(ds: Dataset, level: string)
    requires ValidDataset(ds) && ds.hierarchy.Some? && level in ds.hierarchy.value.levelNames
    requires IndexOf(ds.hierarchy.value.levelNames, level) <= IndexOf(ds.hierarchy.value.levelNames, ds.currentLevel.value)
    ensures var hs := ds.hierarchy.value;
            SeriesOfLevel(GetLevelDataset(ds, level).value.table, ds.table, hs,
                          IndexOf(hs.levelNames, level), IndexOf(hs.levelNames, ds.currentLevel.value))
  {
    AggregationSeriesAll(ds, level, GetLevelDataset(ds, level).value.table);
  }

  /** In an aggregation, a segment's series is its descendants' summed series. */
  lemma AggregationSeries(ds: Dataset, level: string, t: Table, i: nat)
    requires AggregatesTo(ds, level, t) && i < |t.segments|
    ensures var hs := ds.hierarchy.value;
            var d := IndexOf(hs.levelNames, level);
            var dc := IndexOf(hs.levelNames, ds.currentLevel.value);
            SeriesMatch(t, ds.table, hs, Segments(hs, d)[i], dc - d)
  {
    var hs := ds.hierarchy.value;
    var d := IndexOf(hs.levelNames, level);
    SegmentsOfLayer(hs, d);
    SeriesOfSums(t, ds.table, hs, IndexOf(hs.levelNames, ds.currentLevel.value) - d, i);
  }

  /** A column of a table of descendant sums is the summed series. */
  lemma {:induction false} SeriesOfSums(t: Table, src: Table, hs: HierarchicalStructure, depth: nat, i: nat)
    requires NoDup(t.segments) && i < |t.segments| && |t.values| == |src.values|
    requires forall k :: 0 <= k < |t.values| ==> |t.values[k]| == |t.segments|
    requires DescendantSums(src, hs, depth, t)
    ensures SeriesMatch(t, src, hs, t.segments[i], depth)
  {
    var x := t.segments[i];
    forall k | 0 <= k < |t.values|
      ensures Series(t, x)[k] == DescendantSeries(src, hs, x, depth)[k]
    {
      CellAt(t, k, i);
    }
    assert Series(t, x) == DescendantSeries(src, hs, x, depth);
  }

  /** Segment `x`'s series in `levelTable` is the sum of its descendants
      `depth` levels below it in `t`. */
  predicate SeriesMatch(levelTable: Table, t: Table, hs: HierarchicalStructure, x: string, depth: nat)
  {
    Series(levelTable, x) == DescendantSeries(t, hs, x, depth)
  }

  /** Each segment's series in the table aggregated to depth `d` is the sum
      of its descendants in `t`, whose level is `dc`. */
  predicate SeriesOfLevel(levelTable: Table, t: Table, hs: HierarchicalStructure, d: nat, dc: nat)
    requires d <= dc
  {
    forall i :: 0 <= i < |Segments(hs, d)| ==> SeriesMatch(levelTable, t, hs, Segments(hs, d)[i], dc - d)
  }

  /** In an aggregation, every segment of the level holds its descendants'
      summed series. */
  lemma AggregationSeriesAll(ds: Dataset, level: string, t: Table)
    requires AggregatesTo(ds, level, t)
    ensures var hs := ds.hierarchy.value;
            SeriesOfLevel(t, ds.table, hs, IndexOf(hs.levelNames, level), IndexOf(hs.levelNames, ds.currentLevel.value))
  {
    var hs := ds.hierarchy.value;
    var d, dc := IndexOf(hs.levelNames, level), IndexOf(hs.levelNames, ds.currentLevel.value);
    forall i | 0 <= i < |Segments(hs, d)|
      ensures SeriesMatch(t, ds.table, hs, Segments(hs, d)[i], dc - d)
    {
      AggregationSeries(ds, level, t, i);
    }
  }

  /** A dataset's columns are its level's segments in the program's order. */
  lemma CurrentSegments(ds: Dataset)
    requires ValidDataset(ds) && ds.hierarchy.Some?
    ensures ds.table.segments == Segments(ds.hierarchy.value, IndexOf(ds.hierarchy.value.levelNames, ds.currentLevel.value))
  {
    var hs := ds.hierarchy.value;
    var d := IndexOf(hs.levelNames, ds.currentLevel.value);
    SegmentsOfLayer(hs, d);
    assert forall x :: x in ds.table.segments <==> x in SegmentSet(ds.table);
    LexSortedUnique(ds.table.segments, Segments(hs, d));
  }

  /** Zero levels up, a cell is the sum over its own segment alone. */
  lemma SumOfOwnSegment(t: Table, hs: HierarchicalStructure, k: nat, i: nat)
    requires WellFormedTable(t) && k < |t.values| && i < |t.segments|
    ensures SumOfSegments(t, k, DescendantsAt(hs, t.segments[i], 0)) == t.values[k][i]
  {
    var x := t.segments[i];
    assert DescendantsAt(hs, x, 0) == [x];
    SumOfSegmentsCons(t, k, [x]);
    CellAt(t, k, i);
  }

  /** A dataset is its own aggregation to its current level. */
  lemma AggregatesToSelf(ds: Dataset)
    requires ValidDataset(ds) && ds.hierarchy.Some?
    ensures AggregatesTo(ds, ds.currentLevel.value, ds.table)
  {
    var hs := ds.hierarchy.value;
    var t := ds.table;
    CurrentSegments(ds);
    forall k, i | 0 <= k < |t.values| && 0 <= i < |t.segments| && i < |t.values[k]|
      ensures t.values[k][i] == SumOfSegments(t, k, DescendantsAt(hs, t.segments[i], 0))
    {
      SumOfOwnSegment(t, hs, k, i);
    }
  }

  /** Aggregating to the current level itself changes nothing. */
  lemma GetLevelDatasetSameLevel(ds: Dataset)
    requires ValidDataset(ds) && ds.hierarchy.Some?
    ensures GetLevelDataset(ds, ds.currentLevel.value) == Ok(ds)
  {
    AggregatesToSelf(ds);
    GetLevelDatasetIs(ds, ds.currentLevel.value, ds.table);
    DatasetFields(ds, Dataset(ds.table, ds.hierarchy, Some(ds.currentLevel.value)));
  }
}
