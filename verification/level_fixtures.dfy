/** The level-inference and aggregation cases of the hierarchical-dataset
    tests, on the trees of `Fixtures`. */
module LevelFixtures {
  import opened Wrappers
  import opened Seqs
  import opened Errors
  import opened Sparse
  import opened Hierarchy
  import opened LevelDataset
  import opened Fixtures

  // ---------------------------------------------------------------------
  // Level inference on the market / product tree

  lemma TreeLayerSet0()
    ensures LayerSet(Tree, 0) == {"total"}
  {
    TreeLayers();
  }

  lemma TreeLayerSet1()
    ensures LayerSet(Tree, 1) == {"X", "Y"}
  {
    TreeLayers();
  }

  lemma TreeLayerSet2()
    ensures LayerSet(Tree, 2) == {"a", "b", "c", "d"}
  {
    TreeLayers();
  }

  lemma TreeLayerSets()
    ensures LayerSet(Tree, 0) == {"total"}
    ensures LayerSet(Tree, 1) == {"X", "Y"}
    ensures LayerSet(Tree, 2) == {"a", "b", "c", "d"}
  {
    TreeLayerSet0();
    TreeLayerSet1();
    TreeLayerSet2();
  }

  /** Segments from two levels are rejected. */
  lemma MixedSegmentsFail()
    ensures Valid(Tree) && DataframeLevel(Tree, {"X", "a"}) == Err(MixedLevels)
  {
    TreeValid();
    TreeLayerSets();
  }

  /** Part of a level is rejected. */
  lemma MissingSegmentsFail()
    ensures Valid(Tree) && DataframeLevel(Tree, {"X"}) == Err(MissingSegments)
  {
    TreeValid();
    TreeLayerSets();
    assert {"X"} < LayerSet(Tree, 1);
  }

  lemma MarketSegmentsLevel()
    ensures Valid(Tree) && DataframeLevel(Tree, {"X", "Y"}) == Ok("market")
  {
    TreeValid();
    TreeLayerSets();
    DataframeLevelOfLayer(Tree, 1);
  }

  lemma ProductSegmentsLevel()
    ensures Valid(Tree) && DataframeLevel(Tree, {"a", "b", "c", "d"}) == Ok("product")
  {
    TreeValid();
    TreeLayerSets();
    DataframeLevelOfLayer(Tree, 2);
  }

  lemma LongTreeLayerSet0()
    ensures LayerSet(LongTree, 0) == {"total"}
  {
    LongTreeLayers();
  }

  lemma LongTreeLayerSet1()
    ensures LayerSet(LongTree, 1) == {"X", "Y"}
  {
    LongTreeLayers();
  }

  lemma LongTreeLayerSet2()
    ensures LayerSet(LongTree, 2) == {"a", "b"}
  {
    LongTreeLayers();
  }

  lemma LongTreeLayerSet3()
    ensures LayerSet(LongTree, 3) == {"c", "d"}
  {
    LongTreeLayers();
  }

  lemma LongTreeLayerSets()
    ensures LayerSet(LongTree, 0) == {"total"}
    ensures LayerSet(LongTree, 1) == {"X", "Y"}
    ensures LayerSet(LongTree, 2) == {"a", "b"}
    ensures LayerSet(LongTree, 3) == {"c", "d"}
  {
    LongTreeLayerSet0();
    LongTreeLayerSet1();
    LongTreeLayerSet2();
    LongTreeLayerSet3();
  }

  lemma TailedTreeLayerSet0()
    ensures LayerSet(TailedTree, 0) == {"total"}
  {
    TailedTreeLayers();
  }

  lemma TailedTreeLayerSet1()
    ensures LayerSet(TailedTree, 1) == {"X", "Y"}
  {
    TailedTreeLayers();
  }

  lemma TailedTreeLayerSet2()
    ensures LayerSet(TailedTree, 2) == {"a", "c", "d"}
  {
    TailedTreeLayers();
  }

  lemma TailedTreeLayerSet3()
    ensures LayerSet(TailedTree, 3) == {"e", "f", "g", "h"}
  {
    TailedTreeLayers();
  }

  lemma TailedTreeLayerSets()
    ensures LayerSet(TailedTree, 0) == {"total"}
    ensures LayerSet(TailedTree, 1) == {"X", "Y"}
    ensures LayerSet(TailedTree, 2) == {"a", "c", "d"}
    ensures LayerSet(TailedTree, 3) == {"e", "f", "g", "h"}
  {
    TailedTreeLayerSet0();
    TailedTreeLayerSet1();
    TailedTreeLayerSet2();
    TailedTreeLayerSet3();
  }

  // ---------------------------------------------------------------------
  // Sums of a few named cells

  lemma SumOne(t: Table, k: nat, x: string, a: real)
    requires Cell(t, k, x) == Some(a)
    ensures SumOfSegments(t, k, [x]) == Some(a)
  {
    SumOfSegmentsCons(t, k, [x]);
    assert [x][1..] == [];
  }

  lemma SumTwo(t: Table, k: nat, x: string, y: string, a: real, b: real)
    requires Cell(t, k, x) == Some(a) && Cell(t, k, y) == Some(b)
    ensures SumOfSegments(t, k, [x, y]) == Some(a + b)
  {
    SumOfSegmentsCons(t, k, [x, y]);
    SumOne(t, k, y, b);
    assert [x, y][1..] == [y];
  }

  lemma SumThree(t: Table, k: nat, x: string, y: string, z: string, a: real, b: real, c: real)
    requires Cell(t, k, x) == Some(a) && Cell(t, k, y) == Some(b) && Cell(t, k, z) == Some(c)
    ensures SumOfSegments(t, k, [x, y, z]) == Some(a + b + c)
  {
    SumOfSegmentsCons(t, k, [x, y, z]);
    SumTwo(t, k, y, z, b, c);
    assert [x, y, z][1..] == [y, z];
  }

  lemma SumFour(t: Table, k: nat, w: string, x: string, y: string, z: string, a: real, b: real, c: real, d: real)
    requires Cell(t, k, w) == Some(a) && Cell(t, k, x) == Some(b) && Cell(t, k, y) == Some(c) && Cell(t, k, z) == Some(d)
    ensures SumOfSegments(t, k, [w, x, y, z]) == Some(a + b + c + d)
  {
    var n := [w, x, y, z];
    SumOfSegmentsCons(t, k, n);
    SumThree(t, k, x, y, z, b, c, d);
    assert n[1..] == [x, y, z];
  }

  // ---------------------------------------------------------------------
  // The market / product tree, two timestamps

  const ProductTable := Table([0, 1], ["a", "b", "c", "d"],
    [[Some(1.0), Some(0.0), Some(3.0), Some(7.0)],
     [Some(1.0), Some(1.0), Some(18.0), Some(2.0)]])
  const ProductTs := Dataset(ProductTable, Some(Tree), Some("product"))

  lemma ProductTableNoDup()
    ensures NoDup(ProductTable.segments)
  {
  }

  lemma ProductTableRows()
    ensures forall k :: 0 <= k < |ProductTable.values| ==> |ProductTable.values[k]| == |ProductTable.segments|
  {
  }

  lemma ProductTableSorted()
    ensures LexSorted(ProductTable.segments)
  {
    assert LexLess(ProductTable.segments[0], ProductTable.segments[1]);
    assert LexLess(ProductTable.segments[1], ProductTable.segments[2]);
    assert LexLess(ProductTable.segments[2], ProductTable.segments[3]);
  }

  lemma ProductTsMade()
    ensures WellFormedTable(ProductTable) && Valid(Tree)
    ensures MakeDataset(ProductTable, Some(Tree)) == Ok(ProductTs) && ValidDataset(ProductTs)
  {
    assert WellFormedTable(ProductTable) && SegmentSet(ProductTable) == {"a", "b", "c", "d"};
    ProductTableSorted();
    ProductSegmentsLevel();
  }

  const MarketTable := Table([0, 1], ["X", "Y"],
    [[Some(1.0), Some(10.0)],
     [Some(2.0), Some(20.0)]])
  const MarketTs := Dataset(MarketTable, Some(Tree), Some("market"))

  lemma MarketTableNoDup()
    ensures NoDup(MarketTable.segments)
  {
  }

  lemma MarketTableRows()
    ensures forall k :: 0 <= k < |MarketTable.values| ==> |MarketTable.values[k]| == |MarketTable.segments|
  {
  }

  lemma MarketTableSorted()
    ensures LexSorted(MarketTable.segments)
  {
    assert LexLess(MarketTable.segments[0], MarketTable.segments[1]);
  }

  lemma MarketTsMade()
    ensures WellFormedTable(MarketTable) && Valid(Tree)
    ensures MakeDataset(MarketTable, Some(Tree)) == Ok(MarketTs) && ValidDataset(MarketTs)
  {
    assert WellFormedTable(MarketTable) && SegmentSet(MarketTable) == {"X", "Y"};
    MarketTableSorted();
    MarketSegmentsLevel();
  }

  const TotalTable := Table([0, 1], ["total"],
    [[Some(11.0)],
     [Some(22.0)]])
  const TotalTs := Dataset(TotalTable, Some(Tree), Some("total"))

  lemma TotalTableNoDup()
    ensures NoDup(TotalTable.segments)
  {
  }

  lemma TotalTableRows()
    ensures forall k :: 0 <= k < |TotalTable.values| ==> |TotalTable.values[k]| == |TotalTable.segments|
  {
  }

  lemma TotalTableSorted()
    ensures LexSorted(TotalTable.segments)
  {
  }

  lemma TotalTsMade()
    ensures WellFormedTable(TotalTable) && Valid(Tree)
    ensures MakeDataset(TotalTable, Some(Tree)) == Ok(TotalTs) && ValidDataset(TotalTs)
  {
    assert WellFormedTable(TotalTable) && SegmentSet(TotalTable) == {"total"};
    TotalTableSorted();
    TreeValid();
    TreeLayerSets();
    DataframeLevelOfLayer(Tree, 0);
  }

  lemma TreeBelowX1()
    ensures DescendantsAt(Tree, "X", 1) == ["a", "b"]
  {
    assert DescendantsAt(Tree, "X", 1) == ChildrenOf(Tree, ["X"]);
  }

  lemma TreeBelowY1()
    ensures DescendantsAt(Tree, "Y", 1) == ["c", "d"]
  {
    assert DescendantsAt(Tree, "Y", 1) == ChildrenOf(Tree, ["Y"]);
  }

  lemma ProductToMarketCell00()
    ensures SumOfSegments(ProductTable, 0, DescendantsAt(Tree, "X", 1)) == Some(1.0)
  {
    TreeBelowX1();
    ProductTableNoDup();
    CellAt(ProductTable, 0, 0);
    CellAt(ProductTable, 0, 1);
    SumTwo(ProductTable, 0, "a", "b", 1.0, 0.0);
  }

  lemma ProductToMarketCell01()
    ensures SumOfSegments(ProductTable, 0, DescendantsAt(Tree, "Y", 1)) == Some(10.0)
  {
    TreeBelowY1();
    ProductTableNoDup();
    CellAt(ProductTable, 0, 2);
    CellAt(ProductTable, 0, 3);
    SumTwo(ProductTable, 0, "c", "d", 3.0, 7.0);
  }

  lemma ProductToMarketCell10()
    ensures SumOfSegments(ProductTable, 1, DescendantsAt(Tree, "X", 1)) == Some(2.0)
  {
    TreeBelowX1();
    ProductTableNoDup();
    CellAt(ProductTable, 1, 0);
    CellAt(ProductTable, 1, 1);
    SumTwo(ProductTable, 1, "a", "b", 1.0, 1.0);
  }

  lemma ProductToMarketCell11()
    ensures SumOfSegments(ProductTable, 1, DescendantsAt(Tree, "Y", 1)) == Some(20.0)
  {
    TreeBelowY1();
    ProductTableNoDup();
    CellAt(ProductTable, 1, 2);
    CellAt(ProductTable, 1, 3);
    SumTwo(ProductTable, 1, "c", "d", 18.0, 2.0);
  }

  lemma ProductToMarketCells()
    ensures DescendantSums(ProductTable, Tree, 1, MarketTable)
  {
    forall k, i | 0 <= k < |MarketTable.values| && 0 <= i < |MarketTable.segments| && i < |MarketTable.values[k]|
      ensures MarketTable.values[k][i] == SumOfSegments(ProductTable, k, DescendantsAt(Tree, MarketTable.segments[i], 1))
    {
      if k == 0 && i == 0 {
        ProductToMarketCell00();
      } else if k == 0 && i == 1 {
        ProductToMarketCell01();
      } else if k == 1 && i == 0 {
        ProductToMarketCell10();
      } else {
        ProductToMarketCell11();
      }
    }
  }

  lemma ProductToMarketDepths()
    ensures "market" in Tree.levelNames && IndexOf(Tree.levelNames, "market") == 1
    ensures IndexOf(Tree.levelNames, "product") == 2
  {
  }

  lemma ProductToMarketShape()
    ensures MarketTable.index == ProductTs.table.index && |MarketTable.values| == |ProductTs.table.values|
    ensures MarketTable.segments == Segments(Tree, 1)
    ensures forall k :: 0 <= k < |MarketTable.values| ==> |MarketTable.values[k]| == |MarketTable.segments|
  {
    MarketTableRows();
    TreeSegments1();
  }

  lemma ProductToMarketAggregates()
    ensures AggregatesTo(ProductTs, "market", MarketTable)
  {
    ProductTsMade();
    ProductToMarketDepths();
    ProductToMarketShape();
    ProductToMarketCells();
  }

  /** Product-level data summed to the market level is the market table. */
  lemma ProductToMarket()
    ensures ValidDataset(ProductTs)
    ensures GetLevelDataset(ProductTs, "market") == Ok(Dataset(MarketTable, Some(Tree), Some("market")))
  {
    ProductToMarketAggregates();
    GetLevelDatasetIs(ProductTs, "market", MarketTable);
  }

  lemma TreeBelowRoot2()
    ensures DescendantsAt(Tree, "total", 2) == ["a", "b", "c", "d"]
  {
    TreeLayers();
  }

  lemma ProductToTotalCell00()
    ensures SumOfSegments(ProductTable, 0, DescendantsAt(Tree, "total", 2)) == Some(11.0)
  {
    TreeBelowRoot2();
    ProductTableNoDup();
    CellAt(ProductTable, 0, 0);
    CellAt(ProductTable, 0, 1);
    CellAt(ProductTable, 0, 2);
    CellAt(ProductTable, 0, 3);
    SumFour(ProductTable, 0, "a", "b", "c", "d", 1.0, 0.0, 3.0, 7.0);
  }

  lemma ProductToTotalCell10()
    ensures SumOfSegments(ProductTable, 1, DescendantsAt(Tree, "total", 2)) == Some(22.0)
  {
    TreeBelowRoot2();
    ProductTableNoDup();
    CellAt(ProductTable, 1, 0);
    CellAt(ProductTable, 1, 1);
    CellAt(ProductTable, 1, 2);
    CellAt(ProductTable, 1, 3);
    SumFour(ProductTable, 1, "a", "b", "c", "d", 1.0, 1.0, 18.0, 2.0);
  }

  lemma ProductToTotalCells()
    ensures DescendantSums(ProductTable, Tree, 2, TotalTable)
  {
    forall k, i | 0 <= k < |TotalTable.values| && 0 <= i < |TotalTable.segments| && i < |TotalTable.values[k]|
      ensures TotalTable.values[k][i] == SumOfSegments(ProductTable, k, DescendantsAt(Tree, TotalTable.segments[i], 2))
    {
      if k == 0 && i == 0 {
        ProductToTotalCell00();
      } else {
        ProductToTotalCell10();
      }
    }
  }

  lemma ProductToTotalDepths()
    ensures "total" in Tree.levelNames && IndexOf(Tree.levelNames, "total") == 0
    ensures IndexOf(Tree.levelNames, "product") == 2
  {
  }

  lemma ProductToTotalShape()
    ensures TotalTable.index == ProductTs.table.index && |TotalTable.values| == |ProductTs.table.values|
    ensures TotalTable.segments == Segments(Tree, 0)
    ensures forall k :: 0 <= k < |TotalTable.values| ==> |TotalTable.values[k]| == |TotalTable.segments|
  {
    TotalTableRows();
    TreeSegments0();
  }

  lemma ProductToTotalAggregates()
    ensures AggregatesTo(ProductTs, "total", TotalTable)
  {
    ProductTsMade();
    ProductToTotalDepths();
    ProductToTotalShape();
    ProductToTotalCells();
  }

  /** Product-level data summed to the root is the total table. */
  lemma ProductToTotal()
    ensures ValidDataset(ProductTs)
    ensures GetLevelDataset(ProductTs, "total") == Ok(Dataset(TotalTable, Some(Tree), Some("total")))
  {
    ProductToTotalAggregates();
    GetLevelDatasetIs(ProductTs, "total", TotalTable);
  }

  lemma TreeBelowRoot1()
    ensures DescendantsAt(Tree, "total", 1) == ["X", "Y"]
  {
    TreeLayers();
  }

  lemma MarketToTotalCell00()
    ensures SumOfSegments(MarketTable, 0, DescendantsAt(Tree, "total", 1)) == Some(11.0)
  {
    TreeBelowRoot1();
    MarketTableNoDup();
    CellAt(MarketTable, 0, 0);
    CellAt(MarketTable, 0, 1);
    SumTwo(MarketTable, 0, "X", "Y", 1.0, 10.0);
  }

  lemma MarketToTotalCell10()
    ensures SumOfSegments(MarketTable, 1, DescendantsAt(Tree, "total", 1)) == Some(22.0)
  {
    TreeBelowRoot1();
    MarketTableNoDup();
    CellAt(MarketTable, 1, 0);
    CellAt(MarketTable, 1, 1);
    SumTwo(MarketTable, 1, "X", "Y", 2.0, 20.0);
  }

  lemma MarketToTotalCells()
    ensures DescendantSums(MarketTable, Tree, 1, TotalTable)
  {
    forall k, i | 0 <= k < |TotalTable.values| && 0 <= i < |TotalTable.segments| && i < |TotalTable.values[k]|
      ensures TotalTable.values[k][i] == SumOfSegments(MarketTable, k, DescendantsAt(Tree, TotalTable.segments[i], 1))
    {
      if k == 0 && i == 0 {
        MarketToTotalCell00();
      } else {
        MarketToTotalCell10();
      }
    }
  }

  lemma MarketToTotalDepths()
    ensures "total" in Tree.levelNames && IndexOf(Tree.levelNames, "total") == 0
    ensures IndexOf(Tree.levelNames, "market") == 1
  {
  }

  lemma MarketToTotalShape()
    ensures TotalTable.index == MarketTs.table.index && |TotalTable.values| == |MarketTs.table.values|
    ensures TotalTable.segments == Segments(Tree, 0)
    ensures forall k :: 0 <= k < |TotalTable.values| ==> |TotalTable.values[k]| == |TotalTable.segments|
  {
    TotalTableRows();
    TreeSegments0();
  }

  lemma MarketToTotalAggregates()
    ensures AggregatesTo(MarketTs, "total", TotalTable)
  {
    MarketTsMade();
    MarketToTotalDepths();
    MarketToTotalShape();
    MarketToTotalCells();
  }

  /** Market-level data summed to the root is the total table. */
  lemma MarketToTotal()
    ensures ValidDataset(MarketTs)
    ensures GetLevelDataset(MarketTs, "total") == Ok(Dataset(TotalTable, Some(Tree), Some("total")))
  {
    MarketToTotalAggregates();
    GetLevelDatasetIs(MarketTs, "total", TotalTable);
  }

  /** The level names the test passes, the empty one included, are outside
      the hierarchy and rejected. */
  lemma UnknownLevelFails(level: string)
    requires level == "" || level == "abcd"
    ensures ValidDataset(MarketTs)
    ensures GetLevelDataset(MarketTs, level) == Err(UnknownLevel(level))
  {
    MarketTsMade();
    assert level !in Tree.levelNames;
  }

  /** Aggregation never goes down the hierarchy. */
  lemma DownwardLevelFails()
    ensures ValidDataset(MarketTs) && GetLevelDataset(MarketTs, "product") == Err(WrongDirection)
  {
    MarketTsMade();
    assert IndexOf(Tree.levelNames, "product") == 2 && IndexOf(Tree.levelNames, "market") == 1;
  }

  /** Without a hierarchy there are no levels to aggregate to. */
  lemma NoHierarchyFails()
    ensures ValidDataset(Dataset(MarketTable, None, None))
    ensures GetLevelDataset(Dataset(MarketTable, None, None), "total") == Err(LevelNoHierarchy)
  {
    assert WellFormedTable(MarketTable);
  }

  // ---------------------------------------------------------------------
  // The chain tree: every node has one child

  const LongTable4 := Table([0, 1], ["c", "d"],
    [[Some(0.0), Some(2.0)],
     [Some(1.0), Some(3.0)]])
  const LongTs4 := Dataset(LongTable4, Some(LongTree), Some("l4"))

  lemma LongTable4NoDup()
    ensures NoDup(LongTable4.segments)
  {
  }

  lemma LongTable4Rows()
    ensures forall k :: 0 <= k < |LongTable4.values| ==> |LongTable4.values[k]| == |LongTable4.segments|
  {
  }

  lemma LongTable4Sorted()
    ensures LexSorted(LongTable4.segments)
  {
    assert LexLess(LongTable4.segments[0], LongTable4.segments[1]);
  }

  lemma LongTs4Made()
    ensures WellFormedTable(LongTable4) && Valid(LongTree)
    ensures MakeDataset(LongTable4, Some(LongTree)) == Ok(LongTs4) && ValidDataset(LongTs4)
  {
    assert WellFormedTable(LongTable4) && SegmentSet(LongTable4) == {"c", "d"};
    LongTable4Sorted();
    LongTreeValid();
    LongTreeLayerSets();
    DataframeLevelOfLayer(LongTree, 3);
  }

  const LongTable3 := Table([0, 1], ["a", "b"],
    [[Some(0.0), Some(2.0)],
     [Some(1.0), Some(3.0)]])
  const LongTs3 := Dataset(LongTable3, Some(LongTree), Some("l3"))

  lemma LongTable3NoDup()
    ensures NoDup(LongTable3.segments)
  {
  }

  lemma LongTable3Rows()
    ensures forall k :: 0 <= k < |LongTable3.values| ==> |LongTable3.values[k]| == |LongTable3.segments|
  {
  }

  lemma LongTable3Sorted()
    ensures LexSorted(LongTable3.segments)
  {
    assert LexLess(LongTable3.segments[0], LongTable3.segments[1]);
  }

  lemma LongTs3Made()
    ensures WellFormedTable(LongTable3) && Valid(LongTree)
    ensures MakeDataset(LongTable3, Some(LongTree)) == Ok(LongTs3) && ValidDataset(LongTs3)
  {
    assert WellFormedTable(LongTable3) && SegmentSet(LongTable3) == {"a", "b"};
    LongTable3Sorted();
    LongTreeValid();
    LongTreeLayerSets();
    DataframeLevelOfLayer(LongTree, 2);
  }

  const LongTable2 := Table([0, 1], ["X", "Y"],
    [[Some(0.0), Some(2.0)],
     [Some(1.0), Some(3.0)]])
  const LongTs2 := Dataset(LongTable2, Some(LongTree), Some("l2"))

  lemma LongTable2NoDup()
    ensures NoDup(LongTable2.segments)
  {
  }

  lemma LongTable2Rows()
    ensures forall k :: 0 <= k < |LongTable2.values| ==> |LongTable2.values[k]| == |LongTable2.segments|
  {
  }

  lemma LongTable2Sorted()
    ensures LexSorted(LongTable2.segments)
  {
    assert LexLess(LongTable2.segments[0], LongTable2.segments[1]);
  }

  lemma LongTs2Made()
    ensures WellFormedTable(LongTable2) && Valid(LongTree)
    ensures MakeDataset(LongTable2, Some(LongTree)) == Ok(LongTs2) && ValidDataset(LongTs2)
  {
    assert WellFormedTable(LongTable2) && SegmentSet(LongTable2) == {"X", "Y"};
    LongTable2Sorted();
    LongTreeValid();
    LongTreeLayerSets();
    DataframeLevelOfLayer(LongTree, 1);
  }

  const LongTable1 := Table([0, 1], ["total"],
    [[Some(2.0)],
     [Some(4.0)]])
  const LongTs1 := Dataset(LongTable1, Some(LongTree), Some("l1"))

  lemma LongTable1NoDup()
    ensures NoDup(LongTable1.segments)
  {
  }

  lemma LongTable1Rows()
    ensures forall k :: 0 <= k < |LongTable1.values| ==> |LongTable1.values[k]| == |LongTable1.segments|
  {
  }

  lemma LongTable1Sorted()
    ensures LexSorted(LongTable1.segments)
  {
  }

  lemma LongTs1Made()
    ensures WellFormedTable(LongTable1) && Valid(LongTree)
    ensures MakeDataset(LongTable1, Some(LongTree)) == Ok(LongTs1) && ValidDataset(LongTs1)
  {
    assert WellFormedTable(LongTable1) && SegmentSet(LongTable1) == {"total"};
    LongTable1Sorted();
    LongTreeValid();
    LongTreeLayerSets();
    DataframeLevelOfLayer(LongTree, 0);
  }

  lemma LongTreeBelowa1()
    ensures DescendantsAt(LongTree, "a", 1) == ["c"]
  {
    assert DescendantsAt(LongTree, "a", 1) == ChildrenOf(LongTree, ["a"]);
  }

  lemma LongTreeBelowb1()
    ensures DescendantsAt(LongTree, "b", 1) == ["d"]
  {
    assert DescendantsAt(LongTree, "b", 1) == ChildrenOf(LongTree, ["b"]);
  }

  lemma LongLevel4To3Cell00()
    ensures SumOfSegments(LongTable4, 0, DescendantsAt(LongTree, "a", 1)) == Some(0.0)
  {
    LongTreeBelowa1();
    LongTable4NoDup();
    CellAt(LongTable4, 0, 0);
    SumOne(LongTable4, 0, "c", 0.0);
  }

  lemma LongLevel4To3Cell01()
    ensures SumOfSegments(LongTable4, 0, DescendantsAt(LongTree, "b", 1)) == Some(2.0)
  {
    LongTreeBelowb1();
    LongTable4NoDup();
    CellAt(LongTable4, 0, 1);
    SumOne(LongTable4, 0, "d", 2.0);
  }

  lemma LongLevel4To3Cell10()
    ensures SumOfSegments(LongTable4, 1, DescendantsAt(LongTree, "a", 1)) == Some(1.0)
  {
    LongTreeBelowa1();
    LongTable4NoDup();
    CellAt(LongTable4, 1, 0);
    SumOne(LongTable4, 1, "c", 1.0);
  }

  lemma LongLevel4To3Cell11()
    ensures SumOfSegments(LongTable4, 1, DescendantsAt(LongTree, "b", 1)) == Some(3.0)
  {
    LongTreeBelowb1();
    LongTable4NoDup();
    CellAt(LongTable4, 1, 1);
    SumOne(LongTable4, 1, "d", 3.0);
  }

  lemma LongLevel4To3Cells()
    ensures DescendantSums(LongTable4, LongTree, 1, LongTable3)
  {
    forall k, i | 0 <= k < |LongTable3.values| && 0 <= i < |LongTable3.segments| && i < |LongTable3.values[k]|
      ensures LongTable3.values[k][i] == SumOfSegments(LongTable4, k, DescendantsAt(LongTree, LongTable3.segments[i], 1))
    {
      if k == 0 && i == 0 {
        LongLevel4To3Cell00();
      } else if k == 0 && i == 1 {
        LongLevel4To3Cell01();
      } else if k == 1 && i == 0 {
        LongLevel4To3Cell10();
      } else {
        LongLevel4To3Cell11();
      }
    }
  }

  lemma LongLevel4To3Depths()
    ensures "l3" in LongTree.levelNames && IndexOf(LongTree.levelNames, "l3") == 2
    ensures IndexOf(LongTree.levelNames, "l4") == 3
  {
  }

  lemma LongLevel4To3Shape()
    ensures LongTable3.index == LongTs4.table.index && |LongTable3.values| == |LongTs4.table.values|
    ensures LongTable3.segments == Segments(LongTree, 2)
    ensures forall k :: 0 <= k < |LongTable3.values| ==> |LongTable3.values[k]| == |LongTable3.segments|
  {
    LongTable3Rows();
    LongTreeSegments2();
  }

  lemma LongLevel4To3Aggregates()
    ensures AggregatesTo(LongTs4, "l3", LongTable3)
  {
    LongTs4Made();
    LongLevel4To3Depths();
    LongLevel4To3Shape();
    LongLevel4To3Cells();
  }

  /** One level up a chain, each node carries its only child's series. */
  lemma LongLevel4To3()
    ensures ValidDataset(LongTs4)
    ensures GetLevelDataset(LongTs4, "l3") == Ok(Dataset(LongTable3, Some(LongTree), Some("l3")))
  {
    LongLevel4To3Aggregates();
    GetLevelDatasetIs(LongTs4, "l3", LongTable3);
  }

  lemma LongTreeBelowX2()
    ensures DescendantsAt(LongTree, "X", 2) == ["c"]
  {
    assert DescendantsAt(LongTree, "X", 1) == ChildrenOf(LongTree, ["X"]);
    assert DescendantsAt(LongTree, "X", 2) == ChildrenOf(LongTree, DescendantsAt(LongTree, "X", 1));
  }

  lemma LongTreeBelowY2()
    ensures DescendantsAt(LongTree, "Y", 2) == ["d"]
  {
    assert DescendantsAt(LongTree, "Y", 1) == ChildrenOf(LongTree, ["Y"]);
    assert DescendantsAt(LongTree, "Y", 2) == ChildrenOf(LongTree, DescendantsAt(LongTree, "Y", 1));
  }

  lemma LongLevel4To2Cell00()
    ensures SumOfSegments(LongTable4, 0, DescendantsAt(LongTree, "X", 2)) == Some(0.0)
  {
    LongTreeBelowX2();
    LongTable4NoDup();
    CellAt(LongTable4, 0, 0);
    SumOne(LongTable4, 0, "c", 0.0);
  }

  lemma LongLevel4To2Cell01()
    ensures SumOfSegments(LongTable4, 0, DescendantsAt(LongTree, "Y", 2)) == Some(2.0)
  {
    LongTreeBelowY2();
    LongTable4NoDup();
    CellAt(LongTable4, 0, 1);
    SumOne(LongTable4, 0, "d", 2.0);
  }

  lemma LongLevel4To2Cell10()
    ensures SumOfSegments(LongTable4, 1, DescendantsAt(LongTree, "X", 2)) == Some(1.0)
  {
    LongTreeBelowX2();
    LongTable4NoDup();
    CellAt(LongTable4, 1, 0);
    SumOne(LongTable4, 1, "c", 1.0);
  }

  lemma LongLevel4To2Cell11()
    ensures SumOfSegments(LongTable4, 1, DescendantsAt(LongTree, "Y", 2)) == Some(3.0)
  {
    LongTreeBelowY2();
    LongTable4NoDup();
    CellAt(LongTable4, 1, 1);
    SumOne(LongTable4, 1, "d", 3.0);
  }

  lemma LongLevel4To2Cells()
    ensures DescendantSums(LongTable4, LongTree, 2, LongTable2)
  {
    forall k, i | 0 <= k < |LongTable2.values| && 0 <= i < |LongTable2.segments| && i < |LongTable2.values[k]|
      ensures LongTable2.values[k][i] == SumOfSegments(LongTable4, k, DescendantsAt(LongTree, LongTable2.segments[i], 2))
    {
      if k == 0 && i == 0 {
        LongLevel4To2Cell00();
      } else if k == 0 && i == 1 {
        LongLevel4To2Cell01();
      } else if k == 1 && i == 0 {
        LongLevel4To2Cell10();
      } else {
        LongLevel4To2Cell11();
      }
    }
  }

  lemma LongLevel4To2Depths()
    ensures "l2" in LongTree.levelNames && IndexOf(LongTree.levelNames, "l2") == 1
    ensures IndexOf(LongTree.levelNames, "l4") == 3
  {
  }

  lemma LongLevel4To2Shape()
    ensures LongTable2.index == LongTs4.table.index && |LongTable2.values| == |LongTs4.table.values|
    ensures LongTable2.segments == Segments(LongTree, 1)
    ensures forall k :: 0 <= k < |LongTable2.values| ==> |LongTable2.values[k]| == |LongTable2.segments|
  {
    LongTable2Rows();
    LongTreeSegments1();
  }

  lemma LongLevel4To2Aggregates()
    ensures AggregatesTo(LongTs4, "l2", LongTable2)
  {
    LongTs4Made();
    LongLevel4To2Depths();
    LongLevel4To2Shape();
    LongLevel4To2Cells();
  }

  /** Two levels up a chain, each node carries its only grandchild's series. */
  lemma LongLevel4To2()
    ensures ValidDataset(LongTs4)
    ensures GetLevelDataset(LongTs4, "l2") == Ok(Dataset(LongTable2, Some(LongTree), Some("l2")))
  {
    LongLevel4To2Aggregates();
    GetLevelDatasetIs(LongTs4, "l2", LongTable2);
  }

  lemma LongTreeBelowRoot3()
    ensures DescendantsAt(LongTree, "total", 3) == ["c", "d"]
  {
    LongTreeLayers();
  }

  lemma LongLevel4To1Cell00()
    ensures SumOfSegments(LongTable4, 0, DescendantsAt(LongTree, "total", 3)) == Some(2.0)
  {
    LongTreeBelowRoot3();
    LongTable4NoDup();
    CellAt(LongTable4, 0, 0);
    CellAt(LongTable4, 0, 1);
    SumTwo(LongTable4, 0, "c", "d", 0.0, 2.0);
  }

  lemma LongLevel4To1Cell10()
    ensures SumOfSegments(LongTable4, 1, DescendantsAt(LongTree, "total", 3)) == Some(4.0)
  {
    LongTreeBelowRoot3();
    LongTable4NoDup();
    CellAt(LongTable4, 1, 0);
    CellAt(LongTable4, 1, 1);
    SumTwo(LongTable4, 1, "c", "d", 1.0, 3.0);
  }

  lemma LongLevel4To1Cells()
    ensures DescendantSums(LongTable4, LongTree, 3, LongTable1)
  {
    forall k, i | 0 <= k < |LongTable1.values| && 0 <= i < |LongTable1.segments| && i < |LongTable1.values[k]|
      ensures LongTable1.values[k][i] == SumOfSegments(LongTable4, k, DescendantsAt(LongTree, LongTable1.segments[i], 3))
    {
      if k == 0 && i == 0 {
        LongLevel4To1Cell00();
      } else {
        LongLevel4To1Cell10();
      }
    }
  }

  lemma LongLevel4To1Depths()
    ensures "l1" in LongTree.levelNames && IndexOf(LongTree.levelNames, "l1") == 0
    ensures IndexOf(LongTree.levelNames, "l4") == 3
  {
  }

  lemma LongLevel4To1Shape()
    ensures LongTable1.index == LongTs4.table.index && |LongTable1.values| == |LongTs4.table.values|
    ensures LongTable1.segments == Segments(LongTree, 0)
    ensures forall k :: 0 <= k < |LongTable1.values| ==> |LongTable1.values[k]| == |LongTable1.segments|
  {
    LongTable1Rows();
    LongTreeSegments0();
  }

  lemma LongLevel4To1Aggregates()
    ensures AggregatesTo(LongTs4, "l1", LongTable1)
  {
    LongTs4Made();
    LongLevel4To1Depths();
    LongLevel4To1Shape();
    LongLevel4To1Cells();
  }

  /** Three levels up a chain, the root sums both leaves. */
  lemma LongLevel4To1()
    ensures ValidDataset(LongTs4)
    ensures GetLevelDataset(LongTs4, "l1") == Ok(Dataset(LongTable1, Some(LongTree), Some("l1")))
  {
    LongLevel4To1Aggregates();
    GetLevelDatasetIs(LongTs4, "l1", LongTable1);
  }

  lemma LongTreeBelowX1()
    ensures DescendantsAt(LongTree, "X", 1) == ["a"]
  {
    assert DescendantsAt(LongTree, "X", 1) == ChildrenOf(LongTree, ["X"]);
  }

  lemma LongTreeBelowY1()
    ensures DescendantsAt(LongTree, "Y", 1) == ["b"]
  {
    assert DescendantsAt(LongTree, "Y", 1) == ChildrenOf(LongTree, ["Y"]);
  }

  lemma LongLevel3To2Cell00()
    ensures SumOfSegments(LongTable3, 0, DescendantsAt(LongTree, "X", 1)) == Some(0.0)
  {
    LongTreeBelowX1();
    LongTable3NoDup();
    CellAt(LongTable3, 0, 0);
    SumOne(LongTable3, 0, "a", 0.0);
  }

  lemma LongLevel3To2Cell01()
    ensures SumOfSegments(LongTable3, 0, DescendantsAt(LongTree, "Y", 1)) == Some(2.0)
  {
    LongTreeBelowY1();
    LongTable3NoDup();
    CellAt(LongTable3, 0, 1);
    SumOne(LongTable3, 0, "b", 2.0);
  }

  lemma LongLevel3To2Cell10()
    ensures SumOfSegments(LongTable3, 1, DescendantsAt(LongTree, "X", 1)) == Some(1.0)
  {
    LongTreeBelowX1();
    LongTable3NoDup();
    CellAt(LongTable3, 1, 0);
    SumOne(LongTable3, 1, "a", 1.0);
  }

  lemma LongLevel3To2Cell11()
    ensures SumOfSegments(LongTable3, 1, DescendantsAt(LongTree, "Y", 1)) == Some(3.0)
  {
    LongTreeBelowY1();
    LongTable3NoDup();
    CellAt(LongTable3, 1, 1);
    SumOne(LongTable3, 1, "b", 3.0);
  }

  lemma LongLevel3To2Cells()
    ensures DescendantSums(LongTable3, LongTree, 1, LongTable2)
  {
    forall k, i | 0 <= k < |LongTable2.values| && 0 <= i < |LongTable2.segments| && i < |LongTable2.values[k]|
      ensures LongTable2.values[k][i] == SumOfSegments(LongTable3, k, DescendantsAt(LongTree, LongTable2.segments[i], 1))
    {
      if k == 0 && i == 0 {
        LongLevel3To2Cell00();
      } else if k == 0 && i == 1 {
        LongLevel3To2Cell01();
      } else if k == 1 && i == 0 {
        LongLevel3To2Cell10();
      } else {
        LongLevel3To2Cell11();
      }
    }
  }

  lemma LongLevel3To2Depths()
    ensures "l2" in LongTree.levelNames && IndexOf(LongTree.levelNames, "l2") == 1
    ensures IndexOf(LongTree.levelNames, "l3") == 2
  {
  }

  lemma LongLevel3To2Shape()
    ensures LongTable2.index == LongTs3.table.index && |LongTable2.values| == |LongTs3.table.values|
    ensures LongTable2.segments == Segments(LongTree, 1)
    ensures forall k :: 0 <= k < |LongTable2.values| ==> |LongTable2.values[k]| == |LongTable2.segments|
  {
    LongTable2Rows();
    LongTreeSegments1();
  }

  lemma LongLevel3To2Aggregates()
    ensures AggregatesTo(LongTs3, "l2", LongTable2)
  {
    LongTs3Made();
    LongLevel3To2Depths();
    LongLevel3To2Shape();
    LongLevel3To2Cells();
  }

  /** Chain data from the third level to the second. */
  lemma LongLevel3To2()
    ensures ValidDataset(LongTs3)
    ensures GetLevelDataset(LongTs3, "l2") == Ok(Dataset(LongTable2, Some(LongTree), Some("l2")))
  {
    LongLevel3To2Aggregates();
    GetLevelDatasetIs(LongTs3, "l2", LongTable2);
  }

  lemma LongTreeBelowRoot2()
    ensures DescendantsAt(LongTree, "total", 2) == ["a", "b"]
  {
    LongTreeLayers();
  }

  lemma LongLevel3To1Cell00()
    ensures SumOfSegments(LongTable3, 0, DescendantsAt(LongTree, "total", 2)) == Some(2.0)
  {
    LongTreeBelowRoot2();
    LongTable3NoDup();
    CellAt(LongTable3, 0, 0);
    CellAt(LongTable3, 0, 1);
    SumTwo(LongTable3, 0, "a", "b", 0.0, 2.0);
  }

  lemma LongLevel3To1Cell10()
    ensures SumOfSegments(LongTable3, 1, DescendantsAt(LongTree, "total", 2)) == Some(4.0)
  {
    LongTreeBelowRoot2();
    LongTable3NoDup();
    CellAt(LongTable3, 1, 0);
    CellAt(LongTable3, 1, 1);
    SumTwo(LongTable3, 1, "a", "b", 1.0, 3.0);
  }

  lemma LongLevel3To1Cells()
    ensures DescendantSums(LongTable3, LongTree, 2, LongTable1)
  {
    forall k, i | 0 <= k < |LongTable1.values| && 0 <= i < |LongTable1.segments| && i < |LongTable1.values[k]|
      ensures LongTable1.values[k][i] == SumOfSegments(LongTable3, k, DescendantsAt(LongTree, LongTable1.segments[i], 2))
    {
      if k == 0 && i == 0 {
        LongLevel3To1Cell00();
      } else {
        LongLevel3To1Cell10();
      }
    }
  }

  lemma LongLevel3To1Depths()
    ensures "l1" in LongTree.levelNames && IndexOf(LongTree.levelNames, "l1") == 0
    ensures IndexOf(LongTree.levelNames, "l3") == 2
  {
  }

  lemma LongLevel3To1Shape()
    ensures LongTable1.index == LongTs3.table.index && |LongTable1.values| == |LongTs3.table.values|
    ensures LongTable1.segments == Segments(LongTree, 0)
    ensures forall k :: 0 <= k < |LongTable1.values| ==> |LongTable1.values[k]| == |LongTable1.segments|
  {
    LongTable1Rows();
    LongTreeSegments0();
  }

  lemma LongLevel3To1Aggregates()
    ensures AggregatesTo(LongTs3, "l1", LongTable1)
  {
    LongTs3Made();
    LongLevel3To1Depths();
    LongLevel3To1Shape();
    LongLevel3To1Cells();
  }

  /** Chain data from the third level to the root. */
  lemma LongLevel3To1()
    ensures ValidDataset(LongTs3)
    ensures GetLevelDataset(LongTs3, "l1") == Ok(Dataset(LongTable1, Some(LongTree), Some("l1")))
  {
    LongLevel3To1Aggregates();
    GetLevelDatasetIs(LongTs3, "l1", LongTable1);
  }

  lemma LongTreeBelowRoot1()
    ensures DescendantsAt(LongTree, "total", 1) == ["X", "Y"]
  {
    LongTreeLayers();
  }

  lemma LongLevel2To1Cell00()
    ensures SumOfSegments(LongTable2, 0, DescendantsAt(LongTree, "total", 1)) == Some(2.0)
  {
    LongTreeBelowRoot1();
    LongTable2NoDup();
    CellAt(LongTable2, 0, 0);
    CellAt(LongTable2, 0, 1);
    SumTwo(LongTable2, 0, "X", "Y", 0.0, 2.0);
  }

  lemma LongLevel2To1Cell10()
    ensures SumOfSegments(LongTable2, 1, DescendantsAt(LongTree, "total", 1)) == Some(4.0)
  {
    LongTreeBelowRoot1();
    LongTable2NoDup();
    CellAt(LongTable2, 1, 0);
    CellAt(LongTable2, 1, 1);
    SumTwo(LongTable2, 1, "X", "Y", 1.0, 3.0);
  }

  lemma LongLevel2To1Cells()
    ensures DescendantSums(LongTable2, LongTree, 1, LongTable1)
  {
    forall k, i | 0 <= k < |LongTable1.values| && 0 <= i < |LongTable1.segments| && i < |LongTable1.values[k]|
      ensures LongTable1.values[k][i] == SumOfSegments(LongTable2, k, DescendantsAt(LongTree, LongTable1.segments[i], 1))
    {
      if k == 0 && i == 0 {
        LongLevel2To1Cell00();
      } else {
        LongLevel2To1Cell10();
      }
    }
  }

  lemma LongLevel2To1Depths()
    ensures "l1" in LongTree.levelNames && IndexOf(LongTree.levelNames, "l1") == 0
    ensures IndexOf(LongTree.levelNames, "l2") == 1
  {
  }

  lemma LongLevel2To1Shape()
    ensures LongTable1.index == LongTs2.table.index && |LongTable1.values| == |LongTs2.table.values|
    ensures LongTable1.segments == Segments(LongTree, 0)
    ensures forall k :: 0 <= k < |LongTable1.values| ==> |LongTable1.values[k]| == |LongTable1.segments|
  {
    LongTable1Rows();
    LongTreeSegments0();
  }

  lemma LongLevel2To1Aggregates()
    ensures AggregatesTo(LongTs2, "l1", LongTable1)
  {
    LongTs2Made();
    LongLevel2To1Depths();
    LongLevel2To1Shape();
    LongLevel2To1Cells();
  }

  /** Chain data from the second level to the root. */
  lemma LongLevel2To1()
    ensures ValidDataset(LongTs2)
    ensures GetLevelDataset(LongTs2, "l1") == Ok(Dataset(LongTable1, Some(LongTree), Some("l1")))
  {
    LongLevel2To1Aggregates();
    GetLevelDatasetIs(LongTs2, "l1", LongTable1);
  }

  // ---------------------------------------------------------------------
  // The tree with uneven fan-out; the leaf level is listed by name, not
  // in the order of the tree

  const TailedTable4 := Table([0, 1], ["e", "f", "g", "h"],
    [[Some(0.0), Some(4.0), Some(6.0), Some(2.0)],
     [Some(1.0), Some(5.0), Some(7.0), Some(3.0)]])
  const TailedTs4 := Dataset(TailedTable4, Some(TailedTree), Some("l4"))

  lemma TailedTable4NoDup()
    ensures NoDup(TailedTable4.segments)
  {
  }

  lemma TailedTable4Rows()
    ensures forall k :: 0 <= k < |TailedTable4.values| ==> |TailedTable4.values[k]| == |TailedTable4.segments|
  {
  }

  lemma TailedTable4Sorted()
    ensures LexSorted(TailedTable4.segments)
  {
    assert LexLess(TailedTable4.segments[0], TailedTable4.segments[1]);
    assert LexLess(TailedTable4.segments[1], TailedTable4.segments[2]);
    assert LexLess(TailedTable4.segments[2], TailedTable4.segments[3]);
  }

  lemma TailedTs4Made()
    ensures WellFormedTable(TailedTable4) && Valid(TailedTree)
    ensures MakeDataset(TailedTable4, Some(TailedTree)) == Ok(TailedTs4) && ValidDataset(TailedTs4)
  {
    assert WellFormedTable(TailedTable4) && SegmentSet(TailedTable4) == {"e", "f", "g", "h"};
    TailedTable4Sorted();
    TailedTreeValid();
    TailedTreeLayerSets();
    DataframeLevelOfLayer(TailedTree, 3);
  }

  const TailedTable3 := Table([0, 1], ["a", "c", "d"],
    [[Some(2.0), Some(4.0), Some(6.0)],
     [Some(4.0), Some(5.0), Some(7.0)]])
  const TailedTs3 := Dataset(TailedTable3, Some(TailedTree), Some("l3"))

  lemma TailedTable3NoDup()
    ensures NoDup(TailedTable3.segments)
  {
  }

  lemma TailedTable3Rows()
    ensures forall k :: 0 <= k < |TailedTable3.values| ==> |TailedTable3.values[k]| == |TailedTable3.segments|
  {
  }

  lemma TailedTable3Sorted()
    ensures LexSorted(TailedTable3.segments)
  {
    assert LexLess(TailedTable3.segments[0], TailedTable3.segments[1]);
    assert LexLess(TailedTable3.segments[1], TailedTable3.segments[2]);
  }

  lemma TailedTs3Made()
    ensures WellFormedTable(TailedTable3) && Valid(TailedTree)
    ensures MakeDataset(TailedTable3, Some(TailedTree)) == Ok(TailedTs3) && ValidDataset(TailedTs3)
  {
    assert WellFormedTable(TailedTable3) && SegmentSet(TailedTable3) == {"a", "c", "d"};
    TailedTable3Sorted();
    TailedTreeValid();
    TailedTreeLayerSets();
    DataframeLevelOfLayer(TailedTree, 2);
  }

  const TailedTable2 := Table([0, 1], ["X", "Y"],
    [[Some(2.0), Some(10.0)],
     [Some(4.0), Some(12.0)]])
  const TailedTs2 := Dataset(TailedTable2, Some(TailedTree), Some("l2"))

  lemma TailedTable2NoDup()
    ensures NoDup(TailedTable2.segments)
  {
  }

  lemma TailedTable2Rows()
    ensures forall k :: 0 <= k < |TailedTable2.values| ==> |TailedTable2.values[k]| == |TailedTable2.segments|
  {
  }

  lemma TailedTable2Sorted()
    ensures LexSorted(TailedTable2.segments)
  {
    assert LexLess(TailedTable2.segments[0], TailedTable2.segments[1]);
  }

  lemma TailedTs2Made()
    ensures WellFormedTable(TailedTable2) && Valid(TailedTree)
    ensures MakeDataset(TailedTable2, Some(TailedTree)) == Ok(TailedTs2) && ValidDataset(TailedTs2)
  {
    assert WellFormedTable(TailedTable2) && SegmentSet(TailedTable2) == {"X", "Y"};
    TailedTable2Sorted();
    TailedTreeValid();
    TailedTreeLayerSets();
    DataframeLevelOfLayer(TailedTree, 1);
  }

  const TailedTable1 := Table([0, 1], ["total"],
    [[Some(12.0)],
     [Some(16.0)]])
  const TailedTs1 := Dataset(TailedTable1, Some(TailedTree), Some("l1"))

  lemma TailedTable1NoDup()
    ensures NoDup(TailedTable1.segments)
  {
  }

  lemma TailedTable1Rows()
    ensures forall k :: 0 <= k < |TailedTable1.values| ==> |TailedTable1.values[k]| == |TailedTable1.segments|
  {
  }

  lemma TailedTable1Sorted()
    ensures LexSorted(TailedTable1.segments)
  {
  }

  lemma TailedTs1Made()
    ensures WellFormedTable(TailedTable1) && Valid(TailedTree)
    ensures MakeDataset(TailedTable1, Some(TailedTree)) == Ok(TailedTs1) && ValidDataset(TailedTs1)
  {
    assert WellFormedTable(TailedTable1) && SegmentSet(TailedTable1) == {"total"};
    TailedTable1Sorted();
    TailedTreeValid();
    TailedTreeLayerSets();
    DataframeLevelOfLayer(TailedTree, 0);
  }

  lemma TailedTreeBelowa1()
    ensures DescendantsAt(TailedTree, "a", 1) == ["e", "h"]
  {
    assert DescendantsAt(TailedTree, "a", 1) == ChildrenOf(TailedTree, ["a"]);
  }

  lemma TailedTreeBelowc1()
    ensures DescendantsAt(TailedTree, "c", 1) == ["f"]
  {
    assert DescendantsAt(TailedTree, "c", 1) == ChildrenOf(TailedTree, ["c"]);
  }

  lemma TailedTreeBelowd1()
    ensures DescendantsAt(TailedTree, "d", 1) == ["g"]
  {
    assert DescendantsAt(TailedTree, "d", 1) == ChildrenOf(TailedTree, ["d"]);
  }

  lemma TailedLevel4To3Cell00()
    ensures SumOfSegments(TailedTable4, 0, DescendantsAt(TailedTree, "a", 1)) == Some(2.0)
  {
    TailedTreeBelowa1();
    TailedTable4NoDup();
    CellAt(TailedTable4, 0, 0);
    CellAt(TailedTable4, 0, 3);
    SumTwo(TailedTable4, 0, "e", "h", 0.0, 2.0);
  }

  lemma TailedLevel4To3Cell01()
    ensures SumOfSegments(TailedTable4, 0, DescendantsAt(TailedTree, "c", 1)) == Some(4.0)
  {
    TailedTreeBelowc1();
    TailedTable4NoDup();
    CellAt(TailedTable4, 0, 1);
    SumOne(TailedTable4, 0, "f", 4.0);
  }

  lemma TailedLevel4To3Cell02()
    ensures SumOfSegments(TailedTable4, 0, DescendantsAt(TailedTree, "d", 1)) == Some(6.0)
  {
    TailedTreeBelowd1();
    TailedTable4NoDup();
    CellAt(TailedTable4, 0, 2);
    SumOne(TailedTable4, 0, "g", 6.0);
  }

  lemma TailedLevel4To3Cell10()
    ensures SumOfSegments(TailedTable4, 1, DescendantsAt(TailedTree, "a", 1)) == Some(4.0)
  {
    TailedTreeBelowa1();
    TailedTable4NoDup();
    CellAt(TailedTable4, 1, 0);
    CellAt(TailedTable4, 1, 3);
    SumTwo(TailedTable4, 1, "e", "h", 1.0, 3.0);
  }

  lemma TailedLevel4To3Cell11()
    ensures SumOfSegments(TailedTable4, 1, DescendantsAt(TailedTree, "c", 1)) == Some(5.0)
  {
    TailedTreeBelowc1();
    TailedTable4NoDup();
    CellAt(TailedTable4, 1, 1);
    SumOne(TailedTable4, 1, "f", 5.0);
  }

  lemma TailedLevel4To3Cell12()
    ensures SumOfSegments(TailedTable4, 1, DescendantsAt(TailedTree, "d", 1)) == Some(7.0)
  {
    TailedTreeBelowd1();
    TailedTable4NoDup();
    CellAt(TailedTable4, 1, 2);
    SumOne(TailedTable4, 1, "g", 7.0);
  }

  lemma TailedLevel4To3Cells()
    ensures DescendantSums(TailedTable4, TailedTree, 1, TailedTable3)
  {
    forall k, i | 0 <= k < |TailedTable3.values| && 0 <= i < |TailedTable3.segments| && i < |TailedTable3.values[k]|
      ensures TailedTable3.values[k][i] == SumOfSegments(TailedTable4, k, DescendantsAt(TailedTree, TailedTable3.segments[i], 1))
    {
      if k == 0 && i == 0 {
        TailedLevel4To3Cell00();
      } else if k == 0 && i == 1 {
        TailedLevel4To3Cell01();
      } else if k == 0 && i == 2 {
        TailedLevel4To3Cell02();
      } else if k == 1 && i == 0 {
        TailedLevel4To3Cell10();
      } else if k == 1 && i == 1 {
        TailedLevel4To3Cell11();
      } else {
        TailedLevel4To3Cell12();
      }
    }
  }

  lemma TailedLevel4To3Depths()
    ensures "l3" in TailedTree.levelNames && IndexOf(TailedTree.levelNames, "l3") == 2
    ensures IndexOf(TailedTree.levelNames, "l4") == 3
  {
  }

  lemma TailedLevel4To3Shape()
    ensures TailedTable3.index == TailedTs4.table.index && |TailedTable3.values| == |TailedTs4.table.values|
    ensures TailedTable3.segments == Segments(TailedTree, 2)
    ensures forall k :: 0 <= k < |TailedTable3.values| ==> |TailedTable3.values[k]| == |TailedTable3.segments|
  {
    TailedTable3Rows();
    TailedTreeSegments2();
  }

  lemma TailedLevel4To3Aggregates()
    ensures AggregatesTo(TailedTs4, "l3", TailedTable3)
  {
    TailedTs4Made();
    TailedLevel4To3Depths();
    TailedLevel4To3Shape();
    TailedLevel4To3Cells();
  }

  /** A node with two leaves sums them although they are not adjacent in
      the leaf table; a node with one leaf repeats it. */
  lemma TailedLevel4To3()
    ensures ValidDataset(TailedTs4)
    ensures GetLevelDataset(TailedTs4, "l3") == Ok(Dataset(TailedTable3, Some(TailedTree), Some("l3")))
  {
    TailedLevel4To3Aggregates();
    GetLevelDatasetIs(TailedTs4, "l3", TailedTable3);
  }

  lemma TailedTreeBelowX2()
    ensures DescendantsAt(TailedTree, "X", 2) == ["e", "h"]
  {
    assert DescendantsAt(TailedTree, "X", 1) == ChildrenOf(TailedTree, ["X"]);
    assert DescendantsAt(TailedTree, "X", 2) == ChildrenOf(TailedTree, DescendantsAt(TailedTree, "X", 1));
  }

  lemma TailedTreeBelowY2()
    ensures DescendantsAt(TailedTree, "Y", 2) == ["f", "g"]
  {
    assert DescendantsAt(TailedTree, "Y", 1) == ChildrenOf(TailedTree, ["Y"]);
    assert DescendantsAt(TailedTree, "Y", 2) == ChildrenOf(TailedTree, DescendantsAt(TailedTree, "Y", 1));
    assert ChildrenOf(TailedTree, ["c", "d"]) == Children(TailedTree, "c") + ChildrenOf(TailedTree, ["d"]);
  }

  lemma TailedLevel4To2Cell00()
    ensures SumOfSegments(TailedTable4, 0, DescendantsAt(TailedTree, "X", 2)) == Some(2.0)
  {
    TailedTreeBelowX2();
    TailedTable4NoDup();
    CellAt(TailedTable4, 0, 0);
    CellAt(TailedTable4, 0, 3);
    SumTwo(TailedTable4, 0, "e", "h", 0.0, 2.0);
  }

  lemma TailedLevel4To2Cell01()
    ensures SumOfSegments(TailedTable4, 0, DescendantsAt(TailedTree, "Y", 2)) == Some(10.0)
  {
    TailedTreeBelowY2();
    TailedTable4NoDup();
    CellAt(TailedTable4, 0, 1);
    CellAt(TailedTable4, 0, 2);
    SumTwo(TailedTable4, 0, "f", "g", 4.0, 6.0);
  }

  lemma TailedLevel4To2Cell10()
    ensures SumOfSegments(TailedTable4, 1, DescendantsAt(TailedTree, "X", 2)) == Some(4.0)
  {
    TailedTreeBelowX2();
    TailedTable4NoDup();
    CellAt(TailedTable4, 1, 0);
    CellAt(TailedTable4, 1, 3);
    SumTwo(TailedTable4, 1, "e", "h", 1.0, 3.0);
  }

  lemma TailedLevel4To2Cell11()
    ensures SumOfSegments(TailedTable4, 1, DescendantsAt(TailedTree, "Y", 2)) == Some(12.0)
  {
    TailedTreeBelowY2();
    TailedTable4NoDup();
    CellAt(TailedTable4, 1, 1);
    CellAt(TailedTable4, 1, 2);
    SumTwo(TailedTable4, 1, "f", "g", 5.0, 7.0);
  }

  lemma TailedLevel4To2Cells()
    ensures DescendantSums(TailedTable4, TailedTree, 2, TailedTable2)
  {
    forall k, i | 0 <= k < |TailedTable2.values| && 0 <= i < |TailedTable2.segments| && i < |TailedTable2.values[k]|
      ensures TailedTable2.values[k][i] == SumOfSegments(TailedTable4, k, DescendantsAt(TailedTree, TailedTable2.segments[i], 2))
    {
      if k == 0 && i == 0 {
        TailedLevel4To2Cell00();
      } else if k == 0 && i == 1 {
        TailedLevel4To2Cell01();
      } else if k == 1 && i == 0 {
        TailedLevel4To2Cell10();
      } else {
        TailedLevel4To2Cell11();
      }
    }
  }

  lemma TailedLevel4To2Depths()
    ensures "l2" in TailedTree.levelNames && IndexOf(TailedTree.levelNames, "l2") == 1
    ensures IndexOf(TailedTree.levelNames, "l4") == 3
  {
  }

  lemma TailedLevel4To2Shape()
    ensures TailedTable2.index == TailedTs4.table.index && |TailedTable2.values| == |TailedTs4.table.values|
    ensures TailedTable2.segments == Segments(TailedTree, 1)
    ensures forall k :: 0 <= k < |TailedTable2.values| ==> |TailedTable2.values[k]| == |TailedTable2.segments|
  {
    TailedTable2Rows();
    TailedTreeSegments1();
  }

  lemma TailedLevel4To2Aggregates()
    ensures AggregatesTo(TailedTs4, "l2", TailedTable2)
  {
    TailedTs4Made();
    TailedLevel4To2Depths();
    TailedLevel4To2Shape();
    TailedLevel4To2Cells();
  }

  /** Uneven data from the leaves to the markets. */
  lemma TailedLevel4To2()
    ensures ValidDataset(TailedTs4)
    ensures GetLevelDataset(TailedTs4, "l2") == Ok(Dataset(TailedTable2, Some(TailedTree), Some("l2")))
  {
    TailedLevel4To2Aggregates();
    GetLevelDatasetIs(TailedTs4, "l2", TailedTable2);
  }

  lemma TailedTreeBelowRoot3()
    ensures DescendantsAt(TailedTree, "total", 3) == ["e", "h", "f", "g"]
  {
    TailedTreeLayers();
  }

  lemma TailedLevel4To1Cell00()
    ensures SumOfSegments(TailedTable4, 0, DescendantsAt(TailedTree, "total", 3)) == Some(12.0)
  {
    TailedTreeBelowRoot3();
    TailedTable4NoDup();
    CellAt(TailedTable4, 0, 0);
    CellAt(TailedTable4, 0, 3);
    CellAt(TailedTable4, 0, 1);
    CellAt(TailedTable4, 0, 2);
    SumFour(TailedTable4, 0, "e", "h", "f", "g", 0.0, 2.0, 4.0, 6.0);
  }

  lemma TailedLevel4To1Cell10()
    ensures SumOfSegments(TailedTable4, 1, DescendantsAt(TailedTree, "total", 3)) == Some(16.0)
  {
    TailedTreeBelowRoot3();
    TailedTable4NoDup();
    CellAt(TailedTable4, 1, 0);
    CellAt(TailedTable4, 1, 3);
    CellAt(TailedTable4, 1, 1);
    CellAt(TailedTable4, 1, 2);
    SumFour(TailedTable4, 1, "e", "h", "f", "g", 1.0, 3.0, 5.0, 7.0);
  }

  lemma TailedLevel4To1Cells()
    ensures DescendantSums(TailedTable4, TailedTree, 3, TailedTable1)
  {
    forall k, i | 0 <= k < |TailedTable1.values| && 0 <= i < |TailedTable1.segments| && i < |TailedTable1.values[k]|
      ensures TailedTable1.values[k][i] == SumOfSegments(TailedTable4, k, DescendantsAt(TailedTree, TailedTable1.segments[i], 3))
    {
      if k == 0 && i == 0 {
        TailedLevel4To1Cell00();
      } else {
        TailedLevel4To1Cell10();
      }
    }
  }

  lemma TailedLevel4To1Depths()
    ensures "l1" in TailedTree.levelNames && IndexOf(TailedTree.levelNames, "l1") == 0
    ensures IndexOf(TailedTree.levelNames, "l4") == 3
  {
  }

  lemma TailedLevel4To1Shape()
    ensures TailedTable1.index == TailedTs4.table.index && |TailedTable1.values| == |TailedTs4.table.values|
    ensures TailedTable1.segments == Segments(TailedTree, 0)
    ensures forall k :: 0 <= k < |TailedTable1.values| ==> |TailedTable1.values[k]| == |TailedTable1.segments|
  {
    TailedTable1Rows();
    TailedTreeSegments0();
  }

  lemma TailedLevel4To1Aggregates()
    ensures AggregatesTo(TailedTs4, "l1", TailedTable1)
  {
    TailedTs4Made();
    TailedLevel4To1Depths();
    TailedLevel4To1Shape();
    TailedLevel4To1Cells();
  }

  /** Uneven data from the leaves to the root. */
  lemma TailedLevel4To1()
    ensures ValidDataset(TailedTs4)
    ensures GetLevelDataset(TailedTs4, "l1") == Ok(Dataset(TailedTable1, Some(TailedTree), Some("l1")))
  {
    TailedLevel4To1Aggregates();
    GetLevelDatasetIs(TailedTs4, "l1", TailedTable1);
  }

  lemma TailedTreeBelowX1()
    ensures DescendantsAt(TailedTree, "X", 1) == ["a"]
  {
    assert DescendantsAt(TailedTree, "X", 1) == ChildrenOf(TailedTree, ["X"]);
  }

  lemma TailedTreeBelowY1()
    ensures DescendantsAt(TailedTree, "Y", 1) == ["c", "d"]
  {
    assert DescendantsAt(TailedTree, "Y", 1) == ChildrenOf(TailedTree, ["Y"]);
  }

  lemma TailedLevel3To2Cell00()
    ensures SumOfSegments(TailedTable3, 0, DescendantsAt(TailedTree, "X", 1)) == Some(2.0)
  {
    TailedTreeBelowX1();
    TailedTable3NoDup();
    CellAt(TailedTable3, 0, 0);
    SumOne(TailedTable3, 0, "a", 2.0);
  }

  lemma TailedLevel3To2Cell01()
    ensures SumOfSegments(TailedTable3, 0, DescendantsAt(TailedTree, "Y", 1)) == Some(10.0)
  {
    TailedTreeBelowY1();
    TailedTable3NoDup();
    CellAt(TailedTable3, 0, 1);
    CellAt(TailedTable3, 0, 2);
    SumTwo(TailedTable3, 0, "c", "d", 4.0, 6.0);
  }

  lemma TailedLevel3To2Cell10()
    ensures SumOfSegments(TailedTable3, 1, DescendantsAt(TailedTree, "X", 1)) == Some(4.0)
  {
    TailedTreeBelowX1();
    TailedTable3NoDup();
    CellAt(TailedTable3, 1, 0);
    SumOne(TailedTable3, 1, "a", 4.0);
  }

  lemma TailedLevel3To2Cell11()
    ensures SumOfSegments(TailedTable3, 1, DescendantsAt(TailedTree, "Y", 1)) == Some(12.0)
  {
    TailedTreeBelowY1();
    TailedTable3NoDup();
    CellAt(TailedTable3, 1, 1);
    CellAt(TailedTable3, 1, 2);
    SumTwo(TailedTable3, 1, "c", "d", 5.0, 7.0);
  }

  lemma TailedLevel3To2Cells()
    ensures DescendantSums(TailedTable3, TailedTree, 1, TailedTable2)
  {
    forall k, i | 0 <= k < |TailedTable2.values| && 0 <= i < |TailedTable2.segments| && i < |TailedTable2.values[k]|
      ensures TailedTable2.values[k][i] == SumOfSegments(TailedTable3, k, DescendantsAt(TailedTree, TailedTable2.segments[i], 1))
    {
      if k == 0 && i == 0 {
        TailedLevel3To2Cell00();
      } else if k == 0 && i == 1 {
        TailedLevel3To2Cell01();
      } else if k == 1 && i == 0 {
        TailedLevel3To2Cell10();
      } else {
        TailedLevel3To2Cell11();
      }
    }
  }

  lemma TailedLevel3To2Depths()
    ensures "l2" in TailedTree.levelNames && IndexOf(TailedTree.levelNames, "l2") == 1
    ensures IndexOf(TailedTree.levelNames, "l3") == 2
  {
  }

  lemma TailedLevel3To2Shape()
    ensures TailedTable2.index == TailedTs3.table.index && |TailedTable2.values| == |TailedTs3.table.values|
    ensures TailedTable2.segments == Segments(TailedTree, 1)
    ensures forall k :: 0 <= k < |TailedTable2.values| ==> |TailedTable2.values[k]| == |TailedTable2.segments|
  {
    TailedTable2Rows();
    TailedTreeSegments1();
  }

  lemma TailedLevel3To2Aggregates()
    ensures AggregatesTo(TailedTs3, "l2", TailedTable2)
  {
    TailedTs3Made();
    TailedLevel3To2Depths();
    TailedLevel3To2Shape();
    TailedLevel3To2Cells();
  }

  /** Uneven data from the third level to the markets. */
  lemma TailedLevel3To2()
    ensures ValidDataset(TailedTs3)
    ensures GetLevelDataset(TailedTs3, "l2") == Ok(Dataset(TailedTable2, Some(TailedTree), Some("l2")))
  {
    TailedLevel3To2Aggregates();
    GetLevelDatasetIs(TailedTs3, "l2", TailedTable2);
  }

  lemma TailedTreeBelowRoot2()
    ensures DescendantsAt(TailedTree, "total", 2) == ["a", "c", "d"]
  {
    TailedTreeLayers();
  }

  lemma TailedLevel3To1Cell00()
    ensures SumOfSegments(TailedTable3, 0, DescendantsAt(TailedTree, "total", 2)) == Some(12.0)
  {
    TailedTreeBelowRoot2();
    TailedTable3NoDup();
    CellAt(TailedTable3, 0, 0);
    CellAt(TailedTable3, 0, 1);
    CellAt(TailedTable3, 0, 2);
    SumThree(TailedTable3, 0, "a", "c", "d", 2.0, 4.0, 6.0);
  }

  lemma TailedLevel3To1Cell10()
    ensures SumOfSegments(TailedTable3, 1, DescendantsAt(TailedTree, "total", 2)) == Some(16.0)
  {
    TailedTreeBelowRoot2();
    TailedTable3NoDup();
    CellAt(TailedTable3, 1, 0);
    CellAt(TailedTable3, 1, 1);
    CellAt(TailedTable3, 1, 2);
    SumThree(TailedTable3, 1, "a", "c", "d", 4.0, 5.0, 7.0);
  }

  lemma TailedLevel3To1Cells()
    ensures DescendantSums(TailedTable3, TailedTree, 2, TailedTable1)
  {
    forall k, i | 0 <= k < |TailedTable1.values| && 0 <= i < |TailedTable1.segments| && i < |TailedTable1.values[k]|
      ensures TailedTable1.values[k][i] == SumOfSegments(TailedTable3, k, DescendantsAt(TailedTree, TailedTable1.segments[i], 2))
    {
      if k == 0 && i == 0 {
        TailedLevel3To1Cell00();
      } else {
        TailedLevel3To1Cell10();
      }
    }
  }

  lemma TailedLevel3To1Depths()
    ensures "l1" in TailedTree.levelNames && IndexOf(TailedTree.levelNames, "l1") == 0
    ensures IndexOf(TailedTree.levelNames, "l3") == 2
  {
  }

  lemma TailedLevel3To1Shape()
    ensures TailedTable1.index == TailedTs3.table.index && |TailedTable1.values| == |TailedTs3.table.values|
    ensures TailedTable1.segments == Segments(TailedTree, 0)
    ensures forall k :: 0 <= k < |TailedTable1.values| ==> |TailedTable1.values[k]| == |TailedTable1.segments|
  {
    TailedTable1Rows();
    TailedTreeSegments0();
  }

  lemma TailedLevel3To1Aggregates()
    ensures AggregatesTo(TailedTs3, "l1", TailedTable1)
  {
    TailedTs3Made();
    TailedLevel3To1Depths();
    TailedLevel3To1Shape();
    TailedLevel3To1Cells();
  }

  /** Uneven data from the third level to the root. */
  lemma TailedLevel3To1()
    ensures ValidDataset(TailedTs3)
    ensures GetLevelDataset(TailedTs3, "l1") == Ok(Dataset(TailedTable1, Some(TailedTree), Some("l1")))
  {
    TailedLevel3To1Aggregates();
    GetLevelDatasetIs(TailedTs3, "l1", TailedTable1);
  }

  lemma TailedTreeBelowRoot1()
    ensures DescendantsAt(TailedTree, "total", 1) == ["X", "Y"]
  {
    TailedTreeLayers();
  }

  lemma TailedLevel2To1Cell00()
    ensures SumOfSegments(TailedTable2, 0, DescendantsAt(TailedTree, "total", 1)) == Some(12.0)
  {
    TailedTreeBelowRoot1();
    TailedTable2NoDup();
    CellAt(TailedTable2, 0, 0);
    CellAt(TailedTable2, 0, 1);
    SumTwo(TailedTable2, 0, "X", "Y", 2.0, 10.0);
  }

  lemma TailedLevel2To1Cell10()
    ensures SumOfSegments(TailedTable2, 1, DescendantsAt(TailedTree, "total", 1)) == Some(16.0)
  {
    TailedTreeBelowRoot1();
    TailedTable2NoDup();
    CellAt(TailedTable2, 1, 0);
    CellAt(TailedTable2, 1, 1);
    SumTwo(TailedTable2, 1, "X", "Y", 4.0, 12.0);
  }

  lemma TailedLevel2To1Cells()
    ensures DescendantSums(TailedTable2, TailedTree, 1, TailedTable1)
  {
    forall k, i | 0 <= k < |TailedTable1.values| && 0 <= i < |TailedTable1.segments| && i < |TailedTable1.values[k]|
      ensures TailedTable1.values[k][i] == SumOfSegments(TailedTable2, k, DescendantsAt(TailedTree, TailedTable1.segments[i], 1))
    {
      if k == 0 && i == 0 {
        TailedLevel2To1Cell00();
      } else {
        TailedLevel2To1Cell10();
      }
    }
  }

  lemma TailedLevel2To1Depths()
    ensures "l1" in TailedTree.levelNames && IndexOf(TailedTree.levelNames, "l1") == 0
    ensures IndexOf(TailedTree.levelNames, "l2") == 1
  {
  }

  lemma TailedLevel2To1Shape()
    ensures TailedTable1.index == TailedTs2.table.index && |TailedTable1.values| == |TailedTs2.table.values|
    ensures TailedTable1.segments == Segments(TailedTree, 0)
    ensures forall k :: 0 <= k < |TailedTable1.values| ==> |TailedTable1.values[k]| == |TailedTable1.segments|
  {
    TailedTable1Rows();
    TailedTreeSegments0();
  }

  lemma TailedLevel2To1Aggregates()
    ensures AggregatesTo(TailedTs2, "l1", TailedTable1)
  {
    TailedTs2Made();
    TailedLevel2To1Depths();
    TailedLevel2To1Shape();
    TailedLevel2To1Cells();
  }

  /** Uneven data from the markets to the root. */
  lemma TailedLevel2To1()
    ensures ValidDataset(TailedTs2)
    ensures GetLevelDataset(TailedTs2, "l1") == Ok(Dataset(TailedTable1, Some(TailedTree), Some("l1")))
  {
    TailedLevel2To1Aggregates();
    GetLevelDatasetIs(TailedTs2, "l1", TailedTable1);
  }
}
