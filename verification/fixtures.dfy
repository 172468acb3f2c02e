/** The hierarchies and tables of the hierarchical-dataset tests, and the
    outcomes those tests expect, as lemmas about the model. */
module Fixtures {
  import opened Wrappers
  import opened Seqs
  import opened Errors
  import opened Sparse
  import opened Hierarchy
  import opened LevelDataset

  // ---------------------------------------------------------------------
  // Trees

  /** total -> market -> product. */
  const Tree := HierarchicalStructure(
    map["total" := ["X", "Y"], "X" := ["a", "b"], "Y" := ["c", "d"]],
    ["total", "market", "product"])

  /** A chain below each market: one child per node. */
  const LongTree := HierarchicalStructure(
    map["total" := ["X", "Y"], "X" := ["a"], "a" := ["c"], "Y" := ["b"], "b" := ["d"]],
    ["l1", "l2", "l3", "l4"])

  /** Uneven fan-out: one market has one child with two children, the
      other two children with one child each. */
  const TailedTree := HierarchicalStructure(
    map["total" := ["X", "Y"], "X" := ["a"], "Y" := ["c", "d"], "c" := ["f"], "d" := ["g"], "a" := ["e", "h"]],
    ["l1", "l2", "l3", "l4"])

  /** The tree the level columns categorical / string / int describe. */
  const ComplexTree := HierarchicalStructure(
    map["total" := ["77", "120"], "77" := ["77_X"], "120" := ["120_Y"],
        "77_X" := ["77_X_1", "77_X_2"], "120_Y" := ["120_Y_3", "120_Y_4"]],
    ["total", "categorical", "string", "int"])

  lemma TreeLayers()
    ensures Layer(Tree, 0) == ["total"]
    ensures Layer(Tree, 1) == ["X", "Y"]
    ensures Layer(Tree, 2) == ["a", "b", "c", "d"]
    ensures Layer(Tree, 3) == []
  {
    assert Layer(Tree, 1) == ChildrenOf(Tree, ["total"]);
    assert ChildrenOf(Tree, ["X", "Y"]) == ["a", "b"] + ChildrenOf(Tree, ["Y"]);
  }

  lemma LongTreeLayers()
    ensures Layer(LongTree, 0) == ["total"]
    ensures Layer(LongTree, 1) == ["X", "Y"]
    ensures Layer(LongTree, 2) == ["a", "b"]
    ensures Layer(LongTree, 3) == ["c", "d"]
    ensures Layer(LongTree, 4) == []
  {
    assert Layer(LongTree, 1) == ChildrenOf(LongTree, ["total"]);
    assert ChildrenOf(LongTree, ["X", "Y"]) == ["a"] + ChildrenOf(LongTree, ["Y"]);
    assert ChildrenOf(LongTree, ["a", "b"]) == ["c"] + ChildrenOf(LongTree, ["b"]);
    assert ChildrenOf(LongTree, ["c", "d"]) == [] + ChildrenOf(LongTree, ["d"]);
  }

  lemma TailedTreeLayers()
    ensures Layer(TailedTree, 0) == ["total"]
    ensures Layer(TailedTree, 1) == ["X", "Y"]
    ensures Layer(TailedTree, 2) == ["a", "c", "d"]
    ensures Layer(TailedTree, 3) == ["e", "h", "f", "g"]
    ensures Layer(TailedTree, 4) == []
  {
    assert Layer(TailedTree, 1) == ChildrenOf(TailedTree, ["total"]);
    assert ChildrenOf(TailedTree, ["X", "Y"]) == ["a"] + ChildrenOf(TailedTree, ["Y"]);
    assert ChildrenOf(TailedTree, ["a", "c", "d"]) == ["e", "h"] + ChildrenOf(TailedTree, ["c", "d"]);
    assert ChildrenOf(TailedTree, ["c", "d"]) == ["f"] + ChildrenOf(TailedTree, ["d"]);
    assert ChildrenOf(TailedTree, ["e", "h", "f", "g"]) == [] + ChildrenOf(TailedTree, ["h", "f", "g"]);
    assert ChildrenOf(TailedTree, ["h", "f", "g"]) == [] + ChildrenOf(TailedTree, ["f", "g"]);
  }

  lemma ComplexTreeLayers()
    ensures Layer(ComplexTree, 0) == ["total"]
    ensures Layer(ComplexTree, 1) == ["77", "120"]
    ensures Layer(ComplexTree, 2) == ["77_X", "120_Y"]
    ensures Layer(ComplexTree, 3) == ["77_X_1", "77_X_2", "120_Y_3", "120_Y_4"]
    ensures Layer(ComplexTree, 4) == []
  {
    assert Layer(ComplexTree, 1) == ChildrenOf(ComplexTree, ["total"]);
    assert ChildrenOf(ComplexTree, ["77", "120"]) == ["77_X"] + ChildrenOf(ComplexTree, ["120"]);
    assert ChildrenOf(ComplexTree, ["77_X", "120_Y"]) == ["77_X_1", "77_X_2"] + ChildrenOf(ComplexTree, ["120_Y"]);
    var leaves := ["77_X_1", "77_X_2", "120_Y_3", "120_Y_4"];
    assert ChildrenOf(ComplexTree, leaves) == [] + ChildrenOf(ComplexTree, leaves[1..]);
    assert ChildrenOf(ComplexTree, leaves[1..]) == [] + ChildrenOf(ComplexTree, leaves[2..]);
  }

  lemma TreeLayersNoDup()
    ensures forall d :: 0 <= d < 3 ==> NoDup(Layer(Tree, d))
  {
    TreeLayers();
    forall d | 0 <= d < 3
      ensures NoDup(Layer(Tree, d))
    {
      if d == 0 {} else if d == 1 {} else {}
    }
  }

  lemma TreeLayersDisjoint()
    ensures forall d, e :: 0 <= d < e < 3 ==> Disjoint(Layer(Tree, d), Layer(Tree, e))
  {
    TreeLayers();
    forall d, e | 0 <= d < e < 3
      ensures Disjoint(Layer(Tree, d), Layer(Tree, e))
    {
      if d == 0 {} else {}
    }
  }

  lemma TreeInnerNodes()
    ensures forall d, k :: 0 <= d < 2 && 0 <= k < |Layer(Tree, d)| ==> Children(Tree, Layer(Tree, d)[k]) != []
  {
    TreeLayers();
    forall d, k | 0 <= d < 2 && 0 <= k < |Layer(Tree, d)|
      ensures Children(Tree, Layer(Tree, d)[k]) != []
    {
      if d == 0 {} else {}
    }
  }

  lemma TreeValid()
    ensures Valid(Tree)
  {
    TreeLayers();
    TreeLayersNoDup();
    TreeLayersDisjoint();
    TreeInnerNodes();
  }

  lemma LongTreeLayersNoDup()
    ensures forall d :: 0 <= d < 4 ==> NoDup(Layer(LongTree, d))
  {
    LongTreeLayers();
    forall d | 0 <= d < 4
      ensures NoDup(Layer(LongTree, d))
    {
      if d == 0 {} else if d == 1 {} else if d == 2 {} else {}
    }
  }

  lemma LongTreeLayersDisjoint()
    ensures forall d, e :: 0 <= d < e < 4 ==> Disjoint(Layer(LongTree, d), Layer(LongTree, e))
  {
    LongTreeLayers();
    forall d, e | 0 <= d < e < 4
      ensures Disjoint(Layer(LongTree, d), Layer(LongTree, e))
    {
      if d == 0 {} else if d == 1 {} else {}
    }
  }

  lemma LongTreeInnerNodes()
    ensures forall d, k :: 0 <= d < 3 && 0 <= k < |Layer(LongTree, d)| ==> Children(LongTree, Layer(LongTree, d)[k]) != []
  {
    LongTreeLayers();
    forall d, k | 0 <= d < 3 && 0 <= k < |Layer(LongTree, d)|
      ensures Children(LongTree, Layer(LongTree, d)[k]) != []
    {
      if d == 0 {} else if d == 1 {} else {}
    }
  }

  lemma LongTreeValid()
    ensures Valid(LongTree)
  {
    LongTreeLayers();
    LongTreeLayersNoDup();
    LongTreeLayersDisjoint();
    LongTreeInnerNodes();
  }

  lemma TailedTreeLayersNoDup()
    ensures forall d :: 0 <= d < 4 ==> NoDup(Layer(TailedTree, d))
  {
    TailedTreeLayers();
    forall d | 0 <= d < 4
      ensures NoDup(Layer(TailedTree, d))
    {
      if d == 0 {} else if d == 1 {} else if d == 2 {} else {}
    }
  }

  lemma TailedTreeLayersDisjoint()
    ensures forall d, e :: 0 <= d < e < 4 ==> Disjoint(Layer(TailedTree, d), Layer(TailedTree, e))
  {
    TailedTreeLayers();
    forall d, e | 0 <= d < e < 4
      ensures Disjoint(Layer(TailedTree, d), Layer(TailedTree, e))
    {
      if d == 0 {} else if d == 1 {} else {}
    }
  }

  lemma TailedTreeInnerNodes()
    ensures forall d, k :: 0 <= d < 3 && 0 <= k < |Layer(TailedTree, d)| ==> Children(TailedTree, Layer(TailedTree, d)[k]) != []
  {
    TailedTreeLayers();
    forall d, k | 0 <= d < 3 && 0 <= k < |Layer(TailedTree, d)|
      ensures Children(TailedTree, Layer(TailedTree, d)[k]) != []
    {
      if d == 0 {} else if d == 1 {} else {}
    }
  }

  lemma TailedTreeValid()
    ensures Valid(TailedTree)
  {
    TailedTreeLayers();
    TailedTreeLayersNoDup();
    TailedTreeLayersDisjoint();
    TailedTreeInnerNodes();
  }

  lemma ComplexTreeLayersNoDup()
    ensures forall d :: 0 <= d < 4 ==> NoDup(Layer(ComplexTree, d))
  {
    ComplexTreeLayers();
    forall d | 0 <= d < 4
      ensures NoDup(Layer(ComplexTree, d))
    {
      if d == 0 {} else if d == 1 {} else if d == 2 {} else {}
    }
  }

  lemma ComplexTreeLayersDisjoint()
    ensures forall d, e :: 0 <= d < e < 4 ==> Disjoint(Layer(ComplexTree, d), Layer(ComplexTree, e))
  {
    ComplexTreeLayers();
    forall d, e | 0 <= d < e < 4
      ensures Disjoint(Layer(ComplexTree, d), Layer(ComplexTree, e))
    {
      if d == 0 {} else if d == 1 {} else {}
    }
  }

  lemma ComplexTreeInnerNodes()
    ensures forall d, k :: 0 <= d < 3 && 0 <= k < |Layer(ComplexTree, d)| ==> Children(ComplexTree, Layer(ComplexTree, d)[k]) != []
  {
    ComplexTreeLayers();
    forall d, k | 0 <= d < 3 && 0 <= k < |Layer(ComplexTree, d)|
      ensures Children(ComplexTree, Layer(ComplexTree, d)[k]) != []
    {
      if d == 0 {} else if d == 1 {} else {}
    }
  }

  lemma ComplexTreeValid()
    ensures Valid(ComplexTree)
  {
    ComplexTreeLayers();
    ComplexTreeLayersNoDup();
    ComplexTreeLayersDisjoint();
    ComplexTreeInnerNodes();
  }

  // ---------------------------------------------------------------------
  // Levels in the order the program lists them

  lemma TreeSegments0()
    ensures Segments(Tree, 0) == ["total"]
  {
    TreeValid();
    TreeLayers();
    SegmentsAre(Tree, 0, ["total"]);
  }

  lemma TreeSegments1()
    ensures Segments(Tree, 1) == ["X", "Y"]
  {
    TreeValid();
    TreeLayers();
    assert LexLess(["X", "Y"][0], ["X", "Y"][1]);
    SegmentsAre(Tree, 1, ["X", "Y"]);
  }

  lemma TreeSegments2()
    ensures Segments(Tree, 2) == ["a", "b", "c", "d"]
  {
    TreeValid();
    TreeLayers();
    assert LexLess(["a", "b", "c", "d"][0], ["a", "b", "c", "d"][1]);
    assert LexLess(["a", "b", "c", "d"][1], ["a", "b", "c", "d"][2]);
    assert LexLess(["a", "b", "c", "d"][2], ["a", "b", "c", "d"][3]);
    SegmentsAre(Tree, 2, ["a", "b", "c", "d"]);
  }

  lemma TreeSegments()
    ensures Segments(Tree, 0) == ["total"]
    ensures Segments(Tree, 1) == ["X", "Y"]
    ensures Segments(Tree, 2) == ["a", "b", "c", "d"]
  {
    TreeSegments0();
    TreeSegments1();
    TreeSegments2();
  }

  lemma LongTreeSegments0()
    ensures Segments(LongTree, 0) == ["total"]
  {
    LongTreeValid();
    LongTreeLayers();
    SegmentsAre(LongTree, 0, ["total"]);
  }

  lemma LongTreeSegments1()
    ensures Segments(LongTree, 1) == ["X", "Y"]
  {
    LongTreeValid();
    LongTreeLayers();
    assert LexLess(["X", "Y"][0], ["X", "Y"][1]);
    SegmentsAre(LongTree, 1, ["X", "Y"]);
  }

  lemma LongTreeSegments2()
    ensures Segments(LongTree, 2) == ["a", "b"]
  {
    LongTreeValid();
    LongTreeLayers();
    assert LexLess(["a", "b"][0], ["a", "b"][1]);
    SegmentsAre(LongTree, 2, ["a", "b"]);
  }

  lemma LongTreeSegments3()
    ensures Segments(LongTree, 3) == ["c", "d"]
  {
    LongTreeValid();
    LongTreeLayers();
    assert LexLess(["c", "d"][0], ["c", "d"][1]);
    SegmentsAre(LongTree, 3, ["c", "d"]);
  }

  lemma LongTreeSegments()
    ensures Segments(LongTree, 0) == ["total"]
    ensures Segments(LongTree, 1) == ["X", "Y"]
    ensures Segments(LongTree, 2) == ["a", "b"]
    ensures Segments(LongTree, 3) == ["c", "d"]
  {
    LongTreeSegments0();
    LongTreeSegments1();
    LongTreeSegments2();
    LongTreeSegments3();
  }

  lemma TailedTreeSegments0()
    ensures Segments(TailedTree, 0) == ["total"]
  {
    TailedTreeValid();
    TailedTreeLayers();
    SegmentsAre(TailedTree, 0, ["total"]);
  }

  lemma TailedTreeSegments1()
    ensures Segments(TailedTree, 1) == ["X", "Y"]
  {
    TailedTreeValid();
    TailedTreeLayers();
    assert LexLess(["X", "Y"][0], ["X", "Y"][1]);
    SegmentsAre(TailedTree, 1, ["X", "Y"]);
  }

  lemma TailedTreeSegments2()
    ensures Segments(TailedTree, 2) == ["a", "c", "d"]
  {
    TailedTreeValid();
    TailedTreeLayers();
    assert LexLess(["a", "c", "d"][0], ["a", "c", "d"][1]);
    assert LexLess(["a", "c", "d"][1], ["a", "c", "d"][2]);
    SegmentsAre(TailedTree, 2, ["a", "c", "d"]);
  }

  lemma TailedTreeSegments3()
    ensures Segments(TailedTree, 3) == ["e", "f", "g", "h"]
  {
    TailedTreeValid();
    TailedTreeLayers();
    assert LexLess(["e", "f", "g", "h"][0], ["e", "f", "g", "h"][1]);
    assert LexLess(["e", "f", "g", "h"][1], ["e", "f", "g", "h"][2]);
    assert LexLess(["e", "f", "g", "h"][2], ["e", "f", "g", "h"][3]);
    SegmentsAre(TailedTree, 3, ["e", "f", "g", "h"]);
  }

  /** The leaf level is listed by name, not in the order of the tree. */
  lemma TailedTreeSegments()
    ensures Segments(TailedTree, 0) == ["total"]
    ensures Segments(TailedTree, 1) == ["X", "Y"]
    ensures Segments(TailedTree, 2) == ["a", "c", "d"]
    ensures Segments(TailedTree, 3) == ["e", "f", "g", "h"]
    ensures Segments(TailedTree, 3) != Layer(TailedTree, 3)
  {
    TailedTreeSegments0();
    TailedTreeSegments1();
    TailedTreeSegments2();
    TailedTreeSegments3();
    TailedTreeLayers();
  }

  lemma ComplexTreeSegments0()
    ensures Segments(ComplexTree, 0) == ["total"]
  {
    ComplexTreeValid();
    ComplexTreeLayers();
    SegmentsAre(ComplexTree, 0, ["total"]);
  }

  lemma ComplexTreeSegments1()
    ensures Segments(ComplexTree, 1) == ["120", "77"]
  {
    ComplexTreeValid();
    ComplexTreeLayers();
    assert LexLess(["120", "77"][0], ["120", "77"][1]);
    SegmentsAre(ComplexTree, 1, ["120", "77"]);
  }

  lemma ComplexTreeSegments2()
    ensures Segments(ComplexTree, 2) == ["120_Y", "77_X"]
  {
    ComplexTreeValid();
    ComplexTreeLayers();
    assert LexLess(["120_Y", "77_X"][0], ["120_Y", "77_X"][1]);
    SegmentsAre(ComplexTree, 2, ["120_Y", "77_X"]);
  }

  lemma ComplexTreeSegments3()
    ensures Segments(ComplexTree, 3) == ["120_Y_3", "120_Y_4", "77_X_1", "77_X_2"]
  {
    ComplexTreeValid();
    ComplexTreeLayers();
    assert LexLess(["120_Y_3", "120_Y_4", "77_X_1", "77_X_2"][0], ["120_Y_3", "120_Y_4", "77_X_1", "77_X_2"][1]);
    assert LexLess(["120_Y_3", "120_Y_4", "77_X_1", "77_X_2"][1], ["120_Y_3", "120_Y_4", "77_X_1", "77_X_2"][2]);
    assert LexLess(["120_Y_3", "120_Y_4", "77_X_1", "77_X_2"][2], ["120_Y_3", "120_Y_4", "77_X_1", "77_X_2"][3]);
    SegmentsAre(ComplexTree, 3, ["120_Y_3", "120_Y_4", "77_X_1", "77_X_2"]);
  }

  /** "120" sorts before "77": segment names compare as strings. */
  lemma ComplexTreeSegments()
    ensures Segments(ComplexTree, 0) == ["total"]
    ensures Segments(ComplexTree, 1) == ["120", "77"]
    ensures Segments(ComplexTree, 2) == ["120_Y", "77_X"]
    ensures Segments(ComplexTree, 3) == ["120_Y_3", "120_Y_4", "77_X_1", "77_X_2"]
  {
    ComplexTreeSegments0();
    ComplexTreeSegments1();
    ComplexTreeSegments2();
    ComplexTreeSegments3();
  }
}
