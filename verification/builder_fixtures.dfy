/** The long tables of the hierarchical-dataset tests turned into segments
    and a hierarchy, and the outcomes those tests expect, as lemmas about
    the model. */
module BuilderFixtures {
  import opened Seqs
  import opened Hierarchy
  import opened Builder
  import opened Fixtures

  // ---------------------------------------------------------------------
  // Segment names

  /** Market and product columns joined with the default separator. */
  lemma ProductSegmentNames()
    ensures SegmentName("_", ["X", "a"]) == "X_a"
    ensures SegmentName("_", ["X", "b"]) == "X_b"
    ensures SegmentName("_", ["Y", "c"]) == "Y_c"
    ensures SegmentName("_", ["Y", "d"]) == "Y_d"
  {
  }

  /** The same columns joined with another separator. */
  lemma ProductSegmentNamesOtherSep()
    ensures SegmentName("#", ["X", "a"]) == "X#a"
    ensures SegmentName("#", ["X", "b"]) == "X#b"
    ensures SegmentName("#", ["Y", "c"]) == "Y#c"
    ensures SegmentName("#", ["Y", "d"]) == "Y#d"
  {
  }

  /** A single level column: the segment is the column's value. */
  lemma SingleColumnSegmentNames()
    ensures SegmentName("_", ["a"]) == "a"
    ensures SegmentName("_", ["b"]) == "b"
    ensures SegmentName("_", ["c"]) == "c"
    ensures SegmentName("_", ["d"]) == "d"
  {
  }

  // ---------------------------------------------------------------------
  // Level columns of different types, written as their text

  const Row1: seq<string> := ["77", "X", "1"]
  const Row2: seq<string> := ["77", "X", "2"]
  const Row3: seq<string> := ["120", "Y", "3"]
  const Row4: seq<string> := ["120", "Y", "4"]

  /** One row per timestamp: two timestamps for each leaf. */
  const ComplexRows: seq<seq<string>> := [Row1, Row1, Row2, Row2, Row3, Row3, Row4, Row4]

  lemma Path1()
    ensures PathNames("_", Row1) == ["77", "77_X", "77_X_1"]
  {
    assert Row1[..1] == ["77"] && Row1[..2] == ["77", "X"] && Row1[..3] == Row1;
    assert ["77", "X"][..1] == ["77"];
    assert Join("_", ["77", "X"]) == "77_X";
    assert Join("_", Row1) == "77_X_1";
  }

  lemma Path2()
    ensures PathNames("_", Row2) == ["77", "77_X", "77_X_2"]
  {
    assert Row2[..1] == ["77"] && Row2[..2] == ["77", "X"] && Row2[..3] == Row2;
    assert ["77", "X"][..1] == ["77"];
    assert Join("_", ["77", "X"]) == "77_X";
    assert Join("_", Row2) == "77_X_2";
  }

  lemma Path3()
    ensures PathNames("_", Row3) == ["120", "120_Y", "120_Y_3"]
  {
    assert Row3[..1] == ["120"] && Row3[..2] == ["120", "Y"] && Row3[..3] == Row3;
    assert ["120", "Y"][..1] == ["120"];
    assert Join("_", ["120", "Y"]) == "120_Y";
    assert Join("_", Row3) == "120_Y_3";
  }

  lemma Path4()
    ensures PathNames("_", Row4) == ["120", "120_Y", "120_Y_4"]
  {
    assert Row4[..1] == ["120"] && Row4[..2] == ["120", "Y"] && Row4[..3] == Row4;
    assert ["120", "Y"][..1] == ["120"];
    assert Join("_", ["120", "Y"]) == "120_Y";
    assert Join("_", Row4) == "120_Y_4";
  }

  /** A row's segment is the last node on its path. */
  lemma ComplexSegmentNames()
    ensures SegmentName("_", Row1) == "77_X_1"
    ensures SegmentName("_", Row2) == "77_X_2"
    ensures SegmentName("_", Row3) == "120_Y_3"
    ensures SegmentName("_", Row4) == "120_Y_4"
  {
    Path1(); SegmentNameIsLeaf("_", Row1);
    Path2(); SegmentNameIsLeaf("_", Row2);
    Path3(); SegmentNameIsLeaf("_", Row3);
    Path4(); SegmentNameIsLeaf("_", Row4);
  }

  // ---------------------------------------------------------------------
  // The structure after each distinct row

  const Built1 := map[Root := ["77"], "77" := ["77_X"], "77_X" := ["77_X_1"]]
  const Built2 := map[Root := ["77"], "77" := ["77_X"], "77_X" := ["77_X_1", "77_X_2"]]
  const Built3 := map[Root := ["77", "120"], "77" := ["77_X"], "77_X" := ["77_X_1", "77_X_2"],
                      "120" := ["120_Y"], "120_Y" := ["120_Y_3"]]
  const Built4 := map[Root := ["77", "120"], "77" := ["77_X"], "77_X" := ["77_X_1", "77_X_2"],
                      "120" := ["120_Y"], "120_Y" := ["120_Y_3", "120_Y_4"]]

  lemma AddRow1()
    ensures AddPath(map[], Root, ["77", "77_X", "77_X_1"]) == Built1
  {
    var p := ["77", "77_X", "77_X_1"];
    var m1 := map[Root := ["77"]];
    var m2 := m1["77" := ["77_X"]];
    var e: seq<string> := [];
    AddPathStep(map[], Root, p, e);
    assert e + ["77"] == ["77"];
    assert map[][Root := e + ["77"]] == m1;
    AddPathStep(m1, "77", p[1..], e);
    assert p[1..] == ["77_X", "77_X_1"] && p[1..][1..] == ["77_X_1"];
    assert e + ["77_X"] == ["77_X"];
    AddPathStep(m2, "77_X", ["77_X_1"], e);
    assert e + ["77_X_1"] == ["77_X_1"];
    assert ["77_X_1"][1..] == [];
  }

  lemma AddRow2()
    ensures AddPath(Built1, Root, ["77", "77_X", "77_X_2"]) == Built2
  {
    var p := ["77", "77_X", "77_X_2"];
    AddPathStep(Built1, Root, p, ["77"]);
    assert Built1[Root := ["77"]] == Built1;
    AddPathStep(Built1, "77", p[1..], ["77_X"]);
    assert p[1..] == ["77_X", "77_X_2"] && p[1..][1..] == ["77_X_2"];
    assert Built1["77" := ["77_X"]] == Built1;
    AddPathStep(Built1, "77_X", ["77_X_2"], ["77_X_1"]);
    assert "77_X_2" !in ["77_X_1"];
    assert ["77_X_1"] + ["77_X_2"] == ["77_X_1", "77_X_2"];
    assert Built1["77_X" := ["77_X_1", "77_X_2"]] == Built2;
    assert ["77_X_2"][1..] == [];
  }

  lemma AddRow3()
    ensures AddPath(Built2, Root, ["120", "120_Y", "120_Y_3"]) == Built3
  {
    var p := ["120", "120_Y", "120_Y_3"];
    var m1 := Built2[Root := ["77", "120"]];
    var m2 := m1["120" := ["120_Y"]];
    var e: seq<string> := [];
    AddPathStep(Built2, Root, p, ["77"]);
    assert "120" !in ["77"];
    assert ["77"] + ["120"] == ["77", "120"];
    AddPathStep(m1, "120", p[1..], e);
    assert p[1..] == ["120_Y", "120_Y_3"] && p[1..][1..] == ["120_Y_3"];
    assert e + ["120_Y"] == ["120_Y"];
    AddPathStep(m2, "120_Y", ["120_Y_3"], e);
    assert e + ["120_Y_3"] == ["120_Y_3"];
    assert m2["120_Y" := ["120_Y_3"]] == Built3;
    assert ["120_Y_3"][1..] == [];
  }

  lemma AddRow4()
    ensures AddPath(Built3, Root, ["120", "120_Y", "120_Y_4"]) == Built4
  {
    var p := ["120", "120_Y", "120_Y_4"];
    AddPathStep(Built3, Root, p, ["77", "120"]);
    assert Built3[Root := ["77", "120"]] == Built3;
    AddPathStep(Built3, "120", p[1..], ["120_Y"]);
    assert p[1..] == ["120_Y", "120_Y_4"] && p[1..][1..] == ["120_Y_4"];
    assert Built3["120" := ["120_Y"]] == Built3;
    AddPathStep(Built3, "120_Y", ["120_Y_4"], ["120_Y_3"]);
    assert "120_Y_4" !in ["120_Y_3"];
    assert ["120_Y_3"] + ["120_Y_4"] == ["120_Y_3", "120_Y_4"];
    assert Built3["120_Y" := ["120_Y_3", "120_Y_4"]] == Built4;
    assert ["120_Y_4"][1..] == [];
  }

  // ---------------------------------------------------------------------
  // Folding the rows in one at a time

  lemma Prefix1()
    ensures BuildStructure("_", ComplexRows[..1]) == Built1
  {
    assert ComplexRows[..1][..0] == [] && ComplexRows[..1][0] == Row1;
    Path1();
    AddRow1();
  }

  lemma Prefix2()
    ensures BuildStructure("_", ComplexRows[..2]) == Built1
  {
    assert ComplexRows[..2] == ComplexRows[..1] + [ComplexRows[..1][0]];
    RepeatedRow("_", ComplexRows[..1], 0);
    Prefix1();
  }

  lemma Prefix3()
    ensures BuildStructure("_", ComplexRows[..3]) == Built2
  {
    assert ComplexRows[..3][..2] == ComplexRows[..2] && ComplexRows[..3][2] == Row2;
    Path2();
    Prefix2();
    AddRow2();
  }

  lemma Prefix4()
    ensures BuildStructure("_", ComplexRows[..4]) == Built2
  {
    assert ComplexRows[..4] == ComplexRows[..3] + [ComplexRows[..3][2]];
    RepeatedRow("_", ComplexRows[..3], 2);
    Prefix3();
  }

  lemma Prefix5()
    ensures BuildStructure("_", ComplexRows[..5]) == Built3
  {
    assert ComplexRows[..5][..4] == ComplexRows[..4] && ComplexRows[..5][4] == Row3;
    Path3();
    Prefix4();
    AddRow3();
  }

  lemma Prefix6()
    ensures BuildStructure("_", ComplexRows[..6]) == Built3
  {
    assert ComplexRows[..6] == ComplexRows[..5] + [ComplexRows[..5][4]];
    RepeatedRow("_", ComplexRows[..5], 4);
    Prefix5();
  }

  lemma Prefix7()
    ensures BuildStructure("_", ComplexRows[..7]) == Built4
  {
    assert ComplexRows[..7][..6] == ComplexRows[..6] && ComplexRows[..7][6] == Row4;
    Path4();
    Prefix6();
    AddRow4();
  }

  lemma Prefix8()
    ensures BuildStructure("_", ComplexRows) == Built4
  {
    assert ComplexRows == ComplexRows[..7] + [ComplexRows[..7][6]];
    RepeatedRow("_", ComplexRows[..7], 6);
    Prefix7();
  }

  /** The level columns categorical / string / int build exactly the
      complex hierarchy: the same level names and the same levels. */
  lemma ComplexHierarchyBuilt()
    ensures BuildHierarchy(["categorical", "string", "int"], ComplexRows, "_") == ComplexTree
  {
    Prefix8();
    assert Built4 == ComplexTree.levelStructure;
  }
}
