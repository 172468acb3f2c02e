/** Building a hierarchy from the level columns of a long table: every row
    names one path from the root down, each node being the separator-join
    of the level values down to its level. */
module Builder {
  import opened Seqs
  import opened Hierarchy

  /** The node names on one row's path, one per level column. */
  function PathNames(sep: string, values: seq<string>): (r: seq<string>)
    ensures |r| == |values|
  {
    seq(|values|, d requires 0 <= d < |values| => Join(sep, values[..d + 1]))
  }

  /** The segment a row belongs to: the join of all its level values. */
  function SegmentName(sep: string, values: seq<string>): string
  {
    Join(sep, values)
  }

  /** A row's segment is the last node of its path, and with a single level
      column it is that column's value. */
  lemma SegmentNameIsLeaf(sep: string, values: seq<string>)
    requires |values| >= 1
    ensures SegmentName(sep, values) == PathNames(sep, values)[|values| - 1]
    ensures |values| == 1 ==> SegmentName(sep, values) == values[0]
  {
    assert values[..|values|] == values;
  }

  /** `path` hangs below `parent`: each node becomes a child of the one
      before it, appended once. */
  function AddPath(m: map<string, seq<string>>, parent: string, path: seq<string>): map<string, seq<string>>
    decreases |path|
  {
    if |path| == 0 then m
    else
      var kids := ChildrenIn(m, parent);
      AddPath(m[parent := if path[0] in kids then kids else kids + [path[0]]], path[0], path[1..])
  }

  /** The parent -> children map of all rows' paths, in order of first appearance. */
  function BuildStructure(sep: string, rows: seq<seq<string>>): map<string, seq<string>>
  {
    if |rows| == 0 then map[]
    else AddPath(BuildStructure(sep, rows[..|rows| - 1]), Root, PathNames(sep, rows[|rows| - 1]))
  }

  /** The hierarchy built from the rows' level values; level names are the
      root level followed by the level columns. */
  function BuildHierarchy(levelColumns: seq<string>, rows: seq<seq<string>>, sep: string): (r: HierarchicalStructure)
    ensures r.levelNames == [Root] + levelColumns
    ensures forall x, c :: c in Children(r, x) <==> InRows(sep, rows, x, c)
    ensures forall x :: NoDup(Children(r, x))
  {
    var m := BuildStructure(sep, rows);
    forall x, c
      ensures c in ChildrenIn(m, x) <==> InRows(sep, rows, x, c)
    {
      BuildStructureEdge(sep, rows, x, c);
    }
    forall x
      ensures NoDup(ChildrenIn(m, x))
    {
      BuildStructureNoDup(sep, rows, x);
    }
    HierarchicalStructure(m, [Root] + levelColumns)
  }

  /** `c` follows `x` on the path that hangs below `parent`. */
  predicate OnPath(parent: string, path: seq<string>, x: string, c: string)
    decreases |path|
  {
    |path| > 0 && ((parent == x && path[0] == c) || OnPath(path[0], path[1..], x, c))
  }

  /** `c` follows `x` on the path of some row, below the root. */
  predicate InRows(sep: string, rows: seq<seq<string>>, x: string, c: string)
  {
    |rows| > 0 && (InRows(sep, rows[..|rows| - 1], x, c) || OnPath(Root, PathNames(sep, rows[|rows| - 1]), x, c))
  }

  /** The `d`-th node of a path follows its predecessor (the parent for `d = 0`). */
  lemma {:induction false} OnPathAt(parent: string, path: seq<string>, d: nat)
    requires d < |path|
    ensures OnPath(parent, path, if d == 0 then parent else path[d - 1], path[d])
    decreases d
  {
    if d > 0 {
      OnPathAt(path[0], path[1..], d - 1);
      assert path[1..][d - 1] == path[d];
      if d > 1 {
        assert path[1..][d - 2] == path[d - 1];
      }
    }
  }

  /** Every node of every row's path is a child of its predecessor. */
  lemma {:induction false} InRowsAt(sep: string, rows: seq<seq<string>>, k: nat, d: nat)
    requires k < |rows| && d < |rows[k]|
    ensures var path := PathNames(sep, rows[k]);
            InRows(sep, rows, if d == 0 then Root else path[d - 1], path[d])
    decreases |rows|
  {
    if k == |rows| - 1 {
      OnPathAt(Root, PathNames(sep, rows[k]), d);
    } else {
      InRowsAt(sep, rows[..|rows| - 1], k, d);
      assert rows[..|rows| - 1][k] == rows[k];
    }
  }

  /** Adding a path keeps every existing edge and adds exactly the path's edges. */
  lemma {:induction false} AddPathEdge(m: map<string, seq<string>>, parent: string, path: seq<string>, x: string, c: string)
    ensures c in ChildrenIn(AddPath(m, parent, path), x) <==> c in ChildrenIn(m, x) || OnPath(parent, path, x, c)
    decreases |path|
  {
    if |path| > 0 {
      var kids := ChildrenIn(m, parent);
      var m' := m[parent := if path[0] in kids then kids else kids + [path[0]]];
      AddPathEdge(m', path[0], path[1..], x, c);
      assert c in ChildrenIn(m', x) <==> c in ChildrenIn(m, x) || (parent == x && path[0] == c);
    }
  }

  /** Adding a path keeps children lists free of duplicates. */
  lemma {:induction false} AddPathNoDup(m: map<string, seq<string>>, parent: string, path: seq<string>, x: string)
    requires forall y :: NoDup(ChildrenIn(m, y))
    ensures NoDup(ChildrenIn(AddPath(m, parent, path), x))
    decreases |path|
  {
    if |path| > 0 {
      var kids := ChildrenIn(m, parent);
      var m' := m[parent := if path[0] in kids then kids else kids + [path[0]]];
      forall y
        ensures NoDup(ChildrenIn(m', y))
      {
        if y == parent && path[0] !in kids {
          assert ChildrenIn(m', y) == kids + [path[0]];
          NoDupAppend(kids, path[0]);
        } else {
          assert ChildrenIn(m', y) == ChildrenIn(m, y);
        }
      }
      AddPathNoDup(m', path[0], path[1..], x);
    }
  }

  /** The edges of the built structure are exactly the rows' path edges. */
  lemma {:induction false} BuildStructureEdge(sep: string, rows: seq<seq<string>>, x: string, c: string)
    ensures c in ChildrenIn(BuildStructure(sep, rows), x) <==> InRows(sep, rows, x, c)
  {
    if |rows| > 0 {
      var init := rows[..|rows| - 1];
      BuildStructureEdge(sep, init, x, c);
      AddPathEdge(BuildStructure(sep, init), Root, PathNames(sep, rows[|rows| - 1]), x, c);
    }
  }

  lemma {:induction false} BuildStructureNoDup(sep: string, rows: seq<seq<string>>, x: string)
    ensures NoDup(ChildrenIn(BuildStructure(sep, rows), x))
  {
    if |rows| > 0 {
      var init := rows[..|rows| - 1];
      forall y
        ensures NoDup(ChildrenIn(BuildStructure(sep, init), y))
      {
        BuildStructureNoDup(sep, init, y);
      }
      AddPathNoDup(BuildStructure(sep, init), Root, PathNames(sep, rows[|rows| - 1]), x);
    }
  }

  /** Every edge of `path` below `parent` is already in `m`. */
  predicate PathPresent(m: map<string, seq<string>>, parent: string, path: seq<string>)
    decreases |path|
  {
    |path| == 0 || (path[0] in ChildrenIn(m, parent) && PathPresent(m, path[0], path[1..]))
  }

  /** One step of adding a path: the first node joins its parent's children
      unless it is already there. */
  lemma AddPathStep(m: map<string, seq<string>>, parent: string, path: seq<string>, kids: seq<string>)
    requires |path| > 0 && kids == ChildrenIn(m, parent)
    ensures AddPath(m, parent, path) ==
              AddPath(m[parent := if path[0] in kids then kids else kids + [path[0]]], path[0], path[1..])
  {
  }

  /** Adding a path that is already there changes nothing. */
  lemma {:induction false} AddPathPresent(m: map<string, seq<string>>, parent: string, path: seq<string>)
    requires PathPresent(m, parent, path)
    ensures AddPath(m, parent, path) == m
    decreases |path|
  {
    if |path| > 0 {
      assert parent in m && m[parent := m[parent]] == m;
      AddPathPresent(m, path[0], path[1..]);
    }
  }

  /** The path of a row already folded in is present from its `d`-th node on. */
  lemma {:induction false} RowPathPresent(sep: string, rows: seq<seq<string>>, k: nat, d: nat)
    requires k < |rows| && d <= |rows[k]|
    ensures var path := PathNames(sep, rows[k]);
            PathPresent(BuildStructure(sep, rows), if d == 0 then Root else path[d - 1], path[d..])
    decreases |rows[k]| - d
  {
    var path := PathNames(sep, rows[k]);
    if d < |path| {
      InRowsAt(sep, rows, k, d);
      BuildStructureEdge(sep, rows, if d == 0 then Root else path[d - 1], path[d]);
      RowPathPresent(sep, rows, k, d + 1);
      assert path[d..][1..] == path[d + 1..];
    }
  }

  /** A row that repeats an earlier one (the same level values at another
      timestamp) leaves the built structure unchanged. */
  lemma RepeatedRow(sep: string, rows: seq<seq<string>>, k: nat)
    requires k < |rows|
    ensures BuildStructure(sep, rows + [rows[k]]) == BuildStructure(sep, rows)
  {
    var rows' := rows + [rows[k]];
    assert rows'[..|rows'| - 1] == rows;
    RowPathPresent(sep, rows, k, 0);
    assert PathNames(sep, rows[k])[0..] == PathNames(sep, rows[k]);
    AddPathPresent(BuildStructure(sep, rows), Root, PathNames(sep, rows[k]));
  }
}
