/** The hierarchy tree: a parent -> children map rooted at "total" plus the
    level names, root first.  The tree is walked level by level in the order
    the children lists give; the segments of a level, as the program lists
    them, are those nodes sorted by name, and positions in the sorted lists
    index the rows and columns of the summing matrix. */
module Hierarchy {
  import opened Wrappers
  import opened Seqs
  import opened Errors
  import opened Sparse

  const Root: string := "total"

  datatype HierarchicalStructure = HierarchicalStructure(
    levelStructure: map<string, seq<string>>,
    levelNames: seq<string>)

  /** The children listed for `s`; none when `s` is not a key. */
  function ChildrenIn(m: map<string, seq<string>>, s: string): seq<string>
  {
    if s in m then m[s] else []
  }

  function Children(hs: HierarchicalStructure, s: string): seq<string>
  {
    ChildrenIn(hs.levelStructure, s)
  }

  /** The children lists of `xs`, concatenated in order. */
  function ChildrenOf(hs: HierarchicalStructure, xs: seq<string>): seq<string>
  {
    if |xs| == 0 then [] else Children(hs, xs[0]) + ChildrenOf(hs, xs[1..])
  }

  /** The nodes `k` generations below `xs`. */
  function Iter(hs: HierarchicalStructure, xs: seq<string>, k: nat): seq<string>
  {
    if k == 0 then xs else ChildrenOf(hs, Iter(hs, xs, k - 1))
  }

  /** The segments at depth `d`. */
  function Layer(hs: HierarchicalStructure, d: nat): seq<string>
  {
    Iter(hs, [Root], d)
  }

  function LayerSet(hs: HierarchicalStructure, d: nat): set<string>
  {
    set x | x in Layer(hs, d)
  }

  /** The descendants of `x` that are `k` levels below it. */
  function DescendantsAt(hs: HierarchicalStructure, x: string, k: nat): seq<string>
  {
    Iter(hs, [x], k)
  }

  /** A tree whose depth matches the level names: every node occurs once,
      nodes above the last level have children and the last level is all
      leaves. */
  predicate Valid(hs: HierarchicalStructure)
  {
    && |hs.levelNames| >= 1
    && NoDup(hs.levelNames)
    && (forall d :: 0 <= d < |hs.levelNames| ==> NoDup(Layer(hs, d)))
    && (forall d, e :: 0 <= d < e < |hs.levelNames| ==> Disjoint(Layer(hs, d), Layer(hs, e)))
    && (forall d, k :: 0 <= d < |hs.levelNames| - 1 && 0 <= k < |Layer(hs, d)| ==>
          Children(hs, Layer(hs, d)[k]) != [])
    && Layer(hs, |hs.levelNames|) == []
  }

  /** `get_level_depth`: the position of a level name. */
  function LevelDepth(hs: HierarchicalStructure, name: string): (r: Result<nat, Error>)
    ensures r.Ok? <==> name in hs.levelNames
    ensures r.Ok? ==> r.value < |hs.levelNames| && hs.levelNames[r.value] == name
    ensures r.Err? ==> r.error == UnknownLevel(name)
  {
    if name in hs.levelNames then Ok(IndexOf(hs.levelNames, name)) else Err(UnknownLevel(name))
  }

  /** The segments at depth `d` sorted by name: the order in which the
      program lists a level. */
  function Segments(hs: HierarchicalStructure, d: nat): seq<string>
  {
    Sort(Layer(hs, d))
  }

  /** A level's sorted segments are its nodes, each once, in increasing order. */
  lemma {:induction false} SegmentsOfLayer(hs: HierarchicalStructure, d: nat)
    requires Valid(hs) && d < |hs.levelNames|
    ensures LexSorted(Segments(hs, d)) && NoDup(Segments(hs, d))
    ensures |Segments(hs, d)| == |Layer(hs, d)| >= 1
    ensures forall x :: x in Segments(hs, d) <==> x in Layer(hs, d)
  {
    SortMembers(Layer(hs, d));
    LayerNonEmpty(hs, d);
  }

  /** A level's sorted segments are the one sorted listing of its nodes. */
  lemma SegmentsAre(hs: HierarchicalStructure, d: nat, xs: seq<string>)
    requires Valid(hs) && d < |hs.levelNames|
    requires LexSorted(xs) && forall x :: x in xs <==> x in Layer(hs, d)
    ensures Segments(hs, d) == xs
  {
    SegmentsOfLayer(hs, d);
    LexSortedUnique(Segments(hs, d), xs);
  }

  /** `get_level_segments`: the segments of a named level, sorted by name. */
  function LevelSegments(hs: HierarchicalStructure, name: string): (r: Result<seq<string>, Error>)
    requires Valid(hs)
    ensures r.Ok? <==> name in hs.levelNames
    ensures r.Err? ==> r.error == UnknownLevel(name)
    ensures r.Ok? ==> |r.value| >= 1 && LexSorted(r.value) && NoDup(r.value)
    ensures r.Ok? ==> forall x :: x in r.value <==> x in Layer(hs, IndexOf(hs.levelNames, name))
    ensures r.Ok? ==> r.value == Segments(hs, IndexOf(hs.levelNames, name))
  {
    if name in hs.levelNames then
      SegmentsOfLayer(hs, IndexOf(hs.levelNames, name));
      Ok(Segments(hs, IndexOf(hs.levelNames, name)))
    else Err(UnknownLevel(name))
  }

  // ---------------------------------------------------------------------
  // Structure of the layers

  lemma {:induction false} ChildrenOfConcat(hs: HierarchicalStructure, a: seq<string>, b: seq<string>)
    ensures ChildrenOf(hs, a + b) == ChildrenOf(hs, a) + ChildrenOf(hs, b)
  {
    if |a| == 0 {
      assert a + b == b;
    } else {
      assert (a + b)[0] == a[0];
      assert (a + b)[1..] == a[1..] + b;
      ChildrenOfConcat(hs, a[1..], b);
    }
  }

  lemma {:induction false} IterConcat(hs: HierarchicalStructure, a: seq<string>, b: seq<string>, k: nat)
    ensures Iter(hs, a + b, k) == Iter(hs, a, k) + Iter(hs, b, k)
  {
    if k > 0 {
      IterConcat(hs, a, b, k - 1);
      ChildrenOfConcat(hs, Iter(hs, a, k - 1), Iter(hs, b, k - 1));
    }
  }

  lemma {:induction false} LayerShift(hs: HierarchicalStructure, d: nat, k: nat)
    ensures Layer(hs, d + k) == Iter(hs, Layer(hs, d), k)
  {
    if k > 0 {
      LayerShift(hs, d, k - 1);
    }
  }

  lemma LayerStep(hs: HierarchicalStructure, d: nat)
    requires d >= 1
    ensures Layer(hs, d) == ChildrenOf(hs, Layer(hs, d - 1))
  {
  }

  /** Every level of a valid tree has at least one segment. */
  lemma {:induction false} LayerNonEmpty(hs: HierarchicalStructure, d: nat)
    requires Valid(hs) && d < |hs.levelNames|
    ensures |Layer(hs, d)| >= 1
  {
    if d > 0 {
      LayerNonEmpty(hs, d - 1);
      var xs := Layer(hs, d - 1);
      assert Children(hs, xs[0]) != [];
      LayerStep(hs, d);
    }
  }

  // ---------------------------------------------------------------------
  // Parents by position

  /** Number of children of the first `q` nodes of `xs`: where the
      children block of `xs[q]` starts in `ChildrenOf(xs)`. */
  function Offset(hs: HierarchicalStructure, xs: seq<string>, q: nat): nat
    requires q <= |xs|
  {
    |ChildrenOf(hs, xs[..q])|
  }

  lemma OffsetStep(hs: HierarchicalStructure, xs: seq<string>, q: nat)
    requires 1 <= q <= |xs|
    ensures Offset(hs, xs, q) == |Children(hs, xs[0])| + Offset(hs, xs[1..], q - 1)
  {
    assert xs[..q][0] == xs[0];
    assert xs[..q][1..] == xs[1..][..q - 1];
  }

  /** Position in `xs` of the parent of the `j`-th node of `ChildrenOf(xs)`. */
  function ParentIndex(hs: HierarchicalStructure, xs: seq<string>, j: nat): (r: nat)
    requires j < |ChildrenOf(hs, xs)|
    ensures r < |xs| && ChildrenOf(hs, xs)[j] in Children(hs, xs[r])
  {
    if j < |Children(hs, xs[0])| then 0
    else 1 + ParentIndex(hs, xs[1..], j - |Children(hs, xs[0])|)
  }

  /** The parent comes before `xs[a]` exactly when the child comes before
      the children block of `xs[a]`. */
  lemma {:induction false} ParentIndexBelow(hs: HierarchicalStructure, xs: seq<string>, j: nat, a: nat)
    requires j < |ChildrenOf(hs, xs)| && a <= |xs|
    ensures ParentIndex(hs, xs, j) < a <==> j < Offset(hs, xs, a)
  {
    if a == 0 {
      assert xs[..a] == [];
    } else {
      OffsetStep(hs, xs, a);
      var c0 := |Children(hs, xs[0])|;
      if j < c0 {
        assert ParentIndex(hs, xs, j) == 0;
      } else {
        assert ChildrenOf(hs, xs) == Children(hs, xs[0]) + ChildrenOf(hs, xs[1..]);
        ParentIndexBelow(hs, xs[1..], j - c0, a - 1);
        assert ParentIndex(hs, xs, j) == 1 + ParentIndex(hs, xs[1..], j - c0);
      }
    }
  }

  // ---------------------------------------------------------------------
  // Ancestors by position

  /** Position at depth `dt` of the ancestor of the `j`-th segment at depth
      `ds`, found by walking up one parent at a time. */
  function Owner(hs: HierarchicalStructure, dt: nat, ds: nat, j: nat): (r: nat)
    requires dt <= ds && j < |Layer(hs, ds)|
    ensures r < |Layer(hs, dt)|
    decreases ds - dt
  {
    if ds == dt then j
    else
      LayerStep(hs, ds);
      Owner(hs, dt, ds - 1, ParentIndex(hs, Layer(hs, ds - 1), j))
  }

  /** Where the descendants of the `i`-th segment at depth `dt` start, `k`
      levels down. */
  function BlockStart(hs: HierarchicalStructure, dt: nat, k: nat, i: nat): nat
    requires i <= |Layer(hs, dt)|
  {
    |Iter(hs, Layer(hs, dt)[..i], k)|
  }

  /** `k` levels below depth `dt`, the descendants of consecutive segments
      are consecutive: the layer splits into one block per segment. */
  lemma LayerSplit(hs: HierarchicalStructure, dt: nat, k: nat, a: nat)
    requires a <= |Layer(hs, dt)|
    ensures Layer(hs, dt + k) == Iter(hs, Layer(hs, dt)[..a], k) + Iter(hs, Layer(hs, dt)[a..], k)
  {
    LayerShift(hs, dt, k);
    assert Layer(hs, dt) == Layer(hs, dt)[..a] + Layer(hs, dt)[a..];
    IterConcat(hs, Layer(hs, dt)[..a], Layer(hs, dt)[a..], k);
  }

  lemma BlockStartBound(hs: HierarchicalStructure, dt: nat, k: nat, a: nat)
    requires a <= |Layer(hs, dt)|
    ensures BlockStart(hs, dt, k, a) <= |Layer(hs, dt + k)|
  {
    LayerSplit(hs, dt, k, a);
  }

  lemma OwnerStep(hs: HierarchicalStructure, dt: nat, ds: nat, j: nat)
    requires dt < ds && j < |Layer(hs, ds)|
    ensures Layer(hs, ds) == ChildrenOf(hs, Layer(hs, ds - 1))
    ensures Owner(hs, dt, ds, j) == Owner(hs, dt, ds - 1, ParentIndex(hs, Layer(hs, ds - 1), j))
  {
    LayerStep(hs, ds);
  }

  /** The first `a` blocks, one level further down, are the children of
      the first `a` blocks. */
  lemma BlockStartStep(hs: HierarchicalStructure, dt: nat, k: nat, a: nat)
    requires k >= 1 && a <= |Layer(hs, dt)|
    ensures BlockStart(hs, dt, k - 1, a) <= |Layer(hs, dt + k - 1)|
    ensures Offset(hs, Layer(hs, dt + k - 1), BlockStart(hs, dt, k - 1, a)) == BlockStart(hs, dt, k, a)
  {
    var L := Layer(hs, dt + k - 1);
    var prefix := Iter(hs, Layer(hs, dt)[..a], k - 1);
    LayerSplit(hs, dt, k - 1, a);
    assert L[..|prefix|] == prefix;
  }

  /** The ancestor lies before the `a`-th segment exactly when the segment
      lies before the `a`-th block. */
  lemma {:induction false} OwnerBelow(hs: HierarchicalStructure, dt: nat, k: nat, j: nat, a: nat)
    requires j < |Layer(hs, dt + k)| && a <= |Layer(hs, dt)|
    ensures BlockStart(hs, dt, k, a) <= |Layer(hs, dt + k)|
    ensures Owner(hs, dt, dt + k, j) < a <==> j < BlockStart(hs, dt, k, a)
  {
    BlockStartBound(hs, dt, k, a);
    if k == 0 {
      assert Owner(hs, dt, dt + k, j) == j;
      assert BlockStart(hs, dt, k, a) == |Layer(hs, dt)[..a]| == a;
    } else {
      var ds := dt + k;
      assert ds - 1 == dt + (k - 1);
      OwnerStep(hs, dt, ds, j);
      var L := Layer(hs, ds - 1);
      var p := ParentIndex(hs, L, j);
      assert Owner(hs, dt, ds, j) == Owner(hs, dt, ds - 1, p);
      OwnerBelow(hs, dt, k - 1, p, a);
      BlockStartStep(hs, dt, k, a);
      var b := BlockStart(hs, dt, k - 1, a);
      ParentIndexBelow(hs, L, j, b);
      assert Offset(hs, L, b) == BlockStart(hs, dt, k, a);
    }
  }

  /** The segments whose ancestor is the `i`-th segment form the `i`-th block. */
  lemma OwnerBlock(hs: HierarchicalStructure, dt: nat, k: nat, j: nat, i: nat)
    requires j < |Layer(hs, dt + k)| && i < |Layer(hs, dt)|
    ensures BlockStart(hs, dt, k, i) <= BlockStart(hs, dt, k, i + 1) <= |Layer(hs, dt + k)|
    ensures Owner(hs, dt, dt + k, j) == i <==>
              BlockStart(hs, dt, k, i) <= j < BlockStart(hs, dt, k, i + 1)
  {
    DescendantsBlock(hs, dt, k, i);
    OwnerBelow(hs, dt, k, j, i);
    OwnerBelow(hs, dt, k, j, i + 1);
  }

  /** In breadth-first layer order (not the sorted order the program lists a
      level in), the `i`-th block is the list of descendants of the `i`-th
      segment; the summing-matrix proofs walk these blocks. */
  lemma DescendantsBlock(hs: HierarchicalStructure, dt: nat, k: nat, i: nat)
    requires i < |Layer(hs, dt)|
    ensures BlockStart(hs, dt, k, i) <= BlockStart(hs, dt, k, i + 1) <= |Layer(hs, dt + k)|
    ensures Layer(hs, dt + k)[BlockStart(hs, dt, k, i)..BlockStart(hs, dt, k, i + 1)]
            == DescendantsAt(hs, Layer(hs, dt)[i], k)
  {
    var L := Layer(hs, dt);
    LayerSplit(hs, dt, k, i);
    assert L[i..] == [L[i]] + L[i + 1..];
    IterConcat(hs, [L[i]], L[i + 1..], k);
    assert L[..i + 1] == L[..i] + [L[i]];
    IterConcat(hs, L[..i], [L[i]], k);
  }

  /** With no segment repeated, the ancestor walk meets `Layer(dt)[i]`
      exactly for the descendants of that segment. */
  lemma OwnerIsAncestor(hs: HierarchicalStructure, dt: nat, k: nat, j: nat, i: nat)
    requires NoDup(Layer(hs, dt + k))
    requires j < |Layer(hs, dt + k)| && i < |Layer(hs, dt)|
    ensures Owner(hs, dt, dt + k, j) == i <==> Layer(hs, dt + k)[j] in DescendantsAt(hs, Layer(hs, dt)[i], k)
  {
    OwnerBlock(hs, dt, k, j, i);
    DescendantsBlock(hs, dt, k, i);
    SliceMembership(Layer(hs, dt + k), BlockStart(hs, dt, k, i), BlockStart(hs, dt, k, i + 1), j);
  }

  /** In a valid tree every segment above the last level has descendants
      at every lower level. */
  lemma {:induction false} DescendantsNonEmpty(hs: HierarchicalStructure, dt: nat, k: nat, i: nat)
    requires Valid(hs) && dt + k < |hs.levelNames| && i < |Layer(hs, dt)|
    ensures |DescendantsAt(hs, Layer(hs, dt)[i], k)| >= 1
  {
    if k > 0 {
      DescendantsNonEmpty(hs, dt, k - 1, i);
      DescendantsBlock(hs, dt, k - 1, i);
      var D := DescendantsAt(hs, Layer(hs, dt)[i], k - 1);
      var lo := BlockStart(hs, dt, k - 1, i);
      assert D[0] == Layer(hs, dt + k - 1)[lo];
      assert Children(hs, D[0]) != [];
    }
  }

  // ---------------------------------------------------------------------
  // Summing matrix

  /** `get_summing_matrix(target_level, source_level)`: entry (i, j) is 1
      when the `j`-th segment of the source level rolls up into the `i`-th
      segment of the (coarser or equal) target level, both levels sorted by
      name. */
  function SummingMatrix(hs: HierarchicalStructure, targetLevel: string, sourceLevel: string): (r: Result<SparseMatrix, Error>)
    requires Valid(hs)
    ensures targetLevel !in hs.levelNames ==> r == Err(UnknownLevel(targetLevel))
    ensures targetLevel in hs.levelNames && sourceLevel !in hs.levelNames ==> r == Err(UnknownLevel(sourceLevel))
    ensures r.Ok? <==>
              targetLevel in hs.levelNames && sourceLevel in hs.levelNames &&
              IndexOf(hs.levelNames, targetLevel) <= IndexOf(hs.levelNames, sourceLevel)
    ensures targetLevel in hs.levelNames && sourceLevel in hs.levelNames &&
            IndexOf(hs.levelNames, targetLevel) > IndexOf(hs.levelNames, sourceLevel) ==>
              r == Err(InvalidLevelOrder)
    ensures r.Ok? ==>
              IsSummingMatrix(hs, IndexOf(hs.levelNames, targetLevel), IndexOf(hs.levelNames, sourceLevel), r.value)
  {
    if targetLevel !in hs.levelNames then Err(UnknownLevel(targetLevel))
    else if sourceLevel !in hs.levelNames then Err(UnknownLevel(sourceLevel))
    else
      var dt := IndexOf(hs.levelNames, targetLevel);
      var ds := IndexOf(hs.levelNames, sourceLevel);
      if dt > ds then Err(InvalidLevelOrder)
      else
        SummingMatrixSupport(hs, dt, ds);
        Ok(SparseMatrix(|Segments(hs, dt)|, |Segments(hs, ds)|, SummingEntries(hs, dt, ds)))
  }

  /** `m` sums depth `ds` up to depth `dt`: one row per target segment, one
      column per source segment, and a stored 1 exactly where the source
      segment descends from the target segment. */
  predicate IsSummingMatrix(hs: HierarchicalStructure, dt: nat, ds: nat, m: SparseMatrix)
    requires dt <= ds
  {
    && m.rows == |Segments(hs, dt)|
    && m.cols == |Segments(hs, ds)|
    && m.WellFormed()
    && (forall key :: key in m.entries ==> m.entries[key] == 1.0)
    && (forall i, j :: 0 <= i < m.rows && 0 <= j < m.cols ==>
          ((i, j) in m.entries <==> Segments(hs, ds)[j] in DescendantsAt(hs, Segments(hs, dt)[i], ds - dt)))
  }

  /** The matrix `SummingMatrix` builds, as a construction. */
  lemma SummingMatrixIsConstruction(hs: HierarchicalStructure, targetLevel: string, sourceLevel: string)
    requires Valid(hs) && SummingMatrix(hs, targetLevel, sourceLevel).Ok?
    ensures IndexOf(hs.levelNames, targetLevel) <= IndexOf(hs.levelNames, sourceLevel)
    ensures var dt, ds := IndexOf(hs.levelNames, targetLevel), IndexOf(hs.levelNames, sourceLevel);
            SummingMatrix(hs, targetLevel, sourceLevel).value ==
              SparseMatrix(|Segments(hs, dt)|, |Segments(hs, ds)|, SummingEntries(hs, dt, ds))
  {
  }

  /** Position among the sorted segments at depth `dt` of the ancestor of the
      `j`-th sorted segment at depth `ds`. */
  function Ancestor(hs: HierarchicalStructure, dt: nat, ds: nat, j: nat): (r: nat)
    requires dt <= ds && j < |Segments(hs, ds)|
    ensures r < |Segments(hs, dt)|
  {
    SortMembers(Layer(hs, ds));
    SortMembers(Layer(hs, dt));
    var o := Owner(hs, dt, ds, IndexOf(Layer(hs, ds), Segments(hs, ds)[j]));
    IndexOf(Segments(hs, dt), Layer(hs, dt)[o])
  }

  /** One entry per source segment, in the row of its ancestor. */
  function SummingEntries(hs: HierarchicalStructure, dt: nat, ds: nat): map<(nat, nat), real>
    requires dt <= ds
  {
    map j | 0 <= j < |Segments(hs, ds)| :: (Ancestor(hs, dt, ds, j), j) := 1.0
  }

  lemma SummingEntriesKey(hs: HierarchicalStructure, dt: nat, ds: nat, key: (nat, nat))
    requires dt <= ds && key in SummingEntries(hs, dt, ds)
    ensures key.1 < |Segments(hs, ds)| && key.0 == Ancestor(hs, dt, ds, key.1)
    ensures key.0 < |Segments(hs, dt)| && SummingEntries(hs, dt, ds)[key] == 1.0
  {
    var j :| 0 <= j < |Segments(hs, ds)| && key == (Ancestor(hs, dt, ds, j), j);
  }

  lemma SummingEntriesAt(hs: HierarchicalStructure, dt: nat, ds: nat, i: nat, j: nat)
    requires dt <= ds && j < |Segments(hs, ds)|
    ensures (i, j) in SummingEntries(hs, dt, ds) <==> Ancestor(hs, dt, ds, j) == i
  {
    if (i, j) in SummingEntries(hs, dt, ds) {
      SummingEntriesKey(hs, dt, ds, (i, j));
    }
    if Ancestor(hs, dt, ds, j) == i {
      assert (Ancestor(hs, dt, ds, j), j) in SummingEntries(hs, dt, ds);
    }
  }

  /** The stored positions of the summing matrix between depths `dt` <= `ds`. */
  lemma SummingMatrixSupport(hs: HierarchicalStructure, dt: nat, ds: nat)
    requires Valid(hs) && dt <= ds < |hs.levelNames|
    ensures var m := SparseMatrix(|Segments(hs, dt)|, |Segments(hs, ds)|, SummingEntries(hs, dt, ds));
            && IsSummingMatrix(hs, dt, ds, m)
            && (forall i, j :: 0 <= i < m.rows && 0 <= j < m.cols ==>
                  ((i, j) in m.entries <==> Ancestor(hs, dt, ds, j) == i))
  {
    var m := SparseMatrix(|Segments(hs, dt)|, |Segments(hs, ds)|, SummingEntries(hs, dt, ds));
    forall key | key in m.entries
      ensures key.0 < m.rows && key.1 < m.cols && m.entries[key] == 1.0
    {
      SummingEntriesKey(hs, dt, ds, key);
    }
    forall i, j | 0 <= i < m.rows && 0 <= j < m.cols
      ensures (i, j) in m.entries <==> Ancestor(hs, dt, ds, j) == i
    {
      SummingEntriesAt(hs, dt, ds, i, j);
    }
    forall i, j | 0 <= i < m.rows && 0 <= j < m.cols
      ensures (i, j) in m.entries <==> Segments(hs, ds)[j] in DescendantsAt(hs, Segments(hs, dt)[i], ds - dt)
    {
      SummingEntryDescendant(hs, dt, ds, i, j);
    }
  }

  /** The `j`-th sorted segment is a node of its layer, found at its
      position there. */
  lemma {:induction false} SortedPosition(hs: HierarchicalStructure, d: nat, j: nat)
    requires j < |Segments(hs, d)|
    ensures Segments(hs, d)[j] in Layer(hs, d)
    ensures var p := IndexOf(Layer(hs, d), Segments(hs, d)[j]);
            p < |Layer(hs, d)| && Layer(hs, d)[p] == Segments(hs, d)[j]
  {
    SortMembers(Layer(hs, d));
    assert Segments(hs, d)[j] in Segments(hs, d);
  }

  /** The ancestor's sorted position is `i` exactly when its layer position
      is that of the `i`-th sorted segment. */
  lemma {:induction false} AncestorAt(hs: HierarchicalStructure, dt: nat, ds: nat, j: nat, i: nat)
    requires dt <= ds && NoDup(Layer(hs, dt))
    requires i < |Segments(hs, dt)| && j < |Segments(hs, ds)|
    ensures Segments(hs, ds)[j] in Layer(hs, ds) && Segments(hs, dt)[i] in Layer(hs, dt)
    ensures Ancestor(hs, dt, ds, j) == i <==>
              Owner(hs, dt, ds, IndexOf(Layer(hs, ds), Segments(hs, ds)[j])) == IndexOf(Layer(hs, dt), Segments(hs, dt)[i])
  {
    SortedPosition(hs, ds, j);
    SortedPosition(hs, dt, i);
    var o := Owner(hs, dt, ds, IndexOf(Layer(hs, ds), Segments(hs, ds)[j]));
    var y := Layer(hs, dt)[o];
    SortMembers(Layer(hs, dt));
    assert y in Segments(hs, dt) && NoDup(Segments(hs, dt));
    assert Ancestor(hs, dt, ds, j) == IndexOf(Segments(hs, dt), y);
    IndexOfAt(Segments(hs, dt), y, i);
    IndexOfAt(Layer(hs, dt), Segments(hs, dt)[i], o);
  }

  lemma SummingEntryDescendant(hs: HierarchicalStructure, dt: nat, ds: nat, i: nat, j: nat)
    requires Valid(hs) && dt <= ds < |hs.levelNames|
    requires i < |Segments(hs, dt)| && j < |Segments(hs, ds)|
    ensures (i, j) in SummingEntries(hs, dt, ds) <==> Segments(hs, ds)[j] in DescendantsAt(hs, Segments(hs, dt)[i], ds - dt)
  {
    assert NoDup(Layer(hs, dt)) && NoDup(Layer(hs, ds));
    SummingEntryIsDescendant(hs, dt, ds, i, j);
  }

  lemma {:induction false} SummingEntryIsDescendant(hs: HierarchicalStructure, dt: nat, ds: nat, i: nat, j: nat)
    requires dt <= ds && NoDup(Layer(hs, dt)) && NoDup(Layer(hs, ds))
    requires i < |Segments(hs, dt)| && j < |Segments(hs, ds)|
    ensures (i, j) in SummingEntries(hs, dt, ds) <==> Segments(hs, ds)[j] in DescendantsAt(hs, Segments(hs, dt)[i], ds - dt)
  {
    SummingEntriesAt(hs, dt, ds, i, j);
    AncestorAt(hs, dt, ds, j, i);
    SortedPosition(hs, ds, j);
    SortedPosition(hs, dt, i);
    var j0 := IndexOf(Layer(hs, ds), Segments(hs, ds)[j]);
    var i0 := IndexOf(Layer(hs, dt), Segments(hs, dt)[i]);
    OwnerIsAncestorBetween(hs, dt, ds, j0, i0);
  }

  /** `OwnerIsAncestor` between two depths. */
  lemma OwnerIsAncestorBetween(hs: HierarchicalStructure, dt: nat, ds: nat, j: nat, i: nat)
    requires dt <= ds && NoDup(Layer(hs, ds))
    requires j < |Layer(hs, ds)| && i < |Layer(hs, dt)|
    ensures Owner(hs, dt, ds, j) == i <==> Layer(hs, ds)[j] in DescendantsAt(hs, Layer(hs, dt)[i], ds - dt)
  {
    var k := ds - dt;
    assert dt + k == ds;
    OwnerIsAncestor(hs, dt, k, j, i);
  }

  /** Some stored entry lies in column `j`. */
  predicate ColumnCovered(m: SparseMatrix, j: nat)
  {
    exists i :: 0 <= i < m.rows && (i, j) in m.entries
  }

  /** Some stored entry lies in row `i`. */
  predicate RowCovered(m: SparseMatrix, i: nat)
  {
    exists j :: 0 <= j < m.cols && (i, j) in m.entries
  }

  lemma ColumnCoveredAt(hs: HierarchicalStructure, dt: nat, ds: nat, j: nat)
    requires dt <= ds && j < |Segments(hs, ds)|
    ensures ColumnCovered(SparseMatrix(|Segments(hs, dt)|, |Segments(hs, ds)|, SummingEntries(hs, dt, ds)), j)
  {
    assert (Ancestor(hs, dt, ds, j), j) in SummingEntries(hs, dt, ds);
  }

  lemma BlockNonEmpty(hs: HierarchicalStructure, dt: nat, k: nat, i: nat)
    requires Valid(hs) && dt + k < |hs.levelNames| && i < |Layer(hs, dt)|
    ensures BlockStart(hs, dt, k, i) < BlockStart(hs, dt, k, i + 1) <= |Layer(hs, dt + k)|
  {
    DescendantsNonEmpty(hs, dt, k, i);
    DescendantsBlock(hs, dt, k, i);
  }

  /** A segment above the last level has a descendant at every lower level. */
  lemma {:induction false} SomeDescendant(hs: HierarchicalStructure, dt: nat, ds: nat, i0: nat) returns (x: string)
    requires Valid(hs) && dt <= ds < |hs.levelNames| && i0 < |Layer(hs, dt)|
    ensures x in Layer(hs, ds) && x in DescendantsAt(hs, Layer(hs, dt)[i0], ds - dt)
  {
    var k := ds - dt;
    assert dt + k == ds;
    BlockNonEmpty(hs, dt, k, i0);
    var lo := BlockStart(hs, dt, k, i0);
    DescendantsBlock(hs, dt, k, i0);
    var D := Layer(hs, dt + k)[lo..BlockStart(hs, dt, k, i0 + 1)];
    assert D[0] == Layer(hs, dt + k)[lo];
    x := D[0];
  }

  /** Every row of the summing matrix holds an entry. */
  lemma {:induction false} RowCoveredAt(hs: HierarchicalStructure, dt: nat, ds: nat, i: nat)
    requires Valid(hs) && dt <= ds < |hs.levelNames| && i < |Segments(hs, dt)|
    ensures RowCovered(SparseMatrix(|Segments(hs, dt)|, |Segments(hs, ds)|, SummingEntries(hs, dt, ds)), i)
  {
    SortedPosition(hs, dt, i);
    var i0 := IndexOf(Layer(hs, dt), Segments(hs, dt)[i]);
    var x := SomeDescendant(hs, dt, ds, i0);
    assert NoDup(Layer(hs, dt)) && NoDup(Layer(hs, ds));
    RowCoveredBy(hs, dt, ds, i, x);
  }

  /** A descendant `x` of the `i`-th target segment fills row `i`. */
  lemma {:induction false} RowCoveredBy(hs: HierarchicalStructure, dt: nat, ds: nat, i: nat, x: string)
    requires dt <= ds && NoDup(Layer(hs, dt)) && NoDup(Layer(hs, ds)) && i < |Segments(hs, dt)|
    requires x in Layer(hs, ds) && x in DescendantsAt(hs, Segments(hs, dt)[i], ds - dt)
    ensures RowCovered(SparseMatrix(|Segments(hs, dt)|, |Segments(hs, ds)|, SummingEntries(hs, dt, ds)), i)
  {
    SortMembers(Layer(hs, ds));
    assert x in Segments(hs, ds);
    var j := IndexOf(Segments(hs, ds), x);
    SummingEntryIsDescendant(hs, dt, ds, i, j);
    assert (i, j) in SummingEntries(hs, dt, ds);
  }

  /** Partition property: every source segment rolls up into exactly one
      target segment, and every target segment receives at least one. */
  lemma SummingMatrixPartition(hs: HierarchicalStructure, targetLevel: string, sourceLevel: string)
    requires Valid(hs)
    requires SummingMatrix(hs, targetLevel, sourceLevel).Ok?
    ensures var m := SummingMatrix(hs, targetLevel, sourceLevel).value;
            && (forall j :: 0 <= j < m.cols ==> ColumnCovered(m, j))
            && (forall i, i', j :: (i, j) in m.entries && (i', j) in m.entries ==> i == i')
            && (forall i :: 0 <= i < m.rows ==> RowCovered(m, i))
  {
    var dt := IndexOf(hs.levelNames, targetLevel);
    var ds := IndexOf(hs.levelNames, sourceLevel);
    var m := SparseMatrix(|Segments(hs, dt)|, |Segments(hs, ds)|, SummingEntries(hs, dt, ds));
    assert SummingMatrix(hs, targetLevel, sourceLevel).value == m;
    forall j | 0 <= j < m.cols
      ensures ColumnCovered(m, j)
    {
      ColumnCoveredAt(hs, dt, ds, j);
    }
    forall i, i', j | (i, j) in m.entries && (i', j) in m.entries
      ensures i == i'
    {
      SummingEntriesKey(hs, dt, ds, (i, j));
      SummingEntriesKey(hs, dt, ds, (i', j));
    }
    forall i | 0 <= i < m.rows
      ensures RowCovered(m, i)
    {
      RowCoveredAt(hs, dt, ds, i);
    }
  }

  /** A level's summing matrix onto itself is the identity. */
  lemma SummingMatrixSameLevel(hs: HierarchicalStructure, level: string)
    requires Valid(hs) && level in hs.levelNames
    ensures SummingMatrix(hs, level, level).Ok?
    ensures var m := SummingMatrix(hs, level, level).value;
            && m.rows == m.cols
            && (forall i, j :: 0 <= i < m.rows && 0 <= j < m.cols ==> ((i, j) in m.entries <==> i == j))
            && (forall i :: 0 <= i < m.rows ==> m.Entry(i, i) == 1.0)
  {
    var d := IndexOf(hs.levelNames, level);
    var m := SummingMatrix(hs, level, level).value;
    assert IsSummingMatrix(hs, d, d, m);
    SegmentsOfLayer(hs, d);
    forall i, j | 0 <= i < m.rows && 0 <= j < m.cols
      ensures (i, j) in m.entries <==> i == j
    {
      SameLevelDescendant(hs, Segments(hs, d), i, j);
    }
  }

  /** Zero levels down, a segment's only descendant is itself. */
  lemma SameLevelDescendant(hs: HierarchicalStructure, s: seq<string>, i: nat, j: nat)
    requires NoDup(s) && i < |s| && j < |s|
    ensures s[j] in DescendantsAt(hs, s[i], 0) <==> i == j
  {
    assert DescendantsAt(hs, s[i], 0) == [s[i]];
  }
}
