/** The columns of a fitted top-down mapping: when the current-level data in
    the window is complete, the shares a source segment hands down to its
    target-level descendants add up to one. */
module Shares {
  import opened Wrappers
  import opened Seqs
  import opened Sparse
  import opened Hierarchy
  import opened LevelDataset
  import opened Proportions
  import opened TopDown

  // ---------------------------------------------------------------------
  // Sums over names

  /** Everything the share of one segment depends on: the estimator, the
      period, the table and hierarchy, how many generations the segment lies
      above the current level, and the source series it is a share of. */
  datatype Sharing = Sharing(pm: Method, p: nat, t: Table, hs: HierarchicalStructure, depth: nat,
                             parent: seq<Option<real>>)

  /** The proportion of segment `y` within the source series, 0 where the
      estimator is not defined. */
  function ShareOf(s: Sharing, y: string): real
  {
    Share(s.pm, s.p, s.t, s.hs, s.depth, s.parent, y)
  }

  function Share(pm: Method, p: nat, t: Table, hs: HierarchicalStructure, depth: nat, parent: seq<Option<real>>,
                 y: string): real
  {
    var child := DescendantSeries(t, hs, y, depth);
    if EstimateDefined(pm, p, child, parent) then Estimate(pm, p, child, parent) else 0.0
  }

  /** Sum of the shares of the names `xs`, last name added last. */
  function SumBy(xs: seq<string>, s: Sharing): real
  {
    if |xs| == 0 then 0.0 else SumBy(xs[..|xs| - 1], s) + ShareOf(s, xs[|xs| - 1])
  }

  /** Sum of the shares of those of the first `n` names of `ys` that occur in `xs`. */
  function SumWhereIn(ys: seq<string>, xs: seq<string>, s: Sharing, n: nat): real
    requires n <= |ys|
  {
    if n == 0 then 0.0
    else SumWhereIn(ys, xs, s, n - 1) + (if ys[n - 1] in xs then ShareOf(s, ys[n - 1]) else 0.0)
  }

  lemma {:induction false} SumWhereInEmpty(ys: seq<string>, s: Sharing, n: nat)
    requires n <= |ys|
    ensures SumWhereIn(ys, [], s, n) == 0.0
  {
    if n > 0 {
      SumWhereInEmpty(ys, s, n - 1);
    }
  }

  /** Adding one name `x` to the filter adds its own term. */
  lemma {:induction false} SumWhereInSplit(ys: seq<string>, xs: seq<string>, x: string, s: Sharing, n: nat)
    requires n <= |ys| && x !in xs
    ensures SumWhereIn(ys, xs + [x], s, n) == SumWhereIn(ys, xs, s, n) + SumWhereIn(ys, [x], s, n)
  {
    if n > 0 {
      SumWhereInSplit(ys, xs, x, s, n - 1);
      assert ys[n - 1] in xs + [x] <==> ys[n - 1] in xs || ys[n - 1] == x;
    }
  }

  /** A name that occurs once in `ys` is counted once. */
  lemma {:induction false} SumWhereInOne(ys: seq<string>, x: string, s: Sharing, n: nat)
    requires NoDup(ys) && n <= |ys|
    ensures SumWhereIn(ys, [x], s, n) == if x in ys[..n] then ShareOf(s, x) else 0.0
  {
    if n > 0 {
      SumWhereInOne(ys, x, s, n - 1);
      assert ys[..n] == ys[..n - 1] + [ys[n - 1]];
      if ys[n - 1] == x {
        assert x !in ys[..n - 1] by {
          forall k | 0 <= k < n - 1
            ensures ys[k] != x
          {
            assert ys[k] != ys[n - 1];
          }
          assert forall k :: 0 <= k < n - 1 ==> ys[..n - 1][k] == ys[k];
        }
      }
    }
  }

  /** Summing over the members of `xs` in the order they take in `ys` is
      summing over `xs`. */
  lemma {:induction false} SumWhereInReorder(ys: seq<string>, xs: seq<string>, s: Sharing)
    requires NoDup(ys) && NoDup(xs)
    requires forall x :: x in xs ==> x in ys
    ensures SumWhereIn(ys, xs, s, |ys|) == SumBy(xs, s)
  {
    if |xs| == 0 {
      SumWhereInEmpty(ys, s, |ys|);
    } else {
      var init, last := xs[..|xs| - 1], xs[|xs| - 1];
      assert xs == init + [last];
      assert NoDup(init) by {
        forall a, b | 0 <= a < b < |init|
          ensures init[a] != init[b]
        {
          assert xs[a] != xs[b];
        }
      }
      assert last !in init by {
        forall k | 0 <= k < |init|
          ensures init[k] != last
        {
          assert xs[k] != xs[|xs| - 1];
        }
      }
      SumWhereInReorder(ys, init, s);
      SumWhereInSplit(ys, init, last, s, |ys|);
      SumWhereInOne(ys, last, s, |ys|);
      assert ys[..|ys|] == ys;
    }
  }

  // ---------------------------------------------------------------------
  // Descendants and their sums

  /** Going `a` generations down and then `b` more is going `a + b` down. */
  lemma {:induction false} IterAdd(hs: HierarchicalStructure, xs: seq<string>, a: nat, b: nat)
    ensures Iter(hs, xs, a + b) == Iter(hs, Iter(hs, xs, a), b)
  {
    if b > 0 {
      IterAdd(hs, xs, a, b - 1);
    }
  }

  lemma {:induction false} IterEmpty(hs: HierarchicalStructure, k: nat)
    ensures Iter(hs, [], k) == []
  {
    if k > 0 {
      IterEmpty(hs, k - 1);
    }
  }

  /** The sum over two name lists is the sum of the two sums. */
  lemma {:induction false} SumOfSegmentsAppend(t: Table, k: nat, xs: seq<string>, ys: seq<string>)
    ensures SumOfSegments(t, k, xs + ys) == AddOpt(SumOfSegments(t, k, xs), SumOfSegments(t, k, ys))
  {
    if |xs| == 0 {
      assert xs + ys == ys;
    } else {
      assert (xs + ys)[0] == xs[0];
      assert (xs + ys)[1..] == xs[1..] + ys;
      SumOfSegmentsCons(t, k, xs + ys);
      SumOfSegmentsCons(t, k, xs);
      SumOfSegmentsAppend(t, k, xs[1..], ys);
    }
  }

  /** A sum over names whose cells are all present is present. */
  lemma {:induction false} SumOfSegmentsPresent(t: Table, k: nat, names: seq<string>)
    requires forall m :: 0 <= m < |names| ==> Cell(t, k, names[m]).Some?
    ensures SumOfSegments(t, k, names).Some?
  {
    if |names| > 0 {
      SumOfSegmentsCons(t, k, names);
      assert forall m :: 0 <= m < |names[1..]| ==> names[1..][m] == names[m + 1];
      SumOfSegmentsPresent(t, k, names[1..]);
    }
  }

  // ---------------------------------------------------------------------
  // Series of several segments

  /** The summed series of each of `xs`, `depth` levels down. */
  function ChildSeries(t: Table, hs: HierarchicalStructure, xs: seq<string>, depth: nat): (r: seq<seq<Option<real>>>)
    ensures |r| == |xs|
    ensures forall c :: 0 <= c < |xs| ==> r[c] == DescendantSeries(t, hs, xs[c], depth)
  {
    seq(|xs|, c requires 0 <= c < |xs| => DescendantSeries(t, hs, xs[c], depth))
  }

  lemma ChildSeriesPrefix(t: Table, hs: HierarchicalStructure, xs: seq<string>, depth: nat)
    requires |xs| >= 1
    ensures ChildSeries(t, hs, xs, depth)[..|xs| - 1] == ChildSeries(t, hs, xs[..|xs| - 1], depth)
  {
  }

  /** Every cell in the last `p` rows is present, and there is a row. */
  predicate CompleteWindow(t: Table, p: nat)
  {
    && |t.values| >= 1
    && forall r, j :: 0 <= r < |t.values| && |t.values| - p <= r && 0 <= j < |t.values[r]| ==> t.values[r][j].Some?
  }

  /** At row `r`, the sum over the descendants of all of `xs` is the total of
      the children's summed series. */
  lemma {:induction false} ColumnOfDescendants(t: Table, hs: HierarchicalStructure, xs: seq<string>, depth: nat, r: nat)
    requires r < |t.values|
    requires forall x :: x in Iter(hs, xs, depth) ==> Cell(t, r, x).Some?
    ensures SumOfSegments(t, r, Iter(hs, xs, depth)) == Some(ColumnTotal(ChildSeries(t, hs, xs, depth), r))
  {
    if |xs| == 0 {
      IterEmpty(hs, depth);
    } else {
      var init, last := xs[..|xs| - 1], xs[|xs| - 1];
      assert xs == init + [last];
      IterConcat(hs, init, [last], depth);
      SumOfSegmentsAppend(t, r, Iter(hs, init, depth), Iter(hs, [last], depth));
      ColumnOfDescendants(t, hs, init, depth, r);
      SumOfSegmentsPresent(t, r, Iter(hs, [last], depth));
      ChildSeriesPrefix(t, hs, xs, depth);
    }
  }

  /** A value of a window is the value at that position from the end. */
  lemma ValOfWindow(xs: seq<Option<real>>, p: nat, n: nat, k: nat)
    requires p >= 1 && |xs| == n && k < (if p < n then p else n)
    ensures Val(Window(xs, p), k) == Val(xs, n - (if p < n then p else n) + k)
  {
    WindowIsSuffix(xs, p);
  }

  /** A window position of equally long rows is a position of the rows. */
  lemma {:induction false} ColumnTotalWindow(rows: seq<seq<Option<real>>>, p: nat, n: nat, k: nat)
    requires p >= 1 && (forall c :: 0 <= c < |rows| ==> |rows[c]| == n)
    requires k < (if p < n then p else n)
    ensures ColumnTotal(WindowAll(rows, p), k) == ColumnTotal(rows, n - (if p < n then p else n) + k)
  {
    if |rows| > 0 {
      var init, last := rows[..|rows| - 1], rows[|rows| - 1];
      var wr := WindowAll(rows, p);
      WindowAllPrefix(p, rows);
      ColumnTotalWindow(init, p, n, k);
      ValOfWindow(last, p, n, k);
      assert wr[|rows| - 1] == Window(last, p);
    }
  }

  /** A present cell of a complete window. */
  lemma CellPresent(t: Table, p: nat, r: nat, x: string)
    requires WellFormedTable(t) && CompleteWindow(t, p)
    requires |t.values| - p <= r < |t.values| && x in t.segments
    ensures Cell(t, r, x).Some?
  {
  }

  /** The descendants of one of `xs` are among the descendants of them all. */
  lemma IterMember(hs: HierarchicalStructure, xs: seq<string>, c: nat, d: nat)
    requires c < |xs|
    ensures forall y :: y in DescendantsAt(hs, xs[c], d) ==> y in Iter(hs, xs, d)
  {
    assert xs == xs[..c] + ([xs[c]] + xs[c + 1..]);
    IterConcat(hs, xs[..c], [xs[c]] + xs[c + 1..], d);
    IterConcat(hs, [xs[c]], xs[c + 1..], d);
  }

  /** Cells of the names `names` are present in every row of the last `p`. */
  predicate PresentInWindow(t: Table, p: nat, names: seq<string>)
  {
    forall r, y :: 0 <= r < |t.values| && |t.values| - p <= r && y in names ==> Cell(t, r, y).Some?
  }

  /** A summed series over cells present in the window is complete there. */
  lemma WindowOfDescendantsPresent(t: Table, hs: HierarchicalStructure, x: string, depth: nat, p: nat)
    requires p >= 1 && PresentInWindow(t, p, DescendantsAt(hs, x, depth))
    ensures AllPresent(Window(DescendantSeries(t, hs, x, depth), p))
  {
    var s := DescendantSeries(t, hs, x, depth);
    var names := DescendantsAt(hs, x, depth);
    WindowIsSuffix(s, p);
    forall k | 0 <= k < |Window(s, p)|
      ensures Window(s, p)[k].Some?
    {
      var r := |s| - |Window(s, p)| + k;
      assert 0 <= r < |t.values| && |t.values| - p <= r;
      assert forall m :: 0 <= m < |names| ==> Cell(t, r, names[m]).Some? by {
        forall m | 0 <= m < |names|
          ensures Cell(t, r, names[m]).Some?
        {
          assert names[m] in names;
        }
      }
      SumOfSegmentsPresent(t, r, names);
      assert Window(s, p)[k] == s[r] == SumOfSegments(t, r, names);
    }
  }

  /** With the table holding exactly the current level and complete in the
      window, the descendants of any segment have present cells there. */
  lemma FamilyPresent(hs: HierarchicalStructure, t: Table, p: nat, dsrc: nat, dc: nat, i: nat)
    requires Valid(hs) && dsrc <= dc < |hs.levelNames|
    requires WellFormedTable(t) && SegmentSet(t) == LayerSet(hs, dc) && CompleteWindow(t, p)
    requires i < |Segments(hs, dsrc)|
    ensures PresentInWindow(t, p, DescendantsAt(hs, Segments(hs, dsrc)[i], dc - dsrc))
  {
    var src := Segments(hs, dsrc)[i];
    SegmentsOfLayer(hs, dsrc);
    var i0 := IndexOf(Layer(hs, dsrc), src);
    DescendantsInLayer(hs, dsrc, dc, i0);
    forall r, y | 0 <= r < |t.values| && |t.values| - p <= r && y in DescendantsAt(hs, src, dc - dsrc)
      ensures Cell(t, r, y).Some?
    {
      assert y in SegmentSet(t);
      CellPresent(t, p, r, y);
    }
  }

  /** At a window position, the series summed `a + b` levels below `src`
      is the total of the series summed `b` levels below its descendants
      `a` levels down. */
  lemma FamilyColumn(t: Table, hs: HierarchicalStructure, src: string, a: nat, b: nat, p: nat, k: nat)
    requires p >= 1 && PresentInWindow(t, p, DescendantsAt(hs, src, a + b))
    requires k < |Window(DescendantSeries(t, hs, src, a + b), p)|
    ensures Val(Window(DescendantSeries(t, hs, src, a + b), p), k) ==
              ColumnTotal(WindowAll(ChildSeries(t, hs, DescendantsAt(hs, src, a), b), p), k)
  {
    var n := |t.values|;
    var r := n - (if p < n then p else n) + k;
    ValOfWindow(DescendantSeries(t, hs, src, a + b), p, n, k);
    ColumnTotalWindow(ChildSeries(t, hs, DescendantsAt(hs, src, a), b), p, n, k);
    FamilyAt(t, hs, src, a, b, p, r);
    assert Val(DescendantSeries(t, hs, src, a + b), r) == ColumnTotal(ChildSeries(t, hs, DescendantsAt(hs, src, a), b), r);
  }

  /** At a timestamp where every descendant `a + b` levels below `src` is
      present, the source's value is the total of the children's. */
  lemma FamilyAt(t: Table, hs: HierarchicalStructure, src: string, a: nat, b: nat, p: nat, r: nat)
    requires PresentInWindow(t, p, DescendantsAt(hs, src, a + b)) && |t.values| - p <= r < |t.values|
    ensures Val(DescendantSeries(t, hs, src, a + b), r) == ColumnTotal(ChildSeries(t, hs, DescendantsAt(hs, src, a), b), r)
  {
    var xs := DescendantsAt(hs, src, a);
    IterAdd(hs, [src], a, b);
    ColumnOfDescendants(t, hs, xs, b, r);
    assert DescendantSeries(t, hs, src, a + b)[r] == SumOfSegments(t, r, Iter(hs, xs, b));
  }

  /** Each such descendant's series is aligned with the source's. */
  lemma FamilyChild(t: Table, hs: HierarchicalStructure, src: string, a: nat, b: nat, p: nat, c: nat)
    requires p >= 1 && PresentInWindow(t, p, DescendantsAt(hs, src, a + b))
    requires c < |DescendantsAt(hs, src, a)|
    ensures ChildAligned(p, ChildSeries(t, hs, DescendantsAt(hs, src, a), b)[c], DescendantSeries(t, hs, src, a + b))
  {
    var xs := DescendantsAt(hs, src, a);
    IterAdd(hs, [src], a, b);
    IterMember(hs, xs, c, b);
    WindowOfDescendantsPresent(t, hs, xs[c], b, p);
  }

  /** The descendants `a` levels below `src` add up to `src`, when all
      cells below them are present in the window. */
  lemma FamilySum(t: Table, hs: HierarchicalStructure, src: string, a: nat, b: nat, p: nat)
    requires p >= 1 && |t.values| >= 1 && PresentInWindow(t, p, DescendantsAt(hs, src, a + b))
    ensures ParentIsSumOfChildren(p, ChildSeries(t, hs, DescendantsAt(hs, src, a), b), DescendantSeries(t, hs, src, a + b))
  {
    var children := ChildSeries(t, hs, DescendantsAt(hs, src, a), b);
    var parent := DescendantSeries(t, hs, src, a + b);
    WindowOfDescendantsPresent(t, hs, src, a + b, p);
    forall c | 0 <= c < |children|
      ensures ChildAligned(p, children[c], parent)
    {
      FamilyChild(t, hs, src, a, b, p, c);
    }
    forall k | 0 <= k < |Window(parent, p)|
      ensures Val(Window(parent, p), k) == ColumnTotal(WindowAll(children, p), k)
    {
      FamilyColumn(t, hs, src, a, b, p, k);
    }
  }

  /** The target-level descendants of a source segment form an aligned
      family whose summed series add up, in the window, to the source's. */
  lemma FamilyIsSum(hs: HierarchicalStructure, t: Table, p: nat, dsrc: nat, dt: nat, dc: nat, i: nat)
    requires Valid(hs) && dsrc <= dt <= dc < |hs.levelNames| && p >= 1
    requires WellFormedTable(t) && SegmentSet(t) == LayerSet(hs, dc) && CompleteWindow(t, p)
    requires i < |Segments(hs, dsrc)|
    ensures var src := Segments(hs, dsrc)[i];
            ParentIsSumOfChildren(p, ChildSeries(t, hs, DescendantsAt(hs, src, dt - dsrc), dc - dt),
                                  DescendantSeries(t, hs, src, dc - dsrc))
  {
    FamilyPresent(hs, t, p, dsrc, dc, i);
    assert (dt - dsrc) + (dc - dt) == dc - dsrc;
    FamilySum(t, hs, Segments(hs, dsrc)[i], dt - dsrc, dc - dt, p);
  }

  // ---------------------------------------------------------------------
  // Columns of the proportion matrix

  /** Sum of the first `n` entries of column `i`. */
  function ColumnSum(m: SparseMatrix, i: nat, n: nat): real
  {
    if n == 0 then 0.0 else ColumnSum(m, i, n - 1) + m.Entry(n - 1, i)
  }

  /** A column whose entries are the terms of a filtered sum adds up to it. */
  lemma {:induction false} ColumnSumWhereIn(m: SparseMatrix, i: nat, ys: seq<string>, xs: seq<string>,
                                            s: Sharing, n: nat)
    requires n <= |ys|
    requires forall j :: 0 <= j < |ys| ==> m.Entry(j, i) == if ys[j] in xs then ShareOf(s, ys[j]) else 0.0
    ensures ColumnSum(m, i, n) == SumWhereIn(ys, xs, s, n)
  {
    if n > 0 {
      ColumnSumWhereIn(m, i, ys, xs, s, n - 1);
    }
  }

  /** The sharing context of source segment `i` at target depth `dt`. */
  function SourceSharing(hs: HierarchicalStructure, t: Table, pm: Method, p: nat, dsrc: nat, dt: nat, dc: nat, i: nat): Sharing
    requires dsrc <= dt <= dc && i < |Segments(hs, dsrc)|
  {
    Sharing(pm, p, t, hs, dc - dt, DescendantSeries(t, hs, Segments(hs, dsrc)[i], dc - dsrc))
  }

  /** One entry of a proportion matrix: the target's share where it descends
      from the source, 0 elsewhere. */
  lemma EntryIsShare(hs: HierarchicalStructure, t: Table, pm: Method, p: nat,
                     dsrc: nat, dt: nat, dc: nat, m: SparseMatrix, i: nat, j: nat)
    requires dsrc <= dt <= dc && IsProportionMatrix(hs, t, pm, p, dsrc, dt, dc, m)
    requires i < m.cols && j < m.rows
    ensures m.Entry(j, i) ==
              if Segments(hs, dt)[j] in DescendantsAt(hs, Segments(hs, dsrc)[i], dt - dsrc)
              then Share(pm, p, t, hs, dc - dt, DescendantSeries(t, hs, Segments(hs, dsrc)[i], dc - dsrc), Segments(hs, dt)[j])
              else 0.0
  {
  }

  /** Column `i` of `m` has a row per segment of `ys`, holding the share
      of that segment when it is one of `xs`, and 0 otherwise. */
  predicate ColumnOf(m: SparseMatrix, i: nat, ys: seq<string>, xs: seq<string>, s: Sharing)
  {
    && m.rows == |ys|
    && forall j :: 0 <= j < |ys| ==> m.Entry(j, i) == if ys[j] in xs then ShareOf(s, ys[j]) else 0.0
  }

  /** Column `i` of `m` holds, at each target row, the share of that target
      segment when it descends from source segment `i`, and 0 otherwise. */
  predicate ColumnOfShares(hs: HierarchicalStructure, t: Table, pm: Method, p: nat,
                           dsrc: nat, dt: nat, dc: nat, m: SparseMatrix, i: nat)
    requires dsrc <= dt <= dc && i < |Segments(hs, dsrc)|
  {
    ColumnOf(m, i, Segments(hs, dt), DescendantsAt(hs, Segments(hs, dsrc)[i], dt - dsrc),
             SourceSharing(hs, t, pm, p, dsrc, dt, dc, i))
  }

  /** Every column of a proportion matrix is a column of shares. */
  lemma ProportionColumn(hs: HierarchicalStructure, t: Table, pm: Method, p: nat,
                         dsrc: nat, dt: nat, dc: nat, m: SparseMatrix, i: nat)
    requires dsrc <= dt <= dc && IsProportionMatrix(hs, t, pm, p, dsrc, dt, dc, m) && i < m.cols
    ensures i < |Segments(hs, dsrc)| && ColumnOfShares(hs, t, pm, p, dsrc, dt, dc, m, i)
  {
    forall j | 0 <= j < |Segments(hs, dt)|
      ensures m.Entry(j, i) == if Segments(hs, dt)[j] in DescendantsAt(hs, Segments(hs, dsrc)[i], dt - dsrc)
                               then ShareOf(SourceSharing(hs, t, pm, p, dsrc, dt, dc, i), Segments(hs, dt)[j])
                               else 0.0
    {
      EntryIsShare(hs, t, pm, p, dsrc, dt, dc, m, i, j);
    }
  }

  /** The shares of a list of segments add up to their proportions' sum. */
  lemma {:induction false} SumOfShares(xs: seq<string>, s: Sharing)
    requires forall c :: 0 <= c < |xs| ==> EstimateDefined(s.pm, s.p, ChildSeries(s.t, s.hs, xs, s.depth)[c], s.parent)
    ensures SumBy(xs, s) == SumOfEstimates(s.pm, s.p, ChildSeries(s.t, s.hs, xs, s.depth), s.parent)
  {
    if |xs| > 0 {
      var init := xs[..|xs| - 1];
      ChildSeriesPrefix(s.t, s.hs, xs, s.depth);
      assert forall c :: 0 <= c < |init| ==>
        ChildSeries(s.t, s.hs, init, s.depth)[c] == ChildSeries(s.t, s.hs, xs, s.depth)[c];
      SumOfShares(init, s);
    }
  }

  /** What the hierarchy and the estimator give for the descendants `xs` of
      a source segment among the target segments `ys`: both lists are free
      of repeats, `xs` lies within `ys`, and each has a defined proportion
      within the source. */
  predicate SharesFamily(ys: seq<string>, xs: seq<string>, s: Sharing)
  {
    var children := ChildSeries(s.t, s.hs, xs, s.depth);
    && NoDup(ys) && NoDup(xs)
    && (forall x :: x in xs ==> x in ys)
    && (forall c :: 0 <= c < |children| ==> EstimateDefined(s.pm, s.p, children[c], s.parent))
  }

  /** `SharesFamily` for the target-level descendants of source segment `i`,
      whose proportions add up to one. */
  predicate FamilyShares(hs: HierarchicalStructure, t: Table, pm: Method, p: nat, dsrc: nat, dt: nat, dc: nat, i: nat)
    requires dsrc <= dt <= dc && i < |Segments(hs, dsrc)|
  {
    var xs := DescendantsAt(hs, Segments(hs, dsrc)[i], dt - dsrc);
    var s := SourceSharing(hs, t, pm, p, dsrc, dt, dc, i);
    && SharesFamily(Segments(hs, dt), xs, s)
    && SumOfEstimates(s.pm, s.p, ChildSeries(s.t, s.hs, xs, s.depth), s.parent) == 1.0
  }

  /** The target-level descendants of source segment `i` are distinct
      names of the sorted, duplicate-free target level. */
  lemma FamilyNames(hs: HierarchicalStructure, dsrc: nat, dt: nat, i: nat)
    requires Valid(hs) && dsrc <= dt < |hs.levelNames| && i < |Segments(hs, dsrc)|
    ensures NoDup(Segments(hs, dt)) && NoDup(DescendantsAt(hs, Segments(hs, dsrc)[i], dt - dsrc))
    ensures forall x :: x in DescendantsAt(hs, Segments(hs, dsrc)[i], dt - dsrc) ==> x in Segments(hs, dt)
  {
    SegmentsOfLayer(hs, dsrc);
    SegmentsOfLayer(hs, dt);
    DescendantsInLayer(hs, dsrc, dt, IndexOf(Layer(hs, dsrc), Segments(hs, dsrc)[i]));
  }

  /** The estimates of that family, over a usable source series, are
      defined and add up to one. */
  lemma FamilyEstimates(hs: HierarchicalStructure, t: Table, pm: Method, p: nat, dsrc: nat, dt: nat, dc: nat, i: nat,
                        parent: seq<Option<real>>)
    requires dsrc <= dt <= dc && p >= 1 && i < |Segments(hs, dsrc)|
    requires parent == DescendantSeries(t, hs, Segments(hs, dsrc)[i], dc - dsrc) && UsableParent(pm, p, parent)
    requires Valid(hs) && dc < |hs.levelNames|
    requires WellFormedTable(t) && SegmentSet(t) == LayerSet(hs, dc) && CompleteWindow(t, p)
    ensures var children := ChildSeries(t, hs, DescendantsAt(hs, Segments(hs, dsrc)[i], dt - dsrc), dc - dt);
            && (forall c :: 0 <= c < |children| ==> EstimateDefined(pm, p, children[c], parent))
            && SumOfEstimates(pm, p, children, parent) == 1.0
  {
    FamilyIsSum(hs, t, p, dsrc, dt, dc, i);
    ProportionsSumToOne(pm, p, ChildSeries(t, hs, DescendantsAt(hs, Segments(hs, dsrc)[i], dt - dsrc), dc - dt), parent);
  }

  /** The family facts hold on a valid hierarchy, a table of its current
      level complete in the window, and a usable source series. */
  lemma ColumnSetup(hs: HierarchicalStructure, t: Table, pm: Method, p: nat, dsrc: nat, dt: nat, dc: nat, i: nat,
                    parent: seq<Option<real>>)
    requires dsrc <= dt <= dc && p >= 1 && i < |Segments(hs, dsrc)|
    requires parent == DescendantSeries(t, hs, Segments(hs, dsrc)[i], dc - dsrc) && UsableParent(pm, p, parent)
    requires Valid(hs) && dc < |hs.levelNames|
    requires WellFormedTable(t) && SegmentSet(t) == LayerSet(hs, dc) && CompleteWindow(t, p)
    ensures FamilyShares(hs, t, pm, p, dsrc, dt, dc, i)
  {
    FamilyNames(hs, dsrc, dt, i);
    FamilyEstimates(hs, t, pm, p, dsrc, dt, dc, i, parent);
    assert SourceSharing(hs, t, pm, p, dsrc, dt, dc, i) == Sharing(pm, p, t, hs, dc - dt, parent);
  }

  /** A column of shares over such a family sums to the family's proportions. */
  lemma SharesColumn(m: SparseMatrix, i: nat, ys: seq<string>, xs: seq<string>, s: Sharing)
    requires ColumnOf(m, i, ys, xs, s) && SharesFamily(ys, xs, s)
    ensures ColumnSum(m, i, m.rows) == SumOfEstimates(s.pm, s.p, ChildSeries(s.t, s.hs, xs, s.depth), s.parent)
  {
    ColumnSumWhereIn(m, i, ys, xs, s, m.rows);
    SumWhereInReorder(ys, xs, s);
    SumOfShares(xs, s);
  }

  /** A column of shares over the target-level descendants of source
      segment `i` sums to one. */
  lemma ColumnFromFacts(hs: HierarchicalStructure, t: Table, pm: Method, p: nat,
                        dsrc: nat, dt: nat, dc: nat, m: SparseMatrix, i: nat)
    requires dsrc <= dt <= dc && i < |Segments(hs, dsrc)|
    requires ColumnOfShares(hs, t, pm, p, dsrc, dt, dc, m, i)
    requires FamilyShares(hs, t, pm, p, dsrc, dt, dc, i)
    ensures ColumnSum(m, i, m.rows) == 1.0
  {
    assert ColumnOf(m, i, Segments(hs, dt), DescendantsAt(hs, Segments(hs, dsrc)[i], dt - dsrc),
                 SourceSharing(hs, t, pm, p, dsrc, dt, dc, i));
    assert SharesFamily(Segments(hs, dt), DescendantsAt(hs, Segments(hs, dsrc)[i], dt - dsrc),
                 SourceSharing(hs, t, pm, p, dsrc, dt, dc, i));
    SharesColumn(m, i, Segments(hs, dt), DescendantsAt(hs, Segments(hs, dsrc)[i], dt - dsrc),
                 SourceSharing(hs, t, pm, p, dsrc, dt, dc, i));
  }

  /** Every column of a proportion matrix sums to one when the current-level
      table is complete in the window and the source segment's series is
      usable by the estimator. */
  lemma ColumnSumsToOne(hs: HierarchicalStructure, t: Table, pm: Method, p: nat,
                        dsrc: nat, dt: nat, dc: nat, m: SparseMatrix, i: nat)
    requires Valid(hs) && dsrc <= dt <= dc < |hs.levelNames| && p >= 1
    requires WellFormedTable(t) && SegmentSet(t) == LayerSet(hs, dc) && CompleteWindow(t, p)
    requires IsProportionMatrix(hs, t, pm, p, dsrc, dt, dc, m) && i < m.cols
    requires UsableParent(pm, p, DescendantSeries(t, hs, Segments(hs, dsrc)[i], dc - dsrc))
    ensures ColumnSum(m, i, m.rows) == 1.0
  {
    ProportionColumn(hs, t, pm, p, dsrc, dt, dc, m, i);
    ColumnSetup(hs, t, pm, p, dsrc, dt, dc, i, DescendantSeries(t, hs, Segments(hs, dsrc)[i], dc - dsrc));
    ColumnFromFacts(hs, t, pm, p, dsrc, dt, dc, m, i);
  }

  /** Between two distinct levels, `fit` succeeds with a proportion matrix. */
  lemma FitIsProportionMatrix(rec: TopDownReconciler, ds: Dataset)
    requires ValidDataset(ds) && FitEstimable(rec, ds) && ds.hierarchy.Some?
    requires rec.sourceLevel in ds.hierarchy.value.levelNames && rec.targetLevel in ds.hierarchy.value.levelNames
    requires var hs := ds.hierarchy.value;
             IndexOf(hs.levelNames, rec.sourceLevel) < IndexOf(hs.levelNames, rec.targetLevel) <=
               IndexOf(hs.levelNames, ds.currentLevel.value)
    ensures Fit(rec, ds).Ok? && Fit(rec, ds).value.mapping.Some?
    ensures var hs := ds.hierarchy.value;
            IsProportionMatrix(hs, ds.table, rec.proportionsMethod, rec.periodLength,
                               IndexOf(hs.levelNames, rec.sourceLevel), IndexOf(hs.levelNames, rec.targetLevel),
                               IndexOf(hs.levelNames, ds.currentLevel.value), Fit(rec, ds).value.mapping.value)
  {
  }

  /** The series of source segment `i` of `rec`, summed up from the
      dataset's current level. */
  function SourceSeries(rec: TopDownReconciler, ds: Dataset, i: nat): seq<Option<real>>
    requires ds.hierarchy.Some? && ds.currentLevel.Some?
    requires rec.sourceLevel in ds.hierarchy.value.levelNames && ds.currentLevel.value in ds.hierarchy.value.levelNames
    requires IndexOf(ds.hierarchy.value.levelNames, rec.sourceLevel) <= IndexOf(ds.hierarchy.value.levelNames, ds.currentLevel.value)
    requires i < |Segments(ds.hierarchy.value, IndexOf(ds.hierarchy.value.levelNames, rec.sourceLevel))|
  {
    var hs := ds.hierarchy.value;
    var dsrc := IndexOf(hs.levelNames, rec.sourceLevel);
    DescendantSeries(ds.table, hs, Segments(hs, dsrc)[i], IndexOf(hs.levelNames, ds.currentLevel.value) - dsrc)
  }

  /** Source segment `i` of `rec` exists, and its series summed up from the
      current level is one the estimator can share out. */
  predicate UsableSource(rec: TopDownReconciler, ds: Dataset, i: nat)
    requires ValidDataset(ds) && ds.hierarchy.Some? && rec.sourceLevel in ds.hierarchy.value.levelNames
    requires rec.periodLength >= 1
  {
    var hs := ds.hierarchy.value;
    && IndexOf(hs.levelNames, rec.sourceLevel) <= IndexOf(hs.levelNames, ds.currentLevel.value)
    && i < |Segments(hs, IndexOf(hs.levelNames, rec.sourceLevel))|
    && UsableParent(rec.proportionsMethod, rec.periodLength, SourceSeries(rec, ds, i))
  }

  /** The family facts for `rec`'s levels over the dataset's table. */
  lemma DatasetFamily(rec: TopDownReconciler, ds: Dataset, i: nat)
    requires ValidDataset(ds) && ds.hierarchy.Some?
    requires rec.sourceLevel in ds.hierarchy.value.levelNames && rec.targetLevel in ds.hierarchy.value.levelNames
    requires var hs := ds.hierarchy.value;
             IndexOf(hs.levelNames, rec.sourceLevel) < IndexOf(hs.levelNames, rec.targetLevel) <=
               IndexOf(hs.levelNames, ds.currentLevel.value)
    requires rec.periodLength >= 1 && CompleteWindow(ds.table, rec.periodLength) && UsableSource(rec, ds, i)
    ensures var hs := ds.hierarchy.value;
            var dsrc := IndexOf(hs.levelNames, rec.sourceLevel);
            && i < |Segments(hs, dsrc)|
            && FamilyShares(hs, ds.table, rec.proportionsMethod, rec.periodLength, dsrc,
                            IndexOf(hs.levelNames, rec.targetLevel), IndexOf(hs.levelNames, ds.currentLevel.value), i)
  {
    var hs := ds.hierarchy.value;
    var dsrc := IndexOf(hs.levelNames, rec.sourceLevel);
    var dt := IndexOf(hs.levelNames, rec.targetLevel);
    var dc := IndexOf(hs.levelNames, ds.currentLevel.value);
    ColumnSetup(hs, ds.table, rec.proportionsMethod, rec.periodLength, dsrc, dt, dc, i, SourceSeries(rec, ds, i));
  }

  /** A column of shares for `rec`'s levels over the dataset's table sums
      to one. */
  lemma DatasetColumnSumsToOne(rec: TopDownReconciler, ds: Dataset, m: SparseMatrix, i: nat)
    requires ValidDataset(ds) && ds.hierarchy.Some?
    requires rec.sourceLevel in ds.hierarchy.value.levelNames && rec.targetLevel in ds.hierarchy.value.levelNames
    requires var hs := ds.hierarchy.value;
             IndexOf(hs.levelNames, rec.sourceLevel) < IndexOf(hs.levelNames, rec.targetLevel) <=
               IndexOf(hs.levelNames, ds.currentLevel.value)
    requires rec.periodLength >= 1 && CompleteWindow(ds.table, rec.periodLength) && UsableSource(rec, ds, i)
    requires var hs := ds.hierarchy.value;
             ColumnOfShares(hs, ds.table, rec.proportionsMethod, rec.periodLength,
                            IndexOf(hs.levelNames, rec.sourceLevel), IndexOf(hs.levelNames, rec.targetLevel),
                            IndexOf(hs.levelNames, ds.currentLevel.value), m, i)
    ensures ColumnSum(m, i, m.rows) == 1.0
  {
    var hs := ds.hierarchy.value;
    DatasetFamily(rec, ds, i);
    ColumnFromFacts(hs, ds.table, rec.proportionsMethod, rec.periodLength, IndexOf(hs.levelNames, rec.sourceLevel),
                    IndexOf(hs.levelNames, rec.targetLevel), IndexOf(hs.levelNames, ds.currentLevel.value), m, i);
  }

  /** Each column of the mapping `fit` builds between two distinct levels
      sums to one, given a complete window and a usable source series. */
  lemma FitColumnsSumToOne(rec: TopDownReconciler, ds: Dataset, i: nat)
    requires ValidDataset(ds) && FitEstimable(rec, ds) && ds.hierarchy.Some?
    requires rec.sourceLevel in ds.hierarchy.value.levelNames && rec.targetLevel in ds.hierarchy.value.levelNames
    requires var hs := ds.hierarchy.value;
             IndexOf(hs.levelNames, rec.sourceLevel) < IndexOf(hs.levelNames, rec.targetLevel) <=
               IndexOf(hs.levelNames, ds.currentLevel.value)
    requires rec.periodLength >= 1 && CompleteWindow(ds.table, rec.periodLength) && UsableSource(rec, ds, i)
    ensures Fit(rec, ds).Ok?
    ensures var m := Fit(rec, ds).value.mapping.value;
            i < m.cols && ColumnSum(m, i, m.rows) == 1.0
  {
    var hs := ds.hierarchy.value;
    var m := Fit(rec, ds).value.mapping.value;
    FitIsProportionMatrix(rec, ds);
    ProportionColumn(hs, ds.table, rec.proportionsMethod, rec.periodLength, IndexOf(hs.levelNames, rec.sourceLevel),
                     IndexOf(hs.levelNames, rec.targetLevel), IndexOf(hs.levelNames, ds.currentLevel.value), m, i);
    DatasetColumnSumsToOne(rec, ds, m, i);
  }


}
