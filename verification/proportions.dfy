/** The two estimators of a child's share of its parent over the most recent
    `period_length` timestamps, with missing values left out of each mean. */
module Proportions {
  import opened Wrappers

  datatype Method = AHP | PHA

  /** The last `p` elements, or all of them when there are fewer (`xs[-p:]`). */
  function Window<T>(xs: seq<T>, p: nat): (r: seq<T>)
    requires p >= 1
    ensures |r| == if p < |xs| then p else |xs|
  {
    if p < |xs| then xs[|xs| - p..] else xs
  }

  /** The window is the suffix of that length, so its elements are the most
      recent ones and keep their order. */
  lemma WindowIsSuffix<T>(xs: seq<T>, p: nat)
    requires p >= 1
    ensures Window(xs, p) == xs[|xs| - |Window(xs, p)|..]
    ensures forall k :: 0 <= k < |Window(xs, p)| ==> Window(xs, p)[k] == xs[|xs| - |Window(xs, p)| + k]
  {
  }

  /** The value at `k`, or 0 where it is missing or out of range. */
  function Val(xs: seq<Option<real>>, k: nat): real
  {
    if k < |xs| && xs[k].Some? then xs[k].value else 0.0
  }

  /** Sum of the present values among the first `n`. */
  function PrefixSum(xs: seq<Option<real>>, n: nat): real
  {
    if n == 0 then 0.0 else PrefixSum(xs, n - 1) + Val(xs, n - 1)
  }

  /** Number of present values among the first `n`. */
  function PrefixCount(xs: seq<Option<real>>, n: nat): nat
    requires n <= |xs|
  {
    if n == 0 then 0 else PrefixCount(xs, n - 1) + (if xs[n - 1].Some? then 1 else 0)
  }

  function SumPresent(xs: seq<Option<real>>): real
  {
    PrefixSum(xs, |xs|)
  }

  function CountPresent(xs: seq<Option<real>>): nat
  {
    PrefixCount(xs, |xs|)
  }

  /** `np.nanmean`: the mean of the present values. */
  function NanMean(xs: seq<Option<real>>): real
    requires CountPresent(xs) > 0
  {
    SumPresent(xs) / (CountPresent(xs) as real)
  }

  predicate AllPresent(xs: seq<Option<real>>)
  {
    forall k :: 0 <= k < |xs| ==> xs[k].Some?
  }

  predicate NonzeroWherePresent(xs: seq<Option<real>>)
  {
    forall k :: 0 <= k < |xs| && xs[k].Some? ==> xs[k].value != 0.0
  }

  /** The child value `t` is `c` times the parent value `s`. */
  predicate Proportional(t: Option<real>, s: Option<real>, c: real)
  {
    s.Some? && t == Some(c * s.value)
  }

  /** Per-timestamp child/parent ratios as `nanmean` sees them: present
      where both values are present and the parent is nonzero, missing
      where either value is missing or the parent is zero. A zero over a
      zero is NaN in floating point, which `nanmean` skips; a nonzero
      child over a zero parent is infinite, and `NoInfiniteRatio` rules
      it out. */
  function Ratios(target: seq<Option<real>>, source: seq<Option<real>>): (r: seq<Option<real>>)
    requires |target| == |source|
    ensures |r| == |target|
    ensures forall k :: 0 <= k < |r| ==>
              (r[k].Some? <==> target[k].Some? && source[k].Some? && source[k].value != 0.0)
  {
    seq(|target|, k requires 0 <= k < |target| =>
      if target[k].Some? && source[k].Some? && source[k].value != 0.0
      then Some(target[k].value / source[k].value) else None)
  }

  /** Each present ratio is the factor between the child and the parent. */
  lemma RatioProportional(target: seq<Option<real>>, source: seq<Option<real>>, k: nat)
    requires |target| == |source|
    requires k < |target| && Ratios(target, source)[k].Some?
    ensures Proportional(target[k], source[k], Ratios(target, source)[k].value)
  {
    QuotientProportional(target[k], source[k]);
  }

  /** No timestamp divides a present nonzero child by a zero parent. */
  predicate NoInfiniteRatio(target: seq<Option<real>>, source: seq<Option<real>>)
    requires |target| == |source|
  {
    forall k :: 0 <= k < |target| && target[k].Some? && source[k].Some? && source[k].value == 0.0 ==>
      target[k].value == 0.0
  }

  /** AHP is finite when the aligned series have no infinite ratio in the
      window and at least one ratio `nanmean` does not skip. */
  predicate AhpDefined(p: nat, target: seq<Option<real>>, source: seq<Option<real>>)
  {
    && p >= 1
    && |target| == |source|
    && NoInfiniteRatio(Window(target, p), Window(source, p))
    && CountPresent(Ratios(Window(target, p), Window(source, p))) > 0
  }

  /** `_estimate_ahp_proportion`: mean of the per-timestamp ratios. */
  function Ahp(p: nat, target: seq<Option<real>>, source: seq<Option<real>>): real
    requires AhpDefined(p, target, source)
  {
    NanMean(Ratios(Window(target, p), Window(source, p)))
  }

  /** PHA is defined when both windows hold a value and the parent mean is nonzero. */
  predicate PhaDefined(p: nat, target: seq<Option<real>>, source: seq<Option<real>>)
  {
    && p >= 1
    && CountPresent(Window(target, p)) > 0
    && CountPresent(Window(source, p)) > 0
    && NanMean(Window(source, p)) != 0.0
  }

  /** `_estimate_pha_proportion`: mean of the child over mean of the parent. */
  function Pha(p: nat, target: seq<Option<real>>, source: seq<Option<real>>): real
    requires PhaDefined(p, target, source)
  {
    NanMean(Window(target, p)) / NanMean(Window(source, p))
  }

  predicate EstimateDefined(m: Method, p: nat, target: seq<Option<real>>, source: seq<Option<real>>)
  {
    match m
    case AHP => AhpDefined(p, target, source)
    case PHA => PhaDefined(p, target, source)
  }

  /** The estimator the reconciler selected at construction. */
  function Estimate(m: Method, p: nat, target: seq<Option<real>>, source: seq<Option<real>>): real
    requires EstimateDefined(m, p, target, source)
  {
    match m
    case AHP => Ahp(p, target, source)
    case PHA => Pha(p, target, source)
  }

  /** Only the window matters: series that agree on their last `period`
      values (and, for AHP, have equal lengths) get the same estimate,
      whatever came before and whatever the period is called. */
  lemma EstimateOfWindow(m: Method, p: nat, target: seq<Option<real>>, source: seq<Option<real>>,
                         q: nat, target': seq<Option<real>>, source': seq<Option<real>>)
    requires EstimateDefined(m, p, target, source) && q >= 1
    requires Window(target', q) == Window(target, p) && Window(source', q) == Window(source, p)
    requires m == AHP ==> |target'| == |source'|
    ensures EstimateDefined(m, q, target', source')
    ensures Estimate(m, q, target', source') == Estimate(m, p, target, source)
  {
  }

  // ---------------------------------------------------------------------
  // Real arithmetic steps, stated once so the proofs below stay linear

  lemma MulDivCancel(a: real, n: real)
    requires n != 0.0
    ensures (a * n) / n == a
  {
  }

  lemma DivMulCancel(a: real, v: real)
    requires v != 0.0
    ensures (a / v) * v == a
  {
  }

  lemma QuotientProportional(t: Option<real>, s: Option<real>)
    requires t.Some? && s.Some? && s.value != 0.0
    ensures Proportional(t, s, t.value / s.value)
  {
    DivMulCancel(t.value, s.value);
  }

  lemma MulCancel(a: real, b: real, v: real)
    requires v != 0.0 && a * v == b * v
    ensures a == b
  {
    MulDivCancel(a, v);
    MulDivCancel(b, v);
  }

  lemma DivDivCancel(a: real, s: real, n: real)
    requires n != 0.0 && s != 0.0
    ensures (a / n) / (s / n) == a / s
  {
  }

  lemma ScaledQuotient(c: real, s: real, n: real)
    requires n != 0.0 && s != 0.0
    ensures ((c * s) / n) / (s / n) == c
  {
    DivDivCancel(c * s, s, n);
    MulDivCancel(c, s);
  }

  lemma RatioOf(t: Option<real>, s: Option<real>, c: real)
    requires Proportional(t, s, c) && s.value != 0.0
    ensures t.value / s.value == c
  {
    MulDivCancel(c, s.value);
  }

  lemma DivSelf(v: real)
    requires v != 0.0
    ensures v / v == 1.0
  {
  }

  lemma DivAdd(a: real, b: real, r: real, d: real)
    requires d != 0.0 && r == a + b
    ensures a / d + b / d == r / d
  {
  }

  lemma QuotientOf(r: real, v: real, t: real)
    requires v != 0.0 && r * v == t
    ensures r == t / v
  {
    MulDivCancel(r, v);
  }

  // ---------------------------------------------------------------------
  // Sums of present values

  lemma {:induction false} PrefixCountAllPresent(xs: seq<Option<real>>, n: nat)
    requires AllPresent(xs) && n <= |xs|
    ensures PrefixCount(xs, n) == n
  {
    if n > 0 {
      PrefixCountAllPresent(xs, n - 1);
    }
  }

  lemma {:induction false} PrefixSumConstant(xs: seq<Option<real>>, n: nat, c: real)
    requires n <= |xs|
    requires forall k :: 0 <= k < |xs| && xs[k].Some? ==> xs[k].value == c
    ensures PrefixSum(xs, n) == c * (PrefixCount(xs, n) as real)
  {
    if n > 0 {
      PrefixSumConstant(xs, n - 1, c);
    }
  }

  lemma {:induction false} PrefixSumScaled(xs: seq<Option<real>>, ys: seq<Option<real>>, n: nat, c: real)
    requires n <= |xs| == |ys|
    requires forall k :: 0 <= k < |xs| ==> (xs[k].Some? <==> ys[k].Some?)
    requires forall k :: 0 <= k < |xs| && xs[k].Some? ==> Proportional(xs[k], ys[k], c)
    ensures PrefixSum(xs, n) == c * PrefixSum(ys, n)
    ensures PrefixCount(xs, n) == PrefixCount(ys, n)
  {
    if n > 0 {
      PrefixSumScaled(xs, ys, n - 1, c);
    }
  }

  /** The mean of values that all equal `c` is `c`. */
  lemma NanMeanConstant(xs: seq<Option<real>>, c: real)
    requires CountPresent(xs) > 0
    requires forall k :: 0 <= k < |xs| && xs[k].Some? ==> xs[k].value == c
    ensures NanMean(xs) == c
  {
    var n := CountPresent(xs) as real;
    PrefixSumConstant(xs, |xs|, c);
    assert SumPresent(xs) == c * n;
    MulDivCancel(c, n);
    assert NanMean(xs) == (c * n) / n;
  }

  /** A present value among the first `n` makes the count positive. */
  lemma {:induction false} PrefixCountPositive(xs: seq<Option<real>>, n: nat, k: nat)
    requires k < n <= |xs| && xs[k].Some?
    ensures PrefixCount(xs, n) > 0
  {
    if k < n - 1 {
      PrefixCountPositive(xs, n - 1, k);
    }
  }

  /** A nonzero sum has a nonzero value among the first `n`. */
  lemma {:induction false} PrefixSumNonzero(xs: seq<Option<real>>, n: nat) returns (k: nat)
    requires n <= |xs| && PrefixSum(xs, n) != 0.0
    ensures k < n && Val(xs, k) != 0.0
  {
    if Val(xs, n - 1) != 0.0 {
      k := n - 1;
    } else {
      k := PrefixSumNonzero(xs, n - 1);
    }
  }

  lemma ConstantRatioAhp(p: nat, c: real, target: seq<Option<real>>, source: seq<Option<real>>)
    requires p >= 1 && |target| == |source|
    requires forall k :: 0 <= k < |Window(target, p)| ==>
               Proportional(Window(target, p)[k], Window(source, p)[k], c)
    requires exists k :: 0 <= k < |Window(source, p)| && Val(Window(source, p), k) != 0.0
    ensures AhpDefined(p, target, source) && Ahp(p, target, source) == c
  {
    var wt, ws := Window(target, p), Window(source, p);
    var r := Ratios(wt, ws);
    var j :| 0 <= j < |ws| && Val(ws, j) != 0.0;
    assert r[j].Some?;
    PrefixCountPositive(r, |r|, j);
    forall k | 0 <= k < |wt| && wt[k].Some? && ws[k].Some? && ws[k].value == 0.0
      ensures wt[k].value == 0.0
    {
      assert Proportional(wt[k], ws[k], c);
    }
    forall k | 0 <= k < |r| && r[k].Some?
      ensures r[k].value == c
    {
      RatioOf(wt[k], ws[k], c);
    }
    NanMeanConstant(r, c);
  }

  lemma ConstantRatioPha(p: nat, c: real, target: seq<Option<real>>, source: seq<Option<real>>)
    requires p >= 1 && |target| == |source|
    requires SumPresent(Window(source, p)) != 0.0
    requires forall k :: 0 <= k < |Window(target, p)| ==>
               Proportional(Window(target, p)[k], Window(source, p)[k], c)
    ensures PhaDefined(p, target, source) && Pha(p, target, source) == c
  {
    MeansProportional(Window(target, p), Window(source, p), c);
  }

  /** Series proportional at every timestamp have means in the same ratio. */
  lemma MeansProportional(wt: seq<Option<real>>, ws: seq<Option<real>>, c: real)
    requires |wt| == |ws| && SumPresent(ws) != 0.0
    requires forall k :: 0 <= k < |wt| ==> Proportional(wt[k], ws[k], c)
    ensures CountPresent(wt) > 0 && CountPresent(ws) > 0 && NanMean(ws) != 0.0
    ensures NanMean(wt) / NanMean(ws) == c
  {
    assert AllPresent(ws) by {
      forall k | 0 <= k < |ws|
        ensures ws[k].Some?
      {
        assert Proportional(wt[k], ws[k], c);
      }
    }
    var j := PrefixSumNonzero(ws, |ws|);
    PrefixCountAllPresent(ws, |ws|);
    PrefixSumScaled(wt, ws, |ws|, c);
    var n, s := |ws| as real, SumPresent(ws);
    assert NanMean(ws) == s / n;
    assert NanMean(wt) == (c * s) / n;
    ScaledQuotient(c, s, n);
  }

  /** Constant ratio: a child that is `c` times its parent at every
      timestamp of the window gets proportion `c` from AHP as soon as one
      parent value is nonzero, and from PHA as soon as the parent's sum is. */
  lemma ConstantRatio(p: nat, c: real, target: seq<Option<real>>, source: seq<Option<real>>)
    requires p >= 1 && |target| == |source|
    requires forall k :: 0 <= k < |Window(target, p)| ==>
               Proportional(Window(target, p)[k], Window(source, p)[k], c)
    ensures (exists k :: 0 <= k < |Window(source, p)| && Val(Window(source, p), k) != 0.0) ==>
              AhpDefined(p, target, source) && Ahp(p, target, source) == c
    ensures SumPresent(Window(source, p)) != 0.0 ==> PhaDefined(p, target, source) && Pha(p, target, source) == c
  {
    if exists k :: 0 <= k < |Window(source, p)| && Val(Window(source, p), k) != 0.0 {
      ConstantRatioAhp(p, c, target, source);
    }
    if SumPresent(Window(source, p)) != 0.0 {
      ConstantRatioPha(p, c, target, source);
    }
  }

  /** The mean of present values that all lie in `[lo, hi]` lies there too. */
  lemma NanMeanBounds(xs: seq<Option<real>>, lo: real, hi: real)
    requires CountPresent(xs) > 0
    requires forall k :: 0 <= k < |xs| && xs[k].Some? ==> lo <= xs[k].value <= hi
    ensures lo <= NanMean(xs) <= hi
  {
    var n := CountPresent(xs) as real;
    PrefixSumAtLeast(xs, |xs|, lo);
    PrefixSumAtMost(xs, |xs|, hi);
    BoundsOfMean(SumPresent(xs), n, lo, hi);
  }

  /** Present values of at least `lo` sum to at least `lo` per value. */
  lemma {:induction false} PrefixSumAtLeast(xs: seq<Option<real>>, n: nat, lo: real)
    requires n <= |xs|
    requires forall k :: 0 <= k < |xs| && xs[k].Some? ==> lo <= xs[k].value
    ensures lo * (PrefixCount(xs, n) as real) <= PrefixSum(xs, n)
  {
    if n > 0 {
      PrefixSumAtLeast(xs, n - 1, lo);
      if xs[n - 1].Some? {
        LowerStep(lo, PrefixCount(xs, n - 1) as real, PrefixSum(xs, n - 1), xs[n - 1].value);
      }
    }
  }

  /** Present values of at most `hi` sum to at most `hi` per value. */
  lemma {:induction false} PrefixSumAtMost(xs: seq<Option<real>>, n: nat, hi: real)
    requires n <= |xs|
    requires forall k :: 0 <= k < |xs| && xs[k].Some? ==> xs[k].value <= hi
    ensures PrefixSum(xs, n) <= hi * (PrefixCount(xs, n) as real)
  {
    if n > 0 {
      PrefixSumAtMost(xs, n - 1, hi);
      if xs[n - 1].Some? {
        LowerStep(-hi, PrefixCount(xs, n - 1) as real, -PrefixSum(xs, n - 1), -xs[n - 1].value);
      }
    }
  }

  lemma LowerStep(lo: real, c: real, s: real, v: real)
    requires lo * c <= s && lo <= v
    ensures lo * (c + 1.0) <= s + v
  {
  }

  lemma BoundsOfMean(s: real, n: real, lo: real, hi: real)
    requires n > 0.0 && lo * n <= s <= hi * n
    ensures lo <= s / n <= hi
  {
    MulDivCancel(lo, n);
    MulDivCancel(hi, n);
    DivMonotone(lo * n, s, n);
    DivMonotone(s, hi * n, n);
  }

  lemma DivMonotone(a: real, b: real, n: real)
    requires n > 0.0 && a <= b
    ensures a / n <= b / n
  {
  }

  /** For a child that is never negative and never above its parent, AHP
      lies between zero and one. */
  lemma AhpBetweenZeroAndOne(p: nat, target: seq<Option<real>>, source: seq<Option<real>>)
    requires AhpDefined(p, target, source)
    requires forall k :: 0 <= k < |Window(target, p)| && Window(target, p)[k].Some? && Window(source, p)[k].Some? ==>
               0.0 <= Window(target, p)[k].value <= Window(source, p)[k].value
    ensures 0.0 <= Ahp(p, target, source) <= 1.0
  {
    var wt, ws := Window(target, p), Window(source, p);
    var r := Ratios(wt, ws);
    forall k | 0 <= k < |r| && r[k].Some?
      ensures 0.0 <= r[k].value <= 1.0
    {
      UnitQuotient(wt[k].value, ws[k].value);
    }
    NanMeanBounds(r, 0.0, 1.0);
  }

  lemma UnitQuotient(t: real, s: real)
    requires 0.0 <= t <= s && s != 0.0
    ensures 0.0 <= t / s <= 1.0
  {
    DivMonotone(0.0, t, s);
    DivMonotone(t, s, s);
    DivSelf(s);
  }

  // ---------------------------------------------------------------------
  // Proportions of children that add up to their parent

  /** Sum over the rows of their first `n` present values. */
  function RowSums(rows: seq<seq<Option<real>>>, n: nat): real
  {
    if |rows| == 0 then 0.0 else RowSums(rows[..|rows| - 1], n) + PrefixSum(rows[|rows| - 1], n)
  }

  /** Sum over the rows of the value at timestamp `k`. */
  function ColumnTotal(rows: seq<seq<Option<real>>>, k: nat): real
  {
    if |rows| == 0 then 0.0 else ColumnTotal(rows[..|rows| - 1], k) + Val(rows[|rows| - 1], k)
  }

  /** Sum over the first `n` timestamps of the column totals. */
  function ColumnTotals(rows: seq<seq<Option<real>>>, n: nat): real
  {
    if n == 0 then 0.0 else ColumnTotals(rows, n - 1) + ColumnTotal(rows, n - 1)
  }

  lemma {:induction false} RowSumsStep(rows: seq<seq<Option<real>>>, n: nat)
    requires n >= 1
    ensures RowSums(rows, n) == RowSums(rows, n - 1) + ColumnTotal(rows, n - 1)
  {
    if |rows| > 0 {
      RowSumsStep(rows[..|rows| - 1], n);
    }
  }

  lemma {:induction false} RowSumsZero(rows: seq<seq<Option<real>>>)
    ensures RowSums(rows, 0) == 0.0
  {
    if |rows| > 0 {
      RowSumsZero(rows[..|rows| - 1]);
    }
  }

  /** Summing a table by rows or by columns gives the same total. */
  lemma {:induction false} RowSumsAreColumnTotals(rows: seq<seq<Option<real>>>, n: nat)
    ensures RowSums(rows, n) == ColumnTotals(rows, n)
  {
    if n == 0 {
      RowSumsZero(rows);
    } else {
      RowSumsStep(rows, n);
      RowSumsAreColumnTotals(rows, n - 1);
    }
  }

  /** Column totals that match a parent series add up to the parent's sum. */
  lemma {:induction false} ColumnTotalsOfParent(rows: seq<seq<Option<real>>>, parent: seq<Option<real>>, n: nat)
    requires n <= |parent|
    requires forall k :: 0 <= k < |parent| ==> Val(parent, k) == ColumnTotal(rows, k)
    ensures ColumnTotals(rows, n) == PrefixSum(parent, n)
  {
    if n > 0 {
      ColumnTotalsOfParent(rows, parent, n - 1);
    }
  }

  lemma {:induction false} ColumnTotalsOfOnes(rows: seq<seq<Option<real>>>, n: nat)
    requires forall k :: 0 <= k < n ==> ColumnTotal(rows, k) == 1.0
    ensures ColumnTotals(rows, n) == n as real
  {
    if n > 0 {
      ColumnTotalsOfOnes(rows, n - 1);
    }
  }

  /** The windows of every child series. */
  function WindowAll(children: seq<seq<Option<real>>>, p: nat): (r: seq<seq<Option<real>>>)
    requires p >= 1
    ensures |r| == |children|
    ensures forall c :: 0 <= c < |r| ==> r[c] == Window(children[c], p)
  {
    seq(|children|, c requires 0 <= c < |children| => Window(children[c], p))
  }

  /** A child aligned with its parent and complete within the window. */
  predicate ChildAligned(p: nat, child: seq<Option<real>>, parent: seq<Option<real>>)
    requires p >= 1
  {
    |child| == |parent| && AllPresent(Window(child, p))
  }

  /** A parent with a nonempty window that is complete. */
  predicate ParentComplete(p: nat, parent: seq<Option<real>>)
    requires p >= 1
  {
    |parent| >= 1 && AllPresent(Window(parent, p))
  }

  /** No parent value in the window is zero, so no AHP ratio is skipped. */
  predicate ParentNonzero(p: nat, parent: seq<Option<real>>)
    requires p >= 1
  {
    NonzeroWherePresent(Window(parent, p))
  }

  /** The parent conditions under which every child's proportion is
      defined: for AHP no zero in the window, for PHA a nonzero window sum. */
  predicate UsableParent(pm: Method, p: nat, parent: seq<Option<real>>)
    requires p >= 1
  {
    && (pm == AHP ==> ParentNonzero(p, parent))
    && (pm == PHA ==> SumPresent(Window(parent, p)) != 0.0)
  }

  predicate Aligned(p: nat, children: seq<seq<Option<real>>>, parent: seq<Option<real>>)
    requires p >= 1
  {
    (forall c :: 0 <= c < |children| ==> ChildAligned(p, children[c], parent)) && ParentComplete(p, parent)
  }

  /** Aligned, and within the window the parent is the sum of the children
      at every timestamp. */
  predicate ParentIsSumOfChildren(p: nat, children: seq<seq<Option<real>>>, parent: seq<Option<real>>)
    requires p >= 1
  {
    && Aligned(p, children, parent)
    && (forall k :: 0 <= k < |Window(parent, p)| ==>
          Val(Window(parent, p), k) == ColumnTotal(WindowAll(children, p), k))
  }

  /** Sum of the proportions estimated for each child against the parent. */
  function SumOfEstimates(m: Method, p: nat, children: seq<seq<Option<real>>>, parent: seq<Option<real>>): real
    requires forall c :: 0 <= c < |children| ==> EstimateDefined(m, p, children[c], parent)
  {
    if |children| == 0 then 0.0
    else SumOfEstimates(m, p, children[..|children| - 1], parent) + Estimate(m, p, children[|children| - 1], parent)
  }

  /** The ratio rows AHP averages, one per child. */
  function RatioRows(p: nat, children: seq<seq<Option<real>>>, parent: seq<Option<real>>): (r: seq<seq<Option<real>>>)
    requires p >= 1
    requires forall c :: 0 <= c < |children| ==> |children[c]| == |parent|
    ensures |r| == |children|
    ensures forall c :: 0 <= c < |r| ==> r[c] == Ratios(Window(children[c], p), Window(parent, p))
  {
    seq(|children|, c requires 0 <= c < |children| => Ratios(Window(children[c], p), Window(parent, p)))
  }

  lemma RatioRowsPrefix(p: nat, children: seq<seq<Option<real>>>, parent: seq<Option<real>>)
    requires p >= 1 && |children| >= 1
    requires forall c :: 0 <= c < |children| ==> |children[c]| == |parent|
    ensures RatioRows(p, children, parent)[..|children| - 1] == RatioRows(p, children[..|children| - 1], parent)
  {
  }

  lemma WindowAllPrefix(p: nat, children: seq<seq<Option<real>>>)
    requires p >= 1 && |children| >= 1
    ensures WindowAll(children, p)[..|children| - 1] == WindowAll(children[..|children| - 1], p)
  {
  }

  /** PHA of one aligned child is its window sum over the parent's window sum. */
  lemma PhaAligned(p: nat, child: seq<Option<real>>, parent: seq<Option<real>>)
    requires p >= 1 && ChildAligned(p, child, parent) && ParentComplete(p, parent)
    requires SumPresent(Window(parent, p)) != 0.0
    ensures PhaDefined(p, child, parent)
    ensures Pha(p, child, parent) == SumPresent(Window(child, p)) / SumPresent(Window(parent, p))
  {
    var w, wc := Window(parent, p), Window(child, p);
    PrefixCountAllPresent(w, |w|);
    PrefixCountAllPresent(wc, |wc|);
    var n := |w| as real;
    var a, s := SumPresent(wc), SumPresent(w);
    assert NanMean(w) == s / n;
    assert NanMean(wc) == a / n;
    DivDivCancel(a, s, n);
  }

  lemma AhpDefinedAligned(p: nat, child: seq<Option<real>>, parent: seq<Option<real>>)
    requires p >= 1 && ChildAligned(p, child, parent) && ParentComplete(p, parent) && ParentNonzero(p, parent)
    ensures AhpDefined(p, child, parent)
    ensures AllPresent(Ratios(Window(child, p), Window(parent, p)))
  {
    var r := Ratios(Window(child, p), Window(parent, p));
    assert AllPresent(r);
    PrefixCountAllPresent(r, |r|);
  }

  /** AHP of one aligned child is the mean of its complete ratio row. */
  lemma AhpAligned(p: nat, child: seq<Option<real>>, parent: seq<Option<real>>)
    requires p >= 1 && ChildAligned(p, child, parent) && ParentComplete(p, parent) && ParentNonzero(p, parent)
    ensures AhpDefined(p, child, parent)
    ensures Ahp(p, child, parent) ==
              SumPresent(Ratios(Window(child, p), Window(parent, p))) / (|Window(parent, p)| as real)
  {
    AhpDefinedAligned(p, child, parent);
    var r := Ratios(Window(child, p), Window(parent, p));
    PrefixCountAllPresent(r, |r|);
  }

  lemma AhpAllDefined(p: nat, children: seq<seq<Option<real>>>, parent: seq<Option<real>>)
    requires p >= 1 && Aligned(p, children, parent) && ParentNonzero(p, parent)
    ensures forall c :: 0 <= c < |children| ==> AhpDefined(p, children[c], parent)
  {
    forall c | 0 <= c < |children|
      ensures AhpDefined(p, children[c], parent)
    {
      AhpDefinedAligned(p, children[c], parent);
    }
  }

  lemma PhaDefinedAligned(p: nat, child: seq<Option<real>>, parent: seq<Option<real>>)
    requires p >= 1 && ChildAligned(p, child, parent) && ParentComplete(p, parent)
    requires SumPresent(Window(parent, p)) != 0.0
    ensures PhaDefined(p, child, parent)
  {
    PhaAligned(p, child, parent);
  }

  lemma PhaAllDefined(p: nat, children: seq<seq<Option<real>>>, parent: seq<Option<real>>)
    requires p >= 1 && Aligned(p, children, parent)
    requires SumPresent(Window(parent, p)) != 0.0
    ensures forall c :: 0 <= c < |children| ==> PhaDefined(p, children[c], parent)
  {
    forall c | 0 <= c < |children|
      ensures PhaDefined(p, children[c], parent)
    {
      PhaDefinedAligned(p, children[c], parent);
    }
  }

  lemma {:induction false} PhaSum(p: nat, children: seq<seq<Option<real>>>, parent: seq<Option<real>>)
    requires p >= 1 && Aligned(p, children, parent)
    requires SumPresent(Window(parent, p)) != 0.0
    ensures forall c :: 0 <= c < |children| ==> PhaDefined(p, children[c], parent)
    ensures SumOfEstimates(PHA, p, children, parent) ==
              RowSums(WindowAll(children, p), |Window(parent, p)|) / SumPresent(Window(parent, p))
  {
    PhaAllDefined(p, children, parent);
    if |children| > 0 {
      var n, s := |Window(parent, p)|, SumPresent(Window(parent, p));
      var init, last := children[..|children| - 1], children[|children| - 1];
      PhaSum(p, init, parent);
      PhaAligned(p, last, parent);
      WindowRowSumsLast(p, children, n);
      DivAdd(RowSums(WindowAll(init, p), n), SumPresent(Window(last, p)), RowSums(WindowAll(children, p), n), s);
    }
  }

  lemma {:induction false} AhpSum(p: nat, children: seq<seq<Option<real>>>, parent: seq<Option<real>>)
    requires p >= 1 && Aligned(p, children, parent) && ParentNonzero(p, parent)
    ensures forall c :: 0 <= c < |children| ==> AhpDefined(p, children[c], parent)
    ensures SumOfEstimates(AHP, p, children, parent) ==
              RowSums(RatioRows(p, children, parent), |Window(parent, p)|) / (|Window(parent, p)| as real)
  {
    AhpAllDefined(p, children, parent);
    if |children| > 0 {
      var n := |Window(parent, p)|;
      var init, last := children[..|children| - 1], children[|children| - 1];
      var r := Ratios(Window(last, p), Window(parent, p));
      AhpSum(p, init, parent);
      AhpAligned(p, last, parent);
      SumOfEstimatesLast(AHP, p, children, parent);
      RatioRowSumsLast(p, children, parent, n);
      QuotientsAdd(SumOfEstimates(AHP, p, init, parent), Estimate(AHP, p, last, parent),
                   RowSums(RatioRows(p, init, parent), n), SumPresent(r),
                   RowSums(RatioRows(p, children, parent), n), n as real);
    }
  }

  /** The sum of estimates splits off its last child. */
  lemma SumOfEstimatesLast(m: Method, p: nat, children: seq<seq<Option<real>>>, parent: seq<Option<real>>)
    requires |children| > 0 && forall c :: 0 <= c < |children| ==> EstimateDefined(m, p, children[c], parent)
    ensures SumOfEstimates(m, p, children, parent) ==
              SumOfEstimates(m, p, children[..|children| - 1], parent) + Estimate(m, p, children[|children| - 1], parent)
  {
  }

  /** The window rows' sum splits off the last child's window. */
  lemma WindowRowSumsLast(p: nat, children: seq<seq<Option<real>>>, n: nat)
    requires p >= 1 && |children| > 0 && n == |Window(children[|children| - 1], p)|
    ensures RowSums(WindowAll(children, p), n) ==
              RowSums(WindowAll(children[..|children| - 1], p), n) + SumPresent(Window(children[|children| - 1], p))
  {
    WindowAllPrefix(p, children);
  }

  /** The ratio rows' sum splits off the last child's ratio row. */
  lemma RatioRowSumsLast(p: nat, children: seq<seq<Option<real>>>, parent: seq<Option<real>>, n: nat)
    requires p >= 1 && |children| > 0
    requires forall c :: 0 <= c < |children| ==> |children[c]| == |parent|
    requires n == |Window(parent, p)|
    ensures RowSums(RatioRows(p, children, parent), n) ==
              RowSums(RatioRows(p, children[..|children| - 1], parent), n) +
              SumPresent(Ratios(Window(children[|children| - 1], p), Window(parent, p)))
  {
    RatioRowsPrefix(p, children, parent);
  }

  lemma QuotientsAdd(x: real, y: real, a: real, b: real, t: real, n: real)
    requires n != 0.0 && x == a / n && y == b / n && t == a + b
    ensures x + y == t / n
  {
  }

  /** At a timestamp of the window, the ratio column totals the children's
      column over the parent's value. */
  lemma {:induction false} RatioColumnTotal(p: nat, children: seq<seq<Option<real>>>, parent: seq<Option<real>>, k: nat)
    requires p >= 1 && Aligned(p, children, parent) && ParentNonzero(p, parent) && k < |Window(parent, p)|
    ensures ColumnTotal(RatioRows(p, children, parent), k) ==
              ColumnTotal(WindowAll(children, p), k) / Val(Window(parent, p), k)
  {
    var v := Val(Window(parent, p), k);
    if |children| > 0 {
      var init, last := children[..|children| - 1], children[|children| - 1];
      var r := Ratios(Window(last, p), Window(parent, p));
      RatioColumnTotal(p, init, parent, k);
      RatioRowsPrefix(p, children, parent);
      WindowAllPrefix(p, children);
      RatioProportional(Window(last, p), Window(parent, p), k);
      RatioOf(Window(last, p)[k], Window(parent, p)[k], r[k].value);
      DivAdd(ColumnTotal(WindowAll(init, p), k), Val(Window(last, p), k), ColumnTotal(WindowAll(children, p), k), v);
    }
  }

  /** Proportions of children that add up to their parent add up to one,
      under either method: for AHP when no parent value in the window is
      zero, for PHA when the parent's window sum is not. */
  lemma ProportionsSumToOne(m: Method, p: nat, children: seq<seq<Option<real>>>, parent: seq<Option<real>>)
    requires p >= 1 && ParentIsSumOfChildren(p, children, parent)
    requires m == AHP ==> ParentNonzero(p, parent)
    requires m == PHA ==> SumPresent(Window(parent, p)) != 0.0
    ensures forall c :: 0 <= c < |children| ==> EstimateDefined(m, p, children[c], parent)
    ensures SumOfEstimates(m, p, children, parent) == 1.0
  {
    var w := Window(parent, p);
    var n := |w|;
    match m
    case PHA =>
      PhaSum(p, children, parent);
      RowSumsAreColumnTotals(WindowAll(children, p), n);
      ColumnTotalsOfParent(WindowAll(children, p), w, n);
      DivSelf(SumPresent(w));
    case AHP =>
      AhpSum(p, children, parent);
      forall k | 0 <= k < n
        ensures ColumnTotal(RatioRows(p, children, parent), k) == 1.0
      {
        RatioColumnTotal(p, children, parent, k);
        DivSelf(Val(w, k));
      }
      RowSumsAreColumnTotals(RatioRows(p, children, parent), n);
      ColumnTotalsOfOnes(RatioRows(p, children, parent), n);
      DivSelf(n as real);
  }

  // ---------------------------------------------------------------------
  // The estimators in double precision, where a missing value is NaN

  /** A double as the estimators produce it: a finite value, NaN, or an
      infinity (whose sign does not matter here). */
  datatype Float = Finite(value: real) | NaN | Infinite

  /** A series value as a double: missing is NaN. */
  function ToFloat(x: Option<real>): Float
  {
    if x.Some? then Finite(x.value) else NaN
  }

  /** Division of doubles: NaN in gives NaN out, zero over zero is NaN, any
      other finite value over zero is infinite, a finite value over an
      infinity is zero and an infinity over a finite value stays infinite. */
  function Divide(a: Float, b: Float): Float
  {
    match (a, b)
    case (Finite(x), Finite(y)) => if y != 0.0 then Finite(x / y) else if x == 0.0 then NaN else Infinite
    case (Finite(_), Infinite) => Finite(0.0)
    case (Infinite, Finite(_)) => Infinite
    case _ => NaN
  }

  /** The finite values of `xs`, with NaN and infinities as missing. */
  function FiniteValues(xs: seq<Float>): (r: seq<Option<real>>)
    ensures |r| == |xs|
    ensures forall k :: 0 <= k < |xs| ==> r[k] == (if xs[k].Finite? then Some(xs[k].value) else None)
  {
    seq(|xs|, k requires 0 <= k < |xs| => if xs[k].Finite? then Some(xs[k].value) else None)
  }

  /** `np.nanmean` on doubles: NaN values are skipped; an infinity makes
      the mean non-finite (infinite, or NaN when both signs meet); no
      value left gives NaN. */
  function FloatMean(xs: seq<Float>): Float
  {
    if exists k :: 0 <= k < |xs| && xs[k].Infinite? then Infinite
    else if CountPresent(FiniteValues(xs)) == 0 then NaN
    else Finite(NanMean(FiniteValues(xs)))
  }

  /** The element-wise quotient of two series read as doubles. */
  function Quotients(target: seq<Option<real>>, source: seq<Option<real>>): (r: seq<Float>)
    requires |target| == |source|
    ensures |r| == |target|
    ensures forall k :: 0 <= k < |r| ==> r[k] == Divide(ToFloat(target[k]), ToFloat(source[k]))
  {
    seq(|target|, k requires 0 <= k < |target| => Divide(ToFloat(target[k]), ToFloat(source[k])))
  }

  /** `_estimate_ahp_proportion` in double precision: the element-wise
      quotient of the two windows, then its NaN-skipping mean. */
  function DoubleAhp(p: nat, target: seq<Option<real>>, source: seq<Option<real>>): Float
    requires p >= 1 && |target| == |source|
  {
    FloatMean(Quotients(Window(target, p), Window(source, p)))
  }

  /** `_estimate_pha_proportion` in double precision: the quotient of the
      two windows' NaN-skipping means. */
  function DoublePha(p: nat, target: seq<Option<real>>, source: seq<Option<real>>): Float
    requires p >= 1
  {
    var wt, ws := Window(target, p), Window(source, p);
    Divide(FloatMean(seq(|wt|, k requires 0 <= k < |wt| => ToFloat(wt[k]))),
           FloatMean(seq(|ws|, k requires 0 <= k < |ws| => ToFloat(ws[k]))))
  }

  function DoubleEstimate(m: Method, p: nat, target: seq<Option<real>>, source: seq<Option<real>>): Float
    requires p >= 1 && (m == AHP ==> |target| == |source|)
  {
    match m
    case AHP => DoubleAhp(p, target, source)
    case PHA => DoublePha(p, target, source)
  }

  /** The mean of a series read as doubles is its mean of present values,
      and NaN when none is present. */
  lemma FloatMeanOfSeries(xs: seq<Option<real>>)
    ensures var f := FloatMean(seq(|xs|, k requires 0 <= k < |xs| => ToFloat(xs[k])));
            && (f.Finite? <==> CountPresent(xs) > 0)
            && (CountPresent(xs) > 0 ==> f == Finite(NanMean(xs)))
            && (CountPresent(xs) == 0 ==> f == NaN)
  {
    var fs := seq(|xs|, k requires 0 <= k < |xs| => ToFloat(xs[k]));
    assert FiniteValues(fs) == xs;
  }

  /** AHP is defined exactly when the double computation gives a finite
      value, and then the two agree. */
  lemma AhpIsDouble(p: nat, target: seq<Option<real>>, source: seq<Option<real>>)
    requires p >= 1 && |target| == |source|
    ensures AhpDefined(p, target, source) <==> DoubleAhp(p, target, source).Finite?
    ensures AhpDefined(p, target, source) ==> DoubleAhp(p, target, source) == Finite(Ahp(p, target, source))
  {
    var wt, ws := Window(target, p), Window(source, p);
    var q := Quotients(wt, ws);
    assert FiniteValues(q) == Ratios(wt, ws);
    assert (exists k :: 0 <= k < |q| && q[k].Infinite?) <==> !NoInfiniteRatio(wt, ws);
  }

  /** PHA is defined exactly when the double computation gives a finite
      value, and then the two agree. */
  lemma PhaIsDouble(p: nat, target: seq<Option<real>>, source: seq<Option<real>>)
    requires p >= 1
    ensures PhaDefined(p, target, source) <==> DoublePha(p, target, source).Finite?
    ensures PhaDefined(p, target, source) ==> DoublePha(p, target, source) == Finite(Pha(p, target, source))
  {
    FloatMeanOfSeries(Window(target, p));
    FloatMeanOfSeries(Window(source, p));
  }

  /** Either estimator is defined exactly when its double computation is
      finite, and then gives the same value. */
  lemma EstimateIsDouble(m: Method, p: nat, target: seq<Option<real>>, source: seq<Option<real>>)
    requires p >= 1 && (m == AHP ==> |target| == |source|)
    ensures EstimateDefined(m, p, target, source) <==> DoubleEstimate(m, p, target, source).Finite?
    ensures EstimateDefined(m, p, target, source) ==>
              DoubleEstimate(m, p, target, source) == Finite(Estimate(m, p, target, source))
  {
    match m
    case AHP => AhpIsDouble(p, target, source);
    case PHA => PhaIsDouble(p, target, source);
  }
}
