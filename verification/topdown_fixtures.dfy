/** Worked examples of the two proportion estimators on the product and
    market series of the hierarchical-dataset fixtures: products a, b under
    market X and c, d under market Y, over two timestamps. */
module TopDownFixtures {
  import opened Wrappers
  import opened Errors
  import opened Proportions
  import opened TopDown

  const SeriesA: seq<Option<real>> := [Some(1.0), Some(1.0)]
  const SeriesB: seq<Option<real>> := [Some(0.0), Some(1.0)]
  const SeriesC: seq<Option<real>> := [Some(3.0), Some(18.0)]
  const SeriesD: seq<Option<real>> := [Some(7.0), Some(2.0)]
  const SeriesX: seq<Option<real>> := [Some(1.0), Some(2.0)]
  const SeriesY: seq<Option<real>> := [Some(10.0), Some(20.0)]

  /** PHA over both timestamps: each product's mean over its market's mean. */
  lemma ProductPhaUnderX()
    ensures EstimateDefined(PHA, 2, SeriesA, SeriesX) && Estimate(PHA, 2, SeriesA, SeriesX) == 2.0 / 3.0
    ensures EstimateDefined(PHA, 2, SeriesB, SeriesX) && Estimate(PHA, 2, SeriesB, SeriesX) == 1.0 / 3.0
  {
  }

  lemma ProductPhaUnderY()
    ensures EstimateDefined(PHA, 2, SeriesC, SeriesY) && Estimate(PHA, 2, SeriesC, SeriesY) == 7.0 / 10.0
    ensures EstimateDefined(PHA, 2, SeriesD, SeriesY) && Estimate(PHA, 2, SeriesD, SeriesY) == 3.0 / 10.0
  {
  }

  /** AHP over both timestamps: the mean of the per-timestamp shares. */
  lemma ProductAhpUnderX()
    ensures EstimateDefined(AHP, 2, SeriesA, SeriesX) && Estimate(AHP, 2, SeriesA, SeriesX) == 3.0 / 4.0
    ensures EstimateDefined(AHP, 2, SeriesB, SeriesX) && Estimate(AHP, 2, SeriesB, SeriesX) == 1.0 / 4.0
  {
  }

  lemma ProductAhpUnderY()
    ensures EstimateDefined(AHP, 2, SeriesC, SeriesY) && Estimate(AHP, 2, SeriesC, SeriesY) == 3.0 / 5.0
    ensures EstimateDefined(AHP, 2, SeriesD, SeriesY) && Estimate(AHP, 2, SeriesD, SeriesY) == 2.0 / 5.0
  {
  }

  /** A period of one looks at the last timestamp only, where both methods agree. */
  lemma LastTimestampOnly()
    ensures EstimateDefined(AHP, 1, SeriesC, SeriesY) && Estimate(AHP, 1, SeriesC, SeriesY) == 9.0 / 10.0
    ensures EstimateDefined(PHA, 1, SeriesC, SeriesY) && Estimate(PHA, 1, SeriesC, SeriesY) == 9.0 / 10.0
  {
  }

  /** A period longer than the history uses all of it. */
  lemma PeriodLongerThanHistory()
    ensures EstimateDefined(PHA, 5, SeriesA, SeriesX) && Estimate(PHA, 5, SeriesA, SeriesX) == 2.0 / 3.0
    ensures EstimateDefined(AHP, 5, SeriesA, SeriesX) && Estimate(AHP, 5, SeriesA, SeriesX) == 3.0 / 4.0
  {
    ProductPhaUnderX();
    ProductAhpUnderX();
    EstimateOfWindow(PHA, 2, SeriesA, SeriesX, 5, SeriesA, SeriesX);
    EstimateOfWindow(AHP, 2, SeriesA, SeriesX, 5, SeriesA, SeriesX);
  }

  /** A missing child value is left out of each mean: PHA averages the one
      child value against both parent values, AHP keeps the one ratio. */
  lemma MissingChildValue()
    ensures EstimateDefined(PHA, 2, [None, Some(1.0)], SeriesX) && Estimate(PHA, 2, [None, Some(1.0)], SeriesX) == 2.0 / 3.0
    ensures EstimateDefined(AHP, 2, [None, Some(1.0)], SeriesX) && Estimate(AHP, 2, [None, Some(1.0)], SeriesX) == 1.0 / 2.0
  {
  }

  /** A zero over a zero is NaN, which both means skip: against itself,
      B's one nonzero timestamp gives AHP 1, and PHA is 0.5 over 0.5. */
  lemma ZeroParentValue()
    ensures EstimateDefined(AHP, 2, SeriesB, SeriesB) && Estimate(AHP, 2, SeriesB, SeriesB) == 1.0
    ensures EstimateDefined(PHA, 2, SeriesB, SeriesB) && Estimate(PHA, 2, SeriesB, SeriesB) == 1.0
    ensures DoubleAhp(2, SeriesB, SeriesB) == Finite(1.0)
  {
    AhpIsDouble(2, SeriesB, SeriesB);
  }

  /** Intermittent demand: a child of [0, 1] under a parent of [0, 2] has
      share one half by either method. */
  lemma IntermittentDemand()
    ensures EstimateDefined(AHP, 2, [Some(0.0), Some(1.0)], [Some(0.0), Some(2.0)])
    ensures Estimate(AHP, 2, [Some(0.0), Some(1.0)], [Some(0.0), Some(2.0)]) == 1.0 / 2.0
    ensures EstimateDefined(PHA, 2, [Some(0.0), Some(1.0)], [Some(0.0), Some(2.0)])
    ensures Estimate(PHA, 2, [Some(0.0), Some(1.0)], [Some(0.0), Some(2.0)]) == 1.0 / 2.0
  {
  }

  /** Two such children make up a parent of [0, 2]: their PHA shares add
      up to one although the parent has a zero in the window. */
  lemma IntermittentSharesSumToOne()
    ensures ParentIsSumOfChildren(2, [SeriesB, SeriesB], [Some(0.0), Some(2.0)])
    ensures !ParentNonzero(2, [Some(0.0), Some(2.0)])
    ensures forall c :: 0 <= c < 2 ==> EstimateDefined(PHA, 2, [SeriesB, SeriesB][c], [Some(0.0), Some(2.0)])
    ensures SumOfEstimates(PHA, 2, [SeriesB, SeriesB], [Some(0.0), Some(2.0)]) == 1.0
  {
    var parent := [Some(0.0), Some(2.0)];
    assert Window(parent, 2) == parent;
    assert Window(SeriesB, 2) == SeriesB;
    assert WindowAll([SeriesB, SeriesB], 2) == [SeriesB, SeriesB];
    assert [SeriesB, SeriesB][..1] == [SeriesB] && [SeriesB][..0] == [];
    assert ColumnTotal([SeriesB], 0) == 0.0 && ColumnTotal([SeriesB], 1) == 1.0;
    assert ColumnTotal([SeriesB, SeriesB], 0) == 0.0;
    assert ColumnTotal([SeriesB, SeriesB], 1) == 2.0;
    assert SumPresent(parent) == 2.0;
    ProportionsSumToOne(PHA, 2, [SeriesB, SeriesB], parent);
  }

  /** A nonzero child over a zero parent is an infinite ratio, which makes
      AHP's mean infinite, while PHA still divides two finite means. */
  lemma InfiniteRatio()
    ensures !EstimateDefined(AHP, 2, SeriesA, SeriesB)
    ensures DoubleAhp(2, SeriesA, SeriesB) == Infinite
    ensures EstimateDefined(PHA, 2, SeriesA, SeriesB) && Estimate(PHA, 2, SeriesA, SeriesB) == 2.0
  {
    var q := Quotients(SeriesA, SeriesB);
    assert q[0] == Infinite;
  }

  /** A parent that is zero throughout leaves nothing to average: every AHP
      ratio is NaN, and PHA divides zero by zero. */
  lemma ZeroParent()
    ensures !EstimateDefined(AHP, 2, [Some(0.0), Some(0.0)], [Some(0.0), Some(0.0)])
    ensures DoubleAhp(2, [Some(0.0), Some(0.0)], [Some(0.0), Some(0.0)]) == NaN
    ensures !EstimateDefined(PHA, 2, [Some(0.0), Some(0.0)], [Some(0.0), Some(0.0)])
    ensures DoublePha(2, [Some(0.0), Some(0.0)], [Some(0.0), Some(0.0)]) == NaN
  {
    var z: seq<Option<real>> := [Some(0.0), Some(0.0)];
    var q := Quotients(z, z);
    assert q[0] == NaN && q[1] == NaN;
    assert FiniteValues(q) == [None, None];
    FloatMeanOfSeries(z);
  }

  /** Construction checks the period first, then the method name. */
  lemma ReconcilerConstruction()
    ensures NewTopDownReconciler("market", "total", 0, "XYZ") == Err(NonPositivePeriod)
    ensures NewTopDownReconciler("market", "total", 1, "XYZ") == Err(UnsupportedMethod("XYZ", ["AHP", "PHA"]))
    ensures NewTopDownReconciler("market", "total", 1, "AHP") == Ok(TopDownReconciler("market", "total", 1, AHP, None))
    ensures NewTopDownReconciler("market", "total", 2, "PHA") == Ok(TopDownReconciler("market", "total", 2, PHA, None))
  {
  }

  /** The text raised for a period below one. */
  lemma ReconcilerErrorMessages()
    ensures Message(NewTopDownReconciler("market", "total", 0, "AHP").error) == "Period length must be positive!"
  {
  }
}
