/** The checks `fit` makes before estimating anything, on the market /
    product datasets of `LevelFixtures`, with the texts they raise. */
module FitFixtures {
  import opened Wrappers
  import opened Seqs
  import opened Errors
  import opened Hierarchy
  import opened LevelDataset
  import opened Proportions
  import opened TopDown
  import opened Fixtures
  import opened LevelFixtures

  const Unfitted := TopDownReconciler("product", "market", 1, AHP, None)
  const UnknownTarget := TopDownReconciler("abcd", "market", 1, PHA, None)
  const UnknownBoth := TopDownReconciler("abcd", "efgh", 1, PHA, None)
  const Inverted := TopDownReconciler("market", "product", 1, AHP, None)

  lemma TreeDepths()
    ensures IndexOf(Tree.levelNames, "total") == 0
    ensures IndexOf(Tree.levelNames, "market") == 1
    ensures IndexOf(Tree.levelNames, "product") == 2
    ensures "abcd" !in Tree.levelNames && "efgh" !in Tree.levelNames
  {
  }

  /** A dataset without a hierarchy cannot be reconciled. */
  lemma FitWithoutHierarchy()
    ensures ValidDataset(Dataset(MarketTable, None, None)) && FitEstimable(Unfitted, Dataset(MarketTable, None, None))
    ensures Fit(Unfitted, Dataset(MarketTable, None, None)) == Err(FitNoHierarchy)
    ensures Message(FitNoHierarchy) == "The method can be applied only to instances with a hierarchy!"
  {
    assert WellFormedTable(MarketTable);
  }

  lemma UnknownEstimable()
    ensures ValidDataset(ProductTs) && FitEstimable(UnknownTarget, ProductTs) && FitEstimable(UnknownBoth, ProductTs)
  {
    ProductTsMade();
    TreeDepths();
  }

  /** A level outside the hierarchy is rejected, the source level first. */
  lemma FitUnknownLevel()
    ensures ValidDataset(ProductTs) && FitEstimable(UnknownTarget, ProductTs) && FitEstimable(UnknownBoth, ProductTs)
    ensures Fit(UnknownTarget, ProductTs) == Err(UnknownLevel("abcd"))
    ensures Fit(UnknownBoth, ProductTs) == Err(UnknownLevel("efgh"))
  {
    UnknownEstimable();
    TreeDepths();
  }

  lemma InvertedEstimable()
    ensures ValidDataset(ProductTs) && FitEstimable(Inverted, ProductTs)
  {
    ProductTsMade();
    TreeDepths();
  }

  /** The target level may not lie above the source level. */
  lemma FitTargetAboveSource()
    ensures ValidDataset(ProductTs) && FitEstimable(Inverted, ProductTs)
    ensures Fit(Inverted, ProductTs) == Err(TargetAboveSource)
    ensures Message(TargetAboveSource) == "Target level should be lower or equal in the hierarchy than the source level!"
  {
    InvertedEstimable();
    TreeDepths();
  }

  lemma MarketEstimable()
    ensures ValidDataset(MarketTs) && FitEstimable(Unfitted, MarketTs)
  {
    MarketTsMade();
    TreeDepths();
  }

  /** The dataset must be at or below the target level. */
  lemma FitCurrentAboveTarget()
    ensures ValidDataset(MarketTs) && FitEstimable(Unfitted, MarketTs)
    ensures Fit(Unfitted, MarketTs) == Err(CurrentAboveTarget)
    ensures Message(CurrentAboveTarget) ==
              "Current TSDataset level should be lower or equal in the hierarchy than the target level!"
  {
    MarketEstimable();
    TreeDepths();
  }
}
