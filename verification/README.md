# Top-down reconciliation and level-aware datasets

This project models two pieces of etna's hierarchical forecasting, as pure
functions over immutable data with exact real arithmetic.

- **The top-down reconciler** (`TopDownReconciler` in
  `etna/reconciliation/top_down.py`).
  - Construction checks the period length and the proportions method
    (AHP or PHA).
  - `fit` checks the hierarchy and the order of the source, target and
    current levels. It then builds the mapping matrix from source-level
    forecasts to target-level forecasts.
  - Below the source level, each entry of the mapping is the proportion of
    a target segment within its source ancestor. It is estimated over the
    last `period_length` timestamps:
    - AHP is the mean of the child/parent ratios.
    - PHA is the mean of the child divided by the mean of the parent.
    - Both skip missing values.
  - At the same level, the mapping is the summing matrix.
- **The hierarchy and the level-aware dataset** the reconciler relies on,
  as the hierarchical-dataset tests pin them down.
  - A tree is a parent → children map rooted at `"total"`, with level
    names listed root first.
  - The level of a set of segments is inferred from the tree.
  - A dataset is aggregated upwards to a coarser level.
  - A hierarchy is built from the level columns of a long table.

Modules, one file each:

- `Wrappers` (`wrappers.dfy`): `Option` and `Result`.
- `Errors` (`errors.dfy`): the errors the model raises and their texts. The
  reconciler's texts are the program's own, and the level-dataset texts are
  those the tests expect. Two texts come from code outside this model (see
  "## Left out").
- `Seqs` (`seqs.dfy`): `NoDup`, `IndexOf`, `Join` and lexicographic order.
- `Sparse` (`sparse.dfy`): a sparse matrix as a map from `(row, column)` to
  its value. It also defines the product of the matrix with a row that may
  hold missing values.
- `Hierarchy` (`hierarchy.dfy`): the tree, its breadth-first layers, each
  level's segments in name order, level depths and the summing matrix.
- `LevelDataset` (`level_dataset.dfy`): wide tables (timestamps ×
  segments), level inference, dataset construction and `get_level_dataset`.
- `Proportions` (`proportions.dfy`): the estimation window and the two
  estimators, with their algebraic properties.
- `TopDown` (`topdown.dfy`): method parsing, construction and `fit`.
- `Shares` (`shares.dfy`): the columns of a fitted mapping. When the window
  of current-level data is complete, the shares a source segment hands down
  to its target-level descendants add up to 1.
- `Builder` (`builder.dfy`): a hierarchy built from level columns.
- `Fixtures`, `LevelFixtures` and `BuilderFixtures` (`fixtures.dfy`,
  `level_fixtures.dfy`, `builder_fixtures.dfy`): the trees and tables of
  the hierarchical-dataset tests, with the outcomes those tests expect
  stated as lemmas.
- `TopDownFixtures` and `FitFixtures` (`topdown_fixtures.dfy`,
  `fit_fixtures.dfy`): worked estimates, and the checks `fit` makes on
  those datasets, with the texts they raise.

`HierarchicalStructure` and `TSDataset` are not part of this model; only
their behaviour as the hierarchical-dataset tests pin it down is modelled.
So:

- A level's segments are the tree's breadth-first layer at that depth,
  listed in name order, as the program lists them.
- The rows and columns of the summing matrix follow that order. It has a 1
  at (ancestor, descendant) between two levels.
- Every table of a dataset lists its segment columns in name order; building
  a dataset sorts them.
- Aggregation multiplies every row of the current table by the summing
  matrix.
- A missing value anywhere under a segment makes that segment's sum
  missing, as NaN does.
- The estimators work on exact reals, with a missing value for NaN. A
  separate double-precision reading (`Float`: finite, NaN or infinite) shows
  that each estimator is defined exactly where the program's result is
  finite, and that the two then agree.

## Model

| member | source | states |
|---|---|---|
| TopDown.SupportedMethodNamesSorted | etna/reconciliation/top_down.py:14-22 | The supported names are exactly "AHP" and "PHA": sorted, without duplicates, one per method. Joined with ", " they read "AHP, PHA". |
| TopDown.ParseMethod | etna/reconciliation/top_down.py:17-22 | A method string parses if and only if it is a supported name, and the parsed method carries that name. Any other string fails with an error that carries the string and the supported list. |
| TopDown.ParseMethodName | etna/reconciliation/top_down.py:54-58 | Each method's name parses back to that same method (round trip), so "AHP" selects AHP and "PHA" selects PHA. |
| TopDown.UnsupportedMethodMessage | etna/reconciliation/top_down.py:17-22 | For an unsupported string the message is "Unable to recognize reconciliation method '<s>'! Supported methods: AHP, PHA." |
| TopDown.NewTopDownReconciler | etna/reconciliation/top_down.py:49-58 | A period length below 1 fails first, with "Period length must be positive!". Then an unsupported method fails. Construction succeeds exactly when both are valid; the result keeps the levels, the period and the chosen method, with no mapping yet. |
| TopDown.Fit | etna/reconciliation/top_down.py:60-114 | Checks run in the source's order. No hierarchy fails, then an unknown source or target level, then target above source, then current level above target. Fitting succeeds exactly when source ≤ target ≤ current depth, and then only the mapping changes. Below the source level the mapping is a proportion matrix, computed exactly at the transposed positions of the summing matrix (source level ← target level). At the same level the mapping is the summing matrix. |
| TopDown.ProportionMatrix | etna/reconciliation/top_down.py:95-107 | The mapping is \|target segments\| × \|source segments\|, and an estimate is computed exactly at the transposed positions of the summing matrix's entries. |
| TopDown.ProportionMatrixEntry | etna/reconciliation/top_down.py:100-107 | The entry at (target t, source s) is the chosen estimator applied to t's series and s's series. |
| TopDown.ProportionSupport | etna/reconciliation/top_down.py:89-107 | An estimate is computed at (t, s) if and only if target segment t lies below source segment s in the tree; every other entry is 0. |
| TopDown.ProportionValues | etna/reconciliation/top_down.py:86-107 | Each computed entry is the estimate from the series of t and of s. Each of those series is the per-timestamp sum of its segment's descendants at the current level. |
| TopDown.FitSameLevel | etna/reconciliation/top_down.py:109-112 | When source and target are the same level, fitting succeeds and the mapping is the identity on that level's segments. |
| TopDown.FitIgnoresMapping | etna/reconciliation/top_down.py:98-112 | Fitting assigns the mapping without reading the previous one: a reconciler with any mapping fits exactly like the same reconciler with another. |
| TopDown.FitRefit | etna/reconciliation/top_down.py:60-114 | Fitting a fitted reconciler again on the same dataset gives the same result; the mapping depends only on the configuration and the data. |
| Proportions.Window | etna/reconciliation/top_down.py:119 | The window holds min(period_length, n) elements. |
| Proportions.WindowIsSuffix | etna/reconciliation/top_down.py:118-119 | The window is the last elements of the series, in order. |
| Proportions.Ratios | etna/reconciliation/top_down.py:120 | The ratio series is as long as its inputs. A ratio is kept exactly where the child and the parent are present and the parent is nonzero; zero over zero is NaN, which the mean skips. |
| Proportions.RatioProportional | etna/reconciliation/top_down.py:120 | Each kept ratio r satisfies child = r · parent at that timestamp. |
| Proportions.NanMeanConstant | etna/reconciliation/top_down.py:120 | The mean of present values that all equal c is c. |
| Proportions.NanMeanBounds | etna/reconciliation/top_down.py:120 | The mean of present values that all lie in [lo, hi] lies in [lo, hi]. |
| Proportions.MeansProportional | etna/reconciliation/top_down.py:126 | If one series is c times another at every timestamp and the other has a nonzero sum, the quotient of their means is c. |
| Proportions.EstimateOfWindow | etna/reconciliation/top_down.py:116-126 | An estimate depends only on the windows it reads. Two inputs with equal windows give equal estimates, even when the period lengths differ. |
| Proportions.ConstantRatioAhp | etna/reconciliation/top_down.py:116-120 | If the child is c times a complete parent throughout the window and one parent value is nonzero, AHP is defined and returns c. |
| Proportions.ConstantRatioPha | etna/reconciliation/top_down.py:122-126 | If the child is c times a complete parent with a nonzero sum throughout the window, PHA is defined and returns c. |
| Proportions.ConstantRatio | etna/reconciliation/top_down.py:116-126 | Under a constant ratio c both estimators return c whenever their conditions hold, so they agree. |
| Proportions.AhpBetweenZeroAndOne | etna/reconciliation/top_down.py:116-120 | When the child is never negative and never above its parent, AHP lies between 0 and 1. |
| Proportions.PhaAligned | etna/reconciliation/top_down.py:122-126 | With a complete parent window and a child present wherever the parent is, PHA is the child's window sum divided by the parent's window sum. |
| Proportions.AhpAligned | etna/reconciliation/top_down.py:116-120 | Under the same alignment, and with no zero among the parent's window values, AHP is defined and is the sum of the window's ratios divided by the window length. |
| Proportions.PhaSum | etna/reconciliation/top_down.py:122-126 | The PHA estimates of all children add up to the total of the children's windows over the parent's window sum. |
| Proportions.AhpSum | etna/reconciliation/top_down.py:116-120 | The AHP estimates of all children add up to the total of all children's ratios over the window length. |
| Proportions.ProportionsSumToOne | etna/reconciliation/top_down.py:100-126 | Suppose nothing is missing in the window and the parent equals the sum of its children at every window timestamp. For AHP, suppose also that no parent value in the window is zero. For PHA, suppose only that the parent's window sum is nonzero. Then every child's estimate is defined and the estimates add up to 1. |
| TopDownFixtures.IntermittentSharesSumToOne | etna/reconciliation/top_down.py:122-126 | Two children [0, 1] make up a parent [0, 2]. The parent has a zero in the window, yet their PHA shares are defined and add up to 1. |
| Shares.FitColumnsSumToOne | etna/reconciliation/top_down.py:86-107 | Take `fit` between two distinct levels. Suppose every current-level cell in the window is present and the source segment's summed series suits the estimator: for AHP no window value is zero, for PHA the window sum is nonzero. Then fitting succeeds, and that source segment's column of the mapping adds up to 1. |
| Shares.ColumnSumsToOne | etna/reconciliation/top_down.py:100-126 | In any proportion matrix between two depths over such a table, the column of a source segment whose series suits the estimator, in the same sense, adds up to 1. |
| Shares.FamilyIsSum | etna/reconciliation/top_down.py:86-107 | Suppose the current-level window is complete. Then a source segment's summed series and those of its target-level descendants are complete in the window. At every window timestamp the source's value is the sum of the descendants' values. |
| Shares.SumWhereInReorder | etna/reconciliation/top_down.py:100-107 | Take the rows of a duplicate-free list that belong to a duplicate-free subset of it. Their shares, added in row order, give the sum of shares over the subset in its own order. |
| Proportions.FloatMeanOfSeries | etna/reconciliation/top_down.py:120-126 | Read as doubles, a series' NaN-skipping mean is finite exactly when some value is present, and is then the mean of the present values; otherwise it is NaN. |
| Proportions.AhpIsDouble | etna/reconciliation/top_down.py:116-120 | AHP is defined if and only if the double computation (element-wise quotient, then NaN-skipping mean) is finite, and then the two are equal. |
| Proportions.PhaIsDouble | etna/reconciliation/top_down.py:122-126 | PHA is defined if and only if the double computation (quotient of the two NaN-skipping means) is finite, and then the two are equal. |
| Proportions.EstimateIsDouble | etna/reconciliation/top_down.py:54-58 | The estimator a reconciler selected is defined if and only if its double computation is finite, and then the two are equal. |
| Hierarchy.LevelDepth | etna/reconciliation/top_down.py:76-78 | A level's depth is its position in the level names. A name outside them fails as an unknown level. |
| Hierarchy.SegmentsOfLayer | etna/reconciliation/top_down.py:95-96 | A level's listed segments are sorted by name and duplicate-free, and they are exactly the nodes of the tree's layer at that depth. |
| Hierarchy.SegmentsAre | etna/reconciliation/top_down.py:95-96 | Any name-sorted list holding exactly a layer's nodes is that level's segment list. |
| Hierarchy.LevelSegments | etna/reconciliation/top_down.py:95-96 | A known level's segments form a non-empty, name-sorted, duplicate-free list of exactly the layer's nodes. An unknown level fails. |
| Hierarchy.SummingMatrix | etna/reconciliation/top_down.py:91-93 | An unknown target or source level fails. The matrix exists exactly when the target level is not below the source level; otherwise it fails with the level-order error. It has one row per target segment and one column per source segment. |
| Hierarchy.SummingEntryDescendant | etna/reconciliation/top_down.py:100 | Entry (i, j) is present if and only if source segment j lies below target segment i, with i and j positions in the name-sorted lists. |
| Hierarchy.SummingMatrixPartition | etna/reconciliation/top_down.py:100-107 | Each column has exactly one entry, its single ancestor. Each row has at least one. |
| Hierarchy.SummingMatrixSameLevel | etna/reconciliation/top_down.py:109-112 | Between a level and itself the summing matrix is the identity. |
| LevelDataset.CoveringLevelUnique | tests/test_datasets/test_hierarchical_dataset.py:301-303 | A non-empty set of segments fits inside at most one level. |
| LevelDataset.DataframeLevel | tests/test_datasets/test_hierarchical_dataset.py:301-315 | The level is inferred if and only if the segments are exactly one level's segments. Segments fitting no single level fail as mixed levels; a strict subset of one level fails as missing segments. |
| LevelDataset.DataframeLevelOfLayer | tests/test_datasets/test_hierarchical_dataset.py:311-315 | Exactly the segments of a level infer that level's name. |
| LevelDataset.MakeDataset | tests/test_datasets/test_hierarchical_dataset.py:318-321 | With a hierarchy, a dataset is built exactly when its segments are one level, and its current level is the inferred one; otherwise the inference error is returned. Without a hierarchy it is built with no level. The built table has the same timestamps and cells, with its columns sorted by name. |
| LevelDataset.GetLevelDataset | tests/test_datasets/test_hierarchical_dataset.py:471-523 | It fails without a hierarchy, for an unknown level, and for a finer level than the current one. Otherwise it keeps the hierarchy and the timestamps and sets the current level to the target. Its columns are the target level's segments in name order, and each cell is the sum of the segment's descendants at that timestamp. |
| LevelDataset.GetLevelDatasetIs | tests/test_datasets/test_hierarchical_dataset.py:480-498 | A table with the level's segments, the same timestamps and the descendant sums in every cell is exactly the dataset returned. |
| LevelDataset.AggregationUnique | tests/test_datasets/test_hierarchical_dataset.py:480-498 | At most one table is the aggregation of a dataset to a level. |
| LevelDataset.AggregatesToSelf | etna/reconciliation/top_down.py:86-87 | A dataset's own table is its aggregation to its current level. |
| LevelDataset.GetLevelDatasetSameLevel | etna/reconciliation/top_down.py:86-87 | Asking for the current level returns the dataset unchanged, for every valid dataset with a hierarchy. |
| LevelDataset.LevelSeries | etna/reconciliation/top_down.py:86-107 | Every segment's series in a level dataset is the per-timestamp sum of its descendants' series in the current table. |
| LevelDataset.SeriesOfSums | tests/test_datasets/test_hierarchical_dataset.py:480-498 | In a table of descendant sums, each segment's column is its descendants' summed series. |
| Builder.PathNames | tests/test_datasets/test_hierarchical_dataset.py:397-415 | One node name per level column: the separator-join of the values down to that column. |
| Builder.SegmentNameIsLeaf | tests/test_datasets/test_hierarchical_dataset.py:397-415 | A row's segment is the last node on its path. With a single column it is that column's value. |
| Builder.BuildHierarchy | tests/test_datasets/test_hierarchical_dataset.py:437-448 | The level names are "total" followed by the level columns. c is a child of x if and only if c follows x on some row's path. No child is listed twice. |
| Builder.AddPathEdge | tests/test_datasets/test_hierarchical_dataset.py:437-448 | Adding one row's path keeps every existing edge and adds exactly that path's edges. |
| Builder.BuildStructureEdge | tests/test_datasets/test_hierarchical_dataset.py:437-448 | The built structure's edges are exactly the edges of the rows' paths. |
| Builder.RepeatedRow | tests/test_datasets/test_hierarchical_dataset.py:64-75 | A row that repeats an earlier row's level values, as at a later timestamp, leaves the built structure unchanged. |
| Fixtures.TreeLayers | tests/test_datasets/test_hierarchical_dataset.py:8-14 | The breadth-first layers of the basic tree are [total], [X, Y] and [a, b, c, d]. |
| Fixtures.TreeValid | tests/test_datasets/test_hierarchical_dataset.py:8-14 | The basic tree is a well-formed hierarchy. |
| Fixtures.TreeSegments | tests/test_datasets/test_hierarchical_dataset.py:8-14 | The basic tree's levels, in name order: [total], [X, Y] and [a, b, c, d]. |
| Fixtures.ComplexTreeLayers | tests/test_datasets/test_hierarchical_dataset.py:17-29 | The breadth-first layers of the complex tree are [total], [77, 120], [77_X, 120_Y] and [77_X_1, 77_X_2, 120_Y_3, 120_Y_4]. |
| Fixtures.ComplexTreeValid | tests/test_datasets/test_hierarchical_dataset.py:17-29 | The complex tree is a well-formed hierarchy. |
| Fixtures.ComplexTreeSegments | tests/test_datasets/test_hierarchical_dataset.py:17-29 | In name order "120" comes before "77": the levels are [total], [120, 77], [120_Y, 77_X] and [120_Y_3, 120_Y_4, 77_X_1, 77_X_2]. |
| Fixtures.LongTreeLayers | tests/test_datasets/test_hierarchical_dataset.py:32-38 | The breadth-first layers of the chain-shaped tree are [total], [X, Y], [a, b] and [c, d]. |
| Fixtures.LongTreeValid | tests/test_datasets/test_hierarchical_dataset.py:32-38 | The chain-shaped tree is a well-formed hierarchy. |
| Fixtures.LongTreeSegments | tests/test_datasets/test_hierarchical_dataset.py:32-38 | The chain-shaped tree's levels, in name order: [total], [X, Y], [a, b] and [c, d]. |
| Fixtures.TailedTreeLayers | tests/test_datasets/test_hierarchical_dataset.py:41-47 | The breadth-first layers of the uneven tree are [total], [X, Y], [a, c, d] and [e, h, f, g]. |
| Fixtures.TailedTreeValid | tests/test_datasets/test_hierarchical_dataset.py:41-47 | The uneven tree is a well-formed hierarchy. |
| Fixtures.TailedTreeSegments | tests/test_datasets/test_hierarchical_dataset.py:41-47 | The uneven tree's levels in name order are [total], [X, Y], [a, c, d] and [e, f, g, h]; the last differs from the tree's layer order. |
| LevelFixtures.MixedSegmentsFail | tests/test_datasets/test_hierarchical_dataset.py:301-303 | {X, a} fails level inference as mixed levels. |
| LevelFixtures.MissingSegmentsFail | tests/test_datasets/test_hierarchical_dataset.py:306-308 | {X} alone fails level inference as missing segments. |
| LevelFixtures.MarketSegmentsLevel | tests/test_datasets/test_hierarchical_dataset.py:311-315 | {X, Y} infers "market". |
| LevelFixtures.ProductSegmentsLevel | tests/test_datasets/test_hierarchical_dataset.py:311-315 | {a, b, c, d} infers "product". |
| LevelFixtures.ProductToMarket | tests/test_datasets/test_hierarchical_dataset.py:454 | Product data aggregated to "market" gives the market table. |
| LevelFixtures.ProductToTotal | tests/test_datasets/test_hierarchical_dataset.py:455 | Product data aggregated to "total" gives the total table. |
| LevelFixtures.MarketToTotal | tests/test_datasets/test_hierarchical_dataset.py:456 | Market data aggregated to "total" gives the total table. |
| LevelFixtures.LongLevel4To3 | tests/test_datasets/test_hierarchical_dataset.py:457 | Chain tree: level l4 aggregated to l3 gives the l3 table. |
| LevelFixtures.LongLevel4To2 | tests/test_datasets/test_hierarchical_dataset.py:458 | Chain tree: l4 aggregated to l2 gives the l2 table. |
| LevelFixtures.LongLevel4To1 | tests/test_datasets/test_hierarchical_dataset.py:459 | Chain tree: l4 aggregated to l1 gives the l1 table. |
| LevelFixtures.LongLevel3To2 | tests/test_datasets/test_hierarchical_dataset.py:460 | Chain tree: l3 aggregated to l2 gives the l2 table. |
| LevelFixtures.LongLevel3To1 | tests/test_datasets/test_hierarchical_dataset.py:461 | Chain tree: l3 aggregated to l1 gives the l1 table. |
| LevelFixtures.LongLevel2To1 | tests/test_datasets/test_hierarchical_dataset.py:462 | Chain tree: l2 aggregated to l1 gives the l1 table. |
| LevelFixtures.TailedLevel4To3 | tests/test_datasets/test_hierarchical_dataset.py:463 | Uneven tree: l4 aggregated to l3 gives the l3 table. |
| LevelFixtures.TailedLevel4To2 | tests/test_datasets/test_hierarchical_dataset.py:464 | Uneven tree: l4 aggregated to l2 gives the l2 table. |
| LevelFixtures.TailedLevel4To1 | tests/test_datasets/test_hierarchical_dataset.py:465 | Uneven tree: l4 aggregated to l1 gives the l1 table. |
| LevelFixtures.TailedLevel3To2 | tests/test_datasets/test_hierarchical_dataset.py:466 | Uneven tree: l3 aggregated to l2 gives the l2 table. |
| LevelFixtures.TailedLevel3To1 | tests/test_datasets/test_hierarchical_dataset.py:467 | Uneven tree: l3 aggregated to l1 gives the l1 table. |
| LevelFixtures.TailedLevel2To1 | tests/test_datasets/test_hierarchical_dataset.py:468 | Uneven tree: l2 aggregated to l1 gives the l1 table. |
| LevelFixtures.NoHierarchyFails | tests/test_datasets/test_hierarchical_dataset.py:501-504 | get_level_dataset on a dataset without a hierarchy fails with the no-hierarchy error. |
| LevelFixtures.UnknownLevelFails | tests/test_datasets/test_hierarchical_dataset.py:507-513 | get_level_dataset with "" or with "abcd" fails as an unknown level. |
| LevelFixtures.DownwardLevelFails | tests/test_datasets/test_hierarchical_dataset.py:516-523 | A market-level dataset asked for "product" fails because the target is finer than the current level. |
| BuilderFixtures.ProductSegmentNames | tests/test_datasets/test_hierarchical_dataset.py:400 | With "_", the market and product columns give X_a, X_b, Y_c and Y_d. |
| BuilderFixtures.ProductSegmentNamesOtherSep | tests/test_datasets/test_hierarchical_dataset.py:401 | With "#" they give X#a, X#b, Y#c and Y#d. |
| BuilderFixtures.SingleColumnSegmentNames | tests/test_datasets/test_hierarchical_dataset.py:402 | With only the product column the segments are a, b, c and d. |
| BuilderFixtures.ComplexSegmentNames | tests/test_datasets/test_hierarchical_dataset.py:403-408 | The three mixed-type columns give 77_X_1, 77_X_2, 120_Y_3 and 120_Y_4. |
| BuilderFixtures.ComplexHierarchyBuilt | tests/test_datasets/test_hierarchical_dataset.py:437-448 | The hierarchy built from the eight rows of the mixed-type table (two timestamps per segment) equals the complex tree fixture, level names included. |
| FitFixtures.FitWithoutHierarchy | etna/reconciliation/top_down.py:73-74 | Fitting on a dataset without a hierarchy fails with "The method can be applied only to instances with a hierarchy!". |
| FitFixtures.FitUnknownLevel | etna/reconciliation/top_down.py:76-78 | An unknown target level "abcd" fails as an unknown level; with source "efgh" also unknown, the source level is reported. |
| FitFixtures.FitTargetAboveSource | etna/reconciliation/top_down.py:80-81 | Target "market" over source "product" fails with "Target level should be lower or equal in the hierarchy than the source level!". |
| FitFixtures.FitCurrentAboveTarget | etna/reconciliation/top_down.py:83-84 | A market-level dataset fitted for target "product" fails with "Current TSDataset level should be lower or equal in the hierarchy than the target level!". |
| TopDownFixtures.ProductPhaUnderX | etna/reconciliation/top_down.py:122-126 | With period 2, PHA gives a = 2/3 and b = 1/3 under market X. |
| TopDownFixtures.ProductPhaUnderY | etna/reconciliation/top_down.py:122-126 | With period 2, PHA gives c = 7/10 and d = 3/10 under market Y. |
| TopDownFixtures.ProductAhpUnderX | etna/reconciliation/top_down.py:116-120 | With period 2, AHP gives a = 3/4 and b = 1/4 under market X. |
| TopDownFixtures.ProductAhpUnderY | etna/reconciliation/top_down.py:116-120 | With period 2, AHP gives c = 3/5 and d = 2/5 under market Y. |
| TopDownFixtures.LastTimestampOnly | etna/reconciliation/top_down.py:116-126 | With period 1 only the last timestamp counts: both methods give c = 18/20 = 9/10. |
| TopDownFixtures.PeriodLongerThanHistory | etna/reconciliation/top_down.py:119 | A period of 5 on two timestamps uses all of them, giving the same results as period 2. |
| TopDownFixtures.MissingChildValue | etna/reconciliation/top_down.py:120 | A missing first child value is skipped by the means. PHA gives 1/(3/2) = 2/3; AHP gives the mean of the one remaining ratio, 1/2. |
| TopDownFixtures.ZeroParentValue | etna/reconciliation/top_down.py:116-126 | A series [0, 1] against itself: 0/0 is NaN and skipped, so AHP is 1 (also in double precision); PHA is 0.5/0.5 = 1. |
| TopDownFixtures.IntermittentDemand | etna/reconciliation/top_down.py:116-126 | Child [0, 1] under parent [0, 2] has share 1/2 by either method. |
| TopDownFixtures.InfiniteRatio | etna/reconciliation/top_down.py:120 | A nonzero child over a zero parent makes AHP infinite (undefined in the model), while PHA still returns 2. |
| TopDownFixtures.ZeroParent | etna/reconciliation/top_down.py:116-126 | Child and parent both [0, 0]: every AHP ratio is NaN, so AHP is NaN; PHA is 0/0 = NaN. Neither is defined. |
| TopDownFixtures.ReconcilerConstruction | etna/reconciliation/top_down.py:49-58 | Period 0 fails with the period error, and "XYZ" fails with the method error. "AHP" and "PHA" build unfitted reconcilers. |
| TopDownFixtures.ReconcilerErrorMessages | etna/reconciliation/top_down.py:49-50 | A period of 0 raises "Period length must be positive!". |

## Left out

- Floating point rounding: the estimators compute on exact reals, and a missing value (NaN in the data) is `None`. The `Float` reading keeps NaN and infinity but not the sign of an infinity, so a mean where +inf and -inf meet reads as infinite rather than NaN; either way it is not finite.
- TopDown.Fit: requires `FitEstimable`, that every proportion it computes is finite. On other data the program stores NaN or infinite entries, which are not modelled.
- Stored zeros: scipy's `lil_matrix` drops an assignment of 0, so the program stores no entry where an estimate is exactly 0. The model keeps such an entry with value 0; `TopDown.Fit`, `TopDown.ProportionMatrix` and `TopDown.ProportionSupport` say where an estimate is computed, not where the program's sparse matrix stores one.
- `transform` and `inverse_transform` (applying the mapping to forecasts) live in `etna/reconciliation/base.py`, which is not part of this model; the model stops at the mapping matrix.
- `HierarchicalStructure` and `TSDataset` internals are not part of this model. Their behaviour is stated abstractly: level segments are the layers in name order, the summing matrix relates ancestors to descendants, and aggregation sums descendants.
- Leaves at different depths are not modelled: `Valid` requires every leaf to sit on the last level, as in all the test trees.
- Children of a built hierarchy are listed in order of first appearance in the rows; the tests compare only sorted segment lists.
- Level values are text: the categorical and integer column types of the mixed-type fixture are represented by their string forms.
- Timestamps are plain integers: frequencies, date parsing, `make_future`, exogenous columns, `keep_level_columns` and the pandas/scipy containers (`lil_matrix`, MultiIndex columns) are left out.
- `get_level_depth` and `get_summing_matrix` are not part of this model, so their error texts are not known. An unknown level reuses the unknown-level text of the tests, and the summing matrix's level-order error has its own wording.
- The three tests at tests/test_datasets/test_hierarchical_dataset.py:501, 511 and 520 share one name, so only the last runs; the messages at :503 and :512 are modelled as documented intent.
- The worked estimator examples are stated on the estimators directly, not through `Fit` on a literal dataset. `Fit`'s entries are tied to the estimators by `TopDown.ProportionValues`.
- The aggregation cases first establish `LevelDataset.AggregatesTo` for the expected table (right segments, timestamps and descendant sums); `LevelDataset.GetLevelDatasetIs` turns that into the exact `get_level_dataset` result.
