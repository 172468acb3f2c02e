/** The top-down reconciler: configuration, and fitting the mapping matrix
    that distributes source-level forecasts over the target level by
    historical proportions. */
module TopDown {
  import opened Wrappers
  import opened Seqs
  import opened Errors
  import opened Sparse
  import opened Hierarchy
  import opened LevelDataset
  import opened Proportions

  // ---------------------------------------------------------------------
  // Proportion methods

  /** The string value of each member of the methods enumeration. */
  function MethodName(m: Method): string
  {
    match m
    case AHP => "AHP"
    case PHA => "PHA"
  }

  /** The members' values in sorted order, as the error message lists them. */
  const SupportedMethodNames: seq<string> := ["AHP", "PHA"]

  /** The supported names are sorted, distinct, and exactly the members' values. */
  lemma SupportedMethodNamesSorted()
    ensures LexSorted(SupportedMethodNames) && NoDup(SupportedMethodNames)
    ensures forall m: Method :: MethodName(m) in SupportedMethodNames
    ensures forall k :: 0 <= k < |SupportedMethodNames| ==>
              exists m: Method :: MethodName(m) == SupportedMethodNames[k]
    ensures Join(", ", SupportedMethodNames) == "AHP, PHA"
  {
    assert MethodName(AHP) == SupportedMethodNames[0];
    assert MethodName(PHA) == SupportedMethodNames[1];
    assert Join(", ", SupportedMethodNames[..1]) == "AHP";
  }

  /** Looking a method up by value; an unknown value raises from `_missing_`. */
  function ParseMethod(name: string): (r: Result<Method, Error>)
    ensures r.Ok? <==> name in SupportedMethodNames
    ensures r.Ok? ==> MethodName(r.value) == name
    ensures r.Err? ==> r.error == UnsupportedMethod(name, SupportedMethodNames)
  {
    if name == "AHP" then Ok(AHP)
    else if name == "PHA" then Ok(PHA)
    else Err(UnsupportedMethod(name, SupportedMethodNames))
  }

  /** Every member is found again from its value. */
  lemma ParseMethodName(m: Method)
    ensures ParseMethod(MethodName(m)) == Ok(m)
  {
  }

  /** The message raised for an unknown method names it and lists "AHP, PHA". */
  lemma UnsupportedMethodMessage(name: string)
    requires name !in SupportedMethodNames
    ensures ParseMethod(name).Err?
    ensures Message(ParseMethod(name).error) ==
              "Unable to recognize reconciliation method '" + name + "'! Supported methods: AHP, PHA."
  {
    SupportedMethodNamesSorted();
  }

  // ---------------------------------------------------------------------
  // Construction

  /** A configured reconciler; `mapping` is set by `Fit`. */
  datatype TopDownReconciler = TopDownReconciler(
    targetLevel: string,
    sourceLevel: string,
    periodLength: nat,
    proportionsMethod: Method,
    mapping: Option<SparseMatrix>)

  /** `TopDownReconciler.__init__`: the period is checked before the method. */
  function NewTopDownReconciler(targetLevel: string, sourceLevel: string, periodLength: int, methodName: string)
    : (r: Result<TopDownReconciler, Error>)
    ensures periodLength < 1 ==> r == Err(NonPositivePeriod)
    ensures periodLength >= 1 && methodName !in SupportedMethodNames ==>
              r == Err(UnsupportedMethod(methodName, SupportedMethodNames))
    ensures r.Ok? <==> periodLength >= 1 && methodName in SupportedMethodNames
    ensures r.Ok? ==>
              && r.value.targetLevel == targetLevel
              && r.value.sourceLevel == sourceLevel
              && r.value.periodLength == periodLength
              && MethodName(r.value.proportionsMethod) == methodName
              && r.value.mapping.None?
  {
    if periodLength < 1 then Err(NonPositivePeriod)
    else
      match ParseMethod(methodName)
      case Err(e) => Err(e)
      case Ok(m) => Ok(TopDownReconciler(targetLevel, sourceLevel, periodLength, m, None))
  }

  // ---------------------------------------------------------------------
  // Fitting

  /** Every target segment at depth `dt` below a source segment at depth
      `dsrc` gets series the estimator turns into a finite proportion, each
      series summed up from the current level `dc` of table `t`. */
  predicate EstimableBelow(pm: Method, p: nat, t: Table, hs: HierarchicalStructure, dsrc: nat, dt: nat, dc: nat)
    requires dsrc <= dt <= dc
  {
    forall i, j :: 0 <= i < |Segments(hs, dsrc)| && 0 <= j < |Segments(hs, dt)| &&
                   Segments(hs, dt)[j] in DescendantsAt(hs, Segments(hs, dsrc)[i], dt - dsrc) ==>
      EstimateDefined(pm, p, DescendantSeries(t, hs, Segments(hs, dt)[j], dc - dt),
                             DescendantSeries(t, hs, Segments(hs, dsrc)[i], dc - dsrc))
  }

  /** The proportion estimates `Fit` computes are all defined. */
  predicate FitEstimable(rec: TopDownReconciler, ds: Dataset)
    requires ValidDataset(ds)
  {
    ds.hierarchy.Some? && rec.sourceLevel in ds.hierarchy.value.levelNames && rec.targetLevel in ds.hierarchy.value.levelNames ==>
      var hs := ds.hierarchy.value;
      var dc := IndexOf(hs.levelNames, ds.currentLevel.value);
      var dsrc := IndexOf(hs.levelNames, rec.sourceLevel);
      var dt := IndexOf(hs.levelNames, rec.targetLevel);
      dsrc < dt <= dc ==> EstimableBelow(rec.proportionsMethod, rec.periodLength, ds.table, hs, dsrc, dt, dc)
  }

  /** `m` maps depth `dsrc` down to depth `dt`: one row per target segment,
      one column per source segment, an entry exactly where the target
      segment descends from the source segment, and that entry is the
      target's historical proportion within the source, both series summed
      up from the current-level table. */
  predicate IsProportionMatrix(hs: HierarchicalStructure, t: Table, pm: Method, p: nat,
                               dsrc: nat, dt: nat, dc: nat, m: SparseMatrix)
    requires dsrc <= dt <= dc
  {
    && m.rows == |Segments(hs, dt)|
    && m.cols == |Segments(hs, dsrc)|
    && m.WellFormed()
    && (forall j, i :: 0 <= j < m.rows && 0 <= i < m.cols ==>
          ((j, i) in m.entries <==> Segments(hs, dt)[j] in DescendantsAt(hs, Segments(hs, dsrc)[i], dt - dsrc)))
    && (forall j, i :: 0 <= j < m.rows && 0 <= i < m.cols && (j, i) in m.entries ==>
          && EstimateDefined(pm, p, DescendantSeries(t, hs, Segments(hs, dt)[j], dc - dt),
                                        DescendantSeries(t, hs, Segments(hs, dsrc)[i], dc - dsrc))
          && m.entries[(j, i)] == Estimate(pm, p, DescendantSeries(t, hs, Segments(hs, dt)[j], dc - dt),
                                                       DescendantSeries(t, hs, Segments(hs, dsrc)[i], dc - dsrc)))
  }

  /** Every stored position of `sm` names a source and a target segment
      whose series the estimator can average. */
  predicate Estimable(pm: Method, p: nat, sm: SparseMatrix, sources: seq<string>, targets: seq<string>,
                      sourceTable: Table, targetTable: Table)
  {
    forall key :: key in sm.entries ==>
      && key.0 < |sources| && key.1 < |targets|
      && EstimateDefined(pm, p, Series(targetTable, targets[key.1]), Series(sourceTable, sources[key.0]))
  }

  /** The estimator applied to every stored position of the summing matrix
      `sm` (source rows, target columns), written transposed. */
  function ProportionMatrix(pm: Method, p: nat, sm: SparseMatrix, sources: seq<string>, targets: seq<string>,
                            sourceTable: Table, targetTable: Table): (r: SparseMatrix)
    requires Estimable(pm, p, sm, sources, targets, sourceTable, targetTable)
    ensures r.rows == |targets| && r.cols == |sources| && r.WellFormed()
    ensures forall j, i :: (j, i) in r.entries <==> (i, j) in sm.entries
  {
    var entries := map key | key in sm.entries ::
      (key.1, key.0) := Estimate(pm, p, Series(targetTable, targets[key.1]), Series(sourceTable, sources[key.0]));
    assert forall j, i :: (i, j) in sm.entries ==> (j, i) in entries;
    SparseMatrix(|targets|, |sources|, entries)
  }

  /** The value `ProportionMatrix` stores at a position. */
  lemma ProportionMatrixEntry(pm: Method, p: nat, sm: SparseMatrix, sources: seq<string>, targets: seq<string>,
                              sourceTable: Table, targetTable: Table, j: nat, i: nat)
    requires Estimable(pm, p, sm, sources, targets, sourceTable, targetTable)
    requires (i, j) in sm.entries
    ensures var r := ProportionMatrix(pm, p, sm, sources, targets, sourceTable, targetTable);
            (j, i) in r.entries &&
            r.entries[(j, i)] == Estimate(pm, p, Series(targetTable, targets[j]), Series(sourceTable, sources[i]))
  {
    var r := ProportionMatrix(pm, p, sm, sources, targets, sourceTable, targetTable);
    var key := (i, j);
    assert (key.1, key.0) in r.entries;
  }

  /** `fit`: validates the levels, then builds the mapping from source-level
      forecasts to target-level ones. */
  function Fit(rec: TopDownReconciler, ds: Dataset): (r: Result<TopDownReconciler, Error>)
    requires ValidDataset(ds) && FitEstimable(rec, ds)
    ensures ds.hierarchy.None? ==> r == Err(FitNoHierarchy)
    ensures ds.hierarchy.Some? && rec.sourceLevel !in ds.hierarchy.value.levelNames ==>
              r == Err(UnknownLevel(rec.sourceLevel))
    ensures ds.hierarchy.Some? && rec.sourceLevel in ds.hierarchy.value.levelNames &&
            rec.targetLevel !in ds.hierarchy.value.levelNames ==>
              r == Err(UnknownLevel(rec.targetLevel))
    ensures ds.hierarchy.Some? && rec.sourceLevel in ds.hierarchy.value.levelNames &&
            rec.targetLevel in ds.hierarchy.value.levelNames ==>
              var hs := ds.hierarchy.value;
              var dc := IndexOf(hs.levelNames, ds.currentLevel.value);
              var dsrc := IndexOf(hs.levelNames, rec.sourceLevel);
              var dt := IndexOf(hs.levelNames, rec.targetLevel);
              && (dt < dsrc ==> r == Err(TargetAboveSource))
              && (dsrc <= dt && dc < dt ==> r == Err(CurrentAboveTarget))
              && (r.Ok? <==> dsrc <= dt <= dc)
    ensures r.Ok? ==> ds.hierarchy.Some? && r.value.mapping.Some? && r.value == rec.(mapping := r.value.mapping)
    ensures r.Ok? ==>
              var hs := ds.hierarchy.value;
              var dc := IndexOf(hs.levelNames, ds.currentLevel.value);
              var dsrc := IndexOf(hs.levelNames, rec.sourceLevel);
              var dt := IndexOf(hs.levelNames, rec.targetLevel);
              && (dsrc < dt ==>
                    && IsProportionMatrix(hs, ds.table, rec.proportionsMethod, rec.periodLength, dsrc, dt, dc, r.value.mapping.value)
                    && SummingMatrix(hs, rec.sourceLevel, rec.targetLevel).Ok?
                    && (forall j, i :: (j, i) in r.value.mapping.value.entries <==>
                          (i, j) in SummingMatrix(hs, rec.sourceLevel, rec.targetLevel).value.entries))
              && (dsrc == dt ==> r.value.mapping == Some(SummingMatrix(hs, rec.targetLevel, rec.sourceLevel).value))
  {
    if ds.hierarchy.None? then Err(FitNoHierarchy)
    else
      var hs := ds.hierarchy.value;
      var dc := LevelDepth(hs, ds.currentLevel.value).value;
      match LevelDepth(hs, rec.sourceLevel)
      case Err(e) => Err(e)
      case Ok(dsrc) =>
        match LevelDepth(hs, rec.targetLevel)
        case Err(e) => Err(e)
        case Ok(dt) =>
          if dt < dsrc then Err(TargetAboveSource)
          else if dc < dt then Err(CurrentAboveTarget)
          else
            var sourceTs := GetLevelDataset(ds, rec.sourceLevel).value;
            var targetTs := GetLevelDataset(ds, rec.targetLevel).value;
            if dsrc < dt then
              var sm := SummingMatrix(hs, rec.sourceLevel, rec.targetLevel).value;
              var sources := LevelSegments(hs, rec.sourceLevel).value;
              var targets := LevelSegments(hs, rec.targetLevel).value;
              LevelSeries(ds, rec.sourceLevel);
              LevelSeries(ds, rec.targetLevel);
              EntriesEstimable(rec.proportionsMethod, rec.periodLength, hs, ds.table, sourceTs.table, targetTs.table, dsrc, dt, dc, sm);
              var m := ProportionMatrix(rec.proportionsMethod, rec.periodLength, sm, sources, targets, sourceTs.table, targetTs.table);
              ProportionMatrixIsProportions(rec.proportionsMethod, rec.periodLength, hs, ds.table, sourceTs.table, targetTs.table, dsrc, dt, dc, sm);
              Ok(rec.(mapping := Some(m)))
            else
              Ok(rec.(mapping := Some(SummingMatrix(hs, rec.targetLevel, rec.sourceLevel).value)))
  }

  /** When source and target are the same level, the mapping is the identity. */
  lemma FitSameLevel(rec: TopDownReconciler, ds: Dataset)
    requires ValidDataset(ds) && FitEstimable(rec, ds) && ds.hierarchy.Some?
    requires rec.sourceLevel == rec.targetLevel && rec.targetLevel in ds.hierarchy.value.levelNames
    requires IndexOf(ds.hierarchy.value.levelNames, rec.targetLevel) <= IndexOf(ds.hierarchy.value.levelNames, ds.currentLevel.value)
    ensures Fit(rec, ds).Ok?
    ensures var m := Fit(rec, ds).value.mapping.value;
            && m.rows == m.cols == |Segments(ds.hierarchy.value, IndexOf(ds.hierarchy.value.levelNames, rec.targetLevel))|
            && (forall i, j :: 0 <= i < m.rows && 0 <= j < m.cols ==> ((i, j) in m.entries <==> i == j))
            && (forall i :: 0 <= i < m.rows ==> m.Entry(i, i) == 1.0)
  {
    SummingMatrixSameLevel(ds.hierarchy.value, rec.targetLevel);
  }

  /** `fit` never reads a previous mapping: whatever it holds, the outcome
      is the same. */
  lemma FitIgnoresMapping(rec: TopDownReconciler, ds: Dataset, mapping: Option<SparseMatrix>)
    requires ValidDataset(ds) && FitEstimable(rec, ds)
    ensures FitEstimable(rec.(mapping := mapping), ds)
    ensures Fit(rec.(mapping := mapping), ds) == Fit(rec, ds)
  {
  }

  /** Fitting again on the same data gives the same reconciler: the mapping
      depends only on the configuration and the data. */
  lemma FitRefit(rec: TopDownReconciler, ds: Dataset)
    requires ValidDataset(ds) && FitEstimable(rec, ds) && Fit(rec, ds).Ok?
    ensures FitEstimable(Fit(rec, ds).value, ds)
    ensures Fit(Fit(rec, ds).value, ds) == Fit(rec, ds)
  {
    FitIgnoresMapping(rec, ds, Fit(rec, ds).value.mapping);
  }

  /** Equal series have equal definedness. */
  lemma EstimateDefinedEqual(pm: Method, p: nat, target: seq<Option<real>>, source: seq<Option<real>>,
                             target': seq<Option<real>>, source': seq<Option<real>>)
    requires target == target' && source == source' && EstimateDefined(pm, p, target, source)
    ensures EstimateDefined(pm, p, target', source') && Estimate(pm, p, target, source) == Estimate(pm, p, target', source')
  {
  }

  /** The summing matrix from `dt` up to `dsrc` stores only positions whose
      proportion the estimator can compute from the level tables. */
  lemma EntriesEstimable(pm: Method, p: nat, hs: HierarchicalStructure, t: Table, st: Table, tt: Table,
                         dsrc: nat, dt: nat, dc: nat, sm: SparseMatrix)
    requires dsrc < dt <= dc && EstimableBelow(pm, p, t, hs, dsrc, dt, dc)
    requires SeriesOfLevel(st, t, hs, dsrc, dc) && SeriesOfLevel(tt, t, hs, dt, dc)
    requires IsSummingMatrix(hs, dsrc, dt, sm)
    ensures Estimable(pm, p, sm, Segments(hs, dsrc), Segments(hs, dt), st, tt)
  {
    forall key | key in sm.entries
      ensures key.0 < |Segments(hs, dsrc)| && key.1 < |Segments(hs, dt)|
      ensures EstimateDefined(pm, p, Series(tt, Segments(hs, dt)[key.1]), Series(st, Segments(hs, dsrc)[key.0]))
    {
      var i, j := key.0, key.1;
      assert (i, j) in sm.entries;
      EstimateDefinedEqual(pm, p, DescendantSeries(t, hs, Segments(hs, dt)[j], dc - dt), DescendantSeries(t, hs, Segments(hs, dsrc)[i], dc - dsrc),
                           Series(tt, Segments(hs, dt)[j]), Series(st, Segments(hs, dsrc)[i]));
    }
  }

  /** The matrix of estimates over the summing matrix's support is the
      proportion matrix between the two depths. */
  lemma ProportionMatrixIsProportions(pm: Method, p: nat, hs: HierarchicalStructure, t: Table, st: Table, tt: Table,
                                      dsrc: nat, dt: nat, dc: nat, sm: SparseMatrix)
    requires dsrc < dt <= dc && EstimableBelow(pm, p, t, hs, dsrc, dt, dc)
    requires SeriesOfLevel(st, t, hs, dsrc, dc) && SeriesOfLevel(tt, t, hs, dt, dc)
    requires IsSummingMatrix(hs, dsrc, dt, sm)
    requires Estimable(pm, p, sm, Segments(hs, dsrc), Segments(hs, dt), st, tt)
    ensures IsProportionMatrix(hs, t, pm, p, dsrc, dt, dc, ProportionMatrix(pm, p, sm, Segments(hs, dsrc), Segments(hs, dt), st, tt))
  {
    ProportionSupport(pm, p, hs, st, tt, dsrc, dt, sm);
    ProportionValues(pm, p, hs, t, st, tt, dsrc, dt, dc, sm);
  }

  lemma ProportionSupport(pm: Method, p: nat, hs: HierarchicalStructure, st: Table, tt: Table,
                          dsrc: nat, dt: nat, sm: SparseMatrix)
    requires dsrc < dt && IsSummingMatrix(hs, dsrc, dt, sm)
    requires Estimable(pm, p, sm, Segments(hs, dsrc), Segments(hs, dt), st, tt)
    ensures var m := ProportionMatrix(pm, p, sm, Segments(hs, dsrc), Segments(hs, dt), st, tt);
            forall j, i :: 0 <= j < m.rows && 0 <= i < m.cols ==>
              ((j, i) in m.entries <==> Segments(hs, dt)[j] in DescendantsAt(hs, Segments(hs, dsrc)[i], dt - dsrc))
  {
    var m := ProportionMatrix(pm, p, sm, Segments(hs, dsrc), Segments(hs, dt), st, tt);
    forall j, i | 0 <= j < m.rows && 0 <= i < m.cols
      ensures (j, i) in m.entries <==> Segments(hs, dt)[j] in DescendantsAt(hs, Segments(hs, dsrc)[i], dt - dsrc)
    {
      assert (j, i) in m.entries <==> (i, j) in sm.entries;
    }
  }

  lemma ProportionValues(pm: Method, p: nat, hs: HierarchicalStructure, t: Table, st: Table, tt: Table,
                         dsrc: nat, dt: nat, dc: nat, sm: SparseMatrix)
    requires dsrc < dt <= dc
    requires SeriesOfLevel(st, t, hs, dsrc, dc) && SeriesOfLevel(tt, t, hs, dt, dc)
    requires Estimable(pm, p, sm, Segments(hs, dsrc), Segments(hs, dt), st, tt)
    ensures var m := ProportionMatrix(pm, p, sm, Segments(hs, dsrc), Segments(hs, dt), st, tt);
            forall j, i :: 0 <= j < m.rows && 0 <= i < m.cols && (j, i) in m.entries ==>
              && EstimateDefined(pm, p, DescendantSeries(t, hs, Segments(hs, dt)[j], dc - dt),
                                        DescendantSeries(t, hs, Segments(hs, dsrc)[i], dc - dsrc))
              && m.entries[(j, i)] == Estimate(pm, p, DescendantSeries(t, hs, Segments(hs, dt)[j], dc - dt),
                                                      DescendantSeries(t, hs, Segments(hs, dsrc)[i], dc - dsrc))
  {
    var m := ProportionMatrix(pm, p, sm, Segments(hs, dsrc), Segments(hs, dt), st, tt);
    forall j, i | 0 <= j < m.rows && 0 <= i < m.cols && (j, i) in m.entries
      ensures EstimateDefined(pm, p, DescendantSeries(t, hs, Segments(hs, dt)[j], dc - dt),
                                     DescendantSeries(t, hs, Segments(hs, dsrc)[i], dc - dsrc))
      ensures m.entries[(j, i)] == Estimate(pm, p, DescendantSeries(t, hs, Segments(hs, dt)[j], dc - dt),
                                                   DescendantSeries(t, hs, Segments(hs, dsrc)[i], dc - dsrc))
    {
      ProportionMatrixEntry(pm, p, sm, Segments(hs, dsrc), Segments(hs, dt), st, tt, j, i);
      EstimateDefinedEqual(pm, p, Series(tt, Segments(hs, dt)[j]), Series(st, Segments(hs, dsrc)[i]),
                           DescendantSeries(t, hs, Segments(hs, dt)[j], dc - dt), DescendantSeries(t, hs, Segments(hs, dsrc)[i], dc - dsrc));
    }
  }
}
