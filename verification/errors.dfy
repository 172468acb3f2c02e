/** The `ValueError`s raised by the reconciler and the level-aware dataset. */
module Errors {
  import opened Seqs

  datatype Error =
    | NonPositivePeriod
    | UnsupportedMethod(name: string, supported: seq<string>)
    | FitNoHierarchy
    | TargetAboveSource
    | CurrentAboveTarget
    | UnknownLevel(level: string)
    | InvalidLevelOrder
    | MixedLevels
    | MissingSegments
    | LevelNoHierarchy
    | WrongDirection

  /** The text of each error. The reconciler's texts are the program's own;
      the level-dataset texts are those its tests expect. `get_level_depth`
      and `get_summing_matrix` are not part of this model, so `UnknownLevel`
      reuses the tests' unknown-level text and `InvalidLevelOrder` has a
      wording of its own. */
  function Message(e: Error): string
  {
    match e
    case NonPositivePeriod => "Period length must be positive!"
    case UnsupportedMethod(m, supported) =>
      "Unable to recognize reconciliation method '" + m + "'! Supported methods: " + Join(", ", supported) + "."
    case FitNoHierarchy => "The method can be applied only to instances with a hierarchy!"
    case TargetAboveSource => "Target level should be lower or equal in the hierarchy than the source level!"
    case CurrentAboveTarget => "Current TSDataset level should be lower or equal in the hierarchy than the target level!"
    case UnknownLevel(_) => "Provide level name is not part of hierarchy!"
    case InvalidLevelOrder => "Target level must be higher or equal in hierarchy than source level!"
    case MixedLevels => "Segments in dataframe are from more than 1 hierarchical levels!"
    case MissingSegments => "Some segments of hierarchical level are missing in dataframe!"
    case LevelNoHierarchy => "Method could be applied only for instances with hierarchy!"
    case WrongDirection => "Target level should be higher in hierarchy than current dataframe level!"
  }
}
