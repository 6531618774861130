/** The fixed scenario and its ground-truth targets. */
module Constants {
  import opened Types

  /** Ground-truth number of events of each type in the scenario clip. */
  const TARGETS: CountMap := map[Pass := 14, Shot := 1, Scan := 18, Touch := 5, Reception := 10]

  const FIXED_SCENARIO: MatchScenario := MatchScenario(
    "SCN-2024-M37-BAY-DOR",
    "FC Bayern vs Dortmund (Min 37)",
    "Press start when you are ready.",
    TARGETS)

  /** The targets give every event type a non-negative count. */
  lemma TargetsComplete()
    ensures Complete(TARGETS)
    ensures forall t: ActionType :: TARGETS[t] >= 0
  {
    forall t: ActionType ensures t in TARGETS && TARGETS[t] >= 0 {
      match t
      case Reception =>
      case Touch =>
      case Pass =>
      case Shot =>
      case Scan =>
    }
  }
}
