/** The value types of the annotation game: event types, the history log
    entries, the completed-session records and the view phases. */
module Types {

  /** The five event types an operator tallies. */
  datatype ActionType = Reception | Touch | Pass | Shot | Scan

  /** The fixed order in which the event types are listed and folded over. */
  const ACTIONS: seq<ActionType> := [Reception, Touch, Pass, Shot, Scan]

  /** Every event type appears in ACTIONS. */
  lemma AllListed()
    ensures forall t: ActionType :: t in ACTIONS
  {
    forall t: ActionType ensures t in ACTIONS {
      match t
      case Reception => assert ACTIONS[0] == t;
      case Touch => assert ACTIONS[1] == t;
      case Pass => assert ACTIONS[2] == t;
      case Shot => assert ACTIONS[3] == t;
      case Scan => assert ACTIONS[4] == t;
    }
  }

  /** A per-type count (a record keyed by every event type). */
  type CountMap = map<ActionType, int>

  /** The count map has an entry for every event type. */
  predicate Complete(c: CountMap) {
    forall t: ActionType :: t in c
  }

  /** The single fixed exercise: identity, texts and per-type targets. */
  datatype MatchScenario = MatchScenario(id: string, name: string, context: string, targets: CountMap)

  /** One logged button press. */
  datatype HistoryEvent = HistoryEvent(id: string, action: ActionType, timestamp: int)

  /** One completed session, as stored on the leaderboard. */
  datatype SessionRecord = SessionRecord(
    id: string,
    operatorName: string,
    timestamp: int,
    scenarioId: string,
    totalEvents: int,
    totalVariance: int,
    counts: CountMap,
    targets: CountMap)

  /** The UI phase. */
  datatype ViewState = Idle | Input | Active | Analysis | Leaderboard
}
