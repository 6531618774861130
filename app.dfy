/** The session and leaderboard controller of the `App` component: its
    state fields and the handlers that update them. Each handler runs to
    completion on the current state; fresh ids and `Date.now()` readings
    are passed in as parameters. */
module AppState {
  import opened Types
  import opened Constants
  import opened Counts
  import opened Scoring
  import opened Board
  import opened Text

  datatype Option<T> = None | Some(value: T)

  /** What the browser's local storage holds under the leaderboard key:
      nothing (or the empty string), text that fails to parse or parses to
      something other than an array, or an array of saved records. */
  datatype Blob = Absent | Unreadable | Saved(records: seq<SessionRecord>)

  /** The record `handleStop` builds from a session: the operator, the
      number of logged events (which the counts add up to), the variance the
      counts score, and snapshots of the counts and the scenario's targets. */
  function SessionResult(recordId: string, operator: string, now: int,
                         counts: CountMap, log: seq<HistoryEvent>): (r: SessionRecord)
    requires counts == Tally(log)
    ensures r.id == recordId && r.operatorName == operator && r.timestamp == now
    ensures r.scenarioId == FIXED_SCENARIO.id && r.targets == TARGETS
    ensures r.counts == counts && Complete(r.counts)
    ensures r.totalEvents == |log|
    ensures r.totalEvents == counts[Reception] + counts[Touch] + counts[Pass] + counts[Shot] + counts[Scan]
    ensures r.totalVariance == TotalVariance(counts) >= 0
    ensures r.totalVariance == 0 <==> counts == TARGETS
  {
    TallySum(log);
    SessionRecord(recordId, operator, now, FIXED_SCENARIO.id,
                  |log|, TotalVariance(counts), counts, FIXED_SCENARIO.targets)
  }

  class App {
    var view: ViewState
    var operator: string
    var startTime: Option<int>
    var elapsed: int
    var counts: CountMap
    var eventLog: seq<HistoryEvent>
    var lastRecord: Option<SessionRecord>
    var leaderboard: seq<SessionRecord>
    var isResetting: bool
    /** The local-storage entry the leaderboard is saved under. */
    var storage: Blob

    /** The counters always tally the log, and the leaderboard is always
        ascending by variance. */
    ghost predicate Valid()
      reads this`counts, this`eventLog, this`leaderboard
    {
      && counts == Tally(eventLog)
      && Sorted(leaderboard)
    }

    /** The initial state, over whatever local storage already holds. */
    constructor (saved: Blob)
      ensures Valid()
      ensures view == Idle && operator == "" && startTime == None && elapsed == 0
      ensures counts == CreateEmptyCounts() && eventLog == []
      ensures lastRecord == None && leaderboard == [] && !isResetting
      ensures storage == saved
    {
      view := Idle;
      operator := "";
      startTime := None;
      elapsed := 0;
      counts := CreateEmptyCounts();
      eventLog := [];
      lastRecord := None;
      leaderboard := [];
      isResetting := false;
      storage := saved;
      EmptyTally();
    }

    /** The mount-time load: saved records replace the board, sorted by
        variance; a missing entry, or one that fails to parse or is not an
        array, leaves the board as it is. */
    method Load()
      requires Valid()
      modifies this`leaderboard
      ensures Valid()
      ensures storage.Saved? ==> leaderboard == StableSort(storage.records)
      ensures !storage.Saved? ==> leaderboard == old(leaderboard)
    {
      if storage.Saved? {
        leaderboard := StableSort(storage.records);
      }
    }

    /** Typing in the name field. */
    method EditOperator(name: string)
      requires Valid()
      modifies this`operator
      ensures Valid()
      ensures operator == name
    {
      operator := name;
    }

    /** The intro screen's proceed button. */
    method Proceed()
      requires Valid()
      modifies this`view
      ensures Valid()
      ensures view == Input
    {
      view := Input;
    }

    /** The header's leaderboard button. */
    method ShowLeaderboard()
      requires Valid()
      modifies this`view
      ensures Valid()
      ensures view == Leaderboard
    {
      view := Leaderboard;
    }

    /** `handleStart`: a blank name changes nothing; otherwise the session
        begins (see `Begin`). */
    method Start(now: int)
      requires Valid()
      modifies this`counts, this`eventLog, this`startTime, this`elapsed, this`view
      ensures Valid()
      ensures IsBlank(operator) ==>
        && counts == old(counts) && eventLog == old(eventLog)
        && startTime == old(startTime) && elapsed == old(elapsed) && view == old(view)
      ensures !IsBlank(operator) ==>
        && counts == CreateEmptyCounts() && (forall t: ActionType :: counts[t] == 0)
        && eventLog == [] && startTime == Some(now) && elapsed == 0 && view == Active
    {
      if !IsBlank(operator) {
        Begin(now);
      }
    }

    /** The setters `handleStart` calls for a named operator: every count is
        reset to 0, the log is emptied, the clock starts at `now` and the
        session becomes active. */
    method Begin(now: int)
      requires Valid()
      modifies this`counts, this`eventLog, this`startTime, this`elapsed, this`view
      ensures Valid()
      ensures counts == CreateEmptyCounts() && (forall t: ActionType :: counts[t] == 0)
      ensures eventLog == [] && startTime == Some(now) && elapsed == 0 && view == Active
    {
      counts := CreateEmptyCounts();
      eventLog := [];
      startTime := Some(now);
      elapsed := 0;
      view := Active;
      EmptyTally();
    }

    /** `handleAction(t)`: `t`'s count goes up by exactly one, no other
        count changes, and one event of type `t` is appended to the log. */
    method Action(t: ActionType, eventId: string, now: int)
      requires Valid()
      modifies this`counts, this`eventLog
      ensures Valid()
      ensures counts == old(counts)[t := old(counts)[t] + 1]
      ensures forall u: ActionType :: u != t ==> counts[u] == old(counts)[u]
      ensures eventLog == old(eventLog) + [HistoryEvent(eventId, t, now)]
    {
      var e := HistoryEvent(eventId, t, now);
      TallyAppend(eventLog, e);
      counts := counts[t := counts[t] + 1];
      eventLog := eventLog + [e];
    }

    /** `handleUndo`: with an empty log nothing changes; otherwise the last
        event is removed and its type's count goes down by one, floored at
        0 (the floor never takes effect, since the count tallies the log). */
    method Undo()
      requires Valid()
      modifies this`counts, this`eventLog
      ensures Valid()
      ensures old(eventLog) == [] ==> counts == old(counts) && eventLog == old(eventLog)
      ensures old(eventLog) != [] ==>
        var last := old(eventLog)[|old(eventLog)| - 1];
        && eventLog == old(eventLog)[..|old(eventLog)| - 1]
        && counts == old(counts)[last.action := Max0(old(counts)[last.action] - 1)]
        && counts[last.action] == old(counts)[last.action] - 1
    {
      if |eventLog| == 0 {
        return;
      }
      var lastEvent := eventLog[|eventLog| - 1];
      TallyPop(eventLog);
      counts := counts[lastEvent.action := Max0(counts[lastEvent.action] - 1)];
      eventLog := eventLog[..|eventLog| - 1];
    }

    /** The setters `handleStop` calls once the record is built: the view
        moves to the report, the record becomes the last report, it is
        appended to the board, which is re-sorted stably by variance (see
        `Board.Added` for what that does to a sorted board) and saved, and
        the name field is cleared. */
    method ShowResult(rec: SessionRecord)
      requires Valid()
      modifies this`view, this`lastRecord, this`leaderboard, this`storage, this`operator
      ensures Valid()
      ensures view == Analysis && operator == "" && lastRecord == Some(rec)
      ensures leaderboard == StableSort(old(leaderboard) + [rec])
      ensures storage == Saved(leaderboard)
    {
      view := Analysis;
      lastRecord := Some(rec);
      leaderboard := StableSort(leaderboard + [rec]);
      storage := Saved(leaderboard);
      operator := "";
    }

    /** `handleStop`: the session is scored into a record (see
        `SessionResult`), which becomes the last report and is inserted into
        the leaderboard; the view moves to the report with the name field
        cleared. */
    method Stop(recordId: string, now: int)
      requires Valid()
      modifies this`view, this`lastRecord, this`leaderboard, this`storage, this`operator
      ensures Valid()
      ensures view == Analysis && operator == ""
      ensures lastRecord == Some(SessionResult(recordId, old(operator), now, counts, eventLog))
      ensures leaderboard == StableSort(old(leaderboard) + [lastRecord.value])
      ensures storage == Saved(leaderboard)
    {
      var rec := SessionResult(recordId, operator, now, counts, eventLog);
      ShowResult(rec);
    }

    /** `handleResetToIdle`: back to the intro, forgetting the name and the
        last record. */
    method ResetToIdle()
      requires Valid()
      modifies this`view, this`operator, this`lastRecord
      ensures Valid()
      ensures view == Idle && operator == "" && lastRecord == None
    {
      view := Idle;
      operator := "";
      lastRecord := None;
    }

    /** `handleStationClick`: back to the last report if there is one and it
        is not already showing, otherwise to the intro. */
    method StationClick()
      requires Valid()
      modifies this`view
      ensures Valid()
      ensures view == (if lastRecord.Some? && old(view) != Analysis then Analysis else Idle)
    {
      if lastRecord.Some? && view != Analysis {
        view := Analysis;
      } else {
        view := Idle;
      }
    }

    /** `handleClearLeaderboard`: the first press only arms; a press while
        armed empties the board, removes the saved copy and disarms. */
    method ClearLeaderboard()
      requires Valid()
      modifies this`leaderboard, this`storage, this`isResetting
      ensures Valid()
      ensures old(isResetting) ==> leaderboard == [] && storage == Absent && !isResetting
      ensures !old(isResetting) ==>
        isResetting && leaderboard == old(leaderboard) && storage == old(storage)
    {
      if isResetting {
        leaderboard := [];
        storage := Absent;
        isResetting := false;
      } else {
        isResetting := true;
      }
    }

    /** The auto-disarm timer firing, three seconds after arming. */
    method Disarm()
      requires Valid()
      modifies this`isResetting
      ensures Valid()
      ensures !isResetting
    {
      isResetting := false;
    }

    /** `handleDeleteEntry(id)`: every record with that id is dropped, the
        others keep their order, and the result is saved, even when nothing
        was dropped. */
    method DeleteEntry(id: string)
      requires Valid()
      modifies this`leaderboard, this`storage
      ensures Valid()
      ensures leaderboard == RemoveId(old(leaderboard), id)
      ensures forall r :: r in leaderboard <==> r in old(leaderboard) && r.id != id
      ensures Rank(leaderboard, id) == 0
      ensures (forall i :: 0 <= i < |old(leaderboard)| ==> old(leaderboard)[i].id != id) ==>
        leaderboard == old(leaderboard)
      ensures storage == Saved(leaderboard)
    {
      RemoveIdSorted(leaderboard, id);
      if forall i :: 0 <= i < |leaderboard| ==> leaderboard[i].id != id {
        RemoveAbsentId(leaderboard, id);
      }
      leaderboard := RemoveId(leaderboard, id);
      storage := Saved(leaderboard);
    }
  }

  /** Undo right after an action puts the counters and the log back as
      they were before the action. */
  method ActionThenUndo(app: App, t: ActionType, eventId: string, now: int)
    requires app.Valid()
    modifies app`counts, app`eventLog
    ensures app.Valid()
    ensures app.counts == old(app.counts) && app.eventLog == old(app.eventLog)
  {
    app.Action(t, eventId, now);
    app.Undo();
    assert (old(app.eventLog) + [HistoryEvent(eventId, t, now)])[..|old(app.eventLog)|] == old(app.eventLog);
  }

  /** Two presses of the clear button empty the board and its saved copy,
      and a later load then finds nothing to restore. */
  method ClearTwiceThenLoad(app: App)
    requires app.Valid() && !app.isResetting
    modifies app
    ensures app.Valid()
    ensures app.leaderboard == [] && app.storage == Absent && !app.isResetting
  {
    app.ClearLeaderboard();
    app.ClearLeaderboard();
    app.Load();
  }
}
