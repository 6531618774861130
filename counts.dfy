/** The live per-type counters and their relation to the event log. */
module Counts {
  import opened Types

  /** One pass of the reduce in `createEmptyCounts`: each key in turn is
      set to 0 on top of the accumulator. */
  function ZeroFold(keys: seq<ActionType>, acc: CountMap): CountMap {
    if keys == [] then acc else ZeroFold(keys[1..], acc[keys[0] := 0])
  }

  /** The fold's result holds the accumulator's keys and the listed ones;
      the listed keys are 0 and the others keep the accumulator's value. */
  lemma {:induction false} ZeroFoldSpec(keys: seq<ActionType>, acc: CountMap)
    ensures forall k :: k in ZeroFold(keys, acc) <==> k in acc || k in keys
    ensures forall k :: k in ZeroFold(keys, acc) ==>
      ZeroFold(keys, acc)[k] == (if k in keys then 0 else acc[k])
  {
    if keys != [] {
      ZeroFoldSpec(keys[1..], acc[keys[0] := 0]);
      assert forall k :: k in keys <==> k == keys[0] || k in keys[1..];
    }
  }

  /** `createEmptyCounts`: every event type present with count 0. */
  function CreateEmptyCounts(): (r: CountMap)
    ensures Complete(r)
    ensures forall t: ActionType :: r[t] == 0
  {
    AllListed();
    ZeroFoldSpec(ACTIONS, map[]);
    ZeroFold(ACTIONS, map[])
  }

  /** Number of entries of the log whose action is `t`. */
  function Count(log: seq<HistoryEvent>, t: ActionType): nat {
    if log == [] then 0
    else Count(log[..|log| - 1], t) + (if log[|log| - 1].action == t then 1 else 0)
  }

  /** The tally of a log: for every event type, how often it occurs. */
  function Tally(log: seq<HistoryEvent>): (c: CountMap)
    ensures Complete(c)
  {
    AllListed();
    map t | t in ACTIONS :: Count(log, t)
  }

  lemma {:induction false} CountBounded(log: seq<HistoryEvent>, t: ActionType)
    ensures Count(log, t) <= |log|
    ensures Count(log, t) == 0 <==> forall i :: 0 <= i < |log| ==> log[i].action != t
  {
    if log != [] {
      var init := log[..|log| - 1];
      CountBounded(init, t);
      assert forall i :: 0 <= i < |init| ==> init[i] == log[i];
    }
  }

  /** The empty log tallies to the counts `createEmptyCounts` builds. */
  lemma EmptyTally()
    ensures Tally([]) == CreateEmptyCounts()
  {
    AllListed();
  }

  /** Logging one more event adds exactly one to that event's type. */
  lemma TallyAppend(log: seq<HistoryEvent>, e: HistoryEvent)
    ensures Tally(log + [e]) == Tally(log)[e.action := Tally(log)[e.action] + 1]
  {
    AllListed();
    var log' := log + [e];
    assert log'[..|log'| - 1] == log;
  }

  /** Dropping the last event subtracts exactly one from its type; the
      floor at zero that the handler applies never takes effect. */
  lemma TallyPop(log: seq<HistoryEvent>)
    requires log != []
    ensures var a := log[|log| - 1].action;
      && Tally(log)[a] >= 1
      && Tally(log[..|log| - 1]) == Tally(log)[a := Max0(Tally(log)[a] - 1)]
  {
    AllListed();
  }

  /** `Math.max(0, n)`. */
  function Max0(n: int): (r: int)
    ensures r >= 0 && (r == n || r == 0) && r >= n
  {
    if n < 0 then 0 else n
  }

  /** The five counters of a tally add up to the length of the log, so a
      session's event total agrees with its counts. */
  lemma {:induction false} TallySum(log: seq<HistoryEvent>)
    ensures var c := Tally(log);
      c[Reception] + c[Touch] + c[Pass] + c[Shot] + c[Scan] == |log|
  {
    if log != [] {
      TallySum(log[..|log| - 1]);
    }
  }
}
