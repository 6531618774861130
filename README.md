# AED annotation game: session and leaderboard controller

A Dafny model of the controller inside the `App` component of the AED
annotation game. During a session the operator presses one button per match
event: Reception, Touch, Pass, Shot or Scan. The app keeps a counter per
event type and a log of events. When the session stops, it scores the counts
against the fixed scenario's targets and records the result. The record is
inserted into a leaderboard sorted by variance, and that board is kept in
the browser's local storage.

The modules follow the source files:

- `Types` is `types.ts`: the event types, the `ACTIONS` list, the records and the views.
- `Constants` is `constants.ts`: the fixed scenario and its targets.
- `Counts` covers `createEmptyCounts` and the relation between the counters and the event log.
- `Scoring` covers the variance reduce in `handleStop` and the feedback tiers of the report.
- `Board` treats the leaderboard as a value. It holds the stable sort by variance, the rank shown on the report and delete-by-id.
- `Text` holds the JavaScript `trim` behind the blank-name test and the integer part of `formatTime`.
- `AppState` holds the class `App`. Its fields are the component's state variables plus the saved leaderboard entry. Its methods are the handlers.

Each handler runs to completion on the current state. Fresh ids and
`Date.now()` readings are passed in as parameters. The class invariant
`Valid` says two things: the counters always equal the tally of the event
log, and the board is always sorted by variance.

## Model

| member | source | states |
|---|---|---|
| Types.AllListed | types.ts:1-3 | every event type appears in `ACTIONS` |
| Constants.TargetsComplete | constants.ts:20-31 | the scenario's targets cover every event type, and none is negative |
| Counts.ZeroFold | App.tsx:21 | the `{ ...acc, [key]: 0 }` reduce step by step; it carries no contract of its own, and its facts are stated by `Counts.ZeroFoldSpec` |
| Counts.ZeroFoldSpec | App.tsx:20-21 | the reduce keeps the accumulator's keys and adds the listed ones; listed keys become 0 and all others keep their value |
| Counts.CreateEmptyCounts | App.tsx:20-21 | the result has every event type, each with count 0 |
| Counts.CountBounded | App.tsx:572-577 | a type's count is at most the log length, and is 0 exactly when no logged event has that type |
| Counts.EmptyTally | App.tsx:500-501 | the empty log tallies to the empty counts the state starts with |
| Counts.TallyAppend | App.tsx:563-570 | logging one event adds exactly one to its own type's tally and changes no other type |
| Counts.TallyPop | App.tsx:572-577 | the last event's type has a tally of at least 1; dropping that event lowers that tally by one, so the floor at 0 never takes effect |
| Counts.Max0 | App.tsx:575 | `Math.max(0, n)` is non-negative, at least `n`, and equal to `n` or 0 |
| Counts.TallySum | App.tsx:548 | the five tallies add up to the log length, so `totalEvents` agrees with the counts |
| Scoring.Abs | App.tsx:540 | `Math.abs` on integers: a non-negative result equal to the argument or its negation |
| Scoring.VarianceFold | App.tsx:539-541 | the reduce over the keys never falls below its starting accumulator |
| Scoring.VarianceFoldExact | App.tsx:539-541 | the reduce equals its starting accumulator exactly when every listed count meets its target |
| Scoring.Variance | App.tsx:539-541 | the variance is non-negative, and 0 exactly when the counts equal the targets |
| Scoring.TotalVariance | App.tsx:539-541 | the session variance against the fixed scenario is non-negative, and 0 exactly when the counts equal the scenario's targets |
| Scoring.VarianceSymmetric | App.tsx:539-541 | swapping counts and targets does not change the variance |
| Scoring.VarianceExpanded | App.tsx:539-541 | the variance is the sum of the five per-type absolute differences |
| Scoring.FeedbackTier | App.tsx:311-320 | top exactly below 10, mid exactly from 10 to 30 inclusive, low exactly above 30 |
| Scoring.TierMonotone | App.tsx:311-320 | a lower variance never earns a worse tier |
| Scoring.TierBoundaries | App.tsx:311-320 | 9 is top, 10 and 30 are mid, 31 is low |
| Scoring.PerfectSessionIsTop | App.tsx:311-320 | counts equal to the targets score 0, which is the top tier |
| Scoring.ShortSessionIsMid | App.tsx:539-541 | a session missing four passes, the shot and eight scans scores 13, which is mid |
| Board.Insert | App.tsx:556 | the insertion step of the stable sort makes the board exactly one longer |
| Board.InsertPermutes | App.tsx:556 | inserting adds exactly the new record: the old board's multiset plus the record |
| Board.InsertSorted | App.tsx:556 | inserting into a sorted board keeps it sorted |
| Board.StableSort | App.tsx:511 | the sort's result is ascending by variance and a permutation of its input |
| Board.InsertStable | App.tsx:556 | inserting keeps, for every variance, the order of the records with that variance, with the new record after the older ones that tie it |
| Board.SortIsStable | App.tsx:556 | for every variance, the sorted board lists the records with that variance in their input order |
| Board.SortOfSorted | App.tsx:511 | sorting an already sorted board changes nothing |
| Board.AppendThenSort | App.tsx:556 | appending to a sorted board and then sorting is the same as inserting the record |
| Board.Added | App.tsx:556 | the new board is the old one with the record inserted: sorted, one longer, the old records plus the new one; with a fresh id, its rank is one more than the number of old records with variance at most its own |
| Board.CountAtMostSort | App.tsx:556 | sorting does not change how many records have variance at most `v` |
| Board.FindIndex | App.tsx:301 | `findIndex` gives -1 exactly when the id is absent; otherwise it gives the first position holding the id |
| Board.Rank | App.tsx:301 | the rank is 0 exactly when the id is absent; otherwise it is the 1-based position of the first record with that id |
| Board.FindIndexInsert | App.tsx:301 | a fresh record inserted into a sorted board sits after exactly the records whose variance is at most its own |
| Board.RankOfAdded | App.tsx:301 | after the stop, a fresh record's rank is 1 plus the number of earlier records whose variance is at most its own, so ties rank below older entries |
| Board.ThreeInsertsRank | App.tsx:301 | three stops scoring 30, 5 and 12 on an empty board leave it reading 5, 12, 30, and the 12-variance session ranks 2 |
| Board.RemoveId | App.tsx:608 | `filter` keeps exactly the records whose id differs, and the result is never longer |
| Board.RemoveIdAppend | App.tsx:608 | filtering distributes over concatenation, so the kept records stay in order |
| Board.RemoveAbsentId | App.tsx:608 | deleting an id that is not on the board leaves the board unchanged |
| Board.RemoveIdSorted | App.tsx:608 | deleting from a sorted board keeps it sorted |
| Board.RemoveIdLength | App.tsx:608 | the board gets shorter by exactly the number of records carrying the id |
| Text.IsJsSpace | App.tsx:528 | the characters `trim` strips: the ECMAScript WhiteSpace and LineTerminator code points; a plain predicate with no contract |
| Text.TrimStart | App.tsx:528 | the result is a suffix that does not start with whitespace, and every dropped character is whitespace |
| Text.TrimEnd | App.tsx:528 | the result is a prefix that does not end with whitespace, and every dropped character is whitespace |
| Text.Trim | App.tsx:528 | `s.trim()` is never longer than `s` and neither starts nor ends with whitespace, and it is empty exactly when every character is whitespace; the slice facts live in `Text.TrimStart` and `Text.TrimEnd` |
| Text.IsBlank | App.tsx:528 | the `!operator.trim()` guard `App.Start` branches on; a predicate with no contract, whose meaning is stated by `Text.BlankIffAllSpace` |
| Text.BlankIffAllSpace | App.tsx:528 | a name is rejected exactly when every character of it is whitespace, including the empty name |
| Text.JsRem | App.tsx:26 | JavaScript's `%` by a positive divisor: Dafny's `%` on a non-negative dividend, and a non-positive remainder on a negative one |
| Text.JsRemOdd | App.tsx:26 | the truncating remainder is odd in its dividend (`-7 % 60` is `-7`, not Dafny's `53`) |
| Text.FormatTimeParts | App.tsx:23-28 | for a non-negative duration, the minute and second fields split the whole seconds, with seconds in 0..59 and total seconds equal to `floor(ms / 1000)`; a negative duration shows negative minutes and a non-positive seconds field |
| AppState.SessionResult | App.tsx:536-553 | the record carries the operator, timestamp, scenario id and snapshots of the counts and targets; its `totalEvents` equals the log length and the sum of the counts; its `totalVariance` is the non-negative score, 0 exactly when the counts hit the targets |
| AppState.App.constructor | App.tsx:496-504 | the initial state: idle view, empty name, no clock, empty counts and log, no report, empty board, disarmed |
| AppState.App.Load | App.tsx:506-515 | saved records replace the board, sorted by variance; an entry that is missing, fails to parse or is not an array leaves the board unchanged |
| AppState.App.EditOperator | App.tsx:210 | the name field holds what was typed |
| AppState.App.Proceed | App.tsx:619 | the intro's button moves to the name input |
| AppState.App.ShowLeaderboard | App.tsx:72 | the header button shows the leaderboard |
| AppState.App.Start | App.tsx:527-534 | a blank name changes nothing; otherwise every count is 0, the log is empty, the clock starts at `now` and the view is active |
| AppState.App.Begin | App.tsx:529-533 | counts reset to 0, an empty log, the clock at `now`, elapsed 0 and the active view, with the invariant kept |
| AppState.App.Action | App.tsx:563-570 | the action's count goes up by exactly one, no other count changes, and exactly one event of that type is appended |
| AppState.App.Undo | App.tsx:572-577 | on an empty log nothing changes; otherwise the last event is removed and its type's count goes down by exactly one |
| AppState.App.ShowResult | App.tsx:537-560 | the view becomes the report, the record becomes the last report, the board becomes the stable sort of the old board plus the record, storage holds the new board, and the name is cleared |
| AppState.App.Stop | App.tsx:536-561 | the last report is the session's record; the board is the old board plus that record, stably sorted and saved; the view is the report, the name is cleared, and the invariant holds |
| AppState.App.ResetToIdle | App.tsx:579-583 | the view is the intro, the name is cleared and no report is kept |
| AppState.App.StationClick | App.tsx:585-592 | the view is the report when one exists and is not already showing; otherwise it is the intro |
| AppState.App.ClearLeaderboard | App.tsx:594-603 | a press while armed empties the board, removes the saved entry and disarms; otherwise the press only arms |
| AppState.App.Disarm | App.tsx:601 | the timeout disarms the clear button |
| AppState.App.DeleteEntry | App.tsx:605-611 | the board keeps exactly the records with other ids, the id no longer ranks, and the board stays sorted; an unknown id leaves the board unchanged, and the entry is still rewritten with it; the result is always saved |
| AppState.ActionThenUndo | App.tsx:563-577 | an undo right after an action restores the counts and the log, and changes no other field |
| AppState.ClearTwiceThenLoad | App.tsx:594-603 | two presses of clear empty the board and its saved entry, and a later load restores nothing |

## Left out

- Rendering, the JSX views and the button components are not modelled. The only parts kept are the handlers wired to the buttons and the view each one selects.
- The elapsed-time tick (App.tsx:517-525, every 100 ms) is not modelled. `elapsed` changes only in `Start`.
- The 3-second auto-disarm timer of the clear button is modelled as an explicit `Disarm` event, with no notion of time.
- Id generation and `Date.now()` are not modelled. Fresh ids and timestamps are parameters of the handlers.
- local storage is modelled as the field `storage` of type `Blob`. The entry is absent, or fails to parse or is not an array, or is an array of saved records. JSON encoding is not modelled.
- AppState.App.Load: an empty saved string is treated like an absent entry. Text that fails to parse, or parses to a non-array, is the `Unreadable` entry; in the source, `JSON.parse` throws or `data.sort` throws into the empty catch, and the board stays unchanged.
- AppState.App.Load: the model assumes that a parsed array holds well-formed records with integer variances. The source never checks this, because `as SessionRecord[]` is only a compile-time cast. An array of other values, such as `[1,2,3]` or records without `totalVariance`, still goes on the board. The comparator then returns NaN, `sort` treats every such pair as a tie, and the loaded board need not be sorted by variance. The invariant `Valid` does not cover that case.
- Text.FormatTimeParts: the two-digit `padStart` rendering and the `m:s` string are not modelled, only the two integer fields.
- Strings are sequences of Unicode scalar values, not UTF-16 code units. `trim` is modelled over the ECMAScript whitespace and line-terminator characters.
- Numbers are unbounded integers. Counts, variances and timestamps never come near the 2^53 range of JavaScript numbers here.
- React's batching and stale closures are not modelled. Each handler reads the state as it was before the call, and a state update is applied once the handler returns.
- The Enter key's `operator && handleStart()` guard and the disabled Start button are not modelled separately. `Start` already does nothing for a blank name, and the empty name is blank.
- Deleting an id that is not on the board is not a no-op on storage. `AppState.App.DeleteEntry` rewrites the saved entry with the board every time, as App.tsx:610 does. A missing or unreadable entry becomes the saved board, and an entry that was unsorted when loaded is rewritten in sorted order.
- Every handler may be called in every view. In the source, a button is wired only in the view that renders it. Action, Undo and Stop exist only in the active view, and delete only on a listed row. So facts that hold only in reachable states are not proved. Examples are a record's `operatorName` never being blank, or a deleted id always being on the board.
- `Sorted` orders by variance only. For records of equal variance, the stable insertion order is stated by `Board.SortIsStable`.
