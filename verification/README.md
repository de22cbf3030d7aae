# SmartPlanner, modelled and proved in Dafny

SmartPlanner plans tasks into the free minutes of a day or a week, saves the resulting
schedules with undo and redo, generates the tasks of repeating activities, and exports
schedules as iCalendar and CSV. This project models those four parts and proves what they
promise. `dafny verify dfyconfig.toml` checks everything.

## The parts

**The minute-grid planner.** `PlanningModels` holds the values, `Grid` the planning context
(horizon, minute mask, clipped events, day ranges, task order), and `PlannerSpec` the meaning
of each planning step as a function. `Planner` is the planner as the program has it: an object
whose constructor and methods fill an availability array, append to `busy`, `blocks` and
`unscheduled`, and pay for every scored candidate from a search budget. Each of its loops is
proved to compute the corresponding function, and `PlannerRuns` closes the chain: the method
that builds a preview returns exactly `BuildPreview`, the method that inspects a layout exactly
`Inspect`. The theorems are about those functions:

- a preview meets every hard constraint exactly, although the planner rounds and clips to
  minutes (`PreviewTheorems`, `ExactConstraints`);
- placement succeeds exactly when there is capacity, and a task that fails leaves no trace but
  its report (`PlaceFacts`, `AllocatePhase`);
- the slot search takes the strongest pause with room, the longest piece allowed and the cheapest
  start, and the price is counted in minutes by local hour and local day (`SlotTheorems`,
  `CostTheorems`);
- each task keeps its previous placement on its own merits, whatever becomes of the others
  (`KeptWork`);
- the validator accepts exactly the sound layouts, in any order, and agrees with the planner
  (`LockPhase`, `PlannerAgreement`);
- planning again from a preview keeps every block, and changes nothing unless a search limit
  was met (`Replanning`);
- a request is accepted exactly when its parts are sound, and the order of its lists, previous
  blocks included, matters neither to a preview nor to an inspection (`InputOrder`,
  `PreviousOrder`);
- refusals, reasons, warnings and the order of the blocks mean what they say (`RequestTheorems`,
  `ReportTheorems`, `PlanNotes`).

**Saved schedules.** `ScheduleSteps` gives each command (create, replace, undo, redo) and each
edit of a task or preference as one atomic step on one owner's rows; `ScheduleStore` is the
repository object whose methods perform them on table fields. A run is any sequence of steps.
`ScheduleInvariants` and `ScheduleRuns` prove the inductive invariant, with the planner's
validator inside it; `ScheduleTheorems`, `ScheduleReceipts`, `HistoryZipper` and
`ReachableStates` prove what holds over whole runs: no overlap, no task in two schedules,
protected locked and started work, effects exactly once, sources that never become fresh again,
and a history that is a bounded undo zipper. `HistoryRechecks` adds an invariant about
neighbouring revisions, from which `UndoRedo` derives exactly when an undo or a redo commits;
`CommitConditions` says exactly when a creation and a replacement commit and which refusal comes
first.

**Repeating activities.** `Recurrence` gives pattern expansion and the generation step,
`RecurrenceStore` the repository object and its loops, `RecurrenceTheorems` idempotence over
runs, confluence, the report and the fate of every date, and `GenerationExact` the dates and tasks
themselves, without the functions that compute them.

**Exports.** `ExportRows` builds and orders the rows and their stamps; `TextLines`,
`CalendarText`, `CalendarFile` and `CsvFile` write the two formats and read them back with
readers written from sections 3.1 and 3.3.11 of RFC 5545 and section 2 of RFC 4180;
`ExportTheorems` compares what is read back with the schedule, block by block.

## Modelling decisions

- Time is an integer. Windows and blocks are whole minutes since the epoch; earliest starts,
  deadlines and the clock are microseconds, so that ceiling and floor stay visible. A time zone
  is three arbitrary functions (midnight of a date, local date, local hour).
- Identifiers are natural numbers; tasks are ordered by them as the program orders canonical
  text. A fresh identifier is a parameter, and one that is taken is refused.
- A command's digest stands for the whole command: two digests agree exactly when operation,
  schedule and payload agree.
- A transaction is one step that commits or leaves every row as it was; the owner row lock
  makes the steps of one owner a sequence. Clock readings are parameters.
- Preconditions named `ValidInputs`, `ValidDraft`, `ValidCommand` and `ValidAction` are what the
  request models check before any of this code runs.
- Dafny's characters are Unicode scalar values, which is how the export iterates over a title.

## Findings

- `src/smartplanner/web/planner_export.mjs:2`: a carriage return, or another control character,
  inside a title reaches the calendar file, because only line feeds are escaped.
  `CalendarText.CarriageReturnEscapes` shows it for the title `a`, carriage return, `b`, which the
  title contract accepts; `CalendarText.ConformingExact` gives the exact condition under which the
  written value is a text value of section 3.3.11. Reading the title back works for all titles.
- `src/smartplanner/web/planner_export.mjs:6`: the formula guard of the CSV export is not
  injective. `CsvFile.GuardCollision` shows the texts `=x` and `'=x` in one cell;
  `CsvFile.GuardCollides` says exactly which texts share a guarded form.

## Model

| member | source | states |
|---|---|---|
| PlannerMachine.Gaps | src/smartplanner/scheduler.py:25-34 | the generated gaps are exactly the maximal free runs of the range, left to right and separated |
| Masks.LongestGap | src/smartplanner/scheduler.py:175-178 | the longest gap is the greatest length any legal start in the range can carry |
| Masks.NothingLonger | src/smartplanner/scheduler.py:175-178 | no piece longer than the longest free run fits anywhere in the bounds |
| PlannerBuild.PaintAvailability | src/smartplanner/scheduler.py:57-63 | the array ends up set exactly at declared minutes from the clock on, or a window outside the horizon is refused |
| PlannerBuild.ClearEvents | src/smartplanner/scheduler.py:65-72 | sorted events are clipped and taken out of the mask one by one; an event outside the horizon or overlapping its predecessor stops with its error |
| PlannerBuild.SplitDays | src/smartplanner/scheduler.py:73-87 | one pass yields the local-day ranges and three prefix sums that count minutes outside each period |
| PlannerBuild.PrefixDifference | src/smartplanner/scheduler.py:86-87 | a difference of prefix sums is the minute-by-minute count over any stretch |
| PlannerBuild.DayTargets | src/smartplanner/scheduler.py:88-89 | each day's target is its workload share of its free minutes, at least one |
| PlannerBuild.GroupPrevious | src/smartplanner/scheduler.py:93-96 | keeps the previous blocks of pending tasks and each such task's earliest start |
| GridFacts.DayRangesArePartition | src/smartplanner/scheduler.py:73-81 | day ranges are non-empty, adjacent, and cover the horizon from its first minute to its last |
| GridFacts.DayRangesSameDay | src/smartplanner/scheduler.py:73-81 | all minutes of a range have one local date |
| GridFacts.DayRangesChange | src/smartplanner/scheduler.py:73-81 | neighbouring ranges have different local dates, so the ranges are maximal |
| GridFacts.BuiltGridOK | src/smartplanner/scheduler.py:38-96 | a planner that is built satisfies the invariant every later phase relies on: masks inside availability, disjoint events, known tasks and blocks |
| InputOrder.EventsAcceptedExactly | src/smartplanner/scheduler.py:65-72 | comparing each sorted event with the one before it accepts exactly the events that meet the horizon and are pairwise disjoint inside it |
| RequestTheorems.HorizonExact | src/smartplanner/scheduler.py:41-49 | the horizon runs from the first local midnight to the last, in whole minutes, up to eight days, with a first date that exists and is not past |
| RequestTheorems.HorizonRefused | src/smartplanner/scheduler.py:41-49 | a past date is refused first, then days that do not exist or are too short or long, then midnights between minutes |
| RequestTheorems.RequestExact | src/smartplanner/scheduler.py:38-72 | a planner is built if and only if the dates form a horizon that is not past, the snapshot holds exactly the selected tasks once, all windows lie inside, every event has a minute inside and no two share one |
| RequestTheorems.RequestRefused | src/smartplanner/scheduler.py:38-72 | refusals come in the order snapshot, window, events, and an event refusal names a cause that is there |
| InputOrder.QueueExact | src/smartplanner/scheduler.py:106-107 | of two tasks in the planning order the first is due no later inside the horizon, at equal due times has no lower priority, and at equal priority the smaller identifier; each pending task once and no other |
| InputOrder.PreviewIgnoresOrder | src/smartplanner/scheduler.py:250-267 | permuting tasks, availability windows, events, selected identifiers and previous blocks gives the same preview or the same error |
| PreviousOrder.PlanSame | src/smartplanner/scheduler.py:125-152 | two planners whose previous blocks differ only in order keep, place and report the same, whatever ties their starts have |
| ExactConstraints.BoundsExact | src/smartplanner/scheduler.py:101-104 | clipped and rounded bounds hold for a block inside the horizon exactly when earliest start, deadline and clock hold in microseconds |
| ExactConstraints.EventsMissed | src/smartplanner/scheduler.py:65-72 | avoiding all clipped events is avoiding all events as given |
| ExactConstraints.HardExact | src/smartplanner/scheduler.py:98-119 | the minute-level check of one block is equivalent to the exact constraints: horizon, declared availability, events, earliest start, deadline, clock |
| PlannerMachine.MakeFreeMask | src/smartplanner/scheduler.py:109-114 | the copied array is free exactly at available minutes farther than the pause from every busy interval |
| PlannerMachine.UsageOf | src/smartplanner/scheduler.py:154-156 | per-day minutes used by the intervals |
| PlannerMachine.Planner.CheckBlock | src/smartplanner/scheduler.py:116-119 | a block is valid exactly when it lies inside its task's bounds on free minutes |
| PlannerMachine.Planner.Reserve | src/smartplanner/scheduler.py:121-123 | appends one block and keeps `busy` equal to the clipped events followed by every block's interval |
| LockPhase.ValidAgainst | src/smartplanner/scheduler.py:109-119 | validity against the current busy list is the fixed constraints plus being disjoint from every reserved block |
| LockPhase.ReserveLocksExact | src/smartplanner/scheduler.py:127-137 | reserving the locks key by key succeeds if and only if every duration fits and all blocks together are a sound layout, and then holds exactly them |
| LockPhase.LockSequenceComplete | src/smartplanner/scheduler.py:127-129 | the lock phase visits every locked previous block exactly once |
| LockPhase.LockPhaseExact | src/smartplanner/scheduler.py:125-137 | the whole phase accepts if and only if the locked blocks respect durations and divisibility and form a sound, pairwise disjoint layout, whatever the order |
| ReportTheorems.PreserveRefused | src/smartplanner/scheduler.py:126-137 | locked work is refused for its duration only when some task's locks do not fit it, and for its place only when the locks are not a sound layout |
| PlannerMachine.Planner.ReserveLockedWork | src/smartplanner/scheduler.py:126-137 | the loops over keys and locks compute the lock phase or its first error |
| KeepPhase.AllKeptExact | src/smartplanner/scheduler.py:144-152 | checking movable blocks against a running mask accepts exactly the lists that extend the layout soundly |
| KeepPhase.KeepMovableSound | src/smartplanner/scheduler.py:138-152 | keeping movable placements task by task preserves a sound layout |
| KeepPhase.KeepsEverything | src/smartplanner/scheduler.py:138-152 | placements that are whole and jointly sound are all kept |
| KeptWork.PreserveExact | src/smartplanner/scheduler.py:138-152 | after the phase a task holds all its previous blocks if and only if none is movable, or they are whole and the movable ones are possible and clear of every lock and of everything kept for an earlier task; otherwise it holds its locks |
| KeptWork.PreviewKeepsWhole | src/smartplanner/scheduler.py:138-152 | a whole placement that meets the exact constraints and is clear of the previous blocks of other pending tasks is in the preview, whatever becomes of the others |
| PlannerMachine.Planner.KeepTaskWork | src/smartplanner/scheduler.py:139-152 | one task's movable blocks are reserved all together or not at all |
| PlannerMachine.Planner.PreservePrevious | src/smartplanner/scheduler.py:125-152 | the method computes both preservation phases |
| PlannerMachine.Planner.Score | src/smartplanner/scheduler.py:158-170 | the cost from prefix sums equals the cost counted minute by minute over periods, day targets and distance to the old start |
| PlannerMachine.Planner.ScanGaps | src/smartplanner/scheduler.py:181-191 | the nested candidate loops return the best legal start or exhaust the budget, paying one unit for each candidate |
| PlannerMachine.Planner.SearchSlot | src/smartplanner/scheduler.py:172-192 | the search over both pause levels computes the slot function and charges the budget for exactly the candidates scored |
| SearchFacts.SearchLevelMeaning | src/smartplanner/scheduler.py:181-191 | a level with room is never reported empty; it finds its best start when the budget covers its legal starts and otherwise exhausts the budget |
| SlotTheorems.FitsExact | src/smartplanner/scheduler.py:109-119 | a legal start on the pause mask is one whose piece lies inside the bounds, on available minutes, and at least the pause away from everything occupied |
| SlotTheorems.SlotExact | src/smartplanner/scheduler.py:172-192 | the search takes the preferred pause when an allowed piece fits with it and none otherwise, then the longest piece within missing minutes and focus length, then the cheapest and earliest start; it reports nothing exactly when nothing fits, and pays one unit for each start that fits or stops exactly when it cannot |
| CostTheorems.CostExact | src/smartplanner/scheduler.py:158-170 | the price counts minutes by local hour outside the three preferred periods with weights 6, 2 and 1, and minutes beyond each day's target, all per minute of the piece and rounded down as the program does, plus the displacement |
| CostTheorems.MoveExact | src/smartplanner/scheduler.py:167-169 | moving away from the task's first previous start costs 8, 3 or 1 for every fifteen minutes by flexibility; without previous blocks nothing |
| CostTheorems.TargetsExact | src/smartplanner/scheduler.py:88-89 | a day's target is half, three quarters or all of its available minutes, at least one |
| CostTheorems.UsedExact | src/smartplanner/scheduler.py:154-156 | adding up shares of separate intervals counts every covered minute of a day once |
| SearchFacts.PieceKeepsPause | src/smartplanner/scheduler.py:109-114 | a piece found at a pause level is at least that pause away from every busy interval, on both sides |
| PlaceFacts.PlacedPiecesFit | src/smartplanner/scheduler.py:194-222 | the pieces of a placed task lie in its bounds on free minutes, are pairwise disjoint, and add up to the missing minutes |
| PlaceFacts.PlacedPiecesShape | src/smartplanner/scheduler.py:172-178 | pieces of a splittable task never exceed the focus length; an unsplittable task gets one piece |
| PlaceFacts.PlacedPiecesCap | src/smartplanner/scheduler.py:205-206 | a placement never takes the block count over 512 |
| PlaceFacts.PlaceExact | src/smartplanner/scheduler.py:194-222 | barring the search limit, a task is placed if and only if its capacity suffices: all free minutes in bounds when splittable, the longest free run when not |
| PlaceFacts.PlaceBudget | src/smartplanner/scheduler.py:186-188 | the budget never rises and is never overdrawn |
| PlannerMachine.Planner.FindPieces | src/smartplanner/scheduler.py:202-216 | the while loop collects exactly the pieces of the specified placement and reserves nothing yet |
| PlannerMachine.Planner.AllocateTask | src/smartplanner/scheduler.py:194-232 | the method performs one all-or-nothing allocation on `blocks`, `busy`, `unscheduled` and `budget` |
| AllocatePhase.AllocateOutcome | src/smartplanner/scheduler.py:194-232 | a success appends pieces that complete the task; any other outcome leaves every block and adds one report with the missing minutes |
| AllocatePhase.AllocateOthers | src/smartplanner/scheduler.py:194-232 | allocating one task never touches another's blocks |
| AllocatePhase.AllocateKeepsLayout | src/smartplanner/scheduler.py:194-232 | one allocation keeps the layout sound, within durations and at most 512 blocks |
| AllocatePhase.ReportIsShortfall | src/smartplanner/scheduler.py:257-259 | the report lists exactly the tasks whose placed minutes fall short, in planning order, with the missing minutes |
| ReportTheorems.ReasonsExact | src/smartplanner/scheduler.py:223-232 | a reported reason is a passed deadline exactly when no whole minute from the clock on lies between the bounds, a search limit only when the budget is spent or 512 blocks could be passed, and otherwise no slot |
| AllocatePhase.AllocateAllBudget | src/smartplanner/scheduler.py:257-259 | over all tasks the budget never rises and is never overdrawn |
| PlannerRuns.NewPlanner | src/smartplanner/scheduler.py:38-96 | construction from the request yields exactly the specified grid with empty work, or the first error |
| PlannerRuns.PlanPreview | src/smartplanner/scheduler.py:250-267 | building a preview imperatively equals the specified preview with its sorted events, ignored tasks, versions and warnings, and the candidates scored never exceed the search budget |
| PlannerMachine.Planner.Warnings | src/smartplanner/scheduler.py:234-247 | the three checks over sorted busy intervals, used minutes and placed tasks compute the specified warnings in order |
| PlanNotes.BreakWarningExact | src/smartplanner/scheduler.py:234-240 | comparing sorted neighbours warns about breaks if and only if some two occupied intervals are closer than the preferred pause |
| CostTheorems.LoadWarningsExact | src/smartplanner/scheduler.py:241-246 | the workload warning means a local day with more placed minutes than its target, the focus warning a placed task that may not be split and is longer than the focus length |
| ReportTheorems.NotesExact | src/smartplanner/scheduler.py:260-267 | every preview warns about workload and focus exactly then, gives each task's version, and lists the events by time |
| PlannerRuns.PreviewNotesExact | src/smartplanner/scheduler.py:260-267 | every preview warns about breaks exactly when two of its occupied intervals are too close, and ignores exactly the tasks that are not pending, in order |
| PreviewTheorems.PreviewSound | src/smartplanner/scheduler.py:250-267 | every successful preview meets every hard constraint exactly, has pairwise disjoint blocks, at most 512, none before the clock, totals within durations, and an exact report |
| PreviewTheorems.MinutesConserved | src/smartplanner/scheduler.py:194-232 | for each pending task, placed minutes plus reported minutes equal its duration |
| PreviewTheorems.PreviewOrigins | src/smartplanner/scheduler.py:125-152 | every locked previous block of a pending task is in the preview unchanged; a new block is unlocked and, for a splittable task, at most the focus length |
| ReportTheorems.PreviewInOrder | src/smartplanner/scheduler.py:262 | the blocks of a preview follow one another in time |
| ReportTheorems.PreviewHorizon | src/smartplanner/scheduler.py:260-262 | a preview spans the local days asked for, from midnight to midnight |
| Replanning.ReplanKeepsEveryBlock | src/smartplanner/scheduler.py:125-152 | feeding a preview back as previous blocks always succeeds and keeps every block, whatever the new budget |
| Replanning.ReplanIsStable | src/smartplanner/scheduler.py:250-267 | if the first run met no search limit, the second run returns the same blocks and the same missing minutes |
| Replanning.LeftOut | src/smartplanner/scheduler.py:194-222 | a task left out without a search limit has no capacity for its missing minutes in the final layout |
| PlannerRuns.InspectLayout | src/smartplanner/scheduler.py:270-299 | inspecting imperatively, with every block treated as a lock, equals the specified inspection with its ignored tasks and warnings |
| PlannerAgreement.InspectExact | src/smartplanner/scheduler.py:270-299 | for an accepted window the validator succeeds if and only if the layout is exact, disjoint and within totals; it reports the shortfalls, and a failure says whether some task was not pending |
| PlannerAgreement.InspectRefusesWindow | src/smartplanner/scheduler.py:280-285 | with only pending tasks, a window that is not accepted is reported with its own error |
| InputOrder.InspectIgnoresOrder | src/smartplanner/scheduler.py:270-299 | permuting blocks, tasks, windows and events gives the same answer: the same missing minutes or the same error |
| PlannerAgreement.PlannerMeetsValidator | src/smartplanner/scheduler.py:250-299 | every preview is accepted by the validator over the same horizon, with the same missing minutes in the same order |
| ScheduleStoreMachine.ScheduleStore.ProtectPlacements | src/smartplanner/schedule_repository.py:38-51 | the loop finds the first protected block that moved, then any new block in the past |
| ScheduleStoreMachine.ScheduleStore.ValidateDraft | src/smartplanner/schedule_repository.py:131-161 | sources, dates, placements, layout and events are checked in that order with these errors |
| ScheduleStoreMachine.ScheduleStore.Allocate | src/smartplanner/schedule_repository.py:163-172 | deleting and inserting rows replaces the schedule's allocations by one row for each task with a block |
| ScheduleStoreMachine.ScheduleStore.CreateSchedule | src/smartplanner/schedule_repository.py:191-208 | the method performs the creation step on the table fields, or changes nothing |
| ScheduleStoreMachine.ScheduleStore.ReplaceSchedule | src/smartplanner/schedule_repository.py:210-230 | the method performs the replacement step, or changes nothing |
| ScheduleStoreMachine.ScheduleStore.TravelSchedule | src/smartplanner/schedule_repository.py:232-255 | the method performs the undo or redo step, or changes nothing |
| ScheduleStoreMachine.ScheduleStore.UpdateTaskRow | src/smartplanner/repository.py:139-163 | a patch is applied only to a live task at its live version and only if the whole patched task is valid; each refusal has its own error and changes nothing |
| ScheduleStoreMachine.ScheduleStore.DeleteTaskRow | src/smartplanner/repository.py:165-177 | deletion leaves a tombstone with a raised version |
| ScheduleStoreMachine.ScheduleStore.UpdatePreferenceRow | src/smartplanner/repository.py:185-200 | preferences are written only at their live version, which rises |
| ScheduleCommits.ValidateFacts | src/smartplanner/schedule_repository.py:146-161 | a passed validation means fresh sources, blocks inside the zone's horizon and pairwise disjoint, protected placements kept, and an unchanged horizon |
| CommitConditions.PlacementExact | src/smartplanner/schedule_repository.py:38-51 | the placement check passes if and only if locked and started blocks of live pending tasks stay and no added block starts in the past |
| CommitConditions.ElsewhereExact | src/smartplanner/schedule_repository.py:163-168 | the allocation table refuses exactly the tasks that have a block in the current revision of another schedule |
| CommitConditions.ContentExact | src/smartplanner/schedule_repository.py:146-161 | with live sources the content passes if and only if the dates form a horizon, windows and events lie inside, no two events meet, and the blocks are an exact layout within durations; the stored report lists the missing minutes |
| CommitConditions.CreateExact | src/smartplanner/schedule_repository.py:191-208 | a new creation commits if and only if its sources are live, its date and blocks are not past, its content holds, no instant of its horizon lies in a saved one, its identifier is new and no task has time elsewhere; it stores the first revision |
| CommitConditions.CreateRefused | src/smartplanner/schedule_repository.py:191-208 | the refusals of a creation come in the program's order, each with its own code |
| CommitConditions.ReplaceExact | src/smartplanner/schedule_repository.py:210-230 | a new replacement commits if and only if it names the current version below the limit, its sources are live, its dates are the schedule's, protected work stays, nothing is added in the past, its content holds and no task has time elsewhere; it stores the next revision |
| CommitConditions.ReplaceRefused | src/smartplanner/schedule_repository.py:210-230 | the refusals of a replacement come in the program's order; the first block that should have stayed names its refusal |
| CommitConditions.UpdateExact | src/smartplanner/repository.py:139-163 | an edit sets exactly the fields it names and raises the version; it is refused unknown, stale or invalid, in that order |
| CommitConditions.EditsExact | src/smartplanner/repository.py:79-200 | a new task is live at version 1; deletions and preference edits need the live version below the limit and raise it |
| ScheduleCommits.ExecuteCommits | src/smartplanner/schedule_repository.py:191-255 | every command that changes any row is one of three commits, with its response |
| ScheduleInvariants.CommitOK | src/smartplanner/schedule_repository.py:210-255 | a commit leaves its schedule numbered, within its history limit and its own horizon, one version up |
| ScheduleRuns.StepKeepsInv | src/smartplanner/schedule_repository.py:191-255 | every command and every edit keeps the whole invariant |
| ScheduleRuns.NewOwnerInv | src/smartplanner/schedule_repository.py:191-208 | an owner without schedules satisfies the invariant |
| ScheduleRuns.EnvironmentForward | src/smartplanner/repository.py:139-200 | edits never lower a version, never revive a deleted task and never touch schedules |
| ScheduleTheorems.NoOverlap | src/smartplanner/schedule_repository.py:199-201 | no two blocks of current revisions overlap, within or across schedules |
| ReachableStates.NeverOverlapping | src/smartplanner/schedule_repository.py:191-255 | after any run of commands and edits by a new owner, no two current blocks overlap in time |
| ReachableStates.AllocatedOnce | src/smartplanner/schedule_repository.py:163-172 | after any run the allocation table is exactly the projection of current revisions, so no task has time in two schedules |
| ReachableStates.VersionsApplied | src/smartplanner/schedule_repository.py:178-189 | after any run a schedule's receipts carry exactly the versions 1 to its version, each once, and at most 20 revisions remain, the current one among them |
| ReachableStates.NotStaleStillValid | src/smartplanner/schedule_repository.py:76-95 | after any run, a schedule whose view is not stale still passes every content check against the live rows, and all its blocks are of live pending tasks |
| ReachableStates.CommittedWorkPending | src/smartplanner/schedule_repository.py:146-161 | every block a commit makes current belongs to a task that is live and pending at that commit |
| ScheduleTheorems.RunPersists | src/smartplanner/schedule_repository.py:210-255 | schedules are never removed, their horizon and zone never change, and their version never falls |
| ScheduleTheorems.StepProtects | src/smartplanner/schedule_repository.py:38-49 | no step moves or drops a locked or started block of a live pending task |
| ScheduleTheorems.StepAddsNoPast | src/smartplanner/schedule_repository.py:50-51 | a block that a step adds does not start before that step's clock |
| ScheduleTheorems.LockedUntilUnlocked | src/smartplanner/schedule_repository.py:38-51 | along any run, undo and redo included, a locked block of a task that stays pending keeps task, start and end up to and including the first later state that holds it unlocked |
| ScheduleTheorems.StartedStays | src/smartplanner/schedule_repository.py:48-49 | with a clock that does not run back, started work of a task that stays pending is in every later state |
| ScheduleTheorems.FreshView | src/smartplanner/schedule_repository.py:76-95 | a view is stale if and only if some recorded task or preference version is not the live one |
| CommitConditions.ViewExact | src/smartplanner/schedule_repository.py:64-95 | a view names exactly the recorded tasks that are gone and those live at another version, whether preferences moved on, and whether older or newer revisions exist |
| ScheduleTheorems.CommitAnswersFresh | src/smartplanner/schedule_repository.py:76-95 | a command that commits answers with a view that is not stale and is not a replay |
| ScheduleTheorems.StaleNeverReturns | src/smartplanner/schedule_repository.py:131-141 | once a source recorded in a revision has changed or gone, no later step makes that revision's draft current |
| ScheduleReceipts.ReplayChangesNothing | src/smartplanner/schedule_repository.py:121-129 | repeating a request changes nothing and answers with its original version |
| ScheduleReceipts.OtherContentRejected | src/smartplanner/schedule_repository.py:126-127 | a used request identifier with other content changes nothing and is refused |
| ScheduleReceipts.ReceiptsSurvive | src/smartplanner/schedule_repository.py:178-181 | no later step removes or rewrites a receipt, history trimming included |
| ScheduleReceipts.ExactlyOnce | src/smartplanner/schedule_repository.py:121-129 | over a whole run, repeating a committed request at any later step changes nothing and reports the original version |
| ScheduleReceipts.AtMostOneCommits | src/smartplanner/schedule_repository.py:183-189 | of the commands on one schedule with the same expected version at most one commits |
| HistoryZipper.TargetIsNearest | src/smartplanner/schedule_repository.py:243-248 | undo and redo go to the nearest existing revision, across gaps, whenever there is one |
| HistoryZipper.ViewOffersTravel | src/smartplanner/schedule_repository.py:64-74 | a view says undo or redo is possible exactly when there is a revision to go to |
| HistoryZipper.UndoRefines | src/smartplanner/schedule_repository.py:243-253 | undo is one step back in the zipper and is refused exactly when there is no past |
| HistoryZipper.RedoRefines | src/smartplanner/schedule_repository.py:243-253 | redo is one step forth in the zipper and is refused exactly when there is no future |
| HistoryZipper.UndoThenRedo | src/smartplanner/schedule_repository.py:243-253 | on one schedule's rows, an undo followed by a redo restores revision, state and history, with the version two higher |
| HistoryZipper.TrimIsLast | src/smartplanner/schedule_repository.py:226-228 | trimming keeps exactly the last 20 states |
| HistoryZipper.ReplaceRefines | src/smartplanner/schedule_repository.py:218-228 | a replacement drops the future, pushes the present, keeps the newest 20 states, and its revision number is new |
| HistoryZipper.ZipperBounded | src/smartplanner/schedule_repository.py:226-228 | the zipper shows all stored revisions, never more than 20 |
| HistoryZipper.CreateRefines | src/smartplanner/schedule_repository.py:202-207 | a creation starts a history of exactly one state |
| HistoryZipper.CommitRefines | src/smartplanner/schedule_repository.py:210-255 | every later commit is a push, a step back or a step forth of the zipper |
| HistoryRechecks.StepKeepsHistory | src/smartplanner/schedule_repository.py:146-161 | every step keeps all stored revisions valid: while its sources are fresh a revision passes the content checks again, and the next revision holds its locked blocks |
| UndoRedo.TravelExact | src/smartplanner/schedule_repository.py:232-255 | a new undo or redo commits if and only if the version is current and below the limit, a revision is there, its sources are fresh, protected work stays, and none of its tasks has time elsewhere; horizon, layout and events never refuse it |
| CommitConditions.ReturnExact | src/smartplanner/schedule_repository.py:232-255 | a revision may become current again if and only if its sources are live, protected work stays, nothing is added in the past and no task has time elsewhere |
| UndoRedo.RedoAfterUndo | src/smartplanner/schedule_repository.py:232-255 | right after a committed undo, at its clock, a redo commits if and only if it names the current version below the limit and the undone revision's sources are fresh, and then restores the schedule two versions later |
| UndoRedo.UndoAfterReplace | src/smartplanner/schedule_repository.py:210-255 | right after a committed replacement, at its clock, an undo commits if and only if it names the current version below the limit, the replaced revision's sources are fresh, and the replacement added no locked block |
| UndoRedo.UndoThenRedoInRun | src/smartplanner/schedule_repository.py:232-255 | whenever an undo and then a redo commit as neighbouring steps of a run, all schedules are as before, with that version two higher |
| UndoRedo.RedoInRun | src/smartplanner/schedule_repository.py:232-255 | the exact condition of a redo after an undo, along any run |
| UndoRedo.UndoInRun | src/smartplanner/schedule_repository.py:210-255 | the exact condition of an undo after a replacement, along any run |
| RecurrenceStoreMachine.OccurrenceDates | src/smartplanner/recurrence.py:10-25 | the loop selects the specified dates in order |
| GenerationExact.ExpansionExact | src/smartplanner/recurrence.py:10-25 | a range selects exactly the dates from first to last, both included, that are any day, whole weeks after the first, or on a chosen weekday of the calendar in which day 1 is a Monday; ascending |
| RecurrenceTheorems.PatternDatesAscend | src/smartplanner/recurrence.py:10-25 | selected dates ascend strictly |
| RecurrenceStoreMachine.SplitDates | src/smartplanner/recurrence_repository.py:142-154 | the loop separates dates to create from past dates and passes over every date that has a row |
| RecurrenceStoreMachine.RecurrenceStore.InsertOccurrences | src/smartplanner/recurrence_repository.py:110-126 | all rows are inserted, or none when some date has no valid window, with the first error |
| RecurrenceStoreMachine.RecurrenceStore.SelectLive | src/smartplanner/recurrence_repository.py:135-144 | selects the live rows of the range in identifier order |
| RecurrenceStoreMachine.RecurrenceStore.Generate | src/smartplanner/recurrence_repository.py:128-159 | the method performs one generation step and returns its report: the sorted task rows and the created, deleted and skipped dates |
| RecurrenceStoreMachine.RecurrenceStore.Replace | src/smartplanner/recurrence_repository.py:81-97 | a new pattern is stored only at the live version, which rises |
| RecurrenceStoreMachine.RecurrenceStore.Delete | src/smartplanner/recurrence_repository.py:99-108 | a series is marked deleted only at the live version; its rows stay |
| GenerationExact.WindowExact | src/smartplanner/recurrence.py:28-38 | a local day can hold a task if and only if it exists and lasts at least the duration; each failure has its own error |
| GenerationExact.GenerationMeaning | src/smartplanner/recurrence_repository.py:110-159 | a generation succeeds if and only if the series is live at the version named and every new date has a long enough local day; it then adds exactly one task for each new date, with the pattern's fields and the bounds of the local day, reports the created and the skipped past dates, and otherwise changes nothing |
| GenerationExact.GenerationRefused | src/smartplanner/recurrence_repository.py:77-80 | unknown series, then stale version, then the first new date without room, by its own error |
| GenerationExact.SeriesEditsExact | src/smartplanner/recurrence_repository.py:77-108 | a pattern or the end of a series is stored only at the live version below the limit, which rises by one |
| RecurrenceTheorems.Classified | src/smartplanner/recurrence_repository.py:142-158 | every pattern date of the range is exactly one of live, deleted, created and skipped, each with its meaning |
| RecurrenceTheorems.ReportExact | src/smartplanner/recurrence_repository.py:143-158 | the report lists exactly the live rows of the range as they are afterwards, by strictly ascending date, and exactly the dates of the range on which a task was deleted |
| RecurrenceTheorems.RunKeepsTime | src/smartplanner/recurrence.py:28-38 | after any run of generations and edits every task fits between its own bounds |
| RecurrenceTheorems.GenerationOnlyAdds | src/smartplanner/recurrence_repository.py:110-126 | generation alters no existing row and no series |
| RecurrenceTheorems.RunKeepsBook | src/smartplanner/recurrence_repository.py:81-159 | after any run of generations, pattern edits and task edits there is at most one row for each series and date, tombstones included |
| RecurrenceTheorems.RunKeepsRow | src/smartplanner/recurrence_repository.py:133-150 | a row keeps its series and date for ever, and a deleted date is never created again |
| RecurrenceTheorems.GenerationIdempotent | src/smartplanner/recurrence_repository.py:128-159 | after a generation and any run of further changes, repeating the range with no earlier today succeeds, creates nothing and changes nothing as long as the series is at the same version |
| RecurrenceTheorems.GenerationsCommute | src/smartplanner/recurrence_repository.py:128-159 | two generations with one today leave the same rows in either order, overlapping or not, refused or not |
| CalendarText.IcsIsEscaped | src/smartplanner/web/planner_export.mjs:2 | the four sequential replacements equal one per-character substitution |
| CalendarText.UnescapedIcsText | src/smartplanner/web/planner_export.mjs:2 | decoding an escaped title returns it, for every title |
| CalendarText.ConformingExact | src/smartplanner/web/planner_export.mjs:2 | the escaped title is a conforming text value if and only if the title has no control character but tabs and line feeds |
| CalendarText.CarriageReturnEscapes | src/smartplanner/web/planner_export.mjs:2 | a title with a carriage return inside is written as a value that is not a text value |
| CalendarText.FoldIcs | src/smartplanner/web/planner_export.mjs:9-18 | the loop joins exactly the specified pieces of the line |
| CalendarText.PiecesFit | src/smartplanner/web/planner_export.mjs:11-14 | no piece is longer than 75 UTF-8 octets |
| CalendarText.PiecesFull | src/smartplanner/web/planner_export.mjs:11-14 | a line is broken only where the next character would exceed 75 octets |
| CalendarText.PiecesHold | src/smartplanner/web/planner_export.mjs:9-18 | every continuation starts with exactly one added space, and removing it gives the line back |
| TextLines.Utf8Exact | src/smartplanner/web/planner_export.mjs:12 | the octets of every character read back as its code point in the shortest form of RFC 3629 section 3 |
| TextLines.OctetLines | src/smartplanner/web/planner_export.mjs:10-14 | breaking the octet stream at CR LF and breaking the text give the same lines, so no character is ever split |
| CalendarFile.CollectLines | src/smartplanner/web/planner_export.mjs:36-42 | the loop pushes header, seven lines for each row, and trailer |
| CalendarFile.ScheduleIcs | src/smartplanner/web/planner_export.mjs:35-44 | every line of the given rows is folded and terminated |
| CalendarFile.ContentLinesOfFile | src/smartplanner/web/planner_export.mjs:9-18 | unfolding a written file and splitting it returns exactly the content lines, for lines free of line feeds that do not begin with white space |
| CalendarFile.PhysicalLines | src/smartplanner/web/planner_export.mjs:43 | every physical line of the octet stream is the encoding of whole characters and at most 75 octets |
| CalendarFile.CalendarRoundTrip | src/smartplanner/web/planner_export.mjs:35-44 | reading a written calendar recovers every line and one event for each row with all five properties |
| CalendarFile.TitlesRecovered | src/smartplanner/web/planner_export.mjs:38-40 | each recovered summary decodes to its row's title, whatever the title holds |
| ExportRows.RowsExact | src/smartplanner/web/planner_export.mjs:20-27 | the rows are the fixed events and blocks, each once, in the order of their start texts, and no two have one identifier |
| ExportRows.StampExact | src/smartplanner/web/planner_export.mjs:1 | the replacements turn an instant of the extended format into the basic format without milliseconds |
| CalendarFile.ExportCalendar | src/smartplanner/web/planner_export.mjs:20-44 | the export of a saved schedule sorts its rows, stamps them and writes them |
| CalendarFile.ExportRoundTrip | src/smartplanner/web/planner_export.mjs:20-44 | the calendar of any schedule reads back as one event for each fixed event and block, with every title recovered and no two events with one UID |
| ExportTheorems.BlocksExported | src/smartplanner/web/planner_export.mjs:20-44 | every block is told by exactly one calendar event: its own start and end in basic form, and a summary that decodes to its stored title or the fixed word |
| ExportTheorems.FixedEventsExported | src/smartplanner/web/planner_export.mjs:20-44 | every fixed event is told by exactly one calendar event in the same way |
| ExportTheorems.CalendarExact | src/smartplanner/web/planner_export.mjs:35-44 | the calendar holds these events and no others, by start text, between its header and trailer |
| ExportRows.DecimalReads | src/smartplanner/web/planner_export.mjs:23-24 | the index in an identifier reads back as the number |
| CsvFile.FormulaExact | src/smartplanner/web/planner_export.mjs:6 | the guard's test holds exactly when the first character after white space starts a formula |
| CsvFile.GuardCollides | src/smartplanner/web/planner_export.mjs:6 | two texts share a guarded form exactly when they are equal or one is the other's guarded form |
| CsvFile.GuardCollision | src/smartplanner/web/planner_export.mjs:6 | the texts `=x` and `'=x` are written as one cell |
| CsvFile.CellBack | src/smartplanner/web/planner_export.mjs:3-8 | a written cell reads back as its guarded text whatever quotes, commas or breaks it holds |
| CsvFile.CsvRoundTrip | src/smartplanner/web/planner_export.mjs:29-33 | after the byte-order mark the file reads back as the header and one record for each row |
| CsvFile.RecordsSafe | src/smartplanner/web/planner_export.mjs:29-33 | every recovered record has four cells, the guarded texts of its row, and none starts a formula |
| ExportTheorems.TableExact | src/smartplanner/web/planner_export.mjs:29-33 | the table reads back as its header and one record for each fixed event and block with kind, title, own start and own end, guarded |

## Left out

- PlannerRuns.PlanPreview: the answer does not repeat its own inputs (clock, zone, preference version) nor user-facing titles and messages.
- PlannerRuns.InspectLayout: likewise.
- AllocatePhase.AllocateOutcome: does not claim that the reported reason is the only cause, because the program overwrites it when the deadline has passed.
- SlotTheorems.SlotExact: claims the best start for one piece; the greedy plan as a whole is not claimed to be optimal, which the program disclaims.
- GridFacts.BuiltGridOK: division of time differences is exact; the program divides intervals as floating-point quotients before rounding.
- HistoryZipper.TargetIsNearest: the query for the neighbouring revision is modelled as a search through revision numbers.
- ScheduleStoreMachine.ScheduleStore.CreateSchedule: a fresh identifier is a parameter and a taken one is refused; digests are modelled as equality of whole commands, so hash collisions are not modelled.
- CalendarFile.CalendarRoundTrip: identifiers and time stamps are assumed free of line feeds, as UUIDs and ISO stamps are; ExportRoundTrip derives it for stamps from the shape of ISO instants.
- CalendarFile.ScheduleIcs: the rows are given; ExportCalendar passes the ordered rows of a schedule.
- CalendarFile.ExportRoundTrip: the browser's conversion of an instant to ISO text and its locale comparison of two texts are parameters, assumed to give ISO instants and a total preorder.
- ScheduleStoreMachine.ScheduleStore.ValidateDraft: a stored state holds the draft and its missing minutes; stored task titles, ignored identifiers and warnings are not part of it.
- TextLines.OctetLines: unpaired surrogates, which a browser string may hold, are not Unicode scalar values and are not modelled.
- CsvFile.CsvRoundTrip: recovers the guarded text, not the original of a text that starts a formula.
- Real time-zone data: zones are arbitrary functions.
- A missing preferences row, reads of schedules, lists and histories, and the created and updated times of rows.
- Isolation between owners, sessions, passwords, rate limits, settings, HTTP, SQL text, migrations and backup.
- Field checks of the request models, which appear as preconditions, and the size limit on stored JSON.
- Creation of series and tasks with their own request identifiers; tasks and series enter the model as plain steps.
- The limit of 100 stored fixed events that reach a planning request.
- Descriptions of tasks and of repeating activities, which no rule reads.
- The browser interface and its messages.
