# Verified models of the desktop shell

Models, in Dafny 4.11, of the parts of the desktop shell whose correctness is hardest to
see from the code: lock protocols, transactions, schedulers, persistence and bounded
views. Each module states what its part promises over all inputs and all runs and proves
it. `dafny verify dfyconfig.toml` checks everything.

| module | part of the shell |
|---|---|
| RuntimeLocks, RuntimeGuards, TurnAdmission | the rebuild mutex, the writer-preferring admission lock, the turn gates and the removal mutex, over any number of threads and tabs |
| SessionRebind | switching a tab to another session: one candidate, many points of failure, one commit |
| CivilCalendar, HeartbeatSchedule, HeartbeatEngine, HeartbeatDue | when a heartbeat task last should have run, when it is due, and what ticks do over whole runs |
| WatchPersistence | chat subscriptions: snapshots taken under one lock and written under another |
| PromptHistory, HistoryPages | paging of prompts and of conversations |
| PlannerRuns, PlannerWalks, PlannerRows, PlannerPages | paging of conversations while planner displays wait for their messages |
| StringOrder, CheckpointPreview | bounded sorted previews of what a rewind would touch |
| Strings, PasteCollapse, PasteExpansion | collapsing pasted text that is stored expanded |
| ExclusiveExport | all-or-nothing export of several files |
| SvgFilter, SvgRules | the streaming filter for SVG images |
| DeferredRebuild | a retry loop that starts and stops itself |
| RemoteHostNames, RemoteHostEntries, RemoteHosts, RemoteHostRules | names of remote hosts and their store |
| MetricsLedger | counts on their way from memory to a delivery |
| IconComposite | recovering an icon from two opaque drawings of it |

Code that changes state step by step is modelled by classes and methods with loops,
proved against functions and predicates; concurrent code by steps over shared state,
where any enabled step may come next. What can fail in the original fails here by an
explicit fault, a parameter of the call; where concurrent code may fail, by a choice of
the step.

## What the proofs found

- Deadlock freedom of the runtime locks rests on every writer of the admission lock
  holding the rebuild mutex and on readers not re-entering; both rules are needed
  (`WriterWithoutRebuildDeadlocks`, `ReentrantReaderDeadlocks`). The tab-ID order of the
  gates is not: gates are only held together under the write side.
- An idle reattachment gives back a shared-host reference by name, also when a superseded
  startup build left the name but not the reference (desktop/tabs.go:3419); the count is
  then one too low and the host can be closed under a live runtime
  (`SwitchCountsHosts`, `StaleNameClosesSharedHost`). No run of switches makes such a
  name, so from any other tab the counts stay exact for ever (`RunKeepsHosts`).
- The weekly, biweekly and monthly reports miss exactly the cases named by
  `WeeklyExact`, `BiweeklyExact` and `MonthlyExact`; the scheduler still runs each
  occurrence at most once.
- A reseed is safe if and only if, when its version was read, the newest snapshot was not
  waiting to be written (`RefreshIsSafe`). A clean flag implies that; the code does not
  check it, and `DirtyReseedCanBeStale` is a run that loses a subscription.
- Message pages lose everything when there is no user turn (`MessagePagesTile`).
- Provider pages can repeat a planner display (`PlannerTurnsBreakTiling`), because each
  page starts with every display still to be consumed. Exactly when they do not, for
  displays that cancel or differ in any way: `PagesTileExactly`, and in simpler terms
  `PlainTilesExactly` and `AlikeTilesExactly`. Two facts about the shell are used for the
  only-if parts: planner displays hold no rows of users
  (desktop/tabs.go:1242-1400), and messages that are never sent have the role tool
  (internal/agent/agent.go:2790-2795).
- The SVG filter looks for `@import` and `expression(` only behind the last `url(...)` of a
  value (desktop/remote_markdown_image.go:494-515); ahead of one they pass. What it accepts
  is characterised as it is (`SafeMeansFragments`).
- The file count of a checkpoint includes an empty path, the preview does not
  (`CountIncludesEmptyPath`); the code is followed.
- If the identity of a copied export target cannot be read, that one target stays behind,
  and this is the only way a failed export leaves a name (`FileSystem.Save`, `CopyIsLeft`).

## Model

| member | source | states |
|---|---|---|
| RuntimeLocks.ProgramsAreDisciplined | desktop/app.go:155-168 | every lock program of the shell (turn, build, model switch, startup retry, gated mutation, rebind, delete, clear, mode, restore) follows the lock discipline, whatever tabs it names and however often a switch enters the read side |
| RuntimeLocks.LocksExclude | desktop/app.go:155-168 | what each lock excludes; a writer that waits already excludes new readers |
| RuntimeLocks.StepKeepsInv | desktop/app.go:162-168 | one step of any thread keeps: whoever announced or holds the write side holds the rebuild mutex, a writer excludes readers, and every thread's rest is disciplined from what it holds |
| RuntimeLocks.RunKeepsInv | desktop/app.go:162-168 | the same over every schedule of every number of threads |
| RuntimeLocks.DeadlockFree | desktop/app.go:155-168 | whatever operations run on however many threads over any tabs, in every reachable state some thread can act unless all are finished |
| RuntimeLocks.CanComplete | desktop/app.go:7639-7649 | from every reachable state the remaining work can be scheduled to its end, in exactly as many steps as remain, with every lock free again |
| RuntimeLocks.NoTurnStartsUnderWriteSide | desktop/app.go:7858-7900 | while one thread holds the write side no turn starts on any tab, every gated controller stays idle and nobody enters the read side |
| RuntimeLocks.GatedMutationExcludesTurns | desktop/app.go:7866-7900 | from a passed idle check until the write side is released no turn has started, over every interleaving with other threads |
| RuntimeLocks.NoTurnStartsBehindGate | desktop/app.go:2411-2419 | a rebuild that holds only a tab's gate keeps that tab's controller idle for as long as it holds it |
| RuntimeLocks.WriterWithoutRebuildDeadlocks | desktop/app.go:162-168 | a writer that does not hold the rebuild mutex can deadlock with a model switch: a schedule that ends with nobody able to act |
| RuntimeLocks.ReentrantReaderDeadlocks | desktop/app.go:1645-1649 | a reader that re-enters deadlocks with a queued writer |
| RuntimeGuards.HeldIsNested | desktop/app.go:155-168 | in every state of every schedule each thread holds no lock its operation does not use, an inner one only together with the outer ones, and the innermost only together with all |
| RuntimeGuards.OperationsComeToPeak | desktop/app.go:155-168 | before an operation is over there was a moment at which it held all its locks together and nothing else: a turn the read side and its gate, a mutation or rebind the rebuild mutex, the write side and all its gates, a switch its gate and, if it visits, the read side, a deletion the write side and the removal mutex, a clear its gate and the removal mutex |
| RuntimeGuards.ActsAsOften | desktop/app.go:155-168 | every operation takes each of its locks once, enters the read side as often as it says, and starts a turn exactly if it is the start of one |
| RuntimeGuards.StartsTurn | desktop/app.go:1038-1082 | a turn can be started on a tab only by the start of one, which then holds the tab's gate and the read side and nothing else |
| RuntimeGuards.StartsAreTurns | desktop/app.go:1012-1036 | over every schedule in which the start of a turn is over, the tab was running a turn at some moment |
| RuntimeGuards.ClearKeepsTurnsOut | desktop/app.go:2411-2419 | while a clear holds the removal mutex it holds its tab's gate and the rebuild mutex, and no turn can be started on the tab |
| RuntimeGuards.ClearedTabStaysIdle | desktop/app.go:2411-2432 | once its turn has stopped, the tab of a clear stays idle for as long as the clear holds the removal mutex, over every schedule |
| RuntimeGuards.DeleteKeepsTurnsOut | desktop/tabs.go:3062-3068 | while a deletion holds the removal mutex it holds the write side, no turn can be started at all and nobody enters the read side |
| RuntimeGuards.GatesLieInside | desktop/app.go:7858-7900 | whoever holds a gate for a mutation or a rebind holds the write side, for a switch or a clear the rebuild mutex, for a turn the read side |
| RuntimeGuards.ReadsLieInside | desktop/app.go:9817-9822 | nobody is in the read side twice, and a switch is in it only behind its gate and the rebuild mutex |
| TurnAdmission.Admission.constructor | desktop/app.go:1038-1082 | an admission begins with the read side and the gate held |
| TurnAdmission.Admission.Finish | desktop/app.go:1012-1030 | both locks are released once, also when the status call panics; a turn has started exactly if the controller is running, and a start that did not happen is counted once |
| TurnAdmission.Admission.Abort | desktop/app.go:1032-1036 | an abort releases an open admission and does nothing to a released one |
| TurnAdmission.Admission.Settle | desktop/app.go:1012-1036 | any mix of finish and abort calls performs exactly the lock program of one turn, with its start if and only if the first call reports one; the first call alone decides that |
| TurnAdmission.BeginTabTurn | desktop/app.go:1038-1082 | an admission is returned exactly if no check fails; on failure before the locks nothing was locked, on failure under them the whole lock program of a turn was performed |
| SessionRebind.App.RefreshSource | desktop/app.go:4170-4197 | the refresh succeeds exactly if no check or save fails, and changes nothing but the source's path and its key when a recovery moved it |
| SessionRebind.App.Reserve | desktop/session_runtime.go:285-314 | a key is reserved exactly if no other runtime owns it |
| SessionRebind.App.BuildCandidate | desktop/app.go:4436-4526 | a candidate is built exactly if no stage fails; otherwise whatever was made has been closed and the reference it took given back |
| SessionRebind.Candidate.Close | desktop/app.go:4406-4421 | closing gives back what the candidate owns and, when called again, nothing |
| SessionRebind.App.Detach | desktop/tabs.go:689-725 | the source moves whole to the background under its key, or nothing changes |
| SessionRebind.App.Commit | desktop/app.go:4236-4294 | the commit either changes nothing and leaves the candidate its controller, or publishes controller, lease and path under a new epoch with the source detached whole or closed and released |
| SessionRebind.App.Publish | desktop/app.go:4223-4315 | acquiring the lease and committing succeeds exactly under the stated conditions; otherwise the lease has been released and the tab is untouched |
| SessionRebind.App.Transact | desktop/app.go:4199-4321 | after the source refresh: failure at any stage leaves tab, background runtimes, registry, references and epoch as they were and everything made given back once |
| SessionRebind.App.Reattach | desktop/app.go:4329-4393 | switching to a runtime in the background shows it whole, or changes nothing |
| SessionRebind.App.Switch | desktop/app.go:4086-4321 | the two ways to a target after the refresh, and exactly when each succeeds |
| SessionRebind.App.Rebind | desktop/app.go:4034-4321 | the call succeeds if and only if no stage fails; on failure the source is as the refresh left it, on success the tab owns the target |
| SessionRebind.FailureKeepsBooks | desktop/app.go:4203-4234 | a failed switch keeps the ledger: every controller and lease ever made is owned by one runtime or was given up exactly once, and shared-host references balance |
| SessionRebind.RefreshKeepsBooks | desktop/app.go:4170-4197 | so does the refresh of the source |
| SessionRebind.SwitchKeepsBooks | desktop/app.go:4236-4315 | a successful switch keeps the ledger: the source's resources are moved whole or given up exactly once, one runtime per session key, epochs never reused |
| SessionRebind.RebindKeepsBooks | desktop/app.go:4034-4321 | so does every call, whatever it comes to |
| SessionRebind.SuccessKeepsBooks | desktop/app.go:4170-4315 | refresh and switch together keep the ledger when the call succeeds |
| SessionRebind.RunKeepsBooks | desktop/app.go:4034-4321 | over any run of calls each controller and lease ever made is owned by one runtime or was given up exactly once, and no session has two runtimes |
| SessionRebind.RebindKeepsHosts | desktop/app.go:4370-4381 | from a tab that does not name a host it has no reference to, every call, whatever it comes to, keeps shared-host references in balance and leaves such a tab |
| SessionRebind.RunKeepsHosts | desktop/app.go:4370-4381 | so does every run of calls: no reference is gained or lost but with a runtime that holds it |
| SessionRebind.WorkingSourceIsKept | desktop/app.go:4211-4315 | a switch that succeeds keeps a source whose controller is at work: whole in the background under its refreshed path, with nothing of it given up |
| SessionRebind.IdleSourceIsGivenUp | desktop/app.go:4211-4315 | any other source is given up, controller and lease once each, and no background entry is new or has them |
| SessionRebind.TargetIsShown | desktop/app.go:4236-4315 | the tab then shows the target: the runtime that was in the background, or one on the source's host whose controller, lease and epoch no runtime ever had; every other background runtime stays as it is |
| SessionRebind.FaultsDecide | desktop/app.go:4034-4321 | which faults decide a call to the tab's own session, to one in the background, to one with another owner and to one with none |
| SessionRebind.RefreshMoves | desktop/app.go:4170-4197 | the refresh moves a source with a controller to the branch its snapshot was recovered on, unless that fails, and changes nothing else |
| SessionRebind.SwitchCountsHosts | desktop/app.go:4375-4381 | shared-host counts stay exact over a successful switch if and only if it is not an idle reattachment replacing a runtime that names a host it does not hold |
| SessionRebind.StaleNameClosesSharedHost | desktop/shared_host.go:118-135 | such a stale name can close the host under the very runtime that is being reattached: a concrete state and a switch that succeeds |
| CivilCalendar.DayNumberOfDateOf | desktop/heartbeat.go:793-801 | dates and day numbers are inverse: the number of the date of a number is that number |
| CivilCalendar.DateOfDayNumber | desktop/heartbeat.go:793-801 | and the date of the number of a valid date is that date |
| CivilCalendar.DayNumberKeepsOrder | desktop/heartbeat.go:793-801 | day numbers keep the order of dates |
| CivilCalendar.DaysBeforeYearClosed | desktop/heartbeat.go:793-801 | the leap-year rule: days before a year in closed form |
| CivilCalendar.MonthEarlierLands | desktop/heartbeat.go:705-712 | stepping back one month lands in the previous month unless that is too short for the day, and then in the month it came from |
| CivilCalendar.MonthLengths | desktop/heartbeat.go:793-801 | the lengths of the twelve months, with the Gregorian rule for February |
| CivilCalendar.NewYear | desktop/heartbeat.go:793-801 | the day number of New Year's Day of every year, in closed form |
| CivilCalendar.WeekdaysFollow | desktop/heartbeat.go:746-765 | day 0 is a Monday and weekdays follow each other |
| HeartbeatSchedule.PreviousWeekly | desktop/heartbeat.go:682-703 | the nested search over days and listed weekdays finds the latest listed day of the window that is not in the future and lies in an even week from the anchor |
| HeartbeatSchedule.LatestDayIsPrevious | desktop/heartbeat.go:682-703 | what the search finds is the greatest occurrence that is not in the future, and it finds nothing only if the window holds none |
| HeartbeatSchedule.DailyExact | desktop/heartbeat.go:662-667 | daily: always the greatest occurrence that is not in the future |
| HeartbeatSchedule.WeeklyExact | desktop/heartbeat.go:668-669 | weekly: exact if and only if the only listed day is not today with its clock still ahead; otherwise nothing is reported although the slot a week ago occurred |
| HeartbeatSchedule.BiweeklyExact | desktop/heartbeat.go:670-672 | biweekly: the same over fourteen days, and only in an on-week |
| HeartbeatSchedule.MonthlyExact | desktop/heartbeat.go:705-712 | monthly: exact if and only if stepping back a month does not overflow; where it overflows, the reported slot is in the future |
| HeartbeatSchedule.YearlyExact | desktop/heartbeat.go:714-721 | yearly: always exact, leap days clamped |
| HeartbeatSchedule.PreviousIsUnique | desktop/heartbeat.go:656-680 | there is at most one greatest occurrence that is not in the future |
| HeartbeatSchedule.MonthlyOverflowExample | desktop/heartbeat.go:705-712 | a concrete report in the future: 31 March at 08:00 for the 31st at 09:00 |
| HeartbeatSchedule.WeeklyMissExample | desktop/heartbeat.go:682-703 | a concrete missed report: Monday at 08:00 for Mondays at 09:00 |
| HeartbeatEngine.AnsweredOccurrence | desktop/heartbeat.go:515-553 | whenever a rule-scheduled task is due, through its rule or through the interval fallback, the greatest occurrence that is not in the future lies after its last run and not before its creation |
| HeartbeatEngine.OncePerOccurrence | desktop/heartbeat.go:192-215 | over any run of ticks, whatever each execution comes to and however the clock is set between ticks, a task is submitted at most once per occurrence, never before its time, with its creation time fixed |
| HeartbeatEngine.Engine.MergeRunUpdates | desktop/heartbeat.go:458-493 | the task list becomes the definitions on disk, or in memory if they cannot be read, each with the run state of its update laid over it |
| HeartbeatEngine.Engine.AdoptExternalEdits | desktop/heartbeat.go:113-124 | a tick begins with the list on disk if that has changed, and otherwise with the one in memory |
| HeartbeatEngine.Engine.Tick | desktop/heartbeat.go:192-215 | a tick adopts external edits, executes exactly the enabled tasks due by one reading of the clock and writes back run state only; if nobody edits the list meanwhile, each task has made its own tick |
| HeartbeatEngine.EngineTickIsTaskTick | desktop/heartbeat.go:192-215 | a tick of the list is a tick of each of its tasks |
| HeartbeatEngine.ListIsTasks | desktop/heartbeat.go:192-215 | over any run of ticks between edits, each task of the list goes its own way |
| HeartbeatEngine.OncePerOccurrenceInList | desktop/heartbeat.go:192-215 | over such a run every rule-scheduled task of the list is submitted at most once per occurrence and never before its time, whatever the other tasks do |
| HeartbeatEngine.EditsSurviveMerge | desktop/heartbeat.go:458-493 | an edit made while a tick runs is not rolled back: everything but run state is the definition on disk |
| HeartbeatDue.PreviousExists | desktop/heartbeat.go:656-680 | every rule has a greatest occurrence that is not in the future |
| HeartbeatDue.AsksExactly | desktop/heartbeat.go:599-721 | the days each rule asks for: all, its weekdays, those in every second week from the anchor's on, the named day of the month or its last, and that of one month |
| HeartbeatDue.OccursExactly | desktop/heartbeat.go:789-791 | an occurrence is the rule's minute of a day it asks for |
| HeartbeatDue.ParsedExactly | desktop/heartbeat.go:599-654 | what the parser of rules gives: a minute of the day, at least one of the seven weekdays, and one of the twelve months |
| HeartbeatDue.DueExactly | desktop/heartbeat.go:515-523 | a task with a rule is due if and only if its last occurrence is not before its creation and it has not run since; where that occurrence is not reported the interval decides, and where the report is in the future the task is not due |
| HeartbeatDue.DueIsOwed | desktop/heartbeat.go:515-553 | as the shell writes its tasks, a due task owes the run also where its last occurrence is misreported |
| HeartbeatDue.IntervalExactly | desktop/heartbeat.go:525-553 | a task without a rule is due if and only if its interval is positive and has passed since its last run, or its creation if it has not run, and the instant lies in its window |
| HeartbeatDue.WindowIsDaily | desktop/heartbeat.go:558-590 | a time window is the instants from its start to its end on every day, over midnight if the end is not later, with an open side where a bound is missing |
| HeartbeatDue.RunLeaves | desktop/heartbeat.go:192-215 | what a run leaves on its task: time and topic of a submission, the time alone of an early error, nothing of a retry |
| HeartbeatDue.TickRunsWhatIsOwed | desktop/heartbeat.go:192-215 | at every tick of every run an enabled task is submitted, if its execution is a submission, exactly when a run is owed for its last occurrence, and after a stamped run none is |
| HeartbeatDue.EngineRunsWhatIsOwed | desktop/heartbeat.go:192-215 | a tick of the list replaces a task by its run if and only if it is enabled and owes one |
| HeartbeatDue.RunStateLands | desktop/heartbeat.go:458-493 | the run state of an update takes the place of what is on disk, and a task without an update stays as it is |
| WatchPersistence.BotBridgeHub.Begin | desktop/bot_bridge.go:425-437 | the section under the first mutex: the one route is switched and every other stays, number, flag, and the snapshot taken |
| WatchPersistence.BotBridgeHub.Persist | desktop/bot_bridge.go:445-460 | the section under the second mutex: an overtaken snapshot is dropped, a failed write changes nothing, a successful one is recorded and settles the flag if it is the newest |
| WatchPersistence.BotBridgeHub.SetWatch | desktop/bot_bridge.go:425-460 | alone, it switches its own route on or off and leaves every other; it leaves memory and config equal, or reports failure and leaves the flag dirty |
| WatchPersistence.BotBridgeHub.SeedWatchers | desktop/bot_bridge.go:471-486 | a reseed applies exactly if the version is unchanged and the flag clean, and then the memory is the given routes with an address, and otherwise as it was |
| WatchPersistence.WatchSwitchesOne | desktop/bot_bridge.go:425-437 | the step of a watch command switches its own route, leaves every other, and numbers the new set |
| WatchPersistence.LastWatchCounts | desktop/bot_bridge.go:425-437 | over every run without a reseed a key is watched if and only if its last command switched it on, with that command's route |
| WatchPersistence.StepKeepsInv | desktop/bot_bridge.go:425-486 | every step of every interleaving keeps the invariant, and lastPersistSeq never decreases |
| WatchPersistence.RunKeepsInv | desktop/bot_bridge.go:425-486 | the same over whole runs |
| WatchPersistence.StoredSnapshot | desktop/bot_bridge.go:425-486 | at every moment the stored set is the snapshot numbered lastPersistSeq (or the one just written), and a clean flag means it is the newest and, without a reseed, equals memory |
| WatchPersistence.Quiescent | desktop/bot_bridge.go:425-460 | with nothing in flight, the flag is dirty if and only if the newest change was never written |
| WatchPersistence.RefreshIsSafe | desktop/bot_runtime_app.go:79-94 | whatever run came before and whatever follows, every reseed that applies for a version read now installs the newest snapshot, if and only if the newest snapshot is not waiting to be written now |
| WatchPersistence.UnwrittenCanBeStale | desktop/bot_runtime_app.go:79-94 | if it is waiting, a schedule that ends in a stale reseed, from every such state |
| WatchPersistence.CleanIsWritten | desktop/bot_bridge.go:445-460 | with the flag clean nothing newest is waiting |
| WatchPersistence.FreshReseedInstallsNewest | desktop/bot_bridge.go:471-486 | a reseed that is not stale installs the addressed routes of the newest snapshot |
| WatchPersistence.CleanReseedIsFresh | desktop/bot_runtime_app.go:79-94 | so a reseed whose version was read while clean, and that applies, installs the newest snapshot |
| WatchPersistence.DirtyReseedCanBeStale | desktop/bot_runtime_app.go:79-94 | a run from the start that reads its version while dirty and loses a subscription |
| PromptHistory.Tape.EntriesForSession | desktop/app.go:4769-4792 | each file is scanned at most once; missing and failing sessions are cached as empty |
| PromptHistory.Tape.ReadOlder | desktop/app.go:4710-4752 | from any cursor the page is the next stretch of the tape, of at most the limit; a page with something older is full, one without is the end |
| PromptHistory.Tape.ReadAll | desktop/app.go:4756-4767 | reading to the end terminates and returns every entry once and in order |
| PromptHistory.RestIsConcatenated | desktop/app.go:4710-4752 | the tape is the concatenation of the sessions' entries |
| PromptHistory.Tape.ReadPages | desktop/app.go:4710-4752 | following the cursors from the front with any page sizes, the pages and what the last cursor still leads to are the tape; with positive sizes no more pages report something older than there are entries, and one size more than entries reads it all |
| PromptHistory.Tape.WhereReadingBegins | desktop/app.go:4710-4721 | reading begins at the front without a cursor and with one of another tape, and otherwise where the cursor says |
| PromptHistory.PagesAreTheTape | desktop/app.go:4710-4752 | pages read off one another, of any sizes, join with what is unread to where they began, and with positive sizes no more of them report something older than there are entries |
| HistoryPages.ForTurnRange | desktop/app.go:5580-5598 | the one-pass selection picks exactly the messages of the turns in range, with the ones before the first turn only from turn 0 |
| HistoryPages.HistoryPage | desktop/app.go:5551-5578 | range, totals and messages of a page |
| HistoryPages.PageRange | desktop/app.go:5552-5573 | a page lies within the history and, if there is a turn, holds one |
| HistoryPages.PageHoldsWhatIsAsked | desktop/app.go:5541-5573 | a page holds as many turns as are asked for, 60 by default and 200 at most, if there are as many, and ends where the next newer page begins |
| HistoryPages.RangesTile | desktop/app.go:5580-5598 | two adjacent turn ranges select together what their union selects, in order |
| HistoryPages.WalkTiles | desktop/app.go:5551-5598 | walking back by StartTurn with any page sizes joins to everything before the starting turn |
| HistoryPages.MessagePagesTile | desktop/app.go:5551-5598 | the pages of a whole walk join to the list if and only if some message is a user turn or there is none at all |
| HistoryPages.Render | desktop/app.go:5759-5872 | the rendering loop with planner displays and suppression is the message-by-message rendering |
| HistoryPages.UserIsShown | desktop/app.go:5782-5812 | a message a user wrote shows its display with its own checkpoint |
| HistoryPages.AssistantIsShown | desktop/app.go:5804-5840 | an assistant's message shows text, reasoning and calls, each with its result in the whole transcript and with replayed arguments for todo lists, and no checkpoint |
| HistoryPages.ToolIsShown | desktop/app.go:5841-5845 | a tool's result shows its display and names its call |
| HistoryPages.NoticesAreShown | desktop/app.go:5771-5800 | steers show as notices, never sent ones with a warning, and what no user wrote does not show |
| HistoryPages.UnsentIsShown | desktop/app.go:5846-5858 | what was never sent shows as an assistant's message unless it is blank, and says so if its turn was interrupted |
| HistoryPages.DisplayFollows | desktop/app.go:5859-5869 | a visible message is followed by the first display that waits for its text, which is used up, and silence begins exactly if that tells of a cancelled turn |
| HistoryPages.SilenceHolds | desktop/app.go:5781-5786 | in silence nothing is shown but steers never sent, up to the next message a user wrote |
| HistoryPages.SelectionRendersInPlace | desktop/app.go:5966-5977 | rendering a selection with remapped checkpoint indexes gives each message the checkpoint it has in the transcript |
| HistoryPages.RemapCheckpoints | desktop/app.go:5966-5977 | the loop renumbers exactly the selected checkpoints |
| HistoryPages.ProviderHistoryPage | desktop/app.go:5883-5919 | range and rendered messages of a provider page |
| HistoryPages.ProviderPagesTile | desktop/app.go:5883-5977 | with no planner display waiting for a message of the transcript (always so without a visible user turn), the rendered provider pages of a walk concatenate to the rendering of the whole transcript if and only if there is a visible user turn or nothing to show |
| HistoryPages.PlannerTurnsBreakTiling | desktop/app.go:5862-5869 | with planner displays they need not: a text sent twice shows its first display on both pages |
| PlannerRuns.PageIsFold | desktop/app.go:5883-5977 | a provider page renders one stretch of the transcript, with every display still to be consumed |
| PlannerRuns.RunShape | desktop/app.go:5759-5872 | as long as silence swallows no visible message, rendering from any message on shows each message with the display it is due and silences what a cancelling display silences |
| PlannerPages.PagesTileExactly | desktop/app.go:5759-5977 | every walk, with any page sizes, concatenates to the rendering of the whole transcript if and only if every cancelling display is woken in time and, on every page that can be asked for, every turn is heard and shows the same with the display it is due there as with the one it is due in the whole |
| PlannerPages.SinglesTile | desktop/app.go:5759-5977 | the walk by single turns does if and only if every cancelling display is woken in time and every turn shows the same with the first display of its text as with the one it is due |
| PlannerPages.AgreeingTiles | desktop/app.go:5759-5977 | that condition is enough for every walk, also where displays or messages hold rows of users |
| PlannerPages.PlainTilesExactly | desktop/app.go:5862-5869 | when no display cancels: every walk does, or already the one by single turns, if and only if every text is due its first display each time it is sent |
| PlannerPages.AlikeTilesExactly | desktop/app.go:5801-5869 | when every text is due its first display each time: every walk does, or already the one by single turns, if and only if a message a user wrote follows each cancelling display no later than the next visible message |
| PlannerPages.AlikeTiles | desktop/app.go:5759-5977 | and that is enough for every walk whatever rows the displays hold |
| PlannerPages.SentOnceIsAlike | desktop/app.go:5862-5869 | texts that await displays and are sent once each are due their first display |
| StringOrder.Trichotomy | desktop/app.go:2655 | the order of paths is total |
| StringOrder.Transitive | desktop/app.go:2655 | and transitive |
| StringOrder.Asymmetric | desktop/app.go:2655 | and asymmetric |
| StringOrder.LessMeans | desktop/app.go:2655 | where two texts first differ, the smaller has the smaller character or has ended |
| CheckpointPreview.Search | desktop/app.go:2655 | the binary search splits a sorted preview at the path |
| CheckpointPreview.Insert | desktop/app.go:2651-2671 | in-place bounded insertion keeps the preview the smallest paths offered so far; an empty path, a path offered before and an evicted path change nothing |
| CheckpointPreview.OfferAll | desktop/app.go:2636-2642 | one checkpoint's paths extend the set of affected paths and its preview |
| CheckpointPreview.Checkpoints | desktop/app.go:2598-2649 | for every checkpoint: the count of all paths from it on, the 60 smallest non-empty ones in order, whether there is any, and whether the list is cut |
| CheckpointPreview.PreviewIsUnique | desktop/app.go:2651-2671 | no other list is the preview of the same paths |
| CheckpointPreview.PreviewLength | desktop/app.go:2651-2671 | a preview has as many paths as the bound and the paths allow |
| CheckpointPreview.ListsUpToSixty | desktop/app.go:2598-2649 | a checkpoint lists 60 of the non-empty paths it affects, or all if they are fewer |
| CheckpointPreview.TruncatedMeansUnlisted | desktop/app.go:2646 | a checkpoint is marked cut if and only if some affected path is not listed |
| CheckpointPreview.CountIncludesEmptyPath | desktop/app.go:2636-2646 | the count is that of the paths a preview may list if and only if no checkpoint from that one on has an empty path; the preview never lists one |
| CheckpointPreview.EarlierRestoresMore | desktop/app.go:2623-2647 | an earlier checkpoint can restore whenever a later one can, and affects at least as many files |
| PasteCollapse.Look | desktop/app.go:5674-5704 | what one look finds lies behind the scan and within the text |
| PasteCollapse.Collapse | desktop/app.go:5672-5708 | the loop terminates although the scan may move left and the text changes, and returns the collapsed text trimmed |
| PasteCollapse.OnlyBlocksAreDeleted | desktop/app.go:5674-5706 | the rewriter only ever deletes what lies between the end of a label's copy and the end of the first matching End marker, behind a Begin marker with the same proper label and nothing but space between |
| PasteExpansion.ExpandedCollapsesBack | desktop/app.go:5668-5708 | text in which every pasted block is stored expanded collapses to the text with the labels alone, for any number of blocks |
| PasteCollapse.LabelsAreBracketed | desktop/app.go:5660 | labels have no dash and end in a bracket, so a marker inside a label cannot be mistaken |
| PasteCollapse.LabelsExactly | desktop/app.go:5660 | exactly which texts are labels: one of three heads, a number, how many lines, and one of two units |
| PasteExpansion.BlockIsSpelled | desktop/app.go:5668-5700 | what is stored of a block, marker by marker, and what is shown of it |
| Strings.TrimSpace | desktop/app.go:5707 | trimming leaves nothing exactly of blank text, and nothing blank at the ends |
| Strings.Index | desktop/app.go:5675 | the first match, or none anywhere |
| Strings.LastIndex | desktop/app.go:5698 | the last match, or none anywhere |
| Strings.TrimSpaceIs | desktop/app.go:5707 | trimming takes away space at both ends and nothing else |
| Strings.TrimIs | desktop/remote_markdown_image.go:505 | the same of trimming other characters |
| ExclusiveExport.FileSystem.CreateTemp | desktop/app.go:11173-11199 | the first name among the random ones that was free gets an empty private file; a fault before that changes nothing |
| ExclusiveExport.FileSystem.StagePart | desktop/app.go:11127-11155 | one part gets its temporary name unless there is none to be had, and is staged in full exactly if, besides, no write fails |
| ExclusiveExport.FileSystem.StageAll | desktop/app.go:11127-11155 | every part is staged in full under a temporary name of its own if and only if there are payloads and names for all and no fault in staging; a failure adds exactly the temporary names reported |
| ExclusiveExport.FileSystem.CommitStaged | desktop/app.go:11201-11248 | publishing by link or by exclusive copy succeeds if and only if the target is free and no step fails, and then adds the target with the staged bytes; a failure adds nothing, unless a copy was made whose identity could not be read |
| ExclusiveExport.FileSystem.PublishAll | desktop/app.go:11157-11166 | the loop comes to its end exactly if every target in turn is free and is published |
| ExclusiveExport.FileSystem.CommitAll | desktop/app.go:11157-11166 | all targets are published if and only if each is free, none is named twice and no step fails; otherwise the published ones are rolled back |
| ExclusiveExport.FileSystem.StageAndCommit | desktop/app.go:11127-11167 | staging and publishing succeed exactly if both come to their end; the temporary names are gone either way |
| ExclusiveExport.FileSystem.RollBack | desktop/app.go:11250-11254 | exactly the published names are removed |
| ExclusiveExport.FileSystem.RemoveIfSame | desktop/app.go:11256-11264 | a name is removed only while it denotes the given file |
| ExclusiveExport.FileSystem.Save | desktop/app.go:11109-11167 | success if and only if there are targets, as many payloads, all free and distinct, and no fault; then exactly the targets are added, each with its payload and the created mode. A failure restores the names if and only if no part reaches an exclusive copy whose identity cannot be read; such a copy alone stays behind. Existing files are never changed |
| ExclusiveExport.SucceedsWithoutFaults | desktop/app.go:11109-11248 | without faults, whether or not linking works, and with new random names, saving succeeds if and only if there are targets, all free and distinct |
| ExclusiveExport.AFaultFails | desktop/app.go:11109-11248 | any one fault in inspecting, decoding, naming, staging or publishing a part fails the call |
| ExclusiveExport.LeavesMeans | desktop/app.go:11201-11248 | a failure leaves a name only if all targets were free and a part came as far as an exclusive copy, after a link that failed, whose identity could not be taken |
| ExclusiveExport.TempAtExactly | desktop/app.go:11173-11199 | a temporary file gets the first of a hundred random names beside its target that is free, if everything before and its opening go well |
| ExclusiveExport.CopyIsLeft | desktop/app.go:11201-11248 | the failure that leaves a name is reached: one part whose link fails and whose copy cannot be inspected |
| ExclusiveExport.PublishOne | desktop/app.go:11158-11165 | what one more published part adds to the loop's state |
| SvgFilter.SafeValue | desktop/remote_markdown_image.go:494-515 | the loop over url( references decides whether a value is safe, a reference at a time |
| SvgFilter.SafeMeansFragments | desktop/remote_markdown_image.go:494-515 | a value is safe if and only if it spells references into the document alone, with a last part that holds no import and no expression |
| SvgFilter.FilterAttrs | desktop/remote_markdown_image.go:411-427 | the attribute loop keeps exactly the attributes that pass, in order |
| SvgFilter.Sanitize | desktop/remote_markdown_image.go:368-472 | the one-pass loop with its two counters is the token-by-token run, rejecting as soon as it must |
| SvgFilter.SubtreeIsPruned | desktop/remote_markdown_image.go:393-465 | inside the root the pass emits the subtree without forbidden elements, comments and directives, attributes filtered |
| SvgFilter.SkippedSubtree | desktop/remote_markdown_image.go:393-410 | a forbidden element is skipped with all below it |
| SvgFilter.FilterIsPruning | desktop/remote_markdown_image.go:368-472 | on the tokens of any document the filter accepts if and only if there is one root, an SVG element, with nothing but space around it, and its output is the root pruned |
| SvgFilter.OutputIsOneCleanElement | desktop/remote_markdown_image.go:368-472 | whatever tokens come in, what goes out is one balanced SVG element with only kept elements and attributes and no comments and directives |
| SvgFilter.FilterIsIdempotent | desktop/remote_markdown_image.go:368-472 | filtering the output again changes nothing |
| SvgRules.KeptExactly | desktop/remote_markdown_image.go:413-427 | an attribute is kept if and only if it is harmless: no handler, no srcset, no base in the XML namespace, a reference into the document or to a bitmap it carries, and in any other value no script scheme and no url but to fragments |
| SvgRules.HarmlessStay | desktop/remote_markdown_image.go:412-429 | from a list of attributes exactly the harmless ones stay, in their order |
| SvgRules.SafeTargetMeans | desktop/remote_markdown_image.go:507-511 | a url target is safe if and only if a number sign comes after space and then quotes |
| SvgRules.OutputIsHarmless | desktop/remote_markdown_image.go:368-472 | of whatever tokens, everything that goes out is an SVG element's and harmless: none of the twelve unwanted elements, no remarks, no attribute that is not harmless |
| SvgRules.AcceptedExactly | desktop/remote_markdown_image.go:391-449 | a document is accepted if and only if it has one root, an SVG element without a namespace or in its own, and nothing but space around it |
| SvgRules.HarmlessDocumentIsKept | desktop/remote_markdown_image.go:368-472 | a harmless SVG document, in either namespace, comes out token by token as it went in |
| DeferredRebuild.DeferredRebuildState.StartLoop | desktop/deferred_rebuild.go:49-59 | a loop is started exactly if armed, idle, not stopped and with work |
| DeferredRebuild.DeferredRebuildState.Enable | desktop/deferred_rebuild.go:39-45 | arming, and starting a loop if there is work |
| DeferredRebuild.DeferredRebuildState.Schedule | desktop/deferred_rebuild.go:64-80 | an entry is recorded under its trimmed tab and a loop started if needed; blank tabs and stopped retries change nothing |
| DeferredRebuild.DeferredRebuildState.ScheduleStartup | desktop/deferred_rebuild.go:82-84 | the same under the startup label |
| DeferredRebuild.DeferredRebuildState.Clear | desktop/deferred_rebuild.go:90-95 | the entry is removed and nothing else |
| DeferredRebuild.DeferredRebuildState.Stop | desktop/deferred_rebuild.go:107-118 | stopping is final and closes the stop channel once |
| DeferredRebuild.DeferredRebuildState.TickHead | desktop/deferred_rebuild.go:145-159 | a pass is over exactly if stopped or without work, and a loop's pass then marks it idle; otherwise it takes a snapshot of everything pending |
| DeferredRebuild.StepKeepsInv | desktop/deferred_rebuild.go:39-174 | every step of every interleaving of callers, loops and kicked passes keeps the invariant |
| DeferredRebuild.RunKeepsInv | desktop/deferred_rebuild.go:39-174 | the same over whole runs |
| DeferredRebuild.NoWakeupIsLost | desktop/deferred_rebuild.go:39-174 | in every reachable state: armed, not stopped and with work implies exactly one live loop; there is never a second, and running says whether there is one |
| DeferredRebuild.EveryEntryIsRetried | desktop/deferred_rebuild.go:120-165 | from every reachable state with an entry pending, the live loop by its own steps alone comes to a pass over everything pending |
| DeferredRebuild.StoppedStaysQuiet | desktop/deferred_rebuild.go:107-118 | once stopped, no loop starts and nothing is scheduled |
| DeferredRebuild.StoppedLoopEnds | desktop/deferred_rebuild.go:120-137 | and a loop still live can end by its own steps alone |
| DeferredRebuild.StepOnEntry | desktop/deferred_rebuild.go:64-95 | every step leaves each entry as it is, unless it records or gives up that very one |
| DeferredRebuild.EntryWaits | desktop/deferred_rebuild.go:39-174 | over every run an entry waits, as recorded, until it is given up |
| DeferredRebuild.StepOnFlags | desktop/deferred_rebuild.go:39-118 | only arming arms, and only stopping stops |
| DeferredRebuild.LoopStartsForWork | desktop/deferred_rebuild.go:49-59 | a loop starts only for work that waits, and then it is the only one |
| DeferredRebuild.HeadsTakeAll | desktop/deferred_rebuild.go:145-159 | the head of a pass ends it, and its loop, if stopped or without work, and otherwise takes everything pending |
| RemoteHostNames.ParseRoundTrip | desktop/remote_hosts.go:141-165 | parsing a parsed target's Destination gives that target back, for every accepted text |
| RemoteHostNames.DestinationIsInjective | desktop/remote_hosts.go:141-165 | two parsed targets have the same Destination if and only if they are the same |
| RemoteHostNames.CanonicalHostAgain | desktop/remote_hosts.go:167-203 | a canonical host, bracketed if it has colons, is canonical again |
| RemoteHostNames.LowerDnsName | desktop/remote_hosts.go:197-202 | lowering a DNS name keeps it one |
| RemoteHostRules.HostExactly | desktop/remote_hosts.go:167-203 | exactly which hosts are accepted and what their canonical form is: an address with colons in brackets, a four-byte address, or labels between dots with an optional dot behind them, not all digits, in small letters |
| RemoteHostRules.ParsesExactly | desktop/remote_hosts.go:141-165 | exactly which texts are destinations, and of which user at which host |
| RemoteHostEntries.KeyTellsConnections | desktop/remote_hosts.go:492-501 | valid entries have the same connection key if and only if they make the same connection |
| RemoteHostEntries.NewDirectEntryIsValid | desktop/remote_hosts.go:107-118 | an accepted destination, port and label make an entry the store's checks accept, whose destination parses to the same target |
| RemoteHostEntries.ItoaIsInjective | desktop/remote_hosts.go:495 | different ports print differently |
| RemoteHostRules.EntryExactly | desktop/remote_hosts.go:427-490 | exactly which entries are accepted, field by field |
| RemoteHosts.RemoteHostStore.Check | desktop/remote_hosts.go:370-387 | the checks pass if and only if there are not too many hosts, all are valid, and no two share an id or a connection |
| RemoteHosts.RemoteHostStore.Load | desktop/remote_hosts.go:327-389 | what loading returns for every file, with version 1 read as OpenSSH aliases |
| RemoteHosts.RemoteHostStore.Save | desktop/remote_hosts.go:391-425 | a list the checks accept and that fits is stored in order; otherwise the file is as it was |
| RemoteHosts.RemoteHostStore.Upsert | desktop/remote_hosts.go:232-254 | the file becomes the list with the entry replaced in place or appended, if the store takes that, and is otherwise as it was; success is reported only if it was taken |
| RemoteHosts.RemoteHostStore.Delete | desktop/remote_hosts.go:256-276 | the same without the entry; nothing is written if there is none, and success is reported only then or if the shorter list was taken |
| RemoteHosts.RemoteHostStore.Update | desktop/remote_hosts.go:286-307 | the same with the entry changed in place; an unknown id is an error, and so is a list the store refuses |
| RemoteHosts.RemoteHostStore.UpdateResumeLease | desktop/remote_hosts.go:278-280 | the lease of one entry |
| RemoteHosts.RemoteHostStore.UpdateLayoutRef | desktop/remote_hosts.go:282-284 | the layout of one entry |
| RemoteHosts.RemoteHostStore.Get | desktop/remote_hosts.go:309-325 | the entry the map has under the id, or none, or the error of loading |
| RemoteHosts.SavedIsLoaded | desktop/remote_hosts.go:327-425 | what is saved is loaded again: the same hosts, in order of their ids |
| RemoteHosts.SortKeepsHosts | desktop/remote_hosts.go:412 | sorting keeps the map, puts the ids in strict order and lets nothing clash |
| RemoteHosts.EditedIsEditedMap | desktop/remote_hosts.go:232-307 | editing the list is editing the map by id |
| RemoteHosts.OperationRefinesMap | desktop/remote_hosts.go:232-307 | every operation is an edit of the map by id, or leaves the file as it was, and the file still loads |
| RemoteHosts.RunKeepsStore | desktop/remote_hosts.go:232-425 | over any run of operations and write failures a store that loads goes on loading, so ids and connections stay apart; one that does not load is never overwritten |
| RemoteHosts.UpsertTaken | desktop/remote_hosts.go:391-410 | a valid entry is taken, encoded length aside, if and only if there is room and no host with another id makes the same connection |
| RemoteHostRules.ListAcceptedExactly | desktop/remote_hosts.go:370-387 | a list is accepted if and only if it has at most 256 hosts, all valid, and no two share an id or a connection |
| RemoteHostRules.FileLoads | desktop/remote_hosts.go:327-389 | an accepted file of version 1 loads with all its hosts in order, each changed in its mode alone, and one of version 2 as it is |
| MetricsLedger.Add | desktop/metrics_app.go:38-43 | one count grows, every other stays |
| MetricsLedger.Merge | desktop/metrics_app.go:45-51 | merging in any order adds count by count |
| MetricsLedger.Flatten | desktop/metrics_app.go:499-509 | the payload lists every count, and only positive ones |
| MetricsLedger.EmptyPayload | desktop/metrics_app.go:535 | the payload is empty exactly if nothing is counted |
| MetricsLedger.MetricsAggregator.Inc | desktop/metrics_app.go:65-69 | one count of one aggregator |
| MetricsLedger.MetricsAggregator.Take | desktop/metrics_app.go:451-460 | the counts change hands, and the aggregator starts anew |
| MetricsLedger.MetricsFiles.FoldIn | desktop/metrics_app.go:461-466 | a hand's counts are added to the pending file |
| MetricsLedger.MetricsFiles.StartSending | desktop/metrics_app.go:522-529 | the pending file is set aside, if there is one |
| MetricsLedger.MetricsFiles.Flush | desktop/metrics_app.go:514-545 | an accepted flush posts every pending count and leaves no pending file; a refused one posts nothing and leaves every count pending |
| MetricsLedger.StepConserves | desktop/metrics_app.go:65-545 | every step makes a count only where something is counted, and loses none |
| MetricsLedger.RunConserves | desktop/metrics_app.go:451-545 | under every interleaving of counting, two-phase persisting and one flush, each signal and bucket: counts made are in memory, in hand, pending, being sent or delivered, each once |
| MetricsLedger.NothingInFlight | desktop/metrics_app.go:451-545 | with all written and the flush over, the pending file and the deliveries hold exactly the counts made |
| IconComposite.FromComposites | desktop/external_opener_icon.go:69-100 | an image exactly for two buffers of the stated size; every pixel is recovered from its two composites, blue-green-red to red-green-blue |
| IconComposite.FillPixels | desktop/external_opener_icon.go:83-100 | the loop over the pixels |
| IconComposite.PixelComesBack | desktop/external_opener_icon.go:84-99 | transparency comes back exactly; a colour is never too bright, and too dark by at most (253 + alpha) / alpha |
| IconComposite.OpaqueComesBack | desktop/external_opener_icon.go:84-99 | an opaque pixel comes back as it was |
| IconComposite.BoundIsMet | desktop/external_opener_icon.go:94-98 | the bound is met |
| IconComposite.AlphaAverages | desktop/external_opener_icon.go:84-90 | for any two drawings, opacity falls by a third of how much lighter the channels are together, rounded down |
| IconComposite.ChannelsScale | desktop/external_opener_icon.go:91-99 | for any two drawings, each channel is the dark drawing's scaled up by 255 over the opacity, rounded down and cut off |
| IconComposite.ImageComesBack | desktop/external_opener_icon.go:83-100 | the same for every pixel of a whole image |

## Left out

- Locks other than the four named (App.mu, telemetry, reconcile and single-surface mutexes) and what is done under them; unlocking a mutex from another goroutine.
- RuntimeLocks: operations are lock programs; the work between the locks is not modelled, except that a turn starts only under its gate and the read side.
- boot.Build, controllers, leases, sinks and telemetry of a rebind: each can succeed or fail by an explicit fault; a runtime is its controller, lease, path, host name and epoch.
- Session keys are compared as they are; case folding of paths is part of the registry's key function, which is not part of this model.
- SessionRebind.App.Reserve: does not model a tab without a registry entry, for which the original makes one under the old key.
- SessionRebind.App.Switch: a background runtime has a controller; for one without, which the ledger rules out, the original builds a candidate instead of reattaching.
- SessionRebind.App.Rebind: a snapshot recovery is taken to move the source to a branch no runtime of the shell knows, and never to the target.
- Reading schedules and intervals from text, time zones with daylight saving, leap seconds, spans beyond the range of time.Duration and zero times other than an absent value.
- HeartbeatEngine.Engine.Tick: a save of the task list that fails is left out; whether the file has changed is given as the list then found, if any.
- The inside of executing a heartbeat task (busy checks, topics, prompts): an execution submits, is stamped without submitting, or is to be retried. TriggerNow racing a tick and edits that move the last run back.
- WatchPersistence: no other writer of the stored watcher list; an edit of the config file while the shell runs is not among the steps.
- The bot takeover maps, the order of routes in the config file, and the gateway runtime around a refresh.
- PromptHistory.Tape.EntriesForSession: a file has one outcome per tape; files that change between a page and the next are not modelled, since a tape scans each file at most once.
- HistoryPages.Render: messages carry the texts their predicates and display functions give (steer, synthetic, authored, display); telemetry, citations, durations, creation times and submit texts are left out.
- PlannerPages.PagesTileExactly: walks that begin at the newest page and reach the first turn, of a transcript with a visible user turn; the only-if part takes displays without user rows and users' messages that are sent.
- CheckpointPreview.Checkpoints: a tab with a controller; without one the list is empty. The controller's own checkpoint store is not part of this model.
- PasteCollapse.Collapse: strings are sequences of characters, not bytes; on valid UTF-8 the matches and cuts are the same.
- ExclusiveExport.FileSystem.Save: no other writer; every fault of a part is a parameter, save that Lstat and Remove succeed while cleaning up. Choosing numbered target names and dialogs are left out.
- SvgFilter.Sanitize: starts at the tokens of a strict XML lexer and ends at the tokens given to the encoder, which is taken to accept them; bytes, byte order marks and namespaces' spelling are left out.
- DeferredRebuild: what a retry decides (leases, active tab, errors) is the choice to clear the entry or keep it.
- RemoteHostNames.ParseRoundTrip: net.ParseIP is a parameter with stated properties (canonical printing, colons exactly without a four-byte form, no colon only in numeric texts).
- RemoteHosts: JSON is taken to give back what it encodes; the encoded length is a parameter; texts are valid UTF-8; file permissions are one case of an unsafe file; config paths are those of Unix.
- MetricsLedger: no crash and no failing file operation other than posting; an accepted post whose answer is lost counts as refused.
- PNG encoding, the other readers of icons, and everything around the network, windows, menus and credentials.
