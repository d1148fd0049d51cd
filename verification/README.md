# Verified model of the fleet dashboard's state-keeping protocols

A Dafny model of the parts of the dashboard that keep state under concurrency,
faults or a clock, with proofs about every run of them. Check it with
`dafny verify dfyconfig.toml`.

Each protocol comes in two layers. Functions over a value of the whole state say
what one step does; lemmas prove properties of these functions and of all their
runs. Where the program updates state in place, a class with methods and loops
does the same work and is proved to take exactly those steps.

| file | what it models |
|---|---|
| `KanbanWorkflow`, `KanbanLanes` | the seven-state card workflow, its five-value legacy projection, the lanes |
| `KanbanStore`, `TitleGate` | the card table as SQLite sees it: constraints, and every trigger a row statement can hit |
| `KanbanApi`, `KanbanBoard` | the card-writing functions, as state functions and as methods over mutable tables |
| `KanbanGuards`, `KanbanWrites` | the two enforcement layers agree; what each writer answers and writes, column by column |
| `KanbanRuns`, `KanbanHistory` | projection, WIP bound and replayable history over whole runs |
| `ContextGuard`, `GuardMeaning`, `GuardRuns` | the clocked handoff / restart / resume machine, its actions in terms of the measurements, and its runs |
| `RestartGate` | the fail-closed restart gate and its block-alert clock |
| `Coordinator` | the Telegram backfill loop against a server, a probe and a store that may fail |
| `MessageQueue` | the agent queue with its atomic oldest-first claim |
| `MemoryCache` | the memory lists and the TTL cache in front of them |
| `NotionSync` | the two-way reconcile with a Notion database |
| `EnvFile`, `SplitMessage`, `UsagePace` | the `.env` round trip, message splitting, quota pace and alert de-duplication |
| `Prelude`, `JsText` | option and result types, JavaScript white space |

## What the proofs found

Several properties the code or its documentation suggests hold only under a
condition. For each the exact condition is proved and an input given on which it
fails; the code is modelled as it is. In one place the code asks for more than it
needs to (OVERUSE).

- **Lane gate with a foreign policy.** Under the stored lane policy the application
  gate and the triggers refuse the same writes. A caller that passes its own policy
  dies in a trigger exactly when that policy admits what the stored one refuses
  (`OverrideDiesIff`, `UnarchiveMatchesTriggers`; `SomeOverrideThrows`,
  `SomeUnarchiveThrows`). The unarchive route passes the live settings
  (src/web/routes/kanban.ts:501-509), while the stored policy is written at start-up
  (src/db.ts:274-280), so it is such a caller after a settings change.
- **Card ids.** A card may be created under any id, but its transitions throw unless
  the id satisfies the observation log's pattern (`UnsafeIdNeverMoves`, `SomeIdThrows`).
- **Restart spacing** holds while some guard toggle is on; for every configuration a
  single sweep with all toggles off forgets a running cooldown
  (`DisarmingForgetsTheCooldown`).
- **Backfill.** An update whose insert throws is passed by the offset and lost for the
  window, and only such updates are (`LostExactlyByInsertFaults`, `SomeUpdateIsLost`). A
  hand-off whose link statement throws is handed off twice, and only such hand-offs can
  be (`HandOffLinks`, `NeverTwoInFlight`, `SomeUpdateIsHandedOffTwice`). Opening a
  window may lower the offset; the unique index then keeps hand-offs unique
  (`HandedOffOnce`).
- **Memory cache.** The cache is right about an agent id exactly when the id is not
  empty and has no colon that is followed by an integer and then a colon or the end
  (`CacheIsCoherent`, `UnsafeIdIsServedStale`). Writers that do not evict, such as the
  fleet import, are seen late under every id, and by a minute at most
  (`ImportIsServedLate`, `StalenessIsBounded`).
- **Notion.** The script's header says a page without LocalID becomes a local card; the
  code skips it, and imports only pages whose LocalID is unknown (`RunsInSequence`).
  Title and priority may not be missing in the local store, which refuses an update
  without them and so ends the run, but a create fills the priority in. So a page
  without a priority can be imported once, and from then on no run completes
  (`ConvergesIff`, `SomeImportBlocks`, `BlockedStaysBlocked`). After a pull the
  remembered signature is the card's content from before the pull, so the next
  local-only edit counts as a conflict and is overwritten (`NextLocalEditSurvivesIff`,
  `SomeEditIsLost`). A pushed card that Notion cannot return verbatim, being padded or
  over 1900 characters, is overwritten locally by the next run
  (`UnfaithfulPushIsPulledBack`, `SomePushIsPulledBack`). The card table cuts a new title
  over 300 characters, and a comment in src/db.ts warns writers who read back what they
  wrote. The script is one: it pulls such a title again in every run, for good
  (`OverlongIsPulledForever`, `SomeTitleIsPulledForever`), and each time the table adds a
  comment to the card. Otherwise nothing is written after two completed runs
  (`ThirdRunIsQuiet`, `RunsInSequence`). The final archive loop is dead code.
- **`.env`.** With duplicate assignments the update rewrites the first and reading takes
  the last (`ReadAfterUpdate`, `SomeUpdateIsNotRead`).
- **OVERUSE.** For an open window the projected-exhaustion clause is implied by the
  ratio (`OpenWindowOveruse`).
- **Splitting** ends exactly for positive limits and blank texts (`Progress`,
  `StallsOtherwise`); the code does not check its limit.

## Model

| member | source | states |
|---|---|---|
| `KanbanWorkflow.ProjectionShape` | src/kanban-workflow.ts:7-59 | The projection to the five legacy statuses merges exactly new/ready and verify/repair; the pair-by-pair list in the database triggers is the same relation |
| `KanbanWorkflow.LegacyReading` | src/kanban-workflow.ts:7-23 | What each legacy status reads as and what each state is stored as, pair by pair |
| `KanbanWorkflow.AllowedSteps` | src/kanban-workflow.ts:25-33 | A step is allowed if and only if it is one of the listed pairs, spelled out, whatever the repair count |
| `KanbanWorkflow.DecisionMeaning` | src/kanban-workflow.ts:132-145 | A refused step changes nothing and says so, a third repair blocks with its own reason, any other step lands where asked and counts repairs |
| `KanbanWorkflow.DecideTakesAnEdge` | src/kanban-workflow.ts:132-145 | An allowed decision lands one edge away, diverted or not; the repair counter moves by one exactly on entry to repair and stays within the limit; the only diversion is verify to blocked with the budget spent |
| `KanbanWorkflow.StepBurnsFuel` | src/kanban-workflow.ts:25-33 | Every allowed step lowers a measure of budget and stage, except that entering blocked raises it by less than four: the termination argument behind the run bound |
| `KanbanWorkflow.ResolveInitialMeaning` | src/kanban-workflow.ts:70-98 | Creation yields state s if and only if every supplied field is well formed, all name s, and s is new or ready (ready when nothing is supplied) |
| `KanbanWorkflow.CreationRequests` | src/kanban-workflow.ts:70-98 | The requests that create a new card and those that create a ready one, field by field in the callers' spelling |
| `KanbanWorkflow.CreationConflicts` | src/kanban-workflow.ts:70-98 | The creation requests refused as contradicting themselves, in the callers' spelling: known state names that differ, or agree on a state the known legacy status does not stand for; an unknown state name is reported first |
| `KanbanWorkflow.ResolveTransitionMeaning` | src/kanban-workflow.ts:100-126 | A request resolves to s if and only if it is well formed and s is the one state named; it is inconsistent if and only if two different states are named |
| `KanbanWorkflow.TransitionRequests` | src/kanban-workflow.ts:100-126 | The requests that resolve to a state, field by field in the callers' spelling |
| `KanbanWorkflow.NamesRoundTrip` | src/kanban-workflow.ts:1-5 | Each state and legacy status is parsed from its one name |
| `KanbanWorkflow.ResolveTransitionState` | src/kanban-workflow.ts:100-126 | The field-collecting loop computes the resolution characterised above, error cases included |
| `KanbanStore.ReconcileNeverAborts` | src/db.ts:376-386 | A nested UPDATE that an AFTER trigger issues to heal the state, stamp the time or cut the title can never be aborted by another trigger or constraint |
| `KanbanStore.UpdateIs` | src/db.ts:591-657 | An UPDATE aborts by a trigger before it, or because its title must be cut in a row without an id, which has no comment to copy it to; otherwise all its AFTER triggers go through and leave the given row |
| `KanbanStore.ExecRows` | src/db.ts:281-657 | A successful row statement changes only its row; of the submitted columns it changes workflow_state, the time of an unstamped change of status, and a new title over 300 characters, which is cut |
| `KanbanStore.ExecKeepsValid` | src/db.ts:354-388 | Every statement by any writer keeps unique ids, column checks and the projection invariant |
| `KanbanStore.RunningAfterPut` | src/db.ts:320-326 | Writing one row changes a lane's set of running rows by that row only |
| `KanbanStore.InsertAdmits` | src/db.ts:315-321 | An admitted INSERT that runs in an enforced lane found a free slot |
| `KanbanStore.InsertKeepsWip` | src/db.ts:315-321 | An admitted INSERT leaves an enforced lane at or below the larger of its old count and its limit |
| `KanbanStore.UpdateKeepsWip` | src/db.ts:322-327 | The same for an admitted UPDATE, whatever its AFTER triggers write |
| `KanbanStore.ExecKeepsWip` | src/db.ts:315-328 | The same for every statement outside an import |
| `KanbanStore.StatusChangeIsStamped` | src/db.ts:579-598 | After a change of status by any writer the row carries the time of the statement, or one the statement put there itself |
| `KanbanStore.ExecKeepsTitles` | src/db.ts:600-657 | No statement by any writer brings in a title over 300 characters |
| `KanbanGuards.CountsAgree` | src/db.ts:2048-2065 | Counting a lane by card id and by rowid excludes the same row |
| `KanbanGuards.GateAgrees` | src/db.ts:2077-2100 | For any status, lane and archive values to be written, the gate under the stored policy refuses if and only if a lane trigger would abort; a lane outside the six makes it throw if and only if something is to be counted, and an empty one is refused as missing if and only if the card starts running |
| `KanbanGuards.OnlyLaneTriggersAbort` | src/db.ts:286-328 | A sound UPDATE succeeds if and only if no lane trigger fires |
| `KanbanGuards.UnguardedWriteSucceeds` | src/db.ts:286-328 | An UPDATE of position, times, title or other content alone never aborts |
| `KanbanGuards.TransitionMatchesTriggers` | src/db.ts:2113-2170 | Under the stored policy a workflow transition is refused for its lane if and only if its bare UPDATE would be aborted by a lane trigger; it throws if and only if the step is allowed and would be written for a task id the observation log rejects, or names a lane outside the six and is not refused for a missing one |
| `KanbanGuards.TransitionWrites` | src/db.ts:2133-2149 | An accepted transition writes the decided state with its projection and counter, the requested position and time and the supplied or stored lane, and nothing else in the table, triggers included |
| `KanbanGuards.OverrideDiesIff` | src/db.ts:2067-2100 | With a caller-supplied policy a stepping transition throws if and only if that policy admits it and either the stored one refuses it, or the lane is none of the six, or the observation log rejects the card id |
| `KanbanGuards.EditMatchesTriggers` | src/db.ts:2219-2248 | A gated field update throws if and only if it names a lane outside the six; otherwise it is refused if and only if its bare UPDATE would be aborted, and written if and only if not |
| `KanbanGuards.EditWrites` | src/db.ts:2229-2245 | An accepted field update writes each supplied field, cuts a new title over 300 characters, reads a null lane as absent, and leaves status, state, counter, id and every other row |
| `KanbanGuards.MovesDieIff` | src/db.ts:2029-2042 | When each move function throws, in both directions; with an accepted card id the ungated one never does, and the gated one only for a lane outside the six |
| `KanbanGuards.UnarchiveMatchesTriggers` | src/db.ts:2304-2319 | A gated unarchive handed the stored policy agrees with the triggers; handed another it throws if and only if the lane is full and that policy admits the card |
| `KanbanGuards.BadLaneAborts` | src/db.ts:232-244 | A bare UPDATE to a lane outside the six fails the column's check |
| `KanbanGuards.SomeUnarchiveThrows` | src/web/routes/kanban.ts:501-509 | A board with stored limit one on which an unarchive under a live limit of two throws |
| `KanbanGuards.SomeOverrideThrows` | src/db.ts:2067-2100 | The same board: a transition with a policy of its own throws |
| `KanbanGuards.SomeIdThrows` | src/task-observability.ts:33-95 | A card under the id 'a b': an allowed step with nothing against it throws and changes nothing |
| `KanbanRuns.RowStepIsOneStatement` | src/db.ts:2002-2476 | Every application write to a card is at most one successful row statement and leaves policy and import flag alone |
| `KanbanRuns.StepKeepsValid` | src/db.ts:1943-2319 | Every operation of any writer keeps the table invariant |
| `KanbanRuns.StepKeepsWip` | src/db.ts:315-328 | One operation raises an enforced lane above its limit only if it is an import, and then by one |
| `KanbanRuns.ImportKeepsWip` | src/db.ts:2268-2285 | A fleet import adds at most one running card |
| `KanbanRuns.ProjectionHolds` | src/db.ts:345-388 | Over every interleaving of application calls, imports and raw statements, workflow_state is NULL or compatible with status, so the hydrated state projects back to the stored status |
| `KanbanRuns.LaneWipBound` | src/db.ts:315-328 | Over every run the running count of an enforced lane is at most max(start, limit) plus the number of imports; without imports a board within its limits stays within them |
| `KanbanRuns.ExecKeepsLanes` | src/db.ts:291-313 | No statement outside an import makes a card run without a lane or takes a lane away |
| `KanbanRuns.NoLanelessStart` | src/db.ts:291-313 | Over every run without imports, the cards running without a lane are among those that did at the start |
| `KanbanRuns.ImportPassesTheLimit` | src/db.ts:2268-2285 | The exception is real: into a full lane an import succeeds where a plain INSERT aborts |
| `KanbanRuns.TitlesStayShort` | src/db.ts:600-657 | Over every run, imports included, a title over 300 characters is one that was in the same row at the start |
| `KanbanRuns.FinishedCardIsSweptByAge` | src/db.ts:579-598 | A card finished by a raw statement that leaves its time alone is archived by the next listing if and only if the cutoff is past that statement |
| `KanbanHistory.TransitionShape` | src/db.ts:2141-2170 | A transition either leaves state and logs alone or takes one decided step and appends one event and one observation |
| `KanbanHistory.MovedAppends` | src/db.ts:2147-2165 | The appended event carries both states, both statuses, reason and actor; the observation carries the next sequence number |
| `KanbanHistory.StepReplays` | src/db.ts:2113-2170 | One operation extends the replayable history or leaves it as it was |
| `KanbanHistory.HistoryReplays` | src/db.ts:2113-2170 | Over every run of API calls, imports and raw statements on other rows that neither deletes the card nor imports events into its log, its events are an edge-by-edge path from the state it had to the state it has, repairs grew by the entries into repair, length is bounded by fuel plus four per visit to blocked, and numbering stays gap-free |
| `KanbanHistory.CreatedCardHistory` | src/db.ts:1967-2000 | For a card created through the API, over the same runs: a path from new or ready to its state, sequence numbers exactly 1..n, repair_attempts equal to the entries into repair and at most 2, and at most 8 transitions unless blocked is visited |
| `KanbanHistory.CreatedCardLog` | src/kanban-workflow.ts:25-33 | Over the same runs the log starts at new or ready, each event goes on where the last ended by a listed step; done is entered from verify only and is last, and a blocked card becomes ready next |
| `KanbanHistory.EveryCardCanFinish` | src/kanban-workflow.ts:25-33 | From every state a listed sequence of requests ends in done, however often the card was repaired |
| `KanbanHistory.EightIsReached` | src/db.ts:1967-2170 | The bound is attained: a created card whose run ends in done with a log of eight events, none entering blocked |
| `KanbanHistory.UnsafeIdNeverMoves` | src/task-observability.ts:33-95 | Over the same runs a card whose id the observation log rejects never leaves its state, and its log does not grow |
| `KanbanBoard.Board.FindRow` | src/db.ts:1955-1958 | The lookup loop returns the one row carrying the id, or none |
| `KanbanBoard.Board.Execute` | src/db.ts:281-657 | One row statement with its triggers, those before and those after it, in place; an abort changes nothing |
| `KanbanBoard.Board.ExecuteUpdate` | src/db.ts:376-657 | The nested updates of the AFTER triggers, in place, take exactly the specified step |
| `KanbanBoard.Board.NextSortOrder` | src/db.ts:1987-1990 | The maximum position of the column's unarchived cards plus one, or zero for an empty column |
| `KanbanBoard.Board.CreateKanbanCard` | src/db.ts:1967-2000 | Ends in the specified state with the specified reply, rejected states and lanes included; the card is placed one past the last unarchived card of its column |
| `KanbanBoard.Board.TransitionKanbanWorkflowState` | src/db.ts:2113-2170 | The transactional transition, with rollback when the observation is rejected, takes exactly the specified step |
| `KanbanBoard.Board.MoveKanbanCard` | src/db.ts:2029-2042 | The ungated move takes exactly the specified step |
| `KanbanBoard.Board.MoveKanbanCardWithLaneGate` | src/db.ts:2190-2211 | The gated move takes exactly the specified step |
| `KanbanBoard.Board.UpdateKanbanCard` | src/db.ts:2002-2017 | The field update takes exactly the specified step |
| `KanbanBoard.Board.UpdateKanbanCardWithLaneGate` | src/db.ts:2219-2248 | The gated field update takes exactly the specified step |
| `KanbanBoard.Board.ArchiveKanbanCard` | src/db.ts:2294-2297 | Archiving takes exactly the specified step |
| `KanbanBoard.Board.UnarchiveKanbanCard` | src/db.ts:2299-2302 | Unarchiving takes exactly the specified step |
| `KanbanBoard.Board.UnarchiveKanbanCardWithLaneGate` | src/db.ts:2304-2319 | The gated unarchive takes exactly the specified step |
| `KanbanBoard.Board.AddKanbanComment` | src/db.ts:2470-2477 | A comment stamps its card, never fails and changes no other row |
| `KanbanBoard.Board.MarkKanbanCardDispatched` | src/db.ts:2287-2292 | The dispatch stamp takes exactly the specified step |
| `KanbanBoard.Board.ListKanbanCards` | src/db.ts:1943-1953 | Archives exactly the finished cards not touched since the cutoff, and returns every unarchived card once, by position, with its hydrated state |
| `KanbanBoard.Board.DeleteKanbanCard` | src/db.ts:2385-2405 | Deletion removes exactly the card's row from the modelled columns |
| `KanbanBoard.Board.InsertImportedKanbanCard` | src/db.ts:2268-2285 | The import sets and clears its flag inside the call and takes exactly the specified step |
| `KanbanWrites.ArchiveWrites` | src/db.ts:2294-2297 | Archiving always succeeds, sets archived_at and updated_at to now and leaves every other column and row |
| `KanbanWrites.ArchiveFrees` | src/db.ts:2294-2297 | An archived card no longer counts in its lane, for the triggers and for every other card's gate |
| `KanbanWrites.UnarchiveWrites` | src/db.ts:2299-2302 | Unarchiving clears archived_at and stamps the change; it changes nothing for an unarchived card and throws if and only if a running card's lane is full |
| `KanbanWrites.UnarchiveGatedWrites` | src/db.ts:2304-2319 | The gated unarchive's report, refusal, throw and write, in terms of the counted lane and the policy handed in |
| `KanbanWrites.StampsWrite` | src/db.ts:2287-2292 | A comment sets updated_at alone and a dispatch dispatched_at alone; neither can fail |
| `KanbanWrites.DeleteWrites` | src/db.ts:2385-2405 | Deleting takes the card's row and no other |
| `KanbanWrites.MissingCard` | src/db.ts:1955-1958 | No call on an unknown id changes anything |
| `KanbanWrites.SweepWrites` | src/db.ts:1943-1953 | The sweep archives exactly the done, unarchived cards last changed before the cutoff |
| `KanbanWrites.CreateWrites` | src/db.ts:1967-2000 | When creation succeeds, in both directions, and every column of the new card |
| `KanbanWrites.ImportWrites` | src/db.ts:2268-2285 | When an import is refused, skipped or written, and the row it writes |
| `KanbanWrites.ImportEventWrites` | src/web/fleet-transfer.ts:1119-1132 | An imported event row is appended unless the log has one of the same card, time and target |
| `KanbanWrites.GateReports` | src/db.ts:2077-2100 | When the lane gate looks at a card, and exactly what it answers: lane required, or the lane's count, limit and verdict |
| `KanbanWrites.TransitionAnswers` | src/db.ts:2113-2170 | Every answer of a transition: the same-state move, each refusal with its reply, when an allowed step throws, and the row, event and observation it writes |
| `KanbanWrites.MoveAnswers` | src/db.ts:2029-2042 | Every answer of the ungated move, with its refusals |
| `KanbanWrites.MoveGatedAnswers` | src/db.ts:2190-2211 | Every answer of the gated move |
| `KanbanWrites.EditAnswers` | src/db.ts:2002-2017 | Every answer of the ungated field update, and the columns it writes |
| `KanbanWrites.EditGatedAnswers` | src/db.ts:2219-2248 | Every answer of the gated field update for a lane of the six or none, and the columns it writes |
| `KanbanWrites.RawUpdateSucceedsIff` | src/db.ts:281-386 | A raw UPDATE goes through if and only if the listed conditions on the old and the new columns hold |
| `KanbanWrites.RawUpdateWrites` | src/db.ts:376-657 | The row a raw UPDATE leaves after its triggers: healed state, stamped time, cut title |
| `KanbanWrites.RawInsertMeaning` | src/db.ts:281-374 | When a raw INSERT goes through, and the row it leaves |
| `KanbanWrites.ReadersSee` | src/db.ts:1960-1965 | The hydrated state is the stored one where it fits the status, otherwise the status's own |
| `KanbanWrites.AcceptedIds` | src/task-observability.ts:33-95 | The card ids the observation log accepts, character by character |
| `ContextGuard.NormalizeRoundTrip` | src/context-guard.ts:112-146 | Any stored JSON normalizes to a well-formed configuration; every well-formed one survives storing and reading |
| `ContextGuard.CalibrateLimit` | src/context-guard.ts:222-231 | The tier loop never steps down, stops at the smallest of the three tiers that is within 1.25 times the observation, and at the largest when none is |
| `GuardMeaning.ActionMeaning` | src/context-guard.ts:406-580 | Handoff request, restart, resume and wait, each if and only if the listed signals hold, phase by phase, for every configuration |
| `GuardMeaning.ActionLeaves` | src/context-guard.ts:370-403 | What the guard remembers after each action: deadlines, file time, staleness, cooldown |
| `GuardMeaning.WaitLeaves` | src/context-guard.ts:406-545 | What it remembers after waiting, phase by phase |
| `GuardMeaning.StalenessMeaning` | src/context-guard.ts:340-368 | When a handoff is reported stale, unknown or fresh, and the rounded minutes |
| `GuardMeaning.TimeoutRestarts` | src/context-guard.ts:504-521 | Once a handoff is asked for, a session that stays running, not busy and guarded is restarted at the latest by the first sweep at or after the deadline |
| `GuardMeaning.OverThresholdIsRestarted` | src/context-guard.ts:550-580 | An idle guard that sees a running, unsaturated session between the thresholds asks for a handoff at once, and such a session is restarted within the configured timeout |
| `GuardMeaning.NormalizeMeaning` | src/context-guard.ts:112-145 | How each stored field is read: its range, its default, and the floor of token counts |
| `GuardRuns.RestartIsJustified` | src/context-guard.ts:406-545 | A restart hits a running session, a busy pane only if saturated with the net on, and carries that sweep's own staleness verdict |
| `GuardRuns.RestartSpacing` | src/context-guard.ts:370-400 | Any two restarts of a run are at least the cooldown apart while some toggle stays on; configurations may change between sweeps |
| `GuardRuns.DisarmingForgetsTheCooldown` | src/context-guard.ts:406-417 | The proviso is needed for every armed configuration: one sweep with all toggles off between them leads to two restarts at most four ticks apart for any cooldown |
| `GuardRuns.AwaitReadyTraces` | src/context-guard.ts:387-400 | Every await-ready state is the one an earlier restart left, with only waits since |
| `GuardRuns.ResumeFollowsRestart` | src/context-guard.ts:524-543 | Each resume follows a restart with only waits between, and announces the staleness measured at that restart |
| `GuardRuns.EpisodeState` | src/context-guard.ts:644-662 | During one await-handoff episode the state is the opening request's, but for the mtime of the latest request |
| `GuardRuns.RequestSpacing` | src/context-guard.ts:476-503 | Requests of one episode are more than three minutes apart when a newly seen handoff file postdates the sweeps that did not see it |
| `GuardRuns.RefreshesAreBounded` | src/context-guard.ts:476-503 | An episode emits fewer than handoffTimeout / 3 min refreshes, and its deadline never moves |
| `GuardRuns.EveryRunIsReached` | src/context-guard.ts:254-266 | Every run from the initial state satisfies the reachability invariant the recovery bound starts from |
| `GuardRuns.SaturatedSessionIsRestarted` | src/context-guard.ts:419-440 | With the net on, a session that stays running and saturated is restarted within READY_TIMEOUT + cooldown + 4 sweep gaps of any reachable state |
| `RestartGate.GateMeaning` | src/context-restart-gate.ts:142-237 | The gate opens if and only if it is enabled, the session is measured heavy and every signal is measured clear; it alerts if and only if enabled, heavy, not clear and the clock has run the interval |
| `RestartGate.ClockStep` | src/context-restart-gate.ts:256-265 | How one sweep moves the block clock |
| `RestartGate.ClockHasStreak` | src/context-restart-gate.ts:256-265 | A running clock shows the time of the refused heavy sweep that began an unbroken wait |
| `RestartGate.StreakHasClock` | src/context-restart-gate.ts:256-265 | Every unbroken wait keeps the clock running since at least its start |
| `RestartGate.AlertMeaning` | src/context-restart-gate.ts:228-265 | Over runs, a block-alert is raised if and only if the session is heavy, the gate is shut, and a refused heavy sweep at least the interval ago began a wait that no lighter reading and no sent clear has broken |
| `Coordinator.ConflictSpacing` | src/channel-coordinator.ts:92-111 | After a conflict answer the server is not asked again, by seed or long poll, for 90 s; so two conflicts are 90 s apart |
| `Coordinator.CoolingHolds` | src/channel-coordinator.ts:311-403 | The invariant behind it: the cooldown covers every conflict of the run |
| `Coordinator.EntersAfterTwoDownProbes` | src/channel-coordinator.ts:321-352 | Backfilling is entered if and only if this iteration and the one before it read DOWN outside the cooldown, the earlier met no conflict, and the high-water request succeeds; the offset is then the high water if there is one |
| `Coordinator.BatchStores` | src/channel-coordinator.ts:233-258 | After a batch an update is stored if and only if it was before or one of its handled copies was inserted without a fault |
| `Coordinator.BatchHandsOff` | src/channel-coordinator.ts:233-258 | A batch hands off only its own handled updates, none of them handed off before |
| `Coordinator.DiscardedBatchChangesNothing` | src/channel-coordinator.ts:387-396 | An iteration that processes no batch stores nothing and hands nothing off; only opening a window moves the offset |
| `Coordinator.BatchStep` | src/channel-coordinator.ts:387-401 | A processed batch moves the offset past all its ids, and hands off only ids between the old and the new offset |
| `Coordinator.HandedOffOnce` | src/channel-coordinator.ts:244-252 | Over all windows, servers and faults, at most one batch hands off an update, and it is stored |
| `Coordinator.WindowSafety` | src/channel-coordinator.ts:324-331 | Within a window the offset never decreases, and everything handed off lies above the offset in force at its opening |
| `Coordinator.PassedUpdateStaysLost` | src/channel-coordinator.ts:365-401 | An update below the offset is stored at the end of the window if and only if it already was |
| `Coordinator.LostExactlyByInsertFaults` | src/channel-coordinator.ts:241-246 | A new handled update of a processed batch is stored at the end of the window if and only if an insert of it did not throw; the offset passes it either way |
| `Coordinator.SomeUpdateIsLost` | src/channel-coordinator.ts:241-246 | An iteration after which the offset has passed an update that is stored nowhere |
| `Coordinator.AtMostOneInFlight` | src/channel-coordinator/ingest.ts:179-203 | When in-flight messages are the linked ones, an update has at most one in flight |
| `Coordinator.HandOffLinks` | src/channel-coordinator/ingest.ts:160-173 | A hand-off keeps that link if and only if the message is not queued or is linked |
| `Coordinator.ProcessOneLinks` | src/channel-coordinator.ts:243-256 | The same for one update of a batch |
| `Coordinator.MarkFaultHandsOffTwice` | src/channel-coordinator.ts:248-256 | A queued message whose link statement throws is in flight and its event still qualifies for replay, which puts a second copy in flight |
| `Coordinator.SomeUpdateIsHandedOffTwice` | src/channel-coordinator.ts:248-298 | A batch and the replay after it that leave two hand-offs of one update in flight |
| `Coordinator.NeverTwoInFlight` | src/channel-coordinator.ts:270-298 | Over every run without a failing link statement, replay included, no update ever has two hand-offs in flight |
| `Coordinator.ReplayMakesProgress` | src/channel-coordinator/ingest.ts:190-203 | A fault-free replay settles exactly the 50 oldest events in need: an event still needs a hand-off afterwards if and only if it did and 50 older ones did |
| `Coordinator.ReplayServes` | src/channel-coordinator/ingest.ts:190-203 | After a fault-free replay every event that is not given up and has fewer than 50 older unserved ones has a queued, unabandoned message with its id and text; any other event is left as it was |
| `Coordinator.AbandonedIsHandedOffAgain` | src/channel-coordinator.ts:261-298 | An event whose message the router abandoned or removed gets a fresh one in the next fault-free iteration |
| `Coordinator.InFlightGetsNone` | src/channel-coordinator/ingest.ts:178-203 | An event whose message is in flight keeps it and gets no other, whatever faults the iteration meets |
| `Coordinator.LinksAlwaysTell` | src/channel-coordinator.ts:270-298 | Over every run a hand-off carries the id and the text of the event it is linked to |
| `Coordinator.UpdateIsHandedOff` | src/channel-coordinator.ts:233-259 | What one polled update does to the store and the queue, for every kind and every fault of its three statements |
| `Coordinator.IterationLeaves` | src/channel-coordinator.ts:311-405 | What an iteration does to mode, down count, cooldown and offset, for every probe reading and every server answer |
| `Coordinator.Poller.InsertIncomingEvent` | src/channel-coordinator/ingest.ts:126-149 | Insert-or-ignore on the update id, or a throw that changes nothing |
| `Coordinator.Poller.HandOffEvent` | src/channel-coordinator/ingest.ts:160-173 | Queue and link with either statement failing, as specified |
| `Coordinator.Poller.ProcessUpdates` | src/channel-coordinator.ts:233-258 | The batch loop computes the specified store and the highest id |
| `Coordinator.Poller.ReconcilePending` | src/channel-coordinator.ts:270-298 | The replay loop computes the specified store |
| `Coordinator.Poller.WatchNative` | src/channel-coordinator.ts:321-352 | The idle branch takes exactly the specified step |
| `Coordinator.Poller.BackfillOnce` | src/channel-coordinator.ts:357-401 | The backfilling branch takes exactly the specified step |
| `Coordinator.Poller.RunOnce` | src/channel-coordinator.ts:313-402 | One loop iteration takes exactly the specified step |
| `Coordinator.Poller.RunLoop` | src/channel-coordinator.ts:311-403 | The loop takes the process through exactly the specified run |
| `MessageQueue.InOrderMeaning` | src/db.ts:2836-2839 | The delivery order lists each claimed message once, ascending in (created_at, id) |
| `MessageQueue.PendingIsLeftOnce` | src/db.ts:2733-2865 | A statement takes a message out of pending if and only if it names it or claims it; nothing re-enters pending; id, recipient and creation time never change |
| `MessageQueue.StatementWrites` | src/db.ts:2733-2865 | What every statement makes of every message, column by column, and which messages it selects |
| `MessageQueue.CreationWrites` | src/db.ts:2697-2732 | Creating adds one pending message; no other statement adds any |
| `MessageQueue.FederatedMeaning` | src/db.ts:2785-2815 | A recipient without a slash is never purged; 'peer/rest' is, for that peer in any case of letters or for no peer named |
| `MessageQueue.ClaimTakesOldest` | src/db.ts:2827-2835 | Whatever a claim leaves pending comes after all it took |
| `MessageQueue.ClaimSize` | src/db.ts:2827-2835 | A claim takes min(limit, pending) messages, all of them for a negative limit |
| `MessageQueue.NoDoubleDelivery` | src/db.ts:2825-2840 | Over every interleaving of statements no message is returned by two claims, and each claimed one is out of pending for good |
| `MessageQueue.DeliveryIsFifo` | src/db.ts:2825-2840 | With a nondecreasing clock the concatenated claims of one agent ascend strictly in (created_at, id), and all still pending comes after them |
| `MessageQueue.StampsHold` | src/db.ts:2733-2865 | Over every run the time stamps tell the status, texts and addresses never change, and a delivery time once set is never overwritten |
| `MessageQueue.Queue.CreateAgentMessage` | src/db.ts:2697-2717 | Inserts the returned pending message under a new id |
| `MessageQueue.Queue.ClaimPendingForAgent` | src/db.ts:2825-2840 | The update followed by the sort returns the specified claim in delivery order |
| `MessageQueue.Queue.SortForDelivery` | src/db.ts:2836-2839 | Sorting rows returned in arbitrary order yields the one ascending list of them |
| `MessageQueue.Queue.MarkMessageDelivered` | src/db.ts:2733-2736 | Delivers and reports true if and only if the message was pending |
| `MessageQueue.Queue.CloseMessagesWithoutDelivery` | src/db.ts:2768-2782 | The loop closes exactly the pending ids of the list and counts a repeated id once |
| `MessageQueue.Queue.SetMessageResult` | src/db.ts:2787-2789 | Writes the result text and nothing else |
| `MessageQueue.Queue.FailPendingFederatedMessages` | src/db.ts:2801-2817 | Fails exactly the pending slash-qualified messages, of one peer by its exact prefix |
| `MessageQueue.Queue.MarkMessageDone` | src/db.ts:2842-2848 | Finishes a message in any status, keeping an earlier delivery time |
| `MessageQueue.Queue.MarkMessageFailed` | src/db.ts:2850-2853 | Fails a message in any status |
| `MessageQueue.Queue.MarkPendingFederatedFailed` | src/db.ts:2862-2865 | Fails and reports true if and only if the message was pending |
| `MemoryCache.KeyIsInjective` | src/db.ts:1585-1586 | For safe agent ids a cache key determines agent, limit and category |
| `MemoryCache.Decimal` | src/db.ts:1585-1586 | The limit appears in a key in decimal, without leading zeros |
| `MemoryCache.QueryMeaning` | src/db.ts:1589-1595 | The listing is most recently accessed first, each row once, own or shared rows of the category only; a row is left out only when the list is full of rows accessed at least as recently |
| `MemoryCache.SaveWrites` | src/db.ts:1551-1577 | The columns of the saved row, and exactly which cache entries a save drops and keeps |
| `MemoryCache.EditWrites` | src/db.ts:1630-1656 | The columns an edit changes and keeps, and exactly which cache entries it drops and keeps |
| `MemoryCache.DeletionWrites` | src/web/routes/memories.ts:247-258 | A deletion takes one row and drops the whole cache, or does neither |
| `MemoryCache.ListingWrites` | src/db.ts:1585-1598 | A listing answers from an unexpired entry, else caches a fresh answer for sixty seconds under the given key |
| `MemoryCache.SaveKeepsCoherent` | src/db.ts:1551-1577 | A save evicts every list it changes |
| `MemoryCache.UpdateKeepsCoherent` | src/db.ts:1630-1656 | An edit evicts every list it changes, through reassignment and rows becoming or ceasing to be shared |
| `MemoryCache.CacheIsCoherent` | src/db.ts:1499-1598 | Over every run of saves, edits, deletions and listings, a listing of a safe id answers what a fresh query would; writers that do not evict are excluded |
| `MemoryCache.EditIsVisible` | src/db.ts:1630-1656 | After an accepted edit every listing shows the new text, category and owner, and an unlimited one of the owner shows the row |
| `MemoryCache.SaveIsVisible` | src/db.ts:1551-1577 | A saved memory shows at once to its author, or to everyone when shared |
| `MemoryCache.EntryHasOrigin` | src/db.ts:1531-1533 | Every cache entry was made by an earlier listing under the same key |
| `MemoryCache.StalenessIsBounded` | src/db.ts:1513-1533 | For any id and over every run, writers that do not evict included, an answer is what a query under the same key answered at most 60 s ago |
| `MemoryCache.ImportIsServedLate` | src/web/fleet-transfer.ts:1140-1152 | For every agent id a memory added by a writer that does not evict is hidden by a listing up to a minute old |
| `MemoryCache.UnsafeIdIsServedStale` | src/db.ts:1535-1586 | Safe is exact: for every other agent id some run from an empty store ends in a wrong listing |
| `MemoryCache.MemoryStore.MemoryCacheGet` | src/db.ts:1522-1529 | A hit is an entry whose expiry has not passed; a miss drops the entry |
| `MemoryCache.MemoryStore.MemoryCacheInvalidate` | src/db.ts:1535-1539 | The loop drops exactly the keys with the agent's prefix |
| `MemoryCache.MemoryStore.SaveAgentMemory` | src/db.ts:1551-1577 | Takes exactly the specified step; a category outside the column check changes nothing |
| `MemoryCache.MemoryStore.GetAgentMemories` | src/db.ts:1585-1598 | Takes exactly the specified step, and answers the fresh query for a safe id on a coherent store |
| `MemoryCache.MemoryStore.UpdateMemory` | src/db.ts:1630-1656 | Takes exactly the specified step |
| `MemoryCache.MemoryStore.DeleteMemory` | src/web/routes/memories.ts:247-258 | Deletes the row and clears the cache if it existed |
| `NotionSync.SigInjective` | scripts/notion_kanban_sync.py:194-196 | The signature text tells contents apart when no field holds a NUL |
| `NotionSync.ReadsBack` | scripts/notion_kanban_sync.py:144-161 | A property write reads back unchanged if and only if the texts are trimmed and at most 1900 characters, and the priority is set or was empty already |
| `NotionSync.StripMeaning` | scripts/notion_kanban_sync.py:104-114 | Stripping leaves exactly the text between the white space at both ends |
| `NotionSync.SpacesAre` | scripts/notion_kanban_sync.py:104-114 | The characters stripped, by code point |
| `NotionSync.WhoWins` | scripts/notion_kanban_sync.py:227-300 | What happens to a page, in terms of its raw texts, the card's and the remembered ones: the card wins only where the page is as remembered |
| `NotionSync.RefusalMeaning` | src/db.ts:169-176 | When the card table refuses a page, in terms of its raw title and priority |
| `NotionSync.CardTakesPage` | scripts/notion_kanban_sync.py:83-134 | After a run a pulled or imported page's card holds the texts between the page's white space, the title cut if new and too long, the priority or its default |
| `NotionSync.PageAfterRun` | scripts/notion_kanban_sync.py:144-190 | What a run leaves of every listed page, in raw texts: pushed texts cut at 1900, priority unless empty, status, LocalID, archive |
| `NotionSync.PageMadeForCard` | scripts/notion_kanban_sync.py:164-169 | The page made for a card that no page carries |
| `NotionSync.SecondRunIsQuiet` | scripts/notion_kanban_sync.py:212-316 | From any board with distinct LocalIDs on which the run completes, the next run writes nothing to either store if and only if everything written to Notion reads back, every imported page had a priority, and every title taken over had at most 300 characters or was its card's title already |
| `NotionSync.ConvergesIff` | scripts/notion_kanban_sync.py:212-316 | A run completes and the next writes nothing if and only if every page to be pulled or imported has one of the four priorities and a title, of at most 300 characters unless the card has that title already, and everything written to Notion reads back |
| `NotionSync.ReadBackMeaning` | scripts/notion_kanban_sync.py:144-161 | The read-back half of that condition in terms of the cards: no pushed or created card has padded or overlong text |
| `NotionSync.UnfaithfulPushIsPulledBack` | scripts/notion_kanban_sync.py:248-254 | A pushed card that does not read back is taken for a Notion edit by the next run, which overwrites the local card, or is refused if nothing of the title is left |
| `NotionSync.PairsAgreeAfterRun` | scripts/notion_kanban_sync.py:236-272 | After a run that settles, by the condition of SecondRunIsQuiet, every live pair agrees on content; Notion's status is the local state, unconditionally |
| `NotionSync.NextLocalEditSurvivesIff` | scripts/notion_kanban_sync.py:302-305 | A local edit of an agreeing pair right after a run is sent to Notion by the next run if and only if the card existed before the run and was not pulled in it |
| `NotionSync.StoredMeaning` | scripts/notion_kanban_sync.py:302-305 | A run remembers every card by its content from before the run, and no card it imported |
| `NotionSync.ArchiveLoopIsDead` | scripts/notion_kanban_sync.py:312-319 | The final archive loop never archives and never forgets anything |
| `NotionSync.PageWithoutLocalIdIsIgnored` | scripts/notion_kanban_sync.py:218 | A page without LocalID is not changed and does not become a card |
| `NotionSync.RunKeepsValid` | scripts/notion_kanban_sync.py:212-316 | A completed run leaves distinct LocalIDs and cards the local store accepts, so every result applies to the next run |
| `NotionSync.BlockedStaysBlocked` | scripts/notion_kanban_sync.py:248-300 | A page the dashboard refuses stays refused: after an interrupted run, whatever it handled first, no run completes either |
| `NotionSync.OnlyPullsRemain` | scripts/notion_kanban_sync.py:226-310 | After a run there is nothing to push, archive, import or create, at most something to pull |
| `NotionSync.ThirdRunIsQuiet` | scripts/notion_kanban_sync.py:212-316 | After two completed runs the third writes nothing, whatever was cut, padded or defaulted, if and only if every title the first run takes over, or sends in a form that comes back shortened, has at most 300 characters by then or is its card's title |
| `NotionSync.QuietStays` | scripts/notion_kanban_sync.py:212-316 | On a quiet board a run completes and changes neither store |
| `NotionSync.RunsInSequence` | scripts/notion_kanban_sync.py:212-316 | Over every sequence of completed runs the board stays valid and a page without LocalID is never touched; from the third run on none writes anything or, when a title of the first board does not fit, every run writes |
| `NotionSync.OverlongStays` | scripts/notion_kanban_sync.py:244-259 | A page whose title is pulled and cut keeps its content and is pulled and cut again by the next run |
| `NotionSync.OverlongIsPulledForever` | scripts/notion_kanban_sync.py:244-259 | The same over every sequence of completed runs, none of which is quiet |
| `NotionSync.TitlesFitIsKept` | src/db.ts:631-657 | No run changes whether the board's titles fit |
| `NotionSync.SomeTitleIsPulledForever` | src/db.ts:648-657 | A board on which nothing is refused and nothing is sent, with one title of 301 characters in Notion: every run completes and pulls it again |
| `NotionSync.DefaultedImportBlocks` | src/db.ts:1992-1999 | An imported page without a priority is refused as an update by the next run |
| `NotionSync.SomeImportBlocks` | src/db.ts:175 | A board whose first run completes and whose second cannot |
| `NotionSync.EditAfterPullIsLost` | scripts/notion_kanban_sync.py:302-305 | A pulled card holds the page's content, its title cut where the table cuts it, and any local edit that follows is overwritten by the next run |
| `NotionSync.SomeEditIsLost` | scripts/notion_kanban_sync.py:302-305 | A board on which that happens |
| `NotionSync.SomePushIsPulledBack` | scripts/notion_kanban_sync.py:144-161 | A board on which a pushed title comes back altered and is pulled |
| `NotionSync.EveryCardHasPage` | scripts/notion_kanban_sync.py:302-310 | After a run every local card has a page |
| `NotionSync.OldPageQuiet` | scripts/notion_kanban_sync.py:226-272 | A page listed in the first run is left alone by the second if and only if what was pushed to it reads back and what was taken from it was neither completed nor cut |
| `NotionSync.NewPageQuiet` | scripts/notion_kanban_sync.py:306-310 | The same for a page the first run created |
| `NotionSync.Sync.PagesByLocalId` | scripts/notion_kanban_sync.py:218 | The index holds exactly the LocalIDs that pages carry, each with its page |
| `NotionSync.Sync.LocalUpdate` | src/db.ts:2219-2248 | A content update is refused if and only if it sends no title or none of the four priorities; a new title over 300 characters is stored cut |
| `NotionSync.Sync.LocalCreate` | src/db.ts:1967-2000 | A create fills in the default priority, cuts a title over 300 characters, and is refused without a title or with an unknown priority |
| `NotionSync.Sync.ReconcilePage` | scripts/notion_kanban_sync.py:227-300 | The pull, push, conflict, archive and import branches have exactly the specified effect on both stores, and write if and only if the page is not quiet; a refused page changes nothing and ends the run |
| `NotionSync.Sync.FromNotion` | scripts/notion_kanban_sync.py:226-300 | The page loop computes the specified stores and signatures, up to the first refused page |
| `NotionSync.Sync.ToNotion` | scripts/notion_kanban_sync.py:302-310 | The card loop creates the missing pages and remembers every card's content from before the run |
| `NotionSync.Sync.ArchiveRemoved` | scripts/notion_kanban_sync.py:312-319 | The archive loop changes nothing |
| `NotionSync.Sync.RunSync` | scripts/notion_kanban_sync.py:212-320 | The run completes if and only if no page is refused; then it ends in the specified stores, and writes if and only if the board was not quiet; otherwise only pages that were not refused have been handled and the saved state is the old one |
| `EnvFile.JoinSplit` | src/env.ts:23 | Splitting into lines and joining gives the same bytes |
| `EnvFile.SplitJoin` | src/env.ts:70-87 | Joining newline-free lines and splitting gives the same lines |
| `EnvFile.WrittenLineReadsBack` | src/env.ts:24-38 | A line key=value reads back as itself if and only if the key is trimmed, free of '=' and no comment, and the value is trimmed and not quote-wrapped |
| `EnvFile.TrimPadded` | src/env.ts:23-36 | Trimming leaves the text between the white space |
| `EnvFile.LineAssigns` | src/env.ts:23-36 | A line of key, equals sign and value, with any white space around them, assigns the value, without its matching quotes, to the key |
| `EnvFile.LineIsIgnored` | src/env.ts:23-27 | Blank lines, comment lines and lines without an equals sign assign nothing |
| `EnvFile.ReadIsLastAssignment` | src/env.ts:22-40 | Reading gives each wanted key the value of its last assignment, and no other key |
| `EnvFile.ReadAfterUpdate` | src/env.ts:54-88 | With clean entries, reading after an update gives the old map overridden by the update if and only if each updated key was assigned at most once or its last assignment had the new value already |
| `EnvFile.SomeUpdateIsNotRead` | src/env.ts:71-80 | The file A=1, A=2 updated with A=3 still reads 2 |
| `EnvFile.OtherLinesAreKept` | src/env.ts:70-85 | Every line that is not the first assignment of an updated key keeps its bytes and place; new lines come last |
| `EnvFile.UpdateWrites` | src/env.ts:54-88 | The bytes an update writes to a file with content: the first assignment becomes key=value, a missing key gets such a line after the old ones |
| `EnvFile.NewFileWrites` | src/env.ts:54-69 | Into a missing or empty file the update writes the lines of the entries with a value; without any it leaves the file alone |
| `EnvFile.UpdateIsIdempotent` | src/env.ts:54-88 | Applying the same clean update twice equals applying it once |
| `EnvFile.RewrittenValue` | src/env.ts:71-80 | What each key reads as after the rewrite, key by key |
| `EnvFile.EnvStore.ReadEnvFile` | src/env.ts:13-40 | The line loop computes the specified map, for a missing file and for a key filter too |
| `EnvFile.EnvStore.UpdateEnvFile` | src/env.ts:54-88 | Leaves the specified file; nothing is touched when no value is non-empty |
| `EnvFile.EnvStore.RewriteLines` | src/env.ts:69-80 | The loop rewrites the first assignment of each updated key and uses the key up |
| `EnvFile.EnvStore.RemainingLines` | src/env.ts:82-85 | The unused keys become lines in the order of the update |
| `SplitMessage.CutPointMeaning` | src/format.ts:62-68 | A chunk ends at the last newline in reach, else at the last space in reach, else at the limit; inside a word only if the reach holds neither |
| `SplitMessage.Progress` | src/format.ts:56-72 | Under a positive limit, and under limit zero on a blank text, every round shortens the text |
| `SplitMessage.StallsOtherwise` | src/format.ts:56-72 | On every other text the loop never ends: under limit zero one round leaves a text starting with a word, which all later rounds leave as it is |
| `SplitMessage.SplitConserves` | src/format.ts:50-75 | Whenever the loop ends, the text is the chunks with only white space between and after them |
| `SplitMessage.LaterChunksStartWithWords` | src/format.ts:50-75 | Every chunk after the first is not empty and begins with no white space |
| `SplitMessage.SplitSizes` | src/format.ts:50-75 | Every chunk fits the limit, all but the last reach three tenths of it, and their number is bounded accordingly |
| `SplitMessage.SplitMessage` | src/format.ts:50-75 | The loop computes the chunks the results above are about, for every text on which it ends |
| `UsagePace.OveruseMeaning` | scripts/usage-collect.py:168-213 | Past the early guard OVERUSE holds if and only if use is at least 1.5 times the elapsed part and, once the reset time has passed, use still outgrows the overrun |
| `UsagePace.OpenWindowOveruse` | scripts/usage-collect.py:777-783 | For an unexpired window OVERUSE holds if and only if use is at least 1.5 times the elapsed part: the projection clause adds nothing |
| `UsagePace.VerdictMeaning` | scripts/usage-collect.py:168-213 | The three alert conditions in reported percent and seconds: 92 percent; one and a half times the elapsed part, and enough to outgrow an overrun; half of it, for windows of a day or more; the last two past 15 percent of the window |
| `UsagePace.KeyIsInjective` | scripts/usage-collect.py:763-796 | The alert kinds of all windows never share a de-duplication entry |
| `UsagePace.StylesAgree` | scripts/usage-collect.py:697-720 | On every entry that runs produce, crossing with refire and throttling are the same rule |
| `UsagePace.NextFires` | scripts/usage-collect.py:697-720 | Plain crossing fires on a rising edge only, and a throttled alert again once its interval has passed |
| `UsagePace.CollectionMeaning` | scripts/usage-collect.py:749-801 | One collection raises a scope's alert if and only if its verdict fires against the entry left before, and moves that entry only |
| `UsagePace.EntryIsStanding` | scripts/usage-collect.py:699-719 | Over runs an entry remembers exactly the latest alert not yet followed by a false verdict |
| `UsagePace.AlertIff` | scripts/usage-collect.py:697-801 | An alert is raised if and only if its verdict is true and every earlier alert of the same key is older than 45 minutes, or 12 hours for underuse, or was followed by a false verdict |
| `UsagePace.AlertGate.ShouldFire` | scripts/usage-collect.py:697-720 | Fires and updates the entry as specified, for all three styles |
| `UsagePace.AlertGate.EvaluateWindow` | scripts/usage-collect.py:749-801 | One window's evaluation, early guard included, raises the specified alerts |
| `UsagePace.AlertGate.ComputeAlerts` | scripts/usage-collect.py:723-803 | The loop over windows computes the specified alerts and state |

## Left out

- Floating-point rounding: guard times, pace fractions and the 0.3 split factor are exact; strings are sequences of characters (of UTF-16 units in `SplitMessage`).
- SQLite: the order of BEFORE triggers that abort together is fixed; a raw statement writes one row, keeps its rowid, has no conflict clause and no null title; the import flag is set only inside an import; the time a trigger stamps inside an application call is the call's own; titles contain no NUL, at which SQLite's `length` would stop.
- Lane policy rows change only at start-up, so a run of the model has one policy; `parseLaneWipLimit` is not modelled.
- Kanban priorities, assignees, projects, parents, descriptions and due dates are one opaque field; comments, labels, correlation ids and session ids are not modelled, nor is the comment a cut title is copied to.
- KanbanHistory.HistoryReplays: excludes deletion of the card, as a deleted id may be created again while its old events remain, raw statements on the card's own row, which write no event, and event rows that a fleet import copies into the card's own log (src/web/fleet-transfer.ts:1119-1132), which break the path.
- KanbanHistory.CreatedCardHistory: over the same runs, so with the same exclusions.
- KanbanHistory.UnsafeIdNeverMoves: over the same runs.
- KanbanBoard.Board.DeleteKanbanCard: does not clear the parent of the card's children or delete its comments and label links, as these columns and tables are not modelled.
- KanbanBoard.Board.ListKanbanCards: leaves the order of cards at the same position open, as SQL does.
- KanbanRuns.LaneWipBound: counts each fleet import as one possible excess card, as the import is exempt from the triggers by design.
- Clocks, random ids and row numbers chosen by SQLite are parameters of the operations.
- ContextGuard: reason texts are reduced to the distinctions the runner makes; the model-name table behind the context limit is not modelled.
- GuardRuns.RefreshesAreBounded: assumes that a newly seen handoff file was written after every sweep that did not see it, and nonnegative idle times.
- RestartGate: the runner's rate limit on sending an alert, its deferral for the main agent and the stale-outbound text are not modelled.
- Coordinator: the text of a hand-off is the update's text, without the block the program builds around it; retry delays, the process lock and signals are not modelled; a run ends where the process stops; a failing offset write at seeding is a failed seed, and one after a batch, which ends the process, is not modelled.
- Coordinator.WindowSafety: assumes the server returns only ids at or above the requested offset.
- Coordinator.NeverTwoInFlight: assumes an abandoned queue message stays abandoned and message ids are not reused.
- MessageQueue: raw SQL writers, for whom a trigger stamps a delivery without a time (src/db.ts:745-755), are not modelled; origin notes and trace columns are not modelled; `lower()` is ASCII only, as in SQLite; the order of `RETURNING` rows is arbitrary.
- MemoryCache: embeddings are not part of a row; rows of the same second are listed in id order, an order SQL leaves open; limits are integers; writers that do not evict (`touchMemoriesAccessed`, `decayMemories`, `saveMemory`, the fleet import at src/web/fleet-transfer.ts:1140-1152) are one operation that replaces the table.
- MemoryCache.CacheIsCoherent: excludes those writers, whose changes are seen within a minute (`StalenessIsBounded`, `ImportIsServedLate`).
- NotionSync: apart from what the card table refuses or cuts, requests succeed and each side stores what it is sent; the comment that keeps a cut title is not modelled; SHA-1 is taken as collision-free and replaced by the text it digests; a status is held in the lower case it is compared in; the statistics are reduced to whether anything was written.
- NotionSync.SecondRunIsQuiet: assumes that local cards have one of the four priorities, as the table guarantees, local ids that survive being written to a page, which generated ones do, and ids of created records that are new to both stores.
- EnvFile: the file is text; a missing file and an empty one differ only in whether an empty update creates it; the atomic write is one assignment; object keys with special meaning in JavaScript are ordinary keys.
- EnvFile.ReadAfterUpdate: is stated for clean entries, whose lines read back as written (`WrittenLineReadsBack` says which those are).
- SplitMessage.SplitMessage: requires the exact condition under which the loop ends; negative limits are not modelled.
- UsagePace: alert texts, time-zone formatting and the choice of windows from a snapshot are not modelled; a time stamp outside the calendar counts as missing.
- UsagePace.OpenWindowOveruse: assumes a window of at least one second, for which the code's guard against tiny elapsed times is void.
- HTTP routes, tmux, processes, OAuth, full-text search, embeddings, schema migrations, and the vault, audit, idea-box, cost and tracing tables: no state protocol of their own.
