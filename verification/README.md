# Verified model of the router's state machines and of the algorithms around them

A Dafny 4.11 model of the parts of the repository that keep state across events or edit durable files,
with proofs of what their code and documentation promise. `dafny verify dfyconfig.toml` checks all of it.

| file | what it models |
|---|---|
| `EdLedger.dfy`, `EdRuns.dfy`, `EdFlush.dfy`, `EdRuntime.dfy` | the E-D turn ledger: a prompt becomes a turn that is queued, opened, closed and written once; agents are bound to turns. Values and step functions, runs, a flush that other events interleave with, and the runtime's shared objects |
| `RouteLedger.dfy`, `RouteRuns.dfy`, `RouteOutcomes.dfy`, `RouteFlights.dfy`, `RouteRuntime.dfy` | the route-row ledger: one row for each accepted spawn and workflow agent, its outcome, escalation marks edited in place, pruning, trimming, session ends, and flushes that overlap, fail and put their rows back |
| `RetryBuffer.dfy` | the bounded buffer of observed rows under overlapping, failing flushes |
| `Injection.dfy` | the per-session injection budget with its memo and shared decisions in flight |
| `Admission.dfy` | the token bucket of heavy spawns under a rate rewritten every minute |
| `AckStore.dfy`, `AckFile.dfy`, `Needs.dfy` | the store of resolved blockers, its limits and its size bookkeeping, and what resolving does to an item |
| `Announcements.dfy` | the seen-set of "announce once" and the five lines shown |
| `Compaction.dfy`, `CompactionRuns.dfy` | memory compaction as a transformation of a directory tree |
| `PairedDeltas.dfy` | cell-local pairing of benchmark rows |
| `Chunking.dfy`, `WrapRow.dfy` | bounded, lossless splitting of texts and rows |
| `SlugSearch.dfy` | the backtracking search for the path of a slug |
| `Alerts.dfy` | rising edges with a delayed verdict and their file |
| `Base.dfy`, `Sorting.dfy`, `Text.dfy` | options, sorting, white space and line breaks |

The event-driven parts share one shape. A step function on values says what each event does; an invariant is
proved for every step and so for every run; the promises are lemmas about runs. Where the source updates fields or
loops, a class or a method does the same and its `ensures` ties the new state to the step function. A field that is
history only (`log`, `taken`, `spawns`, `dropped`, `admitted`) exists to state what was written or lost.

Interleavings are runs: an operation that awaits is two events, its start and its landing, with anything in between.
Host answers, clocks, hashes and outcomes of I/O are parameters of the events.

## Where the code and its documentation differ

- Fresh agent ids alone do not make `open` count the subagents waited for: a step of an agent that has completed binds
  it again, and its second completion counts down once more (plugin/hooks/ed.ts:159-173). `EdRuns.CountedExactly` gives
  the exact condition, `EdRuns.LateStepMiscounts` a run.
- A finished turn still closing is lost when a session is reset without a flush (plugin/hooks/ed.ts:249-255):
  `EdRuns.LostExactlyByReset`, `EdRuns.ResetLosesATurn`.
- A turn is written twice when its last subagent completes while a flush that took it is still at an earlier turn
  (plugin/hooks/ed.ts:221-223, 243-246): `EdFlush.DoubleWriteExactly`, `EdFlush.OvertakenTurnIsWrittenTwice`.
- A row that is in flight when its start is redone gets no mark, and none later if its flush fails and it is put back:
  its entry is marked by then and looks done (plugin/hooks/router.ts:242-245, plugin/hooks/observe.ts:242-243).
  `RouteFlights.MarkMissedExactly` has the exact condition, `RouteFlights.PutBackRowMissesItsMark` a run.
- Overlapping flushes can drop a row newer than one they keep (plugin/hooks/observe.ts:231-234):
  `RetryBuffer.DropsOldestExactly`, `RetryBuffer.OverlapDropsTheNewer`.
- A text whose publish was rejected is withheld, and the next render debits it again and may show it
  (plugin/hooks/inject.ts:114-118, 146-149): `Injection.DebitedOncePerSession` counts the debits,
  `Injection.VerdictsAgreeExactly` has the exact condition, `Injection.RetriedTextChangesVerdict` a run.
- `ks[-200:]` can drop a key that was just resolved again (src/apex_router/agent_inbox.py:1137-1141):
  `AckFile.ResolvedKeysStay`, `AckFile.ReResolvedKeyIsLost`. A new key can reopen the oldest known one in the same way:
  `Needs.ResolveOneKey`, `Needs.NewKeyReopensOldest`.
- The size limit of the acks file does not stop an entry whose own texts pass the read limit
  (src/apex_router/agent_inbox.py:1156-1167): `AckFile.StoreStaysReadable`, `AckFile.LongCallIsLost`. Only a direct call
  can pass such texts: the program's verdicts are four words (src/apex_router/agent_inbox.py:348-377) and its states come
  from fixed tables, and such calls never make the store unreadable, by `AckFile.ShortCallsStayReadable`.
- The preview of a compaction does not look for a linked cluster directory, apply does
  (scripts/memory_compact.py:353-360 and 440-446): `CompactionRuns.ApplyMatchesPreview`.
- The candidate keys of `deltas_from_rows` are not sorted, as its documentation says, but stand in the order of the
  first step that pairs them (src/apex_router/bench.py:172-174): `PairedDeltas.KeysSortedExactly`,
  `PairedDeltas.KeysNotSorted`.
- `chunk_pages` does not count the line breaks between pieces (scripts/booksearch.py:231-238):
  `Chunking.PageChunksFitExactly`, `Chunking.PageChunksBounded`, `Chunking.PageBoundIsSharp`.
- "Rows never change" (src/apex_router/agent_runs.py:385) holds for readings that come in the order of time only:
  `Alerts.LateReadingChangesVerdict` and `Alerts.LateReadingMovesAlerts` say exactly what a late one changes.
- Two alerts of one session at one time share a key (src/apex_router/agent_runs.py:377-388). Both are written if one
  collection is the first to find either decided and finds both so, and only then is a key in the file twice:
  `Alerts.EachKeyOnce`, `Alerts.TwinAlertsWrittenTwice`. If a collection comes between their decisions, the later
  decided one never enters the file:
  `Alerts.WrittenExactly`, `Alerts.LaterTwinIsNeverWritten`.

## Model

| member | source | states |
|---|---|---|
| EdLedger.FirstWithKey | plugin/hooks/ed.ts:124-134 | turn.start binds the first queued turn whose text hash matches, and reports when none does |
| EdLedger.LastWithKey | plugin/hooks/ed.ts:109-117 | a dropped prompt removes the last queued turn whose text hash matches |
| EdLedger.NextInv | plugin/hooks/ed.ts:96-255 | every event keeps the whole invariant: one place a turn, at most 8 queued and 32 closing, done flags, agent bindings, growing numbers, final rows |
| EdLedger.OverflowCommutes | plugin/hooks/ed.ts:236-239 | writing the oldest closing turn before or after the new one joins is the same, so the overflow drops nothing |
| EdRuns.RunInv | plugin/hooks/ed.ts:96-255 | the invariant holds after every run of events from a fresh runtime |
| EdRuns.PlacesMoveForward | plugin/hooks/ed.ts:96-255 | a turn moves only forward through queued, open, closing, written or gone, and each move has its event |
| EdRuns.WrittenOnce | plugin/hooks/ed.ts:197-246 | over every run, a flush being one step, a turn is handed to the append at most once, and only after its main completion; otherwise it waits in closing or was lost to a reset |
| EdRuns.LostExactlyByReset | plugin/hooks/ed.ts:249-255 | a finished turn is lost if and only if some reset of the run came while turns were still closing |
| EdRuns.FlushCompletesTheLedger | plugin/hooks/ed.ts:243-246 | after a flush, with no such reset, every turn whose main completion was seen is written exactly once |
| EdRuns.RowsAreFinal | plugin/hooks/ed.ts:197-207 | whatever happens later, a written row stays the row its turn would write |
| EdRuns.BoundNumbersGrow | plugin/hooks/ed.ts:124-134 | the turn numbers bound by turn.start strictly increase within a session |
| EdRuns.CountedExactly | plugin/hooks/ed.ts:144-173 | a step keeps `open` equal to the number of spawned agents still bound if and only if it neither spawns an agent a closing turn waits for nor reports a step of one that already completed |
| EdRuns.OpenCountsWaiting | plugin/hooks/ed.ts:144-240 | over every run without such a step, `open` of every live turn counts the subagents it waits for |
| EdRuns.LastCompletionWrites | plugin/hooks/ed.ts:215-227 | then each completion a live turn waits for, open or closing, takes one from a count of at least one, so the clamp at zero never acts; a closing turn is written by exactly the last of them |
| EdRuns.MainCompletionWrites | plugin/hooks/ed.ts:228-239 | and the main completion writes at once exactly when nothing is waited for |
| EdRuns.LateStepMiscounts | plugin/hooks/ed.ts:159-173 | a concrete run with fresh agent ids in which a late step makes the ledger write a turn while a subagent still runs |
| EdRuns.BindingSticks | plugin/hooks/ed.ts:144-173 | a bound agent stays bound to its turn until it completes, the turn is written, the session is reset or its id is spawned again |
| EdRuns.TokensConserved | plugin/hooks/ed.ts:159-173 | over every run the tokens of all turns plus the unattributed ones are all tokens reported |
| EdRuns.ResetLosesATurn | plugin/hooks/ed.ts:249-255 | a concrete run in which a turn that is done is lost to a reset, unwritten |
| EdFlush.DoubleWriteExactly | plugin/hooks/ed.ts:197-246 | while a flush, whose first write starts at once, awaits one write after the other and anything else happens, a turn it took is written once by its loop, and once more if and only if, before the loop came to it, one of the events was the completion of the last subagent the turn was counted to wait for |
| EdFlush.OvertakenTurnIsWrittenTwice | plugin/hooks/ed.ts:215-246 | a concrete run in which a turn is written twice that way |
| EdRuntime.Runtime.SubmitPrompt | plugin/hooks/ed.ts:96-106 | the method on shared turn objects refines the submit step and reports the arm drawn |
| EdRuntime.Runtime.DropPrompt | plugin/hooks/ed.ts:109-117 | refines the drop step |
| EdRuntime.Runtime.StartTurn | plugin/hooks/ed.ts:124-134 | refines the start step; the object it opens is the one that was queued |
| EdRuntime.Runtime.NoteCompose | plugin/hooks/ed.ts:137-141 | refines the compose step |
| EdRuntime.Runtime.NoteEdSpawn | plugin/hooks/ed.ts:144-151 | refines the spawn step |
| EdRuntime.Runtime.NoteEdTokens | plugin/hooks/ed.ts:159-173 | refines the token step for the main agent, a bound and an unbound agent |
| EdRuntime.Runtime.WriteTurn | plugin/hooks/ed.ts:197-207 | unbinds the turn's agents by identity of the object and logs its row |
| EdRuntime.Runtime.CompleteEd | plugin/hooks/ed.ts:214-240 | refines the completion step: agent or main, written at once, closing or overflow |
| EdRuntime.Runtime.FlushEd | plugin/hooks/ed.ts:243-246 | with nothing in between, its loop writes the closing turns oldest first, as the flush step says (for what comes in between see EdFlush) |
| EdRuntime.Runtime.EndEd | plugin/hooks/ed.ts:249-255 | refines the session end |
| RouteLedger.PruneMarkOnce | plugin/hooks/router.ts:234-251 | pruning forgets only entries whose row is out, marking changes no key |
| RouteLedger.SpawnOnce | plugin/hooks/router.ts:254-298 | an accepted spawn issues its key, which is then pending, and no row; a denied one issues none |
| RouteLedger.CompleteOnce | plugin/hooks/router.ts:315-373 | a completion keeps the account: every issued key is pending or has exactly one row |
| RouteLedger.EndOnce | plugin/hooks/router.ts:376-387 | a session end settles every pending key with one row each |
| RouteRuns.ExactlyOneRow | plugin/hooks/router.ts:224-227 | over every run an issued key has at most one row, none exactly while pending, and exactly one after a session end |
| RouteRuns.NeverASecondRow | plugin/hooks/router.ts:315-373 | later completions, trims, /clear: a row that is out is never joined by a second one |
| RouteRuns.MarksAreExact | plugin/hooks/router.ts:234-251 | a row is marked if and only if the full spawn history holds a later accepted spawn within 2 h, same description, at a higher tier than its cheap start; the mark names the first; pruning never shows |
| RouteRuns.HeldRowIsCurrent | plugin/hooks/router.ts:224-247 | an entry still held is done if and only if its present row is buffered or a row of its key was taken; every buffered row of its key is its present row |
| RouteRuns.RowsGetTheirOutcome | plugin/hooks/router.ts:315-387 | a step buffers a row only by a completion, with its outcome, or by the session end, as async; rows buffered before change at most in their mark |
| RouteOutcomes.TrimSparesRunning | plugin/hooks/router.ts:186-195 | trimming never drops a running dispatch |
| RouteOutcomes.PendingRunsRun | plugin/hooks/router.ts:254-373 | over every run the dispatch of a pending entry is held and running, and agents are bound only to issued keys |
| RouteOutcomes.CompletionBuffersItsRow | plugin/hooks/router.ts:315-373 | over every run a completion buffers exactly one row if its agent is bound to a pending entry, that entry's with this outcome, or if the agent is unknown and a workflow runs; otherwise none |
| RouteOutcomes.RowOutcomeExactly | plugin/hooks/router.ts:315-387 | over every run an accepted spawn has no row while neither its agent completed nor the session ended; then exactly one, with the outcome of whichever came first |
| RouteOutcomes.AsyncExactly | plugin/hooks/router.ts:315-387 | said of the events themselves: after a session end the one row is async if and only if the agent did not complete before it, while bound to this spawn, and otherwise carries the outcome of that completion |
| RouteFlights.OneRowSomewhere | plugin/hooks/observe.ts:231-243 | over every run in which flushes overlap, fail and put their rows back, an issued key that is not pending has exactly one row, buffered, in flight, in the file or dropped by the cap |
| RouteFlights.MarkMissedExactly | plugin/hooks/router.ts:234-247 | over every such run a row, wherever it is, lacks the mark it should have if and only if its row was out of the buffer when the first spawn that raises it came; it then has no mark at all |
| RouteFlights.MissedForGood | plugin/hooks/router.ts:234-247 | and no later spawn, completion or flush repairs it |
| RouteFlights.AwayIs | plugin/hooks/observe.ts:242-243 | the rows the history has as out of the buffer at a spawn are those in flight, in the file or dropped when it came |
| RouteFlights.PutBackRowMissesItsMark | plugin/hooks/router.ts:242-245 | a concrete run: cheap spawn, its answer, taken by a flush, redone at a higher tier, put back, redone again; the buffered row has no mark though its entry has |
| RouteRuntime.Runtime.AfterSpawn | plugin/hooks/router.ts:254-298 | the method on the runtime's maps refines the spawn step: view, prune, mark, entry, binding, trim |
| RouteRuntime.Runtime.OnComplete | plugin/hooks/router.ts:315-373 | refines the completion step for known, stale, workflow and unknown agents |
| RouteRuntime.Runtime.AtEnd | plugin/hooks/router.ts:376-387 | refines the session end: pending rows queued in order, maps cleared, agents kept |
| RouteRuntime.Runtime.WorkflowStarted | plugin/hooks/router.ts:307-309 | refines the launch step |
| RouteRuntime.Runtime.TakeRows | plugin/hooks/observe.ts:241-243 | the splice of a flush takes all buffered rows |
| RouteRuntime.MarkLoop | plugin/hooks/router.ts:234-247 | the loop that edits entries and the buffered row in place equals marking every entry and row |
| RouteRuntime.PruneLoop | plugin/hooks/router.ts:249-251 | the deleting loop equals removing the expired entries, in map order |
| RouteRuntime.TrimLoop | plugin/hooks/router.ts:186-195 | the trimming loop equals dropping finished dispatches from the oldest on |
| RouteRuntime.TrimKeepsRunning | plugin/hooks/router.ts:186-195 | trimming keeps every running dispatch in order and drops exactly the excess unless only running ones are left |
| RouteRuntime.TrimDropsOldest | plugin/hooks/router.ts:186-195 | what is kept is the running part of a prefix and then a whole suffix |
| RouteRuntime.WorkflowsBefore | plugin/hooks/router.ts:301-304 | the launches that count for an agent: not expired, and started no later than it, with the slack |
| RetryBuffer.EveryRowInOnePlace | plugin/hooks/observe.ts:231-243 | under any interleaving with overlapping flushes every recorded row is buffered, in flight, written or dropped, exactly once; the buffer never passes 5000 |
| RetryBuffer.OneFlushKeepsOrder | plugin/hooks/observe.ts:236-243 | with one flush at a time the file is in recording order |
| RetryBuffer.DropsOldestExactly | plugin/hooks/observe.ts:231-243 | whatever is recorded after any part of a run, records and put-backs drop only rows older than all they keep, if and only if every batch put back in the run ended below the oldest row then buffered |
| RetryBuffer.OneFlushDropsOldest | plugin/hooks/observe.ts:231-243 | with one flush at a time every record and every put-back drops only rows older than all it keeps |
| RetryBuffer.OverlapDropsTheNewer | plugin/hooks/observe.ts:231-243 | a run of two overlapping failing flushes that drops row 1 and keeps the older row 0, after which the next record drops row 2 and keeps row 0 |
| RetryBuffer.Buffer.Record | plugin/hooks/observe.ts:141-146 | append, then cut the front to the cap |
| RetryBuffer.Buffer.BeginFlush | plugin/hooks/observe.ts:241-243 | the batch is what was buffered, and the buffer is empty |
| RetryBuffer.Buffer.EndFlush | plugin/hooks/observe.ts:231-243 | a failed append puts the batch back in front |
| Injection.BudgetRun | plugin/hooks/inject.ts:99-119 | in every run of overlapping renders, landings and clears the injected bytes are the UTF-8 size of the texts admitted in this session and at most 2048; a holdout or unidentified session admits nothing |
| Injection.DebitedOncePerSession | plugin/hooks/inject.ts:128-153 | a text is debited exactly as often as its publish was rejected, plus once if a decision admitting it stands: once when no publish is rejected |
| Injection.VerdictsAgreeExactly | plugin/hooks/inject.ts:121-153 | the verdicts a text gets in one session, from the memo and from settled decisions, are all the same, unless a rejected publish withheld it and a later decision admitted it |
| Injection.RetriedTextChangesVerdict | plugin/hooks/inject.ts:141-150 | a concrete run in which that happens: verdict false, a second debit, verdict true |
| Injection.LateLandingsAreInert | plugin/hooks/inject.ts:128-153 | a run and the same run without the decisions that land after their session was cleared end alike in session, budget, memo, flights and in decisions and verdicts of the current session |
| Injection.Injector.Admit | plugin/hooks/inject.ts:99-119 | arm, cap and debit, in that order |
| Injection.Injector.Render | plugin/hooks/inject.ts:128-153 | memo first, then identity, then the shared flight, else a new decision |
| Injection.Injector.Land | plugin/hooks/inject.ts:141-150 | memo and flights of the session that asked are settled, a rejected publish is not remembered, and its renders get the verdict false |
| Injection.Injector.Clear | plugin/hooks/runtime.ts:222-234 | a session boundary forgets budget, memo and flights |
| Admission.AdmissionRate | plugin/hooks/signals.ts:102-105 | whatever the limit window, the rate stays between 0.2 and 10 a minute |
| Admission.TokensBounded | plugin/hooks/signals.ts:94-100 | tokens stay between 0 and the burst over every run of takes and re-ratings |
| Admission.AdmissionsBounded | plugin/hooks/signals.ts:94-105 | admissions between any two takes T minutes apart are at most burst + 10 T |
| Admission.RefusedOnlyAfterAdmission | plugin/hooks/router.ts:161-170 | a heavy spawn is refused only less than five minutes after an admitted one |
| Admission.TickCountsWholeHistory | plugin/hooks/live.ts:76-78 | pruning the spawn times is invisible: a tick counts the heavy spawns of the whole run in its last ten minutes |
| Admission.Limiter.BeforeSpawn | plugin/hooks/router.ts:161-170 | take, then remember the spawn among those of the last ten minutes |
| Admission.Limiter.Tick | plugin/hooks/live.ts:76-78 | re-rates the bucket from the recent heavy spawns and keeps its tokens |
| AckStore.DropKeepsCount | src/apex_router/agent_inbox.py:1158-1166 | the amount subtracted for a dropped id is exactly what it takes up in the serialised text |
| AckStore.FitKeeps | src/apex_router/agent_inbox.py:1156-1166 | the size loop keeps the written id, changes no entry, drops the oldest, and ends within three quarters of the read limit or with the written id alone |
| AckStore.TrimKeeps | src/apex_router/agent_inbox.py:1151-1155 | the count limit keeps 2000 ids, the written one among them whatever the clock says, and drops the oldest |
| AckFile.WrittenKeeps | src/apex_router/agent_inbox.py:1120-1168 | one write: at most 2000 ids, own id present, others unchanged, oldest dropped, and within the size limit if and only if the written entry alone is, which is otherwise all that stays |
| AckFile.ReadBack | src/apex_router/agent_inbox.py:1097-1117 | `ack_read` gives back what was saved, but for None and texts over 20 characters |
| AckFile.ReadIsBounded | src/apex_router/agent_inbox.py:1097-1117 | any file reads as ids of the right form with at most 200 keys and short texts |
| AckFile.ReadIsDistinct | src/apex_router/agent_inbox.py:1097-1117 | no id is read twice |
| AckFile.OneEntryFits | src/apex_router/agent_inbox.py:1139-1150 | a single entry with at most 200 keys is within the write limit when its texts are at most a megabyte long |
| AckFile.StoreStaysReadable | src/apex_router/agent_inbox.py:1097-1168 | over every run of writes and undos from an empty store it is readable if and only if no single entry made was by itself over the read limit; it then has at most 2000 ids and 200 keys each, and the next call succeeds exactly when its id has the right form |
| AckFile.OversizedIsLost | src/apex_router/agent_inbox.py:1141-1167 | an entry over the read limit is written and makes the store unreadable |
| AckFile.LongCallIsLost | src/apex_router/agent_inbox.py:1141-1167 | a concrete such call: "resolve all" with a text as long as the read limit, on a file that is not there yet |
| AckFile.ShortCallsStayReadable | src/apex_router/agent_inbox.py:1097-1168 | over every run of calls that resolve all only with a verdict and a state of at most a megabyte, as the program's own do, the store is readable and within the write limit |
| AckFile.ShortTextsFit | src/apex_router/agent_inbox.py:1141-1150 | no entry is that long if its verdict and state take up to a megabyte, nor any that resolves single keys |
| AckFile.OthersUnchanged | src/apex_router/agent_inbox.py:1133-1150 | after a write the own id reads back as written, any other as before or not at all |
| AckFile.UndoRestores | src/apex_router/agent_inbox.py:1129-1132 | undoing a first resolution gives back the acks as they read before, when nothing had to be dropped |
| AckFile.ResolvedKeysStay | src/apex_router/agent_inbox.py:1135-1141 | all keys just resolved are on record if and only if at most 200 are new and none of the known ones they push out was resolved again |
| AckFile.ReResolvedKeyIsLost | src/apex_router/agent_inbox.py:1137-1141 | with 200 keys known, resolving the oldest again beside a new one loses it |
| AckFile.MergeKeys | src/apex_router/agent_inbox.py:1136-1140 | the loop appends each new well-formed key once |
| AckFile.DropOldestUntilFit | src/apex_router/agent_inbox.py:1156-1166 | the loop with its running size equals the eviction it specifies |
| AckFile.AckStoreFile.Write | src/apex_router/agent_inbox.py:1120-1168 | the call on the file: bad id and corrupt file refused without a change, undo, and write |
| Needs.ResolveAllClears | src/apex_router/agent_inbox.py:1394-1418 | after "resolve all", through write and read-back, an item is out of needs at every time if and only if its keys found room, or it is too old |
| Needs.ReturnsExactly | src/apex_router/agent_inbox.py:956-976 | later it is back in needs exactly when a key off the record, another bad verdict or another bad state appears while it runs, has no time or is at most 48 h old |
| Needs.ResolveOneKey | src/apex_router/agent_inbox.py:1407-1412 | resolving one key leaves verdict and state as judged before; it clears that blocker and leaves all others if and only if the key was known, fewer than 200 were, or no open blocker has the oldest known key |
| Needs.NewKeyReopensOldest | src/apex_router/agent_inbox.py:1137-1141 | a concrete item with 200 keys on record: resolving one of its two blockers reopens the other |
| Needs.TokensDiffer | src/apex_router/agent_inbox.py:1250-1258 | two different reasons, or one at two agents, never share a token |
| Needs.NeedsHasAToken | src/apex_router/agent_inbox.py:956-976 | an item is in needs exactly when it has a token to announce and is not too old |
| Needs.InboxItem.ApplyAcks | src/apex_router/agent_inbox.py:956-976 | sets resolved, bad state, bad verdict, stale and group as judged |
| Needs.MarkResolved | src/apex_router/agent_inbox.py:960-961 | marks each open blocker whose key is on record and tells whether any is left |
| Announcements.AnnouncedExactly | src/apex_router/agent_inbox.py:1261-1295 | a call announces a token if and only if it has it, could write its file, and no earlier call had it without a complete call in between that did not, or at least 5000 others were recorded after it |
| Announcements.AnnouncedOnce | src/apex_router/agent_inbox.py:1261-1295 | two announcements of one token are separated by a complete call without it or by 5000 others recorded after it |
| Announcements.NewTokenAnnounced | src/apex_router/agent_inbox.py:1261-1295 | a token no call had before is announced, however many there are |
| Announcements.RepeatIsSilent | src/apex_router/agent_inbox.py:1293 | a complete call repeated at once announces nothing if and only if it has at most 5000 tokens |
| Announcements.GroupedCovers | src/apex_router/agent_inbox.py:1296-1299 | one row an item, every new token in the row of its item, none lost |
| Announcements.LinesCoverEveryAgent | src/apex_router/agent_inbox.py:1300-1308 | at most five lines, which together show or count every item with something new |
| Announcements.LinesFor | src/apex_router/agent_inbox.py:1300-1308 | the loop that writes the lines and breaks off at the fifth |
| Announcements.SeenFile.NewBlockers | src/apex_router/agent_inbox.py:1261-1308 | the call on the state file: its new seen-set and its lines |
| CompactionRuns.PlanIsColdRows | scripts/memory_compact.py:152-164 | planning neither loses nor doubles a cold row |
| CompactionRuns.ScanRows | scripts/memory_compact.py:108-129 | the scan has exactly one row for each memory file |
| CompactionRuns.MovesExactly | scripts/memory_compact.py:430-451 | a run that ends has moved exactly what could be moved at its start: no move affects a later one |
| CompactionRuns.NothingIsLost | scripts/memory_compact.py:378-469 | refused, interrupted or finished: every file is where it was or, unchanged, under its own cluster; no archived file changes; nothing else appears; a refused run leaves the tree as it was; an interrupted one leaves no repository it made, and the index as it was or, when the error strikes in the middle of writing it, the beginning of its new text |
| CompactionRuns.ApplyMatchesPreview | scripts/memory_compact.py:187-223 | a finished run moves the names its preview announced if and only if none belongs to a linked cluster directory, and then leaves the proposed index |
| CompactionRuns.LinkedClusterBreaksPreview | scripts/memory_compact.py:346-360 | a tree with one cold file and a linked cluster directory, where preview and apply differ |
| CompactionRuns.IndexKeepsOtherLines | scripts/memory_compact.py:363-375 | the lines of the new index are the unlinked lines of the old, in order and letter for letter, but for white space at the end |
| CompactionRuns.CompactIndexTwice | scripts/memory_compact.py:363-375 | compacting a compacted index with nothing moved gives the same text |
| CompactionRuns.SecondRunMovesNothing | scripts/memory_compact.py:378-469 | after a finished run another one, however it ends, moves nothing and changes neither files nor archive, nor the index unless it is interrupted while writing the same text again |
| CompactionRuns.PlanLoop | scripts/memory_compact.py:152-164 | the loop that fills the clusters |
| CompactionRuns.MoveAll | scripts/memory_compact.py:430-451 | the two nested loops, with an I/O error at any row |
| CompactionRuns.MemoryDir.ApplyCompaction | scripts/memory_compact.py:378-469 | the call on the directory: refusals, checkpoint, moves, index, and the removal of its own .git on failure |
| PairedDeltas.RowOrderIrrelevant | src/apex_router/bench.py:164-223 | the result is the same for every permutation of the rows, key order and error included |
| PairedDeltas.OtherRowsIrrelevant | src/apex_router/bench.py:180-201 | with run and snapshot given, rows of other cells, splits, runs and snapshots change nothing |
| PairedDeltas.ListsAreExact | src/apex_router/bench.py:203-223 | each candidate's list is candidate minus incumbent over the sorted steps where both are present, and the table holds exactly the scores of the rows in scope |
| PairedDeltas.RaisesExactly | src/apex_router/bench.py:180-212 | it raises if and only if the scope is ambiguous or a model has two rows for one step |
| PairedDeltas.KeysSortedExactly | src/apex_router/bench.py:213-223 | the candidate keys are sorted, as documented, if and only if no candidate is first paired on an earlier step than one whose name comes before its own |
| PairedDeltas.KeysByFirstStep | src/apex_router/bench.py:213-223 | they stand in the order of the first step that pairs them, then by name |
| PairedDeltas.KeysNotSorted | src/apex_router/bench.py:172-174 | four rows whose result is not sorted by candidate |
| PairedDeltas.IndexLoop | src/apex_router/bench.py:203-212 | the indexing loop, with the duplicate error |
| PairedDeltas.DeltaLoop | src/apex_router/bench.py:213-223 | the two loops over sorted steps and sorted models |
| PairedDeltas.PairRows | src/apex_router/bench.py:164-223 | the whole call |
| Chunking.SlicesBounded | scripts/booksearch.py:212-222 | slicing ends; every piece has between one and `size` characters; no ink is lost or moved |
| Chunking.PackGreedy | scripts/booksearch.py:148-156 | a chunk is closed only when the next piece would not have fitted |
| Chunking.PackFlattens | scripts/booksearch.py:148-158 | packing loses, doubles and moves no piece |
| Chunking.LineChunksBounded | scripts/booksearch.py:143-158 | every chunk of lines has at most `target` characters |
| Chunking.LineSpansOrdered | scripts/booksearch.py:143-158 | spans lie within the lines and follow one another |
| Chunking.LineChunksLoseNothing | scripts/booksearch.py:143-158 | the non-blank characters of the chunks, in order, are those of the text |
| Chunking.LineChunksRestore | scripts/booksearch.py:143-158 | when no line is longer than the target, joining the chunks gives back the lines |
| Chunking.PageChunksBounded | scripts/booksearch.py:225-240 | a chunk of pages is over its target by at most its pieces less one, and never twice as long |
| Chunking.PageChunksFitExactly | scripts/booksearch.py:225-240 | every chunk of pages is within its target, as documented, if and only if no piece joins a buffer it fits only with the line breaks not counted, and if and only if packing with the breaks counted gives the same runs |
| Chunking.PageBoundIsSharp | scripts/booksearch.py:225-227 | for every target there are pages whose chunk has twice the target less one |
| Chunking.PageChunksLoseNothing | scripts/booksearch.py:225-240 | the non-blank characters of the pages come out in order |
| Chunking.Slice | scripts/booksearch.py:212-222 | the while loop of `_slice_text` |
| Chunking.ChunkLines | scripts/booksearch.py:143-158 | the nested loops of `chunk_lines` |
| Chunking.ChunkPages | scripts/booksearch.py:225-240 | the nested loops of `chunk_pages` |
| WrapRow.RowsFit | plugin/hooks/pane.tsx:184-207 | every row takes at most `width` columns, or two below that width |
| WrapRow.NothingCut | plugin/hooks/pane.tsx:184-207 | the characters that are no spaces come out all, once each and in order |
| WrapRow.RowsIndented | plugin/hooks/pane.tsx:186-189 | the first row keeps its indent, the others have two spaces more, as far as the width allows |
| WrapRow.WordsStayWhole | plugin/hooks/pane.tsx:190-204 | no word is broken if and only if the first fits beside the indent and each other beside that of a continuation row |
| WrapRow.CharCols | plugin/hooks/band.tsx:49-57 | a code point takes one or two columns, the space one |
| WrapRow.WrapRow | plugin/hooks/pane.tsx:184-207 | the nested loops over words and code points |
| SlugSearch.ResolveSound | src/apex_router/agents.py:88-117 | any path returned exists within the limits and has the slug asked for |
| SlugSearch.ResolveComplete | src/apex_router/agents.py:88-117 | if such a path exists, some path is found |
| SlugSearch.ResolveExactly | src/apex_router/agents.py:88-117 | it answers if and only if there is a path |
| SlugSearch.UniquePathFound | src/apex_router/agents.py:84-117 | decoding undoes encoding where the slug is not ambiguous |
| SlugSearch.ResolvePrefers | src/apex_router/agents.py:101-116 | of all paths with the slug the one returned has the longest name where they first differ |
| Alerts.RisesExactly | src/apex_router/agent_runs.py:354-364 | a reading raises an alert if and only if it is at 80 % or more and the last reading before it was below |
| Alerts.AlertsSeparated | src/apex_router/agent_runs.py:354-364 | between two alerts lies a reading below 80 % |
| Alerts.CrossingRaises | src/apex_router/agent_runs.py:354-364 | no up-crossing goes without an alert |
| Alerts.DecidedExactly | src/apex_router/agent_runs.py:365-376 | an alert is decided if and only if 30 minutes have passed or a reading below 50 % came within them |
| Alerts.VerdictStable | src/apex_router/agent_runs.py:365-376 | readings later than the evaluation never change a known verdict |
| Alerts.LateReadingChangesVerdict | src/apex_router/agent_runs.py:365-376 | a reading that comes in late changes the verdict of an alert if and only if it is below 50 %, after the alert, within 30 minutes of it and before the reading that cleared it otherwise; the verdict is then the late one's |
| Alerts.LateReadingMovesAlerts | src/apex_router/agent_runs.py:354-364 | which alerts it makes and unmakes: its own if it is an up-crossing; that of the next reading with a value is gone if the late one crosses first, and new if the late one goes below 80 % in between; all others stay |
| Alerts.LateReadingTurnsVerdictRound | src/apex_router/agent_runs.py:365-376 | a session of two readings where a late one turns "not acted" into "acted" |
| Alerts.AlertRowsAre | src/apex_router/agent_runs.py:339-351 | the rows are those of each session, whatever else was measured |
| Alerts.WrittenRowsNeverChange | src/apex_router/agent_runs.py:382-389 | when readings and collections come in the order of time, every later evaluation gives the very row that was written |
| Alerts.DecidedIsWritten | src/apex_router/agent_runs.py:382-389 | collecting leaves a row with the key of every alert decided by then; it is the alert's own row if and only if that was in the file before or no row with its key was |
| Alerts.KeyIsWritten | src/apex_router/agent_runs.py:382-389 | over every run the file has a row with a key if and only if some collection found an alert with it decided |
| Alerts.WrittenExactly | src/apex_router/agent_runs.py:382-389 | over every run an alert is in the file if and only if some collection found it decided while no row with its key was there |
| Alerts.EachKeyOnce | src/apex_router/agent_runs.py:377-389 | over every run the file holds decided alerts only, and no two of its rows share a key if and only if no collection met two alerts of one session at one time, both decided, whose key was not yet in the file |
| Alerts.DistinctAlertsOnce | src/apex_router/agent_runs.py:377-389 | no collection meets such a pair if no session has two alerts at one time |
| Alerts.TwinAlertsWrittenTwice | src/apex_router/agent_runs.py:377-388 | three readings at one time and one collection when both alerts are decided: two rows with one key |
| Alerts.LaterTwinIsNeverWritten | src/apex_router/agent_runs.py:382-388 | the same readings, collected once while only the first is decided and again later: the second is decided and never enters the file |
| Alerts.ScanWindow | src/apex_router/agent_runs.py:368-375 | the inner loop with its two ways to stop |
| Alerts.FindAlerts | src/apex_router/agent_runs.py:354-379 | the outer loop with `prev` |

## Left out

- E-D ledger: `write` is a single step; a session id that changes between its unbinding and its row
  (plugin/hooks/ed.ts:197-207) is not modelled. `EdFlush` interleaves one flush with anything else; in the other modules
  a flush is one step.
- E-D ledger: a row whose append fails counts as handed over and dropped, as the code does; the text hash, the arm draw
  and the holdout draw are parameters; the `applied` and injection-arm fields of the row are not modelled.
- Route ledger: in `RouteLedger`, `RouteRuns` and `RouteRuntime` a batch a flush has taken counts as written;
  `RouteFlights` adds the flushes that fail and put it back.
- Route ledger: descriptions are taken as normalised and model names as lower-case; the decision itself, labels, cells,
  statistics and what is published are not modelled.
- Retry buffer: the 2048-byte truncation of a row and a partial append are not modelled; an append succeeds or fails whole.
- Injection: the texts themselves (level, evidence rows) and the log rows are not modelled.
- Injection: a skill section is admitted without a memo, as in the code; only its debit is modelled.
- Admission: real numbers stand for floating point; the other signals of `tick` (burn, level, breakers, windows) are not modelled.
- Acks: JSON is a value with the length of its compact text, not the text; the file keeps the order in which entries
  were written, where the code sorts them by name on writing, so which of two equally old ids goes first may differ.
- AckFile.StoreStaysReadable: takes a time of at most 24 characters, because no float is written with more.
- Acks: locking, the atomic replace and its errors are not modelled; a call either happens or does not.
- Inbox: how blockers, verdicts, keys and states are found in agent output is taken as given; `_order` and `_cap` would add easy members only.
- Announcements: the label and the cut to 200 characters of a line are not modelled; the size limit of the seen-file is not reached by 5000 tokens and is left out.
- Compaction: the frontmatter and age test is a predicate on the text of a file; a cluster name is taken as a plain
  directory name, so a file named `...md` or `..md`, or a multi-token prefix with a slash, is not modelled.
- Compaction: an index write that fails stops after a whole character.
- Compaction: git is its answers (inside, outside, unknown, clean, snapshot made); that a reset restores the snapshot is git's own promise.
- Pairing: the statistics built on the deltas (`cell_evidence_from_rows`, bootstrap, reports) are not modelled; a row has all its fields.
- Chunking: generators are lists; extraction of text from pages is not modelled.
- Wrapping: the space is the only white space of a row; the other parts of the pane are not modelled.
- Slug search: the directory tree is finite and does not change during the search; links to directories are directories.
- Alerts: the lag is exact where the code rounds to seconds; a key is the session and the time, which are whole milliseconds in practice.
- `signals.ts` beyond the bucket, `toastOnce`, option parsing, path handling and dashboards would only add easy members.
