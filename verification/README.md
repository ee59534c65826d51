# Verified model of the DeepseekNova agent core

This project models the stateful parts of the DeepseekNova agent and proves what they keep over whole runs. It is
self-contained Dafny: `dafny verify dfyconfig.toml` checks everything.

| part | files | what is proved |
|---|---|---|
| Checkpoint store | Hex, Snapshots, CheckpointManager, CheckpointRuns, SessionCheckpoints | The append-with-cursor log refines "rewrite everything" over every run; a full rollback undoes everything, with the exact exceptions; restart loses nothing |
| Conversation memory | Utf8, History, Memory, MemoryLaws, MemoryRuns, Compaction, SubAgentLoop | Calls stay paired with their results through truncation, sliding, compaction and the sub-agent loop; when shrunk results stay recoverable, and when not |
| Delegation | Delegation, DelegationProgress, DelegationBound, DelegateEngine, DelegationTraces | Permits are conserved, exactly when it can get stuck, a bound on all the work one delegation can cause, the retry loop and its place in the step machine |
| Text scanners | Texts, ExtractJson, RetryParsed, TaskSpec, Templates, Mentions, ParseInput, PromptLaws | JSON extraction, templates, mentions and prompts against declarative meanings and round trips |
| Scheduling | PhaseRunner, Classify, Plan, StepHistory | Failure streaks and gates over every run, grouping of calls, the plan boundary, the bounded step history |

Objects whose methods change them are classes; each method is specified by a function of its inputs and the old state,
and the laws are lemmas about those functions over all inputs or all runs. The model replies, tool results, clocks,
failures of file operations and the order in which a hash table is walked are inputs of the model, never fixed.

Where the code does not do what its documentation says, the code is modelled as it is, a lemma shows the case, and
another says exactly when the promise holds:

- A restore that fails returns after its snapshot was popped and before the log is rewritten. The cursor can then lie
  past the stack, and the next snapshot is silently not written (`SnapshotAfterFailedRestore`). `PerformReal` says over
  every run, failed restores included, what the log reads back as; exactly when it is in step: `InStepIff`.
- Rolling back a file takes away a neighbouring file called like it with `.rollback` appended (`NeighbourIsLost`; exactly
  when: `OldestStateRestoredIff`, `OtherPaths`).
- Session checkpoint ids repeat within one second, and a rollback by id then takes the oldest (`TwoSavesOneSecond`;
  exactly when: `IdMeansSavedIff`).
- A slide's retain pass removes a result whose call is gone and leaves its table entries (`StaleEntryStays`; which ids are
  stale after any run: `StaleIsExact`; none if calls come before results: `CalledFirstNeverStale`). A slide that drops a
  call whose id is used again forgets the original of a result that stays, cut, in the queue (`ReusedCallLosesOriginal`;
  exactly when: `SlideRecoverableIff`).
- Grouping a history into units says it keeps every message. A system message, or a tool message that answers nothing,
  right behind a tool exchange is lost (`UnitsLoseSystem`; exactly when: `UnitsKeepAllIff`, and for the units
  a compaction keeps: `RecentIsEndIff`).
- The undeclared-name check of a task template trims a placeholder's name; the substitution does not. A placeholder with
  extra white space passes the check and stays in the prompt (`SpacedPlaceholderStays`; exactly when: `NothingLeftIff`).
- A template value that contains a placeholder makes the result depend on the order of a hash table
  (`OrderMattersWithPlaceholderValues`; exactly when: `OrderFreeIff`).
- The byte offset of the goal line is short by one byte for every preceding line that ends with a carriage return and a
  newline. When the missed bytes are not all white space the goal gains text, or the slice fails
  (`CarriageReturnsSpoilGoal`; exactly when: `GoalIsExactIff`).
- A chain of delegations gets stuck when the depth limit exceeds the permits, and several concurrent roots get stuck
  whenever nesting is allowed at all (`ChainStuckIff`, `EngineStuckIff`, each with the run that gets stuck).
- The planner is told that a `tool_call:` edge fires when the tool result mentions the id. The id is lower-cased first, so
  an id with a capital letter fires on the lower-cased id instead (`CapitalIdMisfires`; exactly when: `FiresAsToldIff`).

## Model

| member | source | states |
|---|---|---|
| Hex.RoundTrip | crates/deepseeknova-checkpoint/src/lib.rs:60-116 | Decoding the base16 text of any bytes gives those bytes back (section 8 of RFC 4648, lower case) |
| Hex.DecodeExactly | crates/deepseeknova-checkpoint/src/lib.rs:76-116 | A text decodes exactly when it is base16 of even length, and then it encodes back to its lower-case form |
| Hex.EncodedAt | crates/deepseeknova-checkpoint/src/lib.rs:60-74 | Every byte is written as its high and its low digit, lower case |
| Snapshots.WireRoundTrip | crates/deepseeknova-checkpoint/src/lib.rs:59-116 | A snapshot of any content survives being written and read, absent and empty kept apart |
| Snapshots.LegacyRecord | crates/deepseeknova-checkpoint/src/lib.rs:76-116 | In records without hex content an empty text means absent and any other text is the content |
| Snapshots.HexRecord | crates/deepseeknova-checkpoint/src/lib.rs:76-116 | A record with hex content is read exactly when that is hex text, its bytes are the content, and the file existed unless the flag says no |
| Snapshots.EmptyRecord | crates/deepseeknova-checkpoint/src/lib.rs:76-116 | A record without content is an absent file unless its flag says it existed |
| Snapshots.LoadConcat | crates/deepseeknova-checkpoint/src/lib.rs:152-171 | Loading a log appended to another is loading both, and the first error wins |
| Snapshots.LoadSerialized | crates/deepseeknova-checkpoint/src/lib.rs:152-214 | Loading a log that was written from a stack gives that stack |
| Snapshots.BadLineStops | crates/deepseeknova-checkpoint/src/lib.rs:152-171 | The first line that cannot be read stops the load with its error |
| Snapshots.BlankIsSkipped | crates/deepseeknova-checkpoint/src/lib.rs:152-171 | A blank line is no record |
| Snapshots.Capture | crates/deepseeknova-checkpoint/src/lib.rs:536-551 | A snapshot stands for exactly the state of its path, absence included |
| Snapshots.RestoredAt | crates/deepseeknova-checkpoint/src/lib.rs:556-574 | What one restore leaves at every path: the target's saved state, no temporary file, everything else untouched |
| Snapshots.RestoredAllAt | crates/deepseeknova-checkpoint/src/lib.rs:317-327 | What a full rollback leaves at every path, with no proviso: the oldest snapshot that touches the path decides |
| Snapshots.OldestStateRestoredIff | crates/deepseeknova-checkpoint/src/lib.rs:317-327 | A path returns to its oldest retained state exactly when it was absent or no older restore uses it as temporary file |
| Snapshots.OtherPaths | crates/deepseeknova-checkpoint/src/lib.rs:556-574 | Paths without a snapshot are untouched, except that a restore's temporary name disappears |
| Snapshots.NeighbourIsLost | crates/deepseeknova-checkpoint/src/lib.rs:556-574 | Rolling back a file removes the file beside it with the temporary name |
| Checkpoints.CheckpointManager.constructor | crates/deepseeknova-checkpoint/src/lib.rs:142-149 | A new store is empty, unpersisted, with the default limit, and lawful |
| Checkpoints.CheckpointManager.LoadFrom | crates/deepseeknova-checkpoint/src/lib.rs:152-171 | A missing log is an empty store; otherwise the log's stack in step with it, or the first error |
| Checkpoints.CheckpointManager.WithPersistence | crates/deepseeknova-checkpoint/src/lib.rs:174-180 | Choosing a log sets the cursor to zero, which makes the cursor law hold |
| Checkpoints.CheckpointManager.PersistAll | crates/deepseeknova-checkpoint/src/lib.rs:197-214 | The whole log is rewritten from the stack, and only that log |
| Checkpoints.CheckpointManager.PersistIncremental | crates/deepseeknova-checkpoint/src/lib.rs:221-244 | Appending from a lawful cursor brings the log in step |
| Checkpoints.CheckpointManager.EnforceCapacity | crates/deepseeknova-checkpoint/src/lib.rs:248-255 | The oldest snapshots above the limit go, and then the log is rewritten |
| Checkpoints.CheckpointManager.SnapshotFile | crates/deepseeknova-checkpoint/src/lib.rs:258-263 | The new stack is the old one plus the captured state, trimmed, and the log is in step |
| Checkpoints.CheckpointManager.RollbackInner | crates/deepseeknova-checkpoint/src/lib.rs:290-303 | The newest snapshot is popped before its restore is tried |
| Checkpoints.CheckpointManager.RestoreState | crates/deepseeknova-checkpoint/src/lib.rs:556-574 | Writing a temporary file and renaming it, or deleting, has the effect of the restore function |
| Checkpoints.CheckpointManager.Rollback | crates/deepseeknova-checkpoint/src/lib.rs:307-314 | One undo, with the log in step after success and untouched after a failed restore |
| Checkpoints.CheckpointManager.RollbackAll | crates/deepseeknova-checkpoint/src/lib.rs:317-327 | All undone newest first, or exactly those before the first restore that fails |
| Checkpoints.CheckpointManager.Clear | crates/deepseeknova-checkpoint/src/lib.rs:368-371 | The stack is empty, the log too, and no file changes |
| Checkpoints.AppendInStep | crates/deepseeknova-checkpoint/src/lib.rs:221-244 | Appending what is above a lawful cursor leaves a log that reads back as the whole new stack |
| CheckpointRuns.Perform | crates/deepseeknova-checkpoint/src/lib.rs:140-371 | Every operation acts on files and stack as the store without cursor or log does, keeps the cursor law, and leaves the log in step |
| CheckpointRuns.PerformAll | crates/deepseeknova-checkpoint/src/lib.rs:174-255 | Over every run of operations and outside changes the append-with-cursor store refines "rewrite everything each time" |
| CheckpointRuns.Restart | crates/deepseeknova-checkpoint/src/lib.rs:152-171 | A store in step, stopped and loaded again, has the same stack and is in step |
| CheckpointRuns.StackProvenance | crates/deepseeknova-checkpoint/src/lib.rs:258-327 | After any run each retained snapshot holds the state its path had when it was taken, in order of taking |
| CheckpointRuns.FullRollbackAfterRun | crates/deepseeknova-checkpoint/src/lib.rs:317-327 | After any run with outside changes a full rollback returns each path to its state at its oldest retained snapshot, exactly when no temporary name interferes |
| CheckpointRuns.BoundedIsSuffix | crates/deepseeknova-checkpoint/src/lib.rs:248-263 | The bounded stack is always a suffix of the unbounded one, and after each push it holds one more than before or exactly the limit |
| CheckpointRuns.FailedRestoreKeepsCursorIff | crates/deepseeknova-checkpoint/src/lib.rs:290-327 | After a failed restore, whether one snapshot or several were popped, the cursor law holds exactly when the cursor is within what is left |
| CheckpointRuns.SnapshotAfterFailedRestore | crates/deepseeknova-checkpoint/src/lib.rs:221-303 | The snapshot after a failed restore is not written; the log agrees only if it equals the popped one |
| CheckpointRuns.PerformReal | crates/deepseeknova-checkpoint/src/lib.rs:174-371 | Over every run, restores that fail included, the store is the simple one, its log reads back as the list the run gives, and it is in step exactly when that list is the stack |
| CheckpointRuns.InStepIff | crates/deepseeknova-checkpoint/src/lib.rs:174-371 | Over every run the log is in step if no undo failed after popping something since the log was last rewritten, and with distinct stamps only then |
| SessionCheckpoints.SessionCheckpointManager.SaveWithFiles | crates/deepseeknova-checkpoint/src/lib.rs:727-753 | The id is the second of the clock; the new list is the old one plus the checkpoint with the files as they are now, trimmed, and logged |
| SessionCheckpoints.SessionCheckpointManager.Rollback | crates/deepseeknova-checkpoint/src/lib.rs:774-800 | The list is the old one without the checkpoint found, whose restores run past failures, and the log is rewritten; an unknown id changes nothing |
| SessionCheckpoints.Position | crates/deepseeknova-checkpoint/src/lib.rs:778-789 | An id means its first bearer, no id the newest |
| SessionCheckpoints.RolledBackAt | crates/deepseeknova-checkpoint/src/lib.rs:727-800 | Whatever happened since the save, the last restore that succeeds and touches a path decides: the saved state of its target, absence of its temporary name, and nothing for other paths |
| SessionCheckpoints.SavedStateBackIff | crates/deepseeknova-checkpoint/src/lib.rs:727-800 | A path with a restore that succeeds has its saved state exactly when it was absent or no later restore uses its name |
| SessionCheckpoints.KeptAreLeft | crates/deepseeknova-checkpoint/src/lib.rs:689-800 | Over every run of saves and rollbacks what is left is what the kept saves made, in order |
| SessionCheckpoints.UndoTakesOne | crates/deepseeknova-checkpoint/src/lib.rs:774-800 | Over every run a rollback takes out exactly the checkpoint its id means and leaves all others in order |
| SessionCheckpoints.SaveAddsOne | crates/deepseeknova-checkpoint/src/lib.rs:689-749 | Over every run a save adds its checkpoint at the end, and only the oldest go when there are too many |
| SessionCheckpoints.IdMeansSavedIff | crates/deepseeknova-checkpoint/src/lib.rs:751-789 | Over every such run the id a save returned names its checkpoint exactly when no older one still kept was saved in the same second |
| SessionCheckpoints.TwoSavesOneSecond | crates/deepseeknova-checkpoint/src/lib.rs:751-800 | Of two saves in one second, rolling back the id the second returned takes the first |
| Utf8.CutAtBoundary | crates/deepseeknova-agent/src/memory.rs:315-336 | Cutting a UTF-8 text at a character boundary gives two texts (section 3 of RFC 3629) |
| Utf8.FloorCharBoundary | crates/deepseeknova-agent/src/memory.rs:315-324 | The loop finds the greatest boundary at or before a position |
| Utf8.CeilCharBoundary | crates/deepseeknova-agent/src/memory.rs:327-336 | The loop finds the least boundary at or after a position |
| Utf8.BoundaryIsNear | crates/deepseeknova-agent/src/memory.rs:315-336 | In a text both boundaries found are at most three bytes away |
| Utf8.TextIff | crates/deepseeknova-agent/src/memory.rs:163-214 | The byte strings taken as texts are exactly those that encode Unicode characters one after another (section 3 of RFC 3629) |
| History.ShapeJoin | crates/deepseeknova-context/src/history.rs:126-135 | Two histories in the replay shape joined are in the replay shape |
| History.CallsAreAnswered | crates/deepseeknova-context/src/history.rs:207-211 | In the replay shape an id is called exactly when it is answered |
| History.ShapePassesGuard | crates/deepseeknova-context/src/history.rs:212-264 | A history in the replay shape never fails the guard before a request |
| History.UnitsOfShape | crates/deepseeknova-context/src/history.rs:136-186 | Units of a shaped history are whole: every exchange has exactly its calls' results, in order |
| History.FlatOfShapedUnits | crates/deepseeknova-context/src/history.rs:68-80 | Any list of whole units written out is in the replay shape |
| History.UnitsKeepAllIff | crates/deepseeknova-context/src/history.rs:130-186 | Grouping keeps every message in order exactly when nothing stands between an exchange and the next turn |
| History.UnitsAreUnits | crates/deepseeknova-context/src/history.rs:136-186 | A unit is one message without calls, or one with calls and results of those calls: nothing else is put together |
| History.UnitsLoseSystem | crates/deepseeknova-context/src/history.rs:136-186 | A system message right behind a tool exchange is in no unit |
| Memories.TruncationIsCut | crates/deepseeknova-agent/src/memory.rs:163-214 | A truncation is a prefix and a suffix at character boundaries that never overlap, around a marker with the exact number of omitted bytes |
| Memories.CutIsText | crates/deepseeknova-agent/src/memory.rs:163-214 | Head, omitted part, tail and the truncated result are each valid UTF-8 |
| Memories.TruncationKeeps | crates/deepseeknova-agent/src/memory.rs:186-209 | The head keeps the wanted bytes and the tail what is left of the limit, each up to three bytes less for a whole character |
| Memories.DecimalStandsFor | crates/deepseeknova-agent/src/memory.rs:186-209 | The digits in a marker stand for the number of bytes omitted |
| Memories.Memory.AddMessage | crates/deepseeknova-agent/src/memory.rs:35-37 | The message goes to the end of the queue |
| MemoryRuns.FetchFullResult | crates/deepseeknova-agent/src/fetch_tool.rs:45-61 | From recoverable tables an id gives the content first added exactly when it is marked, and a result without a mark still has its whole content |
| Memories.Memory.Compact | crates/deepseeknova-agent/src/memory.rs:105-141 | The queue becomes one digest, the shrink marks go, the stored originals stay |
| Memories.Memory.ShrinkLargeResults | crates/deepseeknova-agent/src/memory.rs:163-214 | The loop over the queue acts on queue and tables as the shrink function |
| Memories.Memory.Truncate | crates/deepseeknova-agent/src/memory.rs:186-209 | The head and tail computation gives the truncated text |
| Memories.Memory.StashSystem | crates/deepseeknova-agent/src/memory.rs:223-240 | The leading system block is taken off the queue |
| Memories.Memory.DropTurn | crates/deepseeknova-agent/src/memory.rs:242-265 | The loop drops exactly the messages before the cut and collects their ids |
| Memories.Memory.SlideWindow | crates/deepseeknova-agent/src/memory.rs:223-304 | The whole slide acts on queue and tables as the slide function, and pinned messages stay |
| MemoryLaws.SlideStopsAtFirst | crates/deepseeknova-agent/src/memory.rs:223-304 | The cut is at the first user message after an id-bearing message was dropped, or everything goes |
| MemoryLaws.SlideAnyHistory | crates/deepseeknova-agent/src/memory.rs:223-304 | On any history a slide leaves no result whose call is gone, keeps the leading system block, and strictly shrinks what is beyond it |
| MemoryLaws.SlideKeepsShape | crates/deepseeknova-agent/src/memory.rs:223-304 | On a shaped history the retain pass removes nothing and the result is shaped |
| MemoryLaws.ShrinkMeaning | crates/deepseeknova-agent/src/memory.rs:163-214 | Message by message: what is no result, is marked or is within the limit stays; the newest result of an id that is too long is cut and its whole text stored |
| MemoryLaws.ShrinkTwice | crates/deepseeknova-agent/src/memory.rs:163-214 | Shrinking is idempotent on any history |
| MemoryRuns.RunsAreTracked | crates/deepseeknova-agent/src/memory.rs:35-304 | Over every run of single adds, shrinks and slides with distinct result ids, the shrunk set equals the stored keys and belongs to results that were added |
| MemoryRuns.SlideClears | crates/deepseeknova-agent/src/memory.rs:285-298 | A slide clears from both tables exactly the ids that dropped messages call or answer |
| MemoryRuns.SlideStale | crates/deepseeknova-agent/src/memory.rs:267-298 | After a slide an id is marked without a result exactly when it was, or the retain pass removed its result, and no dropped message bore it |
| MemoryRuns.StaleIsExact | crates/deepseeknova-agent/src/memory.rs:35-304 | Over every such run the marked ids lie within the live results, except for exactly the ids computed slide by slide |
| MemoryRuns.StaleEntryStays | crates/deepseeknova-agent/src/memory.rs:285-298 | A result removed because its call is gone leaves its mark and its stored text behind |
| MemoryRuns.CalledFirstNeverStale | crates/deepseeknova-agent/src/memory.rs:35-304 | When every result is added while its call is in the queue, then over every run no result is without its call and no table entry is stale, whatever the shapes |
| MemoryRuns.SlideRecoverableIff | crates/deepseeknova-agent/src/memory.rs:242-298 | A slide keeps every result recoverable exactly when no result it leaves cut has its id among the dropped ids |
| MemoryRuns.ReusedCallLosesOriginal | crates/deepseeknova-agent/src/memory.rs:242-298 | A call id used by two messages: sliding the first away forgets the original of a cut result that stays |
| MemoryRuns.RunsAreRecoverable | crates/deepseeknova-agent/src/memory.rs:35-304 | Over every run with distinct result ids whose slides keep marks, every stored text is the one first added and every live result is whole or a cut of its original |
| MemoryRuns.UniqueRunsAreRecoverable | crates/deepseeknova-agent/src/memory.rs:35-304 | Unique call and result ids are enough for that, in any order of messages |
| MemoryRuns.ShapedRunsLoseNothing | crates/deepseeknova-agent/src/memory.rs:35-304 | So are slides on histories in the replay shape, and then every marked id is that of a live result |
| MemoryRuns.UnitRunsAreShaped | crates/deepseeknova-agent/src/memory.rs:35-304 | When messages arrive in whole units every shrink and slide finds and leaves the replay shape |
| Compaction.L3Compactor.RecordFailure | crates/deepseeknova-agent/src/compaction.rs:36-44 | Strikes count up, and three switch compaction off |
| Compaction.L3Compactor.TryCompact | crates/deepseeknova-agent/src/compaction.rs:52-129 | Exactly when it runs, what it rebuilds, that the user's last request is added exactly when its text is gone, the shape, and the strikes |
| Compaction.LastIntent | crates/deepseeknova-agent/src/compaction.rs:219-226 | The newest user message that is not recalled memory, whenever there is one |
| Compaction.RebuildKeepsShape | crates/deepseeknova-agent/src/compaction.rs:76-118 | Digest, touched files and whole units of a shaped history are a shaped history |
| Compaction.RebuiltBegins | crates/deepseeknova-agent/src/compaction.rs:76-118 | The queue begins with the digest as a tool message that answers no call, then the list of touched files if there are any, then the recent units |
| Compaction.RecentIsEndIff | crates/deepseeknova-agent/src/compaction.rs:136-146 | The newest three units are those of an end of the history, and written out they are the end of it exactly when nothing stands behind an exchange in that part |
| SubAgentLoop.AppendReply | crates/deepseeknova-agent/src/sub_agent.rs:937-1348 | A reply adds its calls with one result each, or its text, or nothing |
| SubAgentLoop.AddedMeaning | crates/deepseeknova-agent/src/sub_agent.rs:937-1348 | What a reply adds, message by message: text, reasoning, the calls, and for each call its own result |
| SubAgentLoop.RunStep | crates/deepseeknova-agent/src/sub_agent.rs:769-1348 | One step on the object is one step of the specification: limits, compaction, guard, request, reply |
| SubAgentLoop.RunSubAgentLoop | crates/deepseeknova-agent/src/sub_agent.rs:754-1354 | The loop on the object is the run of the specification, to the same outcome |
| SubAgentLoop.StepEndsIff | crates/deepseeknova-agent/src/sub_agent.rs:769-1348 | A step ends the run exactly for cancellation, a limit, the guard, a missing reply, an answer or an empty reply, each with its outcome, and otherwise goes on |
| SubAgentLoop.RunEnds | crates/deepseeknova-agent/src/sub_agent.rs:769-1354 | A run asks in each of its first turns, all of whose replies ask for another step; then the turns are used up, or the next one ends it for the reason its outcome names |
| SubAgentLoop.CallsAreFollowedUp | crates/deepseeknova-agent/src/sub_agent.rs:1281-1293 | After a reply with calls and no cancellation the next turn asks too, unless a cancellation, a limit or the guard stops it |
| SubAgentLoop.CancelledOnlyIf | crates/deepseeknova-agent/src/sub_agent.rs:1281-1292 | A run is cancelled only in a turn with a cancellation |
| SubAgentLoop.Validate | crates/deepseeknova-context/src/history.rs:212-264 | The guard accepts exactly the histories all of whose results have a declared call |
| SubAgentLoop.StepKeepsShape | crates/deepseeknova-agent/src/sub_agent.rs:769-1348 | A step from a shaped history sends a shaped request, is never rejected, and leaves a shaped history |
| SubAgentLoop.RunKeepsShape | crates/deepseeknova-agent/src/sub_agent.rs:769-1348 | Whatever model and tools do, every request of a run is shaped and the guard never rejects one |
| SubAgentLoop.RunIsAccounted | crates/deepseeknova-agent/src/sub_agent.rs:769-1348 | Each request continues the last one and its reply, none is made past the call limit, and the answer is the last reply's text |
| SubAgentLoop.OneRequestPerStep | crates/deepseeknova-agent/src/sub_agent.rs:769-806 | The turns answered are a prefix of the turns, one request per step |
| Delegations.RunKeepsInvariant | crates/deepseeknova-agent/src/delegate.rs:330-493 | In every reachable state held plus free permits are the limit, depths and attempts are within bounds, and the budget used is the attribution calls made plus the grants not yet used for one, within its maximum |
| Delegations.StepKeepsPermits | crates/deepseeknova-agent/src/delegate.rs:464-493 | Every step conserves permits |
| Delegations.StepKeepsBudget | crates/deepseeknova-agent/src/delegate.rs:378-408 | Taking a unit of the budget and making the call it pays for are separate steps, and no step breaks the account |
| DelegationProgress.Progress | crates/deepseeknova-agent/src/delegate.rs:464-493 | When fewer than all permits are held above the depth limit, some delegation can step |
| DelegationProgress.CanStepIsEnabled | crates/deepseeknova-agent/src/delegate.rs:330-493 | A delegation that does not wait has a legal step of its own |
| DelegationProgress.ChainStuckIff | crates/deepseeknova-agent/src/delegate.rs:213-243 | A chain with one child at a time can get stuck exactly when the depth limit exceeds the permits |
| DelegationProgress.EngineStuckIff | crates/deepseeknova-agent/src/delegate.rs:464-493 | With concurrent roots the engine can get stuck exactly when the depth limit is at least two |
| DelegationBound.StepPays | crates/deepseeknova-agent/src/delegate.rs:352-413 | Every step of a delegation lowers what it may still cost by at least the step's price |
| DelegationBound.RunIsPaidFor | crates/deepseeknova-agent/src/delegate.rs:352-413 | What a run has cost and may still cost never exceeds the total of its roots |
| DelegationBound.ExecutionsAreBounded | crates/deepseeknova-agent/src/delegate.rs:352-413 | All roots together cause at most their number times E(1) agent executions, E(d) = attempts * (1 + T * E(d + 1)), through retries, degrades and nesting |
| DelegationBound.RootIsBounded | crates/deepseeknova-agent/src/delegate.rs:352-413 | The delegations under any one root make at most E(1) executions, whatever other roots do meanwhile, and every execution is an attempt of some delegation |
| DelegationBound.RunsEnd | crates/deepseeknova-agent/src/recursion.rs:138-193 | No run is longer than a bound fixed by settings and roots, however its steps interleave |
| DelegateEngines.AttributionBudget.TryConsume | crates/deepseeknova-agent/src/attribution.rs:75-81 | A unit is granted exactly while the maximum is not reached |
| DelegateEngines.DelegateEngine.RunAtDepth | crates/deepseeknova-agent/src/delegate.rs:330-414 | The depth guard, and the result of the last of the attempts, every outcome and attribution of which is the one that was given; a render error ends at once and costs no budget |
| DelegateEngines.DelegateEngine.MakeAttempt | crates/deepseeknova-agent/src/delegate.rs:362-412 | The outcome is what asking gives; a failure is attributed exactly when it may be retried, attempts are left, and the budget grants it, and then the reply is what attribution said |
| DelegateEngines.DelegateEngine.RetryLoop | crates/deepseeknova-agent/src/delegate.rs:352-413 | Attempt by attempt: who is asked and told what after a failure, when a failure is attributed, and that the last attempt is the first that must be the last |
| DelegateEngines.EarlierIsTriedAgain | crates/deepseeknova-agent/src/delegate.rs:375-411 | An attempt with another behind it is an error of the run itself that attribution did not give up, and the next asks the mapped agent exactly when the verdict is to degrade |
| DelegateEngines.RenderEnds | crates/deepseeknova-agent/src/delegate.rs:374-375 | A render error is the last attempt's, and is not attributed |
| DelegateEngines.PromptTells | crates/deepseeknova-agent/src/delegate.rs:357-360 | A prompt is the goal, and after a failure ends with the last error, behind the root cause and the fix plan if attribution gave them |
| DelegationTraces.EngineIsMachine | crates/deepseeknova-agent/src/delegate.rs:330-493 | Every delegation the engine can make from a fresh budget is a run of the step machine: finished well exactly when its last outcome is a text, permits back, the same attributions paid for |
| ExtractJson.ExtractJsonText | crates/deepseeknova-agent/src/contract.rs:26-60 | The scanning loop computes the extraction function, fence first |
| ExtractJson.ValueCrosses | crates/deepseeknova-agent/src/contract.rs:36-59 | The scanner crosses every JSON value with depth unchanged and outside strings (RFC 8259) |
| ExtractJson.BalancedObject | crates/deepseeknova-agent/src/contract.rs:36-59 | From its opening brace a JSON object is taken whole, whatever follows |
| ExtractJson.FenceIff | crates/deepseeknova-agent/src/contract.rs:27-32 | The fenced form applies exactly when the text holds a json fence with an end after it |
| ExtractJson.ExtractsFenced | crates/deepseeknova-agent/src/contract.rs:27-32 | What stands behind the first json fence, up to the next fence, is extracted without the white space around it |
| ExtractJson.ExtractsObject | crates/deepseeknova-agent/src/contract.rs:26-60 | Every JSON object, behind text without a brace and before any text, is extracted exactly, and again from itself |
| ExtractJson.ExtractIsPart | crates/deepseeknova-agent/src/contract.rs:36-59 | Outside a fence the result is a piece of the text from its first brace to a closing brace |
| RetryParsed.Retry | crates/deepseeknova-agent/src/contract.rs:93-130 | The run is refused tries, each shown the last failure, then the first success, the first missing reply, or a fallback after all tries |
| RetryParsed.TryAt | crates/deepseeknova-agent/src/contract.rs:93-130 | Each prompt shows the reply refused before it and the reason, and each reply is what the model gives to the prompts so far |
| RetryParsed.EndMeaning | crates/deepseeknova-agent/src/contract.rs:93-130 | The run ends with all tries refused, without an answer to the prompt due, or with an answer to it that parses |
| RetryParsed.RunIsDetermined | crates/deepseeknova-agent/src/contract.rs:93-130 | That description fixes the tries and the outcome |
| TaskSpecs.ReferencedInputs | crates/deepseeknova-agent/src/task_spec.rs:232-247 | The loop finds the referenced names in order, each once |
| TaskSpecs.MergedWith | crates/deepseeknova-agent/src/task_spec.rs:158-164 | One's own values win and the others fill gaps |
| TaskSpecs.ResolveInputs | crates/deepseeknova-agent/src/task_spec.rs:69-89 | The loop resolves inputs in order and stops at the first error |
| TaskSpecs.ResolvesIff | crates/deepseeknova-agent/src/task_spec.rs:69-89 | Resolving succeeds exactly when no input lacks a required value and no chosen value is of the wrong type |
| TaskSpecs.ResolveFails | crates/deepseeknova-agent/src/task_spec.rs:69-89 | It fails with the fault of the first input that has one |
| TaskSpecs.PassedValueWins | crates/deepseeknova-agent/src/task_spec.rs:71-74 | A value that was passed wins over every default |
| TaskSpecs.DefaultFillsGap | crates/deepseeknova-agent/src/task_spec.rs:71-89 | Where none was passed the default of the input declared last under the name counts, or the empty text |
| TaskSpecs.RulesAreListed | crates/deepseeknova-agent/src/task_spec.rs:96-106 | The rules are a heading and a line for each in order; without rules there is no heading |
| TaskSpecs.Render | crates/deepseeknova-agent/src/task_spec.rs:60-109 | The result is one that rendering may give: the first undeclared name, else the first input error, else all values put in one after another in some order |
| Templates.LitIsQuiet | crates/deepseeknova-agent/src/task_spec.rs:232-247 | In a template no opening mark starts inside a stretch of text, whatever follows, though the text may hold `$` |
| Templates.ReplaceFills | crates/deepseeknova-agent/src/task_spec.rs:91-94 | Replacing one name fills exactly its placeholders |
| Templates.RenderingFills | crates/deepseeknova-agent/src/task_spec.rs:91-94 | Rendering one name after another fills the pieces one name after another, placeholders inside values included |
| Templates.OrderDoesNotMatter | crates/deepseeknova-agent/src/task_spec.rs:91-94 | When no value that is used holds the placeholder of another name with another value, every order is one simultaneous substitution |
| Templates.OrderMatters | crates/deepseeknova-agent/src/task_spec.rs:91-94 | Otherwise, unless the two values hold each other's placeholders, swapping the last two names gives different texts |
| Templates.OrderFreeIff | crates/deepseeknova-agent/src/task_spec.rs:50-59 | Without such mutual values the result is the same in every order if and only if the values are calm |
| Templates.OrderMattersWithPlaceholderValues | crates/deepseeknova-agent/src/task_spec.rs:91-94 | A value that is another name's placeholder makes the result depend on the order |
| Templates.MutualValuesMayAgree | crates/deepseeknova-agent/src/task_spec.rs:91-94 | Two values that hold each other's placeholders can give one result in both orders although they are not calm |
| Templates.DeterminedIff | crates/deepseeknova-agent/src/task_spec.rs:50-109 | Rendering has only one result, errors included, exactly when the order of the values it puts in does not matter |
| Templates.OpenIffHole | crates/deepseeknova-agent/src/task_spec.rs:232-247 | A template's text holds an opening mark exactly when it has a placeholder |
| Templates.NothingLeftIff | crates/deepseeknova-agent/src/task_spec.rs:91-94 | The replacement loop leaves no opening mark, in whatever order, exactly when every placeholder's name is, untrimmed, a declared one whose value holds no placeholder |
| Templates.SpacedPlaceholderStays | crates/deepseeknova-agent/src/task_spec.rs:60-109 | A placeholder with a space too many passes the declaration check and is left |
| Templates.TemplateRefersTo | crates/deepseeknova-agent/src/task_spec.rs:232-247 | A template refers to exactly the trimmed names of its placeholders, in order |
| Templates.AllDeclaredIff | crates/deepseeknova-agent/src/task_spec.rs:61-66 | The undeclared-name check passes exactly when every non-blank trimmed placeholder name is declared |
| Templates.TidyTemplate | crates/deepseeknova-agent/src/task_spec.rs:50-109 | With tidy declared placeholders and values without placeholders, whatever the order, rendering gives the simultaneous substitution, leaves no opening mark, and rendering the result again gives it back |
| Templates.RenderedIsFinal | crates/deepseeknova-agent/src/task_spec.rs:60-109 | A text without an opening mark refers to nothing and the replacement loop gives it back |
| Mentions.ExtractMentions | crates/deepseeknova-agent/src/mention.rs:37-78 | The scan over bytes collects the first mention of every name, position by position |
| Mentions.ScannedNames | crates/deepseeknova-agent/src/mention.rs:37-78 | A name is listed exactly when it is mentioned, at word boundaries on both sides |
| Mentions.AtNameMentions | crates/deepseeknova-agent/src/mention.rs:37-78 | A valid name behind an at sign, with no identifier character on either side, is mentioned; behind an identifier character nothing is |
| Mentions.ListIsExact | crates/deepseeknova-agent/src/mention.rs:37-78 | Every entry is a valid name's first mention, starts increase, names are distinct, and no mention is missing |
| Mentions.KnownOnlyNames | crates/deepseeknova-agent/src/mention.rs:93-97 | Filtering keeps exactly the known names, each once |
| Mentions.ResolveMention | crates/deepseeknova-agent/src/mention.rs:93-106 | Nobody, one, or several, exactly as none, one, or several known names are mentioned |
| ParseInputs.ReadLines | crates/deepseeknova-agent/src/sub_agent.rs:353-370 | The loop reads the lines before the first goal line and counts that line's offset |
| ParseInputs.ParseInput | crates/deepseeknova-agent/src/sub_agent.rs:343-379 | The method computes the meaning of a prompt, failing slices included |
| ParseInputs.LinesJoin | crates/deepseeknova-agent/src/sub_agent.rs:353 | The lines of a text joined with their ends are the text |
| ParseInputs.WidthIsEncoded | crates/deepseeknova-agent/src/sub_agent.rs:352-370 | A character counts as many bytes as its UTF-8 encoding has |
| ParseInputs.OffsetIsShort | crates/deepseeknova-agent/src/sub_agent.rs:352-370 | The counted offset plus one byte for every dropped carriage return is the true offset |
| PromptLaws.OffsetOfGoal | crates/deepseeknova-agent/src/sub_agent.rs:352-376 | The goal is cut at the goal line's byte position less the dropped carriage returns before it |
| PromptLaws.GoalIsExactIff | crates/deepseeknova-agent/src/sub_agent.rs:343-379 | The goal is the trimmed text from the goal line on exactly when the missed bytes are white space |
| PromptLaws.WholePrompt | crates/deepseeknova-agent/src/sub_agent.rs:371-376 | Without a goal line, or with it first, the goal is the whole prompt, untrimmed |
| PromptLaws.PrintedReadsBack | crates/deepseeknova-agent/src/coordinator.rs:906-910 | Printing and reading undo each other: the name, the last value of every key, the goal, and the true offset |
| PromptLaws.CarriageReturnsSpoilGoal | crates/deepseeknova-agent/src/sub_agent.rs:352-376 | Three lines ended by carriage return and newline before the goal put text into it, or make the slice fail |
| PhaseRunners.PhaseRunner.constructor | crates/deepseeknova-agent/src/phase_runner.rs:253-271 | A new runner has seen nothing and detects drift |
| PhaseRunners.PhaseRunner.Transition | crates/deepseeknova-agent/src/phase_runner.rs:284-320 | The reports of all gates, then the drift warnings, and the new state |
| PhaseRunners.PhaseRunner.NoteToolFailure | crates/deepseeknova-agent/src/phase_runner.rs:330-351 | A finding at the third failure in a row, and the new state; nothing but a count while drift is off |
| PhaseRunners.LongRunsSnoc | crates/deepseeknova-agent/src/phase_runner.rs:330-351 | A result adds a maximal run of at least three failures exactly when it is the third in a row |
| PhaseRunners.DriftIsCounted | crates/deepseeknova-agent/src/phase_runner.rs:330-351 | After any run each family's streak is its trailing failure run and its report count the number of its maximal runs of at least three |
| PhaseRunners.FindingsAreLongRuns | crates/deepseeknova-agent/src/phase_runner.rs:330-351 | A family gets one finding for each maximal run of at least three failures |
| PhaseRunners.DriftsAgainIff | crates/deepseeknova-agent/src/phase_runner.rs:300-317 | Entering Execute warns of a family once, exactly when it ends with three failures and has had two such runs |
| PhaseRunners.AgainAre | crates/deepseeknova-agent/src/phase_runner.rs:300-317 | The warnings on entering Execute are exactly those, with the length of the failure run |
| PhaseRunners.DriftIsOnIff | crates/deepseeknova-agent/src/phase_runner.rs:284-320 | Results are recorded exactly while the gates of the last transition include drift detection |
| PhaseRunners.StatsAreTotals | crates/deepseeknova-agent/src/phase_runner.rs:284-388 | The statistics are the lengths of the returned reports and the number of transitions |
| PhaseRunners.EvidenceIsCounted | crates/deepseeknova-agent/src/phase_runner.rs:330-409 | The evidence in a context counts the run's tool calls, verifications and plan texts |
| PhaseRunners.GateBlocksIff | crates/deepseeknova-agent/src/phase_runner.rs:76-168 | A gate blocks exactly when the run has broken its rule and its level makes that blocking |
| PhaseRunners.GateReports | crates/deepseeknova-agent/src/phase_runner.rs:76-168 | A gate that is not off reports what its rule finds wrong with the run, once, with its severity and detail; a hard one makes a warning blocking |
| PhaseRunners.BlockedIff | crates/deepseeknova-agent/src/phase_runner.rs:176-208 | A transition past the built-in gates is blocked exactly by the rules the run has broken at their configured levels |
| Classify.GroupCallIndices | crates/deepseeknova-agent/src/classify.rs:36-57 | Segments are non-empty, flatten to the allowed calls, writes stand alone, and no two reading segments are adjacent |
| Classify.GroupingIsUnique | crates/deepseeknova-agent/src/classify.rs:36-57 | There is only one such grouping |
| Classify.SegmentsRunAsListed | crates/deepseeknova-agent/src/classify.rs:34-57 | Running the segments in turn, each in any order, ends in the same state with the same result for every call as running the calls one by one |
| Plans.AcceptedIff | crates/deepseeknova-agent/src/coordinator.rs:520-552 | A node is accepted exactly when nothing in it, at any depth of parallel and conditional nodes, calls a tool outside the list |
| Plans.RefusalIsReached | crates/deepseeknova-agent/src/coordinator.rs:520-552 | A refusal names a node that can be reached and the forbidden tool it calls |
| Plans.ExecutionGraph.ValidateToolBoundary | crates/deepseeknova-agent/src/coordinator.rs:502-511 | The graph passes exactly when all its nodes do, in whatever order they are walked |
| Plans.ExecutionGraph.AddNode | crates/deepseeknova-core/src/graph.rs:35-37 | A node replaces one of the same id |
| Plans.ExecutionGraph.AddEdge | crates/deepseeknova-core/src/graph.rs:50-63 | An edge is added exactly when both its ends are known |
| Plans.ParsePlan | crates/deepseeknova-agent/src/coordinator.rs:558-621 | The fallback graph, or the kept nodes, the default edges and then the explicit ones |
| Plans.ActionMeaning | crates/deepseeknova-agent/src/coordinator.rs:623-655 | What each action word of the planner means, with what is taken where a field is missing |
| Plans.ConditionMeaning | crates/deepseeknova-agent/src/coordinator.rs:660-670 | What each condition word means, in any letter case and with white space around it |
| Plans.KeptAreFirst | crates/deepseeknova-agent/src/coordinator.rs:567-576 | The nodes kept are the first of the plan, as many as the limit allows |
| Plans.EdgeIff | crates/deepseeknova-agent/src/coordinator.rs:577-602 | An edge is in the graph exactly when it joins kept nodes and is explicit, or a dependency no explicit edge wires |
| Plans.DependenciesAreKept | crates/deepseeknova-agent/src/coordinator.rs:571-602 | At most the limit of nodes; every dependency between kept nodes is an edge whatever the order of listing; none leads to a dropped node |
| Plans.EntryIsKeptIff | crates/deepseeknova-agent/src/coordinator.rs:567-576 | The entry is in the graph exactly when the limit is not zero |
| Plans.RefusedIff | crates/deepseeknova-agent/src/coordinator.rs:502-656 | The parsed graph is refused exactly when a kept plan node that is not replaced asks, at some depth, for a forbidden tool |
| Plans.ToolCallIdKeptIff | crates/deepseeknova-agent/src/coordinator.rs:660-670 | The id of a tool-call condition is read as written exactly when it has no capital letter |
| Plans.ToolCallFires | crates/deepseeknova-core/src/executor.rs:745-768 | A tool-call edge fires exactly on the tool results that contain the lower-cased id |
| Plans.FiresAsToldIff | crates/deepseeknova-agent/src/coordinator.rs:137 | Tool-call edges fire as the planner is told, on the results that mention the id, exactly when the id has no capital letter |
| Plans.CapitalIdMisfires | crates/deepseeknova-agent/src/coordinator.rs:660-670 | An edge on ABC does not fire on a result ABC and fires on abc |
| StepHistories.StepHistory.PushHistory | crates/deepseeknova-agent/src/coordinator.rs:702-722 | The two loops drop the oldest entries while there are too many, or too large together |
| StepHistories.NeverTooLarge | crates/deepseeknova-agent/src/coordinator.rs:715-721 | Fifty cut entries are never too large together, so the total-size loop drops nothing |
| StepHistories.HistoryIsNewest | crates/deepseeknova-agent/src/coordinator.rs:702-722 | After any pushes the history is exactly the last fifty entries, in order, each cut to 2000 characters and the marker |
| StepHistories.EntryIs | crates/deepseeknova-agent/src/coordinator.rs:702-722 | Entry by entry: the pushed text, or its first 2000 characters and the marker |
| StepHistories.FittedIs | crates/deepseeknova-agent/src/coordinator.rs:715-721 | What the size loop keeps is the longest end with at most 500000 characters, or the last entry alone |

## Left out

- The failure of writing or rewriting a log, and a temporary file left behind by a rename that fails: file operations on the log succeed, and a failed restore changes no file.
- SHA-256 hashes and time stamps: each snapshot carries an arbitrary stamp. JSON parsing and printing of records: the fields are modelled, their text is not.
- Logs that do not end with a newline, and paths that are not UTF-8: lines are modelled as already split.
- Loading the session checkpoint log, which is modelled as the list of its checkpoints; a session checkpoint's label is called `caption`, its conversation lines are texts, and its id is the second that the code renders as year to second.
- `verify`, the diff functions and `snapshot_dir`: reading and formatting only.
- Token estimates and the floating-point head ratio: a shrink is given any limit per content and any head length, which covers every ratio. `char_budget_for_tokens` is not modelled.
- Recoverability across compactions: the code keeps the originals but clears the marks, and the law is stated between compactions.
- The guard's third check can never fire, because it tests for a missing field in messages selected for having it; only orphan results are modelled.
- The prompts and digests of compaction, hooks, permission decisions and the wording of tool results in the sub-agent loop: each turn gives what they produced.
- Streaming, channels, cancellation tokens inside a step, and mutex poisoning: a step is atomic, and cancellation is observed before and after it.
- Delegations.RunKeepsInvariant: what sub-agents do inside one run is reduced to the delegate calls they make, at most `maxCalls` in a run; the bound on work depends on that number, and the code itself bounds it only through its step and tool limits.
- DelegationProgress.EngineStuckIff: waiting is on permits and children only; parent cancellation, which would free a stuck delegation, is left out.
- DelegateEngines.DelegateEngine.RunAtDepth: runs alone; delegations that share the budget are interleaved in the Delegation module.
- Capping and formatting a delegate's output, agent presets and permissions: plain text and tables.
- ExtractJson.ExtractsObject: says nothing about texts with a json fence beyond when the fence applies; what a fence holds is returned as it stands.
- Templates.OrderFreeIff: where two values hold each other's placeholders, calm values still make the order irrelevant, but the converse is false (`MutualValuesMayAgree`), and the exact condition for such values is not stated. Names and placeholder bodies hold no `$` and no closing mark, and texts hold no opening mark, not even across two of them.
- Mentions.ResolveMention: the registry of agents is a set of names.
- ParseInputs.ParseInput: the character model is a Unicode scalar with its UTF-8 width; looking up the agent afterwards is left out.
- Machine widths: counters, offsets and depths are unbounded, so saturating and wrapping additions never matter.
- Running a plan graph, cycles in it, retries and timeouts: of the executor only the test whether an edge's condition holds is modelled, not how the edges of a node combine, nor the conditions of conditional nodes.
- Plans.ParsePlan: starts from the decoded plan; decoding JSON, and falling back when it fails, is the `None` case. Arguments of a tool call are an opaque text.
- The main agent loop, the terminal and server front ends, provider calls, evaluation scoring, review and diagnosis heuristics, and agent manifests.
