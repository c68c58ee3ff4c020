# Unihelm: a verified model of its stateful core

Unihelm is a server panel: a root agent that changes configuration files, runs operations as
logged background tasks, schedules jobs and keeps a database, with a command line and a web
panel in front.  This project models its hardest state machines in Dafny and proves what they
promise over every run.

Run `dafny verify dfyconfig.toml` to check all of it.

## Structure

| file | what it models |
|---|---|
| `Disk.dfy` | a directory under crashes and power loss, and the atomic write over it |
| `ManagedFile.dfy` | header, hash, drift classification and diff of a managed file |
| `EngineModel.dfy` | one apply, remove or rollback as a machine of small steps, and what every step keeps |
| `EngineLaws.dfy` | whole runs of those operations, with human edits between them |
| `EngineAnswers.dfy` | what an operation tells its caller and why, what it leaves running, and in which order it acts |
| `EngineEdits.dfy` | human edits between any two steps of an operation, and exactly when they remain |
| `EngineConcurrency.dfy` | interleaved operations under one lock per service |
| `ConfigEngine.dfy` | the engine object, updated in place, proved to be that machine |
| `ConfigDocument.dfy`, `ConfigKeys.dfy`, `ConfigDocumentLaws.dfy` | the configuration parser, what documents mean key by key, and the in-place rewriter of `panel.listen` |
| `TaskLog.dfy`, `Follower.dfy` | the task log: worker, pump, canceller and bus; the polling follower |
| `JobScheduler.dfy` | ticks, claims, passes, shutdown and drain |
| `Migration.dfy` | the self-queued mail migration over restarts |
| `Alerts.dfy`, `AlertIdentities.dfy` | alert rules and events, by rule and by kind and target |
| `Plans.dfy` | reseller allocation in saturating arithmetic |
| `Names.dfy` | validated names and tenant paths |
| `Audit.dfy` | the LIKE prefix filter and redaction |
| `Text.dfy` | the string operations of the standard library that the parsers use |

How to read the models:

- What the code cannot control is a parameter or an arbitrary choice: the answers of a service's
  validator, of its reloader and of a post-check, the failure of any system call or database
  statement, the scheduling of concurrent parts, the clock.  A validator is a function of the
  files it is shown; a reload that fails may leave the service running anything.
- A step that is not enabled changes nothing, so a run is any sequence of steps whatever.
- The engine's methods return, as a ghost, the plan of outcomes they met.  Their contract is that
  the state they leave is the one the machine reaches under that plan; the laws hold for all plans.
- "Crash safe" in `Disk.dfy` is four things at every point between two calls: a reader sees the
  whole old or the whole new target; losing power brings back nothing but what it could have
  brought back before, or the whole new file; the staging file holds no byte of the new content
  under any mode but the requested one; every other file is untouched.

Where the code and its own words differ, the model follows the code:

- The follower's comment (`crates/unihelm-cli/src/session.rs`, lines 284 to 286) says the terminal status
  comes only after the log pump has drained.  A cancel sets it earlier
  (`crates/unihelm-agentd/src/handler.rs`, lines 600 to 613); see `TerminalIsLastExactlyWhen`.
- The audit filter's comment calls its prefix data.  A backslash in it is not escaped and acts as
  LIKE's escape character; see `FilterIsPrefixExactlyWhen`.
- `reconcile_on_start` is documented to re-queue or fail; the statement behind it only fails.
- The scheduler's in-flight set is documented to keep a job from starting again while it is still
  due.  It keeps passes apart, but a tick that read the schedule before a pass was recorded can
  start the job once more right after; see `PassesStartWhenDue` and `StaleListStartsTwice`.
- Deleting an alert rule drops its open events untold, so the notices about its kind and target may
  then repeat a raise; see `DeleteIsHarmlessExactlyWhen`.
- The sum of plans is capped at the largest 64-bit number, so a ceiling of exactly that number
  bounds nothing; see `StaysWithinExactlyWhen`.  A total has to start from zero in every field:
  the default limits are unlimited and absorb every sum.
- The engine's doc comments promise that a human's edit is not overwritten unasked.  That holds for
  edits the inspection sees; see `EditRemainsExactlyWhen` for those that land later in an apply.
- The engine's doc comments promise that a failed change is undone.  The content is; the mode of
  a restored file is the declared one, not the one it had, and a revision that cannot be recorded
  is reported as an error with the new file already live.

## Model

| member | source | states |
|---|---|---|
| `ConfigEngine.Engine.Apply` | crates/unihelm-config/src/apply.rs:147-240 | changes the shared tree, running configuration, lock table and revision log exactly as the stage machine does on the slice of its service, and no other slice at all; it answers with an I/O failure if and only if a call to the disk failed, and with a store failure if and only if the revision store said no |
| `ConfigEngine.Engine.Remove` | crates/unihelm-config/src/apply.rs:243-275 | the same for a removal: a missing file is a quiet no, a foreign one is refused, and a service that objects gets the file back |
| `ConfigEngine.Engine.Rollback` | crates/unihelm-config/src/apply.rs:279-312 | the same for a rollback, which never looks at the drift state |
| `ConfigEngine.Engine.InspectForApply` | crates/unihelm-config/src/apply.rs:155-178 | an apply stops at a foreign or unreadable file, stops with the diff at a drifted one unless forced, stops with nothing changed when the claimed hash is the new body's, and otherwise takes the snapshot |
| `ConfigEngine.Engine.Undo` | crates/unihelm-config/src/apply.rs:194-216 | restore, then one compensating reload whose result is thrown away |
| `ConfigEngine.Engine.Restore` | crates/unihelm-config/src/apply.rs:369-381 | the snapshot goes back at the declared mode, or the file that was not there is removed; a file already gone counts as restored |
| `ConfigEngine.Engine.Record` | crates/unihelm-config/src/apply.rs:218-231 | a revision that cannot be recorded is an error with the new file live; nothing is undone |
| `ConfigEngine.Engine.LockOf` | crates/unihelm-config/src/apply.rs:337-343 | hands out one mutex per service, for ever the same one |
| `EngineModel.DoHolds` | crates/unihelm-config/src/apply.rs:147-312 | for every operation and every outcome of its writes, checks and reloads: what each possible answer says about the target, the other files, the running configuration, the trace of effects and the revision log |
| `EngineAnswers.RefusalsTellWhy` | crates/unihelm-config/src/apply.rs:155-231 | every refusal says why: the output is the checker's complaint about the files with the change made, the reload's or the check's, and comes only when everything before went well; the conditions exclude one another |
| `EngineAnswers.RunningAfterwards` | crates/unihelm-config/src/apply.rs:155-311 | exactly what the service is left running, by the answer: the changed files after a change, the old ones after an undo whose reload worked, what the last failed reload left otherwise, and what it ran before if nothing was reloaded |
| `EngineAnswers.EffectsInOrder` | crates/unihelm-config/src/apply.rs:155-311 | exactly what each answer stands for, in order: put, one validation, at most one reload and only of what was accepted, the check, and on a refusal the undo with one reload of the old files unless validation already failed |
| `EngineAnswers.DriftIsShown` | crates/unihelm-config/src/apply.rs:159-165 | an unforced apply that meets a human's edit answers with a diff whose kept and removed lines are the human's text, whose kept and added lines the panel's, each under its own line number |
| `EngineLaws.FailedChangeLeavesNoTrace` | crates/unihelm-config/src/apply.rs:180-216 | an answer of validation, reload or check failure means the target holds the content (or the absence) it had at entry, every other file and the log are untouched |
| `EngineLaws.RunsStayValid` | crates/unihelm-config/src/apply.rs:147-312 | over every run of operations from a valid tree, every reload, compensating ones included, loads a valid tree, the tree is valid after every operation, and the running configuration is what is on disk unless a compensating reload failed |
| `EngineLaws.UnforcedApplyAsks` | crates/unihelm-config/src/apply.rs:155-178 | an unforced apply replaces a file only if it was absent or its body has the hash its header claims; otherwise nothing at all changes |
| `EngineLaws.ForeignFilesAreNeverTaken` | crates/unihelm-config/src/apply.rs:155-165 | forced or not, apply and remove leave a foreign or unreadable file and everything else as it was |
| `EngineLaws.EditsSurvive` | crates/unihelm-config/src/apply.rs:155-178 | over every run of whole unforced applies and human edits of other files, a drifted or foreign file keeps its bytes and mode |
| `EngineLaws.ForeignFilesSurvive` | crates/unihelm-config/src/apply.rs:155-165 | over every run of whole applies and removals, forced ones included, a foreign file keeps its bytes and mode |
| `EngineEdits.FileSurvivesEveryStep` | crates/unihelm-config/src/apply.rs:155-178 | the same when operations and edits are interleaved step by step: a drifted file survives all unforced applies and a foreign one all applies and removals, whatever happens to other files in mid-operation, unless an operation was already on its way to write this very file |
| `EngineEdits.OnlyItsOwnOperationsChangeAFile` | crates/unihelm-config/src/apply.rs:180-216 | in every such run, a file that no human edits is as it was unless a step of an operation on that very file wrote or removed it |
| `EngineEdits.EditRemainsExactlyWhen` | crates/unihelm-config/src/apply.rs:155-231 | an edit of the file that lands at any stage of any operation is what the operation leaves if and only if no later step of it writes the file, or the last such step happens to write the very same; whether one will is stated stage by stage |
| `EngineEdits.FinishLeaves` | crates/unihelm-config/src/apply.rs:155-231 | from any stage, what the operation leaves at its path, and that its trace has a write of the path exactly when the stage-by-stage condition says so |
| `EngineEdits.EditOnTrialRemainsExactlyWhen` | crates/unihelm-config/src/apply.rs:180-231 | an edit that lands after the rename remains if and only if the answer is a success or only the recording failed; with any other answer the old text or absence is back, at the declared mode |
| `EngineEdits.EditBeforeTheRenameNeverRemains` | crates/unihelm-config/src/apply.rs:178-181 | an edit that lands between the inspection and the rename never remains if the write works |
| `EngineEdits.EditAtTheEndRemains` | crates/unihelm-config/src/apply.rs:218-231 | once only recording or the compensating reload is left, an edit always remains |
| `EngineEdits.OperationIsItsSteps` | crates/unihelm-config/src/apply.rs:147-312 | left alone, an operation taken step by step ends where the whole operation does |
| `EngineEdits.LostBeforeTheRename` | crates/unihelm-config/src/apply.rs:155-181 | every run that begins an apply its file lets through and is interrupted by an edit before the rename ends without the edit |
| `EngineEdits.LostAfterTheRename` | crates/unihelm-config/src/apply.rs:180-192 | every such run interrupted after the rename by an edit the checker rejects ends with the old text, or absence, in its place |
| `EngineEdits.EditInsideTheWindowIsLost` | crates/unihelm-config/src/apply.rs:155-192 | both losses happen: on an empty panel, a first apply and any edit but the very file it writes |
| `EngineLaws.RollbackDoesNotAsk` | crates/unihelm-config/src/apply.rs:291-292 | the other limit: a rollback replaces even a drifted or foreign text file |
| `EngineLaws.ReapplyDoesNothing` | crates/unihelm-config/src/apply.rs:166-177 | after a successful apply, an unforced apply of the same body has no write, validation, reload, check or revision, and answers that nothing changed |
| `EngineLaws.UnchangedMeansSameBody` | crates/unihelm-config/src/apply.rs:166-177 | the converse: an apply that answers that nothing changed found a body with the hash of the one it was given |
| `EngineLaws.RollbackReproduces` | crates/unihelm-config/src/apply.rs:279-312 | after every run, a successful rollback to any recorded revision leaves its bytes, classified as managed with its hash and in force |
| `EngineLaws.RevisionIsTheFile` | crates/unihelm-config/src/apply.rs:218-231 | the revision an apply records is the file it left on disk |
| `EngineLaws.ChangesExactlyWhen` | crates/unihelm-config/src/apply.rs:147-312 | a change goes through if and only if the file may be replaced, the write works, the service accepts its files with the change made, the reload works, and for an apply the check passes and the revision is stored |
| `EngineConcurrency.OneAtATimePerService` | crates/unihelm-config/src/apply.rs:337-343 | in every interleaving of the steps of any operations, two naming the same service are never both between taking the lock and returning |
| `EngineConcurrency.ConcurrentEqualsSerial` | crates/unihelm-config/src/apply.rs:152-153 | every interleaved history gives each finished operation the answer, and each quiet service and the log the state, of running the finished operations one after another |
| `EngineConcurrency.AllDoneEqualsSerial` | crates/unihelm-config/src/apply.rs:250-251 | once everything has returned, the whole state is that of one serial order containing each operation once |
| `EngineConcurrency.NoDeadlock` | crates/unihelm-config/src/apply.rs:337-343 | from every state of every history the operations can be carried on until all have returned |
| `ManagedFile.SplitOfHeader` | crates/unihelm-config/src/managed.rs:84-124 | splitting undoes adding the header: digest and body come back, for every body and comment style |
| `ManagedFile.InspectUnderHeader` | crates/unihelm-config/src/managed.rs:127-151 | a file under a header for one body is managed if its actual body has that hash and drifted otherwise |
| `ManagedFile.FreshFileIsManaged` | crates/unihelm-config/src/managed.rs:77-92 | a freshly written file is managed with its own hash and reads back its body |
| `ManagedFile.HeaderExactlyWhen` | crates/unihelm-config/src/managed.rs:95-124 | a file has a header claiming a digest if and only if its first line is comment signs and white space, the marker, 64 hexadecimal digits which are that digest, and then no further one |
| `ManagedFile.BodyExactlyWhen` | crates/unihelm-config/src/managed.rs:118-123 | the body is what follows the notice line if the line after the header holds the notice, and otherwise everything after the header, for any text |
| `ManagedFile.SimpleDiff` | crates/unihelm-config/src/managed.rs:345-385 | the loop computes the line-by-line diff of the two texts |
| `ManagedFile.DiffTellsTheTruth` | crates/unihelm-config/src/managed.rs:345-385 | the lines shown as kept or removed are the current text, those kept or added the proposed one, and the diff shows no change if and only if the lines are equal |
| `ManagedFile.DiffIsNumbered` | crates/unihelm-config/src/managed.rs:345-392 | every line of a diff has the number it has in its own text |
| `Disk.Filesystem.WriteAtomic` | crates/unihelm-config/src/managed.rs:190-229 | it works if and only if every call down to the rename does, and then its calls are: directory, open, mode, writes of exactly the contents, sync, rename, directory sync; at every point between two calls a crash is harmless, in the sense given above; every error after the directory exists ends in an attempt to remove the staging file |
| `Disk.Filesystem.FillTemp` | crates/unihelm-config/src/managed.rs:237-250 | every state on the way keeps the target, the other files and the privacy of the staging file; it succeeds if and only if every call does, and leaves the synced new content |
| `Disk.Filesystem.WriteAll` | crates/unihelm-config/src/managed.rs:237-250 | the pieces written are the contents in order, however few characters each write takes |
| `Disk.Filesystem.Publish` | crates/unihelm-config/src/managed.rs:212-224 | the synced staging file replaces the target if and only if the rename works, and then the directory sync is asked for |
| `Disk.Filesystem.CreatePrivate` | crates/unihelm-config/src/managed.rs:258-276 | a leftover staging file is emptied and narrowed before any byte goes into it |
| `Disk.StagingMoved` | crates/unihelm-config/src/managed.rs:232-276 | while only the staging file changes, and holds no byte under any mode but the requested one, the write stays crash safe |
| `Disk.Replaced` | crates/unihelm-config/src/managed.rs:209-229 | the rename of a synced staging file over the target is crash safe |
| `Disk.OldOrNew` | crates/unihelm-config/src/managed.rs:190-229 | after losing power at any such point, a target that was at rest is the complete old file or the complete new one |
| `ConfigDocument.Parse` | crates/unihelm-core/src/config.rs:236-311 | the loop over lines reads a document to the configuration, or to the first error with its line number, of the line-by-line reading function |
| `ConfigKeys.ParsedMeans` | crates/unihelm-core/src/config.rs:236-311 | a document parses if and only if every line is blank, a table header or an entry with a known key of its table and a value that key can have, and the error names the first line that is not; each setting is what the last line with its key under its table says, or the default |
| `ConfigKeys.PrintedReadsBack` | crates/unihelm-core/src/config.rs:236-311 | reading undoes printing: every configuration without quotes and line ends in its texts, printed key by key, parses to itself |
| `ConfigKeys.NumberExactlyWhen` | crates/unihelm-core/src/config.rs:290-294 | a number of workers is accepted, as that number, if and only if it is digits, with or without a plus, whose decimal value is at most 2^64 - 1 |
| `ConfigKeys.AssignKnown` | crates/unihelm-core/src/config.rs:258-306 | an entry sets the setting of its key to its value, touches no other, and is refused at its line if the setting cannot have the value |
| `ConfigKeys.EntryLayoutDoesNotMatter` | crates/unihelm-core/src/config.rs:240-257 | white space around an entry and its parts, and a comment after it, do not change what it says |
| `ConfigKeys.HeaderLayoutDoesNotMatter` | crates/unihelm-core/src/config.rs:240-251 | the same of a table header |
| `ConfigKeys.CommentLineIsSilent` | crates/unihelm-core/src/config.rs:240-244 | a line of white space or of nothing but a comment says nothing |
| `ConfigDocument.StripCommentOf` | crates/unihelm-core/src/config.rs:401-411 | the loop cuts at a hash with an even number of quotes before it, and every earlier hash has an odd number |
| `ConfigDocument.SetPanelListen` | crates/unihelm-core/src/config.rs:315-398 | the rewriting loop with its three endings computes: every listen line of table panel replaced in place, or one inserted after the header, or a table appended |
| `ConfigDocumentLaws.RewriteKeepsMeaning` | crates/unihelm-core/src/config.rs:315-398 | for every text and address, the rewrite succeeds if and only if the text parses, and the result parses to the same configuration with only panel.listen changed; so the closing self-check rejects nothing that parsed |
| `ConfigDocumentLaws.LastRewriteWins` | crates/unihelm-core/src/config.rs:327-385 | rewriting twice equals rewriting once with the last address if and only if no line that the rewrite keeps ends in a second carriage return |
| `ConfigDocumentLaws.LastRewriteWinsOnPlainText` | crates/unihelm-core/src/config.rs:327-385 | so the last of two rewrites wins on every text without carriage returns |
| `ConfigDocumentLaws.FirstRewriteShows` | crates/unihelm-core/src/config.rs:327-385 | the condition is needed: a document of one empty line with a stray carriage return, on which the first of two rewrites shows for every two addresses |
| `ConfigDocumentLaws.OtherLinesSurvive` | crates/unihelm-core/src/config.rs:327-385 | every line that does not set panel.listen survives in order, and at most the line, or the table and the line, is added |
| `TaskLog.StepHolds` | crates/unihelm-agentd/src/tasks.rs:66-143 | every step of worker, pump and canceller keeps: stages in order, rows numbered 1, 2, 3, rows faithful to the emitted lines, the bus read off the rows, and no terminal status before the log is closed |
| `TaskLog.BusIsOrderly` | crates/unihelm-agentd/src/tasks.rs:80-126 | under every scheduling, what is published is running, then the log events in sequence order, then exactly one of ok or failed; their lines are the emitted ones in order, all of them if no write failed |
| `TaskLog.EndTellsTheOutcome` | crates/unihelm-agentd/src/tasks.rs:96-126 | over every run, what is published last and written as the status is ok if the operation returned well and failed if it did not; the outcome is the one it returned with and the logged lines are those it emitted |
| `TaskLog.NothingAfterTheEnd` | crates/unihelm-agentd/src/tasks.rs:112-126 | after the final state nothing is published and no row is added |
| `TaskLog.TerminalMeansComplete` | crates/unihelm-agentd/src/tasks.rs:103-143 | once the status is ok or failed, no later step adds a log row |
| `TaskLog.TerminalIsLastExactlyWhen` | crates/unihelm-agentd/src/handler.rs:600-613 | a terminal status follows the last row in every run if and only if a cancel is refused: cancelling ends the status while the worker may still log |
| `TaskLog.CancelledTaskGoesOn` | crates/unihelm-agentd/src/handler.rs:600-613 | the run that shows it |
| `TaskLog.ClosedLogIsFull` | crates/unihelm-agentd/src/tasks.rs:131-143 | if no write failed, a closed log is every emitted line and then, for a failure, its reason |
| `TaskLog.DoneIsTerminalExactlyWhen` | crates/unihelm-agentd/src/tasks.rs:96-126 | once the worker is done, the status is terminal, so a follower stops, if and only if neither the write that starts the task nor the one that finishes it was lost, or the task was cancelled |
| `TaskLog.LostStatusStaysLost` | crates/unihelm-agentd/src/tasks.rs:96-126 | after any run in which one of the two was lost, no continuation ends in ok or failed |
| `TaskLog.EveryTaskCanEnd` | crates/unihelm-agentd/src/tasks.rs:80-126 | from every state of every run the task can still be brought to its end |
| `Follower.PageIsNext` | crates/unihelm-db/src/tasks.rs:399-424 | a page of the log query is the next stretch of rows, as many as are left up to a limit between 1 and 5000, and so is empty only at the end |
| `Follower.Session.DrainLogs` | crates/unihelm-cli/src/session.rs:317-332 | shows the rows after the cursor once each, in order, and stops only at the end of the log |
| `Follower.Session.FollowTask` | crates/unihelm-cli/src/session.rs:269-315 | against every interleaving with the agent: shows the persisted log from its first row, each row once and in order, all of it when it returns; unless cancelled that log is closed, the answer is ok if the operation returned well and failed if not, and if no write failed the log is every emitted line and then, for a failure, its reason |
| `JobScheduler.EveryRunIsOrderly` | crates/unihelm-agentd/src/scheduler.rs:128-177 | in every interleaving of ticks, passes, shutdown and clock: one live pass per name, names in flight are exactly theirs, and each pass that ended normally is recorded once, before its name is free, with its own outcome |
| `JobScheduler.EmptyDrainMeansQuiet` | crates/unihelm-agentd/src/scheduler.rs:149-158 | an empty drain means no pass is live and none is ever again |
| `JobScheduler.DrainReportsTheLive` | crates/unihelm-agentd/src/scheduler.rs:149-165 | what a drain returns is exactly who is live, and it is somebody only once its deadline has come |
| `JobScheduler.ShutdownGivesTwentySeconds` | crates/unihelm-agentd/src/scheduler.rs:221-237 | over every run, a drain gives up if and only if nobody is live or 20 seconds have passed since the shutdown, so a loop that exits naming somebody has waited that long |
| `JobScheduler.ClaimStartsExactlyWhen` | crates/unihelm-agentd/src/scheduler.rs:248-268 | a tick starts a pass for a due name if and only if none of that name is live; afterwards one is |
| `JobScheduler.PassRunsToItsEnd` | crates/unihelm-agentd/src/scheduler.rs:265-295 | a pass whose work is over, well or badly, is recorded with that outcome, frees its name and no other, and if the record is written its job runs again one interval and a jitter later |
| `JobScheduler.CutOffFreesTheName` | crates/unihelm-agentd/src/scheduler.rs:167-176 | a pass that is cut off at any point frees its name and leaves the others and the log alone |
| `JobScheduler.DueJobsAreTheDue` | crates/unihelm-db/src/scheduler.rs:108-117 | the due list is every enabled overdue job and no other, the longest overdue first |
| `JobScheduler.PassesStartWhenDue` | crates/unihelm-agentd/src/scheduler.rs:239-270 | a pass starts only while none of its name is live, and its job is due at that moment if and only if no result written for it since the tick read the schedule, the last one counting, set a time still ahead |
| `JobScheduler.StaleListStartsTwice` | crates/unihelm-agentd/src/scheduler.rs:239-270 | that exception happens: a run in which a job is started again although it is no longer due |
| `JobScheduler.Scheduler.Tick` | crates/unihelm-agentd/src/scheduler.rs:239-270 | reads the schedule once and claims or skips every due name in order |
| `JobScheduler.Scheduler.Running` | crates/unihelm-agentd/src/scheduler.rs:160-164 | the names in flight, each once, in order |
| `JobScheduler.Scheduler.Drain` | crates/unihelm-agentd/src/scheduler.rs:149-158 | returns the names of the live passes in order, and any at all only after the budget |
| `JobScheduler.Scheduler.Run` | crates/unihelm-agentd/src/scheduler.rs:210-237 | any number of ticks, then shutdown and drain; whatever happens around it, the names returned are those of the live passes, in order, and any at all only 20 seconds after the shutdown |
| `Migration.Database.PreviousInstalls` | crates/unihelm-agentd/src/tasks.rs:285-299 | the loop finds exactly the blocking states some earlier migration is in, and fails if any query fails |
| `Migration.Database.QueueMigration` | crates/unihelm-agentd/src/tasks.rs:223-278 | adds one queued migration or changes nothing |
| `Migration.Database.OnStart` | crates/unihelm-agentd/src/tasks.rs:302-314 | reconciles first and considers the migration afterwards, so the row it queues is not failed by the same start |
| `Migration.StartFailsTheInterrupted` | crates/unihelm-db/src/tasks.rs:200-221 | a start that can write leaves every queued or running task failed and every other as it was |
| `Migration.QueuedExactlyWhen` | crates/unihelm-agentd/src/tasks.rs:188-202 | a start queues a migration if and only if everything could be read and written, the relay is live, the configuration is not the panel's, and every earlier migration ended ok or cancelled; it then adds one queued row that cannot be cancelled |
| `Migration.ListHoldsTheNewest` | crates/unihelm-db/src/tasks.rs:316-366 | a filtered list of tasks holds the newest of those asked for, in order: all of them or as many as the limit, which is between 1 and 200 |
| `Migration.OneMigrationAtATime` | crates/unihelm-agentd/src/tasks.rs:179-202 | over every run of restarts and status changes, of two migrations the earlier ended ok or cancelled, and never are two queued, running or failed |
| `Migration.FailureIsNotRetried` | crates/unihelm-agentd/src/tasks.rs:171-179 | once one has failed, no number of restarts queues another |
| `Migration.OnlySuccessAllowsTheNext` | crates/unihelm-agentd/src/tasks.rs:171-202 | of two starts one after the other, the second queues again if the first one's migration ended ok, and not if it failed |
| `Migration.PanelRequestsMayPileUp` | crates/unihelm-agentd/src/tasks.rs:179-202 | the assumption is needed: two requests through the panel give two queued ones |
| `Alerts.SpansAlternate` | crates/unihelm-db/src/alerts.rs:359-405 | in every run: kind and target-or-empty name at most one rule, each rule and subject has at most one open event, and what callers are told alternates raise, resolve, each resolve about the event raised before it |
| `Alerts.OpenMeansTold` | crates/unihelm-db/src/alerts.rs:359-405 | while a rule exists, an event is open for a subject if and only if the last thing told was its raise |
| `Alerts.PurgeRemovesExactly` | crates/unihelm-db/src/alerts.rs:431-440 | a purge removes an event if and only if it was resolved before the cutoff of at least one day |
| `Alerts.DeleteRemovesExactly` | crates/unihelm-db/src/alerts.rs:338-349 | a delete removes the rule of that identity with its events and nothing else |
| `Alerts.EventsKeepTheirStories` | crates/unihelm-db/src/alerts.rs:359-440 | over every run, an event keeps its rule, subject, message, value and raise time, a resolve is never taken back or moved, and no id is used twice |
| `Alerts.DeletingForgetsTheSpan` | crates/unihelm-db/src/alerts.rs:333-349 | the condition is needed: deleting a rule with an open event and setting it again tells the same condition as raised twice |
| `AlertIdentities.IdentityAlternates` | crates/unihelm-db/src/alerts.rs:292-405 | over every run that never deletes the rule of a kind and target while its event for a subject is open, what is told about that kind, target and subject alternates raise, resolve, and ends in a raise exactly while the event is open |
| `AlertIdentities.DeleteIsHarmlessExactlyWhen` | crates/unihelm-db/src/alerts.rs:333-349 | after any such run, a delete leaves it alternating in every such continuation if and only if no event of the rule is open for the subject |
| `Alerts.AlertStore.SetAlertRule` | crates/unihelm-db/src/alerts.rs:292-318 | edits the threshold and switch of the rule of that identity in place, or adds one under a fresh id; no other rule changes |
| `Alerts.AlertStore.RaiseAlert` | crates/unihelm-db/src/alerts.rs:359-380 | answers with an event if and only if none was open, and then that event, as given, is stored and nothing else changes |
| `Alerts.AlertStore.ResolveAlert` | crates/unihelm-db/src/alerts.rs:384-395 | answers with the event if and only if it was open, changed in nothing but its resolve time |
| `Alerts.AlertStore.OpenAlertEvents` | crates/unihelm-db/src/alerts.rs:398-405 | exactly the open events, oldest first |
| `Plans.TotalIsExact` | crates/unihelm-core/src/plan.rs:19-24 | saturating at every step is saturating the exact sum once, field by field |
| `Plans.FitsWithinIsEveryField` | crates/unihelm-core/src/plan.rs:98-122 | a limit set fits if and only if each of the twelve fields does; a refusal names the first that does not |
| `Plans.RefusalNamesTheFirst` | crates/unihelm-core/src/plan.rs:58-122 | a refusal names the field that comes first among all that do not fit, with what was asked and what there is |
| `Plans.AcceptedExactlyWhen` | crates/unihelm-core/src/plan.rs:128-130 | an assignment is accepted if and only if in every field the exact sum is within the ceiling, or finite under the largest ceiling |
| `Plans.StaysWithinExactlyWhen` | crates/unihelm-core/src/plan.rs:19-33 | over every run of assignments the exact sum of a field stays within its ceiling if and only if that ceiling is not the largest number |
| `Plans.TotalIgnoresOrder` | crates/unihelm-core/src/plan.rs:76-95 | the running total does not depend on the order |
| `Plans.DroppingKeepsFitting` | crates/unihelm-core/src/plan.rs:98-130 | dropping any plans keeps the rest fitting |
| `Names.ParseTenantPath` | crates/unihelm-core/src/newtypes.rs:368-435 | the component loop and the closing join give the trimmed input back, or its first refusal |
| `Names.JoinOfSplit` | crates/unihelm-core/src/newtypes.rs:412-434 | joining undoes splitting |
| `Names.SplitOfJoin` | crates/unihelm-core/src/newtypes.rs:412-434 | splitting undoes joining |
| `Names.TenantPathStaysHome` | crates/unihelm-core/src/newtypes.rs:368-435 | resolved component by component under any home, an accepted path is below it at every prefix |
| `Names.TenantPathIsCanonical` | crates/unihelm-core/src/newtypes.rs:368-435 | two accepted paths that resolve to the same place are the same value |
| `Names.ParseDomain` | crates/unihelm-core/src/newtypes.rs:86-144 | the label loop refuses at the first bad label, in the order of its checks |
| `Names.DomainsAreExactly` | crates/unihelm-core/src/newtypes.rs:86-144 | the stored domains are exactly the lower-case names of two or more labels of RFC 1035 form with the code's limits |
| `Names.SubdomainExactlyWhen` | crates/unihelm-core/src/newtypes.rs:166-168 | a label in front of a stored domain, such as www, is accepted unchanged if and only if 253 bytes suffice |
| `Names.StoredFormReparses` | crates/unihelm-core/src/newtypes.rs:628-658 | for each of the seven string types, parsing the stored form gives the same value |
| `Names.AcceptedExactlyWhen` | crates/unihelm-core/src/newtypes.rs:86-617 | for each of the seven types, an input is accepted if and only if its normal form (trimmed, for some lower-cased) has the stated form of a stored value, which is then what is stored |
| `Names.NoTenantIsASystemAccount` | crates/unihelm-core/src/newtypes.rs:15-55 | no accepted account name is root, the web server's or one of the panel's own |
| `Audit.FilterIsPrefixExactlyWhen` | crates/unihelm-db/src/audit.rs:147-150 | the pattern matches exactly the texts that start with the prefix, ignoring ASCII case, for every text if and only if the prefix has no backslash |
| `Audit.PlainPrefixMatches` | crates/unihelm-db/src/audit.rs:147-150 | the positive half, text by text |
| `Audit.EscapeFails` | crates/unihelm-db/src/audit.rs:147-150 | the negative half: a match that does not start with the prefix, built for any prefix with a backslash |
| `Audit.RedactIsClean` | crates/unihelm-db/src/audit.rs:191-208 | redacting leaves nothing sensitive at any depth and changes a value if and only if something sensitive was there |
| `Audit.RedactKeepsTheRest` | crates/unihelm-db/src/audit.rs:191-208 | along every path without a sensitive key the value is otherwise the same |
| `Audit.SensitiveExactlyWhen` | crates/unihelm-db/src/audit.rs:20-33 | a key is sensitive if and only if it contains, in any case, one of seven words: pass, secret, token, api_key, private_key, credentials, creds |

## Left out

- EngineLaws.RunsStayValid: is about runs of operations whose undo writes work; a human edit may make any tree invalid, and an undo that fails leaves whatever it leaves.
- EngineConcurrency.ConcurrentEqualsSerial: takes the services' files to be disjoint, as the lock per service needs, and has no human edits among the steps.
- EngineLaws.UnforcedApplyAsks: is about the file the inspection saw.  An edit that lands later in the same apply is lost before the rename, and after it whenever the apply is undone; `EngineEdits.EditRemainsExactlyWhen` says exactly when it remains.
- EngineEdits.FileSurvivesEveryStep: has one operation at a time, as the lock of a service gives; edits are between the steps of the machine, where the inspection with its snapshot is one step and an atomic write is another.
- Disk.Filesystem.WriteAtomic: does not model a path without a parent directory or file name, which the code refuses before its first call.
- Follower.Session.FollowTask: its run is finite and it reports polling for ever when that run ends without a terminal status; a row deleted while it is followed is not modelled.
- TaskLog.BusIsOrderly: is about what the worker and its pump publish; the event with which the cancel handler announces a cancellation is not on this bus.  Log lines are not truncated to 8 KiB, a progress update is not an event, and a restart of the agent in mid-run is in `Migration.dfy` only.
- Alerts.SpansAlternate: is about a rule's id, which is never reused; for kind and target, `AlertIdentities.DeleteIsHarmlessExactlyWhen` has the exact condition.
- Audit.FilterIsPrefixExactlyWhen: leaves out NUL characters and SQLite's limit on the length of a pattern.
- Template rendering and typed contexts: the rendered body is an arbitrary input.
- SHA-256: an arbitrary function to 64 lower-case hexadecimal digits; nothing needs it injective, so where a body is identified the claim is up to a collision.
- The standard library's socket address parser: an arbitrary predicate that accepts only hexadecimal digits, dots, colons, brackets and percent signs.
- SQLite, its time format and its errors beyond a failed statement: tables are sequences with each statement's effect; ids and sequence numbers are as the schema defines them.
- Revision pruning, `enforce_mode`, `drift_report`, the sanity checks on a loaded configuration and the companion files of Postfix maps: one reading of one branch settles them.
- What `remove_managed` would do to a file that changed since it was classified, and directory syncs that fail: the code ignores the latter, and so does the model.
- What the jobs of the scheduler do, their jitter beyond an arbitrary amount, and operators deferring or disabling jobs in mid-run.
- The list queries of the audit log beyond their filter, and retention of audit rows.
- `PhpVersion`, `Port`, `parse_wildcard` and the texts of error messages; a refusal is identified by the check that made it.
- Plan features, quota headroom and their permission lists: straight-line tables.
- Panics, sockets, systemd notification, terminal sessions, certificate issuance, the command tree and the web panel.
