# LocalChat: a Dafny model

LocalChat is an editor over a conversation with a file-reading agent. Sending a message runs one turn.
Editing an old message rolls four separate stores back to the state before that turn, runs the turn
again and then keeps all of the new state or none of it: the agent's context and its immutable
snapshots, the file trees, the turn rows and the UI tables. No transaction spans the stores. The code
compensates by hand, and a failure or a cancellation can arrive at every await.

This project models that saga, and the smaller protocols, loops and formats around it, and proves what
they keep. `dafny verify dfyconfig.toml` checks the whole project.

## Modules

| file | what it holds |
|---|---|
| Wrappers, Strings, Conversation, Runs | results and errors; trimming; messages, checkpoints and turns; runs of a transition system |
| SandboxFiles, History, Agent | the three runtime stores and the agent, as classes over maps and sequences |
| Replay | the reference semantics: a fresh replay of the surviving turns, and what it means to agree with it |
| Runtime | the coordinator: `submit`, revisions, rollback, deletion |
| ChainlitData, DataLayer, App | the UI tables and their archive, the layer that owns them, and the edit of a message |
| Persistence | draining background UI writes before a decision |
| StorageGate, RequestGuard, Deletion | concurrency: the database gate, the request reservation, turns against deletion |
| ContextSummary, Retries | the rolling summary under a token budget; nested retries of one model call |
| SandboxReader, Traversal | buffered lines and pages; the capped directory traversal |
| ToolLogs, ChatTitles | fenced tool logs and the parser they survive; the title of a chat |

## How to read it

**Replay equivalence.** A chat's `Log` lists its surviving turns with the file changes before, inside
and after them. `Replay.After` replays such a list from nothing, with the agent as an arbitrary
function of context, files, request and a recorded choice. `Coherent` says that the current context and
files equal the replay, that turn sequences are exactly 1..n, and that both rollback references of each
turn denote the replayed state just before it. `ChatRuntime.Valid` is this for every chat at once.
Uploads, `Submit`, `Revise`, the stages of a revision and deletion keep it, for every place where an
awaited step may fail. A failed operation leaves the logs and everything visible unchanged; a successful
one changes the log of one chat to the stated one, and it succeeds whenever nothing fails and the agent
answers.

**Whole runs.** `ChatRuntime.Effect` says, from the logs alone, what a request comes to if nothing
fails: which turn it adds or cuts, under which free names its files go, or that it is refused.
`ChatRuntime.Serve` runs any requests on the class itself. Each comes to its effect or to nothing, and
to its effect if no awaited step fails and the drawn identifiers are new; at the end the logs are what
these steps make of them and every chat agrees with the replay of its log. Two conclusions follow:
the logs are those of a run that was asked for the surviving requests only and in which nothing failed
(`FailuresLeaveNoTrace`), and equal logs show the same chat (`Runtime.SameSurvivors`).

**Exact UI undo.** `Diverged(first, now, root)` relates the tables before the first uncommitted edit of
a message to the tables now: they differ only in the continuation of that message, which is archived.
Staging, truncating and every tentative write keep the relation, and from it a restore gives back
exactly `first`, with no key clash.

**One edit, four stores.** `App.LocalChat.OnEditMessage` nests the UI transaction in the runtime
transaction, with a failure or cancellation possible at each step (`EditFault`). Its contract is the
disjunction: nothing has changed anywhere, or every store holds the revision. It keeps
`LocalChat.Valid`, and an edit that decides leaves no archive of its own, so edits compose.

**Concurrency.** Three transition systems are proved over all interleavings by inductive invariants.
In the gate, the lock is a plain flag that anyone could release. In the request guard, callbacks,
tasks and handlers interleave. In the deletion model, messages, edits, direct runtime calls and cleanups
interleave at every await.

**Shared functions.** Where a method and its specification use the same function, the function's
meaning is also stated on its own terms, on the values a user sees: what an answer is
(`Conversation.EndsWith`), what an edit removes (`App.OnlyLaterGone`), what a snapshot holds
(`SandboxFiles.ContentsAre`), which status codes are retried (`Retries.CallModel`), which answers make
a summary (`ContextSummary.Summarizes`), what a log keeps of its text (`ToolLogs.PrintableKept` and
the lemmas after it).

**Where the code does not do what one might expect**, the model keeps the code's behaviour and says
exactly when it is right:

- Two legacy checkpoints that are equal make the later turn roll back too far
  (`Replay.SharedTokenLosesATurn`). An imported chat is coherent if and only if its tokens are distinct
  (`Replay.ImportedChatIsCoherent`).
- The accepted configurations do not rule out a summary that cannot continue
  (`ContextSummary.AcceptedDeadEnd`). A dead end is reachable if and only if the room beside the longest
  acceptable summary is not positive or, where no summary is acceptable, the first prompt leaves no
  room (`NeverStuck`, `GetsStuck`).
- A manual or generated title is safe from automatic steps, and only such a title is
  (`ChatTitles.SafeIffSettled`). A metadata write that carries the title state can undo this
  (`CarriedState`, `StaleMetadataLosesRename`).
- The request guard admits a second request if a wrapped handler raises after scheduling its task
  (`RequestGuard.RaisingAfterStart`). With polite handlers at most one request is in flight, and after
  any impolite step two can be (`SingleRequest`, `ImpoliteAdmitsTwo`).
- A write that names another thread for a known step keeps its order, which may be taken there
  (`ChainlitData.TakenOrderCollides`). Orders stay injective throughout a run if and only if no write
  takes a taken order (`OrderOverRuns`).
- A blob that only an undecided archive still names can be dropped by another edit's commit. After a
  restore all live blobs are stored if and only if those of the kept and archived elements were
  (`SQLiteChainlitDataLayer.Restore`).
- A stream timeout that wrongly reports zero chunks lets a call that delivered output be repeated
  (`Retries.DishonestReplay`). It happens under some budget if and only if the first reply that delivers
  anything or ends the call is such a timeout (`NoReplayIff`).
- Writing a new step under an identifier that an archive holds lets a restore move it while it lives
  (`ChainlitData.ReusedIdMoves`). A step that agrees with the archives keeps its order for life, and a
  restore moves exactly those that do not (`OrderForLife`, `RestoreMovesIff`).
- A log limit of zero keeps the whole text (`ToolLogs.TruncateBounds`).

## Assumptions

- One SQL transaction is atomic and its caller knows its outcome.
- Compensating restores do not fail, Stop delivers one cancellation, and a chat is not deleted while a
  compensation of it runs.
- Identifiers drawn with uuid4 are unused. Steps that a turn writes have such identifiers or belong to
  the continuation that the edit replaces anyway.
- No cancellation lands inside the drain that follows a successful body. One that did would leave the
  writes scheduled during it undrained.
- An SDK stream timeout that is a `TimeoutError` gets the adapter's own chunk count, like any other
  (`Retries.TimedOut`); one that is not passes with the count it reports (`Retries.ChunkTimeout`).
- Step writes of the turn view are drained before the edit is decided (`Persistence` proves that
  draining does this).
- The agent, the provider, the decoder and the directory listing are arbitrary functions.

## Model

| member | source | states |
|---|---|---|
| SandboxFiles.UniqueDestination | local_agent_chat/sandbox_files.py:70-79 | the search ends at the first free name, after at most as many retries as the tree has files |
| SandboxFiles.CandidatesDiffer | local_agent_chat/sandbox_files.py:75-78 | no two names of the search are equal, whatever dots the name has |
| SandboxFiles.CandidateWithSuffix | local_agent_chat/sandbox_files.py:75-78 | the number, in parentheses, goes before the suffix, which starts at the last dot |
| SandboxFiles.CandidateWithoutSuffix | local_agent_chat/sandbox_files.py:75-78 | a name whose only dots lead or end it gets the number at its end |
| SandboxFiles.TakenNamesAreFiles | local_agent_chat/sandbox_files.py:74-79 | pigeonhole: k taken names need k files |
| SandboxFiles.TreeBytes | local_agent_chat/sandbox_files.py:102-106 | the loop adds up the sizes of all files, in whatever order it meets them |
| SandboxFiles.TotalWrite | local_agent_chat/sandbox_files.py:107-119 | writing one file changes the total by the difference of the two sizes |
| SandboxFiles.SandboxFiles.PlaceUpload | local_agent_chat/sandbox_files.py:95-123 | an upload succeeds exactly when it fits both limits before and after the copy, and then the tree stays within them |
| SandboxFiles.SandboxFiles.Upload | local_agent_chat/sandbox_files.py:81-123 | one name is added or replaced, every other file and chat is untouched, a failure changes nothing, and all trees and snapshots stay within the limits; it succeeds exactly under both limits, given in numbers |
| SandboxFiles.SandboxFiles.TakeSnapshot | local_agent_chat/sandbox_files.py:128-148 | a snapshot denotes the trees of now, an absent tree as an empty one; a failed copy leaves no snapshot; it is of version 2 and holds each tree under its own name |
| SandboxFiles.SandboxFiles.CopyTrees | local_agent_chat/sandbox_files.py:134-140 | both trees are copied under their own names, an absent one as an empty directory |
| SandboxFiles.ContentsAre | local_agent_chat/sandbox_files.py:171-185 | what a snapshot stands for, by its metadata |
| SandboxFiles.IdsAre | local_agent_chat/sandbox_files.py:35-36 | the characters that chat and snapshot identifiers consist of |
| SandboxFiles.SandboxFiles.StageRevisions | local_agent_chat/sandbox_files.py:195-200 | both revisions are copied before any live tree moves |
| SandboxFiles.SandboxFiles.InstallTree | local_agent_chat/sandbox_files.py:203-208 | one tree is installed with its predecessor kept, set aside only, or untouched |
| SandboxFiles.SandboxFiles.Install | local_agent_chat/sandbox_files.py:202-208 | wherever a rename fails, each tree is installed with its predecessor set aside, set aside only, or untouched |
| SandboxFiles.SandboxFiles.RollBack | local_agent_chat/sandbox_files.py:209-217 | from any half-done swap both trees, present or absent, are as before |
| SandboxFiles.SandboxFiles.Swap | local_agent_chat/sandbox_files.py:187-219 | both live trees become the given ones, or both are as before, present or absent |
| SandboxFiles.SandboxFiles.RestoreSnapshot | local_agent_chat/sandbox_files.py:164-219 | all or nothing: on success both trees equal the snapshot, on any failure both equal their values before the call; a snapshot without metadata gives the files back and no artifacts, one of version 2 each tree from the directory of its name, and nothing else is restored |
| SandboxFiles.SandboxFiles.DeleteChat | local_agent_chat/sandbox_files.py:221-227 | every tree and snapshot of one chat is gone, no other |
| History.SQLiteHistory.Append | local_agent_chat/sqlite_history.py:83-89 | a new turn gets the next sequence of its chat; it fails exactly on a known id, and sequences stay 1..n in every chat |
| History.SQLiteHistory.ReplaceFrom | local_agent_chat/sqlite_history.py:91-102 | the turn and all later ones of its chat give way to the replacement at the same sequence, exactly unless it violates a key; a replacement that keeps id and chat never does, and one that keeps the chat keeps the numbering; it fails exactly if a row that stays has its id or its place |
| History.SQLiteHistory.SnapshotFrom | local_agent_chat/sqlite_history.py:104-140 | the continuation is captured with its sequences and times |
| History.SQLiteHistory.RestoreSnapshot | local_agent_chat/sqlite_history.py:142-171 | the captured rows replace the continuation, or nothing changes |
| History.SQLiteHistory.ContextMessages | local_agent_chat/sqlite_history.py:208-239 | the loop imports all turns, or exactly those before the first turn that carries the legacy checkpoint |
| History.PairsAre | local_agent_chat/sqlite_history.py:228-234 | a turn is imported as its request and then its answer, under the identifiers of the code |
| History.SQLiteHistory.DeleteChat | local_agent_chat/sqlite_history.py:204-206 | a chat's rows are gone, every other chat keeps its rows and order |
| History.NextIsFree | local_agent_chat/sqlite_history.py:85-89 | the next sequence never violates the UNIQUE constraint, so only a known id can |
| History.ReinsertContinuation | local_agent_chat/sqlite_history.py:142-171 | deleting the continuation and inserting the captured rows succeeds and gives every chat the rows it had |
| Agent.AgentMemory.Checkpoint | local_agent_chat/agent_memory.py:61-68 | a fresh immutable snapshot of the messages, named by the token |
| Agent.AgentMemory.Restore | local_agent_chat/agent_memory.py:70-82 | a token restores exactly its own chat's snapshot; a foreign or missing one changes nothing |
| Agent.AgentMemory.Delete | local_agent_chat/agent_memory.py:84-87 | the context and all snapshots of one chat are gone, no other |
| Agent.AgentExecution.Messages | local_agent_chat/agent_execution.py:69-77 | the stored context, or the visible history imported once and kept |
| Agent.AgentExecution.Checkpoint | local_agent_chat/agent_execution.py:115-117 | a snapshot of the effective context; a failure adds none |
| Agent.AgentExecution.Restore | local_agent_chat/agent_execution.py:119-139 | new and legacy tokens restore what they denote; unknown versions, foreign chats and unknown legacy tokens are refused without a change |
| Agent.AgentExecution.Run | local_agent_chat/agent_execution.py:141-197 | the run succeeds exactly when the graph ends with an assistant message that calls no tool and is not blank; then the context is what the graph returned and the answer is that message |
| Conversation.AnswersIff | local_agent_chat/agent_execution.py:187-197 | a result answers exactly if its last message does, and then with the text of that one |
| Replay.CoherentAfterTurn | local_agent_chat/runtime.py:181-201 | cutting the turns at k and running from the recorded state before turn k agrees with the replay of the shorter, extended log |
| Replay.ResolvePrefix | local_agent_chat/agent_execution.py:128-137 | cutting later turns does not change what the checkpoints of the kept turns denote, legacy ones included |
| Replay.CoherentDecides | local_agent_chat/runtime.py:109-214 | the log determines what a chat shows |
| Replay.CoherentWithoutOthers | local_agent_chat/agent_memory.py:84-87 | deleting another chat's snapshots does not disturb a chat |
| Replay.ImportedChatIsCoherent | local_agent_chat/sqlite_history.py:208-239 | a chat of an older release starts out coherent if and only if its legacy tokens are distinct |
| Replay.SharedTokenLosesATurn | local_agent_chat/sqlite_history.py:226-228 | with a shared legacy token the later turn resolves to the history before the earlier one |
| Runtime.ChatRuntime.RestoreState | local_agent_chat/runtime.py:71-84 | context and files are both attempted, whether or not the other fails; each becomes what its reference denotes, as a whole, or stays, and both do if the references are valid and nothing fails |
| Runtime.ChatRuntime.UploadFile | local_agent_chat/app.py:359-364 | an upload between turns succeeds exactly if it fits, gets a name that no file has, and is part of what a later replay performs |
| Runtime.ChatRuntime.Capture | local_agent_chat/runtime.py:119-120 | both rollback references denote the visible state, which does not change |
| Runtime.ChatRuntime.RunTurn | local_agent_chat/runtime.py:121-129 | run and append, or both stores restored from what was captured |
| Runtime.ChatRuntime.Submit | local_agent_chat/runtime.py:109-129 | replay equivalence is kept; a failure anywhere leaves every chat and log as it was; success, with exactly one more turn in the log, if and only if no step fails, the id is new and the agent answers; the returned answer is the text of the last message of the context and the answer in the last row |
| Runtime.ChatRuntime.BeginRevision | local_agent_chat/runtime.py:168-177 | it refuses unknown and foreign turns; otherwise everything a rollback needs is captured and nothing visible changes |
| Runtime.ChatRuntime.StageUploads | local_agent_chat/app.py:359-361 | the attachments are placed one after another in the restored tree, or the batch stops |
| Runtime.ChatRuntime.RestoreOrigin | local_agent_chat/runtime.py:186-187 | context and files become what the edited turn's references denote |
| Runtime.ChatRuntime.RerunTurn | local_agent_chat/runtime.py:181-201 | the rerun starts from the turn's references, stages the uploads, answers and replaces the row; a failure leaves the table alone |
| Runtime.ChatRuntime.Run | local_agent_chat/runtime.py:181-201 | it runs once; its success leaves a chat coherent with the log cut at the edited turn and extended by its new answer |
| Runtime.ChatRuntime.RollBack | local_agent_chat/runtime.py:86-107 | context, files and replaced turns of every chat show again what they showed at the start |
| Runtime.ChatRuntime.EndRevision | local_agent_chat/runtime.py:203-214 | it commits exactly if the caller's body finished and a started run completed; otherwise it rolls back and keeps the logs |
| Runtime.ChatRuntime.Revise | local_agent_chat/runtime.py:138-154 | a whole revision keeps replay equivalence: nothing changed, or the log is cut at the edited turn and extended by its rerun; only if the turn is the chat's, the uploads fit before it and the agent answers from there, and always then if nothing fails; the returned answer is the one that context and row end with |
| Runtime.ChatRuntime.DeleteState | local_agent_chat/app.py:139-142 | no store keeps anything of the chat, and all other chats stay coherent; an identifier that the file store refuses stops the deletion and changes nothing visible |
| Runtime.ChatRuntime.TurnsOfLogs | local_agent_chat/sqlite_history.py:83-89 | the table knows exactly the turns of the logs, each at its place |
| Runtime.ChatRuntime.Serve | local_agent_chat/runtime.py:109-223 | replay equivalence over whole runs: each upload, turn, edit or deletion has its effect on the logs or none, the former whenever nothing fails and identifiers are new, and then each chat agrees with a fresh replay of the log these effects add up to |
| Runtime.ChatRuntime.FailuresLeaveNoTrace | local_agent_chat/runtime.py:86-107 | the logs after a run are those of an undisturbed run of its surviving requests |
| Runtime.ChatRuntime.UndisturbedRun | local_agent_chat/runtime.py:109-223 | if nothing fails, every request has its effect and the logs are the ideal ones |
| Runtime.ReleaseTakenOver | local_agent_chat/sqlite_history.py:208-239 | stores of an older release with distinct legacy tokens in each chat start out valid |
| Runtime.ChatRuntime.RevisionRan | local_agent_chat/runtime.py:186-201 | the stores after a rerun agree with the replay of the revised log |
| Runtime.SameSurvivors | local_agent_chat/runtime.py:109-214 | two runtimes whose logs agree on a chat show the same context, files, requests and answers there |
| Runtime.PlacedPrefix | local_agent_chat/app.py:359-361 | if some attachment does not fit after the earlier ones, the batch fails |
| ChainlitData.MaxOrder | local_agent_chat/chainlit_data.py:322-325 | the greatest order of a thread, or zero |
| ChainlitData.StageDiverges | local_agent_chat/chainlit_data.py:331-397 | staging archives exactly the continuation |
| ChainlitData.UpsertDiverges | local_agent_chat/chainlit_data.py:300-329 | saving a tentative step or the edited message never reaches a row outside the continuation |
| ChainlitData.TruncateDiverges | local_agent_chat/chainlit_data.py:449-476 | neither does the truncation, and the edited step stays |
| ChainlitData.AttachDiverges | local_agent_chat/chainlit_data.py:567-573 | neither does an element on a tentative step |
| ChainlitData.FeedbackDiverges | local_agent_chat/chainlit_data.py:560-566 | neither does feedback on a tentative step |
| ChainlitData.WritesDiverge | local_agent_chat/chainlit_data.py:300-329 | nor any sequence of such writes |
| ChainlitData.ExactUndo | local_agent_chat/chainlit_data.py:504-610 | from any such state a restore cannot clash and gives back exactly the tables before the first edit |
| ChainlitData.EditThenRestore | local_agent_chat/chainlit_data.py:399-415 | save the edit, truncate or not, write anything of one's own, restore: nothing has happened |
| ChainlitData.UpsertOrder | local_agent_chat/chainlit_data.py:319-329 | a known step keeps its order, whatever thread the write names, a new one comes after everything in its thread, and orders stay injective exactly if the write takes no taken order |
| ChainlitData.UpsertMerges | local_agent_chat/chainlit_data.py:319-329 | a write decides thread, kind and the columns it names; the other columns of a known step stay |
| ChainlitData.RestoreKeepsOrder | local_agent_chat/chainlit_data.py:575-588 | restored orders do not collide with those that stayed |
| ChainlitData.OrderOverRuns | local_agent_chat/chainlit_data.py:319-329 | throughout any run of transactions step orders are injective in each thread, live and archived, if and only if no write moves a step onto a taken order |
| ChainlitData.TakenOrderCollides | local_agent_chat/chainlit_data.py:319-329 | a write that names another thread for a known step whose order is taken there |
| ChainlitData.OrderForLife | local_agent_chat/chainlit_data.py:319-329 | a step that agrees with the archives that hold it keeps its order for as long as it lives, through every operation, restores included |
| ChainlitData.FreshIdForLife | local_agent_chat/chainlit_data.py:319-329 | a step created under an identifier that no archive holds keeps its first order for as long as it lives |
| ChainlitData.RestoreMovesIff | local_agent_chat/chainlit_data.py:575-588 | a successful restore keeps the order of a step that lives on exactly if its archive agrees, and gives it the archived order otherwise |
| ChainlitData.ReusedIdMoves | local_agent_chat/chainlit_data.py:575-588 | an identifier written again while an archive holds it: the restore moves the live step |
| ChainlitData.TruncateRevises | local_agent_chat/chainlit_data.py:449-476 | saving and truncating leaves exactly the old prefix and the edited root in its place |
| ChainlitData.UpsertRevises | local_agent_chat/chainlit_data.py:319-329 | each written step comes after the root and adds itself only |
| DataLayer.SQLiteChainlitDataLayer.StageRevision | local_agent_chat/chainlit_data.py:332-397 | a root is staged once; a later edit of it keeps the first archive |
| DataLayer.SQLiteChainlitDataLayer.UpdateStep | local_agent_chat/chainlit_data.py:286-298 | a user message whose text changes is staged in the same transaction that saves it, and only such a message |
| DataLayer.SQLiteChainlitDataLayer.Truncate | local_agent_chat/chainlit_data.py:449-476 | children are deleted before their steps; it fails without an archived root; exactly the later steps of the thread go, with the elements and feedback on them |
| DataLayer.SQLiteChainlitDataLayer.Commit | local_agent_chat/chainlit_data.py:478-502 | only this archive goes; blobs of live elements stay, the archived ones that no live element refers to go |
| DataLayer.SQLiteChainlitDataLayer.Restore | local_agent_chat/chainlit_data.py:504-610 | the archive replaces the continuation or nothing changes; without an archive it does nothing; blobs of live elements stay, those of the removed ones go; all live blobs are stored exactly if those of the kept and archived elements were |
| DataLayer.SQLiteChainlitDataLayer.DeleteUnreferencedBlobs | local_agent_chat/chainlit_data.py:631-658 | whatever fails or is interrupted, only given and unreferenced blobs are deleted, and all of them if nothing fails |
| DataLayer.KeysOfAre | local_agent_chat/chainlit_data.py:631-658 | a blob is referenced exactly if a live element names it |
| App.CommitRevises | local_agent_chat/chainlit_data.py:449-502 | a committed edit leaves the old prefix, the root and only newly written steps, also when an older attempt had been staged |
| App.CommitForgets | local_agent_chat/chainlit_data.py:498-501 | no archive of the edit remains, and every other archive does |
| App.CommitKeeps | local_agent_chat/chainlit_data.py:449-502 | row by row: the message has its new text and keeps all else, attachments included; later steps that are not written again are gone, as is everything attached to later steps; every other step, element and feedback is as before |
| App.LastWriteShows | local_agent_chat/chainlit_data.py:300-329 | the last write of a step of the new turn decides what it shows |
| App.LocalChat.WriteSteps | local_agent_chat/chainlit_persistence.py:46-61 | every tentative write is attempted, and the edit can be undone after any subset of them |
| App.LocalChat.CutAndShow | local_agent_chat/app.py:378-380 | the continuation is cut before the first step of the new turn is written |
| App.LocalChat.RunShown | local_agent_chat/app.py:310-320 | the edit can be undone and the revision is still open however the body ends; it is done only when the turn was replaced and every write is stored |
| App.LocalChat.ReviseUi | local_agent_chat/chainlit_data.py:399-415 | the UI transaction commits what the body wrote or restores what was there |
| App.LocalChat.UndoEdit | local_agent_chat/app.py:445-447 | restoring again is harmless |
| App.LocalChat.HandleRevision | local_agent_chat/app.py:323-397 | logs, views and UI tables change together or not at all |
| App.LocalChat.StageAndRevise | local_agent_chat/app.py:438-447 | from the staged edit on, the edit is kept in every store or in none |
| App.LocalChat.OnEditMessage | local_agent_chat/app.py:411-449 | the cross-store atomic edit: refused without a change, failed with everything as before the edit, or revised in context, files, turns and UI tables with its archive gone and all live blobs stored; revised whenever nothing fails and the agent answers; the returned answer is the one that the chat ends with, the tables are what CommitKeeps says, and every blob that a live element names is stored |
| Persistence.Round | local_agent_chat/chainlit_persistence.py:20-22 | one round of waiting leaves exactly the writes scheduled during it |
| Persistence.PendingWrites.Drain | local_agent_chat/chainlit_persistence.py:15-25 | draining ends, every write has completed exactly once, also those scheduled meanwhile, and a failure is reported if and only if one occurred |
| StorageGate.FinishIo | local_agent_chat/sqlite_storage.py:38-52 | however often the waiter is cancelled, the SQL task is awaited to its end; its error, a cancellation or its result is reported in that order |
| StorageGate.RunIsSafe | local_agent_chat/sqlite_storage.py:153-168 | in every interleaving the lock is taken exactly when someone owns it, at most one does, and SQL runs only for an owner that waits for it |
| StorageGate.Ledger | local_agent_chat/sqlite_storage.py:158-168 | each use acquires at most once and has released exactly as often, except while it owns the gate |
| StorageGate.Exclusive | local_agent_chat/sqlite_storage.py:55-74 | between two acquisitions the first owner has released the gate |
| StorageGate.ReleasedIdle | local_agent_chat/sqlite_storage.py:162-168 | a release is the owner's, of a taken gate, with no SQL worker of anyone running |
| StorageGate.OneWorker | local_agent_chat/sqlite_storage.py:38-52 | at most one SQL worker runs, and its user owns the gate |
| StorageGate.CancelledWaiterNeverOwns | local_agent_chat/sqlite_storage.py:158-159 | a waiter that is cancelled never acquires the gate |
| StorageGate.OwnerCanLeave | local_agent_chat/sqlite_storage.py:160-168 | from any state, however cancelled, an owner can drain its SQL and release on its own |
| StorageGate.WaiterGetsIn | local_agent_chat/sqlite_storage.py:158-168 | from every safe state each waiter can get the gate: at once if it is free, else after its owner has left |
| StorageGate.OwnerWorks | local_agent_chat/sqlite_storage.py:160-165 | an owner whose journal check passes runs SQL and goes on when it is done, not before |
| StorageGate.CancelledOnlyCloses | local_agent_chat/sqlite_storage.py:160-168 | a cancelled user starts no SQL any more but its close, which stands for rolling back and closing |
| RequestGuard.HeldOnce | local_agent_chat/chainlit_requests.py:35-84 | claims inside the handler, accepted unfinished tasks and pending callbacks are one if the slot is reserved and none otherwise |
| RequestGuard.AdmittedWhenIdle | local_agent_chat/chainlit_requests.py:45-71 | with a free slot and no working task in its session a request is admitted |
| RequestGuard.ReturnDecides | local_agent_chat/chainlit_requests.py:72-78 | a returning handler keeps the slot exactly if its session has another task than before, whose callback then holds it |
| RequestGuard.SlotFrees | local_agent_chat/chainlit_requests.py:37-39 | the slot is never lost: from every such state some events free it |
| RequestGuard.SingleRequest | local_agent_chat/chainlit_requests.py:41-84 | at most one user request works at any time, over all sessions |
| RequestGuard.ImpoliteAdmitsTwo | local_agent_chat/chainlit_requests.py:72-81 | the reliance on the wrapped handlers is exact: after any other step two different requests can be working |
| RequestGuard.ImpoliteUncovers | local_agent_chat/chainlit_requests.py:72-81 | and neither a handler inside nor a callback accounts for the one that was working before the step |
| RequestGuard.AdmittedAlone | local_agent_chat/chainlit_requests.py:47-71 | a request is admitted only when no other is inside, working or about to be released |
| RequestGuard.RejectedStartsNothing | local_agent_chat/chainlit_requests.py:47-68 | a rejected request replaces no session's current task and never starts work |
| RequestGuard.RaisingAfterStart | local_agent_chat/chainlit_requests.py:79-81 | a handler that raises after scheduling its task lets a second request in |
| Deletion.RunIsSafe | local_agent_chat/runtime.py:59-69 | in every interleaving each lock is held exactly by the task in its critical section, and what a cleanup has erased stays erased |
| Deletion.OneTurn | local_agent_chat/runtime.py:116-118 | at most one turn runs, over all chats |
| Deletion.NeverOverlaps | local_agent_chat/runtime.py:216-223 | no turn or upload of a chat can write while a cleanup erases it |
| Deletion.TurnRuns | local_agent_chat/runtime.py:109-129 | on a free system a message, an edit and a direct call get to run and can write |
| Deletion.RefusedIff | local_agent_chat/runtime.py:59-69 | the runtime refuses a turn exactly if its chat is being deleted or a turn is under way |
| Deletion.NothingIsLeaked | local_agent_chat/runtime.py:116-118 | when all tasks have left, no lock is taken |
| Deletion.CleanupRuns | local_agent_chat/runtime.py:216-223 | an undisturbed cleanup erases all of its chat and nothing else |
| Deletion.OnlyCleanupsErase | local_agent_chat/runtime.py:216-223 | data disappears only where a cleanup erases its own chat |
| Deletion.DeletionIsFinal | local_agent_chat/app.py:130-144 | after a completed cleanup nothing running, waiting or arriving leaves data of the chat behind |
| ContextSummary.CreateSummary | local_agent_chat/agent_context.py:46-120 | it ends; the sent fragments are a prefix of the transcript, and all of it on success; every prompt keeps the budget, each summary fits below the trigger and feeds the next batch; each summary is the whole, trimmed and untruncated answer of the model to that prompt, and a failed, blank, truncated or oversized answer ends the method with the outcome of that name |
| ContextSummary.CompactIs | local_agent_chat/agent_context.py:94-110 | what is made of an answer, case by case |
| ContextSummary.WindowIs | local_agent_chat/agent_context.py:73-84 | the budget in characters: two to a token, rounded up, beside the prompts, the summary and 1000 tokens |
| ContextSummary.NoRoomIs | local_agent_chat/agent_context.py:79-82 | there is no room exactly if not even two more characters fit the window |
| ContextSummary.FragmentFits | local_agent_chat/agent_context.py:73-84 | a fragment never exceeds the window and fills it to the token unless the transcript ends |
| ContextSummary.NeverStuck | local_agent_chat/agent_context.py:79-82 | with room beside the longest acceptable summary, or for the one batch if no summary is acceptable, no transcript and no model reaches a dead end |
| ContextSummary.GetsStuck | local_agent_chat/agent_context.py:104-110 | without that room some transcript and some model do |
| ContextSummary.SaneConfigurations | local_agent_chat/settings.py:66-81 | accepted configurations whose output reserve and kept messages cover the summary budget and the system prompt have no dead end |
| ContextSummary.AcceptedDeadEnd | local_agent_chat/settings.py:66-81 | an accepted configuration with a dead end |
| ContextSummary.BatchBound | local_agent_chat/agent_context.py:62-112 | the number of batches is bounded by the transcript length over the least room |
| ContextSummary.CheckCall | local_agent_chat/agent_context.py:128-141 | the guardrail admits a call exactly when all messages, the output reserve and the tool allowance fit the window, and so leaves both free |
| ContextSummary.CompactedIsAdmitted | local_agent_chat/agent_context.py:104-110 | in an accepted configuration every accepted summary, beside the kept messages and a system prompt of at most 1000 tokens, passes the guardrail |
| Retries.DelayBounds | local_agent_chat/retry_policy.py:11-32 | every wait lies between min(300, 2^n) and 300 seconds whatever the headers say, is at least what the first usable header asks for, and is the schedule's own without one |
| Retries.DelayExact | local_agent_chat/retry_policy.py:11-32 | the exact wait: the first usable of milliseconds, seconds and date, not below the schedule and not above 300 seconds |
| Retries.Stream | local_agent_chat/providers.py:80-106 | only transient failures before any output are retried, within the budget; what is delivered is the last call's output; retried are connection errors and the status codes 408, 409, 429 and 500 to 599, with their headers |
| Retries.Generate | local_agent_chat/providers.py:66-78 | connection errors, timeouts and the status codes 408, 409, 429 and 500 to 599 are retried within the budget; every other error ends the calls at once |
| Retries.RunStreamingModel | local_agent_chat/llm_retry.py:89-106 | only transient failures before output and stream timeouts reported as empty are repeated, each until its budget is used up and after the scheduled pauses; how the last call ends is what the caller sees, and the consumer sees the calls' outputs in order |
| Retries.CallModel | local_agent_chat/llm_retry.py:89-106 | at most (r+1)(s+1) provider calls, none after a reply that may not be repeated; the last reply ends the call only if it may not be repeated or a budget is used up; unless the provider misreports, its output is all the consumer sees; an earlier reply with an HTTP status had one of 408, 409, 429 and 500 to 599, and a silent last one had not or the budget is used up |
| Retries.NoReplayIff | local_agent_chat/llm_retry.py:99-104 | every budget shows the consumer one call's output alone if and only if the provider's first reply that delivers anything or ends the call is not a stream timeout reporting no chunk |
| Retries.DishonestReplay | local_agent_chat/llm_retry.py:99-104 | such a provider run under any budget: the consumer gets the first call's chunk and then the second call's |
| Retries.StallThenAnswer | local_agent_chat/llm_retry.py:96-106 | a provider that stalls once and then answers is heard |
| SandboxReader.LinesPartition | local_agent_chat/sandbox_tools.py:72-86 | plain lines lose nothing, and only the last may lack its newline |
| SandboxReader.TextStream.ReadLine | local_agent_chat/sandbox_tools.py:74 | at most a buffer, up to and including the next newline |
| SandboxReader.TextStream.NextLine | local_agent_chat/sandbox_tools.py:72-86 | the iterator yields exactly one item per line however long it is, and fails exactly on a null byte in the first buffer |
| SandboxReader.TextStream.AllLines | local_agent_chat/sandbox_tools.py:72-86 | all items are the plain lines, each cut to one buffer |
| SandboxReader.Read | local_agent_chat/sandbox_tools.py:49-69 | a page is a run of consecutive numbered lines, and the marker is there exactly when another line exists; row i begins with its line number, counted from one |
| SandboxReader.ShownIs | local_agent_chat/sandbox_tools.py:78-85 | a line is shown without its line end, or its first 262144 bytes with a note if they do not end it |
| SandboxReader.AnyBinaryIs | local_agent_chat/sandbox_tools.py:74-76 | only a null byte among the first 262144 bytes of a line makes a file binary |
| SandboxReader.PageStopIs | local_agent_chat/sandbox_tools.py:56-65 | a page ends at its limit of lines, with the line that reaches 6000 characters, or with the file |
| SandboxReader.PagesCover | local_agent_chat/sandbox_tools.py:56-69 | pages that each start where the last one ended hold every line once, in order |
| SandboxReader.ReadPages | local_agent_chat/sandbox_tools.py:49-69 | calling the reader until its marker is absent returns every line once, in order, or the error of the file's first binary line, each row with its own line number |
| Traversal.Scan | local_agent_chat/sandbox_tools.py:112-124 | one directory contributes its files and directories in order, up to the cap |
| Traversal.Entries | local_agent_chat/sandbox_tools.py:104-127 | it ends on any tree; at most the cap, each path once, nothing that is not listed, and everything that is unless the cap was reached |
| Traversal.AllFound | local_agent_chat/sandbox_tools.py:108-122 | with an empty worklist everything reachable has been found |
| ToolLogs.CleanTwice | local_agent_chat/tool_logs.py:9-16 | cleaning leaves nothing to clean |
| ToolLogs.PrintableKept | local_agent_chat/tool_logs.py:9-16 | ordinary text is kept character by character |
| ToolLogs.CrLfIsNewline | local_agent_chat/tool_logs.py:11 | CRLF becomes one newline wherever it stands |
| ToolLogs.CrIsNewline | local_agent_chat/tool_logs.py:11 | so does a lone CR |
| ToolLogs.ControlIsGone | local_agent_chat/tool_logs.py:12-16 | other control characters leave nothing behind |
| ToolLogs.SequenceIsGone | local_agent_chat/tool_logs.py:10 | nor does a terminal sequence of parameter, intermediate and final bytes |
| ToolLogs.CleanIs | local_agent_chat/tool_logs.py:16 | only newlines are stripped from the ends |
| ToolLogs.TruncateIs | local_agent_chat/tool_logs.py:19-29 | two thirds of the limit are shown from the front and the rest from the end, and the gap names how many characters are left out |
| ToolLogs.TextIs | local_agent_chat/tool_logs.py:35-37 | text within the limit is shown as it is, and a placeholder if there is none |
| ToolLogs.TruncateBounds | local_agent_chat/tool_logs.py:19-29 | a positive limit bounds what is shown, a limit of zero keeps everything |
| ToolLogs.NothingCloses | local_agent_chat/tool_logs.py:38-42 | no line of the text closes the fence |
| ToolLogs.LogIs | local_agent_chat/tool_logs.py:38-43 | the log is the text between two fences as short as they can be |
| ToolLogs.RoundTrip | local_agent_chat/tool_logs.py:32-43 | for every output and limit the log parses back to exactly the cleaned, bounded text with nothing after it |
| ChatTitles.Thread.BeginChatTitle | local_agent_chat/chainlit_data.py:131-152 | it claims unnamed, pending and fallback titles and no others; an unnamed one gets the placeholder name |
| ChatTitles.Thread.CompleteChatTitle | local_agent_chat/chainlit_data.py:154-169 | it applies exactly while the title is pending |
| ChatTitles.Thread.UpdateThread | local_agent_chat/chainlit_data.py:204-243 | initial names become placeholders unless the chat is named; a rename makes the title manual; every other update leaves the name and merges the state it carries |
| ChatTitles.SettledStays | local_agent_chat/chainlit_data.py:131-243 | a manual or generated name outlives any run of automatic steps, also of those that carry a settled title state |
| ChatTitles.SafeIffSettled | local_agent_chat/chainlit_data.py:131-243 | and only such a name does |
| ChatTitles.LatestRename | local_agent_chat/chainlit_data.py:231-236 | the name is that of the latest manual rename, whatever automatic steps follow it |
| ChatTitles.LateCompletion | local_agent_chat/chainlit_data.py:154-169 | completions come too late exactly when the chat is named: then no run of them, mixed with initial names and other metadata, changes the name or its state, and otherwise some run does |
| ChatTitles.FirstCompletionWins | local_agent_chat/chainlit_data.py:154-169 | of all the completions one attempt leads to, only the first is applied |
| ChatTitles.CarriedState | local_agent_chat/chainlit_data.py:237-243 | a step that carries the title state keeps a settled name safe exactly if it writes a settled state |
| ChatTitles.StaleMetadataLosesRename | local_agent_chat/chainlit_data.py:237-243 | metadata written back from before a rename loses the rename |

## Left out

- Runtime.ChatRuntime.RunTurn: failures inside the compensation itself; `RestoreState` says what they leave, but the transactions assume that there are none.
- Runtime.ChatRuntime.Submit: the locks and deletion checks around it, which Deletion models, and chat bindings, whose checks only refuse.
- Runtime.ChatRuntime.UploadFile: attachments of a new message stay when the turn that follows fails, as in the code; they are recorded as pending changes.
- DataLayer.SQLiteChainlitDataLayer.Restore: archives of the first version (steps only, INSERT OR REPLACE) and an archive without its root row, which staging never writes.
- DataLayer.SQLiteChainlitDataLayer.Commit: a cancellation that lands between a successful COMMIT and its return; blobs that another root's abandoned archive still names may be deleted (the contract of Restore says what that means for it).
- DataLayer.SQLiteChainlitDataLayer.UpdateStep: the metadata update of the thread that precedes it, and the step lock.
- App.LocalChat.OnEditMessage: publishing the timeline afterwards, toasts, and the wait for staging, which polls in the code and is one check here.
- App.LocalChat.HandleRevision: the branch for new messages, whose UI writes are not transactional; its runtime part is Runtime.ChatRuntime.Submit.
- App.LocalChat.WriteSteps: elements and feedback, which the turn view does not write; ChainlitData.EditThenRestore covers them.
- SandboxFiles.SandboxFiles.Upload: names with directories, which the code reduces to their last part, and nested trees, which uploads never create.
- SandboxFiles.SandboxFiles.RestoreSnapshot: symbolic links, copying metadata and crash durability.
- History.SQLiteHistory.RestoreSnapshot: the physical order of rows, which no query relies on.
- Persistence.PendingWrites.Drain: a cancellation that arrives while it waits.
- StorageGate.RunIsSafe: direct cancellation of the inner SQL task, journal modes and several processes.
- RequestGuard.SingleRequest: the wrapped handlers themselves, which are Chainlit's; the model says what it relies on (Polite).
- Deletion.DeletionIsFinal: title tasks, the thread row, and a cleanup that fails half way, which leaves the chat marked as being deleted.
- ContextSummary.CreateSummary: serializing the messages to JSON and the retries around each model call.
- ContextSummary.CompactedIsAdmitted: which messages SummarizationMiddleware keeps, assumed to be at most keep_tokens of them.
- Retries.Stream: the time limits themselves, which appear as stalls, and rounding in the delay.
- SandboxReader.Read: rendering the page as one string and the cut of oversized tool results.
- Traversal.Entries: the final sort, and paths as strings.
- ToolLogs.RoundTrip: tilde fences, containers and other block types of CommonMark.
- ChatTitles.Thread.UpdateThread: the base class, assumed to merge metadata key by key, and user and tag columns.
- LangGraph and LangChain internals.
- Schema migration, WAL headers, settings parsing, authentication, rendering and other UI plumbing.
- search, grep and glob, which filter what SandboxReader and Traversal produce.
