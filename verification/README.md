# LogicMap: a model in Dafny

LogicMap indexes the functions and calls of source repositories, keeps that index up to
date run by run, and answers questions from it: who is affected by a change, and how a
piece of code works. This project models five parts of it and proves what they promise to
each other.

1. **The index.** The tables are state; a full or an incremental run is a sequence of store
   writes and may stop before any of them (`IndexTables`, `Parsing`, `Snapshots`,
   `IndexRuns`, `Indexer`). `IndexSoundness` proves what every history of runs keeps;
   `IndexAgreement` compares the functions of an index kept incrementally with a rebuild
   from scratch. `FunctionHistories`, `EdgeAgreement` and `EdgeHistories` say exactly which
   functions and edges there are after a run and after a history, each run stopping
   anywhere; `StoredFunctions` says the same row by row in terms of what the parser and the
   embedder gave, `CallTraces` what each call leaves behind, and `StaleExamples` builds
   histories in which index and rebuild part.
2. **The impact query.** The recursive query is evaluated with a working table and proved
   equal to a definition by call walks (`CallerQuery`, `Impact`). `StaleImpact` composes it
   with part 1: what the query says on an index kept incrementally.
3. **Tasks and queue.** The check, the task and the message of a trigger, workers, lost
   messages and a clock are the steps of one system, and overlapping triggers take them in
   any order (`Tasks`, `TaskDelivery`); `TaskService` is the store, the service and the worker
   as a class over the same state. `Readiness` ties the tasks to parts 2 and 5: which
   repositories may be asked.
4. **The agent and the stream decoders.** `Agent` proves the message protocol, the endings
   and the lossy event channel; `SseFraming`, `OpenAiStream`, `OpenAiChunks`,
   `OpenAiCalls`, `AnthropicStream` and `OllamaStream` prove what the three decoders emit for
   every stream.
5. **Batches and replay.** `BatchEmbedding` is the concurrent embedding of texts as
   interleaved steps, `EmbeddingOrder` the reordering of a response, and `QueryReplay`
   compares an answer replayed from the cache with the live answer it came from.

Operations the program performs by changing state are methods of a class or methods with
loops, each proved equal to a function (or a predicate) that the lemmas then speak about.
`Text`, `Sorting` and `Vectors` hold the string and sorting functions of Go and the vector
type that the rest needs.

## What turned out not to hold

Each of these is a property a reader might expect, with the lemma that gives its exact
condition or the failing run.

- A run can complete exactly if no processed file has two functions of one name, an
  embedding that is not 1536 long (an empty slot included), or a NUL in a name, a source or a
  called name (`EdgeAgreement.StorableIff`, `StaleExamples.CompletesIff`); one such file
  blocks the run.
- A run loses the edges from files it leaves alone into files it processes: the cascade
  deletes them and nobody resolves the caller again. `EdgeAgreement.EdgeAfterRunIff` and
  `EdgeAgreement.EdgesCompleteIff` give the exact edges from the state before the run, and
  `EdgeHistories.EdgeIffStoredNoEarlier` over every history: an edge is there exactly when
  the caller's file was last stored no earlier than the callee's, by a run that went on to
  resolve its calls (with names that are not unique: and that had the callee listed first,
  `EdgeHistories.EdgeIffListedFirst`). `StaleExamples.StrictlyLess` is a history of complete runs in which the
  impact query therefore misses a caller.
- After a failed run the functions need not agree with a rebuild, nor after the next complete
  run. `FunctionHistories.RowsByHistory` gives what is stored after every history, and
  `FunctionHistories.RunBringsAgreementIff` and `FunctionHistories.HealsIff` exactly when a
  later run brings agreement: a failed incremental run is healed by the next one if no file
  changed in between (`FunctionHistories.NextIncrementalHeals`); a full run that fails after
  its delete keeps the old snapshot, so that an incremental run on unchanged files leaves the
  repository empty (`IndexAgreement.FailedRebuildLosesFunctions`,
  `StaleExamples.LossIsReachable`); one that fails after storing its functions leaves them
  without edges (`EdgeAgreement.FailedRebuildLosesEdges`).
- The snapshot gives back modification times only if they fit a signed 64-bit count of
  nanoseconds (`Snapshots.SnapshotRoundTrip`).
- A parse failure is counted under its file only if the path has no ": " in it
  (`Parsing.RecoveredPath`).
- A repository can have two fresh active tasks: nothing serialises the check of a trigger and
  the creation of its task (`Tasks.OverlappingTriggersClash`). It has at most one throughout a
  run exactly when no task is created while its repository is busy
  (`Tasks.OneFreshIffNoClash`), as when triggers take turns (`Tasks.SerialisedNeverClash`).
- "indexing" and "a trigger is refused" differ exactly when a finished task is as new as any
  while the repository is busy (`Tasks.IndexingIffNoFinishedOnTop`); without clashes, when two
  tasks share a creation time (`Tasks.IndexingIffRefused`, `Tasks.TieIsReachable`).
- Not every accepted trigger gets run. A pending task can still be started exactly when it
  is not lost (`TaskDelivery.LostIffNeverStarts`): lost are tasks whose message did not reach the
  stream, reached it before the first worker had started, or was read by a worker that died
  or could not use it. The auto-claim loop does not bring the last kind back, it takes the
  messages over and ignores them. A lost task refuses every trigger until it is stale
  (`TaskDelivery.LostTaskBlocks`, `TaskDelivery.TriggerLosesTaskIff`).
- `BatchEmbed` can return empty slots without an error, when the last `select` picks the
  done channel (`BatchEmbedding.AllFilledIff`, `BatchEmbedding.EmptySlotsWithoutError`).
- The OpenAI decoder can send a call twice, and it can lose one: a call whose fragments no
  `tool_calls` finish follows is assembled and never sent, since neither the end marker nor
  the end of the stream sends it (`OpenAiCalls.UnfinishedCallIsLost`,
  `OpenAiCalls.SecondFlushRepeats`). Every call is sent exactly once if and only if at most one
  `tool_calls` finish comes after a fragment and one comes after a fragment of each index
  (`OpenAiCalls.StreamSendsOnceIff`, which also says when it is sent with all its fragments).
- The Ollama decoder merges calls of different chunks (`OllamaStream.CallsKeptIff`).
- A replayed answer differs from the live one when an error has an empty text
  (`QueryReplay.ReplayReadsTheSameIff`).

Where the documents and the code differ, the model follows the code:

- docs/plans/2026-04-02-001-feat-logicmap-core-service-plan.md:312 leaves stale tasks out of
  the derived status; the code looks at the latest task only, so a stale latest task gives
  "registered" even when an earlier one completed (internal/repo/store.go:381-402).
- The same plan, line 105, has an incremental run upsert the functions of changed files
  and a full run delete the tasks as well; the code deletes and inserts functions and
  leaves tasks alone (internal/indexer/indexer.go:171-181, 83).

## Model

| member | source | states |
|---|---|---|
| Snapshots.EntryRoundTrip | internal/indexer/indexer.go:455 | an encoded entry decodes to its own path, "\|" in it or not, and to its time truncated to 64 bits |
| Snapshots.EncodeFileSnapshots | internal/indexer/indexer.go:452-459 | the encoding loop yields the sorted entries that the round-trip lemmas speak about |
| Snapshots.DecodeSnapshotEntries | internal/indexer/indexer.go:461-480 | the decoding loop yields the map that the round-trip lemmas speak about, unreadable entries under their whole text with the zero time |
| Snapshots.DecodedFile | internal/indexer/indexer.go:452-480 | every scanned file comes back from the snapshot, in spite of the sort, with its truncated time |
| Snapshots.SnapshotRoundTrip | internal/indexer/indexer.go:452-480 | decoding the encoded scan gives the scan's own path-to-mtime map if and only if every time fits a signed 64-bit nanosecond count |
| Snapshots.UnreadableEntry | internal/indexer/indexer.go:464-474 | an unreadable entry stands for its whole text and is no entry of any path with a representable time |
| Text.PrintIntRoundTrip | internal/indexer/indexer.go:470 | every 64-bit integer survives printing and parsing, and its digits hold no separator |
| Text.DecimalNotation | internal/indexer/indexer.go:455-470 | the notation is decimal with a sign, and other text is no integer |
| Text.TrimSpaceIs | internal/llm/openai.go:155-156 | trimming takes white space off both ends and nothing else |
| IndexTables.IndexStore.BulkInsertFunctions | internal/indexer/store.go:48-77 | all rows are stored or none; a violated unique key, a vector that is not 1536 long or a text with NUL stores none |
| IndexTables.IndexStore.BulkInsertCallEdges | internal/indexer/store.go:79-103 | all edges are stored with the conflict rule or none; an edge to a missing function stores none |
| IndexTables.InsertedCallEdges | internal/indexer/store.go:86-91 | the conflict rule makes the table a set of pairs: exactly the inserted pairs are gained, and an older edge keeps its repository |
| IndexTables.IndexStore.BulkInsertUnresolvedEdges | internal/indexer/store.go:105-128 | each unresolved row is stored on its own, or none is; a missing caller or a name with NUL stores none |
| IndexTables.IndexStore.GetFunctionMap | internal/indexer/store.go:130-162 | the answer lists each function of the repository exactly once, under its name, in an order the query leaves open |
| IndexTables.IndexStore.DeleteFunctionsByRepo | internal/indexer/store.go:164-170 | deletes the repository's functions with every edge at either end and every unresolved row of a deleted caller, and nothing else |
| IndexTables.IndexStore.DeleteFunctionsByFiles | internal/indexer/store.go:172-186 | the same for the functions of the given files; no paths, no change |
| IndexTables.IndexStore.UpdateRepoIndexedFiles | internal/indexer/store.go:244-260 | replaces the snapshot of one known repository, and no row of an unknown one |
| IndexTables.IndexStore.UpdateTaskStatus | internal/indexer/store.go:188-226 | changes the status of an existing task only |
| Parsing.FindEnclosingFunction | internal/indexer/parser.go:189-207 | the found function encloses the line, none that encloses it is shorter, and of equally short ones it is the first listed |
| Parsing.AttributeCalls | internal/indexer/parser.go:137-173 | the raw calls are, in order, exactly the attributable call sites, each under its innermost function |
| Parsing.AttributionUnique | internal/indexer/parser.go:137-173 | that description leaves only one possible list of raw calls |
| Parsing.RecoveredPath | internal/indexer/indexer.go:388-394 | the path read back from an error text is the failing path if and only if it is not empty and holds no ": " |
| Parsing.RunParsers | internal/indexer/indexer.go:345-380 | whatever the order in which workers finish, every launched file sends exactly one message, plus one for a cancelled launch, and no send finds the channel full |
| Parsing.CollectedAnyOrder | internal/indexer/indexer.go:386-400 | what is collected depends only on which messages arrived, not on their order |
| Parsing.ParseFiles | internal/indexer/indexer.go:339-407 | for every concurrency and interleaving the parsed files are those of the launched files in path order, and failures are counted exactly once |
| Parsing.EveryFileOnce | internal/indexer/indexer.go:345-400 | parsed, failed and unsupported files add up to the files given |
| Indexer.FileScopedKeyInjective | internal/indexer/indexer.go:482-484 | for paths without NUL the key determines both the file and the function name |
| Indexer.Indexer.ProcessFiles | internal/indexer/indexer.go:229-337 | wherever it stops, the index is at a stage of the run; run to its end it has stored functions, edges and unresolved rows of exactly the files parsed and embedded (which rows: `StoredFunctions.ProcessedFileIsStored`), and counted the others |
| Indexer.Indexer.Resolve | internal/indexer/indexer.go:287-327 | the two nested loops produce the edges and unresolved rows of every call of every file, under callers found by the scoped key |
| Indexer.Indexer.StoreEdges | internal/indexer/indexer.go:287-336 | the writes after the functions leave the index at the stage of the last one that succeeded |
| Indexer.Indexer.RunFullIndex | internal/indexer/indexer.go:61-121 | whatever fails, the index is left at one of the run's six stages; success means the last, and the task's status says whether more than a fifth of the files failed |
| Indexer.Indexer.RunIncrementalIndex | internal/indexer/indexer.go:123-204 | the same for an incremental run, counting changed and deleted files |
| Indexer.Indexer.Diff | internal/indexer/indexer.go:146-175 | the changed files are the new and the differently stamped ones, and the paths to delete those plus the vanished ones |
| Indexer.FinalStatusIff | internal/indexer/indexer.go:111-114 | a run that ends is "partial" if and only if more than a fifth of its files errored, and else "completed" |
| Indexer.ErroredIff | internal/indexer/indexer.go:251-256 | as long as no path has ": " in it, a file counts as errored if and only if it failed to parse, or was parsed and failed to embed |
| IndexSoundness.RunKeepsSound | internal/indexer/indexer.go:229-337 | one run, stopped anywhere, keeps unique keys and keeps every edge and unresolved row justified by a call in the file its caller was last stored from |
| IndexSoundness.EdgesNeverDangle | internal/indexer/indexer.go:289-334 | the ends of the edges a run inserts are stored, so the foreign keys never reject a run |
| IndexSoundness.SoundAlways | internal/indexer/indexer.go:61-204 | soundness holds after every history of runs on any repositories, each stopped anywhere |
| IndexSoundness.OriginIsLastStored | internal/indexer/indexer.go:245-280 | the recorded origin of a file is what the last run that stored it parsed, read off the history alone |
| IndexSoundness.EveryEdgeJustified | internal/indexer/indexer.go:276-334 | in every reachable state an edge joins two stored functions of one repository, and the caller's file as last stored calls the callee's name inside the caller |
| IndexSoundness.ForeignKeysAlways | internal/db/migrations/001_init.sql:28-59 | in every reachable state no edge or unresolved row dangles and the unique key holds |
| StoredFunctions.ProcessedFileIsStored | internal/indexer/indexer.go:245-280 | after a run that stored its functions, wherever it stopped then, the rows of a processed file are exactly its functions, each with the vector in the same place; none of a file that failed |
| StoredFunctions.EachFunctionHasItsVector | internal/indexer/indexer.go:258-271 | function i of a processed file is stored with vector i |
| StoredFunctions.EveryRowFromItsParse | internal/indexer/indexer.go:245-280 | after every history, each run stopping anywhere, a stored row is one of the functions, with its own vector, that the last run that dropped its file made of that file |
| StoredFunctions.CallsAreParsed | internal/indexer/indexer.go:289-296 | a run resolves exactly the calls of the processed files that were parsed and embedded |
| StoredFunctions.EveryEdgeFromAParse | internal/indexer/indexer.go:289-325 | after every history there is behind each edge a run that parsed the caller's file with that caller, its vector, and a call in it of the callee's name |
| IndexAgreement.RunRows | internal/indexer/indexer.go:146-192 | after a run a processed file holds its new outcome, a deleted path nothing, any other path and any other repository what it held |
| IndexAgreement.FullRunAgrees | internal/indexer/indexer.go:83-109 | a full run stores exactly the functions of its scan, whatever was stored before |
| IndexAgreement.IncrementalRunAgreesIff | internal/indexer/indexer.go:146-192 | an incremental run ends in agreement with a rebuild if and only if every path it leaves alone already agreed |
| IndexAgreement.InStepAlways | internal/indexer/indexer.go:146-192 | after any history of complete runs the functions stored are those of the snapshot's paths and times |
| IndexAgreement.RebuildChangesNothing | internal/indexer/indexer.go:61-204 | after any such history, with failing runs on other repositories in between, rebuilding the same files stores exactly the functions already stored, ids aside |
| IndexAgreement.FailedRebuildLosesFunctions | internal/indexer/indexer.go:83-98 | a full run stopped after its delete and a complete incremental run on unchanged files leave the repository without functions |
| FunctionHistories.RowsByHistory | internal/indexer/indexer.go:61-204 | after every history, each run stopping anywhere, a path holds what the last run that dropped it left there: its file's outcome if functions were stored and the file was found, and else nothing |
| FunctionHistories.AgreesIff | internal/indexer/indexer.go:61-204 | an index agrees with a rebuild of some files if and only if, path by path, what was last left is what the rebuild gives |
| FunctionHistories.RunBringsAgreementIff | internal/indexer/indexer.go:146-192 | after any history a run brings agreement with its own files if and only if each path it leaves alone was last left with what its file gives now |
| FunctionHistories.HealsIff | internal/indexer/indexer.go:94-109 | a failed run is healed by a later one if and only if each path the failed run dropped and the later leaves alone was left with what its file gives now |
| FunctionHistories.NextIncrementalHeals | internal/indexer/indexer.go:177-192 | a failed incremental run is healed by the next run if no file changed in between |
| EdgeAgreement.StorableIff | internal/db/migrations/001_init.sql:28-38 | the database admits a run's functions if and only if no processed file that was parsed and embedded has two functions of one name, a vector that does not fit, or a NUL in a name or source |
| EdgeAgreement.WillCallIff | internal/indexer/indexer.go:146-192 | which calls between stored functions a run leaves, read off the index and the files before it |
| EdgeAgreement.UniqueNamesIff | internal/indexer/indexer.go:282-296 | whether function names are unique after a run, read off the index and the files before it |
| EdgeAgreement.FullRunCompletesEdges | internal/indexer/indexer.go:282-331 | with unique names, after a full run every call between stored functions has its edge |
| EdgeAgreement.EdgeAfterRun | internal/indexer/indexer.go:171-184 | edge by edge, wherever the run stops: out of a processed file an edge is there exactly when calls were resolved, the call is there and its callee was listed first under its name; any other exactly when it was there and neither end was dropped |
| EdgeAgreement.EdgeAfterRunIff | internal/indexer/indexer.go:171-184 | with unique names the callee is always listed first, so the condition is read off the state before the run |
| EdgeAgreement.CrossingCallsLoseEdges | internal/indexer/indexer.go:171-184 | a call from a file left alone into a processed file has no edge after the incremental run |
| EdgeAgreement.EdgesCompleteIff | internal/indexer/indexer.go:171-184 | a run with unique names ends with an edge for every call if and only if no call crosses from a file left alone into a processed one and every call between files left alone had its edge |
| EdgeAgreement.FailedRebuildLosesEdges | internal/indexer/indexer.go:94-98 | a full run stopped once its functions are stored and a complete incremental run on the old files leave all functions and none of their edges |
| EdgeHistories.EdgeIffListedFirst | internal/indexer/indexer.go:61-204 | over every history, each run stopping anywhere, whatever the names: an edge is there if and only if the call is, the caller's file was last stored no earlier than the callee's, and that run resolved its calls with the callee listed first |
| EdgeHistories.EdgeIffStoredNoEarlier | internal/indexer/indexer.go:61-204 | with unique names whenever calls are resolved, being listed first is implied |
| EdgeHistories.OtherRunKeepsEdges | internal/indexer/indexer.go:61-204 | a run on another repository, wherever it stops, changes no call and no edge of this one |
| EdgeHistories.StaleEdgesSurviveRebuild | internal/indexer/indexer.go:61-204 | with unique names after the rebuild every edge found after any history of complete runs is found after it |
| EdgeHistories.StaleEdgesExactly | internal/indexer/indexer.go:61-204 | with unique names throughout, the edges found are exactly those rebuilt edges whose caller's file was last stored no earlier than the callee's |
| CallTraces.EveryCallLeavesTraces | internal/indexer/indexer.go:296-325 | a call with a known caller leaves in the tables an unresolved row, an edge, or both, as no, one or several functions of the repository have its name |
| CallTraces.CallsConserved | internal/indexer/indexer.go:289-327 | repeated calls are counted again: as many unresolved rows as calls without a single candidate, and as many edges as calls with one |
| CallTraces.UnresolvedAfterRun | internal/indexer/indexer.go:329-334 | the unresolved rows are conserved as a multiset: the table holds every row as often as before and once more for each call that leaves it, a call without candidates or, in the ambiguous form, with several |
| CallTraces.EveryTraceHasCall | internal/indexer/indexer.go:296-325 | conversely a row that the table holds more often than before, and an edge that was not there, come from a call of that caller to a name with that many functions |
| CallTraces.DeletesTake | internal/db/migrations/001_init.sql:43-59 | the deletes of a run take exactly the functions of the files it drops, every edge at either end of one and every unresolved row of one, and leave all other rows as they were |
| CallerQuery.IterateCallers | internal/impact/store.go:34-47 | the iteration ends on every graph, and holds (f, d) if and only if a call walk of length d within the bound leads from f to a seed |
| CallerQuery.NoLongerWalks | internal/impact/store.go:42-46 | a depth that no walk reaches ends the search: there is no longer walk either |
| CallerQuery.GetCallersByDepth | internal/impact/store.go:26-73 | the answer is ordered, lists nothing twice, and lists exactly each name and file with its longest walk within the bound |
| Impact.NormalizeStrings | internal/impact/service.go:204-219 | the trimmed non-empty names, each once, in order of first appearance |
| Impact.Analyze | internal/impact/service.go:56-107 | refused unless indexed or partial; otherwise callers are exactly the longest walks of positive length to a changed name, and files exactly their files |
| Impact.ListedIffReaches | internal/impact/service.go:82-98 | a function is among the callers if and only if some walk of 1 to bound calls leads from it to a changed function |
| Impact.GetFunctionsByFilePaths | internal/impact/store.go:76-106 | the names of the functions stored for the given files, ordered, each once |
| StaleImpact.WalksStayInRepo | internal/impact/store.go:42-46 | no walk leaves the repository of its seed although the recursive term does not filter by it |
| StaleImpact.RowsAreFunctions | internal/impact/store.go:48-51 | in every reachable state a row stands for exactly one stored function of the repository, and no function has two rows |
| StaleImpact.ReachMonotone | internal/impact/store.go:34-47 | a sound index with more functions and edges reaches at least as much, depth by depth |
| StaleImpact.StaleReachesLess | internal/impact/store.go:34-47 | with unique names every function and depth found after any history of complete runs is found after a rebuild of the same files |
| StaleImpact.StaleAnswersReportLess | internal/impact/store.go:26-73 | so a stale answer lists no function the rebuilt index would not, and never at a greater depth |
| StaleExamples.CompletesIff | internal/indexer/indexer.go:229-337 | from every sound index a run can complete if and only if each file it parses and embeds can be stored: distinct names, no empty slot, vectors that fit, and no NUL in its functions or the names they call |
| StaleExamples.StrictlyLess | internal/indexer/indexer.go:171-184 | a history of complete runs exists, meeting all that the comparison above supposes, after which the stale answer misses a caller that the rebuilt one reports |
| StaleExamples.LossIsReachable | internal/indexer/indexer.go:83-98 | a history exists in which a failed full run and a complete incremental run on the same files lose functions that were stored |
| Tasks.InvAlways | internal/repo/service.go:56-79 | over every run of checks, creates, enqueues, reads, starts, finishes and losses, overlapping triggers included, tasks are numbered in order of creation and messages and calls under way match task statuses |
| Tasks.OneFreshIffNoClash | internal/repo/service.go:61-72 | at most one fresh pending or running task exists per repository throughout a run if and only if no call creates its task while its repository is busy |
| Tasks.SerialisedNeverClash | internal/repo/service.go:61-72 | no such clash happens in a run in which no check of a repository falls between another trigger's check and create |
| Tasks.OverlappingTriggersClash | internal/repo/service.go:61-72 | two overlapping triggers, both checked before either creates, leave two fresh tasks |
| Tasks.OneFreshActive | internal/repo/store.go:241-272 | in a run without a clash the fresh active task of a repository is its only one, and a latest one |
| Tasks.ActiveTaskIffBusy | internal/repo/store.go:254-271 | whichever latest active task the query returns, it is fresh if and only if a trigger is to be refused |
| Tasks.IndexingIffNoFinishedOnTop | internal/repo/store.go:381-402 | on every board the derived status is "indexing" exactly when a trigger would be refused, if and only if no finished task is a latest one while the repository is busy |
| Tasks.IndexingIffRefused | internal/repo/store.go:381-402 | in a run without a clash they agree if and only if no other task shares the creation time of the fresh active one |
| Tasks.TieIsReachable | internal/repo/store.go:109-115 | two creation times can tie even when triggers take turns |
| Tasks.StatusTells | internal/repo/store.go:381-402 | each of the five status texts is derived from exactly one kind of task: Completed, Partial, Failed, active and fresh, active and stale |
| Tasks.FinishDecidesStatus | internal/repo/store.go:381-402 | when the one latest task of a repository finishes it stays the one latest, and the status tells how it finished |
| TaskDelivery.StartedAtMostOnce | internal/indexer/worker.go:57-103 | over every run no task is started twice |
| TaskDelivery.LostTaskBlocks | internal/indexer/worker.go:152-168 | a pending task whose message is gone stays pending for good and refuses triggers until it is stale |
| TaskDelivery.TriggerLosesTaskIff | internal/repo/service.go:69-76 | a trigger leaves such a task if and only if its message is not written, or is written before a first worker created the group |
| TaskDelivery.LostIffNeverStarts | internal/indexer/worker.go:57-103 | a pending task has lost its message if and only if no run of the system ever starts it |
| TaskDelivery.TriggersCanStart | internal/indexer/worker.go:119-126 | a trigger of either type for a known repository that is not busy can lead to a running task of that repository and type |
| TaskDelivery.MessagesTrueAlways | internal/repo/service.go:69-76 | over every run each message, and each call under way, is for the repository and of the type of its task |
| TaskDelivery.TasksKeepIdentity | internal/repo/store.go:225-238 | no run of steps changes what repository a task is for, or its type |
| TaskService.RepoStore.GetRepo | internal/repo/store.go:97-158 | no answer if and only if there is no such repository; "registered" without tasks; else the status tells of a latest task: "indexed", "partial" or "failed" exactly as it is Completed, Partial or Failed, "indexing" exactly if it is active and fresh, "registered" exactly if it is active and stale |
| TaskService.RepoStore.GetActiveTask | internal/repo/store.go:241-272 | answers with a fresh active task if and only if there is one |
| TaskService.RepoStore.TriggerIndex | internal/repo/service.go:56-79 | one call undisturbed: refused without a step when the repository is busy or unknown, and else its check, task and message in turn, as far as they succeed; an error may come back although the message was written |
| TaskService.RepoStore.CreateTask | internal/repo/store.go:225-238 | adds one pending task under a new id |
| TaskService.RepoStore.EnqueueIndexJob | internal/repo/store.go:303-320 | appends the message of the task to the stream, or nothing if the write fails |
| TaskService.RepoStore.StartWorker | internal/indexer/worker.go:65-67 | the group is created once, after all that the stream holds by then |
| TaskService.RepoStore.ReadMessages | internal/indexer/worker.go:76-82 | at most the asked number of new messages is handed out, in order, and some if there are any |
| TaskService.RepoStore.ProcessMessage | internal/indexer/worker.go:96-127 | what a worker does with a message is a run of the step system that leaves the message neither held nor started; a full index runs only for a message of type "full", an incremental one only for "incremental", and nothing exactly if the message is dropped |
| Readiness.ReadyIff | internal/impact/service.go:61-63 | a status text that tells of a task lets the impact analysis proceed if and only if that task ended Completed or Partial |
| Readiness.NeverReadyUntouched | internal/impact/service.go:61-63 | without a task a repository is not ready |
| Readiness.AnsweredIff | internal/query/service.go:56-58 | a question whose reads succeed is answered if and only if the latest task ended Completed or Partial, and otherwise refused with the status |
| Readiness.FinishMakesReadyIff | internal/impact/service.go:61-63 | when the one latest task of a repository finishes, the repository is ready if and only if it did not fail |
| BatchEmbedding.BatchesPartition | internal/embedding/batch.go:33-36 | the batches are disjoint ranges of at most 100 that cover the texts |
| BatchEmbedding.ConcurrencyBounded | internal/embedding/batch.go:27-50 | in every interleaving no more batches are in flight than the limit |
| BatchEmbedding.ResultsInOrder | internal/embedding/batch.go:72-88 | a returned result holds in slot i the vector its batch's call gave for text i, and nothing for texts of failed batches |
| BatchEmbedding.AnswersAreSteps | internal/embedding/batch.go:52-75 | what is recorded for a batch is what its call answered in some step of the run |
| BatchEmbedding.SlotsHoldAnswers | internal/embedding/batch.go:72-88 | so a filled slot i of a returned result holds the vector that some step of the run answered for text i of its batch |
| BatchEmbedding.AllFilledIff | internal/embedding/batch.go:84-88 | a result without an error has every slot filled if and only if no batch failed |
| BatchEmbedding.FirstFailureReturned | internal/embedding/batch.go:38-60 | unless the caller cancels, the error returned is the first one reported and a batch's own failure, never a knock-on cancellation |
| BatchEmbedding.ErrorIsFirstFailure | internal/embedding/batch.go:38-60 | unless the caller cancels, the batch named by the error did fail in a step of the run, and its report is the first report of the run |
| BatchEmbedding.EmptySlotsWithoutError | internal/embedding/batch.go:84-88 | a run that returns empty slots without an error exists |
| BatchEmbedding.RunsEnd | internal/embedding/batch.go:16-97 | every step uses up a measure, so every run is finite, and before the return some step of the system is always possible |
| EmbeddingOrder.SortedIndices | internal/embedding/openai.go:96-104 | sorted, the indices read 0, 1, 2, … if and only if each index occurs exactly once |
| EmbeddingOrder.Reorder | internal/embedding/openai.go:92-111 | a response is accepted if and only if its indices are a permutation of the texts' and all dimensions fit, and then each vector lies at its own index |
| Agent.Run | internal/agent/agent.go:35-130 | every request is the question and the completed turns; the events are the texts of those turns and one ending; at most 20 requests and 19 tool calls are made, and no submission is executed as a tool |
| Agent.HandleCalls | internal/agent/agent.go:101-125 | each result is the answer of the tool its call names, for the function name or, in a similarity search, the query, and for the repository the call gives or else the run's; the first call that gives none decides the verdict: the limit, a submission with its chain, or a refusal saying the unknown tool, the missing argument or the tool's own failure |
| Agent.ExecutedMeans | internal/agent/agent.go:158-209 | executing a call gives the answer of the tool it names for its argument and repository, or the error that says what is missing or failed |
| Agent.DispatchMeans | internal/agent/agent.go:101-125 | for every turn the results and the verdict are those described for HandleCalls |
| Agent.TurnOfParts | internal/agent/agent.go:72-93 | text, calls and events of a turn are put together from its parts, in order |
| Agent.TurnOfOne | internal/agent/agent.go:78-90 | a chunk is its own text, and an event unless it is empty; a call is itself; no other event is either |
| Agent.HeardUpToError | internal/agent/agent.go:75-88 | a turn is heard up to its first error, and that error is the one reported |
| Agent.BlockSays | internal/agent/agent.go:99-124 | a completed turn adds the assistant's text and calls, and under each call's id its own result |
| Agent.EndingMeans | internal/agent/agent.go:54-139 | how a run ends, cause by cause: a timeout, a cancellation, a failing model call or stream, no calls, or what the first call without a result decides; and the texts of the last turn |
| Agent.RequestsWellFormed | internal/agent/agent.go:99-124 | a provider checking calls against results, in order and by id, accepts every message list the agent sends |
| Agent.EventsWellFormed | internal/agent/agent.go:40-139 | the attempted events are texts and then exactly one ending; any reader sees a subsequence with nothing after a terminal event |
| Agent.SeenIsSubsequence | internal/agent/agent.go:40-47 | whatever the pace of the reader, what it sees is a subsequence of the attempted events |
| Agent.NothingDroppedIff | internal/agent/agent.go:36-47 | every reader sees all events if and only if there are at most 32 |
| SseFraming.ScanFrames | internal/llm/openai.go:127-165 | the line loop's buffer and dispatches follow the block definition of an event stream, line by line |
| SseFraming.PayloadIs | internal/llm/openai.go:152-159 | only a data line carries a payload, what follows "data:", trimmed |
| SseFraming.ScanData | internal/llm/openai.go:133-164 | after any lines a data line adds to the buffer on a line of its own and dispatches nothing |
| SseFraming.TwoDataLines | internal/llm/openai.go:133-164 | for any two data lines: one event joined by a line break, two when a blank line parts them, none when none ends the block |
| OpenAiStream.ReadStream | internal/llm/openai.go:79-175 | the reading loop is framing, decoding and closing composed, whatever line ends it (what that says: `OpenAiChunks`) |
| OpenAiStream.FlushToolCalls | internal/llm/openai.go:102-125 | the loop over the collected indices emits in increasing index order up to the first input that does not parse |
| OpenAiChunks.TextsArrive | internal/llm/openai.go:224-229 | for every stream the texts the reader sends are, in order, the non-empty contents of the choices of the chunks before the end: a beginning of them if a call's input does not parse, else all |
| OpenAiChunks.ItemsAreSaid | internal/llm/openai.go:224-254 | unless a call's input does not parse, what the calls are made from is, choice by choice, the choice's text if it has one, its fragments in order and last, once, its finish |
| OpenAiChunks.DonesAre | internal/llm/openai.go:137-175 | a stream without errors sends one done for each choice that finishes its message, and one if none does |
| OpenAiChunks.ErrorsComeLast | internal/llm/openai.go:205-263 | an error is the last thing the decoder sends, and it is open only while it has sent none |
| OpenAiChunks.BadPayloadEnds | internal/llm/openai.go:205-210 | a payload that is no chunk, or an error of the server, adds that error to what was sent, and nothing else |
| OpenAiChunks.ReadErrorEnds | internal/llm/openai.go:166-169 | a failing read ends an open stream with its error and adds nothing to an ended one |
| OpenAiCalls.AssembledByIndex | internal/llm/openai.go:230-245 | what is assembled for an index is the concatenation of that index's fragments with their last id and name, however indices interleave and chunks are cut |
| OpenAiCalls.CallsEmitted | internal/llm/openai.go:246-253 | without an error the calls emitted are, for each tool_calls finish, all those assembled so far |
| OpenAiCalls.OneFlushEmitsOnce | internal/llm/openai.go:127-175 | when a stream without errors has a single tool_calls finish, the reader sends every call with a fragment before it exactly once, in increasing index order, with its assembled id, name and arguments |
| OpenAiCalls.SentOnceIff | internal/llm/openai.go:230-254 | before the end of the stream no index is sent twice if and only if at most one tool_calls finish has a fragment before it |
| OpenAiCalls.AllSentIff | internal/llm/openai.go:230-254 | every assembled index is sent exactly once if and only if, besides, a tool_calls finish comes after a fragment of it, and sent whole if and only if no later fragment adds to it |
| OpenAiCalls.StreamSendsOnceIff | internal/llm/openai.go:127-175 | the three conditions, for none twice, each exactly once and each whole, of all that the reader sends for a stream without errors, the end marker included |
| OpenAiCalls.UnfinishedCallIsLost | internal/llm/openai.go:137-175 | a call whose fragments another finish follows is assembled and not sent at the end of the stream |
| OpenAiCalls.SecondFlushRepeats | internal/llm/openai.go:246-253 | a second tool_calls finish emits all calls once more |
| AnthropicStream.ReadStream | internal/llm/anthropic.go:82-132 | the reading loop is framing and decoding composed, up to the first failure |
| AnthropicStream.BlockProjection | internal/llm/anthropic.go:82-214 | what the reader sends for a block is what the block's own events alone give, up to the error that ends the stream, if one does |
| AnthropicStream.BlockPrefix | internal/llm/anthropic.go:82-214 | an error only cuts that short: what is sent is a beginning of what all the block's events give |
| AnthropicStream.OneCallPerBlock | internal/llm/anthropic.go:165-201 | for every stream the reader sends exactly one call for each stop that finds a tool block of its index open, with the pieces since the block was begun; a repeated stop sends none |
| AnthropicStream.TextsAndDones | internal/llm/anthropic.go:165-213 | the reader sends, in order, the non-empty texts of the deltas and one done for each message_stop, up to the error that ends the stream, if one does |
| AnthropicStream.ErrorEnds | internal/llm/anthropic.go:165-213 | the stream is ended by the first event that fails, and what that event says is sent last |
| AnthropicStream.ReadErrorEnds | internal/llm/anthropic.go:129-131 | a failing read ends an open stream with its error and adds nothing to an ended one |
| OllamaStream.ReadStream | internal/llm/ollama.go:68-220 | the scan loop with its five ways out is the fold over its lines, closed once |
| OllamaStream.StreamEndsOnce | internal/llm/ollama.go:131-219 | every stream ends with exactly one done or error event and nothing after it |
| OllamaStream.CallsKeptIff | internal/llm/ollama.go:119-219 | in every stream that ends well, by a done chunk, a [DONE] line or its last line, as many calls are sent as its chunks carried if and only if at most one of them carried any |
| OllamaStream.TextsArrive | internal/llm/ollama.go:168-173 | the texts sent are, in order, the non-empty contents of the chunks the decoder looked at, whatever ends the stream |
| OllamaStream.CallsArrive | internal/llm/ollama.go:174-219 | in every stream that ends well the calls sent are, position by position, those that chunks carry there, each with its last id and name and all its arguments joined |
| OllamaStream.LineIs | internal/llm/ollama.go:124-130 | a line is read trimmed and without its "data:" prefix, if it has one |
| OllamaStream.BadLineEnds | internal/llm/ollama.go:159-166 | a line that is no chunk, or an error of the server, ends the stream with that error |
| OllamaStream.ReadErrorEnds | internal/llm/ollama.go:207-210 | a failing read ends an open stream with its error and adds nothing to an ended one |
| QueryReplay.ForwardAndCapture | internal/query/service.go:78-98 | the loop forwards the answer up to its first done or error and captures each forwarded event |
| QueryReplay.ForwardedEndsAtLast | internal/query/service.go:78-98 | what is forwarded is a beginning of the answer, ends with its first done or error, and is all of it if and only if that comes last |
| QueryReplay.WriteStream | internal/query/handler.go:63-86 | for every encoder that writes one line, a reader of the body gets the events up to the first error, one payload each: a text with its content, a chain with its chain, a message exactly if it is not empty, an error with its text, else its message, else "internal_error" |
| QueryReplay.PayloadsShow | internal/query/handler.go:63-79 | of every stream the payloads are those described for WriteStream |
| QueryReplay.AgentAnswerArrives | internal/query/handler.go:117-125 | every event of an agent's answer is written and says what it said, and the texts read are, in order, those the agent sent |
| QueryReplay.BodyRoundTrip | internal/query/handler.go:102-109 | a reader of the event-stream format gets back exactly the payloads written, one event each |
| QueryReplay.ReplayReadsTheSameIff | internal/query/service.go:78-122 | a replay renders to the payloads of the forwarded answer if and only if no forwarded error has an empty text |
| QueryReplay.AgentAnswersReplay | internal/agent/agent.go:40-139 | of an agent's answer nothing is cut off, and its replay reads the same if and only if it does not fail with an empty text |
| QueryReplay.CacheKeyInjective | internal/query/cache.go:31-34 | for repository ids that parse as UUIDs the key determines repository and question |
| QueryReplay.QueryService.Query | internal/query/service.go:45-103 | not found, not ready with its status, or failed, each exactly when the id, the status or a failing read says so; otherwise an answer, replayed on a hit; a capture to be written only for a live answer |
| QueryReplay.QueryService.CacheSet | internal/query/cache.go:58-71 | the later write stores a capture that is not empty, or nothing |
| QueryReplay.WrittenAnswersHit | internal/query/service.go:88-102 | once the capture of a live answer is written the same question is a hit, and is answered with that capture |
| QueryReplay.HitsRepeatLiveAnswers | internal/query/service.go:62-103 | after any run of the service, with overlapping questions and captures written at any later time, a hit repeats an earlier live answer to the same question about the same repository, and reads the same under the condition above |

## Left out

- Tree-sitter grammars and node extraction: the parser is an arbitrary function of path and
  modification time; kept is only that a function carries its file's path. The attribution
  of calls to functions is modelled.
- HTTP servers and clients, middleware, configuration, the webhook and its comments: wiring.
- PostgreSQL, Redis and their clients: kept are unique keys, the conflict rule, cascades,
  and that a statement or a batch takes effect as a whole or not at all. ORDER BY is taken
  in code-point order; a query without ORDER BY, or with ties, may answer in any order.
- Similarity search and the vector index: dropping and recreating it are only places where
  a full run can fail.
- Language-model summaries and prompts: a summary is "nothing found" or "described", the
  agent's first message is the question.
- JSON: decoding is an arbitrary function, encoding gives one line of text; text that is
  not UTF-8 is not modelled. SHA-256 is taken to be free of collisions.
- UUIDs of rows are drawn from a counter; the ids of call edges are not kept, their key is
  the pair of functions.
- Cancellation inside the stream decoders and inside the agent's model call; in index runs
  a cancelled context is a store call that fails.
- Vector padding, tool schema lists, request bodies: easy members.
- Cache lifetimes are an `Expired` step; nothing is claimed about answers that outlive an
  index. A client that goes away while an answer is written is not modelled.
- BatchEmbed for no texts (an empty result at once) and for limits below 1 (taken as 1).
- FindByOwnerRepo, UpsertRepo, GetTask and the conversion of task rows: single statements.
- The task table of `Tasks` and the statuses of `IndexStore` are separate states: the worker's
  steps do not carry the index along. Statistics and error texts of tasks are not kept.
- BatchEmbedding.RunsEnd: goroutines and channels are modelled as interleaved steps on a
  value, not as objects sharing memory.
- Indexer.Indexer.ProcessFiles: calls ParseFiles with concurrency 1, since its contract is
  the same for every concurrency; of BatchEmbed it keeps that it fails or gives one slot per
  function, where an empty slot is an empty vector that the database refuses.
- IndexTables.IndexStore.UpdateTaskStatus: error text, statistics and the times of a task are
  not kept, because no other operation reads them.
- Index runs that overlap: a history is a sequence of runs. `Tasks` allows two started tasks
  of one repository once the first is stale, or after a clash; what two such runs do to each other between
  their writes is not modelled.
- IndexSoundness.OriginIsLastStored: the origin map is a record for the proofs, not a table.
- EdgeHistories.StaleEdgesExactly: compares under unique function names, since otherwise the
  rebuild may list another candidate first, and covers runs that complete on the repository
  itself; runs on other repositories may stop anywhere.
- Indexer.FileScopedKeyInjective: paths hold no NUL, as the file systems guarantee.
