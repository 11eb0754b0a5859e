# Kura-AI chat and upload back end: a Dafny model

This project models the stateful core of the Kura-AI back end and proves what it promises.

* **Conversation tree.** A session is a tree of message rows linked by `parent` and `selected`
  (`Tree`, `TreeOps`, `TreeRuns`, `Records`). `Conversation.ChatSession` is the object the storage layer
  keeps: rows, two denormalised columns and two cached copies, with one method per request.
* **Compaction.** `Turns` groups messages into turns, `Segments` and `SegmentTable` hold the summary
  segments of all branches, `Persistence` stores one more of them, `Compaction` and `ModelView` decide when
  to cut and what is sent to the model, `Budget` and `MicroCompact` do the arithmetic and the cheap clean-up.
  `World` and `WorldView` put the tree and the segment table together over whole runs.
* **Job protocols.** `Redis` gives the atomic primitives; `ChatJob`, `ChatJobLimits` and `ChatJobReaders` are
  the chat job protocol as an interleaving of single commands; `UploadQueue` and `UploadTask` are the upload
  queue.
* **Ingestion.** `Ingest` is the embed-first, swap-later pipeline over three stores.
* **Smaller cores.** `Sources` and `RagContext` merge what parallel tools report; `Snippets` chunks text.

## How the model is built

Rows are a map from id to row. New ids come from the database sequence, so a request receives them as
parameters, larger than any id used before. Next to the rows, `Store.born` records every row as it was
inserted. It is ghost bookkeeping: the code has no such table, but "ids are never reused and parents never
rewritten" becomes the statement that this record only grows. Every request of `ChatSession` holds the session
row lock, so requests are serial; compaction takes no such lock, so `World` lets a segment be written at any
later time for any path that ever existed.

A protocol is a set of coroutines, each at the Redis command it will issue next; a step lets one of them issue
it, starts a new one, or removes one (a crash). An asyncio cancellation of a chat job is a step of its own:
it skips the rest of the work but still runs the `finally` block.

Calls into other systems (the summariser, the embedding service, inserts, commits, cancellation checks) are
parameters of a method, so each result holds for every outcome of every call. Token costs are an arbitrary
non-negative function of a message; factors are reals.

Some facts about the code that the statements reflect:

* A setting of 0 that is read with `or default` means the default; a negative cap or limit means no limit.
* The endpoint test fixes all rows up to a segment's last user row, but not which reply version that turn has
  (`World.LastReplyNotFixed`, with the exact condition in `World.CoveredRowsSharedIff`).
* The docstring of `chain_for_path` speaks of the longest prefix; the code takes the highest level at each
  start, oldest row first. The model follows the code.
* The last turn is kept word for word exactly when the stored chain does not already cover it
  (`ModelView.LastTurnCanBeCovered`; `WorldView.LastTurnCoveredInRun` gives a run that leads there).
* Without a merge, the chain handed back is found again only if it has no gap before the new segment
  (`Persistence.PersistReloadsIffNoGap`). The code can leave such a gap only after an older single summary
  that is blank.
* A reader of job events looks at the list and at the status in two commands, and can end before the last
  events are written (`ChatJobLimits.ReaderMissesFinalEvent`, exact condition in
  `ChatJobReaders.ReaderCompleteIff`).
* A crash between taking the session key and writing the job record blocks the session until the key expires
  (`ChatJobLimits.CrashBlocksSession`, `StuckForever`; what a create request needs is `ChatJob.CreateStartsIff`).
* The breaker stops failing summaries at its limit only as far as the failure count can be written
  (`Compaction.FailuresBounded`, `UnrecordedFailuresUnbounded`).
* A row of unknown class that was stored without an envelope is dropped from the messages, and then a path has no
  turn keys (`World.TurnKeysOfPath`).
* A chat job whose coroutine is cancelled by the event loop frees its session key while its record still says
  running (`ChatJobLimits.TornDownJobLosesKey`, exact condition in `ChatJob.LiveJobHoldsKey`).
* A segment in memory carries the row id it was stored under; the code's in-memory copy has no id field.

## Model

| member | source | states |
|---|---|---|
| Tree.WalkFollowsPointers | app/chat/storage.py:210-238 | Under the tree invariant the walk's fallbacks and its visited-set guard are never taken: it follows the selected pointers down to a leaf. |
| Tree.PathShape | app/chat/storage.py:210-238 | The resolved path starts at the only root, each row is the parent of the next, ids increase, and it ends at a row without children. |
| Tree.PathFromChain | app/chat/storage.py:210-238 | Any root chain that follows the pointers to a leaf is the resolved path. |
| Tree.AncestorsAgree | app/chat/db_models.py:347-349 | Row maps that agree on parents give every row the same root chain. |
| Tree.RegenerationPrefix | app/chat/storage.py:687-697 | Climbing from the i-th row of the current path gives exactly the first i+1 rows of that path. |
| TreeOps.InsertKeepsTree | app/chat/storage.py:391-419 | Inserting a row that its parent then selects keeps the tree invariant and the record of births. |
| TreeOps.AppendPath | app/chat/storage.py:497-519 | Appending makes the path the old path followed by exactly the new rows, and keeps invariant and version cap. |
| TreeOps.BelowIffAncestor | app/chat/db_models.py:347-349 | A row is removed by a cascading delete iff one of its ancestors, itself included, is deleted. |
| TreeOps.CascadeKeepsTree | app/chat/storage.py:568-572 | Deleting unselected children of a row, with all that hangs below them, leaves a well-formed tree. |
| TreeOps.EvictedAreOldVersions | app/chat/storage.py:547-560 | The evicted rows are assistant versions of that user message, as many as the cap requires. |
| TreeOps.AddVersionKeeps | app/chat/storage.py:547-572 | A regeneration keeps the invariant and the version cap of every user message, and never grows the session by more than one row minus the evicted ones. |
| TreeOps.AddVersionOnPath | app/chat/storage.py:562-572 | Under a row of the current path, a new version keeps root-to-row and replaces the rest by itself; no row of the new path is evicted. |
| TreeOps.AddVersionOffPath | app/chat/storage.py:562-572 | Under a row off the current path, a new version leaves the path as it was, evictions included. |
| TreeRuns.SelectOnPath | app/chat/storage.py:644-661 | Selecting a version under a path row keeps the path up to it and continues along the selected pointers of that version. |
| TreeRuns.SelectOffPath | app/chat/storage.py:644-661 | Selecting a version under a row off the path changes nothing on the path. |
| TreeRuns.SelectRoundTrip | app/chat/storage.py:628-661 | Selecting another version and then the original restores the whole store. |
| TreeRuns.ListingExtended | app/chat/storage.py:497-519 | The rows held in memory followed by the new rows are what a fresh `ORDER BY id` query lists. |
| TreeRuns.ApplyKeeps | app/chat/storage.py:477-663 | Every request keeps the whole invariant, never rewrites a birth record and changes nothing when it refuses. |
| TreeRuns.ApplyPath | app/chat/storage.py:477-663 | The exact effect of every accepted request on the current path. |
| TreeRuns.RunKeeps | app/chat/storage.py:343-663 | In every state of every run from an empty session: one root, older existing parents, pointers null exactly at leaves, versions within the cap, rows within the limit. |
| TreeRuns.RegenerationUpto | app/chat/storage.py:665-712 | For a user row on the current path the parent walk is the path up to it, with increasing ids. |
| Records.CascadeOneMore | app/chat/storage.py:570-571 | Deleting versions one after another, each with its subtree, equals deleting them together. |
| Conversation.IndexRows | app/chat/storage.py:217-226 | The grouping loop finds exactly the children of every row and exactly the roots. |
| Conversation.Walk | app/chat/storage.py:210-238 | The walk loop computes the path of the specification on any rows, dangling pointers, missing roots and cycles included. |
| Conversation.WalkDown | app/chat/storage.py:227-238 | The while loop with its visited set terminates and follows selected-or-smallest child at each node. |
| Conversation.RecordsFromRows | app/chat/storage.py:241-255 | Records of the path carry the version number, count and siblings computed among all rows. |
| Conversation.PreviewFromPath | app/chat/storage.py:93-106 | The backward scan finds the last user message and normalises its text. |
| Conversation.ChatSession.constructor | app/chat/storage.py:284-317 | A new session is empty and consistent. |
| Conversation.ChatSession.CommitAndRefreshCaches | app/chat/storage.py:444-475 | From a full listing, both columns and the record cache become what the stored rows give, and the list cache is dropped. |
| Conversation.ChatSession.AppendMessages | app/chat/storage.py:477-521 | Refuses empty input and over-limit input without change; otherwise the new store and the cached records are exactly those of the specification. |
| Conversation.ChatSession.AppendBelowLeaf | app/chat/storage.py:497-519 | The in-memory listing extended by the new rows equals a fresh listing after the insert. |
| Conversation.ChatSession.InsertAssistantVersion | app/chat/storage.py:523-587 | Checks target, quota and cap in the code's order; on success inserts, selects, evicts and refreshes; otherwise changes nothing. |
| Conversation.ChatSession.DeleteRows | app/chat/storage.py:570-571 | The delete loop removes the given versions with everything below them and nothing else. |
| Conversation.ChatSession.UpdateAssistantInPlace | app/chat/storage.py:589-626 | Replaces the text of one assistant row and keeps all denormalised data in agreement. |
| Conversation.ChatSession.SelectBranch | app/chat/storage.py:628-663 | Switches the parent's pointer for a valid target and returns the records of the resulting path. |
| Conversation.ChatSession.GetSessionMessages | app/chat/storage.py:852-888 | Cached or recomputed, the records are those of the stored rows. |
| Conversation.ChatSession.BuildSessionInfo | app/chat/storage.py:108-142 | The fast branch (columns) and the slow branch (walk) give the same count and preview. |
| Conversation.ChatSession.ListSessionInfo | app/chat/storage.py:748-782 | The cached list entry equals the recomputed one. |
| Conversation.ChatSession.GetRegenerateContext | app/chat/storage.py:665-712 | For a valid target, the ids from the root to its user message; on the current path they are the path up to that message. |
| Conversation.Climb | app/chat/storage.py:687-694 | The upward loop with its visited set terminates and yields the root chain in order. |
| Turns.SplitSystemPrefix | app/chat/memory_turns.py:12-21 | Splits off exactly the leading system messages. |
| Turns.GroupTurns | app/chat/memory_turns.py:24-44 | The nested index loops compute the turns of the specification. |
| Turns.GroupTurnPairs | app/chat/memory_turns.py:47-60 | The single pass that appends to the open turn computes the turns with their row ids. |
| Turns.TurnKeysOf | app/chat/memory_turns.py:63-72 | The keys are the ids of the user messages in order, and none when ids and messages do not line up. |
| Turns.GroupingsAgree | app/chat/memory_turns.py:24-60 | Both groupings give the same turns, message for message. |
| Turns.PairTurnsShape | app/chat/memory_turns.py:63-72 | One turn per user message, opened by the row whose id is its key. |
| Turns.TurnsPartition | app/chat/memory_turns.py:24-44 | The turns concatenated are everything from the first user message on: nothing lost, doubled or moved. |
| Turns.TurnsWellFormed | app/chat/memory_turns.py:24-44 | Every turn opens with a user message and holds no other one. |
| Segments.ChainTiles | app/chat/compact_store.py:70-96 | A chain lies end to end on the path from its start and stops only at the end or where no valid segment starts. |
| Segments.PickIsBest | app/chat/compact_store.py:80-85 | The segment chosen at a start has the highest level there, the oldest row among equals. |
| Segments.BestIsPicked | app/chat/compact_store.py:80-85 | A segment that beats all other candidates at its start is the one chosen. |
| Segments.ChainExtends | app/chat/compact_store.py:86-96 | If no choice before the end of a chain changes, the new chain is the old one followed by what starts at its end. |
| Segments.ChainForPath | app/chat/compact_store.py:70-96 | The dictionary loop and the chaining loop, which terminates, compute the greedy chain. |
| Segments.CountTokens | app/chat/compact_store.py:106-108 | Sums the summary tokens of the chain. |
| SegmentTable.LoadedSpec | app/chat/compact_store.py:41-55 | Loading lists every stored segment once, ordered by start and then by row id. |
| SegmentTable.UpsertSpec | app/chat/compact_store.py:126-163 | A write replaces the row with the same two keys or adds one, touches no other row and keeps keys and ids unique. |
| SegmentTable.WithoutSpec | app/chat/compact_store.py:166-188 | A delete removes exactly the segments with the given identifiers. |
| Persistence.ChainGrows | app/chat/compact.py:553-587 | A segment that starts where the chain ends is appended to the chain that is loaded next. |
| Persistence.MergeKeepsItself | app/chat/compact.py:549-586 | The identifier of a merged segment differs from all it replaces, so the clean-up never deletes it. |
| Persistence.MergedIsBest | app/chat/compact.py:549-552 | A merged segment beats every other segment that starts at turn 0. |
| Persistence.PersistThenReload | app/chat/compact.py:527-587 | After a write the reloaded chain starts with the chain handed back, which covers the new window start, whether or not the clean-up of merged segments went through. |
| Persistence.PersistReloadsIffNoGap | app/chat/compact.py:553-587 | Without a merge the chain handed back is found again iff the new segment starts where the old chain ended. |
| World.TurnKeysArePathKeys | app/chat/memory_turns.py:63-72 | On a path of user, assistant and system rows the turn keys of its messages are the ids of its user rows. |
| World.TurnKeysOfPath | app/chat/memory_turns.py:63-72 | On any path: if a row of unknown class is dropped there are no keys at all; otherwise the keys are the ids of the rows restored to user messages. |
| World.EndpointCheckExact | app/chat/compact_store.py:58-67 | A segment built on the tree passes the endpoint test on a root path iff its last user row lies on that path. |
| World.ValidIsAnchored | app/chat/compact_store.py:58-67 | A segment that fits some root path names the user rows above its last row as they were inserted. |
| World.CompactionWritesBuilt | app/chat/compact.py:549-577 | What a compaction of a current path writes stays valid for that path in the record of births, even after its rows are evicted. |
| World.WorldRunKeeps | app/chat/storage.py:343-663 | Over every interleaving of requests, segment writes (however late) and segment deletes, the tree and the table stay well-formed and every stored segment stays anchored. |
| World.StoredSegmentsFit | app/chat/compact_store.py:58-96 | In every reachable state a stored segment is accepted on a root path iff its last user row is on it. |
| World.EndpointCheckSound | app/chat/compact_store.py:58-67 | A segment made for one path and accepted on another at any later time covers the same rows: the paths are identical from the root to its last user row. |
| World.LastReplyNotFixed | app/chat/compact_store.py:58-67 | One segment can fit two paths that differ in the reply of its last turn. |
| World.CoveredRowsSharedIff | app/chat/compact_store.py:58-67 | Two root paths have the same rows in all turns up to that of one row iff the last row of that turn, on either path, also lies on the other one. |
| World.SharedRowSharedPrefix | app/chat/storage.py:210-238 | Two root paths agree up to a row iff that row is on both. |
| Budget.ThresholdsOrdered | app/chat/context_budget.py:185-219 | For every window and every setting 512 <= keep < trigger < effective < window, and trigger is window minus reserve minus buffer: no lower clamp binds. |
| Budget.ApplyFactorSubadditive | app/chat/context_budget.py:284-288 | The rounded-up factor is monotone and subadditive. |
| Budget.EstimateMessagesTokens | app/chat/context_budget.py:105-115 | The loop adds up the per-message costs and applies the factor once. |
| Budget.ChooseKeepFrom | app/chat/compact.py:458-471 | Returns the least start whose per-turn estimates fit the budget, or the last turn if none does. |
| Budget.WindowStartUnique | app/chat/compact.py:458-471 | There is only one such start. |
| Budget.WindowFits | app/chat/compact.py:458-471 | The estimate of the whole window is within the budget unless only the last turn is left. |
| Budget.FactorOf | app/chat/context_budget.py:271-281 | The factor used is always within the legal range, whatever is stored. |
| Budget.SampleContracts | app/chat/context_budget.py:236-268 | An accepted sample leaves 60 percent of the factor's distance to it (80 percent after three samples), up to the rounding to four decimals; from a stored factor out of range it leaves at most that. |
| Budget.FactorStaysLegal | app/chat/context_budget.py:236-268 | Under any sequence of samples the factor stays within 0.5 and 2.5. |
| Budget.FactorStaysInBand | app/chat/context_budget.py:236-268 | Samples that all lie in a band around 1 never push the factor out of that band. |
| MicroCompact.ClipIsIdempotent | app/chat/tool_result_compact.py:87-96 | A clipped text is 13 characters below the limit, so a second clip changes nothing. |
| MicroCompact.ToolCallNames | app/chat/tool_result_compact.py:67-77 | The nested loops map each call id to the name of the last call that carries it. |
| MicroCompact.ClearableIndices | app/chat/tool_result_compact.py:112-121 | The first loop lists exactly the results of re-runnable tools, in order. |
| MicroCompact.StaleIndices | app/chat/tool_result_compact.py:123-124 | The slice that drops the last `keep` entries contains a result iff at least `keep` clearable ones follow it. |
| MicroCompact.ClearOldToolResults | app/chat/tool_result_compact.py:99-166 | Stale results become the placeholder, large recent ones are clipped, everything else is returned as it was. |
| MicroCompact.ProjectMicroCompact | app/chat/tool_result_compact.py:169-198 | Below the threshold, or when switched off, nothing changes; above it the pass above applies. |
| MicroCompact.ProjectionKeepsSkeleton | app/chat/tool_result_compact.py:126-166 | Length, message class and call id are kept at every position, and every message that is no tool result is untouched. |
| MicroCompact.OnlyStaleResultsCleared | app/chat/tool_result_compact.py:126-166 | Results of other tools never change, stale results of re-runnable ones become the placeholder, and the last `keep` of them are at most clipped. |
| MicroCompact.SecondPassKeepsContents | app/chat/tool_result_compact.py:99-166 | A second pass leaves all contents as the first one left them. |
| MicroCompact.ProjectionKeepsTurns | app/chat/compact.py:828-842 | Prefix, number of turns, turn keys and the shape of each turn survive the pass, so a window start computed before it stays valid. |
| Compaction.RenderCovers | app/chat/compact.py:242-260 | The rendered block of a chain labels turns 0 up to its covered count, each once, in order and with text. |
| Compaction.ChainStaysShort | app/chat/compact.py:585-598 | However long the chain was, after one more segment it has at most max(2, limit) segments, its summaries exceed their budget by at most the new one, and it shrinks only to a single segment. |
| Compaction.ResolveState | app/chat/compact.py:514-524 | The stored chain wins if it covers anything; otherwise the older summary with its window start. |
| Compaction.Session.UpsertSegment | app/chat/compact_store.py:111-163 | Refuses blank text and empty ranges; otherwise stores the trimmed summary under its two keys. |
| Compaction.Session.DeleteSegments | app/chat/compact_store.py:166-188 | Removes the named segments, or nothing if the delete fails. |
| Compaction.Session.PersistSegment | app/chat/compact.py:527-587 | Stores the new segment, removes the merged ones, and hands back the chain; on failure table and chain are unchanged. |
| Compaction.Session.SummariseAndStore | app/chat/compact.py:684-773 | A failed model call adds one failure, a success clears the count, a failed write counts as neither and changes no state. |
| Compaction.Session.AttemptCompaction | app/chat/compact.py:601-773 | Order of all guards, where the window starts, when the model is called, what is stored and which outcomes are flagged. |
| Compaction.FailuresBounded | app/chat/compact.py:416-442 | Until the next success, automatic requests that follow one another make at most max(1, limit) failing model calls, plus those whose count could not be written; if every count was written, at most max(1, limit). |
| Compaction.FailuresCounted | app/chat/compact.py:692-705 | Between successes the stored count is the count at the start plus the failed calls whose count was written, and such a call never takes it past max(1, limit). |
| Compaction.UnrecordedFailuresUnbounded | app/chat/compact.py:692-703 | For every n there is a series of n failing model calls without a success, if no write of the count goes through: the failed write is swallowed. |
| Compaction.ServeInTurn | app/chat/compact.py:601-773 | A sequence of automatic requests served by one session is such a series, each seeing the count the one before left, whatever the model and the writes do; so the bound on failing calls holds for it. |
| ModelView.OneKeyPerTurn | app/chat/memory_turns.py:63-72 | There is exactly one key per turn of the message list without its system prefix. |
| ModelView.CompactedChain | app/chat/compact.py:649-704 | A compaction leaves a chain that tiles the path from turn 0 exactly to the new window start. |
| ModelView.Assemble | app/chat/compact.py:914-920 | Output is the prefix, at most one summary, then the kept turns in order. |
| ModelView.CompactIfNeeded | app/chat/compact.py:878-901 | Compacts only past the trigger, with more than the last turn in the window, with keys and a stored session. |
| ModelView.CallOk | app/chat/compact.py:878-912 | Whatever the attempt returned, the window never moves back, a gap is flagged, and a success covers exactly what was cut and is found again on reload. The clauses about gaps hold for every stored chain, whether or not an older summary is still recorded, and without a chain if there is no older summary. |
| ModelView.BuildModelMessages | app/chat/compact.py:786-920 | The message list is an exact view: prefix, summary and kept turns. With a stored chain, or without an older summary, the blocks cover exactly the cut turns, and a gap appears only flagged as degraded. |
| ModelView.KeptAndCutPartition | app/chat/memory_turns.py:24-44 | Summarised and kept turns together are the conversation, once and in order. |
| ModelView.LastTurnCanBeCovered | app/chat/compact.py:514-524 | A stored segment that covers the only turn of a path leaves no turn to keep word for word. |
| WorldView.LastTurnCoveredInRun | app/chat/compact.py:514-524 | A run of requests and one compaction that leads there: answering the first of two questions again builds its view on a path whose only turn is already covered. |
| Redis.Server.SetIfAbsent | app/chat/cache.py:588-597 | Writes iff the key was absent and disturbs no existing key. |
| Redis.Server.DeleteIfJobMatches | app/chat/cache.py:605-620 | Removes the key iff it names the job; keys of other jobs stay. |
| Redis.Server.IncrementIfBelow | app/chat/cache.py:484-520 | Counts up unless the limit is reached, and says which. |
| Redis.Server.DecrementFloor | app/chat/cache.py:494-531 | Counts down but not below zero. |
| Redis.Server.AppendEvent | app/chat/cache.py:622-639 | Adds one element at the end of one list. |
| ChatJob.CommandAdvances | app/chat/chat_job.py:71-304 | Every command of create, cancel, run and read keeps the shared invariant and re-establishes what its coroutine relies on. |
| ChatJob.ThreadStays | app/chat/chat_job.py:71-304 | No command of another coroutine invalidates what a coroutine relies on between two of its own. |
| ChatJob.RunKeeps | app/chat/chat_job.py:71-354 | The invariant holds in every state of every interleaving, with crashes and interruptions anywhere. |
| ChatJob.LiveJobHoldsKey | app/chat/chat_job.py:142-212 | A running job without a cancel mark is the one its session's key names, iff its coroutine was not torn down. |
| ChatJob.OneLiveJobPerSession | app/chat/chat_job.py:142-212 | A session never has two such jobs. |
| ChatJob.KeyLostOnlyByOwnRelease | app/chat/chat_job.py:71-76 | A session key leaves a job only through a release in that job's own name, so a late release never frees a newer job's key. |
| ChatJob.FinalForever | app/chat/chat_job.py:78-97 | A job with an outcome is never running again, and its events are never taken back. |
| ChatJob.EventsAreNumbered | app/chat/chat_job.py:129-139 | Element i of a job's event list carries number i. |
| ChatJob.ReaderEmitsSlice | app/chat/chat_job.py:315-354 | A reader has emitted exactly the contiguous slice from where it started to its next index. |
| ChatJob.ResumeConcatenates | app/chat/chat_job.py:315-354 | Resuming at an earlier reader's next index concatenates without gap or repeat. |
| ChatJob.CancelFreesSession | app/chat/chat_job.py:78-97 | A cancel request run alone records the outcome of a running job at once and frees its session's key. |
| ChatJob.CreateFindsLiveJob | app/chat/chat_job.py:161-174 | A create request run alone finds the live job of its session and changes nothing. |
| ChatJob.CreateStartsJob | app/chat/chat_job.py:161-212 | With a free key, or a key naming a job marked for cancelling, a create request run alone starts a new job that holds the key. |
| ChatJob.CreateStartsIff | app/chat/chat_job.py:161-212 | A create request run alone starts a job iff the key is free or names a running job marked for cancelling; a key that names a finished job, or one without a record, makes it start nothing. |
| ChatJobLimits.TornDownJobLosesKey | app/chat/chat_job.py:284-289 | A reachable state in which a torn-down job and a newer one of the same session both read as running. |
| ChatJobLimits.ReaderMissesFinalEvent | app/chat/chat_job.py:331-350 | A reachable state in which a reader has ended without the final event. |
| ChatJobReaders.SealedForever | app/chat/chat_job.py:129-139 | Once no coroutine of a job writes any more, its event list never changes, whatever happens next. |
| ChatJobReaders.ReaderCompleteIff | app/chat/chat_job.py:331-350 | A reader about to read the list delivers every event in every continuation in which it ends, iff no coroutine of the job is in its work loop or about to enter it, and the id has been handed out. |
| ChatJobLimits.CrashBlocksSession | app/chat/chat_job.py:173-194 | A crash between taking the session key and writing the record leads to a reachable state in which the key names a job without a record. |
| ChatJobLimits.StuckForever | app/chat/chat_job.py:161-180 | From such a state, as long as keys do not expire, every later create request for the session starts nothing. |
| UploadQueue.EnqueueKafka | app/kb/kb_job.py:195-205 | Reserve, then write; the counter goes up by one iff the message was written. |
| UploadQueue.AckTask | app/kb/kb_job.py:250-264 | The counter goes down only after a successful commit. |
| UploadQueue.RunKeeps | app/kb/kb_job.py:195-264 | The counter equals uncommitted messages plus steps still owed plus places lost to crashes, in every reachable state. |
| UploadQueue.DepthIsSafe | app/kb/kb_job.py:195-264 | Uncommitted messages <= counter <= limit, and no decrement ever meets the floor. |
| UploadQueue.CounterExactIff | app/kb/kb_job.py:195-264 | With no operation in progress the counter is exact iff no place was lost. |
| UploadTask.Task.AcceptKafkaDelivery | app/kb/kb_job.py:288-327 | Closed or missing records refuse; one delivery too many fails the task and writes one dead letter; otherwise the count goes up and the pipeline runs. |
| UploadTask.RunsBounded | app/kb/kb_job.py:288-327 | However often a task is delivered, its pipeline runs at most as often as allowed. |
| UploadTask.ClosedForGood | app/kb/kb_job.py:288-327 | Once a task has an outcome no delivery runs it or changes its record. |
| UploadTask.ExhaustedTaskFails | app/kb/kb_job.py:304-325 | A task whose runs all break off is failed by the delivery after the last allowed one, and stays failed. |
| UploadTask.PercentInBand | app/kb/kb_job.py:130-137 | Percents stay in the band of their stage and grow with the work done. |
| UploadTask.Progress.Report | app/kb/kb_job.py:727-758 | Published percents never decrease and stay within 0 and 100; a new stage or 100 is never skipped. |
| UploadTask.Progress.Complete | app/kb/kb_job.py:760-783 | A successful run ends at 100. |
| Ingest.EmbedTexts | app/kb/multimodal_milvus_writer.py:114-134 | Across all batches the i-th vector is that of the i-th chunk, if the service answers each batch in order; a short batch is an error. |
| Ingest.EmbedDocuments | app/kb/multimodal_milvus_writer.py:84-148 | On success there is one vector per text chunk, each the vector of its own chunk if the service keeps order, and the image service's own answer for the image chunks; otherwise one of three errors. |
| Ingest.EmbeddedPairs | app/kb/multimodal_milvus_writer.py:150-240 | What was embedded can be written iff the image service answered with one vector per image, and then every row pairs a chunk with its own vector. |
| Ingest.Library.DeleteDocument | app/kb/kb_service.py:133-190 | Afterwards no vector, parent chunk or row of the file is left, and those of every other file are there unchanged. |
| Ingest.Library.UpsertParents | app/kb/parent_chunk_store.py:36-104 | Writes all parent chunks in one commit, blank ids dropped and the last of equal ids kept. |
| Ingest.Library.InsertBatches | app/kb/multimodal_milvus_writer.py:186-225 | The batch loop inserts the pairs in order; a failure or cancellation leaves a prefix of them. |
| Ingest.Library.WriteDocuments | app/kb/multimodal_milvus_writer.py:150-277 | Count mismatches are errors; success stores one row per text or image chunk with its own vector. |
| Ingest.RowsCleaned | app/kb/kb_service.py:578-586 | Deleting the file again removes whatever part of the new rows had been written. |
| Ingest.TakeLock | app/kb/kb_service.py:515-536 | Waiting ends with the lock at the first free look, with a cancellation iff a check fires after a failed look, or with a timeout after the last one; earlier looks found it taken and earlier checks were quiet. |
| Ingest.SwapDocument | app/kb/kb_service.py:548-588 | The swap ends with all of the new content or none of the file, and other files as before. |
| Ingest.Prepare | app/kb/kb_service.py:434-512 | Everything before the swap touches no store; on success one vector per text chunk and the image vectors as the service gave them, for a non-empty number of leaves within the limit; on failure none of the errors of the swap. |
| Ingest.RunIngestPipeline | app/kb/kb_service.py:365-599 | For a failure or cancellation anywhere, the stores end all old, all new or without the file; on success every stored vector belongs to its own chunk. |
| Sources.MergeSourceList | app/chat/tools.py:106-116 | The loop keeps the existing list and appends the first item of each new identity. |
| Sources.MergeAddsOnce | app/chat/tools.py:106-116 | Existing sources keep their places, each new identity is added once, none is lost. |
| Sources.MergeAssociative | app/chat/tools.py:106-116 | Merging is associative. |
| Sources.EmptyListIdentity | app/chat/tools.py:106-116 | The empty list is a right identity, and a left identity exactly for lists without repeats. |
| Sources.OrderDoesNotMatter | app/chat/tools.py:148-151 | Whatever order the lock lets the tools in, the same set of sources results, each once. |
| RagContext.RequestState.SetLastRagContext | app/chat/tools.py:126-151 | One locked update merges the three lists, the trace and the other fields. |
| RagContext.CollectedSources | app/chat/tools.py:126-151 | After any number of updates each list holds every source reported for it exactly once. |
| RagContext.CollectedTrace | app/chat/tools.py:119-145 | The final trace is that of the last knowledge-base tool that left one, otherwise the first trace left at all. |
| RagContext.CollectForAnswer | app/chat/tools.py:148-160 | The answer takes, once, what all tools of the request left behind, and leaves nothing for the next. |
| Snippets.ChunkSpans | app/chat/attachment_bm25_search.py:82-103 | The loop ends, and yields full chunks from 0, each starting the set overlap before the end of the one before. |
| Snippets.CoversIff | app/chat/attachment_bm25_search.py:82-103 | The chunks cover every character iff the overlap is not negative or one chunk holds the whole text. |
| Snippets.SnippetShape | app/chat/attachment_bm25_search.py:122-149 | A snippet stays inside the text and the limit, holds the middle of its core, and is as long as core, margins and limit allow. |
| Snippets.PageHoldsOffset | app/chat/attachment_bm25_search.py:106-119 | On sorted page starts the page found is the last one starting at or before the offset. |

## Left out

- The async twins of the storage methods and readers, which repeat the modelled algorithms line by line.
- The SQL, Redis, Kafka, Milvus and object-store clients themselves; expiry of keys and lost Redis writes.
- Message payloads beyond class, text, tool calls and call id: attachments, traces, tool status, JSON envelopes.
- Session quotas per user and agent, session deletion, metadata other than the failure count.
- The older single-summary metadata formats, beyond one summary text with its covered count.
- Prompts, summary parsing, and shortening of the summariser input (which does not shorten a single oversized turn).
- Token counting of text; only that a message has a non-negative cost is used.
- World.EndpointCheckSound: says which rows two paths share, not that an assistant row still has the text it had when it was summarised, because a row can be overwritten in place.
- ChatJob.LiveJobHoldsKey: does not model key expiry, after which a long-running job would lose its key.
- Compaction.Session.PersistSegment: is proved for a write that runs alone; segment writes of several requests at once are covered only by the results of `World`.
- Compaction.Session.AttemptCompaction: does not model the token figures, the compaction history and the progress events of a request.
- UploadQueue.DepthIsSafe: assumes that a failed write wrote nothing, that a message is committed at most once, and that the counter key does not expire.
- The processing lock of an upload task, whose mutual exclusion is that of SET NX while the key lives.
- Recovery of stale list and stream queue entries, and the worker loop.
- Ingest.RunIngestPipeline: assumes that store deletes succeed, leaves out image objects and image metadata, and holds other files' parent chunks only if they share no chunk id with this upload.
- UploadTask.Progress.Report: percents are exact integer arithmetic; float rounding is not modelled.
- Budget.SampleContracts: rounding to four decimals takes halves upwards; the bound covers any nearest rounding.
- Snippets.ChunkSpans: a chunk size below 1, for which the code would not stop, is excluded.
- Ranking of search hits, call slots per tool, confirmations of high-risk tool calls.
- World.TurnKeysOfPath: assumes that an envelope names the class of its row, or no class the code knows.
- Compaction.FailuresBounded: is about requests that follow one another on one session; two at once can both pass the breaker before either counts its failure.
- Changing settings: caps, limits and thresholds are fixed for the whole of a run.
- Concurrent readers that refill a cache while a request writes it; they take no lock.
