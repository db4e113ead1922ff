# Remote SSH for Obsidian: a verified model

Remote SSH lets Obsidian edit a vault that lives on another machine. Its plugin replaces Obsidian's
file adapter: reads and writes go over SFTP or to a small daemon, are cached, are queued on disk while
the connection is down and replayed when it is back, and are redirected where two machines on one vault
must not share a file. This project models the parts of that plugin whose correctness spans many
functions, and proves what they promise.

`dafny verify dfyconfig.toml` checks everything.

## What is modelled

- **Editing offline.** `RemoteTree` is the remote tree and its calls, `OfflineEditing` one edit online,
  offline and replayed, `OfflineEqualsOnline` whole runs, `EditMeaning` what each edit means to the
  user, `InterruptedDrain` drains cut off part-way and edits made meanwhile, `DataAdapter` the adapter
  object. `OfflineFilter` is what a walk must leave alone while edits are queued.
- **The queue on disk.** `OfflineQueue` is the append-only log with tombstones, compaction, byte
  accounting and crashes between and inside writes; `DurableEditing` puts offline editing and
  the drain on top of it. `Replay` is the drain, alone and interleaved with new edits, ended sessions and
  new ones.
- **Order of writes.** `WriteChains` is the chain of writes a path and the mutations that wait for it.
- **Line diff.** `DiffEngine`: the flat table, the backtracking walk and the chunks.
- **Caches.** `Lru` is one abstract store; `ReadCache` (Map order) and `AncestorTracker` (access ticks)
  refine it.
- **Plugin lists across devices.** `PluginSync`: the three-way merge, pull, push, and any number of
  devices taking turns; `PluginSchedules`: what a schedule of syncs decides.
- **RPC calls and liveness.** `RpcClient` is the table of pending calls, `RpcHeartbeat` the detector.
- **Paths.** `PathMapper`, `MergedListing` and `WatchEventFilter`: private paths per client, the listing
  that merges both places, and the events that come back.
- **SFTP trees.** `SftpClient`: recursive listing and deletion, and directory chains.
- **Byte ranges.** `RangeServing`: the ranged read and the whole-file slice.

Asynchronous code is a machine whose step is the stretch between two awaits; the theorems hold for every
order of steps. Clocks, timers, stat answers, room in the queue, failing calls and the order of directory
entries are inputs, and no theorem limits them beyond what its `requires` says.

## What the code does that its text does not say

- A drain interrupted between two queued writes to one path leaves the older content in the cache, and
  offline edits then build on it (`InterruptedDrain.InterruptedDrainShowsOldContent`; exactly when, for a
  cut anywhere, is `InterruptedDrain.InterruptedDrain`).
- An operation replayed again because its completion was not recorded stops the drain unless it is a
  write, a directory creation, a copy, or a rename onto itself, and so does every later one while nobody
  changes the tree (`InterruptedDrain.CompletionLost`). If somebody does, a repeated removal deletes a file
  recreated at its path (`InterruptedDrain.RecreatedIsRemoved`).
- The session counts as connected before the queue is drained, so an edit made meanwhile is lost, the
  mtime check aside, to a queued write of the same path (`InterruptedDrain.EditDuringDrain`).
- A walk does not see through a queued recursive removal of the vault root: the filter holds back only
  what lies under a queued path, and nothing lies under the empty one (`OfflineFilter.CoveredExactly`).
- Ids of the offline queue do not survive a restart once compaction or clearing has dropped the last
  record (`OfflineQueue.RestartKeeps`).
- Discarding all pending edits does not stop a drain under way: one of the current session that has a
  discarded edit still to come in its snapshot will replay it (`Replay.DiscardTakesEffect`).
- A failed push can undo an uninstall: its device has already pulled the plugin, its base does not say so,
  and it pushes the plugin as an install of its own later (`PluginSync.FailedPushUndoesUninstall`).
- In one merge of plugin lists an addition wins; over a schedule of syncs it wins over an uninstall only
  if the uninstalling device has its first sync first (`PluginSchedules.LaterFirstSyncWins`).
- Devices agree only if, once all have synced, all sync again; the round that completes the first sweep
  counts for both (`PluginSchedules.ScheduleIsEnough`).
- The verdict says that so many probes went unanswered, but an error reply to the last of them gives it
  too (`RpcHeartbeat.OnlyTheLastMayBeRefused`).
- A listing may name a child that does not exist where it is stored, and does so for leftovers exactly
  (`MergedListing.ListedChildExists`). A failing listing of the client's subtree is taken for an empty
  one, so its entries are missing from that listing (`MergedListing.ExistingChildIsListed`).
- If, and only if, the configuration directory is itself named `plugins`, the default patterns reach into
  the user directory: the one for plugin data counts as already qualified
  (`PathMapper.DefaultsLeaveUserDirAlone`).
- A malformed range or a last position before the first is answered with 416, where RFC 7233 asks to
  ignore the header; so is a suffix of an empty file, and any range with a number too large for a double.
  Several ranges get 416 as well, where the RFC leaves a server free to serve or to ignore them; the
  comparison is with a server that ignores what is not one range (`RangeServing.AgreesWithRfc`).

## Model

| member | source | states |
|---|---|---|
| OfflineEqualsOnline.OfflineEqualsOnline | plugin/src/adapter/SftpDataAdapter.ts:475-666 | Any mix of reads and edits made while reconnecting, in any order, then a full drain: every read was answered as the online run answers it, the drained tree is the online tree, and every cached entry agrees with it. The accepted edits must be valid online; nothing is assumed of the path mapping, the text codec, the cache size, the clock or the room in the queue. |
| OfflineEqualsOnline.OfflineRunSimulates | plugin/src/adapter/SftpDataAdapter.ts:785-843 | The simulation behind it: at every point of an offline run the queue folded over the remote is the tree of the online run, and each cached entry agrees with that tree. |
| OfflineEqualsOnline.OfflineEditSimulates | plugin/src/adapter/SftpDataAdapter.ts:475-666 | One offline edit, accepted or refused, keeps the simulation: append, process and the mutations queue exactly the effect they would have had online. |
| OfflineEqualsOnline.QueuedIsOnline | plugin/src/adapter/SftpDataAdapter.ts:515-575 | What an offline edit queues replays to what the edit itself does online, even though append and process are queued as whole-file writes built from the cache. |
| OfflineEqualsOnline.DrainReachesVirtual | plugin/src/adapter/SftpDataAdapter.ts:711-756 | Replaying the queue through the connected adapter reaches the virtual remote and ends with a truthful cache, although half-way the cache may describe either end. |
| OfflineEqualsOnline.LiveEqualsOnline | plugin/src/adapter/SftpDataAdapter.ts:832-914 | While connected, the revalidating cache never changes an answer or an effect: a run with the cache equals the run on the bare tree. |
| OfflineEqualsOnline.LifetimeEqualsOnline | plugin/src/adapter/SftpDataAdapter.ts:142-184 | Any number of sessions, each a connected stretch, a dropped stretch and a drain, give the answers and the tree of one uninterrupted online run. |
| InterruptedDrain.InterruptedDrain | plugin/src/adapter/SftpDataAdapter.ts:711-766 | A drain cut off after any number of operations: the rest still replays to the same tree, and the cache is still truthful if and only if every replayed write whose entry is left is also the final content of its path. Which entries are left depends on the queue and the cache cap alone. |
| InterruptedDrain.CutAfterOne | plugin/src/adapter/SftpDataAdapter.ts:711-766 | After one operation that comes to this: it is no write, or does not fit the cache, or wrote the final content of its path. |
| InterruptedDrain.AllFit | plugin/src/cache/ReadCache.ts:69-80 | When everything the operations write fits the cache at once, exactly the last write to each path that nothing later moved or removed leaves an entry. |
| InterruptedDrain.RebuiltEntry | plugin/src/adapter/SftpDataAdapter.ts:1058-1058 | An entry a replay leaves holds the content of the last write to its path. |
| InterruptedDrain.UntouchedSurvives | plugin/src/adapter/SftpDataAdapter.ts:711-756 | A simple sufficient check: a file no later queued operation touches keeps its content through the rest of the queue. |
| InterruptedDrain.InterruptedDrainShowsOldContent | plugin/src/adapter/SftpDataAdapter.ts:1014-1063 | What the failing family does to the user: of two queued writes to one path the first is replayed, then the session drops; an offline read now shows the older content and an offline append builds on it. |
| InterruptedDrain.ReplayTwice | plugin/src/offline/QueueReplayer.ts:58-86 | Replaying an operation of a kind the adapter queues a second time changes nothing, and succeeds if and only if it is a write, a directory creation, a copy, or a rename onto itself. |
| InterruptedDrain.CompletionLost | plugin/src/offline/QueueReplayer.ts:60-77 | A crash after an operation took effect and before its completion was recorded, the tree unchanged in between: the next drain reaches the same tree if and only if the operation may be repeated; otherwise that drain stops there and changes nothing. |
| InterruptedDrain.RecreatedIsRemoved | plugin/src/offline/QueueReplayer.ts:60-77 | If the tree does change in between: a file put back at a path whose removal is repeated is deleted. |
| InterruptedDrain.EditDuringDrain | plugin/src/main.ts:767-775 | An edit made while a drain is under way, between two operations: with nothing in the rest of the queue about its path it survives. Otherwise it survives if and only if the last operation about that path leaves the same content; a queued write, if and only if it has that content; a queued removal, never. |
| DurableEditing.CrashedSessionEqualsOnline | plugin/src/offline/OfflineQueue.ts:92-121 | Offline edits through the log on disk, a crash at rest or at any point of writing one more, the log reopened and drained with an empty cache: the remote is the online tree of the accepted edits, or of those and the interrupted one. |
| DurableEditing.CrashedDrain | plugin/src/offline/QueueReplayer.ts:51-95 | A drain on top of the log, crashing before or after any effect or anywhere inside recording its completion, tombstone and compaction; the log reopened and drained again: the remote ends as without the crash, except that an effect the log has forgotten stops the second drain there if it may not be repeated. |
| DurableEditing.DurableRunSimulates | plugin/src/offline/OfflineQueue.ts:106-121 | Before the crash the log holds exactly what the session has queued, and the simulation holds along the run. |
| EditMeaning.EditMeans | plugin/src/adapter/SftpDataAdapter.ts:475-687 | What every edit means, in terms of trees and contents alone: when it succeeds, and what it then leaves. An append leaves the old text followed by the new, or the new alone if the file was missing; `process` the function of the old text; a rename or trash moves everything at or under its source and nothing else; a copy duplicates its source; nothing else changes but missing parents. A failed edit leaves directories at most. Of the text codec only that decoding undoes encoding is asked, and only for text. |
| EditMeaning.ConnectedEditMeans | plugin/src/adapter/SftpDataAdapter.ts:475-687 | Through the revalidating cache an edit succeeds exactly when it is valid on the tree and then leaves what it means. |
| EditMeaning.OfflineEditMeans | plugin/src/adapter/SftpDataAdapter.ts:475-687 | An edit taken while reconnecting, valid on the tree the earlier edits leave, leaves once the queue is drained what it means on that tree. |
| EditMeaning.OfflineEditTaken | plugin/src/adapter/SftpDataAdapter.ts:515-575 | Exactly which edits are taken while reconnecting: with room in the queue, those that need no read or whose file is cached; taken, they are one more entry. |
| EditMeaning.OfflineWriteIsSeen | plugin/src/adapter/SftpDataAdapter.ts:475-513 | The next offline read serves what an offline write wrote, if the cache can hold it. |
| EditMeaning.OfflineReadServes | plugin/src/adapter/SftpDataAdapter.ts:832-853 | While reconnecting a read is served if and only if the file is cached, and then truly. |
| EditMeaning.QueuedExpects | plugin/src/adapter/SftpDataAdapter.ts:785-830 | A queued write carries its path, its kind, and the mtime of the cached copy it was made on, or none. |
| EditMeaning.WriteIsCached | plugin/src/adapter/SftpDataAdapter.ts:1014-1063 | A write that went through is cached under the mtime the remote reported, if the cache can hold it. |
| EditMeaning.RevalidatedReadTrue | plugin/src/adapter/SftpDataAdapter.ts:855-914 | However stale the rest of the cache: a read tells the truth and leaves a true copy, provided a confirmed copy is the content. A copy not confirmed is never served. |
| EditMeaning.ForgetsOnlyTouched | plugin/src/adapter/SftpDataAdapter.ts:588-666 | A mutation whose paths have no trailing slash drops from the cache exactly what it touches. |
| EditMeaning.RenameMoves | plugin/src/adapter/SftpDataAdapter.ts:627-653 | A successful rename leaves at the target what the source held, and at every path below it what lay at the same path below the source; nothing stays behind, nothing else changes. |
| OfflineEditing.OnlineEditTrue | plugin/src/adapter/SftpDataAdapter.ts:475-666 | One connected edit leaves the tree the edit means and a cache that agrees with it, the read-modify-write forms included. |
| RemoteTree.RenameProperties | plugin/src/adapter/SftpDataAdapter.ts:627-653 | Rename keeps the tree well formed and touches nothing but its two ends. |
| RemoteTree.PlaceProperties | plugin/src/adapter/SftpDataAdapter.ts:1014-1063 | A write creates its parent chain and its file and changes no other path. |
| DataAdapter.PerformedIsMeant | plugin/src/adapter/SftpDataAdapter.ts:475-687 | The methods below perform their edits as specified; so on a true cache, while connected, each succeeds exactly when its edit is valid and leaves what it means. Each method states that outright. |
| DataAdapter.DataAdapter.ReadBuffer | plugin/src/adapter/SftpDataAdapter.ts:832-853 | A read while reconnecting serves and touches the cached copy; otherwise it revalidates over the wire. |
| DataAdapter.DataAdapter.ReadBufferOverWire | plugin/src/adapter/SftpDataAdapter.ts:855-914 | A cached copy is served only if the stat confirms it; otherwise the file is read and cached. |
| DataAdapter.DataAdapter.Write | plugin/src/adapter/SftpDataAdapter.ts:475-496 | Performs the edit as specified: queued with the cache refreshed while reconnecting, written through otherwise. |
| DataAdapter.DataAdapter.WriteBinary | plugin/src/adapter/SftpDataAdapter.ts:498-513 | The same for binary writes. |
| DataAdapter.DataAdapter.Append | plugin/src/adapter/SftpDataAdapter.ts:515-533 | The same for appends: a missing file counts as empty, any other read failure is a failure. |
| DataAdapter.DataAdapter.AppendBinary | plugin/src/adapter/SftpDataAdapter.ts:535-555 | The same for binary appends. |
| DataAdapter.DataAdapter.Process | plugin/src/adapter/SftpDataAdapter.ts:557-575 | The same for read-transform-write. |
| DataAdapter.DataAdapter.Mkdir | plugin/src/adapter/SftpDataAdapter.ts:577-586 | The same for directory creation. |
| DataAdapter.DataAdapter.Remove | plugin/src/adapter/SftpDataAdapter.ts:588-608 | The same for removal; the cached copy is dropped in both modes. |
| DataAdapter.DataAdapter.Rmdir | plugin/src/adapter/SftpDataAdapter.ts:610-625 | The same for directory removal; the cached subtree is dropped in both modes. |
| DataAdapter.DataAdapter.Rename | plugin/src/adapter/SftpDataAdapter.ts:627-653 | The same for rename; source subtree and target leave the cache. |
| DataAdapter.DataAdapter.Copy | plugin/src/adapter/SftpDataAdapter.ts:655-666 | The same for copy; the target leaves the cache. |
| DataAdapter.DataAdapter.TrashLocal | plugin/src/adapter/SftpDataAdapter.ts:681-687 | The same for local trash, a rename below `.trash`. |
| DataAdapter.DataAdapter.ReplayQueuedOp | plugin/src/adapter/SftpDataAdapter.ts:711-768 | Replaying one queued operation performs the online edit it stands for. |
| DataAdapter.DataAdapter.DrainQueue | plugin/src/offline/QueueReplayer.ts:51-95 | A drain leaves the specified tree and cache, and the queue keeps exactly a suffix. |
| OfflineFilter.FilterCoversDifference | plugin/src/adapter/AdapterManager.ts:342-371 | For every path, private or shared, mapped by the client and placed below any base: wherever the queue, replayed up to its first failure, would make it appear or change, the filter keeps it; wherever it would make it disappear, the filter skips it. The exceptions are paths in the trash with an operation of kind `trashLocal`, and a recursive removal of the vault root. |
| OfflineFilter.CoveredExactly | plugin/src/adapter/AdapterManager.ts:560-590 | Exactly which operations the filter sees through, over all trees and paths: all but those two kinds. |
| OfflineFilter.FilterExactly | plugin/src/adapter/AdapterManager.ts:354-371 | The filter keeps and skips nothing more: a path is kept if and only if it is, is under or is above one an operation adds, and skipped if and only if it is or is under one an operation removes. |
| OfflineFilter.FiledForAReason | plugin/src/adapter/AdapterManager.ts:560-579 | No path is classified in vain: on some tree replaying the operation makes what it is filed as adding appear, and what it is filed as removing disappear, unless its two places exclude each other. |
| OfflineFilter.MappedNear | plugin/src/path/PathMapper.ts:177-184 | The reason private paths are covered: what lies at, under or above another path once both are mapped lay so before, any mix of private and shared. |
| OfflineFilter.RootMissesNothing | plugin/src/adapter/AdapterManager.ts:560-590 | An operation on the vault root other than a recursive removal changes nothing below it that another path it names does not account for. |
| OfflineFilter.EmptiedIsNotSkipped | plugin/src/adapter/AdapterManager.ts:560-590 | The second exception is real: emptying a vault of one file takes that file, and nothing skips it. |
| OfflineFilter.TrashedIsNotKept | plugin/src/adapter/AdapterManager.ts:560-579 | The first exception is real: such an operation makes the trash appear, on the empty tree already, and nothing keeps it. The adapter queues the rename instead (plugin/src/adapter/SftpDataAdapter.ts:681-687). |
| OfflineFilter.OpChanges | plugin/src/adapter/AdapterManager.ts:560-590 | What one replayed operation changes, whether or not it succeeds, lies at, under or above the paths it is filed under. |
| OfflineFilter.PendingOfflineFilter | plugin/src/adapter/AdapterManager.ts:354-371 | The loops compute that filter, and answer nothing exactly when nothing is queued. |
| OfflineQueue.CrashSafe | plugin/src/offline/OfflineQueue.ts:106-165 | A crash at any point of any append, tmp write or rename of one operation, inside a character of several bytes included: reopening the log yields exactly the pending entries of before or of after, same ids, same order. |
| OfflineQueue.CrashedLogIsWhole | plugin/src/offline/OfflineQueue.ts:178-225 | If what the crash left ends with a newline, the reopened queue is again in a reachable state, so operations may go on. |
| OfflineQueue.RequestKeeps | plugin/src/offline/OfflineQueue.ts:106-165 | Every operation keeps memory and log in step: the log is a record sequence whose replay gives the pending entries and both counters. |
| OfflineQueue.RequestMeans | plugin/src/offline/OfflineQueue.ts:106-165 | What each request does to the entries: an operation is taken exactly while the pending bytes and its own fit the cap, and comes last under the next id; completing takes out that entry alone; compacting none; clearing all. |
| OfflineQueue.ReopenTorn | plugin/src/offline/OfflineQueue.ts:178-225 | A log whose last line is torn between two characters reopens as if the line were absent, or complete if only its newline is missing. |
| OfflineQueue.ReopenSplitChar | plugin/src/offline/OfflineQueue.ts:178-225 | Torn inside a character, it reopens as if the line were absent. |
| OfflineQueue.RunInvariant | plugin/src/offline/OfflineQueue.ts:106-265 | Over any run of operations, restarts and crashes: the recorded size is the file size, the byte total is the exact sum over pending entries, entries are in id order, and reopening would yield them. |
| OfflineQueue.RunBounded | plugin/src/offline/OfflineQueue.ts:232-237 | Over any run of operations and restarts the log stays within 4096 plus twice the pending bytes. |
| OfflineQueue.RequestBounded | plugin/src/offline/OfflineQueue.ts:137-150 | One operation keeps that bound, and after an effective completion no compaction is due. |
| OfflineQueue.RestartKeeps | plugin/src/offline/OfflineQueue.ts:92-98 | A restart changes nothing but possibly the next id, and keeps that if and only if no id was ever given or the last one given still has a record in the log. |
| OfflineQueue.IdsReusedAfterClear | plugin/src/offline/OfflineQueue.ts:210-215 | The failing case: after a clear and a restart the first id is handed out again. |
| OfflineQueue.OfflineQueue.constructor | plugin/src/offline/OfflineQueue.ts:92-98 | Opening replays the log line by line into the specified state. |
| OfflineQueue.OfflineQueue.EnqueueOp | plugin/src/offline/OfflineQueue.ts:106-121 | Appends one line and one entry, or hands the id back and changes nothing when the cap would be exceeded. |
| OfflineQueue.OfflineQueue.MarkCompleted | plugin/src/offline/OfflineQueue.ts:137-150 | Tombstone, accounting, and compaction when due; an unknown id changes nothing. |
| OfflineQueue.OfflineQueue.ClearAll | plugin/src/offline/OfflineQueue.ts:153-157 | Empties memory and log. |
| OfflineQueue.OfflineQueue.CompactNow | plugin/src/offline/OfflineQueue.ts:163-165 | Rewrites the log to the pending entries in id order. |
| OfflineQueue.OfflineQueue.RewriteLog | plugin/src/offline/OfflineQueue.ts:244-265 | Tmp file, rename, new size. |
| Replay.RunOrdered | plugin/src/adapter/AdapterManager.ts:383-435 | Any interleaving of enqueues, drains, outcomes, failed completions, ended sessions and new ones: calls stay chained; every operation was handed over by a drain of the session of that moment to the adapter of that moment; and, unless the queue is cleared, completed operations are a prefix of enqueue order with the rest pending in order. |
| Replay.AtMostOneActive | plugin/src/adapter/AdapterManager.ts:383-390 | No two drains are under way at once. |
| Replay.DrainCompletesAll | plugin/src/adapter/AdapterManager.ts:392-406 | A drain that starts in its session and is left alone, every operation decided, completes all that is pending, in order. |
| Replay.OrderStep | plugin/src/offline/QueueReplayer.ts:58-95 | One step keeps the order: what is handed over next is the oldest operation not completed. |
| Replay.SessionsStep | plugin/src/adapter/AdapterManager.ts:400-406 | One step keeps the session rule, whatever the step, clearing included. |
| Replay.DiscardTakesEffect | plugin/src/adapter/AdapterManager.ts:443-458 | When clearing takes effect, the first time or again: some continuation hands over an operation discarded here if and only if a drain of the current session has one of them still to come in its snapshot. |
| Replay.PendingWasEnqueued | plugin/src/offline/OfflineQueue.ts:106-121 | What that needs besides the session rule holds in every run, clearing included: a pending operation has been enqueued. |
| Replay.DiscardCanFail | plugin/src/adapter/AdapterManager.ts:392-406 | Such a moment is reachable. |
| Replay.QueueReplayer.Run | plugin/src/offline/QueueReplayer.ts:51-101 | A drain nobody disturbs completes exactly the entries before the first error, leaves the rest queued, and reports the counts and that error. |
| Replay.AdapterManager.ReplayOfflineQueue | plugin/src/adapter/AdapterManager.ts:383-390 | Chains a call to the one before it. |
| Replay.AdapterManager.DrainOfflineQueue | plugin/src/adapter/AdapterManager.ts:392-406 | Starts a drain of a snapshot, or gives way if its session is over or has no adapter. |
| Replay.AdapterManager.Restore | plugin/src/adapter/AdapterManager.ts:322-327 | Ends the session. |
| Replay.AdapterManager.EntryMarked | plugin/src/offline/QueueReplayer.ts:73-86 | Removes the completed entry and hands over the next one. |
| WriteChains.WritesInOrder | plugin/src/adapter/SftpDataAdapter.ts:400-419 | Under every schedule, writes to one path run one at a time in issue order, whichever of them fail. |
| WriteChains.MutationAfterWrites | plugin/src/adapter/SftpDataAdapter.ts:421-435 | Under every schedule, a remove, rmdir, rename or copy runs only after every earlier-issued write at or under its paths has settled. |
| WriteChains.ChainWhileUnsettled | plugin/src/adapter/SftpDataAdapter.ts:410-419 | A path has a chain entry while one of its writes is unsettled, and none once all of them are cleaned up. |
| WriteChains.NeverStuck | plugin/src/adapter/SftpDataAdapter.ts:410-435 | Nothing waits for ever: while an operation is unsettled, it or an earlier one is running or may start. |
| WriteChains.NothingWaitsNeedlessly | plugin/src/adapter/SftpDataAdapter.ts:410-435 | Under every schedule a write waits only for the one before it to its path, and a mutation only for writes at or under its paths. |
| WriteChains.SftpDataAdapter.Serialized | plugin/src/adapter/SftpDataAdapter.ts:410-419 | Chains a write to the last one issued to its path. |
| WriteChains.SftpDataAdapter.WritesSettled | plugin/src/adapter/SftpDataAdapter.ts:429-435 | Collects exactly the chains at or under the given paths. |
| WriteChains.SftpDataAdapter.Forget | plugin/src/adapter/SftpDataAdapter.ts:415-417 | Drops a chain entry only if no later write has taken it over. |
| DiffEngine.LcsBacktrack | plugin/src/conflict/DiffEngine.ts:43-86 | The walk gives an edit script of both inputs that keeps as many lines as the longest common subsequence has; no script changes fewer lines; no addition is directly followed by a deletion. |
| DiffEngine.FillTable | plugin/src/conflict/DiffEngine.ts:52-67 | Every cell of the flat table is the longest common subsequence length of its two prefixes. |
| DiffEngine.ScriptKeepsAtMostLcs | plugin/src/conflict/DiffEngine.ts:43-86 | No edit script keeps more lines than the recursive definition allows, so the definition is the true optimum. |
| DiffEngine.LcsScriptIsOptimal | plugin/src/conflict/DiffEngine.ts:43-86 | A script reaching that number changes no more lines than any other script. |
| DiffEngine.MergeAdjacent | plugin/src/conflict/DiffEngine.ts:88-102 | The chunks flatten back to the operations; none is empty and neighbours differ in kind. |
| DiffEngine.MaximalIsUnique | plugin/src/conflict/DiffEngine.ts:88-102 | There is only one such grouping. |
| DiffEngine.DiffLines | plugin/src/conflict/DiffEngine.ts:30-34 | For all strings: the kept and deleted lines join to the first, the kept and added lines to the second, the number of changes is least, and all chunks are equal ones exactly when the strings are. |
| Lru.EvictIsShortestPrefix | plugin/src/cache/ReadCache.ts:122-134 | Eviction drops exactly the shortest oldest-first prefix that reaches the target. |
| Lru.PutProperties | plugin/src/cache/ReadCache.ts:69-80 | After an insert keys are distinct, the total is within the cap, no other entry changed, and nothing was evicted if all fitted. |
| Lru.PutKeepsNewest | plugin/src/cache/ReadCache.ts:69-80 | What is inserted is there afterwards, if it fits at all. |
| Lru.UsedLastGoesLast | plugin/src/cache/ReadCache.ts:47-58 | If an insert pushes out the entry used last, it pushes out every other. |
| ReadCache.ReadCache.Get | plugin/src/cache/ReadCache.ts:47-58 | The Map-ordered store refines the abstract one: a hit moves the entry to the young end. |
| ReadCache.ReadCache.Put | plugin/src/cache/ReadCache.ts:69-80 | Insert and eviction refine the abstract store with the cap as target; the byte counter stays exact. |
| ReadCache.ReadCache.EvictIfOverBudget | plugin/src/cache/ReadCache.ts:122-134 | The loop computes the abstract eviction and counts it. |
| ReadCache.ReadCache.Invalidate | plugin/src/cache/ReadCache.ts:82-87 | Removes that entry only. |
| ReadCache.ReadCache.InvalidatePrefix | plugin/src/cache/ReadCache.ts:93-105 | Deleting during iteration removes exactly the entries at or below the prefix, and counts them. |
| AncestorTracker.AncestorTracker.Remember | plugin/src/conflict/AncestorTracker.ts:54-70 | The tick-ordered store refines the same abstract store, with nine tenths of the cap as target. |
| AncestorTracker.AncestorTracker.Get | plugin/src/conflict/AncestorTracker.ts:77-82 | A hit is an abstract touch. |
| AncestorTracker.AncestorTracker.Invalidate | plugin/src/conflict/AncestorTracker.ts:89-94 | Removes that entry only. |
| AncestorTracker.AncestorTracker.EvictNow | plugin/src/conflict/AncestorTracker.ts:118-130 | Sorting by tick and deleting until the target is the abstract eviction. |
| PluginSync.FleetConverges | plugin/src/shadow/CommunityPluginsSync.ts:84-209 | Any number of devices, any readable lists and bases, any readable remote: after a schedule in which every device syncs and then every device syncs again, in any orders and with repeats, all local lists, all bases and the remote are equal as sets. |
| PluginSync.SettledRoundKeepsRemote | plugin/src/shadow/CommunityPluginsSync.ts:151-209 | The key step: a device whose list equals its base adopts the remote and leaves it as it was. |
| PluginSync.RoundSettles | plugin/src/shadow/CommunityPluginsSync.ts:84-209 | After its own sync a device, its base and the remote hold one and the same list, and no other device changed. |
| PluginSchedules.ScheduleIsEnough | plugin/src/shadow/CommunityPluginsSync.ts:84-209 | Exactly which schedules are enough: every readable fleet of a given size agrees after one if and only if by some round every device has synced and from that round on every device syncs again. |
| PluginSync.MergeConserves | plugin/src/shadow/CommunityPluginsSync.ts:421-446 | An id is in the result if and only if it is on a side or required and not removed; without a base nothing is lost. |
| PluginSync.MergeIdempotent | plugin/src/shadow/CommunityPluginsSync.ts:417-446 | Merging again over the same base gives the identical sequence. |
| PluginSync.MergeKeepsLocalOrder | plugin/src/shadow/CommunityPluginsSync.ts:421-446 | With nothing removed, the merge is the local list in its order, followed by what the remote adds. |
| PluginSync.ExtraPullsAreFree | plugin/src/shadow/CommunityPluginsSync.ts:117-127 | Any number of earlier pulls makes no difference to a pull. |
| PluginSync.NoBaseRemovesNothing | plugin/src/shadow/CommunityPluginsSync.ts:184-202 | A device without a base removes nothing from the remote. |
| PluginSync.InstallSurvives | plugin/src/shadow/CommunityPluginsSync.ts:421-446 | An install nobody revoked survives every schedule and is on the remote once its device has synced. |
| PluginSync.InstallSurvivesFailures | plugin/src/shadow/CommunityPluginsSync.ts:184-209 | Over every schedule in which any pushes may fail: an install nobody revoked is lost nowhere, and is on the remote once a push of a device that has it gets through. |
| PluginSync.FailedPushUndoesUninstall | plugin/src/shadow/CommunityPluginsSync.ts:196-208 | An uninstall is not so safe: two devices, and one failed push of the other device brings the plugin back that the same schedule without the failure removes for good. |
| PluginSync.ConvergesAfterFailures | plugin/src/shadow/CommunityPluginsSync.ts:84-209 | Whatever failed before, two sweeps that get through make all lists equal. |
| PluginSync.PushedBase | plugin/src/shadow/CommunityPluginsSync.ts:151-209 | A push leaves the base as it was or equal to the list the remote now holds, the former whenever the remote still lacks the merged list; it never changes the local list, and an unreadable list on either side stops it. |
| PluginSync.UnreadHasNoSay | plugin/src/shadow/CommunityPluginsSync.ts:94-125 | A pull never changes the base, nor a local list it could not read, and loses no id to a remote list it has not seen. |
| PluginSync.UninstallPropagates | plugin/src/shadow/CommunityPluginsSync.ts:421-446 | An uninstall no install crosses leaves the remote with its device's sync, for good. |
| PluginSchedules.LastNewsDecides | plugin/src/shadow/CommunityPluginsSync.ts:421-446 | Over every schedule, an id is on the remote in the end if and only if a device that had installed it has its first sync after the first syncs of all devices that had uninstalled it, or no device synced had news of it and the remote had it. |
| PluginSchedules.LaterFirstSyncWins | plugin/src/shadow/CommunityPluginsSync.ts:402-411 | An install crossing an uninstall, nobody else with news: the install survives if and only if the uninstalling device has its first sync first, however often and in whatever order both sync later. |
| PluginSync.MergePluginIds | plugin/src/shadow/CommunityPluginsSync.ts:421-446 | The loops with their mutable sets compute the specified merge. |
| PluginSync.Workspace.PullCommunityPlugins | plugin/src/shadow/CommunityPluginsSync.ts:84-134 | The pull, with its unreadable and absent cases. |
| PluginSync.Workspace.PushCommunityPlugins | plugin/src/shadow/CommunityPluginsSync.ts:151-209 | The push, with its unreadable, absent, unchanged and failed-write cases; it reports whether the remote changed, and what it may leave in the base is stated outright. |
| RpcClient.RunExactlyOnce | plugin/src/transport/RpcClient.ts:66-266 | In every interleaving of calls, replies, aborts, write failures and closes: each call settles at most once and cleans up exactly once if it registered a listener, the pending set is exactly the issued and unsettled calls, and after close it is empty for ever. |
| RpcClient.SettledByItsOwn | plugin/src/transport/RpcClient.ts:87-109 | A call settles only by its own reply, abort or write failure, or by close. |
| RpcClient.OutcomeStands | plugin/src/transport/RpcClient.ts:166-174 | How a call ended is never changed later. |
| RpcClient.HowExactly | plugin/src/transport/RpcClient.ts:66-266 | In every interleaving, how each call ended is known for exactly the settled ones, and exactly: resolved if and only if a reply without an error came while it was pending; with an error, likewise; abandoned by its abort; failed with its write; closed with the stream. |
| RpcClient.EndsExactly | plugin/src/transport/RpcClient.ts:87-243 | The same for one event: it changes the outcome of no other call. |
| RpcClient.IssuedEntry | plugin/src/transport/RpcClient.ts:74-109 | A call that stays pending is recorded with its time and size, under a fresh id, and with a listener exactly for a live signal. |
| RpcClient.AbandonedProbeLeavesNoTrace | plugin/src/transport/RpcClient.ts:57-65 | A call that is aborted leaves the pending set as it was. |
| RpcClient.RpcClient.Take | plugin/src/transport/RpcClient.ts:166-174 | Removes and cleans up at most once, and says whether it did. |
| RpcClient.RpcClient.CallMethod | plugin/src/transport/RpcClient.ts:66-111 | Issues a call, which may settle at once; refuses when closed. |
| RpcClient.RpcClient.HandleMessage | plugin/src/transport/RpcClient.ts:220-243 | Settles the call a reply belongs to, if it is pending: with an error reply if it carries an error, resolved if not. |
| RpcClient.RpcClient.OnAbort | plugin/src/transport/RpcClient.ts:90-103 | A late abort changes nothing. |
| RpcClient.RpcClient.HandleClose | plugin/src/transport/RpcClient.ts:256-266 | Settles every pending call; a second close changes nothing. |
| RpcClient.RpcClient.OldestPending | plugin/src/transport/RpcClient.ts:188-196 | The call waiting longest, the first issued among equals; none exactly when nothing is pending. |
| RpcHeartbeat.DeadDaemonDetected | plugin/src/transport/RpcHeartbeat.ts:149-219 | If from some time on no byte arrives, the backlog never shrinks and no call other than a probe is inside its grace, the verdict falls within the later of the next tick and that expiry, plus `maxMisses` probe timeouts and ticks. |
| RpcHeartbeat.DeadDaemonDetectedMidProbe | plugin/src/transport/RpcHeartbeat.ts:163-199 | The same when silence begins with a probe in flight, counted from the tick after that probe. |
| RpcHeartbeat.RunHonest | plugin/src/transport/RpcHeartbeat.ts:106-199 | In every order of events: the verdict falls only after `maxMisses` failed probes in a row with no progress between them, at most once, and never after a stop. An error reply is such a failure. |
| RpcHeartbeat.VerdictExactly | plugin/src/transport/RpcHeartbeat.ts:178-194 | A step gives the verdict if and only if it is the failure of a probe of a running watch that completes such a row, however each of them failed. |
| RpcHeartbeat.AnyFailuresKill | plugin/src/transport/RpcHeartbeat.ts:175-194 | On an idle line any row of failures gives the verdict, for instance time limits followed by a last probe answered with an error. |
| RpcHeartbeat.OnlyTheLastMayBeRefused | plugin/src/transport/RpcHeartbeat.ts:163-199 | In time, with a probe and a tick within the idle time and every reply a byte arriving: all probes of the row but the last went unanswered, so the verdict's text is true if and only if the last one got no error reply. |
| RpcHeartbeat.ErrorReplyEndsStreak | plugin/src/transport/RpcHeartbeat.ts:149-171 | There an error reply that does not give the verdict makes the next tick see progress. |
| RpcHeartbeat.VerdictMeansSilence | plugin/src/transport/RpcHeartbeat.ts:163-198 | With a byte clock and a probe timeout plus tick within the idle time, a verdict means that no byte arrived during the whole streak of probes. |
| RpcHeartbeat.ProbedExactly | plugin/src/transport/RpcHeartbeat.ts:149-174 | When a tick sends a probe, in plain numbers: a running watch, no probe out, the backlog zero or not smaller than last remembered, the idle time up, and no call younger than its grace plus its bytes at 8 a millisecond. |
| RpcHeartbeat.VerdictMeansStalled | plugin/src/transport/RpcHeartbeat.ts:149-198 | A verdict, in whatever world: at each of the last `maxMisses` ticks all of that held, and the probe then sent failed. |
| RpcHeartbeat.CallInGraceHoldsOff | plugin/src/transport/RpcHeartbeat.ts:153-160 | So while some call is inside its grace no verdict ever falls, whatever the probes do. |
| RpcHeartbeat.NextTickIsSteps | plugin/src/transport/RpcHeartbeat.ts:120-199 | The timed watch used for those bounds takes exactly the steps of the event machine. |
| RpcHeartbeat.RpcHeartbeat.OnTick | plugin/src/transport/RpcHeartbeat.ts:163-174 | One tick: idle, progress or a probe; when a probe is sent is stated in plain numbers. |
| RpcHeartbeat.RpcHeartbeat.OnProbeEnd | plugin/src/transport/RpcHeartbeat.ts:175-199 | A probe's end: reset, miss or verdict; ignored once stopped. |
| RpcHeartbeat.RpcHeartbeat.IsMakingProgress | plugin/src/transport/RpcHeartbeat.ts:149-161 | The three signs of progress in plain numbers, and the backlog remembered. |
| RpcHeartbeat.RpcHeartbeat.StartWatching | plugin/src/transport/RpcHeartbeat.ts:106-109 | Schedules a tick unless one is due or the watch is over. |
| RpcHeartbeat.RpcHeartbeat.StopWatching | plugin/src/transport/RpcHeartbeat.ts:112-118 | Final. |
| PathMapper.MatchIsSegmentPrefix | plugin/src/path/PathMapper.ts:50-64 | The string test and the wildcard test are one relation: a segment prefix with wildcards. |
| PathMapper.ChildIsListed | plugin/src/path/PathMapper.ts:205-233 | Wherever a child of a path is stored, it is a direct child, under its own name, of a directory that listing the path reads. |
| PathMapper.CrossingAbove | plugin/src/path/PathMapper.ts:160-168 | A shared directory with a private child is a crossing point: prefix matching and same-depth matching fit together. |
| PathMapper.CrossingExactly | plugin/src/path/PathMapper.ts:160-168 | And exactly: a shared directory is a crossing point if and only if something directly in it would be private. |
| PathMapper.RoundTrip | plugin/src/path/PathMapper.ts:177-196 | `toVault` undoes `toRemote` if and only if the path is not already in this client's private subtree. |
| PathMapper.ToRemoteInjective | plugin/src/path/PathMapper.ts:177-184 | Two different such paths are never stored in one place. |
| PathMapper.ToRemoteIdempotent | plugin/src/path/PathMapper.ts:177-184 | Mapping twice is mapping once. |
| PathMapper.PrivateImagesDisjoint | plugin/src/path/PathMapper.ts:126-146 | Clients with different slash-free ids never store a private path in the same place. |
| PathMapper.DefaultsLeaveUserDirAlone | plugin/src/path/PathMapper.ts:21-43 | The default patterns meet what these need if and only if the configuration directory is not itself named `plugins`, for every such directory without a wildcard segment. |
| MergedListing.ExistingChildIsListed | plugin/src/adapter/SftpDataAdapter.ts:277-325 | An existing child is listed exactly once, and missing exactly when it is the hidden `user` directory, or a redirected child whose subtree listing failed and whose name the shared directory lacks. |
| MergedListing.ListedChildExists | plugin/src/adapter/SftpDataAdapter.ts:277-325 | A listed child exists where it is stored, unless it is a leftover: a shared copy of a redirected child, or a subtree copy of a shared one. When its kind is right is stated exactly too. |
| MergedListing.SharedCopyIsListed | plugin/src/adapter/SftpDataAdapter.ts:277-325 | Such a leftover: a shared copy of a private name in the configuration directory, nothing in the client's subtree; the listing names it and nothing is stored where it is read from. |
| MergedListing.AppSettingsArePrivate | plugin/src/path/PathMapper.ts:21-35 | Under the default patterns `app.json` is such a name. |
| MergedListing.List | plugin/src/adapter/SftpDataAdapter.ts:307-325 | The de-duplicating loop computes the merged listing. |
| MergedListing.OnlyUserDirIsHidden | plugin/src/path/PathMapper.ts:216-231 | Only the configuration directory hides anything, and only `user`. |
| WatchEventFilter.EventRoundTrip | plugin/src/path/WatchEventFilter.ts:27-66 | The event for a path's remote file comes back as that path if and only if it is neither a temporary name nor the user directory or below it. |
| WatchEventFilter.ForeignEventDropped | plugin/src/path/WatchEventFilter.ts:57-62 | An event for another client's private file is dropped. |
| WatchEventFilter.DeliveredEventNamesItsFile | plugin/src/path/WatchEventFilter.ts:50-65 | A delivered event carries the vault path its place maps back to, and that path is stored in this very place except for exactly those leftovers. |
| SftpClient.SftpClient.ListRecursive | plugin/src/ssh/SftpClient.ts:511-539 | On any finite tree, with any set of unreadable directories and any filter: terminates, and returns exactly once each descendant reachable through readable directories and kept steps. |
| SftpClient.EveryDescendantVisible | plugin/src/ssh/SftpClient.ts:511-539 | With everything readable and no filter that is every strict descendant. |
| SftpClient.SftpClient.Rmdir | plugin/src/ssh/SftpClient.ts:644-663 | Succeeds if and only if the root is a directory, nothing in its subtree is locked and, for a recursive call, everything below was seen; then the tree is the old one minus exactly the subtree; a failure removes nothing outside it and orphans nothing. |
| SftpClient.SftpClient.RemoveDirs | plugin/src/ssh/SftpClient.ts:654-658 | Removing directories deepest first succeeds if and only if none is locked and no child stays behind: no call meets a directory that is not empty. |
| SftpClient.DeletesLikeOneCall | plugin/src/ssh/SftpClient.ts:644-663 | Without failures the many calls succeed exactly where one atomic removal would. |
| SftpClient.SftpClient.List | plugin/src/ssh/SftpClient.ts:493-509 | The entries of one directory, each once, in any order. |
| SftpClient.SftpClient.Mkdirp | plugin/src/ssh/SftpClient.ts:632-642 | Creates the missing directories of a chain, or meets a file in the way and has then created nothing. |
| RangeServing.FastEqualsFull | plugin/src/adapter/ResourceBridge.ts:273-328 | For every header and file, one clamped ranged read gives the status, `Content-Range`, length and bytes of slicing the whole file, with double rounding of huge numbers taken into account. |
| RangeServing.PartialIsWhatWasAsked | plugin/src/adapter/ResourceBridge.ts:331-379 | A 206 carries exactly the positions the header asks for in the sense of RFC 7233 section 2.1, labelled with them. |
| RangeServing.AgreesWithRfc | plugin/src/adapter/ResourceBridge.ts:421-452 | The status is the one RFC 7233 sections 2.1, 3.1 and 4.4 ask for if and only if the header is one valid range and, where that is satisfiable, its numbers are finite and the file is not empty. |
| RangeServing.BackwardsRange | plugin/src/adapter/ResourceBridge.ts:421-452 | Where it is not: `bytes=5-3` on any file that is not empty is answered with 416, and the RFC asks for 200. |
| RangeServing.SpelledHeader | plugin/src/adapter/ResourceBridge.ts:426-432 | A header of the written-out grammar is read as that range. |
| RangeServing.HeaderIsSpelled | plugin/src/adapter/ResourceBridge.ts:426-432 | Whatever is read as a range is spelled by that grammar. |
| RangeServing.ResourceBridge.HandleRequest | plugin/src/adapter/ResourceBridge.ts:230-235 | Whatever is cached for the path and whichever ranged reads fail, the response is the one of the full path. Without a range it is 200 with the length and all bytes of the file, none for HEAD; a 416 carries the size and no body. |
| RangeServing.HeadLikeGet | plugin/src/adapter/ResourceBridge.ts:331-379 | A HEAD request gets the status, length and `Content-Range` of the GET request, and no body; the status is 200 exactly without a range. |
| RangeServing.PinLives | plugin/src/adapter/ResourceBridge.ts:385-395 | A pin lives 30 seconds from its last use: a lookup renews or drops it, and touches no other. |
| RangeServing.ResourceBridge.ServeRangeFastPath | plugin/src/adapter/ResourceBridge.ts:273-328 | Serves that response or falls through; with the transport up it serves every header with both ends. |
| RangeServing.ResourceBridge.StoreMtime | plugin/src/adapter/ResourceBridge.ts:398-409 | Refines the abstract store with 64 entries as its cap. |
| RangeServing.ResourceBridge.LookupMtime | plugin/src/adapter/ResourceBridge.ts:385-395 | A live pin is refreshed in place, a stale one dropped. |
| Text.AtOrUnderIsSegmentPrefix | plugin/src/adapter/AdapterManager.ts:581-585 | The string prefix test used for paths is the prefix order on segments. |

## Left out

- The JSON codec of the log: assumed to give one non-empty line a record, to read it back, and to reject
  every proper prefix of one, cut inside a character or not (`OfflineQueue.Sound`).
- Log operations overlapping each other, appending after a torn last line, and the copy-and-unlink
  fallback on Windows: the queue has one owner and one operation at a time.
- Replay against a server that enforces `expectedMtime`, and with it the conflict dialogs: an offline
  write puts an invented mtime in the cache that the next queued write records.
- OfflineEqualsOnline.OfflineEqualsOnline: covers edits that are valid online; an edit the remote would
  refuse stops the drain, and `Replay` takes over from there.
- OfflineEqualsOnline.LifetimeEqualsOnline: requests made while a drain is under way are not part of it
  (what becomes of such an edit is `InterruptedDrain.EditDuringDrain`), nor is an append that waits out a
  reconnect and is queued only when the session is already back.
- InterruptedDrain.EditDuringDrain: the edit is a write that falls between two replayed operations and
  fails none of the rest; requests in flight at the same time are left to `WriteChains`.
- OfflineFilter.FilterCoversDifference: with a path mapper, says nothing of paths with a leading slash or
  inside the user directory that the mapper owns.
- DataAdapter.DataAdapter.ReadBuffer: the bounded wait for a reconnect and the retired adapter are not
  modelled; a read the cache cannot serve while reconnecting fails.
- The directory cache, whose entries may be stale until their time is up: listings are read from the tree.
- Ticks wrapping past the largest safe integer, and rounding of byte counts above it.
- Line tables beyond the range of a 32-bit cell; invalid UTF-8, whose decoding is an arbitrary function.
- WriteChains.MutationAfterWrites: says nothing of writes issued after a mutation, which the code does not hold back.
- RpcHeartbeat.DeadDaemonDetected: covers one timer chain; starting the watch again while a probe is out
  would add a second one, which `RpcHeartbeat.RunHonest` does allow.
- PluginSync.FleetConverges: its rounds get through (what failed before them does not matter, by
  `PluginSync.ConvergesAfterFailures`), the base of a device is always written, and two devices never push
  at the same moment; agreement is up to order, since devices keep their own.
- SftpClient.SftpClient.Rmdir: other clients changing the tree meanwhile, and symbolic links.
- Collisions of temporary names in atomic writes: a write is one step of the client.
- A rename, the last step of an atomic write included, replaces its target. Without the POSIX rename
  extension the client falls back to the plain SFTP rename (plugin/src/ssh/SftpClient.ts:578-590), which may
  refuse a target that exists.
- RangeServing.ResourceBridge.HandleRequest: one file generation for a request; a file that changes between
  the two ranged reads is served from the second.
- Requests for files that cannot be read (404), thumbnails, and the checks of token and path before a file
  is served.
- RangeServing.AgreesWithRfc: `bytes` is compared case-sensitively, as the code does.
- `ReconnectManager`, `SharedConfigWatcher`, framing, bulk walking, the vault model, the daemon itself,
  SSH, authentication, HTTP plumbing, and all user interface: assumed or not needed.
- Version comparison and the round trip of plugin binaries: easy and independent of the rest.
