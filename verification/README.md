# Verified model of oceanfile

oceanfile is a C++ file server and sync client. This project models its five state
machines and algorithms in Dafny and proves what they promise, over every input, every
interleaving of threads and every answer of the outside world.

- **RPC event machine** (`Rpc`, `RpcSend`, `RpcService`, `RpcServiceProof`, `RpcTheorems`,
  `RpcStreams`, `RpcReads`, `RpcRuns`, `RpcEvents`, `RpcObjects`): the asynchronous gRPC server of `src/async_grpc`. `Rpc` is one
  server-side call as an automaton over its pending flags, its send queue, its share of the event
  queue, the tags gRPC holds, the threads inside Write and Finish, and what the event thread is doing with it.
  The event thread begins with an event, its handler queues and pushes one access at a time, and it ends; gRPC and
  other threads move in between. `RpcService` puts many calls on several shared event queues. The
  proofs give the lifetime of calls, the order of what they send, the absence of lost wake-ups, that request
  streams are read to their end and the conservation of accept slots in every state a server can reach, and runs in
  which calls are served from the connection to the end. `RpcObjects` holds the classes that
  update these fields in place, each method proved equal to the function it refines; the table lists those with
  branches or loops, and not the setters they call. `RpcEvents` shows that such a method, run from beginning to end, is
  a run of the machine.
- **Parallel scan and sync** (`Worklist`, `Scan`, `ScanProof`, `ScanTheorems`, `ScanRuns`, `ScanStatus`,
  `RecursiveSync`, `RecursiveSyncRuns`, `Subtrees`, `Sync`, `SyncShards`):
  workers on a shared directory queue. Every locked region and every queue access is one step. Both
  machines refine one worklist protocol, from which quiescence follows. The incremental scan is compared
  with a scan from scratch, the recursive sync is shown to deal with every visible file once, and the counters of
  both syncs are shown to say what happened. Scan and sync can come to their end on every tree.
- **Chunked upload** (`Partition`, `Upload`, `Transfer`, `TransferRuns`, `SendLoop`): cutting a file, the server's range
  check and positioned writes, what it counts, the client's marks, the transfer end to end, which files can be
  uploaded, and how the client decides that the stream may be closed.
- **Session tables** (`Sessions`): two maps of the same sessions that have to agree.
- **Lexical paths** (`Paths`, `RelativePaths`): `UnifyDir`, `FindCommonRoot`, `Relative`, `SimplifyPath` as
  a printer and a parser with round trips.
- `Options` and `Arithmetic` are shared helpers.

Where a law one would expect is false of the code, the model keeps the code, and a lemma states the law as an
if-and-only-if with the condition under which it holds:

| law | holds exactly when | an input outside |
|---|---|---|
| simplifying a prefix first changes nothing | not: the prefix is a nonempty relative path that cancels to "", and what follows simplifies | `CancelledPrefix` |
| `base/Relative(path, base)` leads back to `path` | the common root is `path`, or is not "/" and ends at a component boundary | `OffBoundaryInputs` |
| the parts tile the file and every chunk is taken | the file is not one byte short of a full last part (and the part count fits an int32) | `SevenByFour` |
| a successful upload leaves the source's bytes, when no bytes are lost at close | the target was absent or not longer than the source | `LongerTargetKeepsTail` |
| a new target holds the source's bytes (for sources without zero bytes) | every part reached the file in full at some time; an acknowledgement does not say so | `LostBytesAcknowledged` |
| a complete request has counted every part of the file | it did not count the part number behind them; that number is taken only when the part size divides the file, with no byte, or with one where parts have one byte | `PartSizeOneMiscounts`, `EmptyPartMiscounts` |
| an upload can succeed | the file is not one byte short of a full last part | `OneShortNeverSucceeds` |
| UnifyDir leaves no double separator | one trailing separator dropped, there were no three in a row | "a///b", by `SqueezeRun` |
| logging out by token ends the session | the by-user table still has the user | `SecondLogoutIsLost` |
| kicking out a user leaves no token accepted for them | every token accepted for them is the one QueryUserToken returns | `ReturnAfterExpiry` |
| the two session tables stay in bijection | every login finds QueryUserToken without an answer for its user; that no token of the user is live is not enough | `ReturnAfterExpiry` |
| an incremental scan ends complete | no cached path exists as something else, lies below an ignored directory, or is ignored | `ReplacedIsLeftOver`, `NewlyIgnoredIsLeftOver` |
| the sharded sync settles every file | no directory hashes to INT64_MIN, unless the thread count divides 2^63 | `NoWorkerForMinimum` |
| total = success + fail after a recursive sync | no library call threw in the middle of a file | `ThrowIsUncounted` |
| handling an accept keeps the server in order | it is ok while serving, failed while shutting down | `LateAcceptHappens` |
| a thread inside Write or Finish can push its wake-up | its call is still active; it is stranded exactly when the handling of the call's last pending event ends between its lock of the pointer and its push | `StrandedHappens` |

Two more promises are not kept. Nothing is ever resent: when the client starts to watch the marks, its input stream has
failed and seeking does not clear that (`LinkStepInv`), so that a refused part with no request in flight rules out SUCCESS
(`LostNeverSucceeds`). A part that is counted may have lost its bytes at close (`LostPartIsCounted`).

## Model

| member | source | states |
|---|---|---|
| Rpc.AliveStep | src/async_grpc/service.cc:78-143 | no step of gRPC, the event thread, a handler or another thread leaves an active call between two events without a held tag, or lets go of one that still has a tag with gRPC or in the queue |
| Rpc.AliveHolds | src/async_grpc/rpc.cc:313-318 | between two events a live call has a tag with gRPC or in the queue |
| Rpc.BegunPending | src/async_grpc/service.cc:103-143 | beginning with an event clears its own flag, keeps the others, and sets only READ, WRITE or FINISH |
| Rpc.AliveEnd | src/async_grpc/service.cc:103-143 | at the end of an event a call is kept with a held tag, or let go of with none |
| RpcSend.SendStep | src/async_grpc/rpc.cc:161-193 | every step keeps the order of the stream, the message in flight, and a wake-up for whatever waits |
| RpcSend.StreamInOrder | src/async_grpc/rpc.cc:173-193 | in every reachable state the transport got a prefix of what was written, each item by the right operation, the next only after the last one's completion was handled, never WRITE and FINISH at once, and `response_` still is the message in flight |
| RpcSend.NoLostWakeup | src/async_grpc/rpc.cc:161-183 | while no finish was started, a waiting item with no WRITE in flight implies a WRITE_NEEDED queued or about to be pushed by a thread inside Write or Finish |
| RpcSend.BidiStreamOrder | src/server/grpc_handler/file_handler.h:20-26 | with one Send per request and one Finish at reads-done, the transport gets a prefix of m1, ..., mk, Finish, and after the Finish nothing is left |
| RpcSend.UnaryStep | src/async_grpc/rpc.cc:142-193 | the phases of a unary call are kept by every single access of the handler, the event thread and gRPC; no WRITE_NEEDED is ever behind the FINISH tag |
| RpcSend.UnaryFinishesOnce | src/async_grpc/rpc.cc:269-292 | however gRPC and the accesses of the handler interleave, a unary call starts at most one transport operation, a Finish carrying the response; the second queued item never leaves |
| RpcService.ProjectConcat | src/async_grpc/common/blocking_queue.h:48-87 | one call's events in a shared FIFO queue: appending to the queue appends to its share |
| RpcServiceProof.InvStep | src/async_grpc/service.cc:57-143 | the invariant of the whole server is kept by every step: every tag belongs to an active call and waits in the queue of that call's thread, and every active call satisfies its own invariants |
| RpcServiceProof.ActorTouches | src/async_grpc/server.cc:136-168 | a step of one call changes nothing of any other: their fields, tags, threads, events and handling stay |
| RpcServiceProof.ActorFollows | src/async_grpc/service.cc:57-143 | and for that call it is exactly one step of its automaton, its end included |
| RpcServiceProof.ActorStep | src/async_grpc/server.cc:154-168 | so it keeps the invariant, clone and removal included |
| RpcServiceProof.GoneStep | src/async_grpc/rpc.cc:46-52 | dropping a wake-up of a call that is gone keeps it, and so does a thread that moves on inside such a call short of its push |
| RpcServiceProof.ActorReleases | src/async_grpc/service.cc:139-143 | when a call is let go of, gRPC holds none of its tags and only wake-ups of it are queued |
| RpcServiceProof.CloneOk | src/async_grpc/service.cc:96-101 | only the end of an accept adds a call: of the same method, kind and completion queue, on the event queue chosen, waiting for its connection |
| RpcTheorems.Lifetime | src/async_grpc/rpc.cc:351-374 | in every reachable state no call is used after it was let go of, every tag held or queued and every event at hand belongs to an active call, and every active call has one |
| RpcTheorems.DrainedIsEmpty | src/async_grpc/rpc.cc:351-356 | the set of active calls is empty exactly when every tag is back and worked off, so "RPCs still in flight!" cannot happen then |
| RpcTheorems.AcceptExact | src/async_grpc/service.cc:78-101 | handling an accept keeps the invariant if and only if it is ok while serving or failed while shutting down |
| RpcTheorems.LateAccept | src/async_grpc/service.cc:79-85 | an ok accept handled while shutting down leaves the DONE tag with gRPC or in a queue and its call no longer active |
| RpcTheorems.LateAcceptHappens | src/async_grpc/service.cc:79-85 | every server with a method to serve can get there, stopped before or after the accept came back, and when gRPC then returns DONE a call is used that is gone |
| RpcTheorems.StrandedExactly | src/async_grpc/rpc_handler.h:44-68 | a thread that has locked its call and not pushed yet is stranded by exactly one kind of step: the handling of the call's last pending event ends |
| RpcTheorems.StrandedStays | src/async_grpc/rpc.cc:380-385 | no step but the aborting push frees it |
| RpcTheorems.StrandedAborts | src/async_grpc/rpc.cc:161-171 | left to itself it aborts the process |
| RpcTheorems.EntryStrands | src/async_grpc/service.cc:116-143 | whatever the last event is, a thread that locks the call before its handling ends is stranded, also with its item queued after the send queue was looked at |
| RpcTheorems.StrandedHappens | src/async_grpc/service.cc:92-143 | it happens in every server whose first method takes no request stream, at the end of its first connection |
| RpcTheorems.PushExact | src/async_grpc/rpc.cc:380-385 | a push keeps the server in order if and only if its call is still active |
| RpcTheorems.AcceptSlots | src/async_grpc/service.cc:39-53 | while serving, exactly one active call per method and completion queue waits for a connection or is just being connected, and it serves the method's kind |
| RpcTheorems.SlotPasses | src/async_grpc/service.cc:92-101 | the end of an accept passes its slot to the clone; no other step changes any slot |
| RpcTheorems.StartedSlot | src/async_grpc/service.cc:39-53 | after StartServing every slot is taken once |
| RpcTheorems.StartedInv | src/async_grpc/service.cc:39-53 | the state after StartServing satisfies the invariant |
| RpcReads.ReadsStep | src/async_grpc/rpc.cc:88-96 | every step of an automaton keeps its READ going until the client ends the stream, and a request stream is let go of only then |
| RpcReads.EveryStreamIsRead | src/async_grpc/rpc.cc:142-159 | in every reachable state a connected request stream that was not ended has exactly one READ with gRPC or in its queue, or its thread is dealing with a request; one that was ended, and a call without a request stream, has none |
| RpcReads.LetGoAfterReads | src/async_grpc/service.cc:103-143 | no connected request stream is let go of before its client has ended it |
| RpcRuns.StreamIsServed | src/async_grpc/service.cc:57-143 | for every list of answers a bidirectional stream has a run in which exactly they are sent in order, then the finish, and the call is let go of |
| RpcRuns.UnaryIsServed | src/async_grpc/service.cc:57-143 | for every answer a unary call has a run in which exactly it is sent and the call is let go of |
| RpcStreams.StepProjects | src/async_grpc/service.cc:57-76 | every step of the server is, for each call that stays, one step of its automaton or none |
| RpcStreams.NewcomerIsFresh | src/async_grpc/service.cc:96-101 | a call the server adds starts as a fresh automaton |
| RpcStreams.EveryRpcSendsInOrder | src/async_grpc/rpc.cc:161-193 | every active call of every reachable state sends in order, one operation at a time, and loses no wake-up, whatever the handlers and other threads do |
| RpcStreams.EveryRpcWellServed | src/async_grpc/rpc.cc:269-303 | with the repository's handlers, every active stream has sent a prefix of m1, ..., mk, Finish and every active unary call at most its one answer |
| RpcObjects.Rpc.HandleSendQueue | src/async_grpc/rpc.cc:173-193 | sends the next item when idle, exactly as the automaton does, and hands over exactly the flags it set |
| RpcObjects.Service.SelectNextEventQueueRoundRobin | src/async_grpc/server.cc:147-152 | the next queue in turn, the first after the last |
| RpcObjects.Service.StartServing | src/async_grpc/service.cc:39-53 | its two loops fill every slot once, with event queues assigned in turn |
| RpcObjects.Service.RunHandler | src/async_grpc/rpc.cc:161-171 | a callback's calls of Write and Finish queue their items and one wake-up each, in order |
| RpcObjects.Service.HandleRead | src/async_grpc/service.cc:103-114 | handler, then another read, or the end of the reads |
| RpcObjects.Service.HandleWrite | src/async_grpc/service.cc:116-125 | next item, then possibly the end |
| RpcObjects.Service.HandleNewConnection | src/async_grpc/service.cc:78-101 | refused, failed or connected with a clone in its place |
| RpcObjects.Service.AddClone | src/async_grpc/service.cc:96-101 | the clone gets the next event queue and its accept is handed over |
| RpcObjects.Service.HandleEvent | src/async_grpc/service.cc:57-76 | clearing the flag and dispatching, in one go |
| RpcObjects.Service.HandleHead | src/async_grpc/server.cc:154-168 | popping and handling the head of a queue, in one go |
| RpcEvents.HeadFacts | src/async_grpc/server.cc:154-168 | in every state the server can reach, HandleHead may be called |
| RpcEvents.Uninterrupted | src/async_grpc/server.cc:154-168 | what HandleHead does is a run of the state machine: the beginning, an enqueue and a push per call of the handler, the end |
| RpcEvents.RefusedAtOnce | src/async_grpc/service.cc:79-90 | for an accept that is refused or failed it is the first step alone |
| RpcObjects.EventCleared | src/async_grpc/rpc.cc:41-44 | clearing the flag first and then handling is one step |
| Worklist.AttendedStep | src/impl/scan_manager.h:392-447 | queued work is always in front of a worker that has not decided to leave |
| Worklist.QuiescentIsEmpty | src/impl/sync_manager.h:165-190 | running_mark zero after the launch means an empty queue |
| ScanProof.Step | src/impl/scan_manager.h:428-533 | every step of every worker keeps the scan invariant: what is recorded is true, what is missing is still owed by the queue or a worker |
| ScanProof.VisitStep | src/impl/scan_manager.h:491-505 | recording one directory entry keeps it, also with several workers on one directory |
| ScanProof.ResetStep | src/impl/scan_manager.h:218-241 | AddDirItem emptying a record that another worker is filling keeps it |
| ScanTheorems.Refines | src/impl/scan_manager.h:428-533 | every step of a scan is a step of the worklist protocol |
| ScanTheorems.ScanQuiescence | src/impl/scan_manager.h:392-406 | when running_mark is zero again no directory is left in the queue |
| ScanTheorems.ScanCompletes | src/impl/scan_manager.h:347-426 | from a usable cache, for every interleaving, a finished scan holds exactly the visible directories with exactly their regular files and symlinks |
| ScanTheorems.EntriesRecorded | src/impl/scan_manager.h:482-505 | so each visible directory is recorded with its time and exactly its regular files and symlinks, each with its type |
| ScanRuns.ListedExactly | src/impl/scan_manager.h:469-480 | in a finished scan a visible directory was listed if and only if it was not cached with the same time under the same hash method |
| ScanRuns.ScanCanFinish | src/impl/scan_manager.h:392-447 | from any cache every tree has a scan after which running_mark is zero again |
| ScanTheorems.OlderIsUsable | src/impl/scan_manager.h:469-480 | the status of a completed older scan that ignored no more is such a cache, when nothing in it is left over |
| ScanTheorems.IncrementalExact | src/impl/scan_manager.h:375-381 | a scan from an older status, also with more ignored directories, ends complete if and only if no cached path exists as something else, lies below an ignored directory, or is ignored |
| ScanTheorems.LeftoverSameIgnored | src/impl/scan_manager.h:457-460 | with the same ignored directories only the first of these is possible |
| ScanTheorems.ReplacedIsLeftOver | src/impl/scan_manager.h:457-460 | such a path: a directory replaced by a file or by a symbolic link |
| ScanTheorems.NewlyIgnoredIsLeftOver | src/impl/scan_manager.h:62-64 | such a path: a directory ignored from the second scan on, as after a first scan, which stores no ignored directories |
| ScanTheorems.CompleteIsUnique | src/impl/scan_manager.h:428-533 | there is only one complete status of a tree |
| ScanTheorems.IncrementalEqualsFull | src/impl/scan_manager.h:347-533 | the incremental scan equals the scan from scratch, for any two schedules and thread counts |
| ScanStatus.CountFiles | src/impl/scan_manager.h:103-110 | regular and other entries of one directory |
| ScanStatus.CountAll | src/impl/scan_manager.h:125-139 | the same over all directories |
| ScanStatus.FilesOfExact | src/impl/scan_manager.h:103-110 | regular files are counted apart from all others, and every entry once |
| ScanStatus.ValidateScanStatus | src/impl/scan_manager.h:73-123 | accepts exactly the consistent statuses |
| ScanStatus.AcceptedExactly | src/impl/scan_manager.h:83-122 | these are: the path is the source, every record is filed under its own relative path, and both counters are right |
| ScanStatus.DumpIsAccepted | src/impl/scan_manager.h:141-177 | whatever state a scan has reached, its dump is accepted by its own validator after an exact reload if and only if the status path is the source |
| ScanStatus.RegionsFrame | src/impl/scan_manager.h:218-345 | every locked region changes the record of one directory only |
| ScanStatus.RegionsReplace | src/impl/scan_manager.h:218-241 | AddDirItem leaves a fresh empty record with the time given, RemoveDir none |
| ScanStatus.RegionsUpdate | src/impl/scan_manager.h:265-345 | AddFileItem sets one file, RemoveFile keeps exactly the files named, and setting the time changes nothing else |
| ScanStatus.ScanContext.constructor | src/impl/scan_manager.h:366-369 | starts from the cached status |
| ScanStatus.ScanContext.AddDirItem | src/impl/scan_manager.h:218-241 | a fresh empty record replaces or adds |
| ScanStatus.ScanContext.AddFileItem | src/impl/scan_manager.h:265-306 | recorded in its directory, refused without one |
| ScanStatus.ScanContext.RemoveDir | src/impl/scan_manager.h:308-323 | the record is gone |
| ScanStatus.ScanContext.RemoveFile | src/impl/scan_manager.h:325-345 | exactly the listed names stay |
| ScanStatus.ScanContext.SetUpdateTime | src/impl/scan_manager.h:514-520 | only the time of an existing record changes |
| ScanStatus.ScanContext.SumStatus | src/impl/scan_manager.h:125-139 | the counters become those of the records |
| RecursiveSync.Refines | src/impl/sync_manager.h:283-388 | every step of the recursive sync is a step of the worklist protocol |
| RecursiveSync.RecursiveSyncAccounts | src/impl/sync_manager.h:151-190 | at rest no directory is left, success, skipped, fail and the failed list count exactly the files with that outcome, and total = success + fail if and only if no step of the run threw in the middle of a file |
| RecursiveSync.InAllStep | src/impl/sync_manager.h:303-325 | no step but one that gives a directory up changes how often a visible directory or file was dealt with or is still to be |
| RecursiveSync.EveryTargetOnce | src/impl/sync_manager.h:283-388 | for every interleaving no directory is entered and no file begun twice or without being visible, and at rest, if nothing was given up, every visible one was |
| RecursiveSync.FailedOnce | src/impl/sync_manager.h:359-375 | the failed list names visible files only, none twice |
| RecursiveSync.RecursiveSyncCovers | src/impl/sync_manager.h:151-190 | at rest, if nothing was given up, the directory and file counters are the numbers of visible ones, and each file is a success or a failure |
| RecursiveSyncRuns.SyncCanFinish | src/impl/sync_manager.h:165-190 | every tree has a sync that comes to rest with nothing given up |
| RecursiveSyncRuns.ThrowIsUncounted | src/impl/sync_manager.h:381-383 | a run with one file that throws: total 1, success and fail 0 |
| Sync.TakenExactly | src/impl/sync_manager.h:396-399 | a directory has a worker unless it hashes to INT64_MIN and the thread count does not divide 2^63 |
| Sync.NoWorkerForMinimum | src/impl/sync_manager.h:396-399 | with three threads that hash selects worker -2 |
| Sync.WorkersInTurn | src/impl/sync_manager.h:396-399 | hashes go to the workers in turn, those of opposite sign alike |
| Sync.FileOutcome | src/impl/sync_manager.h:428-484 | one file counts as exactly one of success and failure: success if it exists with a valid time and is up to date or was copied and stamped; skipped if up to date; listed if copying or stamping failed |
| Sync.WorkersAccount | src/impl/sync_manager.h:390-485 | success and failures are exactly the files of the directories taken so far |
| Sync.SequentialSyncAccounts | src/impl/sync_manager.h:249-258 | one worker after the other, they are all files of the directories passing the existence checks if and only if every one of those has a worker |
| SyncShards.InAllStep | src/impl/sync_manager.h:428-484 | no access of any worker changes what is counted and still owed together |
| SyncShards.ShardsLikeSequential | src/impl/sync_manager.h:249-258 | for every interleaving of the accesses, the workers end with the counters of the sequential run and the same failed files up to order |
| SyncShards.ShardedSyncAccounts | src/impl/sync_manager.h:390-485 | so for every interleaving success + fail is the number of files in the directories passing the existence checks if and only if each of those has a worker |
| SyncShards.OutcomesExact | src/impl/sync_manager.h:390-485 | and every counter is the sum of the outcomes of the files in the directories that have a worker |
| SyncShards.ShardsCanFinish | src/impl/sync_manager.h:249-258 | the workers can always get to the end |
| Sync.SyncContext.constructor | src/impl/sync_manager.h:151-157 | counters at zero |
| Sync.SyncContext.SyncFile | src/impl/sync_manager.h:428-484 | the outcome of one file |
| Sync.SyncContext.LocalSyncWorker | src/impl/sync_manager.h:390-485 | one worker over the whole status |
| Sync.SyncContext.SyncLocal | src/impl/sync_manager.h:249-258 | all workers |
| Partition.CalcPartitionStart | src/util/util.cc:881-890 | start and inclusive end of a part, at most one past the file's last byte |
| Partition.ReadChunks | src/client/grpc_client/grpc_file_client.h:321-328 | the read loop cuts the file into exactly its slices, in order |
| Partition.ChunkAccepted | src/impl/repo_manager.h:367-375 | the server takes every slice but the last one of a file one byte short |
| Partition.ExactTiling | src/util/util.cc:812-817 | the parts cover each byte once and every chunk is taken, if and only if size mod p is not p-1 (and the count fits an int32) |
| Partition.SevenByFour | src/util/util.cc:881-890 | seven bytes by four: the last chunk is refused |
| Upload.WriteAt | src/util/util.cc:675-705 | a positioned write changes its own bytes, fills a gap with zeros and keeps the rest |
| Upload.StoreExact | src/impl/repo_manager.h:339-392 | ok is answered exactly when the file is there or can be made, the content fits its part, and the write is reported as done; what is refused is not written, but the file is made |
| Upload.RepoManager.constructor | src/impl/repo_manager.h:339-356 | the target as found, nothing received |
| Upload.RepoManager.Put | src/impl/file_process_manager.h:70-93 | one more part of a known or a new request |
| Upload.RepoManager.WriteToFile | src/impl/repo_manager.h:339-392 | creation, range check, positioned write, and Put whenever the write was reported as done, also when the close then lost its bytes |
| Upload.RepoManager.DoProcess | src/impl/file_process_manager.h:181-200 | erases exactly the complete requests whose meta data was written |
| Upload.AcceptedPart | src/impl/repo_manager.h:367-375 | an accepted part has a number of the file and was sent at least in full, or has the number behind them |
| Upload.CountedExactly | src/impl/file_process_manager.h:70-93 | in every run, the counted parts of a request are exactly the numbers of its parts stored ok since it was created |
| Upload.CompleteExactly | src/impl/file_process_manager.h:181-188 | a request is complete once every part of its file was stored ok, in any order and however often, and not before; the number behind the parts aside |
| Upload.ProcessExact | src/impl/file_process_manager.h:181-200 | a request is erased exactly when as many parts as its total are counted and its meta data was written; otherwise it stays as it is |
| Upload.CompletionExact | src/impl/file_process_manager.h:181-200 | when the number of distinct parts equals the total, they are the parts of the file if and only if the number behind them is not among them, whatever requests of other ids do |
| Upload.CompletionImpliesCoverage | src/impl/file_process_manager.h:181-200 | and then, if the requests of this id lost nothing at close, every byte of the file reached it |
| Upload.BehindExact | src/impl/repo_manager.h:367-375 | which part with that number is taken: the part size divides the file, and it has no byte, or one where parts have one byte |
| Upload.LostPartIsCounted | src/util/util.cc:689-699 | a part whose bytes were lost at close is counted |
| Upload.PartSizeOneMiscounts | src/util/util.cc:881-890 | with parts of one byte, part number `size` is taken and counted |
| Upload.EmptyPartMiscounts | src/impl/repo_manager.h:367-375 | an empty part behind a file that the part size divides is taken and counted |
| Transfer.SendContext.constructor | src/client/grpc_client/grpc_file_client.h:253-253 | one mark per part, all zero |
| Transfer.SendContext.OnPutAnswer | src/client/grpc_client/grpc_file_client.h:136-149 | an answer sets its part's mark to -1 or counts a failure |
| Transfer.SendContext.GetStatus | src/client/grpc_client/grpc_file_client.h:172-183 | too many retries, all acknowledged, or still retrying |
| Transfer.LinkStepInv | src/client/grpc_client/grpc_file_client.h:309-346 | no send, delivery, failure or answer damages a part that was once there in full, and the resend loop adds no request: the read loop ends with the stream failed, and nothing clears it |
| Transfer.WholeOnceInFull | src/client/grpc_client/grpc_file_client.h:309-346 | whatever was answered: once every part reached the file in full, the file is the source if and only if the target was absent or not longer |
| Transfer.UploadExact | src/client/grpc_client/grpc_file_client.h:309-346 | on every run ending in SUCCESS in which nothing is lost at close, the server file is the source byte for byte, if and only if the target was absent or not longer |
| Transfer.NewTargetExact | src/util/util.cc:689-699 | for a new target and a source without zero bytes, the file is the source if and only if every part reached it in full |
| Transfer.LostNeverSucceeds | src/client/grpc_client/grpc_file_client.h:330-346 | once the read loop is past a part, an unacknowledged part with no request and no positive answer in flight rules SUCCESS out for good |
| Transfer.RefusedRetriesForever | src/client/grpc_client/grpc_file_client.h:330-346 | on a link that duplicates nothing, one refused part keeps the status at RETRYING for good |
| Transfer.LostBytesAcknowledged | src/util/util.cc:689-699 | a run with an absent target ending in SUCCESS whose file holds zeros: its bytes were lost at close |
| Transfer.LongerTargetKeepsTail | src/util/util.cc:456-459 | a longer target keeps its tail in a run ending in SUCCESS |
| Transfer.OneShortNeverSucceeds | src/impl/repo_manager.h:367-375 | a file one byte short is never reported as sent |
| TransferRuns.SendsEveryPart | src/client/grpc_client/grpc_file_client.h:321-328 | in every run, when the read loop is over, every part was put on the way once, in order, with exactly its bytes, and nothing else was |
| TransferRuns.MarkCounts | src/client/grpc_client/grpc_file_client.h:136-149 | a mark is the number of failed answers since the last positive one, less one if there was one |
| TransferRuns.TwoRefusals | src/client/grpc_client/grpc_file_client.h:172-183 | two failed answers for a part and no positive one are too many |
| TransferRuns.UploadSucceeds | src/client/grpc_client/grpc_file_client.h:309-346 | every file that is not one byte short, of any number of parts, has a run ending in SUCCESS, and from a good target its file is the source |
| TransferRuns.SucceedsExactly | src/impl/repo_manager.h:367-375 | an upload can succeed if and only if the file is not one byte short of a full last part |
| SendLoop.InvStep | src/client/grpc_client/grpc_file_client.h:100-153 | every shared access keeps the accounting of writes, answers and queued work |
| SendLoop.StreamClosedOnlyWhenDone | src/client/grpc_client/grpc_file_client.h:275-283 | when StartWritesDone is called every item ever put was dealt with, every write is answered and nothing is queued, and no later step adds work |
| SendLoop.SignalFirstIsUnsound | src/client/grpc_client/grpc_file_client.h:100-109 | signalling before counting would close over an unanswered write |
| SendLoop.DecrementFirstIsUnsound | src/client/grpc_client/grpc_file_client.h:123-153 | decrementing before putting would queue work after the close |
| SendLoop.CounterLastIsUnsound | src/client/grpc_client/grpc_file_client.h:275-283 | reading the counter last would leave an answer's new work behind |
| SendLoop.FlagLastIsUnsound | src/client/grpc_client/grpc_file_client.h:275-283 | reading the flag last would leave the filler's last item behind |
| SendLoop.SoundExactly | src/client/grpc_client/grpc_file_client.h:100-283 | of the twenty-four orders of these accesses exactly two are sound: the code's, and the one that reads the counter before the flag |
| Sessions.AgreeRun | src/impl/session_manager.h:40-145 | on every run with fresh UUIDs the two tables agree |
| Sessions.KickoutByUserWorks | src/impl/session_manager.h:114-128 | the "never happen" branch is not taken, the token of the by-user table is dead at once, nobody else is touched |
| Sessions.KickoutByUserExact | src/impl/session_manager.h:114-128 | no token is accepted for the user afterwards if and only if every one accepted before is the one QueryUserToken returns |
| Sessions.AcceptedWasIssued | src/impl/session_manager.h:52-68 | an accepted token was issued to exactly that user less than SESSION_INTERVAL ago |
| Sessions.LoginLifetime | src/impl/session_manager.h:40-68 | a token of a login is accepted, for its user, exactly as long as it was not rotated, logged out or kicked out and SESSION_INTERVAL is not over |
| Sessions.RotateLifetime | src/impl/session_manager.h:70-103 | and so is the token of a rotation |
| Sessions.LoginFrame | src/impl/session_manager.h:40-50 | a login adds its token, and a by-user entry if there was none; every other session and user stays |
| Sessions.RotateFrame | src/impl/session_manager.h:70-103 | a rotation replaces one token and its user's entry, or changes nothing; every other session and user stays |
| Sessions.KickoutByTokenFrame | src/impl/session_manager.h:130-145 | a logout removes that token and its user's entry, or changes nothing; every other session and user stays |
| Sessions.KickoutByUserFrame | src/impl/session_manager.h:114-128 | a kick-out by user removes that entry and its token, or changes nothing; every other session and user stays |
| Sessions.DeadStaysDead | src/impl/session_manager.h:40-145 | a token out of the table never comes back |
| Sessions.RotatedTokenIsDead | src/impl/session_manager.h:70-103 | a rotated token never validates again; the new one does at once |
| Sessions.KickoutByTokenExact | src/impl/session_manager.h:130-145 | a logout works exactly when the by-user table still has the user |
| Sessions.SecondLogoutIsLost | src/impl/session_manager.h:130-145 | two logins and two logouts: the second token survives |
| Sessions.LoginKeepsBijection | src/impl/session_manager.h:40-50 | a login keeps the tables in bijection if and only if QueryUserToken has no answer for its user |
| Sessions.BijectiveExactly | src/impl/session_manager.h:40-145 | the tables stay in bijection throughout a run if and only if that holds at every login |
| Sessions.SingleLoginLogoutWorks | src/impl/session_manager.h:114-145 | on such a run every logout by token ends its token and every kick-out locks its user out |
| Sessions.ReturnAfterExpiry | src/impl/session_manager.h:40-145 | a user back after expiry has no live token at either login, yet a kick-out by user leaves the live token, and a logout of the expired one meets the "never happen" branch |
| Sessions.SessionManager.constructor | src/impl/session_manager.h:40-145 | both tables empty |
| Sessions.SessionManager.GenerateToken | src/impl/session_manager.h:40-50 | adds to both tables without replacing |
| Sessions.SessionManager.ValidateSession | src/impl/session_manager.h:52-68 | accepts exactly the live tokens and returns their user |
| Sessions.SessionManager.UpdateSession | src/impl/session_manager.h:70-103 | rotates exactly a live token of that user |
| Sessions.SessionManager.QueryUserToken | src/impl/session_manager.h:105-112 | the user's token or "" |
| Sessions.SessionManager.KickoutByUser | src/impl/session_manager.h:114-128 | removes from both tables |
| Sessions.SessionManager.KickoutByToken | src/impl/session_manager.h:130-145 | removes from both tables, or does nothing |
| Paths.CompsOfRender | src/util/util.cc:841-868 | printing components and reading them back is the identity |
| Paths.CompsUnify | src/util/util.cc:171-176 | UnifyDir keeps the components |
| Paths.SqueezeRun | src/util/util.cc:171-176 | a run of k separators becomes one of (k + 1) / 2, and what is around it is treated on its own |
| Paths.UnifyExact | src/util/util.cc:171-176 | UnifyDir leaves no double separator if and only if, one trailing one dropped, there were no three in a row |
| Paths.UnifyJoins | src/util/util_test.cc:190-193 | a double separator inside and one at the end are tidied up |
| Paths.StackOf | src/util/util.cc:841-855 | the tokenising loop computes the final stack, or fails |
| Paths.SimplifyPath | src/util/util.cc:841-868 | the string loops print that stack in front of what was there; on failure the output is untouched |
| Paths.SimplifyCanonical | src/util/util.cc:841-868 | the result's components are the final stack, none empty, "." or "..", and absolute exactly when the input was |
| Paths.SimplifyFailsExactly | src/util/util.cc:846-851 | simplifying fails if and only if some prefix of the components has more ".." than names; else the result has as many components as names are left over |
| Paths.SimplifyCancels | src/util/util.cc:841-855 | a name followed by ".." and a "." can be left out anywhere, failure included |
| Paths.SimplifyIdempotent | src/util/util.cc:841-868 | simplifying twice is simplifying once |
| Paths.SimplifyCongruence | src/util/util.cc:841-868 | Simplify(p/q) = Simplify(Simplify(p)/q), failure included, if and only if not: p is a nonempty relative path that cancels to "" and q simplifies |
| Paths.CancelledPrefix | src/util/util.cc:862-864 | such a path: "a/.." in front of "b" |
| RelativePaths.FindCommonRoot | src/util/util.cc:515-530 | the loop ends at the first ancestor that is a textual prefix, or at "" |
| RelativePaths.Relative | src/util/util.cc:532-564 | both loops end; the result is one "../" per parent step, then the rest |
| RelativePaths.CommonRootOfAbs | src/util/util.cc:515-530 | climbing from a clean base stops at its longest ancestor that is a textual prefix of the path |
| RelativePaths.RelativeRoundTrip | src/util/util.cc:532-564 | base/Relative(path, base) simplifies to path if and only if the climb ends at path, or below "/" at a component boundary |
| RelativePaths.RoundTripExactly | src/util/util.cc:515-564 | the same without naming the climb: with the longest ancestor of base that is a textual prefix of path, exactly when it is path, or, below "/", made of components of path |
| RelativePaths.RelativeOfChild | src/util/util.cc:532-564 | Relative(base/r, base) = r |
| RelativePaths.OffBoundaryInputs | src/util/util.cc:518-521 | siblings under the root, and a base that is only a textual prefix |

## Left out

- gRPC, protobuf, proxygen, boost, sqlite, OpenSSL, BLAKE3, LZMA and the file system: their answers are inputs of the steps, or assumed to be exact (the reload of a dump).
- HTTP and UDP servers, configuration, `UserManager`, tools: plumbing that would only add easy members.
- `ReceiveQueueManager`: it uses fields that `defs.h` no longer has.
- Added and removed file lists, sizes, owners and hashes of scanned files, thumbnails and meta data: the status holds directories, names, types and directory times; `WriteMeta` is an arbitrary boolean.
- Liveness: that workers, resends or draining threads make progress, the sleeps, and the timeouts at shutdown.
- Threads as such: every locked region, queue access and atomic access is one step of a machine. The event thread's beginning with an event is one step although it pops, clears the flag and looks at the send queue: in between, other threads can only append to the two queues, which is the same done before or after. So is its end: nobody else changes the pending flags it looks at before the removal.
- The loops of the event, completion queue, scan, sync and send threads are the steps of these machines, not methods; the classes hold what one step does.
- gRPC returns each tag once, NEW_CONNECTION first and DONE only for an accepted connection.
- RpcTheorems.Lifetime: the runs it speaks of have accepts that succeed while serving and fail while shutting down, and no push of a stranded thread; `AcceptExact`, `StrandedExactly` and `PushExact` say what happens otherwise.
- RpcObjects.Service.HandleNewConnection: a failed accept while serving clones an object already destroyed; the model sets `crashed` there and says nothing about what follows.
- RpcObjects.Service.StartServing: one service and at least one event thread (the round robin divides by their number); several share the event queues and the round robin. The pending flags of the five event objects are one set.
- ScanTheorems.ScanCompletes: the tree does not change during the scan, no library call fails, and no stop is requested; the ignored directories are those of the status, which a first scan without a cache file leaves empty.
- ScanStatus.ScanContext.AddDirItem, AddFileItem, RemoveDir and RemoveFile leave out the lists of added and removed paths and the attributes of entries.
- A directory reached through a symbolic link counts as no directory of the tree, although the directory iterator follows the link; the scan only meets one when a cached path was replaced by it, which `IncrementalExact` covers.
- Scan paths are lists of names; `RelativeOfChild` justifies this for a root other than "/".
- RelativePaths.Relative: `parent_path` as on POSIX; a path starting with exactly two slashes is implementation-defined there and read as one slash after UnifyDir.
- RecursiveSync.RecursiveSyncAccounts: the return value of SyncLocalRecursive, which is inverted in the code, and its error code are not modelled.
- RecursiveSync.RecursiveSyncCovers: the source tree does not change during the sync; what the library calls make of a file is the choice of the step.
- Sync.SyncContext.SyncLocal: the class runs the workers one after the other; `ShardsLikeSequential` says that this loses nothing. `std::abs(INT64_MIN)` is taken to be INT64_MIN.
- Transfer.UploadExact: no one else writes the target; the upload of one file. The part count is not cut to int32 there.
- Transfer.SendContext.constructor: a part count that turns negative as an int32 is a size the vector refuses, and is excluded.
- Upload.CompletionExact and Upload.CompletionImpliesCoverage: requests of one id agree on the sizes, the part size is positive, and the part count fits int32.
- Upload.RepoManager.WriteToFile: one file and one shard; the look-up of the repository and of the shard are left out. Excluded is exactly the request that makes Put divide by a zero part size: a new id whose bytes were stored (`CanPut`).
- int64 arithmetic is unbounded, except for the int32 part count and the hash INT64_MIN.
