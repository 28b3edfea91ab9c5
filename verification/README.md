# Verified model of the remote backup

A client watches a directory and keeps a copy of it on a server. The watcher turns what it sees into
operations on a coalescing queue; several sender threads take operations from the queue and carry them out by
requests; the server reassembles uploaded files segment by segment on disk and in a database table, under a
map of guards that keeps two requests off the same file. This project models those parts in Dafny and proves
how they behave alone and together.

`dafny verify dfyconfig.toml` checks everything.

## How the model is organised

| module | what it holds |
|---|---|
| `Segments`, `Crc32`, `RBHelpers` | segment arithmetic with 32-bit conversions written out; CRC-32 of section 8 of RFC 1952; the chunked checksum |
| `ServerStore`, `FileSystemManager` | the server's disk and table as a value, and the file operations as a class that updates them statement by statement |
| `ServerHistory` | what holds after any sequence of requests, honest or not; interleaving |
| `UploadProtocol`, `ClientFlow` | the requests of one upload and one restore; the client's nested transfer loops |
| `QueueSpec`, `OutputQueue` | the work queue as a value with its invariant, and as a class over a list of shared mutable operations |
| `BackupSystem`, `BackupInvariant`, `BackupQueueSteps`, `BackupSteps`, `BackupTheorems` | the whole system as a state machine (watcher, senders, guards, server, breaking connections), its inductive invariant, and what every run guarantees |
| `BackupExclusion`, `BackupRuns` | who has the guard of a path; runs that exist: every sender at work, operations carried to their end, paths that recover |
| `BackupRestore`, `Strays` | restoring what the whole system has uploaded; requests whose connection broke, and what they can spoil |
| `Reconcile`, `FileManager`, `Convergence` | differences between two views of the files, scanning and polling, and convergence of the whole system |
| `AtomicMap`, `ServerFlow`, `Guards` | the guard map, one request under its guard, and the worker pool with `has` and `add` as separate steps |
| `ConfigMap`, `Cleanup`, `ClientLoops` | the configuration file, pruning of empty directories, and the bodies of the client's two loops and the watcher's startup |

A class models what the source updates in place; each of its methods is proved equal to a function on values,
and the theorems are about those functions. In `BackupSystem` a step is one critical section, one thread-local
move, or one stage of a request inside the server; a condition wait is a disabled step; runs are arbitrary
sequences of enabled steps, with any number of senders. What a sender reads from its file is arbitrary, so
files may change while they are uploaded. A connection can break before the server has read the request, after
it is done with it, or in between; then the server goes on with the request as a stray one, beside whatever the
sender does next. The path is *disturbed* until an operation is taken on it while no stray request is at work
there. It is *dirty* while the last operation that ended on it was skipped, had nothing to send, or failed
without being superseded. Paths that are either are *unclean*, and the guarantees are about the others.

Two traversals are taken by what they are meant to do: `add_file_operation` walks the list, flags operations in
process and drops the others (the literal `erase(it)` followed by `it++` has no defined meaning), and
`recursiveCleanup` visits the entries that a directory had when it was opened.

## What the proofs found

Each point names the lemma that says exactly when it happens and, after it, one at an input where it does.

- `write_file` reads a missing row as `last_segment = 0`, so segment 1 is accepted for a file that was never
  begun, and leaves a file that no row lists: `ServerHistory.LeavesUnlistedFileIff`, and for whole runs
  `StaysPairedIff`; at one byte, `SegmentOneIsNotListed`.
- `read_file_segment` keeps the file's length in an `int`. A file that was uploaded is restored exactly when it
  is shorter than 2 GiB: `UploadProtocol.UploadThenRestore`; at 2^31 bytes, `TwoGibibytesAreNotRestored`.
- A change that leaves the write time alone is never noticed, neither at startup nor by a poll:
  `Convergence.PathConverges` (its third part) and `FileManager.PollIsCurrent`; at a file of one byte,
  `Convergence.UnnoticedChange` and `FileManager.ChangeStaysUnnoticed`.
- A tracked path that turns into a directory, or into anything else that is not watched, stays tracked:
  `FileManager.PollTracksFilesIff`; `DirectoryStaysTracked`.
- The guard's constructor calls `has` and `add` separately, so guards alone do not exclude each other:
  `Guards.ExclusionLostIff` says which step loses exclusion and `Guards.TwoGuardsForOneKey` is a run that does.
  The client's queue supplies what is missing: `BackupTheorems.NoContention`. Once two guards for one key have
  existed, a third request can be let through beside one of them: `Strays.LaterRequestPasses`;
  `BackupExclusion.GuardsExclude` and `Guards.GuardsExclude` say that exclusion holds until two have asked.
- A request whose connection broke may be carried out after later requests and undo them. `Strays.EffectStaysIff`
  says exactly which requests do; `Strays.OldSegmentWins` is a run in which the server ends up with the old
  version of a file although the new one was uploaded last and nothing failed.
- An empty file's row is never sealed, because one segment is sent where `count_segments` is 0
  (`UploadProtocol.EmptyFileIsNotSealed`). A probe then shows zeros, and a comparison is silent only because the
  checksum of the empty file is 0: `Convergence.SyncIsFixpoint`.
- The segment count of a file of 2 PiB does not fit an `int`. Its upload covers a part of it, or nothing:
  `Segments.CoversFileIff`; `CountWraps`.
- A restore brings back files whose path mentions `.DS_Store`; the scan passes over them, and the comparison
  then has them removed from the server: `ClientLoops.RestoreLeavesNoDifference`;
  `RestoredAndRemoved`.
- A configuration is not copied by storing and loading it where a value is empty: `ConfigMap.StoreThenLoadIff`;
  `EmptyValueIsNotCopied`.
- `remove_file_operation` always returns false, also when it removed something.

## Model

| member | source | states |
|---|---|---|
| BackupTheorems.NewestIsNeverLost | rb_client/src/OutputQueue.cpp:6-81 | coalescing loses nothing, in any run with any number of senders and breaking connections: the operation added last on a path is the last one queued there, or none is queued and the server holds exactly its effect, unless the path is unclean |
| BackupTheorems.DrainedMeansSequential | rb_client/src/ClientFlow.cpp:359-405 | whenever the queue is drained, the server lists, on every path that is not unclean, what running every operation ever added at once and in order would have left |
| BackupTheorems.SequentialAt | rb_client/src/OutputQueue.cpp:6-31 | running all operations in order leaves on each path the effect of the last one added there, which is what justifies coalescing |
| BackupTheorems.NoContention | rb_server/inc/ServerFlow.h:115-166 | two outstanding requests of senders never concern the same path; on undisturbed paths none is refused as a concurrent write, and every executed request was accepted |
| BackupTheorems.RefusalIsRecorded | rb_server/inc/ServerFlow.h:129-131 | a refusal on an undisturbed path would be noticed by the preceding claim |
| BackupTheorems.AskingSucceeds | rb_lib/inc/AtomicMap.hpp:14-19 | in every run a request on an undisturbed path that asks for its guard is let through |
| BackupExclusion.GuardsExclude | rb_lib/inc/AtomicMap.hpp:14-19 | in every run, senders' and stray requests together, at most one request has the guard of a path and the map says exactly whether one has, unless at some moment two requests have asked for it and neither has it yet |
| BackupExclusion.AskingIsRefused | rb_server/inc/ServerFlow.h:122-131 | then a request that asks while another one has the guard is answered with a failure, and store, map and other requests stay as they are |
| BackupExclusion.StrayIsRefused | rb_server/inc/ServerFlow.h:157-166 | and a stray request that asks then is over, without effect |
| BackupExclusion.NextKeepsUndisputed | rb_lib/inc/AtomicMap.hpp:14-32 | what every step keeps: one contender per path, and the map in agreement |
| BackupTheorems.QueueIsSound | rb_client/src/OutputQueue.cpp:6-81 | in every reachable state the queue invariant holds, at most 100 operations are queued, completions on a path come in the order of addition and before everything still queued, and an abort flag is set exactly when the operation is not the newest on its path |
| BackupTheorems.AbortIffNotNewest | rb_client/src/OutputQueue.cpp:15-27 | among all operations ever added, not just the queued ones, abort means superseded |
| BackupTheorems.OthersAreLeftAlone | rb_server/src/FileSystemManager.cpp:59-177 | files of other users and files no operation was about keep disk contents and row through every run |
| BackupTheorems.NothingIsOrphaned | rb_client/src/ClientFlow.cpp:371-405 | in every run an operation in process is held by a sender, so none blocks its path for ever |
| BackupTheorems.NothingIsStuck | rb_client/src/ClientFlow.cpp:371-405 | in every run, as long as an operation is queued, some sender can take a step that is not a failure of its connection |
| BackupRuns.IdleSenderCanTake | rb_client/src/OutputQueue.cpp:33-48 | in every run each idle sender can take an operation whenever some queued one is not in process and none on its path is; it then holds the first such |
| BackupRuns.AllCanBeBusy | rb_client/src/ClientFlow.cpp:433-439 | for any number of senders that the queue can hold, and distinct paths, a run in which all are at work |
| BackupRuns.OneSegment | rb_client/src/ClientFlow.cpp:102-160 | in any state in which a sender has sent some segments of a file, the next can be sent, carried out and acknowledged, changing nothing else |
| BackupRuns.AllSegments | rb_client/src/ClientFlow.cpp:102-160 | so all of them can, whatever other senders are doing |
| BackupRuns.UploadRunsToItsEnd | rb_client/src/ClientFlow.cpp:371-396 | a file of any number of segments can be uploaded to its end: queue empty, the sealed file on the server, no path unclean |
| BackupRuns.RemovalRunsToItsEnd | rb_client/src/ClientFlow.cpp:385-396 | so can a removal: disk and table know nothing of the path, and no path is unclean |
| BackupRuns.NewerVersionReplacesOlder | rb_client/src/ClientFlow.cpp:128-173 | an upload in process can be aborted for a newer version of the file, which is then uploaded; no path is unclean |
| BackupRuns.PathRecovers | rb_client/src/ClientFlow.cpp:371-405 | after any run that drained the queue a disturbed or dirty path becomes clean again by an upload, as soon as no stray request is at work there |
| BackupRuns.RemovalCleans | rb_client/src/ClientFlow.cpp:181-196 | or by a removal |
| BackupRuns.FaultlessRunsAreClean | rb_client/src/ClientFlow.cpp:161-173 | in a run without skips, breaks and connection failures no path is unclean, so that the claims hold of every path |
| BackupRuns.FailedIsRetried | rb_client/src/ClientFlow.cpp:397-405 | in every run an operation that its sender gives back after a failure is still queued and can be taken again at once |
| BackupRuns.FaultsArePossible | rb_client/src/Client.cpp:55-68 | at every point of its work a sender can meet with a failure, after which it has given its operation back or breaks the upload off |
| BackupRuns.RequestsCanBeLost | rb_client/src/Client.cpp:60-62 | a request can be lost before the server reads it, without effect there |
| BackupRuns.UploadsCanEndEarly | rb_client/src/ClientFlow.cpp:76-88 | an upload can be skipped exactly before its first segment, and broken off before each one |
| BackupRuns.AbortIsNoticedIff | rb_client/src/ClientFlow.cpp:128-131 | a sender can notice an abort exactly if the flag of its operation is set and there are bytes left to read |
| BackupRuns.StrayGoesOn | rb_server/src/Server.cpp:14-30 | a request whose connection broke does next, to store and map, what it would have done for a sender that still waits |
| BackupTheorems.HistoryRecordsAdditions | rb_client/src/OutputQueue.cpp:27-28 | the history of a run is the list of the watcher's additions, in order |
| BackupTheorems.NewestIsLatest | rb_client/src/OutputQueue.cpp:13-28 | the last operation added on a path is the one with the greatest id, ids being positions in the history |
| BackupRestore.StandingFileIsRestored | rb_client/src/ClientFlow.cpp:69-277 | while the local file stands still, through all aborts, retries, interleavings and broken connections: once its path is idle and not unclean and its newest operation is an upload, probe and restore give the file itself back exactly if it is shorter than 2 GiB |
| BackupRestore.NewestIsRestored | rb_client/src/ClientFlow.cpp:198-277 | also if files change: on an idle path that is not unclean, whose newest operation is an upload of less than 2 GiB, they give a file of the size and checksum that were to be uploaded; of more, they fail |
| BackupRestore.RunKeepsFile | rb_client/src/ClientFlow.cpp:102-160 | in every run during which the file stands still, what each sender has sent is the beginning of the file, and where an upload has ended well the server has the file |
| BackupRestore.HeldFileIsRestored | rb_server/src/FileSystemManager.cpp:195-229 | where the effect of an upload is on the server, a restore gives exactly the bytes on disk, or fails if they are too many |
| Strays.EffectStaysIff | rb_server/src/FileSystemManager.cpp:84-177 | exactly which requests, carried out after an operation, leave its effect on the server |
| Strays.OwnSegmentHarmsIff | rb_server/src/FileSystemManager.cpp:84-146 | of the segments of an upload itself exactly the first of several undoes it when carried out afterwards |
| Strays.StraySpoilsIff | rb_server/inc/ServerFlow.h:127-128 | the same for a stray request in the system |
| Strays.OldSegmentWins | rb_client/src/ClientFlow.cpp:157-172 | a run that ends with the old version of a file on the server although the new one was uploaded last, nothing is queued and nothing was skipped or failed |
| Strays.AbortIsRefused | rb_server/inc/ServerFlow.h:157-166 | a run in which the connection breaks under the guard of an upload and the ABORT that follows is refused |
| Strays.LaterRequestPasses | rb_lib/inc/AtomicMap.hpp:29-32 | a run in which two requests that had both asked have the guard together, one gives it up, and a later request is let through although the other still has it |
| Strays.UnbrokenMeansUndisturbed | rb_client/src/Client.cpp:60-68 | if no connection breaks in the middle of a request, no path is ever disturbed |
| BackupInvariant.InitInvariant | rb_client/src/ClientFlow.cpp:427-439 | the invariant of the whole system holds at the start, for any contents of the server |
| BackupInvariant.PathsAreExclusive | rb_client/src/OutputQueue.cpp:39-44 | two senders never hold operations on the same path |
| BackupInvariant.TokenInjective | rb_server/inc/ServerFlow.h:123-125 | a user's guard tokens tell paths apart |
| BackupInvariant.GuardBelongs | rb_server/inc/ServerFlow.h:122-131 | on an undisturbed path the token is in the guard map exactly when the sender working there has the guard |
| BackupQueueSteps.TakeKeepsInvariant | rb_client/src/OutputQueue.cpp:33-48 | taking an operation keeps the system invariant |
| BackupQueueSteps.GiveBackKeepsInvariant | rb_client/src/ClientFlow.cpp:397-405 | freeing an operation after an exception keeps it |
| BackupQueueSteps.CompleteKeepsInvariant | rb_client/src/ClientFlow.cpp:395-396 | removing a finished operation keeps it, although the operation's effect is now all that is left of it |
| BackupQueueSteps.AddKeepsInvariant | rb_client/src/OutputQueue.cpp:6-31 | adding an operation keeps it, while other senders are in the middle of requests |
| BackupSteps.ExecuteKeepsInvariant | rb_server/inc/ServerFlow.h:127-128 | executing a request keeps it |
| BackupSteps.GuardMoveKeepsInvariant | rb_server/inc/ServerFlow.h:122-131 | looking at the guard map, taking and releasing a guard keep it |
| BackupSteps.ClientMoveKeepsInvariant | rb_client/src/ClientFlow.cpp:86-131 | skipping, sending, noticing the abort flag, breaking off and looking at the guard map keep it |
| BackupSteps.SuccessKeepsInvariant | rb_client/src/ClientFlow.cpp:157-196 | receiving a response that reports success keeps it |
| BackupSteps.FailureKeepsInvariant | rb_client/src/ClientFlow.cpp:157-196 | receiving a failure, or nothing, keeps it, also when the server still guards the request |
| BackupSteps.BreakKeepsInvariant | rb_client/src/Client.cpp:60-68 | a connection that breaks while the server is at work on the request keeps it, the request becoming a stray one |
| BackupSteps.RunOnKeepsInvariant | rb_server/inc/ServerFlow.h:122-131 | whatever a stray request does keeps it, being confined to its path |
| BackupSteps.ExecutionSucceeds | rb_server/src/FileSystemManager.cpp:84-146 | the server accepts every request of a sender in a reachable state and its cell advances accordingly |
| BackupSteps.AbortMeansSuperseded | rb_client/src/ClientFlow.cpp:129-131 | a sender that sees the abort flag holds an operation that is no longer the newest on its path |
| BackupSteps.NextKeepsInvariant | rb_client/src/ClientFlow.cpp:359-405 | every enabled step of the system keeps the invariant |
| BackupSteps.RunKeepsInvariant | rb_client/src/ClientFlow.cpp:359-405 | every reachable state satisfies it |
| Convergence.StartupConverges | rb_client/src/ClientFlow.cpp:338-352 | from any state of the server, once the events of a startup comparison have drained and no path is unclean, the server lists exactly the local paths; each has the local checksum exactly unless the contents differ under the same write time; files in step are untouched, and a fresh comparison is silent for all files whose segment count fits an `int` |
| Convergence.PathConverges | rb_client/src/FileManager.cpp:94-124 | a client starts up from any state of the server and then polls, while senders work and connections break: on each path that is idle and not unclean, exactly what the server shows, and exactly when that is the tracked checksum |
| Convergence.WatchingConverges | rb_client/src/ClientFlow.cpp:350-356 | the same for all paths whenever the queue is drained, after startup and any number of polls; the server lists exactly the tracked paths if none is unclean |
| Convergence.SyncIsFixpoint | rb_client/src/FileManager.cpp:99-123 | after every local file was uploaded a probe and comparison report a path exactly if its segment count wraps to 0 and neither checksum nor write time is 0; so they are silent for all files whose count fits an `int`, empty ones included |
| Convergence.UploadShows | rb_server/src/FileSystemManager.cpp:124-146 | a probe of a path whose upload took effect shows its metadata, and the right checksum also for an empty file, whose row has no hash |
| Convergence.NewestIsLastEvent | rb_client/src/ClientFlow.cpp:307-326 | among the operations of some events the last one on a path is that of its last event |
| Convergence.UnnoticedChange | rb_client/src/FileManager.cpp:107-108 | a file of one byte, changed without its write time: the comparison is silent and the server keeps the old checksum |
| Convergence.NewestIsTheEvent | rb_client/src/ClientFlow.cpp:307-326 | the operation added last on a path is that of the path's last event |
| OutputQueue.OutputQueue.AddFileOperation | rb_client/src/OutputQueue.cpp:6-31 | the list becomes the coalesced list followed by the new operation, with the next id |
| OutputQueue.OutputQueue.CoalesceInPlace | rb_client/src/OutputQueue.cpp:17-25 | the walk that flags and erases in place yields the coalesced list |
| OutputQueue.OutputQueue.GetFileOperation | rb_client/src/OutputQueue.cpp:33-48 | takes the first operation that is neither in process nor on a path in process, or nothing if there is none |
| OutputQueue.OutputQueue.FreeFileOperation | rb_client/src/OutputQueue.cpp:50-64 | gives the operation with this id back, and says whether there was one |
| OutputQueue.OutputQueue.RemoveFileOperation | rb_client/src/OutputQueue.cpp:66-81 | removes what has this id together with its path, and returns false |
| OutputQueue.OutputQueue.Size | rb_client/src/OutputQueue.cpp:83-86 | the number of queued operations |
| QueueSpec.CoalesceMembers | rb_client/src/OutputQueue.cpp:15-25 | element by element what coalescing keeps: everything on other paths, and on the path exactly what is in process, now flagged |
| QueueSpec.AddKeepsInv | rb_client/src/OutputQueue.cpp:6-31 | adding keeps the queue invariant: increasing ids below the counter, at most 100 operations and two per path, abort means superseded, the one in process is the earliest on its path, `processing_files` is the set of paths in process |
| QueueSpec.GetKeepsInv | rb_client/src/OutputQueue.cpp:33-48 | so does taking |
| QueueSpec.FreeKeepsInv | rb_client/src/OutputQueue.cpp:50-64 | so does freeing an operation that is held |
| QueueSpec.RemoveKeepsInv | rb_client/src/OutputQueue.cpp:66-81 | so does removing one that is held |
| QueueSpec.OneInProcess | rb_client/src/OutputQueue.cpp:39-44 | two operations in process are on different paths |
| QueueSpec.ReadyIsEarliest | rb_client/src/OutputQueue.cpp:39-44 | the operation a sender takes is the earliest on its path, and nothing on that path is in process |
| ClientLoops.UpdateHandler | rb_client/src/ClientFlow.cpp:307-336 | which events become which operations |
| ClientLoops.CarryOut | rb_client/src/ClientFlow.cpp:376-393 | how each operation ends, and exactly when an upload succeeds |
| ClientLoops.SenderTurn | rb_client/src/ClientFlow.cpp:371-396 | one undisturbed turn takes, carries out and removes the first ready operation, with the same ending under the same condition, keeps the queue invariant and touches no other path |
| ClientLoops.WatcherStartup | rb_client/src/ClientFlow.cpp:338-352 | probe, restore if wanted, scan and compare: exactly when this fails, that no local file vanishes even then, what is tracked afterwards, and that the events are exactly the differences |
| ClientLoops.RestoreFromServer | rb_client/src/ClientFlow.cpp:341-346 | restoring succeeds exactly if no listed file fails, and then every listed file is there; on failure each file is as it was or as far restored as it could be read |
| ClientLoops.ScanAndCompare | rb_client/src/ClientFlow.cpp:348-352 | the tracked files are those of the scan and the events their differences from the probe |
| ClientLoops.RestoredAndRemoved | rb_client/src/FileManager.cpp:13 | a restored file of that kind is due to be removed from the server |
| ClientLoops.RestoreLeavesNoDifference | rb_client/src/ClientFlow.cpp:341-352 | after a restore exactly the local files that the server lacks are due an event, and listed files that a scan passes over |
| ServerHistory.RowsDescribeAcceptedSegments | rb_server/src/FileSystemManager.cpp:79-122 | after any requests a row exists exactly if segment 0 was accepted and not discarded since, and then the file is the concatenation of the accepted segments 0 to last_segment |
| ServerHistory.WriteKeepsAssembly | rb_server/src/FileSystemManager.cpp:79-146 | an accepted segment extends, or restarts, that concatenation |
| ServerHistory.SealsStayTrue | rb_server/src/FileSystemManager.cpp:111-146 | after any requests a sealed row whose size is covered by exactly the received segments records the checksum of the bytes on disk |
| ServerHistory.WriteKeepsSealTrue | rb_server/src/FileSystemManager.cpp:111-146 | one write keeps this, and a restart at segment 0 clears the seal unless that segment is also the last |
| ServerHistory.InSequenceIff | rb_server/src/FileSystemManager.cpp:84-90 | exactly which segment numbers are let through |
| ServerHistory.InvalidChecksumIff | rb_server/src/FileSystemManager.cpp:124-139 | for every cell and segment: refused for its checksum exactly if in sequence, the last of the count, and the kept bytes with its data have another checksum |
| ServerHistory.WriteLeaves | rb_server/src/FileSystemManager.cpp:89-139 | what a write leaves: the cell as it was, no file and no row, or the data appended and the segment recorded |
| ServerHistory.WriteSeals | rb_server/src/FileSystemManager.cpp:111-146 | the last segment seals the row with the metadata of the request, a first one clears the seal, others keep it |
| ServerHistory.AcceptedFilesFit | rb_server/src/FileSystemManager.cpp:129-146 | in any history an accepted last segment has completed a file with the checksum it promised |
| ServerHistory.LeavesUnlistedFileIff | rb_server/src/FileSystemManager.cpp:84-146 | for every cell: a write leaves a file without a row exactly if the row is missing and the segment is number 1 and not discarded for its checksum, or if there was such a file already and the write is refused |
| ServerHistory.StepStaysPairedIff | rb_server/src/FileSystemManager.cpp:59-177 | a request parts the file from its row exactly if it is such a segment 1 |
| ServerHistory.StaysPairedIff | rb_server/src/FileSystemManager.cpp:59-177 | over any requests, file and row of a path stay paired throughout exactly unless some such segment 1 meets a missing row |
| ServerHistory.SegmentOneIsNotListed | rb_server/src/FileSystemManager.cpp:84-122 | such a request on an empty server: it is accepted, the byte is on disk and the probe does not list it |
| ServerHistory.RunAtKey | rb_server/src/FileSystemManager.cpp:59-177 | a file and its clients see only the requests on that file |
| ServerHistory.InterleavingIsHarmless | rb_server/src/FileSystemManager.cpp:59-177 | any request-by-request interleaving of jobs on distinct files ends as if they had run one after the other in any order, for the store and for every client |
| ServerHistory.MergeGrows | rb_server/src/Server.cpp:62-74 | every interleaving can be built up request by request, so the theorem speaks of all of them |
| FileSystemManager.FileSystemManager.AppendData | rb_server/src/FileSystemManager.cpp:95-108 | the file is truncated for segment 0 and then holds its old bytes followed by all data of the segment |
| FileSystemManager.FileSystemManager.RecordSegment | rb_server/src/FileSystemManager.cpp:95-122 | disk and row after a segment that passed the check |
| FileSystemManager.FileSystemManager.FinishFile | rb_server/src/FileSystemManager.cpp:124-146 | the last segment seals the row, or discards file and row on a wrong checksum |
| FileSystemManager.FileSystemManager.WriteFile | rb_server/src/FileSystemManager.cpp:59-147 | the whole new state and outcome, statement by statement equal to the step of the request histories |
| FileSystemManager.FileSystemManager.RemoveFile | rb_server/src/FileSystemManager.cpp:149-177 | file and row disappear and nothing else changes |
| FileSystemManager.FileSystemManager.ReadFileSegment | rb_server/src/FileSystemManager.cpp:179-230 | which slice of the file is returned, or which error |
| FileSystemManager.FileSystemManager.GetFiles | rb_server/src/FileSystemManager.cpp:5-31 | exactly the user's rows, with zeros for empty columns |
| ServerStore.ProbeAt | rb_server/src/FileSystemManager.cpp:5-31 | a probe lists a path exactly if it has a row, and shows what the row's seal says |
| ServerStore.ReadReturns | rb_server/src/FileSystemManager.cpp:195-222 | for every segment number: a read fails exactly without a file or with an offset above the truncated length; otherwise it returns the piece at its offset, of 1 MiB or up to the end, and nothing for a negative number |
| ServerStore.TokensDiffer | rb_server/inc/ServerFlow.h:123-124 | guard tokens tell apart all files of users whose names have no '>' |
| UploadProtocol.UploadThenRestore | rb_client/src/ClientFlow.cpp:198-277 | for every file content of any size and every prior state of the server, uploading, probing and restoring gives the file back exactly if it is shorter than 2 GiB |
| UploadProtocol.CountableUploadThenRestore | rb_client/src/ClientFlow.cpp:90-277 | if the segment count fits an `int`, every segment is accepted, and the restore gives the file back or fails |
| UploadProtocol.TwoGibibytesAreNotRestored | rb_server/src/FileSystemManager.cpp:204-217 | a file of 2^31 bytes is uploaded without complaint and cannot be restored |
| UploadProtocol.EmptyFileIsNotSealed | rb_server/src/FileSystemManager.cpp:124-127 | the upload of an empty file leaves a row without a hash |
| UploadProtocol.CollectIsShort | rb_server/src/FileSystemManager.cpp:204-222 | whatever is on disk, no restore brings back more than 2 GiB |
| UploadProtocol.UploadIsAccepted | rb_client/src/ClientFlow.cpp:90-160 | every request of an upload is accepted, on any prior state of the file, and nothing else changes, if the segments it sends have the checksum of the file |
| UploadProtocol.ExchangeLeaves | rb_client/src/ClientFlow.cpp:90-173 | what an upload of a file of any size sends and leaves: the sealed file, nothing if its segments have another checksum than the file, and no change at all if the count is negative |
| UploadProtocol.UploadSegment | rb_client/src/ClientFlow.cpp:109-155 | each segment carries its number, size and write time; only the last carries the checksum |
| UploadProtocol.NextSegmentIsAccepted | rb_server/src/FileSystemManager.cpp:84-146 | a segment sent after the ones before it is accepted, whatever its bytes, if the last one completes the checksum |
| UploadProtocol.CollectSlices | rb_server/src/FileSystemManager.cpp:195-222 | reading the first segments back gives those bytes, or fails exactly if an offset is refused |
| ClientFlow.ReadSegment | rb_client/src/ClientFlow.cpp:125-144 | reading a segment in 2048-byte chunks yields its bytes and their running checksum, and gives up exactly if a poll sees the abort flag |
| ClientFlow.PollsOfFullSegment | rb_client/src/ClientFlow.cpp:91-144 | a full segment is read in 512 chunks of 2048 bytes, with as many looks at the abort flag |
| ClientFlow.SendSegment | rb_client/src/ClientFlow.cpp:102-160 | one turn of the segment loop: complete exactly if no poll aborts and, at the end, the checksum matches; then the server has received one more segment |
| ClientFlow.SendSegments | rb_client/src/ClientFlow.cpp:90-160 | the loop completes exactly if the checksum of what is sent matches and no poll aborts, and then the server holds the sealed file; a negative count sends nothing |
| ClientFlow.UploadFile | rb_client/src/ClientFlow.cpp:69-179 | for files of any size: exactly when an upload is skipped, succeeds or is aborted, and the state of the server in each case |
| ClientFlow.LocalDisk.RestoreFile | rb_client/src/ClientFlow.cpp:199-276 | exactly when restoring fails; the local file is then as it was if the first read fails, and otherwise holds exactly what was read before the failure; it never vanishes, and other files are untouched |
| ClientFlow.LocalDisk.GetServerFiles | rb_client/src/ClientFlow.cpp:198-280 | succeeds exactly if every file can be restored, and then the directory holds them all; also on failure each listed file is as it was or as far restored as it could be read, unlisted ones are untouched, and none vanishes |
| ClientFlow.LocalFileSurvives | rb_server/src/FileSystemManager.cpp:204-217 | a file of 2^31 bytes on the server: its restore fails at once and the local file stays as it was |
| Segments.CountIsExactIff | rb_lib/src/RBHelpers.cpp:40-45 | the segment count is the ceiling exactly if that fits an `int` |
| Segments.CountIsWrapped | rb_lib/src/RBHelpers.cpp:40-45 | for every size the count is the ceiling wrapped around to an `int` |
| Segments.SegmentIsOneMebibyte | rb_lib/inc/RBHelpers.h:13 | the counts of 0, 1, 2^20 and 2^20 + 1 bytes |
| Segments.CoversFileIff | rb_client/src/ClientFlow.cpp:90-123 | the segments cover the whole file exactly if their count fits an `int` |
| Segments.CountWraps | rb_lib/src/RBHelpers.cpp:40-45 | sizes at which the count is negative or 0 although there is something to send |
| Segments.SegmentEnd | rb_client/src/ClientFlow.cpp:117-123 | where each segment ends; it lies in the file, none exceeds 1 MiB and only an empty file has an empty one |
| Segments.SegmentsCoverFile | rb_client/src/ClientFlow.cpp:117-123 | the segment lengths add up to what is covered, which is the file size if the count fits an `int` |
| Segments.OffsetsAcceptedIff | rb_server/src/FileSystemManager.cpp:195-217 | every offset of a restore is accepted exactly if the length fits an `int` |
| RBHelpers.CalculateChecksum | rb_lib/src/RBHelpers.cpp:48-78 | reading in chunks of one million bytes yields the checksum of the whole file |
| Crc32.ChunkingIsIrrelevant | rb_client/src/ClientFlow.cpp:126-144 | however a file is cut into chunks, its checksum is the same |
| Crc32.EmptyChecksum | rb_server/src/FileSystemManager.cpp:18-20 | the checksum of the empty file is 0, the default of an unset field |
| Crc32.ShiftOfOne | rb_lib/src/RBHelpers.cpp:57 | a known value of the register that fixes polynomial and bit order |
| Crc32.ChecksumsOfOneByte | rb_lib/src/RBHelpers.cpp:57-77 | the checksums of two one-byte files |
| Crc32.CheckValue | rb_lib/src/RBHelpers.cpp:57-77 | the check value of CRC-32, that of the text "123456789" |
| Crc32.OneByteIsNoticed | rb_client/src/ClientFlow.cpp:146-148 | changing one byte of a file, wherever it is, changes the checksum |
| FileManager.FileManager.InitialScan | rb_client/src/FileManager.cpp:10-22 | the tracked files are overwritten by those of the scan |
| FileManager.MentionsIff | rb_client/src/FileManager.cpp:13 | a text is found in a path exactly where the path has it as a part |
| FileManager.NoSuchCharacter | rb_client/src/FileManager.cpp:13 | a path without the first character of a text does not mention it |
| FileManager.ScanFindsIff | rb_client/src/FileManager.cpp:12-20 | a scan finds exactly the regular files whose path has no part ".DS_Store", with their metadata |
| FileManager.NewFileIsReportedIff | rb_client/src/FileManager.cpp:58-67 | a file not tracked yet is reported as created exactly if a scan finds it |
| FileManager.JoinedBySlash | rb_client/src/FileManager.cpp:25-29 | how absolute and relative paths look |
| FileManager.FileManager.FileSystemCompare | rb_client/src/FileManager.cpp:94-124 | the events are exactly the differences between the server's files and the tracked ones, at most one per path; an empty root is refused |
| FileManager.FileManager.CompareServerFiles | rb_client/src/FileManager.cpp:99-113 | the first loop decides exactly the paths the server has |
| FileManager.FileManager.CompareLocalFiles | rb_client/src/FileManager.cpp:115-123 | the second loop decides the remaining ones |
| FileManager.FileManager.Poll | rb_client/src/FileManager.cpp:42-84 | the events of a poll are exactly the differences, at most one per path, and replaying them on the old tracked files gives the new ones |
| FileManager.FileManager.StartMonitoring | rb_client/src/FileManager.cpp:38-89 | over any number of polls, replaying all events on the first tracked files gives the last ones |
| FileManager.FileManager.EraseVanished | rb_client/src/FileManager.cpp:44-53 | exactly the files that no longer exist are dropped and reported |
| FileManager.FileManager.VisitEntries | rb_client/src/FileManager.cpp:55-84 | the second loop merges what is on disk into the tracked files and reports the rest of the differences |
| FileManager.FileManager.VisitAndList | rb_client/src/FileManager.cpp:55-84 | the body of that loop: one more entry is merged and its event, if any, listed |
| FileManager.FileManager.VisitEntry | rb_client/src/FileManager.cpp:56-83 | what happens to one directory entry |
| FileManager.PollTracksFilesIff | rb_client/src/FileManager.cpp:46-58 | after a poll the tracked paths are the watched files on disk exactly if no tracked path turned into something else |
| FileManager.PollIsCurrent | rb_client/src/FileManager.cpp:58-82 | after a poll a tracked checksum is current exactly unless the contents differ under the same write time |
| FileManager.ChangeStaysUnnoticed | rb_client/src/FileManager.cpp:70-75 | a file of one byte, changed without its write time, keeps its old checksum |
| FileManager.DirectoryStaysTracked | rb_client/src/FileManager.cpp:46-58 | a tracked file replaced by a directory is tracked still and not reported |
| FileManager.SecondPollIsSilent | rb_client/src/FileManager.cpp:38-89 | a second poll of a file system that stood still reports nothing |
| FileManager.RemovePrefInvertsJoin | rb_client/src/FileManager.cpp:25-29 | removing the root's prefix undoes joining a relative path to the root |
| Reconcile.ReplayAt | rb_client/src/FileManager.cpp:38-89 | replaying any events leaves on each path what its last event says |
| Reconcile.EventFor | rb_client/src/FileManager.cpp:99-123 | the event due for a path names it, says created, modified or removed according to which side has it, carries the new metadata, and is absent for a file on both sides exactly if write time or checksum agree |
| Reconcile.LastEventIsDue | rb_client/src/FileManager.cpp:94-124 | in a list of the whole difference the last event of a path is the one due |
| Reconcile.ReplayGivesMerge | rb_client/src/FileManager.cpp:94-124 | replaying exactly the differences on the old files gives the new ones, except entries that do not count as modified |
| AtomicMap.AtomicMap.Add | rb_lib/inc/AtomicMap.hpp:48-54 | the new map, under the condition that `add` waits for |
| AtomicMap.AtomicMap.Remove | rb_lib/inc/AtomicMap.hpp:56-60 | the map without the key |
| AtomicMap.AtomicMap.Has | rb_lib/inc/AtomicMap.hpp:62-65 | whether the key is there |
| ServerFlow.ServerFlow.Flow | rb_server/inc/ServerFlow.h:93-208 | which requests take a guard, that a held one is refused without effect, what each request does and answers, and that no guard outlives its response |
| ServerFlow.ServerFlow.FlowDiscard | rb_server/inc/ServerFlow.h:133-166 | the same for REMOVE and ABORT |
| Guards.NextKeepsInv | rb_lib/inc/AtomicMap.hpp:14-60 | every step of the worker pool keeps: the map's keys belong to live guards, and connections are served once, in order of arrival |
| Guards.RunKeepsInv | rb_server/src/Server.cpp:59-76 | so does every run, for any number of workers and any requests |
| Guards.GuardsNeverBlock | rb_server/src/Server.cpp:59-76 | with as many workers as the map's limit the map never exceeds the limit and the wait inside `add` never happens |
| Guards.ExclusionLostIff | rb_lib/inc/AtomicMap.hpp:14-19 | a step ends the exclusion of guards exactly if it adds a key that is already there |
| Guards.GuardsExclude | rb_lib/inc/AtomicMap.hpp:14-32 | in every run, for any workers and requests, guards exclude each other and the map knows exactly the live ones, unless at some moment two workers have asked for the same key and neither has it yet |
| Guards.AskingIsRefused | rb_lib/inc/AtomicMap.hpp:16 | then a worker that asks for a key that another one holds goes back to its connection |
| Guards.AllWorkersCanHold | rb_server/src/Server.cpp:59-76 | a run in which all workers hold guards at once, each for its own connection and key |
| Guards.WorkerServesNext | rb_server/src/Server.cpp:63-72 | a worker that holds a guard can give it up, close its connection and serve the one that has waited longest |
| Guards.TwoGuardsForOneKey | rb_lib/inc/AtomicMap.hpp:16-18 | a run in which two workers hold guards for the same key |
| ConfigMap.ConfigMap.Set | rb_lib/inc/ConfigMap.hpp:17-22 | a new key goes to the end of the order, which stays duplicate-free with exactly the map's keys |
| ConfigMap.ConfigMap.Store | rb_lib/inc/ConfigMap.hpp:76-83 | the text written, in key order |
| ConfigMap.ConfigMap.Load | rb_lib/inc/ConfigMap.hpp:41-74 | what loading assigns, when it gives up, and what it writes to the file then |
| ConfigMap.ConfigMap.LoadFile | rb_lib/inc/ConfigMap.hpp:54-63 | the assignments made by the lines of the file |
| ConfigMap.ConfigMap.LoadLine | rb_lib/inc/ConfigMap.hpp:55-62 | the assignment made by one line |
| ConfigMap.ConfigMap.CheckComplete | rb_lib/inc/ConfigMap.hpp:65-73 | whether every property has a value |
| ConfigMap.LoadPrinted | rb_lib/inc/ConfigMap.hpp:54-83 | loading a printed configuration assigns exactly the printed values that are not empty |
| ConfigMap.ParseLineIff | rb_lib/inc/ConfigMap.hpp:56-61 | exactly the lines `key=value` with a value are parsed, the key ending at the first '=' |
| ConfigMap.PrintedLines | rb_lib/inc/ConfigMap.hpp:76-83 | the file has one line `key=value` for each key, in key order |
| ConfigMap.LastLine | rb_lib/inc/ConfigMap.hpp:55 | a last line counts also without a newline |
| ConfigMap.LastLineWins | rb_lib/inc/ConfigMap.hpp:54-63 | loading gives every known key the value of the last line that sets it, and adds no keys |
| ConfigMap.StoreThenLoadIff | rb_lib/inc/ConfigMap.hpp:41-83 | storing and loading copies the configuration exactly if no value is empty in it but not in the target |
| ConfigMap.EmptyValueIsNotCopied | rb_lib/inc/ConfigMap.hpp:58-60 | an empty value is written, but reading it back leaves the value that was there |
| ConfigMap.LoadStoreLoad | rb_lib/inc/ConfigMap.hpp:41-83 | a text that `load` accepts can be replaced by what `store` then writes |
| Cleanup.Disk.RecursiveCleanup | rb_server/src/FileSystemManager.cpp:309-316 | the tree afterwards is the pruned tree |
| Cleanup.PrunesExactly | rb_server/src/FileSystemManager.cpp:309-316 | every file is kept, and a directory below the root exactly if a file lies somewhere beneath it |
| Cleanup.PrunedTwice | rb_server/src/FileSystemManager.cpp:318-321 | pruning again changes nothing |
| Cleanup.PrunedIsTree | rb_server/src/FileSystemManager.cpp:309-316 | what is kept still hangs together |
| Cleanup.ChildDone | rb_server/src/FileSystemManager.cpp:310-314 | cleaning one child and removing it if it is then empty prunes exactly what lies below that child |

## Left out

- Sockets, protobuf messages and their framing: a request is handled and answered as a value.
- SQLite beyond insert, update and delete of one row; errors of disk and database, and crashes in mid-write.
- Users, passwords, tokens and MD5: `flow` starts with the user's name.
- Checks of forbidden and malformed paths, and normalisation: paths are in normal form, the watch root has no trailing separator.
- Links, and paths that are a file on one side and a directory on the other.
- Time: watchdogs, sleeps, timeouts, retry counting. A wait is a disabled step, and no progress is claimed.
- Shutdown: the `keep_going` exits, the `^NIL^` entry, signals.
- `FileCommand::RENAME`, which nothing ever queues.
- Overflow of `id_counter` (2^31 operations) and of `last_segment` (2^31 accepted segments), and of the 64-bit product of a segment number with the segment size.
- What an upload of a file whose segment count does not fit an `int` does beyond the wrap-around of the conversion: in C++ the increment of the largest `int` is undefined.
- Exceptions of one poll in mid-way: a poll runs on a file system that stands still.
- `atomic_map::get`, `ConfigMap::get_numeric`, and the database getters of single columns, which would only add easy members.
- BackupTheorems.NewestIsNeverLost: nothing is claimed of an unclean path. Re-upload after a skip or failure depends on later changes of the file, and a disturbed path may lose its newest upload (Strays.OldSegmentWins).
- BackupTheorems.DrainedMeansSequential: nothing is claimed of an unclean path, for the same reasons.
- Convergence.PathConverges: nothing is claimed of an unclean path, for the same reasons; so with Convergence.WatchingConverges and Convergence.StartupConverges.
- BackupRestore.StandingFileIsRestored: nothing is claimed of an unclean path, for the same reasons.
- BackupTheorems.NoContention: a request on a disturbed path can be refused, since the server may still guard a stray request there.
- Guards.GuardsExclude: exclusion is not claimed once two requests have asked for a key before either had it, since it then does not hold (Guards.TwoGuardsForOneKey, Strays.LaterRequestPasses).
- ClientFlow.UploadFile: the file stands still while this object-level upload runs; `BackupSystem` allows it to change between any two reads of a segment. The requests go to the file operations directly; `ServerFlow.Flow` is the layer between.
- ClientLoops.SenderTurn: no exception and no other sender intervenes; `BackupSystem` has both.
- OutputQueue.OutputQueue.AddFileOperation: the loop is modelled by its comment, erasing and going on with the next element.
- ClientLoops.UpdateHandler: it drops an upload whose path is no regular file at that moment; the convergence results are about the events that it queues.
- ServerFlow.ServerFlow.Flow: no other worker acts between the steps of the request, so the race of `has` and `add` is outside this contract; `Guards` and `BackupSystem` interleave those steps.
- ServerFlow.ServerFlow.FlowDiscard: the same.
