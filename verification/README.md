# Vaultra in Dafny

Vaultra is an FTP and SFTP client. This project models the logic of its Rust backend that is
hard to get right, and proves what that logic is for:

- **SFTP engine** (`SftpTransport`, `SftpReader`, `SftpWriter`, `SftpPacket`): many requests share
  one byte stream, replies come in any order, reads and writes are pipelined. Routing is a state
  machine over the steps of all tasks; the pipelines are classes that are shown to refine
  reading and writing the file from one end to the other, for every server that keeps the stated
  rules of draft-ietf-secsh-filexfer-02.
- **Transfers** (`Conflict`, `TransferWorker`): one run of a file item, with every way it can end,
  and whole histories of runs: what an interrupted transfer leaves behind can always be resumed.
- **Transfer queue** (`TransferItems`, `QueueState`, `TransferQueue`, `QueueEffects`,
  `QueueLifecycle`, `WorkerOutcomes`, `QueueDispatch`, `QueueRetry`, `DirectoryExpansion`,
  `QueueBatch`):
  `TransferQueue` is the queue with its methods and fields; each method is proved to take the
  queue from one value to the next as a function in `QueueState` says. `QueueEffects` says what
  the small methods mean to a caller and what undoes them. `QueueLifecycle` puts these functions and all that
  workers do into one state machine, and the other modules prove things about every run of it:
  who is active, how many, in which order, how often, and that no planned file is lost.
- **Algorithms**: deleting a remote tree (`RemoteDelete`), comparing two folders (`FolderSync`), the
  bandwidth throttle (`Throttle`), FTP replies (`FtpReplies`), `ls` lines (`FtpListing`) and
  scaling icons (`IconResample`).

`dafny verify dfyconfig.toml` checks everything.

## How the code is read

- Methods that change fields are methods of classes here, and every loop of the source is a loop.
  What a method does is stated by a function of the old state; lemmas are about these functions.
- Each method of the queue is one atomic step, as its locks make it nearly so. Workers, user
  requests, the scheduler and session changes interleave in any order.
- The server, the disk, the user and the clock are free to do anything that is not excluded by
  name: nondeterministic choices (`if *`, `:|`) and parameters stand for them.
- Two kinds of server are kept apart. Any server may answer a READ with a prefix of the range.
  A `regular` one keeps the promise that section 6.4 of draft-ietf-secsh-filexfer-02 makes for regular
  files. Likewise a WRITE may fail in any way, and `failStop` servers change nothing more on
  that handle afterwards. Resuming is proved for regular reads and fail-stop writes.
- 32-bit lengths, ids and mode bits wrap or are cut as in the source. Other integers are
  unbounded; where the source could overflow there is a lemma about it.

## What turned out not to hold

Some claims one would like to make are false of the code. Each has a lemma with a
concrete witness, and wherever possible the exact condition.

- A short READ reply ends the stream although later replies are still used: `ShortReadLeavesHole`;
  the stream is exact if and only if no reply was short (`ExactIffNeverShort`).
- After a failed WRITE a later one can still succeed and leave a hole of the right length:
  `FailureWithoutStopLeavesHole`. Whatever the data, the file is a prefix of what it should be if
  and only if no WRITE that stored something comes after one that stored less than all of its
  data: `PrefixIffNothingBehindGap`.
- That fewer than 2^32 requests are outstanding does not keep ids apart; what counts is
  how many ids were drawn since the oldest unfinished request. `WrappedIdLosesReply` is a run from
  the start, with at most two requests outstanding at any time and an intact connection, that
  loses a reply; `RoutingIsSafe` holds on every run in which the ids fit,
  `RoutingIsSafeIff` is the exact condition over runs and `RegisterIsHarmlessIffFresh` that of a
  single step.
- A run that ends `Skipped` may leave a part of the file, when an earlier run broke off before its
  progress was recorded and the user then skips: `SkippedCanLeavePart`. `LeftAloneIff` is the exact
  guard, `SkippedIsSafeIff` the exact condition over every history with restarts, and
  `PartsNeedProgress` the one without.
- The worker of a removed directory adds its children to the list if it was already listing:
  `LateWorkerOnlyAppends`.
- The bandwidth limit plus a burst is exceeded: a single caller can get exactly twice the rate for
  as long as it likes, because the bucket fills while the caller waits: `BoundIsReached`. The
  excess is never more than the rate times the time waited: `ExcessIsWaiting`.
- The retry delay can overflow 64 bits. `DelaysFitIff` says for which settings it does not, and
  `DelayOverflows` that from the 58th attempt on it does for all.
- A link in an `ls` listing whose name contains " -> ", or just ends in " ->", is cut in the wrong
  place: `LineRoundTrip` holds if and only if it does not. Owners and groups named like a month do
  no harm.
- A multi-line reply ends at the first inner line that looks like its last one, and a single line
  loses its text behind a separator that is not ASCII: `ReadBackIffUnambiguous`.
- Leaving an icon of the wanted size alone differs from the filter on pixels that are invisible but
  not zero: `SameSizeAgrees`.
- When one side of a comparison has a directory and the other a file of the same path, `is_dir`
  follows the local side, so it is the one field that is not mirrored: `SwappingMirrors`.

## Model

| member | source | states |
|---|---|---|
| `SftpRead.AssembledWithinFile` | src-tauri/src/protocol/sftp/client.rs:578-606 | for every server that answers with prefixes, the replies put together never exceed what was requested, and if they reach that length they are exactly that part of the file |
| `SftpRead.ExactIffNeverShort` | src-tauri/src/protocol/sftp/client.rs:578-606 | with short replies allowed, the assembled stream is the file from the offset on if and only if no reply was short |
| `SftpRead.AssembledRegular` | src-tauri/src/protocol/sftp/client.rs:578-606 | under the regular-file guarantee the assembled stream is exact after every reply |
| `SftpRead.PrefixOfLogIsRight` | src-tauri/src/protocol/sftp/client.rs:568-606 | whatever part of the stream has been handed on is right once it has the length that `verify` checks, and for regular files always |
| `SftpRead.ShortReplyCoversFile` | src-tauri/src/protocol/sftp/client.rs:594-596 | a short reply from a regular file really means the end: nothing of the file is left unrequested |
| `SftpRead.ShortReadLeavesHole` | src-tauri/src/protocol/sftp/client.rs:594-596 | a server that answers once short makes the reader produce bytes that are no prefix of the file |
| `SftpRead.SftpReader.FillPipeline` | src-tauri/src/protocol/sftp/client.rs:553-566 | the window is filled with exactly 64 requests for consecutive chunks, and not at all after the end was seen |
| `SftpRead.SftpReader.DrainBuffer` | src-tauri/src/protocol/sftp/client.rs:568-574 | hands on the next bytes of the buffer, as many as there is room for, each once |
| `SftpRead.SftpReader.Read` | src-tauri/src/protocol/sftp/client.rs:577-607 | a call terminates and fails if and only if a send was refused or the last reply it waited for was lost, unreadable or a status other than end of file (code 1), as a lost connection exactly for a refused send, a lost reply and codes 6 and 7; all that was delivered is within the file and equal to it once as long; for regular files always a prefix, and an empty result means that everything was delivered; offsets stay within one window behind the file |
| `SftpRead.SftpReader.Finish` | src-tauri/src/protocol/sftp/client.rs:609-614 | every outstanding request is waited for, in order, and then the handle is closed; the result is success if and only if the server confirms the close |
| `SftpWrite.ReplayAllApplied` | src-tauri/src/protocol/sftp/client.rs:646-677 | if every WRITE succeeded the remote file is the old one followed by what the requests carried |
| `SftpWrite.PrefixIffNothingBehindGap` | src-tauri/src/protocol/sftp/client.rs:634-677 | for given outcomes and request lengths: the remote file is the old one followed by a prefix of what was sent, for all data, if and only if no request that stored something comes after one that stored less than all of its data |
| `SftpWrite.ReplayWithoutGap` | src-tauri/src/protocol/sftp/client.rs:646-677 | under that condition the file is a prefix at any time, and everything once all was stored |
| `SftpWrite.ReplayFailStop` | src-tauri/src/protocol/sftp/client.rs:646-677 | a fail-stop server meets the condition: the remote file is at any time the old one followed by a prefix of what was sent |
| `SftpWrite.FirstFailure` | src-tauri/src/protocol/sftp/client.rs:634-644 | the first WRITE to fail leaves a prefix behind, whatever part of it was stored |
| `SftpWrite.FailureWithoutStopLeavesHole` | src-tauri/src/protocol/sftp/client.rs:634-677 | without fail-stop the file can have the full length and wrong content |
| `SftpWrite.SftpWriter.AwaitOldest` | src-tauri/src/protocol/sftp/client.rs:634-644 | the oldest outstanding WRITE leaves the window; success means that it was applied, failure that an error came back, which is reported |
| `SftpWrite.SftpWriter.Write` | src-tauri/src/protocol/sftp/client.rs:646-663 | at most 64 WRITEs are in flight; on success all of the buffer was accepted in order behind what was accepted before, on failure a prefix of it; it fails if and only if an error comes back, with that error and at once |
| `SftpWrite.SftpWriter.Finish` | src-tauri/src/protocol/sftp/client.rs:665-677 | if it and all writes succeeded, every WRITE was applied and the remote file is the one opened followed by all that was written; it succeeds if and only if no error comes back, neither for a WRITE nor for the close, and else reports the first one |
| `SftpWrite.SftpWriter.AllWritten` | src-tauri/src/protocol/sftp/client.rs:468-483 | with nothing in flight and no failure, opened at its length (or truncated at 0), the file is base plus everything accepted |
| `SftpWrite.SftpWriter.RemoteIsPrefix` | src-tauri/src/protocol/sftp/client.rs:646-677 | on a fail-stop server the file is a resumable prefix after any failure of any call |
| `SftpTransport.StepKeepsInv` | src-tauri/src/protocol/sftp/client.rs:32-57 | every step of senders, writer, server, reader and close keeps the invariant: the map holds exactly the waiting receivers under their ids, a request is in one place at most, answers belong to their requests |
| `SftpTransport.RoutingIsSafe` | src-tauri/src/protocol/sftp/client.rs:318-370 | in every interleaving in which at most 2^32 ids were drawn since the oldest unfinished request, a receiver is resolved at most once, only with its own reply or with connection-lost, the latter only after a refusal or the close; whatever is on its way finds its entry |
| `SftpTransport.RoutingIsSafeIff` | src-tauri/src/protocol/sftp/client.rs:32-57 | over any run: all answers ever given are their receivers' own if and only if no request that was registered while the reader was open took an id in use |
| `SftpTransport.ClosedStays` | src-tauri/src/protocol/sftp/client.rs:362-370 | once the reader has closed, no step does any harm whatever ids are drawn: answers stay, and new ones are connection-lost |
| `SftpTransport.AnswersAreFinal` | src-tauri/src/protocol/sftp/client.rs:347-370 | an answer never changes |
| `SftpTransport.ReplyFindsItsReceiver` | src-tauri/src/protocol/sftp/client.rs:347-360 | registration precedes sending, so the reply the reader delivers finds the receiver of its own request |
| `SftpTransport.DeliverAnswers` | src-tauri/src/protocol/sftp/client.rs:355-360 | delivering a reply resolves exactly its own receiver, with it, and clears the entry |
| `SftpTransport.DrainResolvesAll` | src-tauri/src/protocol/sftp/client.rs:362-370 | when the reader has closed, every receiver that still waits is resolved as lost and no other answer changes |
| `SftpTransport.RefusedLeavesNothing` | src-tauri/src/protocol/sftp/client.rs:41-52 | a sender is refused if and only if it finds the connection dead or its packet cannot be handed over, and leaves no entry |
| `SftpTransport.DeadStaysDead` | src-tauri/src/protocol/sftp/client.rs:296-370 | once reader or writer has ended, every later sender is refused |
| `SftpTransport.WindowKeepsIdsFresh` | src-tauri/src/protocol/sftp/client.rs:33-35 | ids stay unique if at most 2^32 were drawn since the oldest unfinished request |
| `SftpTransport.WrappedIdLosesReply` | src-tauri/src/protocol/sftp/client.rs:33-52 | without that window the claim is false: a run from the start, never more than two requests outstanding, in which a request waiting for its reply is resolved as lost although connection, reader and writer are in order |
| `SftpTransport.RegisterIsHarmlessIffFresh` | src-tauri/src/protocol/sftp/client.rs:41-52 | registering leaves all waiting receivers alone if and only if the id is not in use |
| `SftpPacket.AttrsRoundTrip` | src-tauri/src/protocol/sftp/packet.rs:89-145 | decoding encoded attributes gives them normalised (owner and group, and the two times, only as pairs) and does not touch what follows |
| `SftpPacket.ExtendedAreSkipped` | src-tauri/src/protocol/sftp/packet.rs:120-145 | extended attributes, however many, are skipped and nothing else changes |
| `SftpPacket.MoreAttrs` | src-tauri/src/protocol/sftp/packet.rs:120-190 | decoding depends only on the octets it consumes |
| `SftpPacket.CutShortFails` | src-tauri/src/protocol/sftp/packet.rs:161-190 | attributes cut short at any octet are an error |
| `SftpPacket.AttrsAsOctets` | src-tauri/src/protocol/sftp/packet.rs:89-118 | the octets of a full set of attributes, most significant first, fields in the order of section 5 of draft-ietf-secsh-filexfer-02 |
| `SftpPacket.FlagsAsOctets` | src-tauri/src/protocol/sftp/packet.rs:89-118 | each field has its own flag value and takes no room without it |
| `SftpPacket.DecodeInside` | src-tauri/src/protocol/sftp/packet.rs:120-190 | decoding arbitrary bytes fails or leaves a suffix of them: nothing behind the buffer is read |
| `SftpPacket.NamesRoundTrip` | src-tauri/src/protocol/sftp/client.rs:230-255 | a listing of any length is read back entry by entry |
| `SftpPacket.FrameRoundTrip` | src-tauri/src/protocol/sftp/packet.rs:197-243 | a built packet is cut off the stream with its own type, id and payload |
| `SftpPacket.FramingRoundTrip` | src-tauri/src/protocol/sftp/client.rs:324-346 | a stream of packets within the size limits is split into exactly these, whatever follows |
| `SftpPacket.PacketAsOctets` | src-tauri/src/protocol/sftp/packet.rs:197-243 | the octets of a packet: a length that does not count itself, type, id, payload |
| `SftpPacket.BadLengthStops` | src-tauri/src/protocol/sftp/client.rs:327-334 | the loop stops at a length if and only if it is below 5 or above 525312 |
| `SftpPacket.IncompleteIsNotDelivered` | src-tauri/src/protocol/sftp/client.rs:324-339 | no part of a packet is delivered before all of it is there |
| `SftpPacket.Reader.Attributes` | src-tauri/src/protocol/sftp/packet.rs:120-145 | the imperative decoder consumes exactly what the decoding function does, and fails when it does |
| `SftpPacket.PacketBuilder.Attributes` | src-tauri/src/protocol/sftp/packet.rs:89-118 | the imperative encoder appends the wire form of the attributes |
| `SftpPacket.PacketBuilder.Finish` | src-tauri/src/protocol/sftp/packet.rs:239-243 | fills in the length such that the packet frames |
| `SftpPacket.ReadLoop` | src-tauri/src/protocol/sftp/client.rs:318-346 | the loop terminates on every stream and yields its frames, and the reason it ended |
| `Conflict.OffsetsComeFromResume` | src-tauri/src/transfer/conflict.rs:71-105 | only Resume yields an offset, inside the source, at the end of what exists, never with a new name |
| `Conflict.PoliciesDecide` | src-tauri/src/transfer/conflict.rs:71-105 | exactly when a target is left alone, and that exactly Rename takes a new name; with the row above this fixes every decision |
| `Conflict.SettledIsLeftAlone` | src-tauri/src/transfer/conflict.rs:71-105 | once the target matches the source, exactly Skip, Resume and OverwriteIfNewer leave it alone, so running a transfer again is harmless under them |
| `Conflict.NewerWins` | src-tauri/src/transfer/conflict.rs:92-103 | under OverwriteIfNewer the newer of two files overwrites the older and never the reverse; equal times change nothing |
| `Conflict.UniqueName` | src-tauri/src/transfer/conflict.rs:107-117 | the first numbered name that is not taken, if any is free |
| `Conflict.NumberedAreDifferent` | src-tauri/src/transfer/conflict.rs:107-117 | the names tried are all different and differ from the original |
| `Conflict.NameIsSplit` | src-tauri/src/transfer/conflict.rs:107-112 | stem and extension make up the name, cut at its last dot unless that is its first character |
| `TransferWorker.PlanAlwaysFits` | src-tauri/src/transfer/worker.rs:578-712 | whatever is on the target side, a non-zero offset is the length of the target and inside the source |
| `TransferWorker.ResumeKeepsProgress` | src-tauri/src/transfer/worker.rs:636-643 | if progress is known and the target was examined and is no longer than the source, a run keeps the target and all it holds however it ends, and is not skipped, whatever the policy |
| `TransferWorker.KeepsProgressIffExamined` | src-tauri/src/transfer/worker.rs:598-635 | with known progress, every possible run keeps what is there if and only if the target could be examined or is empty: one that could not be is started over |
| `TransferWorker.ProgressNeverShrinks` | src-tauri/src/transfer/worker.rs:636-643 | over histories, between runs that start with known progress at a target they can examine, it never gets shorter and stays a prefix of the source |
| `TransferWorker.OnlyRenameMoves` | src-tauri/src/transfer/worker.rs:676-712 | the target changes only to the fresh name, for a user who chose to rename, when nothing can be resumed, and the old file stays as it is |
| `TransferWorker.RenameMoves` | src-tauri/src/transfer/worker.rs:676-712 | in that case it does |
| `TransferWorker.RunKeepsResumable` | src-tauri/src/transfer/worker.rs:628-675 | every run, however it ends, keeps files that are either original or a prefix of the source, and `Done` means equal to it |
| `TransferWorker.HistoryIsSound` | src-tauri/src/transfer/worker.rs:537-576 | over any sequence of interrupted, failed, retried and resumed runs, and of restarts that bring back any target and progress known at an earlier moment, a final `Done` leaves the target equal to the source; a target once known with progress holds a prefix of the source from then on |
| `TransferWorker.DoneIsExact` | src-tauri/src/transfer/worker.rs:879-894 | after `Done` the target is the source if and only if the part that was kept was its beginning |
| `TransferWorker.LeftAloneIff` | src-tauri/src/transfer/worker.rs:640-675 | a target shorter than the source is left alone if and only if no progress is known and the policy is Skip, or OverwriteIfNewer with a source that is not newer |
| `TransferWorker.SkippedIsSafeIff` | src-tauri/src/transfer/worker.rs:628-675 | after any history, every further run that ends `Skipped` ends on the whole source or the original file, if and only if no target that a restart can bring back without progress holds a part |
| `TransferWorker.PartsNeedProgress` | src-tauri/src/transfer/worker.rs:758-784 | without a restart in between, the next run cannot end `Skipped` on a part, if and only if the last one has progress recorded should it have left one |
| `TransferWorker.SkippedCanLeavePart` | src-tauri/src/transfer/worker.rs:758-784 | such a part does come about: a history of two runs ending in `Skipped` with half a file |
| `TransferWorker.TransferTask.Download` | src-tauri/src/transfer/worker.rs:797-843 | wherever the loop stops, the target is what was kept and a prefix of the rest of the source; all of it on `Done` |
| `TransferWorker.TransferTask.Upload` | src-tauri/src/transfer/worker.rs:845-877 | the same through the pipelined writer, with failures at any call |
| `TransferWorker.TransferTask.CopyRemote` | src-tauri/src/transfer/worker.rs:327-396 | the same from one server to another, with both pipelines |
| `TransferWorker.SizeCheckIsExact` | src-tauri/src/transfer/worker.rs:879-894 | even when reads may be short, whatever the server answered: a download has the size of the source if and only if it is the source |
| `TransferWorker.TransferTask.TransferFile` | src-tauri/src/transfer/worker.rs:537-576 | one run in any direction is one of the runs that histories are made of, with every target and progress that it made known; it fails only if something it depends on went wrong, and is paused or cancelled only if told so, so that it ends `Done` or `Skipped` otherwise |
| `QueueEffects.RestoredIffAtRest` | src-tauri/src/transfer/queue.rs:97-135 | a stored queue is loaded as it was if and only if it was at rest (nothing active, bound or waiting for a retry); what is loaded always is, so a second restart changes nothing |
| `QueueEffects.RestartRequeues` | src-tauri/src/transfer/queue.rs:97-135 | after a restart what was active is queued, everything else keeps its status, nothing is started until its site is bound again, and then it is due at once with its work, error and attempts |
| `TransferQueue.TransferQueue.AddRequests` | src-tauri/src/transfer/queue.rs:169-184 | all items are added at the end or, when a session is missing, none |
| `TransferQueue.TransferQueue.BatchStatusOf` | src-tauri/src/transfer/queue.rs:220-231 | the exact numbers of pending and failed items of a batch |
| `TransferQueue.TransferQueue.InsertChildren` | src-tauri/src/transfer/queue.rs:246-258 | children go right behind their parent in order, or to the end when it is gone |
| `QueueEffects.ChildrenFollowParent` | src-tauri/src/transfer/queue.rs:246-258 | children stand in order right behind their parent, or behind everything when it is gone |
| `TransferQueue.TransferQueue.CompleteItem` | src-tauri/src/transfer/queue.rs:302-327 | done and skipped items move to the bounded history, failed ones stay; the control goes |
| `QueueEffects.DoneGoesToHistory` | src-tauri/src/transfer/queue.rs:302-327 | a completed item leaves the list and comes first in the history with its status and error; the history keeps the latest max(cap, 10); the others stay in order |
| `QueueEffects.FailedStays` | src-tauri/src/transfer/queue.rs:302-327 | a failed item stays with its error and its work and is started by no dispatch |
| `QueueEffects.RetryWaits` | src-tauri/src/transfer/queue.rs:329-338 | the item is due again on its session from the given time on and not before, keeps progress and attempts, loses its control; no other item, control or setting is concerned |
| `QueueEffects.PausedUntilResumed` | src-tauri/src/transfer/queue.rs:340-347 | no dispatch starts the item on any session at any time until it is resumed, which makes it due at once with its progress kept; nothing else is concerned |
| `QueueEffects.PauseStops` | src-tauri/src/transfer/queue.rs:349-365 | an item with a worker stays as it is and the worker is told to pause; any other is started by no dispatch afterwards; nothing else is concerned |
| `QueueEffects.ResumeUndoesPauseIff` | src-tauri/src/transfer/queue.rs:349-377 | resuming restores the queue from before the pause of a queued item if and only if the item was not waiting for a retry |
| `QueueEffects.ResumeWakes` | src-tauri/src/transfer/queue.rs:367-377 | a paused or failed item is due at once with a clean count and its progress; the queue is unchanged if and only if the item was neither |
| `TransferQueue.TransferQueue.RemoveItem` | src-tauri/src/transfer/queue.rs:379-388 | the item goes and its worker is told to stop |
| `QueueEffects.RemoveStopsForGood` | src-tauri/src/transfer/queue.rs:379-388 | exactly the item goes, its worker is told to stop and not to pause, no other control changes |
| `TransferQueue.TransferQueue.Move` | src-tauri/src/transfer/queue.rs:390-400 | one item changes place, the order of the others stays |
| `QueueEffects.MovePlaces` | src-tauri/src/transfer/queue.rs:390-400 | the item gets the wanted place or the last one, and the others keep their order |
| `QueueEffects.RetryFailedIsResuming` | src-tauri/src/transfer/queue.rs:433-446 | each failed item becomes what resuming it makes of it, every other stays |
| `QueueEffects.RetryFailedCounts` | src-tauri/src/transfer/queue.rs:433-446 | every batch then has its failed items pending again and none failed |
| `QueueEffects.RemoveFailedKeepsOthers` | src-tauri/src/transfer/queue.rs:448-454 | exactly the failed items go, and any two others stay in their order |
| `QueueEffects.RemoveFailedCounts` | src-tauri/src/transfer/queue.rs:448-454 | every batch keeps its pending items and has none failed |
| `TransferQueue.TransferQueue.ClearAll` | src-tauri/src/transfer/queue.rs:456-465 | the list is empty and every worker is told to stop |
| `QueueEffects.ClearStopsAll` | src-tauri/src/transfer/queue.rs:456-465 | nothing is left in the list and every worker is told to stop and not to pause |
| `QueueEffects.BindMakesDue` | src-tauri/src/transfer/queue.rs:472-482 | an item is due on the bound session if and only if it was, or it is an otherwise ready item of the site without a session; on other sessions nothing changes, and status and progress stay |
| `TransferQueue.TransferQueue.Unbind` | src-tauri/src/transfer/queue.rs:484-505 | queued items of the session are paused, workers of active ones told to pause, and all of them released; choices made for all conflicts of the session are forgotten |
| `QueueEffects.UnbindReleases` | src-tauri/src/transfer/queue.rs:484-505 | every item of the session loses it and is started by no dispatch; workers are told to pause, queued items are paused, all others and all other items stay |
| `QueueEffects.UpdatesSetTheirFields` | src-tauri/src/transfer/queue.rs:264-300 | priority, progress and plan are set on the one item and nowhere else |
| `TransferQueue.TransferQueue.Persist` | src-tauri/src/transfer/queue.rs:552-565 | every pending or failed item is stored in order, and the history; with `RestartKeepsInv` that is every item |
| `TransferQueue.StartOn` | src-tauri/src/transfer/queue.rs:605-631 | the loop over the sorted candidates of a session starts the first of them that fit |
| `TransferQueue.TransferQueue.DispatchItems` | src-tauri/src/transfer/queue.rs:600-644 | session by session exactly the items start that rank among the first free ones, and each gets a control |
| `TransferQueue.PlaceIsRank` | src-tauri/src/transfer/queue.rs:612-620 | the place of an item after the stable sort is the number of due items before it by priority and position |
| `TransferQueue.RankDecides` | src-tauri/src/transfer/queue.rs:605-631 | starting the first free candidates is starting the items whose rank is below the free capacity |
| `TransferQueue.SessionsAreIndependent` | src-tauri/src/transfer/queue.rs:600-633 | serving sessions in turn gives each what it would get on the original list |
| `QueueLifecycle.StepKeepsInv` | src-tauri/src/transfer/queue.rs:302-388 | each of the steps of users, sessions, scheduler and workers keeps the lifecycle invariant |
| `QueueLifecycle.ActiveIffWorking` | src-tauri/src/transfer/queue.rs:302-388 | in every reachable state ids are unique, disjoint from the history, items are never done or skipped, and active if and only if there is a worker if and only if there is a control |
| `QueueLifecycle.FirstStartIsARun` | src-tauri/src/transfer/queue.rs:97-135 | the same holds in every state reached from an empty queue by any steps |
| `QueueLifecycle.RestartKeepsInv` | src-tauri/src/transfer/queue.rs:97-135 | storing and loading loses no item and re-establishes the invariant without workers |
| `QueueLifecycle.NeverStartedTwice` | src-tauri/src/transfer/queue.rs:620-644 | what a dispatch starts has neither a worker nor a control |
| `QueueLifecycle.LateWorkerOnlyAppends` | src-tauri/src/transfer/queue.rs:246-258 | the worker of a removed item changes no item and no history; the only thing it can do is append the children it was just listing |
| `WorkerOutcomes.BeginNeedsSession` | src-tauri/src/transfer/worker.rs:27-43 | only an item bound to a connected session is run, any other fails |
| `WorkerOutcomes.FinishGoesToHistory` | src-tauri/src/transfer/worker.rs:49-51 | a run that ends well takes the item to the history as done or as skipped |
| `WorkerOutcomes.StopPauses` | src-tauri/src/transfer/worker.rs:52-53 | a run told to stop leaves an item that is still listed paused |
| `WorkerOutcomes.FailCounts` | src-tauri/src/transfer/worker.rs:58-65 | a failed run counts exactly once |
| `WorkerOutcomes.RetryIsDueLater` | src-tauri/src/transfer/worker.rs:66-74 | a retry is due from its time on, with the error to be read |
| `WorkerOutcomes.GiveUpFails` | src-tauri/src/transfer/worker.rs:75-79 | without one the item is failed with its error |
| `QueueDispatch.StartsAsManyAsFit` | src-tauri/src/transfer/queue.rs:605-631 | work-conserving: the smaller of the free capacity and the number of due items start |
| `QueueDispatch.HigherPriorityFirst` | src-tauri/src/transfer/queue.rs:612-631 | of two queued, due items of a session of which a dispatch starts only one, that one has the higher priority or, with equal priorities, the lower index |
| `QueueDispatch.OnlyReadyItemsStart` | src-tauri/src/transfer/queue.rs:612-631 | a dispatch changes nothing but making queued, due items of a connected session active |
| `QueueDispatch.DispatchFillsConnections` | src-tauri/src/transfer/queue.rs:600-633 | a session with n connections, at least one, then has as many more active items as were ready and fitted |
| `QueueDispatch.StartsInOrder` | src-tauri/src/transfer/queue.rs:612-620 | whatever precedes a started item is started too |
| `QueueDispatch.DispatchFillsUp` | src-tauri/src/transfer/queue.rs:600-633 | afterwards a session has what it had plus what fitted, at most its limit unless it was above |
| `QueueDispatch.OnlyDispatchAndBindStart` | src-tauri/src/transfer/queue.rs:302-388 | no other step makes a session busier |
| `QueueDispatch.BindRaisesByOrphans` | src-tauri/src/transfer/queue.rs:472-482 | binding raises the active count by exactly the active items it rebinds |
| `QueueDispatch.CapacityOverRuns` | src-tauri/src/transfer/queue.rs:600-633 | over any run without binding the active items of a session never exceed its limit |
| `QueueRetry.DelaysFitIff` | src-tauri/src/transfer/worker.rs:66-74 | the 64-bit delay of every retry is the intended one if and only if max(backoff, 250) * 2^(max_retries-1) is below 2^64 |
| `QueueRetry.DelaysStayBelow` | src-tauri/src/transfer/queue.rs:329-338 | the same for any bound, so also for what is left of a signed 64-bit deadline |
| `QueueRetry.DelayFits` | src-tauri/src/transfer/worker.rs:66-74 | with at most 32 retries and a base below 2^31 a bit is left to spare |
| `QueueRetry.DelayOverflows` | src-tauri/src/transfer/worker.rs:66-74 | the attempts whose delay overflows under all settings are exactly those from the 58th on |
| `QueueRetry.StepKeepsRecords` | src-tauri/src/transfer/worker.rs:27-80 | each step keeps the books: runs, failures and the time of the last failure of every item since its last reset |
| `QueueRetry.RetriesAreBounded` | src-tauri/src/transfer/worker.rs:58-80 | between resets an item runs at most max_retries + 1 times, and attempts are exactly its failed runs although workers count from a snapshot |
| `QueueRetry.RetriesAreUsedUp` | src-tauri/src/transfer/worker.rs:66-79 | a run whose error could be retried is given up only after max_retries + 1 runs |
| `QueueRetry.RetriesAreBackedOff` | src-tauri/src/transfer/queue.rs:620-631 | a run after k failures starts no earlier than max(backoff, 250) * 2^(k-1) ms after the last one |
| `DirectoryExpansion.ExpandDirectory` | src-tauri/src/transfer/worker.rs:398-484 | one child per entry that is not left out, in the order of the listing |
| `DirectoryExpansion.ChildrenKeepFiles` | src-tauri/src/transfer/worker.rs:96-131 | the children of a directory stand for exactly its files in pre-order |
| `DirectoryExpansion.PlainTreeIsTransferred` | src-tauri/src/transfer/worker.rs:398-484 | in every direction a tree of directories and files stands for exactly its files, one each, in pre-order, with the names on the way on both sides |
| `DirectoryExpansion.PlainFileIsTransferred` | src-tauri/src/transfer/worker.rs:398-484 | whatever else a tree holds, no file at the end of directories is left out |
| `DirectoryExpansion.LinksAreTransferred` | src-tauri/src/transfer/worker.rs:417-437 | what becomes of a link, per direction, whether it is broken, to be followed and leads to a directory |
| `DirectoryExpansion.OthersAreTransferred` | src-tauri/src/transfer/worker.rs:438-441 | anything else is left out, except by an upload, which takes what it leads to |
| `DirectoryExpansion.ChildrenUseUpOneListing` | src-tauri/src/transfer/worker.rs:82-94 | expansion uses up one listing each time, so it ends |
| `QueueBatch.ExpandKeepsFlat` | src-tauri/src/transfer/queue.rs:246-258 | inserting children leaves the flattened list of planned files unchanged: none lost, added or moved |
| `QueueBatch.FinishDirectoryKeepsFlat` | src-tauri/src/transfer/queue.rs:302-318 | so does completing the directory afterwards |
| `QueueBatch.ExpandUsesUpOneListing` | src-tauri/src/transfer/worker.rs:82-94 | in the queue, too, every expansion lowers the number of listings still needed by one |
| `QueueBatch.StepConserves` | src-tauri/src/transfer/queue.rs:302-318 | completed files plus remaining files of a batch are the same before and after any step that spares it |
| `QueueBatch.RunConserves` | src-tauri/src/transfer/queue.rs:302-318 | over any such run, what was completed is exactly what is no longer remaining |
| `QueueBatch.QuiescenceIsExact` | src-tauri/src/transfer/queue.rs:220-231 | pending 0 and failed 0 means that every file of the batch completed, each once; this is what the drop waits for |
| `QueueBatch.RunLosesNothing` | src-tauri/src/transfer/queue.rs:97-135 | with restarts at any time, what a batch stood for is completed or still stood for |
| `QueueBatch.QuiescenceIsSafe` | src-tauri/src/transfer/queue.rs:220-231 | with restarts at any time, pending 0 and failed 0 means that every file of the batch completed at least once |
| `QueueBatch.NewBatch` | src-tauri/src/drag_out.rs:303-316 | right after adding it, a batch stands for all files below its items |
| `RemoteDelete.VisitDirectory` | src-tauri/src/commands.rs:330-338 | one round of the walk removes the files of a directory and stacks its directories, touching nothing else |
| `RemoteDelete.WalkTree` | src-tauri/src/commands.rs:326-340 | the walk ends with every directory visited, each after its parent, and only directories left below the root |
| `RemoteDelete.AllVisited` | src-tauri/src/commands.rs:330-340 | an empty stack means that no directory was missed |
| `RemoteDelete.LastIsEmpty` | src-tauri/src/commands.rs:341-344 | in reverse order every directory is empty when its turn comes |
| `RemoteDelete.DeleteRemoteTree` | src-tauri/src/commands.rs:326-345 | on success exactly the subtree is gone; it succeeds if and only if the directory is there and no command breaks; on any failure nothing outside was touched; no directory is ever refused for not being empty |
| `FolderSync.PathsAreInjective` | src-tauri/src/sync.rs:142-147 | different kept entries have different relative paths |
| `FolderSync.Collect` | src-tauri/src/sync.rs:138-167 | for any listings the stack walk has exactly the paths of the recursively defined set, each with facts found there, and the set itself if and only if no path occurs twice with different facts; it fails if and only if a directory it must list cannot be listed |
| `FolderSync.CollectFolder` | src-tauri/src/sync.rs:138-205 | the collected map has exactly the paths of the entries without an excluded ancestor-or-self, each with the facts of such an entry; with proper names it holds exactly these entries |
| `FolderSync.KeptMeansNotExcluded` | src-tauri/src/sync.rs:69-74 | kept are exactly the entries that can be reached without meeting one that a pattern excludes by relative path or name or, where broken links are skipped, a broken link |
| `FolderSync.FilesAreTold` | src-tauri/src/sync.rs:120-132 | for two files: equal if and only if sizes agree and times are unknown or at most 2 seconds apart; different if and only if sizes differ and a time is unknown or both are the same; newer if and only if the time is later, with equal sizes by more than 2 seconds |
| `FolderSync.NewerIsLater` | src-tauri/src/sync.rs:120-132 | a side is called newer only if both times are known and its own is later |
| `FolderSync.OnlyMeansAlone` | src-tauri/src/sync.rs:110-111 | LocalOnly and RemoteOnly if and only if the path is on that side alone |
| `FolderSync.DirectoriesAreTold` | src-tauri/src/sync.rs:113-119 | two directories are equal, a directory and a file are different |
| `FolderSync.EntryShowsFacts` | src-tauri/src/sync.rs:88-104 | an entry shows of each side exactly what that side holds, and the joined path where it holds nothing |
| `FolderSync.AtMostIsDictionaryOrder` | src-tauri/src/sync.rs:82-83 | the order of the diff is that of a dictionary |
| `FolderSync.ClassifyIsMirrored` | src-tauri/src/sync.rs:108-136 | verdicts are mirrored when the sides are swapped |
| `FolderSync.Diff` | src-tauri/src/sync.rs:77-106 | the diff has each path of the union once, in ascending order, with the verdict and facts of that path |
| `FolderSync.SwappingMirrors` | src-tauri/src/sync.rs:77-136 | swapping the sides mirrors the whole diff entry by entry; `is_dir` exactly where the two sides agree on it |
| `FolderSync.Compare` | src-tauri/src/sync.rs:77-106 | collection and diff together: fails if and only if one side cannot be listed, otherwise the diff of what both sides really hold |
| `Throttle.TokenBucket.Consume` | src-tauri/src/transfer/throttle.rs:31-56 | tokens stay between 0 and half the limit; the wait is exactly what the tokens do not cover |
| `Throttle.TokensComeFromRefill` | src-tauri/src/transfer/throttle.rs:38-46 | tokens taken and left never exceed the refill |
| `Throttle.AdmittedIsPaidFor` | src-tauri/src/transfer/throttle.rs:38-56 | every byte admitted was paid for by a token or by waiting |
| `Throttle.BandwidthBound` | src-tauri/src/transfer/throttle.rs:31-56 | n callers that wait out their delays are admitted at most (n + 1) times rate times time |
| `Throttle.ExcessIsWaiting` | src-tauri/src/transfer/throttle.rs:31-56 | what is admitted beyond rate times time is at most the rate times the time waited; without waiting the rate is kept |
| `Throttle.BoundIsReached` | src-tauri/src/transfer/throttle.rs:31-56 | with pieces of any size up to half a second's worth one caller is admitted exactly 2 * rate * time; rate times time plus burst is exceeded if and only if more than a second's worth has passed |
| `FtpReplies.ControlChannel.NextReply` | src-tauri/src/protocol/ftp/client.rs:226-250 | the reading loop terminates and takes off the stream what the reply function says |
| `FtpReplies.ReadBackIffUnambiguous` | src-tauri/src/protocol/ftp/client.rs:226-250 | a serialised reply is returned and exactly its lines consumed if and only if no inner line looks like its last and a single line has an ASCII separator |
| `FtpReplies.AmbiguityBreaksStep` | src-tauri/src/protocol/ftp/client.rs:238-246 | otherwise the rest of the reply is taken for the next one |
| `FtpReplies.StaysInStep` | src-tauri/src/protocol/ftp/client.rs:226-250 | reading any serialised sequence of replies returns exactly these and leaves exactly what follows |
| `FtpReplies.CodeIsTheNumber` | src-tauri/src/protocol/ftp/client.rs:270-277 | the code is the number that the first three digits show |
| `FtpReplies.CodeNeedsDigits` | src-tauri/src/protocol/ftp/client.rs:270-277 | a line has a code if and only if it starts with three digits |
| `FtpReplies.TerminatesExactly` | src-tauri/src/protocol/ftp/client.rs:240-241 | only a line that starts with the digits of the reply and a space ends it |
| `FtpReplies.JoinedLinesAreTold` | src-tauri/src/protocol/ftp/client.rs:242-247 | the lines of a reply can be told from its text one by one |
| `FtpReplies.InvalidIffNoCode` | src-tauri/src/protocol/ftp/client.rs:226-231 | reading fails as invalid if and only if there is a first line and it does not start with three digits |
| `FtpReplies.UnfinishedIsLost` | src-tauri/src/protocol/ftp/client.rs:236-239 | a multi-line reply is not returned before its last line is there |
| `FtpReplies.ParsePwd` | src-tauri/src/protocol/ftp/client.rs:686-701 | the loop removes quotes as the recursive definition does |
| `FtpReplies.PwdRoundTrip` | src-tauri/src/protocol/ftp/client.rs:686-701 | undoes quote doubling for every path, if and only if no quote follows the closing one |
| `FtpListing.RemainderAfterToken` | src-tauri/src/protocol/ftp/parser.rs:119-137 | the loop over characters computes the remainder behind a token |
| `FtpListing.NothingBehind` | src-tauri/src/protocol/ftp/parser.rs:119-137 | nothing is found if and only if the token does not exist or ends the line |
| `FtpListing.CutsBehindToken` | src-tauri/src/protocol/ftp/parser.rs:119-137 | anything found is the line cut behind the token: in front are the first tokens of the white-space tokenisation, behind the others |
| `FtpListing.ParsePermissions` | src-tauri/src/protocol/ftp/parser.rs:139-165 | the loop and the three special cases compute the mode |
| `FtpListing.ModeRoundTrip` | src-tauri/src/protocol/ftp/parser.rs:139-165 | all twelve mode bits are read back from their letters |
| `FtpListing.LinkSplit` | src-tauri/src/protocol/ftp/parser.rs:96-99 | name and target of a link are told apart if and only if the name has no arrow of its own |
| `FtpListing.FindsTheMonth` | src-tauri/src/protocol/ftp/parser.rs:76-80 | the month is found in its column whatever owner and group are called |
| `FtpListing.LineRoundTrip` | src-tauri/src/protocol/ftp/parser.rs:67-117 | parsing a printed line, with or without owner and group, recovers name, kind, size, mode, owner, group and target if and only if the first arrow of a link is its own, the name is proper and there are the seven tokens the parser asks for |
| `FtpListing.ListLineRoundTrip` | src-tauri/src/protocol/ftp/parser.rs:59-65 | the same for a whole listing line with its end |
| `FtpListing.OrdinaryIsPrintable` | src-tauri/src/protocol/ftp/parser.rs:76-80 | an ordinary listing line is among the printed ones, with its mode letters and a month in its usual spelling |
| `FtpListing.LettersTellKinds` | src-tauri/src/protocol/ftp/parser.rs:69-71 | which letter is which kind, and that others are no such lines |
| `FtpListing.EntriesHaveNames` | src-tauri/src/protocol/ftp/parser.rs:100-102 | no entry is called "", "." or ".." |
| `FtpListing.TotalIsNoEntry` | src-tauri/src/protocol/ftp/parser.rs:60-63 | the line of the sum is never an entry |
| `IconResample.BoxIsInside` | src-tauri/src/icons.rs:244-249 | every box is non-empty and inside the source |
| `IconResample.BoxesTile` | src-tauri/src/icons.rs:244-249 | when nothing is enlarged each position is in exactly one box |
| `IconResample.BoxesArePoints` | src-tauri/src/icons.rs:244-249 | when nothing is reduced each box is one pixel |
| `IconResample.CoverageIsExact` | src-tauri/src/icons.rs:252-262 | the sums over all boxes together are the sum over the image: each pixel counts once |
| `IconResample.SumBox` | src-tauri/src/icons.rs:250-262 | the two inner loops compute the weighted sums and the number of pixels of a box |
| `IconResample.SumsFit` | src-tauri/src/icons.rs:250-262 | the 64-bit sums cannot overflow below 2^47 pixels |
| `IconResample.ColourBetween` | src-tauri/src/icons.rs:263-269 | a colour channel lies between the minimum and maximum of the visible pixels in its box, and is zero where nothing is visible |
| `IconResample.RoundsDown` | src-tauri/src/icons.rs:263-269 | a result is the weighted average, rounded down: no larger one fits the sums of its box |
| `IconResample.AlphaStaysBetween` | src-tauri/src/icons.rs:263-269 | alpha lies between the minimum and maximum in its box |
| `IconResample.TargetFits` | src-tauri/src/icons.rs:263-269 | every channel result is at most 255 |
| `IconResample.Resample` | src-tauri/src/icons.rs:239-273 | for all positive sizes every index is in range and every target pixel is the alpha-weighted average of its box; an image of the wanted size is copied |
| `IconResample.SameSizeAgrees` | src-tauri/src/icons.rs:240-242 | copying agrees with the filter at a pixel if and only if it is visible or zero |

## Left out

- The user interface, Tauri commands and events, settings, the store, and everything that only calls the operating system (drag and drop, clipboard, credentials, shell icons, ssh.exe, pipes).
- TLS, certificate trust, hashes (`verify_hash`) and text encodings: strings are sequences of characters, or of octets in `SftpPacket`, where text that is not UTF-8 would be replaced on decoding.
- Sockets, timeouts, active and passive mode, ASCII mode and MLSD and DOS listings of FTP; after an aborted transfer nothing is claimed about the control stream.
- Liveness: a request registered after the reader drained the map may wait for ever, and nothing says that a transfer gets done.
- Races within one method of the queue: each method is one atomic step.
- JSON: what is stored is read back as it was. The queue steps take a restart to find what was last in the queue; that recorded progress can be older is part of `TransferWorker.HistoryIsSound`. Calendar dates: times are numbers, and the dates of listings are not parsed.
- The batch operations `pause_all`, `resume_all` and `remove_batch`, which are loops over the single ones, and which errors count as retryable.
- Symbolic link cycles, and files that others change during a transfer, a deletion or a comparison.
- The cache of listings; the natural claim about renamed directories is false of it and no property depends on it.
- The version exchange and extensions of SFTP, attributes beyond version 3, and the filter for "." and ".." in listings.
- The window of 64-bit file offsets: offsets are unbounded here; `SftpRead.SftpReader.Read` bounds how far they go beyond the file.
- Globs: patterns of a comparison are any predicate on relative path and name.
- TransferWorker.HistoryIsSound: needs regular reads and fail-stop writes, and a user who resumes onto a file that this item did not write must have a beginning of the source there.
- TransferWorker.SizeCheckIsExact: about the size check alone; the optional hash is not modelled.
- Conflict.UniqueName: avoids the names it is told about; a listing that failed tells of none, as in the source.
- QueueRetry.RetriesAreBounded: for fixed settings and without a restart in between, which queues an interrupted run again without counting it and forgets the time of the retry.
- QueueBatch.QuiescenceIsExact: a restart must not fall between the insertion of children and the completion of their parent, which is expanded twice then (`QuiescenceIsSafe` holds all the same), and nobody may remove items of the batch.
- FolderSync.CollectFolder: when a listing has names that are empty, have a slash or repeat, it does not say which of the entries with the same path is kept (the one visited last).
- FtpListing.LineRoundTrip: permission letters are read as characters, where the source reads octets; they are ASCII in every printed line.
- FtpReplies.ControlChannel.NextReply: a timeout of the source appears as the end of the stream.
- IconResample.Resample: widths and heights are positive, as the shell's bitmaps are.
