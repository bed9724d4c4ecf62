# A model of the file transfer, sync and streaming logic

These Dafny modules model the parts of the remote-desktop and messenger application that carry its
hardest promises, and prove properties of the model over every input, every run or every way a
stream can be cut.

* **Resumable IPMsg file transfer** (`TransferWire`, `Receiver`, `Downloads`, `TransferSafety`,
  `TransferDelivery`, `Sender`, `TransferEndToEnd`): per-chunk digests, length-prefixed frames over
  a TCP stream, persisted bookmarks, and a windowed sender. Bookmarks and receive contexts are kept
  by file id, files by path, so that transfers may share a target. The receiving manager and the
  sender are classes whose handlers are tied to step functions; theorems are about every run of
  offers, reads with any bytes, restarts and re-accepts of any number of files.
* **Send scheduler** (`Scheduler`): bounded concurrency, retries with exponential backoff.
* **Multi-device sync** (`Sync`, `SnapshotCodec`, `Users`): last-write-wins merge under any gossip,
  one request/snapshot/reply exchange, the binary snapshot form, and the last-administrator guard.
* **Streaming host and controller** (`Framing`, `MessageStream`, `SmokeScript`, `Checksum`,
  `Feedback`, `Upload`, `Tiles`): message reassembly by the host and by the smoke-check script, the
  closing checksum, the feedback loop of tiled streaming, the offset-addressed upload, and the
  controller's tile accounting.
* **Address book and clipboard history** (`Csv`, `AddressBook`, `ClipboardHistory`): the CSV form in
  the style of section 2 of RFC 4180 with import and merge, and the rotating prune loop.
* `Bytes`, `Options`, `Sequences` and `Arithmetic` hold what the others share.

Code that updates objects step by step is a class with the source's fields; each method states its
whole effect as a step function on the abstract state (`AsTable`, `AsState`, `AsReplica`,
`AsHost`, `AsSending`, `AsReceiving`), and the theorems are about those functions.

The model assumes of the digest that it has no collisions and is never empty (`CollisionFree`), and
of the cipher that opening a sealed chunk gives the chunk back and adds 28 to 44 bytes (`Opens`).
Both are hypotheses of the theorems that need them.

What the code does differently from what one would expect, or from its comments:

* The comment at `src/app/ipmsg_manager.cpp:3793` announces delays of 2, 4 and 8 seconds; the code
  waits 4 seconds before the second attempt and 8 before the third (`Scheduler.BackoffDoubles`).
* A length prefix of 2^32 - 4 in a sealed transfer makes the receive loop repeat forever
  (`TransferSafety.SpinsExactly`, `TransferSafety.FourBytesSpin`); of an offer without digests no
  chunk is checked, and only the digest of the whole file is left (`TransferEndToEnd.NoChunkIsChecked`).
* Bookmarks are kept by file id and say nothing of the target. A file whose target has meanwhile
  received another file resumes onto the other's bytes (`TransferEndToEnd.TwoFilesOnOneTarget`,
  `TransferSafety.ResumedOntoAnother`), and one accepted again onto another path resumes onto
  whatever is there; every chunk passes its check, and only the digest of the whole file can tell. A transfer carried
  through leaves the source exactly when the target was right at the announced offset
  (`TransferEndToEnd.CompletesExactly`).
* Two sync snapshots that cross leave the replicas different exactly when a key carries two
  different rows with the same timestamp (`Sync.CrossingSnapshotsAgree`).
* A client connection that has kept bytes that do not begin as a message does is blocked for good:
  one wrong byte of the magic number or the version is enough, and nothing else has this effect
  (`MessageStream.BlockedExactly`). The checksum does not see a change with 32 or more bytes behind
  it (`Checksum.EarlyBytesAreNot`).
* The prune loop runs forever when the favourites outnumber the maximum by more than ten, which
  lowering the maximum can bring about (`ClipboardHistory.TerminatesExactly`,
  `ClipboardHistory.LoweringTheMaximumCanHang`).
* An uploaded empty file is never closed (`Upload.EmptyUploadStaysOpen`). The host counts bytes, not
  offsets, so that with repeated chunks a transfer closes as soon as the bytes of all arrivals add
  up to the size; the file is then the source exactly when the last chunk has arrived, and every
  other has or is all zeros (`Upload.RepeatsCloseExactly`, `Upload.RepeatedPieceClosesEarly`,
  `Upload.ZeroPieceIsNotMissed`).
* Lowering the limit of concurrent senders leaves more of them running than it allows, and starts
  none until they are fewer (`Scheduler.OverLimitStartsNone`, `Scheduler.LoweringLeavesTwo`).
* An empty tile that went through the queue is counted neither as received nor as lost: the decode
  loop takes it for an empty queue (the term `Empty` in `Tiles.TilesAreConserved`). A resend list
  taken while the session is inactive is lost, and nothing else loses one
  (`Tiles.RequestedExactly`, `Tiles.InactiveTimerLosesTile`).
* The import joins the lines of a record by the parity of each line, not of the record so far. A
  printed record is read back whatever follows it exactly when no field has a line break
  (`Csv.ReadBackEverywhere`). With one break the record swallows the next one, and only at the end
  of the file it is read back, unless a carriage return stands in front of the break; with more
  breaks it is cut after its second line (`Csv.ReadBackExactly`, `Csv.TwoLinesSwallow`,
  `Csv.ThreeLinesAreCut`).

## Model

| member | source | states |
|---|---|---|
| TransferWire.CalculateChunkMd5s | src/app/ipmsg_manager.cpp:3873-3887 | the digest loop gives the digests of the file cut into chunks, none left out |
| TransferWire.DigestIndex | src/app/ipmsg_manager.cpp:1614-1621 | at a chunk boundary, `offset / chunkSize` selects exactly the digests of the rest of the file |
| Receiver.TakeFrame | src/app/ipmsg_manager.cpp:3642-3649 | a frame taken from the buffer, with the 32-bit wrap of `4 + length`, never leaves more bytes than there were |
| Receiver.TakeWhole | src/app/ipmsg_manager.cpp:3642-3649 | a frame that is complete is taken whole, and the bytes behind it stay |
| Receiver.TakePartial | src/app/ipmsg_manager.cpp:3642-3646 | a frame that is not complete is waited for |
| Receiver.TakeNothing | src/app/ipmsg_manager.cpp:3642-3653 | the one length prefix for which a sealed transfer consumes nothing, as an if-and-only-if |
| Receiver.Iterate | src/app/ipmsg_manager.cpp:3641-3703 | every turn of the frame loop that goes on lowers a lexicographic measure: the loop ends |
| Downloads.Manager.AcceptFile | src/app/ipmsg_manager.cpp:1554-1664 | accepting truncates or keeps the target, aligns the digest index, puts bookmark and context under the file's id and leaves those of other ids, and announces the offset of that id's bookmark |
| Downloads.Manager.ProcessFrame | src/app/ipmsg_manager.cpp:3641-3703 | one turn of the loop: taking, opening, checking and committing a frame, or the reason to stop; other ids and other files are left alone |
| Downloads.Manager.CommitChunk | src/app/ipmsg_manager.cpp:3676-3702 | a verified chunk is written, counted and, once per chunk, bookmarked |
| Downloads.Manager.DrainFrames | src/app/ipmsg_manager.cpp:3641-3703 | the frame loop over any buffer ends where the recursive definition does |
| Downloads.Manager.WriteReceivedData | src/app/ipmsg_manager.cpp:3635-3711 | received bytes join the buffer of their id, the loop runs, and the bytes behind the last frame are handed on |
| Downloads.Manager.FinishReceive | src/app/ipmsg_manager.cpp:3713-3726 | context and bookmark of the id go, the files and the other ids stay |
| TransferSafety.CommitKeeps | src/app/ipmsg_manager.cpp:3666-3702 | a chunk that passes the digest check is the next chunk of the source, whatever is on disk, and committing it keeps bookmark, context and digest index aligned |
| TransferSafety.AcceptKeeps | src/app/ipmsg_manager.cpp:1591-1636 | accepting an offer resumes only onto a bookmark made for the same file, with the digest index of the chunk that comes next |
| TransferSafety.ResumesExactly | src/app/ipmsg_manager.cpp:3978-3988 | a bookmark resumes the offers of its size whose digest is not known to differ, at its offset and on the target as it is; any other offer starts over on an empty target |
| TransferSafety.FirstChunkIsMarked | src/app/ipmsg_manager.cpp:3688-3699 | the first committed chunk is bookmarked at once, however short it is |
| TransferSafety.ReceivedPrefixIsTheSources | src/app/ipmsg_manager.cpp:1554-1664 | over every run of any number of files and targets: each bookmark is a chunk boundary, not ahead and less than a chunk behind; and for an id whose target no other transfer meddled with, the received prefix on disk is the source's, and a complete file has the offered digest |
| TransferSafety.ResumedOntoAnother | src/app/ipmsg_manager.cpp:1591-1619 | with bytes of another file on the target the resumed prefix is right if and only if there are enough of them and they are those of the source |
| TransferSafety.TargetIsTheOthers | src/app/ipmsg_manager.cpp:1591-1619 | while another file is received undisturbed onto a target, the target holds that file's bytes and no others |
| TransferSafety.ResumeKeepsProgress | src/app/ipmsg_manager.cpp:3978-3988 | after a restart or a dropped connection the same file offered again resumes less than one chunk short of where it was |
| TransferSafety.SpinsExactly | src/app/ipmsg_manager.cpp:3641-3653 | with the sender's digests the loop repeats forever if and only if a sealed transfer buffers the prefix 2^32 - 4 with fewer than 28 bytes behind it |
| TransferSafety.ReadSpinsExactly | src/app/ipmsg_manager.cpp:3635-3711 | over every run a read that does not end in a failed decryption spins if and only if it comes, with bytes still to receive, to a sealed transfer's prefix 2^32 - 4 with fewer than 28 bytes behind it |
| TransferSafety.FourBytesSpin | src/app/ipmsg_manager.cpp:3641-3653 | the input: a sealed offer of any non-empty file is accepted and the bytes 252, 255, 255, 255 arrive |
| TransferSafety.UncheckedWithoutDigests | src/app/ipmsg_manager.cpp:3666-3678 | without digests the first frame of a plain transfer is written whatever it carries, up to the size offered |
| TransferEndToEnd.NoChunkIsChecked | src/app/ipmsg_manager.cpp:3666-3678 | without digests, plain or sealed, any chunks whose sizes add up to the offer end up as the file, however the stream is cut |
| TransferDelivery.IterateExpected | src/app/ipmsg_manager.cpp:3641-3703 | a complete expected frame at the front of the buffer is committed, and only it is consumed |
| TransferDelivery.DrainDelivers | src/app/ipmsg_manager.cpp:3635-3711 | one read of any prefix of the frame stream commits exactly the frames that are complete and buffers the rest |
| TransferDelivery.SegmentationIndependence | src/app/ipmsg_manager.cpp:3635-3703 | every way of cutting a prefix of the frame stream into reads leaves the same file, bookmark, counters and buffer |
| TransferEndToEnd.TrailerIsHandedOn | src/app/ipmsg_manager.cpp:3705-3710 | a read that brings the last frames and bytes behind them, to an offer of which everything is received with it, hands on exactly those bytes, and they are gone from the buffer |
| TransferEndToEnd.VerifyIsHandedOn | src/app/ipmsg_manager.cpp:3705-3710 | after any history and whatever the reads: a command written behind the last frame that arrives in the last read is handed on whole |
| TransferEndToEnd.BadChunkIsRejected | src/app/ipmsg_manager.cpp:3666-3674 | a chunk that fails its digest, behind any that do not, is reported and not written, and bookmark and context go |
| TransferEndToEnd.ForeignFrameIsDropped | src/app/ipmsg_manager.cpp:3652-3662 | a sealed frame that does not open ends the read and is dropped, and nothing else changes |
| TransferEndToEnd.ShortFrameIsSkipped | src/app/ipmsg_manager.cpp:3652-3653 | one too short to be sealed is skipped, and the loop goes on behind it |
| Sender.SendContext.PumpSender | src/app/ipmsg_manager.cpp:3525-3563 | the pump loop fills the window and finishes at the end of the file, as the recursive definition says |
| Sender.SendContext.WriteFrame | src/app/ipmsg_manager.cpp:3531-3552 | one chunk is read, sealed or not, framed, written and counted |
| Sender.SendContext.OnSendChunkWritten | src/app/ipmsg_manager.cpp:3597-3605 | exactly the acknowledged bytes leave the window, not below zero, and the pump runs again |
| Sender.FramesAreTheChunks | src/app/ipmsg_manager.cpp:3530-3553 | from any position the sender's frames are those of the chunks whose digests were offered |
| Sender.WindowedSending | src/app/ipmsg_manager.cpp:3525-3605 | for every schedule of acknowledgements: the wire is a prefix of the frames of the rest of the file, all of it when finished; the window never exceeds what is outstanding, and what is outstanding exceeds it by no more than the header, so that both stay below the limit and one frame; an unfinished sender has an acknowledgement to come |
| TransferEndToEnd.NextChunkAcceptable | src/app/ipmsg_manager.cpp:3666-3678 | the chunk a resumed sender sends next is the one the receiver's digest index expects |
| TransferEndToEnd.CompletesExactly | src/app/ipmsg_manager.cpp:3525-3605 | after any history of this and other transfers, an accepted offer whose sender runs to its end is received completely, however window and reads cut the stream, plain or sealed; the file on disk is the source if and only if the target was right at the announced offset |
| TransferEndToEnd.AcceptedTransferCompletes | src/app/ipmsg_manager.cpp:3525-3605 | it is the source when no other transfer meddled with the target, or the transfer begins anew |
| TransferEndToEnd.TwoFilesOnOneTarget | src/app/ipmsg_manager.cpp:3978-3988 | the input: two files with different first chunks take turns on one target, and the first resumes onto the second's chunk |
| TransferEndToEnd.SpinsOnTail | src/app/ipmsg_manager.cpp:3635-3711 | told from the bytes before the read: frames that are committed, and a tail with which the loop does not go on, make it spin if and only if chunks are still missing and the tail is a sealed transfer's prefix 2^32 - 4 with fewer than 28 bytes behind it |
| Scheduler.Manager.PumpTransferQueue | src/app/ipmsg_manager.cpp:3348-3353 | the loop starts queued jobs while there are free slots, as the recursive definition says |
| Scheduler.Manager.StartSendJob | src/app/ipmsg_manager.cpp:3355-3403 | a started job is an active sender with its attempt, waiting for a key if there is no session |
| Scheduler.Manager.SendFileData | src/app/ipmsg_manager.cpp:3279-3346 | one new job per file at the end of the queue, then a pump |
| Scheduler.Manager.OnKeySettled | src/app/ipmsg_manager.cpp:3505-3523 | the sender stops waiting for its key |
| Scheduler.Manager.CloseSender | src/app/ipmsg_manager.cpp:3565-3595 | a finished or rejected sender frees its slot, and the queue is pumped |
| Scheduler.Manager.HandleSendFailure | src/app/ipmsg_manager.cpp:3776-3826 | a failed sender frees its slot and is retried later, or is terminal after the last attempt, when the queue is pumped |
| Scheduler.Manager.OnRetryTimer | src/app/ipmsg_manager.cpp:3811-3816 | a due retry goes to the front of the queue, which is pumped |
| Scheduler.Manager.SetMaxConcurrentTransfers | src/app/ipmsg_manager.cpp:1840-1843 | the limit is at least one, and a raised one takes effect at once |
| Scheduler.PumpKeeps | src/app/ipmsg_manager.cpp:3348-3353 | pumping keeps every job accounted for, fills the free slots and no more |
| Scheduler.PumpStartsInOrder | src/app/ipmsg_manager.cpp:3348-3353 | jobs start in the order of the queue, each with its own attempt, and wait only when no slot is free |
| Scheduler.DueStartsFirst | src/app/ipmsg_manager.cpp:3811-3816 | with a free slot a due retry starts at once, ahead of every waiting job |
| Scheduler.BackoffDoubles | src/app/ipmsg_manager.cpp:3790-3793 | over every run the second attempt waits 4000 ms and the third 8000 ms |
| Scheduler.FailureIsRetried | src/app/ipmsg_manager.cpp:3789-3816 | a failed sender that has attempts left frees its slot and waits for a timer of 4000 ms, or 8000, with its next attempt; it is not terminal, and nothing else moves |
| Scheduler.TerminalExactly | src/app/ipmsg_manager.cpp:3565-3826 | over every run: a job that was closed is terminal, and a terminal one was closed or has been started three times |
| Scheduler.TerminalForGood | src/app/ipmsg_manager.cpp:3565-3826 | over every run: a terminal job stays terminal and never starts again, whatever follows |
| Scheduler.KeyEndsTheWaiting | src/app/ipmsg_manager.cpp:3505-3523 | the end of the key exchange lets the sender go on to its end, and touches nothing else |
| Scheduler.LimitTakesEffect | src/app/ipmsg_manager.cpp:1840-1843 | a new limit is taken, at least one, and no job waits beside a slot that it opens |
| Scheduler.SubmittedQueueUp | src/app/ipmsg_manager.cpp:3279-3346 | new jobs queue behind the others in the order of the files, and start when it is their turn |
| Scheduler.EveryJobHasItsPlace | src/app/ipmsg_manager.cpp:3348-3353 | over every run: each job is in exactly one of queue, active senders, retry timers and terminal jobs; none starts more than three times; a free slot beside a waiting job comes with a running timer; there are never more senders than the highest limit so far, and never more than three without a change of the limit |
| Scheduler.OverLimitStartsNone | src/app/ipmsg_manager.cpp:1840-1843 | a step ends with more senders than its limit if and only if those it did not end are more; it then starts none |
| Scheduler.LoweringLeavesTwo | src/app/ipmsg_manager.cpp:1840-1843 | the input: two jobs run, the limit is lowered to one, and both still run |
| Scheduler.TheQueueDrains | src/app/ipmsg_manager.cpp:3762-3826 | over every run the jobs move on at most nine times each, and when no sender and no timer is left every job is terminal |
| Sync.ApplyRowsIsMerge | src/app/database_manager.cpp:2995-3059 | applying a snapshot row by row is one pointwise merge, in whatever order the rows are listed |
| Sync.AppliedRowByRow | src/app/database_manager.cpp:2995-3015 | row by row: the rows taken are the unknown ones and those whose local row is not newer or has a negative timestamp; every other key keeps its local row |
| Sync.AppliedCountsTaken | src/app/database_manager.cpp:2995-3015 | the count is the number of rows taken, in whatever order the snapshot lists them |
| Sync.StrongConvergence | src/app/database_manager.cpp:2995-3059 | after any interleaving of local writes and snapshots, with any order and repetition, a replica holds the latest write it has seen for every key, and replicas that saw the same writes are equal |
| Sync.CrossingSnapshotsAgree | src/app/database_manager.cpp:2996-3014 | two crossing snapshots leave the replicas equal if and only if no key carries different rows with the same timestamp |
| Sync.ExchangeEqualizes | src/app/ipmsg_manager.cpp:3079-3111 | one request, snapshot and reply leaves identical device, group and setting tables even on ties, and identical messages when the union is within the limit |
| Sync.RecentIsAll | src/app/database_manager.cpp:2953-2983 | a snapshot of a table within the message limit lists every message |
| Sync.MessageIdsStayNonEmpty | src/app/database_manager.cpp:3062-3068 | a message that arrives without an id never gets an empty one |
| Sync.IdlessIsOneMessage | src/app/database_manager.cpp:3062-3068 | a message without an id, however often it arrives, is one message, under its recall id or else under sender and time |
| Sync.RecentAreTheNewest | src/app/database_manager.cpp:2953-2983 | a snapshot lists as many messages as the limit allows, newest first, each with its own row, and leaves out none that is newer than one it lists |
| Sync.Database.ApplyTable | src/app/database_manager.cpp:2995-3015 | the loop of one table gives the merged table and counts the rows that were not skipped |
| Sync.Database.ApplySyncSnapshot | src/app/database_manager.cpp:2988-3102 | all four tables are merged, and the changes counted |
| Sync.Database.SelectRecent | src/app/database_manager.cpp:2953-2983 | the rows read are the newest messages, newest first, up to the limit |
| Sync.Database.BuildSyncSnapshot | src/app/database_manager.cpp:2903-2986 | a snapshot lists every row of the three tables once, and the newest messages |
| SnapshotCodec.TakePutStr | src/app/database_manager.cpp:2674-2686 | a written string, null or not, is read back, and what follows it is left |
| SnapshotCodec.TakePutLong | src/app/database_manager.cpp:2674-2686 | a signed 64-bit number comes back, negative ones included |
| SnapshotCodec.TakePutGroup | src/app/database_manager.cpp:2688-2698 | a group with its two nested member lists comes back |
| SnapshotCodec.RoundTrip | src/app/database_manager.cpp:2661-2740 | reading a written snapshot followed by any bytes gives the snapshot and leaves those bytes |
| SnapshotCodec.FieldBytes | src/app/database_manager.cpp:2674-2686 | numbers and code units are written most significant byte first, negative numbers in two's complement, a null string as four bytes of ones |
| SnapshotCodec.MessageBytes | src/app/database_manager.cpp:2707-2729 | a message row is its twenty columns, in the order of the stream |
| SnapshotCodec.DeviceBytes | src/app/database_manager.cpp:2677-2686 | a device row is its seven columns, in the order of the stream |
| SnapshotCodec.GroupBytes | src/app/database_manager.cpp:2688-2698 | a group row is id, name, the counted member lists and the two times |
| SnapshotCodec.SnapshotBytes | src/app/database_manager.cpp:2672-2729 | version first, then the four counted lists in their order |
| SnapshotCodec.DamagedText | src/app/database_manager.cpp:2742-2855 | a string whose length is odd reads as null; one longer than the data reads as null and leaves nothing |
| SnapshotCodec.SavedIsLoaded | src/app/database_manager.cpp:2742-2855 | a snapshot saved as the newest is what the next load returns, or nothing if the load wants a later version; with a newer one stored the load returns what it would have without the save |
| SnapshotCodec.WriteGroups | src/app/database_manager.cpp:2688-2698 | the nested writing loops produce the list form of the groups |
| SnapshotCodec.ReadGroups | src/app/database_manager.cpp:2780-2803 | the nested reading loops invert it, for any data |
| SnapshotCodec.SnapshotTable.SaveSyncSnapshot | src/app/database_manager.cpp:2661-2740 | the row of the snapshot's version holds its binary form |
| SnapshotCodec.SnapshotTable.LoadSyncSnapshot | src/app/database_manager.cpp:2742-2855 | the newest stored snapshot is read if it is of the wanted version or later, and an empty one otherwise |
| Users.GuardIsExact | src/app/database_manager.cpp:37-51 | the guard refuses a removal, demotion or disabling if and only if it would leave no enabled administrator where there is one |
| Users.AdminRemains | src/app/database_manager.cpp:1129-1239 | over every sequence of operations, once an enabled administrator exists one always does |
| Users.OnlyItsSetterChanges | src/app/database_manager.cpp:1129-1239 | over every sequence of operations that does not remove it, an account keeps its level unless its level is set, and its flag unless its flag is set |
| Users.UserTable.AddUser | src/app/database_manager.cpp:1129-1145 | a new account is enabled and has the level asked for; an empty or known name changes nothing and is reported; other accounts stay |
| Users.UserTable.RemoveUser | src/app/database_manager.cpp:1147-1159 | the account goes unless the guard refuses, and the answer says whether it went; other accounts stay |
| Users.UserTable.SetUserLevel | src/app/database_manager.cpp:1211-1224 | only the level of that account changes, unless the guard refuses |
| Users.UserTable.SetUserEnabled | src/app/database_manager.cpp:1226-1239 | only the enabled flag of that account changes, unless the guard refuses |
| Framing.IncrementalIsBatch | src/app/host.cpp:1930-1976 | for any rule that finds the first message stably, cutting the bytes into reads changes neither the messages nor the rest |
| MessageStream.ClientConnection.ProcessClientBuffer | src/app/host.cpp:1948-1976 | the loop hands on the complete genuine messages and keeps the rest, as the recursive definition says |
| MessageStream.ClientConnection.OnClientDataReady | src/app/host.cpp:1930-1946 | arriving bytes join the buffer, which is then processed |
| MessageStream.HostCodecIsStable | src/core/message_codec.cpp:62-102 | bytes that arrive later do not change a message that is complete |
| MessageStream.HostIsIncremental | src/app/host.cpp:1948-1976 | for any bytes cut in any way the connection ends as after a single read |
| MessageStream.EveryMessageOnce | src/app/host.cpp:1948-1976 | any split of a message stream delivers exactly the messages with a correct checksum, in order, and keeps exactly the incomplete part: a corrupted message disturbs no other |
| MessageStream.AlteredPayloadExactly | src/core/message_codec.cpp:117-128 | an encoded message with one payload byte changed is still one message, and it passes the check if and only if the change, shifted by its distance from the end, is a multiple of 2^32 |
| MessageStream.AlteredPayloadIsDropped | src/app/host.cpp:1948-1976 | with any one of the last 25 payload bytes changed nothing of the message is handed on, whatever follows, and what follows is handed on as without it |
| MessageStream.AlteredChecksumIsDropped | src/app/host.cpp:1948-1976 | the same for a change of any of the four checksum bytes |
| MessageStream.OffTrackBlocks | src/app/host.cpp:1952-1957 | bytes that do not begin as a message does are never consumed, and whatever arrives behind them, in whatever reads, nothing is handed on |
| MessageStream.BlockedExactly | src/app/host.cpp:1952-1957 | some further bytes complete a message, and some make the connection hand one on, if and only if the kept bytes and the eight bytes of magic number and version agree as far as they go |
| MessageStream.EncodedVerifies | src/core/message_codec.cpp:117-153 | an encoded message carries the checksum that the receiver computes |
| MessageStream.EncodeRoundTrip | src/core/message_codec.cpp:17-36 | an encoded message is exactly one message and decodes to its kind, payload and session id |
| MessageStream.MessageBytes | src/core/message_codec.cpp:130-153 | the layout, byte by byte: magic number, version, kind, length, time stamp, length of the session id, session id, payload, most significant bytes first |
| SmokeScript.ExtractMessages | tools/web_console_smoke.py:82-99 | the loop returns header and payload of every complete message at the front of the bytes, in order, and the rest |
| SmokeScript.ScriptAgreesExactly | tools/web_console_smoke.py:82-99 | for a stream of messages the script can cut, split in any way, it returns them all, and the host agrees if and only if every one has the right magic number, version and checksum |
| SmokeScript.ScriptReadsWhatTheHostReads | tools/web_console_smoke.py:82-99 | for messages the host sees as such, with correct checksums, both find exactly the same messages and the same rest |
| SmokeScript.UnpackInvertsEncode | tools/web_console_smoke.py:55-79 | what is encoded is unpacked again, every header field and the payload |
| Checksum.CalculateChecksum | tools/web_console_smoke.py:47-52 | the loop computes the shift-add sum modulo 2^32 |
| Checksum.SumIsWeighted | tools/web_console_smoke.py:47-52 | the checksum is the sum of the bytes weighted by powers of two, modulo 2^32 |
| Checksum.ChangeUnnoticed | src/core/message_codec.cpp:104-115 | a changed byte goes unnoticed if and only if its difference shifted by its distance from the end is a multiple of 2^32 |
| Checksum.LastBytesAreCovered | src/core/message_codec.cpp:104-115 | a change of any one of the last 25 bytes is noticed, for data of any length |
| Checksum.EarlyBytesAreNot | src/core/message_codec.cpp:104-115 | a change with 32 or more bytes behind it never is |
| Feedback.HostLoop.HandleScreenAck | src/app/host.cpp:1126-1164 | an acknowledgement updates the averages of its viewer and of no other |
| Feedback.HostLoop.WorstLink | src/app/host.cpp:1219-1230 | the worst link found by the loop struggles if and only if some viewer does, and is fine if and only if all are |
| Feedback.HostLoop.RunApplyTileBudget | src/app/host.cpp:1207-1261 | the budget is halved, raised or kept, bounded, and uncapped at the ceiling |
| Feedback.RunInRange | src/app/host.cpp:1126-1261 | over every run averages, loss, buffer level and budget stay in their ranges, 32-bit overflow of the loss included |
| Feedback.LossIsExact | src/app/host.cpp:1146-1150 | the loss sample is the percentage of tiles lost, rounded down, while a hundred times their number fits 32 bits |
| Feedback.TroubleHalves | src/app/host.cpp:1126-1261 | whatever the averages were and the other viewers report: four acknowledgements with seven percent lost, seventeen of at least 254 ms, measured or by the echo, or one with a full buffer make a viewer struggle, and the next tick halves the budget |
| Feedback.MildNeverStruggles | src/app/host.cpp:1126-1238 | just below these bounds a viewer with an average that does not struggle never will |
| Feedback.BudgetMovesExactly | src/app/host.cpp:1232-1260 | a tick lowers the budget if and only if some viewer struggles and it is above 24, raises it if and only if all are fine and it is below 512; without feedback there is no limit |
| Feedback.OffTiledIsUnlimited | src/app/host.cpp:1207-1215 | off tiled transport there is neither budget nor cap |
| Feedback.WorstRttStays | src/app/host.cpp:1141-1144 | from the worst average, thirty-six good samples bring the round-trip time below 120 for good |
| Feedback.WorstLossStays | src/app/host.cpp:1146-1150 | fourteen loss-free acknowledgements bring the loss to zero for good |
| Feedback.WorstIsReached | src/app/host.cpp:1141-1150 | these numbers are exact: the worst viewer follows the bounding sequences step by step |
| Feedback.CapIsLifted | src/app/host.cpp:1126-1261 | from any state in range, thirty-six good acknowledgements of every viewer, in any interleaving with the timer, and twenty-one further ticks lift the cap |
| Feedback.BudgetRecovers | src/app/host.cpp:1240-1260 | with good links only, the budget after n ticks is at least min(512, 24 + 24 n) and the cap follows it |
| Feedback.CongestionHalves | src/app/host.cpp:1244-1250 | n timer ticks with a struggling viewer give exactly the larger of 24 and the budget halved n times |
| Feedback.HalvedIsQuotient | src/app/host.cpp:1245-1246 | halving n times, rounding down each time, is dividing by 2^n |
| Feedback.HealthAdds | src/app/host.cpp:1244-1250 | n timer ticks with good links give exactly min(512, b + 24 n) |
| ClipboardHistory.TurnDescends | src/app/clipboard_history.cpp:189-199 | with at most ten favourites beyond the maximum every turn lowers the size, or brings the last other entry nearer to the end |
| ClipboardHistory.TerminatesExactly | src/app/clipboard_history.cpp:189-199 | the prune loop terminates if and only if the favourites number at most the maximum plus ten |
| ClipboardHistory.LoweringTheMaximumCanHang | src/app/clipboard_history.cpp:179-183 | up to sixty favourites are fine at a maximum of fifty, and at ten the loop ends if and only if they number at most twenty |
| ClipboardHistory.PruneKeeps | src/app/clipboard_history.cpp:189-199 | pruning keeps every favourite, rotated, and the newest others in order, leaves at most ten more than the maximum, and drops none that fits |
| ClipboardHistory.ExcessIsFavorite | src/app/clipboard_history.cpp:189-199 | more entries than the maximum are left only with a favourite at the end, and at most ten more |
| ClipboardHistory.NewestIsKept | src/app/clipboard_history.cpp:81-110 | an entry just added survives as long as the favourites number less than the maximum |
| ClipboardHistory.History.PruneOldEntries | src/app/clipboard_history.cpp:189-199 | the loop computes the pruned history where it ends, and the answer says whether it does |
| ClipboardHistory.History.AddEntry | src/app/clipboard_history.cpp:81-110 | empty data adds nothing, known data returns the entry that has it, new data is put first and the history pruned; the bound that makes the next prune end is kept |
| ClipboardHistory.History.ToggleFavorite | src/app/clipboard_history.cpp:153-164 | only the first entry with the id changes, and only its flag |
| ClipboardHistory.History.RemoveEntry | src/app/clipboard_history.cpp:139-151 | only the first entry with the id goes |
| ClipboardHistory.History.SetMaxEntries | src/app/clipboard_history.cpp:179-183 | the maximum is at least ten, and the history is pruned to it unless that never ends, which the answer says |
| Csv.ParseCsvLine | src/app/address_book.cpp:214-244 | the character loop computes the fields the recursive reading gives |
| Csv.ParseInvertsJoin | src/app/address_book.cpp:204-244 | parsing the comma-joined quoted fields returns them, whatever characters they hold, if and only if there is at least one field |
| Csv.QuotedPart | src/app/address_book.cpp:214-244 | quotes may open and close inside a field, whose parts run together |
| Csv.ReadCsvRecord | src/app/address_book.cpp:278-287 | the line-joining loop computes the record and the remaining text |
| Csv.ReadWholeRecord | src/app/address_book.cpp:278-287 | a printed record without line breaks in its fields is read back as one record |
| Csv.ReadBackExactly | src/app/address_book.cpp:278-287 | a printed record with a given text behind it is read back if and only if it has no break, or one break with no carriage return in front of it and nothing behind the record |
| Csv.ReadBackEverywhere | src/app/address_book.cpp:278-287 | a printed record is read back whatever follows it if and only if no field has a line break |
| Csv.OneBreakSwallows | src/app/address_book.cpp:278-287 | a printed record with one break goes on into whatever follows it |
| Csv.MoreBreaksCut | src/app/address_book.cpp:278-287 | a printed record with more breaks is cut after its second line, and the rest is left as a record of its own |
| Csv.TwoLineRecordSwallowsNext | src/app/address_book.cpp:278-287 | a printed record with one break and the one-line record printed behind it are read as one |
| Csv.TwoLinesSwallow | src/app/address_book.cpp:278-287 | the input: one field of two lines swallows the record behind it |
| Csv.ThreeLinesAreCut | src/app/address_book.cpp:278-287 | the input: one field of three lines is cut after the second |
| AddressBook.Book.ExportCsv | src/app/address_book.cpp:247-270 | the file is the header and one record per entry |
| AddressBook.Book.ImportCsv | src/app/address_book.cpp:272-351 | the loop reads record by record, skips those without an address, merges or appends the others, and counts them |
| AddressBook.Book.MergeEntry | src/app/address_book.cpp:322-346 | the search loop updates the first entry with the address in place, or appends under a new id |
| AddressBook.MergedAt | src/app/address_book.cpp:323-338 | merging changes the first entry with the address and no other |
| AddressBook.TagsComeBack | src/app/address_book.cpp:316-319 | tags joined by semicolons come back |
| AddressBook.TagsAreTrimmed | src/app/address_book.cpp:316-319 | joined tags, with any blanks around them, are split where they were joined and trimmed |
| AddressBook.PortIsRead | src/app/address_book.cpp:306-310 | a port that is no number reads as 9999, another as its lowest sixteen bits |
| AddressBook.ImportOfRecord | src/app/address_book.cpp:299-320 | with any header: a record that ends before its address or has a blank one is passed over; one that ends before another column, or any without an address column, is read out of range |
| AddressBook.RecordComesBack | src/app/address_book.cpp:300-320 | a printed entry is read as exactly its exported fields |
| AddressBook.ReimportIsIdentity | src/app/address_book.cpp:247-351 | importing a book's own export with merging changes nothing and counts every entry |
| AddressBook.ImportJoinsBooks | src/app/address_book.cpp:322-346 | importing one book's export into another with merging: the first entry with a known address keeps its id and takes port, mac, access code, notes and favourite flag, and name, group, tags and date where the record has them; every other entry stays; the unknown addresses follow in order, under new ids |
| AddressBook.ImportAppends | src/app/address_book.cpp:342-346 | without merging every record is appended in order, whatever addresses the book knows |
| AddressBook.ImportCopies | src/app/address_book.cpp:247-351 | importing into an empty book reproduces every exported field of every entry, in order |
| Upload.Uploader.SendNextChunk | src/app/file_transfer_manager.cpp:387-418 | a tick sends the next chunk with the announced offset, or closes the file at its end |
| Upload.TicksSendThePieces | src/app/file_transfer_manager.cpp:387-418 | n ticks send exactly the first n pieces in order, and offset, file position and byte count agree |
| Upload.PiecesTile | src/app/file_transfer_manager.cpp:387-418 | the pieces tile the file: each starts where the last ended, and together they are the whole |
| Upload.EmptyChunkChangesNothing | src/app/host.cpp:3166-3186 | an empty chunk changes nothing, wherever it is addressed, as long as the transfer is not complete |
| Upload.HostTransfer.HandleFileData | src/app/host.cpp:3166-3186 | a chunk is written at its offset and counted, and the transfer closes once the size is reached |
| Upload.AnyOrderDelivers | src/app/host.cpp:3166-3186 | in whatever order distinct pieces arrive, the transfer is closed if and only if all have, and then the host's file is the source |
| Upload.UploadArrives | src/app/file_transfer_manager.cpp:387-418 | the messages of a complete upload, in any order, leave the host with the source and nothing to wait for |
| Upload.EmptyUploadStaysOpen | src/app/host.cpp:3174-3185 | a transfer announced with size zero stays open whatever arrives |
| Upload.RepeatsCloseExactly | src/app/host.cpp:3174-3185 | for any arrivals, repeats allowed: the transfer is closed if and only if their bytes add up to the size; it closed at the first such arrival, and has the source if and only if the last piece had arrived by then and every other had or is all zeros |
| Upload.RepeatsNeedEveryPiece | src/app/host.cpp:3174-3185 | for a source without an all-zero piece the closed file is the source if and only if every piece was among the arrivals up to the closing one |
| Upload.RepeatedPieceClosesEarly | src/app/host.cpp:3174-3185 | the input: a first piece that arrives twice closes a transfer of two pieces without the second |
| Upload.ZeroPieceIsNotMissed | src/app/host.cpp:3174-3185 | the input: a second piece that arrives twice closes a transfer whose first piece is all zeros with the whole source |
| Tiles.TileReceiver.HandleScreenTile | src/app/remote_controller.cpp:1417-1432 | a tile is queued, or counted as lost when the queue is full |
| Tiles.TileReceiver.TakeTile | src/app/remote_controller.cpp:1525-1529 | the decode loop takes the head of the queue, and passes over an empty tile |
| Tiles.TileReceiver.ApplyTile | src/app/remote_controller.cpp:1434-1505 | a tile is counted once, as received or as lost, and a corrupt one is put on the resend list |
| Tiles.TileReceiver.SendScreenAck | src/app/remote_controller.cpp:294-312 | an acknowledgement reports both counters and resets them |
| Tiles.TileReceiver.SendPendingNack | src/app/remote_controller.cpp:342-353 | the resend list is taken as a whole and cleared, and requested if the session is active |
| Tiles.TilesAreConserved | src/app/remote_controller.cpp:1417-1505 | under every interleaving of the two threads, each tile that arrived is acknowledged, counted, queued or in hand exactly once, wrap-around of the counters and empty tiles accounted for |
| Tiles.AcksTellPaintedFromLost | src/app/remote_controller.cpp:294-312 | acknowledged and current received counts are the painted tiles, lost counts those dropped or not painted, and tiles leave the queue in order |
| Tiles.JudgedExactly | src/app/remote_controller.cpp:1434-1505 | a tile is painted if and only if it can be opened, is not empty, agrees with its digest if it has one, and can be drawn; it is put on the resend list if and only if the digest alone is to blame |
| Tiles.IntactAreAllPainted | src/app/remote_controller.cpp:1434-1505 | over every run: intact tiles are all acknowledged as received, none is lost but those that found the queue full, and none is asked for again |
| Tiles.AlteredIsListed | src/app/remote_controller.cpp:1456-1474 | over every run: a tile whose data the digest does not match is never painted, and its position is on a resend list |
| Tiles.FirstTilesFindRoom | src/app/remote_controller.cpp:1417-1432 | however slowly they are decoded, the first 256 tiles all find room in the queue |
| Tiles.BacklogSlowsTheHost | src/app/remote_controller.cpp:305-308 | 182 or more waiting tiles make the viewer a struggling one to the host, 77 or more keep its budget from growing, and fewer do neither |
| Tiles.RequestedExactly | src/app/remote_controller.cpp:322-353 | the corrupt tiles have all been asked for again, apart from those still waiting, if and only if no list was taken while the session was inactive |
| Tiles.InactiveTimerLosesTile | src/app/remote_controller.cpp:322-353 | the input: one corrupt tile is listed, the timer fires while the session is inactive, and nothing is left to ask for it |
| Tiles.EveryCorruptTileIsListedOnce | src/app/remote_controller.cpp:1456-1474 | every corrupt tile is on exactly one resend list, in order of arrival, and a waiting list has a timer running or about to start |

## Left out

- Sockets, timers, threads, SQL text, logging and the user interface: they appear as events, parameters and maps.
- JSON persistence of bookmarks and the JSON form of snapshots, which go through Qt's double-based numbers; the bookmark and the file are modelled as written through at once.
- Pausing, cancelling, removing and manually retrying a transfer: `cancelFile` leaves queued jobs and scheduled retries behind, so the scheduler's runs exclude it.
- The older FILE_RESUME, FILE_CHUNK_REQUEST and FILE_CHUNK_DATA handlers, one of which moves the position of the file being received.
- Directories, and how the target is put together from the chosen and the relative path, which an automatic resume joins on once more: a target is any path, and a resume may be onto another.
- Failures to open, seek or write files, and a file that changes while it is being sent.
- The bookmark that a sender keeps under the id of a file it sends, and how ids are made from sender, digest, path and size: an id is any string.
- Two contexts open on one file write through at once; the buffering of each file object is not modelled.
- The FILE_VERIFY command behind the last frame is not reassembled by the source, so segmentation claims cover the data frames; its digest check is the equality stated for a complete file.
- Downloads.Manager.WriteReceivedData: where the source would repeat forever the model stops with the outcome `Hung`, because a method has to end.
- Deletes in sync (the source keeps no tombstones), the snapshot's version number, columns that are not synced and that a replacing insert resets, and messages beyond the limit of 1000.
- Sync.StrongConvergence: is about rows with non-negative timestamps that never go back on a key, since a local row with a negative timestamp always loses.
- SnapshotCodec.RoundTrip: is for lists of fewer than 2^32 rows and strings below the length marks of the stream format; the state a `QDataStream` is left in after reading past the end is modelled as zeros and nulls.
- Passwords, salts and logins of the users, and the self-lock of the permission model.
- The HTTP checks and the login dialogue of the smoke-check script.
- Removal of a client while its buffer is being processed.
- Bandwidth measurement, quality gears and key frames of the quality timer.
- Reading a stored clipboard history, whose maximum is not bounded from below; previews and timestamps.
- ClipboardHistory.History.PruneOldEntries: where the source's loop would repeat forever the model answers so and leaves the history alone, because a method has to end.
- AddressBook.ReimportIsIdentity: needs unique, non-empty addresses, trimmed fields and tags without line breaks, tags without semicolons, and number and date formats that read what they print; trimming covers the ASCII blanks only.
- AddressBook.ImportJoinsBooks: is about an imported book with unique addresses, and fields as for `AddressBook.ReimportIsIdentity`; of two records with one address the second is merged into what the first left.
- The text mode in which the file is read, which may drop carriage returns inside a field: the model reads the text as it was printed, except for a carriage return in front of a line end.
- AddressBook.Book.ImportCsv: the source reads out of range when a record has fewer fields than the header announces, or the header has no address column; the model stops there with `ok` false.
- The downloading side of the offset-addressed transfer, and its resumption, which truncates the host's target.
- The canvas, frame dimensions and time stamps of tiles, and tiles handled without a decode thread; acknowledgements and resend timers of an inactive session.
- Relay, NAT traversal, device registry, terminal, power, recording, chat and call handling.
