# WDT, modelled and proved in Dafny

WDT copies a directory tree from a sender to a receiver over many TCP connections at once. Sender threads share one
queue of blocks; connections break at any byte, receiver threads die, and the two sides settle what has arrived by
checkpoints. An interrupted transfer is resumed from a log kept on the receiver's disk. The model covers that core:

| file | what it models |
|---|---|
| `Serialization`, `Protocol` | varints, strings and the messages of the wire format |
| `Chunks`, `ChunkBatches`, `SourceQueue` | received ranges, the list of them sent to a resuming sender, the queue built from it |
| `Blocks`, `Link`, `Delivery`, `Losses`, `DeliveryLimits`, `FaultFree` | one port, and a whole transfer, as a state machine over sender and receiver steps |
| `Credits`, `Reconnects` | which bytes checkpoints credit to the sender, and how often a thread reconnects |
| `History`, `Accounting`, `TransferBooks`, `Report` | a thread's history of sources, its race with a global checkpoint, the statistics and what the final report makes of them |
| `TransferLog`, `LogReplay`, `LogParser`, `Compaction` | the transfer log: bytes, replay, parsing, repair, compaction |
| `Framing` | encryption tags and IV changes on a socket |
| `ReceiverBuffer` | the receiver's buffer and its loop over commands |
| `FileCreator`, `FileProgress`, `SessionLog`, `Resumption` | receiver threads allocating files together, what their log says afterwards, and how that follows from the sender's queue |
| `Throttler` | average and peak rate limits |
| `VersionBarrier` | the sender threads' barrier and funnel for renegotiating the version |

Protocols are state machines whose steps interleave freely, and results about them hold for every run. Code that
works step by step on buffers, queues and maps is modelled as classes and loops proved against functions. Integers are
unbounded except where the wire format or a buffer bounds them; `Wire` is a non-negative 64-bit integer.

## Model

| member | source | states |
|---|---|---|
| Serialization.U64RoundTrip | util/SerializationUtil.h:89-107 | every unsigned 64-bit value reads back from its varint, and what follows it is left over |
| Serialization.EncodeVarU64 | util/SerializationUtil.h:116-156 | the loop succeeds exactly when the varint fits between position and end; then those bytes and no others are written |
| Serialization.DecodeVarU64 | util/SerializationUtil.h:175-212 | the scanning loop reads the first varint, of at most nine bytes, and refuses exactly the truncated ones |
| Serialization.ZigZagRoundTrip | util/SerializationUtil.h:66-76 | zigzag is a bijection between signed and unsigned 64-bit values |
| Serialization.FixedRoundTrip | util/SerializationUtil.cpp:104-156 | fixed-length integers that are not negative read back |
| Serialization.StringPutGet | util/SerializationUtil.cpp:158-186 | a length-prefixed string reads back, whatever follows |
| Serialization.EncodeString | util/SerializationUtil.cpp:158-171 | succeeds exactly when length and text both fit |
| Protocol.NegotiationSettles | Protocol.cpp:44-51 | the version a receiver answers with is one both speak, and proposing it back changes nothing |
| Protocol.HeaderRoundTrip | Protocol.cpp:139-196 | block headers read back under every version, without what the version does not carry |
| Protocol.HeaderReadIff | Protocol.cpp:139-196 | bytes read as a given header, of its own length, if and only if they start with its bytes; only the spare bits of the flags are free |
| Protocol.HeaderFits | Protocol.h:300-310 | a header for any path of at most PATH_MAX bytes fits kMaxHeader |
| Protocol.EncodeHeader | Protocol.cpp:139-166 | writes the whole header, or fails because the buffer is too small for it |
| Protocol.CheckpointsRoundTrip | Protocol.cpp:198-266 | a list of checkpoints reads back, with or without seq-ids as the version has it |
| Protocol.DecodeCheckpoints | Protocol.cpp:224-266 | the decoding loop reads as many entries as announced, or fails |
| Protocol.LocalCheckpointFits | Protocol.cpp:121-137 | a list of one checkpoint fits the fixed length both sides agree on |
| Protocol.SettingsRoundTrip | Protocol.cpp:454-522 | the settings command reads back |
| Protocol.SettingsFit | Protocol.h:311-318 | the settings command fits kMaxSettings for every legal transfer id |
| Protocol.DoneRoundTrip | Protocol.cpp:268-287 | the done command reads back |
| Protocol.SizeAndFooterRoundTrip | Protocol.cpp:289-301 | size and footer commands read back |
| Protocol.AbortRoundTrip | Protocol.cpp:303-338 | the abort command reads back |
| Protocol.EncryptionSettingsRoundTrip | Protocol.cpp:524-547 | the encryption settings read back and have the length the peer waits for |
| Chunks.SeparatedIsCanonical | Protocol.cpp:74-92 | two separated lists of ranges with the same bytes are equal, so merging has one possible answer |
| Chunks.FileChunksInfo.MergeChunks | Protocol.cpp:74-92 | afterwards the list is separated and covers exactly what it covered before, in whatever order ties are sorted |
| Chunks.FileChunksInfo.AddChunk | Protocol.cpp:70-72 | the range is added at the end |
| Chunks.FileChunksInfo.GetTotalChunkSize | Protocol.cpp:62-68 | the sum of the sizes |
| Chunks.FileChunksInfo.GetRemainingChunks | Protocol.cpp:94-107 | the complement of the ranges in a file of the given size |
| Chunks.RemainingPartitions | Protocol.cpp:94-107 | every byte of the file is in exactly one received or missing range, and no other byte is in any |
| Chunks.RemainingAreReal | Protocol.cpp:94-107 | missing ranges are not empty and end within the file |
| Chunks.CutIntoBlocks | util/DirectorySourceQueue.cpp:538-551 | the do-while loop cuts a range into blocks, at least one even for an empty range |
| Chunks.BlocksPartition | util/DirectorySourceQueue.cpp:538-551 | the blocks hold every byte of the range exactly once and none is larger than the block size |
| Chunks.BlocksAreFull | util/DirectorySourceQueue.cpp:538-551 | the blocks follow one another from end to end, and all but the last have the block size |
| Chunks.ResumptionPartition | util/DirectorySourceQueue.cpp:479-555 | reported ranges and the blocks queued for the rest hold every byte of the file exactly once |
| ChunkBatches.AllRoundTrip | Protocol.cpp:356-407 | a list of files with their ranges reads back from its bytes |
| ChunkBatches.EncodeFileChunksInfoList | Protocol.cpp:414-436 | the loop with its skip and its early exit encodes exactly one batch, within the buffer |
| ChunkBatches.BatchIsFull | Protocol.cpp:414-436 | with entries that fit, a batch is the next run of the list and ends only with the list or in front of an entry that need not fit any more |
| ChunkBatches.DecodeFileChunksInfoList | Protocol.cpp:438-452 | decodes entries while bytes are left, or fails |
| ChunkBatches.ExchangeFileChunks | ReceiverThread.cpp:788-807 | when every entry fits, batch after batch, the sender ends up with the receiver's list |
| ChunkBatches.ListArrivesIffAllFit | ReceiverThread.cpp:788-807 | the loop ends having sent its list if and only if every entry, at its largest, is smaller than the buffer less the prefix |
| ChunkBatches.SkippedEntryResends | Protocol.cpp:414-436 | an entry too large is left out and the one behind it is sent twice |
| ChunkBatches.ExactEntryStalls | Protocol.cpp:414-436 | an entry of exactly that size stops the loop for ever, with nothing sent |
| SourceQueue.DirectorySourceQueue.CreateIntoQueueInternal | util/DirectorySourceQueue.cpp:479-555 | queues exactly the blocks of what the receiver lacks of the file, under its reported id or the next new one, and counts them; a queued file's status compares its size with the one reported, and a file too large there carries its reported id as the old one |
| SourceQueue.DirectorySourceQueue.SetPreviouslyReceivedChunks | util/DirectorySourceQueue.cpp:145-168 | everything is queued, counted and described anew against the list, with new ids above all reported ones |
| SourceQueue.DirectorySourceQueue.EnqueueFilesToBeDeleted | util/DirectorySourceQueue.cpp:638-677 | once discovery and list are both there, a deletion is queued for exactly the reported files not discovered |
| SourceQueue.DirectorySourceQueue.FinishInit | util/DirectorySourceQueue.cpp:222-231 | the end of discovery queues the deletions if the list came first |
| SourceQueue.FilePartition | util/DirectorySourceQueue.cpp:479-555 | every byte of a file is in a reported range the sender relies on or in exactly one queued block; a file of no bytes is queued as one empty block unless the receiver has it |
| SourceQueue.SeqIdNamesOneFile | util/DirectorySourceQueue.cpp:479-555 | two queued blocks with the same seq-id are of the same file, if the receiver reported distinct ids |
| SourceQueue.IdsStartAtOne | util/DirectorySourceQueue.cpp:145-168 | after a list, new ids start at 1 or above if and only if the list has a file with a valid id |
| SourceQueue.EmptyListStartsAtZero | util/DirectorySourceQueue.cpp:145-168 | after an empty list the first file gets id 0 |
| Link.CompletedArePrefix | util/ThreadTransferHistory.cpp:67-109 | when a local checkpoint is applied, the completed blocks are the first `numBlocks` of the history, in order |
| Link.LocalRejectedOnlyOnRecount | util/ThreadTransferHistory.cpp:136-179 | such a checkpoint is refused exactly when it names the block of the last one with another count |
| Link.GlobalRejectedIff | util/ThreadTransferHistory.cpp:136-179 | a dead receiver's checkpoint is refused exactly when it counts the block still in hand or recounts that of the last local one |
| Delivery.StepKeeps | SenderThread.cpp:282-314 | every step of every thread keeps the invariant of a transfer |
| Delivery.TransferDelivers | ReceiverThread.cpp:929-981 | in every run, once a receiver thread decides to finish, every queued byte has been received, unless a global checkpoint was refused or a receiver thread left unlisted |
| Delivery.IndexCoversApplied | ReceiverThread.cpp:833-856 | a checkpoint below a receiver's index belongs to a dead port, has been applied, and left no block behind |
| Losses.LostBytes | ReceiverThread.cpp:929-981 | in every run, a byte not received when the first receiver thread decides is in an uncompleted block of a port whose checkpoint was refused or whose receiver left unlisted, or in the queue after such a departure |
| Losses.LocalCheckpointsFit | SenderThread.cpp:151-206 | in every run, a local checkpoint counts a prefix of the history, no shorter than last time, and is refused only on a recount |
| Losses.RefusedIff | SenderThread.cpp:800-837 | in every run, a dead port's checkpoint is refused, the first time, exactly in the two cases of `Link.GlobalRejectedIff` |
| DeliveryLimits.SilentExitLosesBlock | ReceiverThread.cpp:193-232 | runs in which a receiver thread leaves unlisted and the other port's thread succeeds with nothing received |
| DeliveryLimits.RecountLosesByte | util/ThreadTransferHistory.cpp:136-179 | runs in which a recount is refused and the other port's thread succeeds without one byte |
| FaultFree.FaultFreeRun | SenderThread.cpp:282-314 | for every queue and any number of ports there is a run without a broken connection in which every sender thread succeeds and every byte is received |
| Credits.CreditFits | util/ThreadTransferHistory.cpp:181-226 | a checkpoint's byte count goes only to the block it was counted on and is smaller than that block |
| Credits.CreditedIsGone | util/ThreadTransferHistory.cpp:181-226 | no source on a port starts at a byte already credited |
| Credits.CreditedAtMostOnce | util/ThreadTransferHistory.cpp:67-109 | in every run each byte is in one source or credited once, never both and never twice, and every source is a suffix of a queued block |
| Reconnects.PassProgress | SenderThread.cpp:151-206 | with an earlier checkpoint on record, a pass through READ_LOCAL_CHECKPOINT ends the thread exactly on a recount; otherwise it clears the counter if and only if it completes a block or credits a byte, and raises it if and only if it does neither |
| Reconnects.ProgressCounted | SenderThread.cpp:192-206 | in every run, a local checkpoint clears the counter if it is the first, if the receiver has completed a block since the last one, or if a byte need not be sent any more; it raises it if none holds; a recount ends the thread |
| Reconnects.ReconnectsBounded | SenderThread.cpp:108-149 | in every run a thread goes through READ_LOCAL_CHECKPOINT a number of times bounded by blocks, bytes and max_transfer_retries |
| History.ThreadTransferHistory.AddSource | util/ThreadTransferHistory.cpp:34-47 | the source joins the history, or after a global checkpoint is failed and goes back to the queue |
| History.ThreadTransferHistory.MarkSourceAsFailed | util/ThreadTransferHistory.cpp:181-226 | the source advances by the bytes counted for it, and thread and source statistics change alike |
| History.ThreadTransferHistory.SetCheckpointAndReturnToQueue | util/ThreadTransferHistory.cpp:67-109 | exactly the sources past the checkpoint go back, last first, only the first of them advanced, and the statistics balance |
| History.ThreadTransferHistory.ValidateCheckpoint | util/ThreadTransferHistory.cpp:136-179 | the verdict that the protocol model uses: invalid exactly if blocks are fewer or the same partial block is counted differently; no progress exactly if a local checkpoint has neither another block nor bytes of another partial one |
| History.EitherSideReturnsOnce | util/ThreadTransferHistory.cpp:34-109 | in every race of addSource with a global checkpoint, each source past the checkpoint goes back exactly once |
| History.FailedAllBlocks | util/ThreadTransferHistory.cpp:181-226 | as blocks, the returned sources are what the protocol model returns |
| Accounting.BooksBalance | Sender.cpp:371-408 | after any events the thread statistics are the sums over all sources, and bytes counted or still to be sent make up the total size |
| Accounting.EveryAttemptCounts | util/ThreadTransferHistory.cpp:181-226 | after any events every attempt is on record once, as a block or as a failed attempt, and so is every byte put on a connection |
| Accounting.HeadersCount | util/ThreadTransferHistory.cpp:181-226 | after any events the effective header bytes are the headers of the sources that count as sent, and of no others |
| Accounting.ValidateTransferStats | Sender.cpp:371-408 | on such books none of the four assertions at the end of a transfer fires |
| Accounting.EffectiveBytes | Reporting.cpp:142-158 | the threads' effective bytes are the total size less what sources not sent still hold |
| Accounting.SizeCheckExact | Reporting.cpp:142-158 | they reach the total size if and only if every source is sent or empty |
| TransferBooks.RunsInBalance | SenderThread.cpp:282-314 | along every run of the protocol the books hold exactly its sources and balance; what the accounting asks of checkpoints is what the protocol keeps |
| TransferBooks.CheckpointsCountFirst | util/ThreadTransferHistory.cpp:67-109 | in every run only the first source past a port's checkpoint can be the partially received one |
| Report.SizesTell | Reporting.cpp:142-158 | the report's size comparison holds if and only if no byte is left in the queue or in hand and no source with bytes was cut short on its connection |
| Report.ReportExact | Reporting.cpp:116-160 | at every moment of every run, exactly when the report is OK: the sizes agree, and one thread succeeded with nothing queued, or all did with no failed source left |
| Report.MissingUnseen | Reporting.cpp:142-158 | at every moment of every run, if the sizes agree though a byte is missing, it is in a source that went onto its connection as a whole and that the receiver did not complete |
| Report.BlamedUnseen | ReceiverThread.cpp:929-981 | when the first receiver thread decides, that port is one whose checkpoint was refused or whose receiver left unlisted |
| Report.SilentExitReport | Sender.cpp:196-235 | a receiver leaves unlisted and nothing is received: the report is OK exactly if the block went out as a whole |
| Report.RecountReport | Sender.cpp:196-235 | a recount is refused and a byte is missing: the report is OK exactly if the block went out as a whole |
| TransferLog.EntryRoundTrip | util/TransferLogManager.cpp:38-238 | every log entry reads back |
| TransferLog.EntryFits | util/TransferLogManager.cpp:38-238 | entries for paths of at most PATH_MAX bytes, and headers, fit the entry buffer |
| TransferLog.SplitJoin | util/TransferLogManager.cpp:1015-1119 | a log splits into exactly the entries appended to it |
| TransferLog.TornTail | util/TransferLogManager.cpp:1015-1119 | of any prefix of a log's bytes, exactly the entries wholly in it are read and the rest is cut off |
| LogReplay.AcceptedLogTells | util/TransferLogManager.cpp:767-1013 | of every accepted log: a seq-id has a result exactly when its latest creation passed and was not dropped, and the result is the blocks written since |
| LogReplay.ResultsAreOwn | util/TransferLogManager.cpp:767-812 | whatever the log: a file in the result was created behind a header with the recovery id and the config set up now, and neither another transfer's header nor a directory invalidation comes later |
| LogReplay.HeaderDecides | util/TransferLogManager.cpp:767-812 | whatever came before: a usable header with another recovery id or config leaves no file in the result up to the next header; with both right the log goes on |
| LogReplay.TornLogReplays | util/TransferLogManager.cpp:1015-1119 | any prefix of an accepted log's bytes is accepted and means its whole entries |
| LogReplay.ResizeAccepted | util/TransferLogManager.cpp:871-919 | of every accepted log, which entry put a file's size on record, and exactly which resizes are accepted |
| LogReplay.ResizesProperIff | util/TransferLogManager.cpp:871-919 | resizes are held against the file's size since its latest creation if and only if the recorded one agrees with it |
| LogReplay.ShrinkAccepted | util/TransferLogManager.cpp:814-919 | a log that resizes a file below its size is accepted |
| LogParsing.LogParser.ParseEntries | util/TransferLogManager.cpp:1015-1119 | the parse loop computes the replay of the log's bytes and keeps exactly its whole entries |
| LogParsing.LogParser.ProcessHeaderEntry | util/TransferLogManager.cpp:767-812 | invalid exactly if the version is another one or the address is missing; accepted exactly if besides recovery id and config are those set up |
| LogParsing.LogParser.ProcessFileCreationEntry | util/TransferLogManager.cpp:814-869 | the maps change as in the replay |
| LogParsing.LogParser.ProcessFileResizeEntry | util/TransferLogManager.cpp:871-919 | the maps change as in the replay |
| LogParsing.LogParser.ProcessBlockWriteEntry | util/TransferLogManager.cpp:921-966 | the maps change as in the replay |
| LogParsing.LogParser.ProcessFileInvalidationEntry | util/TransferLogManager.cpp:968-998 | the maps change as in the replay |
| LogParsing.LogParser.MergeResults | util/TransferLogManager.cpp:1106-1111 | every file is reported once, its ranges merged |
| LogParsing.RepairedLogAgrees | util/TransferLogManager.cpp:706-721 | after the invalidation entries are appended, parsing gives the same files and nothing is left to invalidate |
| Compaction.CheckComplete | util/TransferLogManager.cpp:612-693 | the loop accepts exactly when every file is one range from 0 to its size |
| Compaction.CompactLog | util/TransferLogManager.cpp:612-693 | compacts if and only if the log parses and every file it gives is complete; the new log parses to the same results |
| Compaction.CompactionPreserves | util/TransferLogManager.cpp:612-693 | for every log that parses to complete files: the new log parses if and only if the old one has an entry or the address was known, and to the same results |
| Framing.NextTagOffset | util/WdtSocket.cpp:223-233 | leads to the next tag, with none on the way |
| Framing.IvCoverage | util/WdtSocket.cpp:396-420 | no IV ever covers more bytes up to a tag than the larger of the two intervals |
| Framing.IvLasts | util/WdtSocket.cpp:396-420 | an IV is changed only at a tag, and only if by the next tag it would cover more than the interval; with no interval it never is |
| Framing.Writer.Write | util/WdtSocket.cpp:484-522 | in whatever pieces it is called, the symbols on the wire depend only on the bytes written |
| Framing.Writer.EncryptAndWriteWithTag | util/WdtSocket.cpp:443-482 | one piece with a tag in it leaves the wire as the bytes written so far have it |
| Framing.Reader.ReadAndDecryptWithTag | util/WdtSocket.cpp:253-308 | one piece of a read, in whatever portions it arrives: which bytes come out, whether the reader is then in step, behind a tag it will look for again, or lost, and which blocks are counted at the tag |
| Framing.Reader.Read | util/WdtSocket.cpp:310-371 | any read, after any other: what comes out is what was written next, as much of it as `ReadOf` says, and blocks counted as verified end at or before the last verified tag |
| Framing.Reader.ReadEach | util/WdtSocket.cpp:310-371 | any reads one after the other: their data joined is what was written from where the reader was, as much of it as `Reads` says |
| Framing.SteadyReads | util/WdtSocket.cpp:310-371 | as long as tags arrive and a byte behind each, the reader stays in step and every read brings it on; only a peer that stopped in front of a tag can make it lose anything |
| Framing.FullReads | util/WdtSocket.cpp:310-371 | when all that is asked for arrives, exactly that many bytes come out; the connection is lost if and only if more is asked for than a peer wrote that stopped in front of a tag |
| Framing.StarvesIff | util/WdtSocket.cpp:253-308 | a piece leaves the reader behind a tag it will look for again if and only if it reaches the tag, gets it, and no data behind it arrives |
| Framing.LostIff | util/WdtSocket.cpp:253-308 | a piece loses the connection if and only if it reaches a tag the peer has not written or that does not arrive |
| Framing.StarvedIsLost | util/WdtSocket.cpp:310-318 | after such a piece no byte ever comes again: the next read is refused, or after a timeout fails on the tag |
| Framing.Carry | util/WdtSocket.cpp:310-522 | writer and reader together, in any pieces and reads of any sizes: a prefix of what was written, and all that was asked for once it arrives |
| Framing.StarvedRead | util/WdtSocket.cpp:253-308 | for every interval and all bytes beyond the first tag: two reads of which the second loses the connection |
| Framing.BlockedRead | util/WdtSocket.cpp:253-308 | for every interval and all bytes up to the first tag: a read that asks for one more and loses them |
| Framing.Reader.VerifyTag | util/WdtSocket.cpp:278-289 | on any input: a tag verifies if and only if it was made under the IV in use and over exactly the bytes that came out under it; otherwise the connection is lost |
| Framing.Reader.ReadTag | util/WdtSocket.cpp:170-221 | at a tag the waiting blocks, and only those, are counted |
| Throttling.Throttler.StartTransfer | Throttler.cpp:227-242 | the first of the sharing transfers starts the throttler afresh; the others change nothing but the count |
| Throttling.Throttler.EndTransfer | Throttler.cpp:244-248 | only the count of transfers changes |
| Throttling.Throttler.CalculateSleep | Throttler.cpp:143-178 | exactly when a request sleeps and for how long: until the average rate allows for it, or else until the bucket, filled up to its limit and then charged, is repaid; the request is recorded and both limits are kept |
| Throttling.Throttler.AverageThrottler | Throttler.cpp:205-225 | sleeps exactly if the progress is ahead of the average rate, until it is not |
| Throttling.Throttler.LimitInternal | Throttler.cpp:102-117 | a large request goes through in pieces within the single-request limit that add up to it, and both limits are kept |
| Throttling.Throttler.RatesHold | Throttler.cpp:143-225 | at any time the bytes released are at most the average rate times the time, and those charged to the bucket at most the peak rate times the time and one for each charge |
| Throttling.Throttler.BurstHolds | Throttler.cpp:152-178 | between any two times, the bytes charged and released are at most the bucket limit or the first request, whichever is larger, plus the peak rate times the time between, and one for each charge after the first |
| ReceiverBuffer.ReceiverThread.ReadAtLeast | ReceiverThread.cpp:30-61 | reads on until there is enough, the bytes of the stream in order behind those at hand |
| ReceiverBuffer.ReceiverThread.StreamData | ReceiverThread.cpp:538-572 | reads at most what is missing of the block, in order |
| ReceiverBuffer.ReceiverThread.KeepLeftover | ReceiverThread.cpp:601-620 | the bytes behind a block are kept for the next command |
| ReceiverBuffer.ReceiverThread.ReadRestOfHeader | ReceiverThread.cpp:431-435 | exactly when the read does not fit the buffer, and what the window holds afterwards |
| ReceiverBuffer.ReceiverThread.ProcessFileCmd | ReceiverThread.cpp:405-665 | if the window its header was decoded from shows the stream, the data written is the data that arrived, the block is taken if and only if the checksum that arrived is that of this data, and the window is left at the next command |
| ReceiverBuffer.ReceiverThread.CheckFooter | ReceiverThread.cpp:621-656 | for any data and any checksum in the stream: unless a read fails, the block is taken if there is no footer or the checksum is that of the data, and refused as a mismatch otherwise |
| ReceiverBuffer.HeaderVerdict | ReceiverThread.cpp:443-472 | a header that was sent whole, with any length in its length field, is understood as what was sent if and only if the length is right and a file to be deleted has no content; otherwise it is refused |
| ReceiverBuffer.ReceiverThread.ProcessSizeCmd | ReceiverThread.cpp:720-735 | the size sent is read and the window moves on behind it |
| ReceiverBuffer.ReceiverThread.ProcessDoneCmd | ReceiverThread.cpp:691-718 | the counts sent are read |
| ReceiverBuffer.ReceiverThread.ReceiveBlocks | ReceiverThread.cpp:257-735 | whatever the socket delivers at a time, the blocks come out in order and byte for byte up to the first header longer than what has been read; the block of that header is right if and only if the bytes in the gap, stale or moved, are those sent |
| ReceiverBuffer.ReceiverThread.ReceiveShortBlocks | ReceiverThread.cpp:257-735 | with headers of at most kMinBufLength bytes the blocks that come out are a prefix of those sent, and all of them at the done command, which is reached unless a read from the socket fails |
| ReceiverBuffer.GapRightIff | ReceiverThread.cpp:431-535 | behind a longer header the block is right if and only if every byte the gap puts in the window, left over from before or moved, equals the one sent |
| ReceiverBuffer.AlwaysRightIff | ReceiverThread.cpp:405-535 | a block comes out right from every buffer and every delivery if and only if its header has at most kMinBufLength bytes |
| ReceiverBuffer.WrongBlock | ReceiverThread.cpp:431-453 | a connection and a buffer for which the block of a file that was never sent comes out |
| FileCreator.AllocatedOnce | util/FileCreator.cpp:123-168 | in every interleaving a file is sized at most once, and by one thread |
| FileCreator.NoLostWakeup | util/FileCreator.cpp:90-121 | no thread sleeps past the end of the allocation it waits for |
| FileCreator.CreationFirst | util/TransferLogManager.cpp:495-536 | a block's log entry follows its file's if and only if the log header was there when the file was sized |
| FileCreator.NothingMissedLater | util/TransferLogManager.cpp:472-493 | once the header is written no file is missed |
| FileCreator.EveryBlockLogged | ReceiverThread.cpp:667-690 | from a moment with the header written on, the log takes one entry for every verified block: a block entry, or an invalidation if the file was to be deleted |
| FileCreator.InvalidatedFirst | util/FileCreator.cpp:64-88 | in every interleaving, the creation entry of a file that was too large comes after the invalidation of its old id |
| FileCreator.MissedInFunnel | ReceiverThread.cpp:395-404 | with the log open, files are missed only while the first thread is in the funnel |
| FileCreator.MissedCreation | ReceiverThread.cpp:395-404 | an interleaving in which a file's creation is not logged and its block is |
| FileProgress.BlocksGetThrough | util/FileCreator.cpp:90-168 | from every moment of every interleaving, if calls succeed from then on and threads wake by notification only, every block under way is received unless sizing its file had failed |
| SessionLog.SessionReplays | util/TransferLogManager.cpp:495-536 | in every interleaving, with a sender that was told what the earlier log says, the session's log is believed on replay if and only if no new file with a logged block was missed and no file was invalidated twice; then it says of every file not invalidated exactly the earlier ranges and the logged blocks |
| Resumption.KindsTell | util/DirectorySourceQueue.cpp:496-535 | of every seq-id the sender uses: its file is missing or too large at the receiver exactly if the id was not reported, and a file too large has its reported id as the old one, which no queued file uses |
| Resumption.KindsAre | util/DirectorySourceQueue.cpp:532-551 | every queued block belongs to the one file whose status and old id go with its seq-id |
| Resumption.ResumedSession | util/TransferLogManager.cpp:495-536 | queue, headers, file allocation and log together: behind the earlier log, the session's log is believed if and only if no unreported file with a logged block was missed and no file was invalidated twice |
| VersionBarrier.NobodyPassesEarly | util/ThreadsController.cpp:107-136 | in every run no thread passes the barrier before all have arrived or left |
| VersionBarrier.BarrierNotStuck | util/ThreadsController.cpp:107-164 | while the barrier holds, some thread is still on the way |
| VersionBarrier.OneLeader | util/ThreadsController.cpp:70-99 | one thread leads through the funnel, and whoever waits waits for a leader that is there |
| VersionBarrier.ChecksHold | SenderThread.cpp:879-952 | the assertions on the negotiation status hold in every run |
| VersionBarrier.AgreedVersion | SenderThread.cpp:879-952 | the leader's loop finds the version all threads were told, if they were told the same |
| VersionBarrier.ResolvedIffAgreed | SenderThread.cpp:879-952 | the leader resolves exactly when nothing was acknowledged and all who were told a version were told the same |
| VersionBarrier.ResolvedStays | SenderThread.cpp:879-952 | a resolved version is final |
| VersionBarrier.ResolvedIffSettled | SenderThread.cpp:879-952 | in every run the status is resolved exactly if a leader settled the matter with nothing acknowledged when exactly one version had been offered, and that is the version |
| VersionBarrier.FunnelLeadsOn | SenderThread.cpp:932-952 | in every run a thread leaves the open funnel for CONNECT exactly in that case, leader or follower, and for END otherwise; a thread refused once more after that ends |
| VersionBarrier.AbortCleared | SenderThread.cpp:926-931 | in every run, settling the matter clears the abort code, and after that only another refusal sets it |
| VersionBarrier.EverybodyGetsOut | util/ThreadsController.cpp:70-164 | from every moment of every run, all threads under way can get back to work or end without another refusal, unless the leader's assertion fails |
| VersionBarrier.CrashIffNoneProposed | SenderThread.cpp:879-952 | the leader's last assertion fails if and only if no receiver has proposed a version the sender speaks |
| VersionBarrier.NoCrash | SenderThread.cpp:839-952 | with receivers of version 10 or later it holds |
| VersionBarrier.OldReceiverCrashes | SenderThread.cpp:839-952 | a run with an older receiver in which it fails |

## Findings

Properties the code does not have, each with a concrete case and, where there is one, the exact condition.

| what fails | shown by | when exactly |
|---|---|---|
| A receiver thread with a non-retryable socket error ends without adding its checkpoint; the blocks it did not complete are never sent again, yet the other threads succeed (ReceiverThread.cpp:193-232). | `DeliveryLimits.SilentExitLosesBlock` | `Losses.LostBytes`: the only other way to lose a byte is a refused checkpoint |
| The receiver counts a block's header and no byte, then one byte more of the same block; the second checkpoint is refused as a recount and the block stays with the dead port (util/ThreadTransferHistory.cpp:136-179). | `DeliveryLimits.RecountLosesByte` | `Losses.RefusedIff` |
| The report counts what went onto a connection, so after either loss it is OK if the block was written out as a whole (Reporting.cpp:142-158). | `Report.SilentExitReport`, `Report.RecountReport` | `Report.ReportExact`, `Report.MissingUnseen` |
| While the first thread writes the log header the second does not wait: its file's creation entry is dropped, its blocks are logged, and the log is rejected on replay (ReceiverThread.cpp:395-404). | `FileCreator.MissedCreation` | `FileCreator.CreationFirst`, `SessionLog.SessionReplays` |
| A resuming sender that gets an empty list gives its first file the id 0, though ids are meant to start at 1 (util/DirectorySourceQueue.cpp:145-168). | `SourceQueue.EmptyListStartsAtZero` | `SourceQueue.IdsStartAtOne` |
| When a seq-id is invalidated and created anew, its old size stays on record, so a resize below the file's size is accepted (util/TransferLogManager.cpp:814-919). | `LogReplay.ShrinkAccepted` | `LogReplay.ResizesProperIff` |
| A read that gets the tag and no data after it looks for the tag again on the next read, in the middle of data, and the connection is lost. Only a timeout lets the next read go ahead; after an end of file it is refused (util/WdtSocket.cpp:253-318). | `Framing.StarvedRead` | `Framing.StarvesIff`, `Framing.StarvedIsLost` |
| When the peer's bytes end where a tag is due, a read that asks beyond them withholds the bytes it has and the connection is lost (util/WdtSocket.cpp:253-308). | `Framing.BlockedRead` | `Framing.LostIff`, `Framing.FullReads` |
| A file header longer than what has been read is completed with a gap, because the read both starts behind the bytes at hand and skips as many; another file's block can come out, or an assertion fails because the read does not fit the buffer (ReceiverThread.cpp:431-435). | `ReceiverBuffer.WrongBlock` | `ReceiverBuffer.GapRightIff`, `ReceiverBuffer.AlwaysRightIff`, `ReceiverBuffer.ReceiverThread.ReadRestOfHeader` |
| A file of no bytes that was never sent is not noticed by the report's size comparison (Reporting.cpp:142-158). | `Accounting.SizeCheckExact` | `Accounting.SizeCheckExact` |
| A file whose ranges do not fit one buffer is left out of the list and its neighbour sent twice, or the loop never ends (Protocol.cpp:414-436, ReceiverThread.cpp:788-807). | `ChunkBatches.SkippedEntryResends`, `ChunkBatches.ExactEntryStalls` | `ChunkBatches.ListArrivesIffAllFit` |
| A receiver too old to propose a version makes the sender's leader thread fail an assertion (SenderThread.cpp:879-952). | `VersionBarrier.OldReceiverCrashes` | `VersionBarrier.CrashIffNoneProposed` |
| Compacting an empty log when the sender's address is not known writes a log that cannot be parsed (util/TransferLogManager.cpp:612-693). The receiver itself compacts only after a session (Receiver.cpp:532), when the address has been set (Receiver.cpp:82), so the case needs a direct call. | `Compaction.CompactionPreserves` | `Compaction.CompactionPreserves` |

## Left out

- Sockets, timeouts, heart-beats, polling and the socks proxy: a connection may break anywhere, and a read delivers any number of bytes.
- OpenSSL: a tag stands for its IV and the bytes it covers; the final tag of a connection and the settings exchanged before it are not modelled.
- Directory walking, file-system calls, direct reads and preallocation: what `stat` reports and whether a file can be opened are parameters.
- URIs, options, progress reports, the command line and the resource controller: they would add easy members.
- The order of the source queue: any queued block may be taken next.
- Version renegotiation inside a transfer, and receivers of versions without seq-ids in checkpoints: the runs of `Delivery` use the current version throughout.
- A disk error while a completely received block is synced or closed: the runs of `Delivery` keep a partial count only below the block's size.
- 64-bit overflow of an offset plus a block size read from a log.
- Deletion sources in the statistics.
- Directories that cannot be read, and error codes the receiver sends, in the report: a thread's code is OK exactly if it has read the done command.
- popAckedSourceStats and returnUnackedSourcesToQueue are not methods of the modelled history.
- setThrottlerRates: the rates do not change while a transfer runs; floating point is modelled by reals, with one byte lost to rounding for each charge.
- Compaction.CompactionPreserves: recovery id and sender address have at most 1024 bytes each, so that the new header fits the entry buffer.
- Reconnects.ReconnectsBounded: blocks of a file do not overlap, which `SourceQueue.FilePartition` gives for each file.
