/**
 Blocks of a file, and how a checkpoint tells which of the blocks a sender thread sent have arrived
 (ByteSource.h, util/FileByteSource.cpp, util/ThreadTransferHistory.cpp).
 */
module Blocks {
  import opened Protocol

  datatype Option<+T> = None | Some(value: T)

  /** What is left to send of a source: `size` bytes of file `seqId` from `offset`. */
  datatype Block = Block(seqId: int, offset: int, size: int) {
    function End(): int { offset + size }
  }

  /** advanceOffset */
  function Advance(b: Block, numBytes: int): Block { Block(b.seqId, b.offset + numBytes, b.size - numBytes) }

  /** The checkpoint's partial block is this one. */
  predicate Names(c: Checkpoint, b: Block) { c.lastBlockSeqId == b.seqId && c.lastBlockOffset == b.offset }

  /**
   The bytes of `b` a checkpoint vouches for (the first half of markSourceAsFailed).  Without a seq-id
   the receiver is of an older version and its count is taken on trust.
   */
  function ReceivedBytes(b: Block, c: Option<Checkpoint>): int {
    if c.None? then 0
    else if c.value.hasSeqId && !Names(c.value, b) then 0
    else c.value.lastBlockReceivedBytes
  }

  function Credited(b: Block, c: Option<Checkpoint>): Block { Advance(b, ReceivedBytes(b, c)) }

  datatype Verdict = OK | NO_PROGRESS | INVALID_CHECKPOINT

  /** validateCheckpoint */
  function Validate(last: Option<Checkpoint>, c: Checkpoint, isGlobal: bool): Verdict {
    if last.None? then OK
    else
      var l := last.value;
      if c.numBlocks < l.numBlocks then INVALID_CHECKPOINT
      else if c.numBlocks > l.numBlocks then OK
      else if c.lastBlockSeqId == l.lastBlockSeqId && c.lastBlockOffset == l.lastBlockOffset then
        if c.lastBlockReceivedBytes != l.lastBlockReceivedBytes then INVALID_CHECKPOINT
        else if isGlobal then OK else NO_PROGRESS
      else if c.lastBlockReceivedBytes == 0 && !isGlobal then NO_PROGRESS
      else OK
  }

  /** Same blocks and same partial block as in the last checkpoint, different count. */
  predicate Recounts(last: Option<Checkpoint>, c: Checkpoint) {
    && last.Some? && last.value.numBlocks == c.numBlocks && last.value.lastBlockSeqId == c.lastBlockSeqId
    && last.value.lastBlockOffset == c.lastBlockOffset && last.value.lastBlockReceivedBytes != c.lastBlockReceivedBytes
  }

  /** The partial block of the checkpoint is that of the last one. */
  predicate SamePart(l: Checkpoint, c: Checkpoint) {
    c.lastBlockSeqId == l.lastBlockSeqId && c.lastBlockOffset == l.lastBlockOffset
  }
  /** It completes a block since the last one, or has bytes of another block. */
  predicate Newer(l: Checkpoint, c: Checkpoint) {
    c.numBlocks > l.numBlocks || (c.lastBlockReceivedBytes != 0 && !SamePart(l, c))
  }

  /** The size check of setCheckpointAndReturnToQueue in front of the validation. */
  function Judge(historySize: nat, last: Option<Checkpoint>, c: Checkpoint, isGlobal: bool): Verdict {
    if c.numBlocks > historySize then INVALID_CHECKPOINT else Validate(last, c, isGlobal)
  }

  /** Only the oldest block past the checkpoint can be the partially received one. */
  ghost function Unacknowledged(blocks: seq<Block>, c: Checkpoint): (r: seq<Block>)
    ensures |r| == |blocks|
    ensures forall i | 0 <= i < |r| :: r[i] == if i == 0 then Credited(blocks[0], Some(c)) else blocks[i]
  {
    if blocks == [] then [] else [Credited(blocks[0], Some(c))] + blocks[1..]
  }
}
