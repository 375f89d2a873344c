/**
 The queue of sources built from the discovered files and from what the receiver already has
 (util/DirectorySourceQueue.cpp).  The queue is kept in the order of insertion; which of its sources
 is handed out first is not part of this model.
 */
module SourceQueue {
  import opened Chunks
  import opened Protocol

  /** SourceMetaData */
  datatype Meta = Meta(relPath: string, size: int, seqId: int, prevSeqId: int, status: AllocationStatus)
  /** What the receiver reported of a file. */
  datatype Previous = Previous(seqId: int, fileSize: int, chunks: seq<Interval>)
  /** A source in the queue. */
  datatype Piece = Piece(relPath: string, seqId: int, range: Interval)

  ghost predicate Resumable(p: Previous) {
    && Separated(p.chunks) && (p.chunks != [] ==> 0 <= p.chunks[0].start) && EndOf(p.chunks) <= p.fileSize
  }

  /** The receiver has the file and not more of it than the sender. */
  predicate Reuses(m: Meta, previous: map<string, Previous>) {
    m.relPath in previous && previous[m.relPath].fileSize <= m.size
  }

  // ---------------------------------------------------------------- what a file contributes

  ghost function ToSend(m: Meta, previous: map<string, Previous>): seq<Interval> {
    if Reuses(m, previous) then Remaining(previous[m.relPath].chunks, m.size) else [Interval(0, m.size)]
  }

  ghost function Pieces(relPath: string, seqId: int, ranges: seq<Interval>): (r: seq<Piece>)
    ensures |r| == |ranges| && forall i | 0 <= i < |r| :: r[i] == Piece(relPath, seqId, ranges[i])
  {
    seq(|ranges|, i requires 0 <= i < |ranges| => Piece(relPath, seqId, ranges[i]))
  }

  /** A block size of nothing means the file is one block. */
  function EffectiveBlockSize(blockSize: int, fileSize: int): int { if blockSize > 0 then blockSize else fileSize }

  ghost predicate ListResumable(list: seq<(string, Previous)>) { forall i | 0 <= i < |list| :: Resumable(list[i].1) }

  ghost predicate AllResumable(previous: map<string, Previous>) { forall p | p in previous :: Resumable(previous[p]) }

  lemma ToSendIsReal(m: Meta, previous: map<string, Previous>)
    requires AllResumable(previous) && 0 <= m.size
    ensures forall c | c in ToSend(m, previous) :: 0 <= c.start <= c.end <= m.size
    ensures Proper(ToSend(m, previous))
  {
    if Reuses(m, previous) { RemainingAreReal(previous[m.relPath].chunks, m.size); }
  }

  ghost function Contribution(m: Meta, previous: map<string, Previous>, blockSize: int): seq<Piece>
    requires AllResumable(previous) && 0 <= m.size
  {
    if m.status == TO_BE_DELETED then [Piece(m.relPath, m.seqId, Interval(0, 0))]
    else
      ToSendIsReal(m, previous);
      Pieces(m.relPath, m.seqId, BlocksOfAll(ToSend(m, previous), EffectiveBlockSize(blockSize, m.size)))
  }

  ghost predicate Sized(files: seq<Meta>) { forall i | 0 <= i < |files| :: 0 <= files[i].size }

  ghost function Contributions(files: seq<Meta>, previous: map<string, Previous>, blockSize: int): seq<Piece>
    requires AllResumable(previous) && Sized(files)
  {
    if files == [] then [] else
      Contributions(files[..|files| - 1], previous, blockSize)
      + Contribution(files[|files| - 1], previous, blockSize)
  }

  ghost function Bytes(pieces: seq<Piece>): int {
    if pieces == [] then 0 else Bytes(pieces[..|pieces| - 1]) + pieces[|pieces| - 1].range.Size()
  }

  lemma {:induction false} BytesAppend(a: seq<Piece>, b: seq<Piece>)
    ensures Bytes(a + b) == Bytes(a) + Bytes(b)
    decreases |b|
  {
    if b == [] {
      assert a + b == a;
    } else {
      BytesAppend(a, b[..|b| - 1]);
      assert (a + b)[..|a + b| - 1] == a + b[..|b| - 1];
    }
  }

  lemma {:induction false} BytesOfPieces(relPath: string, seqId: int, ranges: seq<Interval>)
    ensures Bytes(Pieces(relPath, seqId, ranges)) == TotalSize(ranges)
    decreases |ranges|
  {
    if ranges != [] {
      BytesOfPieces(relPath, seqId, ranges[..|ranges| - 1]);
      assert Pieces(relPath, seqId, ranges)[..|ranges| - 1] == Pieces(relPath, seqId, ranges[..|ranges| - 1]);
    }
  }

  // ---------------------------------------------------------------- seq-ids

  /** The file was given a seq-id of its own. */
  ghost predicate Fresh(m: Meta, previous: map<string, Previous>) { m.status != TO_BE_DELETED && !Reuses(m, previous) }

  /**
   Ids given out start above every reported one and only go up; a file that reuses what was
   reported, or is to be deleted, has the reported id.  A file the receiver has completely is never
   queued and may keep a stale id.
   */
  ghost predicate IdsInOrder(files: seq<Meta>, previous: map<string, Previous>, firstFresh: int, nextSeqId: int) {
    && firstFresh <= nextSeqId
    && (forall p | p in previous :: previous[p].seqId < firstFresh)
    && (forall i | 0 <= i < |files| :: IdInOrder(files[i], previous, firstFresh, nextSeqId))
    && (forall i, j | 0 <= i < j < |files| :: Ascending(files[i], files[j], previous))
  }
  ghost predicate IdInOrder(m: Meta, previous: map<string, Previous>, firstFresh: int, nextSeqId: int) {
    if Fresh(m, previous) then firstFresh <= m.seqId < nextSeqId
    else m.status == TO_BE_DELETED || ToSend(m, previous) != [] ==>
      m.relPath in previous && m.seqId == previous[m.relPath].seqId
  }
  ghost predicate Ascending(a: Meta, b: Meta, previous: map<string, Previous>) {
    Fresh(a, previous) && Fresh(b, previous) ==> a.seqId < b.seqId
  }

  // ---------------------------------------------------------------- what the receiver is told of a file

  /** Blocks of the file, or its deletion, are queued. */
  ghost predicate Queued(m: Meta, previous: map<string, Previous>) {
    m.status == TO_BE_DELETED || ToSend(m, previous) != []
  }
  /** The status compares the size here with the one reported; a file that is too large there has its old id with it. */
  ghost predicate Described(m: Meta, previous: map<string, Previous>) {
    && (m.status == TO_BE_DELETED ==> m.relPath in previous && m.seqId == previous[m.relPath].seqId)
    && (m.status != TO_BE_DELETED ==>
          && (m.status == NOT_EXISTS <==> m.relPath !in previous)
          && (m.status == EXISTS_TOO_LARGE <==> m.relPath in previous && m.size < previous[m.relPath].fileSize)
          && (m.status == EXISTS_TOO_SMALL <==> m.relPath in previous && previous[m.relPath].fileSize < m.size)
          && (m.status == EXISTS_CORRECT_SIZE <==> m.relPath in previous && previous[m.relPath].fileSize == m.size))
    && m.prevSeqId == if m.status == EXISTS_TOO_LARGE then previous[m.relPath].seqId else 0
  }
  ghost predicate AllDescribed(files: seq<Meta>, previous: map<string, Previous>) {
    forall i | 0 <= i < |files| :: Queued(files[i], previous) ==> Described(files[i], previous)
  }

  lemma DescribedMore(files: seq<Meta>, m: Meta, previous: map<string, Previous>)
    requires AllDescribed(files, previous) && (Queued(m, previous) ==> Described(m, previous))
    ensures AllDescribed(files + [m], previous)
  {
  }

  /** The reported list as a map; the first report of a name wins. */
  function Indexed(list: seq<(string, Previous)>): map<string, Previous> {
    if list == [] then map[]
    else
      var front, last := Indexed(list[..|list| - 1]), list[|list| - 1];
      if last.0 in front then front else front[last.0 := last.1]
  }
  /** One more than the largest reported id, or 0. */
  function NextAfter(list: seq<(string, Previous)>): int {
    if list == [] then 0 else Max(NextAfter(list[..|list| - 1]), list[|list| - 1].1.seqId + 1)
  }

  lemma {:induction false} NextAfterAll(list: seq<(string, Previous)>)
    ensures 0 <= NextAfter(list)
    ensures forall p | p in Indexed(list) :: Indexed(list)[p].seqId < NextAfter(list)
    decreases |list|
  {
    if list != [] { NextAfterAll(list[..|list| - 1]); }
  }

  lemma IdsGrow(files: seq<Meta>, m: Meta, previous: map<string, Previous>, firstFresh: int, nextSeqId: int,
                nextSeqId': int)
    requires IdsInOrder(files, previous, firstFresh, nextSeqId) && nextSeqId <= nextSeqId'
    requires IdInOrder(m, previous, firstFresh, nextSeqId') && (Fresh(m, previous) ==> nextSeqId <= m.seqId)
    ensures IdsInOrder(files + [m], previous, firstFresh, nextSeqId')
  {
    var all := files + [m];
    forall i | 0 <= i < |all| ensures IdInOrder(all[i], previous, firstFresh, nextSeqId') {
      if i < |files| { assert IdInOrder(files[i], previous, firstFresh, nextSeqId); }
    }
    forall i, j | 0 <= i < j < |all| ensures Ascending(all[i], all[j], previous) {
      if j < |files| {
        assert Ascending(files[i], files[j], previous);
      } else {
        assert IdInOrder(files[i], previous, firstFresh, nextSeqId);
      }
    }
  }

  lemma {:induction false} ContributionsGrow(files: seq<Meta>, m: Meta, previous: map<string, Previous>, blockSize: int)
    requires AllResumable(previous) && Sized(files) && 0 <= m.size
    ensures Sized(files + [m])
    ensures Contributions(files + [m], previous, blockSize) ==
            Contributions(files, previous, blockSize) + Contribution(m, previous, blockSize)
  {
    assert (files + [m])[..|files|] == files;
  }

  /** The queue and its counters are exactly what the files call for, and ids are in order. */
  ghost predicate Consistent(files: seq<Meta>, previous: map<string, Previous>, blockSize: int, queue: seq<Piece>,
                             numBlocks: int, totalFileSize: int, firstFresh: int, nextSeqId: int) {
    && AllResumable(previous) && Sized(files)
    && queue == Contributions(files, previous, blockSize)
    && numBlocks == |queue| && totalFileSize == Bytes(queue)
    && IdsInOrder(files, previous, firstFresh, nextSeqId) && AllDescribed(files, previous)
  }

  /** What a file brings along to join the others, when the next id goes up to `nextSeqId'`. */
  ghost predicate Joins(m: Meta, previous: map<string, Previous>, firstFresh: int, nextSeqId: int, nextSeqId': int) {
    && 0 <= m.size && nextSeqId <= nextSeqId' && (Queued(m, previous) ==> Described(m, previous))
    && IdInOrder(m, previous, firstFresh, nextSeqId') && (Fresh(m, previous) ==> nextSeqId <= m.seqId)
  }

  lemma OneMoreFile(files: seq<Meta>, m: Meta, previous: map<string, Previous>, blockSize: int, queue: seq<Piece>,
                    numBlocks: int, totalFileSize: int, firstFresh: int, nextSeqId: int, nextSeqId': int)
    requires Consistent(files, previous, blockSize, queue, numBlocks, totalFileSize, firstFresh, nextSeqId)
    requires Joins(m, previous, firstFresh, nextSeqId, nextSeqId')
    ensures var more := Contribution(m, previous, blockSize);
            Consistent(files + [m], previous, blockSize, queue + more, numBlocks + |more|,
                       totalFileSize + Bytes(more), firstFresh, nextSeqId')
  {
    IdsGrow(files, m, previous, firstFresh, nextSeqId, nextSeqId');
    ContributionsGrow(files, m, previous, blockSize);
    DescribedMore(files, m, previous);
    BytesAppend(queue, Contribution(m, previous, blockSize));
  }

  class DirectorySourceQueue {
    const blockSize: int                     // in bytes; not positive when block transfer is off
    const deleteFiles: bool
    var files: seq<Meta>                     // sharedFileData_
    var previous: map<string, Previous>      // previouslyTransferredChunks_
    var queue: seq<Piece>                    // sourceQueue_
    var nextSeqId: int
    var numBlocks: int
    var totalFileSize: int
    var initFinished: bool
    ghost var firstFresh: int

    ghost predicate Valid()
      reads this
    {
      Consistent(files, previous, blockSize, queue, numBlocks, totalFileSize, firstFresh, nextSeqId)
    }

    constructor (blockSize: int, deleteFiles: bool)
      ensures Valid() && this.blockSize == blockSize && this.deleteFiles == deleteFiles
      ensures files == [] && previous == map[] && !initFinished && nextSeqId == 1
    {
      this.blockSize, this.deleteFiles := blockSize, deleteFiles;
      files, previous, queue := [], map[], [];
      nextSeqId, numBlocks, totalFileSize, initFinished, firstFresh := 1, 0, 0, false, 1;
    }

    /** The loop over the missing ranges of one file. */
    method Enqueue(m: Meta, ranges: seq<Interval>)
      requires Proper(ranges)
      requires EffectiveBlockSize(blockSize, m.size) > 0 || forall c | c in ranges :: c.Size() == 0
      requires 0 <= EffectiveBlockSize(blockSize, m.size)
      modifies this`queue, this`numBlocks, this`totalFileSize
      ensures var all := Pieces(m.relPath, m.seqId, BlocksOfAll(ranges, EffectiveBlockSize(blockSize, m.size)));
              && queue == old(queue) + all && numBlocks == old(numBlocks) + |all|
      ensures totalFileSize == old(totalFileSize) + TotalSize(ranges)
    {
      var size := EffectiveBlockSize(blockSize, m.size);
      ghost var blocks: seq<Interval> := [];
      for i := 0 to |ranges|
        invariant blocks == BlocksOfAll(ranges[..i], size)
        invariant queue == old(queue) + Pieces(m.relPath, m.seqId, blocks) && numBlocks == old(numBlocks) + |blocks|
        invariant totalFileSize == old(totalFileSize) + TotalSize(ranges[..i])
      {
        assert ranges[i] in ranges && ranges[..i + 1][..i] == ranges[..i];
        blocks := EnqueueRange(m, ranges[i], size, old(queue), blocks);
      }
      assert ranges[..|ranges|] == ranges;
    }

    /** The blocks of one range, behind those of the ranges before it. */
    method EnqueueRange(m: Meta, range: Interval, size: int, ghost queue0: seq<Piece>, ghost before: seq<Interval>)
      returns (ghost blocks: seq<Interval>)
      requires range.start <= range.end && 0 <= size && (size > 0 || range.Size() == 0)
      requires queue == queue0 + Pieces(m.relPath, m.seqId, before)
      modifies this`queue, this`numBlocks, this`totalFileSize
      ensures blocks == before + Blocks(range, size) && queue == queue0 + Pieces(m.relPath, m.seqId, blocks)
      ensures numBlocks == old(numBlocks) + |Blocks(range, size)|
      ensures totalFileSize == old(totalFileSize) + range.Size()
    {
      var cut := CutIntoBlocks(range, size);
      PiecesAppend(m.relPath, m.seqId, before, cut);
      PushAll(m, cut);
      numBlocks := numBlocks + |cut|;
      totalFileSize := totalFileSize + range.Size();
      blocks := before + cut;
    }

    method PushAll(m: Meta, cut: seq<Interval>)
      modifies this`queue
      ensures queue == old(queue) + Pieces(m.relPath, m.seqId, cut)
    {
      for i := 0 to |cut|
        invariant queue == old(queue) + Pieces(m.relPath, m.seqId, cut[..i])
      {
        assert Pieces(m.relPath, m.seqId, cut[..i + 1]) ==
               Pieces(m.relPath, m.seqId, cut[..i]) + [Piece(m.relPath, m.seqId, cut[i])];
        queue := queue + [Piece(m.relPath, m.seqId, cut[i])];
      }
      assert cut[..|cut|] == cut;
    }

    /** createIntoQueueInternal: decide what is missing, give the file its id, queue its blocks. */
    method CreateIntoQueueInternal(m: Meta) returns (r: Meta)
      requires AllResumable(previous) && 0 <= m.size && m.status != TO_BE_DELETED && firstFresh <= nextSeqId
      modifies this`queue, this`numBlocks, this`totalFileSize, this`nextSeqId
      ensures r.relPath == m.relPath && r.size == m.size && r.status != TO_BE_DELETED
      ensures Queued(r, previous) ==> Described(r, previous)
      ensures queue == old(queue) + Contribution(r, previous, blockSize)
      ensures numBlocks == old(numBlocks) + |Contribution(r, previous, blockSize)|
      ensures totalFileSize == old(totalFileSize) + Bytes(Contribution(r, previous, blockSize))
      ensures Joins(r, previous, firstFresh, old(nextSeqId), nextSeqId)
      ensures Fresh(r, previous) ==> r.seqId == old(nextSeqId)
    {
      r := m;
      var remaining;
      if m.relPath !in previous {
        remaining := [Interval(0, m.size)];
        r := m.(seqId := nextSeqId, prevSeqId := 0, status := NOT_EXISTS);
        nextSeqId := nextSeqId + 1;
      } else if previous[m.relPath].fileSize > m.size {
        remaining := [Interval(0, m.size)];
        r := m.(seqId := nextSeqId, prevSeqId := previous[m.relPath].seqId, status := EXISTS_TOO_LARGE);
        nextSeqId := nextSeqId + 1;
      } else {
        remaining := RemainingChunks(previous[m.relPath].chunks, m.size);
        if remaining == [] {
          NothingToSend(r, previous, blockSize);
          return;
        }
        r := m.(seqId := previous[m.relPath].seqId, prevSeqId := 0,
                status := if previous[m.relPath].fileSize < m.size then EXISTS_TOO_SMALL else EXISTS_CORRECT_SIZE);
      }
      ToSendIsReal(r, previous);
      Enqueue(r, remaining);
      SendsWhatIsMissing(r, previous, blockSize);
    }

    method AppendFile(m0: Meta) returns (m: Meta)
      requires Valid() && 0 <= m0.size && m0.status != TO_BE_DELETED
      modifies this`queue, this`numBlocks, this`totalFileSize, this`nextSeqId, this`files
      ensures Valid() && old(queue) <= queue
      ensures files == old(files) + [m] && m.relPath == m0.relPath && m.size == m0.size && m.status != TO_BE_DELETED
      ensures Fresh(m, previous) ==> m.seqId == old(nextSeqId)
    {
      ghost var q, n, t, ids := queue, numBlocks, totalFileSize, nextSeqId;
      m := CreateIntoQueueInternal(m0);
      OneMoreFile(files, m, previous, blockSize, q, n, t, firstFresh, ids, nextSeqId);
      files := files + [m];
    }

    method CreateIntoQueue(relPath: string, size: int) returns (m: Meta)
      requires Valid() && 0 <= size
      modifies this`queue, this`numBlocks, this`totalFileSize, this`nextSeqId, this`files
      ensures Valid() && old(queue) <= queue
      ensures files == old(files) + [m] && m.relPath == relPath && m.size == size && m.status != TO_BE_DELETED
      ensures Fresh(m, previous) ==> m.seqId == old(nextSeqId)
    {
      m := AppendFile(Meta(relPath, size, 0, 0, NOT_EXISTS));
    }

    /** The receiver's list arrives: everything is counted and queued anew. */
    method SetPreviouslyReceivedChunks(list: seq<(string, Previous)>)
      requires Valid() && previous == map[] && NoneDeleted(files)
      requires ListResumable(list)
      modifies this`totalFileSize, this`numBlocks, this`previous, this`nextSeqId, this`firstFresh, this`queue,
        this`files
      ensures Valid() && previous == Indexed(list) && firstFresh == NextAfter(list)
      ensures old(files) == [] ==> nextSeqId == firstFresh
      ensures Discovered(files) == Discovered(old(files))
      ensures DeletesExtras(files, previous, deleteFiles && initFinished)
    {
      ghost var names := Discovered(files);
      StartOver(list, names);
      EnqueueDeletions(names);
    }

    /** Index the list, and queue the discovered files against it. */
    method StartOver(list: seq<(string, Previous)>, ghost names: set<string>)
      requires Valid() && previous == map[] && NoneDeleted(files) && Discovered(files) == names
      requires ListResumable(list)
      modifies this`totalFileSize, this`numBlocks, this`previous, this`nextSeqId, this`firstFresh, this`queue,
        this`files
      ensures Valid() && previous == Indexed(list) && firstFresh == NextAfter(list) && NoneDeleted(files)
      ensures (old(files) == [] ==> nextSeqId == firstFresh) && Discovered(files) == names
    {
      totalFileSize, numBlocks := 0, 0;
      IndexPrevious(list);
      NextAfterAll(list);
      firstFresh := nextSeqId;
      Rebuild();
      SameDiscovered(files, old(files));
    }

    method IndexPrevious(list: seq<(string, Previous)>)
      requires previous == map[] && ListResumable(list)
      modifies this`previous, this`nextSeqId
      ensures previous == Indexed(list) && nextSeqId == NextAfter(list) && AllResumable(previous)
    {
      nextSeqId := 0;
      for i := 0 to |list|
        invariant previous == Indexed(list[..i]) && nextSeqId == NextAfter(list[..i])
        invariant AllResumable(previous)
      {
        assert list[..i + 1][..i] == list[..i];
        nextSeqId := Max(nextSeqId, list[i].1.seqId + 1);
        if list[i].0 !in previous {
          previous := previous[list[i].0 := list[i].1];
        }
      }
      assert list[..|list|] == list;
    }

    method Rebuild()
      requires AllResumable(previous) && Sized(files) && NoneDeleted(files) && numBlocks == 0 && totalFileSize == 0
      requires firstFresh == nextSeqId && forall p | p in previous :: previous[p].seqId < firstFresh
      modifies this`queue, this`numBlocks, this`totalFileSize, this`nextSeqId, this`files
      ensures Valid() && NoneDeleted(files) && SameFiles(files, old(files))
      ensures old(files) == [] ==> nextSeqId == old(nextSeqId)
    {
      queue := [];
      var discovered := files;
      files := [];
      for i := 0 to |discovered|
        invariant Valid() && Rebuilt(files, discovered, i) && (i == 0 ==> nextSeqId == old(nextSeqId))
      {
        AddAgain(discovered, i);
      }
    }

    method AddAgain(discovered: seq<Meta>, i: nat)
      requires Valid() && i < |discovered| && Rebuilt(files, discovered, i)
      requires 0 <= discovered[i].size && discovered[i].status != TO_BE_DELETED
      modifies this`queue, this`numBlocks, this`totalFileSize, this`nextSeqId, this`files
      ensures Valid() && Rebuilt(files, discovered, i + 1)
    {
      ghost var before := files;
      var m := AppendFile(discovered[i]);
      RebuiltMore(before, m, discovered, i);
    }

    /** Called when the list arrives and when discovery ends; only the later of the two does anything. */
    method EnqueueFilesToBeDeleted()
      requires Valid() && NoneDeleted(files)
      modifies this`files, this`queue, this`numBlocks
      ensures Valid() && Discovered(files) == Discovered(old(files))
      ensures DeletesExtras(files, previous, deleteFiles && initFinished)
    {
      EnqueueDeletions(Discovered(files));
    }

    method EnqueueDeletions(ghost names: set<string>)
      requires Valid() && NoneDeleted(files) && Discovered(files) == names
      modifies this`files, this`queue, this`numBlocks
      ensures Valid() && Discovered(files) == names
      ensures DeletesExtras(files, previous, deleteFiles && initFinished)
    {
      NoDeletions(files);
      if !deleteFiles {
        return;
      }
      if !initFinished || previous == map[] {
        return;
      }
      var discovered := DiscoveredNames();
      DeleteMissing(discovered);
    }

    method DeleteMissing(discovered: set<string>)
      requires Valid() && NoneDeleted(files) && discovered == Discovered(files)
      modifies this`files, this`queue, this`numBlocks
      ensures Valid() && Discovered(files) == discovered && DeletesExtras(files, previous, true)
    {
      NoDeletions(files);
      var names := previous.Keys;
      while names != {}
        invariant Valid() && Discovered(files) == discovered
        invariant Deleting(files, previous.Keys, names, discovered)
        decreases |names|
      {
        var name :| name in names;
        Consider(name, names, discovered);
        names := names - {name};
      }
    }

    method Consider(name: string, ghost names: set<string>, discovered: set<string>)
      requires Valid() && Discovered(files) == discovered
      requires name in names && Deleting(files, previous.Keys, names, discovered)
      modifies this`files, this`queue, this`numBlocks
      ensures Valid() && Discovered(files) == discovered
      ensures Deleting(files, previous.Keys, names - {name}, discovered)
    {
      OneNameLess(previous.Keys, names, discovered, name);
      if name !in discovered {
        AddDeletion(name);
      }
    }

    method DiscoveredNames() returns (r: set<string>)
      requires NoneDeleted(files)
      ensures r == Discovered(files)
    {
      r := {};
      for i := 0 to |files|
        invariant r == Discovered(files[..i])
      {
        DiscoveredGrows(files[..i], files[i]);
        assert files[..i + 1] == files[..i] + [files[i]];
        r := r + {files[i].relPath};
      }
      assert files[..|files|] == files;
    }

    method AddDeletion(name: string)
      requires Valid() && name in previous && name !in Deletions(files) && DeletedOnce(files)
      modifies this`files, this`queue, this`numBlocks
      ensures Valid() && DeletedOnce(files)
      ensures Discovered(files) == Discovered(old(files)) && Deletions(files) == Deletions(old(files)) + {name}
    {
      var m := Meta(name, 0, previous[name].seqId, 0, TO_BE_DELETED);
      DeletionJoins(files, m);
      OneMoreFile(files, m, previous, blockSize, queue, numBlocks, totalFileSize, firstFresh, nextSeqId, nextSeqId);
      var piece := Piece(name, m.seqId, Interval(0, 0));
      assert [piece][..0] == [];
      files := files + [m];
      queue := queue + [piece];
      numBlocks := numBlocks + 1;
    }

    /** Directory discovery is over. */
    method FinishInit()
      requires Valid() && NoneDeleted(files)
      modifies this`initFinished, this`files, this`queue, this`numBlocks
      ensures Valid() && initFinished && Discovered(files) == Discovered(old(files))
      ensures DeletesExtras(files, previous, deleteFiles)
    {
      initFinished := true;
      EnqueueFilesToBeDeleted();
    }
  }

  /** Names of the files found on the sender, and of those to be deleted on the receiver. */
  ghost function Discovered(files: seq<Meta>): set<string> {
    set i | 0 <= i < |files| && files[i].status != TO_BE_DELETED :: files[i].relPath
  }
  ghost function Deletions(files: seq<Meta>): set<string> {
    set i | 0 <= i < |files| && files[i].status == TO_BE_DELETED :: files[i].relPath
  }
  ghost predicate NoneDeleted(files: seq<Meta>) { forall i | 0 <= i < |files| :: files[i].status != TO_BE_DELETED }

  /** Once deletion is called for, every reported file the sender does not have is deleted, once; before, none is. */
  ghost predicate DeletesExtras(files: seq<Meta>, previous: map<string, Previous>, active: bool) {
    && DeletedOnce(files)
    && (if active then Deletions(files) == previous.Keys - Discovered(files) else NoneDeleted(files))
  }

  ghost predicate SameFiles(a: seq<Meta>, b: seq<Meta>) {
    |a| == |b| && forall i | 0 <= i < |a| :: a[i].relPath == b[i].relPath && a[i].size == b[i].size
  }

  /** The first `i` of the discovered files are there again. */
  ghost predicate Rebuilt(files: seq<Meta>, discovered: seq<Meta>, i: nat) {
    && |files| == i <= |discovered| && NoneDeleted(files)
    && forall j | 0 <= j < i :: files[j].relPath == discovered[j].relPath && files[j].size == discovered[j].size
  }

  lemma RebuiltMore(files: seq<Meta>, m: Meta, discovered: seq<Meta>, i: nat)
    requires i < |discovered| && Rebuilt(files, discovered, i) && m.status != TO_BE_DELETED
    requires m.relPath == discovered[i].relPath && m.size == discovered[i].size
    ensures Rebuilt(files + [m], discovered, i + 1)
  {
  }

  lemma SameDiscovered(a: seq<Meta>, b: seq<Meta>)
    requires SameFiles(a, b) && NoneDeleted(a) && NoneDeleted(b)
    ensures Discovered(a) == Discovered(b)
  {
    forall x | x in Discovered(a) ensures x in Discovered(b) {
      var i :| 0 <= i < |a| && a[i].relPath == x;
      assert b[i].relPath == x;
    }
    forall x | x in Discovered(b) ensures x in Discovered(a) {
      var i :| 0 <= i < |b| && b[i].relPath == x;
      assert a[i].relPath == x;
    }
  }

  lemma NoDeletions(files: seq<Meta>)
    requires NoneDeleted(files)
    ensures Deletions(files) == {} && DeletedOnce(files)
  {
  }

  /** Part of the way through the reported names: `names` are still to be looked at. */
  ghost predicate Deleting(files: seq<Meta>, keys: set<string>, names: set<string>, discovered: set<string>) {
    DeletedOnce(files) && names <= keys && Deletions(files) == keys - names - discovered
  }

  lemma OneNameLess(keys: set<string>, names: set<string>, discovered: set<string>, name: string)
    requires name in names && names <= keys
    ensures keys - (names - {name}) - discovered ==
            (keys - names - discovered) + (if name in discovered then {} else {name})
  {
  }

  ghost predicate DeletedOnce(files: seq<Meta>) {
    forall i, j | 0 <= i < j < |files| && files[i].status == TO_BE_DELETED && files[j].status == TO_BE_DELETED ::
      files[i].relPath != files[j].relPath
  }

  lemma DiscoveredGrows(files: seq<Meta>, m: Meta)
    requires m.status != TO_BE_DELETED
    ensures Discovered(files + [m]) == Discovered(files) + {m.relPath}
  {
    var all := files + [m];
    assert all[|files|] == m;
    forall x | x in Discovered(files) ensures x in Discovered(all) {
      var i :| 0 <= i < |files| && files[i].status != TO_BE_DELETED && files[i].relPath == x;
      assert all[i] == files[i];
    }
    assert m.relPath in Discovered(all);
  }

  lemma DeletionJoins(files: seq<Meta>, m: Meta)
    requires m.status == TO_BE_DELETED && m.relPath !in Deletions(files) && DeletedOnce(files)
    ensures Discovered(files + [m]) == Discovered(files) && Deletions(files + [m]) == Deletions(files) + {m.relPath}
    ensures DeletedOnce(files + [m])
  {
    var all := files + [m];
    assert all[|files|] == m;
    forall x | x in Discovered(files) ensures x in Discovered(all) {
      var i :| 0 <= i < |files| && files[i].status != TO_BE_DELETED && files[i].relPath == x;
      assert all[i] == files[i];
    }
    forall x | x in Deletions(files) ensures x in Deletions(all) {
      var i :| 0 <= i < |files| && files[i].status == TO_BE_DELETED && files[i].relPath == x;
      assert all[i] == files[i];
    }
    assert m.relPath in Deletions(all);
  }

  lemma NothingToSend(m: Meta, previous: map<string, Previous>, blockSize: int)
    requires AllResumable(previous) && 0 <= m.size && m.status != TO_BE_DELETED && ToSend(m, previous) == []
    ensures Contribution(m, previous, blockSize) == []
  {
  }

  lemma SendsWhatIsMissing(m: Meta, previous: map<string, Previous>, blockSize: int)
    requires AllResumable(previous) && 0 <= m.size && m.status != TO_BE_DELETED
    ensures Bytes(Contribution(m, previous, blockSize)) == TotalSize(ToSend(m, previous))
  {
    ToSendIsReal(m, previous);
    var size := EffectiveBlockSize(blockSize, m.size);
    BlocksOfAllPartition(ToSend(m, previous), size, 0);
    BytesOfPieces(m.relPath, m.seqId, BlocksOfAll(ToSend(m, previous), size));
  }

  lemma PiecesAppend(relPath: string, seqId: int, a: seq<Interval>, b: seq<Interval>)
    ensures Pieces(relPath, seqId, a + b) == Pieces(relPath, seqId, a) + Pieces(relPath, seqId, b)
  {
  }

  // ---------------------------------------------------------------- what the queue promises

  /**
   Every byte of a file is either in a range the receiver reported or in exactly one queued block, and no
   block is larger than the block size.  A file of no bytes is queued as one empty block, unless the receiver has it.
   */
  lemma {:induction false} FilePartition(m: Meta, previous: map<string, Previous>, blockSize: int, b: int)
    requires AllResumable(previous) && 0 <= m.size && m.status != TO_BE_DELETED
    ensures Proper(ToSend(m, previous))
    ensures EffectiveBlockSize(blockSize, m.size) > 0 || forall c | c in ToSend(m, previous) :: c.Size() == 0
    ensures var size := EffectiveBlockSize(blockSize, m.size);
            var have := if Reuses(m, previous) then Times(previous[m.relPath].chunks, b) else 0;
            && have + Times(BlocksOfAll(ToSend(m, previous), size), b) == (if 0 <= b < m.size then 1 else 0)
            && (forall c | c in BlocksOfAll(ToSend(m, previous), size) :: c.Size() <= size)
            && (m.size == 0 && !Reuses(m, previous) ==> BlocksOfAll(ToSend(m, previous), size) == [Interval(0, 0)])
  {
    var size, ranges := EffectiveBlockSize(blockSize, m.size), ToSend(m, previous);
    Cuttable(m, previous, blockSize);
    BlocksAreSmall(ranges, size);
    BlocksOfAllPartition(ranges, size, b);
    HaveAndSend(m, previous, b);
    if m.size == 0 { OneEmptyBlock(size); }
  }

  /** What is missing is proper, and empty if there is no block size. */
  lemma {:induction false} Cuttable(m: Meta, previous: map<string, Previous>, blockSize: int)
    requires AllResumable(previous) && 0 <= m.size
    ensures var ranges := ToSend(m, previous); Proper(ranges) && 0 <= EffectiveBlockSize(blockSize, m.size)
    ensures EffectiveBlockSize(blockSize, m.size) > 0 || forall c | c in ToSend(m, previous) :: c.Size() == 0
  {
    ToSendIsReal(m, previous);
  }

  lemma {:induction false} HaveAndSend(m: Meta, previous: map<string, Previous>, b: int)
    requires AllResumable(previous) && 0 <= m.size
    ensures (if Reuses(m, previous) then Times(previous[m.relPath].chunks, b) else 0) + Times(ToSend(m, previous), b)
            == if 0 <= b < m.size then 1 else 0
  {
    if Reuses(m, previous) {
      assert Resumable(previous[m.relPath]);
      RemainingPartitions(previous[m.relPath].chunks, m.size, b);
    } else {
      TimesOfOne(Interval(0, m.size), b);
    }
  }

  lemma {:induction false} OneEmptyBlock(size: int)
    requires 0 <= size
    ensures BlocksOfAll([Interval(0, 0)], size) == [Interval(0, 0)]
  {
    assert [Interval(0, 0)][..0] == [];
    assert [] + [Interval(0, 0)] == [Interval(0, 0)];
  }

  lemma {:induction false} BlocksAreSmall(chunks: seq<Interval>, blockSize: int)
    requires Proper(chunks) && 0 <= blockSize && (blockSize > 0 || forall c | c in chunks :: c.Size() == 0)
    ensures forall c | c in BlocksOfAll(chunks, blockSize) :: c.Size() <= blockSize
    decreases |chunks|
  {
    if chunks != [] {
      BlocksAreSmall(chunks[..|chunks| - 1], blockSize);
      assert chunks[|chunks| - 1] in chunks;
      BlocksPartition(chunks[|chunks| - 1], blockSize, 0);
    }
  }

  ghost predicate ReportedOnce(previous: map<string, Previous>) {
    forall p, q | p in previous && q in previous && previous[p].seqId == previous[q].seqId :: p == q
  }

  lemma {:induction false} PieceHasFile(files: seq<Meta>, previous: map<string, Previous>, blockSize: int, piece: Piece)
    returns (i: nat)
    requires AllResumable(previous) && Sized(files) && piece in Contributions(files, previous, blockSize)
    ensures i < |files| && files[i].relPath == piece.relPath && files[i].seqId == piece.seqId
    ensures files[i].status == TO_BE_DELETED || ToSend(files[i], previous) != []
    decreases |files|
  {
    var n := |files| - 1;
    if piece in Contributions(files[..n], previous, blockSize) {
      i := PieceHasFile(files[..n], previous, blockSize, piece);
    } else {
      assert piece in Contribution(files[n], previous, blockSize);
      i := n;
    }
  }

  /**
   With the reported ids distinct, a seq-id in the queue stands for one file, whatever mix of old and new it
   holds.
   */
  lemma {:induction false} SeqIdNamesOneFile(files: seq<Meta>, previous: map<string, Previous>, blockSize: int,
                                             firstFresh: int, nextSeqId: int, a: Piece, b: Piece)
    requires AllResumable(previous) && Sized(files) && IdsInOrder(files, previous, firstFresh, nextSeqId)
             && ReportedOnce(previous)
    requires a in Contributions(files, previous, blockSize) && b in Contributions(files, previous, blockSize)
    requires a.seqId == b.seqId
    ensures a.relPath == b.relPath
  {
    var i := PieceHasFile(files, previous, blockSize, a);
    var j := PieceHasFile(files, previous, blockSize, b);
    assert IdInOrder(files[i], previous, firstFresh, nextSeqId) && IdInOrder(files[j], previous, firstFresh, nextSeqId);
    if i < j {
      assert Ascending(files[i], files[j], previous);
    } else if j < i {
      assert Ascending(files[j], files[i], previous);
    }
  }

  /**
   Ids are meant to start at 1, and do until a list arrives; after that they start at 1 or above exactly when the
   list reported some file with a valid id.
   */
  lemma {:induction false} IdsStartAtOne(list: seq<(string, Previous)>)
    ensures NextAfter(list) >= 1 <==> exists i | 0 <= i < |list| :: list[i].1.seqId >= 0
    decreases |list|
  {
    if list != [] {
      IdsStartAtOne(list[..|list| - 1]);
      NextAfterAll(list[..|list| - 1]);
    }
  }

  /** An empty list makes 0, the id that stands for none, the id of the first file. */
  method EmptyListStartsAtZero() returns (seqId: int)
    ensures seqId == 0
  {
    var q := new DirectorySourceQueue(0, false);
    q.SetPreviouslyReceivedChunks([]);
    var m := q.CreateIntoQueue("f", 1);
    seqId := m.seqId;
  }
}
