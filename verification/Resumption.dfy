/**
 A resumed session from end to end (util/DirectorySourceQueue.cpp, util/FileCreator.cpp, util/TransferLogManager.cpp):
 the sender compares its files with the receiver's list, the receiver threads act on what each block's header says of
 its file, and the log they write is replayed behind the one the list came from.
 */
module Resumption {
  import opened Protocol
  import opened LogReplay
  import opened SessionLog
  import FileCreator
  import Q = SourceQueue

  // ---------------------------------------------------------------- what the queue says of a seq-id

  ghost predicate Distinct(files: seq<Q.Meta>) {
    forall i, j | 0 <= i < j < |files| :: files[i].relPath != files[j].relPath
  }

  /** The queue of a sender whose files have different names, against a list with different ids. */
  ghost predicate Resumed(files: seq<Q.Meta>, previous: map<string, Q.Previous>, firstFresh: int, nextSeqId: int) {
    && Q.IdsInOrder(files, previous, firstFresh, nextSeqId) && Q.AllDescribed(files, previous)
    && Q.ReportedOnce(previous) && Distinct(files)
  }

  ghost predicate At(files: seq<Q.Meta>, previous: map<string, Q.Previous>, q: int, i: nat) {
    i < |files| && files[i].seqId == q && Q.Queued(files[i], previous)
  }
  ghost predicate Sends(files: seq<Q.Meta>, previous: map<string, Q.Previous>, q: int) {
    exists i: nat :: At(files, previous, q, i)
  }
  ghost predicate Reported(previous: map<string, Q.Previous>, q: int) {
    exists p :: p in previous && previous[p].seqId == q
  }

  /** A seq-id stands for one queued file. */
  lemma OneFile(files: seq<Q.Meta>, previous: map<string, Q.Previous>, firstFresh: int, nextSeqId: int, q: int,
                i: nat, j: nat)
    requires Resumed(files, previous, firstFresh, nextSeqId) && At(files, previous, q, i) && At(files, previous, q, j)
    ensures i == j
  {
    assert Q.IdInOrder(files[i], previous, firstFresh, nextSeqId);
    assert Q.IdInOrder(files[j], previous, firstFresh, nextSeqId);
    assert i < j ==> Q.Ascending(files[i], files[j], previous);
    assert j < i ==> Q.Ascending(files[j], files[i], previous);
  }

  ghost function MetaOf(files: seq<Q.Meta>, previous: map<string, Q.Previous>, q: int): Q.Meta
    requires Sends(files, previous, q)
  {
    var i: nat :| At(files, previous, q, i);
    files[i]
  }

  /** Allocation status and old id as the headers of the blocks with seq-id `q` carry them. */
  ghost function KindsOf(files: seq<Q.Meta>, previous: map<string, Q.Previous>): FileCreator.Kinds {
    (q: int) => if Sends(files, previous, q) then MetaOf(files, previous, q).status else EXISTS_CORRECT_SIZE
  }
  ghost function PrevOf(files: seq<Q.Meta>, previous: map<string, Q.Previous>): int -> int {
    (q: int) => if Sends(files, previous, q) then MetaOf(files, previous, q).prevSeqId else 0
  }

  /** Every queued block of a file goes with what the functions say of its seq-id. */
  lemma KindsAre(files: seq<Q.Meta>, previous: map<string, Q.Previous>, blockSize: int, firstFresh: int, nextSeqId: int,
                 piece: Q.Piece) returns (i: nat)
    requires Resumed(files, previous, firstFresh, nextSeqId) && Q.AllResumable(previous) && Q.Sized(files)
    requires piece in Q.Contributions(files, previous, blockSize)
    ensures At(files, previous, piece.seqId, i) && files[i].relPath == piece.relPath
    ensures KindsOf(files, previous)(piece.seqId) == files[i].status
    ensures PrevOf(files, previous)(piece.seqId) == files[i].prevSeqId
  {
    i := Q.PieceHasFile(files, previous, blockSize, piece);
    assert At(files, previous, piece.seqId, i);
    forall j: nat | At(files, previous, piece.seqId, j) ensures i == j {
      OneFile(files, previous, firstFresh, nextSeqId, piece.seqId, i, j);
    }
  }

  /**
   For a seq-id the sender uses: its file is a new one to the receiver's log, missing or too large there, exactly if
   the id was not reported; and the old id of a file too large there was reported, for that file, and is not used.
   */
  lemma KindsTell(files: seq<Q.Meta>, previous: map<string, Q.Previous>, firstFresh: int, nextSeqId: int, q: int)
    requires Resumed(files, previous, firstFresh, nextSeqId) && Sends(files, previous, q)
    ensures var kinds, prev, m := KindsOf(files, previous), PrevOf(files, previous), MetaOf(files, previous, q);
            && (Newly(kinds, q) <==> !Reported(previous, q))
            && (kinds(q) == EXISTS_TOO_LARGE ==>
                  && m.relPath in previous && m.size < previous[m.relPath].fileSize
                  && prev(q) == previous[m.relPath].seqId && !Sends(files, previous, prev(q)))
            && (kinds(q) == EXISTS_TOO_SMALL ==>
                  && m.relPath in previous && q == previous[m.relPath].seqId && previous[m.relPath].fileSize < m.size)
  {
    var m := MetaOf(files, previous, q);
    var i: nat :| At(files, previous, q, i) && files[i] == m;
    assert Q.IdInOrder(m, previous, firstFresh, nextSeqId) && Q.Described(m, previous);
    if m.status == EXISTS_TOO_LARGE {
      forall j: nat ensures !At(files, previous, m.prevSeqId, j) {
        assert j < |files| ==> Q.IdInOrder(files[j], previous, firstFresh, nextSeqId);
      }
    }
  }

  // ---------------------------------------------------------------- where log entries come from

  /** Blocks come with the ids the sender uses. */
  ghost predicate TakesOnly(actions: seq<FileCreator.Action>, uses: int -> bool) {
    forall i | 0 <= i < |actions| && actions[i].TakeBlock? :: uses(actions[i].q)
  }

  ghost predicate PhaseFrom(kinds: FileCreator.Kinds, uses: int -> bool, p: FileCreator.Phase) {
    || p.Idle? || p.Stop?
    || (uses(p.q) && (p.Allocate? || p.Log? ==> FileCreator.Creates(kinds, p.q)))
  }
  ghost predicate ThreadFrom(kinds: FileCreator.Kinds, uses: int -> bool, t: FileCreator.Thread) {
    PhaseFrom(kinds, uses, t.phase) && forall q | q in t.waiting :: uses(q)
  }
  ghost predicate EntryFrom(kinds: FileCreator.Kinds, prev: int -> int, uses: int -> bool, e: FileCreator.LogEntry) {
    match e
    case Creation(q) => uses(q) && Newly(kinds, q)
    case Resize(q) => uses(q) && FileCreator.Creates(kinds, q) && !Newly(kinds, q)
    case BlockWrite(q) => uses(q) && kinds(q) != TO_BE_DELETED
    case Invalidation(p) => (uses(p) && kinds(p) == TO_BE_DELETED) || OldIdOf(kinds, prev, uses, p)
  }
  ghost predicate OldIdOf(kinds: FileCreator.Kinds, prev: int -> int, uses: int -> bool, p: int) {
    exists q :: uses(q) && kinds(q) == EXISTS_TOO_LARGE && prev(q) == p
  }
  ghost predicate AllFrom(kinds: FileCreator.Kinds, prev: int -> int, uses: int -> bool,
                          log: seq<FileCreator.LogEntry>) {
    forall i | 0 <= i < |log| :: EntryFrom(kinds, prev, uses, log[i])
  }
  ghost predicate ThreadsFrom(kinds: FileCreator.Kinds, uses: int -> bool, threads: seq<FileCreator.Thread>) {
    forall k | 0 <= k < |threads| :: ThreadFrom(kinds, uses, threads[k])
  }

  lemma SimpleFrom(kinds: FileCreator.Kinds, uses: int -> bool, s: FileCreator.Sys, a: FileCreator.Action)
    requires FileCreator.Enabled(s, a) && ThreadFrom(kinds, uses, s.threads[a.k]) && FileCreator.Simple(a)
    requires a.TakeBlock? ==> uses(a.q)
    ensures ThreadFrom(kinds, uses, FileCreator.Moved(s, a))
  {
  }

  lemma OtherFrom(kinds: FileCreator.Kinds, prev: int -> int, uses: int -> bool, s: FileCreator.Sys,
                  a: FileCreator.Action)
    requires FileCreator.Enabled(s, a) && ThreadFrom(kinds, uses, s.threads[a.k]) && !FileCreator.Simple(a)
    ensures a.k < |FileCreator.Next(kinds, prev, s, a).threads|
    ensures ThreadFrom(kinds, uses, FileCreator.Next(kinds, prev, s, a).threads[a.k])
  {
    FileCreator.OtherMoved(kinds, prev, s, a);
    if a.Lookup? { LookupFrom(kinds, uses, s, a.k, a.opens); }
  }

  lemma LookupFrom(kinds: FileCreator.Kinds, uses: int -> bool, s: FileCreator.Sys, k: nat, opens: bool)
    requires k < |s.threads| && s.threads[k].phase.Open? && ThreadFrom(kinds, uses, s.threads[k])
    ensures ThreadFrom(kinds, uses, FileCreator.DoLookup(kinds, s, k, opens).threads[k])
  {
  }

  lemma StepThreads(kinds: FileCreator.Kinds, prev: int -> int, uses: int -> bool, s: FileCreator.Sys,
                    a: FileCreator.Action)
    requires FileCreator.Enabled(s, a) && ThreadsFrom(kinds, uses, s.threads) && (a.TakeBlock? ==> uses(a.q))
    ensures ThreadsFrom(kinds, uses, FileCreator.Next(kinds, prev, s, a).threads)
  {
    var s' := FileCreator.Next(kinds, prev, s, a);
    if FileCreator.Simple(a) {
      FileCreator.SimpleShape(kinds, prev, s, a);
      SimpleFrom(kinds, uses, s, a);
    } else {
      FileCreator.OthersMoved(kinds, prev, s, a, a.k);
      OtherFrom(kinds, prev, uses, s, a);
      forall j | 0 <= j < |s'.threads| && j != a.k ensures ThreadFrom(kinds, uses, s'.threads[j]) {
        FileCreator.OthersMoved(kinds, prev, s, a, j);
      }
    }
  }

  lemma StepEntries(kinds: FileCreator.Kinds, prev: int -> int, uses: int -> bool, s: FileCreator.Sys,
                    a: FileCreator.Action)
    requires FileCreator.Enabled(s, a) && ThreadsFrom(kinds, uses, s.threads) && AllFrom(kinds, prev, uses, s.log)
    ensures AllFrom(kinds, prev, uses, FileCreator.Next(kinds, prev, s, a).log)
  {
    FileCreator.LogShape(kinds, prev, s, a);
    assert ThreadFrom(kinds, uses, s.threads[a.k]);
  }

  lemma {:induction false} RunFrom(kinds: FileCreator.Kinds, prev: int -> int, uses: int -> bool, s: FileCreator.Sys,
                                   actions: seq<FileCreator.Action>)
    requires FileCreator.Run(kinds, prev, s, actions) && TakesOnly(actions, uses)
    requires ThreadsFrom(kinds, uses, s.threads) && AllFrom(kinds, prev, uses, s.log)
    ensures AllFrom(kinds, prev, uses, FileCreator.After(kinds, prev, s, actions).log)
    decreases |actions|
  {
    if actions != [] {
      StepThreads(kinds, prev, uses, s, actions[0]);
      StepEntries(kinds, prev, uses, s, actions[0]);
      RunFrom(kinds, prev, uses, FileCreator.Next(kinds, prev, s, actions[0]), actions[1..]);
    }
  }

  // ---------------------------------------------------------------- the session's log behind the earlier one

  /** The list names exactly the files of the earlier log, none smaller than on record. */
  ghost predicate Lists(previous: map<string, Q.Previous>, s0: State) {
    && (forall q: int :: Reported(previous, q) <==> q in s0.files) && s0.invalid == {}
    && (forall p | p in previous ::
          previous[p].seqId in s0.sizes && s0.sizes[previous[p].seqId] <= previous[p].fileSize)
  }

  /** Entries say the sizes the sender has, and files are on disk as they were sized. */
  ghost predicate OnDisk(files: seq<Q.Meta>, previous: map<string, Q.Previous>, s0: State, d: Details, u: Setup, q: int)
    requires Sends(files, previous, q)
  {
    && d.size(q) == MetaOf(files, previous, q).size
    && (Newly(KindsOf(files, previous), q) ==>
          d.name(q) in u.disk && (u.preallocate ==> u.disk[d.name(q)] >= d.size(q)))
    && (q in s0.files && u.preallocate ==> d.size(q) <= s0.files[q].diskSize)
  }

  lemma EntryAgrees(files: seq<Q.Meta>, previous: map<string, Q.Previous>, firstFresh: int, nextSeqId: int,
                    e: FileCreator.LogEntry, s0: State, d: Details, u: Setup)
    requires Resumed(files, previous, firstFresh, nextSeqId) && Lists(previous, s0)
    requires forall q: int | Sends(files, previous, q) :: OnDisk(files, previous, s0, d, u, q)
    requires EntryFrom(KindsOf(files, previous), PrevOf(files, previous), (q: int) => Sends(files, previous, q), e)
    ensures Agrees(KindsOf(files, previous), e, s0, d, u)
  {
    var kinds, prev := KindsOf(files, previous), PrevOf(files, previous);
    if Sends(files, previous, e.q) { KindsTell(files, previous, firstFresh, nextSeqId, e.q); }
    if e.Invalidation? && !Sends(files, previous, e.q) {
      var q :| Sends(files, previous, q) && kinds(q) == EXISTS_TOO_LARGE && prev(q) == e.q;
      KindsTell(files, previous, firstFresh, nextSeqId, q);
      assert Reported(previous, e.q);
    }
  }

  lemma LogApart(files: seq<Q.Meta>, previous: map<string, Q.Previous>, firstFresh: int, nextSeqId: int,
                 log: seq<FileCreator.LogEntry>)
    requires Resumed(files, previous, firstFresh, nextSeqId)
    requires AllFrom(KindsOf(files, previous), PrevOf(files, previous), (q: int) => Sends(files, previous, q), log)
    ensures Apart(log)
  {
    var kinds, prev := KindsOf(files, previous), PrevOf(files, previous);
    var uses := (q: int) => Sends(files, previous, q);
    forall i, j | 0 <= i < |log| && 0 <= j < |log| && !log[i].Invalidation? && log[j].Invalidation?
      ensures log[j].q != log[i].q
    {
      assert EntryFrom(kinds, prev, uses, log[i]) && EntryFrom(kinds, prev, uses, log[j]);
      if kinds(log[j].q) != TO_BE_DELETED {
        var q :| uses(q) && kinds(q) == EXISTS_TOO_LARGE && prev(q) == log[j].q;
        KindsTell(files, previous, firstFresh, nextSeqId, q);
      }
    }
  }

  lemma LogAgrees(files: seq<Q.Meta>, previous: map<string, Q.Previous>, firstFresh: int, nextSeqId: int,
                  log: seq<FileCreator.LogEntry>, s0: State, d: Details, u: Setup)
    requires Resumed(files, previous, firstFresh, nextSeqId) && Lists(previous, s0)
    requires forall q: int | Sends(files, previous, q) :: OnDisk(files, previous, s0, d, u, q)
    requires AllFrom(KindsOf(files, previous), PrevOf(files, previous), (q: int) => Sends(files, previous, q), log)
    ensures AllAgree(KindsOf(files, previous), log, s0, d, u)
  {
    LogApart(files, previous, firstFresh, nextSeqId, log);
    forall i | 0 <= i < |log| ensures Agrees(KindsOf(files, previous), log[i], s0, d, u) {
      EntryAgrees(files, previous, firstFresh, nextSeqId, log[i], s0, d, u);
    }
  }

  /**
   A sender that has compared its files with the list of what the earlier log says, and receiver threads that act on its
   headers, in any interleaving: the earlier log is believed with the session's behind it if and only if no file that is
   missing or too large at the receiver was missed in the log with a block of it logged, and no file was invalidated
   twice.  Then it says of every file not invalidated exactly the earlier ranges and the blocks logged for it.
   */
  lemma {:induction false} ResumedSession(files: seq<Q.Meta>, previous: map<string, Q.Previous>, firstFresh: int,
                                          nextSeqId: int, start: FileCreator.Sys, actions: seq<FileCreator.Action>,
                                          s0: State, d: Details, u: Setup)
    requires Resumed(files, previous, firstFresh, nextSeqId) && Lists(previous, s0)
    requires s0.status == OK && s0.headerParsed && FileCreator.Begins(start)
    requires FileCreator.Run(KindsOf(files, previous), PrevOf(files, previous), start, actions)
    requires TakesOnly(actions, (q: int) => Sends(files, previous, q))
    requires forall q: int | Sends(files, previous, q) :: OnDisk(files, previous, s0, d, u, q)
    requires var log := FileCreator.After(KindsOf(files, previous), PrevOf(files, previous), start, actions).log;
             Writable(log, d) && BlocksFit(log, s0, d, u)
    ensures var end := FileCreator.After(KindsOf(files, previous), PrevOf(files, previous), start, actions);
            var s := Replay(s0, Bodies(end.log, d), u);
            && (s.status == OK <==>
                  && (forall q: int ::
                        FileCreator.BlockWrite(q) in end.log && !Reported(previous, q) ==> q !in end.missed)
                  && DroppedOnce(end.log))
            && (s.status == OK ==> AllBelieved(s, s0, end.log, d, u))
  {
    var kinds, prev := KindsOf(files, previous), PrevOf(files, previous);
    var uses := (q: int) => Sends(files, previous, q);
    var end := FileCreator.After(kinds, prev, start, actions);
    RunFrom(kinds, prev, uses, start, actions);
    LogAgrees(files, previous, firstFresh, nextSeqId, end.log, s0, d, u);
    SessionReplays(kinds, prev, start, actions, s0, d, u);
    NewIffUnreported(files, previous, firstFresh, nextSeqId, end.log);
  }

  lemma NewIffUnreported(files: seq<Q.Meta>, previous: map<string, Q.Previous>, firstFresh: int, nextSeqId: int,
                         log: seq<FileCreator.LogEntry>)
    requires Resumed(files, previous, firstFresh, nextSeqId)
    requires AllFrom(KindsOf(files, previous), PrevOf(files, previous), (q: int) => Sends(files, previous, q), log)
    ensures forall q: int | FileCreator.BlockWrite(q) in log ::
              Newly(KindsOf(files, previous), q) <==> !Reported(previous, q)
  {
    var kinds, prev := KindsOf(files, previous), PrevOf(files, previous);
    forall q: int | FileCreator.BlockWrite(q) in log ensures Newly(kinds, q) <==> !Reported(previous, q) {
      var i :| 0 <= i < |log| && log[i] == FileCreator.BlockWrite(q);
      assert EntryFrom(kinds, prev, (q: int) => Sends(files, previous, q), log[i]);
      KindsTell(files, previous, firstFresh, nextSeqId, q);
    }
  }
}
