/**
 Lists of byte ranges already received for a file: merging them, finding what is missing, and cutting
 what is missing into blocks (Protocol.h, Protocol.cpp, util/DirectorySourceQueue.cpp).

 A range is half open.  Two ranges are joined when they overlap or merely touch, so the coverage that
 merging keeps is stated on doubled coordinates: the even points are the offsets between bytes, the
 odd point 2b + 1 is byte b.
 */
module Chunks {

  datatype Interval = Interval(start: int, end: int) {
    function Size(): int { end - start }
    /** Doubled coordinate `x` lies on this range. */
    predicate Has(x: int) { 2 * start <= x <= 2 * end }
  }

  ghost predicate Proper(s: seq<Interval>) { forall c | c in s :: c.start <= c.end }

  ghost predicate Covered(s: seq<Interval>, x: int) { exists i | 0 <= i < |s| :: s[i].Has(x) }

  ghost predicate Sorted(s: seq<Interval>) { forall i, j | 0 <= i < j < |s| :: s[i].start <= s[j].start }

  /** Increasing with a gap between neighbours: the shape of a merged list. */
  ghost predicate Separated(s: seq<Interval>) {
    Proper(s) && forall i, j | 0 <= i < j < |s| :: s[i].end < s[j].start
  }

  ghost predicate SameCoverage(s: seq<Interval>, t: seq<Interval>) {
    forall x :: Covered(s, x) <==> Covered(t, x)
  }

  // ---------------------------------------------------------------- merging

  lemma HeadStartsEarliest(s: seq<Interval>, t: seq<Interval>)
    requires Separated(s) && Separated(t) && SameCoverage(s, t) && s != []
    ensures t != [] && t[0].start <= s[0].start
  {
    assert s[0].Has(2 * s[0].start);
    assert Covered(t, 2 * s[0].start);
  }

  lemma HeadEndsLatest(s: seq<Interval>, t: seq<Interval>)
    requires Separated(s) && Separated(t) && SameCoverage(s, t)
    requires s != [] && t != [] && s[0].start == t[0].start
    ensures t[0].end <= s[0].end
  {
    if s[0].end < t[0].end {
      var x := 2 * s[0].end + 1;
      forall i | 0 <= i < |s| ensures !s[i].Has(x) {
        if i > 0 { assert s[0].end < s[i].start; }
      }
      assert !Covered(s, x);
      assert t[0].Has(x);
    }
  }

  lemma TailCoverage(s: seq<Interval>, x: int)
    requires Separated(s) && s != []
    ensures Covered(s[1..], x) <==> Covered(s, x) && x > 2 * s[0].end
  {
    var t := s[1..];
    if Covered(t, x) {
      var i :| 0 <= i < |t| && t[i].Has(x);
      assert s[i + 1].Has(x);
    }
    if Covered(s, x) && x > 2 * s[0].end {
      var i :| 0 <= i < |s| && s[i].Has(x);
      assert i > 0 && t[i - 1].Has(x);
    }
  }

  /** A separated list is determined by what it covers, so merging has only one possible answer. */
  lemma {:induction false} SeparatedIsCanonical(s: seq<Interval>, t: seq<Interval>)
    requires Separated(s) && Separated(t) && SameCoverage(s, t)
    ensures s == t
    decreases |s|
  {
    if s == [] {
      if t != [] { HeadStartsEarliest(t, s); }
    } else {
      HeadStartsEarliest(s, t);
      HeadStartsEarliest(t, s);
      HeadEndsLatest(s, t);
      HeadEndsLatest(t, s);
      assert SameCoverage(s[1..], t[1..]) by {
        forall x ensures Covered(s[1..], x) <==> Covered(t[1..], x) {
          TailCoverage(s, x);
          TailCoverage(t, x);
        }
      }
      SeparatedIsCanonical(s[1..], t[1..]);
      assert s == [s[0]] + s[1..] && t == [t[0]] + t[1..];
    }
  }

  lemma CoveredByParts(a: seq<Interval>, b: seq<Interval>, x: int)
    ensures Covered(a + b, x) <==> Covered(a, x) || Covered(b, x)
  {
    var c := a + b;
    if Covered(a, x) { var i :| 0 <= i < |a| && a[i].Has(x); assert c[i].Has(x); }
    if Covered(b, x) { var i :| 0 <= i < |b| && b[i].Has(x); assert c[|a| + i].Has(x); }
  }

  lemma CoveredByOne(c: Interval, x: int)
    ensures Covered([c], x) <==> c.Has(x)
  {
    if c.Has(x) { assert [c][0].Has(x); }
  }

  lemma PermutedCoverage(s: seq<Interval>, t: seq<Interval>)
    requires multiset(s) == multiset(t)
    ensures SameCoverage(s, t)
    ensures Proper(s) ==> Proper(t)
  {
    assert forall c :: c in s <==> c in multiset(s);
    assert forall c :: c in t <==> c in multiset(t);
    forall x ensures Covered(s, x) <==> Covered(t, x) {
      PermutedOneWay(s, t, x);
      PermutedOneWay(t, s, x);
    }
  }

  lemma PermutedOneWay(s: seq<Interval>, t: seq<Interval>, x: int)
    requires multiset(s) == multiset(t)
    ensures Covered(s, x) ==> Covered(t, x)
  {
    if Covered(s, x) {
      var i :| 0 <= i < |s| && s[i].Has(x);
      assert s[i] in multiset(s) && s[i] in multiset(t);
      assert s[i] in t;
      var j :| 0 <= j < |t| && t[j] == s[i];
    }
  }

  /** The list built so far, the range being grown, and what it has absorbed: invariant of the merge loop. */
  ghost predicate Merging(done: seq<Interval>, cur: Interval, seen: seq<Interval>) {
    && Separated(done + [cur])
    && SameCoverage(done + [cur], seen)
  }

  lemma MergeJoins(done: seq<Interval>, cur: Interval, seen: seq<Interval>, next: Interval)
    requires Merging(done, cur, seen) && next.start <= next.end
    requires cur.start <= next.start <= cur.end
    ensures Merging(done, Interval(cur.start, Max(cur.end, next.end)), seen + [next])
  {
    var grown := Interval(cur.start, Max(cur.end, next.end));
    var before, after := done + [cur], done + [grown];
    assert before[|done|] == cur;
    forall i | 0 <= i < |done| ensures done[i].end < grown.start { assert before[i] == done[i]; }
    assert Separated(after) by {
      forall i, j | 0 <= i < j < |after| ensures after[i].end < after[j].start {
        assert before[i].end < before[j].start;
      }
      forall c | c in after ensures c.start <= c.end { assert c == grown || c in before; }
    }
    forall x ensures Covered(after, x) <==> Covered(seen + [next], x) {
      CoveredByParts(done, [cur], x);
      CoveredByParts(done, [grown], x);
      CoveredByParts(seen, [next], x);
      CoveredByOne(cur, x);
      CoveredByOne(grown, x);
      CoveredByOne(next, x);
      assert grown.Has(x) <==> cur.Has(x) || next.Has(x);
      assert Covered(before, x) <==> Covered(seen, x);
    }
  }

  lemma MergeMovesOn(done: seq<Interval>, cur: Interval, seen: seq<Interval>, next: Interval)
    requires Merging(done, cur, seen) && next.start <= next.end
    requires cur.end < next.start
    ensures Merging(done + [cur], next, seen + [next])
  {
    var before := done + [cur];
    var after := before + [next];
    assert Separated(after) by {
      assert before[|done|] == cur;
      forall i, j | 0 <= i < j < |after| ensures after[i].end < after[j].start {
        if j < |before| { assert before[i].end < before[j].start; }
        else if i < |done| { assert before[i].end < before[|done|].start <= cur.end; }
      }
      forall c | c in after ensures c.start <= c.end { assert c == next || c in before; }
    }
    forall x ensures Covered(after, x) <==> Covered(seen + [next], x) {
      CoveredByParts(before, [next], x);
      CoveredByParts(seen, [next], x);
    }
  }

  function Max(a: int, b: int): int { if a < b then b else a }
  function Min(a: int, b: int): int { if a < b then a else b }

  lemma InsertKeepsSorted(r: seq<Interval>, k: nat, c: Interval)
    requires Sorted(r) && k <= |r|
    requires k > 0 ==> r[k - 1].start <= c.start
    requires k < |r| ==> c.start <= r[k].start
    ensures Sorted(r[..k] + [c] + r[k..])
  {
    var t := r[..k] + [c] + r[k..];
    forall i, j | 0 <= i < j < |t| ensures t[i].start <= t[j].start {
      var before, after := if i < k then r[i] else if i == k then c else r[i - 1],
                           if j < k then r[j] else if j == k then c else r[j - 1];
      assert t[i] == before && t[j] == after;
      if i < k { assert before.start <= r[k - 1].start; }
      if j > k { assert r[k].start <= after.start; }
    }
  }

  lemma InsertAddsOne(r: seq<Interval>, k: nat, c: Interval)
    requires k <= |r|
    ensures multiset(r[..k] + [c] + r[k..]) == multiset(r) + multiset{c}
  {
    assert r == r[..k] + r[k..];
  }

  /** std::sort with operator<, which compares starts only and may leave ties in any order. */
  method SortByStart(s: seq<Interval>) returns (r: seq<Interval>)
    ensures multiset(r) == multiset(s) && Sorted(r)
  {
    r := [];
    for i := 0 to |s|
      invariant multiset(r) == multiset(s[..i]) && Sorted(r)
    {
      var k := |r|;
      while k > 0 && r[k - 1].start > s[i].start
        invariant 0 <= k <= |r|
        invariant k < |r| ==> r[k].start > s[i].start
      {
        k := k - 1;
      }
      InsertKeepsSorted(r, k, s[i]);
      InsertAddsOne(r, k, s[i]);
      assert s[..i + 1] == s[..i] + [s[i]];
      r := r[..k] + [s[i]] + r[k..];
    }
    assert s[..|s|] == s;
  }

  /** FileChunksInfo: a file and the ranges of it that arrived. */
  class FileChunksInfo {
    var seqId: int
    var fileName: string
    var fileSize: int
    var chunks: seq<Interval>

    constructor (seqId: int, fileName: string, fileSize: int)
      ensures this.seqId == seqId && this.fileName == fileName && this.fileSize == fileSize && chunks == []
    {
      this.seqId, this.fileName, this.fileSize, this.chunks := seqId, fileName, fileSize, [];
    }

    method AddChunk(chunk: Interval)
      requires chunk.start <= chunk.end
      modifies `chunks
      ensures chunks == old(chunks) + [chunk]
    {
      chunks := chunks + [chunk];
    }

    /** Afterwards the list is separated and covers what it covered before, whatever order ties were sorted in. */
    method MergeChunks()
      requires Proper(chunks)
      modifies `chunks
      ensures Separated(chunks) && SameCoverage(chunks, old(chunks))
    {
      chunks := MergeList(chunks);
    }

    /** Bytes in the list; with a separated list, every covered byte counts once. */
    method GetTotalChunkSize() returns (total: int)
      ensures total == TotalSize(chunks)
    {
      total := 0;
      for i := 0 to |chunks|
        invariant total == TotalSize(chunks[..i])
      {
        assert chunks[..i + 1][..i] == chunks[..i];
        total := total + chunks[i].Size();
      }
      assert chunks[..|chunks|] == chunks;
    }

    method GetRemainingChunks(curFileSize: int) returns (remaining: seq<Interval>)
      ensures remaining == Remaining(chunks, curFileSize)
    {
      remaining := RemainingChunks(chunks, curFileSize);
    }
  }

  method RemainingChunks(chunks: seq<Interval>, curFileSize: int) returns (remaining: seq<Interval>)
    ensures remaining == Remaining(chunks, curFileSize)
  {
    remaining := [];
    var curStart := 0;
    for i := 0 to |chunks|
      invariant remaining == GapsBefore(chunks[..i]) && curStart == EndOf(chunks[..i])
    {
      assert chunks[..i + 1][..i] == chunks[..i];
      if chunks[i].start > curStart {
        remaining := remaining + [Interval(curStart, chunks[i].start)];
      }
      curStart := chunks[i].end;
    }
    assert chunks[..|chunks|] == chunks;
    if curStart < curFileSize {
      remaining := remaining + [Interval(curStart, curFileSize)];
    }
  }

  method MergeList(chunks: seq<Interval>) returns (merged: seq<Interval>)
    requires Proper(chunks)
    ensures Separated(merged) && SameCoverage(merged, chunks)
  {
    if chunks == [] {
      return [];
    }
    var sorted := SortByStart(chunks);
    PermutedCoverage(chunks, sorted);
    assert |sorted| == |multiset(chunks)| == |chunks|;
    merged := MergeSorted(sorted);
    forall x ensures Covered(merged, x) <==> Covered(chunks, x) {
      assert Covered(sorted, x) <==> Covered(chunks, x);
      assert Covered(merged, x) <==> Covered(sorted, x);
    }
  }

  method MergeSorted(sorted: seq<Interval>) returns (merged: seq<Interval>)
    requires sorted != [] && Sorted(sorted) && Proper(sorted)
    ensures Separated(merged) && SameCoverage(merged, sorted)
  {
    merged := [];
    var cur := sorted[0];
    assert [] + [cur] == sorted[..1];
    for i := 1 to |sorted|
      invariant Merging(merged, cur, sorted[..i])
      invariant exists k | 0 <= k < i :: sorted[k].start == cur.start
    {
      var next := sorted[i];
      assert sorted[..i + 1] == sorted[..i] + [next];
      assert next in sorted;
      if next.start > cur.end {
        MergeMovesOn(merged, cur, sorted[..i], next);
        merged := merged + [cur];
        cur := next;
      } else {
        MergeJoins(merged, cur, sorted[..i], next);
        cur := Interval(cur.start, Max(cur.end, next.end));
      }
    }
    assert sorted[..|sorted|] == sorted;
    merged := merged + [cur];
  }

  // ---------------------------------------------------------------- what is missing

  ghost function TotalSize(s: seq<Interval>): int {
    if s == [] then 0 else TotalSize(s[..|s| - 1]) + s[|s| - 1].Size()
  }

  ghost function EndOf(s: seq<Interval>): int { if s == [] then 0 else s[|s| - 1].end }

  /** The gaps in front of each listed range. */
  ghost function GapsBefore(s: seq<Interval>): seq<Interval> {
    if s == [] then []
    else
      var front, last := s[..|s| - 1], s[|s| - 1];
      GapsBefore(front) + (if last.start > EndOf(front) then [Interval(EndOf(front), last.start)] else [])
  }

  ghost function Remaining(s: seq<Interval>, size: int): seq<Interval> {
    GapsBefore(s) + (if EndOf(s) < size then [Interval(EndOf(s), size)] else [])
  }

  /** How many of the listed ranges hold byte b. */
  ghost function Times(s: seq<Interval>, b: int): nat {
    if s == [] then 0 else Times(s[..|s| - 1], b) + (if s[|s| - 1].start <= b < s[|s| - 1].end then 1 else 0)
  }

  lemma {:induction false} TimesByParts(s: seq<Interval>, t: seq<Interval>, b: int)
    ensures Times(s + t, b) == Times(s, b) + Times(t, b)
    decreases |t|
  {
    if t == [] {
      assert s + t == s;
    } else {
      var front := t[..|t| - 1];
      TimesByParts(s, front, b);
      assert (s + t)[..|s + t| - 1] == s + front;
    }
  }

  lemma {:induction false} TotalByParts(s: seq<Interval>, t: seq<Interval>)
    ensures TotalSize(s + t) == TotalSize(s) + TotalSize(t)
    decreases |t|
  {
    if t == [] {
      assert s + t == s;
    } else {
      var front := t[..|t| - 1];
      TotalByParts(s, front);
      assert (s + t)[..|s + t| - 1] == s + front;
    }
  }

  lemma {:induction false} TimesOfOne(c: Interval, b: int)
    ensures Times([c], b) == if c.start <= b < c.end then 1 else 0
    ensures TotalSize([c]) == c.Size()
  {
    assert [c][..0] == [];
  }

  lemma SeparatedFront(s: seq<Interval>)
    requires Separated(s) && s != []
    ensures Separated(s[..|s| - 1])
    ensures s[|s| - 1].start <= s[|s| - 1].end
    ensures |s| > 1 ==> EndOf(s[..|s| - 1]) < s[|s| - 1].start
  {
    var front := s[..|s| - 1];
    forall c | c in front ensures c.start <= c.end { assert c in s; }
    assert s[|s| - 1] in s;
  }

  /** Gaps and chunks together hold every byte up to the last chunk exactly once, and nothing else. */
  lemma {:induction false} GapsComplement(s: seq<Interval>, b: int)
    requires Separated(s) && (s != [] ==> 0 <= s[0].start)
    ensures 0 <= EndOf(s)
    ensures Times(s, b) + Times(GapsBefore(s), b) == if 0 <= b < EndOf(s) then 1 else 0
    ensures TotalSize(s) + TotalSize(GapsBefore(s)) == EndOf(s)
    decreases |s|
  {
    if s != [] {
      var front, last := s[..|s| - 1], s[|s| - 1];
      SeparatedFront(s);
      GapsComplement(front, b);
      if last.start > EndOf(front) {
        var gap := Interval(EndOf(front), last.start);
        TimesByParts(GapsBefore(front), [gap], b);
        TotalByParts(GapsBefore(front), [gap]);
        TimesOfOne(gap, b);
      } else {
        assert GapsBefore(s) == GapsBefore(front);
      }
    }
  }

  /** The received ranges and the missing ones partition the file. */
  lemma {:induction false} RemainingPartitions(s: seq<Interval>, size: int, b: int)
    requires Separated(s) && (s != [] ==> 0 <= s[0].start) && 0 <= size && EndOf(s) <= size
    ensures Times(s, b) + Times(Remaining(s, size), b) == if 0 <= b < size then 1 else 0
    ensures TotalSize(s) + TotalSize(Remaining(s, size)) == size
  {
    GapsComplement(s, b);
    if EndOf(s) < size {
      var last := Interval(EndOf(s), size);
      TimesByParts(GapsBefore(s), [last], b);
      TotalByParts(GapsBefore(s), [last]);
      TimesOfOne(last, b);
    } else {
      assert Remaining(s, size) == GapsBefore(s);
    }
  }

  /** Nothing is reported missing that is empty, and nothing past the end of the file. */
  lemma {:induction false} RemainingAreReal(s: seq<Interval>, size: int)
    requires Separated(s) && (s != [] ==> 0 <= s[0].start) && EndOf(s) <= size
    ensures forall c | c in Remaining(s, size) :: 0 <= c.start < c.end <= size
    decreases |s|
  {
    GapsAreReal(s);
  }

  lemma {:induction false} GapsAreReal(s: seq<Interval>)
    requires Separated(s) && (s != [] ==> 0 <= s[0].start)
    ensures 0 <= EndOf(s)
    ensures forall c | c in GapsBefore(s) :: 0 <= c.start < c.end <= EndOf(s)
    decreases |s|
  {
    if s != [] {
      SeparatedFront(s);
      GapsAreReal(s[..|s| - 1]);
    }
  }

  // ---------------------------------------------------------------- cutting into blocks

  ghost function Blocks(chunk: Interval, blockSize: int): seq<Interval>
    requires chunk.start <= chunk.end && (blockSize > 0 || chunk.Size() == 0)
    decreases chunk.Size()
  {
    if chunk.Size() <= blockSize then [chunk]
    else if chunk.Size() == 0 then [chunk]
    else
      var cut := chunk.start + blockSize;
      [Interval(chunk.start, cut)] + Blocks(Interval(cut, chunk.end), blockSize)
  }

  /** The do-while loop of createIntoQueueInternal: at least one block, even for an empty range. */
  method CutIntoBlocks(chunk: Interval, blockSize: int) returns (blocks: seq<Interval>)
    requires chunk.start <= chunk.end && 0 <= blockSize && (blockSize > 0 || chunk.Size() == 0)
    ensures blocks == Blocks(chunk, blockSize)
  {
    var offset, remaining := chunk.start, chunk.Size();
    var size := Min(remaining, blockSize);
    blocks := [Interval(offset, offset + size)];
    remaining, offset := remaining - size, offset + size;
    while remaining > 0
      invariant 0 <= remaining && offset + remaining == chunk.end
      invariant Blocks(chunk, blockSize) ==
                if remaining == 0 then blocks else blocks + Blocks(Interval(offset, chunk.end), blockSize)
      decreases remaining
    {
      size := Min(remaining, blockSize);
      blocks := blocks + [Interval(offset, offset + size)];
      remaining, offset := remaining - size, offset + size;
    }
  }

  /** Blocks cover their range exactly once, add up to it, and none is larger than the block size. */
  lemma {:induction false} BlocksPartition(chunk: Interval, blockSize: int, b: int)
    requires chunk.start <= chunk.end && (blockSize > 0 || chunk.Size() == 0)
    ensures var bs := Blocks(chunk, blockSize);
            && bs != []
            && Times(bs, b) == (if chunk.start <= b < chunk.end then 1 else 0)
            && TotalSize(bs) == chunk.Size()
            && forall c | c in bs :: chunk.start <= c.start <= c.end <= chunk.end
                                     && (blockSize >= 0 ==> c.Size() <= blockSize)
                                     && (chunk.Size() > 0 ==> c.Size() > 0)
    decreases chunk.Size()
  {
    if chunk.Size() <= blockSize || chunk.Size() == 0 {
      TimesOfOne(chunk, b);
    } else {
      var first := Interval(chunk.start, chunk.start + blockSize);
      var rest := Interval(chunk.start + blockSize, chunk.end);
      BlocksPartition(rest, blockSize, b);
      TimesByParts([first], Blocks(rest, blockSize), b);
      TotalByParts([first], Blocks(rest, blockSize));
      TimesOfOne(first, b);
    }
  }

  /** No more blocks than needed: they follow one another, and all but the last have the block size. */
  lemma {:induction false} BlocksAreFull(chunk: Interval, blockSize: int)
    requires chunk.start <= chunk.end && (blockSize > 0 || chunk.Size() == 0)
    ensures var bs := Blocks(chunk, blockSize);
            && bs != [] && bs[0].start == chunk.start && bs[|bs| - 1].end == chunk.end
            && forall i | 0 <= i < |bs| - 1 :: bs[i].Size() == blockSize && bs[i].end == bs[i + 1].start
    decreases chunk.Size()
  {
    if chunk.Size() > blockSize && chunk.Size() > 0 {
      var rest := Interval(chunk.start + blockSize, chunk.end);
      BlocksAreFull(rest, blockSize);
      var bs, more := Blocks(chunk, blockSize), Blocks(rest, blockSize);
      forall i | 0 < i < |bs| ensures bs[i] == more[i - 1] {}
    }
  }

  ghost function BlocksOfAll(chunks: seq<Interval>, blockSize: int): seq<Interval>
    requires Proper(chunks) && (blockSize > 0 || forall c | c in chunks :: c.Size() == 0)
  {
    if chunks == [] then []
    else
      assert chunks[|chunks| - 1] in chunks;
      BlocksOfAll(chunks[..|chunks| - 1], blockSize) + Blocks(chunks[|chunks| - 1], blockSize)
  }

  lemma {:induction false} BlocksOfAllPartition(chunks: seq<Interval>, blockSize: int, b: int)
    requires Proper(chunks) && (blockSize > 0 || forall c | c in chunks :: c.Size() == 0)
    ensures Times(BlocksOfAll(chunks, blockSize), b) == Times(chunks, b)
    ensures TotalSize(BlocksOfAll(chunks, blockSize)) == TotalSize(chunks)
    decreases |chunks|
  {
    if chunks != [] {
      var front, last := chunks[..|chunks| - 1], chunks[|chunks| - 1];
      assert last in chunks;
      BlocksOfAllPartition(front, blockSize, b);
      BlocksPartition(last, blockSize, b);
      TimesByParts(BlocksOfAll(front, blockSize), Blocks(last, blockSize), b);
      TotalByParts(BlocksOfAll(front, blockSize), Blocks(last, blockSize));
    }
  }

  /**
   The resumption promise: the ranges the receiver reported, together with the blocks the sender
   queues for the rest, hold every byte of the file exactly once and no other byte.
   */
  lemma {:induction false} ResumptionPartition(received: seq<Interval>, fileSize: int, blockSize: int, b: int)
    requires Separated(received) && (received != [] ==> 0 <= received[0].start)
    requires 0 <= fileSize && EndOf(received) <= fileSize
    requires blockSize > 0
    ensures Proper(Remaining(received, fileSize))
    ensures var blocks := BlocksOfAll(Remaining(received, fileSize), blockSize);
            Times(received, b) + Times(blocks, b) == (if 0 <= b < fileSize then 1 else 0)
            && TotalSize(received) + TotalSize(blocks) == fileSize
  {
    RemainingAreReal(received, fileSize);
    RemainingPartitions(received, fileSize, b);
    BlocksOfAllPartition(Remaining(received, fileSize), blockSize, b);
  }
}
