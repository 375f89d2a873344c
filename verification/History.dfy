/**
 The history a sender thread keeps of the sources it sent (util/ThreadTransferHistory.cpp), with the
 statistics kept beside each source and each thread.
 */
module History {
  import opened Protocol
  import opened Blocks

  /** The part of TransferStats that is checked at the end of a transfer. */
  datatype Stats = Stats(failedAttempts: int, dataBytes: int, effectiveHeaderBytes: int, effectiveDataBytes: int,
                         numBlocks: int) {
    function Plus(s: Stats): Stats {
      Stats(failedAttempts + s.failedAttempts, dataBytes + s.dataBytes, effectiveHeaderBytes + s.effectiveHeaderBytes,
            effectiveDataBytes + s.effectiveDataBytes, numBlocks + s.numBlocks)
    }
  }
  const ZERO := Stats(0, 0, 0, 0, 0)

  /** A byte source; `failed` says that its local error code is not OK. */
  datatype Source = Source(block: Block, stats: Stats, failed: bool)

  function Sum(sources: seq<Source>): Stats {
    if sources == [] then ZERO else sources[0].stats.Plus(Sum(sources[1..]))
  }

  lemma {:induction false} SumAppend(a: seq<Source>, b: seq<Source>)
    ensures Sum(a + b) == Sum(a).Plus(Sum(b))
  {
    if a == [] {
      assert a + b == b;
    } else {
      assert (a + b)[1..] == a[1..] + b;
      SumAppend(a[1..], b);
    }
  }

  function Reversed<T>(s: seq<T>): (r: seq<T>)
    ensures |r| == |s| && forall i | 0 <= i < |s| :: r[i] == s[|s| - 1 - i]
  {
    if s == [] then [] else Reversed(s[1..]) + [s[0]]
  }

  /** What failing a source takes from, or gives to, its statistics and its thread's. */
  function Correction(source: Source, c: Option<Checkpoint>): Stats {
    var received := ReceivedBytes(source.block, c);
    if source.failed then Stats(0, 0, 0, received, 0)
    else Stats(1, 0, -source.stats.effectiveHeaderBytes, received - source.block.size, -1)
  }
  function Failed(source: Source, c: Option<Checkpoint>): Source {
    Source(Credited(source.block, c), source.stats.Plus(Correction(source, c)), true)
  }
  /** Sources sent after a checkpoint: only the first of them can be the partially received one. */
  function FailedAll(sources: seq<Source>, c: Checkpoint): (r: seq<Source>)
    ensures |r| == |sources|
    ensures forall i | 0 <= i < |r| :: r[i] == Failed(sources[i], if i == 0 then Some(c) else None)
  {
    seq(|sources|, i requires 0 <= i < |sources| => Failed(sources[i], if i == 0 then Some(c) else None))
  }

  function BlocksOf(sources: seq<Source>): (r: seq<Block>)
    ensures |r| == |sources| && forall i | 0 <= i < |r| :: r[i] == sources[i].block
  {
    seq(|sources|, i requires 0 <= i < |sources| => sources[i].block)
  }

  /** Seen as blocks, what goes back is what the protocol model returns. */
  lemma FailedAllBlocks(sources: seq<Source>, c: Checkpoint)
    ensures BlocksOf(FailedAll(sources, c)) == Unacknowledged(BlocksOf(sources), c)
  {
    var r := FailedAll(sources, c);
    forall i | 0 <= i < |r| ensures BlocksOf(r)[i] == Unacknowledged(BlocksOf(sources), c)[i] {
      if i > 0 { assert Advance(sources[i].block, 0) == sources[i].block; }
    }
  }

  /** The thread's statistics moved by exactly as much as those of the sources it failed. */
  ghost predicate Balanced(before: Stats, after: Stats, sources: seq<Source>, failed: seq<Source>) {
    after.Plus(Sum(sources)) == before.Plus(Sum(failed))
  }

  lemma BalanceOneMore(before: Stats, now: Stats, sources: seq<Source>, failed: seq<Source>, i: nat,
                       c: Option<Checkpoint>)
    requires 0 < i <= |sources| == |failed| && failed[i - 1] == Failed(sources[i - 1], c)
    requires Balanced(before, now, sources[i..], failed[i..])
    ensures Balanced(before, now.Plus(Correction(sources[i - 1], c)), sources[i - 1..], failed[i - 1..])
  {
    assert sources[i - 1..][1..] == sources[i..];
    assert failed[i - 1..][1..] == failed[i..];
  }

  /** A history as a value, and what an operation on it hands back to the queue. */
  datatype Hist = Hist(sources: seq<Source>, globalCheckpoint: bool, last: Option<Checkpoint>)
  datatype Outcome = Outcome(hist: Hist, back: seq<Source>)

  function Added(h: Hist, source: Source): Outcome {
    if h.globalCheckpoint then Outcome(h.(last := None), [Failed(source, h.last)])
    else Outcome(h.(sources := h.sources + [source]), [])
  }
  function Checkpointed(h: Hist, c: Checkpoint, isGlobal: bool): Outcome
    requires 0 <= c.numBlocks
  {
    if Judge(|h.sources|, h.last, c, isGlobal) == INVALID_CHECKPOINT then Outcome(h, [])
    else Outcome(Hist(h.sources[..c.numBlocks], h.globalCheckpoint || isGlobal, Some(c)),
                 Reversed(FailedAll(h.sources[c.numBlocks..], c)))
  }

  /** The queue the sources came from, as far as returning to it goes. */
  class SourceQueue {
    var sources: seq<Source>

    method ReturnToQueue(back: seq<Source>)
      modifies this
      ensures sources == old(sources) + back
    {
      sources := sources + back;
    }
  }

  class ThreadTransferHistory {
    const queue: SourceQueue
    var threadStats: Stats
    var history: seq<Source>
    var numAcknowledged: int
    var globalCheckpoint: bool
    var lastCheckpoint: Option<Checkpoint>

    function Value(): Hist
      reads this
    {
      Hist(history, globalCheckpoint, lastCheckpoint)
    }

    constructor (queue: SourceQueue)
      ensures this.queue == queue && Value() == Hist([], false, None) && threadStats == ZERO && numAcknowledged == 0
    {
      this.queue := queue;
      threadStats, history := ZERO, [];
      numAcknowledged, globalCheckpoint, lastCheckpoint := 0, false, None;
    }

    method MarkSourceAsFailed(source: Source, c: Option<Checkpoint>) returns (r: Source)
      modifies this`threadStats
      ensures r == Failed(source, c)
      ensures threadStats == old(threadStats).Plus(Correction(source, c))
    {
      var validCheckpoint := false;
      if c.Some? {
        if c.value.hasSeqId {
          if c.value.lastBlockSeqId == source.block.seqId && c.value.lastBlockOffset == source.block.offset {
            validCheckpoint := true;
          }
        } else {
          validCheckpoint := true;
        }
      }
      var receivedBytes := if validCheckpoint then c.value.lastBlockReceivedBytes else 0;
      var stats := source.stats;
      if source.failed {
        stats := stats.(effectiveDataBytes := stats.effectiveDataBytes + receivedBytes);
        threadStats := threadStats.(effectiveDataBytes := threadStats.effectiveDataBytes + receivedBytes);
      } else {
        var headerBytes := stats.effectiveHeaderBytes;
        var wastedBytes := source.block.size - receivedBytes;
        stats := stats.(effectiveHeaderBytes := stats.effectiveHeaderBytes - headerBytes,
                        effectiveDataBytes := stats.effectiveDataBytes - wastedBytes,
                        numBlocks := stats.numBlocks - 1, failedAttempts := stats.failedAttempts + 1);
        threadStats := threadStats.(effectiveHeaderBytes := threadStats.effectiveHeaderBytes - headerBytes,
                                    effectiveDataBytes := threadStats.effectiveDataBytes - wastedBytes,
                                    numBlocks := threadStats.numBlocks - 1,
                                    failedAttempts := threadStats.failedAttempts + 1);
      }
      r := Source(Advance(source.block, receivedBytes), stats, true);
    }

    method AddSource(source: Source) returns (added: bool)
      modifies this`threadStats, this`history, this`lastCheckpoint, queue
      ensures added == !globalCheckpoint
      ensures var o := Added(old(Value()), source); Value() == o.hist && queue.sources == old(queue.sources) + o.back
      ensures threadStats == if added then old(threadStats)
                             else old(threadStats).Plus(Correction(source, old(lastCheckpoint)))
    {
      if globalCheckpoint {
        var failed := MarkSourceAsFailed(source, lastCheckpoint);
        lastCheckpoint := None;
        queue.ReturnToQueue([failed]);
        return false;
      }
      history := history + [source];
      return true;
    }

    /** All blocks the checkpoint does not cover go back, last sent first, and the books stay balanced. */
    method SetCheckpointAndReturnToQueue(c: Checkpoint, isGlobal: bool) returns (v: Verdict)
      requires 0 <= c.numBlocks
      modifies this, queue
      ensures v == Judge(|old(history)|, old(lastCheckpoint), c, isGlobal)
      ensures var o := Checkpointed(old(Value()), c, isGlobal);
              Value() == o.hist && queue.sources == old(queue.sources) + o.back
      ensures numAcknowledged == if v == INVALID_CHECKPOINT then old(numAcknowledged) else c.numBlocks
      ensures if v == INVALID_CHECKPOINT then threadStats == old(threadStats)
              else Balanced(old(threadStats), threadStats, old(history)[c.numBlocks..],
                            FailedAll(old(history)[c.numBlocks..], c))
    {
      if c.numBlocks > |history| {
        return INVALID_CHECKPOINT;
      }
      v := ValidateCheckpoint(c, isGlobal);
      if v == INVALID_CHECKPOINT {
        return;
      }
      globalCheckpoint := globalCheckpoint || isGlobal;
      lastCheckpoint := Some(c);
      numAcknowledged := c.numBlocks;
      var sourcesToReturn := PopUnacknowledged(c);
      queue.ReturnToQueue(sourcesToReturn);
    }

    /** The last source of the history, failed: the `m`-th of `rest`. */
    method PopOne(c: Option<Checkpoint>, ghost before: Stats, ghost rest: seq<Source>, ghost back: seq<Source>,
                  ghost m: nat) returns (source: Source)
      requires 0 < m <= |rest| == |back| && back[m - 1] == Failed(rest[m - 1], c)
      requires history != [] && history[|history| - 1] == rest[m - 1]
      requires Balanced(before, threadStats, rest[m..], back[m..])
      modifies this`history, this`threadStats
      ensures history == old(history)[..|old(history)| - 1] && source == back[m - 1]
      ensures Balanced(before, threadStats, rest[m - 1..], back[m - 1..])
    {
      source := history[|history| - 1];
      history := history[..|history| - 1];
      BalanceOneMore(before, threadStats, rest, back, m, c);
      source := MarkSourceAsFailed(source, c);
    }

    method PopUnacknowledged(c: Checkpoint) returns (r: seq<Source>)
      requires 0 <= c.numBlocks <= |history|
      modifies this`history, this`threadStats
      ensures history == old(history)[..c.numBlocks]
      ensures r == Reversed(FailedAll(old(history)[c.numBlocks..], c))
      ensures Balanced(old(threadStats), threadStats, old(history)[c.numBlocks..],
                       FailedAll(old(history)[c.numBlocks..], c))
    {
      r := [];
      ghost var all, n := history, c.numBlocks;
      ghost var rest := all[n..];
      ghost var back := FailedAll(rest, c);
      var numFailedSources := |history| - c.numBlocks;
      var i := 0;
      while i < numFailedSources
        invariant 0 <= i <= numFailedSources == |rest|
        invariant history == all[..n + |rest| - i]
        invariant |r| == i && forall j | 0 <= j < i :: r[j] == back[|rest| - 1 - j]
        invariant Balanced(old(threadStats), threadStats, rest[|rest| - i..], back[|rest| - i..])
      {
        var checkpoint := if i == numFailedSources - 1 then Some(c) else None;
        var source := PopOne(checkpoint, old(threadStats), rest, back, |rest| - i);
        r := r + [source];
        i := i + 1;
      }
      assert rest[0..] == rest && back[0..] == back;
    }

    method ValidateCheckpoint(c: Checkpoint, isGlobal: bool) returns (v: Verdict)
      ensures v == Validate(lastCheckpoint, c, isGlobal)
      ensures v == INVALID_CHECKPOINT <==>
                (lastCheckpoint.Some? && c.numBlocks < lastCheckpoint.value.numBlocks) || Recounts(lastCheckpoint, c)
      ensures v == NO_PROGRESS <==>
                && !isGlobal && lastCheckpoint.Some? && c.numBlocks == lastCheckpoint.value.numBlocks
                && !Recounts(lastCheckpoint, c) && !Newer(lastCheckpoint.value, c)
    {
      if lastCheckpoint.None? {
        return OK;
      }
      var last := lastCheckpoint.value;
      if c.numBlocks < last.numBlocks {
        return INVALID_CHECKPOINT;
      }
      if c.numBlocks > last.numBlocks {
        return OK;
      }
      var noProgress := false;
      if c.lastBlockSeqId == last.lastBlockSeqId && c.lastBlockOffset == last.lastBlockOffset {
        if c.lastBlockReceivedBytes != last.lastBlockReceivedBytes {
          return INVALID_CHECKPOINT;
        }
        noProgress := true;
      } else {
        if c.lastBlockReceivedBytes == 0 {
          noProgress := true;
        }
      }
      if noProgress && !isGlobal {
        return NO_PROGRESS;
      }
      return OK;
    }
  }

  // ---------------------------------------------------------------- the owner against the other threads

  /** The owner adds what it has just sent, or leaves; any other thread delivers the dead port's checkpoint. */
  datatype Event = OwnerAdds(source: Source) | OwnerLeaves | GlobalCheckpoint

  /** `sent` is everything the owner ever added, `inUse` is cleared when it leaves or is told to stop. */
  datatype Race = Race(hist: Hist, inUse: bool, sent: seq<Source>, back: seq<Source>)

  predicate CanHappen(r: Race, e: Event) { e.GlobalCheckpoint? || r.inUse }

  function Happens(r: Race, e: Event, c: Checkpoint): Race
    requires 0 <= c.numBlocks
  {
    match e
    case OwnerAdds(source) =>
      var o := Added(r.hist, source);
      Race(o.hist, !r.hist.globalCheckpoint, r.sent + [source], r.back + o.back)
    case OwnerLeaves => r.(inUse := false)
    case GlobalCheckpoint =>
      var o := Checkpointed(r.hist, c, true);
      r.(hist := o.hist, back := r.back + o.back)
  }

  ghost predicate Possible(r: Race, events: seq<Event>, c: Checkpoint)
    requires 0 <= c.numBlocks
    decreases |events|, 0
  {
    events == [] || (var before := events[..|events| - 1];
                     Possible(r, before, c) && CanHappen(After(r, before, c), events[|events| - 1]))
  }
  ghost function After(r: Race, events: seq<Event>, c: Checkpoint): Race
    requires 0 <= c.numBlocks && Possible(r, events, c)
    decreases |events|, 1
  {
    if events == [] then r else Happens(After(r, events[..|events| - 1], c), events[|events| - 1], c)
  }

  /** Only the first block past its count can be the checkpoint's partial one. */
  ghost predicate CountsFirstOnly(c: Checkpoint, sent: seq<Source>) {
    forall i | 0 <= c.numBlocks < i < |sent| :: ReceivedBytes(sent[i].block, Some(c)) == 0
  }

  ghost predicate RaceInv(r: Race, c: Checkpoint) {
    0 <= c.numBlocks <= |r.sent| &&
    if !r.hist.globalCheckpoint then
      && r.hist.sources == r.sent && r.back == []
      && Validate(r.hist.last, c, true) != INVALID_CHECKPOINT
    else
      && r.hist.sources == r.sent[..c.numBlocks]
      && (r.inUse ==> r.hist.last == Some(c)) && (r.hist.last == None || r.hist.last == Some(c))
      && multiset(r.back) == multiset(FailedAll(r.sent[c.numBlocks..], c))
  }

  lemma {:induction false} ReversedIsPermutation<T>(s: seq<T>)
    ensures multiset(Reversed(s)) == multiset(s)
  {
    if s != [] {
      ReversedIsPermutation(s[1..]);
      assert s == [s[0]] + s[1..];
    }
  }

  lemma FailedAllOneMore(sources: seq<Source>, source: Source, c: Checkpoint)
    requires sources == [] || ReceivedBytes(source.block, Some(c)) == 0
    ensures FailedAll(sources + [source], c) == FailedAll(sources, c) + [Failed(source, Some(c))]
  {
    var one := FailedAll(sources + [source], c);
    assert one[|sources|] == Failed(source, Some(c));
    forall i | 0 <= i < |sources| ensures one[i] == FailedAll(sources, c)[i] {}
  }

  lemma LateAdd(r: Race, source: Source, c: Checkpoint)
    requires RaceInv(r, c) && r.inUse && r.hist.globalCheckpoint && CountsFirstOnly(c, r.sent + [source])
    ensures RaceInv(Happens(r, OwnerAdds(source), c), c)
  {
    var r', n := Happens(r, OwnerAdds(source), c), c.numBlocks;
    var rest := r.sent[n..];
    assert r'.sent[|r.sent|] == source;
    assert r'.sent[n..] == rest + [source] && r'.sent[..n] == r.sent[..n];
    FailedAllOneMore(rest, source, c);
  }

  lemma CheckpointArrives(r: Race, c: Checkpoint)
    requires RaceInv(r, c) && !r.hist.globalCheckpoint
    ensures RaceInv(Happens(r, GlobalCheckpoint, c), c)
  {
    var back := FailedAll(r.sent[c.numBlocks..], c);
    ReversedIsPermutation(back);
    assert [] + Reversed(back) == Reversed(back);
  }

  lemma CheckpointArrivesAgain(r: Race, c: Checkpoint)
    requires RaceInv(r, c) && r.hist.globalCheckpoint
    ensures RaceInv(Happens(r, GlobalCheckpoint, c), c)
  {
    var o := Checkpointed(r.hist, c, true);
    assert r.hist.sources[c.numBlocks..] == [] && r.hist.sources[..c.numBlocks] == r.hist.sources;
    assert o.back == [] && r.back + [] == r.back;
  }

  lemma RaceStep(r: Race, e: Event, c: Checkpoint)
    requires RaceInv(r, c) && CanHappen(r, e)
    requires CountsFirstOnly(c, Happens(r, e, c).sent)
    ensures RaceInv(Happens(r, e, c), c)
  {
    match e {
      case OwnerLeaves =>
      case OwnerAdds(source) => if r.hist.globalCheckpoint { LateAdd(r, source, c); }
      case GlobalCheckpoint =>
        if r.hist.globalCheckpoint { CheckpointArrivesAgain(r, c); } else { CheckpointArrives(r, c); }
    }
  }

  lemma {:induction false} RaceKeeps(r: Race, events: seq<Event>, c: Checkpoint)
    requires RaceInv(r, c) && Possible(r, events, c) && CountsFirstOnly(c, After(r, events, c).sent)
    ensures RaceInv(After(r, events, c), c)
    decreases |events|
  {
    if events != [] {
      var before, e := events[..|events| - 1], events[|events| - 1];
      assert After(r, before, c).sent <= After(r, events, c).sent;
      RaceKeeps(r, before, c);
      RaceStep(After(r, before, c), e, c);
    }
  }

  lemma {:induction false} GlobalHappened(r: Race, events: seq<Event>, c: Checkpoint)
    requires RaceInv(r, c) && Possible(r, events, c) && CountsFirstOnly(c, After(r, events, c).sent)
    requires GlobalCheckpoint in events
    ensures After(r, events, c).hist.globalCheckpoint
    decreases |events|
  {
    var before, e := events[..|events| - 1], events[|events| - 1];
    assert events == before + [e];
    assert After(r, before, c).sent <= After(r, events, c).sent;
    RaceKeeps(r, before, c);
    if GlobalCheckpoint in before { GlobalHappened(r, before, c); }
  }

  /**
   Whichever side wins: once the history is no longer in use, so that setGlobalCheckpoint returns, every
   source past the checkpoint has gone back exactly once, the partial count advanced the first of them
   and no other, and the history holds just the acknowledged ones.
   */
  lemma {:induction false} EitherSideReturnsOnce(history: seq<Source>, last: Option<Checkpoint>, events: seq<Event>,
                                                 c: Checkpoint)
    requires 0 <= c.numBlocks <= |history| && Validate(last, c, true) != INVALID_CHECKPOINT
    requires var r := Race(Hist(history, false, last), true, history, []);
             && Possible(r, events, c) && CountsFirstOnly(c, After(r, events, c).sent)
             && GlobalCheckpoint in events && !After(r, events, c).inUse
    ensures var r := After(Race(Hist(history, false, last), true, history, []), events, c);
            && history <= r.sent && r.hist.sources == r.sent[..c.numBlocks]
            && multiset(r.back) == multiset(FailedAll(r.sent[c.numBlocks..], c))
  {
    var r := Race(Hist(history, false, last), true, history, []);
    RaceKeeps(r, events, c);
    GlobalHappened(r, events, c);
    SentGrows(r, events, c);
  }

  lemma {:induction false} SentGrows(r: Race, events: seq<Event>, c: Checkpoint)
    requires 0 <= c.numBlocks && Possible(r, events, c)
    ensures r.sent <= After(r, events, c).sent
    decreases |events|
  {
    if events != [] { SentGrows(r, events[..|events| - 1], c); }
  }
}
