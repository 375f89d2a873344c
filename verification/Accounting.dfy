/**
 The books of a transfer: what every thread counted against what every source counted (Sender.cpp,
 SenderThread.cpp, Reporting.cpp).  Sources are the file sources; a source is queued, open in one
 thread's hand, in one thread's history, or dropped because it could not be opened.
 */
module Accounting {
  import opened Protocol
  import opened Blocks
  import opened History

  // ---------------------------------------------------------------- states of a source

  /** A source counts as sent while its one block does. */
  predicate Sent(source: Source) { source.stats.numBlocks == 1 }
  function Remaining(source: Source): int { if Sent(source) then 0 else source.block.size }

  /** Waiting in the queue, whether never tried or failed before. */
  predicate Waiting(s: Source) { s.block.size >= 0 && s.stats.numBlocks == 0 && s.stats.effectiveHeaderBytes == 0 }
  /** Tried: the error code and the block count agree. */
  predicate Tried(s: Source) {
    && s.block.size >= 0 && (s.failed <==> s.stats.numBlocks == 0) && (s.stats.numBlocks == 0 || s.stats.numBlocks == 1)
    && (s.failed ==> s.stats.effectiveHeaderBytes == 0)
  }
  predicate AllTried(sources: seq<Source>) { forall i | 0 <= i < |sources| :: Tried(sources[i]) }
  predicate AllWaiting(sources: seq<Source>) { forall i | 0 <= i < |sources| :: Waiting(sources[i]) }

  /** Bytes counted as effective plus bytes still to be sent. */
  function Worth(source: Source): int { source.stats.effectiveDataBytes + Remaining(source) }
  function Worths(sources: seq<Source>): int { if sources == [] then 0 else Worth(sources[0]) + Worths(sources[1..]) }

  lemma {:induction false} WorthsAppend(a: seq<Source>, b: seq<Source>)
    ensures Worths(a + b) == Worths(a) + Worths(b)
  {
    if a == [] {
      assert a + b == b;
    } else {
      assert (a + b)[1..] == a[1..] + b;
      WorthsAppend(a[1..], b);
    }
  }

  // ---------------------------------------------------------------- what happens to one source

  /** sendOneByteSource: everything went out, or `written` bytes did before an error. */
  datatype Attempt = Success(headerBytes: int) | Failure(written: int)

  function AttemptStats(source: Source, a: Attempt): Stats {
    match a
    case Success(headerBytes) => Stats(0, source.block.size, headerBytes, source.block.size, 1)
    case Failure(written) => Stats(1, written, 0, 0, 0)
  }
  function Attempted(source: Source, a: Attempt): Source {
    Source(source.block, source.stats.Plus(AttemptStats(source, a)), a.Failure?)
  }

  lemma AttemptedKeepsWorth(source: Source, a: Attempt)
    requires Waiting(source) && !source.failed
    ensures Tried(Attempted(source, a)) && Worth(Attempted(source, a)) == Worth(source)
  {
  }

  lemma FailedKeepsWorth(source: Source, c: Option<Checkpoint>)
    requires Tried(source) && 0 <= ReceivedBytes(source.block, c) <= source.block.size
    ensures Waiting(Failed(source, c)) && Worth(Failed(source, c)) == Worth(source)
  {
  }

  /** The checkpoint's count lies within the block it is applied to. */
  predicate Fits(sources: seq<Source>, c: Checkpoint) {
    sources == [] || 0 <= ReceivedBytes(sources[0].block, Some(c)) <= sources[0].block.size
  }

  lemma FailedAllWaiting(sources: seq<Source>, c: Checkpoint)
    requires AllTried(sources) && Fits(sources, c)
    ensures AllWaiting(FailedAll(sources, c))
    ensures forall i | 0 <= i < |sources| :: Worth(FailedAll(sources, c)[i]) == Worth(sources[i])
  {
    var r := FailedAll(sources, c);
    forall i | 0 <= i < |sources| ensures Waiting(r[i]) && Worth(r[i]) == Worth(sources[i]) {
      FailedKeepsWorth(sources[i], if i == 0 then Some(c) else None);
    }
  }

  lemma {:induction false} SameWorths(a: seq<Source>, b: seq<Source>)
    requires |a| == |b| && forall i | 0 <= i < |a| :: Worth(a[i]) == Worth(b[i])
    ensures Worths(a) == Worths(b)
  {
    if a != [] { SameWorths(a[1..], b[1..]); }
  }

  lemma {:induction false} ReversedSums(s: seq<Source>)
    ensures Worths(Reversed(s)) == Worths(s) && Sum(Reversed(s)) == Sum(s)
  {
    if s != [] {
      ReversedSums(s[1..]);
      WorthsAppend(Reversed(s[1..]), [s[0]]);
      SumAppend(Reversed(s[1..]), [s[0]]);
    }
  }

  lemma {:induction false} RemoveOne(s: seq<Source>, i: nat)
    requires i < |s|
    ensures Sum(s) == s[i].stats.Plus(Sum(s[..i] + s[i + 1..]))
            && Worths(s) == Worth(s[i]) + Worths(s[..i] + s[i + 1..])
  {
    var rest := s[..i] + s[i + 1..];
    if i == 0 {
      assert rest == s[1..];
    } else {
      RemoveOne(s[1..], i - 1);
      assert rest[1..] == s[1..][..i - 1] + s[1..][i..] && rest[0] == s[0];
    }
  }

  // ---------------------------------------------------------------- the books

  datatype Hand = Empty | Open(source: Source) | Done(source: Source)
  datatype Account = Account(totals: Stats, hand: Hand, hist: Hist)
  datatype Books = Books(accounts: seq<Account>, queue: seq<Source>, dropped: seq<Source>)

  function InHand(h: Hand): seq<Source> { if h.Empty? then [] else [h.source] }
  function Held(a: Account): seq<Source> { a.hist.sources + InHand(a.hand) }

  function Total(list: seq<Stats>): Stats {
    if list == [] then ZERO else list[0].Plus(Total(list[1..]))
  }
  lemma {:induction false} PutTotal(list: seq<Stats>, k: nat, s: Stats)
    requires k < |list|
    ensures Total(list[k := s]).Plus(list[k]) == Total(list).Plus(s)
  {
    if k == 0 {
      assert list[k := s][1..] == list[1..];
    } else {
      assert list[k := s][1..] == list[1..][k - 1 := s];
      PutTotal(list[1..], k - 1, s);
    }
  }

  function ThreadStats(accounts: seq<Account>): (r: seq<Stats>)
    ensures |r| == |accounts| && forall i | 0 <= i < |r| :: r[i] == accounts[i].totals
  {
    seq(|accounts|, i requires 0 <= i < |accounts| => accounts[i].totals)
  }
  function HeldStats(accounts: seq<Account>): (r: seq<Stats>)
    ensures |r| == |accounts| && forall i | 0 <= i < |r| :: r[i] == Sum(Held(accounts[i]))
  {
    seq(|accounts|, i requires 0 <= i < |accounts| => Sum(Held(accounts[i])))
  }
  function HeldWorth(accounts: seq<Account>): int {
    if accounts == [] then 0 else Worths(Held(accounts[0])) + HeldWorth(accounts[1..])
  }

  lemma PutTotals(accounts: seq<Account>, k: nat, a: Account)
    requires k < |accounts|
    ensures Total(ThreadStats(accounts[k := a])).Plus(accounts[k].totals) == Total(ThreadStats(accounts)).Plus(a.totals)
  {
    assert ThreadStats(accounts[k := a]) == ThreadStats(accounts)[k := a.totals];
    PutTotal(ThreadStats(accounts), k, a.totals);
  }
  lemma PutHeld(accounts: seq<Account>, k: nat, a: Account)
    requires k < |accounts|
    ensures Total(HeldStats(accounts[k := a])).Plus(Sum(Held(accounts[k]))) ==
            Total(HeldStats(accounts)).Plus(Sum(Held(a)))
  {
    assert HeldStats(accounts[k := a]) == HeldStats(accounts)[k := Sum(Held(a))];
    PutTotal(HeldStats(accounts), k, Sum(Held(a)));
  }
  lemma {:induction false} PutWorth(accounts: seq<Account>, k: nat, a: Account)
    requires k < |accounts|
    ensures HeldWorth(accounts[k := a]) + Worths(Held(accounts[k])) == HeldWorth(accounts) + Worths(Held(a))
  {
    if k == 0 {
      assert accounts[k := a][1..] == accounts[1..];
    } else {
      assert accounts[k := a][1..] == accounts[1..][k - 1 := a];
      PutWorth(accounts[1..], k - 1, a);
    }
  }

  datatype Event =
    | Opens(k: nat, i: nat)                                  // getNextSource, open succeeds
    | OpenFails(i: nat)                                      // open fails, the source is given up
    | Sends(k: nat, attempt: Attempt)                        // sendOneByteSource, both statistics updated
    | Adds(k: nat)                                           // addSource
    | Checkpoints(k: nat, c: Checkpoint, isGlobal: bool)     // setLocalCheckpoint, setGlobalCheckpoint

  /** The thread totals after failing `rest`, the last sent first; only the oldest can be the partially received one. */
  function Corrected(totals: Stats, rest: seq<Source>, c: Checkpoint): Stats
    decreases |rest|
  {
    if rest == [] then totals
    else
      var n := |rest| - 1;
      Corrected(totals.Plus(Correction(rest[n], if n == 0 then Some(c) else None)), rest[..n], c)
  }

  /** They move by as much as the statistics of the failed sources. */
  lemma {:induction false} CorrectedBalances(totals: Stats, rest: seq<Source>, c: Checkpoint)
    ensures Balanced(totals, Corrected(totals, rest, c), rest, FailedAll(rest, c))
    decreases |rest|
  {
    if rest != [] {
      var n := |rest| - 1;
      var one := Correction(rest[n], if n == 0 then Some(c) else None);
      CorrectedBalances(totals.Plus(one), rest[..n], c);
      var failed := FailedAll(rest, c);
      assert FailedAll(rest[..n], c) == failed[..n];
      assert rest == rest[..n] + [rest[n]] && failed == failed[..n] + [failed[n]];
      SumAppend(rest[..n], [rest[n]]);
      SumAppend(failed[..n], [failed[n]]);
      OneCorrection(totals, one, Corrected(totals, rest, c), Sum(rest[..n]), Sum(failed[..n]), rest[n], failed[n]);
    }
  }

  lemma SumOfOne(source: Source)
    ensures Sum([source]) == source.stats
  {
    assert [source][1..] == [];
  }

  lemma OneCorrection(t: Stats, one: Stats, t': Stats, kept: Stats, back: Stats, source: Source, failed: Source)
    requires t'.Plus(kept) == t.Plus(one).Plus(back) && failed.stats == source.stats.Plus(one)
    ensures t'.Plus(kept.Plus(Sum([source]))) == t.Plus(back.Plus(Sum([failed])))
  {
    SumOfOne(source);
    SumOfOne(failed);
  }

  predicate Possible(b: Books, e: Event) {
    match e
    case Opens(k, i) => k < |b.accounts| && b.accounts[k].hand.Empty? && i < |b.queue|
    case OpenFails(i) => i < |b.queue|
    case Sends(k, _) => k < |b.accounts| && b.accounts[k].hand.Open?
    case Adds(k) =>
      && k < |b.accounts| && b.accounts[k].hand.Done?
      && var src := b.accounts[k].hand.source;
         b.accounts[k].hist.globalCheckpoint ==>
           0 <= ReceivedBytes(src.block, b.accounts[k].hist.last) <= src.block.size
    case Checkpoints(k, c, _) =>
      && k < |b.accounts| && 0 <= c.numBlocks
      && (c.numBlocks <= |b.accounts[k].hist.sources| ==> Fits(b.accounts[k].hist.sources[c.numBlocks..], c))
  }

  function Add(a: Account): Account
    requires a.hand.Done?
  {
    var totals := if a.hist.globalCheckpoint then a.totals.Plus(Correction(a.hand.source, a.hist.last)) else a.totals;
    Account(totals, Empty, Added(a.hist, a.hand.source).hist)
  }
  function Cut(a: Account, c: Checkpoint, isGlobal: bool): Account
    requires 0 <= c.numBlocks
  {
    var o := Checkpointed(a.hist, c, isGlobal);
    if Judge(|a.hist.sources|, a.hist.last, c, isGlobal) == INVALID_CHECKPOINT then a
    else a.(hist := o.hist, totals := Corrected(a.totals, a.hist.sources[c.numBlocks..], c))
  }

  function After(b: Books, e: Event): Books
    requires Possible(b, e)
  {
    match e
    case Opens(k, i) =>
      b.(accounts := b.accounts[k := b.accounts[k].(hand := Open(b.queue[i].(failed := false)))],
         queue := b.queue[..i] + b.queue[i + 1..])
    case OpenFails(i) =>
      b.(queue := b.queue[..i] + b.queue[i + 1..], dropped := b.dropped + [b.queue[i].(failed := true)])
    case Sends(k, attempt) =>
      var a := b.accounts[k];
      b.(accounts := b.accounts[k := a.(hand := Done(Attempted(a.hand.source, attempt)),
                                        totals := a.totals.Plus(AttemptStats(a.hand.source, attempt)))])
    case Adds(k) =>
      var a := b.accounts[k];
      b.(accounts := b.accounts[k := Add(a)], queue := b.queue + Added(a.hist, a.hand.source).back)
    case Checkpoints(k, c, isGlobal) =>
      var a := b.accounts[k];
      b.(accounts := b.accounts[k := Cut(a, c, isGlobal)], queue := b.queue + Checkpointed(a.hist, c, isGlobal).back)
  }

  // ---------------------------------------------------------------- what always holds

  predicate Orderly(a: Account) {
    && AllTried(a.hist.sources)
    && match a.hand
       case Empty => true
       case Open(source) => Waiting(source) && !source.failed
       case Done(source) => Tried(source)
  }
  ghost predicate AllOrderly(b: Books) {
    && AllWaiting(b.queue) && AllWaiting(b.dropped)
    && forall k | 0 <= k < |b.accounts| :: Orderly(b.accounts[k])
  }

  /** Everything the sources counted, wherever they are. */
  function SourceStats(b: Books): Stats { Sum(b.queue).Plus(Sum(b.dropped)).Plus(Total(HeldStats(b.accounts))) }
  function TotalWorth(b: Books): int { Worths(b.queue) + Worths(b.dropped) + HeldWorth(b.accounts) }

  ghost predicate InBalance(b: Books, totalFileSize: int) {
    && AllOrderly(b)
    && Total(ThreadStats(b.accounts)) == SourceStats(b)
    && TotalWorth(b) == totalFileSize
  }

  /** What one account and the lists around it must keep between them. */
  ghost predicate Even(a: Account, out: seq<Source>, a': Account, out': seq<Source>) {
    && a'.totals.Plus(Sum(Held(a))).Plus(Sum(out)) == a.totals.Plus(Sum(Held(a'))).Plus(Sum(out'))
    && Worths(Held(a)) + Worths(out) == Worths(Held(a')) + Worths(out')
  }

  lemma BalanceArithmetic(total: Stats, total': Stats, held: Stats, held': Stats, a: Stats, a': Stats, ha: Stats,
                          ha': Stats, q: Stats, q': Stats, d: Stats)
    requires total'.Plus(a) == total.Plus(a') && held'.Plus(ha) == held.Plus(ha')
    requires a'.Plus(ha).Plus(q) == a.Plus(ha').Plus(q')
    requires total == q.Plus(d).Plus(held)
    ensures total' == q'.Plus(d).Plus(held')
  {
  }

  lemma EvenKeepsBalance(b: Books, k: nat, a': Account, queue': seq<Source>, totalFileSize: int)
    requires InBalance(b, totalFileSize) && k < |b.accounts|
    requires Even(b.accounts[k], b.queue, a', queue') && Orderly(a') && AllWaiting(queue')
    ensures InBalance(b.(accounts := b.accounts[k := a'], queue := queue'), totalFileSize)
  {
    var accounts' := b.accounts[k := a'];
    PutTotals(b.accounts, k, a');
    PutHeld(b.accounts, k, a');
    BalanceArithmetic(Total(ThreadStats(b.accounts)), Total(ThreadStats(accounts')),
                      Total(HeldStats(b.accounts)), Total(HeldStats(accounts')),
                      b.accounts[k].totals, a'.totals, Sum(Held(b.accounts[k])), Sum(Held(a')),
                      Sum(b.queue), Sum(queue'), Sum(b.dropped));
    PutWorth(b.accounts, k, a');
  }

  lemma OpensKeeps(b: Books, k: nat, i: nat, totalFileSize: int)
    requires InBalance(b, totalFileSize) && Possible(b, Opens(k, i))
    ensures InBalance(After(b, Opens(k, i)), totalFileSize)
  {
    var a, src := b.accounts[k], b.queue[i].(failed := false);
    var a', queue' := a.(hand := Open(src)), b.queue[..i] + b.queue[i + 1..];
    RemoveOne(b.queue, i);
    assert Held(a) == a.hist.sources && Held(a') == a.hist.sources + [src];
    SumAppend(a.hist.sources, [src]);
    WorthsAppend(a.hist.sources, [src]);
    EvenKeepsBalance(b, k, a', queue', totalFileSize);
  }

  lemma OpenFailsKeeps(b: Books, i: nat, totalFileSize: int)
    requires InBalance(b, totalFileSize) && Possible(b, OpenFails(i))
    ensures InBalance(After(b, OpenFails(i)), totalFileSize)
  {
    var src := b.queue[i].(failed := true);
    var queue' := b.queue[..i] + b.queue[i + 1..];
    RemoveOne(b.queue, i);
    SumAppend(b.dropped, [src]);
    WorthsAppend(b.dropped, [src]);
    MoveAcross(Sum(queue'), src.stats, Sum(b.dropped), Total(HeldStats(b.accounts)));
    assert Sum([src]) == src.stats && Worths([src]) == Worth(b.queue[i]);
  }

  lemma MoveAcross(q: Stats, x: Stats, d: Stats, h: Stats)
    ensures x.Plus(q).Plus(d).Plus(h) == q.Plus(d.Plus(x)).Plus(h)
  {
  }

  lemma SendIsEven(a: Account, attempt: Attempt, out: seq<Source>)
    requires Orderly(a) && a.hand.Open?
    ensures var src := a.hand.source;
            var a' := a.(hand := Done(Attempted(src, attempt)), totals := a.totals.Plus(AttemptStats(src, attempt)));
            Even(a, out, a', out) && Orderly(a')
  {
    var src, sent := a.hand.source, Attempted(a.hand.source, attempt);
    AttemptedKeepsWorth(src, attempt);
    SumOfOne(src);
    SumOfOne(sent);
    SumAppend(a.hist.sources, [src]);
    SumAppend(a.hist.sources, [sent]);
    WorthOfOne(src);
    WorthOfOne(sent);
    WorthsAppend(a.hist.sources, [src]);
    WorthsAppend(a.hist.sources, [sent]);
  }

  lemma WorthOfOne(source: Source)
    ensures Worths([source]) == Worth(source)
  {
    assert [source][1..] == [];
  }

  lemma SendsKeeps(b: Books, k: nat, attempt: Attempt, totalFileSize: int)
    requires InBalance(b, totalFileSize) && Possible(b, Sends(k, attempt))
    ensures InBalance(After(b, Sends(k, attempt)), totalFileSize)
  {
    var a := b.accounts[k];
    assert Orderly(a);
    SendIsEven(a, attempt, b.queue);
    var src := a.hand.source;
    var a' := a.(hand := Done(Attempted(src, attempt)), totals := a.totals.Plus(AttemptStats(src, attempt)));
    EvenKeepsBalance(b, k, a', b.queue, totalFileSize);
  }

  lemma AddsKeeps(b: Books, k: nat, totalFileSize: int)
    requires InBalance(b, totalFileSize) && Possible(b, Adds(k))
    ensures InBalance(After(b, Adds(k)), totalFileSize)
  {
    var a := b.accounts[k];
    assert Orderly(a);
    if a.hist.globalCheckpoint { LateAddIsEven(a, b.queue); } else { PlainAddIsEven(a, b.queue); }
    EvenKeepsBalance(b, k, Add(a), b.queue + Added(a.hist, a.hand.source).back, totalFileSize);
  }

  lemma PlainAddIsEven(a: Account, queue: seq<Source>)
    requires Orderly(a) && a.hand.Done? && !a.hist.globalCheckpoint && AllWaiting(queue)
    ensures var back := Added(a.hist, a.hand.source).back;
            Even(a, queue, Add(a), queue + back) && Orderly(Add(a)) && AllWaiting(queue + back)
  {
    assert Held(Add(a)) == Held(a) && queue + [] == queue;
  }

  lemma LateAddIsEven(a: Account, queue: seq<Source>)
    requires Orderly(a) && a.hand.Done? && a.hist.globalCheckpoint && AllWaiting(queue)
    requires 0 <= ReceivedBytes(a.hand.source.block, a.hist.last) <= a.hand.source.block.size
    ensures var back := Added(a.hist, a.hand.source).back;
            Even(a, queue, Add(a), queue + back) && Orderly(Add(a)) && AllWaiting(queue + back)
  {
    var src, back := a.hand.source, [Failed(a.hand.source, a.hist.last)];
    FailedKeepsWorth(src, a.hist.last);
    SumAppend(queue, back);
    WorthsAppend(queue, back);
    SumAppend(a.hist.sources, [src]);
    WorthsAppend(a.hist.sources, [src]);
    assert Held(Add(a)) == a.hist.sources;
  }

  lemma CheckpointsKeeps(b: Books, k: nat, c: Checkpoint, isGlobal: bool, totalFileSize: int)
    requires InBalance(b, totalFileSize) && Possible(b, Checkpoints(k, c, isGlobal))
    ensures InBalance(After(b, Checkpoints(k, c, isGlobal)), totalFileSize)
  {
    var a := b.accounts[k];
    var o := Checkpointed(a.hist, c, isGlobal);
    assert Orderly(a);
    if Judge(|a.hist.sources|, a.hist.last, c, isGlobal) == INVALID_CHECKPOINT {
      assert b.queue + o.back == b.queue && b.accounts[k := a] == b.accounts;
    } else {
      CutIsEven(a, b.queue, c, isGlobal);
      EvenKeepsBalance(b, k, Cut(a, c, isGlobal), b.queue + o.back, totalFileSize);
    }
  }

  lemma CutIsEven(a: Account, queue: seq<Source>, c: Checkpoint, isGlobal: bool)
    requires Orderly(a) && 0 <= c.numBlocks <= |a.hist.sources| && Fits(a.hist.sources[c.numBlocks..], c)
             && AllWaiting(queue)
    requires Judge(|a.hist.sources|, a.hist.last, c, isGlobal) != INVALID_CHECKPOINT
    ensures var o := Checkpointed(a.hist, c, isGlobal);
            Even(a, queue, Cut(a, c, isGlobal), queue + o.back) && Orderly(Cut(a, c, isGlobal))
            && AllWaiting(queue + o.back)
  {
    var n := c.numBlocks;
    var kept, rest := a.hist.sources[..n], a.hist.sources[n..];
    var back := BackEvens(a.totals, rest, c);
    CutShape(a, c, isGlobal, kept, rest);
    EvenCut(a.totals, Corrected(a.totals, rest, c), kept, rest, InHand(a.hand), queue, back);
    StillWaiting(queue, back);
  }

  lemma {:induction false} CutShape(a: Account, c: Checkpoint, isGlobal: bool, kept: seq<Source>, rest: seq<Source>)
    requires Orderly(a) && 0 <= c.numBlocks <= |a.hist.sources|
    requires kept == a.hist.sources[..c.numBlocks] && rest == a.hist.sources[c.numBlocks..]
    requires Judge(|a.hist.sources|, a.hist.last, c, isGlobal) != INVALID_CHECKPOINT
    ensures var a' := Cut(a, c, isGlobal);
            && Held(a) == kept + rest + InHand(a.hand) && Held(a') == kept + InHand(a.hand) && Orderly(a')
            && a'.totals == Corrected(a.totals, rest, c)
    ensures Checkpointed(a.hist, c, isGlobal).back == Reversed(FailedAll(rest, c))
  {
    assert a.hist.sources == kept + rest;
  }

  lemma StillWaiting(queue: seq<Source>, back: seq<Source>)
    requires AllWaiting(queue) && AllWaiting(back)
    ensures AllWaiting(queue + back)
  {
  }

  /** What goes back is worth what is taken off the history, and the totals follow. */
  lemma BackEvens(totals: Stats, rest: seq<Source>, c: Checkpoint) returns (back: seq<Source>)
    requires AllTried(rest) && Fits(rest, c)
    ensures back == Reversed(FailedAll(rest, c)) && AllWaiting(back) && Worths(back) == Worths(rest)
    ensures Corrected(totals, rest, c).Plus(Sum(rest)) == totals.Plus(Sum(back))
  {
    back := Reversed(FailedAll(rest, c));
    FailedAllWaiting(rest, c);
    SameWorths(FailedAll(rest, c), rest);
    ReversedSums(FailedAll(rest, c));
    CorrectedBalances(totals, rest, c);
  }

  lemma {:induction false} EvenCut(totals: Stats, totals': Stats, kept: seq<Source>, rest: seq<Source>,
                                   hand: seq<Source>, queue: seq<Source>, back: seq<Source>)
    requires Worths(back) == Worths(rest) && totals'.Plus(Sum(rest)) == totals.Plus(Sum(back))
    ensures totals'.Plus(Sum(kept + rest + hand)).Plus(Sum(queue))
            == totals.Plus(Sum(kept + hand)).Plus(Sum(queue + back))
    ensures Worths(kept + rest + hand) + Worths(queue) == Worths(kept + hand) + Worths(queue + back)
  {
    CutSums(kept, rest, hand, queue, back);
    CutArithmetic(totals, totals', Sum(kept + hand), Sum(rest), Sum(queue), Sum(back));
  }

  lemma CutArithmetic(t: Stats, t': Stats, kept: Stats, rest: Stats, queue: Stats, back: Stats)
    requires t'.Plus(rest) == t.Plus(back)
    ensures t'.Plus(kept.Plus(rest)).Plus(queue) == t.Plus(kept).Plus(queue.Plus(back))
  {
  }

  lemma {:induction false} CutSums(kept: seq<Source>, rest: seq<Source>, hand: seq<Source>, queue: seq<Source>,
                                   back: seq<Source>)
    ensures Sum(kept + rest + hand) == Sum(kept + hand).Plus(Sum(rest))
            && Sum(queue + back) == Sum(queue).Plus(Sum(back))
    ensures Worths(kept + rest + hand) == Worths(kept + hand) + Worths(rest)
            && Worths(queue + back) == Worths(queue) + Worths(back)
  {
    SumAppend(kept + rest, hand);
    SumAppend(kept, rest);
    SumAppend(kept, hand);
    SumAppend(queue, back);
    WorthsAppend(kept + rest, hand);
    WorthsAppend(kept, rest);
    WorthsAppend(kept, hand);
    WorthsAppend(queue, back);
  }

  // ---------------------------------------------------------------- whole transfers

  lemma EventKeeps(b: Books, e: Event, totalFileSize: int)
    requires InBalance(b, totalFileSize) && Possible(b, e)
    ensures InBalance(After(b, e), totalFileSize)
  {
    match e {
      case Opens(k, i) => OpensKeeps(b, k, i, totalFileSize);
      case OpenFails(i) => OpenFailsKeeps(b, i, totalFileSize);
      case Sends(k, attempt) => SendsKeeps(b, k, attempt, totalFileSize);
      case Adds(k) => AddsKeeps(b, k, totalFileSize);
      case Checkpoints(k, c, isGlobal) => CheckpointsKeeps(b, k, c, isGlobal, totalFileSize);
    }
  }

  ghost predicate AllPossible(b: Books, events: seq<Event>)
    decreases |events|
  {
    events == [] || (Possible(b, events[0]) && AllPossible(After(b, events[0]), events[1..]))
  }
  ghost function AfterAll(b: Books, events: seq<Event>): Books
    requires AllPossible(b, events)
    decreases |events|
  {
    if events == [] then b else AfterAll(After(b, events[0]), events[1..])
  }

  lemma ZeroPlus(s: Stats)
    ensures ZERO.Plus(s) == s
  {
  }

  /** A source as it is put in the queue, never tried. */
  predicate Fresh(s: Source) { s.block.size >= 0 && s.stats == ZERO && !s.failed }
  function Sizes(sources: seq<Source>): int { if sources == [] then 0 else sources[0].block.size + Sizes(sources[1..]) }

  predicate Unused(a: Account) { a.totals == ZERO && a.hand.Empty? && a.hist.sources == [] }
  ghost predicate Opening(b: Books) {
    && (forall i | 0 <= i < |b.queue| :: Fresh(b.queue[i])) && b.dropped == []
    && (forall k | 0 <= k < |b.accounts| :: Unused(b.accounts[k]))
  }

  lemma {:induction false} FreshQueue(queue: seq<Source>)
    requires forall i | 0 <= i < |queue| :: Fresh(queue[i])
    ensures Sum(queue) == ZERO
  {
    if queue != [] {
      FreshQueue(queue[1..]);
      assert Fresh(queue[0]);
      ZeroPlus(Sum(queue[1..]));
    }
  }

  lemma {:induction false} FreshWorth(queue: seq<Source>)
    requires forall i | 0 <= i < |queue| :: Fresh(queue[i])
    ensures Worths(queue) == Sizes(queue)
  {
    if queue != [] { FreshWorth(queue[1..]); }
  }

  lemma {:induction false} NothingTotal(list: seq<Stats>)
    requires forall k | 0 <= k < |list| :: list[k] == ZERO
    ensures Total(list) == ZERO
  {
    if list != [] {
      NothingTotal(list[1..]);
      ZeroPlus(Total(list[1..]));
    }
  }

  lemma {:induction false} NothingHeld(accounts: seq<Account>)
    requires forall k | 0 <= k < |accounts| :: Unused(accounts[k])
    ensures HeldWorth(accounts) == 0
  {
    if accounts != [] {
      NothingHeld(accounts[1..]);
      assert Unused(accounts[0]) && Held(accounts[0]) == [];
    }
  }

  lemma UnusedThreads(accounts: seq<Account>)
    requires forall k | 0 <= k < |accounts| :: Unused(accounts[k])
    ensures Total(ThreadStats(accounts)) == ZERO
  {
    NothingTotal(ThreadStats(accounts));
  }

  lemma UnusedHeld(accounts: seq<Account>)
    requires forall k | 0 <= k < |accounts| :: Unused(accounts[k])
    ensures Total(HeldStats(accounts)) == ZERO
  {
    forall k | 0 <= k < |accounts| ensures HeldStats(accounts)[k] == ZERO {
      assert Unused(accounts[k]) && Held(accounts[k]) == [];
    }
    NothingTotal(HeldStats(accounts));
  }

  lemma OpeningStats(b: Books)
    requires Opening(b)
    ensures Total(ThreadStats(b.accounts)) == SourceStats(b)
  {
    FreshQueue(b.queue);
    UnusedThreads(b.accounts);
    UnusedHeld(b.accounts);
    ThreeZeros(Sum(b.queue), Sum(b.dropped), Total(HeldStats(b.accounts)));
  }

  lemma ThreeZeros(a: Stats, b: Stats, c: Stats)
    requires a == ZERO && b == ZERO && c == ZERO
    ensures a.Plus(b).Plus(c) == ZERO
  {
  }

  lemma OpeningInBalance(b: Books)
    requires Opening(b)
    ensures InBalance(b, Sizes(b.queue))
  {
    OpeningStats(b);
    FreshWorth(b.queue);
    NothingHeld(b.accounts);
  }

  lemma {:induction false} EventsKeep(b: Books, events: seq<Event>, totalFileSize: int)
    requires InBalance(b, totalFileSize) && AllPossible(b, events)
    ensures InBalance(AfterAll(b, events), totalFileSize)
    decreases |events|
  {
    if events != [] {
      EventKeeps(b, events[0], totalFileSize);
      EventsKeep(After(b, events[0]), events[1..], totalFileSize);
    }
  }

  /**
   At every moment of every transfer the thread totals are the sums over all sources, so the checks of
   validateTransferStats hold, and the effective bytes are the total file size less what the sources
   not currently sent still have to send.
   */
  lemma {:induction false} BooksBalance(b: Books, events: seq<Event>)
    requires Opening(b) && AllPossible(b, events)
    ensures InBalance(AfterAll(b, events), Sizes(b.queue))
  {
    OpeningInBalance(b);
    EventsKeep(b, events, Sizes(b.queue));
  }

  // ---------------------------------------------------------------- every attempt counts

  /** Attempts on record, successful and failed. */
  function Attempts(s: Stats): int { s.numBlocks + s.failedAttempts }
  function Grand(b: Books): Stats { Total(ThreadStats(b.accounts)) }

  function Tries(events: seq<Event>): nat {
    if events == [] then 0 else (if events[0].Sends? then 1 else 0) + Tries(events[1..])
  }
  /** Bytes the event puts on a connection. */
  function Wrote(b: Books, e: Event): int
    requires Possible(b, e)
  {
    if !e.Sends? then 0 else match e.attempt
      case Success(_) => b.accounts[e.k].hand.source.block.size
      case Failure(written) => written
  }
  ghost function WroteAll(b: Books, events: seq<Event>): int
    requires AllPossible(b, events)
    decreases |events|
  {
    if events == [] then 0 else Wrote(b, events[0]) + WroteAll(After(b, events[0]), events[1..])
  }

  lemma {:induction false} CorrectedSame(totals: Stats, rest: seq<Source>, c: Checkpoint)
    ensures Attempts(Corrected(totals, rest, c)) == Attempts(totals)
    ensures Corrected(totals, rest, c).dataBytes == totals.dataBytes
    decreases |rest|
  {
    if rest != [] {
      var n := |rest| - 1;
      CorrectedSame(totals.Plus(Correction(rest[n], if n == 0 then Some(c) else None)), rest[..n], c);
    }
  }

  lemma EventCounts(b: Books, e: Event)
    requires Possible(b, e)
    ensures Attempts(Grand(After(b, e))) == Attempts(Grand(b)) + if e.Sends? then 1 else 0
    ensures Grand(After(b, e)).dataBytes == Grand(b).dataBytes + Wrote(b, e)
  {
    if !e.OpenFails? {
      PutTotals(b.accounts, e.k, After(b, e).accounts[e.k]);
      if e.Checkpoints? && e.c.numBlocks <= |b.accounts[e.k].hist.sources| {
        CorrectedSame(b.accounts[e.k].totals, b.accounts[e.k].hist.sources[e.c.numBlocks..], e.c);
      }
    }
  }

  lemma {:induction false} EventsCount(b: Books, events: seq<Event>)
    requires AllPossible(b, events)
    ensures Attempts(Grand(AfterAll(b, events))) == Attempts(Grand(b)) + Tries(events)
    ensures Grand(AfterAll(b, events)).dataBytes == Grand(b).dataBytes + WroteAll(b, events)
    decreases |events|
  {
    if events != [] {
      EventCounts(b, events[0]);
      EventsCount(After(b, events[0]), events[1..]);
    }
  }

  /**
   Whatever happens to its source later, every attempt to send one is on record once, as a block or as a failed attempt,
   and so is every byte it put on a connection.
   */
  lemma {:induction false} EveryAttemptCounts(b: Books, events: seq<Event>)
    requires Opening(b) && AllPossible(b, events)
    ensures Attempts(Grand(AfterAll(b, events))) == Tries(events)
    ensures Grand(AfterAll(b, events)).dataBytes == WroteAll(b, events)
  {
    NothingTried(b);
    EventsCount(b, events);
  }

  lemma NothingTried(b: Books)
    requires Opening(b)
    ensures Attempts(Grand(b)) == 0 && Grand(b).dataBytes == 0
  {
    UnusedThreads(b.accounts);
  }

  // ---------------------------------------------------------------- headers

  /** Lengths of the headers that went out with a thread's sources and with the one in its hand; 0 if one failed. */
  datatype Headers = Headers(hist: seq<int>, hand: int)

  /** What an event does to them, by itself. */
  function HeadersAfter(h: Headers, a: Account, e: Event): Headers {
    match e
    case Opens(_, _) => h.(hand := 0)
    case OpenFails(_) => h
    case Sends(_, attempt) => h.(hand := if attempt.Success? then attempt.headerBytes else 0)
    case Adds(_) => if a.hist.globalCheckpoint then h.(hand := 0) else Headers(h.hist + [h.hand], 0)
    case Checkpoints(_, c, isGlobal) =>
      if Judge(|a.hist.sources|, a.hist.last, c, isGlobal) == INVALID_CHECKPOINT
         || !(0 <= c.numBlocks <= |h.hist|) then h
      else h.(hist := h.hist[..c.numBlocks])
  }
  ghost function AllHeadersAfter(hs: seq<Headers>, b: Books, e: Event): seq<Headers> {
    if e.OpenFails? || e.k >= |hs| || e.k >= |b.accounts| then hs
    else hs[e.k := HeadersAfter(hs[e.k], b.accounts[e.k], e)]
  }
  ghost function HeadersOf(hs: seq<Headers>, b: Books, events: seq<Event>): seq<Headers>
    requires AllPossible(b, events)
    decreases |events|
  {
    if events == [] then hs else HeadersOf(AllHeadersAfter(hs, b, events[0]), After(b, events[0]), events[1..])
  }

  predicate HasHeader(source: Source, n: int) { source.stats.effectiveHeaderBytes == n }
  ghost predicate Carries(h: Headers, a: Account) {
    && |h.hist| == |a.hist.sources| && (forall i | 0 <= i < |h.hist| :: HasHeader(a.hist.sources[i], h.hist[i]))
    && (if a.hand.Done? then HasHeader(a.hand.source, h.hand) else h.hand == 0)
  }
  ghost predicate AllCarry(hs: seq<Headers>, accounts: seq<Account>) {
    |hs| == |accounts| && forall k | 0 <= k < |hs| :: Carries(hs[k], accounts[k])
  }

  lemma EventCarries(hs: seq<Headers>, b: Books, e: Event)
    requires AllOrderly(b) && Possible(b, e) && AllCarry(hs, b.accounts)
    ensures AllCarry(AllHeadersAfter(hs, b, e), After(b, e).accounts)
  {
    if !e.OpenFails? {
      assert Orderly(b.accounts[e.k]) && Carries(hs[e.k], b.accounts[e.k]);
    }
  }

  function Add1(list: seq<int>): int { if list == [] then 0 else list[0] + Add1(list[1..]) }
  function HeaderTotal(hs: seq<Headers>): int {
    if hs == [] then 0 else Add1(hs[0].hist) + hs[0].hand + HeaderTotal(hs[1..])
  }

  lemma {:induction false} WaitingHaveNone(sources: seq<Source>)
    requires AllWaiting(sources)
    ensures Sum(sources).effectiveHeaderBytes == 0
  {
    if sources != [] {
      assert Waiting(sources[0]);
      WaitingHaveNone(sources[1..]);
    }
  }

  lemma {:induction false} SourcesHave(sources: seq<Source>, list: seq<int>)
    requires |sources| == |list| && forall i | 0 <= i < |list| :: HasHeader(sources[i], list[i])
    ensures Sum(sources).effectiveHeaderBytes == Add1(list)
  {
    if list != [] {
      assert HasHeader(sources[0], list[0]);
      SourcesHave(sources[1..], list[1..]);
    }
  }

  lemma AccountHas(h: Headers, a: Account)
    requires Carries(h, a) && Orderly(a)
    ensures Sum(Held(a)).effectiveHeaderBytes == Add1(h.hist) + h.hand
  {
    SourcesHave(a.hist.sources, h.hist);
    SumAppend(a.hist.sources, InHand(a.hand));
    if !a.hand.Empty? { SumOfOne(a.hand.source); }
  }

  lemma {:induction false} AccountsHave(hs: seq<Headers>, accounts: seq<Account>)
    requires AllCarry(hs, accounts) && forall k | 0 <= k < |accounts| :: Orderly(accounts[k])
    ensures Total(HeldStats(accounts)).effectiveHeaderBytes == HeaderTotal(hs)
  {
    if accounts != [] {
      assert Carries(hs[0], accounts[0]) && Orderly(accounts[0]);
      AccountHas(hs[0], accounts[0]);
      assert HeldStats(accounts)[1..] == HeldStats(accounts[1..]);
      AccountsHave(hs[1..], accounts[1..]);
    }
  }

  lemma {:induction false} EventsCarry(hs: seq<Headers>, b: Books, events: seq<Event>, totalFileSize: int)
    requires InBalance(b, totalFileSize) && AllPossible(b, events) && AllCarry(hs, b.accounts)
    ensures AllCarry(HeadersOf(hs, b, events), AfterAll(b, events).accounts)
    decreases |events|
  {
    if events != [] {
      EventCarries(hs, b, events[0]);
      EventKeeps(b, events[0], totalFileSize);
      EventsCarry(AllHeadersAfter(hs, b, events[0]), After(b, events[0]), events[1..], totalFileSize);
    }
  }

  /** The effective header bytes are the headers of the sources that count as sent, and of no others. */
  lemma {:induction false} HeadersCount(b: Books, events: seq<Event>)
    requires Opening(b) && AllPossible(b, events)
    ensures var hs := HeadersOf(seq(|b.accounts|, k => Headers([], 0)), b, events);
            Grand(AfterAll(b, events)).effectiveHeaderBytes == HeaderTotal(hs)
  {
    var hs0 := seq(|b.accounts|, k => Headers([], 0));
    OpeningInBalance(b);
    EventsCarry(hs0, b, events, Sizes(b.queue));
    EventsKeep(b, events, Sizes(b.queue));
    var e := AfterAll(b, events);
    AccountsHave(HeadersOf(hs0, b, events), e.accounts);
    WaitingHaveNone(e.queue);
    WaitingHaveNone(e.dropped);
  }

  // ---------------------------------------------------------------- the final checks

  /** The four sums validateTransferStats compares. */
  predicate Agree(a: Stats, b: Stats) {
    && a.failedAttempts == b.failedAttempts && a.dataBytes == b.dataBytes
    && a.effectiveDataBytes == b.effectiveDataBytes && a.numBlocks == b.numBlocks
  }

  method AddUp(list: seq<Stats>) returns (sum: Stats)
    ensures Agree(sum, Total(list))
  {
    var failedAttempts, dataBytes, effectiveDataBytes, numBlocks := 0, 0, 0, 0;
    var i := |list|;
    while i > 0
      invariant 0 <= i <= |list|
      invariant Agree(Stats(failedAttempts, dataBytes, 0, effectiveDataBytes, numBlocks), Total(list[i..]))
    {
      i := i - 1;
      assert list[i..][1..] == list[i + 1..];
      failedAttempts := failedAttempts + list[i].failedAttempts;
      dataBytes := dataBytes + list[i].dataBytes;
      effectiveDataBytes := effectiveDataBytes + list[i].effectiveDataBytes;
      numBlocks := numBlocks + list[i].numBlocks;
    }
    sum := Stats(failedAttempts, dataBytes, 0, effectiveDataBytes, numBlocks);
    assert list[0..] == list;
  }

  function StatsList(sources: seq<Source>): (r: seq<Stats>)
    ensures |r| == |sources| && forall i | 0 <= i < |r| :: r[i] == sources[i].stats
  {
    seq(|sources|, i requires 0 <= i < |sources| => sources[i].stats)
  }

  lemma {:induction false} StatsListTotal(sources: seq<Source>)
    ensures Total(StatsList(sources)) == Sum(sources)
  {
    if sources != [] {
      StatsListTotal(sources[1..]);
      assert StatsList(sources)[1..] == StatsList(sources[1..]);
    }
  }

  lemma AgreeOneMore(list: seq<Stats>, i: nat, one: Stats, sum: Stats)
    requires i < |list| && Agree(one, list[i]) && Agree(sum, Total(list[i + 1..]))
    ensures Agree(one.Plus(sum), Total(list[i..]))
  {
    assert list[i..][1..] == list[i + 1..];
  }

  /** The histories' share of the source sums, one history after the other. */
  method AddUpHeld(accounts: seq<Account>) returns (sum: Stats)
    ensures Agree(sum, Total(HeldStats(accounts)))
  {
    sum := ZERO;
    ghost var list := HeldStats(accounts);
    var i := |accounts|;
    while i > 0
      invariant 0 <= i <= |accounts|
      invariant Agree(sum, Total(list[i..]))
    {
      i := i - 1;
      var one := AddUp(StatsList(Held(accounts[i])));
      StatsListTotal(Held(accounts[i]));
      AgreeOneMore(list, i, one, sum);
      sum := one.Plus(sum);
    }
    assert list[0..] == list;
  }

  /** On books in balance none of the four checks of validateTransferStats can fire. */
  method ValidateTransferStats(b: Books, ghost totalFileSize: int) returns (ok: bool)
    requires InBalance(b, totalFileSize)
    ensures ok
  {
    var transferred := AddUpHeld(b.accounts);
    var failed := AddUp(StatsList(b.queue + b.dropped));
    var threads := AddUp(ThreadStats(b.accounts));
    StatsListTotal(b.queue + b.dropped);
    SumAppend(b.queue, b.dropped);
    ok := && transferred.failedAttempts + failed.failedAttempts == threads.failedAttempts
          && transferred.dataBytes + failed.dataBytes == threads.dataBytes
          && transferred.effectiveDataBytes + failed.effectiveDataBytes == threads.effectiveDataBytes
          && transferred.numBlocks + failed.numBlocks == threads.numBlocks;
  }

  function Unsent(sources: seq<Source>): int {
    if sources == [] then 0 else Remaining(sources[0]) + Unsent(sources[1..])
  }

  lemma {:induction false} WorthSplits(sources: seq<Source>)
    ensures Worths(sources) == Sum(sources).effectiveDataBytes + Unsent(sources)
  {
    if sources != [] { WorthSplits(sources[1..]); }
  }

  lemma {:induction false} UnsentZero(sources: seq<Source>)
    requires forall i | 0 <= i < |sources| :: sources[i].block.size >= 0
    ensures Unsent(sources) >= 0
    ensures Unsent(sources) == 0 <==> forall i | 0 <= i < |sources| :: Sent(sources[i]) || sources[i].block.size == 0
  {
    if sources != [] {
      UnsentZero(sources[1..]);
      assert sources == [sources[0]] + sources[1..];
    }
  }

  function UnsentHeld(accounts: seq<Account>): int {
    if accounts == [] then 0 else Unsent(Held(accounts[0])) + UnsentHeld(accounts[1..])
  }

  lemma {:induction false} HeldWorthSplits(accounts: seq<Account>)
    ensures HeldWorth(accounts) == Total(HeldStats(accounts)).effectiveDataBytes + UnsentHeld(accounts)
  {
    if accounts != [] {
      HeldWorthSplits(accounts[1..]);
      assert HeldStats(accounts)[1..] == HeldStats(accounts[1..]);
      WorthSplits(Held(accounts[0]));
    }
  }

  ghost predicate SentOrEmpty(sources: seq<Source>) {
    forall i | 0 <= i < |sources| :: Sent(sources[i]) || sources[i].block.size == 0
  }

  ghost predicate AllSentOrEmpty(accounts: seq<Account>) {
    accounts == [] || (SentOrEmpty(Held(accounts[0])) && AllSentOrEmpty(accounts[1..]))
  }

  lemma OrderlyUnsent(a: Account)
    requires Orderly(a)
    ensures Unsent(Held(a)) >= 0 && (Unsent(Held(a)) == 0 <==> SentOrEmpty(Held(a)))
  {
    UnsentZero(Held(a));
  }

  lemma {:induction false} UnsentHeldZero(accounts: seq<Account>)
    requires forall k | 0 <= k < |accounts| :: Orderly(accounts[k])
    ensures UnsentHeld(accounts) >= 0 && (UnsentHeld(accounts) == 0 <==> AllSentOrEmpty(accounts))
  {
    if accounts != [] {
      UnsentHeldZero(accounts[1..]);
      OrderlyUnsent(accounts[0]);
    }
  }

  /** Effective bytes are the total file size less what is still to be sent. */
  lemma EffectiveBytes(b: Books, totalFileSize: int)
    requires InBalance(b, totalFileSize)
    ensures Total(ThreadStats(b.accounts)).effectiveDataBytes
            == totalFileSize - (Unsent(b.queue) + Unsent(b.dropped) + UnsentHeld(b.accounts))
  {
    WorthSplits(b.queue);
    WorthSplits(b.dropped);
    HeldWorthSplits(b.accounts);
  }

  /**
   The report's size check: the threads' effective bytes reach the total file size exactly when every
   source is sent or has nothing to send -- so a file of no bytes that was never sent goes unnoticed.
   */
  lemma SizeCheckExact(b: Books, totalFileSize: int)
    requires InBalance(b, totalFileSize)
    ensures Total(ThreadStats(b.accounts)).effectiveDataBytes <= totalFileSize
    ensures Total(ThreadStats(b.accounts)).effectiveDataBytes == totalFileSize <==>
              SentOrEmpty(b.queue) && SentOrEmpty(b.dropped) && AllSentOrEmpty(b.accounts)
  {
    EffectiveBytes(b, totalFileSize);
    UnsentZero(b.queue);
    UnsentZero(b.dropped);
    UnsentHeldZero(b.accounts);
  }
}
