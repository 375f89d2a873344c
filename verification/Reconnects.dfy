/**
 How often one sender thread can go through READ_LOCAL_CHECKPOINT (SenderThread.cpp,
 util/ThreadTransferHistory.cpp).  A pass that makes no progress raises a counter that CONNECT
 checks against max_transfer_retries; a pass that makes progress resets it, but completes another
 block or credits another byte, and there are only so many of those.
 */
module Reconnects {
  import opened Protocol
  import opened Blocks
  import opened Link
  import opened Delivery
  import opened Credits

  // ---------------------------------------------------------------- sources are neither made nor lost

  ghost function OnThreads(ts: seq<Thread>): nat {
    if ts == [] then 0 else |All(ts[0])| + OnThreads(ts[1..])
  }
  lemma {:induction false} OnThreadsPut(ts: seq<Thread>, k: nat, t: Thread)
    requires k < |ts|
    ensures OnThreads(ts[k := t]) == OnThreads(ts) - |All(ts[k])| + |All(t)|
    ensures OnThreads(ts) >= |All(ts[k])|
  {
    if k == 0 {
      assert ts[k := t][1..] == ts[1..];
    } else {
      assert ts[k := t][1..] == ts[1..][k - 1 := t];
      OnThreadsPut(ts[1..], k - 1, t);
    }
  }

  ghost function Sources(s: Sys): nat { |s.queue| + OnThreads(s.threads) }

  lemma StillSources(s: Sys, a: Action)
    requires Enabled(s, a) && Still(a) && Inv(s.threads[a.k])
    ensures Sources(Next(s, a)) == Sources(s)
  {
    OwnShape(s, a);
    StillIsStill(s, a);
    OnThreadsPut(s.threads, a.k, OwnNext(s, a));
  }

  /** A history cut short returns exactly the blocks it loses. */
  lemma CutSources(s: Sys, k: nat, t': Thread, c: Checkpoint, isGlobal: bool, queue: multiset<Block>)
    requires k < |s.threads|
    requires var t := s.threads[k];
             && queue == s.queue + multiset(Returned(t, c, isGlobal)) && t'.inHand == t.inHand
             && t'.history == (if Judge(|t.history|, t.last, c, isGlobal) == INVALID_CHECKPOINT || c.numBlocks < 0
                               then t.history else t.history[..c.numBlocks])
    ensures |queue| + OnThreads(s.threads[k := t']) == Sources(s)
  {
    OnThreadsPut(s.threads, k, t');
  }

  lemma StepSources(s: Sys, a: Action)
    requires SysInv(s, {}) && Enabled(s, a)
    ensures Sources(Next(s, a)) == Sources(s)
  {
    assert Inv(s.threads[a.k]);
    if Still(a) { StillSources(s, a); } else if a.ApplyGlobal? { GlobalSources(s, a.k); } else { MovedSources(s, a); }
  }

  lemma MovedSources(s: Sys, a: Action)
    requires Enabled(s, a) && (a.ApplyLocal? || a.Take? || a.Add?)
    ensures Sources(Next(s, a)) == Sources(s)
  {
    var t := s.threads[a.k];
    match a {
      case ApplyLocal(k) => CutSources(s, k, DoApplyLocal(t), t.checkpointOn.value.msg, false, Next(s, a).queue);
      case Take(k, b) => TakeSources(s, k, b);
      case Add(k, written) => AddSources(s, k, written);
    }
  }

  lemma AddSources(s: Sys, k: nat, written: bool)
    requires Enabled(s, Add(k, written))
    ensures Sources(Next(s, Add(k, written))) == Sources(s)
  {
    OnThreadsPut(s.threads, k, DoAdd(s.threads[k], written));
  }

  lemma TakeSources(s: Sys, k: nat, b: Block)
    requires k < |s.threads| && b in s.queue && s.threads[k].inHand.None?
    ensures |s.queue - multiset{b}| + OnThreads(s.threads[k := DoTake(s.threads[k], b)]) == Sources(s)
  {
    OnThreadsPut(s.threads, k, DoTake(s.threads[k], b));
  }

  lemma GlobalSources(s: Sys, k: nat)
    requires SysInv(s, {}) && Enabled(s, ApplyGlobal(k))
    ensures Sources(Next(s, ApplyGlobal(k))) == Sources(s)
  {
    var t, c := s.threads[k], s.listed[s.threads[k].sender.next];
    NeverOwn(s, k);
    var s1 := AfterGlobal(s, c);
    CutSources(s, c.port, DoGlobal(s.threads[c.port], c), c, true, s1.queue);
    assert s1.threads[k] == t && Next(s, ApplyGlobal(k)) == Put(s1, k, DoBlock(t));
    OnThreadsPut(s1.threads, k, DoBlock(t));
  }

  // ---------------------------------------------------------------- passes through READ_LOCAL_CHECKPOINT

  function LocalVerdict(t: Thread): Verdict
    requires CanApplyLocal(t)
  {
    Judge(|t.history|, t.last, t.checkpointOn.value.msg, false)
  }

  /** The checkpoint moved the transfer on, and the counter is reset. */
  ghost predicate Gains(s: Sys, a: Action, k: nat)
    requires Enabled(s, a)
  {
    a == ApplyLocal(k) && LocalVerdict(s.threads[k]) == OK
  }
  /** The checkpoint could not be read, or shows no progress: the counter goes up. */
  ghost predicate Stalls(s: Sys, a: Action, k: nat)
    requires Enabled(s, a)
  {
    || (a == Own(k, LoseConnection) && s.threads[k].sender == ReadingCheckpoint)
    || (a == ApplyLocal(k) && LocalVerdict(s.threads[k]) == NO_PROGRESS)
  }

  datatype Passes = Passes(gains: nat, stalls: nat, counter: nat)

  ghost function Pass(p: Passes, s: Sys, a: Action, k: nat): Passes
    requires Enabled(s, a)
  {
    if Gains(s, a, k) then Passes(p.gains + 1, p.stalls, 0)
    else if Stalls(s, a, k) then Passes(p.gains, p.stalls + 1, p.counter + 1)
    else p
  }

  /** What thread `k` has been through along a run; `counter` is its numReconnectWithoutProgress_. */
  ghost function PassesOf(s: Sys, trace: seq<Action>, k: nat): Passes
    requires Runs(s, trace)
  {
    if trace == [] then Passes(0, 0, 0)
    else
      var before := trace[..|trace| - 1];
      Pass(PassesOf(s, before, k), Last(s, before), trace[|trace| - 1], k)
  }

  /** CONNECT gives up once the counter has reached the limit. */
  ghost predicate GivesUp(s: Sys, trace: seq<Action>, k: nat, retries: nat)
    requires Runs(s, trace)
  {
    trace == [] ||
    var before := trace[..|trace| - 1];
    && GivesUp(s, before, k, retries)
    && (trace[|trace| - 1] == Own(k, Connect) ==> PassesOf(s, before, k).counter < retries)
  }

  // ---------------------------------------------------------------- progress is bounded

  /** Blocks completed and bytes credited, as far as thread `k` has been told. */
  ghost function Reached(s: Sys, credits: multiset<FileByte>, k: nat): int
    requires k < |s.threads|
  {
    ReachedBy(s.threads[k], |credits|)
  }
  function ReachedBy(t: Thread, credited: nat): int {
    if t.last.Some? then 1 + t.last.value.numBlocks + credited
    else if t.sender == Ended then 1 + |t.done| + credited
    else 0
  }

  /** A byte that some source still held need not be sent any more. */
  ghost predicate Relieves(s: Sys, s': Sys) { exists x :: Held(s', x) < Held(s, x) }

  lemma CreditRelieves(s: Sys, a: Action, credits: multiset<FileByte>, q0: multiset<Block>, empties: set<int>)
    requires Enabled(s, a) && LedgerInv(s, credits, q0, empties)
    requires LedgerInv(Next(s, a), credits + CreditOf(s, a), q0, empties)
    ensures Relieves(s, Next(s, a)) <==> CreditOf(s, a) != multiset{}
  {
    var s', more := Next(s, a), CreditOf(s, a);
    forall x ensures Held(s', x) + more[x] == Held(s, x) {
      assert Held(s, x) + credits[x] == InBag(q0, x) && Held(s', x) + (credits + more)[x] == InBag(q0, x);
    }
    if more != multiset{} {
      var x :| x in more;
      assert Held(s', x) < Held(s, x);
    }
  }

  /** A checkpoint that repeats the last one, or counts no byte, credits nothing. */
  lemma RepeatsCreditNothing(s: Sys, k: nat, credits: multiset<FileByte>, q0: multiset<Block>, empties: set<int>)
    requires LedgerInv(s, credits, q0, empties) && Enabled(s, ApplyLocal(k)) && s.threads[k].last.Some?
    requires var l, c := s.threads[k].last.value, s.threads[k].checkpointOn.value.msg;
             c.lastBlockReceivedBytes == 0 ||
             (c.lastBlockSeqId == l.lastBlockSeqId && c.lastBlockOffset == l.lastBlockOffset
              && c.lastBlockReceivedBytes == l.lastBlockReceivedBytes)
    ensures CreditOf(s, ApplyLocal(k)) == multiset{}
  {
    var t := s.threads[k];
    var c := t.checkpointOn.value.msg;
    assert Inv(t) && Vouched(credits, t);
    CompletedArePrefix(t);
    if 0 <= c.numBlocks < |t.history| && c.lastBlockReceivedBytes > 0 {
      assert All(t)[c.numBlocks] == t.history[c.numBlocks];
      CreditedIsGone(s, credits, q0, empties, k, c.numBlocks);
    }
  }

  /** A count for another block than last time credits its first byte. */
  lemma NewCountCredits(s: Sys, k: nat, credits: multiset<FileByte>, q0: multiset<Block>, empties: set<int>)
    requires LedgerInv(s, credits, q0, empties) && Enabled(s, ApplyLocal(k)) && s.threads[k].last.Some?
    requires var l, c := s.threads[k].last.value, s.threads[k].checkpointOn.value.msg;
             && c.numBlocks == l.numBlocks && c.lastBlockReceivedBytes != 0
             && !(c.lastBlockSeqId == l.lastBlockSeqId && c.lastBlockOffset == l.lastBlockOffset)
    ensures CreditOf(s, ApplyLocal(k)) != multiset{}
  {
    var t := s.threads[k];
    var c := t.checkpointOn.value.msg;
    assert Inv(t) && Vouched(credits, t);
    CompletedArePrefix(t);
    assert c.lastBlockReceivedBytes > 0 && !t.globalCheckpoint && !Stale(t);
    assert All(t) == t.history && Live(t);
    var b := t.history[|t.done|];
    PrefixHolds(b, c.lastBlockReceivedBytes, FileByte(b.seqId, b.offset));
    assert FileByte(b.seqId, b.offset) in CreditOf(s, ApplyLocal(k));
  }

  lemma VerdictTells(t: Thread)
    requires Inv(t) && CanApplyLocal(t) && t.last.Some?
    ensures var c := t.checkpointOn.value.msg;
            && (DoApplyLocal(t).sender == Ended <==> Recounts(t.last, c))
            && (DoApplyLocal(t).sender == Sending <==> !Recounts(t.last, c))
            && (LocalVerdict(t) == OK <==> !Recounts(t.last, c) && Newer(t.last.value, c))
            && (LocalVerdict(t) == NO_PROGRESS <==> !Recounts(t.last, c) && !Newer(t.last.value, c))
  {
    CompletedArePrefix(t);
  }

  /** Newer is what completes a block or credits a byte. */
  lemma NewerIff(s: Sys, k: nat, credits: multiset<FileByte>, q0: multiset<Block>, empties: set<int>)
    requires LedgerInv(s, credits, q0, empties) && Enabled(s, ApplyLocal(k)) && s.threads[k].last.Some?
    requires !Recounts(s.threads[k].last, s.threads[k].checkpointOn.value.msg)
    ensures var t := s.threads[k];
            Newer(t.last.value, t.checkpointOn.value.msg) <==>
              |t.done| > t.last.value.numBlocks || CreditOf(s, ApplyLocal(k)) != multiset{}
  {
    var t := s.threads[k];
    var l, c := t.last.value, t.checkpointOn.value.msg;
    assert Inv(t);
    CompletedArePrefix(t);
    if c.numBlocks == l.numBlocks {
      if Newer(l, c) {
        NewCountCredits(s, k, credits, q0, empties);
      } else {
        RepeatsCreditNothing(s, k, credits, q0, empties);
      }
    }
  }

  ghost predicate Advances(s: Sys, k: nat)
    requires Enabled(s, ApplyLocal(k)) && s.threads[k].last.Some?
  {
    |s.threads[k].done| > s.threads[k].last.value.numBlocks || CreditOf(s, ApplyLocal(k)) != multiset{}
  }

  /**
   With an earlier checkpoint on record, a pass ends the thread exactly on a recount; otherwise it resets the counter if
   it completes a block or credits a byte, and raises it if it does neither.
   */
  lemma PassProgress(s: Sys, k: nat, credits: multiset<FileByte>, q0: multiset<Block>, empties: set<int>)
    requires LedgerInv(s, credits, q0, empties) && Enabled(s, ApplyLocal(k)) && s.threads[k].last.Some?
    ensures var t := s.threads[k]; var again := Recounts(t.last, t.checkpointOn.value.msg);
            && (DoApplyLocal(t).sender == Ended <==> again) && (DoApplyLocal(t).sender == Sending <==> !again)
            && (Gains(s, ApplyLocal(k), k) <==> !again && Advances(s, k))
            && (Stalls(s, ApplyLocal(k), k) <==> !again && !Advances(s, k))
  {
    var t := s.threads[k];
    assert Inv(t);
    VerdictTells(t);
    if !Recounts(t.last, t.checkpointOn.value.msg) { NewerIff(s, k, credits, q0, empties); }
  }

  /** The thread's last checkpoint never moves back. */
  ghost predicate Onward(t: Thread, t': Thread) {
    && |t.done| <= |t'.done|
    && (t.sender == Ended ==> t'.sender == Ended)
    && (t.last.Some? && t'.last.Some? ==> t.last.value.numBlocks <= t'.last.value.numBlocks)
    && (t.last.Some? && t'.last.None? ==> t'.sender == Ended)
    && (t.last.None? && t'.last.Some? && t.sender == Ended ==> |t.done| <= t'.last.value.numBlocks)
    && (t'.last.Some? ==> 0 <= t'.last.value.numBlocks) && (t.last.Some? ==> t.last.value.numBlocks <= |t.done|)
  }

  lemma MoveOnward(t: Thread, m: Move, listed: nat)
    requires Inv(t) && CanMove(t, m, listed)
    ensures Onward(t, DoMove(t, m, listed))
  {
  }

  lemma LocalOnward(t: Thread)
    requires Inv(t) && CanApplyLocal(t)
    ensures Onward(t, DoApplyLocal(t))
  {
    CompletedArePrefix(t);
  }

  lemma OwnOnward(s: Sys, a: Action)
    requires Enabled(s, a) && !a.ApplyGlobal? && Inv(s.threads[a.k])
    ensures Onward(s.threads[a.k], OwnNext(s, a))
  {
    match a {
      case Own(k, m) => MoveOnward(s.threads[k], m, |s.listed|);
      case ApplyLocal(k) => LocalOnward(s.threads[k]);
      case Take(_, _) =>
      case Add(_, _) =>
      case SendDone(_) =>
      case Unblock(_) =>
      case ReceiveBlock(_, _) =>
      case ReceivePart(_, _, _) =>
      case Decide(_) =>
      case Die(_) =>
      case Leave(_) =>
    }
  }

  lemma GlobalOnward(s: Sys, k: nat, j: nat)
    requires SysInv(s, {}) && Enabled(s, ApplyGlobal(k)) && j < |s.threads|
    ensures j < |Next(s, ApplyGlobal(k)).threads| && Onward(s.threads[j], Next(s, ApplyGlobal(k)).threads[j])
    ensures Next(s, ApplyGlobal(k)).threads[j].sender != s.threads[j].sender ==>
              j == k && Next(s, ApplyGlobal(k)).threads[j].sender.Blocked?
  {
    var t, c := s.threads[k], s.listed[s.threads[k].sender.next];
    NeverOwn(s, k);
    assert Inv(s.threads[j]) && Inv(s.threads[c.port]);
    DeadOnward(s.threads[c.port], c);
    var ts := s.threads[c.port := DoGlobal(s.threads[c.port], c)];
    assert Next(s, ApplyGlobal(k)).threads == ts[k := DoBlock(ts[k])];
  }

  lemma DeadOnward(t: Thread, c: Checkpoint)
    requires Inv(t) && c == LocalCheckpoint(t)
    ensures Onward(t, DoGlobal(t, c)) && DoGlobal(t, c).sender == t.sender
  {
  }

  lemma StepOnward(s: Sys, a: Action, j: nat)
    requires SysInv(s, {}) && Enabled(s, a) && j < |s.threads|
    ensures j < |Next(s, a).threads| && Onward(s.threads[j], Next(s, a).threads[j])
  {
    if a.ApplyGlobal? {
      GlobalOnward(s, a.k, j);
    } else {
      OwnShape(s, a);
      assert Inv(s.threads[a.k]) && Inv(s.threads[j]);
      OwnStepOnward(s, a, j, Next(s, a).threads[j]);
    }
  }

  lemma OwnStepOnward(s: Sys, a: Action, j: nat, t': Thread)
    requires Enabled(s, a) && j < |s.threads| && !a.ApplyGlobal? && Inv(s.threads[a.k]) && Inv(s.threads[j])
    requires t' == s.threads[a.k := OwnNext(s, a)][j]
    ensures Onward(s.threads[j], t')
  {
    if a.k == j { OwnOnward(s, a); }
  }

  lemma OnwardReaches(t: Thread, t': Thread, n: nat, n': nat)
    requires Onward(t, t') && n <= n'
    ensures ReachedBy(t', n') >= ReachedBy(t, n)
  {
  }

  lemma GainReaches(s: Sys, k: nat, credits: multiset<FileByte>, q0: multiset<Block>, empties: set<int>)
    requires LedgerInv(s, credits, q0, empties) && Enabled(s, ApplyLocal(k)) && Gains(s, ApplyLocal(k), k)
    ensures ReachedBy(DoApplyLocal(s.threads[k]), |credits + CreditOf(s, ApplyLocal(k))|) >
            ReachedBy(s.threads[k], |credits|)
  {
    var t := s.threads[k];
    assert Inv(t);
    CompletedArePrefix(t);
    if t.last.Some? { PassProgress(s, k, credits, q0, empties); }
  }

  lemma ReachedGrows(s: Sys, a: Action, k: nat, credits: multiset<FileByte>, q0: multiset<Block>, empties: set<int>)
    requires LedgerInv(s, credits, q0, empties) && Enabled(s, a) && k < |s.threads|
    ensures k < |Next(s, a).threads|
    ensures Reached(Next(s, a), credits + CreditOf(s, a), k) >= Reached(s, credits, k) + if Gains(s, a, k) then 1 else 0
  {
    StepOnward(s, a, k);
    if Gains(s, a, k) {
      OwnShape(s, a);
      GainReaches(s, k, credits, q0, empties);
    } else {
      OnwardReaches(s.threads[k], Next(s, a).threads[k], |credits|, |credits + CreditOf(s, a)|);
    }
  }

  // ---------------------------------------------------------------- the bound

  ghost predicate PassInv(s: Sys, p: Passes, credits: multiset<FileByte>, k: nat, retries: nat) {
    && k < |s.threads| && p.gains <= Reached(s, credits, k)
    && p.stalls <= p.gains * retries + p.counter && p.counter <= retries
    && (s.threads[k].sender == ReadingCheckpoint ==> p.counter < retries)
  }

  lemma MoveReading(t: Thread, m: Move, listed: nat)
    requires CanMove(t, m, listed) && DoMove(t, m, listed).sender == ReadingCheckpoint
    ensures m == Connect || (t.sender == ReadingCheckpoint && m != LoseConnection)
  {
  }

  /** The state is entered only through CONNECT, and left by every pass. */
  lemma ReadingOnlyByConnect(s: Sys, a: Action, k: nat)
    requires SysInv(s, {}) && Enabled(s, a) && k < |s.threads|
    ensures k < |Next(s, a).threads|
    ensures Next(s, a).threads[k].sender == ReadingCheckpoint ==>
              (s.threads[k].sender == ReadingCheckpoint && !Stalls(s, a, k)) || a == Own(k, Connect)
  {
    if a.ApplyGlobal? {
      GlobalOnward(s, a.k, k);
    } else {
      OwnShape(s, a);
      OwnReadingOnlyByConnect(s, a, k, Next(s, a).threads[k]);
    }
  }

  lemma OwnReadingOnlyByConnect(s: Sys, a: Action, k: nat, t': Thread)
    requires Enabled(s, a) && k < |s.threads| && !a.ApplyGlobal?
    requires t' == s.threads[a.k := OwnNext(s, a)][k]
    ensures t'.sender == ReadingCheckpoint ==>
              (s.threads[k].sender == ReadingCheckpoint && !Stalls(s, a, k)) || a == Own(k, Connect)
  {
    if a.k == k && t'.sender == ReadingCheckpoint { OwnReading(s, a); }
  }

  lemma OwnReading(s: Sys, a: Action)
    requires Enabled(s, a) && !a.ApplyGlobal? && OwnNext(s, a).sender == ReadingCheckpoint
    ensures (s.threads[a.k].sender == ReadingCheckpoint && !Stalls(s, a, a.k)) || a == Own(a.k, Connect)
  {
    match a {
      case Own(k, m) => MoveReading(s.threads[k], m, |s.listed|);
      case ApplyLocal(_) =>
      case Take(_, _) =>
      case Add(_, _) =>
      case SendDone(_) =>
      case Unblock(_) =>
      case ReceiveBlock(_, _) =>
      case ReceivePart(_, _, _) =>
      case Decide(_) =>
      case Die(_) =>
      case Leave(_) =>
    }
  }

  lemma PassStep(s: Sys, a: Action, p: Passes, k: nat, retries: nat, credits: multiset<FileByte>,
                 q0: multiset<Block>, empties: set<int>)
    requires LedgerInv(s, credits, q0, empties) && Enabled(s, a) && PassInv(s, p, credits, k, retries)
    requires a == Own(k, Connect) ==> p.counter < retries
    ensures PassInv(Next(s, a), Pass(p, s, a, k), credits + CreditOf(s, a), k, retries)
  {
    ReachedGrows(s, a, k, credits, q0, empties);
    ReadingOnlyByConnect(s, a, k);
    PassCounts(s, a, p, k, retries);
  }

  lemma PassCounts(s: Sys, a: Action, p: Passes, k: nat, retries: nat)
    requires SysInv(s, {}) && Enabled(s, a) && k < |s.threads|
    requires p.stalls <= p.gains * retries + p.counter && p.counter <= retries
    requires s.threads[k].sender == ReadingCheckpoint ==> p.counter < retries
    ensures var p' := Pass(p, s, a, k); p'.stalls <= p'.gains * retries + p'.counter && p'.counter <= retries
  {
    Distribute(p.gains, retries);
    if Stalls(s, a, k) { assert s.threads[k].sender == ReadingCheckpoint; }
  }

  lemma {:induction false} RunsKeepPasses(ports: nat, queue: multiset<Block>, empties: set<int>, trace: seq<Action>,
                                          k: nat, retries: nat)
    requires ports > 0 && WellQueued(queue, empties) && k < ports
    requires Runs(StartSys(ports, queue), trace) && GivesUp(StartSys(ports, queue), trace, k, retries)
    ensures var s := StartSys(ports, queue);
            && PassInv(Last(s, trace), PassesOf(s, trace, k), Ledger(s, trace), k, retries)
            && Sources(Last(s, trace)) == |queue|
    decreases |trace|
  {
    var s := StartSys(ports, queue);
    if trace == [] {
      NothingSent(s.threads);
      assert s.threads[k] == Start(k);
    } else {
      var before, a := trace[..|trace| - 1], trace[|trace| - 1];
      RunsKeepPasses(ports, queue, empties, before, k, retries);
      RunsKeepLedger(ports, queue, empties, before);
      StepSources(Last(s, before), a);
      PassStep(Last(s, before), a, PassesOf(s, before, k), k, retries, Ledger(s, before), queue, empties);
    }
  }

  lemma {:induction false} NothingSent(ts: seq<Thread>)
    requires forall k | 0 <= k < |ts| :: All(ts[k]) == []
    ensures OnThreads(ts) == 0
  {
    if ts != [] { NothingSent(ts[1..]); }
  }

  lemma {:induction false} CardinalityWithin<T>(m: multiset<T>, u: set<T>)
    requires forall x | x in m :: x in u && m[x] <= 1
    ensures |m| <= |u|
    decreases |u|
  {
    if m != multiset{} {
      var x :| x in m;
      CardinalityWithin(m - multiset{x}, u - {x});
    }
  }

  ghost predicate Bounded(p: Passes, blocks: nat, bytes: nat, retries: nat) {
    p.gains <= 1 + blocks + bytes && p.stalls <= (p.gains + 1) * retries
  }

  /**
   With a limit on reconnects that make no progress, a sender thread goes through READ_LOCAL_CHECKPOINT a
   bounded number of times, in every run: at most once more than there are blocks and bytes with
   progress, and at most `retries` times in between without.
   */
  lemma {:induction false} ReconnectsBounded(ports: nat, queue: multiset<Block>, empties: set<int>,
                                             bytes: set<FileByte>, trace: seq<Action>, k: nat, retries: nat)
    requires ports > 0 && WellQueued(queue, empties) && k < ports
    requires forall x | InBag(queue, x) > 0 :: x in bytes
    requires Runs(StartSys(ports, queue), trace) && GivesUp(StartSys(ports, queue), trace, k, retries)
    ensures Bounded(PassesOf(StartSys(ports, queue), trace, k), |queue|, |bytes|, retries)
  {
    var s0 := StartSys(ports, queue);
    RunsKeepPasses(ports, queue, empties, trace, k, retries);
    RunsKeepLedger(ports, queue, empties, trace);
    PassesBounded(Last(s0, trace), PassesOf(s0, trace, k), Ledger(s0, trace), queue, empties, bytes, k, retries);
  }

  lemma {:induction false} PassesBounded(s: Sys, p: Passes, credits: multiset<FileByte>, q0: multiset<Block>,
                                         empties: set<int>, bytes: set<FileByte>, k: nat, retries: nat)
    requires LedgerInv(s, credits, q0, empties) && PassInv(s, p, credits, k, retries) && Sources(s) == |q0|
    requires forall x | InBag(q0, x) > 0 :: x in bytes
    ensures Bounded(p, |q0|, |bytes|, retries)
  {
    CreditsWithin(s, credits, q0, empties, bytes);
    ReachedWithin(s, credits, k);
    Distribute(p.gains, retries);
  }

  /** What a local checkpoint does to a thread and its counter; `relieved` when a byte need not be sent any more. */
  ghost predicate Counts(p: Passes, p': Passes, t: Thread, t': Thread, relieved: bool)
    requires t.checkpointOn.Some?
  {
    if Recounts(t.last, t.checkpointOn.value.msg) then p' == p && t'.sender == Ended
    else if t.last.None? || |t.done| > t.last.value.numBlocks || relieved then
      p' == Passes(p.gains + 1, p.stalls, 0) && t'.sender == Sending
    else p' == Passes(p.gains, p.stalls + 1, p.counter + 1) && t'.sender == Sending
  }

  /**
   In every run, a local checkpoint ends the thread exactly on a recount.  Otherwise the counter is cleared if it is the
   first, if the receiver has completed a block since the last one, or if a byte need not be sent any more; and raised
   by one if none of these holds.
   */
  lemma {:induction false} ProgressCounted(ports: nat, queue: multiset<Block>, empties: set<int>, trace: seq<Action>,
                                           k: nat)
    requires ports > 0 && WellQueued(queue, empties) && Runs(StartSys(ports, queue), trace)
    requires Enabled(Last(StartSys(ports, queue), trace), ApplyLocal(k))
    ensures Runs(StartSys(ports, queue), trace + [ApplyLocal(k)])
    ensures var s0, all := StartSys(ports, queue), trace + [ApplyLocal(k)];
            var s, s' := Last(s0, trace), Last(s0, all);
            && k < |s'.threads|
            && Counts(PassesOf(s0, trace, k), PassesOf(s0, all, k), s.threads[k], s'.threads[k], Relieves(s, s'))
  {
    var s0, all := StartSys(ports, queue), trace + [ApplyLocal(k)];
    assert all[..|all| - 1] == trace && all[|all| - 1] == ApplyLocal(k);
    RunsKeepLedger(ports, queue, empties, trace);
    RunsKeepLedger(ports, queue, empties, all);
    CountedPass(Last(s0, trace), PassesOf(s0, trace, k), k, Ledger(s0, trace), queue, empties);
  }

  lemma CountedPass(s: Sys, p: Passes, k: nat, credits: multiset<FileByte>, q0: multiset<Block>, empties: set<int>)
    requires Enabled(s, ApplyLocal(k)) && LedgerInv(s, credits, q0, empties)
    requires LedgerInv(Next(s, ApplyLocal(k)), credits + CreditOf(s, ApplyLocal(k)), q0, empties)
    ensures k < |Next(s, ApplyLocal(k)).threads|
    ensures Counts(p, Pass(p, s, ApplyLocal(k), k), s.threads[k], Next(s, ApplyLocal(k)).threads[k],
                   Relieves(s, Next(s, ApplyLocal(k))))
  {
    CreditRelieves(s, ApplyLocal(k), credits, q0, empties);
    OwnShape(s, ApplyLocal(k));
    if s.threads[k].last.Some? {
      PassProgress(s, k, credits, q0, empties);
    } else {
      FirstPass(s, k);
    }
  }

  lemma FirstPass(s: Sys, k: nat)
    requires SysInv(s, {}) && Enabled(s, ApplyLocal(k)) && s.threads[k].last.None?
    ensures Gains(s, ApplyLocal(k), k) && DoApplyLocal(s.threads[k]).sender == Sending
  {
    assert Inv(s.threads[k]);
    CompletedArePrefix(s.threads[k]);
  }

  lemma Distribute(gains: nat, retries: nat)
    ensures (gains + 1) * retries == gains * retries + retries
  {
  }

  lemma {:induction false} CreditsWithin(s: Sys, credits: multiset<FileByte>, q0: multiset<Block>, empties: set<int>,
                                         bytes: set<FileByte>)
    requires LedgerInv(s, credits, q0, empties) && forall x | InBag(q0, x) > 0 :: x in bytes
    ensures |credits| <= |bytes|
  {
    forall x | x in credits ensures x in bytes && credits[x] <= 1 {
      assert Held(s, x) + credits[x] == InBag(q0, x) <= 1;
    }
    CardinalityWithin(credits, bytes);
  }

  lemma ReachedWithin(s: Sys, credits: multiset<FileByte>, k: nat)
    requires SysInv(s, {}) && k < |s.threads|
    ensures Reached(s, credits, k) <= 1 + Sources(s) + |credits|
  {
    var t := s.threads[k];
    assert Inv(t);
    OnThreadsPut(s.threads, k, t);
  }
}
