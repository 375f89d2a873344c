/**
 The books kept along the runs of a whole transfer: every step of the protocol that moves a source also moves the
 statistics (SenderThread.cpp, util/ThreadTransferHistory.cpp).  What the accounting asks of its events, that a
 checkpoint's count lies within the block it is applied to, is what the protocol keeps.
 */
module TransferBooks {
  import opened Protocol
  import opened Blocks
  import opened History
  import opened Accounting
  import Link
  import Delivery
  import Credits

  // ---------------------------------------------------------------- the same sources on both sides

  ghost predicate SameHand(hand: Hand, inHand: Option<Block>) {
    match hand
    case Empty => inHand == None
    case Open(source) => inHand == Some(source.block)
    case Done(_) => false
  }
  ghost predicate Keeps(a: Account, t: Link.Thread) {
    && BlocksOf(a.hist.sources) == t.history && a.hist.globalCheckpoint == t.globalCheckpoint && a.hist.last == t.last
    && SameHand(a.hand, t.inHand)
  }
  ghost function Bag(queue: seq<Source>): multiset<Block> { multiset(BlocksOf(queue)) }

  ghost predicate Mirrors(b: Books, s: Delivery.Sys) {
    && |b.accounts| == |s.threads| && Bag(b.queue) == s.queue
    && forall k | 0 <= k < |s.threads| :: Keeps(b.accounts[k], s.threads[k])
  }

  lemma BagPlus(queue: seq<Source>, back: seq<Source>)
    ensures Bag(queue + back) == Bag(queue) + Bag(back)
  {
    assert BlocksOf(queue + back) == BlocksOf(queue) + BlocksOf(back);
  }

  lemma {:induction false} BagReversed(s: seq<Source>)
    ensures Bag(Reversed(s)) == Bag(s)
  {
    if s != [] {
      BagReversed(s[1..]);
      BagPlus(Reversed(s[1..]), [s[0]]);
      BagPlus([s[0]], s[1..]);
      assert s == [s[0]] + s[1..];
    }
  }

  // ---------------------------------------------------------------- the events of a step

  /** The first place of the block in the queue, or the queue's end. */
  function IndexOf(queue: seq<Source>, b: Block): (i: nat)
    ensures i <= |queue| && (i < |queue| ==> queue[i].block == b)
    ensures i == |queue| ==> b !in BlocksOf(queue)
  {
    if queue == [] || queue[0].block == b then 0 else 1 + IndexOf(queue[1..], b)
  }

  ghost function Turn(b: Books, e: Accounting.Event): Books {
    if Accounting.Possible(b, e) then Accounting.After(b, e) else b
  }

  /** `how` is the header's length when the block was sent, and the bytes written when it was not. */
  ghost function Step(b: Books, s: Delivery.Sys, a: Delivery.Action, how: int): Books
    requires Delivery.Enabled(s, a)
  {
    match a
    case Take(k, block) => Turn(b, Opens(k, IndexOf(b.queue, block)))
    case Add(k, written) => Turn(Turn(b, Sends(k, if written then Success(how) else Failure(how))), Adds(k))
    case ApplyLocal(k) => Turn(b, Checkpoints(k, s.threads[k].checkpointOn.value.msg, false))
    case ApplyGlobal(k) =>
      Turn(b, Checkpoints(Delivery.Target(s, s.threads[k]), s.listed[s.threads[k].sender.next], true))
    case _ => b
  }

  lemma TurnKeeps(b: Books, e: Accounting.Event, totalFileSize: int)
    requires InBalance(b, totalFileSize)
    ensures InBalance(Turn(b, e), totalFileSize)
  {
    if Accounting.Possible(b, e) { EventKeeps(b, e, totalFileSize); }
  }

  lemma StepInBalance(b: Books, s: Delivery.Sys, a: Delivery.Action, how: int, totalFileSize: int)
    requires Delivery.Enabled(s, a) && InBalance(b, totalFileSize)
    ensures InBalance(Step(b, s, a, how), totalFileSize)
  {
    match a {
      case Take(k, block) => TurnKeeps(b, Opens(k, IndexOf(b.queue, block)), totalFileSize);
      case Add(k, written) =>
        var sends := Sends(k, if written then Success(how) else Failure(how));
        TurnKeeps(b, sends, totalFileSize);
        TurnKeeps(Turn(b, sends), Adds(k), totalFileSize);
      case ApplyLocal(k) => TurnKeeps(b, Checkpoints(k, s.threads[k].checkpointOn.value.msg, false), totalFileSize);
      case ApplyGlobal(k) =>
        var c := s.listed[s.threads[k].sender.next];
        TurnKeeps(b, Checkpoints(Delivery.Target(s, s.threads[k]), c, true), totalFileSize);
      case Own(_, _) =>
      case SendDone(_) =>
      case Unblock(_) =>
      case ReceiveBlock(_, _) =>
      case ReceivePart(_, _, _) =>
      case Decide(_) =>
      case Die(_) =>
      case Leave(_) =>
    }
  }

  // ---------------------------------------------------------------- every step is mirrored

  lemma PutMirrors(b: Books, s: Delivery.Sys, s': Delivery.Sys, k: nat, a: Account, queue: seq<Source>)
    requires Mirrors(b, s) && k < |s.threads| == |s'.threads| && s'.threads == s.threads[k := s'.threads[k]]
    requires Keeps(a, s'.threads[k]) && Bag(queue) == s'.queue
    ensures Mirrors(b.(accounts := b.accounts[k := a], queue := queue), s')
  {
    forall j | 0 <= j < |s'.threads| ensures Keeps(b.accounts[k := a][j], s'.threads[j]) {
      if j != k { assert s'.threads[j] == s.threads[j]; }
    }
  }

  lemma TakeMirrors(b: Books, s: Delivery.Sys, k: nat, block: Block)
    requires Mirrors(b, s) && Delivery.Enabled(s, Delivery.Take(k, block))
    ensures Mirrors(Step(b, s, Delivery.Take(k, block), 0), Delivery.Next(s, Delivery.Take(k, block)))
  {
    var i := IndexOf(b.queue, block);
    assert block in BlocksOf(b.queue) && Keeps(b.accounts[k], s.threads[k]);
    OpenKept(b.accounts[k], s.threads[k], b.queue[i].(failed := false));
    BagWithout(b.queue, i);
    TakeShape(s, k, block);
    OpenMirrors(b, s, Delivery.Next(s, Delivery.Take(k, block)), k, i);
  }

  lemma OpenKept(a: Account, t: Link.Thread, source: Source)
    requires Keeps(a, t) && Link.CanTake(t)
    ensures Keeps(a.(hand := Open(source)), Link.DoTake(t, source.block)) && a.hand.Empty?
  {
  }

  lemma OpenMirrors(b: Books, s: Delivery.Sys, s': Delivery.Sys, k: nat, i: nat)
    requires Mirrors(b, s) && k < |s.threads| == |s'.threads| && s'.threads == s.threads[k := s'.threads[k]]
    requires i < |b.queue| && b.accounts[k].hand.Empty?
    requires Keeps(b.accounts[k].(hand := Open(b.queue[i].(failed := false))), s'.threads[k])
    requires Bag(b.queue[..i] + b.queue[i + 1..]) == s'.queue
    ensures Mirrors(Turn(b, Opens(k, i)), s')
  {
    var a := b.accounts[k].(hand := Open(b.queue[i].(failed := false)));
    PutMirrors(b, s, s', k, a, b.queue[..i] + b.queue[i + 1..]);
  }

  lemma TakeShape(s: Delivery.Sys, k: nat, block: Block)
    requires Delivery.Enabled(s, Delivery.Take(k, block))
    ensures var s' := Delivery.Next(s, Delivery.Take(k, block));
            s'.threads == s.threads[k := Link.DoTake(s.threads[k], block)] && s'.queue == s.queue - multiset{block}
  {
  }

  lemma BagWithout(queue: seq<Source>, i: nat)
    requires i < |queue|
    ensures Bag(queue[..i] + queue[i + 1..]) == Bag(queue) - multiset{queue[i].block}
  {
    BagPlus(queue[..i], queue[i + 1..]);
    BagPlus(queue[..i], [queue[i]]);
    BagPlus(queue[..i] + [queue[i]], queue[i + 1..]);
    assert queue == queue[..i] + [queue[i]] + queue[i + 1..];
    assert BlocksOf([queue[i]]) == [queue[i].block];
  }

  /** addSource, on the source just sent. */
  lemma AddMirrors(b: Books, s: Delivery.Sys, k: nat, written: bool, how: int)
    requires Mirrors(b, s) && Delivery.Enabled(s, Delivery.Add(k, written))
    requires var t := s.threads[k]; t.globalCheckpoint ==>
               0 <= ReceivedBytes(t.inHand.value, t.last) <= t.inHand.value.size
    ensures Mirrors(Step(b, s, Delivery.Add(k, written), how), Delivery.Next(s, Delivery.Add(k, written)))
  {
    var t, a, attempt := s.threads[k], b.accounts[k], if written then Success(how) else Failure(how);
    assert Keeps(a, t);
    var src := Attempted(a.hand.source, attempt);
    var a1 := a.(hand := Done(src), totals := a.totals.Plus(AttemptStats(a.hand.source, attempt)));
    var back := Added(a1.hist, src).back;
    AddKept(a1, t, written);
    BagPlus(b.queue, back);
    AddShape(s, k, written);
    PutMirrors(b, s, Delivery.Next(s, Delivery.Add(k, written)), k, Add(a1), b.queue + back);
    SendThenAdd(b, k, attempt);
  }

  lemma SendThenAdd(b: Books, k: nat, attempt: Attempt)
    requires k < |b.accounts| && b.accounts[k].hand.Open?
    requires var h, source := b.accounts[k].hist, b.accounts[k].hand.source;
             h.globalCheckpoint ==> 0 <= ReceivedBytes(source.block, h.last) <= source.block.size
    ensures var a, source := b.accounts[k], Attempted(b.accounts[k].hand.source, attempt);
            var a1 := a.(hand := Done(source), totals := a.totals.Plus(AttemptStats(a.hand.source, attempt)));
            Turn(Turn(b, Sends(k, attempt)), Adds(k)) ==
              b.(accounts := b.accounts[k := Add(a1)], queue := b.queue + Added(a.hist, source).back)
  {
    var a, source := b.accounts[k], Attempted(b.accounts[k].hand.source, attempt);
    var a1 := a.(hand := Done(source), totals := a.totals.Plus(AttemptStats(a.hand.source, attempt)));
    assert b.accounts[k := a1][k := Add(a1)] == b.accounts[k := Add(a1)];
  }

  lemma AddShape(s: Delivery.Sys, k: nat, written: bool)
    requires Delivery.Enabled(s, Delivery.Add(k, written))
    ensures var s', t := Delivery.Next(s, Delivery.Add(k, written)), s.threads[k];
            && s'.threads == s.threads[k := Link.DoAdd(t, written)]
            && s'.queue == s.queue + if t.globalCheckpoint then multiset{Credited(t.inHand.value, t.last)}
                                     else multiset{}
  {
  }

  lemma AddKept(a: Account, t: Link.Thread, written: bool)
    requires a.hand.Done? && t.inHand == Some(a.hand.source.block) && Keeps(a.(hand := Open(a.hand.source)), t)
    ensures Keeps(Add(a), Link.DoAdd(t, written))
    ensures Bag(Added(a.hist, a.hand.source).back) ==
            if t.globalCheckpoint then multiset{Credited(t.inHand.value, t.last)} else multiset{}
  {
    var src := a.hand.source;
    if t.globalCheckpoint {
      assert BlocksOf([Failed(src, t.last)]) == [Credited(src.block, t.last)];
    } else {
      assert BlocksOf(a.hist.sources + [src]) == BlocksOf(a.hist.sources) + [src.block];
    }
  }

  /** What a checkpoint does to a thread, as far as its sources go. */
  ghost predicate CutTo(t: Link.Thread, c: Checkpoint, isGlobal: bool, t': Link.Thread) {
    && t'.inHand == t.inHand
    && if Judge(|t.history|, t.last, c, isGlobal) == INVALID_CHECKPOINT || c.numBlocks < 0 then
         t'.history == t.history && t'.globalCheckpoint == t.globalCheckpoint && t'.last == t.last
       else t'.history == t.history[..c.numBlocks] && t'.globalCheckpoint == (t.globalCheckpoint || isGlobal)
            && t'.last == Some(c)
  }

  lemma CutKept(a: Account, t: Link.Thread, c: Checkpoint, isGlobal: bool, t': Link.Thread)
    requires Keeps(a, t) && 0 <= c.numBlocks && CutTo(t, c, isGlobal, t')
    ensures Keeps(Cut(a, c, isGlobal), t')
    ensures Bag(Checkpointed(a.hist, c, isGlobal).back) == multiset(Delivery.Returned(t, c, isGlobal))
  {
    if Judge(|t.history|, t.last, c, isGlobal) != INVALID_CHECKPOINT {
      var rest := a.hist.sources[c.numBlocks..];
      assert BlocksOf(a.hist.sources[..c.numBlocks]) == t.history[..c.numBlocks];
      assert BlocksOf(rest) == t.history[c.numBlocks..];
      FailedAllBlocks(rest, c);
      BagReversed(FailedAll(rest, c));
    }
  }

  lemma CutMirrors(b: Books, s: Delivery.Sys, s': Delivery.Sys, k: nat, c: Checkpoint, isGlobal: bool)
    requires Mirrors(b, s) && k < |s.threads| == |s'.threads| && s'.threads == s.threads[k := s'.threads[k]]
    requires 0 <= c.numBlocks && CutTo(s.threads[k], c, isGlobal, s'.threads[k])
    requires s'.queue == s.queue + multiset(Delivery.Returned(s.threads[k], c, isGlobal))
    requires Accounting.Possible(b, Checkpoints(k, c, isGlobal))
    ensures Mirrors(Turn(b, Checkpoints(k, c, isGlobal)), s')
  {
    var a := b.accounts[k];
    assert Keeps(a, s.threads[k]);
    CutKept(a, s.threads[k], c, isGlobal, s'.threads[k]);
    BagPlus(b.queue, Checkpointed(a.hist, c, isGlobal).back);
    PutMirrors(b, s, s', k, Cut(a, c, isGlobal), b.queue + Checkpointed(a.hist, c, isGlobal).back);
  }

  /** A thread that is left alone as far as its sources go. */
  lemma StillMirrors(b: Books, s: Delivery.Sys, s': Delivery.Sys, k: nat)
    requires Mirrors(b, s) && k < |s.threads| == |s'.threads| && s'.threads == s.threads[k := s'.threads[k]]
    requires Credits.StillThread(s.threads[k], s'.threads[k]) && s'.queue == s.queue
    ensures Mirrors(b, s')
  {
    assert Keeps(b.accounts[k], s.threads[k]);
    PutMirrors(b, s, s', k, b.accounts[k], b.queue);
    assert b.accounts[k := b.accounts[k]] == b.accounts;
  }

  // ---------------------------------------------------------------- what the protocol keeps is what the books ask

  /** The checkpoint of port `k`, applied now, is a possible event. */
  lemma CheckpointPossible(b: Books, s: Delivery.Sys, credits: multiset<Delivery.FileByte>, q0: multiset<Block>,
                           empties: set<int>, k: nat, isGlobal: bool)
    requires Mirrors(b, s) && Credits.LedgerInv(s, credits, q0, empties) && k < |s.threads|
    ensures Accounting.Possible(b, Checkpoints(k, Link.LocalCheckpoint(s.threads[k]), isGlobal))
  {
    var t, a := s.threads[k], b.accounts[k];
    assert Keeps(a, t) && Link.Inv(t);
    if !t.globalCheckpoint && |t.done| < |t.history| {
      Credits.CreditFits(s, credits, q0, empties, k);
      assert a.hist.sources[|t.done|..][0].block == t.history[|t.done|];
    } else {
      assert |t.done| <= |t.history| ==> a.hist.sources[|t.done|..] == [];
    }
  }

  lemma LocalMirrors(b: Books, s: Delivery.Sys, credits: multiset<Delivery.FileByte>, q0: multiset<Block>,
                     empties: set<int>, k: nat)
    requires Mirrors(b, s) && Credits.LedgerInv(s, credits, q0, empties)
    requires Delivery.Enabled(s, Delivery.ApplyLocal(k))
    ensures Mirrors(Step(b, s, Delivery.ApplyLocal(k), 0), Delivery.Next(s, Delivery.ApplyLocal(k)))
  {
    LocalShape(s, k);
    CheckpointPossible(b, s, credits, q0, empties, k, false);
    CutMirrors(b, s, Delivery.Next(s, Delivery.ApplyLocal(k)), k, s.threads[k].checkpointOn.value.msg, false);
  }

  lemma LocalShape(s: Delivery.Sys, k: nat)
    requires Delivery.ThreadsInv(s) && Delivery.Enabled(s, Delivery.ApplyLocal(k))
    ensures var s', t := Delivery.Next(s, Delivery.ApplyLocal(k)), s.threads[k];
            && |s'.threads| == |s.threads| && s'.threads == s.threads[k := s'.threads[k]]
            && t.checkpointOn.value.msg == Link.LocalCheckpoint(t)
            && CutTo(t, Link.LocalCheckpoint(t), false, s'.threads[k])
            && s'.queue == s.queue + multiset(Delivery.Returned(t, Link.LocalCheckpoint(t), false))
  {
    assert Link.Inv(s.threads[k]);
    LocalCut(s.threads[k]);
  }

  lemma LocalCut(t: Link.Thread)
    requires Link.CanApplyLocal(t)
    ensures CutTo(t, t.checkpointOn.value.msg, false, Link.DoApplyLocal(t))
  {
  }

  lemma GlobalMirrors(b: Books, s: Delivery.Sys, credits: multiset<Delivery.FileByte>, q0: multiset<Block>,
                      empties: set<int>, k: nat)
    requires Mirrors(b, s) && Credits.LedgerInv(s, credits, q0, empties)
    requires Delivery.Enabled(s, Delivery.ApplyGlobal(k))
    ensures Mirrors(Step(b, s, Delivery.ApplyGlobal(k), 0), Delivery.Next(s, Delivery.ApplyGlobal(k)))
  {
    var j, c := Delivery.Target(s, s.threads[k]), s.listed[s.threads[k].sender.next];
    assert Link.Inv(s.threads[k]);
    Delivery.NeverOwn(s, k);
    CheckpointPossible(b, s, credits, q0, empties, j, true);
    CutShape(s, c);
    CutMirrors(b, s, Delivery.AfterGlobal(s, c), j, c, true);
    GlobalShape(s, k);
    var s' := Delivery.Next(s, Delivery.ApplyGlobal(k));
    StillMirrors(Turn(b, Checkpoints(j, c, true)), Delivery.AfterGlobal(s, c), s', k);
  }

  lemma CutShape(s: Delivery.Sys, c: Checkpoint)
    requires 0 <= c.port < |s.threads|
    ensures var s', j := Delivery.AfterGlobal(s, c), c.port;
            && |s'.threads| == |s.threads| && s'.threads == s.threads[j := s'.threads[j]]
            && CutTo(s.threads[j], c, true, s'.threads[j])
            && s'.queue == s.queue + multiset(Delivery.Returned(s.threads[j], c, true))
  {
  }

  lemma GlobalShape(s: Delivery.Sys, k: nat)
    requires Delivery.Enabled(s, Delivery.ApplyGlobal(k)) && Delivery.Target(s, s.threads[k]) != k
    ensures var s1 := Delivery.AfterGlobal(s, s.listed[s.threads[k].sender.next]);
            var s' := Delivery.Next(s, Delivery.ApplyGlobal(k));
            && |s'.threads| == |s1.threads| == |s.threads| && s'.threads == s1.threads[k := s'.threads[k]]
            && Credits.StillThread(s1.threads[k], s'.threads[k]) && s'.queue == s1.queue
  {
  }

  lemma StepMirrors(b: Books, s: Delivery.Sys, credits: multiset<Delivery.FileByte>, q0: multiset<Block>,
                    empties: set<int>, a: Delivery.Action, how: int)
    requires Mirrors(b, s) && Credits.LedgerInv(s, credits, q0, empties) && Delivery.Enabled(s, a)
    ensures Mirrors(Step(b, s, a, how), Delivery.Next(s, a))
  {
    match a {
      case Take(k, block) => TakeMirrors(b, s, k, block);
      case Add(k, written) =>
        if s.threads[k].globalCheckpoint { Credits.LateCreditFits(s, credits, q0, empties, k); }
        AddMirrors(b, s, k, written, how);
      case ApplyLocal(k) => LocalMirrors(b, s, credits, q0, empties, k);
      case ApplyGlobal(k) => GlobalMirrors(b, s, credits, q0, empties, k);
      case Own(_, _) => OtherMirrors(b, s, a);
      case SendDone(_) => OtherMirrors(b, s, a);
      case Unblock(_) => OtherMirrors(b, s, a);
      case ReceiveBlock(_, _) => OtherMirrors(b, s, a);
      case ReceivePart(_, _, _) => OtherMirrors(b, s, a);
      case Decide(_) => OtherMirrors(b, s, a);
      case Die(_) => OtherMirrors(b, s, a);
      case Leave(_) => OtherMirrors(b, s, a);
    }
  }

  lemma OtherMirrors(b: Books, s: Delivery.Sys, a: Delivery.Action)
    requires Mirrors(b, s) && Delivery.ThreadsInv(s) && Delivery.Enabled(s, a) && Credits.Still(a)
    ensures Mirrors(b, Delivery.Next(s, a))
  {
    assert Link.Inv(s.threads[a.k]);
    Credits.OwnShape(s, a);
    Credits.StillIsStill(s, a);
    StillMirrors(b, s, Delivery.Next(s, a), a.k);
  }

  // ---------------------------------------------------------------- whole transfers

  /** The books before anything is sent. */
  function OpenBooks(ports: nat, queue: seq<Source>): Books {
    Books(seq(ports, k => Account(ZERO, Empty, Hist([], false, None))), queue, [])
  }

  /** The books after a run; `how` tells of every block sent what the statistics need to know. */
  ghost function BooksAfter(b: Books, s: Delivery.Sys, trace: seq<Delivery.Action>, how: nat -> int): Books
    requires Delivery.Runs(s, trace)
    decreases |trace|
  {
    if trace == [] then b else
      var before := trace[..|trace| - 1];
      Step(BooksAfter(b, s, before, how), Delivery.Last(s, before), trace[|trace| - 1], how(|before|))
  }

  lemma {:induction false} StartMirrors(ports: nat, queue: seq<Source>)
    requires forall i | 0 <= i < |queue| :: Fresh(queue[i])
    ensures Mirrors(OpenBooks(ports, queue), Delivery.StartSys(ports, Bag(queue)))
    ensures InBalance(OpenBooks(ports, queue), Sizes(queue))
  {
    var b, s := OpenBooks(ports, queue), Delivery.StartSys(ports, Bag(queue));
    forall k | 0 <= k < |s.threads| ensures Keeps(b.accounts[k], s.threads[k]) {
      assert s.threads[k] == Link.Start(k);
      StartKept(k);
    }
    OpeningInBalance(b);
  }

  lemma StartKept(k: nat)
    ensures Keeps(Account(ZERO, Empty, Hist([], false, None)), Link.Start(k))
  {
  }

  /**
   At every moment of every run of the protocol, the books hold exactly the sources the protocol has queued, sent and
   in hand, and they balance: the thread totals are the sums over all sources, and the effective bytes are the total
   file size less what is still to be sent.
   */
  lemma {:induction false} RunsInBalance(ports: nat, queue: seq<Source>, empties: set<int>,
                                         trace: seq<Delivery.Action>, how: nat -> int)
    requires ports > 0 && (forall i | 0 <= i < |queue| :: Fresh(queue[i])) && Credits.WellQueued(Bag(queue), empties)
    requires Delivery.Runs(Delivery.StartSys(ports, Bag(queue)), trace)
    ensures var s0 := Delivery.StartSys(ports, Bag(queue));
            var b := BooksAfter(OpenBooks(ports, queue), s0, trace, how);
            Mirrors(b, Delivery.Last(s0, trace)) && InBalance(b, Sizes(queue))
    decreases |trace|
  {
    var s0, b0 := Delivery.StartSys(ports, Bag(queue)), OpenBooks(ports, queue);
    if trace == [] {
      StartMirrors(ports, queue);
    } else {
      var before, a := trace[..|trace| - 1], trace[|trace| - 1];
      RunsInBalance(ports, queue, empties, before, how);
      Credits.RunsKeepLedger(ports, Bag(queue), empties, before);
      var b, s := BooksAfter(b0, s0, before, how), Delivery.Last(s0, before);
      StepMirrors(b, s, Credits.Ledger(s0, before), Bag(queue), empties, a, how(|before|));
      StepInBalance(b, s, a, how(|before|), Sizes(queue));
    }
  }

  /**
   At every moment of every run, of the sources a port has sent past its receiver's count only the first can be the
   partially received one, so whichever of the two threads returns them counts the same bytes.
   */
  lemma {:induction false} CheckpointsCountFirst(ports: nat, queue: multiset<Block>, empties: set<int>,
                                                 trace: seq<Delivery.Action>, k: nat, sent: seq<Source>)
    requires ports > 0 && Credits.WellQueued(queue, empties) && Delivery.Runs(Delivery.StartSys(ports, queue), trace)
    requires var s := Delivery.Last(Delivery.StartSys(ports, queue), trace);
             k < |s.threads| && !s.threads[k].globalCheckpoint && BlocksOf(sent) == Link.All(s.threads[k])
    ensures var s := Delivery.Last(Delivery.StartSys(ports, queue), trace);
            CountsFirstOnly(Link.LocalCheckpoint(s.threads[k]), sent)
  {
    var s0 := Delivery.StartSys(ports, queue);
    var s := Delivery.Last(s0, trace);
    Credits.RunsKeepLedger(ports, queue, empties, trace);
    forall i | |s.threads[k].done| < i < |sent|
      ensures ReceivedBytes(sent[i].block, Some(Link.LocalCheckpoint(s.threads[k]))) == 0
    {
      Credits.CountsNoLater(s, Credits.Ledger(s0, trace), queue, empties, k, i);
    }
  }
}
