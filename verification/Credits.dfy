/**
 How far sources are advanced by checkpoints (util/ThreadTransferHistory.cpp, util/FileByteSource.cpp).

 Beside the transfer itself a ledger keeps every byte any checkpoint has ever credited.  Each action
 preserves, for every byte, the number of sources that still hold it plus the number of times it was
 credited; so no byte is credited twice and no source shrinks below zero.
 */
module Credits {
  import opened Protocol
  import opened Blocks
  import opened Link
  import opened Delivery

  // ---------------------------------------------------------------- how many sources hold a byte

  ghost function One(b: Block, x: FileByte): nat { if Holds(b, x) then 1 else 0 }

  ghost function InSeq(bs: seq<Block>, x: FileByte): nat {
    if bs == [] then 0 else One(bs[0], x) + InSeq(bs[1..], x)
  }

  lemma {:induction false} InSeqAppend(a: seq<Block>, b: seq<Block>, x: FileByte)
    ensures InSeq(a + b, x) == InSeq(a, x) + InSeq(b, x)
  {
    if a == [] {
      assert a + b == b;
    } else {
      assert (a + b)[1..] == a[1..] + b;
      InSeqAppend(a[1..], b, x);
    }
  }

  lemma {:induction false} InSeqAt(bs: seq<Block>, i: nat, x: FileByte)
    requires i < |bs| && Holds(bs[i], x)
    ensures InSeq(bs, x) >= 1
  {
    if i > 0 { InSeqAt(bs[1..], i - 1, x); }
  }

  ghost function InBag(q: multiset<Block>, x: FileByte): nat
    decreases |q|
  {
    if q == multiset{} then 0
    else
      var b :| b in q;
      One(b, x) + InBag(q - multiset{b}, x)
  }

  lemma {:induction false} InBagAdd(q: multiset<Block>, b: Block, x: FileByte)
    ensures InBag(q + multiset{b}, x) == InBag(q, x) + One(b, x)
    decreases |q|
  {
    var r := q + multiset{b};
    var c :| c in r && InBag(r, x) == One(c, x) + InBag(r - multiset{c}, x);
    if c == b {
      assert r - multiset{c} == q;
    } else {
      var q' := q - multiset{c};
      assert r - multiset{c} == q' + multiset{b};
      InBagAdd(q', b, x);
      InBagAdd(q', c, x);
      assert q' + multiset{c} == q;
    }
  }

  lemma {:induction false} InBagPlus(q: multiset<Block>, bs: seq<Block>, x: FileByte)
    ensures InBag(q + multiset(bs), x) == InBag(q, x) + InSeq(bs, x)
    decreases |bs|
  {
    if bs == [] {
      assert q + multiset(bs) == q;
    } else {
      assert bs == [bs[0]] + bs[1..];
      var q' := q + multiset{bs[0]};
      assert q + multiset(bs) == q' + multiset(bs[1..]);
      InBagAdd(q, bs[0], x);
      InBagPlus(q', bs[1..], x);
    }
  }

  ghost function InThreads(ts: seq<Thread>, x: FileByte): nat {
    if ts == [] then 0 else InSeq(All(ts[0]), x) + InThreads(ts[1..], x)
  }

  lemma {:induction false} InThreadsPut(ts: seq<Thread>, k: nat, t: Thread, x: FileByte)
    requires k < |ts|
    ensures InThreads(ts[k := t], x) == InThreads(ts, x) - InSeq(All(ts[k]), x) + InSeq(All(t), x)
    ensures InThreads(ts, x) >= InSeq(All(ts[k]), x)
  {
    if k == 0 {
      assert ts[k := t][1..] == ts[1..];
    } else {
      assert ts[k := t][1..] == ts[1..][k - 1 := t];
      InThreadsPut(ts[1..], k - 1, t, x);
    }
  }

  /** How many sources, queued, sent or in hand, still hold the byte. */
  ghost function Held(s: Sys, x: FileByte): nat { InBag(s.queue, x) + InThreads(s.threads, x) }

  // ---------------------------------------------------------------- what each action credits

  ghost function Credit(b: Block, c: Option<Checkpoint>): multiset<FileByte> {
    multiset(Prefix(b, ReceivedBytes(b, c)))
  }
  ghost function ReturnCredit(t: Thread, c: Checkpoint, isGlobal: bool): multiset<FileByte> {
    if Judge(|t.history|, t.last, c, isGlobal) == INVALID_CHECKPOINT || c.numBlocks < 0 || c.numBlocks == |t.history|
    then multiset{}
    else Credit(t.history[c.numBlocks], Some(c))
  }
  ghost function CreditOf(s: Sys, a: Action): multiset<FileByte>
    requires Enabled(s, a)
  {
    var t := s.threads[a.k];
    match a
    case ApplyLocal(_) => ReturnCredit(t, t.checkpointOn.value.msg, false)
    case ApplyGlobal(_) => ReturnCredit(s.threads[Target(s, t)], s.listed[t.sender.next], true)
    case Add(_, _) => if t.globalCheckpoint then Credit(t.inHand.value, t.last) else multiset{}
    case _ => multiset{}
  }

  /** A credit within the source's own size moves bytes from the source to the ledger, one for one. */
  lemma CreditMoves(b: Block, c: Option<Checkpoint>, x: FileByte)
    requires 0 <= ReceivedBytes(b, c) <= b.size
    ensures One(b, x) == One(Credited(b, c), x) + Credit(b, c)[x]
    ensures Credited(b, c).size >= 0 && Credited(b, c).End() == b.End()
  {
    PrefixHolds(b, ReceivedBytes(b, c), x);
  }

  // ---------------------------------------------------------------- invariant

  /** Only empty files have empty sources, and every source is what is left of a queued one. */
  ghost predicate Good(b: Block, q0: multiset<Block>, empties: set<int>) {
    && 0 <= b.size && (b.size == 0 <==> b.seqId in empties)
    && exists b0 | b0 in q0 :: b.seqId == b0.seqId && b.End() == b0.End() && b0.offset <= b.offset
  }
  ghost predicate AllGood(s: Sys, q0: multiset<Block>, empties: set<int>) {
    && (forall b | b in s.queue :: Good(b, q0, empties))
    && (forall k | 0 <= k < |s.threads| :: GoodThread(s.threads[k], q0, empties))
  }
  ghost predicate GoodThread(t: Thread, q0: multiset<Block>, empties: set<int>) {
    && (forall i | 0 <= i < |t.history| :: Good(t.history[i], q0, empties))
    && (t.inHand.Some? ==> Good(t.inHand.value, q0, empties))
  }

  ghost predicate Conserved(s: Sys, credits: multiset<FileByte>, q0: multiset<Block>) {
    forall x :: Held(s, x) + credits[x] == InBag(q0, x)
  }

  ghost predicate HasCredit(credits: multiset<FileByte>, seqId: int, offset: int, n: int) {
    forall p | offset <= p < offset + n :: FileByte(seqId, p) in credits
  }

  /** Every count of bytes the sender acted on is in the ledger, or is about to be for the block in hand. */
  ghost predicate Vouched(credits: multiset<FileByte>, t: Thread) {
    && (!t.globalCheckpoint && t.last.Some? ==>
          HasCredit(credits, t.last.value.lastBlockSeqId, t.last.value.lastBlockOffset,
                    t.last.value.lastBlockReceivedBytes))
    && (t.globalCheckpoint && t.last.Some? ==> t.last.value == LocalCheckpoint(t))
    && (t.globalCheckpoint && t.sender != Ended ==> t.last.Some?)
    && (t.globalCheckpoint ==> HasCredit(credits, t.part.seqId, t.part.offset, t.part.received) || PartInHand(t))
  }
  ghost predicate PartInHand(t: Thread) {
    t.inHand.Some? && Names(LocalCheckpoint(t), t.inHand.value) && t.part.received < t.inHand.value.size
  }

  ghost predicate LedgerInv(s: Sys, credits: multiset<FileByte>, q0: multiset<Block>, empties: set<int>) {
    && SysInv(s, {})
    && (forall x :: InBag(q0, x) <= 1)
    && Conserved(s, credits, q0) && AllGood(s, q0, empties)
    && (forall k | 0 <= k < |s.threads| :: Vouched(credits, s.threads[k]))
    && (forall x | x in credits :: x.seqId !in empties)
  }

  // ---------------------------------------------------------------- a credited range is not credited again

  lemma HeldOnPort(s: Sys, k: nat, i: nat, x: FileByte)
    requires k < |s.threads| && i < |All(s.threads[k])| && Holds(All(s.threads[k])[i], x)
    ensures Held(s, x) >= 1
  {
    InSeqAt(All(s.threads[k]), i, x);
    InThreadsPut(s.threads, k, s.threads[k], x);
  }

  /** A source still on a port does not start at a byte that is in the ledger. */
  lemma CreditedIsGone(s: Sys, credits: multiset<FileByte>, q0: multiset<Block>, empties: set<int>, k: nat, i: nat)
    requires LedgerInv(s, credits, q0, empties)
    requires k < |s.threads| && i < |All(s.threads[k])|
    ensures FileByte(All(s.threads[k])[i].seqId, All(s.threads[k])[i].offset) !in credits
  {
    var t := s.threads[k];
    var b := All(t)[i];
    var x := FileByte(b.seqId, b.offset);
    assert GoodThread(t, q0, empties) && Good(b, q0, empties);
    if b.size > 0 {
      HeldOnPort(s, k, i, x);
      assert Held(s, x) + credits[x] == InBag(q0, x) <= 1;
    }
  }

  /**
   When the checkpoint of port `k` is applied, locally or globally, the count it carries is credited only
   to the block it was counted on, and lies within it.
   */
  lemma CreditFits(s: Sys, credits: multiset<FileByte>, q0: multiset<Block>, empties: set<int>, k: nat)
    requires LedgerInv(s, credits, q0, empties) && k < |s.threads|
    requires !s.threads[k].globalCheckpoint && |s.threads[k].done| < |s.threads[k].history|
    ensures var t := s.threads[k]; var c := LocalCheckpoint(t); var b := t.history[|t.done|];
            && 0 <= ReceivedBytes(b, Some(c)) && (ReceivedBytes(b, Some(c)) == 0 || ReceivedBytes(b, Some(c)) < b.size)
            && (c.lastBlockReceivedBytes > 0 && ReceivedBytes(b, Some(c)) == 0 ==>
                  HasCredit(credits, c.lastBlockSeqId, c.lastBlockOffset, c.lastBlockReceivedBytes))
  {
    var t := s.threads[k];
    assert Inv(t) && Vouched(credits, t);
    assert All(t)[|t.done|] == t.history[|t.done|];
    CreditedIsGone(s, credits, q0, empties, k, |t.done|);
    if t.part.received > 0 && Stale(t) {
      assert HasCredit(credits, t.part.seqId, t.part.offset, t.part.received);
      assert FileByte(t.part.seqId, t.part.offset) in credits;
    }
  }

  /** Of the sources of a port past its checkpoint, the count can be meant for the first only. */
  lemma CountsNoLater(s: Sys, credits: multiset<FileByte>, q0: multiset<Block>, empties: set<int>, k: nat, i: nat)
    requires LedgerInv(s, credits, q0, empties) && k < |s.threads|
    requires !s.threads[k].globalCheckpoint && |s.threads[k].done| < i < |All(s.threads[k])|
    ensures ReceivedBytes(All(s.threads[k])[i], Some(LocalCheckpoint(s.threads[k]))) == 0
  {
    var t := s.threads[k];
    var b := All(t)[i];
    assert Inv(t) && Vouched(credits, t);
    CreditedIsGone(s, credits, q0, empties, k, i);
    if t.part.received > 0 {
      if Stale(t) {
        assert FileByte(t.part.seqId, t.part.offset) in credits;
      } else {
        StartsOnce(s, credits, q0, empties, k, |t.done|, i);
      }
    }
  }

  /** No two sources of a port start at the same byte, unless they are empty. */
  lemma StartsOnce(s: Sys, credits: multiset<FileByte>, q0: multiset<Block>, empties: set<int>, k: nat, i: nat, j: nat)
    requires LedgerInv(s, credits, q0, empties) && k < |s.threads| && i < j < |All(s.threads[k])|
    requires All(s.threads[k])[i].size > 0
    ensures var a, b := All(s.threads[k])[i], All(s.threads[k])[j]; a.seqId != b.seqId || a.offset != b.offset
  {
    var all := All(s.threads[k]);
    var a, b, x := all[i], all[j], FileByte(all[i].seqId, all[i].offset);
    assert GoodThread(s.threads[k], q0, empties) && Good(a, q0, empties) && Good(b, q0, empties);
    InThreadsPut(s.threads, k, s.threads[k], x);
    assert Held(s, x) + credits[x] == InBag(q0, x) <= 1;
    if Holds(b, x) { InSeqTwice(all, i, j, x); }
  }

  lemma {:induction false} InSeqTwice(bs: seq<Block>, i: nat, j: nat, x: FileByte)
    requires i < j < |bs| && Holds(bs[i], x) && Holds(bs[j], x)
    ensures InSeq(bs, x) >= 2
  {
    assert bs == bs[..j] + bs[j..];
    InSeqAppend(bs[..j], bs[j..], x);
    InSeqAt(bs[..j], i, x);
    InSeqAt(bs[j..], 0, x);
  }

  // ---------------------------------------------------------------- every action keeps the ledger

  lemma CreditGrows(credits: multiset<FileByte>, credits': multiset<FileByte>, seqId: int, offset: int, n: int)
    requires HasCredit(credits, seqId, offset, n) && credits <= credits'
    ensures HasCredit(credits', seqId, offset, n)
  {
    forall p | offset <= p < offset + n ensures FileByte(seqId, p) in credits' { assert FileByte(seqId, p) in credits; }
  }

  lemma VouchedGrows(credits: multiset<FileByte>, credits': multiset<FileByte>, t: Thread)
    requires Vouched(credits, t) && credits <= credits'
    ensures Vouched(credits', t)
  {
    if !t.globalCheckpoint && t.last.Some? {
      CreditGrows(credits, credits', t.last.value.lastBlockSeqId, t.last.value.lastBlockOffset,
                  t.last.value.lastBlockReceivedBytes);
    }
    if HasCredit(credits, t.part.seqId, t.part.offset, t.part.received) {
      CreditGrows(credits, credits', t.part.seqId, t.part.offset, t.part.received);
    }
  }

  ghost predicate Balanced(s: Sys, s': Sys, more: multiset<FileByte>) {
    forall x :: Held(s', x) + more[x] == Held(s, x)
  }

  /** Thread `k` changed, the queue stayed good, and what the sources lost the ledger gained. */
  lemma LedgerStep(s: Sys, s': Sys, k: nat, credits: multiset<FileByte>, more: multiset<FileByte>,
                   q0: multiset<Block>, empties: set<int>)
    requires LedgerInv(s, credits, q0, empties) && SysInv(s', {})
    requires k < |s.threads| == |s'.threads| && s'.threads == s.threads[k := s'.threads[k]]
    requires forall b | b in s'.queue :: Good(b, q0, empties)
    requires GoodThread(s'.threads[k], q0, empties) && Vouched(credits + more, s'.threads[k])
    requires Balanced(s, s', more)
    requires forall x | x in more :: x.seqId !in empties
    ensures LedgerInv(s', credits + more, q0, empties)
  {
    forall x ensures Held(s', x) + (credits + more)[x] == InBag(q0, x) {
      assert Held(s, x) + credits[x] == InBag(q0, x);
    }
    forall j | 0 <= j < |s'.threads|
      ensures GoodThread(s'.threads[j], q0, empties) && Vouched(credits + more, s'.threads[j])
    {
      if j != k {
        assert s'.threads[j] == s.threads[j];
        VouchedGrows(credits, credits + more, s.threads[j]);
      }
    }
  }

  lemma SameBlocksBalance(s: Sys, s': Sys, k: nat)
    requires k < |s.threads| == |s'.threads| && s'.threads == s.threads[k := s'.threads[k]] && s'.queue == s.queue
    requires All(s'.threads[k]) == All(s.threads[k])
    ensures Balanced(s, s', multiset{})
  {
    forall x ensures Held(s', x) == Held(s, x) { InThreadsPut(s.threads, k, s'.threads[k], x); }
  }

  /** No block moves: only what the thread vouches for has to be looked at. */
  lemma StillStep(s: Sys, s': Sys, k: nat, credits: multiset<FileByte>, q0: multiset<Block>, empties: set<int>)
    requires LedgerInv(s, credits, q0, empties) && SysInv(s', {})
    requires k < |s.threads| == |s'.threads| && s'.threads == s.threads[k := s'.threads[k]] && s'.queue == s.queue
    requires SameBlocks(s.threads[k], s'.threads[k]) && Vouched(credits, s'.threads[k])
    ensures LedgerInv(s', credits, q0, empties)
  {
    SameBlocksBalance(s, s', k);
    assert credits + multiset{} == credits;
    assert GoodThread(s.threads[k], q0, empties);
    LedgerStep(s, s', k, credits, multiset{}, q0, empties);
  }

  predicate Still(a: Action) {
    a.Own? || a.SendDone? || a.Unblock? || a.ReceiveBlock? || a.ReceivePart? || a.Decide? || a.Die? || a.Leave?
  }

  lemma StillVouched(t: Thread, t': Thread, credits: multiset<FileByte>)
    requires Vouched(credits, t) && StillThread(t, t')
    ensures Vouched(credits, t')
  {
  }

  ghost predicate StillThread(t: Thread, t': Thread) {
    && SameBlocks(t, t') && t'.last == t.last && t'.globalCheckpoint == t.globalCheckpoint && t'.port == t.port
    && (t.sender == Ended ==> t'.sender == Ended)
    && (t.globalCheckpoint ==> t'.done == t.done && t'.part == t.part)
  }

  lemma MoveIsStill(t: Thread, m: Move, listed: nat)
    requires Inv(t) && CanMove(t, m, listed)
    ensures StillThread(t, DoMove(t, m, listed))
  {
  }

  /** What an action makes of its own thread. */
  ghost function OwnNext(s: Sys, a: Action): Thread
    requires Enabled(s, a) && !a.ApplyGlobal?
  {
    var t := s.threads[a.k];
    match a
    case Own(_, m) => DoMove(t, m, |s.listed|)
    case ApplyLocal(_) => DoApplyLocal(t)
    case Take(_, b) => DoTake(t, b)
    case Add(_, written) => DoAdd(t, written)
    case SendDone(_) => DoSendDone(t)
    case Unblock(_) => DoUnblock(t)
    case ReceiveBlock(_, tagged) => DoReceiveBlock(t, tagged)
    case ReceivePart(_, received, trusted) => DoReceivePart(t, received, trusted)
    case Decide(_) => DoDecide(t)
    case Die(_) => DoDie(t)
    case Leave(_) => DoDie(t)
  }

  lemma OwnShape(s: Sys, a: Action)
    requires Enabled(s, a) && !a.ApplyGlobal?
    ensures Next(s, a).threads == s.threads[a.k := OwnNext(s, a)]
    ensures Still(a) ==> Next(s, a).queue == s.queue
  {
    if Still(a) { StillShape(s, a); }
  }

  lemma StillShape(s: Sys, a: Action)
    requires Enabled(s, a) && Still(a)
    ensures Next(s, a).threads == s.threads[a.k := OwnNext(s, a)] && Next(s, a).queue == s.queue
  {
  }

  lemma StillIsStill(s: Sys, a: Action)
    requires Enabled(s, a) && Still(a) && Inv(s.threads[a.k])
    ensures StillThread(s.threads[a.k], OwnNext(s, a))
  {
    match a {
      case Own(k, m) => MoveIsStill(s.threads[k], m, |s.listed|);
      case SendDone(_) =>
      case Unblock(_) =>
      case ReceiveBlock(_, _) =>
      case ReceivePart(_, _, _) =>
      case Decide(_) =>
      case Die(_) =>
      case Leave(_) =>
    }
  }

  lemma StillKeeps(s: Sys, a: Action, credits: multiset<FileByte>, q0: multiset<Block>, empties: set<int>)
    requires LedgerInv(s, credits, q0, empties) && Enabled(s, a) && Still(a) && SysInv(Next(s, a), {})
    ensures LedgerInv(Next(s, a), credits, q0, empties)
  {
    var s', t := Next(s, a), s.threads[a.k];
    assert Inv(t) && Vouched(credits, t);
    OwnShape(s, a);
    StillIsStill(s, a);
    StillVouched(t, s'.threads[a.k], credits);
    StillStep(s, s', a.k, credits, q0, empties);
  }

  lemma TakeBalance(s: Sys, k: nat, b: Block)
    requires k < |s.threads| && s.threads[k].inHand.None? && b in s.queue
    ensures Balanced(s, Put(s, k, DoTake(s.threads[k], b)).(queue := s.queue - multiset{b}), multiset{})
  {
    var t, t' := s.threads[k], DoTake(s.threads[k], b);
    var s' := Put(s, k, t').(queue := s.queue - multiset{b});
    assert s.queue == s'.queue + multiset{b};
    assert All(t') == All(t) + [b];
    forall x ensures Held(s', x) == Held(s, x) {
      InBagAdd(s'.queue, b, x);
      InThreadsPut(s.threads, k, t', x);
      InSeqAppend(All(t), [b], x);
    }
  }

  lemma TakeKeepsLedger(s: Sys, k: nat, b: Block, credits: multiset<FileByte>, q0: multiset<Block>, empties: set<int>)
    requires LedgerInv(s, credits, q0, empties) && Enabled(s, Take(k, b)) && SysInv(Next(s, Take(k, b)), {})
    ensures LedgerInv(Next(s, Take(k, b)), credits, q0, empties)
  {
    var t := s.threads[k];
    var s' := Put(s, k, DoTake(t, b)).(queue := s.queue - multiset{b});
    assert Vouched(credits, t) && GoodThread(t, q0, empties);
    TakeBalance(s, k, b);
    assert credits + multiset{} == credits;
    LedgerStep(s, s', k, credits, multiset{}, q0, empties);
  }

  lemma PlainAddGood(t: Thread, written: bool, credits: multiset<FileByte>, q0: multiset<Block>, empties: set<int>)
    requires CanAdd(t) && !t.globalCheckpoint && GoodThread(t, q0, empties) && Vouched(credits, t)
    ensures GoodThread(DoAdd(t, written), q0, empties) && Vouched(credits, DoAdd(t, written))
    ensures All(DoAdd(t, written)) == All(t)
  {
  }

  lemma PlainAddKeepsLedger(s: Sys, k: nat, written: bool, credits: multiset<FileByte>, q0: multiset<Block>,
                            empties: set<int>)
    requires LedgerInv(s, credits, q0, empties) && k < |s.threads| && CanAdd(s.threads[k])
             && !s.threads[k].globalCheckpoint
    requires SysInv(Put(s, k, DoAdd(s.threads[k], written)), {})
    ensures LedgerInv(Put(s, k, DoAdd(s.threads[k], written)), credits, q0, empties)
  {
    var t := s.threads[k];
    var s' := Put(s, k, DoAdd(t, written));
    PlainAddGood(t, written, credits, q0, empties);
    SameBlocksBalance(s, s', k);
    assert credits + multiset{} == credits;
    LedgerStep(s, s', k, credits, multiset{}, q0, empties);
  }

  // ---------------------------------------------------------------- the three places that credit

  lemma CutBalance(s: Sys, s': Sys, k: nat, c: Checkpoint)
    requires k < |s.threads| == |s'.threads| && s'.threads == s.threads[k := s'.threads[k]]
    requires var t, t' := s.threads[k], s'.threads[k];
             && 0 <= c.numBlocks < |t.history| && t'.history == t.history[..c.numBlocks] && t'.inHand == t.inHand
             && s'.queue == s.queue + multiset(Unacknowledged(t.history[c.numBlocks..], c))
             && 0 <= ReceivedBytes(t.history[c.numBlocks], Some(c)) <= t.history[c.numBlocks].size
    ensures Balanced(s, s', Credit(s.threads[k].history[c.numBlocks], Some(c)))
  {
    var t, t', n := s.threads[k], s'.threads[k], c.numBlocks;
    forall x ensures Held(s', x) + Credit(t.history[n], Some(c))[x] == Held(s, x) {
      InBagPlus(s.queue, Unacknowledged(t.history[n..], c), x);
      InThreadsPut(s.threads, k, t', x);
      CutCount(t, c, x);
      InSeqAppend(t'.history, Hand(t.inHand), x);
    }
  }

  lemma {:induction false} CutCount(t: Thread, c: Checkpoint, x: FileByte)
    requires 0 <= c.numBlocks < |t.history|
    requires 0 <= ReceivedBytes(t.history[c.numBlocks], Some(c)) <= t.history[c.numBlocks].size
    ensures var n := c.numBlocks;
            InSeq(All(t), x) == InSeq(t.history[..n], x) + InSeq(Hand(t.inHand), x)
                                + InSeq(Unacknowledged(t.history[n..], c), x) + Credit(t.history[n], Some(c))[x]
  {
    var n := c.numBlocks;
    var rest := t.history[n..];
    var back := Unacknowledged(rest, c);
    assert back[1..] == rest[1..];
    CreditMoves(rest[0], Some(c), x);
    assert t.history == t.history[..n] + rest;
    InSeqAppend(t.history[..n], rest, x);
    InSeqAppend(t.history, Hand(t.inHand), x);
  }

  lemma GoodReturn(t: Thread, c: Checkpoint, q0: multiset<Block>, empties: set<int>)
    requires GoodThread(t, q0, empties) && 0 <= c.numBlocks < |t.history|
    requires var r := ReceivedBytes(t.history[c.numBlocks], Some(c));
             0 <= r && (r == 0 || r < t.history[c.numBlocks].size)
    ensures forall b | b in Unacknowledged(t.history[c.numBlocks..], c) :: Good(b, q0, empties)
    ensures forall x | x in Credit(t.history[c.numBlocks], Some(c)) :: x.seqId !in empties
  {
    var rest := t.history[c.numBlocks..];
    assert Good(rest[0], q0, empties);
    GoodCredit(rest[0], Some(c), q0, empties);
    forall b | b in Unacknowledged(rest, c) ensures Good(b, q0, empties) {
      var i :| 0 <= i < |rest| && Unacknowledged(rest, c)[i] == b;
      if i > 0 { assert rest[i] == t.history[c.numBlocks + i]; }
    }
  }

  lemma GoodCredit(b: Block, c: Option<Checkpoint>, q0: multiset<Block>, empties: set<int>)
    requires Good(b, q0, empties) && 0 <= ReceivedBytes(b, c)
             && (ReceivedBytes(b, c) == 0 || ReceivedBytes(b, c) < b.size)
    ensures Good(Credited(b, c), q0, empties)
    ensures forall x | x in Credit(b, c) :: x.seqId !in empties
  {
    var b0 :| b0 in q0 && b.seqId == b0.seqId && b.End() == b0.End() && b0.offset <= b.offset;
    assert Credited(b, c).End() == b0.End();
    forall x | x in Credit(b, c) ensures x.seqId !in empties { PrefixHolds(b, ReceivedBytes(b, c), x); }
  }

  /** Once credited to the block it names, the count is in the ledger. */
  lemma CreditRecorded(credits: multiset<FileByte>, b: Block, c: Checkpoint)
    requires Names(c, b) && c.hasSeqId
    ensures HasCredit(credits + Credit(b, Some(c)), c.lastBlockSeqId, c.lastBlockOffset, c.lastBlockReceivedBytes)
  {
    forall p | c.lastBlockOffset <= p < c.lastBlockOffset + c.lastBlockReceivedBytes
      ensures FileByte(c.lastBlockSeqId, p) in credits + Credit(b, Some(c))
    {
      PrefixHolds(b, c.lastBlockReceivedBytes, FileByte(c.lastBlockSeqId, p));
    }
  }

  /** Applying the checkpoint of port `k` puts its count in the ledger, unless the block is still in hand. */
  lemma AppliedIsRecorded(s: Sys, credits: multiset<FileByte>, q0: multiset<Block>, empties: set<int>, k: nat)
    requires LedgerInv(s, credits, q0, empties) && k < |s.threads| && !s.threads[k].globalCheckpoint
    requires |s.threads[k].done| <= |s.threads[k].history|
    ensures var t := s.threads[k]; var c := LocalCheckpoint(t);
            var more := if |t.done| == |t.history| then multiset{} else Credit(t.history[|t.done|], Some(c));
            HasCredit(credits + more, c.lastBlockSeqId, c.lastBlockOffset, c.lastBlockReceivedBytes)
            || (PartInHand(t) && |t.done| == |t.history|)
  {
    var t := s.threads[k];
    var c := LocalCheckpoint(t);
    assert Inv(t) && Vouched(credits, t);
    if |t.done| < |t.history| {
      var b := t.history[|t.done|];
      CreditFits(s, credits, q0, empties, k);
      if ReceivedBytes(b, Some(c)) > 0 {
        CreditRecorded(credits, b, c);
      } else if c.lastBlockReceivedBytes > 0 {
        CreditGrows(credits, credits + Credit(b, Some(c)), c.lastBlockSeqId, c.lastBlockOffset,
                    c.lastBlockReceivedBytes);
      }
    } else {
      assert credits + multiset{} == credits;
    }
  }

  lemma LateAddKeepsLedger(s: Sys, k: nat, written: bool, credits: multiset<FileByte>, q0: multiset<Block>,
                           empties: set<int>)
    requires LedgerInv(s, credits, q0, empties) && Enabled(s, Add(k, written)) && s.threads[k].globalCheckpoint
    requires SysInv(Next(s, Add(k, written)), {})
    ensures LedgerInv(Next(s, Add(k, written)), credits + CreditOf(s, Add(k, written)), q0, empties)
  {
    var t := s.threads[k];
    var b, more := t.inHand.value, Credit(t.inHand.value, t.last);
    var s' := Put(s, k, DoAdd(t, written)).(queue := s.queue + multiset{Credited(b, t.last)});
    LateCreditFits(s, credits, q0, empties, k);
    LateAddGood(t, written, credits + more, q0, empties);
    LateAddBalance(s, k, written);
    LedgerStep(s, s', k, credits, more, q0, empties);
  }

  lemma LateAddGood(t: Thread, written: bool, credits: multiset<FileByte>, q0: multiset<Block>, empties: set<int>)
    requires CanAdd(t) && t.globalCheckpoint && GoodThread(t, q0, empties)
    requires var r := ReceivedBytes(t.inHand.value, t.last); 0 <= r && (r == 0 || r < t.inHand.value.size)
    requires HasCredit(credits, t.part.seqId, t.part.offset, t.part.received)
    ensures GoodThread(DoAdd(t, written), q0, empties) && Vouched(credits, DoAdd(t, written))
    ensures Good(Credited(t.inHand.value, t.last), q0, empties)
    ensures forall x | x in Credit(t.inHand.value, t.last) :: x.seqId !in empties
  {
    GoodCredit(t.inHand.value, t.last, q0, empties);
  }

  lemma LateCreditFits(s: Sys, credits: multiset<FileByte>, q0: multiset<Block>, empties: set<int>, k: nat)
    requires LedgerInv(s, credits, q0, empties) && k < |s.threads| && CanAdd(s.threads[k])
             && s.threads[k].globalCheckpoint
    ensures var t := s.threads[k]; var b := t.inHand.value;
            && 0 <= ReceivedBytes(b, t.last) && (ReceivedBytes(b, t.last) == 0 || ReceivedBytes(b, t.last) < b.size)
            && HasCredit(credits + Credit(b, t.last), t.part.seqId, t.part.offset, t.part.received)
  {
    var t := s.threads[k];
    var b := t.inHand.value;
    assert Inv(t) && Vouched(credits, t);
    assert All(t)[|t.history|] == b;
    CreditedIsGone(s, credits, q0, empties, k, |t.history|);
    if HasCredit(credits, t.part.seqId, t.part.offset, t.part.received) {
      if t.part.received > 0 { assert FileByte(t.part.seqId, t.part.offset) in credits; }
      CreditGrows(credits, credits + Credit(b, t.last), t.part.seqId, t.part.offset, t.part.received);
    } else {
      CreditRecorded(credits, b, t.last.value);
    }
  }

  lemma LateAddBalance(s: Sys, k: nat, written: bool)
    requires k < |s.threads| && CanAdd(s.threads[k]) && s.threads[k].globalCheckpoint
    requires var t := s.threads[k]; 0 <= ReceivedBytes(t.inHand.value, t.last) <= t.inHand.value.size
    ensures var t := s.threads[k]; var b := t.inHand.value;
            Balanced(s, Put(s, k, DoAdd(t, written)).(queue := s.queue + multiset{Credited(b, t.last)}),
                     Credit(b, t.last))
  {
    var t, t' := s.threads[k], DoAdd(s.threads[k], written);
    var b := t.inHand.value;
    var s' := Put(s, k, t').(queue := s.queue + multiset{Credited(b, t.last)});
    forall x ensures Held(s', x) + Credit(b, t.last)[x] == Held(s, x) {
      InBagAdd(s.queue, Credited(b, t.last), x);
      InThreadsPut(s.threads, k, t', x);
      InSeqAppend(t.history, [b], x);
      InSeqAppend(t.history, [], x);
      CreditMoves(b, t.last, x);
    }
  }

  /** Thread `k` after its own checkpoint cut its history. */
  ghost predicate Cut(s: Sys, s': Sys, k: nat)
    requires k < |s.threads| == |s'.threads|
  {
    var t, t' := s.threads[k], s'.threads[k];
    && s'.threads == s.threads[k := t']
    && !t.globalCheckpoint && |t.done| <= |t.history|
    && t'.history == t.history[..|t.done|] && t'.inHand == t.inHand && t'.last == Some(LocalCheckpoint(t))
    && LocalCheckpoint(t') == LocalCheckpoint(t) && (t'.globalCheckpoint || t.inHand.None?)
    && s'.queue == s.queue + multiset(Unacknowledged(t.history[|t.done|..], LocalCheckpoint(t)))
  }
  ghost function CutCredit(t: Thread): multiset<FileByte> {
    if |t.done| >= |t.history| then multiset{} else Credit(t.history[|t.done|], Some(LocalCheckpoint(t)))
  }

  lemma CutVouched(s: Sys, s': Sys, k: nat, credits: multiset<FileByte>, q0: multiset<Block>, empties: set<int>)
    requires LedgerInv(s, credits, q0, empties) && k < |s.threads| == |s'.threads| && Cut(s, s', k)
    ensures Vouched(credits + CutCredit(s.threads[k]), s'.threads[k])
  {
    AppliedIsRecorded(s, credits, q0, empties, k);
  }

  lemma EmptyCutKeepsLedger(s: Sys, s': Sys, k: nat, credits: multiset<FileByte>, q0: multiset<Block>,
                            empties: set<int>)
    requires LedgerInv(s, credits, q0, empties) && SysInv(s', {}) && k < |s.threads| == |s'.threads| && Cut(s, s', k)
    requires |s.threads[k].done| == |s.threads[k].history|
    ensures LedgerInv(s', credits, q0, empties)
  {
    var t := s.threads[k];
    CutVouched(s, s', k, credits, q0, empties);
    assert credits + multiset{} == credits;
    assert t.history[|t.done|..] == [];
    assert s'.queue == s.queue;
    StillStep(s, s', k, credits, q0, empties);
  }

  lemma CutGood(s: Sys, s': Sys, k: nat, credits: multiset<FileByte>, q0: multiset<Block>, empties: set<int>)
    requires LedgerInv(s, credits, q0, empties) && k < |s.threads| == |s'.threads| && Cut(s, s', k)
    requires |s.threads[k].done| < |s.threads[k].history|
    ensures forall b | b in s'.queue :: Good(b, q0, empties)
    ensures GoodThread(s'.threads[k], q0, empties)
    ensures forall x | x in CutCredit(s.threads[k]) :: x.seqId !in empties
  {
    var t := s.threads[k];
    assert GoodThread(t, q0, empties);
    CreditFits(s, credits, q0, empties, k);
    GoodReturn(t, LocalCheckpoint(t), q0, empties);
  }

  lemma RealCutKeepsLedger(s: Sys, s': Sys, k: nat, credits: multiset<FileByte>, q0: multiset<Block>, empties: set<int>)
    requires LedgerInv(s, credits, q0, empties) && SysInv(s', {}) && k < |s.threads| == |s'.threads| && Cut(s, s', k)
    requires |s.threads[k].done| < |s.threads[k].history|
    ensures LedgerInv(s', credits + CutCredit(s.threads[k]), q0, empties)
  {
    var t := s.threads[k];
    CutVouched(s, s', k, credits, q0, empties);
    CreditFits(s, credits, q0, empties, k);
    CutBalance(s, s', k, LocalCheckpoint(t));
    CutGood(s, s', k, credits, q0, empties);
    LedgerStep(s, s', k, credits, CutCredit(t), q0, empties);
  }

  lemma CutKeepsLedger(s: Sys, s': Sys, k: nat, credits: multiset<FileByte>, q0: multiset<Block>, empties: set<int>)
    requires LedgerInv(s, credits, q0, empties) && SysInv(s', {}) && k < |s.threads| == |s'.threads| && Cut(s, s', k)
    ensures LedgerInv(s', credits + CutCredit(s.threads[k]), q0, empties)
  {
    if |s.threads[k].done| == |s.threads[k].history| {
      EmptyCutKeepsLedger(s, s', k, credits, q0, empties);
      assert credits + multiset{} == credits;
    } else {
      RealCutKeepsLedger(s, s', k, credits, q0, empties);
    }
  }

  lemma LocalKeepsLedger(s: Sys, k: nat, credits: multiset<FileByte>, q0: multiset<Block>, empties: set<int>)
    requires LedgerInv(s, credits, q0, empties) && Enabled(s, ApplyLocal(k)) && SysInv(Next(s, ApplyLocal(k)), {})
    ensures LedgerInv(Next(s, ApplyLocal(k)), credits + CreditOf(s, ApplyLocal(k)), q0, empties)
  {
    var t, s' := s.threads[k], Next(s, ApplyLocal(k));
    var c := t.checkpointOn.value.msg;
    assert Inv(t) && Vouched(credits, t);
    assert credits + multiset{} == credits;
    CompletedArePrefix(t);
    if Judge(|t.history|, t.last, c, false) == INVALID_CHECKPOINT {
      assert s.queue + multiset([]) == s.queue;
      StillStep(s, s', k, credits, q0, empties);
    } else if t.globalCheckpoint {
      assert t.history[c.numBlocks..] == [] && t.history[..c.numBlocks] == t.history;
      assert s.queue + multiset([]) == s.queue;
      StillStep(s, s', k, credits, q0, empties);
    } else {
      CutKeepsLedger(s, s', k, credits, q0, empties);
    }
  }

  lemma AfterGlobalKeepsLedger(s: Sys, c: Checkpoint, credits: multiset<FileByte>, q0: multiset<Block>,
                               empties: set<int>)
    requires LedgerInv(s, credits, q0, empties) && 0 <= c.port < |s.threads| && SysInv(AfterGlobal(s, c), {})
    requires s.threads[c.port].receiver == Gone && c == LocalCheckpoint(s.threads[c.port])
    ensures LedgerInv(AfterGlobal(s, c), credits + ReturnCredit(s.threads[c.port], c, true), q0, empties)
  {
    var t := s.threads[c.port];
    assert Inv(t) && Vouched(credits, t);
    if GlobalVerdict(t, c) == INVALID_CHECKPOINT || t.globalCheckpoint {
      GlobalStill(t, c, credits);
      NothingReturned(s, c);
      assert credits + multiset{} == credits;
      StillStep(s, AfterGlobal(s, c), c.port, credits, q0, empties);
    } else {
      GlobalCut(s, c);
      GlobalCutCredit(t, c);
      CutKeepsLedger(s, AfterGlobal(s, c), c.port, credits, q0, empties);
    }
  }

  lemma NothingReturned(s: Sys, c: Checkpoint)
    requires 0 <= c.port < |s.threads| && Returned(s.threads[c.port], c, true) == []
    ensures var s', j := AfterGlobal(s, c), c.port;
            |s'.threads| == |s.threads| && s'.threads == s.threads[j := s'.threads[j]] && s'.queue == s.queue
            && s'.threads[j] == DoGlobal(s.threads[j], c)
  {
    assert s.queue + multiset([]) == s.queue;
  }

  lemma GlobalCutCredit(t: Thread, c: Checkpoint)
    requires c == LocalCheckpoint(t) && !t.globalCheckpoint && GlobalVerdict(t, c) != INVALID_CHECKPOINT
    ensures ReturnCredit(t, c, true) == CutCredit(t)
  {
  }

  /** A refused or repeated global checkpoint returns nothing. */
  lemma GlobalStill(t: Thread, c: Checkpoint, credits: multiset<FileByte>)
    requires Inv(t) && Vouched(credits, t) && c == LocalCheckpoint(t)
    requires GlobalVerdict(t, c) == INVALID_CHECKPOINT || t.globalCheckpoint
    ensures SameBlocks(t, DoGlobal(t, c)) && Vouched(credits, DoGlobal(t, c))
    ensures Returned(t, c, true) == [] && ReturnCredit(t, c, true) == multiset{}
  {
  }

  lemma GlobalCut(s: Sys, c: Checkpoint)
    requires 0 <= c.port < |s.threads| && c == LocalCheckpoint(s.threads[c.port]) && !s.threads[c.port].globalCheckpoint
    requires GlobalVerdict(s.threads[c.port], c) != INVALID_CHECKPOINT
    ensures Cut(s, AfterGlobal(s, c), c.port)
  {
  }

  lemma GlobalKeepsLedger(s: Sys, k: nat, credits: multiset<FileByte>, q0: multiset<Block>, empties: set<int>)
    requires LedgerInv(s, credits, q0, empties) && Enabled(s, ApplyGlobal(k)) && SysInv(Next(s, ApplyGlobal(k)), {})
    ensures LedgerInv(Next(s, ApplyGlobal(k)), credits + CreditOf(s, ApplyGlobal(k)), q0, empties)
  {
    var t, c := s.threads[k], s.listed[s.threads[k].sender.next];
    assert Inv(t) && Vouched(credits, t);
    NeverOwn(s, k);
    AfterGlobalKeeps(s, k, c, {});
    var s1 := AfterGlobal(s, c);
    AfterGlobalKeepsLedger(s, c, credits, q0, empties);
    var more := ReturnCredit(s.threads[c.port], c, true);
    assert s1.threads[k] == t && Next(s, ApplyGlobal(k)) == Put(s1, k, DoBlock(t));
    BlockKeepsLedger(s1, k, credits + more, q0, empties);
  }

  lemma BlockKeepsLedger(s: Sys, k: nat, credits: multiset<FileByte>, q0: multiset<Block>, empties: set<int>)
    requires LedgerInv(s, credits, q0, empties) && k < |s.threads| && CanBlock(s.threads[k])
    requires SysInv(Put(s, k, DoBlock(s.threads[k])), {})
    ensures LedgerInv(Put(s, k, DoBlock(s.threads[k])), credits, q0, empties)
  {
    var t := s.threads[k];
    assert Vouched(credits, t);
    StillVouched(t, DoBlock(t), credits);
    StillStep(s, Put(s, k, DoBlock(t)), k, credits, q0, empties);
  }

  // ---------------------------------------------------------------- whole transfers

  lemma StepKeepsLedger(s: Sys, a: Action, credits: multiset<FileByte>, q0: multiset<Block>, empties: set<int>)
    requires LedgerInv(s, credits, q0, empties) && Enabled(s, a) && SysInv(Next(s, a), {})
    ensures LedgerInv(Next(s, a), credits + CreditOf(s, a), q0, empties)
  {
    if Still(a) {
      assert credits + multiset{} == credits;
      StillKeeps(s, a, credits, q0, empties);
    } else if a.Add? {
      AddKeepsLedger(s, a.k, a.written, credits, q0, empties);
    } else if a.Take? {
      assert credits + multiset{} == credits;
      TakeKeepsLedger(s, a.k, a.b, credits, q0, empties);
    } else {
      ApplyKeepsLedger(s, a, credits, q0, empties);
    }
  }

  lemma ApplyKeepsLedger(s: Sys, a: Action, credits: multiset<FileByte>, q0: multiset<Block>, empties: set<int>)
    requires a.ApplyLocal? || a.ApplyGlobal?
    requires LedgerInv(s, credits, q0, empties) && Enabled(s, a) && SysInv(Next(s, a), {})
    ensures LedgerInv(Next(s, a), credits + CreditOf(s, a), q0, empties)
  {
    if a.ApplyLocal? {
      LocalKeepsLedger(s, a.k, credits, q0, empties);
    } else {
      GlobalKeepsLedger(s, a.k, credits, q0, empties);
    }
  }

  lemma AddKeepsLedger(s: Sys, k: nat, written: bool, credits: multiset<FileByte>, q0: multiset<Block>,
                       empties: set<int>)
    requires LedgerInv(s, credits, q0, empties) && Enabled(s, Add(k, written)) && SysInv(Next(s, Add(k, written)), {})
    ensures LedgerInv(Next(s, Add(k, written)), credits + CreditOf(s, Add(k, written)), q0, empties)
  {
    if s.threads[k].globalCheckpoint {
      LateAddKeepsLedger(s, k, written, credits, q0, empties);
    } else {
      assert credits + multiset{} == credits && s.queue + multiset{} == s.queue;
      PlainAddKeepsLedger(s, k, written, credits, q0, empties);
    }
  }

  /** Everything credited along a run, with multiplicity. */
  ghost function Ledger(s: Sys, trace: seq<Action>): multiset<FileByte>
    requires Runs(s, trace)
  {
    if trace == [] then multiset{}
    else
      var before := trace[..|trace| - 1];
      Ledger(s, before) + CreditOf(Last(s, before), trace[|trace| - 1])
  }

  /** Blocks as they are queued: no byte twice, and only empty files have empty blocks. */
  ghost predicate WellQueued(queue: multiset<Block>, empties: set<int>) {
    && (forall x :: InBag(queue, x) <= 1)
    && (forall b | b in queue :: 0 <= b.size && (b.size == 0 <==> b.seqId in empties))
  }

  lemma {:induction false} NothingHeld(ts: seq<Thread>, x: FileByte)
    requires forall k | 0 <= k < |ts| :: All(ts[k]) == []
    ensures InThreads(ts, x) == 0
  {
    if ts != [] { NothingHeld(ts[1..], x); }
  }

  lemma StartLedger(ports: nat, queue: multiset<Block>, empties: set<int>)
    requires ports > 0 && WellQueued(queue, empties)
    ensures LedgerInv(StartSys(ports, queue), multiset{}, queue, empties)
  {
    var s := StartSys(ports, queue);
    StartSysInv(ports, queue, {});
    forall x ensures Held(s, x) + 0 == InBag(queue, x) { NothingHeld(s.threads, x); }
    forall k | 0 <= k < |s.threads|
      ensures GoodThread(s.threads[k], queue, empties) && Vouched(multiset{}, s.threads[k])
    {
      assert s.threads[k] == Start(k);
    }
  }

  lemma {:induction false} RunsKeepLedger(ports: nat, queue: multiset<Block>, empties: set<int>, trace: seq<Action>)
    requires ports > 0 && WellQueued(queue, empties) && Runs(StartSys(ports, queue), trace)
    ensures var s := StartSys(ports, queue); LedgerInv(Last(s, trace), Ledger(s, trace), queue, empties)
    decreases |trace|
  {
    var s := StartSys(ports, queue);
    if trace == [] {
      StartLedger(ports, queue, empties);
    } else {
      var before, a := trace[..|trace| - 1], trace[|trace| - 1];
      RunsKeepLedger(ports, queue, empties, before);
      StepKeeps(Last(s, before), a, {});
      StepKeepsLedger(Last(s, before), a, Ledger(s, before), queue, empties);
    }
  }

  /**
   In every run, however often checkpoints are repeated and whichever thread applies them: each byte is
   held by one source or credited once, never both and never twice; and every source is a suffix of a
   queued block, with that block's end and a size that is never negative.
   */
  lemma {:induction false} CreditedAtMostOnce(ports: nat, queue: multiset<Block>, empties: set<int>, trace: seq<Action>)
    requires ports > 0 && WellQueued(queue, empties) && Runs(StartSys(ports, queue), trace)
    ensures var s0 := StartSys(ports, queue); var s := Last(s0, trace);
            && (forall x :: Held(s, x) + Ledger(s0, trace)[x] == InBag(queue, x) <= 1)
            && (forall b | b in s.queue :: Good(b, queue, empties))
            && (forall k, i | 0 <= k < |s.threads| && 0 <= i < |All(s.threads[k])| ::
                  Good(All(s.threads[k])[i], queue, empties))
  {
    RunsKeepLedger(ports, queue, empties, trace);
    SourcesGood(Last(StartSys(ports, queue), trace), Ledger(StartSys(ports, queue), trace), queue, empties);
  }

  lemma {:induction false} SourcesGood(s: Sys, credits: multiset<FileByte>, q0: multiset<Block>, empties: set<int>)
    requires LedgerInv(s, credits, q0, empties)
    ensures forall x :: Held(s, x) + credits[x] == InBag(q0, x) <= 1
    ensures forall b | b in s.queue :: Good(b, q0, empties)
    ensures forall k, i | 0 <= k < |s.threads| && 0 <= i < |All(s.threads[k])| ::
              Good(All(s.threads[k])[i], q0, empties)
  {
    forall k, i | 0 <= k < |s.threads| && 0 <= i < |All(s.threads[k])| ensures Good(All(s.threads[k])[i], q0, empties) {
      assert GoodThread(s.threads[k], q0, empties);
    }
  }
}
