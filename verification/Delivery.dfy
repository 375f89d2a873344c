/**
 A whole transfer: any number of ports sharing one queue of blocks, with receiver threads dying and
 their checkpoints being broadcast through the surviving ones (SenderThread.cpp, ReceiverThread.cpp,
 Receiver.cpp, util/ThreadTransferHistory.cpp, util/ThreadsController.cpp).

 The claim is the one the protocol exists for: when a receiver thread decides that the transfer is
 over, every byte of every queued block has been received.
 */
module Delivery {
  import opened Protocol
  import opened Blocks
  import opened Link

  datatype FileByte = FileByte(seqId: int, pos: int)

  predicate Holds(b: Block, x: FileByte) { b.seqId == x.seqId && b.offset <= x.pos < b.End() }

  datatype Sys = Sys(
    threads: seq<Thread>,
    queue: multiset<Block>,
    listed: seq<Checkpoint>,        // Receiver::checkpoints_
    delivered: set<FileByte>,       // bytes written by some receiver thread
    rejected: bool,                 // a global checkpoint was refused before any decision
    silent: bool)                   // a receiver thread left without listing a checkpoint before any decision

  ghost predicate AnyDecided(s: Sys) { exists k | 0 <= k < |s.threads| :: s.threads[k].decided }

  datatype Action =
    | Own(k: nat, m: Move)
    | ApplyLocal(k: nat) | Take(k: nat, b: Block) | Add(k: nat, written: bool) | SendDone(k: nat)
    | ApplyGlobal(k: nat) | Unblock(k: nat)
    | ReceiveBlock(k: nat, tagged: bool) | ReceivePart(k: nat, received: int, trusted: bool)
    | Decide(k: nat) | Die(k: nat) | Leave(k: nat)

  /** The failed port whose checkpoint sender thread `t` is about to apply, or is waiting on. */
  ghost predicate HasTarget(s: Sys, t: Thread) {
    && (t.sender.Applying? || t.sender.Blocked?)
    && t.sender.next < |s.listed|
    && 0 <= s.listed[t.sender.next].port < |s.threads|
  }
  ghost function Target(s: Sys, t: Thread): nat
    requires HasTarget(s, t)
  {
    s.listed[t.sender.next].port
  }

  ghost predicate Enabled(s: Sys, a: Action) {
    a.k < |s.threads| &&
    var t := s.threads[a.k];
    match a
    case Own(_, m) => CanMove(t, m, |s.listed|)
    case ApplyLocal(_) => CanApplyLocal(t)
    case Take(_, b) => CanTake(t) && b in s.queue
    case Add(_, _) => CanAdd(t)
    case SendDone(_) => CanSendDone(t) && s.queue == multiset{}
    case ApplyGlobal(_) => CanBlock(t) && HasTarget(s, t)
    case Unblock(_) => CanUnblock(t) && HasTarget(s, t) && s.threads[Target(s, t)].sender == Ended
    case ReceiveBlock(_, _) => CanReceive(t)
    case ReceivePart(_, received, trusted) => CanReceivePart(t, received, trusted)
    case Decide(_) => CanDecide(t, |s.listed|)
                      && forall j | 0 <= j < |s.threads| && j != a.k :: s.threads[j].status != RUNNING
    case Die(_) => CanDie(t)
    case Leave(_) => t.receiver == Accepting
  }

  ghost function Put(s: Sys, k: nat, t: Thread): Sys
    requires k < |s.threads|
  {
    s.(threads := s.threads[k := t])
  }

  /** Blocks setCheckpointAndReturnToQueue hands back. */
  ghost function Returned(t: Thread, c: Checkpoint, isGlobal: bool): seq<Block> {
    if Judge(|t.history|, t.last, c, isGlobal) == INVALID_CHECKPOINT || c.numBlocks < 0 then []
    else Unacknowledged(t.history[c.numBlocks..], c)
  }

  /** The first `n` bytes of `b`. */
  ghost function Prefix(b: Block, n: int): set<FileByte>
    decreases n
  {
    if n <= 0 then {} else Prefix(b, n - 1) + {FileByte(b.seqId, b.offset + n - 1)}
  }
  lemma {:induction false} PrefixHolds(b: Block, n: int, x: FileByte)
    ensures x in Prefix(b, n) <==> x.seqId == b.seqId && b.offset <= x.pos < b.offset + n
    decreases n
  {
    if n > 0 { PrefixHolds(b, n - 1, x); }
  }

  ghost function Next(s: Sys, a: Action): Sys
    requires Enabled(s, a)
  {
    var k, t := a.k, s.threads[a.k];
    match a
    case Own(_, m) => Put(s, k, DoMove(t, m, |s.listed|))
    case ApplyLocal(_) =>
      Put(s, k, DoApplyLocal(t)).(queue := s.queue + multiset(Returned(t, t.checkpointOn.value.msg, false)))
    case Take(_, b) => Put(s, k, DoTake(t, b)).(queue := s.queue - multiset{b})
    case Add(_, written) =>
      var back := if t.globalCheckpoint then multiset{Credited(t.inHand.value, t.last)} else multiset{};
      Put(s, k, DoAdd(t, written)).(queue := s.queue + back)
    case SendDone(_) => Put(s, k, DoSendDone(t))
    case ApplyGlobal(_) =>
      var c := s.listed[t.sender.next];
      var j := Target(s, t);
      var s1 := Put(s, j, DoGlobal(s.threads[j], c));
      Put(s1, k, DoBlock(s1.threads[k]))
        .(queue := s.queue + multiset(Returned(s.threads[j], c, true)),
          rejected := s.rejected || (GlobalVerdict(s.threads[j], c) == INVALID_CHECKPOINT && !AnyDecided(s)))
    case Unblock(_) => Put(s, k, DoUnblock(t))
    case ReceiveBlock(_, tagged) =>
      Put(s, k, DoReceiveBlock(t, tagged)).(delivered := s.delivered + Prefix(t.flow[0], t.flow[0].size))
    case ReceivePart(_, received, trusted) =>
      Put(s, k, DoReceivePart(t, received, trusted)).(delivered := s.delivered + Prefix(t.flow[0], received))
    case Decide(_) => Put(s, k, DoDecide(t))
    case Die(_) => Put(s, k, DoDie(t)).(listed := s.listed + [LocalCheckpoint(t)])
    case Leave(_) => Put(s, k, DoDie(t)).(silent := s.silent || !AnyDecided(s))
  }

  // ---------------------------------------------------------------- invariant

  ghost predicate ThreadsInv(s: Sys) {
    forall k | 0 <= k < |s.threads| :: Inv(s.threads[k]) && s.threads[k].port == k
  }

  /** How far into the list anything thread `t` holds reaches. */
  ghost predicate Within(t: Thread, n: nat) {
    && t.applied <= n && t.pending <= n
    && (t.sender.Applying? || t.sender.Blocked? ==> t.sender.upto <= n)
    && (t.errOn.Some? ==> t.errOn.value.msg.upto <= n)
  }

  ghost predicate ListInv(s: Sys) {
    && (forall m | 0 <= m < |s.listed| ::
          && 0 <= s.listed[m].port < |s.threads|
          && var t := s.threads[s.listed[m].port]; t.receiver == Gone && s.listed[m] == LocalCheckpoint(t))
    && (forall k | 0 <= k < |s.threads| :: Within(s.threads[k], |s.listed|))
    && (!s.silent && !AnyDecided(s) ==> forall k | 0 <= k < |s.threads| ::
          s.threads[k].receiver == Gone ==> IsListed(s, k))
    // nobody is ever asked to apply its own checkpoint
    && (forall k, m | 0 <= k < |s.threads| && 0 <= m < |s.listed| ::
          s.listed[m].port == k ==> Within(s.threads[k], m))
  }
  ghost predicate IsListed(s: Sys, k: nat) { exists m | 0 <= m < |s.listed| :: s.listed[m].port == k }

  ghost predicate Settled(t: Thread) { t.globalCheckpoint && t.sender == Ended && t.inHand.None? }

  ghost predicate SettledInv(s: Sys) {
    !s.rejected && !AnyDecided(s) ==>
      && (forall k, m | 0 <= k < |s.threads| && 0 <= m < s.threads[k].applied && m < |s.listed| ::
            0 <= s.listed[m].port < |s.threads| ==> Settled(s.threads[s.listed[m].port]))
      && (forall k | 0 <= k < |s.threads| && s.threads[k].sender.Blocked? && HasTarget(s, s.threads[k]) ::
            s.threads[Target(s, s.threads[k])].globalCheckpoint)
  }

  /** Someone will still come back to the queue before its receiver stops running. */
  ghost predicate Drains(t: Thread) { t.status == RUNNING && !t.doneInFlight }
  ghost predicate Unapplied(s: Sys, m: nat) {
    m < |s.listed| && forall i | 0 <= i < |s.threads| :: s.threads[i].applied <= m
  }
  ghost predicate Cared(s: Sys) {
    || (exists j | 0 <= j < |s.threads| :: Drains(s.threads[j]))
    || (exists m: nat :: Unapplied(s, m))
  }
  ghost predicate QueueInv(s: Sys) {
    !s.rejected && !s.silent && !AnyDecided(s) && s.queue != multiset{} ==> Cared(s)
  }

  ghost predicate InQueue(s: Sys, x: FileByte) { exists b | b in s.queue :: Holds(b, x) }
  ghost predicate OnPort(t: Thread, x: FileByte) { exists i | 0 <= i < |All(t)| :: Holds(All(t)[i], x) }
  ghost predicate Accounted(s: Sys, x: FileByte) {
    x in s.delivered || InQueue(s, x) || exists k | 0 <= k < |s.threads| :: OnPort(s.threads[k], x)
  }

  ghost predicate Got(d: set<FileByte>, b: Block) { forall x | Holds(b, x) :: x in d }
  ghost predicate GotAll(d: set<FileByte>, bs: seq<Block>) { forall i | 0 <= i < |bs| :: Got(d, bs[i]) }
  ghost predicate GotPart(d: set<FileByte>, seqId: int, offset: int, n: int) {
    forall p | offset <= p < offset + n :: FileByte(seqId, p) in d
  }
  /** What a receiver, or a checkpoint in anyone's hands, claims to have is really there. */
  ghost predicate Honest(d: set<FileByte>, t: Thread) {
    && GotAll(d, t.done) && GotAll(d, t.unverified)
    && GotPart(d, t.part.seqId, t.part.offset, t.part.received)
    && (t.last.Some? ==> HonestCheckpoint(d, t.last.value))
    && (t.checkpointOn.Some? ==> HonestCheckpoint(d, t.checkpointOn.value.msg))
  }
  ghost predicate HonestCheckpoint(d: set<FileByte>, c: Checkpoint) {
    GotPart(d, c.lastBlockSeqId, c.lastBlockOffset, c.lastBlockReceivedBytes) && c.hasSeqId
  }
  ghost predicate HonestInv(s: Sys) {
    forall k | 0 <= k < |s.threads| :: Honest(s.delivered, s.threads[k])
  }

  ghost predicate CoverInv(s: Sys, universe: set<FileByte>) {
    forall x | x in universe :: Accounted(s, x)
  }

  ghost predicate OutcomeInv(s: Sys, universe: set<FileByte>) {
    AnyDecided(s) && !s.rejected && !s.silent ==> universe <= s.delivered
  }

  ghost predicate SysInv(s: Sys, universe: set<FileByte>) {
    && ThreadsInv(s) && ListInv(s) && SettledInv(s) && QueueInv(s)
    && HonestInv(s) && CoverInv(s, universe) && OutcomeInv(s, universe)
  }

  // ---------------------------------------------------------------- one thread changes

  /** `s'` differs from `s` in thread `k`, the queue, more delivered bytes, and flags raised before any decision. */
  ghost predicate OneChanges(s: Sys, s': Sys, k: nat) {
    && k < |s.threads| == |s'.threads|
    && s'.threads == s.threads[k := s'.threads[k]]
    && s'.listed == s.listed
    && s.delivered <= s'.delivered
    && (s.rejected ==> s'.rejected) && (s.silent ==> s'.silent)
    && (AnyDecided(s) ==> s'.rejected == s.rejected && s'.silent == s.silent)
    && s'.threads[k].decided == s.threads[k].decided
    && Inv(s'.threads[k]) && s'.threads[k].port == s.threads[k].port
  }

  lemma SameDecided(s: Sys, s': Sys, k: nat)
    requires OneChanges(s, s', k)
    ensures AnyDecided(s') == AnyDecided(s)
  {
    if AnyDecided(s) {
      var j :| 0 <= j < |s.threads| && s.threads[j].decided;
      assert s'.threads[j].decided;
    }
    if AnyDecided(s') {
      var j :| 0 <= j < |s'.threads| && s'.threads[j].decided;
      assert s.threads[j].decided;
    }
  }

  lemma ThreadsStep(s: Sys, s': Sys, k: nat)
    requires ThreadsInv(s) && OneChanges(s, s', k)
    ensures ThreadsInv(s')
  {
    forall j | 0 <= j < |s'.threads| ensures Inv(s'.threads[j]) && s'.threads[j].port == j {
      if j != k { assert s'.threads[j] == s.threads[j]; }
    }
  }

  /** A thread whose receiver is gone keeps its checkpoint and reaches no further into the list. */
  ghost predicate KeepsPlace(t: Thread, t': Thread, listed: nat) {
    && Within(t', listed)
    && (t.receiver == Gone ==>
          && t'.receiver == Gone && LocalCheckpoint(t') == LocalCheckpoint(t)
          && forall n: nat | Within(t, n) :: Within(t', n))
    && (t'.receiver == Gone ==> t.receiver == Gone)
  }

  lemma ListStep(s: Sys, s': Sys, k: nat)
    requires ListInv(s) && OneChanges(s, s', k)
    requires KeepsPlace(s.threads[k], s'.threads[k], |s.listed|)
    ensures ListInv(s')
  {
    SameDecided(s, s', k);
    forall m | 0 <= m < |s'.listed|
      ensures 0 <= s'.listed[m].port < |s'.threads|
      ensures var t := s'.threads[s'.listed[m].port]; t.receiver == Gone && s'.listed[m] == LocalCheckpoint(t)
    {
      var j := s.listed[m].port;
      if j != k { assert s'.threads[j] == s.threads[j]; }
    }
    forall j | 0 <= j < |s'.threads| ensures Within(s'.threads[j], |s'.listed|) {
      if j != k { assert s'.threads[j] == s.threads[j]; }
    }
    forall j, m | 0 <= j < |s'.threads| && 0 <= m < |s'.listed| && s'.listed[m].port == j
      ensures Within(s'.threads[j], m)
    {
      assert Within(s.threads[j], m);
      if j != k { assert s'.threads[j] == s.threads[j]; }
    }
    if !s'.silent && !AnyDecided(s') {
      forall j | 0 <= j < |s'.threads| && s'.threads[j].receiver == Gone ensures IsListed(s', j) {
        if j != k { assert s'.threads[j] == s.threads[j]; }
        assert IsListed(s, j);
        var m :| 0 <= m < |s.listed| && s.listed[m].port == j;
        assert s'.listed[m].port == j;
      }
    }
  }

  /** Nothing that others rely on about a settled thread is undone. */
  ghost predicate KeepsSettled(t: Thread, t': Thread) {
    && (Settled(t) ==> Settled(t')) && (t.globalCheckpoint ==> t'.globalCheckpoint)
    && t'.applied <= t.applied
    && (t'.sender.Blocked? ==> t'.sender == t.sender)
  }

  lemma SettledStep(s: Sys, s': Sys, k: nat)
    requires SettledInv(s) && OneChanges(s, s', k)
    requires KeepsSettled(s.threads[k], s'.threads[k])
    ensures SettledInv(s')
  {
    SameDecided(s, s', k);
    if !s'.rejected && !AnyDecided(s') {
      forall j, m | 0 <= j < |s'.threads| && 0 <= m < s'.threads[j].applied && m < |s'.listed|
             && 0 <= s'.listed[m].port < |s'.threads|
        ensures Settled(s'.threads[s'.listed[m].port])
      {
        assert m < s.threads[j].applied by { if j != k { assert s'.threads[j] == s.threads[j]; } }
        assert Settled(s.threads[s.listed[m].port]);
        if s.listed[m].port != k { assert s'.threads[s.listed[m].port] == s.threads[s.listed[m].port]; }
      }
      forall j | 0 <= j < |s'.threads| && s'.threads[j].sender.Blocked? && HasTarget(s', s'.threads[j])
        ensures s'.threads[Target(s', s'.threads[j])].globalCheckpoint
      {
        assert s.threads[j].sender == s'.threads[j].sender by { if j != k { assert s'.threads[j] == s.threads[j]; } }
        assert HasTarget(s, s.threads[j]);
        var i := Target(s, s.threads[j]);
        assert s.threads[i].globalCheckpoint;
        if i != k { assert s'.threads[i] == s.threads[i]; }
      }
    }
  }

  lemma CaredStep(s: Sys, s': Sys, k: nat)
    requires OneChanges(s, s', k) && Cared(s)
    requires Drains(s.threads[k]) ==> Drains(s'.threads[k])
    requires s'.threads[k].applied <= s.threads[k].applied
    ensures Cared(s')
  {
    if j :| 0 <= j < |s.threads| && Drains(s.threads[j]) {
      if j != k { assert s'.threads[j] == s.threads[j]; }
      assert Drains(s'.threads[j]);
    } else {
      var m: nat :| Unapplied(s, m);
      forall i | 0 <= i < |s'.threads| ensures s'.threads[i].applied <= m {
        assert s.threads[i].applied <= m;
        if i != k { assert s'.threads[i] == s.threads[i]; }
      }
      assert Unapplied(s', m);
    }
  }

  lemma HonestGrows(d: set<FileByte>, d': set<FileByte>, t: Thread)
    requires Honest(d, t) && d <= d'
    ensures Honest(d', t)
  {
    forall i | 0 <= i < |t.done| ensures Got(d', t.done[i]) { assert Got(d, t.done[i]); }
    forall i | 0 <= i < |t.unverified| ensures Got(d', t.unverified[i]) { assert Got(d, t.unverified[i]); }
    PartGrows(d, d', t.part.seqId, t.part.offset, t.part.received);
    if t.last.Some? {
      var c := t.last.value;
      PartGrows(d, d', c.lastBlockSeqId, c.lastBlockOffset, c.lastBlockReceivedBytes);
    }
    if t.checkpointOn.Some? {
      var c := t.checkpointOn.value.msg;
      PartGrows(d, d', c.lastBlockSeqId, c.lastBlockOffset, c.lastBlockReceivedBytes);
    }
  }

  lemma PartGrows(d: set<FileByte>, d': set<FileByte>, seqId: int, offset: int, n: int)
    requires GotPart(d, seqId, offset, n) && d <= d'
    ensures GotPart(d', seqId, offset, n)
  {
    forall p | offset <= p < offset + n ensures FileByte(seqId, p) in d' { assert FileByte(seqId, p) in d; }
  }

  lemma HonestStep(s: Sys, s': Sys, k: nat)
    requires HonestInv(s) && OneChanges(s, s', k) && Honest(s'.delivered, s'.threads[k])
    ensures HonestInv(s')
  {
    forall j | 0 <= j < |s'.threads| ensures Honest(s'.delivered, s'.threads[j]) {
      if j != k {
        assert s'.threads[j] == s.threads[j];
        HonestGrows(s.delivered, s'.delivered, s.threads[j]);
      }
    }
  }

  /** No byte held by the queue or by thread `k` is lost. */
  ghost predicate KeepsByte(s: Sys, s': Sys, k: nat, x: FileByte)
    requires k < |s.threads| && k < |s'.threads|
  {
    InQueue(s, x) || OnPort(s.threads[k], x) ==>
      x in s'.delivered || InQueue(s', x) || OnPort(s'.threads[k], x)
  }

  lemma CoverStep(s: Sys, s': Sys, k: nat, universe: set<FileByte>)
    requires CoverInv(s, universe) && OneChanges(s, s', k)
    requires forall x | x in universe :: KeepsByte(s, s', k, x)
    ensures CoverInv(s', universe)
  {
    forall x | x in universe ensures Accounted(s', x) {
      assert Accounted(s, x) && KeepsByte(s, s', k, x);
      if j :| 0 <= j < |s.threads| && OnPort(s.threads[j], x) && j != k {
        assert OnPort(s'.threads[j], x);
      }
    }
  }

  lemma OutcomeStep(s: Sys, s': Sys, k: nat, universe: set<FileByte>)
    requires OutcomeInv(s, universe) && OneChanges(s, s', k)
    ensures OutcomeInv(s', universe)
  {
    SameDecided(s, s', k);
  }

  /** A step that changes thread `k` in none of the ways the others depend on. */
  lemma LocalStep(s: Sys, s': Sys, k: nat, universe: set<FileByte>)
    requires SysInv(s, universe) && OneChanges(s, s', k)
    requires KeepsPlace(s.threads[k], s'.threads[k], |s.listed|)
    requires KeepsSettled(s.threads[k], s'.threads[k])
    requires s'.queue == multiset{} || (s'.queue <= s.queue && (Drains(s.threads[k]) ==> Drains(s'.threads[k])))
    requires Honest(s'.delivered, s'.threads[k])
    requires forall x | x in universe :: KeepsByte(s, s', k, x)
    ensures SysInv(s', universe)
  {
    SameDecided(s, s', k);
    ThreadsStep(s, s', k);
    ListStep(s, s', k);
    SettledStep(s, s', k);
    HonestStep(s, s', k);
    CoverStep(s, s', k, universe);
    OutcomeStep(s, s', k, universe);
    if !s'.rejected && !s'.silent && !AnyDecided(s') && s'.queue != multiset{} {
      assert s.queue != multiset{};
      CaredStep(s, s', k);
    }
  }

  /**
   A sender thread in the middle of its work means the queue is not forgotten: either its receiver is
   still running, or the receiver's checkpoint is listed and nobody has finished applying it.
   */
  lemma BusyCares(s: Sys, k: nat)
    requires k < |s.threads| && ThreadsInv(s) && ListInv(s) && SettledInv(s)
    requires !s.rejected && !s.silent && !AnyDecided(s)
    requires !Idle(s.threads[k].sender)
    ensures Drains(s.threads[k]) || exists m: nat :: Unapplied(s, m)
  {
    var t := s.threads[k];
    assert Inv(t) && !t.decided;
    if t.receiver == Gone {
      assert IsListed(s, k);
      var m :| 0 <= m < |s.listed| && s.listed[m].port == k;
      assert !Settled(s.threads[s.listed[m].port]);
      assert Unapplied(s, m);
    }
  }

  // ---------------------------------------------------------------- steps that only touch their own thread

  ghost predicate SameBlocks(t: Thread, t': Thread) { t'.history == t.history && t'.inHand == t.inHand }

  lemma BytesStay(s: Sys, s': Sys, k: nat, universe: set<FileByte>)
    requires k < |s.threads| && k < |s'.threads| && s'.queue == s.queue
    requires SameBlocks(s.threads[k], s'.threads[k])
    ensures forall x | x in universe :: KeepsByte(s, s', k, x)
  {
    assert All(s'.threads[k]) == All(s.threads[k]);
    forall x | x in universe ensures KeepsByte(s, s', k, x) {
      if OnPort(s.threads[k], x) {
        var i :| 0 <= i < |All(s.threads[k])| && Holds(All(s.threads[k])[i], x);
        assert Holds(All(s'.threads[k])[i], x);
      }
      if InQueue(s, x) {
        var b :| b in s.queue && Holds(b, x);
        assert b in s'.queue;
      }
    }
  }

  /** Everything about a thread that LocalStep asks for, when no block moves and nothing new is vouched for. */
  ghost predicate Quiet(t: Thread, t': Thread, listed: nat) {
    && Inv(t') && t'.port == t.port && t'.decided == t.decided && SameBlocks(t, t')
    && KeepsPlace(t, t', listed) && KeepsSettled(t, t')
    && (Drains(t) ==> Drains(t'))
  }

  lemma QuietStep(s: Sys, k: nat, t': Thread, universe: set<FileByte>)
    requires SysInv(s, universe) && k < |s.threads|
    requires Quiet(s.threads[k], t', |s.listed|) && Honest(s.delivered, t')
    ensures SysInv(Put(s, k, t'), universe)
  {
    var s' := Put(s, k, t');
    BytesStay(s, s', k, universe);
    LocalStep(s, s', k, universe);
  }

  lemma MoveIsQuiet(t: Thread, m: Move, listed: nat)
    requires Inv(t) && CanMove(t, m, listed) && Within(t, listed) && Inv(DoMove(t, m, listed))
    ensures Quiet(t, DoMove(t, m, listed), listed)
  {
  }

  lemma MoveIsHonest(d: set<FileByte>, t: Thread, m: Move, listed: nat)
    requires CanMove(t, m, listed) && Honest(d, t)
    ensures Honest(d, DoMove(t, m, listed))
  {
  }

  lemma OwnStep(s: Sys, k: nat, m: Move, universe: set<FileByte>)
    requires SysInv(s, universe) && Enabled(s, Own(k, m))
    ensures SysInv(Next(s, Own(k, m)), universe)
  {
    var t := s.threads[k];
    assert Inv(t) && Honest(s.delivered, t) && Within(t, |s.listed|);
    MoveKeeps(t, m, |s.listed|);
    MoveIsQuiet(t, m, |s.listed|);
    MoveIsHonest(s.delivered, t, m, |s.listed|);
    QuietStep(s, k, DoMove(t, m, |s.listed|), universe);
  }

  lemma SendDoneStep(s: Sys, k: nat, universe: set<FileByte>)
    requires SysInv(s, universe) && Enabled(s, SendDone(k))
    ensures SysInv(Next(s, SendDone(k)), universe)
  {
    var s' := Next(s, SendDone(k));
    var t := s.threads[k];
    assert Inv(t) && Honest(s.delivered, t) && Within(t, |s.listed|);
    SendDoneKeeps(t);
    BytesStay(s, s', k, universe);
    LocalStep(s, s', k, universe);
  }

  /** Receiving adds to what is delivered, whole block or part. */
  lemma ReceiveBlockStep(s: Sys, k: nat, tagged: bool, universe: set<FileByte>)
    requires SysInv(s, universe) && Enabled(s, ReceiveBlock(k, tagged))
    ensures SysInv(Next(s, ReceiveBlock(k, tagged)), universe)
  {
    var s' := Next(s, ReceiveBlock(k, tagged));
    var t := s.threads[k];
    assert Inv(t) && Within(t, |s.listed|);
    ReceiveBlockKeeps(t, tagged);
    HonestGrows(s.delivered, s'.delivered, t);
    GotWhole(s'.delivered, t.flow[0]);
    ReceivedIsHonest(s'.delivered, t, tagged);
    BytesStay(s, s', k, universe);
    LocalStep(s, s', k, universe);
  }

  lemma {:induction false} GotWhole(d: set<FileByte>, b: Block)
    requires Prefix(b, b.size) <= d
    ensures Got(d, b)
  {
    forall x | Holds(b, x) ensures x in d { PrefixHolds(b, b.size, x); }
  }

  lemma GotBoth(d: set<FileByte>, a: seq<Block>, b: seq<Block>)
    requires GotAll(d, a) && GotAll(d, b)
    ensures GotAll(d, a + b)
  {
  }

  lemma ReceivedIsHonest(d: set<FileByte>, t: Thread, tagged: bool)
    requires CanReceive(t) && Honest(d, t) && Got(d, t.flow[0])
    ensures Honest(d, DoReceiveBlock(t, tagged))
  {
    var t' := DoReceiveBlock(t, tagged);
    var one := [t.flow[0]];
    GotBoth(d, t.unverified, one);
    GotBoth(d, t.done, t.unverified);
    GotBoth(d, t.done + t.unverified, one);
    assert GotAll(d, t'.done) && GotAll(d, t'.unverified);
  }

  lemma ReceivePartStep(s: Sys, k: nat, received: int, trusted: bool, universe: set<FileByte>)
    requires SysInv(s, universe) && Enabled(s, ReceivePart(k, received, trusted))
    ensures SysInv(Next(s, ReceivePart(k, received, trusted)), universe)
  {
    var s' := Next(s, ReceivePart(k, received, trusted));
    var t := s.threads[k];
    assert Inv(t) && Within(t, |s.listed|);
    ReceivePartKeeps(t, received, trusted);
    HonestGrows(s.delivered, s'.delivered, t);
    var b := t.flow[0];
    forall p | b.offset <= p < b.offset + received ensures FileByte(b.seqId, p) in s'.delivered {
      PrefixHolds(b, received, FileByte(b.seqId, p));
    }
    BytesStay(s, s', k, universe);
    LocalStep(s, s', k, universe);
  }

  // ---------------------------------------------------------------- steps that move blocks

  lemma TakeKeepsByte(s: Sys, k: nat, b: Block, x: FileByte)
    requires k < |s.threads| && s.threads[k].inHand.None? && b in s.queue
    ensures KeepsByte(s, Put(s, k, DoTake(s.threads[k], b)).(queue := s.queue - multiset{b}), k, x)
  {
    var t, t' := s.threads[k], DoTake(s.threads[k], b);
    var s' := Put(s, k, t').(queue := s.queue - multiset{b});
    assert All(t') == All(t) + [b];
    if i :| 0 <= i < |All(t)| && Holds(All(t)[i], x) {
      assert Holds(All(t')[i], x);
    }
    if c :| c in s.queue && Holds(c, x) {
      if c == b { assert Holds(All(t')[|All(t)|], x); } else { assert c in s'.queue; }
    }
  }

  lemma TakeStep(s: Sys, k: nat, b: Block, universe: set<FileByte>)
    requires SysInv(s, universe) && Enabled(s, Take(k, b))
    ensures SysInv(Next(s, Take(k, b)), universe)
  {
    var s' := Next(s, Take(k, b));
    var t := s.threads[k];
    assert Inv(t) && Honest(s.delivered, t) && Within(t, |s.listed|);
    TakeKeeps(t, b);
    forall x | x in universe ensures KeepsByte(s, s', k, x) { TakeKeepsByte(s, k, b, x); }
    LocalStep(s, s', k, universe);
  }

  /** Crediting a block with an honest checkpoint loses none of its bytes. */
  lemma CreditLosesNothing(d: set<FileByte>, b: Block, c: Option<Checkpoint>, x: FileByte)
    requires c.Some? ==> HonestCheckpoint(d, c.value)
    requires Holds(b, x)
    ensures x in d || Holds(Credited(b, c), x)
  {
    if c.Some? && Names(c.value, b) {
      assert x == FileByte(b.seqId, x.pos);
    }
  }

  lemma ReturnLosesNothing(d: set<FileByte>, blocks: seq<Block>, c: Checkpoint, i: nat, x: FileByte)
    requires HonestCheckpoint(d, c)
    requires i < |blocks| && Holds(blocks[i], x)
    ensures x in d || Holds(Unacknowledged(blocks, c)[i], x)
  {
    if i == 0 { CreditLosesNothing(d, blocks[0], Some(c), x); }
  }

  lemma CutHistory(d: set<FileByte>, t: Thread, c: Checkpoint, i: nat, x: FileByte)
    requires 0 <= c.numBlocks <= |t.history| && HonestCheckpoint(d, c)
    requires i < |t.history| && Holds(t.history[i], x)
    ensures || x in d
            || (i < c.numBlocks && Holds(t.history[..c.numBlocks][i], x))
            || (i >= c.numBlocks && Holds(Unacknowledged(t.history[c.numBlocks..], c)[i - c.numBlocks], x))
  {
    if i >= c.numBlocks { ReturnLosesNothing(d, t.history[c.numBlocks..], c, i - c.numBlocks, x); }
  }

  lemma OnPortAt(t: Thread, i: nat, x: FileByte)
    requires i < |t.history| && Holds(t.history[i], x)
    ensures OnPort(t, x)
  {
    assert Holds(All(t)[i], x);
  }

  lemma OnPortInHand(t: Thread, x: FileByte)
    requires t.inHand.Some? && Holds(t.inHand.value, x)
    ensures OnPort(t, x)
  {
    assert Holds(All(t)[|t.history|], x);
  }

  /** A history cut to the checkpoint, the rest back in the queue. */
  lemma CutLosesNothing(s: Sys, s': Sys, k: nat, c: Checkpoint, x: FileByte)
    requires k < |s.threads| && k < |s'.threads|
    requires var t, t' := s.threads[k], s'.threads[k];
             && 0 <= c.numBlocks <= |t.history| && t'.history == t.history[..c.numBlocks] && t'.inHand == t.inHand
             && s'.queue == s.queue + multiset(Unacknowledged(t.history[c.numBlocks..], c))
    requires HonestCheckpoint(s'.delivered, c)
    ensures KeepsByte(s, s', k, x)
  {
    var t, t', n := s.threads[k], s'.threads[k], c.numBlocks;
    var back := Unacknowledged(t.history[n..], c);
    if InQueue(s, x) {
      var b :| b in s.queue && Holds(b, x);
      assert b in s'.queue;
    } else if OnPort(t, x) {
      var i :| 0 <= i < |All(t)| && Holds(All(t)[i], x);
      if i >= |t.history| {
        OnPortInHand(t', x);
      } else {
        CutHistory(s'.delivered, t, c, i, x);
        if i < n && Holds(t'.history[i], x) { OnPortAt(t', i, x); }
        if i >= n { assert back[i - n] in back && back[i - n] in s'.queue; }
      }
    }
  }

  /** What the invariant still needs when thread `k` changed and the queue may have grown. */
  lemma GrowStep(s: Sys, s': Sys, k: nat, universe: set<FileByte>)
    requires SysInv(s, universe) && OneChanges(s, s', k)
    requires KeepsPlace(s.threads[k], s'.threads[k], |s.listed|)
    requires KeepsSettled(s.threads[k], s'.threads[k])
    requires Honest(s'.delivered, s'.threads[k])
    requires forall x | x in universe :: KeepsByte(s, s', k, x)
    requires !s'.rejected && !s'.silent && !AnyDecided(s') ==> Cared(s')
    ensures SysInv(s', universe)
  {
    ThreadsStep(s, s', k);
    ListStep(s, s', k);
    SettledStep(s, s', k);
    HonestStep(s, s', k);
    CoverStep(s, s', k, universe);
    OutcomeStep(s, s', k, universe);
  }

  lemma ApplyLocalStep(s: Sys, k: nat, universe: set<FileByte>)
    requires SysInv(s, universe) && Enabled(s, ApplyLocal(k))
    ensures SysInv(Next(s, ApplyLocal(k)), universe)
  {
    var t := s.threads[k];
    assert Inv(t) && Honest(s.delivered, t) && Within(t, |s.listed|);
    ApplyLocalKeeps(t);
    var c := t.checkpointOn.value.msg;
    if Judge(|t.history|, t.last, c, false) == INVALID_CHECKPOINT || c.numBlocks < 0 {
      assert s.queue + multiset([]) == s.queue;
      QuietStep(s, k, DoApplyLocal(t), universe);
    } else {
      AcceptedLocalStep(s, k, universe);
    }
  }

  lemma AcceptedLocalStep(s: Sys, k: nat, universe: set<FileByte>)
    requires SysInv(s, universe) && Enabled(s, ApplyLocal(k)) && Inv(DoApplyLocal(s.threads[k]))
    requires var t := s.threads[k]; var c := t.checkpointOn.value.msg;
             Judge(|t.history|, t.last, c, false) != INVALID_CHECKPOINT && c.numBlocks >= 0
    ensures SysInv(Next(s, ApplyLocal(k)), universe)
  {
    var s' := Next(s, ApplyLocal(k));
    var t := s.threads[k];
    var c := t.checkpointOn.value.msg;
    assert Inv(t) && Honest(s.delivered, t) && Within(t, |s.listed|);
    forall x | x in universe ensures KeepsByte(s, s', k, x) { CutLosesNothing(s, s', k, c, x); }
    BusyStep(s, s', k, k, universe);
  }

  lemma AddStep(s: Sys, k: nat, written: bool, universe: set<FileByte>)
    requires SysInv(s, universe) && Enabled(s, Add(k, written))
    ensures SysInv(Next(s, Add(k, written)), universe)
  {
    var t := s.threads[k];
    assert Inv(t) && Honest(s.delivered, t) && Within(t, |s.listed|);
    AddKeeps(t, written);
    if t.globalCheckpoint { LateAddStep(s, k, written, universe); } else { PlainAddStep(s, k, written, universe); }
  }

  lemma PlainAddStep(s: Sys, k: nat, written: bool, universe: set<FileByte>)
    requires SysInv(s, universe) && Enabled(s, Add(k, written)) && !s.threads[k].globalCheckpoint
    requires Inv(DoAdd(s.threads[k], written))
    ensures SysInv(Next(s, Add(k, written)), universe)
  {
    var s' := Next(s, Add(k, written));
    var t := s.threads[k];
    assert Honest(s.delivered, t) && Within(t, |s.listed|);
    assert s'.queue == s.queue;
    assert All(s'.threads[k]) == All(t);
    forall x | x in universe ensures KeepsByte(s, s', k, x) {
      if i :| 0 <= i < |All(t)| && Holds(All(t)[i], x) { assert Holds(All(s'.threads[k])[i], x); }
    }
    LocalStep(s, s', k, universe);
  }

  /** The block in hand finds the history already cut by a global checkpoint: it goes back, credited. */
  lemma LateAddStep(s: Sys, k: nat, written: bool, universe: set<FileByte>)
    requires SysInv(s, universe) && Enabled(s, Add(k, written)) && s.threads[k].globalCheckpoint
    requires Inv(DoAdd(s.threads[k], written))
    ensures SysInv(Next(s, Add(k, written)), universe)
  {
    var s' := Next(s, Add(k, written));
    var t := s.threads[k];
    assert Inv(t) && Honest(s.delivered, t) && Within(t, |s.listed|);
    forall x | x in universe ensures KeepsByte(s, s', k, x) { LateAddKeepsByte(s, k, written, x); }
    SameDecided(s, s', k);
    if !s'.rejected && !s'.silent && !AnyDecided(s') {
      BusyCares(s, k);
      CaredStep(s, s', k);
    }
    GrowStep(s, s', k, universe);
  }

  lemma LateAddKeepsByte(s: Sys, k: nat, written: bool, x: FileByte)
    requires Enabled(s, Add(k, written)) && s.threads[k].globalCheckpoint && Honest(s.delivered, s.threads[k])
    ensures KeepsByte(s, Next(s, Add(k, written)), k, x)
  {
    var s' := Next(s, Add(k, written));
    var t := s.threads[k];
    if b :| b in s.queue && Holds(b, x) { assert b in s'.queue; }
    if i :| 0 <= i < |All(t)| && Holds(All(t)[i], x) {
      if i < |t.history| {
        assert Holds(All(s'.threads[k])[i], x);
      } else {
        CreditLosesNothing(s.delivered, t.inHand.value, t.last, x);
        assert Credited(t.inHand.value, t.last) in s'.queue;
      }
    }
  }

  // ---------------------------------------------------------------- steps between threads

  /** setGlobalCheckpoint as far as the failed thread's history is concerned. */
  ghost function AfterGlobal(s: Sys, c: Checkpoint): Sys
    requires 0 <= c.port < |s.threads|
  {
    var j := c.port;
    Put(s, j, DoGlobal(s.threads[j], c))
      .(queue := s.queue + multiset(Returned(s.threads[j], c, true)),
        rejected := s.rejected || (GlobalVerdict(s.threads[j], c) == INVALID_CHECKPOINT && !AnyDecided(s)))
  }

  lemma GlobalKeepsByte(s: Sys, c: Checkpoint, x: FileByte)
    requires 0 <= c.port < |s.threads|
    requires Honest(s.delivered, s.threads[c.port]) && c == LocalCheckpoint(s.threads[c.port])
    ensures KeepsByte(s, AfterGlobal(s, c), c.port, x)
  {
    var s' := AfterGlobal(s, c);
    var t := s.threads[c.port];
    if GlobalVerdict(t, c) == INVALID_CHECKPOINT {
      assert s'.queue == s.queue;
    } else {
      CutLosesNothing(s, s', c.port, c, x);
    }
  }

  lemma GlobalHonest(t: Thread, c: Checkpoint, d: set<FileByte>)
    requires Honest(d, t) && c == LocalCheckpoint(t)
    ensures Honest(d, DoGlobal(t, c))
  {
    assert HonestCheckpoint(d, c);
    var t' := DoGlobal(t, c);
    assert t'.done == t.done && t'.unverified == t.unverified && t'.part == t.part && t'.checkpointOn == t.checkpointOn;
    assert t'.last == t.last || t'.last == Some(c);
  }

  lemma GlobalChange(t: Thread, c: Checkpoint, listed: nat)
    requires Inv(t) && Within(t, listed) && t.receiver == Gone && c == LocalCheckpoint(t)
    ensures var t' := DoGlobal(t, c);
            && KeepsPlace(t, t', listed) && KeepsSettled(t, t')
            && t'.port == t.port && t'.decided == t.decided
            && (GlobalVerdict(t, c) == INVALID_CHECKPOINT || t'.globalCheckpoint)
  {
    var t' := DoGlobal(t, c);
    assert t'.sender == t.sender && t'.applied == t.applied && t'.pending == t.pending && t'.errOn == t.errOn;
    assert t'.receiver == Gone && t'.done == t.done && t'.part == t.part && t'.inHand == t.inHand;
  }

  lemma AfterGlobalKeeps(s: Sys, k: nat, c: Checkpoint, universe: set<FileByte>)
    requires SysInv(s, universe) && k < |s.threads| && !Idle(s.threads[k].sender)
    requires 0 <= c.port < |s.threads| && c.port != k
    requires s.threads[c.port].receiver == Gone && c == LocalCheckpoint(s.threads[c.port])
    ensures SysInv(AfterGlobal(s, c), universe)
    ensures var s' := AfterGlobal(s, c); s'.rejected || AnyDecided(s') || s'.threads[c.port].globalCheckpoint
  {
    var j, s' := c.port, AfterGlobal(s, c);
    var t := s.threads[j];
    GlobalKeeps(t, c);
    GlobalHonest(t, c, s.delivered);
    GlobalChange(t, c, |s.listed|);
    assert OneChanges(s, s', j);
    SameDecided(s, s', j);
    forall x | x in universe ensures KeepsByte(s, s', j, x) { GlobalKeepsByte(s, c, x); }
    BusyStep(s, s', j, k, universe);
  }

  /** Some thread, this one or another, is in the middle of its work after the step. */
  lemma BusyStep(s: Sys, s': Sys, j: nat, k: nat, universe: set<FileByte>)
    requires SysInv(s, universe) && OneChanges(s, s', j)
    requires KeepsPlace(s.threads[j], s'.threads[j], |s.listed|)
    requires KeepsSettled(s.threads[j], s'.threads[j])
    requires Honest(s'.delivered, s'.threads[j])
    requires forall x | x in universe :: KeepsByte(s, s', j, x)
    requires k < |s.threads| && !Idle(s'.threads[k].sender)
    ensures SysInv(s', universe)
  {
    ThreadsStep(s, s', j);
    ListStep(s, s', j);
    SettledStep(s, s', j);
    if !s'.rejected && !s'.silent && !AnyDecided(s') {
      BusyCares(s', k);
    }
    GrowStep(s, s', j, universe);
  }

  lemma ApplyGlobalStep(s: Sys, k: nat, universe: set<FileByte>)
    requires SysInv(s, universe) && Enabled(s, ApplyGlobal(k))
    ensures SysInv(Next(s, ApplyGlobal(k)), universe)
  {
    var t := s.threads[k];
    var c := s.listed[t.sender.next];
    assert Inv(t);
    NeverOwn(s, k);
    var s1 := AfterGlobal(s, c);
    AfterGlobalKeeps(s, k, c, universe);
    assert s1.threads[k] == t;
    BlockStep(s1, k, universe);
    assert Next(s, ApplyGlobal(k)) == Put(s1, k, DoBlock(t));
  }

  /** A sender thread is never told to apply the checkpoint of its own port. */
  lemma NeverOwn(s: Sys, k: nat)
    requires ListInv(s) && k < |s.threads| && HasTarget(s, s.threads[k])
             && s.threads[k].sender.next < s.threads[k].sender.upto
    ensures Target(s, s.threads[k]) != k
    ensures s.threads[Target(s, s.threads[k])].receiver == Gone
    ensures s.listed[s.threads[k].sender.next] == LocalCheckpoint(s.threads[Target(s, s.threads[k])])
  {
    var m := s.threads[k].sender.next;
    assert !Within(s.threads[k], m);
  }

  lemma BlockStep(s: Sys, k: nat, universe: set<FileByte>)
    requires SysInv(s, universe) && k < |s.threads| && CanBlock(s.threads[k]) && HasTarget(s, s.threads[k])
    requires s.rejected || AnyDecided(s) || s.threads[Target(s, s.threads[k])].globalCheckpoint
    ensures SysInv(Put(s, k, DoBlock(s.threads[k])), universe)
  {
    var t := s.threads[k];
    var s' := Put(s, k, DoBlock(t));
    assert Inv(t) && Honest(s.delivered, t) && Within(t, |s.listed|);
    BlockKeeps(t);
    BytesStay(s, s', k, universe);
    SameDecided(s, s', k);
    ThreadsStep(s, s', k);
    ListStep(s, s', k);
    SettledAfterBlock(s, k);
    HonestStep(s, s', k);
    CoverStep(s, s', k, universe);
    OutcomeStep(s, s', k, universe);
    if !s'.rejected && !s'.silent && !AnyDecided(s') {
      BusyCares(s', k);
    }
  }

  lemma SettledAfterBlock(s: Sys, k: nat)
    requires SettledInv(s) && k < |s.threads| && CanBlock(s.threads[k]) && HasTarget(s, s.threads[k])
    requires s.rejected || AnyDecided(s) || s.threads[Target(s, s.threads[k])].globalCheckpoint
    requires OneChanges(s, Put(s, k, DoBlock(s.threads[k])), k)
    ensures SettledInv(Put(s, k, DoBlock(s.threads[k])))
  {
    var s' := Put(s, k, DoBlock(s.threads[k]));
    SameDecided(s, s', k);
    if !s'.rejected && !AnyDecided(s') {
      forall j, m | 0 <= j < |s'.threads| && 0 <= m < s'.threads[j].applied && m < |s'.listed|
             && 0 <= s'.listed[m].port < |s'.threads|
        ensures Settled(s'.threads[s'.listed[m].port])
      {
        assert m < s.threads[j].applied by { if j != k { assert s'.threads[j] == s.threads[j]; } }
        assert Settled(s.threads[s.listed[m].port]);
      }
      forall j | 0 <= j < |s'.threads| && s'.threads[j].sender.Blocked? && HasTarget(s', s'.threads[j])
        ensures s'.threads[Target(s', s'.threads[j])].globalCheckpoint
      {
        if j != k { assert HasTarget(s, s.threads[j]); }
        var i := Target(s', s'.threads[j]);
        assert s.threads[i].globalCheckpoint;
      }
    }
  }

  lemma UnblockStep(s: Sys, k: nat, universe: set<FileByte>)
    requires SysInv(s, universe) && Enabled(s, Unblock(k))
    ensures SysInv(Next(s, Unblock(k)), universe)
  {
    var t := s.threads[k];
    var s' := Put(s, k, DoUnblock(t));
    assert Inv(t) && Honest(s.delivered, t) && Within(t, |s.listed|);
    UnblockKeeps(t);
    BytesStay(s, s', k, universe);
    SameDecided(s, s', k);
    ThreadsStep(s, s', k);
    ListStep(s, s', k);
    SettledAfterUnblock(s, k);
    HonestStep(s, s', k);
    CoverStep(s, s', k, universe);
    OutcomeStep(s, s', k, universe);
    if !s'.rejected && !s'.silent && !AnyDecided(s') {
      BusyCares(s', k);
    }
  }

  lemma SettledAfterUnblock(s: Sys, k: nat)
    requires SettledInv(s) && ThreadsInv(s) && k < |s.threads| && CanUnblock(s.threads[k])
    requires HasTarget(s, s.threads[k]) && s.threads[Target(s, s.threads[k])].sender == Ended
    requires OneChanges(s, Put(s, k, DoUnblock(s.threads[k])), k)
    ensures SettledInv(Put(s, k, DoUnblock(s.threads[k])))
  {
    var t := s.threads[k];
    var s' := Put(s, k, DoUnblock(t));
    SameDecided(s, s', k);
    if !s'.rejected && !AnyDecided(s') {
      var g := Target(s, t);
      assert Inv(s.threads[g]) && Inv(t);
      assert Settled(s.threads[g]) && g != k;
      forall j, m | 0 <= j < |s'.threads| && 0 <= m < s'.threads[j].applied && m < |s'.listed|
             && 0 <= s'.listed[m].port < |s'.threads|
        ensures Settled(s'.threads[s'.listed[m].port])
      {
        if j != k { assert s'.threads[j] == s.threads[j]; }
        if j == k && m == t.sender.next {
          assert s'.listed[m].port == g;
        } else {
          assert m < s.threads[j].applied;
          assert Settled(s.threads[s.listed[m].port]);
        }
      }
      forall j | 0 <= j < |s'.threads| && s'.threads[j].sender.Blocked? && HasTarget(s', s'.threads[j])
        ensures s'.threads[Target(s', s'.threads[j])].globalCheckpoint
      {
        assert HasTarget(s, s.threads[j]);
        var i := Target(s', s'.threads[j]);
        assert s.threads[i].globalCheckpoint;
      }
    }
  }

  lemma DieStep(s: Sys, k: nat, universe: set<FileByte>)
    requires SysInv(s, universe) && Enabled(s, Die(k))
    ensures SysInv(Next(s, Die(k)), universe)
  {
    var t := s.threads[k];
    var s1 := Put(s, k, DoDie(t)).(silent := s.silent || !AnyDecided(s));
    LeaveKeeps(s, k, universe);
    var s' := s1.(listed := s.listed + [LocalCheckpoint(t)], silent := s.silent);
    ListAfterDie(s, k);
    SettledAfterListing(s1, s');
    assert Unapplied(s', |s.listed|) by {
      forall i | 0 <= i < |s'.threads| ensures s'.threads[i].applied <= |s.listed| {
        assert Within(s1.threads[i], |s.listed|);
      }
    }
    CoverAfterListing(s1, s', universe);
    assert AnyDecided(s') == AnyDecided(s1) == AnyDecided(s) by { SameDecided(s, s1, k); }
  }

  /** A receiver thread that goes without listing a checkpoint raises `silent`; the rest is untouched. */
  lemma LeaveKeeps(s: Sys, k: nat, universe: set<FileByte>)
    requires SysInv(s, universe) && k < |s.threads| && CanDie(s.threads[k])
    ensures SysInv(Put(s, k, DoDie(s.threads[k])).(silent := s.silent || !AnyDecided(s)), universe)
  {
    var t := s.threads[k];
    var s' := Put(s, k, DoDie(t)).(silent := s.silent || !AnyDecided(s));
    assert Inv(t) && Honest(s.delivered, t) && Within(t, |s.listed|);
    DieKeeps(t);
    assert OneChanges(s, s', k);
    BytesStay(s, s', k, universe);
    SameDecided(s, s', k);
    ThreadsStep(s, s', k);
    ListAfterLeave(s, k);
    SettledStep(s, s', k);
    HonestStep(s, s', k);
    CoverStep(s, s', k, universe);
    OutcomeStep(s, s', k, universe);
  }

  lemma ListAfterLeave(s: Sys, k: nat)
    requires ListInv(s) && k < |s.threads| && CanDie(s.threads[k])
    requires OneChanges(s, Put(s, k, DoDie(s.threads[k])).(silent := s.silent || !AnyDecided(s)), k)
    ensures ListInv(Put(s, k, DoDie(s.threads[k])).(silent := s.silent || !AnyDecided(s)))
  {
    var s' := Put(s, k, DoDie(s.threads[k])).(silent := s.silent || !AnyDecided(s));
    SameDecided(s, s', k);
    forall m | 0 <= m < |s'.listed|
      ensures 0 <= s'.listed[m].port < |s'.threads|
      ensures var t := s'.threads[s'.listed[m].port]; t.receiver == Gone && s'.listed[m] == LocalCheckpoint(t)
    {
      assert s.threads[s.listed[m].port].receiver == Gone;
    }
    forall j, m | 0 <= j < |s'.threads| && 0 <= m < |s'.listed| && s'.listed[m].port == j
      ensures Within(s'.threads[j], m)
    {
      assert Within(s.threads[j], m);
    }
    forall j | 0 <= j < |s'.threads| ensures Within(s'.threads[j], |s'.listed|) {
      assert Within(s.threads[j], |s.listed|);
    }
  }

  lemma ListAfterDie(s: Sys, k: nat)
    requires ListInv(s) && k < |s.threads| && CanDie(s.threads[k]) && s.threads[k].port == k
    ensures ListInv(Put(s, k, DoDie(s.threads[k])).(listed := s.listed + [LocalCheckpoint(s.threads[k])]))
  {
    var n := |s.listed|;
    var s' := Put(s, k, DoDie(s.threads[k])).(listed := s.listed + [LocalCheckpoint(s.threads[k])]);
    forall m | 0 <= m < |s'.listed|
      ensures 0 <= s'.listed[m].port < |s'.threads|
      ensures var t := s'.threads[s'.listed[m].port]; t.receiver == Gone && s'.listed[m] == LocalCheckpoint(t)
    {
      if m < n { assert s.threads[s.listed[m].port].receiver == Gone; }
    }
    forall j | 0 <= j < |s'.threads| ensures Within(s'.threads[j], |s'.listed|) {
      assert Within(s.threads[j], n);
    }
    forall j, m | 0 <= j < |s'.threads| && 0 <= m < |s'.listed| && s'.listed[m].port == j
      ensures Within(s'.threads[j], m)
    {
      if m < n {
        assert s'.listed[m] == s.listed[m];
        assert Within(s.threads[j], m);
      } else {
        assert Within(s.threads[j], n);
      }
    }
    if !s'.silent && !AnyDecided(s') {
      assert !AnyDecided(s) by {
        if j :| 0 <= j < |s.threads| && s.threads[j].decided { assert s'.threads[j].decided; }
      }
      forall j | 0 <= j < |s'.threads| && s'.threads[j].receiver == Gone ensures IsListed(s', j) {
        if j == k {
          assert s'.listed[n].port == k;
        } else {
          assert IsListed(s, j);
          var m :| 0 <= m < n && s.listed[m].port == j;
          assert s'.listed[m].port == j;
        }
      }
    }
  }

  lemma SettledAfterListing(s: Sys, s': Sys)
    requires ThreadsInv(s) && ListInv(s) && SettledInv(s)
    requires s'.threads == s.threads && s.listed <= s'.listed && s'.rejected == s.rejected
    ensures SettledInv(s')
  {
    if !s'.rejected && !AnyDecided(s') {
      assert !AnyDecided(s);
      forall j, m | 0 <= j < |s'.threads| && 0 <= m < s'.threads[j].applied && m < |s'.listed|
             && 0 <= s'.listed[m].port < |s'.threads|
        ensures Settled(s'.threads[s'.listed[m].port])
      {
        assert Within(s.threads[j], |s.listed|);
        assert s'.listed[m] == s.listed[m];
      }
      forall j | 0 <= j < |s'.threads| && s'.threads[j].sender.Blocked? && HasTarget(s', s'.threads[j])
        ensures s'.threads[Target(s', s'.threads[j])].globalCheckpoint
      {
        assert Within(s.threads[j], |s.listed|) && Inv(s.threads[j]);
        assert s'.listed[s.threads[j].sender.next] == s.listed[s.threads[j].sender.next];
        assert HasTarget(s, s.threads[j]);
      }
    }
  }

  lemma CoverAfterListing(s: Sys, s': Sys, universe: set<FileByte>)
    requires CoverInv(s, universe)
    requires s'.threads == s.threads && s'.queue == s.queue && s'.delivered == s.delivered
    ensures CoverInv(s', universe)
  {
    forall x | x in universe ensures Accounted(s', x) {
      assert Accounted(s, x);
      assert InQueue(s, x) ==> InQueue(s', x);
    }
  }

  /** Once a thread decides, with every checkpoint it was told of applied, nothing is left anywhere. */
  lemma DecidedHaveAll(s: Sys, k: nat, universe: set<FileByte>)
    requires SysInv(s, universe) && Enabled(s, Decide(k))
    requires !s.rejected && !s.silent && !AnyDecided(s)
    ensures universe <= s.delivered
  {
    QueueDrained(s, k, universe);
    forall x | x in universe ensures x in s.delivered {
      assert Accounted(s, x);
      if j :| 0 <= j < |s.threads| && OnPort(s.threads[j], x) {
        PortHasAll(s, k, j, universe);
        var i :| 0 <= i < |All(s.threads[j])| && Holds(All(s.threads[j])[i], x);
        assert Got(s.delivered, All(s.threads[j])[i]);
      }
    }
  }

  lemma QueueDrained(s: Sys, k: nat, universe: set<FileByte>)
    requires SysInv(s, universe) && Enabled(s, Decide(k))
    requires !s.rejected && !s.silent && !AnyDecided(s)
    ensures s.queue == multiset{}
  {
    var t := s.threads[k];
    assert Inv(t);
    assert forall m: nat :: !Unapplied(s, m);
    assert !Cared(s);
  }

  /** Port `j` either waits with everything received, or died and its checkpoint was fully applied. */
  lemma PortHasAll(s: Sys, k: nat, j: nat, universe: set<FileByte>)
    requires SysInv(s, universe) && Enabled(s, Decide(k)) && j < |s.threads|
    requires !s.rejected && !s.silent && !AnyDecided(s)
    ensures GotAll(s.delivered, All(s.threads[j]))
  {
    var t := s.threads[j];
    assert Inv(t) && Inv(s.threads[k]) && Honest(s.delivered, t) && !t.decided;
    if t.receiver == Gone {
      assert IsListed(s, j);
      var m :| 0 <= m < |s.listed| && s.listed[m].port == j;
      assert m < s.threads[k].applied;
      assert Settled(s.threads[s.listed[m].port]);
      assert All(t) == t.done;
    } else {
      assert All(t) == t.done + t.unverified;
    }
  }

  lemma DecideStep(s: Sys, k: nat, universe: set<FileByte>)
    requires SysInv(s, universe) && Enabled(s, Decide(k))
    ensures SysInv(Next(s, Decide(k)), universe)
  {
    var t := s.threads[k];
    var s' := Put(s, k, DoDecide(t));
    assert Inv(t) && Honest(s.delivered, t) && Within(t, |s.listed|);
    DecideKeeps(t, |s.listed|);
    if !s.rejected && !s.silent && !AnyDecided(s) { DecidedHaveAll(s, k, universe); }
    assert s'.threads[k].decided;
    forall j | 0 <= j < |s'.threads|
      ensures Inv(s'.threads[j]) && s'.threads[j].port == j && Honest(s'.delivered, s'.threads[j])
    {
      assert Inv(s.threads[j]) && Honest(s.delivered, s.threads[j]);
    }
    ListAfterDecide(s, k);
    CoverAfterDecide(s, k, universe);
  }

  lemma ListAfterDecide(s: Sys, k: nat)
    requires ListInv(s) && k < |s.threads| && s.threads[k].receiver == Waiting
    ensures ListInv(Put(s, k, DoDecide(s.threads[k])))
  {
    var s' := Put(s, k, DoDecide(s.threads[k]));
    assert s'.threads[k].decided;
    forall m | 0 <= m < |s'.listed|
      ensures 0 <= s'.listed[m].port < |s'.threads|
      ensures var t := s'.threads[s'.listed[m].port]; t.receiver == Gone && s'.listed[m] == LocalCheckpoint(t)
    {
      assert s.threads[s.listed[m].port].receiver == Gone;
    }
    forall j | 0 <= j < |s'.threads| ensures Within(s'.threads[j], |s'.listed|) {
      assert Within(s.threads[j], |s.listed|);
    }
    forall j, m | 0 <= j < |s'.threads| && 0 <= m < |s'.listed| && s'.listed[m].port == j
      ensures Within(s'.threads[j], m)
    {
      assert Within(s.threads[j], m);
    }
  }

  lemma CoverAfterDecide(s: Sys, k: nat, universe: set<FileByte>)
    requires CoverInv(s, universe) && k < |s.threads|
    ensures CoverInv(Put(s, k, DoDecide(s.threads[k])), universe)
  {
    var s' := Put(s, k, DoDecide(s.threads[k]));
    BytesStay(s, s', k, universe);
    forall x | x in universe ensures Accounted(s', x) {
      assert Accounted(s, x) && KeepsByte(s, s', k, x);
      if j :| 0 <= j < |s.threads| && OnPort(s.threads[j], x) && j != k {
        assert OnPort(s'.threads[j], x);
      }
    }
  }

  // ---------------------------------------------------------------- whole transfers

  lemma StepKeeps(s: Sys, a: Action, universe: set<FileByte>)
    requires SysInv(s, universe) && Enabled(s, a)
    ensures SysInv(Next(s, a), universe)
  {
    match a {
      case Own(k, m) => OwnStep(s, k, m, universe);
      case ApplyLocal(k) => ApplyLocalStep(s, k, universe);
      case Take(k, b) => TakeStep(s, k, b, universe);
      case Add(k, written) => AddStep(s, k, written, universe);
      case SendDone(k) => SendDoneStep(s, k, universe);
      case ApplyGlobal(k) => ApplyGlobalStep(s, k, universe);
      case Unblock(k) => UnblockStep(s, k, universe);
      case ReceiveBlock(k, tagged) => ReceiveBlockStep(s, k, tagged, universe);
      case ReceivePart(k, received, trusted) => ReceivePartStep(s, k, received, trusted, universe);
      case Decide(k) => DecideStep(s, k, universe);
      case Die(k) => DieStep(s, k, universe);
      case Leave(k) => LeaveKeeps(s, k, universe);
    }
  }

  ghost function StartThreads(ports: nat): (ts: seq<Thread>)
    ensures |ts| == ports && forall k | 0 <= k < ports :: ts[k] == Start(k)
  {
    if ports == 0 then [] else StartThreads(ports - 1) + [Start(ports - 1)]
  }
  ghost function StartSys(ports: nat, queue: multiset<Block>): Sys {
    Sys(StartThreads(ports), queue, [], {}, false, false)
  }

  /** The states some run of the system passes through; `trace` is the run, `Last` where it ends. */
  ghost predicate Runs(s: Sys, trace: seq<Action>)
    decreases |trace|, 0
  {
    trace == [] || (Runs(s, trace[..|trace| - 1]) && Enabled(Last(s, trace[..|trace| - 1]), trace[|trace| - 1]))
  }
  ghost function Last(s: Sys, trace: seq<Action>): Sys
    requires Runs(s, trace)
    decreases |trace|, 1
  {
    if trace == [] then s else Next(Last(s, trace[..|trace| - 1]), trace[|trace| - 1])
  }

  ghost predicate Queued(queue: multiset<Block>, universe: set<FileByte>) {
    forall x | x in universe :: exists b | b in queue :: Holds(b, x)
  }

  lemma StartSysInv(ports: nat, queue: multiset<Block>, universe: set<FileByte>)
    requires ports > 0 && Queued(queue, universe)
    ensures SysInv(StartSys(ports, queue), universe)
  {
    var s := StartSys(ports, queue);
    forall k | 0 <= k < |s.threads|
      ensures Inv(s.threads[k]) && s.threads[k].port == k && Honest(s.delivered, s.threads[k])
    {
      StartInv(k);
      assert s.threads[k] == Start(k);
    }
    assert Drains(s.threads[0]);
    forall x | x in universe ensures Accounted(s, x) { assert InQueue(s, x); }
  }

  lemma {:induction false} RunsKeep(s: Sys, trace: seq<Action>, universe: set<FileByte>)
    requires SysInv(s, universe) && Runs(s, trace)
    ensures SysInv(Last(s, trace), universe)
    decreases |trace|
  {
    if trace != [] {
      RunsKeep(s, trace[..|trace| - 1], universe);
      StepKeeps(Last(s, trace[..|trace| - 1]), trace[|trace| - 1], universe);
    }
  }

  /**
   Whatever connections break, threads die and checkpoints travel, in any order: once any receiver thread
   has decided to finish -- in particular once any sender thread reports success -- every byte that was
   ever queued has been received, unless a global checkpoint was refused or a receiver thread left
   without listing one.
   */
  lemma {:induction false} TransferDelivers(ports: nat, queue: multiset<Block>, universe: set<FileByte>,
                                            trace: seq<Action>)
    requires ports > 0 && Queued(queue, universe) && Runs(StartSys(ports, queue), trace)
    ensures var s := Last(StartSys(ports, queue), trace);
            && (forall k | 0 <= k < |s.threads| && s.threads[k].success :: s.threads[k].decided)
            && (!s.rejected && !s.silent && AnyDecided(s) ==> universe <= s.delivered)
  {
    StartSysInv(ports, queue, universe);
    RunsKeep(StartSys(ports, queue), trace, universe);
    var s := Last(StartSys(ports, queue), trace);
    forall k | 0 <= k < |s.threads| && s.threads[k].success ensures s.threads[k].decided {
      assert Inv(s.threads[k]);
    }
  }

  /**
   A receiver's checkpoint index never runs ahead of its sender: every listed checkpoint below it belongs
   to a port whose receiver is gone, has been applied by that port's peers, and left no block behind.
   */
  lemma {:induction false} IndexCoversApplied(ports: nat, queue: multiset<Block>, trace: seq<Action>, k: nat, m: nat)
    requires ports > 0 && Runs(StartSys(ports, queue), trace)
    requires var s := Last(StartSys(ports, queue), trace); k < |s.threads| && m < s.threads[k].checkpointIndex
    ensures var s := Last(StartSys(ports, queue), trace);
            && m < s.threads[k].applied <= |s.listed| && 0 <= s.listed[m].port < |s.threads|
            && s.listed[m].port != k
            && var t := s.threads[s.listed[m].port];
            && t.receiver == Gone && s.listed[m] == LocalCheckpoint(t)
            && (!s.rejected && !AnyDecided(s) ==> Settled(t) && t.history == t.done)
  {
    StartSysInv(ports, queue, {});
    RunsKeep(StartSys(ports, queue), trace, {});
    var s := Last(StartSys(ports, queue), trace);
    assert Inv(s.threads[k]) && Within(s.threads[k], |s.listed|);
    assert !Within(s.threads[k], m);
    assert Inv(s.threads[s.listed[m].port]);
  }
}
