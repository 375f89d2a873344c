/**
 What the report of a transfer goes by (Reporting.cpp, Sender.cpp): the threads' error codes, the sources left over and
 a comparison of sizes.  Bytes count as effective once they are on a connection, so it cannot see what a receiver did
 not complete.
 */
module Report {
  import opened Protocol
  import opened Blocks
  import opened History
  import opened Accounting
  import opened TransferBooks
  import Link
  import Delivery
  import Losses
  import Credits
  import DeliveryLimits

  // ---------------------------------------------------------------- the report

  /** `ok` are the threads' codes, `failed` the sources given up or left in the queue. */
  predicate CodeOk(ok: seq<bool>, failed: seq<Source>, effective: int, totalFileSize: int) {
    var summaryOk := false !in ok && forall i | 0 <= i < |failed| :: !failed[i].failed;
    effective == totalFileSize && (summaryOk || (failed == [] && true in ok))
  }
  function Codes(s: Delivery.Sys): (r: seq<bool>)
    ensures |r| == |s.threads| && forall k | 0 <= k < |r| :: r[k] == s.threads[k].success
  {
    seq(|s.threads|, k requires 0 <= k < |s.threads| => s.threads[k].success)
  }
  function Effective(b: Books): int { Total(ThreadStats(b.accounts)).effectiveDataBytes }

  predicate ReportsOk(b: Books, s: Delivery.Sys, totalFileSize: int) {
    CodeOk(Codes(s), b.dropped + b.queue, Effective(b), totalFileSize)
  }

  ghost predicate SomeSucceeds(s: Delivery.Sys) { exists k | 0 <= k < |s.threads| :: s.threads[k].success }
  ghost predicate AllSucceed(s: Delivery.Sys) { forall k | 0 <= k < |s.threads| :: s.threads[k].success }

  /**
   With nothing queued one thread is enough; with sources left over all must succeed, and none of them have
   failed.
   */
  ghost predicate Excused(left: seq<Source>, s: Delivery.Sys) {
    if s.queue == multiset{} then SomeSucceeds(s)
    else AllSucceed(s) && forall i | 0 <= i < |left| :: !left[i].failed
  }

  // ---------------------------------------------------------------- what the sizes say

  ghost predicate Bare(inHand: Option<Block>) { inHand.Some? ==> inHand.value.size == 0 }
  ghost predicate NothingLeft(s: Delivery.Sys) {
    && (forall x | x in s.queue :: x.size == 0)
    && (forall k | 0 <= k < |s.threads| :: Bare(s.threads[k].inHand))
  }

  /** Of every source with bytes, all of them went onto the connection. */
  predicate WrittenOut(sources: seq<Source>) {
    forall i | 0 <= i < |sources| :: sources[i].block.size == 0 || !sources[i].failed
  }
  ghost predicate AllWrittenOut(accounts: seq<Account>) {
    forall k | 0 <= k < |accounts| :: WrittenOut(accounts[k].hist.sources)
  }

  lemma QueueTells(b: Books, s: Delivery.Sys)
    requires Mirrors(b, s) && AllWaiting(b.queue)
    ensures SentOrEmpty(b.queue) <==> forall x | x in s.queue :: x.size == 0
  {
    var blocks := BlocksOf(b.queue);
    assert forall x :: x in s.queue <==> x in blocks;
    assert forall i | 0 <= i < |b.queue| :: blocks[i] == b.queue[i].block && blocks[i] in blocks;
  }

  lemma HeldTells(a: Account, t: Link.Thread)
    requires Keeps(a, t) && Orderly(a)
    ensures SentOrEmpty(Held(a)) <==> WrittenOut(a.hist.sources) && Bare(t.inHand)
  {
    var held, n := Held(a), |a.hist.sources|;
    assert forall i | 0 <= i < n :: held[i] == a.hist.sources[i] && Tried(held[i]);
    if a.hand.Open? { assert held[n] == a.hand.source; }
  }

  lemma {:induction false} AccountsTell(accounts: seq<Account>)
    ensures AllSentOrEmpty(accounts) <==> forall k | 0 <= k < |accounts| :: SentOrEmpty(Held(accounts[k]))
  {
    if accounts != [] {
      AccountsTell(accounts[1..]);
      assert forall k | 0 < k < |accounts| :: accounts[k] == accounts[1..][k - 1];
    }
  }

  /** The size comparison sees what is left at the sender and what was cut short, and no more. */
  lemma SizesTell(b: Books, s: Delivery.Sys, totalFileSize: int)
    requires Mirrors(b, s) && InBalance(b, totalFileSize) && b.dropped == []
    ensures Effective(b) == totalFileSize <==> NothingLeft(s) && AllWrittenOut(b.accounts)
  {
    SizeCheckExact(b, totalFileSize);
    QueueTells(b, s);
    AccountsTell(b.accounts);
    forall k | 0 <= k < |b.accounts|
      ensures SentOrEmpty(Held(b.accounts[k])) <==> WrittenOut(b.accounts[k].hist.sources) && Bare(s.threads[k].inHand)
    {
      assert Keeps(b.accounts[k], s.threads[k]) && Orderly(b.accounts[k]);
      HeldTells(b.accounts[k], s.threads[k]);
    }
  }

  lemma StepDropsNothing(b: Books, s: Delivery.Sys, a: Delivery.Action, how: int)
    requires Delivery.Enabled(s, a)
    ensures Step(b, s, a, how).dropped == b.dropped
  {
  }

  lemma {:induction false} NothingDropped(b: Books, s: Delivery.Sys, trace: seq<Delivery.Action>, how: nat -> int)
    requires Delivery.Runs(s, trace) && b.dropped == []
    ensures BooksAfter(b, s, trace, how).dropped == []
    decreases |trace|
  {
    if trace != [] {
      var before, a := trace[..|trace| - 1], trace[|trace| - 1];
      NothingDropped(b, s, before, how);
      StepDropsNothing(BooksAfter(b, s, before, how), Delivery.Last(s, before), a, how(|before|));
    }
  }

  // ---------------------------------------------------------------- whole transfers

  ghost function BooksOf(ports: nat, queue: seq<Source>, trace: seq<Delivery.Action>, how: nat -> int): Books
    requires Delivery.Runs(Delivery.StartSys(ports, Bag(queue)), trace)
  {
    BooksAfter(OpenBooks(ports, queue), Delivery.StartSys(ports, Bag(queue)), trace, how)
  }

  lemma {:induction false} RunTells(ports: nat, queue: seq<Source>, empties: set<int>, trace: seq<Delivery.Action>,
                                    how: nat -> int)
    requires ports > 0 && (forall i | 0 <= i < |queue| :: Fresh(queue[i])) && Credits.WellQueued(Bag(queue), empties)
    requires Delivery.Runs(Delivery.StartSys(ports, Bag(queue)), trace)
    ensures var s, b := Delivery.Last(Delivery.StartSys(ports, Bag(queue)), trace), BooksOf(ports, queue, trace, how);
            && Mirrors(b, s) && InBalance(b, Sizes(queue)) && b.dropped == []
            && (Effective(b) == Sizes(queue) <==> NothingLeft(s) && AllWrittenOut(b.accounts))
  {
    var s0 := Delivery.StartSys(ports, Bag(queue));
    RunsInBalance(ports, queue, empties, trace, how);
    NothingDropped(OpenBooks(ports, queue), s0, trace, how);
    SizesTell(BooksOf(ports, queue, trace, how), Delivery.Last(s0, trace), Sizes(queue));
  }

  /**
   At every moment of every run: the report is OK if and only if no byte is left in the queue or in hand, no source with
   bytes was cut short, and the threads' codes excuse what is left over.
   */
  lemma {:induction false} ReportExact(ports: nat, queue: seq<Source>, empties: set<int>, trace: seq<Delivery.Action>,
                                       how: nat -> int)
    requires ports > 0 && (forall i | 0 <= i < |queue| :: Fresh(queue[i])) && Credits.WellQueued(Bag(queue), empties)
    requires Delivery.Runs(Delivery.StartSys(ports, Bag(queue)), trace)
    ensures var s, b := Delivery.Last(Delivery.StartSys(ports, Bag(queue)), trace), BooksOf(ports, queue, trace, how);
            ReportsOk(b, s, Sizes(queue)) <==> NothingLeft(s) && AllWrittenOut(b.accounts) && Excused(b.queue, s)
  {
    RunTells(ports, queue, empties, trace, how);
    var s, b := Delivery.Last(Delivery.StartSys(ports, Bag(queue)), trace), BooksOf(ports, queue, trace, how);
    HasPorts(ports, Bag(queue), trace);
    CodeTells(b, s, Sizes(queue));
  }

  lemma EmptyQueue(b: Books, s: Delivery.Sys)
    requires Mirrors(b, s)
    ensures b.queue == [] <==> s.queue == multiset{}
  {
    if b.queue != [] { assert BlocksOf(b.queue)[0] in s.queue; }
  }

  lemma CodesTell(s: Delivery.Sys)
    requires |s.threads| > 0
    ensures true in Codes(s) <==> SomeSucceeds(s)
    ensures false !in Codes(s) <==> AllSucceed(s)
    ensures AllSucceed(s) ==> SomeSucceeds(s)
  {
    var ok := Codes(s);
    assert forall k | 0 <= k < |ok| :: ok[k] == s.threads[k].success && ok[k] in ok;
    assert AllSucceed(s) ==> s.threads[0].success;
  }

  lemma CodeTells(b: Books, s: Delivery.Sys, totalFileSize: int)
    requires Mirrors(b, s) && b.dropped == [] && |s.threads| > 0
    ensures ReportsOk(b, s, totalFileSize) <==> Effective(b) == totalFileSize && Excused(b.queue, s)
  {
    EmptyQueue(b, s);
    CodesTell(s);
    assert b.dropped + b.queue == b.queue;
  }

  lemma StepPorts(s: Delivery.Sys, a: Delivery.Action)
    requires Delivery.Enabled(s, a)
    ensures |Delivery.Next(s, a).threads| == |s.threads|
  {
    if a.ApplyGlobal? { Losses.GlobalReturns(s, a.k); } else { Credits.OwnShape(s, a); }
  }

  lemma {:induction false} HasPorts(ports: nat, queue: multiset<Block>, trace: seq<Delivery.Action>)
    requires Delivery.Runs(Delivery.StartSys(ports, queue), trace)
    ensures |Delivery.Last(Delivery.StartSys(ports, queue), trace).threads| == ports
    decreases |trace|
  {
    if trace != [] {
      var before, a := trace[..|trace| - 1], trace[|trace| - 1];
      HasPorts(ports, queue, before);
      StepPorts(Delivery.Last(Delivery.StartSys(ports, queue), before), a);
    }
  }

  /** Byte `x` is in a source that went onto the connection of port `k` as a whole and was not completed there. */
  ghost predicate WrittenNotTaken(b: Books, t: Link.Thread, k: nat, x: Delivery.FileByte) {
    && k < |b.accounts| && |b.accounts[k].hist.sources| == |t.history|
    && exists i | |t.done| <= i < |t.history| ::
      Delivery.Holds(t.history[i], x) && !b.accounts[k].hist.sources[i].failed
  }

  lemma UnseenLoss(b: Books, s: Delivery.Sys, k: nat, x: Delivery.FileByte)
    requires Mirrors(b, s) && NothingLeft(s) && AllWrittenOut(b.accounts)
    requires k < |s.threads| && Losses.PastDone(s.threads[k], x)
    ensures WrittenNotTaken(b, s.threads[k], k, x)
  {
    var t, a := s.threads[k], b.accounts[k];
    assert Keeps(a, t) && Bare(t.inHand) && WrittenOut(a.hist.sources);
    var i :| |t.done| <= i < |Link.All(t)| && Delivery.Holds(Link.All(t)[i], x);
    if i < |t.history| {
      assert Link.All(t)[i] == t.history[i] == a.hist.sources[i].block;
    }
  }

  lemma QueueBare(s: Delivery.Sys, x: Delivery.FileByte)
    requires NothingLeft(s)
    ensures !Delivery.InQueue(s, x)
  {
  }

  /**
   At every moment of every run: if the sizes agree though a byte is missing, the byte is in a source that went onto
   its connection as a whole and that the receiver did not complete.
   */
  lemma {:induction false} MissingUnseen(ports: nat, queue: seq<Source>, empties: set<int>,
                                         universe: set<Delivery.FileByte>,
                      trace: seq<Delivery.Action>, how: nat -> int, x: Delivery.FileByte)
    requires ports > 0 && (forall i | 0 <= i < |queue| :: Fresh(queue[i])) && Credits.WellQueued(Bag(queue), empties)
    requires Delivery.Queued(Bag(queue), universe) && x in universe
    requires Delivery.Runs(Delivery.StartSys(ports, Bag(queue)), trace)
    requires var s, b := Delivery.Last(Delivery.StartSys(ports, Bag(queue)), trace), BooksOf(ports, queue, trace, how);
             Effective(b) == Sizes(queue) && x !in s.delivered
    ensures var s, b := Delivery.Last(Delivery.StartSys(ports, Bag(queue)), trace), BooksOf(ports, queue, trace, how);
            exists k | 0 <= k < |s.threads| :: WrittenNotTaken(b, s.threads[k], k, x)
  {
    var s0 := Delivery.StartSys(ports, Bag(queue));
    var s, b := Delivery.Last(s0, trace), BooksOf(ports, queue, trace, how);
    RunTells(ports, queue, empties, trace, how);
    Delivery.StartSysInv(ports, Bag(queue), universe);
    Delivery.RunsKeep(s0, trace, universe);
    assert Delivery.Accounted(s, x);
    QueueBare(s, x);
    var k :| 0 <= k < |s.threads| && Delivery.OnPort(s.threads[k], x);
    Losses.LacksPastDone(s, k, universe, x);
    UnseenLoss(b, s, k, x);
  }

  /** And when the first receiver thread decides, that port is one to blame. */
  lemma {:induction false} BlamedUnseen(ports: nat, queue: seq<Source>, empties: set<int>,
                                        universe: set<Delivery.FileByte>,
                     trace: seq<Delivery.Action>, how: nat -> int, d: nat, x: Delivery.FileByte)
    requires ports > 0 && (forall i | 0 <= i < |queue| :: Fresh(queue[i])) && Credits.WellQueued(Bag(queue), empties)
    requires Delivery.Queued(Bag(queue), universe) && x in universe
    requires Delivery.Runs(Delivery.StartSys(ports, Bag(queue)), trace)
    requires var s, b := Delivery.Last(Delivery.StartSys(ports, Bag(queue)), trace), BooksOf(ports, queue, trace, how);
             && Delivery.Enabled(s, Delivery.Decide(d)) && !Delivery.AnyDecided(s)
             && Effective(b) == Sizes(queue) && x !in s.delivered
    ensures var s0 := Delivery.StartSys(ports, Bag(queue));
            var s, b := Delivery.Last(s0, trace), BooksOf(ports, queue, trace, how);
            exists k | 0 <= k < |s.threads| ::
              && (Losses.Refused(s0, trace, k) || Losses.Deserted(trace, k))
              && WrittenNotTaken(b, s.threads[k], k, x)
  {
    var s0 := Delivery.StartSys(ports, Bag(queue));
    var s, b := Delivery.Last(s0, trace), BooksOf(ports, queue, trace, how);
    RunTells(ports, queue, empties, trace, how);
    Losses.LostBytes(ports, Bag(queue), universe, trace, d, x);
    QueueBare(s, x);
    var k :| 0 <= k < |s.threads| && (Losses.Refused(s0, trace, k) || Losses.Deserted(trace, k))
             && Losses.PastDone(s.threads[k], x);
    UnseenLoss(b, s, k, x);
  }

  // ---------------------------------------------------------------- two transfers that lose bytes

  /** Every source tried was put on its connection as a whole, or none was. */
  ghost predicate Flagged(accounts: seq<Account>, written: bool) {
    forall k | 0 <= k < |accounts| :: FlaggedAs(accounts[k], written)
  }
  ghost predicate FlaggedAs(a: Account, written: bool) {
    && (forall i | 0 <= i < |a.hist.sources| :: a.hist.sources[i].failed == !written)
    && (a.hand.Done? ==> a.hand.source.failed == !written)
  }

  lemma TurnFlags(b: Books, e: Accounting.Event, written: bool)
    requires Flagged(b.accounts, written) && (e.Sends? ==> e.attempt.Success? == written)
    ensures Flagged(Turn(b, e).accounts, written)
  {
    if Accounting.Possible(b, e) && !e.OpenFails? {
      assert FlaggedAs(b.accounts[e.k], written);
      assert FlaggedAs(Turn(b, e).accounts[e.k], written);
    }
  }

  lemma StepFlags(b: Books, s: Delivery.Sys, a: Delivery.Action, how: int, written: bool)
    requires Delivery.Enabled(s, a) && Flagged(b.accounts, written) && (a.Add? ==> a.written == written)
    ensures Flagged(Step(b, s, a, how).accounts, written)
  {
    if a.Take? {
      TurnFlags(b, Opens(a.k, IndexOf(b.queue, a.b)), written);
    } else if a.Add? {
      var sends := Sends(a.k, if a.written then Success(how) else Failure(how));
      TurnFlags(b, sends, written);
      TurnFlags(Turn(b, sends), Adds(a.k), written);
    } else if a.ApplyLocal? {
      TurnFlags(b, Checkpoints(a.k, s.threads[a.k].checkpointOn.value.msg, false), written);
    } else if a.ApplyGlobal? {
      var c := s.listed[s.threads[a.k].sender.next];
      TurnFlags(b, Checkpoints(Delivery.Target(s, s.threads[a.k]), c, true), written);
    }
  }

  lemma {:induction false} RunFlags(b: Books, s: Delivery.Sys, trace: seq<Delivery.Action>, how: nat -> int,
                                    written: bool)
    requires Delivery.Runs(s, trace) && Flagged(b.accounts, written) && DeliveryLimits.Puts(trace, written)
    ensures Flagged(BooksAfter(b, s, trace, how).accounts, written)
    decreases |trace|
  {
    if trace != [] {
      var before, a := trace[..|trace| - 1], trace[|trace| - 1];
      RunFlags(b, s, before, how, written);
      StepFlags(BooksAfter(b, s, before, how), Delivery.Last(s, before), a, how(|before|), written);
    }
  }

  /** The one block of both transfers, not tried yet. */
  const ONLY := Source(DeliveryLimits.B, ZERO, false)

  lemma OnlyQueued()
    ensures Bag([ONLY]) == multiset{DeliveryLimits.B} && Fresh(ONLY) && Sizes([ONLY]) == DeliveryLimits.B.size
    ensures Credits.WellQueued(Bag([ONLY]), {})
    ensures forall written: bool :: Flagged(OpenBooks(2, [ONLY]).accounts, written)
  {
  }

  /** With the block stranded, the report is OK exactly if the block went onto the connection as a whole. */
  lemma {:induction false} StrandedReport(trace: seq<Delivery.Action>, s: Delivery.Sys, how: nat -> int, written: bool)
    requires Delivery.Runs(DeliveryLimits.Initial(), trace) && s == Delivery.Last(DeliveryLimits.Initial(), trace)
    requires DeliveryLimits.Puts(trace, written) && DeliveryLimits.Stranded(s)
    ensures Bag([ONLY]) == multiset{DeliveryLimits.B}
    ensures ReportsOk(BooksOf(2, [ONLY], trace, how), s, DeliveryLimits.B.size) <==> written
  {
    OnlyQueued();
    ReportExact(2, [ONLY], {}, trace, how);
    RunTells(2, [ONLY], {}, trace, how);
    RunFlags(OpenBooks(2, [ONLY]), DeliveryLimits.Initial(), trace, how, written);
    var b := BooksOf(2, [ONLY], trace, how);
    StrandedBooks(b, s, written);
  }

  lemma StrandedBooks(b: Books, s: Delivery.Sys, written: bool)
    requires Mirrors(b, s) && DeliveryLimits.Stranded(s) && Flagged(b.accounts, written)
    ensures NothingLeft(s) && Excused(b.queue, s) && (AllWrittenOut(b.accounts) <==> written)
  {
    assert Keeps(b.accounts[0], s.threads[0]) && Keeps(b.accounts[1], s.threads[1]);
    assert FlaggedAs(b.accounts[0], written);
    assert b.accounts[0].hist.sources[0].block == s.threads[0].history[0];
  }

  /** A receiver leaves unlisted: the report is OK with nothing received, if the block went out as a whole. */
  lemma SilentExitReport(how: nat -> int, written: bool) returns (trace: seq<Delivery.Action>, s: Delivery.Sys)
    ensures Delivery.Runs(DeliveryLimits.Initial(), trace) && s == Delivery.Last(DeliveryLimits.Initial(), trace)
    ensures Bag([ONLY]) == multiset{DeliveryLimits.B} && s.delivered == {}
    ensures ReportsOk(BooksOf(2, [ONLY], trace, how), s, DeliveryLimits.B.size) <==> written
  {
    trace, s := DeliveryLimits.SilentExitLosesBlock(written);
    StrandedReport(trace, s, how, written);
  }

  /** A recount is refused: the report is OK without the second byte, if the block went out as a whole. */
  lemma RecountReport(how: nat -> int, written: bool) returns (trace: seq<Delivery.Action>, s: Delivery.Sys)
    ensures Delivery.Runs(DeliveryLimits.Initial(), trace) && s == Delivery.Last(DeliveryLimits.Initial(), trace)
    ensures Bag([ONLY]) == multiset{DeliveryLimits.B} && s.delivered == {Delivery.FileByte(1, 0)}
    ensures ReportsOk(BooksOf(2, [ONLY], trace, how), s, DeliveryLimits.B.size) <==> written
  {
    trace, s := DeliveryLimits.RecountLosesByte(written);
    StrandedReport(trace, s, how, written);
  }
}
