/**
 The transfer in which nothing goes wrong: whatever is queued, and over however many ports, every sender thread can come
 to its end with success and every byte received (SenderThread.cpp, ReceiverThread.cpp).
 */
module FaultFree {
  import opened Blocks
  import opened Link
  import opened Delivery

  ghost predicate At(s0: Sys, trace: seq<Action>, s: Sys) { Runs(s0, trace) && Last(s0, trace) == s }

  lemma Extend(s0: Sys, trace: seq<Action>, s: Sys, a: Action) returns (trace': seq<Action>)
    requires At(s0, trace, s) && Enabled(s, a)
    ensures At(s0, trace', Next(s, a))
  {
    trace' := trace + [a];
    assert trace'[..|trace'| - 1] == trace;
  }

  // ---------------------------------------------------------------- all ports take the same step

  /** Ports below `n` have gone from `f` to `g`. */
  ghost function Half(ports: nat, n: nat, f: nat -> Thread, g: nat -> Thread): (ts: seq<Thread>)
    ensures |ts| == ports && forall k | 0 <= k < ports :: ts[k] == if k < n then g(k) else f(k)
  {
    seq(ports, k requires 0 <= k < ports => if k < n then g(k) else f(k))
  }

  /** Action `act(k)` takes port `k` from `f` to `g`, whichever ports have gone before. */
  ghost predicate Steps(s: Sys, ports: nat, f: nat -> Thread, g: nat -> Thread, act: nat -> Action) {
    forall n: nat | n < ports ::
      && Enabled(s.(threads := Half(ports, n, f, g)), act(n))
      && Next(s.(threads := Half(ports, n, f, g)), act(n)) == s.(threads := Half(ports, n + 1, f, g))
  }

  lemma {:induction false} Sweep(s0: Sys, trace: seq<Action>, s: Sys, ports: nat, n: nat, f: nat -> Thread,
                                 g: nat -> Thread, act: nat -> Action) returns (trace': seq<Action>)
    requires n <= ports && Steps(s, ports, f, g, act) && At(s0, trace, s.(threads := Half(ports, n, f, g)))
    ensures At(s0, trace', s.(threads := Half(ports, ports, f, g)))
    decreases ports - n
  {
    trace' := trace;
    if n < ports {
      trace' := Extend(s0, trace, s.(threads := Half(ports, n, f, g)), act(n));
      trace' := Sweep(s0, trace', s, ports, n + 1, f, g, act);
    }
  }

  lemma OwnSteps(s: Sys, ports: nat, f: nat -> Thread, g: nat -> Thread, m: Move)
    requires forall k: nat | k < ports :: CanMove(f(k), m, |s.listed|) && g(k) == DoMove(f(k), m, |s.listed|)
    ensures Steps(s, ports, f, g, (k: nat) => Own(k, m))
  {
    forall n: nat | n < ports
      ensures Next(s.(threads := Half(ports, n, f, g)), Own(n, m)) == s.(threads := Half(ports, n + 1, f, g))
    {
      assert Half(ports, n, f, g)[n := g(n)] == Half(ports, n + 1, f, g);
    }
  }

  lemma DoneSteps(s: Sys, ports: nat, f: nat -> Thread, g: nat -> Thread)
    requires s.queue == multiset{} && forall k: nat | k < ports :: CanSendDone(f(k)) && g(k) == DoSendDone(f(k))
    ensures Steps(s, ports, f, g, (k: nat) => SendDone(k))
  {
    forall n: nat | n < ports
      ensures Next(s.(threads := Half(ports, n, f, g)), SendDone(n)) == s.(threads := Half(ports, n + 1, f, g))
    {
      assert Half(ports, n, f, g)[n := g(n)] == Half(ports, n + 1, f, g);
    }
  }

  lemma DecideStep(s: Sys, ports: nat, f: nat -> Thread, g: nat -> Thread, n: nat)
    requires n < ports && CanDecide(f(n), |s.listed|) && g(n) == DoDecide(f(n))
    requires forall k: nat | k < ports :: f(k).status == WAITING && g(k).status == FINISHED
    ensures Enabled(s.(threads := Half(ports, n, f, g)), Decide(n))
    ensures Next(s.(threads := Half(ports, n, f, g)), Decide(n)) == s.(threads := Half(ports, n + 1, f, g))
  {
    assert Half(ports, n, f, g)[n := g(n)] == Half(ports, n + 1, f, g);
  }

  lemma DecideSteps(s: Sys, ports: nat, f: nat -> Thread, g: nat -> Thread)
    requires forall k: nat | k < ports :: CanDecide(f(k), |s.listed|) && f(k).status == WAITING
    requires forall k: nat | k < ports :: g(k) == DoDecide(f(k))
    ensures Steps(s, ports, f, g, (k: nat) => Decide(k))
  {
    forall n: nat | n < ports
      ensures Enabled(s.(threads := Half(ports, n, f, g)), Decide(n))
      ensures Next(s.(threads := Half(ports, n, f, g)), Decide(n)) == s.(threads := Half(ports, n + 1, f, g))
    {
      DecideStep(s, ports, f, g, n);
    }
  }

  // ---------------------------------------------------------------- one block after the other on port 0

  /** Port `k` is connected, and has sent and received `bs`. */
  function Sent(k: nat, bs: seq<Block>): Thread {
    var t := DoAccept(DoConnect(Start(k)), 1);
    t.(history := bs, done := bs)
  }
  function Port(bs: seq<Block>): nat -> Thread { (k: nat) => Sent(k, if k == 0 then bs else []) }

  ghost predicate Received(d: set<FileByte>, bs: multiset<Block>) { forall b | b in bs :: Got(d, b) }

  ghost predicate Sending(s: Sys, ports: nat, bs: seq<Block>) {
    s.threads == Half(ports, ports, Port(bs), Port(bs)) && s.listed == [] && !s.rejected && !s.silent
  }

  /** What one block does to the port: taken, written, received, and verified at the next tag if there are tags. */
  function Taken(t: Thread, b: Block): Thread
    requires CanTake(t)
  {
    DoAdd(DoTake(t, b), true)
  }
  function Got1(t: Thread, tagged: bool): Thread
    requires CanReceive(t)
  {
    var t' := DoReceiveBlock(t, tagged);
    if tagged then DoVerify(t') else t'
  }

  lemma OneMore(bs: seq<Block>, b: Block, tagged: bool)
    ensures CanReceive(Taken(Sent(0, bs), b)) && Taken(Sent(0, bs), b).flow == [b]
    ensures Got1(Taken(Sent(0, bs), b), tagged) == Sent(0, bs + [b])
  {
    assert [] + [b] == [b] && [b][1..] == [] && bs + [] + [b] == bs + [b];
  }

  lemma PutFirst(ports: nat, bs: seq<Block>, bs': seq<Block>)
    requires ports > 0
    ensures Half(ports, ports, Port(bs), Port(bs))[0 := Sent(0, bs')] == Half(ports, ports, Port(bs'), Port(bs'))
  {
  }

  lemma TakeOne(s0: Sys, trace: seq<Action>, s: Sys, b: Block) returns (trace': seq<Action>)
    requires At(s0, trace, s) && b in s.queue
    requires |s.threads| > 0 && CanTake(s.threads[0]) && !s.threads[0].globalCheckpoint
    ensures At(s0, trace', s.(threads := s.threads[0 := Taken(s.threads[0], b)], queue := s.queue - multiset{b}))
  {
    var s1 := NextTake(s, b);
    trace' := Extend(s0, trace, s, Take(0, b));
    trace' := Extend(s0, trace', s1, Add(0, true));
  }

  lemma NextTake(s: Sys, b: Block) returns (s1: Sys)
    requires |s.threads| > 0 && CanTake(s.threads[0]) && !s.threads[0].globalCheckpoint && b in s.queue
    ensures Enabled(s, Take(0, b)) && s1 == Next(s, Take(0, b)) && Enabled(s1, Add(0, true))
    ensures Next(s1, Add(0, true)) ==
            s.(threads := s.threads[0 := Taken(s.threads[0], b)], queue := s.queue - multiset{b})
  {
    s1 := Next(s, Take(0, b));
    var t1 := DoTake(s.threads[0], b);
    assert s1.threads[0 := DoAdd(t1, true)] == s.threads[0 := DoAdd(t1, true)];
    assert s.queue - multiset{b} + multiset{} == s.queue - multiset{b};
  }

  lemma ReceiveOne(s0: Sys, trace: seq<Action>, s: Sys, tagged: bool) returns (trace': seq<Action>)
    requires At(s0, trace, s) && |s.threads| > 0 && CanReceive(s.threads[0])
    ensures var b := s.threads[0].flow[0];
            At(s0, trace', s.(threads := s.threads[0 := Got1(s.threads[0], tagged)],
                              delivered := s.delivered + Prefix(b, b.size)))
  {
    var s1 := NextReceive(s, tagged);
    trace' := Extend(s0, trace, s, ReceiveBlock(0, tagged));
    if tagged { trace' := Extend(s0, trace', s1, Own(0, Verify)); }
  }

  lemma NextReceive(s: Sys, tagged: bool) returns (s1: Sys)
    requires |s.threads| > 0 && CanReceive(s.threads[0])
    ensures Enabled(s, ReceiveBlock(0, tagged)) && s1 == Next(s, ReceiveBlock(0, tagged))
    ensures tagged ==> Enabled(s1, Own(0, Verify))
    ensures var b := s.threads[0].flow[0];
            (if tagged then Next(s1, Own(0, Verify)) else s1) ==
            s.(threads := s.threads[0 := Got1(s.threads[0], tagged)], delivered := s.delivered + Prefix(b, b.size))
  {
    s1 := Next(s, ReceiveBlock(0, tagged));
    var t1 := DoReceiveBlock(s.threads[0], tagged);
    assert s1.threads == s.threads[0 := t1];
    assert s.threads[0 := t1][0 := DoVerify(t1)] == s.threads[0 := DoVerify(t1)];
  }

  lemma SendOne(s0: Sys, trace: seq<Action>, s: Sys, ports: nat, bs: seq<Block>, b: Block, tagged: bool)
    returns (trace': seq<Action>, s': Sys)
    requires ports > 0 && At(s0, trace, s) && Sending(s, ports, bs) && b in s.queue
    ensures At(s0, trace', s') && Sending(s', ports, bs + [b])
    ensures s'.queue == s.queue - multiset{b} && s'.delivered == s.delivered + Prefix(b, b.size)
  {
    OneMore(bs, b, tagged);
    PutFirst(ports, bs, bs + [b]);
    trace' := TakeOne(s0, trace, s, b);
    var s1 := s.(threads := s.threads[0 := Taken(s.threads[0], b)], queue := s.queue - multiset{b});
    trace' := ReceiveOne(s0, trace', s1, tagged);
    s' := s1.(threads := s1.threads[0 := Got1(s1.threads[0], tagged)], delivered := s1.delivered + Prefix(b, b.size));
    assert s1.threads[0 := Sent(0, bs + [b])] == s.threads[0 := Sent(0, bs + [b])];
  }

  lemma {:induction false} ReceivedMore(d: set<FileByte>, bs: multiset<Block>, b: Block)
    requires Received(d, bs)
    ensures Received(d + Prefix(b, b.size), bs + multiset{b})
  {
    forall x | Holds(b, x) ensures x in Prefix(b, b.size) { PrefixHolds(b, b.size, x); }
  }

  lemma {:induction false} SendAll(s0: Sys, trace: seq<Action>, s: Sys, ports: nat, bs: seq<Block>, tagged: bool)
    returns (trace': seq<Action>, s': Sys, bs': seq<Block>)
    requires ports > 0 && At(s0, trace, s) && Sending(s, ports, bs) && Received(s.delivered, multiset(bs))
    ensures At(s0, trace', s') && Sending(s', ports, bs') && s'.queue == multiset{}
    ensures multiset(bs') == multiset(bs) + s.queue && Received(s'.delivered, multiset(bs'))
    decreases |s.queue|
  {
    trace', s', bs' := trace, s, bs;
    if s.queue != multiset{} {
      var b :| b in s.queue;
      trace', s' := SendOne(s0, trace, s, ports, bs, b, tagged);
      ReceivedMore(s.delivered, multiset(bs), b);
      assert s'.queue + multiset{b} == s.queue;
      trace', s', bs' := SendAll(s0, trace', s', ports, bs + [b], tagged);
    }
  }

  // ---------------------------------------------------------------- from start to end

  ghost predicate AllAre(ts: seq<Thread>, ports: nat, f: nat -> Thread) {
    |ts| == ports && forall k | 0 <= k < ports :: ts[k] == f(k)
  }

  /** All ports go from `f` to `g`. */
  lemma GoAll(s0: Sys, trace: seq<Action>, s: Sys, ports: nat, f: nat -> Thread, g: nat -> Thread, act: nat -> Action)
    returns (trace': seq<Action>, s': Sys)
    requires At(s0, trace, s) && AllAre(s.threads, ports, f) && Steps(s, ports, f, g, act)
    ensures At(s0, trace', s') && AllAre(s'.threads, ports, g) && s' == s.(threads := s'.threads)
  {
    assert s.threads == Half(ports, 0, f, g);
    trace' := Sweep(s0, trace, s, ports, 0, f, g, act);
    s' := s.(threads := Half(ports, ports, f, g));
  }

  lemma MoveAll(s0: Sys, trace: seq<Action>, s: Sys, ports: nat, f: nat -> Thread, g: nat -> Thread, m: Move)
    returns (trace': seq<Action>, s': Sys)
    requires At(s0, trace, s) && AllAre(s.threads, ports, f)
    requires forall k: nat | k < ports :: CanMove(f(k), m, |s.listed|) && g(k) == DoMove(f(k), m, |s.listed|)
    ensures At(s0, trace', s') && AllAre(s'.threads, ports, g) && s' == s.(threads := s'.threads)
  {
    OwnSteps(s, ports, f, g, m);
    trace', s' := GoAll(s0, trace, s, ports, f, g, (k: nat) => Own(k, m));
  }

  lemma PortOpens(k: nat)
    ensures CanMove(Start(k), Connect, 0) && CanMove(DoConnect(Start(k)), Accept(1), 0)
    ensures DoMove(DoConnect(Start(k)), Accept(1), 0) == Sent(k, [])
  {
  }

  lemma PortAsks(k: nat, bs: seq<Block>)
    ensures CanSendDone(Sent(k, bs)) && CanMove(DoSendDone(Sent(k, bs)), ReceiveDone, 0)
  {
  }

  lemma PortEnds(k: nat, bs: seq<Block>)
    ensures var t := DoReceiveDone(DoSendDone(Sent(k, bs)));
            && CanDecide(t, 0) && t.status == WAITING
            && CanMove(DoDecide(t), ReadDone, 0) && DoReadDone(DoDecide(t)).success
  {
  }

  lemma ConnectAll(ports: nat, queue: multiset<Block>) returns (trace: seq<Action>, s: Sys)
    ensures At(StartSys(ports, queue), trace, s) && Sending(s, ports, [])
    ensures s.queue == queue && s.delivered == {}
  {
    var s0 := StartSys(ports, queue);
    var start, open := (k: nat) => Start(k), (k: nat) => DoConnect(Start(k));
    forall k: nat
      ensures CanMove(start(k), Connect, 0) && CanMove(open(k), Accept(1), 0)
      ensures DoMove(open(k), Accept(1), 0) == Port([])(k)
    {
      PortOpens(k);
    }
    trace, s := MoveAll(s0, [], s0, ports, start, open, Connect);
    trace, s := MoveAll(s0, trace, s, ports, open, Port([]), Accept(1));
    assert s.threads == Half(ports, ports, Port([]), Port([]));
  }

  function Asked(f: nat -> Thread): nat -> Thread { (k: nat) => DoReceiveDone(DoSendDone(f(k))) }
  function Ended(f: nat -> Thread): nat -> Thread { (k: nat) => DoReadDone(DoDecide(Asked(f)(k))) }

  lemma AskAll(s0: Sys, trace: seq<Action>, s: Sys, ports: nat, bs: seq<Block>) returns (trace': seq<Action>, s': Sys)
    requires At(s0, trace, s) && Sending(s, ports, bs) && s.queue == multiset{}
    ensures At(s0, trace', s') && AllAre(s'.threads, ports, Asked(Port(bs))) && s' == s.(threads := s'.threads)
  {
    var f, g := Port(bs), (k: nat) => DoSendDone(Port(bs)(k));
    forall k: nat ensures CanSendDone(f(k)) && CanMove(g(k), ReceiveDone, 0) {
      PortAsks(k, if k == 0 then bs else []);
    }
    DoneSteps(s, ports, f, g);
    trace', s' := GoAll(s0, trace, s, ports, f, g, (k: nat) => SendDone(k));
    trace', s' := MoveAll(s0, trace', s', ports, g, Asked(f), ReceiveDone);
  }

  lemma EndAll(s0: Sys, trace: seq<Action>, s: Sys, ports: nat, bs: seq<Block>) returns (trace': seq<Action>, s': Sys)
    requires At(s0, trace, s) && AllAre(s.threads, ports, Asked(Port(bs))) && s.listed == []
    ensures At(s0, trace', s') && AllAre(s'.threads, ports, Ended(Port(bs))) && s' == s.(threads := s'.threads)
  {
    var f, g := Asked(Port(bs)), (k: nat) => DoDecide(Asked(Port(bs))(k));
    forall k: nat ensures CanDecide(f(k), 0) && f(k).status == WAITING && CanMove(g(k), ReadDone, 0) {
      PortEnds(k, if k == 0 then bs else []);
    }
    DecideSteps(s, ports, f, g);
    trace', s' := GoAll(s0, trace, s, ports, f, g, (k: nat) => Decide(k));
    trace', s' := MoveAll(s0, trace', s', ports, g, Ended(Port(bs)), ReadDone);
  }

  /**
   Whatever is queued, over however many ports, with encryption tags or without: there is a run in which no connection
   breaks, every sender thread succeeds and every byte is received.
   */
  lemma FaultFreeRun(ports: nat, queue: multiset<Block>, tagged: bool) returns (trace: seq<Action>)
    requires ports > 0
    ensures Runs(StartSys(ports, queue), trace)
    ensures var s := Last(StartSys(ports, queue), trace);
            && |s.threads| == ports && (forall k | 0 <= k < ports :: s.threads[k].success) && s.queue == multiset{}
            && (forall b, x | b in queue && Holds(b, x) :: x in s.delivered) && !s.rejected && !s.silent
  {
    var s0, s, bs := StartSys(ports, queue), StartSys(ports, queue), [];
    trace, s := ConnectAll(ports, queue);
    trace, s, bs := SendAll(s0, trace, s, ports, [], tagged);
    assert Received(s.delivered, queue);
    trace, s := AskAll(s0, trace, s, ports, bs);
    trace, s := EndAll(s0, trace, s, ports, bs);
    forall k | 0 <= k < ports ensures s.threads[k].success { PortEnds(k, if k == 0 then bs else []); }
  }
}
