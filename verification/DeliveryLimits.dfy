/**
 Two kinds of runs in which a receiver thread finishes although bytes are missing.  They show that neither
 exception in the delivery theorem can be dropped.
 */
module DeliveryLimits {
  import opened Protocol
  import opened Blocks
  import opened Link
  import opened Delivery

  /** Two ports sharing a single block of two bytes. */
  const B := Block(1, 0, 2)
  ghost function Initial(): Sys { StartSys(2, multiset{B}) }

  /** Whether the blocks were put on their connections as a whole. */
  ghost predicate Puts(trace: seq<Action>, written: bool) {
    forall i | 0 <= i < |trace| && trace[i].Add? :: trace[i].written == written
  }
  ghost predicate At(trace: seq<Action>, s: Sys, written: bool) {
    Runs(Initial(), trace) && Last(Initial(), trace) == s && Puts(trace, written)
  }

  lemma Extend(trace: seq<Action>, s: Sys, a: Action, written: bool) returns (trace': seq<Action>)
    requires At(trace, s, written) && Enabled(s, a) && (a.Add? ==> a.written == written)
    ensures At(trace', Next(s, a), written)
  {
    trace' := trace + [a];
    assert trace'[..|trace'| - 1] == trace;
  }

  lemma NextMove0(s: Sys, m: Move) returns (s': Sys)
    requires |s.threads| == 2 && CanMove(s.threads[0], m, |s.listed|)
    ensures Enabled(s, Own(0, m)) && s' == Next(s, Own(0, m))
    ensures s' == s.(threads := [DoMove(s.threads[0], m, |s.listed|), s.threads[1]])
  {
    s' := Next(s, Own(0, m));
    assert s'.threads == [DoMove(s.threads[0], m, |s.listed|), s.threads[1]];
  }

  lemma Move0(trace: seq<Action>, s: Sys, m: Move, written: bool) returns (trace': seq<Action>, s': Sys)
    requires At(trace, s, written) && |s.threads| == 2 && CanMove(s.threads[0], m, |s.listed|)
    ensures At(trace', s', written)
    ensures s' == s.(threads := [DoMove(s.threads[0], m, |s.listed|), s.threads[1]])
  {
    s' := NextMove0(s, m);
    trace' := Extend(trace, s, Own(0, m), written);
  }

  lemma NextMove1(s: Sys, m: Move) returns (s': Sys)
    requires |s.threads| == 2 && CanMove(s.threads[1], m, |s.listed|)
    ensures Enabled(s, Own(1, m)) && s' == Next(s, Own(1, m))
    ensures s' == s.(threads := [s.threads[0], DoMove(s.threads[1], m, |s.listed|)])
  {
    s' := Next(s, Own(1, m));
    assert s'.threads == [s.threads[0], DoMove(s.threads[1], m, |s.listed|)];
  }

  lemma Move1(trace: seq<Action>, s: Sys, m: Move, written: bool) returns (trace': seq<Action>, s': Sys)
    requires At(trace, s, written) && |s.threads| == 2 && CanMove(s.threads[1], m, |s.listed|)
    ensures At(trace', s', written)
    ensures s' == s.(threads := [s.threads[0], DoMove(s.threads[1], m, |s.listed|)])
  {
    s' := NextMove1(s, m);
    trace' := Extend(trace, s, Own(1, m), written);
  }

  lemma NextSend0(s: Sys, written: bool) returns (s1: Sys, s2: Sys)
    requires |s.threads| == 2 && CanTake(s.threads[0]) && !s.threads[0].globalCheckpoint && s.queue == multiset{B}
    ensures Enabled(s, Take(0, B)) && s1 == Next(s, Take(0, B))
    ensures Enabled(s1, Add(0, written)) && s2 == Next(s1, Add(0, written))
    ensures s2 == s.(threads := [DoAdd(DoTake(s.threads[0], B), written), s.threads[1]], queue := multiset{})
  {
    s1 := Next(s, Take(0, B));
    assert s1.threads == [DoTake(s.threads[0], B), s.threads[1]] && s1.queue == multiset{};
    s2 := Next(s1, Add(0, written));
    assert s2.threads == [DoAdd(DoTake(s.threads[0], B), written), s.threads[1]] && s2.queue == multiset{};
  }

  /** Port 0 takes the block, and has put all or only some of it on the connection. */
  lemma Send0(trace: seq<Action>, s: Sys, written: bool) returns (trace': seq<Action>, s': Sys)
    requires At(trace, s, written) && |s.threads| == 2 && CanTake(s.threads[0]) && !s.threads[0].globalCheckpoint
    requires s.queue == multiset{B}
    ensures At(trace', s', written)
    ensures s' == s.(threads := [DoAdd(DoTake(s.threads[0], B), written), s.threads[1]], queue := multiset{})
  {
    var s1, s2 := NextSend0(s, written);
    trace' := Extend(trace, s, Take(0, B), written);
    trace' := Extend(trace', s1, Add(0, written), written);
    s' := s2;
  }

  /** Port 1 finds the queue empty, says so, and its receiver waits for the others. */
  lemma Drain1(trace: seq<Action>, s: Sys, written: bool) returns (trace': seq<Action>, s': Sys)
    requires At(trace, s, written) && |s.threads| == 2 && s.queue == multiset{}
    requires var t := s.threads[1]; CanSendDone(t) && t.receiver == Receiving && t.rConn == t.pipeConn && t.flow == []
    ensures At(trace', s', written)
    ensures s' == s.(threads := [s.threads[0], DoReceiveDone(DoSendDone(s.threads[1]))])
  {
    var s1 := Next(s, SendDone(1));
    trace' := Extend(trace, s, SendDone(1), written);
    assert s1.threads == [s.threads[0], DoSendDone(s.threads[1])];
    trace', s' := Move1(trace', s1, ReceiveDone, written);
  }

  /** With port 0 finished and nothing new listed, port 1 finishes the transfer. */
  lemma Finish1(trace: seq<Action>, s: Sys, written: bool) returns (trace': seq<Action>, s': Sys)
    requires At(trace, s, written) && |s.threads| == 2 && s.threads[0].status == FINISHED
    requires CanDecide(s.threads[1], |s.listed|) && s.threads[1].sender == Awaiting
             && s.threads[1].rConn == s.threads[1].sConn
    ensures At(trace', s', written)
    ensures |s'.threads| == 2 && s'.threads[1].success && s'.queue == s.queue && s'.threads[0] == s.threads[0]
    ensures All(s'.threads[1]) == All(s.threads[1])
    ensures s'.delivered == s.delivered && s'.rejected == s.rejected && s'.silent == s.silent
  {
    trace', s' := Decide1(trace, s, written);
    trace', s' := Move1(trace', s', ReadDone, written);
  }

  lemma Decide1(trace: seq<Action>, s: Sys, written: bool) returns (trace': seq<Action>, s': Sys)
    requires At(trace, s, written) && |s.threads| == 2 && s.threads[0].status == FINISHED
    requires CanDecide(s.threads[1], |s.listed|)
    ensures At(trace', s', written) && s' == s.(threads := [s.threads[0], DoDecide(s.threads[1])])
  {
    NextDecide1(s);
    trace' := Extend(trace, s, Decide(1), written);
    s' := Next(s, Decide(1));
  }

  lemma NextDecide1(s: Sys)
    requires |s.threads| == 2 && s.threads[0].status == FINISHED && CanDecide(s.threads[1], |s.listed|)
    ensures Enabled(s, Decide(1)) && Next(s, Decide(1)) == s.(threads := [s.threads[0], DoDecide(s.threads[1])])
  {
    assert Next(s, Decide(1)).threads == [s.threads[0], DoDecide(s.threads[1])];
  }

  // ---------------------------------------------------------------- a thread that leaves silently

  lemma Begin(written: bool) returns (s: Sys)
    ensures At([], s, written) && s == Sys([Start(0), Start(1)], multiset{B}, [], {}, false, false)
  {
    s := Initial();
    assert s.threads == [Start(0), Start(1)];
  }

  /** Port 0 sends the block and its connection breaks before any of it arrives. */
  lemma NothingArrived(written: bool) returns (trace: seq<Action>, s: Sys, t: Thread)
    ensures At(trace, s, written) && s == Sys([t, Start(1)], multiset{}, [], {}, false, false)
    ensures t.receiver == Accepting && !t.decided && t.history == [B] && t.inHand.None? && !t.success
  {
    s := Begin(written);
    trace := [];
    trace, s := Move0(trace, s, Connect, written);
    trace, s := Send0(trace, s, written);
    trace, s := Move0(trace, s, Accept(1), written);
    trace, s := Move0(trace, s, Fail(false), written);
    t := s.threads[0];
  }

  lemma LeftSilently(written: bool) returns (trace: seq<Action>, s: Sys, t: Thread)
    ensures At(trace, s, written) && s == Sys([t, Start(1)], multiset{}, [], {}, false, true)
    ensures t.status == FINISHED && t.history == [B] && t.inHand.None? && !t.success
  {
    trace, s, t := NothingArrived(written);
    trace := Extend(trace, s, Leave(0), written);
    s := Next(s, Leave(0));
    t := DoDie(t);
    assert s.threads == [t, Start(1)];
  }

  /** Nothing is left to send, and the block is with port 0, whose thread has failed. */
  ghost predicate Stranded(s: Sys) {
    && s.queue == multiset{} && |s.threads| == 2 && s.threads[0].history == [B] && s.threads[0].inHand.None?
    && !s.threads[0].success && All(s.threads[1]) == [] && s.threads[1].success
  }

  /**
   If the receiver thread of that port now leaves on a non-retryable socket error, without listing
   a checkpoint, the other port finishes on its own and its thread succeeds with nothing delivered.
   */
  lemma SilentExitLosesBlock(written: bool) returns (trace: seq<Action>, s: Sys)
    ensures Runs(Initial(), trace) && s == Last(Initial(), trace) && Puts(trace, written)
    ensures Stranded(s) && !s.rejected && s.silent && s.delivered == {}
  {
    var t;
    trace, s, t := LeftSilently(written);
    trace, s := Move1(trace, s, Connect, written);
    trace, s := Move1(trace, s, Accept(1), written);
    trace, s := Drain1(trace, s, written);
    trace, s := Finish1(trace, s, written);
  }

  // ---------------------------------------------------------------- a checkpoint counted twice

  function Reported(received: int): Checkpoint { Checkpoint(0, 0, 1, 0, received, true) }

  lemma BlockPut(written: bool) returns (trace: seq<Action>, s: Sys, t: Thread)
    ensures At(trace, s, written) && s == Sys([t, Start(1)], multiset{}, [], {}, false, false)
    ensures t == DoAccept(DoAdd(DoTake(DoConnect(Start(0)), B), written), 1)
  {
    s := Begin(written);
    trace := [];
    trace, s := Move0(trace, s, Connect, written);
    trace, s := Send0(trace, s, written);
    trace, s := Move0(trace, s, Accept(1), written);
    t := s.threads[0];
  }

  /** The connection breaks right after the block's header: a partial block of no bytes. */
  lemma HeaderTaken(written: bool) returns (trace: seq<Action>, s: Sys, t: Thread)
    ensures At(trace, s, written) && s == Sys([t, Start(1)], multiset{}, [], {}, false, false)
    ensures t.history == [B] && t.inHand.None? && t.sConn == 1 && t.rConn == 1
    ensures if written then t.sender == Sending else t.sender == Connecting && !t.clean
    ensures t.receiver == Accepting && t.rError && LocalCheckpoint(t) == Reported(0)
    ensures t.last.None? && !t.globalCheckpoint && !t.decided && !t.success
  {
    trace, s, t := BlockPut(written);
    trace := Extend(trace, s, ReceivePart(0, 0, true), written);
    s := Next(s, ReceivePart(0, 0, true));
    t := DoReceivePart(t, 0, true);
    assert s.threads == [t, Start(1)] && s.delivered == {};
  }

  lemma HeaderArrived(written: bool) returns (trace: seq<Action>, s: Sys, t: Thread)
    ensures At(trace, s, written) && s == Sys([t, Start(1)], multiset{}, [], {}, false, false)
    ensures t.history == [B] && t.inHand.None? && t.sender == Connecting && !t.clean && t.sConn == 1 && t.rConn == 1
    ensures t.receiver == Accepting && t.rError && LocalCheckpoint(t) == Reported(0)
    ensures t.last.None? && !t.globalCheckpoint && !t.decided && !t.success
  {
    trace, s, t := HeaderTaken(written);
    if written {
      trace, s := Move0(trace, s, LoseConnection, written);
      t := s.threads[0];
    }
  }

  lemma HeaderSent(written: bool) returns (trace: seq<Action>, s: Sys, t: Thread)
    ensures At(trace, s, written) && s == Sys([t, Start(1)], multiset{}, [], {}, false, false)
    ensures t.history == [B] && t.inHand.None? && t.sender == ReadingCheckpoint && t.sConn == 2 && t.rConn == 2
    ensures t.receiver == Receiving && t.done == [] && t.unverified == [] && t.port == 0
    ensures t.checkpointOn == Some(OnConn(2, Reported(0)))
    ensures t.last.None? && !t.globalCheckpoint && !t.decided && !t.success
  {
    trace, s, t := HeaderArrived(written);
    trace, s := Move0(trace, s, Connect, written);
    trace, s := Move0(trace, s, Accept(2), written);
    t := s.threads[0];
  }

  /** The sender reconnects, applies that checkpoint and gets the whole block back. */
  lemma HeaderReported(written: bool) returns (trace: seq<Action>, s: Sys, t: Thread)
    ensures At(trace, s, written) && s == Sys([t, Start(1)], multiset{B}, [], {}, false, false)
    ensures t.history == [] && t.inHand.None? && t.sender == Sending && t.pipeConn == t.rConn == t.sConn && t.flow == []
    ensures t.receiver == Receiving && t.done == [] && t.unverified == [] && t.port == 0
    ensures t.last == Some(Reported(0)) && !t.globalCheckpoint && !t.decided && !t.success
  {
    trace, s, t := HeaderSent(written);
    var s', t' := NextApplyLocal0(s, t);
    trace := Extend(trace, s, ApplyLocal(0), written);
    s, t := s', t';
  }

  lemma NextApplyLocal0(s: Sys, t: Thread) returns (s': Sys, t': Thread)
    requires s == Sys([t, Start(1)], multiset{}, [], {}, false, false) && CanApplyLocal(t)
    requires t.history == [B] && t.inHand.None? && t.checkpointOn.value.msg == Reported(0)
    requires t.last.None? && !t.globalCheckpoint && !t.decided && !t.success && t.rConn == t.sConn
    requires t.receiver == Receiving && t.done == [] && t.unverified == [] && t.port == 0
    ensures Enabled(s, ApplyLocal(0)) && s' == Next(s, ApplyLocal(0))
    ensures s' == Sys([t', Start(1)], multiset{B}, [], {}, false, false)
    ensures t'.history == [] && t'.inHand.None? && t'.sender == Sending
    ensures t'.pipeConn == t'.rConn == t'.sConn && t'.flow == []
    ensures t'.receiver == Receiving && t'.done == [] && t'.unverified == [] && t'.port == 0
    ensures t'.last == Some(Reported(0)) && !t'.globalCheckpoint && !t'.decided && !t'.success
  {
    s', t' := Next(s, ApplyLocal(0)), DoApplyLocal(t);
    assert t.history[0..] == [B] && Unacknowledged([B], Reported(0)) == [B];
    assert s'.threads == [t', Start(1)] && s'.queue == multiset{B};
  }

  /** The second attempt breaks one byte in, and the receiver thread dies. */
  lemma OneByteReported(written: bool) returns (trace: seq<Action>, s: Sys, t: Thread)
    ensures At(trace, s, written) && s == Sys([t, Start(1)], multiset{}, [Reported(1)], {FileByte(1, 0)}, false, false)
    ensures t.history == [B] && t.inHand.None? && t.sender == Ended
    ensures t.last == Some(Reported(0)) && t.status == FINISHED && !t.decided && !t.success
  {
    trace, s, t := HeaderReported(written);
    trace, s := Send0(trace, s, written);
    t := s.threads[0];
    assert t.flow == [B];
    trace := Extend(trace, s, ReceivePart(0, 1, true), written);
    s := Next(s, ReceivePart(0, 1, true));
    t := DoReceivePart(t, 1, true);
    assert Prefix(B, 1) == {FileByte(1, 0)};
    assert s.threads == [t, Start(1)] && s.delivered == {FileByte(1, 0)};
    trace, s, t := DieAndQuit0(trace, s, t, written);
  }

  lemma DieAndQuit0(trace: seq<Action>, s: Sys, t: Thread, written: bool)
    returns (trace': seq<Action>, s': Sys, t': Thread)
    requires At(trace, s, written) && s == Sys([t, Start(1)], multiset{}, [], {FileByte(1, 0)}, false, false)
    requires CanDie(t) && CanQuit(t)
    ensures At(trace', s', written) && t' == DoQuit(DoDie(t))
    ensures s' == Sys([t', Start(1)], multiset{}, [LocalCheckpoint(t)], {FileByte(1, 0)}, false, false)
  {
    trace' := Extend(trace, s, Die(0), written);
    s' := Next(s, Die(0));
    assert s'.threads == [DoDie(t), Start(1)] && s'.listed == [LocalCheckpoint(t)];
    trace', s' := Move0(trace', s', Quit, written);
    t' := s'.threads[0];
  }

  ghost predicate Told(trace: seq<Action>, s: Sys, t: Thread, u: Thread, rejected: bool, written: bool) {
    && At(trace, s, written) && s == Sys([t, u], multiset{}, [Reported(1)], {FileByte(1, 0)}, rejected, false)
    && u.receiver == Receiving && u.rConn == u.pipeConn == u.sConn && u.flow == [] && All(u) == [] && !u.decided
  }

  lemma Joined1(trace: seq<Action>, s: Sys, t: Thread, written: bool) returns (trace': seq<Action>, s': Sys, u: Thread)
    requires At(trace, s, written)
    requires s == Sys([t, Start(1)], multiset{}, [Reported(1)], {FileByte(1, 0)}, false, false)
    ensures Told(trace', s', t, u, false, written) && u == DoAccept(DoConnect(Start(1)), 1)
  {
    trace', s' := Move1(trace, s, Connect, written);
    trace', s' := Move1(trace', s', Accept(1), written);
    u := s'.threads[1];
  }

  /** Port 1 is told of the dead port's checkpoint ... */
  lemma ErrRead(trace: seq<Action>, s: Sys, t: Thread, written: bool) returns (trace': seq<Action>, s': Sys, u: Thread)
    requires At(trace, s, written)
    requires s == Sys([t, Start(1)], multiset{}, [Reported(1)], {FileByte(1, 0)}, false, false)
    ensures Told(trace', s', t, u, false, written)
    ensures u.sender == Applying(0, 1) && u.pending == 1 && u.applied == 0
  {
    trace', s', u := Joined1(trace, s, t, written);
    trace', s' := Drain1(trace', s', written);
    trace', s' := Move1(trace', s', SendErr, written);
    trace', s' := Move1(trace', s', ReadErr, written);
    u := s'.threads[1];
  }

  /** ... which is refused: same block, but a different count than the last one applied. */
  lemma Refused(written: bool) returns (trace: seq<Action>, s: Sys, t: Thread, u: Thread)
    ensures Told(trace, s, t, u, true, written)
    ensures t.status == FINISHED && t.sender == Ended && t.history == [B] && t.inHand.None? && !t.success
    ensures u.sender == Blocked(0, 1) && u.pending == 1 && u.applied == 0
  {
    trace, s, t := OneByteReported(written);
    trace, s, u := ErrRead(trace, s, t, written);
    var s' := NextApplyGlobal1(s, t, u);
    trace := Extend(trace, s, ApplyGlobal(1), written);
    s, u := s', DoBlock(u);
  }

  lemma NextApplyGlobal1(s: Sys, t: Thread, u: Thread) returns (s': Sys)
    requires s == Sys([t, u], multiset{}, [Reported(1)], {FileByte(1, 0)}, false, false)
    requires t.history == [B] && t.inHand.None? && t.last == Some(Reported(0)) && !t.decided
    requires u.sender == Applying(0, 1) && u.applied == 0 && u.inHand.None? && !u.decided
    ensures Enabled(s, ApplyGlobal(1)) && s' == Next(s, ApplyGlobal(1))
    ensures s' == Sys([t, DoBlock(u)], multiset{}, [Reported(1)], {FileByte(1, 0)}, true, false)
  {
    assert GlobalVerdict(t, Reported(1)) == INVALID_CHECKPOINT;
    s' := Next(s, ApplyGlobal(1));
    assert s'.threads == [t, DoBlock(u)] && s'.queue == multiset{};
  }

  /** The refused checkpoint leaves the block with the dead port, and port 1 finishes without its second byte. */
  lemma RecountLosesByte(written: bool) returns (trace: seq<Action>, s: Sys)
    ensures Runs(Initial(), trace) && s == Last(Initial(), trace) && Puts(trace, written)
    ensures Stranded(s) && s.rejected && !s.silent && s.delivered == {FileByte(1, 0)}
  {
    var t, u;
    trace, s, t, u := Refused(written);
    trace := Extend(trace, s, Unblock(1), written);
    s := Next(s, Unblock(1));
    assert s.threads == [t, DoUnblock(u)];
    trace, s := Move1(trace, s, Resume, written);
    trace, s := Drain1(trace, s, written);
    trace, s := Finish1(trace, s, written);
  }
}
