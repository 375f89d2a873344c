/**
 What a transfer can lose, and where it is when a receiver thread decides that all is received: the other half of
 Delivery, for the runs in which a global checkpoint was refused or a receiver thread left without listing one.
 */
module Losses {
  import opened Protocol
  import opened Blocks
  import opened Link
  import opened Delivery
  import Credits

  // ---------------------------------------------------------------- who is to blame

  /** The step refuses the checkpoint of a dead port. */
  ghost predicate Refuses(s: Sys, a: Action, j: nat)
    requires Enabled(s, a)
  {
    && a.ApplyGlobal? && Target(s, s.threads[a.k]) == j
    && GlobalVerdict(s.threads[j], s.listed[s.threads[a.k].sender.next]) == INVALID_CHECKPOINT
  }

  /** Ports whose checkpoint was refused in the course of a run. */
  ghost predicate Refused(s: Sys, trace: seq<Action>, j: nat)
    requires Runs(s, trace)
    decreases |trace|
  {
    trace != [] &&
    var front := trace[..|trace| - 1];
    Refused(s, front, j) || Refuses(Last(s, front), trace[|trace| - 1], j)
  }

  /** Ports whose receiver thread left without listing a checkpoint. */
  ghost predicate Deserted(trace: seq<Action>, j: nat) { exists i | 0 <= i < |trace| :: trace[i] == Leave(j) }

  // ---------------------------------------------------------------- what one step does to a thread

  /** Ended senders stay ended, with empty hands; nothing else others rely on is undone. */
  ghost predicate Fate(t: Thread, t': Thread) {
    && (t.sender == Ended ==> t'.sender == Ended)
    && (t.sender == Ended && t.inHand.None? ==> t'.inHand.None?)
    && (t.globalCheckpoint ==> t'.globalCheckpoint)
  }

  ghost predicate Course(t: Thread, t': Thread, a: Action, i: nat) {
    && (t'.applied <= t.applied || (a == Unblock(i) && t.sender.Blocked? && t'.applied == t.sender.next + 1))
    && (t'.sender.Blocked? ==>
          t'.sender == t.sender || (a == ApplyGlobal(i) && t.sender.Applying? && t'.sender.next == t.sender.next))
  }

  ghost predicate Duty(t: Thread, t': Thread, a: Action, i: nat) {
    && (t'.receiver == Gone ==> t.receiver == Gone || a == Die(i) || a == Leave(i))
    && (Drains(t) ==> Drains(t') || a == SendDone(i) || a == Decide(i) || a == Die(i) || a == Leave(i))
    && (t.decided ==> t'.decided)
  }

  ghost predicate Steps(t: Thread, t': Thread, a: Action, i: nat) {
    Fate(t, t') && Course(t, t', a, i) && Duty(t, t', a, i)
  }

  lemma MoveFate(t: Thread, m: Move, listed: nat, a: Action, i: nat)
    requires CanMove(t, m, listed) && Inv(t)
    ensures Fate(t, DoMove(t, m, listed)) && Course(t, DoMove(t, m, listed), a, i)
  {
    match m
    case Connect => case LoseConnection => case Quit => case ReadErr => case Resume => case ReadDone =>
    case Accept(conn) => case Verify => case Fail(inHeader) => case Mark => case ReceiveDone => case SendErr =>
  }

  lemma MoveDuty(t: Thread, m: Move, listed: nat, a: Action, i: nat)
    requires CanMove(t, m, listed) && Inv(t)
    ensures Duty(t, DoMove(t, m, listed), a, i)
  {
    match m
    case Connect => case LoseConnection => case Quit => case ReadErr => case Resume => case ReadDone =>
    case Accept(conn) => case Verify => case Fail(inHeader) => case Mark => case ReceiveDone => case SendErr =>
  }

  /** Steps of a sender thread other than its moves on its own and global checkpoints. */
  predicate AtSender(a: Action) { a.ApplyLocal? || a.Take? || a.Add? || a.SendDone? || a.Unblock? }

  lemma OwnFate(s: Sys, a: Action)
    requires Enabled(s, a) && !a.ApplyGlobal? && Inv(s.threads[a.k])
    ensures Fate(s.threads[a.k], Credits.OwnNext(s, a)) && Course(s.threads[a.k], Credits.OwnNext(s, a), a, a.k)
  {
    if a.Own? {
      MoveFate(s.threads[a.k], a.m, |s.listed|, a, a.k);
    } else if AtSender(a) {
      SenderFate(s, a);
    } else {
      ReceiverFate(s, a);
    }
  }

  lemma SenderFate(s: Sys, a: Action)
    requires Enabled(s, a) && AtSender(a) && Inv(s.threads[a.k])
    ensures Fate(s.threads[a.k], Credits.OwnNext(s, a)) && Course(s.threads[a.k], Credits.OwnNext(s, a), a, a.k)
  {
    match a {
      case ApplyLocal(_) =>
      case Take(_, _) =>
      case Add(_, _) =>
      case SendDone(_) =>
      case Unblock(_) =>
    }
  }

  lemma ReceiverFate(s: Sys, a: Action)
    requires Enabled(s, a) && !a.ApplyGlobal? && !a.Own? && !AtSender(a) && Inv(s.threads[a.k])
    ensures Fate(s.threads[a.k], Credits.OwnNext(s, a)) && Course(s.threads[a.k], Credits.OwnNext(s, a), a, a.k)
  {
    match a {
      case ReceiveBlock(_, _) =>
      case ReceivePart(_, _, _) =>
      case Decide(_) =>
      case Die(_) =>
      case Leave(_) =>
    }
  }

  lemma OwnDuty(s: Sys, a: Action)
    requires Enabled(s, a) && !a.ApplyGlobal? && Inv(s.threads[a.k])
    ensures Duty(s.threads[a.k], Credits.OwnNext(s, a), a, a.k)
  {
    if a.Own? {
      MoveDuty(s.threads[a.k], a.m, |s.listed|, a, a.k);
    } else if AtSender(a) {
      SenderDuty(s, a);
    } else {
      ReceiverDuty(s, a);
    }
  }

  lemma SenderDuty(s: Sys, a: Action)
    requires Enabled(s, a) && AtSender(a) && Inv(s.threads[a.k])
    ensures Duty(s.threads[a.k], Credits.OwnNext(s, a), a, a.k)
  {
    match a {
      case ApplyLocal(_) =>
      case Take(_, _) =>
      case Add(_, _) =>
      case SendDone(_) =>
      case Unblock(_) =>
    }
  }

  lemma ReceiverDuty(s: Sys, a: Action)
    requires Enabled(s, a) && !a.ApplyGlobal? && !a.Own? && !AtSender(a) && Inv(s.threads[a.k])
    ensures Duty(s.threads[a.k], Credits.OwnNext(s, a), a, a.k)
  {
    match a {
      case ReceiveBlock(_, _) =>
      case ReceivePart(_, _, _) =>
      case Decide(_) =>
      case Die(_) =>
      case Leave(_) =>
    }
  }

  lemma StepFate(s: Sys, a: Action, i: nat)
    requires Enabled(s, a) && ThreadsInv(s) && i < |s.threads|
    ensures |Next(s, a).threads| == |s.threads| && Steps(s.threads[i], Next(s, a).threads[i], a, i)
  {
    assert Inv(s.threads[a.k]);
    if a.ApplyGlobal? {
      GlobalFate(s, a.k, i);
    } else {
      Credits.OwnShape(s, a);
      OwnFate(s, a);
      OwnDuty(s, a);
      OneSteps(s.threads, Next(s, a).threads, a, Credits.OwnNext(s, a), i);
    }
  }

  lemma OneSteps(ts: seq<Thread>, ts': seq<Thread>, a: Action, t': Thread, i: nat)
    requires a.k < |ts| && i < |ts| && ts' == ts[a.k := t'] && Steps(ts[a.k], t', a, a.k)
    ensures Steps(ts[i], ts'[i], a, i)
  {
  }

  lemma GlobalFate(s: Sys, k: nat, i: nat)
    requires Enabled(s, ApplyGlobal(k)) && i < |s.threads| && ThreadsInv(s)
    ensures |Next(s, ApplyGlobal(k)).threads| == |s.threads|
    ensures Steps(s.threads[i], Next(s, ApplyGlobal(k)).threads[i], ApplyGlobal(k), i)
  {
    var t, j := s.threads[k], Target(s, s.threads[k]);
    GlobalShape(s, k);
    if i == k {
      if j == k { OwnGlobalSteps(t, s.listed[t.sender.next], k); } else { BlockSteps(t, k); }
    } else if i == j {
      GlobalSteps(s.threads[j], s.listed[t.sender.next], ApplyGlobal(k), j);
    }
  }

  lemma OwnGlobalSteps(t: Thread, c: Checkpoint, k: nat)
    requires Inv(t) && CanBlock(t)
    ensures CanBlock(DoGlobal(t, c)) && Steps(t, DoBlock(DoGlobal(t, c)), ApplyGlobal(k), k)
  {
    GlobalSteps(t, c, ApplyGlobal(k), k);
    BlockSteps(DoGlobal(t, c), k);
  }

  /** The dead port's thread and the one that applies its checkpoint. */
  lemma GlobalShape(s: Sys, k: nat)
    requires Enabled(s, ApplyGlobal(k))
    ensures var t, j := s.threads[k], Target(s, s.threads[k]);
            var g := DoGlobal(s.threads[j], s.listed[t.sender.next]);
            Next(s, ApplyGlobal(k)).threads == if j == k then s.threads[k := DoBlock(g)]
                                               else s.threads[j := g][k := DoBlock(t)]
  {
    var t, j := s.threads[k], Target(s, s.threads[k]);
    var g := DoGlobal(s.threads[j], s.listed[t.sender.next]);
    assert s.threads[j := g][k := DoBlock(s.threads[j := g][k])]
        == if j == k then s.threads[k := DoBlock(g)] else s.threads[j := g][k := DoBlock(t)];
  }

  lemma GlobalSteps(t: Thread, c: Checkpoint, a: Action, j: nat)
    ensures Steps(t, DoGlobal(t, c), a, j) && DoGlobal(t, c).sender == t.sender
            && (Drains(t) <==> Drains(DoGlobal(t, c)))
    ensures var g := DoGlobal(t, c);
            g.applied == t.applied && g.receiver == t.receiver && g.inHand == t.inHand && g.decided == t.decided
  {
  }

  lemma BlockSteps(t: Thread, k: nat)
    requires CanBlock(t)
    ensures Steps(t, DoBlock(t), ApplyGlobal(k), k)
  {
  }

  lemma StepListed(s: Sys, a: Action)
    requires Enabled(s, a)
    ensures Next(s, a).listed == s.listed + if a.Die? then [LocalCheckpoint(s.threads[a.k])] else []
  {
  }

  /** One step, as far as threads and list are concerned. */
  ghost predicate Moves(s: Sys, s': Sys, a: Action) {
    && a.k < |s.threads| == |s'.threads|
    && (forall i | 0 <= i < |s.threads| :: Steps(s.threads[i], s'.threads[i], a, i))
    && s'.listed == s.listed + if a.Die? then [LocalCheckpoint(s.threads[a.k])] else []
  }

  lemma StepMoves(s: Sys, a: Action)
    requires Enabled(s, a) && ThreadsInv(s)
    ensures Moves(s, Next(s, a), a)
  {
    StepListed(s, a);
    StepFate(s, a, a.k);
    forall i | 0 <= i < |s.threads| ensures Steps(s.threads[i], Next(s, a).threads[i], a, i) {
      StepFate(s, a, i);
    }
  }

  // ---------------------------------------------------------------- who is listed, who is settled

  /** The blame so far: ports refused and ports deserted. */
  datatype Blame = Blame(refused: nat -> bool, deserted: nat -> bool)

  /** The sender has stopped, and has handed back what its receiver did not complete, unless that was refused. */
  ghost predicate Over(t: Thread, j: nat, b: Blame) {
    t.sender == Ended && t.inHand.None? && (t.globalCheckpoint || b.refused(j))
  }

  ghost predicate GoneKnown(s: Sys, b: Blame) {
    forall k | 0 <= k < |s.threads| :: s.threads[k].receiver == Gone ==> IsListed(s, k) || b.deserted(k)
  }
  ghost predicate AppliedOver(s: Sys, b: Blame) {
    forall i, m | 0 <= i < |s.threads| && 0 <= m < s.threads[i].applied && m < |s.listed| ::
      0 <= s.listed[m].port < |s.threads| ==> Over(s.threads[s.listed[m].port], s.listed[m].port, b)
  }
  ghost predicate BlockedGlobal(s: Sys, b: Blame) {
    forall i | 0 <= i < |s.threads| && s.threads[i].sender.Blocked? && HasTarget(s, s.threads[i]) ::
      s.threads[Target(s, s.threads[i])].globalCheckpoint || b.refused(Target(s, s.threads[i]))
  }

  ghost predicate LossInv(s: Sys, b: Blame) { GoneKnown(s, b) && AppliedOver(s, b) && BlockedGlobal(s, b) }

  /** The blame after one more step. */
  ghost predicate Adds(s: Sys, a: Action, b: Blame, b': Blame)
    requires Enabled(s, a)
  {
    && (forall j: nat :: b.refused(j) || Refuses(s, a, j) ==> b'.refused(j))
    && (forall j: nat :: b.deserted(j) || a == Leave(j) ==> b'.deserted(j))
  }

  lemma StepGoneKnown(s: Sys, s': Sys, a: Action, b: Blame, b': Blame)
    requires ThreadsInv(s) && GoneKnown(s, b) && Moves(s, s', a)
    requires forall j: nat :: b.deserted(j) || a == Leave(j) ==> b'.deserted(j)
    ensures GoneKnown(s', b')
  {
    forall k | 0 <= k < |s'.threads| && s'.threads[k].receiver == Gone ensures IsListed(s', k) || b'.deserted(k) {
      assert Steps(s.threads[k], s'.threads[k], a, k) && s.threads[k].port == k;
      if s.threads[k].receiver == Gone && IsListed(s, k) {
        var m :| 0 <= m < |s.listed| && s.listed[m].port == k;
        assert s'.listed[m].port == k;
      } else if a == Die(k) {
        assert s'.listed[|s.listed|].port == k;
      }
    }
  }

  lemma StepAppliedOver(s: Sys, s': Sys, a: Action, b: Blame, b': Blame)
    requires ThreadsInv(s) && ListInv(s) && AppliedOver(s, b) && BlockedGlobal(s, b) && Moves(s, s', a)
    requires a.Unblock? ==> Enabled(s, a)
    requires forall j: nat :: b.refused(j) ==> b'.refused(j)
    ensures AppliedOver(s', b')
  {
    forall i, m | 0 <= i < |s'.threads| && 0 <= m < s'.threads[i].applied && m < |s'.listed|
           && 0 <= s'.listed[m].port < |s'.threads|
      ensures Over(s'.threads[s'.listed[m].port], s'.listed[m].port, b')
    {
      assert Steps(s.threads[i], s'.threads[i], a, i) && Within(s.threads[i], |s.listed|) && Inv(s.threads[i]);
      assert m < |s.listed| && s'.listed[m] == s.listed[m];
      var j := s.listed[m].port;
      if m >= s.threads[i].applied {
        UnblockOver(s, i, m, b);
      }
      assert Over(s.threads[j], j, b) && Steps(s.threads[j], s'.threads[j], a, j);
    }
  }

  /** Whoever stops waiting has seen the other sender end. */
  lemma UnblockOver(s: Sys, i: nat, m: nat, b: Blame)
    requires ThreadsInv(s) && Enabled(s, Unblock(i)) && BlockedGlobal(s, b)
    requires m < |s.listed| && 0 <= s.listed[m].port < |s.threads| && m == s.threads[i].sender.next
    ensures Over(s.threads[s.listed[m].port], s.listed[m].port, b)
  {
    assert Inv(s.threads[s.listed[m].port]);
  }

  lemma StepBlockedGlobal(s: Sys, s': Sys, a: Action, b: Blame, b': Blame)
    requires ThreadsInv(s) && ListInv(s) && BlockedGlobal(s, b) && Moves(s, s', a)
    requires forall j: nat :: b.refused(j) ==> b'.refused(j)
    requires a.ApplyGlobal? && HasTarget(s', s'.threads[a.k]) ==>
               var j := Target(s', s'.threads[a.k]); s'.threads[j].globalCheckpoint || b'.refused(j)
    ensures BlockedGlobal(s', b')
  {
    forall i | 0 <= i < |s'.threads| && s'.threads[i].sender.Blocked? && HasTarget(s', s'.threads[i])
      ensures s'.threads[Target(s', s'.threads[i])].globalCheckpoint || b'.refused(Target(s', s'.threads[i]))
    {
      assert Steps(s.threads[i], s'.threads[i], a, i) && Within(s.threads[i], |s.listed|) && Inv(s.threads[i]);
      if a != ApplyGlobal(i) {
        assert HasTarget(s, s.threads[i]);
        var j := Target(s, s.threads[i]);
        assert Steps(s.threads[j], s'.threads[j], a, j);
      }
    }
  }

  lemma GlobalSettles(s: Sys, i: nat)
    requires ThreadsInv(s) && ListInv(s) && Enabled(s, ApplyGlobal(i))
    ensures var j := Target(s, s.threads[i]); var s' := Next(s, ApplyGlobal(i));
            && |s'.threads| == |s.threads| && HasTarget(s', s'.threads[i]) && Target(s', s'.threads[i]) == j
            && (s'.threads[j].globalCheckpoint || Refuses(s, ApplyGlobal(i), j))
  {
  }

  lemma StepLossInv(s: Sys, a: Action, b: Blame, b': Blame)
    requires ThreadsInv(s) && ListInv(s) && Enabled(s, a) && LossInv(s, b) && Adds(s, a, b, b')
    ensures LossInv(Next(s, a), b')
  {
    var s' := Next(s, a);
    StepMoves(s, a);
    StepGoneKnown(s, s', a, b, b');
    StepAppliedOver(s, s', a, b, b');
    if a.ApplyGlobal? {
      GlobalSettles(s, a.k);
    }
    StepBlockedGlobal(s, s', a, b, b');
  }

  // ---------------------------------------------------------------- the queue is not forgotten

  /** A sender thread at work: its receiver runs, or its checkpoint is listed and nobody has finished applying it. */
  lemma BusyCares(s: Sys, k: nat, b: Blame)
    requires k < |s.threads| && ThreadsInv(s) && LossInv(s, b) && !b.deserted(k) && !AnyDecided(s)
    requires !Idle(s.threads[k].sender)
    ensures Cared(s)
  {
    var t := s.threads[k];
    assert Inv(t) && !t.decided;
    if t.receiver == Gone {
      assert IsListed(s, k);
      var m :| 0 <= m < |s.listed| && s.listed[m].port == k;
      forall i | 0 <= i < |s.threads| ensures s.threads[i].applied <= m {
        if m < s.threads[i].applied {
          AppliedEnded(s, i, m, b);
        }
      }
      assert Unapplied(s, m);
    } else {
      assert Drains(t);
    }
  }

  lemma AppliedEnded(s: Sys, i: nat, m: nat, b: Blame)
    requires AppliedOver(s, b) && i < |s.threads| && m < s.threads[i].applied && m < |s.listed|
             && 0 <= s.listed[m].port < |s.threads|
    ensures s.threads[s.listed[m].port].sender == Ended
  {
    assert Over(s.threads[s.listed[m].port], s.listed[m].port, b);
  }

  ghost predicate QueueCared(s: Sys, b: Blame) {
    (forall j: nat :: !b.deserted(j)) && !AnyDecided(s) && s.queue != multiset{} ==> Cared(s)
  }

  /** What takes care of the queue goes on doing so, or hands over. */
  lemma CaredOn(s: Sys, s': Sys, a: Action)
    requires ListInv(s) && Moves(s, s', a) && Cared(s)
    requires !a.SendDone? && !a.Decide? && !a.Leave? && !a.Unblock?
    ensures Cared(s')
  {
    if a.Die? {
      forall i | 0 <= i < |s'.threads| ensures s'.threads[i].applied <= |s.listed| {
        assert Steps(s.threads[i], s'.threads[i], a, i) && Within(s.threads[i], |s.listed|);
      }
      assert Unapplied(s', |s.listed|);
    } else if j :| 0 <= j < |s.threads| && Drains(s.threads[j]) {
      assert Steps(s.threads[j], s'.threads[j], a, j);
      assert Drains(s'.threads[j]);
    } else {
      var m: nat :| Unapplied(s, m);
      forall i | 0 <= i < |s'.threads| ensures s'.threads[i].applied <= m {
        assert Steps(s.threads[i], s'.threads[i], a, i) && s.threads[i].applied <= m;
      }
      assert Unapplied(s', m);
    }
  }

  /** Blocks come back to the queue only from sender threads at work, before or after the step. */
  lemma Returns(s: Sys, a: Action)
    requires Enabled(s, a) && Inv(s.threads[a.k])
    ensures |Next(s, a).threads| == |s.threads|
    ensures Next(s, a).queue <= s.queue || !Idle(s.threads[a.k].sender) || !Idle(Next(s, a).threads[a.k].sender)
    ensures a.Unblock? ==> !Idle(Next(s, a).threads[a.k].sender)
    ensures a.SendDone? ==> Next(s, a).queue == multiset{}
  {
    if a.ApplyGlobal? { GlobalReturns(s, a.k); } else { OwnReturns(s, a); }
  }

  lemma GlobalReturns(s: Sys, k: nat)
    requires Enabled(s, ApplyGlobal(k))
    ensures |Next(s, ApplyGlobal(k)).threads| == |s.threads| && !Idle(s.threads[k].sender)
  {
    GlobalShape(s, k);
  }

  lemma OwnReturns(s: Sys, a: Action)
    requires Enabled(s, a) && !a.ApplyGlobal? && Inv(s.threads[a.k])
    ensures |Next(s, a).threads| == |s.threads|
    ensures Next(s, a).queue <= s.queue || !Idle(s.threads[a.k].sender) || !Idle(Next(s, a).threads[a.k].sender)
    ensures a.Unblock? ==> !Idle(Next(s, a).threads[a.k].sender)
    ensures a.SendDone? ==> Next(s, a).queue == multiset{}
  {
    Credits.OwnShape(s, a);
    OwnThreadReturns(s, a);
  }

  lemma OwnThreadReturns(s: Sys, a: Action)
    requires Enabled(s, a) && !a.ApplyGlobal? && Inv(s.threads[a.k])
    ensures Next(s, a).queue <= s.queue || !Idle(s.threads[a.k].sender) || !Idle(Credits.OwnNext(s, a).sender)
    ensures a.Unblock? ==> !Idle(Credits.OwnNext(s, a).sender)
    ensures a.SendDone? ==> Next(s, a).queue == multiset{}
  {
    if a.ApplyLocal? {
      LocalReturns(s, a.k);
    } else if a.Unblock? || a.SendDone? {
      SenderReturns(s, a);
    } else if a.Add? {
      AddReturns(s, a);
    } else {
      NothingReturns(s, a);
    }
  }

  lemma SenderReturns(s: Sys, a: Action)
    requires Enabled(s, a) && (a.Unblock? || a.SendDone?)
    ensures a.Unblock? ==> !Idle(Credits.OwnNext(s, a).sender)
    ensures a.SendDone? ==> Next(s, a).queue == multiset{}
    ensures Next(s, a).queue <= s.queue || !Idle(Credits.OwnNext(s, a).sender)
  {
  }

  lemma AddReturns(s: Sys, a: Action)
    requires Enabled(s, a) && a.Add? && Inv(s.threads[a.k])
    ensures !Idle(s.threads[a.k].sender)
  {
  }

  lemma NothingReturns(s: Sys, a: Action)
    requires Enabled(s, a) && !a.ApplyGlobal? && !a.ApplyLocal? && !a.Unblock? && !a.SendDone? && !a.Add?
    ensures Next(s, a).queue <= s.queue
  {
  }

  lemma LocalReturns(s: Sys, k: nat)
    requires Enabled(s, ApplyLocal(k))
    ensures Next(s, ApplyLocal(k)).queue == s.queue || !Idle(DoApplyLocal(s.threads[k]).sender)
  {
    var t := s.threads[k];
    if DoApplyLocal(t).sender == Ended {
      assert s.queue + multiset([]) == s.queue;
    }
  }

  lemma StepDecided(s: Sys, a: Action)
    requires Enabled(s, a) && ThreadsInv(s)
    ensures AnyDecided(s) || a.Decide? ==> AnyDecided(Next(s, a))
  {
    if AnyDecided(s) {
      var j :| 0 <= j < |s.threads| && s.threads[j].decided;
      StepFate(s, a, j);
      assert Next(s, a).threads[j].decided;
    } else if a.Decide? {
      assert Next(s, a).threads[a.k].decided;
    }
  }

  lemma StepQueueCared(s: Sys, a: Action, b: Blame, b': Blame)
    requires ThreadsInv(s) && ListInv(s) && Enabled(s, a) && LossInv(s, b) && QueueCared(s, b) && Adds(s, a, b, b')
    requires ThreadsInv(Next(s, a)) && LossInv(Next(s, a), b')
    ensures QueueCared(Next(s, a), b')
  {
    var s' := Next(s, a);
    StepMoves(s, a);
    StepDecided(s, a);
    assert Inv(s.threads[a.k]);
    Returns(s, a);
    if (forall j: nat :: !b'.deserted(j)) && !AnyDecided(s') && s'.queue != multiset{} {
      assert forall j: nat :: !b.deserted(j);
      assert !b'.deserted(a.k) && !a.Leave?;
      if !Idle(s'.threads[a.k].sender) {
        BusyCares(s', a.k, b');
      } else {
        if !Idle(s.threads[a.k].sender) {
          BusyCares(s, a.k, b);
        }
        CaredOn(s, s', a);
      }
    }
  }

  ghost function BlameOf(s: Sys, trace: seq<Action>): Blame
    requires Runs(s, trace)
  {
    Blame((j: nat) => Runs(s, trace) && Refused(s, trace, j), (j: nat) => Deserted(trace, j))
  }

  lemma BlameGrows(s: Sys, trace: seq<Action>)
    requires trace != [] && Runs(s, trace)
    ensures var front := trace[..|trace| - 1];
            Adds(Last(s, front), trace[|trace| - 1], BlameOf(s, front), BlameOf(s, trace))
  {
    var front := trace[..|trace| - 1];
    forall j: nat | Deserted(front, j) || trace[|trace| - 1] == Leave(j) ensures Deserted(trace, j) {
      if Deserted(front, j) {
        var i :| 0 <= i < |front| && front[i] == Leave(j);
        assert trace[i] == Leave(j);
      }
    }
  }

  lemma {:induction false} RunsKeepLoss(ports: nat, queue: multiset<Block>, universe: set<FileByte>, trace: seq<Action>)
    requires ports > 0 && Queued(queue, universe) && Runs(StartSys(ports, queue), trace)
    ensures LossInv(Last(StartSys(ports, queue), trace), BlameOf(StartSys(ports, queue), trace))
    ensures QueueCared(Last(StartSys(ports, queue), trace), BlameOf(StartSys(ports, queue), trace))
    decreases |trace|
  {
    var s0 := StartSys(ports, queue);
    if trace == [] {
      assert forall k | 0 <= k < |s0.threads| :: s0.threads[k] == Start(k);
      assert Drains(s0.threads[0]);
    } else {
      var front := trace[..|trace| - 1];
      RunsKeepLoss(ports, queue, universe, front);
      StartSysInv(ports, queue, universe);
      RunsKeep(s0, front, universe);
      BlameGrows(s0, trace);
      StepLossInv(Last(s0, front), trace[|trace| - 1], BlameOf(s0, front), BlameOf(s0, trace));
      RunsKeep(s0, trace, universe);
      StepQueueCared(Last(s0, front), trace[|trace| - 1], BlameOf(s0, front), BlameOf(s0, trace));
    }
  }

  // ---------------------------------------------------------------- what is lost

  /** In a block of the port that its receiver did not complete. */
  ghost predicate PastDone(t: Thread, x: FileByte) {
    |t.done| <= |All(t)| && exists i | |t.done| <= i < |All(t)| :: Holds(All(t)[i], x)
  }

  /** A port that is not to blame has received all it was given. */
  lemma BlamelessHasAll(s: Sys, d: nat, j: nat, b: Blame, universe: set<FileByte>)
    requires SysInv(s, universe) && LossInv(s, b) && Enabled(s, Decide(d)) && !AnyDecided(s)
    requires j < |s.threads| && !b.refused(j) && !b.deserted(j)
    ensures GotAll(s.delivered, All(s.threads[j]))
  {
    var t := s.threads[j];
    assert Inv(t) && Inv(s.threads[d]) && Honest(s.delivered, t) && !t.decided;
    if t.receiver == Gone {
      assert IsListed(s, j);
      var m :| 0 <= m < |s.listed| && s.listed[m].port == j;
      assert m < s.threads[d].applied;
      assert Over(s.threads[s.listed[m].port], s.listed[m].port, b);
      assert All(t) == t.done;
    } else {
      assert All(t) == t.done + t.unverified;
    }
  }

  lemma BlamelessHas(s: Sys, d: nat, j: nat, b: Blame, universe: set<FileByte>, x: FileByte)
    requires SysInv(s, universe) && LossInv(s, b) && Enabled(s, Decide(d)) && !AnyDecided(s)
    requires j < |s.threads| && !b.refused(j) && !b.deserted(j) && OnPort(s.threads[j], x)
    ensures x in s.delivered
  {
    BlamelessHasAll(s, d, j, b, universe);
    var i :| 0 <= i < |All(s.threads[j])| && Holds(All(s.threads[j])[i], x);
    assert Got(s.delivered, All(s.threads[j])[i]);
  }

  /** What a blamed port lacks is in the blocks its receiver did not complete. */
  lemma LacksPastDone(s: Sys, j: nat, universe: set<FileByte>, x: FileByte)
    requires SysInv(s, universe) && j < |s.threads| && OnPort(s.threads[j], x) && x !in s.delivered
    ensures PastDone(s.threads[j], x)
  {
    var t := s.threads[j];
    assert Inv(t) && Honest(s.delivered, t);
    var i :| 0 <= i < |All(t)| && Holds(All(t)[i], x);
    assert t.done <= All(t);
    if i < |t.done| {
      DoneIsDelivered(s.delivered, t, i, x);
    }
  }

  lemma DoneIsDelivered(d: set<FileByte>, t: Thread, i: nat, x: FileByte)
    requires Honest(d, t) && t.done <= All(t) && i < |t.done| && Holds(All(t)[i], x)
    ensures x in d
  {
    assert All(t)[i] == t.done[i] && Got(d, t.done[i]);
  }

  /** Whoever may decide has seen everybody stop and has applied the whole list. */
  lemma NobodyCares(s: Sys, d: nat)
    requires ThreadsInv(s) && ListInv(s) && Enabled(s, Decide(d))
    ensures !Cared(s)
  {
    assert Inv(s.threads[d]);
  }

  lemma QueueLeft(s: Sys, d: nat, b: Blame)
    requires ThreadsInv(s) && ListInv(s) && QueueCared(s, b) && Enabled(s, Decide(d)) && !AnyDecided(s)
    requires s.queue != multiset{}
    ensures exists k: nat :: b.deserted(k)
  {
    NobodyCares(s, d);
  }

  /**
   Where lost bytes are when the first receiver thread decides to finish: in a block that its receiver did not complete,
   of a port whose checkpoint was refused or whose receiver left without listing one; or in the queue, but only if
   some receiver thread left that way.
   */
  lemma {:induction false} LostBytes(ports: nat, queue: multiset<Block>, universe: set<FileByte>, trace: seq<Action>,
                                     d: nat, x: FileByte)
    requires ports > 0 && Queued(queue, universe) && Runs(StartSys(ports, queue), trace) && x in universe
    requires var s := Last(StartSys(ports, queue), trace); Enabled(s, Decide(d)) && !AnyDecided(s) && x !in s.delivered
    ensures var s0 := StartSys(ports, queue); var s := Last(s0, trace);
            || (InQueue(s, x) && exists k: nat :: Deserted(trace, k))
            || exists k | 0 <= k < |s.threads| ::
              (Refused(s0, trace, k) || Deserted(trace, k)) && PastDone(s.threads[k], x)
    ensures var s0 := StartSys(ports, queue);
            exists k: nat :: Refused(s0, trace, k) || Deserted(trace, k)
  {
    var s0 := StartSys(ports, queue);
    var s, b := Last(s0, trace), BlameOf(s0, trace);
    StartSysInv(ports, queue, universe);
    RunsKeep(s0, trace, universe);
    RunsKeepLoss(ports, queue, universe, trace);
    assert Accounted(s, x);
    if InQueue(s, x) {
      QueueLeft(s, d, b);
      var k: nat :| b.deserted(k);
      assert Deserted(trace, k);
    }
    if k :| 0 <= k < |s.threads| && OnPort(s.threads[k], x) {
      LacksPastDone(s, k, universe, x);
      if !b.refused(k) && !b.deserted(k) {
        BlamelessHas(s, d, k, b, universe, x);
      }
    }
    SomeoneToBlame(ports, queue, universe, trace, d);
  }

  /** The flags of Delivery say just that somebody is to blame. */
  lemma {:induction false} FlagsBlame(s0: Sys, trace: seq<Action>)
    requires Runs(s0, trace) && !s0.rejected && !s0.silent
    ensures Last(s0, trace).rejected ==> exists k: nat :: Refused(s0, trace, k)
    ensures Last(s0, trace).silent ==> exists k: nat :: Deserted(trace, k)
    decreases |trace|
  {
    if trace != [] {
      var front, a := trace[..|trace| - 1], trace[|trace| - 1];
      FlagsBlame(s0, front);
      var s := Last(s0, front);
      StepFlags(s, a);
      BlameGrows(s0, trace);
      if s.rejected {
        var k: nat :| Refused(s0, front, k);
        assert Refused(s0, trace, k);
      } else if Next(s, a).rejected {
        assert Refused(s0, trace, Target(s, s.threads[a.k]));
      }
      if s.silent {
        var k: nat :| Deserted(front, k);
        assert BlameOf(s0, trace).deserted(k);
      } else if Next(s, a).silent {
        assert Deserted(trace, a.k);
      }
    }
  }

  lemma StepFlags(s: Sys, a: Action)
    requires Enabled(s, a)
    ensures Next(s, a).rejected && !s.rejected ==> a.ApplyGlobal? && Refuses(s, a, Target(s, s.threads[a.k]))
    ensures Next(s, a).silent && !s.silent ==> a == Leave(a.k)
  {
  }

  lemma {:induction false} SomeoneToBlame(ports: nat, queue: multiset<Block>, universe: set<FileByte>,
                                          trace: seq<Action>, d: nat)
    requires ports > 0 && Queued(queue, universe) && Runs(StartSys(ports, queue), trace)
    requires var s := Last(StartSys(ports, queue), trace);
             Enabled(s, Decide(d)) && !AnyDecided(s) && !(universe <= s.delivered)
    ensures exists k: nat :: Refused(StartSys(ports, queue), trace, k) || Deserted(trace, k)
  {
    var s0 := StartSys(ports, queue);
    var s := Last(s0, trace);
    StartSysInv(ports, queue, universe);
    RunsKeep(s0, trace, universe);
    FlagsBlame(s0, trace);
    if !s.rejected && !s.silent {
      DecidedHaveAll(s, d, universe);
    }
  }

  // ---------------------------------------------------------------- checkpoints, over whole runs

  /**
   Whenever in a run a sender thread applies a local checkpoint, it counts exactly the receiver's completed blocks,
   which are the first of the history, in order, and no fewer than last time; it is refused only if it recounts the
   bytes of the block the last one named.
   */
  lemma {:induction false} LocalCheckpointsFit(ports: nat, queue: multiset<Block>, trace: seq<Action>, k: nat)
    requires ports > 0 && Runs(StartSys(ports, queue), trace)
             && Enabled(Last(StartSys(ports, queue), trace), ApplyLocal(k))
    ensures var t := Last(StartSys(ports, queue), trace).threads[k]; var c := t.checkpointOn.value.msg;
            && c.numBlocks == |t.done| <= |t.history| && t.history[..c.numBlocks] == t.done
            && (t.last.Some? ==> c.numBlocks >= t.last.value.numBlocks)
            && (Judge(|t.history|, t.last, c, false) == INVALID_CHECKPOINT <==> Recounts(t.last, c))
  {
    StartSysInv(ports, queue, {});
    RunsKeep(StartSys(ports, queue), trace, {});
    var t := Last(StartSys(ports, queue), trace).threads[k];
    CompletedArePrefix(t);
    LocalRejectedOnlyOnRecount(t);
  }

  /**
   The first time a dead port's checkpoint is applied in a run, it is refused exactly when it also counts the
   block the sender still has in hand, or recounts the block of the last local checkpoint.
   */
  lemma {:induction false} RefusedIff(ports: nat, queue: multiset<Block>, trace: seq<Action>, k: nat)
    requires ports > 0 && Runs(StartSys(ports, queue), trace)
             && Enabled(Last(StartSys(ports, queue), trace), ApplyGlobal(k))
    ensures var s := Last(StartSys(ports, queue), trace); var j := Target(s, s.threads[k]); var t := s.threads[j];
            !t.globalCheckpoint ==>
              (Refuses(s, ApplyGlobal(k), j) <==>
                 (t.inHand.Some? && t.done == All(t)) || Recounts(t.last, LocalCheckpoint(t)))
  {
    StartSysInv(ports, queue, {});
    RunsKeep(StartSys(ports, queue), trace, {});
    var s := Last(StartSys(ports, queue), trace);
    var j := Target(s, s.threads[k]);
    assert s.threads[j].port == j && Inv(s.threads[j]);
    if !s.threads[j].globalCheckpoint {
      GlobalRejectedIff(s.threads[j], LocalCheckpoint(s.threads[j]));
    }
  }
}
