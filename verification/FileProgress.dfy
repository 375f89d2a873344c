/**
 No receiver thread gets stuck over a file (util/FileCreator.cpp): from every moment of every interleaving, if calls
 succeed from then on, every block under way is received, unless sizing its file has failed.
 */
module FileProgress {
  import opened FileCreator

  // ---------------------------------------------------------------- how far there is to go

  predicate UnderWay(p: Phase) { !p.Idle? && !p.Stop? }

  function Way(t: Thread): nat {
    match t.phase
    case Idle => 0
    case Stop => 0
    case Header(_) => 12
    case HeaderDone(_) => 11
    case Open(_) => 10
    case Allocate(_) => 9
    case Log(_) => 8
    case Decide(_, _) => 7
    case Announce(_, _) => 6
    case Looked(_, _) => 5
    case Sleep(_, _) => 4
    case Check(_, _) => 3
    case Write(_) => 1
  }
  function Distance(ts: seq<Thread>): nat { if ts == [] then 0 else Way(ts[0]) + Distance(ts[1..]) }

  lemma {:induction false} Closer(ts: seq<Thread>, ts': seq<Thread>, k: nat)
    requires |ts'| == |ts| && forall j | 0 <= j < |ts| :: Way(ts'[j]) <= Way(ts[j])
    ensures Distance(ts') <= Distance(ts) && (k < |ts| && Way(ts'[k]) < Way(ts[k]) ==> Distance(ts') < Distance(ts))
  {
    if ts != [] { Closer(ts[1..], ts'[1..], if k == 0 then |ts| else k - 1); }
  }

  // ---------------------------------------------------------------- steps in which every call succeeds

  predicate Lucky(a: Action) {
    match a
    case WriteHeader(_, ok) => ok
    case OpenFunnel(_) => true
    case Lookup(_, opens) => opens
    case SetSize(_, ok) => ok
    case LogSize(_) => true
    case SetStatus(_) => true
    case Notify(_) => true
    case Look(_, opens) => opens
    case FallAsleep(_) => true
    case Complete(_) => true
    case _ => false
  }

  /** What a thread does next if it need not wait. */
  function Move(p: Phase, k: nat): Action
    requires UnderWay(p) && !p.Sleep?
  {
    match p
    case Header(_) => WriteHeader(k, true)
    case HeaderDone(_) => OpenFunnel(k)
    case Open(_) => Lookup(k, true)
    case Allocate(_) => SetSize(k, true)
    case Log(_) => LogSize(k)
    case Decide(_, _) => SetStatus(k)
    case Announce(_, _) => Notify(k)
    case Looked(_, _) => FallAsleep(k)
    case Check(_, _) => Look(k, true)
    case Write(_) => Complete(k)
  }

  /** Whoever holds the mutex goes first, then whoever works on a file; those who look come last. */
  ghost predicate Due(s: Sys, k: nat) {
    && k < |s.threads| && UnderWay(s.threads[k].phase) && !s.threads[k].phase.Sleep?
    && (!s.threads[k].phase.Looked? ==> MutexFree(s))
    && (s.threads[k].phase.Check? ==> s.threads[k].phase.q in s.files && !s.files[s.threads[k].phase.q].InProgress?)
  }

  lemma SomeoneDue(kinds: Kinds, s: Sys) returns (k: nat)
    requires Inv(kinds, s) && exists j :: 0 <= j < |s.threads| && UnderWay(s.threads[j].phase)
    ensures Due(s, k)
  {
    if j :| 0 <= j < |s.threads| && s.threads[j].phase.Looked? {
      k := j;
    } else if j :| 0 <= j < |s.threads| && UnderWay(s.threads[j].phase) && !s.threads[j].phase.Sleep?
                   && !s.threads[j].phase.Check? {
      k := j;
    } else {
      var j :| 0 <= j < |s.threads| && UnderWay(s.threads[j].phase);
      assert PhaseOk(s.files, s.threads, j, s.threads[j].phase);
      k := j;
    }
  }

  lemma DueMoves(kinds: Kinds, prev: int -> int, s: Sys, k: nat)
    requires Inv(kinds, s) && Due(s, k)
    ensures var a := Move(s.threads[k].phase, k);
            && Lucky(a) && Enabled(s, a) && |Next(kinds, prev, s, a).threads| == |s.threads|
            && Way(Next(kinds, prev, s, a).threads[k]) < Way(s.threads[k])
  {
    var a := Move(s.threads[k].phase, k);
    if Simple(a) {
      SimpleShape(kinds, prev, s, a);
    } else {
      OtherMoves(kinds, prev, s, a);
    }
  }

  lemma OtherMoves(kinds: Kinds, prev: int -> int, s: Sys, a: Action)
    requires Inv(kinds, s) && Enabled(s, a) && !Simple(a) && Due(s, a.k)
    ensures var s' := Next(kinds, prev, s, a); |s'.threads| == |s.threads| && Way(s'.threads[a.k]) < Way(s.threads[a.k])
  {
    OthersMoved(kinds, prev, s, a, a.k);
    assert PhaseOk(s.files, s.threads, a.k, s.threads[a.k].phase);
    if a.Lookup? { LookupMoves(kinds, s, a.k, a.opens); }
  }

  lemma LookupMoves(kinds: Kinds, s: Sys, k: nat, opens: bool)
    requires k < |s.threads| && s.threads[k].phase.Open?
    ensures var s' := DoLookup(kinds, s, k, opens); k < |s'.threads| && Way(s'.threads[k]) < Way(s.threads[k])
  {
  }

  lemma OthersNoFurther(kinds: Kinds, prev: int -> int, s: Sys, a: Action, j: nat)
    requires Enabled(s, a) && j < |s.threads| && j != a.k
    ensures var s' := Next(kinds, prev, s, a);
            |s'.threads| == |s.threads| && (s'.threads[j] == s.threads[j] || s'.threads[j] == Woken(s.threads[j], a.k))
  {
    if Simple(a) { SimpleShape(kinds, prev, s, a); } else { OthersMoved(kinds, prev, s, a, j); }
  }

  lemma DueHelps(kinds: Kinds, prev: int -> int, s: Sys, k: nat)
    requires Inv(kinds, s) && Due(s, k)
    ensures var a := Move(s.threads[k].phase, k);
            Lucky(a) && Enabled(s, a) && Distance(Next(kinds, prev, s, a).threads) < Distance(s.threads)
  {
    DueMoves(kinds, prev, s, k);
    var a := Move(s.threads[k].phase, k);
    var s' := Next(kinds, prev, s, a);
    forall j | 0 <= j < |s.threads| ensures Way(s'.threads[j]) <= Way(s.threads[j]) {
      if j != k { OthersNoFurther(kinds, prev, s, a, j); }
    }
    Closer(s.threads, s'.threads, k);
  }

  // ---------------------------------------------------------------- what becomes of each block

  /** Sizing the file has failed, if only its thread knows yet. */
  ghost predicate Doomed(s: Sys, q: int) {
    Is(s.files, q, Failed) || exists k :: 0 <= k < |s.threads| && s.threads[k].phase == Decide(q, false)
  }

  /** Since `t0` the thread is still on its block, has received it, or has stopped because of its file. */
  ghost predicate Since(t0: Thread, t: Thread, files: map<int, Status>) {
    if !UnderWay(t0.phase) then t == t0
    else
      || (UnderWay(t.phase) && t.phase.q == t0.phase.q && t.waiting == t0.waiting)
      || (t.phase.Idle? && t.waiting == t0.waiting + multiset{t0.phase.q})
      || (t.phase.Stop? && t.waiting == t0.waiting && Is(files, t0.phase.q, Failed))
  }

  lemma LuckySince(kinds: Kinds, prev: int -> int, s: Sys, a: Action)
    requires Inv(kinds, s) && Enabled(s, a) && Lucky(a)
    ensures a.k < |Next(kinds, prev, s, a).threads|
    ensures Since(s.threads[a.k], Next(kinds, prev, s, a).threads[a.k], Next(kinds, prev, s, a).files)
  {
    if Simple(a) {
      SimpleShape(kinds, prev, s, a);
    } else {
      OthersMoved(kinds, prev, s, a, a.k);
      if a.Lookup? { LookupSince(kinds, s, a.k); } else { OtherSince(kinds, prev, s, a); }
    }
  }

  lemma LookupSince(kinds: Kinds, s: Sys, k: nat)
    requires Inv(kinds, s) && k < |s.threads| && s.threads[k].phase.Open?
    ensures var s' := DoLookup(kinds, s, k, true); k < |s'.threads| && Since(s.threads[k], s'.threads[k], s'.files)
  {
  }

  lemma OtherSince(kinds: Kinds, prev: int -> int, s: Sys, a: Action)
    requires Inv(kinds, s) && Enabled(s, a) && Lucky(a) && !Simple(a) && !a.Lookup?
    ensures var s' := Next(kinds, prev, s, a);
            a.k < |s'.threads| && Since(s.threads[a.k], s'.threads[a.k], s'.files)
  {
    assert PhaseOk(s.files, s.threads, a.k, s.threads[a.k].phase);
  }

  /** What is so since `t0` is so after another step. */
  lemma SinceOn(kinds: Kinds, prev: int -> int, s: Sys, a: Action, j: nat, t0: Thread)
    requires Inv(kinds, s) && Enabled(s, a) && Lucky(a) && j < |s.threads| && Since(t0, s.threads[j], s.files)
    ensures j < |Next(kinds, prev, s, a).threads|
    ensures Since(t0, Next(kinds, prev, s, a).threads[j], Next(kinds, prev, s, a).files)
  {
    StepGrows(kinds, prev, s, a, if UnderWay(t0.phase) then t0.phase.q else 0);
    if j == a.k {
      LuckySince(kinds, prev, s, a);
    } else {
      OthersNoFurther(kinds, prev, s, a, j);
    }
  }

  /** No file is doomed by a step in which calls succeed. */
  lemma LuckyDoomsNone(kinds: Kinds, prev: int -> int, s: Sys, a: Action, q: int)
    requires Inv(kinds, s) && Enabled(s, a) && Lucky(a) && Doomed(Next(kinds, prev, s, a), q)
    ensures Doomed(s, q)
  {
    var s' := Next(kinds, prev, s, a);
    if Is(s'.files, q, Failed) {
      FailedBy(kinds, prev, s, a, q);
    } else {
      var k :| 0 <= k < |s'.threads| && s'.threads[k].phase == Decide(q, false);
      DecidesAlready(kinds, prev, s, a, k, q);
      assert s.threads[k].phase == Decide(q, false);
    }
  }

  lemma FailedBy(kinds: Kinds, prev: int -> int, s: Sys, a: Action, q: int)
    requires Enabled(s, a) && Is(Next(kinds, prev, s, a).files, q, Failed)
    ensures Is(s.files, q, Failed) || s.threads[a.k].phase == Decide(q, false)
  {
    if Simple(a) { SimpleShape(kinds, prev, s, a); }
  }

  lemma DecidesAlready(kinds: Kinds, prev: int -> int, s: Sys, a: Action, k: nat, q: int)
    requires Enabled(s, a) && Lucky(a) && k < |Next(kinds, prev, s, a).threads|
    requires Next(kinds, prev, s, a).threads[k].phase == Decide(q, false)
    ensures k < |s.threads| && s.threads[k].phase == Decide(q, false)
  {
    if Simple(a) {
      SimpleShape(kinds, prev, s, a);
    } else {
      OthersMoved(kinds, prev, s, a, a.k);
      if k != a.k { OthersMoved(kinds, prev, s, a, k); }
    }
  }

  // ---------------------------------------------------------------- the way out

  ghost predicate AllLucky(actions: seq<Action>) { forall i | 0 <= i < |actions| :: Lucky(actions[i]) }

  ghost predicate AllSince(ts0: seq<Thread>, s: Sys) {
    |s.threads| == |ts0| && forall k | 0 <= k < |ts0| :: Since(ts0[k], s.threads[k], s.files)
  }

  lemma SameCount(kinds: Kinds, prev: int -> int, s: Sys, a: Action)
    requires Enabled(s, a)
    ensures |Next(kinds, prev, s, a).threads| == |s.threads|
  {
    if Simple(a) { SimpleShape(kinds, prev, s, a); } else { OthersMoved(kinds, prev, s, a, a.k); }
  }

  lemma AllSinceOn(kinds: Kinds, prev: int -> int, s: Sys, a: Action, ts0: seq<Thread>)
    requires Inv(kinds, s) && Enabled(s, a) && Lucky(a) && AllSince(ts0, s)
    ensures AllSince(ts0, Next(kinds, prev, s, a))
  {
    SameCount(kinds, prev, s, a);
    forall k | 0 <= k < |ts0|
      ensures Since(ts0[k], Next(kinds, prev, s, a).threads[k], Next(kinds, prev, s, a).files)
    {
      SinceOn(kinds, prev, s, a, k, ts0[k]);
    }
  }

  ghost predicate OnTheWay(kinds: Kinds, s0: Sys, s: Sys) {
    Inv(kinds, s) && AllSince(s0.threads, s) && DoomsNone(s0, s)
  }
  ghost predicate DoomsNone(s0: Sys, s: Sys) { forall q :: Doomed(s, q) ==> Doomed(s0, q) }

  ghost predicate NoneUnderWay(s: Sys) { forall k | 0 <= k < |s.threads| :: !UnderWay(s.threads[k].phase) }

  lemma StepDoomsNone(kinds: Kinds, prev: int -> int, s0: Sys, s: Sys, a: Action)
    requires Inv(kinds, s) && Enabled(s, a) && Lucky(a) && DoomsNone(s0, s)
    ensures DoomsNone(s0, Next(kinds, prev, s, a))
  {
    forall q | Doomed(Next(kinds, prev, s, a), q) ensures Doomed(s0, q) { LuckyDoomsNone(kinds, prev, s, a, q); }
  }

  lemma WayStep(kinds: Kinds, prev: int -> int, s0: Sys, s: Sys) returns (a: Action)
    requires OnTheWay(kinds, s0, s) && !NoneUnderWay(s)
    ensures Lucky(a) && Enabled(s, a) && OnTheWay(kinds, s0, Next(kinds, prev, s, a))
    ensures Distance(Next(kinds, prev, s, a).threads) < Distance(s.threads)
  {
    var k := SomeoneDue(kinds, s);
    a := Move(s.threads[k].phase, k);
    DueHelps(kinds, prev, s, k);
    StepKeeps(kinds, prev, s, a);
    AllSinceOn(kinds, prev, s, a, s0.threads);
    StepDoomsNone(kinds, prev, s0, s, a);
  }

  lemma {:induction false} WayOut(kinds: Kinds, prev: int -> int, s0: Sys, s: Sys) returns (more: seq<Action>)
    requires OnTheWay(kinds, s0, s)
    ensures Run(kinds, prev, s, more) && AllLucky(more)
    ensures OnTheWay(kinds, s0, After(kinds, prev, s, more)) && NoneUnderWay(After(kinds, prev, s, more))
    decreases Distance(s.threads)
  {
    more := [];
    if !NoneUnderWay(s) {
      var a := WayStep(kinds, prev, s0, s);
      var rest := WayOut(kinds, prev, s0, Next(kinds, prev, s, a));
      more := [a] + rest;
      assert more[0] == a && more[1..] == rest;
    }
  }

  /**
   From every moment of every interleaving there is a way on, with calls that succeed and no wake-up but by
   notification, after which no thread is under way: each has received the block it was on, unless sizing its file had
   failed by that moment, and then it has received it or stopped.
   */
  lemma {:induction false} BlocksGetThrough(kinds: Kinds, prev: int -> int, s: Sys, actions: seq<Action>, k: nat)
    returns (more: seq<Action>)
    requires Begins(s) && Run(kinds, prev, s, actions) && k < |After(kinds, prev, s, actions).threads|
    ensures var e := After(kinds, prev, s, actions);
            && Run(kinds, prev, e, more) && AllLucky(more)
            && var e' := After(kinds, prev, e, more);
               && |e'.threads| == |e.threads| && !UnderWay(e'.threads[k].phase)
               && var t, t' := e.threads[k], e'.threads[k];
                  if !UnderWay(t.phase) then t' == t
                  else if Doomed(e, t.phase.q) && t'.phase.Stop? then t'.waiting == t.waiting
                  else t'.phase.Idle? && t'.waiting == t.waiting + multiset{t.phase.q}
  {
    BeginsInv(kinds, s);
    RunKeeps(kinds, prev, s, actions);
    var e := After(kinds, prev, s, actions);
    assert AllSince(e.threads, e) && DoomsNone(e, e);
    more := WayOut(kinds, prev, e, e);
    var e' := After(kinds, prev, e, more);
    assert Since(e.threads[k], e'.threads[k], e'.files);
    if UnderWay(e.threads[k].phase) && e'.threads[k].phase.Stop? { assert Doomed(e', e.threads[k].phase.q); }
  }
}
