/**
 Sender threads settling on a protocol version after the receiver has refused theirs: a barrier, then a
 funnel (SenderThread.cpp, util/ThreadsController.cpp).  Threads interleave, and may end at any time
 outside; one step is one region under a lock, or one access to the state they share.
 */
module VersionBarrier {
  import opened Protocol

  datatype FunnelStatus = Start | Progress | End

  /** ProtoNegotiationStatus */
  datatype Negotiation = Wait | Resolved | Failed

  datatype Phase =
    | Working                 // outside
    | Entering                // knows of the mismatch, is to read the status
    | Arriving                // has read V_MISMATCH_WAIT, is to enter the barrier
    | Waiting                 // blocked in the barrier
    | Passed                  // is to look at the funnel
    | Elected                 // found the funnel untouched
    | Leading                 // has set V_MISMATCH_FAILED for the time being
    | Notifying(ok: bool)     // has settled the matter, is to open the funnel
    | Following               // waits in the funnel
    | Finished                // has seen the funnel open, is to read the status
    | Leaving                 // has ended, is to be deregistered
    | Left

  /** `arrived` records that the thread has been counted by the barrier. */
  datatype Thread = Thread(phase: Phase, negotiated: int, arrived: bool)

  /**
   `hits`, `numThreads` and `complete` are the barrier's.  `mismatch` is set while the abort code is
   VERSION_MISMATCH, `version` is what the threads outside speak, `leaders` counts the threads elected, and
   `crashed` is set when the leader's assertion on the agreed version has failed.
   */
  datatype Sys = Sys(threads: seq<Thread>, hits: int, numThreads: int, complete: bool, funnel: FunnelStatus,
                     status: Negotiation, mismatch: bool, version: int, leaders: nat, crashed: bool)

  datatype Action =
    | Mismatch(k: nat, v: int)      // the receiver refuses and proposes `v`
    | SeeAbort(k: nat)              // another thread was refused
    | Quit(k: nat)
    | Enter(k: nat)
    | Arrive(k: nat)
    | Clear(k: nat)
    | LookAtFunnel(k: nat)
    | SetFailed(k: nat)
    | Settle(k: nat, acked: bool)
    | NotifySuccess(k: nat)
    | WakeUp(k: nat)
    | Finish(k: nat)
    | DeRegister(k: nat)

  ghost predicate Enabled(s: Sys, a: Action) {
    a.k < |s.threads| && !s.crashed &&
    var p := s.threads[a.k].phase;
    match a
    case Mismatch(_, _) => p.Working?
    case SeeAbort(_) => p.Working? && s.mismatch
    case Quit(_) => p.Working? || p.Entering?
    case Enter(_) => p.Entering?
    case Arrive(_) => p.Arriving?
    case Clear(_) => p.Waiting? && s.complete
    case LookAtFunnel(_) => p.Passed?
    case SetFailed(_) => p.Elected?
    case Settle(_, _) => p.Leading?
    case NotifySuccess(_) => p.Notifying?
    case WakeUp(_) => p.Following?
    case Finish(_) => p.Finished?
    case DeRegister(_) => p.Leaving?
  }

  function Go(s: Sys, k: nat, p: Phase): Sys
    requires k < |s.threads|
  {
    s.(threads := s.threads[k := s.threads[k].(phase := p)])
  }

  /** Barrier::execute up to the wait. */
  function DoArrive(s: Sys, k: nat): Sys
    requires k < |s.threads|
  {
    var hits := s.hits + 1;
    var done := s.complete || hits == s.numThreads;
    s.(hits := hits, complete := done,
       threads := s.threads[k := s.threads[k].(phase := if done then Passed else Waiting, arrived := true)])
  }

  /** Barrier::deRegister */
  function DoDeRegister(s: Sys, k: nat): Sys
    requires k < |s.threads|
  {
    if s.complete then Go(s, k, Left)
    else Go(s.(numThreads := s.numThreads - 1, complete := s.hits == s.numThreads - 1), k, Left)
  }

  function DoLookAtFunnel(s: Sys, k: nat): Sys
    requires k < |s.threads|
  {
    match s.funnel
    case Start => Go(s.(funnel := Progress, leaders := s.leaders + 1), k, Elected)
    case Progress => Go(s, k, Following)
    case End => Go(s, k, Finished)
  }

  /** The versions the threads have been told of; threads that were told none hold no positive number. */
  function Told(ts: seq<Thread>): (r: seq<int>)
    ensures |r| == |ts| && forall i | 0 <= i < |ts| :: r[i] == ts[i].negotiated
  {
    seq(|ts|, i requires 0 <= i < |ts| => ts[i].negotiated)
  }

  /** Nobody was told another version. */
  ghost predicate AllTold(ts: seq<Thread>, v: int) {
    forall i | 0 <= i < |ts| && ts[i].negotiated > 0 :: ts[i].negotiated == v
  }

  ghost predicate Agree(list: seq<int>) {
    forall i, j | 0 <= i < |list| && 0 <= j < |list| && list[i] > 0 && list[j] > 0 :: list[i] == list[j]
  }

  function LastPositive(list: seq<int>): (v: int)
    ensures v >= 0
    ensures v > 0 <==> exists i :: 0 <= i < |list| && list[i] > 0
  {
    if list == [] then 0
    else
      var n := |list| - 1;
      assert forall i | 0 <= i < n :: list[i] == list[..n][i];
      if list[n] > 0 then list[n] else LastPositive(list[..n])
  }

  /** The leader's loop: the version all the threads have been told of that were told one. */
  method AgreedVersion(list: seq<int>) returns (ok: bool, version: int)
    ensures ok <==> Agree(list)
    ensures ok ==> version == LastPositive(list) && forall i | 0 <= i < |list| && list[i] > 0 :: list[i] == version
  {
    version := 0;
    for n := 0 to |list|
      invariant forall i | 0 <= i < n && list[i] > 0 :: list[i] == version
      invariant version > 0 ==> exists i :: 0 <= i < n && list[i] == version
      invariant version == LastPositive(list[..n])
    {
      assert list[..n + 1][..n] == list[..n];
      if list[n] > 0 {
        if version > 0 && version != list[n] {
          return false, version;
        }
        version := list[n];
      }
    }
    assert list[..|list|] == list;
    ok := true;
  }

  /** The sender speaks the version the receiver proposes. */
  predicate Supported(v: int, version: int) { NegotiateProtocol(v, version) == v }

  /** processAbortCmd: the abort code is set for everybody, whether or not the version will do. */
  function DoMismatch(s: Sys, k: nat, v: int): Sys
    requires k < |s.threads|
  {
    var t := s.threads[k];
    s.(mismatch := true,
       threads := s.threads[k := if Supported(v, s.version) then t.(phase := Entering, negotiated := v)
                                 else t.(phase := Leaving)])
  }

  /**
   From handleVersionMismatch to the notification.  With blocks acknowledged, or versions at odds, it fails;
   when nobody was told a version the assertion on it ends the process.
   */
  ghost function DoSettle(s: Sys, k: nat, acked: bool): Sys
    requires k < |s.threads|
  {
    if acked || !Agree(Told(s.threads)) then Go(s, k, Notifying(false))
    else if LastPositive(Told(s.threads)) == 0 then s.(crashed := true)
    else Go(s.(status := Resolved, mismatch := false, version := LastPositive(Told(s.threads))), k, Notifying(true))
  }

  ghost function Next(s: Sys, a: Action): Sys
    requires Enabled(s, a)
  {
    match a
    case Mismatch(k, v) => DoMismatch(s, k, v)
    case SeeAbort(k) => Go(s, k, Entering)
    case Quit(k) => Go(s, k, Leaving)
    case Enter(k) => Go(s, k, if s.status.Wait? then Arriving else Leaving)
    case Arrive(k) => DoArrive(s, k)
    case Clear(k) => Go(s, k, Passed)
    case LookAtFunnel(k) => DoLookAtFunnel(s, k)
    case SetFailed(k) => Go(s.(status := Failed), k, Leading)
    case Settle(k, acked) => DoSettle(s, k, acked)
    case NotifySuccess(k) => Go(s.(funnel := End), k, if s.threads[k].phase.ok then Working else Leaving)
    case WakeUp(k) => Go(s, k, Passed)
    case Finish(k) => Go(s, k, if s.status.Resolved? then Working else Leaving)
    case DeRegister(k) => DoDeRegister(s, k)
  }

  // ---------------------------------------------------------------- counting

  function Blocked(t: Thread): nat { if t.phase.Waiting? then 1 else 0 }

  function Gone(t: Thread): nat { if t.phase.Left? then 1 else 0 }

  function Sum(ts: seq<Thread>, f: Thread -> nat): nat { if ts == [] then 0 else f(ts[0]) + Sum(ts[1..], f) }

  lemma {:induction false} SumUpdate(ts: seq<Thread>, k: nat, t: Thread, f: Thread -> nat)
    requires k < |ts|
    ensures Sum(ts[k := t], f) == Sum(ts, f) - f(ts[k]) + f(t)
  {
    if k == 0 {
      assert ts[k := t][1..] == ts[1..];
    } else {
      assert ts[k := t][1..] == ts[1..][k - 1 := t];
      SumUpdate(ts[1..], k - 1, t, f);
    }
  }

  /** Everybody is blocked or gone when they are as many as there are threads. */
  lemma {:induction false} AllCounted(ts: seq<Thread>)
    ensures Sum(ts, Blocked) + Sum(ts, Gone) <= |ts|
    ensures Sum(ts, Blocked) + Sum(ts, Gone) == |ts| <==>
              forall i | 0 <= i < |ts| :: ts[i].phase.Waiting? || ts[i].phase.Left?
  {
    if ts != [] {
      AllCounted(ts[1..]);
      assert forall i | 1 <= i < |ts| :: ts[i] == ts[1..][i - 1];
      assert (forall i | 0 <= i < |ts[1..]| :: ts[1..][i].phase.Waiting? || ts[1..][i].phase.Left?)
        <==> (forall i | 1 <= i < |ts| :: ts[i].phase.Waiting? || ts[i].phase.Left?) by {
        forall i | 0 <= i < |ts[1..]| ensures ts[1..][i] == ts[i + 1] { }
      }
    }
  }

  // ---------------------------------------------------------------- invariant

  predicate Before(p: Phase) { p.Working? || p.Entering? || p.Arriving? || p.Leaving? }

  predicate Leads(p: Phase) { p.Elected? || p.Leading? || p.Notifying? }

  /** Until the barrier is complete nobody is past it, and it counts who is in it and who is gone. */
  ghost predicate BarrierOpen(s: Sys) {
    && s.hits == Sum(s.threads, Blocked) && s.numThreads == |s.threads| - Sum(s.threads, Gone) && s.hits < s.numThreads
    && s.status.Wait? && s.funnel.Start?
    && (forall k | 0 <= k < |s.threads| ::
          Before(s.threads[k].phase) || s.threads[k].phase.Waiting? || s.threads[k].phase.Left?)
    && (forall k | 0 <= k < |s.threads| :: s.threads[k].phase.Waiting? <==> s.threads[k].arrived)
  }

  /** What a thread may be doing once it is complete. */
  predicate PhaseOk(p: Phase, funnel: FunnelStatus, status: Negotiation) {
    match p
    case Working => status.Resolved? && !funnel.Start?
    case Entering => status.Resolved? && !funnel.Start?
    case Arriving => false
    case Waiting => true
    case Passed => true
    case Elected => status.Wait? && funnel.Progress?
    case Leading => status.Failed? && funnel.Progress?
    case Notifying(ok) => status == (if ok then Resolved else Failed) && funnel.Progress?
    case Following => !funnel.Start?
    case Finished => funnel.End?
    case Leaving => true
    case Left => true
  }

  ghost predicate BarrierClosed(s: Sys) {
    && s.hits <= s.numThreads
    && (forall k | 0 <= k < |s.threads| :: PhaseOk(s.threads[k].phase, s.funnel, s.status))
    && (forall k | 0 <= k < |s.threads| :: s.threads[k].arrived || s.threads[k].phase.Left?)
    && (s.funnel.Start? ==> s.status.Wait?) && (s.funnel.End? ==> !s.status.Wait?)
    && (s.funnel.Progress? ==> exists k :: 0 <= k < |s.threads| && Leads(s.threads[k].phase))
  }

  ghost predicate OneLeads(s: Sys) {
    && s.leaders == (if s.funnel.Start? then 0 else 1)
    && (forall j, k | 0 <= j < k < |s.threads| :: !(Leads(s.threads[j].phase) && Leads(s.threads[k].phase)))
  }

  ghost predicate Inv(s: Sys) {
    (if s.complete then BarrierClosed(s) else BarrierOpen(s)) && OneLeads(s)
  }

  // ---------------------------------------------------------------- the barrier is not complete yet

  /** A thread moves outside the barrier. */
  lemma OpenGo(s: Sys, k: nat, t: Thread, m: bool)
    requires !s.complete && Inv(s) && k < |s.threads|
    requires !s.threads[k].phase.Waiting? && !s.threads[k].phase.Left? && Before(t.phase)
    requires t.arrived == s.threads[k].arrived
    ensures Inv(s.(threads := s.threads[k := t], mismatch := m))
  {
    SumUpdate(s.threads, k, t, Blocked);
    SumUpdate(s.threads, k, t, Gone);
  }

  lemma OpenArrive(s: Sys, k: nat)
    requires !s.complete && Inv(s) && k < |s.threads| && s.threads[k].phase.Arriving?
    ensures Inv(DoArrive(s, k)) && s.hits + 1 <= s.numThreads
    ensures DoArrive(s, k).complete <==> OthersIn(s.threads, k)
  {
    var w := s.threads[k].(phase := Waiting, arrived := true);
    ArriveCounts(s.threads, k, w);
    if DoArrive(s, k).complete {
      LastArrives(s, k);
    } else {
      assert DoArrive(s, k).threads == s.threads[k := w];
    }
  }

  /** All but thread `k` wait or have left. */
  ghost predicate OthersIn(ts: seq<Thread>, k: nat) {
    forall j | 0 <= j < |ts| && j != k :: ts[j].phase.Waiting? || ts[j].phase.Left?
  }

  lemma ArriveCounts(ts: seq<Thread>, k: nat, w: Thread)
    requires k < |ts| && ts[k].phase.Arriving? && w.phase.Waiting?
    ensures Sum(ts[k := w], Blocked) == Sum(ts, Blocked) + 1 && Sum(ts[k := w], Gone) == Sum(ts, Gone)
    ensures Sum(ts, Blocked) + 1 + Sum(ts, Gone) <= |ts|
    ensures Sum(ts, Blocked) + 1 + Sum(ts, Gone) == |ts| <==> OthersIn(ts, k)
  {
    SumUpdate(ts, k, w, Blocked);
    SumUpdate(ts, k, w, Gone);
    AllCounted(ts[k := w]);
    forall j | 0 <= j < |ts| ensures j != k ==> ts[k := w][j] == ts[j] { }
  }

  lemma LastArrives(s: Sys, k: nat)
    requires !s.complete && Inv(s) && k < |s.threads| && s.threads[k].phase.Arriving? && DoArrive(s, k).complete
    requires OthersIn(s.threads, k) && s.hits + 1 <= s.numThreads
    ensures Inv(DoArrive(s, k))
  {
  }

  lemma OpenDeRegister(s: Sys, k: nat)
    requires !s.complete && Inv(s) && k < |s.threads| && s.threads[k].phase.Leaving?
    ensures Inv(DoDeRegister(s, k))
    ensures DoDeRegister(s, k).complete <==>
            forall j | 0 <= j < |s.threads| && j != k :: s.threads[j].phase.Waiting? || s.threads[j].phase.Left?
  {
    var g := s.threads[k].(phase := Left);
    var ts := s.threads[k := g];
    SumUpdate(s.threads, k, g, Blocked);
    SumUpdate(s.threads, k, g, Gone);
    AllCounted(ts);
    forall j | 0 <= j < |ts| ensures j != k ==> ts[j] == s.threads[j] { }
    if DoDeRegister(s, k).complete {
      assert forall j | 0 <= j < |ts| :: ts[j].phase.Waiting? || ts[j].phase.Left?;
    }
  }

  lemma OpenKeeps(s: Sys, a: Action)
    requires !s.complete && Inv(s) && Enabled(s, a)
    ensures Inv(Next(s, a))
  {
    var k := a.k;
    var t := s.threads[k];
    assert Before(t.phase) || t.phase.Waiting? || t.phase.Left?;
    if a.Arrive? {
      OpenArrive(s, k);
    } else if a.DeRegister? {
      OpenDeRegister(s, k);
    } else {
      OpenGo(s, k, Next(s, a).threads[k], Next(s, a).mismatch);
      assert Next(s, a) == s.(threads := s.threads[k := Next(s, a).threads[k]], mismatch := Next(s, a).mismatch);
    }
  }

  // ---------------------------------------------------------------- the barrier is complete

  /** A thread moves on, the funnel and the status stay. */
  lemma ClosedGo(s: Sys, k: nat, t: Thread, m: bool)
    requires s.complete && Inv(s) && k < |s.threads| && PhaseOk(t.phase, s.funnel, s.status)
    requires t.arrived == s.threads[k].arrived && (t.arrived || t.phase.Left?)
             && Leads(t.phase) == Leads(s.threads[k].phase)
    ensures Inv(s.(threads := s.threads[k := t], mismatch := m))
  {
    var s' := s.(threads := s.threads[k := t], mismatch := m);
    if s.funnel.Progress? {
      var j :| 0 <= j < |s.threads| && Leads(s.threads[j].phase);
      assert Leads(s'.threads[j].phase);
    }
  }

  /** The one thread that leads moves the others along. */
  lemma ClosedLead(s: Sys, s': Sys, k: nat)
    requires s.complete && Inv(s) && k < |s.threads|
    requires s'.complete && s'.hits == s.hits && s'.numThreads == s.numThreads
    requires |s'.threads| == |s.threads| && s'.threads == s.threads[k := s'.threads[k]]
    requires s'.threads[k].arrived && PhaseOk(s'.threads[k].phase, s'.funnel, s'.status)
    requires Leads(s.threads[k].phase) || (s.funnel.Start? && s.threads[k].phase.Passed?)
    requires s.funnel.Start? ==> s'.funnel.Progress? && s'.status.Wait?
    requires !s.funnel.Start? ==> !s.funnel.End? && !s'.funnel.Start? && (s.status.Resolved? ==> s'.status.Resolved?)
    requires s'.funnel.Progress? <==> Leads(s'.threads[k].phase)
    requires s'.funnel.End? ==> !s'.status.Wait?
    requires s'.leaders == 1
    ensures Inv(s')
  {
    forall j | 0 <= j < |s'.threads|
      ensures PhaseOk(s'.threads[j].phase, s'.funnel, s'.status)
      ensures j != k ==> !Leads(s'.threads[j].phase)
    {
      if j != k {
        assert s'.threads[j] == s.threads[j] && PhaseOk(s.threads[j].phase, s.funnel, s.status);
        assert !Leads(s.threads[j].phase);
      }
    }
  }

  lemma ClosedKeeps(s: Sys, a: Action)
    requires s.complete && Inv(s) && Enabled(s, a)
    ensures Inv(Next(s, a))
  {
    var k := a.k;
    var t := s.threads[k];
    assert PhaseOk(t.phase, s.funnel, s.status) && (t.arrived || t.phase.Left?);
    match a
    case Mismatch(_, v) => ClosedGo(s, k, DoMismatch(s, k, v).threads[k], true);
    case SeeAbort(_) => ClosedGo(s, k, t.(phase := Entering), s.mismatch);
    case Quit(_) => ClosedGo(s, k, t.(phase := Leaving), s.mismatch);
    case Enter(_) => ClosedGo(s, k, t.(phase := Leaving), s.mismatch);
    case Arrive(_) =>
    case Clear(_) => ClosedGo(s, k, t.(phase := Passed), s.mismatch);
    case LookAtFunnel(_) =>
      match s.funnel {
        case Start => ClosedLead(s, Next(s, a), k);
        case Progress => ClosedGo(s, k, t.(phase := Following), s.mismatch);
        case End => ClosedGo(s, k, t.(phase := Finished), s.mismatch);
      }
    case SetFailed(_) => ClosedLead(s, Next(s, a), k);
    case Settle(_, _) => if !Next(s, a).crashed { ClosedLead(s, Next(s, a), k); }
    case NotifySuccess(_) => ClosedLead(s, Next(s, a), k);
    case WakeUp(_) => ClosedGo(s, k, t.(phase := Passed), s.mismatch);
    case Finish(_) => ClosedGo(s, k, t.(phase := if s.status.Resolved? then Working else Leaving), s.mismatch);
    case DeRegister(_) => ClosedGo(s, k, t.(phase := Left), s.mismatch);
  }

  lemma StepKeeps(s: Sys, a: Action)
    requires Inv(s) && Enabled(s, a)
    ensures Inv(Next(s, a))
  {
    if s.complete {
      ClosedKeeps(s, a);
    } else {
      OpenKeeps(s, a);
    }
  }

  // ---------------------------------------------------------------- runs

  ghost predicate Begins(s: Sys) {
    && 0 < |s.threads| == s.numThreads
    && (forall k | 0 <= k < |s.threads| :: s.threads[k] == Thread(Working, -1, false))
    && s.hits == 0 && !s.complete && s.funnel.Start? && s.status.Wait? && s.leaders == 0
    && !s.mismatch && !s.crashed && s.version > 0
  }

  ghost predicate Run(s: Sys, actions: seq<Action>)
    decreases |actions|
  {
    actions == [] || (Enabled(s, actions[0]) && Run(Next(s, actions[0]), actions[1..]))
  }

  ghost function After(s: Sys, actions: seq<Action>): Sys
    requires Run(s, actions)
    decreases |actions|
  {
    if actions == [] then s else After(Next(s, actions[0]), actions[1..])
  }

  lemma {:induction false} NobodyCounted(ts: seq<Thread>)
    requires forall k | 0 <= k < |ts| :: ts[k].phase.Working?
    ensures Sum(ts, Blocked) == 0 && Sum(ts, Gone) == 0
  {
    if ts != [] {
      NobodyCounted(ts[1..]);
    }
  }

  lemma {:induction false} RunKeeps(s: Sys, actions: seq<Action>)
    requires Inv(s) && Run(s, actions)
    ensures Inv(After(s, actions))
    decreases |actions|
  {
    if actions != [] {
      StepKeeps(s, actions[0]);
      RunKeeps(Next(s, actions[0]), actions[1..]);
    }
  }

  lemma BeginsInv(s: Sys)
    requires Begins(s)
    ensures Inv(s)
  {
    NobodyCounted(s.threads);
  }

  lemma {:induction false} Reached(s: Sys, actions: seq<Action>)
    requires Begins(s) && Run(s, actions)
    ensures Inv(After(s, actions))
  {
    BeginsInv(s);
    RunKeeps(s, actions);
  }

  /** No thread is past the barrier before every thread has arrived or been deregistered. */
  lemma {:induction false} NobodyPassesEarly(s: Sys, actions: seq<Action>, k: nat, j: nat)
    requires Begins(s) && Run(s, actions)
    requires var e := After(s, actions); k < |e.threads| && e.threads[k].arrived && !e.threads[k].phase.Waiting?
    ensures var e := After(s, actions); j < |e.threads| ==> e.threads[j].arrived || e.threads[j].phase.Left?
  {
    Reached(s, actions);
  }

  /** ... and none is held there for nothing: while it is not complete, somebody is still on the way. */
  lemma BarrierNotStuck(s: Sys, actions: seq<Action>) returns (k: nat)
    requires Begins(s) && Run(s, actions) && !After(s, actions).complete
    ensures k < |After(s, actions).threads| && Before(After(s, actions).threads[k].phase)
  {
    Reached(s, actions);
    var e := After(s, actions);
    AllCounted(e.threads);
    k :| k < |e.threads| && !(e.threads[k].phase.Waiting? || e.threads[k].phase.Left?);
  }

  /** One thread leads through the funnel; whoever waits in it waits for a leader that is there. */
  lemma {:induction false} OneLeader(s: Sys, actions: seq<Action>, j: nat, k: nat)
    requires Begins(s) && Run(s, actions)
    ensures var e := After(s, actions);
            && e.leaders == (if e.funnel.Start? then 0 else 1)
            && (j < |e.threads| && k < |e.threads| && Leads(e.threads[j].phase) && Leads(e.threads[k].phase) ==> j == k)
            && (e.funnel.Progress? ==> exists i :: 0 <= i < |e.threads| && Leads(e.threads[i].phase))
  {
    Reached(s, actions);
  }

  /** The assertions of processVersionMismatch on the status, and those of the barrier, hold in every run. */
  lemma {:induction false} ChecksHold(s: Sys, actions: seq<Action>, k: nat)
    requires Begins(s) && Run(s, actions) && k < |After(s, actions).threads|
    ensures var e := After(s, actions);
            && (e.threads[k].phase.Entering? ==> !e.status.Failed?)
            && (e.threads[k].phase.Arriving? ==> !e.complete)
            && (e.threads[k].phase.Finished? ==> !e.status.Wait?)
            && e.hits <= e.numThreads
  {
    Reached(s, actions);
    var e := After(s, actions);
    if e.complete {
      assert PhaseOk(e.threads[k].phase, e.funnel, e.status);
    }
  }

  /**
   A leader resolves the matter exactly when nothing was acknowledged and all who were told a version were told
   the same.
   */
  lemma {:induction false} ResolvedIffAgreed(s: Sys, actions: seq<Action>, k: nat, acked: bool)
    requires Begins(s) && Run(s, actions) && Enabled(After(s, actions), Settle(k, acked))
    ensures var e := After(s, actions); var e' := Next(e, Settle(k, acked));
            && (e'.status.Resolved? <==> !acked && Agree(Told(e.threads)) && SomeTold(e.threads))
            && (e'.status.Resolved? ==> e'.version > 0 && AllTold(e.threads, e'.version))
            && (e'.crashed <==> !acked && !SomeTold(e.threads))
  {
    Reached(s, actions);
    var e := After(s, actions);
    assert PhaseOk(e.threads[k].phase, e.funnel, e.status);
    ToldPositive(e.threads);
    if Agree(Told(e.threads)) {
      forall i | 0 <= i < |e.threads| && e.threads[i].negotiated > 0
        ensures e.threads[i].negotiated == LastPositive(Told(e.threads))
      {
        assert Told(e.threads)[i] == e.threads[i].negotiated;
        AgreedIsLast(Told(e.threads), i);
      }
    }
  }

  ghost predicate SomeTold(ts: seq<Thread>) { exists i :: 0 <= i < |ts| && ts[i].negotiated > 0 }

  lemma ToldPositive(ts: seq<Thread>)
    ensures LastPositive(Told(ts)) > 0 <==> SomeTold(ts)
    ensures !SomeTold(ts) ==> Agree(Told(ts))
  {
    if SomeTold(ts) {
      var i :| 0 <= i < |ts| && ts[i].negotiated > 0;
      assert Told(ts)[i] > 0;
    }
  }

  lemma {:induction false} AgreedIsLast(list: seq<int>, i: nat)
    requires Agree(list) && i < |list| && list[i] > 0
    ensures LastPositive(list) == list[i]
  {
    var n := |list| - 1;
    if list[n] <= 0 {
      assert list[..n][i] == list[i];
      AgreedIsLast(list[..n], i);
    }
  }

  /** A resolved version is final: threads that come back with another mismatch end. */
  lemma {:induction false} ResolvedStays(s: Sys, actions: seq<Action>)
    requires Inv(s) && s.status.Resolved? && Run(s, actions)
    ensures After(s, actions).status.Resolved? && After(s, actions).version == s.version
    decreases |actions|
  {
    if actions != [] {
      var k := actions[0].k;
      assert s.complete && PhaseOk(s.threads[k].phase, s.funnel, s.status);
      StepKeeps(s, actions[0]);
      ResolvedStays(Next(s, actions[0]), actions[1..]);
    }
  }

  // ---------------------------------------------------------------- when the agreed version is there

  /** Some receiver proposes a version the sender speaks. */
  ghost predicate Proposed(actions: seq<Action>, version: int) {
    exists i :: 0 <= i < |actions| && actions[i].Mismatch? && actions[i].v > 0 && Supported(actions[i].v, version)
  }

  /** Until the matter is resolved nobody comes back, and nobody is under way without an abort. */
  ghost predicate FirstRound(s: Sys) {
    !s.status.Resolved? ==> forall k | 0 <= k < |s.threads| :: FirstTime(s.threads[k], s.mismatch)
  }
  predicate FirstTime(t: Thread, mismatch: bool) {
    && (t.phase.Working? ==> t.negotiated <= 0)
    && (t.phase.Working? || t.phase.Leaving? || t.phase.Left? || mismatch)
  }

  lemma MovedFirstTime(s: Sys, a: Action)
    requires Inv(s) && FirstRound(s) && Enabled(s, a) && !Next(s, a).status.Resolved?
    ensures !s.status.Resolved? && Next(s, a).version == s.version
            && (Next(s, a).mismatch <==> s.mismatch || a.Mismatch?)
    ensures |Next(s, a).threads| == |s.threads| && Next(s, a).threads == s.threads[a.k := Next(s, a).threads[a.k]]
    ensures FirstTime(Next(s, a).threads[a.k], Next(s, a).mismatch)
  {
    if s.complete {
      assert PhaseOk(s.threads[a.k].phase, s.funnel, s.status);
    }
  }

  lemma StepFirstRound(s: Sys, a: Action)
    requires Inv(s) && FirstRound(s) && Enabled(s, a) && !Next(s, a).status.Resolved?
    ensures FirstRound(Next(s, a)) && !s.status.Resolved? && Next(s, a).version == s.version
    ensures Next(s, a).mismatch <==> s.mismatch || a.Mismatch?
  {
    MovedFirstTime(s, a);
    var s' := Next(s, a);
    forall k | 0 <= k < |s'.threads| ensures FirstTime(s'.threads[k], s'.mismatch) {
      if k != a.k { assert FirstTime(s.threads[k], s.mismatch); }
    }
  }

  lemma StepNumbers(s: Sys, a: Action, i: nat)
    requires Enabled(s, a) && i < |s.threads|
    ensures |Next(s, a).threads| == |s.threads|
    ensures Next(s, a).threads[i].negotiated ==
            if a.Mismatch? && i == a.k && Supported(a.v, s.version) then a.v else s.threads[i].negotiated
  {
  }

  lemma StepTold(s: Sys, a: Action)
    requires FirstRound(s) && !s.status.Resolved? && Enabled(s, a)
    ensures SomeTold(Next(s, a).threads) <==>
            SomeTold(s.threads) || (a.Mismatch? && a.v > 0 && Supported(a.v, s.version))
  {
    var ts, ts' := s.threads, Next(s, a).threads;
    StepNumbers(s, a, a.k);
    if SomeTold(ts) {
      var i :| 0 <= i < |ts| && ts[i].negotiated > 0;
      StepNumbers(s, a, i);
      assert ts'[i].negotiated > 0;
    }
    if SomeTold(ts') {
      var i :| 0 <= i < |ts'| && ts'[i].negotiated > 0;
      StepNumbers(s, a, i);
      assert ts[i].negotiated > 0 || (a.Mismatch? && a.v > 0 && Supported(a.v, s.version));
    }
    if a.Mismatch? && a.v > 0 && Supported(a.v, s.version) {
      assert ts'[a.k].negotiated > 0;
    }
  }

  lemma {:induction false} ToldIffProposed(s: Sys, actions: seq<Action>)
    requires Inv(s) && FirstRound(s) && Run(s, actions) && !After(s, actions).status.Resolved?
    ensures FirstRound(After(s, actions))
    ensures SomeTold(After(s, actions).threads) <==> SomeTold(s.threads) || Proposed(actions, s.version)
    ensures After(s, actions).mismatch <==> s.mismatch || exists i :: 0 <= i < |actions| && actions[i].Mismatch?
    decreases |actions|
  {
    if actions != [] {
      var a, rest := actions[0], actions[1..];
      var s' := Next(s, a);
      StepKeeps(s, a);
      if s'.status.Resolved? {
        ResolvedStays(s', rest);
      }
      StepFirstRound(s, a);
      StepTold(s, a);
      ToldIffProposed(s', rest);
      assert forall i | 0 <= i < |rest| :: rest[i] == actions[i + 1];
      ProposedFirst(actions, s.version);
    }
  }

  lemma ProposedFirst(actions: seq<Action>, version: int)
    requires actions != []
    ensures var a := actions[0];
            Proposed(actions, version) <==>
              (a.Mismatch? && a.v > 0 && Supported(a.v, version)) || Proposed(actions[1..], version)
    ensures (exists i :: 0 <= i < |actions| && actions[i].Mismatch?) <==>
            actions[0].Mismatch? || exists i :: 0 <= i < |actions[1..]| && actions[1..][i].Mismatch?
  {
    var rest := actions[1..];
    if Proposed(actions, version) {
      var i :| 0 <= i < |actions| && actions[i].Mismatch? && actions[i].v > 0 && Supported(actions[i].v, version);
      assert i > 0 ==> rest[i - 1] == actions[i];
    }
    if Proposed(rest, version) {
      var i :| 0 <= i < |rest| && rest[i].Mismatch? && rest[i].v > 0 && Supported(rest[i].v, version);
      assert actions[i + 1] == rest[i];
    }
    if j :| 0 <= j < |actions| && actions[j].Mismatch? {
      assert j > 0 ==> rest[j - 1] == actions[j];
    }
    if j :| 0 <= j < |rest| && rest[j].Mismatch? {
      assert actions[j + 1] == rest[j];
    }
  }

  // ---------------------------------------------------------------- where the funnel leads

  /** A receiver has proposed `v`, and the sender speaks it. */
  ghost predicate Offers(a: Action, version: int, v: int) { a.Mismatch? && a.v == v && Supported(v, version) }
  ghost predicate Offered(actions: seq<Action>, version: int, v: int) {
    exists i :: 0 <= i < |actions| && Offers(actions[i], version, v)
  }
  ghost predicate Holds(ts: seq<Thread>, v: int) { exists i :: 0 <= i < |ts| && ts[i].negotiated == v }

  lemma StepHolds(s: Sys, a: Action, v: int)
    requires FirstRound(s) && !s.status.Resolved? && Enabled(s, a) && v > 0
    ensures Holds(Next(s, a).threads, v) <==> Holds(s.threads, v) || Offers(a, s.version, v)
  {
    var ts, ts' := s.threads, Next(s, a).threads;
    StepNumbers(s, a, a.k);
    if i :| 0 <= i < |ts| && ts[i].negotiated == v {
      StepNumbers(s, a, i);
      assert ts'[i].negotiated == v;
    }
    if i :| 0 <= i < |ts'| && ts'[i].negotiated == v {
      StepNumbers(s, a, i);
      assert ts[i].negotiated == v || Offers(a, s.version, v);
    }
    if Offers(a, s.version, v) {
      assert ts'[a.k].negotiated == v;
    }
  }

  lemma OfferedFirst(actions: seq<Action>, version: int, v: int)
    requires actions != []
    ensures Offered(actions, version, v) <==> Offers(actions[0], version, v) || Offered(actions[1..], version, v)
  {
    var rest := actions[1..];
    if i :| 0 <= i < |actions| && Offers(actions[i], version, v) {
      assert i > 0 ==> rest[i - 1] == actions[i];
    }
    if i :| 0 <= i < |rest| && Offers(rest[i], version, v) {
      assert actions[i + 1] == rest[i];
    }
  }

  /** Until the matter is resolved, the versions the threads hold are those offered. */
  lemma {:induction false} HeldIffOffered(s: Sys, actions: seq<Action>, v: int)
    requires Inv(s) && FirstRound(s) && Run(s, actions) && !After(s, actions).status.Resolved? && v > 0
    ensures Holds(After(s, actions).threads, v) <==> Holds(s.threads, v) || Offered(actions, s.version, v)
    decreases |actions|
  {
    if actions != [] {
      var a, rest := actions[0], actions[1..];
      var s' := Next(s, a);
      StepKeeps(s, a);
      if s'.status.Resolved? {
        ResolvedStays(s', rest);
      }
      StepFirstRound(s, a);
      StepHolds(s, a, v);
      HeldIffOffered(s', rest, v);
      OfferedFirst(actions, s.version, v);
    }
  }

  /** All versions offered are the same, and there is one. */
  ghost predicate OneOffered(actions: seq<Action>, version: int, v: int) {
    v > 0 && Offered(actions, version, v) && forall w | w > 0 && Offered(actions, version, w) :: w == v
  }

  /** A leader has settled the matter with nothing acknowledged, when all versions offered were `v`. */
  ghost predicate SettledAt(actions: seq<Action>, version: int, v: int, i: nat) {
    i < |actions| && actions[i].Settle? && !actions[i].acked && OneOffered(actions[..i], version, v)
  }
  ghost predicate SettledOn(actions: seq<Action>, version: int, v: int) {
    exists i: nat :: SettledAt(actions, version, v, i)
  }

  lemma {:induction false} RunOn(s: Sys, actions: seq<Action>, n: nat)
    requires Run(s, actions) && n < |actions|
    ensures Run(s, actions[..n]) && Enabled(After(s, actions[..n]), actions[n])
    ensures Run(s, actions[..n + 1]) && After(s, actions[..n + 1]) == Next(After(s, actions[..n]), actions[n])
    decreases |actions|
  {
    var a, rest := actions[0], actions[1..];
    assert actions[..n + 1][0] == a && actions[..n + 1][1..] == rest[..n];
    if n > 0 {
      RunOn(Next(s, a), rest, n - 1);
      assert actions[..n][0] == a && actions[..n][1..] == rest[..n - 1];
    }
  }

  /** The leader resolves the matter on the one version offered, if there is one and nothing was acknowledged. */
  lemma {:induction false} SettleResolves(s: Sys, actions: seq<Action>, k: nat, acked: bool)
    requires Begins(s) && Run(s, actions) && Enabled(After(s, actions), Settle(k, acked))
    ensures var e' := Next(After(s, actions), Settle(k, acked));
            && (e'.status.Resolved? ==> !acked && OneOffered(actions, s.version, e'.version))
            && (forall v :: !acked && OneOffered(actions, s.version, v) ==> e'.status.Resolved?)
  {
    Reached(s, actions);
    BeginsInv(s);
    var e, e' := After(s, actions), Next(After(s, actions), Settle(k, acked));
    assert PhaseOk(e.threads[k].phase, e.funnel, e.status);
    ResolvedIffAgreed(s, actions, k, acked);
    forall v | v > 0 ensures Holds(e.threads, v) <==> Offered(actions, s.version, v) {
      HeldIffOffered(s, actions, v);
    }
    ToldOne(e.threads);
    if e'.status.Resolved? {
      var i :| 0 <= i < |e.threads| && e.threads[i].negotiated > 0;
      assert Holds(e.threads, e'.version);
    }
    forall v | !acked && OneOffered(actions, s.version, v) ensures e'.status.Resolved? {
      assert Holds(e.threads, v);
    }
  }

  lemma ToldOne(ts: seq<Thread>)
    ensures Agree(Told(ts)) <==> forall v, w | v > 0 && w > 0 && Holds(ts, v) && Holds(ts, w) :: v == w
  {
    var list := Told(ts);
    if forall v, w | v > 0 && w > 0 && Holds(ts, v) && Holds(ts, w) :: v == w {
      forall i, j | 0 <= i < |list| && 0 <= j < |list| && list[i] > 0 && list[j] > 0 ensures list[i] == list[j] {
        assert Holds(ts, ts[i].negotiated) && Holds(ts, ts[j].negotiated);
      }
    }
    if Agree(list) {
      forall v, w | v > 0 && w > 0 && Holds(ts, v) && Holds(ts, w) ensures v == w {
        var i :| 0 <= i < |ts| && ts[i].negotiated == v;
        var j :| 0 <= j < |ts| && ts[j].negotiated == w;
        assert list[i] == v && list[j] == w;
      }
    }
  }

  /** Only settling resolves the matter, and nothing changes that. */
  lemma StepStatus(s: Sys, a: Action)
    requires Inv(s) && Enabled(s, a)
    ensures s.status.Resolved? ==> Next(s, a).status.Resolved? && Next(s, a).version == s.version
    ensures Next(s, a).status.Resolved? && !s.status.Resolved? ==> a.Settle?
    ensures s.status.Resolved? ==> !a.Settle?
  {
    if s.complete { assert PhaseOk(s.threads[a.k].phase, s.funnel, s.status); }
  }

  lemma {:induction false} SettledGrows(actions: seq<Action>, version: int, v: int)
    requires actions != []
    ensures var n := |actions| - 1;
            SettledOn(actions, version, v) <==> SettledOn(actions[..n], version, v) || SettledAt(actions, version, v, n)
  {
    var n := |actions| - 1;
    var front := actions[..n];
    if i: nat :| SettledAt(actions, version, v, i) {
      if i < n {
        assert front[..i] == actions[..i] && front[i] == actions[i];
        assert SettledAt(front, version, v, i);
      }
    }
    if i: nat :| SettledAt(front, version, v, i) {
      assert front[..i] == actions[..i] && front[i] == actions[i];
      assert SettledAt(actions, version, v, i);
    }
  }

  /** In every run the status says resolved exactly if a leader has settled the matter, and the version is that one. */
  lemma {:induction false} ResolvedIffSettled(s: Sys, actions: seq<Action>)
    requires Begins(s) && Run(s, actions)
    ensures var e := After(s, actions);
            && (e.status.Resolved? ==> SettledOn(actions, s.version, e.version))
            && (forall v | SettledOn(actions, s.version, v) :: e.status.Resolved? && e.version == v)
    decreases |actions|
  {
    if actions != [] {
      var n := |actions| - 1;
      var front, a := actions[..n], actions[n];
      assert actions[..n + 1] == actions;
      RunOn(s, actions, n);
      ResolvedIffSettled(s, front);
      Reached(s, front);
      StepStatus(After(s, front), a);
      forall v ensures SettledOn(actions, s.version, v) <==>
                         SettledOn(front, s.version, v) || SettledAt(actions, s.version, v, n)
      {
        SettledGrows(actions, s.version, v);
      }
      if a.Settle? { SettleResolves(s, front, a.k, a.acked); }
    }
  }

  /**
   Where a thread goes from the open funnel, in every run, be it the leader or a follower: back to work if and only if a
   leader has settled the matter, with nothing acknowledged and one version offered by then, and that is the version
   spoken from then on; or else it ends.  A thread refused once more after that ends too.
   */
  lemma {:induction false} FunnelLeadsOn(s: Sys, actions: seq<Action>, a: Action)
    requires Begins(s) && Run(s, actions) && Enabled(After(s, actions), a)
    ensures var e, e' := After(s, actions), Next(After(s, actions), a);
            var settled := exists v :: SettledOn(actions, s.version, v);
            && a.k < |e'.threads|
            && (e.threads[a.k].phase.Notifying? || e.threads[a.k].phase.Finished? ==>
                  && e'.funnel.End?
                  && e'.threads[a.k].phase == (if settled then Working else Leaving)
                  && (settled ==> SettledOn(actions, s.version, e'.version)))
            && (e.threads[a.k].phase.Entering? && settled ==> e'.threads[a.k].phase.Leaving?)
  {
    Reached(s, actions);
    ResolvedIffSettled(s, actions);
    var e := After(s, actions);
    if e.complete { assert PhaseOk(e.threads[a.k].phase, e.funnel, e.status); }
  }

  /**
   The leader's last assertion, that there is an agreed version, fails if and only if no receiver has proposed one
   the sender speaks: a receiver too old is enough to bring the others in.
   */
  lemma {:induction false} CrashIffNoneProposed(s: Sys, actions: seq<Action>, k: nat)
    requires Begins(s) && Run(s, actions) && Enabled(After(s, actions), Settle(k, false))
    ensures Next(After(s, actions), Settle(k, false)).crashed <==> !Proposed(actions, s.version)
  {
    BeginsInv(s);
    Reached(s, actions);
    var e := After(s, actions);
    assert PhaseOk(e.threads[k].phase, e.funnel, e.status);
    ToldIffProposed(s, actions);
    ResolvedIffAgreed(s, actions, k, false);
  }

  ghost predicate Refused(actions: seq<Action>) { exists i :: 0 <= i < |actions| && actions[i].Mismatch? }

  /** Once the matter is resolved only another refusal sets the abort code. */
  lemma {:induction false} AbortBy(s: Sys, actions: seq<Action>)
    requires Inv(s) && s.status.Resolved? && Run(s, actions)
    ensures After(s, actions).mismatch <==> s.mismatch || Refused(actions)
    decreases |actions|
  {
    if actions != [] {
      var a, rest := actions[0], actions[1..];
      StepKeeps(s, a);
      StepStatus(s, a);
      AbortBy(Next(s, a), rest);
      ProposedFirst(actions, s.version);
    }
  }

  lemma {:induction false} RunSplits(s: Sys, actions: seq<Action>, n: nat)
    requires Run(s, actions) && n <= |actions|
    ensures Run(s, actions[..n]) && Run(After(s, actions[..n]), actions[n..])
    ensures After(After(s, actions[..n]), actions[n..]) == After(s, actions)
    decreases |actions|
  {
    if n > 0 {
      RunSplits(Next(s, actions[0]), actions[1..], n - 1);
      assert actions[..n][0] == actions[0] && actions[..n][1..] == actions[1..][..n - 1];
      assert actions[1..][n - 1..] == actions[n..];
    } else {
      assert actions[0..] == actions;
    }
  }

  /** In every run, settling the matter clears the abort code; after that it is set only by another refusal. */
  lemma {:induction false} AbortCleared(s: Sys, actions: seq<Action>, v: int, i: nat)
    requires Begins(s) && Run(s, actions) && SettledAt(actions, s.version, v, i)
    ensures After(s, actions).mismatch <==> Refused(actions[i + 1..])
  {
    RunOn(s, actions, i);
    RunSplits(s, actions, i + 1);
    Reached(s, actions[..i]);
    Reached(s, actions[..i + 1]);
    SettleResolves(s, actions[..i], actions[i].k, actions[i].acked);
    AbortBy(After(s, actions[..i + 1]), actions[i + 1..]);
  }

  // ---------------------------------------------------------------- everybody gets out

  /** How far a thread is from being out; while `drawn`, those outside are drawn in. */
  function Way(drawn: bool): Thread -> nat {
    (t: Thread) =>
      match t.phase
      case Working => if drawn then 12 else 0
      case Entering => 11
      case Arriving => 10
      case Waiting => 9
      case Following => 8
      case Passed => 7
      case Elected => 6
      case Leading => 5
      case Notifying(_) => 4
      case Finished => 3
      case Leaving => 1
      case Left => 0
  }
  predicate Drawn(s: Sys) { !s.complete && s.mismatch }
  function Distance(s: Sys): nat { Sum(s.threads, Way(Drawn(s))) }

  ghost predicate Out(s: Sys) {
    s.crashed || forall k | 0 <= k < |s.threads| :: s.threads[k].phase.Working? || s.threads[k].phase.Left?
  }

  lemma {:induction false} SumLess(ts: seq<Thread>, f: Thread -> nat, g: Thread -> nat)
    requires forall t :: f(t) <= g(t)
    ensures Sum(ts, f) <= Sum(ts, g)
  {
    if ts != [] { SumLess(ts[1..], f, g); }
  }

  /** One thread gets closer, and nobody is drawn in who was not before. */
  lemma Closer(s: Sys, s': Sys, k: nat)
    requires k < |s.threads| == |s'.threads| && s'.threads == s.threads[k := s'.threads[k]] && (Drawn(s') ==> Drawn(s))
    requires Way(Drawn(s))(s'.threads[k]) < Way(Drawn(s))(s.threads[k])
    ensures Distance(s') < Distance(s)
  {
    SumUpdate(s.threads, k, s'.threads[k], Way(Drawn(s)));
    SumLess(s'.threads, Way(Drawn(s')), Way(Drawn(s)));
  }

  /** Steps that are nobody's fault. */
  predicate Ordinary(a: Action) { !a.Mismatch? && !a.Quit? }

  ghost predicate Helps(s: Sys, a: Action) {
    && Ordinary(a) && Enabled(s, a)
    && (Next(s, a).crashed || (a.k < |Next(s, a).threads| && Distance(Next(s, a)) < Distance(s)))
  }

  lemma HelpOpen(s: Sys, k: nat) returns (a: Action)
    requires Inv(s) && FirstRound(s) && !s.complete && !s.crashed
    requires k < |s.threads| && !s.threads[k].phase.Working? && !s.threads[k].phase.Left?
    ensures Helps(s, a)
  {
    var p := s.threads[k].phase;
    assert Before(p) || p.Waiting?;
    if p.Waiting? {
      var j := SomebodyBefore(s);
      a := if s.threads[j].phase.Working? then SeeAbort(j) else OpenMove(s.threads[j].phase, j);
    } else {
      a := OpenMove(p, k);
    }
    OpenCloser(s, a);
  }

  function OpenMove(p: Phase, k: nat): Action
    requires p.Entering? || p.Arriving? || p.Leaving?
  {
    if p.Entering? then Enter(k) else if p.Arriving? then Arrive(k) else DeRegister(k)
  }

  lemma SomebodyBefore(s: Sys) returns (j: nat)
    requires Inv(s) && !s.complete
    ensures j < |s.threads| && Before(s.threads[j].phase)
  {
    AllCounted(s.threads);
    j :| j < |s.threads| && !(s.threads[j].phase.Waiting? || s.threads[j].phase.Left?);
  }

  lemma OpenCloser(s: Sys, a: Action)
    requires Inv(s) && FirstRound(s) && !s.complete && Enabled(s, a)
    requires a.SeeAbort? || a.Enter? || a.Arrive? || a.DeRegister?
    ensures Helps(s, a)
  {
    Closer(s, Next(s, a), a.k);
  }

  lemma HelpClosed(s: Sys, k: nat) returns (a: Action)
    requires Inv(s) && s.complete && !s.crashed
    requires k < |s.threads| && !s.threads[k].phase.Working? && !s.threads[k].phase.Left?
    ensures Helps(s, a)
  {
    var j := k;
    if s.funnel.Progress? {
      j :| 0 <= j < |s.threads| && Leads(s.threads[j].phase);
    }
    assert PhaseOk(s.threads[j].phase, s.funnel, s.status);
    a := ClosedMove(s.threads[j].phase, j);
    ClosedCloser(s, a);
  }

  function ClosedMove(p: Phase, k: nat): Action
    requires !p.Working? && !p.Left? && !p.Arriving?
  {
    match p
    case Entering => Enter(k)
    case Waiting => Clear(k)
    case Passed => LookAtFunnel(k)
    case Elected => SetFailed(k)
    case Leading => Settle(k, false)
    case Notifying(_) => NotifySuccess(k)
    case Following => WakeUp(k)
    case Finished => Finish(k)
    case Leaving => DeRegister(k)
  }

  lemma ClosedCloser(s: Sys, a: Action)
    requires Inv(s) && s.complete && Enabled(s, a)
    requires !s.threads[a.k].phase.Working? && !s.threads[a.k].phase.Left? && !s.threads[a.k].phase.Arriving?
    requires a == ClosedMove(s.threads[a.k].phase, a.k)
    requires s.funnel.Progress? ==> Leads(s.threads[a.k].phase)
    ensures Helps(s, a)
  {
    assert PhaseOk(s.threads[a.k].phase, s.funnel, s.status);
    if !Next(s, a).crashed { Closer(s, Next(s, a), a.k); }
  }

  ghost predicate AllOrdinary(actions: seq<Action>) { forall i | 0 <= i < |actions| :: Ordinary(actions[i]) }

  lemma Help(s: Sys) returns (a: Action)
    requires Inv(s) && FirstRound(s) && !Out(s)
    ensures Helps(s, a)
  {
    var k :| 0 <= k < |s.threads| && !s.threads[k].phase.Working? && !s.threads[k].phase.Left?;
    if s.complete {
      a := HelpClosed(s, k);
    } else {
      a := HelpOpen(s, k);
    }
  }

  lemma {:induction false} WayOut(s: Sys) returns (more: seq<Action>)
    requires Inv(s) && FirstRound(s)
    ensures Run(s, more) && Out(After(s, more)) && AllOrdinary(more)
    decreases if s.crashed then 0 else 1, Distance(s)
  {
    more := [];
    if !Out(s) {
      var a := Help(s);
      StepKeeps(s, a);
      if !Next(s, a).status.Resolved? { StepFirstRound(s, a); }
      var rest := WayOut(Next(s, a));
      more := [a] + rest;
      assert more[0] == a && more[1..] == rest;
    }
  }

  lemma {:induction false} FirstRoundStays(s: Sys, actions: seq<Action>)
    requires Inv(s) && FirstRound(s) && Run(s, actions)
    ensures FirstRound(After(s, actions))
    decreases |actions|
  {
    if actions != [] {
      var s' := Next(s, actions[0]);
      StepKeeps(s, actions[0]);
      if !s'.status.Resolved? { StepFirstRound(s, actions[0]); }
      FirstRoundStays(s', actions[1..]);
    }
  }

  /**
   Nobody is stuck: from every moment of every run the threads under way can all get back to work or end, without
   another refusal and without anybody giving up, unless the leader's assertion fails.
   */
  lemma {:induction false} EverybodyGetsOut(s: Sys, actions: seq<Action>) returns (more: seq<Action>)
    requires Begins(s) && Run(s, actions)
    ensures Run(After(s, actions), more) && AllOrdinary(more) && Out(After(After(s, actions), more))
  {
    BeginsInv(s);
    Reached(s, actions);
    FirstRoundStays(s, actions);
    more := WayOut(After(s, actions));
  }

  /** What a receiver of some version from 10 on answers to a sender it refuses. */
  ghost predicate Answer(v: int, version: int) { exists r: int :: r >= 10 && v == NegotiateProtocol(version, r) }

  /** With receivers from version 10 on the assertion holds. */
  lemma {:induction false} NoCrash(s: Sys, actions: seq<Action>, k: nat)
    requires Begins(s) && s.version >= 10 && Run(s, actions) && Enabled(After(s, actions), Settle(k, false))
    requires forall i | 0 <= i < |actions| && actions[i].Mismatch? :: Answer(actions[i].v, s.version)
    ensures !Next(After(s, actions), Settle(k, false)).crashed
  {
    BeginsInv(s);
    Reached(s, actions);
    var e := After(s, actions);
    assert PhaseOk(e.threads[k].phase, e.funnel, e.status);
    ToldIffProposed(s, actions);
    assert e.mismatch;
    var i :| 0 <= i < |actions| && actions[i].Mismatch?;
    var r: int :| r >= 10 && actions[i].v == NegotiateProtocol(s.version, r);
    NegotiationSettles(s.version, r);
    CrashIffNoneProposed(s, actions, k);
  }

  /** Two threads and a receiver of version 9: the first ends, the second leads and finds no version. */
  function Old(i: nat): Sys
    requires i <= 8
  {
    var first := Thread(if i == 0 then Working else if i == 1 then Leaving else Left, -1, false);
    var second := Thread(if i < 3 then Working else if i == 3 then Entering else if i == 4 then Arriving
                         else if i == 5 then Passed else if i == 6 then Elected else Leading, -1, i >= 5);
    Sys([first, second], if i < 5 then 0 else 1, if i < 2 then 2 else 1, i >= 5, if i < 6 then Start else Progress,
        if i < 7 then Wait else Failed, i > 0, 30, if i < 6 then 0 else 1, i == 8)
  }

  function OldBy(i: nat): Action
    requires i < 8
  {
    if i == 0 then Mismatch(0, 9)
    else if i == 1 then DeRegister(0)
    else if i == 2 then SeeAbort(1)
    else if i == 3 then Enter(1)
    else if i == 4 then Arrive(1)
    else if i == 5 then LookAtFunnel(1)
    else if i == 6 then SetFailed(1)
    else Settle(1, false)
  }

  lemma OldStep(i: nat)
    requires i < 8
    ensures Enabled(Old(i), OldBy(i)) && Next(Old(i), OldBy(i)) == Old(i + 1)
  {
    if i == 7 {
      ToldPositive(Old(7).threads);
    } else {
      assert Next(Old(i), OldBy(i)).threads == Old(i + 1).threads;
    }
  }

  lemma {:induction false} OldRun(i: nat) returns (actions: seq<Action>)
    requires i <= 8
    ensures Run(Old(i), actions) && After(Old(i), actions) == Old(8)
    decreases 8 - i
  {
    actions := [];
    if i < 8 {
      OldStep(i);
      var rest := OldRun(i + 1);
      actions := [OldBy(i)] + rest;
      assert actions[0] == OldBy(i) && actions[1..] == rest;
    }
  }

  lemma OldReceiverCrashes() returns (s: Sys, actions: seq<Action>)
    ensures Begins(s) && Run(s, actions) && After(s, actions).crashed
  {
    s := Old(0);
    actions := OldRun(0);
  }
}
