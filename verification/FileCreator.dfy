/**
 Opening the files of a session in several receiver threads (util/FileCreator.cpp) and the log entries this
 brings (ReceiverThread.cpp, util/TransferLogManager.cpp).  Threads interleave; one step is one region
 under a lock, or work between two of them.
 */
module FileCreator {
  import opened Protocol

  /** What fileStatusMap_ holds for a file. */
  datatype Status = InProgress(who: nat) | Allocated | Failed

  datatype FunnelStatus = Start | Progress | End

  /** Where a receiver thread is with the block it has just got a header for. */
  datatype Phase =
    | Idle
    | Header(q: int)               // first into the funnel: is to write the log header
    | HeaderDone(q: int)           // has written it, is to open the funnel for everybody
    | Open(q: int)                 // openForBlocks
    | Allocate(q: int)             // openAndSetSize
    | Log(q: int)                  // has set the size, is to log it
    | Decide(q: int, ok: bool)     // is to record the outcome
    | Announce(q: int, ok: bool)   // has recorded it, is to notify
    | Check(q: int, who: nat)       // waitForAllocationFinish, about to take the mutex
    | Looked(q: int, who: nat)      // holds the mutex, has seen the allocation in progress
    | Sleep(q: int, who: nat)       // waits on the condition variable of the allocating thread
    | Write(q: int)                // has the file open
    | Stop

  /** `waiting` are the files of blocks received and not yet verified, `blocks` counts the verified. */
  datatype Thread = Thread(phase: Phase, waiting: multiset<int>, blocks: nat)

  datatype LogEntry = Creation(q: int) | Resize(q: int) | Invalidation(q: int) | BlockWrite(q: int)

  /**
   `logOpen` is fd_ >= 0 and `header` is headerWritten_; `started` counts the calls of openAndSetSize and
   `missed` are the files whose creation or resize entry was dropped because there was no header yet.
   */
  datatype Sys = Sys(threads: seq<Thread>, funnel: FunnelStatus, logOpen: bool, header: bool, files: map<int, Status>,
                     log: seq<LogEntry>, started: multiset<int>, missed: set<int>)

  datatype Action =
    | TakeBlock(k: nat, q: int)
    | WriteHeader(k: nat, ok: bool)
    | OpenFunnel(k: nat)
    | Lookup(k: nat, opens: bool)
    | SetSize(k: nat, ok: bool)
    | LogSize(k: nat)
    | SetStatus(k: nat)
    | Notify(k: nat)
    | Look(k: nat, opens: bool)
    | FallAsleep(k: nat)
    | WakeUp(k: nat)
    | Complete(k: nat)
    | Verify(k: nat, q: int)
    | BreakOff(k: nat)

  /** All blocks of a file come with the same allocation status. */
  type Kinds = int -> AllocationStatus

  predicate Creates(kinds: Kinds, q: int) { kinds(q) != EXISTS_CORRECT_SIZE && kinds(q) != TO_BE_DELETED }

  /** allocationMutex_ is held only between looking and falling asleep. */
  ghost predicate MutexFree(s: Sys) { forall j | 0 <= j < |s.threads| :: !s.threads[j].phase.Looked? }

  ghost predicate Enabled(s: Sys, a: Action) {
    a.k < |s.threads| &&
    var p := s.threads[a.k].phase;
    match a
    case TakeBlock(_, _) => p.Idle?
    case WriteHeader(_, _) => p.Header?
    case OpenFunnel(_) => p.HeaderDone?
    case Lookup(_, _) => p.Open?
    case SetSize(_, _) => p.Allocate?
    case LogSize(_) => p.Log?
    case SetStatus(_) => p.Decide?
    case Notify(_) => p.Announce? && MutexFree(s)
    case Look(_, _) => p.Check? && MutexFree(s)
    case FallAsleep(_) => p.Looked?
    case WakeUp(_) => p.Sleep?
    case Complete(_) => p.Write?
    case Verify(k, q) => q in s.threads[k].waiting
    case BreakOff(_) => p.Idle? || p.Write?
  }

  function Put(s: Sys, k: nat, t: Thread): Sys
    requires k < |s.threads|
  {
    s.(threads := s.threads[k := t])
  }

  function Go(s: Sys, k: nat, p: Phase): Sys
    requires k < |s.threads|
  {
    Put(s, k, s.threads[k].(phase := p))
  }

  /** The first block of a thread goes through the funnel; only the first thread stays there. */
  function DoTakeBlock(s: Sys, k: nat, q: int): Sys
    requires k < |s.threads|
  {
    if s.threads[k].blocks == 0 && s.funnel.Start? then Go(s.(funnel := Progress), k, Header(q)) else Go(s, k, Open(q))
  }

  function DoWriteHeader(s: Sys, k: nat, ok: bool): Sys
    requires k < |s.threads| && s.threads[k].phase.Header?
  {
    var s1 := if s.logOpen && ok then s.(header := true) else s.(logOpen := false);
    Go(s1, k, HeaderDone(s.threads[k].phase.q))
  }

  /** The first region of openForBlocks, and deleting a file. */
  function DoLookup(kinds: Kinds, s: Sys, k: nat, opens: bool): Sys
    requires k < |s.threads| && s.threads[k].phase.Open?
  {
    var t := s.threads[k];
    var q := t.phase.q;
    if kinds(q) == TO_BE_DELETED then Put(s, k, t.(phase := Idle, waiting := t.waiting + multiset{q}))
    else if q in s.files then
      match s.files[q]
      case InProgress(who) => Go(s, k, Check(q, who))
      case Allocated => Go(s, k, if opens then Write(q) else Stop)
      case Failed => Go(s, k, Stop)
    else if kinds(q) == EXISTS_CORRECT_SIZE then
      Go(s.(files := s.files[q := Allocated]), k, if opens then Write(q) else Stop)
    else Go(s.(files := s.files[q := InProgress(k)], started := s.started + multiset{q}), k, Allocate(q))
  }

  /** Sizing a file; when it was too large, what was received of it before is invalidated, with or without a header. */
  function DoSetSize(kinds: Kinds, prev: int -> int, s: Sys, k: nat, ok: bool): Sys
    requires k < |s.threads| && s.threads[k].phase.Allocate?
  {
    var q := s.threads[k].phase.q;
    if !ok then Go(s, k, Decide(q, false))
    else
      var e := if s.logOpen && kinds(q) == EXISTS_TOO_LARGE then [Invalidation(prev(q))] else [];
      Go(s.(log := s.log + e), k, Log(q))
  }

  /** The creation or resize entry is dropped when there is no header yet. */
  function DoLogSize(kinds: Kinds, s: Sys, k: nat): Sys
    requires k < |s.threads| && s.threads[k].phase.Log?
  {
    var q := s.threads[k].phase.q;
    var e := if kinds(q) == EXISTS_TOO_LARGE || kinds(q) == NOT_EXISTS then Creation(q) else Resize(q);
    if s.logOpen && s.header then Go(s.(log := s.log + [e]), k, Decide(q, true))
    else Go(s.(missed := s.missed + {q}), k, Decide(q, true))
  }

  function DoSetStatus(s: Sys, k: nat): Sys
    requires k < |s.threads| && s.threads[k].phase.Decide?
  {
    var p := s.threads[k].phase;
    Go(s.(files := s.files[p.q := if p.ok then Allocated else Failed]), k, Announce(p.q, p.ok))
  }

  /** Everybody who sleeps on the condition variable of thread `k` looks again. */
  function Woken(t: Thread, k: nat): Thread {
    if t.phase.Sleep? && t.phase.who == k then t.(phase := Check(t.phase.q, k)) else t
  }

  function DoNotify(s: Sys, k: nat): Sys
    requires k < |s.threads| && s.threads[k].phase.Announce?
  {
    var p := s.threads[k].phase;
    Go(s.(threads := seq(|s.threads|, i requires 0 <= i < |s.threads| => Woken(s.threads[i], k))), k,
       if p.ok then Write(p.q) else Stop)
  }

  function DoLook(s: Sys, k: nat, opens: bool): Sys
    requires k < |s.threads| && s.threads[k].phase.Check?
  {
    var p := s.threads[k].phase;
    if p.q !in s.files then s
    else match s.files[p.q]
      case Allocated => Go(s, k, if opens then Write(p.q) else Stop)
      case Failed => Go(s, k, Stop)
      case InProgress(_) => Go(s, k, Looked(p.q, p.who))
  }

  function DoComplete(s: Sys, k: nat): Sys
    requires k < |s.threads| && s.threads[k].phase.Write?
  {
    var t := s.threads[k];
    Put(s, k, t.(phase := Idle, waiting := t.waiting + multiset{t.phase.q}))
  }

  /** markBlockVerified */
  function DoVerify(kinds: Kinds, s: Sys, k: nat, q: int): Sys
    requires k < |s.threads|
  {
    var t := s.threads[k];
    var e := if !s.logOpen then [] else if kinds(q) == TO_BE_DELETED then [Invalidation(q)]
             else if s.header then [BlockWrite(q)] else [];
    Put(s.(log := s.log + e), k, t.(waiting := t.waiting - multiset{q}, blocks := t.blocks + 1))
  }

  ghost function Next(kinds: Kinds, prev: int -> int, s: Sys, a: Action): Sys
    requires Enabled(s, a)
  {
    match a
    case TakeBlock(k, q) => DoTakeBlock(s, k, q)
    case WriteHeader(k, ok) => DoWriteHeader(s, k, ok)
    case OpenFunnel(k) => Go(s.(funnel := End), k, Open(s.threads[k].phase.q))
    case Lookup(k, opens) => DoLookup(kinds, s, k, opens)
    case SetSize(k, ok) => DoSetSize(kinds, prev, s, k, ok)
    case LogSize(k) => DoLogSize(kinds, s, k)
    case SetStatus(k) => DoSetStatus(s, k)
    case Notify(k) => DoNotify(s, k)
    case Look(k, opens) => DoLook(s, k, opens)
    case FallAsleep(k) => Go(s, k, Sleep(s.threads[k].phase.q, s.threads[k].phase.who))
    case WakeUp(k) => Go(s, k, Check(s.threads[k].phase.q, s.threads[k].phase.who))
    case Complete(k) => DoComplete(s, k)
    case Verify(k, q) => DoVerify(kinds, s, k, q)
    case BreakOff(k) => Put(s, k, Thread(Idle, multiset{}, s.threads[k].blocks))
  }

  // ---------------------------------------------------------------- invariant

  predicate Is(files: map<int, Status>, q: int, st: Status) { q in files && files[q] == st }

  predicate Decided(files: map<int, Status>, q: int) { q in files && !files[q].InProgress? }

  predicate Works(p: Phase, q: int) { p == Allocate(q) || p == Log(q) || p == Decide(q, true) || p == Decide(q, false) }

  predicate Announces(p: Phase, q: int) { p.Announce? && p.q == q }

  /** A thread that has decided to sleep can still count on being notified. */
  predicate Awaited(files: map<int, Status>, threads: seq<Thread>, q: int, who: nat) {
    who < |threads| && (Is(files, q, InProgress(who)) || (Decided(files, q) && Announces(threads[who].phase, q)))
  }

  predicate PhaseOk(files: map<int, Status>, threads: seq<Thread>, k: nat, p: Phase) {
    match p
    case Idle => true
    case Header(_) => true
    case HeaderDone(_) => true
    case Open(_) => true
    case Stop => true
    case Allocate(q) => Is(files, q, InProgress(k))
    case Log(q) => Is(files, q, InProgress(k))
    case Decide(q, _) => Is(files, q, InProgress(k))
    case Announce(q, ok) => Is(files, q, if ok then Allocated else Failed)
    case Check(q, who) => Is(files, q, InProgress(who)) || Decided(files, q)
    case Looked(q, who) => Awaited(files, threads, q, who)
    case Sleep(q, who) => Awaited(files, threads, q, who)
    case Write(q) => Is(files, q, Allocated)
  }

  /** Every thread is where the map says, and whoever the map says allocates does. */
  ghost predicate Synced(files: map<int, Status>, ts: seq<Thread>) {
    && (forall k | 0 <= k < |ts| :: PhaseOk(files, ts, k, ts[k].phase))
    && (forall q: int :: q in files && files[q].InProgress? ==> files[q].who < |ts| && Works(ts[files[q].who].phase, q))
  }

  /** A file is allocated at most once in a session. */
  ghost predicate StartedOnce(s: Sys) { forall q: int :: s.started[q] <= 1 && (s.started[q] == 1 ==> q in s.files) }

  /** Blocks waiting for verification are of files that are there. */
  ghost predicate WaitingOk(kinds: Kinds, files: map<int, Status>, ts: seq<Thread>) {
    forall k, q: int | 0 <= k < |ts| && q in ts[k].waiting :: kinds(q) == TO_BE_DELETED || Is(files, q, Allocated)
  }

  /** The header is written by the one thread that found the funnel untouched. */
  ghost predicate FunnelOk(s: Sys) {
    && (s.header ==> !s.funnel.Start?)
    && (s.funnel.End? ==> s.header || !s.logOpen)
    && (forall k | 0 <= k < |s.threads| :: s.threads[k].phase.HeaderDone? ==> s.header || !s.logOpen)
    && (s.header || s.funnel.Start? ==> forall k | 0 <= k < |s.threads| :: !s.threads[k].phase.Header?)
    && (forall j, k | 0 <= j < k < |s.threads| :: !(s.threads[j].phase.Header? && s.threads[k].phase.Header?))
  }

  ghost predicate Logged(log: seq<LogEntry>, q: int) { Creation(q) in log || Resize(q) in log }

  /** openAndSetSize has come to its log entries. */
  predicate Sized(files: map<int, Status>, ts: seq<Thread>, q: int) {
    q in files && match files[q]
                  case Allocated => true
                  case Failed => false
                  case InProgress(who) => who < |ts| && ts[who].phase == Decide(q, true)
  }

  /** A file's entry is in the log exactly when it has been sized and was not missed. */
  ghost predicate EntryOk(s: Sys, q: int) {
    if Sized(s.files, s.threads, q) then Logged(s.log, q) <==> q !in s.missed
    else !Logged(s.log, q) && q !in s.missed
  }

  ghost predicate BlockOk(kinds: Kinds, s: Sys, i: nat)
    requires i < |s.log|
  {
    s.log[i].BlockWrite? && Creates(kinds, s.log[i].q) ==>
      Is(s.files, s.log[i].q, Allocated) && (Logged(s.log[..i], s.log[i].q) <==> s.log[i].q !in s.missed)
  }

  ghost predicate LogOk(kinds: Kinds, s: Sys) {
    && (forall q: int :: Creates(kinds, q) ==> EntryOk(s, q))
    && (forall i | 0 <= i < |s.log| :: BlockOk(kinds, s, i))
  }

  ghost predicate Inv(kinds: Kinds, s: Sys) {
    Synced(s.files, s.threads) && StartedOnce(s) && WaitingOk(kinds, s.files, s.threads) && FunnelOk(s)
    && LogOk(kinds, s)
  }

  // ---------------------------------------------------------------- threads and map stay in step

  predicate Busy(p: Phase) { p.Allocate? || p.Log? || p.Decide? || p.Announce? }

  predicate SameWork(p: Phase, p': Phase) {
    p == p' || !(Busy(p) || Busy(p'))
  }

  lemma PhaseKeeps(files: map<int, Status>, files': map<int, Status>, ts: seq<Thread>, ts': seq<Thread>, j: nat,
                   p: Phase)
    requires PhaseOk(files, ts, j, p) && |ts'| == |ts|
    requires forall q: int, st: Status :: Is(files, q, st) ==> Is(files', q, st)
    requires forall i, q | 0 <= i < |ts| :: Announces(ts[i].phase, q) ==> Announces(ts'[i].phase, q)
    ensures PhaseOk(files', ts', j, p)
  {
    match p
    case Idle => case Header(_) => case HeaderDone(_) => case Open(_) => case Stop =>
    case Allocate(q) => assert Is(files', q, InProgress(j));
    case Log(q) => assert Is(files', q, InProgress(j));
    case Decide(q, _) => assert Is(files', q, InProgress(j));
    case Announce(q, ok) => assert Is(files', q, if ok then Allocated else Failed);
    case Check(q, who) => assert Is(files', q, files[q]);
    case Looked(q, who) => assert Is(files', q, files[q]);
    case Sleep(q, who) => assert Is(files', q, files[q]);
    case Write(q) => assert Is(files', q, Allocated);
  }

  /** A step that leaves the map alone and neither starts nor ends allocating or announcing. */
  lemma GoSyncs(files: map<int, Status>, ts: seq<Thread>, k: nat, t: Thread)
    requires Synced(files, ts) && k < |ts| && PhaseOk(files, ts, k, t.phase) && SameWork(ts[k].phase, t.phase)
    ensures Synced(files, ts[k := t])
  {
    var ts' := ts[k := t];
    forall j | 0 <= j < |ts'| ensures PhaseOk(files, ts', j, ts'[j].phase) {
      PhaseKeeps(files, files, ts, ts', j, ts'[j].phase);
    }
  }

  /** A file enters the map. */
  lemma InsertSyncs(files: map<int, Status>, ts: seq<Thread>, k: nat, q: int, st: Status, t: Thread)
    requires Synced(files, ts) && k < |ts| && ts[k].phase.Open? && q !in files
    requires (st == InProgress(k) && t.phase == Allocate(q))
             || (st == Allocated && (t.phase == Write(q) || t.phase.Stop?))
    ensures Synced(files[q := st], ts[k := t])
  {
    var ts', files' := ts[k := t], files[q := st];
    forall j | 0 <= j < |ts'| ensures PhaseOk(files', ts', j, ts'[j].phase) {
      if j != k {
        PhaseKeeps(files, files', ts, ts', j, ts[j].phase);
      }
    }
    forall r: int | r in files' && files'[r].InProgress?
      ensures files'[r].who < |ts'| && Works(ts'[files'[r].who].phase, r)
    {
      if r != q {
        assert !Works(ts[k].phase, r);
      }
    }
  }

  /** The file system has answered. */
  lemma SizedSyncs(files: map<int, Status>, ts: seq<Thread>, k: nat, t: Thread)
    requires Synced(files, ts) && k < |ts| && (ts[k].phase.Allocate? || ts[k].phase.Log?)
    requires (t.phase.Log? || t.phase.Decide?) && t.phase.q == ts[k].phase.q
    ensures Synced(files, ts[k := t])
  {
    var ts' := ts[k := t];
    forall j | 0 <= j < |ts'| ensures PhaseOk(files, ts', j, ts'[j].phase) {
      if j != k {
        PhaseKeeps(files, files, ts, ts', j, ts[j].phase);
      } else {
        assert PhaseOk(files, ts, k, ts[k].phase);
      }
    }
  }

  /** The outcome is recorded: whoever waits for it now waits for the notification. */
  lemma StatusSyncs(files: map<int, Status>, ts: seq<Thread>, k: nat, t: Thread)
    requires Synced(files, ts) && k < |ts| && ts[k].phase.Decide?
    requires t.phase == Announce(ts[k].phase.q, ts[k].phase.ok)
    ensures Synced(files[t.phase.q := if t.phase.ok then Allocated else Failed], ts[k := t])
  {
    var q := t.phase.q;
    var ts', files' := ts[k := t], files[q := if t.phase.ok then Allocated else Failed];
    assert PhaseOk(files, ts, k, ts[k].phase);
    forall j | 0 <= j < |ts'| ensures PhaseOk(files', ts', j, ts'[j].phase) {
      assert PhaseOk(files, ts, j, ts[j].phase);
      if j != k {
        RecordedPhase(files, ts, k, t, j);
      }
    }
    forall r: int | r in files' && files'[r].InProgress?
      ensures files'[r].who < |ts'| && Works(ts'[files'[r].who].phase, r)
    {
      assert r != q && Works(ts[files[r].who].phase, r);
    }
  }

  lemma RecordedPhase(files: map<int, Status>, ts: seq<Thread>, k: nat, t: Thread, j: nat)
    requires k < |ts| && ts[k].phase.Decide? && t.phase == Announce(ts[k].phase.q, ts[k].phase.ok)
    requires Is(files, t.phase.q, InProgress(k)) && j < |ts| && j != k && PhaseOk(files, ts, j, ts[j].phase)
    ensures PhaseOk(files[t.phase.q := if t.phase.ok then Allocated else Failed], ts[k := t], j, ts[j].phase)
  {
    match ts[j].phase
    case Idle => case Header(_) => case HeaderDone(_) => case Open(_) => case Stop =>
    case Allocate(q) => case Log(q) => case Decide(q, _) => case Announce(q, ok) => case Check(q, who) =>
    case Looked(q, who) => case Sleep(q, who) => case Write(q) =>
  }

  /** After the notification nobody sleeps on that condition variable any more. */
  lemma NotifySyncs(files: map<int, Status>, ts: seq<Thread>, ts': seq<Thread>, k: nat)
    requires Synced(files, ts) && k < |ts| && ts[k].phase.Announce? && |ts'| == |ts|
    requires forall j | 0 <= j < |ts| :: !ts[j].phase.Looked?
    requires forall j | 0 <= j < |ts| && j != k :: ts'[j] == Woken(ts[j], k)
    requires ts'[k].phase == if ts[k].phase.ok then Write(ts[k].phase.q) else Stop
    ensures Synced(files, ts')
  {
    assert PhaseOk(files, ts, k, ts[k].phase);
    forall j | 0 <= j < |ts'| ensures PhaseOk(files, ts', j, ts'[j].phase) {
      if j != k {
        assert PhaseOk(files, ts, j, ts[j].phase);
        WokenPhase(files, ts, ts', k, j);
      }
    }
    forall q: int | q in files && files[q].InProgress?
      ensures files[q].who < |ts'| && Works(ts'[files[q].who].phase, q)
    {
      assert Works(ts[files[q].who].phase, q);
    }
  }

  lemma WokenPhase(files: map<int, Status>, ts: seq<Thread>, ts': seq<Thread>, k: nat, j: nat)
    requires k < |ts| && |ts'| == |ts| && j < |ts| && j != k && PhaseOk(files, ts, j, ts[j].phase)
             && !ts[j].phase.Looked?
    requires forall i | 0 <= i < |ts| && i != k :: ts'[i] == Woken(ts[i], k)
    ensures PhaseOk(files, ts', j, ts'[j].phase)
  {
    match ts[j].phase
    case Idle => case Header(_) => case HeaderDone(_) => case Open(_) => case Stop =>
    case Allocate(q) => case Log(q) => case Decide(q, _) => case Announce(q, ok) => case Check(q, who) =>
    case Looked(q, who) => case Write(q) =>
    case Sleep(q, who) =>
      if who != k {
        assert ts'[who] == Woken(ts[who], k);
      }
  }

  lemma LookupSyncs(kinds: Kinds, s: Sys, k: nat, opens: bool)
    requires Synced(s.files, s.threads) && k < |s.threads| && s.threads[k].phase.Open?
    ensures var s' := DoLookup(kinds, s, k, opens); Synced(s'.files, s'.threads)
  {
    var q := s.threads[k].phase.q;
    var s' := DoLookup(kinds, s, k, opens);
    if q in s.files || kinds(q) == TO_BE_DELETED {
      GoSyncs(s.files, s.threads, k, s'.threads[k]);
    } else {
      InsertSyncs(s.files, s.threads, k, q, s'.files[q], s'.threads[k]);
    }
  }

  lemma LookSyncs(s: Sys, k: nat, opens: bool)
    requires Synced(s.files, s.threads) && k < |s.threads| && s.threads[k].phase.Check?
    ensures var s' := DoLook(s, k, opens); Synced(s'.files, s'.threads)
  {
    assert PhaseOk(s.files, s.threads, k, s.threads[k].phase);
    GoSyncs(s.files, s.threads, k, DoLook(s, k, opens).threads[k]);
  }

  /** The actions that only move one thread on. */
  predicate Simple(a: Action) {
    a.TakeBlock? || a.WriteHeader? || a.OpenFunnel? || a.FallAsleep? || a.WakeUp? || a.Complete? || a.Verify?
    || a.BreakOff?
  }

  /** What they make of the thread. */
  function Moved(s: Sys, a: Action): Thread
    requires a.k < |s.threads| && Enabled(s, a) && Simple(a)
  {
    var t := s.threads[a.k];
    match a
    case TakeBlock(k, q) => t.(phase := if t.blocks == 0 && s.funnel.Start? then Header(q) else Open(q))
    case WriteHeader(k, _) => t.(phase := HeaderDone(t.phase.q))
    case OpenFunnel(k) => t.(phase := Open(t.phase.q))
    case FallAsleep(k) => t.(phase := Sleep(t.phase.q, t.phase.who))
    case WakeUp(k) => t.(phase := Check(t.phase.q, t.phase.who))
    case Complete(k) => t.(phase := Idle, waiting := t.waiting + multiset{t.phase.q})
    case Verify(k, q) => t.(waiting := t.waiting - multiset{q}, blocks := t.blocks + 1)
    case _ => Thread(Idle, multiset{}, t.blocks)
  }

  lemma SimpleShape(kinds: Kinds, prev: int -> int, s: Sys, a: Action)
    requires Enabled(s, a) && Simple(a)
    ensures var s' := Next(kinds, prev, s, a); s'.files == s.files && s'.threads == s.threads[a.k := Moved(s, a)]
    ensures Next(kinds, prev, s, a).started == s.started && Next(kinds, prev, s, a).missed == s.missed
  {
    match a {
      case TakeBlock(k, q) =>
      case WriteHeader(k, ok) =>
      case OpenFunnel(k) =>
      case FallAsleep(k) =>
      case WakeUp(k) =>
      case Complete(k) =>
      case Verify(k, q) =>
      case BreakOff(k) =>
    }
  }

  lemma SimpleMoves(s: Sys, a: Action)
    requires Synced(s.files, s.threads) && Enabled(s, a) && Simple(a)
    ensures PhaseOk(s.files, s.threads, a.k, Moved(s, a).phase) && SameWork(s.threads[a.k].phase, Moved(s, a).phase)
  {
    assert PhaseOk(s.files, s.threads, a.k, s.threads[a.k].phase);
  }

  /** The other actions move their thread on, and notifying wakes sleepers. */
  lemma OthersMoved(kinds: Kinds, prev: int -> int, s: Sys, a: Action, j: nat)
    requires Enabled(s, a) && !Simple(a) && j < |s.threads|
    ensures var s' := Next(kinds, prev, s, a);
            && |s'.threads| == |s.threads|
            && (j != a.k ==> s'.threads[j] == if a.Notify? then Woken(s.threads[j], a.k) else s.threads[j])
  {
  }

  lemma OtherMoved(kinds: Kinds, prev: int -> int, s: Sys, a: Action)
    requires Enabled(s, a) && !Simple(a)
    ensures a.k < |Next(kinds, prev, s, a).threads|
    ensures var t, t' := s.threads[a.k], Next(kinds, prev, s, a).threads[a.k];
            && !t'.phase.Header? && !t'.phase.HeaderDone?
            && (t'.waiting == t.waiting
                || (a.Lookup? && kinds(t.phase.q) == TO_BE_DELETED && t'.waiting == t.waiting + multiset{t.phase.q}))
  {
    match a
    case Lookup(k, opens) => LookupMoved(kinds, s, k, opens);
    case SetSize(k, ok) =>
    case LogSize(k) =>
    case SetStatus(k) =>
    case Notify(k) => NotifyMoved(s, k);
    case Look(k, opens) =>
  }

  lemma LookupMoved(kinds: Kinds, s: Sys, k: nat, opens: bool)
    requires k < |s.threads| && s.threads[k].phase.Open?
    ensures var t, s' := s.threads[k], DoLookup(kinds, s, k, opens);
            && |s'.threads| == |s.threads| && !s'.threads[k].phase.Header? && !s'.threads[k].phase.HeaderDone?
            && s'.threads[k].waiting ==
               if kinds(t.phase.q) == TO_BE_DELETED then t.waiting + multiset{t.phase.q} else t.waiting
  {
  }

  lemma NotifyMoved(s: Sys, k: nat)
    requires k < |s.threads| && s.threads[k].phase.Announce?
    ensures var t, s' := s.threads[k], DoNotify(s, k);
            && |s'.threads| == |s.threads| && !s'.threads[k].phase.Header? && !s'.threads[k].phase.HeaderDone?
            && s'.threads[k].waiting == t.waiting
  {
  }

  lemma StepSyncs(kinds: Kinds, prev: int -> int, s: Sys, a: Action)
    requires Synced(s.files, s.threads) && Enabled(s, a)
    ensures var s' := Next(kinds, prev, s, a); Synced(s'.files, s'.threads)
  {
    if Simple(a) {
      SimpleShape(kinds, prev, s, a);
      SimpleMoves(s, a);
      GoSyncs(s.files, s.threads, a.k, Moved(s, a));
    } else if a.Lookup? {
      LookupSyncs(kinds, s, a.k, a.opens);
    } else if a.SetSize? {
      SizedSyncs(s.files, s.threads, a.k, DoSetSize(kinds, prev, s, a.k, a.ok).threads[a.k]);
    } else if a.LogSize? {
      SizedSyncs(s.files, s.threads, a.k, DoLogSize(kinds, s, a.k).threads[a.k]);
    } else if a.SetStatus? {
      StatusSyncs(s.files, s.threads, a.k, DoSetStatus(s, a.k).threads[a.k]);
    } else if a.Notify? {
      NotifySyncs(s.files, s.threads, DoNotify(s, a.k).threads, a.k);
    } else {
      LookSyncs(s, a.k, a.opens);
    }
  }

  // ---------------------------------------------------------------- once per session

  /** The map only grows, and what is decided stays. */
  lemma StepGrows(kinds: Kinds, prev: int -> int, s: Sys, a: Action, q: int)
    requires Enabled(s, a)
    ensures var s' := Next(kinds, prev, s, a); q in s.files ==> q in s'.files
    ensures Synced(s.files, s.threads) && Decided(s.files, q) ==> Is(Next(kinds, prev, s, a).files, q, s.files[q])
  {
    if Simple(a) {
      SimpleShape(kinds, prev, s, a);
    } else if Synced(s.files, s.threads) {
      assert PhaseOk(s.files, s.threads, a.k, s.threads[a.k].phase);
    }
  }

  lemma StepStartsOnce(kinds: Kinds, prev: int -> int, s: Sys, a: Action)
    requires StartedOnce(s) && Enabled(s, a)
    ensures StartedOnce(Next(kinds, prev, s, a))
  {
    var s' := Next(kinds, prev, s, a);
    forall q: int ensures s'.started[q] <= 1 && (s'.started[q] == 1 ==> q in s'.files) {
      StepGrows(kinds, prev, s, a, q);
      if Simple(a) {
        SimpleShape(kinds, prev, s, a);
      }
    }
  }

  lemma StepWaits(kinds: Kinds, prev: int -> int, s: Sys, a: Action)
    requires Synced(s.files, s.threads) && WaitingOk(kinds, s.files, s.threads) && Enabled(s, a)
    ensures var s' := Next(kinds, prev, s, a); WaitingOk(kinds, s'.files, s'.threads)
  {
    var s' := Next(kinds, prev, s, a);
    forall k, q: int | 0 <= k < |s'.threads| && q in s'.threads[k].waiting
      ensures kinds(q) == TO_BE_DELETED || Is(s'.files, q, Allocated)
    {
      StepGrows(kinds, prev, s, a, q);
      StepWaiting(kinds, prev, s, a, k, q);
    }
  }

  lemma StepWaiting(kinds: Kinds, prev: int -> int, s: Sys, a: Action, k: nat, q: int)
    requires Synced(s.files, s.threads) && WaitingOk(kinds, s.files, s.threads) && Enabled(s, a)
    requires k < |Next(kinds, prev, s, a).threads| && q in Next(kinds, prev, s, a).threads[k].waiting
    ensures kinds(q) == TO_BE_DELETED || Is(s.files, q, Allocated)
  {
    if Simple(a) {
      SimpleShape(kinds, prev, s, a);
      assert PhaseOk(s.files, s.threads, a.k, s.threads[a.k].phase);
      if k == a.k {
        MovedWaiting(s, a, q);
      }
    } else {
      assert k < |s.threads|;
      OtherWaiting(kinds, prev, s, a, k, q);
    }
  }

  lemma MovedWaiting(s: Sys, a: Action, q: int)
    requires Enabled(s, a) && Simple(a) && q in Moved(s, a).waiting
    ensures q in s.threads[a.k].waiting || (a.Complete? && q == s.threads[a.k].phase.q)
  {
  }

  lemma OtherWaiting(kinds: Kinds, prev: int -> int, s: Sys, a: Action, k: nat, q: int)
    requires Enabled(s, a) && !Simple(a) && k < |s.threads| && q in Next(kinds, prev, s, a).threads[k].waiting
    ensures q in s.threads[k].waiting || kinds(q) == TO_BE_DELETED
  {
    OthersMoved(kinds, prev, s, a, k);
    OtherMoved(kinds, prev, s, a);
  }

  // ---------------------------------------------------------------- the funnel

  lemma FunnelShape(kinds: Kinds, prev: int -> int, s: Sys, a: Action)
    requires Enabled(s, a)
    ensures var s' := Next(kinds, prev, s, a);
            && |s'.threads| == |s.threads|
            && (s'.header <==> s.header || (a.WriteHeader? && a.ok && s.logOpen))
            && (s'.logOpen <==> s.logOpen && !(a.WriteHeader? && !a.ok))
            && (s'.funnel.Start? ==> s.funnel.Start? && !(a.TakeBlock? && s.threads[a.k].blocks == 0))
            && (s'.funnel.End? ==> s.funnel.End? || a.OpenFunnel?)
  {
    if Simple(a) {
      SimpleShape(kinds, prev, s, a);
      SimpleFunnel(kinds, prev, s, a);
    } else {
      OthersMoved(kinds, prev, s, a, a.k);
      OtherFunnel(kinds, prev, s, a);
    }
  }

  lemma SimpleFunnel(kinds: Kinds, prev: int -> int, s: Sys, a: Action)
    requires Enabled(s, a) && Simple(a)
    ensures var s' := Next(kinds, prev, s, a);
            && (s'.header <==> s.header || (a.WriteHeader? && a.ok && s.logOpen))
            && (s'.logOpen <==> s.logOpen && !(a.WriteHeader? && !a.ok))
            && (s'.funnel.Start? ==> s.funnel.Start? && !(a.TakeBlock? && s.threads[a.k].blocks == 0))
            && (s'.funnel.End? ==> s.funnel.End? || a.OpenFunnel?)
  {
  }

  lemma OtherFunnel(kinds: Kinds, prev: int -> int, s: Sys, a: Action)
    requires Enabled(s, a) && !Simple(a)
    ensures var s' := Next(kinds, prev, s, a); s'.header == s.header && s'.logOpen == s.logOpen && s'.funnel == s.funnel
  {
  }

  /** Who is to write the header after a step. */
  ghost predicate ToWrite(s: Sys, a: Action, j: nat)
    requires a.k < |s.threads| && j < |s.threads|
  {
    || (s.threads[j].phase.Header? && !(a.WriteHeader? && a.k == j))
    || (a.TakeBlock? && a.k == j && s.threads[j].blocks == 0 && s.funnel.Start?)
  }

  lemma StepFunnels(kinds: Kinds, prev: int -> int, s: Sys, a: Action)
    requires FunnelOk(s) && Enabled(s, a)
    ensures FunnelOk(Next(kinds, prev, s, a))
  {
    var s' := Next(kinds, prev, s, a);
    FunnelShape(kinds, prev, s, a);
    forall j | 0 <= j < |s'.threads|
      ensures s'.threads[j].phase.Header? ==> ToWrite(s, a, j)
      ensures s'.threads[j].phase.HeaderDone? ==> s.threads[j].phase.HeaderDone? || a.WriteHeader?
    {
      HeaderPhase(kinds, prev, s, a, j);
    }
  }

  lemma HeaderPhase(kinds: Kinds, prev: int -> int, s: Sys, a: Action, j: nat)
    requires Enabled(s, a) && j < |s.threads|
    ensures j < |Next(kinds, prev, s, a).threads|
    ensures Next(kinds, prev, s, a).threads[j].phase.Header? ==> ToWrite(s, a, j)
    ensures Next(kinds, prev, s, a).threads[j].phase.HeaderDone? ==> s.threads[j].phase.HeaderDone? || a.WriteHeader?
  {
    if Simple(a) {
      SimpleShape(kinds, prev, s, a);
    } else {
      OthersMoved(kinds, prev, s, a, j);
      OtherMoved(kinds, prev, s, a);
    }
  }

  // ---------------------------------------------------------------- the log

  /** What an action adds to the log. */
  function Appended(kinds: Kinds, prev: int -> int, s: Sys, a: Action): seq<LogEntry>
    requires Enabled(s, a)
  {
    if a.SetSize? && a.ok && s.logOpen && kinds(s.threads[a.k].phase.q) == EXISTS_TOO_LARGE then
      [Invalidation(prev(s.threads[a.k].phase.q))]
    else if a.LogSize? && s.logOpen && s.header then
      var q := s.threads[a.k].phase.q;
      [if kinds(q) == EXISTS_TOO_LARGE || kinds(q) == NOT_EXISTS then Creation(q) else Resize(q)]
    else if a.Verify? && s.logOpen then
      if kinds(a.q) == TO_BE_DELETED then [Invalidation(a.q)] else if s.header then [BlockWrite(a.q)] else []
    else []
  }

  /** The step that is to log the size of `q`. */
  predicate Sizes(s: Sys, a: Action, q: int)
    requires a.k < |s.threads|
  {
    a.LogSize? && s.threads[a.k].phase == Log(q)
  }

  lemma LogShape(kinds: Kinds, prev: int -> int, s: Sys, a: Action)
    requires Enabled(s, a)
    ensures Next(kinds, prev, s, a).log == s.log + Appended(kinds, prev, s, a)
    ensures forall q: int :: q in Next(kinds, prev, s, a).missed <==>
                             q in s.missed || (Sizes(s, a, q) && !(s.logOpen && s.header))
  {
    if Simple(a) {
      SimpleShape(kinds, prev, s, a);
    }
  }

  lemma AppendedLogs(kinds: Kinds, prev: int -> int, s: Sys, a: Action, q: int)
    requires Enabled(s, a) && Creates(kinds, q)
    ensures Logged(Appended(kinds, prev, s, a), q) <==> Sizes(s, a, q) && s.logOpen && s.header
  {
  }

  lemma StepSizes(kinds: Kinds, prev: int -> int, s: Sys, a: Action, q: int)
    requires Synced(s.files, s.threads) && Enabled(s, a) && Creates(kinds, q)
    ensures var s' := Next(kinds, prev, s, a);
            Sized(s'.files, s'.threads, q) <==> Sized(s.files, s.threads, q) || Sizes(s, a, q)
    ensures Sizes(s, a, q) ==> !Sized(s.files, s.threads, q)
  {
    assert PhaseOk(s.files, s.threads, a.k, s.threads[a.k].phase);
    if Simple(a) {
      SimpleShape(kinds, prev, s, a);
      SimpleMoves(s, a);
    } else {
      OtherSizes(kinds, prev, s, a, q);
    }
  }

  lemma OtherSizes(kinds: Kinds, prev: int -> int, s: Sys, a: Action, q: int)
    requires Synced(s.files, s.threads) && Enabled(s, a) && Creates(kinds, q) && !Simple(a)
    ensures var s' := Next(kinds, prev, s, a);
            Sized(s'.files, s'.threads, q) <==> Sized(s.files, s.threads, q) || Sizes(s, a, q)
  {
    assert PhaseOk(s.files, s.threads, a.k, s.threads[a.k].phase);
    match a
    case Lookup(k, opens) => LookupSizes(kinds, s, k, opens, q);
    case SetSize(k, ok) => WorkSizes(kinds, prev, s, a, q);
    case LogSize(k) => WorkSizes(kinds, prev, s, a, q);
    case SetStatus(k) => WorkSizes(kinds, prev, s, a, q);
    case Notify(k) =>
      if q in s.files && s.files[q].InProgress? {
        OthersMoved(kinds, prev, s, a, s.files[q].who);
      }
    case Look(k, opens) =>
  }

  lemma WorkSizes(kinds: Kinds, prev: int -> int, s: Sys, a: Action, q: int)
    requires Synced(s.files, s.threads) && Enabled(s, a) && (a.SetSize? || a.LogSize? || a.SetStatus?)
    ensures var s' := Next(kinds, prev, s, a);
            Sized(s'.files, s'.threads, q) <==> Sized(s.files, s.threads, q) || Sizes(s, a, q)
  {
    assert PhaseOk(s.files, s.threads, a.k, s.threads[a.k].phase);
  }

  lemma LookupSizes(kinds: Kinds, s: Sys, k: nat, opens: bool, q: int)
    requires Synced(s.files, s.threads) && k < |s.threads| && s.threads[k].phase.Open? && Creates(kinds, q)
    ensures var s' := DoLookup(kinds, s, k, opens);
            Sized(s'.files, s'.threads, q) <==> Sized(s.files, s.threads, q)
  {
    if q in s.files {
      assert Is(DoLookup(kinds, s, k, opens).files, q, s.files[q]);
    }
  }

  lemma StepEntry(kinds: Kinds, prev: int -> int, s: Sys, a: Action, q: int)
    requires Synced(s.files, s.threads) && Enabled(s, a) && Creates(kinds, q) && EntryOk(s, q)
    ensures EntryOk(Next(kinds, prev, s, a), q)
  {
    var s' := Next(kinds, prev, s, a);
    LogShape(kinds, prev, s, a);
    AppendedLogs(kinds, prev, s, a, q);
    StepSizes(kinds, prev, s, a, q);
    assert Logged(s'.log, q) <==> Logged(s.log, q) || Logged(Appended(kinds, prev, s, a), q);
  }

  lemma StepBlock(kinds: Kinds, prev: int -> int, s: Sys, a: Action, i: nat)
    requires Inv(kinds, s) && Enabled(s, a) && i < |Next(kinds, prev, s, a).log|
    ensures BlockOk(kinds, Next(kinds, prev, s, a), i)
  {
    var s' := Next(kinds, prev, s, a);
    LogShape(kinds, prev, s, a);
    if s'.log[i].BlockWrite? && Creates(kinds, s'.log[i].q) {
      var q := s'.log[i].q;
      StepGrows(kinds, prev, s, a, q);
      if i < |s.log| {
        assert s'.log[i] == s.log[i] && BlockOk(kinds, s, i);
        assert s'.log[..i] == s.log[..i];
        StepSizes(kinds, prev, s, a, q);
      } else {
        NewBlock(kinds, prev, s, a, i);
      }
    }
  }

  lemma NewBlock(kinds: Kinds, prev: int -> int, s: Sys, a: Action, i: nat)
    requires Inv(kinds, s) && Enabled(s, a) && |s.log| <= i < |s.log + Appended(kinds, prev, s, a)|
    requires var e := (s.log + Appended(kinds, prev, s, a))[i]; e.BlockWrite? && Creates(kinds, e.q)
    ensures a.Verify? && i == |s.log| && Appended(kinds, prev, s, a) == [BlockWrite(a.q)]
    ensures Is(s.files, a.q, Allocated) && (Logged(s.log, a.q) <==> a.q !in s.missed)
    ensures (s.log + Appended(kinds, prev, s, a))[..i] == s.log
  {
    assert a.Verify?;
    assert EntryOk(s, a.q);
  }

  lemma StepKeeps(kinds: Kinds, prev: int -> int, s: Sys, a: Action)
    requires Inv(kinds, s) && Enabled(s, a)
    ensures Inv(kinds, Next(kinds, prev, s, a))
  {
    var s' := Next(kinds, prev, s, a);
    StepSyncs(kinds, prev, s, a);
    StepStartsOnce(kinds, prev, s, a);
    StepWaits(kinds, prev, s, a);
    StepFunnels(kinds, prev, s, a);
    forall q: int | Creates(kinds, q) ensures EntryOk(s', q) {
      StepEntry(kinds, prev, s, a, q);
    }
    forall i | 0 <= i < |s'.log| ensures BlockOk(kinds, s', i) {
      StepBlock(kinds, prev, s, a, i);
    }
  }

  // ---------------------------------------------------------------- runs

  /** A session starts without a log header, or with the one that sending the file chunks has written. */
  ghost predicate Begins(s: Sys) {
    && (forall k | 0 <= k < |s.threads| :: s.threads[k] == Thread(Idle, multiset{}, 0))
    && (if s.header then s.funnel.End? else s.funnel.Start?) && s.logOpen
    && s.files == map[] && s.log == [] && s.started == multiset{} && s.missed == {}
  }

  ghost predicate Run(kinds: Kinds, prev: int -> int, s: Sys, actions: seq<Action>)
    decreases |actions|
  {
    actions == [] || (Enabled(s, actions[0]) && Run(kinds, prev, Next(kinds, prev, s, actions[0]), actions[1..]))
  }

  ghost function After(kinds: Kinds, prev: int -> int, s: Sys, actions: seq<Action>): Sys
    requires Run(kinds, prev, s, actions)
    decreases |actions|
  {
    if actions == [] then s else After(kinds, prev, Next(kinds, prev, s, actions[0]), actions[1..])
  }

  lemma BeginsInv(kinds: Kinds, s: Sys)
    requires Begins(s)
    ensures Inv(kinds, s)
  {
  }

  lemma {:induction false} RunKeeps(kinds: Kinds, prev: int -> int, s: Sys, actions: seq<Action>)
    requires Inv(kinds, s) && Run(kinds, prev, s, actions)
    ensures Inv(kinds, After(kinds, prev, s, actions))
    decreases |actions|
  {
    if actions != [] {
      StepKeeps(kinds, prev, s, actions[0]);
      RunKeeps(kinds, prev, Next(kinds, prev, s, actions[0]), actions[1..]);
    }
  }

  /** In no interleaving is a file sized twice, or by two threads at a time. */
  lemma {:induction false} AllocatedOnce(kinds: Kinds, prev: int -> int, s: Sys, actions: seq<Action>, q: int,
                                         j: nat, k: nat)
    requires Begins(s) && Run(kinds, prev, s, actions)
    ensures var e := After(kinds, prev, s, actions);
            && e.started[q] <= 1
            && (j < |e.threads| && k < |e.threads| && Works(e.threads[j].phase, q) && Works(e.threads[k].phase, q) ==>
                j == k)
  {
    BeginsInv(kinds, s);
    RunKeeps(kinds, prev, s, actions);
    var e := After(kinds, prev, s, actions);
    if j < |e.threads| && k < |e.threads| && Works(e.threads[j].phase, q) && Works(e.threads[k].phase, q) {
      assert PhaseOk(e.files, e.threads, j, e.threads[j].phase) && PhaseOk(e.files, e.threads, k, e.threads[k].phase);
    }
  }

  /**
   No waiter sleeps past the decision: if its file is decided, the thread it waits for is about to notify,
   which needs only the mutex and wakes it.  Until then that thread is at work on the file.
   */
  lemma {:induction false} NoLostWakeup(kinds: Kinds, prev: int -> int, s: Sys, actions: seq<Action>, k: nat)
    requires Begins(s) && Run(kinds, prev, s, actions)
    requires var e := After(kinds, prev, s, actions); k < |e.threads| && e.threads[k].phase.Sleep?
    ensures var e := After(kinds, prev, s, actions);
            var q, who := e.threads[k].phase.q, e.threads[k].phase.who;
            && who < |e.threads| && q in e.files
            && (e.files[q].InProgress? ==> Works(e.threads[who].phase, q))
            && (!e.files[q].InProgress? ==> Announces(e.threads[who].phase, q))
            && (!e.files[q].InProgress? && MutexFree(e) ==>
                  && Enabled(e, Notify(who))
                  && k < |Next(kinds, prev, e, Notify(who)).threads|
                  && Next(kinds, prev, e, Notify(who)).threads[k].phase == Check(q, who))
  {
    BeginsInv(kinds, s);
    RunKeeps(kinds, prev, s, actions);
    var e := After(kinds, prev, s, actions);
    assert PhaseOk(e.files, e.threads, k, e.threads[k].phase);
    var q, who := e.threads[k].phase.q, e.threads[k].phase.who;
    if !e.files[q].InProgress? && MutexFree(e) {
      OthersMoved(kinds, prev, e, Notify(who), k);
    }
  }

  /**
   A block-write entry comes after its file's creation or resize entry if and only if the header was
   written when the file was sized.
   */
  lemma {:induction false} CreationFirst(kinds: Kinds, prev: int -> int, s: Sys, actions: seq<Action>, i: nat)
    requires Begins(s) && Run(kinds, prev, s, actions)
    requires var log := After(kinds, prev, s, actions).log; i < |log| && log[i].BlockWrite? && Creates(kinds, log[i].q)
    ensures var e := After(kinds, prev, s, actions);
            Logged(e.log[..i], e.log[i].q) <==> e.log[i].q !in e.missed
  {
    BeginsInv(kinds, s);
    RunKeeps(kinds, prev, s, actions);
    assert BlockOk(kinds, After(kinds, prev, s, actions), i);
  }

  /** From a state on in which the header is written nothing is missed. */
  lemma {:induction false} NothingMissedLater(kinds: Kinds, prev: int -> int, s: Sys, actions: seq<Action>, q: int)
    requires Inv(kinds, s) && s.header && s.logOpen && Run(kinds, prev, s, actions)
    ensures q in After(kinds, prev, s, actions).missed <==> q in s.missed
    decreases |actions|
  {
    if actions != [] {
      var s' := Next(kinds, prev, s, actions[0]);
      FunnelShape(kinds, prev, s, actions[0]);
      LogShape(kinds, prev, s, actions[0]);
      StepKeeps(kinds, prev, s, actions[0]);
      NothingMissedLater(kinds, prev, s', actions[1..], q);
    }
  }

  /** Once the funnel is open for everybody, files are missed only if the log is closed for good. */
  lemma {:induction false} MissedInFunnel(kinds: Kinds, prev: int -> int, s: Sys, actions: seq<Action>, k: nat)
    requires Begins(s) && Run(kinds, prev, s, actions)
    requires var e := After(kinds, prev, s, actions); Enabled(e, LogSize(k)) && e.logOpen && e.funnel.End?
    ensures var e := After(kinds, prev, s, actions); Next(kinds, prev, e, LogSize(k)).missed == e.missed
  {
    BeginsInv(kinds, s);
    RunKeeps(kinds, prev, s, actions);
  }

  // ---------------------------------------------------------------- a file missed

  lemma {:induction false} Prepend(kinds: Kinds, prev: int -> int, s: Sys, a: Action, s': Sys, rest: seq<Action>,
                                   e: Sys)
    requires Enabled(s, a) && Next(kinds, prev, s, a) == s' && Run(kinds, prev, s', rest)
             && After(kinds, prev, s', rest) == e
    ensures Run(kinds, prev, s, [a] + rest) && After(kinds, prev, s, [a] + rest) == e
  {
    assert ([a] + rest)[0] == a && ([a] + rest)[1..] == rest;
  }

  function AllNew(q: int): AllocationStatus { NOT_EXISTS }

  /** The second of two threads gets ahead of the first, which is to write the header. */
  function Ahead(i: nat): Sys
    requires i <= 10
  {
    var none: multiset<int> := multiset{};
    var files: map<int, Status> := map[];
    Sys([Thread(if i == 0 then Idle else if i < 9 then Header(1) else HeaderDone(1), none, 0), Second(i)],
        if i == 0 then Start else Progress, true, i >= 9,
        if i < 3 then files else if i < 6 then files[2 := InProgress(1)] else files[2 := InProgress(1)][2 := Allocated],
        if i < 10 then [] else [BlockWrite(2)],
        if i < 3 then none else none + multiset{2},
        if i < 5 then {} else {} + {2})
  }

  function Second(i: nat): Thread
    requires i <= 10
  {
    var none: multiset<int> := multiset{};
    if i < 2 then Thread(Idle, none, 0)
    else if i == 2 then Thread(Open(2), none, 0)
    else if i == 3 then Thread(Allocate(2), none, 0)
    else if i == 4 then Thread(Log(2), none, 0)
    else if i == 5 then Thread(Decide(2, true), none, 0)
    else if i == 6 then Thread(Announce(2, true), none, 0)
    else if i == 7 then Thread(Write(2), none, 0)
    else if i < 10 then Thread(Idle, none + multiset{2}, 0)
    else Thread(Idle, none + multiset{2} - multiset{2}, 1)
  }

  function AheadBy(i: nat): Action
    requires i < 10
  {
    if i == 0 then TakeBlock(0, 1)
    else if i == 1 then TakeBlock(1, 2)
    else if i == 2 then Lookup(1, true)
    else if i == 3 then SetSize(1, true)
    else if i == 4 then LogSize(1)
    else if i == 5 then SetStatus(1)
    else if i == 6 then Notify(1)
    else if i == 7 then Complete(1)
    else if i == 8 then WriteHeader(0, true)
    else Verify(1, 2)
  }

  ghost predicate Leads(prev: int -> int, i: nat)
    requires i < 10
  {
    Enabled(Ahead(i), AheadBy(i)) && Next(AllNew, prev, Ahead(i), AheadBy(i)) == Ahead(i + 1)
  }

  lemma EarlyStep(prev: int -> int, i: nat)
    requires i < 4
    ensures Leads(prev, i)
  {
    var s' := Next(AllNew, prev, Ahead(i), AheadBy(i));
    assert s'.threads == Ahead(i + 1).threads && s'.log == Ahead(i + 1).log;
  }

  lemma MiddleStep(prev: int -> int, i: nat)
    requires 4 <= i < 7
    ensures Leads(prev, i)
  {
    var s' := Next(AllNew, prev, Ahead(i), AheadBy(i));
    assert s'.threads == Ahead(i + 1).threads && s'.log == Ahead(i + 1).log;
  }

  lemma LateStep(prev: int -> int, i: nat)
    requires 7 <= i < 10
    ensures Leads(prev, i)
  {
    var s' := Next(AllNew, prev, Ahead(i), AheadBy(i));
    assert s'.threads == Ahead(i + 1).threads && s'.log == Ahead(i + 1).log;
  }

  lemma {:induction false} AheadRun(prev: int -> int, i: nat) returns (actions: seq<Action>)
    requires i <= 10
    ensures Run(AllNew, prev, Ahead(i), actions) && After(AllNew, prev, Ahead(i), actions) == Ahead(10)
    decreases 10 - i
  {
    actions := [];
    if i < 10 {
      if i < 4 { EarlyStep(prev, i); } else if i < 7 { MiddleStep(prev, i); } else { LateStep(prev, i); }
      var rest := AheadRun(prev, i + 1);
      Prepend(AllNew, prev, Ahead(i), AheadBy(i), Ahead(i + 1), rest, Ahead(10));
      actions := [AheadBy(i)] + rest;
    }
  }

  /**
   While the first thread is on its way to writing the header, the second does not wait for it:
   its file's creation entry is dropped, and its block is logged later.
   */
  lemma MissedCreation(prev: int -> int) returns (s: Sys, actions: seq<Action>)
    ensures Begins(s) && Run(AllNew, prev, s, actions)
    ensures After(AllNew, prev, s, actions).log == [BlockWrite(2)] && Creates(AllNew, 2)
  {
    s := Ahead(0);
    actions := AheadRun(prev, 0);
  }

  // ---------------------------------------------------------------- what is logged of the blocks

  /** How often a block of `q` is verified. */
  function Verified(actions: seq<Action>, q: int): nat {
    if actions == [] then 0
    else (if actions[0].Verify? && actions[0].q == q then 1 else 0) + Verified(actions[1..], q)
  }

  /** With the header there, the log stays open and takes an entry for every block. */
  lemma StepLogsBlock(kinds: Kinds, prev: int -> int, s: Sys, a: Action, q: int)
    requires Inv(kinds, s) && Enabled(s, a) && s.logOpen && s.header
    ensures Next(kinds, prev, s, a).logOpen && Next(kinds, prev, s, a).header
    ensures var more := multiset(Appended(kinds, prev, s, a));
            && more[BlockWrite(q)] == (if a == Verify(a.k, q) && kinds(q) != TO_BE_DELETED then 1 else 0)
            && (a == Verify(a.k, q) && kinds(q) == TO_BE_DELETED ==> more[Invalidation(q)] == 1)
  {
    FunnelShape(kinds, prev, s, a);
    AppendedBlock(kinds, prev, s, a, q);
  }

  lemma AppendedBlock(kinds: Kinds, prev: int -> int, s: Sys, a: Action, q: int)
    requires Enabled(s, a) && s.logOpen && s.header
    ensures var more := multiset(Appended(kinds, prev, s, a));
            && more[BlockWrite(q)] == (if a == Verify(a.k, q) && kinds(q) != TO_BE_DELETED then 1 else 0)
            && (a == Verify(a.k, q) && kinds(q) == TO_BE_DELETED ==> more[Invalidation(q)] == 1)
  {
  }

  /**
   With the log header there from the start, the log has one entry for every verified block: a block entry, or an
   invalidation if the file was to be deleted.
   */
  lemma {:induction false} EveryBlockLogged(kinds: Kinds, prev: int -> int, s: Sys, actions: seq<Action>, q: int)
    requires Inv(kinds, s) && s.logOpen && s.header && Run(kinds, prev, s, actions)
    ensures var e := After(kinds, prev, s, actions);
            && e.logOpen && e.header
            && multiset(e.log)[BlockWrite(q)] ==
               multiset(s.log)[BlockWrite(q)] + (if kinds(q) == TO_BE_DELETED then 0 else Verified(actions, q))
            && (kinds(q) == TO_BE_DELETED ==>
                  multiset(e.log)[Invalidation(q)] >= multiset(s.log)[Invalidation(q)] + Verified(actions, q))
    decreases |actions|
  {
    if actions != [] {
      var a := actions[0];
      StepKeeps(kinds, prev, s, a);
      LogShape(kinds, prev, s, a);
      StepLogsBlock(kinds, prev, s, a, q);
      EveryBlockLogged(kinds, prev, Next(kinds, prev, s, a), actions[1..], q);
    }
  }

  /** Where a file too large has been sized, its old id has been invalidated. */
  ghost predicate OldIdDropped(kinds: Kinds, prev: int -> int, s: Sys) {
    && (forall k | 0 <= k < |s.threads| && s.threads[k].phase.Log? && s.logOpen ::
          kinds(s.threads[k].phase.q) == EXISTS_TOO_LARGE ==> Invalidation(prev(s.threads[k].phase.q)) in s.log)
    && (forall i | 0 <= i < |s.log| && s.log[i].Creation? ::
          kinds(s.log[i].q) == EXISTS_TOO_LARGE ==> Invalidation(prev(s.log[i].q)) in s.log[..i])
  }

  /** Only sizing a file leads to logging it. */
  lemma LogPhase(kinds: Kinds, prev: int -> int, s: Sys, a: Action, k: nat)
    requires Enabled(s, a) && k < |Next(kinds, prev, s, a).threads| && Next(kinds, prev, s, a).threads[k].phase.Log?
    ensures k < |s.threads|
    ensures s.threads[k].phase == Next(kinds, prev, s, a).threads[k].phase
            || (a == SetSize(k, true) && s.threads[k].phase == Allocate(Next(kinds, prev, s, a).threads[k].phase.q))
  {
    if Simple(a) {
      SimpleShape(kinds, prev, s, a);
    } else {
      OthersMoved(kinds, prev, s, a, a.k);
      if k != a.k { OthersMoved(kinds, prev, s, a, k); }
    }
  }

  lemma OpenBefore(kinds: Kinds, prev: int -> int, s: Sys, a: Action)
    requires Enabled(s, a) && Next(kinds, prev, s, a).logOpen
    ensures s.logOpen
  {
  }

  lemma StepDropsOldId(kinds: Kinds, prev: int -> int, s: Sys, a: Action)
    requires Enabled(s, a) && OldIdDropped(kinds, prev, s)
    ensures OldIdDropped(kinds, prev, Next(kinds, prev, s, a))
  {
    var s', more := Next(kinds, prev, s, a), Appended(kinds, prev, s, a);
    LogShape(kinds, prev, s, a);
    forall k | 0 <= k < |s'.threads| && s'.threads[k].phase.Log? && s'.logOpen
      ensures kinds(s'.threads[k].phase.q) == EXISTS_TOO_LARGE ==> Invalidation(prev(s'.threads[k].phase.q)) in s'.log
    {
      LogPhase(kinds, prev, s, a, k);
      OpenBefore(kinds, prev, s, a);
    }
    forall i | 0 <= i < |s'.log| && s'.log[i].Creation?
      ensures kinds(s'.log[i].q) == EXISTS_TOO_LARGE ==> Invalidation(prev(s'.log[i].q)) in s'.log[..i]
    {
      if i < |s.log| { assert s'.log[..i] == s.log[..i]; } else { assert s'.log[..i] == s.log; }
    }
  }

  lemma {:induction false} RunDropsOldIds(kinds: Kinds, prev: int -> int, s: Sys, actions: seq<Action>)
    requires OldIdDropped(kinds, prev, s) && Run(kinds, prev, s, actions)
    ensures OldIdDropped(kinds, prev, After(kinds, prev, s, actions))
    decreases |actions|
  {
    if actions != [] {
      StepDropsOldId(kinds, prev, s, actions[0]);
      RunDropsOldIds(kinds, prev, Next(kinds, prev, s, actions[0]), actions[1..]);
    }
  }

  /** In every interleaving, the creation of a file that was too large comes after the invalidation of its old id. */
  lemma {:induction false} InvalidatedFirst(kinds: Kinds, prev: int -> int, s: Sys, actions: seq<Action>, i: nat)
    requires Begins(s) && Run(kinds, prev, s, actions)
    requires var e := After(kinds, prev, s, actions);
             i < |e.log| && e.log[i].Creation? && kinds(e.log[i].q) == EXISTS_TOO_LARGE
    ensures var e := After(kinds, prev, s, actions); Invalidation(prev(e.log[i].q)) in e.log[..i]
  {
    RunDropsOldIds(kinds, prev, s, actions);
  }
}
