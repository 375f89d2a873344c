/**
 What the log of one session says when it is replayed (util/FileCreator.cpp, ReceiverThread.cpp,
 util/TransferLogManager.cpp): the interleavings of the receiver threads decide which entries are in it, and the
 replay decides whether they are believed.
 */
module SessionLog {
  import opened Protocol
  import opened Serialization
  import opened Chunks
  import opened TransferLog
  import opened LogReplay
  import FileCreator

  // ---------------------------------------------------------------- the entries as they are written

  /** What entry `i` of the session says besides the file it is about. */
  datatype Details = Details(name: int -> seq<Byte>, size: int -> Wire,
                             time: nat -> Wire, offset: nat -> Wire, length: nat -> Wire)

  /** Files that get a seq-id of their own: there is none on disk, or the one there is too large. */
  predicate Newly(kinds: FileCreator.Kinds, q: int) { kinds(q) == NOT_EXISTS || kinds(q) == EXISTS_TOO_LARGE }

  /** The entries the receiver threads of a session append. */
  predicate Fitting(kinds: FileCreator.Kinds, e: FileCreator.LogEntry) {
    match e
    case Creation(q) => Newly(kinds, q)
    case Resize(q) => !Newly(kinds, q)
    case BlockWrite(q) => kinds(q) != TO_BE_DELETED
    case Invalidation(_) => true
  }
  ghost predicate AllFit(kinds: FileCreator.Kinds, log: seq<FileCreator.LogEntry>) {
    forall i | 0 <= i < |log| :: Fitting(kinds, log[i])
  }
  ghost predicate CreatedOnce(log: seq<FileCreator.LogEntry>) {
    forall i | 0 <= i < |log| && log[i].Creation? :: log[i] !in log[..i]
  }

  lemma StepFits(kinds: FileCreator.Kinds, prev: int -> int, s: FileCreator.Sys, a: FileCreator.Action)
    requires FileCreator.Inv(kinds, s) && FileCreator.Enabled(s, a)
    requires AllFit(kinds, s.log) && CreatedOnce(s.log)
    ensures var s' := FileCreator.Next(kinds, prev, s, a); AllFit(kinds, s'.log) && CreatedOnce(s'.log)
  {
    var more := FileCreator.Appended(kinds, prev, s, a);
    FileCreator.LogShape(kinds, prev, s, a);
    AppendedFits(kinds, prev, s, a);
    AppendedKeeps(kinds, s.log, more);
  }

  lemma AppendedFits(kinds: FileCreator.Kinds, prev: int -> int, s: FileCreator.Sys, a: FileCreator.Action)
    requires FileCreator.Inv(kinds, s) && FileCreator.Enabled(s, a)
    ensures var more := FileCreator.Appended(kinds, prev, s, a);
            |more| <= 1 && (|more| == 1 ==> Fitting(kinds, more[0]) && (more[0].Creation? ==> more[0] !in s.log))
  {
    if a.LogSize? {
      var q := s.threads[a.k].phase.q;
      if Newly(kinds, q) {
        FileCreator.StepSizes(kinds, prev, s, a, q);
        assert FileCreator.EntryOk(s, q);
      }
    }
  }

  lemma AppendedKeeps(kinds: FileCreator.Kinds, log: seq<FileCreator.LogEntry>, more: seq<FileCreator.LogEntry>)
    requires AllFit(kinds, log) && CreatedOnce(log) && |more| <= 1
    requires |more| == 1 ==> Fitting(kinds, more[0]) && (more[0].Creation? ==> more[0] !in log)
    ensures AllFit(kinds, log + more) && CreatedOnce(log + more)
  {
    var all := log + more;
    forall i | 0 <= i < |all| && all[i].Creation? ensures all[i] !in all[..i] {
      if i < |log| { assert all[..i] == log[..i]; } else { assert all[..i] == log; }
    }
  }

  lemma {:induction false} RunFits(kinds: FileCreator.Kinds, prev: int -> int, s: FileCreator.Sys,
                                   actions: seq<FileCreator.Action>)
    requires FileCreator.Inv(kinds, s) && FileCreator.Run(kinds, prev, s, actions)
    requires AllFit(kinds, s.log) && CreatedOnce(s.log)
    ensures var log := FileCreator.After(kinds, prev, s, actions).log; AllFit(kinds, log) && CreatedOnce(log)
    decreases |actions|
  {
    if actions != [] {
      StepFits(kinds, prev, s, actions[0]);
      FileCreator.StepKeeps(kinds, prev, s, actions[0]);
      RunFits(kinds, prev, FileCreator.Next(kinds, prev, s, actions[0]), actions[1..]);
    }
  }

  // ---------------------------------------------------------------- and as they are read back

  predicate IsWire(q: int) { 0 <= q <= I64_MAX }

  function EntryAt(e: FileCreator.LogEntry, i: nat, d: Details): Entry
    requires IsWire(e.q)
  {
    match e
    case Creation(q) => FileCreation(d.time(i), d.name(q), q, d.size(q))
    case Resize(q) => FileResize(d.time(i), q, d.size(q))
    case BlockWrite(q) => TransferLog.BlockWrite(d.time(i), q, d.offset(i), d.length(i))
    case Invalidation(q) => FileInvalidation(d.time(i), q)
  }

  /** Seq-ids and paths as the log can hold them. */
  ghost predicate Writable(log: seq<FileCreator.LogEntry>, d: Details) {
    && (forall i | 0 <= i < |log| :: IsWire(log[i].q))
    && (forall q: int :: |d.name(q)| < U64_LIMIT)
  }
  ghost function Bodies(log: seq<FileCreator.LogEntry>, d: Details): (r: seq<seq<Byte>>)
    requires Writable(log, d)
    ensures |r| == |log| && forall i | 0 <= i < |r| :: r[i] == Body(EntryAt(log[i], i, d))
  {
    seq(|log|, i requires 0 <= i < |log| => Body(EntryAt(log[i], i, d)))
  }

  /** The size stat reports: for a file of an earlier session what it was then. */
  function Room(s0: State, d: Details, u: Setup, q: int): int {
    if q in s0.files then s0.files[q].diskSize else if d.name(q) in u.disk then u.disk[d.name(q)] else 0
  }

  /** The sender was told what the earlier log says, and the files are on disk as they were sized. */
  ghost predicate Agrees(kinds: FileCreator.Kinds, e: FileCreator.LogEntry, s0: State, d: Details, u: Setup) {
    && e.q !in s0.invalid
    && match e
       case Creation(q) =>
         q !in s0.files && d.name(q) in u.disk && (u.preallocate ==> u.disk[d.name(q)] >= d.size(q))
       case Resize(q) => q in s0.files && q in s0.sizes && s0.sizes[q] <= d.size(q)
                         && (u.preallocate ==> d.size(q) <= s0.files[q].diskSize)
       case BlockWrite(q) => q in s0.files <==> !Newly(kinds, q)
       case Invalidation(q) => q in s0.files
  }

  /** A seq-id names one file: what is invalidated is not written to as well. */
  ghost predicate Apart(log: seq<FileCreator.LogEntry>) {
    forall i | 0 <= i < |log| && !log[i].Invalidation? :: FileCreator.Invalidation(log[i].q) !in log
  }

  ghost predicate AllAgree(kinds: FileCreator.Kinds, log: seq<FileCreator.LogEntry>, s0: State, d: Details, u: Setup) {
    Apart(log) && forall i | 0 <= i < |log| :: Agrees(kinds, log[i], s0, d, u)
  }

  /** Blocks lie within their files. */
  ghost predicate BlocksFit(log: seq<FileCreator.LogEntry>, s0: State, d: Details, u: Setup) {
    forall i | 0 <= i < |log| && log[i].BlockWrite? :: d.offset(i) + d.length(i) <= Room(s0, d, u, log[i].q)
  }

  /** The ranges logged for `q`, in order. */
  ghost function Ranges(log: seq<FileCreator.LogEntry>, q: int, d: Details): seq<Interval> {
    if log == [] then []
    else
      var i := |log| - 1;
      if log[i] == FileCreator.BlockWrite(q) then
        Ranges(log[..i], q, d) + [Interval(d.offset(i), d.offset(i) + d.length(i))]
      else Ranges(log[..i], q, d)
  }

  ghost predicate Believed(s: State, s0: State, log: seq<FileCreator.LogEntry>, d: Details, u: Setup, q: int) {
    && (q in s.invalid <==> q in s0.invalid)
    && (q in s.files <==> (q in s0.files && FileCreator.Invalidation(q) !in log) || FileCreator.Creation(q) in log)
    && (q in s.files ==> s.files[q].diskSize == Room(s0, d, u, q))
    && (q in s.files ==>
          s.files[q].chunks == (if q in s0.files then s0.files[q].chunks else []) + Ranges(log, q, d))
    && (q in s0.files && q in s0.sizes && s0.sizes[q] <= d.size(q) ==> q in s.sizes && s.sizes[q] <= d.size(q))
  }
  ghost predicate AllBelieved(s: State, s0: State, log: seq<FileCreator.LogEntry>, d: Details, u: Setup) {
    s.status == OK && s.headerParsed && forall q: int :: Believed(s, s0, log, d, u, q)
  }

  // ---------------------------------------------------------------- entry by entry

  lemma {:induction false} RangesMore(log: seq<FileCreator.LogEntry>, e: FileCreator.LogEntry, q: int, d: Details)
    ensures Ranges(log + [e], q, d) == if e == FileCreator.BlockWrite(q) then
              Ranges(log, q, d) + [Interval(d.offset(|log|), d.offset(|log|) + d.length(|log|))] else Ranges(log, q, d)
  {
    assert (log + [e])[..|log|] == log;
  }

  lemma {:induction false} CreationStep(kinds: FileCreator.Kinds, s: State, s0: State,
                                        log: seq<FileCreator.LogEntry>, q: int, d: Details, u: Setup)
    requires AllBelieved(s, s0, log, d, u) && Agrees(kinds, FileCreator.Creation(q), s0, d, u) && IsWire(q)
    requires FileCreator.Creation(q) !in log
    requires Ranges(log, q, d) == []
    ensures var e := FileCreator.Creation(q);
            AllBelieved(OnEntry(s, EntryAt(e, |log|, d), u), s0, log + [e], d, u)
  {
    var e := FileCreator.Creation(q);
    var s' := OnEntry(s, EntryAt(e, |log|, d), u);
    assert Believed(s, s0, log, d, u, q);
    forall p: int ensures Believed(s', s0, log + [e], d, u, p) {
      assert Believed(s, s0, log, d, u, p);
      RangesMore(log, e, p, d);
    }
  }

  lemma ResizeStep(kinds: FileCreator.Kinds, s: State, s0: State, log: seq<FileCreator.LogEntry>, q: int, d: Details,
                   u: Setup)
    requires AllBelieved(s, s0, log, d, u) && Agrees(kinds, FileCreator.Resize(q), s0, d, u) && IsWire(q)
    requires FileCreator.Invalidation(q) !in log
    ensures var e := FileCreator.Resize(q);
            AllBelieved(OnEntry(s, EntryAt(e, |log|, d), u), s0, log + [e], d, u)
  {
    var e := FileCreator.Resize(q);
    var s' := OnEntry(s, EntryAt(e, |log|, d), u);
    assert Believed(s, s0, log, d, u, q);
    forall p: int ensures Believed(s', s0, log + [e], d, u, p) {
      assert Believed(s, s0, log, d, u, p);
      RangesMore(log, e, p, d);
    }
  }

  /** A block is believed exactly when its file is known by then. */
  lemma WriteStep(kinds: FileCreator.Kinds, s: State, s0: State, log: seq<FileCreator.LogEntry>, q: int, d: Details,
                  u: Setup)
    requires AllBelieved(s, s0, log, d, u) && Agrees(kinds, FileCreator.BlockWrite(q), s0, d, u) && IsWire(q)
    requires FileCreator.Invalidation(q) !in log
    requires d.offset(|log|) + d.length(|log|) <= Room(s0, d, u, q)
    ensures var e := FileCreator.BlockWrite(q); var s' := OnEntry(s, EntryAt(e, |log|, d), u);
            if Newly(kinds, q) ==> FileCreator.Creation(q) in log then AllBelieved(s', s0, log + [e], d, u)
            else s'.status == INVALID_LOG
  {
    var e := FileCreator.BlockWrite(q);
    var s' := OnEntry(s, EntryAt(e, |log|, d), u);
    assert Believed(s, s0, log, d, u, q);
    if q in s.files {
      forall p: int ensures Believed(s', s0, log + [e], d, u, p) {
        assert Believed(s, s0, log, d, u, p);
        RangesMore(log, e, p, d);
      }
    }
  }

  /** An invalidation is believed exactly when it is the first of its file. */
  lemma InvalidationStep(kinds: FileCreator.Kinds, s: State, s0: State, log: seq<FileCreator.LogEntry>, q: int,
                         d: Details, u: Setup)
    requires AllBelieved(s, s0, log, d, u) && Agrees(kinds, FileCreator.Invalidation(q), s0, d, u) && IsWire(q)
    requires FileCreator.Creation(q) !in log
    ensures var e := FileCreator.Invalidation(q); var s' := OnEntry(s, EntryAt(e, |log|, d), u);
            if e !in log then AllBelieved(s', s0, log + [e], d, u) else s'.status == INVALID_LOG
  {
    var e := FileCreator.Invalidation(q);
    var s' := OnEntry(s, EntryAt(e, |log|, d), u);
    assert Believed(s, s0, log, d, u, q);
    if q in s.files {
      forall p: int ensures Believed(s', s0, log + [e], d, u, p) {
        assert Believed(s, s0, log, d, u, p);
        RangesMore(log, e, p, d);
      }
    }
  }

  // ---------------------------------------------------------------- the whole log

  /** Every block of a new file comes after the file's creation. */
  ghost predicate Known(kinds: FileCreator.Kinds, log: seq<FileCreator.LogEntry>) {
    forall i | 0 <= i < |log| && log[i].BlockWrite? && Newly(kinds, log[i].q) ::
      FileCreator.Creation(log[i].q) in log[..i]
  }

  /** No file is invalidated twice. */
  ghost predicate DroppedOnce(log: seq<FileCreator.LogEntry>) {
    forall i | 0 <= i < |log| && log[i].Invalidation? :: log[i] !in log[..i]
  }

  ghost predicate Sound(kinds: FileCreator.Kinds, log: seq<FileCreator.LogEntry>) {
    Known(kinds, log) && DroppedOnce(log)
  }

  lemma {:induction false} NoRanges(log: seq<FileCreator.LogEntry>, q: int, d: Details)
    requires FileCreator.BlockWrite(q) !in log
    ensures Ranges(log, q, d) == []
  {
    if log != [] {
      assert log[|log| - 1] in log;
      NoRanges(log[..|log| - 1], q, d);
    }
  }

  lemma {:induction false} KnownRanges(kinds: FileCreator.Kinds, log: seq<FileCreator.LogEntry>, q: int, d: Details)
    requires Known(kinds, log) && Newly(kinds, q) && FileCreator.Creation(q) !in log
    ensures Ranges(log, q, d) == []
  {
    forall i | 0 <= i < |log| ensures log[i] != FileCreator.BlockWrite(q) {
      assert FileCreator.Creation(q) !in log[..i];
    }
    NoRanges(log, q, d);
  }

  /** Whether the entry is believed after `log`. */
  predicate Follows(kinds: FileCreator.Kinds, log: seq<FileCreator.LogEntry>, e: FileCreator.LogEntry) {
    match e
    case Creation(_) => true
    case Resize(_) => true
    case BlockWrite(q) => Newly(kinds, q) ==> FileCreator.Creation(q) in log
    case Invalidation(_) => e !in log
  }

  lemma SoundMore(kinds: FileCreator.Kinds, log: seq<FileCreator.LogEntry>, e: FileCreator.LogEntry)
    ensures Sound(kinds, log + [e]) <==> Sound(kinds, log) && Follows(kinds, log, e)
  {
    var all := log + [e];
    assert all[..|log|] == log && all[|log|] == e;
    forall i | 0 <= i < |log| ensures all[..i] == log[..i] && all[i] == log[i] {}
  }

  ghost predicate Ready(kinds: FileCreator.Kinds, log: seq<FileCreator.LogEntry>, s0: State, d: Details, u: Setup) {
    && AllFit(kinds, log) && CreatedOnce(log) && Writable(log, d) && BlocksFit(log, s0, d, u)
    && s0.status == OK && s0.headerParsed && AllAgree(kinds, log, s0, d, u)
  }

  lemma EntryStep(kinds: FileCreator.Kinds, s: State, s0: State, log: seq<FileCreator.LogEntry>,
                  e: FileCreator.LogEntry, d: Details, u: Setup)
    requires AllBelieved(s, s0, log, d, u) && Sound(kinds, log) && Ready(kinds, log + [e], s0, d, u)
    ensures IsWire(e.q) && var s' := OnEntry(s, EntryAt(e, |log|, d), u);
            if Follows(kinds, log, e) then AllBelieved(s', s0, log + [e], d, u) else s'.status == INVALID_LOG
  {
    LastReady(kinds, s0, log, e, d, u);
    match e
    case Creation(q) =>
      KnownRanges(kinds, log, q, d);
      CreationStep(kinds, s, s0, log, q, d, u);
    case Resize(q) => ResizeStep(kinds, s, s0, log, q, d, u);
    case BlockWrite(q) => WriteStep(kinds, s, s0, log, q, d, u);
    case Invalidation(q) => InvalidationStep(kinds, s, s0, log, q, d, u);
  }

  lemma LastReady(kinds: FileCreator.Kinds, s0: State, log: seq<FileCreator.LogEntry>, e: FileCreator.LogEntry,
                  d: Details, u: Setup)
    requires Ready(kinds, log + [e], s0, d, u)
    ensures Fitting(kinds, e) && Agrees(kinds, e, s0, d, u) && IsWire(e.q) && (e.Creation? ==> e !in log)
    ensures e.BlockWrite? ==> d.offset(|log|) + d.length(|log|) <= Room(s0, d, u, e.q)
    ensures if e.Invalidation? then FileCreator.Creation(e.q) !in log else FileCreator.Invalidation(e.q) !in log
  {
    var all := log + [e];
    assert all[|log|] == e && all[..|log|] == log && Fitting(kinds, all[|log|]) && e in all;
    assert Agrees(kinds, all[|log|], s0, d, u);
    assert forall i | 0 <= i < |log| :: all[i] == log[i] && log[i] in all;
  }

  lemma ReadyBefore(kinds: FileCreator.Kinds, log: seq<FileCreator.LogEntry>, s0: State, d: Details, u: Setup, n: nat)
    requires Ready(kinds, log, s0, d, u) && n <= |log|
    ensures Ready(kinds, log[..n], s0, d, u)
  {
    var front := log[..n];
    forall i | 0 <= i < n ensures front[..i] == log[..i] && front[i] == log[i] {}
  }

  /** The session's log is believed to the end, or refused for good. */
  ghost predicate Outcome(kinds: FileCreator.Kinds, log: seq<FileCreator.LogEntry>, s0: State, d: Details, u: Setup,
                          s: State) {
    if Sound(kinds, log) then AllBelieved(s, s0, log, d, u) else s.status == INVALID_LOG
  }

  /** What holds at first and is kept by every entry holds after the whole log. */
  lemma {:induction false} ReplayKeeps(s0: State, bodies: seq<seq<Byte>>, u: Setup, holds: (nat, State) -> bool)
    requires holds(0, s0)
    requires forall n: nat, s | n < |bodies| && holds(n, s) :: holds(n + 1, OnBody(s, bodies[n], u))
    ensures holds(|bodies|, Replay(s0, bodies, u))
    decreases |bodies|
  {
    if bodies != [] {
      var front := bodies[..|bodies| - 1];
      ReplayKeeps(s0, front, u, holds);
    }
  }

  lemma {:induction false} LogReplays(kinds: FileCreator.Kinds, log: seq<FileCreator.LogEntry>, s0: State,
                                      d: Details, u: Setup)
    requires Ready(kinds, log, s0, d, u)
    ensures Outcome(kinds, log, s0, d, u, Replay(s0, Bodies(log, d), u))
  {
    var holds := (n: nat, s: State) => n <= |log| && Outcome(kinds, log[..n], s0, d, u, s);
    var bodies := Bodies(log, d);
    assert log[..0] == [] && log[..|log|] == log;
    NothingLogged(s0, d, u);
    forall n: nat, s | n < |bodies| && holds(n, s) ensures holds(n + 1, OnBody(s, bodies[n], u)) {
      OneReplays(kinds, log, s0, d, u, n, s);
    }
    ReplayKeeps(s0, bodies, u, holds);
  }

  lemma OneReplays(kinds: FileCreator.Kinds, log: seq<FileCreator.LogEntry>, s0: State, d: Details, u: Setup, n: nat,
                   s: State)
    requires Ready(kinds, log, s0, d, u) && n < |log| && Outcome(kinds, log[..n], s0, d, u, s)
    ensures Outcome(kinds, log[..n + 1], s0, d, u, OnBody(s, Body(EntryAt(log[n], n, d)), u))
  {
    ReadyBefore(kinds, log, s0, d, u, n + 1);
    assert log[..n + 1] == log[..n] + [log[n]];
    LastReplays(kinds, log[..n], log[n], s0, d, u, s);
  }

  lemma NothingLogged(s0: State, d: Details, u: Setup)
    requires s0.status == OK && s0.headerParsed
    ensures AllBelieved(s0, s0, [], d, u)
  {
    assert forall q: int | q in s0.files :: s0.files[q].chunks + [] == s0.files[q].chunks;
  }

  lemma LastReplays(kinds: FileCreator.Kinds, front: seq<FileCreator.LogEntry>, e: FileCreator.LogEntry, s0: State,
                    d: Details, u: Setup, s: State)
    requires Ready(kinds, front + [e], s0, d, u)
    requires Outcome(kinds, front, s0, d, u, s)
    ensures IsWire(e.q) && Outcome(kinds, front + [e], s0, d, u, OnBody(s, Body(EntryAt(e, |front|, d)), u))
  {
    assert (front + [e])[|front|] == e;
    SoundMore(kinds, front, e);
    if Sound(kinds, front) {
      EntryStep(kinds, s, s0, front, e, d, u);
      OnWritten(s, EntryAt(e, |front|, d), u);
    }
  }

  /**
   Whatever the interleaving: replayed after the earlier log and the session's header, the session's log is believed
   if and only if no new file with a logged block was missed and no file was invalidated twice.  Then it says of every
   file not invalidated exactly the earlier ranges and the blocks logged for it, in order.
   */
  lemma {:induction false} SessionReplays(kinds: FileCreator.Kinds, prev: int -> int, start: FileCreator.Sys,
                                          actions: seq<FileCreator.Action>, s0: State, d: Details, u: Setup)
    requires FileCreator.Begins(start) && FileCreator.Run(kinds, prev, start, actions)
    requires var log := FileCreator.After(kinds, prev, start, actions).log;
             Writable(log, d) && BlocksFit(log, s0, d, u) && AllAgree(kinds, log, s0, d, u)
    requires s0.status == OK && s0.headerParsed
    ensures var end := FileCreator.After(kinds, prev, start, actions);
            var s := Replay(s0, Bodies(end.log, d), u);
            && (s.status == OK <==>
                  && (forall q: int :: FileCreator.BlockWrite(q) in end.log && Newly(kinds, q) ==> q !in end.missed)
                  && DroppedOnce(end.log))
            && (s.status == OK ==> AllBelieved(s, s0, end.log, d, u))
  {
    var end := FileCreator.After(kinds, prev, start, actions);
    FileCreator.BeginsInv(kinds, start);
    RunFits(kinds, prev, start, actions);
    LogReplays(kinds, end.log, s0, d, u);
    KnownIffNotMissed(kinds, prev, start, actions);
  }

  lemma {:induction false} KnownIffNotMissed(kinds: FileCreator.Kinds, prev: int -> int, start: FileCreator.Sys,
                                             actions: seq<FileCreator.Action>)
    requires FileCreator.Begins(start) && FileCreator.Run(kinds, prev, start, actions)
    requires AllFit(kinds, FileCreator.After(kinds, prev, start, actions).log)
    ensures var end := FileCreator.After(kinds, prev, start, actions);
            Known(kinds, end.log) <==>
              forall q: int :: FileCreator.BlockWrite(q) in end.log && Newly(kinds, q) ==> q !in end.missed
  {
    var end := FileCreator.After(kinds, prev, start, actions);
    forall i | 0 <= i < |end.log| && end.log[i].BlockWrite? && Newly(kinds, end.log[i].q)
      ensures FileCreator.Creation(end.log[i].q) in end.log[..i] <==> end.log[i].q !in end.missed
    {
      FileCreator.CreationFirst(kinds, prev, start, actions, i);
      NoResize(kinds, end.log, i, end.log[i].q);
    }
    forall q: int | Known(kinds, end.log) && FileCreator.BlockWrite(q) in end.log && Newly(kinds, q)
      ensures q !in end.missed
    {
      var i :| 0 <= i < |end.log| && end.log[i] == FileCreator.BlockWrite(q);
      assert FileCreator.Creation(end.log[i].q) in end.log[..i];
    }
    if forall q: int :: FileCreator.BlockWrite(q) in end.log && Newly(kinds, q) ==> q !in end.missed {
      forall i | 0 <= i < |end.log| && end.log[i].BlockWrite? && Newly(kinds, end.log[i].q)
        ensures FileCreator.Creation(end.log[i].q) in end.log[..i]
      {
        assert FileCreator.BlockWrite(end.log[i].q) in end.log;
      }
    }
  }

  lemma NoResize(kinds: FileCreator.Kinds, log: seq<FileCreator.LogEntry>, n: nat, q: int)
    requires AllFit(kinds, log) && n <= |log| && Newly(kinds, q)
    ensures FileCreator.Logged(log[..n], q) <==> FileCreator.Creation(q) in log[..n]
  {
    forall i | 0 <= i < n ensures log[..n][i] != FileCreator.Resize(q) {
      assert Fitting(kinds, log[i]);
    }
  }
}
