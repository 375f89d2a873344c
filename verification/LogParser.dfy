/**
 The parser that reads a transfer log and repairs it (LogParser in util/TransferLogManager.cpp).
 */
module LogParsing {
  import opened Serialization
  import opened TransferLog
  import opened LogReplay
  import opened Chunks

  // ---------------------------------------------------------------- the recorded ranges are sane

  ghost predicate SaneInfo(info: Info) { forall c | c in info.chunks :: 0 <= c.start <= c.end <= info.diskSize }
  ghost predicate Sane(s: State) { forall q | q in s.files :: SaneInfo(s.files[q]) }

  lemma WriteKeepsSane(s: State, e: Entry)
    requires Sane(s) && e.BlockWrite?
    ensures Sane(OnBlockWrite(s, e))
  {
    var s' := OnBlockWrite(s, e);
    forall q | q in s'.files ensures SaneInfo(s'.files[q]) { assert SaneInfo(s.files[q]); }
  }

  lemma EntryKeepsSane(s: State, e: Entry, u: Setup)
    requires Sane(s)
    ensures Sane(OnEntry(s, e, u))
  {
    match e {
      case Header(_, _, _, _, _) =>
      case FileCreation(_, _, _, _) =>
        var s' := OnFileCreation(s, e, u);
        forall q | q in s'.files ensures SaneInfo(s'.files[q]) { if q in s.files { assert SaneInfo(s.files[q]); } }
      case BlockWrite(_, _, _, _) => WriteKeepsSane(s, e);
      case FileInvalidation(_, _) =>
      case FileResize(_, _, _) =>
      case DirectoryInvalidation(_) =>
    }
  }

  lemma BodyKeepsSane(s: State, body: seq<Byte>, u: Setup)
    requires Sane(s)
    ensures Sane(OnBody(s, body, u))
  {
    var p := ParseBody(body);
    if p.Good? { EntryKeepsSane(s, p.entry, u); }
  }

  lemma {:induction false} ReplaySane(s: State, bodies: seq<seq<Byte>>, u: Setup)
    requires Sane(s)
    ensures Sane(Replay(s, bodies, u))
    decreases |bodies|
  {
    if bodies != [] {
      ReplaySane(s, bodies[..|bodies| - 1], u);
      BodyKeepsSane(Replay(s, bodies[..|bodies| - 1], u), bodies[|bodies| - 1], u);
    }
  }

  // ---------------------------------------------------------------- the parser

  /** Results are the recorded files with their ranges merged. */
  ghost predicate MergedFrom(results: map<int, Info>, files: map<int, Info>) {
    && results.Keys == files.Keys
    && forall q | q in files ::
         && results[q].fileName == files[q].fileName && results[q].diskSize == files[q].diskSize
         && Separated(results[q].chunks) && SameCoverage(results[q].chunks, files[q].chunks)
  }

  class LogParser {
    const setup: Setup
    var status: Status
    var headerParsed: bool
    var fileInfoMap: map<int, Info>
    var seqIdToSizeMap: map<int, int>
    var invalidSeqIds: set<int>
    var senderIp: seq<Byte>

    function Value(): State
      reads this
    {
      State(status, headerParsed, fileInfoMap, seqIdToSizeMap, invalidSeqIds, senderIp)
    }

    constructor (setup: Setup, senderIp: seq<Byte>)
      ensures this.setup == setup && Value() == Initial(senderIp)
    {
      this.setup, this.senderIp := setup, senderIp;
      status, headerParsed, fileInfoMap, seqIdToSizeMap, invalidSeqIds := OK, false, map[], map[], {};
    }

    method ClearParsedData()
      modifies this`fileInfoMap, this`seqIdToSizeMap, this`invalidSeqIds
      ensures fileInfoMap == map[] && seqIdToSizeMap == map[] && invalidSeqIds == {}
    {
      fileInfoMap, seqIdToSizeMap, invalidSeqIds := map[], map[], {};
    }

    method ProcessHeaderEntry(e: Entry) returns (r: Status)
      requires e.Header?
      modifies this`headerParsed, this`senderIp
      ensures senderIp == e.senderIp && headerParsed == (old(headerParsed) || r == OK)
      ensures r == OnHeader(old(Value()), e, setup).status
      ensures r == INVALID_LOG <==> e.version != LOG_VERSION || e.senderIp == []
      ensures r == OK <==> r != INVALID_LOG && e.recoveryId == setup.recoveryId && e.config == setup.config
    {
      senderIp := e.senderIp;
      if e.version != LOG_VERSION {
        return INVALID_LOG;
      }
      if senderIp == [] {
        return INVALID_LOG;
      }
      if setup.recoveryId != e.recoveryId {
        return INCONSISTENT_DIRECTORY;
      }
      if setup.config != e.config {
        return INCONSISTENT_DIRECTORY;
      }
      headerParsed := true;
      return OK;
    }

    method ProcessFileCreationEntry(e: Entry) returns (r: Status)
      requires e.FileCreation?
      modifies this`fileInfoMap, this`seqIdToSizeMap, this`invalidSeqIds
      ensures r == OK || r == INVALID_LOG
      ensures Value().(status := r) == OnFileCreation(old(Value()).(status := OK), e, setup)
    {
      if !headerParsed {
        return INVALID_LOG;
      }
      if e.seqId in fileInfoMap || e.seqId in invalidSeqIds {
        return INVALID_LOG;
      }
      var sizeVerificationSuccess := false;
      if e.fileName in setup.disk {
        if setup.preallocate {
          sizeVerificationSuccess := setup.disk[e.fileName] >= e.fileSize;
        } else {
          sizeVerificationSuccess := true;
        }
      }
      if sizeVerificationSuccess {
        fileInfoMap := fileInfoMap[e.seqId := Info(e.fileName, setup.disk[e.fileName], [])];
        if e.seqId !in seqIdToSizeMap {
          seqIdToSizeMap := seqIdToSizeMap[e.seqId := e.fileSize];
        }
      } else {
        invalidSeqIds := invalidSeqIds + {e.seqId};
      }
      return OK;
    }

    method ProcessFileResizeEntry(e: Entry) returns (r: Status)
      requires e.FileResize?
      modifies this`seqIdToSizeMap
      ensures r == OK || r == INVALID_LOG
      ensures Value().(status := r) == OnFileResize(old(Value()).(status := OK), e, setup)
    {
      if !headerParsed {
        return INVALID_LOG;
      }
      if e.seqId !in fileInfoMap || e.seqId !in seqIdToSizeMap {
        return INVALID_LOG;
      }
      if e.fileSize < seqIdToSizeMap[e.seqId] {
        return INVALID_LOG;
      }
      if setup.preallocate && e.fileSize > fileInfoMap[e.seqId].diskSize {
        return INVALID_LOG;
      }
      seqIdToSizeMap := seqIdToSizeMap[e.seqId := e.fileSize];
      return OK;
    }

    method ProcessBlockWriteEntry(e: Entry) returns (r: Status)
      requires e.BlockWrite?
      modifies this`fileInfoMap
      ensures r == OK || r == INVALID_LOG
      ensures Value().(status := r) == OnBlockWrite(old(Value()).(status := OK), e)
    {
      if !headerParsed {
        return INVALID_LOG;
      }
      if e.seqId in invalidSeqIds {
        return OK;
      }
      if e.seqId !in fileInfoMap {
        return INVALID_LOG;
      }
      var info := fileInfoMap[e.seqId];
      if e.offset + e.blockSize > info.diskSize {
        return INVALID_LOG;
      }
      var written := Interval(e.offset, e.offset + e.blockSize);
      fileInfoMap := fileInfoMap[e.seqId := info.(chunks := info.chunks + [written])];
      return OK;
    }

    method ProcessFileInvalidationEntry(e: Entry) returns (r: Status)
      requires e.FileInvalidation?
      modifies this`fileInfoMap, this`invalidSeqIds
      ensures r == OK || r == INVALID_LOG
      ensures Value().(status := r) == OnFileInvalidation(old(Value()).(status := OK), e)
    {
      if !headerParsed {
        return INVALID_LOG;
      }
      if e.seqId !in fileInfoMap && e.seqId !in invalidSeqIds {
        return INVALID_LOG;
      }
      fileInfoMap := fileInfoMap - {e.seqId};
      invalidSeqIds := invalidSeqIds - {e.seqId};
      return OK;
    }

    method ProcessEntry(e: Entry)
      requires status == OK || (status == INCONSISTENT_DIRECTORY && e.Header?)
      modifies this
      ensures Value() == OnEntry(old(Value()), e, setup)
    {
      match e {
        case Header(_, _, _, _, _) => status := ProcessHeaderEntry(e);
        case FileCreation(_, _, _, _) => status := ProcessFileCreationEntry(e);
        case BlockWrite(_, _, _, _) => status := ProcessBlockWriteEntry(e);
        case FileResize(_, _, _) => status := ProcessFileResizeEntry(e);
        case FileInvalidation(_, _) => status := ProcessFileInvalidationEntry(e);
        case DirectoryInvalidation(_) => headerParsed, status := false, INCONSISTENT_DIRECTORY;
      }
      if status == INCONSISTENT_DIRECTORY {
        ClearParsedData();
      }
    }

    /** The body of the parse loop, for one entry read completely. */
    method ProcessBody(body: seq<Byte>)
      requires status != INVALID_LOG && body != []
      modifies this
      ensures Value() == OnBody(old(Value()), body, setup)
    {
      if status == INCONSISTENT_DIRECTORY && body[0] != 0 {
        return;
      }
      var p := ParseBody(body);
      TagDecides(body);
      if p.Bad? {
        status := INVALID_LOG;
        return;
      }
      ProcessEntry(p.entry);
    }

    /** Read a log: `kept` bytes of it remain after an unfinished write at its end is cut off. */
    method ParseEntries(log: seq<Byte>) returns (kept: nat)
      requires Value() == Initial(senderIp)
      modifies this
      ensures Value() == ParsedState(log, old(senderIp), setup)
      ensures status != INVALID_LOG ==> kept == |log| - SplitLog(log).extra
    {
      kept := 0;
      ghost var ip := senderIp;
      assert log[0..] == log;
      var more := true;
      while more
        invariant kept <= |log| && (more ==> status != INVALID_LOG)
        invariant more ==> OnTrack(Value(), log, kept, ip, setup)
        invariant !more ==> Over(Value(), log, kept, ip, setup)
        decreases more, |log| - kept
      {
        more, kept := NextEntry(log, kept, ip);
      }
    }

    /** One round of the parse loop. */
    method NextEntry(log: seq<Byte>, kept: nat, ghost ip: seq<Byte>) returns (more: bool, kept': nat)
      requires kept <= |log| && status != INVALID_LOG && OnTrack(Value(), log, kept, ip, setup)
      modifies this
      ensures kept <= kept' <= |log| && (more ==> kept < kept' && status != INVALID_LOG)
      ensures more ==> OnTrack(Value(), log, kept', ip, setup)
      ensures !more ==> Over(Value(), log, kept', ip, setup)
    {
      var next := ReadFrame(log, kept);
      if next.End? {
        TrackOver(Value(), log, kept, next.bad, ip, setup);
        status := if next.bad then INVALID_LOG else status;
        return false, kept;
      }
      kept' := kept + 2 + |next.body|;
      more := HandleBody(next.body, SplitLog(log[kept..]), SplitLog(log[kept'..]), ParsedState(log, ip, setup));
    }

    /** `goal` is what all entries ahead lead to. */
    method HandleBody(body: seq<Byte>, ghost ahead: Split, ghost rest: Split, ghost goal: State) returns (more: bool)
      requires status != INVALID_LOG && Begins(ahead, body, rest) && Finish(Value(), ahead, setup) == goal
      modifies this
      ensures more == (status != INVALID_LOG)
      ensures if more then Finish(Value(), rest, setup) == goal else Value() == goal
    {
      ghost var before := Value();
      ProcessBody(body);
      more := status != INVALID_LOG;
      FinishStep(before, Value(), body, ahead, rest, goal, setup);
    }

    /** The results, each list of ranges merged. */
    method MergeResults() returns (results: map<int, Info>)
      requires Sane(Value())
      ensures MergedFrom(results, fileInfoMap)
    {
      results := map[];
      var todo := fileInfoMap.Keys;
      while todo != {}
        invariant todo <= fileInfoMap.Keys && results.Keys == fileInfoMap.Keys - todo
        invariant MergedFrom(results, map q | q in fileInfoMap && q !in todo :: fileInfoMap[q])
        decreases |todo|
      {
        HasMember(todo);
        var q: int :| q in todo;
        var info := fileInfoMap[q];
        assert SaneInfo(info);
        var merged := MergeList(info.chunks);
        results := results[q := info.(chunks := merged)];
        todo := todo - {q};
      }
      assert (map q | q in fileInfoMap && q !in todo :: fileInfoMap[q]) == fileInfoMap;
    }
  }

  /** What is left of the log replayed from `s`. */
  function Finish(s: State, ahead: Split, u: Setup): State {
    var r := Replay(s, ahead.bodies, u);
    if ahead.bad then r.(status := INVALID_LOG) else r
  }

  ghost predicate OnTrack(s: State, log: seq<Byte>, off: nat, ip: seq<Byte>, u: Setup)
    requires off <= |log|
  {
    Finish(s, SplitLog(log[off..]), u) == ParsedState(log, ip, u) && SplitLog(log[off..]).extra == SplitLog(log).extra
  }
  ghost predicate Over(s: State, log: seq<Byte>, off: nat, ip: seq<Byte>, u: Setup) {
    s == ParsedState(log, ip, u) && (s.status != INVALID_LOG ==> off == |log| - SplitLog(log).extra)
  }

  ghost predicate Begins(ahead: Split, body: seq<Byte>, rest: Split) {
    body != [] && ahead == Split([body] + rest.bodies, rest.extra, rest.bad)
  }

  lemma FinishStep(s: State, s': State, body: seq<Byte>, ahead: Split, rest: Split, goal: State, u: Setup)
    requires Begins(ahead, body, rest) && Finish(s, ahead, u) == goal && s' == OnBody(s, body, u)
    ensures Finish(s', rest, u) == goal && (s'.status == INVALID_LOG ==> s' == goal)
  {
    ReplayAppend(s, [body], rest.bodies, u);
    ReplayOneMore(s, [], body, u);
    assert [] + [body] == [body];
    if s'.status == INVALID_LOG { InvalidStays(s', rest.bodies, u); }
  }

  lemma TrackOver(s: State, log: seq<Byte>, off: nat, bad: bool, ip: seq<Byte>, u: Setup)
    requires off <= |log| && OnTrack(s, log, off, ip, u)
    requires SplitLog(log[off..]) == Split([], if bad then 0 else |log| - off, bad)
    ensures Over(if bad then s.(status := INVALID_LOG) else s, log, off, ip, u)
  {
  }

  lemma HasMember(s: set<int>)
    requires s != {}
    ensures exists q: int :: q in s
  {
    if forall q: int :: q !in s { assert false; }
  }

  datatype FrameRead = End(bad: bool) | Next(body: seq<Byte>)

  /** The length and the body of the entry at `off`, if both are there. */
  method ReadFrame(log: seq<Byte>, off: nat) returns (r: FrameRead)
    requires off <= |log|
    ensures r.End? ==> SplitLog(log[off..]) == Split([], if r.bad then 0 else |log| - off, r.bad)
    ensures r.Next? ==> Starts(log, off, r.body)
  {
    var rest := log[off..];
    if |rest| < 2 {
      return End(false);
    }
    var entrySize := FixedValue(rest[..2]);
    if entrySize == 0 || entrySize >= 32768 || entrySize > MAX_ENTRY_LENGTH {
      return End(true);
    }
    if |rest| - 2 < entrySize {
      return End(false);
    }
    assert rest[2 + entrySize..] == log[off + 2 + entrySize..];
    return Next(rest[2..2 + entrySize]);
  }

  ghost predicate Starts(log: seq<Byte>, off: nat, body: seq<Byte>) {
    off + 2 + |body| <= |log| && Begins(SplitLog(log[off..]), body, SplitLog(log[off + 2 + |body|..]))
  }

  // ---------------------------------------------------------------- repairing the log

  /** One invalidation entry for every seq-id whose file failed its check. */
  ghost function Repairs(seqIds: seq<Wire>, timestamp: Wire): seq<seq<Byte>> {
    if seqIds == [] then []
    else Repairs(seqIds[..|seqIds| - 1], timestamp) + [Body(FileInvalidation(timestamp, seqIds[|seqIds| - 1]))]
  }

  ghost function Ids(seqIds: seq<Wire>): set<int> {
    if seqIds == [] then {} else Ids(seqIds[..|seqIds| - 1]) + {seqIds[|seqIds| - 1]}
  }

  lemma {:induction false} IdsAre(seqIds: seq<Wire>, q: int)
    ensures q in Ids(seqIds) <==> exists i | 0 <= i < |seqIds| :: seqIds[i] == q
    decreases |seqIds|
  {
    if seqIds != [] { IdsAre(seqIds[..|seqIds| - 1], q); }
  }

  lemma RepairOne(s: State, q: Wire, timestamp: Wire, u: Setup)
    requires s.status == OK && s.headerParsed && q in s.invalid && q !in s.files
    ensures OnBody(s, Body(FileInvalidation(timestamp, q)), u) == s.(invalid := s.invalid - {q})
  {
    EntryRoundTrip(FileInvalidation(timestamp, q));
    assert s.files - {q} == s.files;
  }

  lemma {:induction false} RepairsTake(s: State, seqIds: seq<Wire>, timestamp: Wire, u: Setup)
    requires s.status == OK && s.headerParsed && s.files.Keys !! s.invalid
    requires forall i | 0 <= i < |seqIds| :: seqIds[i] in s.invalid
    requires forall i, j | 0 <= i < j < |seqIds| :: seqIds[i] != seqIds[j]
    ensures Replay(s, Repairs(seqIds, timestamp), u) == s.(invalid := s.invalid - Ids(seqIds))
    decreases |seqIds|
  {
    if seqIds == [] {
      assert s.invalid - {} == s.invalid;
    } else {
      var n := |seqIds| - 1;
      var front, q := seqIds[..n], seqIds[n];
      RepairsTake(s, front, timestamp, u);
      IdsAre(front, q);
      RepairsStep(s, front, q, timestamp, u);
      assert front + [q] == seqIds;
    }
  }

  lemma {:induction false} RepairsStep(s: State, front: seq<Wire>, q: Wire, timestamp: Wire, u: Setup)
    requires s.status == OK && s.headerParsed && q in s.invalid && q !in s.files && q !in Ids(front)
    requires Replay(s, Repairs(front, timestamp), u) == s.(invalid := s.invalid - Ids(front))
    ensures Replay(s, Repairs(front + [q], timestamp), u) == s.(invalid := s.invalid - Ids(front + [q]))
  {
    assert (front + [q])[..|front|] == front;
    RepairOne(s.(invalid := s.invalid - Ids(front)), q, timestamp, u);
    ReplayOneMore(s, Repairs(front, timestamp), Body(FileInvalidation(timestamp, q)), u);
    assert s.invalid - Ids(front) - {q} == s.invalid - Ids(front + [q]);
  }

  /**
   After the invalidation entries are appended, parsing the log again gives the same files with the same
   ranges, and finds nothing left to invalidate.
   */
  lemma {:induction false} RepairedLogAgrees(bodies: seq<seq<Byte>>, seqIds: seq<Wire>, timestamp: Wire,
                                             senderIp: seq<Byte>, u: Setup)
    requires var s := Replay(Initial(senderIp), bodies, u);
             && s.status == OK && bodies != []
             && (forall q | q in s.invalid :: exists i | 0 <= i < |seqIds| :: seqIds[i] == q)
             && (forall i | 0 <= i < |seqIds| :: seqIds[i] in s.invalid)
             && (forall i, j | 0 <= i < j < |seqIds| :: seqIds[i] != seqIds[j])
    ensures var s := Replay(Initial(senderIp), bodies, u);
            Replay(Initial(senderIp), bodies + Repairs(seqIds, timestamp), u) == s.(invalid := {})
  {
    var s := Replay(Initial(senderIp), bodies, u);
    ReplayUnderstood(bodies, senderIp, u);
    ReplayAppend(Initial(senderIp), bodies, Repairs(seqIds, timestamp), u);
    RepairsTake(s, seqIds, timestamp, u);
    forall q | q in s.invalid ensures q in Ids(seqIds) { IdsAre(seqIds, q); }
    assert s.invalid - Ids(seqIds) == {};
  }
}
