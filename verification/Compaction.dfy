/**
 Compacting a transfer log once every file in it is complete (compactLog in util/TransferLogManager.cpp).
 */
module Compaction {
  import opened Serialization
  import opened TransferLog
  import opened LogReplay
  import opened LogParsing
  import opened Chunks

  // ---------------------------------------------------------------- when it is done

  /** One range, as long as the file on disk. */
  ghost predicate Complete(info: Info) { |info.chunks| == 1 && TotalSize(info.chunks) == info.diskSize }

  /** The merged form of a sane list that is complete is the whole file. */
  lemma CompleteIsWhole(merged: Info, recorded: Info)
    requires SaneInfo(recorded) && merged.diskSize == recorded.diskSize
    requires Separated(merged.chunks) && SameCoverage(merged.chunks, recorded.chunks) && Complete(merged)
    ensures merged.chunks == [Interval(0, merged.diskSize)]
  {
    var c := merged.chunks[0];
    assert merged.chunks == [c] && c in merged.chunks;
    TimesOfOne(c, 0);
    CoveredByOne(c, 2 * c.start);
    CoveredByOne(c, 2 * c.end);
    var i :| 0 <= i < |recorded.chunks| && recorded.chunks[i].Has(2 * c.start);
    var j :| 0 <= j < |recorded.chunks| && recorded.chunks[j].Has(2 * c.end);
    assert recorded.chunks[i] in recorded.chunks && recorded.chunks[j] in recorded.chunks;
  }

  /** The loop that refuses to compact when a file is fragmented or incomplete. */
  method CheckComplete(results: map<int, Info>, order: seq<Wire>) returns (ok: bool)
    requires forall i | 0 <= i < |order| :: order[i] in results
    ensures ok <==> forall i | 0 <= i < |order| :: Complete(results[order[i]])
  {
    for i := 0 to |order|
      invariant forall j | 0 <= j < i :: Complete(results[order[j]])
    {
      var info := results[order[i]];
      if |info.chunks| != 1 {
        return false;
      }
      TimesOfOne(info.chunks[0], 0);
      assert info.chunks == [info.chunks[0]];
      if info.chunks[0].Size() != info.diskSize {
        return false;
      }
    }
    return true;
  }

  // ---------------------------------------------------------------- what is written

  predicate Writable(info: Info) { 0 <= info.diskSize <= I64_MAX && |info.fileName| < U64_LIMIT }

  function CompactHeader(timestamp: Wire, senderIp: seq<Byte>, u: Setup): Entry {
    Header(timestamp, LOG_VERSION, u.recoveryId, senderIp, u.config)
  }

  function FileEntries(timestamp: Wire, q: Wire, info: Info): seq<seq<Byte>>
    requires Writable(info)
  {
    [Body(FileCreation(timestamp, info.fileName, q, info.diskSize)), Body(BlockWrite(timestamp, q, 0, info.diskSize))]
  }

  ghost predicate AllWritable(order: seq<Wire>, results: map<int, Info>) {
    forall i | 0 <= i < |order| :: order[i] in results && Writable(results[order[i]])
  }

  function AllEntries(timestamp: Wire, order: seq<Wire>, results: map<int, Info>): seq<seq<Byte>>
    requires forall i | 0 <= i < |order| :: order[i] in results && Writable(results[order[i]])
  {
    if order == [] then []
    else
      var n := |order| - 1;
      AllEntries(timestamp, order[..n], results) + FileEntries(timestamp, order[n], results[order[n]])
  }

  method WriteCompacted(timestamp: Wire, senderIp: seq<Byte>, order: seq<Wire>, results: map<int, Info>, u: Setup)
    returns (bodies: seq<seq<Byte>>)
    requires AllWritable(order, results) && |senderIp| < U64_LIMIT && |u.recoveryId| < U64_LIMIT
    ensures bodies == Compacted(timestamp, senderIp, order, results, u)
  {
    var header := Body(CompactHeader(timestamp, senderIp, u));
    bodies := [header];
    for i := 0 to |order|
      invariant bodies == [header] + AllEntries(timestamp, order[..i], results)
    {
      OneMoreWritten(timestamp, header, order, i, results);
      bodies := bodies + FileEntries(timestamp, order[i], results[order[i]]);
    }
    assert order[..|order|] == order;
  }

  lemma {:induction false} OneMoreWritten(timestamp: Wire, header: seq<Byte>, order: seq<Wire>, i: nat,
                                          results: map<int, Info>)
    requires AllWritable(order, results) && i < |order|
    ensures [header] + AllEntries(timestamp, order[..i], results) + FileEntries(timestamp, order[i], results[order[i]])
            == [header] + AllEntries(timestamp, order[..i + 1], results)
  {
    assert order[..i + 1][..i] == order[..i];
    var before, last := LastFile(timestamp, order[..i + 1], results);
    assert [header] + before + last == [header] + (before + last);
  }

  // ---------------------------------------------------------------- what it means

  /** The disk still has every file at the size it was parsed with. */
  ghost predicate DiskUnchanged(results: map<int, Info>, u: Setup) {
    forall q: int | q in results :: results[q].fileName in u.disk && u.disk[results[q].fileName] == results[q].diskSize
  }
  ghost predicate Whole(results: map<int, Info>) {
    forall q: int | q in results :: results[q].chunks == [Interval(0, results[q].diskSize)]
  }

  lemma CreateThenWrite(s: State, timestamp: Wire, q: Wire, info: Info, u: Setup)
    requires Writable(info) && s.status == OK && s.headerParsed && q !in s.files && q !in s.invalid
    requires info.fileName in u.disk && u.disk[info.fileName] == info.diskSize
             && info.chunks == [Interval(0, info.diskSize)]
    ensures var s1 := OnFileCreation(s, FileCreation(timestamp, info.fileName, q, info.diskSize), u);
            var s2 := OnBlockWrite(s1, BlockWrite(timestamp, q, 0, info.diskSize));
            && s1.status == OK && s2.status == OK && s2.headerParsed && s2.files == s.files[q := info]
            && s2.invalid == s.invalid && s2.senderIp == s.senderIp
  {
    var s1 := OnFileCreation(s, FileCreation(timestamp, info.fileName, q, info.diskSize), u);
    var s2 := OnBlockWrite(s1, BlockWrite(timestamp, q, 0, info.diskSize));
    assert [] + [Interval(0, info.diskSize)] == info.chunks;
    assert s2.files[q] == info;
    assert s2.files == s.files[q := info];
  }

  /** Both entries of one file, replayed. */
  lemma {:induction false} OneFile(s: State, timestamp: Wire, q: Wire, info: Info, u: Setup)
    requires Writable(info) && s.status == OK && s.headerParsed && q !in s.files && q !in s.invalid
    requires info.fileName in u.disk && u.disk[info.fileName] == info.diskSize
             && info.chunks == [Interval(0, info.diskSize)]
    ensures var s' := Replay(s, FileEntries(timestamp, q, info), u);
            && s'.status == OK && s'.headerParsed && s'.files == s.files[q := info]
            && s'.invalid == s.invalid && s'.senderIp == s.senderIp
  {
    var created, written := FileCreation(timestamp, info.fileName, q, info.diskSize),
        BlockWrite(timestamp, q, 0, info.diskSize);
    CreateThenWrite(s, timestamp, q, info, u);
    TwoEntries(s, created, written, u);
  }

  lemma {:induction false} TwoEntries(s: State, a: Entry, b: Entry, u: Setup)
    requires Encodable(a) && Encodable(b) && s.status == OK && OnEntry(s, a, u).status == OK
    ensures Replay(s, [Body(a), Body(b)], u) == OnEntry(OnEntry(s, a, u), b, u)
  {
    OnWritten(s, a, u);
    OnWritten(OnEntry(s, a, u), b, u);
    ReplayOneFirst(s, Body(a), [Body(b)], u);
    ReplayOneFirst(OnEntry(s, a, u), Body(b), [], u);
    assert [Body(a)] + [Body(b)] == [Body(a), Body(b)] && [Body(b)] + [] == [Body(b)];
  }

  /** The same seq-ids, each with the same name, size and ranges. */
  ghost predicate SameResults(a: map<int, Info>, b: map<int, Info>) {
    && (forall q: int :: q in a <==> q in b)
    && (forall q: int | q in a && q in b :: a[q] == b[q])
  }

  ghost predicate Listed(s: State, order: seq<Wire>, results: map<int, Info>) {
    && s.status == OK && s.headerParsed && s.invalid == {}
    && (forall q: int | q in s.files :: q in results && s.files[q] == results[q])
    && (forall q: int :: q in s.files <==> exists i | 0 <= i < |order| :: order[i] == q)
  }

  ghost predicate Distinct(order: seq<Wire>) { forall i, j | 0 <= i < j < |order| :: order[i] != order[j] }

  lemma {:induction false} AllFiles(s: State, timestamp: Wire, order: seq<Wire>, results: map<int, Info>, u: Setup)
    requires s.status == OK && s.headerParsed && s.files == map[] && s.invalid == {}
    requires AllWritable(order, results) && DiskUnchanged(results, u) && Whole(results) && Distinct(order)
    ensures Listed(Replay(s, AllEntries(timestamp, order, results), u), order, results)
    decreases |order|
  {
    if order == [] {
      NothingListed(s, results);
    } else {
      var n := |order| - 1;
      AllFiles(s, timestamp, order[..n], results, u);
      OneFileMore(s, timestamp, order, results, u);
    }
  }

  lemma NothingListed(s: State, results: map<int, Info>)
    requires s.status == OK && s.headerParsed && s.files == map[] && s.invalid == {}
    ensures Listed(s, [], results)
  {
  }

  /** The files of `front` are listed in `s`; `last` are the entries of `q`. */
  lemma {:induction false} ListedStep(s: State, last: seq<seq<Byte>>, timestamp: Wire, front: seq<Wire>, q: Wire,
                                      results: map<int, Info>, u: Setup)
    requires Listed(s, front, results) && q in results && Writable(results[q])
             && last == FileEntries(timestamp, q, results[q])
    requires DiskUnchanged(results, u) && Whole(results) && forall i | 0 <= i < |front| :: front[i] != q
    ensures Listed(Replay(s, last, u), front + [q], results)
  {
    ListedOneMore(s, timestamp, front, q, results, u);
  }

  lemma {:induction false} OneFileMore(s: State, timestamp: Wire, order: seq<Wire>, results: map<int, Info>, u: Setup)
    requires AllWritable(order, results) && DiskUnchanged(results, u) && Whole(results) && Distinct(order)
             && order != []
    requires Listed(Replay(s, AllEntries(timestamp, order[..|order| - 1], results), u), order[..|order| - 1], results)
    ensures Listed(Replay(s, AllEntries(timestamp, order, results), u), order, results)
  {
    var before, last := LastFile(timestamp, order, results);
    ReplayAppend(s, before, last, u);
    ListedOn(Replay(s, before, u), last, timestamp, order, results, u);
  }

  lemma {:induction false} ListedOn(s: State, last: seq<seq<Byte>>, timestamp: Wire, order: seq<Wire>,
                                    results: map<int, Info>, u: Setup)
    requires order != [] && AllWritable(order, results) && DiskUnchanged(results, u) && Whole(results)
             && Distinct(order)
    requires Listed(s, order[..|order| - 1], results)
    requires var q := order[|order| - 1]; last == FileEntries(timestamp, q, results[q])
    ensures Listed(Replay(s, last, u), order, results)
  {
    var n := |order| - 1;
    ListedStep(s, last, timestamp, order[..n], order[n], results, u);
    assert order[..n] + [order[n]] == order;
  }

  /** The entries of all files are those of all but the last, and those of the last. */
  lemma LastFile(timestamp: Wire, order: seq<Wire>, results: map<int, Info>)
    returns (before: seq<seq<Byte>>, last: seq<seq<Byte>>)
    requires AllWritable(order, results) && order != []
    ensures var n := |order| - 1;
            && before == AllEntries(timestamp, order[..n], results)
            && last == FileEntries(timestamp, order[n], results[order[n]])
            && AllEntries(timestamp, order, results) == before + last
  {
    var n := |order| - 1;
    before, last := AllEntries(timestamp, order[..n], results), FileEntries(timestamp, order[n], results[order[n]]);
  }

  lemma {:induction false} ListedOneMore(s: State, timestamp: Wire, front: seq<Wire>, q: Wire,
                                         results: map<int, Info>, u: Setup)
    requires Listed(s, front, results) && q in results && Writable(results[q]) && DiskUnchanged(results, u)
             && Whole(results)
    requires forall i | 0 <= i < |front| :: front[i] != q
    ensures Listed(Replay(s, FileEntries(timestamp, q, results[q]), u), front + [q], results)
  {
    OneFile(s, timestamp, q, results[q], u);
    var s' := Replay(s, FileEntries(timestamp, q, results[q]), u);
    forall x: int ensures x in s'.files <==> exists i | 0 <= i < |front + [q]| :: (front + [q])[i] == x {
      assert (front + [q])[|front|] == q;
      if i :| 0 <= i < |front| && front[i] == x { assert (front + [q])[i] == x; }
    }
  }

  ghost predicate Lists(order: seq<Wire>, results: map<int, Info>) {
    && Distinct(order)
    && (forall i | 0 <= i < |order| :: order[i] in results)
    && (forall q: int | q in results :: exists i | 0 <= i < |order| :: order[i] == q)
  }

  /** The entries of the new log. */
  function Compacted(timestamp: Wire, senderIp: seq<Byte>, order: seq<Wire>, results: map<int, Info>,
                     u: Setup): seq<seq<Byte>>
    requires forall i | 0 <= i < |order| :: order[i] in results && Writable(results[order[i]])
    requires |senderIp| < U64_LIMIT && |u.recoveryId| < U64_LIMIT
  {
    [Body(CompactHeader(timestamp, senderIp, u))] + AllEntries(timestamp, order, results)
  }

  /** With the sender's address they replay to the very same results; without, not at all. */
  lemma {:induction false} CompactedReplays(timestamp: Wire, senderIp: seq<Byte>, ip: seq<Byte>, order: seq<Wire>,
                                            results: map<int, Info>, u: Setup)
    requires |senderIp| < U64_LIMIT && |u.recoveryId| < U64_LIMIT
    requires AllWritable(order, results) && DiskUnchanged(results, u) && Whole(results) && Lists(order, results)
    ensures var s := Replay(Initial(ip), Compacted(timestamp, senderIp, order, results, u), u);
            && (s.status == OK <==> senderIp != [])
            && (senderIp != [] ==> SameResults(s.files, results) && s.invalid == {} && s.senderIp == senderIp)
  {
    var header, rest := CompactHeader(timestamp, senderIp, u), AllEntries(timestamp, order, results);
    OnWritten(Initial(ip), header, u);
    ReplayOneFirst(Initial(ip), Body(header), rest, u);
    var s1 := OnHeader(Initial(ip), header, u);
    if senderIp == [] {
      InvalidStays(s1, rest, u);
    } else {
      AllFilesAre(s1, timestamp, order, results, u);
    }
  }

  // ---------------------------------------------------------------- the log it replaces

  /** File sizes and path lengths as a file system has them, and a recovery id that a header has room for. */
  ghost predicate RealSetup(u: Setup) {
    && |u.recoveryId| <= 1024
    && forall name | name in u.disk :: |name| <= PATH_MAX && 0 <= u.disk[name] <= I64_MAX
  }

  /** Whoever has parsed a header knows the sender's address. */
  ghost predicate IpKnown(s: State) { s.headerParsed && s.status != INVALID_LOG ==> s.senderIp != [] }

  lemma {:induction false} ReplayKnowsIp(s: State, bodies: seq<seq<Byte>>, u: Setup)
    requires IpKnown(s)
    ensures IpKnown(Replay(s, bodies, u))
    decreases |bodies|
  {
    if bodies != [] {
      ReplayKnowsIp(s, bodies[..|bodies| - 1], u);
      BodyKnowsIp(Replay(s, bodies[..|bodies| - 1], u), bodies[|bodies| - 1], u);
    }
  }

  lemma BodyKnowsIp(s: State, body: seq<Byte>, u: Setup)
    requires IpKnown(s)
    ensures IpKnown(OnBody(s, body, u))
  {
    var p := ParseBody(body);
    if p.Good? {
      EntryKnowsIp(s, p.entry, u);
    }
  }

  lemma EntryKnowsIp(s: State, e: Entry, u: Setup)
    requires IpKnown(s)
    ensures IpKnown(OnEntry(s, e, u))
  {
    match e
    case Header(_, _, _, _, _) =>
    case FileCreation(_, _, _, _) =>
    case BlockWrite(_, _, _, _) =>
    case FileInvalidation(_, _) =>
    case FileResize(_, _, _) =>
    case DirectoryInvalidation(_) =>
  }

  /** What an accepted log says of a file: it is on disk, at that size, and the ranges are within it. */
  lemma {:induction false} AcceptedFile(bodies: seq<seq<Byte>>, ip: seq<Byte>, u: Setup, q: int)
    requires RealSetup(u)
    requires var s := Replay(Initial(ip), bodies, u); s.status == OK && q in s.files
    ensures var info := Replay(Initial(ip), bodies, u).files[q];
            && 0 <= q <= I64_MAX && info.fileName in u.disk && u.disk[info.fileName] == info.diskSize
            && SaneInfo(info) && Writable(info) && |info.fileName| <= PATH_MAX
  {
    AcceptedLogTells(bodies, ip, u, q);
    ReplaySane(Initial(ip), bodies, u);
  }

  /** What a completeness check that succeeds means for the results of an accepted log. */
  lemma {:induction false} ResultsWhole(bodies: seq<seq<Byte>>, ip: seq<Byte>, u: Setup, results: map<int, Info>,
                                        order: seq<Wire>)
    requires RealSetup(u) && Lists(order, results) && forall i | 0 <= i < |order| :: Complete(results[order[i]])
    requires var s := Replay(Initial(ip), bodies, u); s.status == OK && MergedFrom(results, s.files)
    ensures AllWritable(order, results) && DiskUnchanged(results, u) && Whole(results)
    ensures forall i | 0 <= i < |order| :: |results[order[i]].fileName| <= PATH_MAX
  {
    var files := Replay(Initial(ip), bodies, u).files;
    forall q: int | q in results
      ensures Writable(results[q]) && |results[q].fileName| <= PATH_MAX
      ensures results[q].fileName in u.disk && u.disk[results[q].fileName] == results[q].diskSize
      ensures results[q].chunks == [Interval(0, results[q].diskSize)]
    {
      AcceptedFile(bodies, ip, u, q);
      var i :| 0 <= i < |order| && order[i] == q;
      CompleteIsWhole(results[q], files[q]);
    }
  }

  /** The new log's entries fit the entry buffer. */
  lemma {:induction false} EntriesFit(timestamp: Wire, order: seq<Wire>, results: map<int, Info>)
    requires AllWritable(order, results) && forall i | 0 <= i < |order| :: |results[order[i]].fileName| <= PATH_MAX
    ensures AllFramable(AllEntries(timestamp, order, results))
    decreases |order|
  {
    if order != [] {
      var n := |order| - 1;
      var q, info := order[n], results[order[n]];
      EntriesFit(timestamp, order[..n], results);
      EntryFits(FileCreation(timestamp, info.fileName, q, info.diskSize));
      EntryFits(BlockWrite(timestamp, q, 0, info.diskSize));
    }
  }

  lemma CompactedFits(timestamp: Wire, senderIp: seq<Byte>, order: seq<Wire>, results: map<int, Info>, u: Setup)
    requires RealSetup(u) && |senderIp| <= 1024
    requires AllWritable(order, results) && forall i | 0 <= i < |order| :: |results[order[i]].fileName| <= PATH_MAX
    ensures AllFramable(Compacted(timestamp, senderIp, order, results, u))
  {
    EntryFits(CompactHeader(timestamp, senderIp, u));
    EntriesFit(timestamp, order, results);
  }

  lemma {:induction false} JoinedParses(bodies: seq<seq<Byte>>, ip: seq<Byte>, u: Setup)
    requires AllFramable(bodies)
    ensures ParsedState(Join(bodies), ip, u) == Replay(Initial(ip), bodies, u)
  {
    SplitJoin(bodies, []);
    assert Join(bodies) + [] == Join(bodies) && bodies + [] == bodies;
  }

  /**
   Compaction keeps the meaning of the log.  Take any log that parses, the results of parsing it, and suppose they pass
   the completeness check.  Then parsing the new log gives the very same results, provided the old one has a single
   entry or the log manager knew the sender's address all along.  Only an empty log compacted without an address
   gives one that cannot be parsed.
   */
  lemma {:induction false} CompactionPreserves(log: seq<Byte>, ip0: seq<Byte>, results: map<int, Info>,
                                               order: seq<Wire>, timestamp: Wire, ip1: seq<Byte>, u: Setup)
    requires RealSetup(u) && ParsedState(log, ip0, u).status == OK && |ParsedState(log, ip0, u).senderIp| <= 1024
    requires MergedFrom(results, ParsedState(log, ip0, u).files) && Lists(order, results)
    requires forall i | 0 <= i < |order| :: Complete(results[order[i]])
    ensures AllWritable(order, results)
    ensures AllFramable(Compacted(timestamp, ParsedState(log, ip0, u).senderIp, order, results, u))
    ensures var ip := ParsedState(log, ip0, u).senderIp;
            var s := ParsedState(Join(Compacted(timestamp, ip, order, results, u)), ip1, u);
            && (s.status == OK <==> SplitLog(log).bodies != [] || ip0 != [])
            && (s.status == OK ==> SameResults(s.files, results) && s.invalid == {} && s.senderIp == ip)
  {
    var bodies := SplitLog(log).bodies;
    var was := Replay(Initial(ip0), bodies, u);
    ResultsWhole(bodies, ip0, u, results, order);
    CompactedFits(timestamp, was.senderIp, order, results, u);
    CompactedReplays(timestamp, was.senderIp, ip1, order, results, u);
    JoinedParses(Compacted(timestamp, was.senderIp, order, results, u), ip1, u);
    ReplayUnderstood(bodies, ip0, u);
    ReplayKnowsIp(Initial(ip0), bodies, u);
  }

  // ---------------------------------------------------------------- all of it

  /** The results in some order. */
  method ListResults(results: map<int, Info>) returns (order: seq<Wire>)
    requires forall q: int | q in results :: 0 <= q <= I64_MAX
    ensures Lists(order, results)
  {
    order := [];
    var todo := results.Keys;
    while todo != {}
      invariant todo <= results.Keys
      invariant forall i, j | 0 <= i < j < |order| :: order[i] != order[j]
      invariant forall i | 0 <= i < |order| :: order[i] in results && order[i] !in todo
      invariant forall q: int | q in results && q !in todo :: exists i | 0 <= i < |order| :: order[i] == q
      decreases |todo|
    {
      HasMember(todo);
      var q: int :| q in todo;
      ghost var before := order;
      order := order + [q];
      todo := todo - {q};
      forall x: int | x in results && x !in todo ensures exists i | 0 <= i < |order| :: order[i] == x {
        if x == q {
          assert order[|before|] == x;
        } else {
          var i :| 0 <= i < |before| && before[i] == x;
          assert order[i] == x;
        }
      }
    }
  }

  ghost predicate AllComplete(results: map<int, Info>) { forall q | q in results.Keys :: Complete(results[q]) }

  lemma OrderComplete(results: map<int, Info>, order: seq<Wire>)
    requires Lists(order, results)
    ensures AllComplete(results) <==> forall i | 0 <= i < |order| :: Complete(results[order[i]])
  {
    if forall i | 0 <= i < |order| :: Complete(results[order[i]]) {
      forall q: int | q in results.Keys ensures Complete(results[q]) {
        var i :| 0 <= i < |order| && order[i] == q;
      }
    }
  }

  /** compactLog: parse, check, and write the log anew. */
  method CompactLog(log: seq<Byte>, senderIp: seq<Byte>, timestamp: Wire, u: Setup)
    returns (done: bool, compacted: seq<Byte>, results: map<int, Info>)
    requires RealSetup(u) && |ParsedState(log, senderIp, u).senderIp| <= 1024
    ensures ParsedState(log, senderIp, u).status == OK ==> MergedFrom(results, ParsedState(log, senderIp, u).files)
    ensures done <==> ParsedState(log, senderIp, u).status == OK && AllComplete(results)
    ensures done && (SplitLog(log).bodies != [] || senderIp != []) ==>
              var s := ParsedState(compacted, senderIp, u); s.status == OK && SameResults(s.files, results)
  {
    var parser := new LogParser(u, senderIp);
    var kept := parser.ParseEntries(log);
    done, compacted, results := false, [], map[];
    if parser.status != OK {
      return;
    }
    ghost var bodies := SplitLog(log).bodies;
    ReplaySane(Initial(senderIp), bodies, u);
    results := parser.MergeResults();
    forall q: int | q in results ensures 0 <= q <= I64_MAX {
      AcceptedFile(bodies, senderIp, u, q);
    }
    var order := ListResults(results);
    done := CheckComplete(results, order);
    OrderComplete(results, order);
    if done {
      CompactionPreserves(log, senderIp, results, order, timestamp, senderIp, u);
      var entries := WriteCompacted(timestamp, parser.senderIp, order, results, u);
      compacted := Join(entries);
    }
  }

  lemma {:induction false} AllFilesAre(s: State, timestamp: Wire, order: seq<Wire>, results: map<int, Info>, u: Setup)
    requires s.status == OK && s.headerParsed && s.files == map[] && s.invalid == {}
    requires AllWritable(order, results) && DiskUnchanged(results, u) && Whole(results)
    requires Distinct(order)
    requires forall q: int | q in results :: exists i | 0 <= i < |order| :: order[i] == q
    ensures var s' := Replay(s, AllEntries(timestamp, order, results), u);
            s'.status == OK && SameResults(s'.files, results) && s'.invalid == {} && s'.senderIp == s.senderIp
  {
    AllFiles(s, timestamp, order, results, u);
    ReplayKeepsIp(s, timestamp, order, results, u);
    var s' := Replay(s, AllEntries(timestamp, order, results), u);
    ListedAll(s', order, results);
  }

  lemma ListedAll(s: State, order: seq<Wire>, results: map<int, Info>)
    requires Listed(s, order, results) && forall q: int | q in results :: exists i | 0 <= i < |order| :: order[i] == q
    ensures SameResults(s.files, results)
  {
    forall q: int | q in results ensures q in s.files {
      var i :| 0 <= i < |order| && order[i] == q;
    }
  }

  lemma {:induction false} ReplayKeepsIp(s: State, timestamp: Wire, order: seq<Wire>, results: map<int, Info>, u: Setup)
    requires s.status == OK && s.headerParsed && s.files == map[] && s.invalid == {}
    requires AllWritable(order, results) && DiskUnchanged(results, u) && Whole(results)
    requires Distinct(order)
    ensures Replay(s, AllEntries(timestamp, order, results), u).senderIp == s.senderIp
    decreases |order|
  {
    if order != [] {
      var n := |order| - 1;
      var front, q := order[..n], order[n];
      ReplayKeepsIp(s, timestamp, front, results, u);
      AllFiles(s, timestamp, front, results, u);
      var before, last := LastFile(timestamp, order, results);
      ReplayAppend(s, before, last, u);
      OneFile(Replay(s, before, u), timestamp, q, results[q], u);
    }
  }
}
