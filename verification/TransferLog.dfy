/**
 The transfer log as bytes (util/TransferLogManager.cpp): entries framed by a two-byte length, appended
 one after the other, of which the last write may have been cut short.
 */
module TransferLog {
  import opened Serialization

  const LOG_VERSION := 2
  const PATH_MAX := 4096
  /** Room for the largest file creation entry, its length included. */
  const MAX_ENTRY_LENGTH := 2 + 1 + 10 + PATH_MAX + 2 * 10

  datatype Entry =
    | Header(timestamp: Wire, version: Wire, recoveryId: seq<Byte>, senderIp: seq<Byte>, config: Wire)
    | FileCreation(timestamp: Wire, fileName: seq<Byte>, seqId: Wire, fileSize: Wire)
    | BlockWrite(timestamp: Wire, seqId: Wire, offset: Wire, blockSize: Wire)
    | FileInvalidation(timestamp: Wire, seqId: Wire)
    | FileResize(timestamp: Wire, seqId: Wire, fileSize: Wire)
    | DirectoryInvalidation(timestamp: Wire)

  // ---------------------------------------------------------------- one entry

  predicate Encodable(e: Entry) {
    match e
    case Header(_, version, recoveryId, senderIp, _) =>
      version <= I32_MAX && |recoveryId| < U64_LIMIT && |senderIp| < U64_LIMIT
    case FileCreation(_, fileName, _, _) => |fileName| < U64_LIMIT
    case _ => true
  }

  function Tag(e: Entry): Byte {
    match e
    case Header(_, _, _, _, _) => 0
    case FileCreation(_, _, _, _) => 1
    case BlockWrite(_, _, _, _) => 2
    case FileInvalidation(_, _) => 3
    case FileResize(_, _, _) => 4
    case DirectoryInvalidation(_) => 5
  }

  function Fields(e: Entry): seq<Byte>
    requires Encodable(e)
  {
    match e
    case Header(timestamp, version, recoveryId, senderIp, config) =>
      Put(timestamp, Put(version, PutString(recoveryId, PutString(senderIp, Put(config, [])))))
    case FileCreation(timestamp, fileName, seqId, fileSize) =>
      Put(timestamp, PutString(fileName, Put(seqId, Put(fileSize, []))))
    case BlockWrite(timestamp, seqId, offset, blockSize) =>
      Put(timestamp, Put(seqId, Put(offset, Put(blockSize, []))))
    case FileInvalidation(timestamp, seqId) => Put(timestamp, Put(seqId, []))
    case FileResize(timestamp, seqId, fileSize) => Put(timestamp, Put(seqId, Put(fileSize, [])))
    case DirectoryInvalidation(timestamp) => Put(timestamp, [])
  }

  function Body(e: Entry): seq<Byte>
    requires Encodable(e)
  {
    [Tag(e)] + Fields(e)
  }

  datatype Parsed = Bad | Good(entry: Entry)

  /** A decoded entry must use up its bytes. */
  function ParseFields(tag: Byte, b: seq<Byte>): Parsed {
    if tag == 0 then ParseHeader(b)
    else if tag == 1 then ParseFileCreation(b)
    else if tag == 2 then ParseBlockWrite(b)
    else if tag == 3 then ParseFileInvalidation(b)
    else if tag == 4 then ParseFileResize(b)
    else if tag == 5 then ParseDirectoryInvalidation(b)
    else Bad
  }
  function ParseBody(b: seq<Byte>): Parsed { if b == [] then Bad else ParseFields(b[0], b[1..]) }

  function ParseHeader(b: seq<Byte>): Parsed {
    var t := Get(b);
    if t.Fail? then Bad else
    var v := Get32(t.rest);
    if v.Fail? then Bad else
    var r := GetString(v.rest);
    if r.Fail? then Bad else
    var ip := GetString(r.rest);
    if ip.Fail? then Bad else
    var c := Get(ip.rest);
    if c.Fail? || c.rest != [] then Bad else Good(Header(t.value, v.value, r.value, ip.value, c.value))
  }
  function ParseFileCreation(b: seq<Byte>): Parsed {
    var t := Get(b);
    if t.Fail? then Bad else
    var name := GetString(t.rest);
    if name.Fail? then Bad else
    var id := Get(name.rest);
    if id.Fail? then Bad else
    var size := Get(id.rest);
    if size.Fail? || size.rest != [] then Bad else Good(FileCreation(t.value, name.value, id.value, size.value))
  }
  function ParseBlockWrite(b: seq<Byte>): Parsed {
    var t := Get(b);
    if t.Fail? then Bad else
    var id := Get(t.rest);
    if id.Fail? then Bad else
    var off := Get(id.rest);
    if off.Fail? then Bad else
    var size := Get(off.rest);
    if size.Fail? || size.rest != [] then Bad else Good(BlockWrite(t.value, id.value, off.value, size.value))
  }
  function ParseFileInvalidation(b: seq<Byte>): Parsed {
    var t := Get(b);
    if t.Fail? then Bad else
    var id := Get(t.rest);
    if id.Fail? || id.rest != [] then Bad else Good(FileInvalidation(t.value, id.value))
  }
  function ParseFileResize(b: seq<Byte>): Parsed {
    var t := Get(b);
    if t.Fail? then Bad else
    var id := Get(t.rest);
    if id.Fail? then Bad else
    var size := Get(id.rest);
    if size.Fail? || size.rest != [] then Bad else Good(FileResize(t.value, id.value, size.value))
  }
  function ParseDirectoryInvalidation(b: seq<Byte>): Parsed {
    var t := Get(b);
    if t.Fail? || t.rest != [] then Bad else Good(DirectoryInvalidation(t.value))
  }

  lemma HeaderRoundTrip(e: Entry)
    requires e.Header? && Encodable(e)
    ensures ParseHeader(Fields(e)) == Good(e)
  {
    var c := Put(e.config, []);
    var ip := PutString(e.senderIp, c);
    var r := PutString(e.recoveryId, ip);
    PutGet(e.config, []);
    StringPutGet(e.senderIp, c);
    StringPutGet(e.recoveryId, ip);
    PutGet(e.version, r);
    PutGet(e.timestamp, Put(e.version, r));
  }

  lemma FileCreationRoundTrip(e: Entry)
    requires e.FileCreation? && Encodable(e)
    ensures ParseFileCreation(Fields(e)) == Good(e)
  {
    var size := Put(e.fileSize, []);
    var id := Put(e.seqId, size);
    PutGet(e.fileSize, []);
    PutGet(e.seqId, size);
    StringPutGet(e.fileName, id);
    PutGet(e.timestamp, PutString(e.fileName, id));
  }

  lemma BlockWriteRoundTrip(e: Entry)
    requires e.BlockWrite?
    ensures ParseBlockWrite(Fields(e)) == Good(e)
  {
    var size := Put(e.blockSize, []);
    var off := Put(e.offset, size);
    PutGet(e.blockSize, []);
    PutGet(e.offset, size);
    PutGet(e.seqId, off);
    PutGet(e.timestamp, Put(e.seqId, off));
  }

  lemma OthersRoundTrip(e: Entry)
    ensures e.FileInvalidation? ==> ParseFileInvalidation(Fields(e)) == Good(e)
    ensures e.FileResize? ==> ParseFileResize(Fields(e)) == Good(e)
    ensures e.DirectoryInvalidation? ==> ParseDirectoryInvalidation(Fields(e)) == Good(e)
  {
    match e {
      case FileInvalidation(timestamp, seqId) =>
        PutGet(seqId, []);
        PutGet(timestamp, Put(seqId, []));
      case FileResize(timestamp, seqId, fileSize) =>
        PutGet(fileSize, []);
        PutGet(seqId, Put(fileSize, []));
        PutGet(timestamp, Put(seqId, Put(fileSize, [])));
      case DirectoryInvalidation(timestamp) =>
        PutGet(timestamp, []);
      case _ =>
    }
  }

  lemma FieldsRoundTrip(e: Entry)
    requires Encodable(e)
    ensures ParseFields(Tag(e), Fields(e)) == Good(e)
  {
    match e {
      case Header(_, _, _, _, _) => HeaderRoundTrip(e); ByTag(0, Fields(e));
      case FileCreation(_, _, _, _) => FileCreationRoundTrip(e); ByTag(1, Fields(e));
      case BlockWrite(_, _, _, _) => BlockWriteRoundTrip(e); ByTag(2, Fields(e));
      case FileInvalidation(_, _) => OthersRoundTrip(e); ByTag(3, Fields(e));
      case FileResize(_, _, _) => OthersRoundTrip(e); ByTag(4, Fields(e));
      case DirectoryInvalidation(_) => OthersRoundTrip(e); ByTag(5, Fields(e));
    }
  }

  lemma ByTag(tag: Byte, b: seq<Byte>)
    ensures tag == 0 ==> ParseFields(tag, b) == ParseHeader(b)
    ensures tag == 1 ==> ParseFields(tag, b) == ParseFileCreation(b)
    ensures tag == 2 ==> ParseFields(tag, b) == ParseBlockWrite(b)
    ensures tag == 3 ==> ParseFields(tag, b) == ParseFileInvalidation(b)
    ensures tag == 4 ==> ParseFields(tag, b) == ParseFileResize(b)
    ensures tag == 5 ==> ParseFields(tag, b) == ParseDirectoryInvalidation(b)
  {
  }

  /** Every entry reads back as written. */
  lemma EntryRoundTrip(e: Entry)
    requires Encodable(e)
    ensures ParseBody(Body(e)) == Good(e)
  {
    FieldsRoundTrip(e);
    assert Body(e)[1..] == Fields(e);
  }

  /** Entries for file names of up to PATH_MAX bytes fit the entry buffer; so does a header with ids of 1024. */
  lemma EntryFits(e: Entry)
    requires Encodable(e)
    requires e.FileCreation? ==> |e.fileName| <= PATH_MAX
    requires e.Header? ==> |e.recoveryId| <= 1024 && |e.senderIp| <= 1024
    ensures 0 < |Body(e)| <= MAX_ENTRY_LENGTH - 2
  {
    match e {
      case Header(timestamp, version, recoveryId, senderIp, config) =>
        StringPutGet(senderIp, Put(config, []));
        StringPutGet(recoveryId, PutString(senderIp, Put(config, [])));
      case FileCreation(timestamp, fileName, seqId, fileSize) =>
        StringPutGet(fileName, Put(seqId, Put(fileSize, [])));
      case _ =>
    }
  }

  // ---------------------------------------------------------------- many entries

  predicate Framable(body: seq<Byte>) { 0 < |body| <= MAX_ENTRY_LENGTH }

  function Frame(body: seq<Byte>): (f: seq<Byte>)
    requires Framable(body)
    ensures |f| == 2 + |body| && f[2..] == body && FixedValue(f[..2]) == |body|
  {
    assert Base(2) == 65536;
    FixedRoundTrip(|body|, 2, body);
    PutFixed(|body|, 2, body)
  }

  /** What reading a log from its start comes to. */
  datatype Split = Split(bodies: seq<seq<Byte>>, extra: nat, bad: bool)

  /** Whole entries, then either a length that makes no sense or `extra` bytes of an unfinished write. */
  function SplitLog(log: seq<Byte>): Split {
    if |log| < 2 then Split([], |log|, false)
    else
      var len := FixedValue(log[..2]);
      // the length is a signed 16-bit number
      if len == 0 || len >= 32768 || len > MAX_ENTRY_LENGTH then Split([], 0, true)
      else if |log| - 2 < len then Split([], |log|, false)
      else
        var rest := SplitLog(log[2 + len..]);
        Split([log[2..2 + len]] + rest.bodies, rest.extra, rest.bad)
  }

  predicate AllFramable(bodies: seq<seq<Byte>>) { forall i | 0 <= i < |bodies| :: Framable(bodies[i]) }

  function Join(bodies: seq<seq<Byte>>): seq<Byte>
    requires AllFramable(bodies)
  {
    if bodies == [] then [] else Frame(bodies[0]) + Join(bodies[1..])
  }

  lemma {:induction false} SplitOne(body: seq<Byte>, rest: seq<Byte>)
    requires Framable(body)
    ensures var s := SplitLog(rest); SplitLog(Frame(body) + rest) == Split([body] + s.bodies, s.extra, s.bad)
  {
    var log := Frame(body) + rest;
    assert log[..2] == Frame(body)[..2];
    assert log[2..2 + |body|] == body && log[2 + |body|..] == rest;
  }

  /** A finished log splits into exactly the entries written. */
  lemma {:induction false} SplitJoin(bodies: seq<seq<Byte>>, tail: seq<Byte>)
    requires AllFramable(bodies)
    ensures var s := SplitLog(tail); SplitLog(Join(bodies) + tail) == Split(bodies + s.bodies, s.extra, s.bad)
  {
    var s := SplitLog(tail);
    if bodies == [] {
      assert Join(bodies) + tail == tail && bodies + s.bodies == s.bodies;
    } else {
      var first, rest := Frame(bodies[0]), Join(bodies[1..]);
      SplitJoin(bodies[1..], tail);
      ConcatAssoc(first, rest, tail);
      SplitOne(bodies[0], rest + tail);
      FirstAndRest(bodies, s.bodies);
    }
  }

  lemma FirstAndRest(bodies: seq<seq<Byte>>, more: seq<seq<Byte>>)
    requires bodies != []
    ensures [bodies[0]] + (bodies[1..] + more) == bodies + more
  {
  }

  lemma SplitTorn(body: seq<Byte>, k: nat)
    requires Framable(body) && k < |Frame(body)|
    ensures SplitLog(Frame(body)[..k]) == Split([], k, false)
  {
    if k >= 2 { assert Frame(body)[..k][..2] == Frame(body)[..2]; }
  }

  /** `n` entries lie wholly within the first `k` bytes of the log, and those bytes begin with just them. */
  ghost predicate Whole(bodies: seq<seq<Byte>>, k: nat, n: nat)
    requires AllFramable(bodies)
  {
    && n <= |bodies| && |Join(bodies[..n])| <= k <= |Join(bodies)|
    && (n < |bodies| ==> k < |Join(bodies[..n + 1])|)
    && Join(bodies)[..|Join(bodies[..n])|] == Join(bodies[..n])
  }

  /**
   However many bytes of a log reached the disk, reading finds the entries written completely and cuts
   off the rest: what stays is exactly those entries.
   */
  lemma {:induction false} TornTail(bodies: seq<seq<Byte>>, k: nat) returns (n: nat)
    requires AllFramable(bodies) && k <= |Join(bodies)|
    ensures Whole(bodies, k, n)
    ensures SplitLog(Join(bodies)[..k]) == Split(bodies[..n], k - |Join(bodies[..n])|, false)
  {
    if bodies == [] {
      n := 0;
    } else if k < |Frame(bodies[0])| {
      n := 0;
      SplitTorn(bodies[0], k);
      assert Join(bodies)[..k] == Frame(bodies[0])[..k];
      assert bodies[..1][1..] == [] && Join(bodies[..1]) == Frame(bodies[0]) + [];
      assert bodies[..0] == [];
    } else {
      var m := TornTail(bodies[1..], k - |Frame(bodies[0])|);
      n := m + 1;
      WholeStep(bodies, k, m);
      TornStep(bodies, k, m);
    }
  }

  lemma WholeStep(bodies: seq<seq<Byte>>, k: nat, m: nat)
    requires AllFramable(bodies) && bodies != [] && |Frame(bodies[0])| <= k
    requires Whole(bodies[1..], k - |Frame(bodies[0])|, m)
    ensures Whole(bodies, k, m + 1)
  {
    var rest, f := bodies[1..], Frame(bodies[0]);
    JoinFirst(bodies, m);
    if m < |rest| { JoinFirst(bodies, m + 1); }
    TakeAcross(f, Join(rest), |f| + |Join(rest[..m])|);
  }

  lemma {:induction false} TornStep(bodies: seq<seq<Byte>>, k: nat, m: nat)
    requires AllFramable(bodies) && bodies != [] && |Frame(bodies[0])| <= k <= |Join(bodies)|
    requires m <= |bodies| - 1
    requires var rest, k' := bodies[1..], k - |Frame(bodies[0])|;
             |Join(rest[..m])| <= k' && SplitLog(Join(rest)[..k']) == Split(rest[..m], k' - |Join(rest[..m])|, false)
    ensures |Join(bodies[..m + 1])| <= k
    ensures SplitLog(Join(bodies)[..k]) == Split(bodies[..m + 1], k - |Join(bodies[..m + 1])|, false)
  {
    var rest, f := bodies[1..], Frame(bodies[0]);
    JoinFirst(bodies, m);
    TakeAcross(f, Join(rest), k);
    SplitOne(bodies[0], Join(rest)[..k - |f|]);
    assert [bodies[0]] + rest[..m] == bodies[..m + 1];
  }

  lemma TakeAcross(a: seq<Byte>, b: seq<Byte>, k: nat)
    requires |a| <= k <= |a| + |b|
    ensures (a + b)[..k] == a + b[..k - |a|]
  {
  }

  lemma JoinFirst(bodies: seq<seq<Byte>>, m: nat)
    requires AllFramable(bodies) && bodies != [] && m < |bodies|
    ensures Join(bodies[..m + 1]) == Frame(bodies[0]) + Join(bodies[1..][..m])
  {
    assert bodies[..m + 1][1..] == bodies[1..][..m];
  }
}
