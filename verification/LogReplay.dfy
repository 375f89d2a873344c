/**
 Replaying a transfer log (LogParser in util/TransferLogManager.cpp), in the mode where the log itself
 tells what was received: which files, and which ranges of them, survive.
 */
module LogReplay {
  import opened Serialization
  import opened TransferLog
  import opened Chunks

  /** What the log must agree with, and the sizes stat reports (a missing name makes stat fail). */
  datatype Setup = Setup(recoveryId: seq<Byte>, config: Wire, preallocate: bool, disk: map<seq<Byte>, int>)

  datatype Status = OK | INCONSISTENT_DIRECTORY | INVALID_LOG
  datatype Info = Info(fileName: seq<Byte>, diskSize: int, chunks: seq<Interval>)

  /** headerParsed_, fileInfoMap_, seqIdToSizeMap_, invalidSeqIds_ and the sender's address. */
  datatype State = State(status: Status, headerParsed: bool, files: map<int, Info>, sizes: map<int, int>,
                         invalid: set<int>, senderIp: seq<Byte>)

  function Initial(senderIp: seq<Byte>): State { State(OK, false, map[], map[], {}, senderIp) }

  // ---------------------------------------------------------------- the entries one by one

  /** clearParsedData: the directory is not to be trusted. */
  function Distrust(s: State): State {
    s.(status := INCONSISTENT_DIRECTORY, files := map[], sizes := map[], invalid := {})
  }

  function OnHeader(s: State, e: Entry, u: Setup): State
    requires e.Header?
  {
    var s1 := s.(senderIp := e.senderIp);
    if e.version != LOG_VERSION || e.senderIp == [] then s1.(status := INVALID_LOG)
    else if e.recoveryId != u.recoveryId || e.config != u.config then Distrust(s1)
    else s1.(status := OK, headerParsed := true)
  }

  predicate StatOk(e: Entry, u: Setup)
    requires e.FileCreation?
  {
    e.fileName in u.disk && (u.preallocate ==> u.disk[e.fileName] >= e.fileSize)
  }

  function OnFileCreation(s: State, e: Entry, u: Setup): State
    requires e.FileCreation?
  {
    if !s.headerParsed || e.seqId in s.files || e.seqId in s.invalid then s.(status := INVALID_LOG)
    else if StatOk(e, u) then
      // the size map is not overwritten when it already has the seq-id
      s.(files := s.files[e.seqId := Info(e.fileName, u.disk[e.fileName], [])],
         sizes := if e.seqId in s.sizes then s.sizes else s.sizes[e.seqId := e.fileSize])
    else s.(invalid := s.invalid + {e.seqId})
  }

  function OnFileResize(s: State, e: Entry, u: Setup): State
    requires e.FileResize?
  {
    if !s.headerParsed || e.seqId !in s.files || e.seqId !in s.sizes then s.(status := INVALID_LOG)
    else if e.fileSize < s.sizes[e.seqId] then s.(status := INVALID_LOG)
    else if u.preallocate && e.fileSize > s.files[e.seqId].diskSize then s.(status := INVALID_LOG)
    else s.(sizes := s.sizes[e.seqId := e.fileSize])
  }

  function OnBlockWrite(s: State, e: Entry): State
    requires e.BlockWrite?
  {
    if !s.headerParsed then s.(status := INVALID_LOG)
    else if e.seqId in s.invalid then s
    else if e.seqId !in s.files then s.(status := INVALID_LOG)
    else
      var info := s.files[e.seqId];
      if e.offset + e.blockSize > info.diskSize then s.(status := INVALID_LOG)
      else s.(files := s.files[e.seqId := info.(chunks := info.chunks + [Interval(e.offset, e.offset + e.blockSize)])])
  }

  function OnFileInvalidation(s: State, e: Entry): State
    requires e.FileInvalidation?
  {
    if !s.headerParsed || (e.seqId !in s.files && e.seqId !in s.invalid) then s.(status := INVALID_LOG)
    else s.(files := s.files - {e.seqId}, invalid := s.invalid - {e.seqId})
  }

  function OnEntry(s: State, e: Entry, u: Setup): State {
    match e
    case Header(_, _, _, _, _) => OnHeader(s, e, u)
    case FileCreation(_, _, _, _) => OnFileCreation(s, e, u)
    case BlockWrite(_, _, _, _) => OnBlockWrite(s, e)
    case FileInvalidation(_, _) => OnFileInvalidation(s, e)
    case FileResize(_, _, _) => OnFileResize(s, e, u)
    case DirectoryInvalidation(_) => Distrust(s.(headerParsed := false))
  }

  predicate IsHeader(body: seq<Byte>) { body != [] && body[0] == 0 }

  /** While the directory is not trusted, anything but a header is passed over unread. */
  function OnBody(s: State, body: seq<Byte>, u: Setup): State {
    if s.status == INVALID_LOG then s
    else if s.status == INCONSISTENT_DIRECTORY && !IsHeader(body) then s
    else
      var p := ParseBody(body);
      if p.Bad? then s.(status := INVALID_LOG) else OnEntry(s, p.entry, u)
  }

  function Replay(s: State, bodies: seq<seq<Byte>>, u: Setup): State {
    if bodies == [] then s else OnBody(Replay(s, bodies[..|bodies| - 1], u), bodies[|bodies| - 1], u)
  }

  lemma {:induction false} ReplayAppend(s: State, a: seq<seq<Byte>>, b: seq<seq<Byte>>, u: Setup)
    ensures Replay(s, a + b, u) == Replay(Replay(s, a, u), b, u)
    decreases |b|
  {
    if b == [] {
      assert a + b == a;
    } else {
      var front := b[..|b| - 1];
      ReplayAppend(s, a, front, u);
      assert (a + b)[..|a + b| - 1] == a + front;
    }
  }

  lemma {:induction false} ReplayOneMore(s: State, bodies: seq<seq<Byte>>, body: seq<Byte>, u: Setup)
    ensures Replay(s, bodies + [body], u) == OnBody(Replay(s, bodies, u), body, u)
  {
    assert (bodies + [body])[..|bodies|] == bodies;
  }

  lemma {:induction false} ReplayOneFirst(s: State, body: seq<Byte>, rest: seq<seq<Byte>>, u: Setup)
    ensures Replay(s, [body] + rest, u) == Replay(OnBody(s, body, u), rest, u)
  {
    ReplayAppend(s, [body], rest, u);
    ReplayOneMore(s, [], body, u);
    assert [] + [body] == [body];
  }

  lemma OnWritten(s: State, e: Entry, u: Setup)
    requires s.status == OK && Encodable(e)
    ensures OnBody(s, Body(e), u) == OnEntry(s, e, u)
  {
    EntryRoundTrip(e);
  }

  lemma {:induction false} InvalidStays(s: State, bodies: seq<seq<Byte>>, u: Setup)
    requires s.status == INVALID_LOG
    ensures Replay(s, bodies, u) == s
    decreases |bodies|
  {
    if bodies != [] { InvalidStays(s, bodies[..|bodies| - 1], u); }
  }

  // ---------------------------------------------------------------- which entries count

  /** Directory invalidation, or a header of another transfer. */
  predicate Invalidates(body: seq<Byte>, u: Setup) {
    || (body != [] && body[0] == 5)
    || (IsHeader(body) && ParseBody(body).Good? && ParseBody(body).entry.Header?
        && (ParseBody(body).entry.recoveryId != u.recoveryId || ParseBody(body).entry.config != u.config))
  }

  /** A header was seen after the last entry that invalidated the directory. */
  predicate Armed(bodies: seq<seq<Byte>>, u: Setup) {
    bodies != [] &&
    var last := bodies[|bodies| - 1];
    !Invalidates(last, u) && (IsHeader(last) || Armed(bodies[..|bodies| - 1], u))
  }

  /** The entries from that header on. */
  ghost function Live(bodies: seq<seq<Byte>>, u: Setup): seq<Entry> {
    if bodies == [] then []
    else
      var front, last := bodies[..|bodies| - 1], bodies[|bodies| - 1];
      if Invalidates(last, u) then []
      else if (IsHeader(last) || Armed(front, u)) && ParseBody(last).Good? then Live(front, u) + [ParseBody(last).entry]
      else Live(front, u)
  }

  // ---------------------------------------------------------------- what they say of one file

  predicate Creates(e: Entry, q: int) { e.FileCreation? && e.seqId == q }
  predicate Drops(e: Entry, q: int) { e.FileInvalidation? && e.seqId == q }

  /** `i` is the latest creation of `q`, and nothing has invalidated it since. */
  ghost predicate Latest(es: seq<Entry>, q: int, i: nat) {
    && i < |es| && Creates(es[i], q)
    && forall j | i < j < |es| :: !Creates(es[j], q) && !Drops(es[j], q)
  }

  /** Blocks of `q` written after entry `i`, in order. */
  ghost function Writes(es: seq<Entry>, q: int, i: nat): seq<Interval> {
    if |es| <= i + 1 then []
    else
      var front, last := es[..|es| - 1], es[|es| - 1];
      if last.BlockWrite? && last.seqId == q then
        Writes(front, q, i) + [Interval(last.offset, last.offset + last.blockSize)]
      else Writes(front, q, i)
  }

  /** The state holds of each seq-id what its latest creation and the entries after it say. */
  ghost predicate Tells(s: State, es: seq<Entry>, u: Setup) {
    && (forall q | q in s.files :: exists i: nat :: StandsAt(s, es, u, q, i))
    && (forall q | q in s.invalid :: exists i: nat :: FailsAt(es, u, q, i))
    && (forall q, i: nat | Latest(es, q, i) :: q in s.files || q in s.invalid)
    && s.files.Keys !! s.invalid
  }
  ghost predicate StandsAt(s: State, es: seq<Entry>, u: Setup, q: int, i: nat)
    requires q in s.files
  {
    Latest(es, q, i) && StatOk(es[i], u) && s.files[q] == Info(es[i].fileName, u.disk[es[i].fileName], Writes(es, q, i))
  }
  ghost predicate FailsAt(es: seq<Entry>, u: Setup, q: int, i: nat) { Latest(es, q, i) && !StatOk(es[i], u) }

  // ---------------------------------------------------------------- one more entry

  lemma {:induction false} LatestStays(es: seq<Entry>, e: Entry, q: int, i: nat)
    requires Latest(es, q, i) && !Creates(e, q) && !Drops(e, q)
    ensures Latest(es + [e], q, i)
    ensures Writes(es + [e], q, i) == Writes(es, q, i)
            + (if e.BlockWrite? && e.seqId == q then [Interval(e.offset, e.offset + e.blockSize)] else [])
  {
    var all := es + [e];
    assert all[..|all| - 1] == es;
    forall j | i < j < |all| ensures !Creates(all[j], q) && !Drops(all[j], q) {}
  }

  lemma LatestWas(es: seq<Entry>, e: Entry, q: int, i: nat)
    requires Latest(es + [e], q, i)
    ensures i == |es| ==> Creates(e, q)
    ensures i < |es| ==> Latest(es, q, i) && !Creates(e, q) && !Drops(e, q)
  {
    var all := es + [e];
    if i < |es| {
      assert all[|es|] == e;
      forall j | i < j < |es| ensures !Creates(es[j], q) && !Drops(es[j], q) { assert all[j] == es[j]; }
    }
  }

  /** An entry that neither creates, drops nor writes leaves the picture as it is. */
  lemma IdleTells(s: State, s': State, es: seq<Entry>, e: Entry, u: Setup)
    requires Tells(s, es, u) && s'.files == s.files && s'.invalid == s.invalid
    requires !e.FileCreation? && !e.FileInvalidation?
    requires e.BlockWrite? ==> e.seqId !in s.files
    ensures Tells(s', es + [e], u)
  {
    forall q | q in s'.files ensures exists i: nat :: StandsAt(s', es + [e], u, q, i) {
      var i: nat :| StandsAt(s, es, u, q, i);
      LatestStays(es, e, q, i);
      assert StandsAt(s', es + [e], u, q, i);
    }
    forall q | q in s'.invalid ensures exists i: nat :: FailsAt(es + [e], u, q, i) {
      var i: nat :| FailsAt(es, u, q, i);
      LatestStays(es, e, q, i);
      assert FailsAt(es + [e], u, q, i);
    }
    forall q, i: nat | Latest(es + [e], q, i) ensures q in s'.files || q in s'.invalid { LatestWas(es, e, q, i); }
  }

  lemma WriteTells(s: State, es: seq<Entry>, e: Entry, u: Setup)
    requires Tells(s, es, u) && e.BlockWrite? && OnBlockWrite(s, e).status != INVALID_LOG && e.seqId in s.files
    ensures Tells(OnBlockWrite(s, e), es + [e], u)
  {
    var s' := OnBlockWrite(s, e);
    forall q | q in s'.files ensures exists i: nat :: StandsAt(s', es + [e], u, q, i) {
      var i: nat :| StandsAt(s, es, u, q, i);
      LatestStays(es, e, q, i);
      assert StandsAt(s', es + [e], u, q, i);
    }
    forall q | q in s'.invalid ensures exists i: nat :: FailsAt(es + [e], u, q, i) {
      var i: nat :| FailsAt(es, u, q, i);
      LatestStays(es, e, q, i);
      assert FailsAt(es + [e], u, q, i);
    }
    forall q, i: nat | Latest(es + [e], q, i) ensures q in s'.files || q in s'.invalid { LatestWas(es, e, q, i); }
  }

  lemma {:induction false} CreationStands(es: seq<Entry>, e: Entry)
    requires e.FileCreation?
    ensures Latest(es + [e], e.seqId, |es|) && Writes(es + [e], e.seqId, |es|) == [] && (es + [e])[|es|] == e
  {
  }

  lemma CreationTells(s: State, es: seq<Entry>, e: Entry, u: Setup)
    requires Tells(s, es, u) && e.FileCreation? && OnFileCreation(s, e, u).status != INVALID_LOG && s.status == OK
    ensures Tells(OnFileCreation(s, e, u), es + [e], u)
  {
    var s' := OnFileCreation(s, e, u);
    CreationStands(es, e);
    forall q | q in s'.files ensures exists i: nat :: StandsAt(s', es + [e], u, q, i) {
      if q == e.seqId {
        assert StandsAt(s', es + [e], u, q, |es|);
      } else {
        var i: nat :| StandsAt(s, es, u, q, i);
        LatestStays(es, e, q, i);
        assert StandsAt(s', es + [e], u, q, i);
      }
    }
    forall q | q in s'.invalid ensures exists i: nat :: FailsAt(es + [e], u, q, i) {
      if q == e.seqId {
        assert FailsAt(es + [e], u, q, |es|);
      } else {
        var i: nat :| FailsAt(es, u, q, i);
        LatestStays(es, e, q, i);
        assert FailsAt(es + [e], u, q, i);
      }
    }
    forall q, i: nat | Latest(es + [e], q, i) ensures q in s'.files || q in s'.invalid { LatestWas(es, e, q, i); }
  }

  lemma InvalidationTells(s: State, es: seq<Entry>, e: Entry, u: Setup)
    requires Tells(s, es, u) && e.FileInvalidation? && OnFileInvalidation(s, e).status != INVALID_LOG
    ensures Tells(OnFileInvalidation(s, e), es + [e], u)
  {
    var s' := OnFileInvalidation(s, e);
    forall q | q in s'.files ensures exists i: nat :: StandsAt(s', es + [e], u, q, i) {
      var i: nat :| StandsAt(s, es, u, q, i);
      LatestStays(es, e, q, i);
      assert StandsAt(s', es + [e], u, q, i);
    }
    forall q | q in s'.invalid ensures exists i: nat :: FailsAt(es + [e], u, q, i) {
      var i: nat :| FailsAt(es, u, q, i);
      LatestStays(es, e, q, i);
      assert FailsAt(es + [e], u, q, i);
    }
    forall q, i: nat | Latest(es + [e], q, i) ensures q in s'.files || q in s'.invalid { LatestWas(es, e, q, i); }
  }

  // ---------------------------------------------------------------- whole logs

  /** What a replay that is not over knows. */
  ghost predicate Understood(s: State, bodies: seq<seq<Byte>>, u: Setup) {
    match s.status
    case INVALID_LOG => true
    case INCONSISTENT_DIRECTORY => !Armed(bodies, u) && Live(bodies, u) == [] && s.files == map[] && s.invalid == {}
    case OK => Tells(s, Live(bodies, u), u) && (if s.headerParsed then Armed(bodies, u) else bodies == [])
  }

  lemma {:induction false} LiveOneMore(bodies: seq<seq<Byte>>, body: seq<Byte>, u: Setup)
    ensures var all := bodies + [body];
            && Armed(all, u) == (!Invalidates(body, u) && (IsHeader(body) || Armed(bodies, u)))
            && Live(all, u) == if Invalidates(body, u) then []
                               else if (IsHeader(body) || Armed(bodies, u)) && ParseBody(body).Good?
                               then Live(bodies, u) + [ParseBody(body).entry] else Live(bodies, u)
  {
    assert (bodies + [body])[..|bodies|] == bodies;
  }

  /** The tag byte decides the kind of entry. */
  lemma TagDecides(body: seq<Byte>)
    ensures ParseBody(body).Good? ==> body != [] && body[0] == Tag(ParseBody(body).entry)
  {
  }

  lemma EntryTells(s: State, es: seq<Entry>, e: Entry, u: Setup)
    requires Tells(s, es, u) && s.status == OK && s.headerParsed && !e.Header? && !e.DirectoryInvalidation?
    ensures OnEntry(s, e, u).status != INVALID_LOG ==> Tells(OnEntry(s, e, u), es + [e], u)
    ensures OnEntry(s, e, u).status != INCONSISTENT_DIRECTORY && OnEntry(s, e, u).headerParsed
  {
    var s' := OnEntry(s, e, u);
    if s'.status != INVALID_LOG {
      match e {
        case FileCreation(_, _, _, _) => CreationTells(s, es, e, u);
        case BlockWrite(_, _, _, _) =>
          if e.seqId in s.files { WriteTells(s, es, e, u); } else { IdleTells(s, s', es, e, u); }
        case FileInvalidation(_, _) => InvalidationTells(s, es, e, u);
        case FileResize(_, _, _) => IdleTells(s, s', es, e, u);
      }
    }
  }

  lemma EntryUnderstood(s: State, bodies: seq<seq<Byte>>, body: seq<Byte>, u: Setup)
    requires Understood(s, bodies, u) && s.status == OK && s.headerParsed && ParseBody(body).Good?
    requires !ParseBody(body).entry.Header? && !ParseBody(body).entry.DirectoryInvalidation?
    ensures Understood(OnBody(s, body, u), bodies + [body], u)
  {
    LiveOneMore(bodies, body, u);
    TagDecides(body);
    EntryTells(s, Live(bodies, u), ParseBody(body).entry, u);
  }

  lemma HeaderUnderstood(s: State, bodies: seq<seq<Byte>>, body: seq<Byte>, u: Setup)
    requires Understood(s, bodies, u) && s.status != INVALID_LOG && ParseBody(body).Good?
             && ParseBody(body).entry.Header?
    ensures Understood(OnBody(s, body, u), bodies + [body], u)
  {
    var e := ParseBody(body).entry;
    LiveOneMore(bodies, body, u);
    TagDecides(body);
    var s' := OnHeader(s, e, u);
    if s'.status == OK { IdleTells(s.(status := OK), s', Live(bodies, u), e, u); }
  }

  lemma BodyUnderstood(s: State, bodies: seq<seq<Byte>>, body: seq<Byte>, u: Setup)
    requires Understood(s, bodies, u)
    ensures Understood(OnBody(s, body, u), bodies + [body], u)
  {
    LiveOneMore(bodies, body, u);
    TagDecides(body);
    var p := ParseBody(body);
    if s.status != INVALID_LOG && p.Good? {
      if p.entry.Header? {
        HeaderUnderstood(s, bodies, body, u);
      } else if s.status == OK && s.headerParsed && !p.entry.DirectoryInvalidation? {
        EntryUnderstood(s, bodies, body, u);
      }
    }
  }

  lemma {:induction false} ReplayUnderstood(bodies: seq<seq<Byte>>, senderIp: seq<Byte>, u: Setup)
    ensures Understood(Replay(Initial(senderIp), bodies, u), bodies, u)
    decreases |bodies|
  {
    if bodies != [] {
      var front, last := bodies[..|bodies| - 1], bodies[|bodies| - 1];
      ReplayUnderstood(front, senderIp, u);
      BodyUnderstood(Replay(Initial(senderIp), front, u), front, last, u);
      assert front + [last] == bodies;
    }
  }

  /** A seq-id has a result exactly when its latest creation passed the check; the result is what was written since. */
  ghost predicate Says(s: State, es: seq<Entry>, u: Setup, q: int) {
    && (q in s.files <==> exists i: nat :: Latest(es, q, i) && StatOk(es[i], u))
    && (q in s.invalid <==> exists i: nat :: Latest(es, q, i) && !StatOk(es[i], u))
    && (forall i: nat | Latest(es, q, i) && StatOk(es[i], u) && q in s.files ::
          s.files[q] == Info(es[i].fileName, u.disk[es[i].fileName], Writes(es, q, i)))
  }

  lemma {:induction false} LatestSays(s: State, es: seq<Entry>, u: Setup, q: int, i: nat)
    requires Tells(s, es, u) && Latest(es, q, i)
    ensures StatOk(es[i], u) ==>
            q in s.files && s.files[q] == Info(es[i].fileName, u.disk[es[i].fileName], Writes(es, q, i))
    ensures !StatOk(es[i], u) ==> q in s.invalid
  {
    if q in s.files {
      var j: nat :| StandsAt(s, es, u, q, j);
      OneLatest(es, q, i, j);
    } else {
      var j: nat :| FailsAt(es, u, q, j);
      OneLatest(es, q, i, j);
    }
  }

  lemma TellsSays(s: State, es: seq<Entry>, u: Setup, q: int)
    requires Tells(s, es, u)
    ensures Says(s, es, u, q)
  {
    if i: nat :| Latest(es, q, i) {
      LatestSays(s, es, u, q, i);
      forall j: nat | Latest(es, q, j) ensures j == i { OneLatest(es, q, i, j); }
    }
    if q in s.files { var j: nat :| StandsAt(s, es, u, q, j); }
    if q in s.invalid { var j: nat :| FailsAt(es, u, q, j); }
  }

  /**
   Of a log that replays without complaint: a seq-id has a result exactly when its latest creation, counting
   from the header after the last entry that invalidated the directory, passed its size check and was not
   invalidated later; and the result is then the blocks written since that creation.
   */
  lemma {:induction false} AcceptedLogTells(bodies: seq<seq<Byte>>, senderIp: seq<Byte>, u: Setup, q: int)
    requires Replay(Initial(senderIp), bodies, u).status == OK
    ensures Says(Replay(Initial(senderIp), bodies, u), Live(bodies, u), u, q)
  {
    ReplayUnderstood(bodies, senderIp, u);
    TellsSays(Replay(Initial(senderIp), bodies, u), Live(bodies, u), u, q);
  }

  lemma OneLatest(es: seq<Entry>, q: int, i: nat, j: nat)
    requires Latest(es, q, i) && Latest(es, q, j)
    ensures i == j
  {
  }

  // ---------------------------------------------------------------- whose log it is

  /** A header entry that can be used at all. */
  ghost predicate Usable(body: seq<Byte>) {
    && ParseBody(body).Good? && ParseBody(body).entry.Header?
    && ParseBody(body).entry.version == LOG_VERSION && ParseBody(body).entry.senderIp != []
  }
  /** It was written by the transfer that is set up now. */
  ghost predicate OwnHeader(body: seq<Byte>, u: Setup) {
    && Usable(body)
    && ParseBody(body).entry.recoveryId == u.recoveryId && ParseBody(body).entry.config == u.config
  }

  /** Body `h` is the latest header, nothing has invalidated the directory since, and the transfer is the same. */
  ghost predicate Headed(bodies: seq<seq<Byte>>, u: Setup, h: nat) {
    && h < |bodies| && OwnHeader(bodies[h], u)
    && forall m | h < m < |bodies| :: bodies[m] != [] && bodies[m][0] != 0 && bodies[m][0] != 5
  }
  ghost predicate CreationOf(body: seq<Byte>, q: int) { ParseBody(body).Good? && Creates(ParseBody(body).entry, q) }

  /** Body `j` creates `q`; the last header in front of it is one of this transfer, and so is every later one. */
  ghost predicate CreatedUnder(bodies: seq<seq<Byte>>, u: Setup, q: int, j: nat) {
    && j < |bodies| && CreationOf(bodies[j], q) && (exists h: nat :: Headed(bodies[..j], u, h))
    && forall m | j < m < |bodies| ::
      bodies[m] != [] && bodies[m][0] != 5 && (bodies[m][0] == 0 ==> OwnHeader(bodies[m], u))
  }

  ghost predicate Trusted(s: State, bodies: seq<seq<Byte>>, u: Setup) {
    && (s.status == OK && s.headerParsed ==> exists h: nat :: Headed(bodies, u, h))
    && (s.status == OK && !s.headerParsed ==> s.files == map[])
    && (s.status == INCONSISTENT_DIRECTORY ==> s.files == map[])
    && (s.status != INVALID_LOG ==> AllCreated(s.files, bodies, u))
  }
  ghost predicate AllCreated(files: map<int, Info>, bodies: seq<seq<Byte>>, u: Setup) {
    forall q: int | q in files :: exists j: nat :: CreatedUnder(bodies, u, q, j)
  }

  lemma HeadedStays(bodies: seq<seq<Byte>>, body: seq<Byte>, u: Setup, h: nat)
    requires Headed(bodies, u, h) && body != [] && body[0] != 0 && body[0] != 5
    ensures Headed(bodies + [body], u, h)
  {
    var all := bodies + [body];
    assert all[h] == bodies[h];
    forall m | h < m < |all| ensures all[m] != [] && all[m][0] != 0 && all[m][0] != 5 {}
  }

  lemma CreatedStays(bodies: seq<seq<Byte>>, body: seq<Byte>, u: Setup, q: int, j: nat)
    requires CreatedUnder(bodies, u, q, j) && body != [] && body[0] != 5 && (body[0] == 0 ==> OwnHeader(body, u))
    ensures CreatedUnder(bodies + [body], u, q, j)
  {
    var all := bodies + [body];
    assert all[..j] == bodies[..j] && all[j] == bodies[j];
  }

  /** Files that are new are created by `body`, under header `h`. */
  lemma AllCreatedOn(files: map<int, Info>, files': map<int, Info>, bodies: seq<seq<Byte>>, body: seq<Byte>, u: Setup,
                     h: nat)
    requires AllCreated(files, bodies, u) && body != [] && body[0] != 5 && (body[0] == 0 ==> OwnHeader(body, u))
    requires forall q: int | q in files' && q !in files :: CreationOf(body, q) && Headed(bodies, u, h)
    ensures AllCreated(files', bodies + [body], u)
  {
    forall q: int | q in files' ensures exists j: nat :: CreatedUnder(bodies + [body], u, q, j) {
      if q in files {
        var j: nat :| CreatedUnder(bodies, u, q, j);
        CreatedStays(bodies, body, u, q, j);
      } else {
        CreatedNow(bodies, body, u, q, h);
      }
    }
  }

  lemma CreatedNow(bodies: seq<seq<Byte>>, body: seq<Byte>, u: Setup, q: int, h: nat)
    requires Headed(bodies, u, h) && CreationOf(body, q)
    ensures CreatedUnder(bodies + [body], u, q, |bodies|)
  {
    var all := bodies + [body];
    assert all[..|bodies|] == bodies && all[|bodies|] == body;
    assert Headed(all[..|bodies|], u, h);
  }

  lemma BodyTrusted(s: State, bodies: seq<seq<Byte>>, body: seq<Byte>, u: Setup)
    requires Trusted(s, bodies, u)
    ensures Trusted(OnBody(s, body, u), bodies + [body], u)
  {
    var s' := OnBody(s, body, u);
    if s'.status == OK && s.status != INVALID_LOG {
      BodyKind(s, body, u);
      if ParseBody(body).entry.Header? {
        HeaderTrusted(s, s', bodies, body, u);
      } else {
        EntryTrusted(s, s', bodies, body, u);
      }
    } else if s'.status == INCONSISTENT_DIRECTORY && s.status != INVALID_LOG {
      BodyDistrusts(s, body, u);
    }
  }

  /** Which files can be new after an entry. */
  lemma EntryKind(s: State, e: Entry, u: Setup)
    requires s.status == OK && !e.Header? && OnEntry(s, e, u).status == OK
    ensures s.headerParsed && OnEntry(s, e, u).headerParsed && !e.DirectoryInvalidation?
    ensures forall q: int | q in OnEntry(s, e, u).files && q !in s.files :: Creates(e, q)
  {
  }

  lemma HeaderKind(s: State, e: Entry, u: Setup)
    requires e.Header? && OnHeader(s, e, u).status == OK
    ensures e.version == LOG_VERSION && e.senderIp != [] && e.recoveryId == u.recoveryId && e.config == u.config
    ensures OnHeader(s, e, u).files == s.files && OnHeader(s, e, u).headerParsed
  {
  }

  lemma EntryDistrusts(s: State, e: Entry, u: Setup)
    requires OnEntry(s, e, u).status == INCONSISTENT_DIRECTORY && s.status != INVALID_LOG
    requires s.status == INCONSISTENT_DIRECTORY ==> e.Header?
    ensures OnEntry(s, e, u).files == map[]
  {
  }

  /** What a body that goes through can have been. */
  lemma BodyKind(s: State, body: seq<Byte>, u: Setup)
    requires s.status != INVALID_LOG && OnBody(s, body, u).status == OK
    ensures var s', p := OnBody(s, body, u), ParseBody(body);
            && p.Good? && body != [] && body[0] == Tag(p.entry)
            && if p.entry.Header? then OwnHeader(body, u) && s'.files == s.files && s'.headerParsed
               else s.status == OK && s.headerParsed && s'.headerParsed && !p.entry.DirectoryInvalidation?
                    && forall q: int | q in s'.files && q !in s.files :: CreationOf(body, q)
  {
    TagDecides(body);
    var e := ParseBody(body).entry;
    if e.Header? { HeaderKind(s, e, u); } else { EntryKind(s, e, u); }
  }

  lemma BodyDistrusts(s: State, body: seq<Byte>, u: Setup)
    requires s.status != INVALID_LOG && OnBody(s, body, u).status == INCONSISTENT_DIRECTORY
    requires s.status == INCONSISTENT_DIRECTORY ==> s.files == map[]
    ensures OnBody(s, body, u).files == map[]
  {
    TagDecides(body);
    if s.status == OK || IsHeader(body) { EntryDistrusts(s, ParseBody(body).entry, u); }
  }

  lemma HeaderTrusted(s: State, s': State, bodies: seq<seq<Byte>>, body: seq<Byte>, u: Setup)
    requires Trusted(s, bodies, u) && s.status != INVALID_LOG && OwnHeader(body, u) && body != [] && body[0] == 0
    requires s'.status == OK && s'.headerParsed && s'.files == s.files
    ensures Trusted(s', bodies + [body], u)
  {
    assert (bodies + [body])[|bodies|] == body;
    assert Headed(bodies + [body], u, |bodies|);
    AllCreatedOn(s.files, s'.files, bodies, body, u, 0);
  }

  lemma EntryTrusted(s: State, s': State, bodies: seq<seq<Byte>>, body: seq<Byte>, u: Setup)
    requires Trusted(s, bodies, u) && s.status == OK && s.headerParsed && s'.status == OK && s'.headerParsed
    requires body != [] && body[0] != 0 && body[0] != 5
    requires forall q: int | q in s'.files && q !in s.files :: CreationOf(body, q)
    ensures Trusted(s', bodies + [body], u)
  {
    var h: nat :| Headed(bodies, u, h);
    HeadedStays(bodies, body, u, h);
    AllCreatedOn(s.files, s'.files, bodies, body, u, h);
  }

  lemma NothingTrusted(senderIp: seq<Byte>, u: Setup)
    ensures Trusted(Initial(senderIp), [], u)
  {
  }

  lemma {:induction false} LastTrusted(s: State, s': State, bodies: seq<seq<Byte>>, u: Setup)
    requires bodies != [] && Trusted(s, bodies[..|bodies| - 1], u) && s' == OnBody(s, bodies[|bodies| - 1], u)
    ensures Trusted(s', bodies, u)
  {
    var front, last := bodies[..|bodies| - 1], bodies[|bodies| - 1];
    BodyTrusted(s, front, last, u);
    assert front + [last] == bodies;
  }

  lemma {:induction false} ReplayTrusted(bodies: seq<seq<Byte>>, senderIp: seq<Byte>, u: Setup)
    ensures Trusted(Replay(Initial(senderIp), bodies, u), bodies, u)
    decreases |bodies|
  {
    if bodies == [] {
      NothingTrusted(senderIp, u);
    } else {
      var front := bodies[..|bodies| - 1];
      ReplayTrusted(front, senderIp, u);
      LastTrusted(Replay(Initial(senderIp), front, u), Replay(Initial(senderIp), bodies, u), bodies, u);
    }
  }

  /**
   Whatever the log: if parsing it goes through and a file is in the result, the file was created behind a header with
   the recovery id and the config of the transfer set up now, and no header of another one, nor an invalidation of
   the directory, comes later.
   */
  lemma {:induction false} ResultsAreOwn(bodies: seq<seq<Byte>>, senderIp: seq<Byte>, u: Setup, q: int)
    requires var s := Replay(Initial(senderIp), bodies, u); s.status != INVALID_LOG && q in s.files
    ensures exists j: nat :: CreatedUnder(bodies, u, q, j)
  {
    ReplayTrusted(bodies, senderIp, u);
  }

  /** No header among them. */
  ghost predicate Headless(bodies: seq<seq<Byte>>) { forall i | 0 <= i < |bodies| :: !IsHeader(bodies[i]) }

  lemma {:induction false} DistrustStays(s: State, rest: seq<seq<Byte>>, u: Setup)
    requires s.status == INCONSISTENT_DIRECTORY && Headless(rest)
    ensures Replay(s, rest, u) == s
    decreases |rest|
  {
    if rest != [] { DistrustStays(s, rest[..|rest| - 1], u); }
  }

  /**
   Whatever came before: a usable header with another recovery id or another config leaves no file in the result, up to
   the next header; one with both right goes on with the log.
   */
  lemma {:induction false} HeaderDecides(bodies: seq<seq<Byte>>, body: seq<Byte>, rest: seq<seq<Byte>>,
                                         senderIp: seq<Byte>, u: Setup)
    requires Replay(Initial(senderIp), bodies, u).status != INVALID_LOG && Usable(body) && Headless(rest)
    ensures var e, s := ParseBody(body).entry, Replay(Initial(senderIp), bodies + [body], u);
            if e.recoveryId == u.recoveryId && e.config == u.config then s.status == OK
            else s.status == INCONSISTENT_DIRECTORY
                 && var s' := Replay(Initial(senderIp), bodies + [body] + rest, u);
                    s'.status == INCONSISTENT_DIRECTORY && s'.files == map[] && s'.sizes == map[] && s'.invalid == {}
  {
    TagDecides(body);
    ReplayOneMore(Initial(senderIp), bodies, body, u);
    ReplayAppend(Initial(senderIp), bodies + [body], rest, u);
    var s := Replay(Initial(senderIp), bodies + [body], u);
    if s.status == INCONSISTENT_DIRECTORY { DistrustStays(s, rest, u); }
  }

  // ---------------------------------------------------------------- bytes

  /** parseLog on the bytes of a log. */
  function ParsedState(log: seq<Byte>, senderIp: seq<Byte>, u: Setup): State {
    var split := SplitLog(log);
    var s := Replay(Initial(senderIp), split.bodies, u);
    if split.bad then s.(status := INVALID_LOG) else s
  }

  lemma {:induction false} PrefixAccepted(bodies: seq<seq<Byte>>, n: nat, senderIp: seq<Byte>, u: Setup)
    requires n <= |bodies| && Replay(Initial(senderIp), bodies, u).status != INVALID_LOG
    ensures Replay(Initial(senderIp), bodies[..n], u).status != INVALID_LOG
  {
    assert bodies[..n] + bodies[n..] == bodies;
    ReplayAppend(Initial(senderIp), bodies[..n], bodies[n..], u);
    var s := Replay(Initial(senderIp), bodies[..n], u);
    if s.status == INVALID_LOG { InvalidStays(s, bodies[n..], u); }
  }

  /**
   A log whose last writes never reached the disk: whatever prefix of the bytes is left, parsing accepts it,
   replays exactly the entries wholly in it, and truncates the log to them.
   */
  lemma TornLogReplays(bodies: seq<seq<Byte>>, k: nat, senderIp: seq<Byte>, u: Setup) returns (n: nat)
    requires AllFramable(bodies) && k <= |Join(bodies)|
    requires Replay(Initial(senderIp), bodies, u).status != INVALID_LOG
    ensures Whole(bodies, k, n)
    ensures var torn := Join(bodies)[..k];
            && ParsedState(torn, senderIp, u) == Replay(Initial(senderIp), bodies[..n], u)
            && ParsedState(torn, senderIp, u).status != INVALID_LOG
            && SplitLog(torn).extra <= k && torn[..k - SplitLog(torn).extra] == Join(bodies[..n])
  {
    n := TornTail(bodies, k);
    PrefixAccepted(bodies, n, senderIp, u);
    assert Join(bodies)[..k][..|Join(bodies[..n])|] == Join(bodies)[..|Join(bodies[..n])|];
  }

  // ---------------------------------------------------------------- the recorded sizes

  predicate Resizes(e: Entry, q: int) { e.FileResize? && e.seqId == q }
  predicate Passes(e: Entry, u: Setup, q: int) { Creates(e, q) && StatOk(e, u) }

  /** Entry `i` gave `q` the size on record: the latest resize, or else the first creation that passed its check. */
  ghost predicate SizeFrom(es: seq<Entry>, u: Setup, q: int, i: nat) {
    && i < |es|
    && if Resizes(es[i], q) then forall j | i < j < |es| :: !Resizes(es[j], q)
       else Passes(es[i], u, q) && (forall j | 0 <= j < |es| :: !Resizes(es[j], q))
            && (forall j | 0 <= j < i :: !Passes(es[j], u, q))
  }

  /** Invalidating a file, and creating it again, leave the size on record alone. */
  ghost predicate SizesTell(s: State, es: seq<Entry>, u: Setup) {
    && (forall q: int | q in s.sizes :: exists i: nat :: SizeFrom(es, u, q, i) && s.sizes[q] == es[i].fileSize)
    && (forall q: int, i: nat | i < |es| && (Resizes(es[i], q) || Passes(es[i], u, q)) :: q in s.sizes)
  }

  lemma SizeStays(es: seq<Entry>, e: Entry, u: Setup, q: int, i: nat)
    requires SizeFrom(es, u, q, i) && !Resizes(e, q)
    ensures SizeFrom(es + [e], u, q, i) && (es + [e])[i] == es[i]
  {
    var all := es + [e];
    forall j | 0 <= j < |all| ensures j < |es| ==> all[j] == es[j] { }
  }

  /** A size not on record before is on record now. */
  lemma SizeComes(es: seq<Entry>, e: Entry, u: Setup, q: int)
    requires Resizes(e, q)
             || (Passes(e, u, q) && forall j | 0 <= j < |es| :: !Resizes(es[j], q) && !Passes(es[j], u, q))
    ensures SizeFrom(es + [e], u, q, |es|) && (es + [e])[|es|] == e
  {
    var all := es + [e];
    forall j | 0 <= j < |es| ensures all[j] == es[j] { }
  }

  lemma EntrySizes(s: State, e: Entry, es: seq<Entry>, u: Setup)
    requires SizesTell(s, es, u) && OnEntry(s, e, u).status == OK && !e.DirectoryInvalidation?
    ensures SizesTell(OnEntry(s, e, u), es + [e], u)
  {
    var s', all := OnEntry(s, e, u), es + [e];
    forall q: int | q in s'.sizes ensures exists i: nat :: SizeFrom(all, u, q, i) && s'.sizes[q] == all[i].fileSize {
      EntrySize(s, e, es, u, q);
    }
    forall q: int, i: nat | i < |all| && (Resizes(all[i], q) || Passes(all[i], u, q)) ensures q in s'.sizes {
      if i < |es| { assert all[i] == es[i]; }
    }
  }

  lemma EntrySize(s: State, e: Entry, es: seq<Entry>, u: Setup, q: int)
    requires SizesTell(s, es, u) && OnEntry(s, e, u).status == OK && !e.DirectoryInvalidation?
             && q in OnEntry(s, e, u).sizes
    ensures exists i: nat :: SizeFrom(es + [e], u, q, i) && OnEntry(s, e, u).sizes[q] == (es + [e])[i].fileSize
  {
    if Resizes(e, q) || q !in s.sizes {
      SizeComes(es, e, u, q);
      assert SizeFrom(es + [e], u, q, |es|);
    } else {
      var i: nat :| SizeFrom(es, u, q, i) && s.sizes[q] == es[i].fileSize;
      SizeStays(es, e, u, q, i);
    }
  }

  ghost predicate SizesKnown(s: State, bodies: seq<seq<Byte>>, u: Setup) {
    match s.status
    case INVALID_LOG => true
    case INCONSISTENT_DIRECTORY => s.sizes == map[]
    case OK => SizesTell(s, Live(bodies, u), u)
  }

  lemma BodySizes(s: State, bodies: seq<seq<Byte>>, body: seq<Byte>, u: Setup)
    requires Understood(s, bodies, u) && SizesKnown(s, bodies, u)
    ensures SizesKnown(OnBody(s, body, u), bodies + [body], u)
  {
    LiveOneMore(bodies, body, u);
    TagDecides(body);
    var p, s' := ParseBody(body), OnBody(s, body, u);
    if s.status != INVALID_LOG && p.Good? && s'.status == OK && !p.entry.DirectoryInvalidation? {
      EntrySizes(s, p.entry, Live(bodies, u), u);
    }
  }

  lemma {:induction false} ReplaySizes(bodies: seq<seq<Byte>>, senderIp: seq<Byte>, u: Setup)
    ensures SizesKnown(Replay(Initial(senderIp), bodies, u), bodies, u)
    decreases |bodies|
  {
    if bodies != [] {
      var front, last := bodies[..|bodies| - 1], bodies[|bodies| - 1];
      ReplaySizes(front, senderIp, u);
      ReplayUnderstood(front, senderIp, u);
      BodySizes(Replay(Initial(senderIp), front, u), front, last, u);
      assert front + [last] == bodies;
    }
  }

  /** The size a file has since its latest creation `k`. */
  ghost function CurrentSize(es: seq<Entry>, q: int, k: nat): int
    requires k < |es| && Creates(es[k], q)
    decreases |es|
  {
    var front, last := es[..|es| - 1], es[|es| - 1];
    if |es| == k + 1 then es[k].fileSize
    else if Resizes(last, q) then last.fileSize
    else CurrentSize(front, q, k)
  }

  lemma {:induction false} CurrentIs(es: seq<Entry>, q: int, k: nat, i: nat)
    requires k < |es| && Creates(es[k], q) && i < |es|
    requires forall j | i < j < |es| :: !Resizes(es[j], q)
    ensures i > k && Resizes(es[i], q) ==> CurrentSize(es, q, k) == es[i].fileSize
    ensures i <= k ==> CurrentSize(es, q, k) == es[k].fileSize
    decreases |es|
  {
    var front := es[..|es| - 1];
    if |es| > k + 1 && i < |es| - 1 {
      assert front[k] == es[k] && front[i] == es[i];
      forall j | i < j < |front| ensures !Resizes(front[j], q) { assert front[j] == es[j]; }
      CurrentIs(front, q, k, i);
    }
  }

  /** A resize to `size` is accepted. */
  predicate Accepts(s: State, t: Wire, q: Wire, size: Wire, u: Setup) {
    OnFileResize(s, FileResize(t, q, size), u).status == OK
  }

  /**
   It is one that should be: not below the file's size since its latest creation, and on disk if space is
   preallocated.
   */
  ghost predicate Proper(s: State, es: seq<Entry>, q: int, k: nat, size: int, u: Setup)
    requires q in s.files && k < |es| && Creates(es[k], q)
  {
    size >= CurrentSize(es, q, k) && (u.preallocate ==> size <= s.files[q].diskSize)
  }

  /**
   Of any accepted log with file `q` in it, created last by entry `k`: a size is on record, from entry `i`, and a
   resize is accepted exactly when it is not below that and on disk if need be.
   */
  lemma ResizeAccepted(bodies: seq<seq<Byte>>, senderIp: seq<Byte>, u: Setup, q: Wire, k: nat) returns (i: nat)
    requires var s := Replay(Initial(senderIp), bodies, u); s.status == OK && q in s.files
    requires Latest(Live(bodies, u), q, k)
    ensures SizeFrom(Live(bodies, u), u, q, i)
    ensures var s, recorded := Replay(Initial(senderIp), bodies, u), Live(bodies, u)[i].fileSize;
            forall t: Wire, size: Wire ::
              Accepts(s, t, q, size, u) <==> size >= recorded && (u.preallocate ==> size <= s.files[q].diskSize)
    ensures i >= k ==> CurrentSize(Live(bodies, u), q, k) == Live(bodies, u)[i].fileSize
    ensures i < k ==> CurrentSize(Live(bodies, u), q, k) == Live(bodies, u)[k].fileSize
  {
    var s, es := Replay(Initial(senderIp), bodies, u), Live(bodies, u);
    AcceptedLogTells(bodies, senderIp, u, q);
    ReplayUnderstood(bodies, senderIp, u);
    ReplaySizes(bodies, senderIp, u);
    assert Passes(es[k], u, q);
    i := OnRecord(s, es, u, q);
    AcceptsFrom(s, u, q, es[i].fileSize);
    CurrentIs(es, q, k, i);
  }

  lemma OnRecord(s: State, es: seq<Entry>, u: Setup, q: int) returns (i: nat)
    requires SizesTell(s, es, u) && q in s.sizes
    ensures SizeFrom(es, u, q, i) && s.sizes[q] == es[i].fileSize
  {
    i :| SizeFrom(es, u, q, i) && s.sizes[q] == es[i].fileSize;
  }

  lemma AcceptsFrom(s: State, u: Setup, q: Wire, recorded: int)
    requires s.status == OK && s.headerParsed && q in s.files && q in s.sizes && s.sizes[q] == recorded
    ensures forall t: Wire, size: Wire ::
              Accepts(s, t, q, size, u) <==> size >= recorded && (u.preallocate ==> size <= s.files[q].diskSize)
  {
  }

  /**
   Resizes are held against the size the file has since its latest creation if and only if the entry that put the
   size on record agrees with it, as it does when that entry is not older than the creation.
   */
  lemma ResizesProperIff(bodies: seq<seq<Byte>>, senderIp: seq<Byte>, u: Setup, q: Wire, k: nat) returns (i: nat)
    requires var s := Replay(Initial(senderIp), bodies, u); s.status == OK && q in s.files
    requires Latest(Live(bodies, u), q, k)
    ensures SizeFrom(Live(bodies, u), u, q, i)
    ensures var s, es := Replay(Initial(senderIp), bodies, u), Live(bodies, u);
            (forall t: Wire, size: Wire :: Accepts(s, t, q, size, u) <==> Proper(s, es, q, k, size, u))
            <==> i >= k || es[i].fileSize == es[k].fileSize
  {
    i := ResizeAccepted(bodies, senderIp, u, q, k);
    var s, es := Replay(Initial(senderIp), bodies, u), Live(bodies, u);
    AcceptedLogTells(bodies, senderIp, u, q);
    if i < k && es[i].fileSize != es[k].fileSize {
      var size: Wire := if es[i].fileSize < es[k].fileSize then es[i].fileSize else es[k].fileSize;
      assert Accepts(s, 0, q, size, u) != Proper(s, es, q, k, size, u);
    }
  }

  // ---------------------------------------------------------------- logs entry by entry

  ghost predicate AllEncodable(es: seq<Entry>) { forall i | 0 <= i < |es| :: Encodable(es[i]) }

  ghost function Written(es: seq<Entry>): seq<seq<Byte>>
    requires AllEncodable(es)
  {
    if es == [] then [] else Written(es[..|es| - 1]) + [Body(es[|es| - 1])]
  }

  /** Replaying entries none of which, but perhaps the last, meets with a complaint. */
  ghost predicate Leads(s: State, es: seq<Entry>, u: Setup, s': State)
    requires AllEncodable(es)
  {
    Replay(s, Written(es), u) == s'
  }

  lemma LeadsOn(s: State, es: seq<Entry>, u: Setup, s1: State, e: Entry)
    requires AllEncodable(es) && Encodable(e) && Leads(s, es, u, s1) && s1.status == OK
    ensures Leads(s, es + [e], u, OnEntry(s1, e, u))
  {
    assert (es + [e])[..|es|] == es;
    ReplayOneMore(s, Written(es), Body(e), u);
    OnWritten(s1, e, u);
  }

  ghost function OnAll(s: State, es: seq<Entry>, u: Setup): State {
    if es == [] then s else OnEntry(OnAll(s, es[..|es| - 1], u), es[|es| - 1], u)
  }

  ghost predicate GoesThrough(s: State, es: seq<Entry>, u: Setup) {
    forall n | 0 <= n < |es| :: OnAll(s, es[..n], u).status == OK
  }

  lemma {:induction false} FrontGoesThrough(s: State, es: seq<Entry>, u: Setup, n: nat)
    requires GoesThrough(s, es, u) && n < |es|
    ensures GoesThrough(s, es[..n], u) && OnAll(s, es[..n], u).status == OK
  {
    forall m | 0 <= m < n ensures OnAll(s, es[..n][..m], u).status == OK { assert es[..n][..m] == es[..m]; }
  }

  lemma {:induction false} LastLeads(s: State, es: seq<Entry>, u: Setup)
    requires AllEncodable(es) && es != [] && GoesThrough(s, es, u)
    requires var front := es[..|es| - 1]; Leads(s, front, u, OnAll(s, front, u))
    ensures Leads(s, es, u, OnAll(s, es, u))
  {
    var front, e := es[..|es| - 1], es[|es| - 1];
    FrontGoesThrough(s, es, u, |es| - 1);
    LeadsOn(s, front, u, OnAll(s, front, u), e);
    assert front + [e] == es;
  }

  lemma {:induction false} ReplayIsOnAll(s: State, es: seq<Entry>, u: Setup)
    requires AllEncodable(es) && GoesThrough(s, es, u)
    ensures Leads(s, es, u, OnAll(s, es, u))
    decreases |es|
  {
    if es == [] {
      assert Written(es) == [];
    } else {
      FrontGoesThrough(s, es, u, |es| - 1);
      ReplayIsOnAll(s, es[..|es| - 1], u);
      LastLeads(s, es, u);
    }
  }

  /** Created with size 10, invalidated, created again with size 20, and resized to 15. */
  function Shrink(name: seq<Byte>, ip: seq<Byte>, q: Wire, u: Setup): seq<Entry> {
    [Header(0, LOG_VERSION, u.recoveryId, ip, u.config), FileCreation(0, name, q, 10), FileInvalidation(0, q),
     FileCreation(0, name, q, 20), FileResize(0, q, 15)]
  }

  lemma {:induction false} OnAllStep(s: State, es: seq<Entry>, n: nat, u: Setup)
    requires n < |es|
    ensures OnAll(s, es[..n + 1], u) == OnEntry(OnAll(s, es[..n], u), es[n], u)
  {
    assert es[..n + 1][..n] == es[..n];
  }

  /** A log that shrinks a file below its size is accepted. */
  lemma {:induction false} ShrinkAccepted(name: seq<Byte>, ip: seq<Byte>, senderIp: seq<Byte>, q: Wire, u: Setup)
    requires name in u.disk && u.disk[name] >= 20 && |name| < U64_LIMIT
    requires ip != [] && |ip| < U64_LIMIT && |u.recoveryId| < U64_LIMIT
    ensures AllEncodable(Shrink(name, ip, q, u))
    ensures Replay(Initial(senderIp), Written(Shrink(name, ip, q, u)), u).status == OK
  {
    var es, s0 := Shrink(name, ip, q, u), Initial(senderIp);
    assert es[..0] == [] && es[..5] == es;
    OnAllStep(s0, es, 0, u);
    OnAllStep(s0, es, 1, u);
    OnAllStep(s0, es, 2, u);
    OnAllStep(s0, es, 3, u);
    OnAllStep(s0, es, 4, u);
    ReplayIsOnAll(s0, es, u);
  }
}
