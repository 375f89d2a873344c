/**
 The receiver thread's buffer (ReceiverThread.cpp): one array in which headers, the start of the data behind
 them and the start of whatever follows sit side by side, while the rest of the data passes through.
 `off` and `numRead` delimit the bytes read from the socket and not used yet.
 */
module ReceiverBuffer {
  import opened Serialization
  import opened Protocol

  /** Bytes land at `at`, everything else stays. */
  ghost predicate Stored(before: seq<Byte>, after: seq<Byte>, at: nat, bytes: seq<Byte>) {
    && |after| == |before| && at + |bytes| <= |before|
    && after[..at] == before[..at] && after[at..at + |bytes|] == bytes
    && after[at + |bytes|..] == before[at + |bytes|..]
  }

  method CopyInto(buf: array<Byte>, at: nat, bytes: seq<Byte>)
    requires at + |bytes| <= buf.Length
    modifies buf
    ensures Stored(old(buf[..]), buf[..], at, bytes)
  {
    var i := 0;
    while i < |bytes|
      invariant 0 <= i <= |bytes|
      invariant Stored(old(buf[..]), buf[..], at, bytes[..i])
    {
      buf[at + i] := bytes[i];
      StoreOneMore(old(buf[..]), buf[..][at + i := old(buf[..])[at + i]], buf[..], at, bytes, i);
      i := i + 1;
    }
    assert bytes[..|bytes|] == bytes;
  }

  lemma StoreOneMore(before: seq<Byte>, mid: seq<Byte>, after: seq<Byte>, at: nat, bytes: seq<Byte>, i: nat)
    requires i < |bytes| && at + |bytes| <= |before| && Stored(before, mid, at, bytes[..i])
    requires after == mid[at + i := bytes[i]]
    ensures Stored(before, after, at, bytes[..i + 1])
  {
    assert after[at..at + i + 1] == mid[at..at + i] + [bytes[i]];
    assert bytes[..i + 1] == bytes[..i] + [bytes[i]];
    assert after[at + i + 1..] == mid[at + i..][1..];
    assert before[at + i..][1..] == before[at + i + 1..];
  }

  /** Bytes land at `at`, and nothing before them changes. */
  ghost predicate Filled(before: seq<Byte>, after: seq<Byte>, at: nat, bytes: seq<Byte>) {
    && |after| == |before| && at + |bytes| <= |before|
    && after[..at] == before[..at] && after[at..at + |bytes|] == bytes
  }

  lemma FilledMore(before: seq<Byte>, mid: seq<Byte>, after: seq<Byte>, at: nat, a: seq<Byte>, b: seq<Byte>)
    requires Filled(before, mid, at, a) && Stored(mid, after, at + |a|, b)
    ensures Filled(before, after, at, a + b)
  {
    assert after[..at] == after[..at + |a|][..at] == mid[..at];
    SliceOfSlice(after, 0, at + |a|, at, at + |a|);
    SliceOfSlice(mid, 0, at + |a|, at, at + |a|);
    assert after[at..at + |a| + |b|] == after[at..at + |a|] + after[at + |a|..at + |a| + |b|];
  }

  /** `len` bytes of the stream, from `next` on, lie in the buffer at `at`. */
  ghost predicate Holds(b: seq<Byte>, at: nat, len: nat, stream: seq<Byte>, next: nat) {
    at + len <= |b| && next + len <= |stream| && b[at..at + len] == stream[next..next + len]
  }

  lemma HoldsMore(b: seq<Byte>, b': seq<Byte>, at: nat, len: nat, stream: seq<Byte>, next: nat, n: nat)
    requires Holds(b, at, len, stream, next) && next + len + n <= |stream|
    requires Filled(b, b', at + len, stream[next + len..next + len + n])
    ensures Holds(b', at, len + n, stream, next)
  {
    assert b'[at..at + len] == b[at..at + len] by {
      assert b'[..at + len][at..] == b[..at + len][at..];
    }
    assert b'[at..at + len + n] == b'[at..at + len] + b'[at + len..at + len + n];
    assert stream[next..next + len + n] == stream[next..next + len] + stream[next + len..next + len + n];
  }

  /** The same with the bytes between two places of the stream. */
  lemma HoldsOn(b: seq<Byte>, b': seq<Byte>, at: nat, len: nat, stream: seq<Byte>, next: nat, from: nat, to: nat)
    requires Holds(b, at, len, stream, next) && from == next + len && from <= to <= |stream|
    requires Filled(b, b', at + len, stream[from..to])
    ensures Holds(b', at, len + to - from, stream, next)
  {
    HoldsMore(b, b', at, len, stream, next, to - from);
  }

  lemma HoldsPart(b: seq<Byte>, at: nat, len: nat, stream: seq<Byte>, next: nat, i: nat, k: nat)
    requires Holds(b, at, len, stream, next) && i + k <= len
    ensures Holds(b, at + i, k, stream, next + i)
  {
    SliceOfSlice(b, at, at + len, i, i + k);
    SliceOfSlice(stream, next, next + len, i, i + k);
  }

  lemma SliceOfSlice(s: seq<Byte>, lo: nat, hi: nat, i: nat, j: nat)
    requires i <= j <= hi - lo && hi <= |s|
    ensures s[lo..hi][i..j] == s[lo + i..lo + j]
  {
    assert |s[lo..hi][i..j]| == |s[lo + i..lo + j]|;
    forall k | 0 <= k < j - i
      ensures s[lo..hi][i..j][k] == s[lo + i..lo + j][k]
    {
    }
  }

  /** Half of the buffer, or as far as a largest header still fits. */
  function HighWater(bufSize: nat): nat {
    if bufSize < 2 * MAX_HEADER then bufSize / 2 else bufSize - MAX_HEADER
  }

  lemma HighWaterRoom(bufSize: nat)
    requires bufSize >= MAX_HEADER
    ensures HighWater(bufSize) + MIN_BUF_LENGTH <= bufSize
  {
  }

  // ---------------------------------------------------------------- what the sender puts on a connection

  const DONE_CMD: Byte := 0x44
  const FILE_CMD: Byte := 0x4C
  const SIZE_CMD: Byte := 0x5A
  const FOOTER_CMD: Byte := 0x46

  /** A block, or the announcement of the total size. */
  datatype Command = File(status: Byte, bd: BlockDetails, data: seq<Byte>) | Size(total: Wire)

  type Checksum = v: I64 | I32_MIN <= v <= I32_MAX

  /** The header of a file command: command, status, length of it all, block details. */
  function FileHeader(version: int, status: Byte, bd: BlockDetails): (h: seq<Byte>)
    requires |bd.fileName| <= PATH_MAX
    ensures 4 <= |h| <= MAX_HEADER
  {
    HeaderFits(version, bd);
    var body := PutHeader(version, bd, []);
    var len := 4 + |body|;
    [FILE_CMD, status, len % 256, len / 256] + body
  }

  /** The little-endian length field. */
  function Length16(lo: nat, hi: nat): nat { lo + 256 * hi }

  /** Checksums are on when there is a checksum function. */
  datatype Footer = NoFooter | ChecksumFooter(crc: seq<Byte> -> Checksum)

  function FooterBytes(f: Footer, data: seq<Byte>): (r: seq<Byte>)
    ensures |r| <= MAX_FOOTER
  {
    match f
    case NoFooter => []
    case ChecksumFooter(crc) => ChecksumBytes(crc(data))
  }

  /** A footer with any checksum, and whether it is that of the data. */
  function SumBytes(f: Footer, sum: Checksum): seq<Byte> { if f.NoFooter? then [] else ChecksumBytes(sum) }
  predicate Confirms(f: Footer, sum: Checksum, data: seq<Byte>) { f.NoFooter? || f.crc(data) == sum }
  function SumOf(f: Footer, data: seq<Byte>): Checksum { if f.NoFooter? then 0 else f.crc(data) }

  /** The data is as long as the header says; only file names limit the header. */
  predicate Sound(c: Command) { c.File? ==> SoundBlock(c.bd) && |c.data| == c.bd.dataSize }

  predicate SoundBlock(bd: BlockDetails) { |bd.fileName| <= PATH_MAX && Consistent(bd) }

  predicate AllSound(cmds: seq<Command>) { forall i | 0 <= i < |cmds| :: Sound(cmds[i]) }

  function CommandBytes(version: int, f: Footer, c: Command): seq<Byte>
    requires Sound(c)
  {
    match c
    case File(status, bd, data) => FileHeader(version, status, bd) + (data + FooterBytes(f, data))
    case Size(total) => SizeBytes(total)
  }

  function StreamBytes(version: int, f: Footer, cmds: seq<Command>, last: seq<Byte>): (r: seq<Byte>)
    requires AllSound(cmds)
    ensures |last| <= |r|
  {
    if cmds == [] then last
    else CommandBytes(version, f, cmds[0]) + StreamBytes(version, f, cmds[1..], last)
  }

  /** The sender announces the size once. */
  predicate SizesApart(cmds: seq<Command>) {
    forall i | 0 < i < |cmds| :: !(cmds[i - 1].Size? && cmds[i].Size?)
  }

  datatype Received = Received(bd: BlockDetails, data: seq<Byte>)

  /** What a receiver of that version makes of the file commands. */
  function Blocks(version: int, cmds: seq<Command>): seq<Received> {
    if cmds == [] then []
    else
      var c := cmds[|cmds| - 1];
      Blocks(version, cmds[..|cmds| - 1])
      + if c.File? then [Received(HeaderAt(version, c.bd), c.data)] else []
  }

  /** `Crash` is an assertion that fails. */
  datatype Ending = GoesOn | Done | SocketError | ProtocolError | ChecksumMismatch | Crash

  /** Whether, and where in the stream, the bytes in the window are what comes next. */
  datatype Place = At(next: nat) | Lost

  // ---------------------------------------------------------------- decoding from the window

  /** A window that starts at a message and reaches beyond it: message, then the bytes behind it. */
  lemma MessageInWindow(s: seq<Byte>, next: nat, msg: seq<Byte>, end: nat)
    requires next + |msg| <= end <= |s| && s[next..next + |msg|] == msg
    ensures s[next..end] == msg + s[next + |msg|..end]
  {
  }

  lemma MessageStarts(s: seq<Byte>, next: nat, msg: seq<Byte>, more: seq<Byte>)
    requires next <= |s| && s[next..] == msg + more
    ensures next + |msg| <= |s| && s[next..next + |msg|] == msg && s[next + |msg|..] == more
  {
    SliceOfSlice(s, next, |s|, 0, |msg|);
    SliceOfSlice(s, next, |s|, |msg|, |s| - next);
    assert s[next..|s|] == msg + more;
  }

  /** What the receiver makes of a window that should start with a file header of `len` bytes. */
  datatype Reading = Refused | Understood(bd: BlockDetails)

  type HeaderDecoder = (int, seq<Byte>) -> Read<BlockDetails>

  function ReadDetails(decode: HeaderDecoder, version: int, w: seq<Byte>, len: nat): Reading
    requires |w| >= 4
  {
    match decode(version, w[4..])
    case Fail => Refused
    case Got(d, rest) =>
      if |w| - |rest| != len
         || (d.allocationStatus == TO_BE_DELETED && (d.fileSize != 0 || d.dataSize != 0)) then Refused
      else Understood(d)
  }

  /** It is the decoder of the protocol; used one header at a time. */
  ghost predicate Standard(decode: HeaderDecoder) {
    forall version: int, b: seq<Byte> {:trigger Asked(version, b)} ::
      Asked(version, b) ==> decode(version, b) == GetHeader(version, b)
  }

  predicate Asked(version: int, b: seq<Byte>) { true }

  lemma StandardReads(decode: HeaderDecoder, version: int, w: seq<Byte>, len: nat)
    requires Standard(decode) && |w| >= 4
    ensures ReadDetails(decode, version, w, len) == ReadDetails(GetHeader, version, w, len)
  {
    assert Asked(version, w[4..]);
  }

  /** A file that is to be deleted has no content. */
  predicate Consistent(bd: BlockDetails) {
    bd.allocationStatus == TO_BE_DELETED ==> bd.fileSize == 0 && bd.dataSize == 0
  }

  /**
   A whole header, whatever its length field `len` says, is understood as what was sent or not at all: if and only if
   the length is right and the details, as a receiver of that version sees them, are consistent.
   */
  lemma HeaderVerdict(version: int, status: Byte, bd: BlockDetails, len: nat, w: seq<Byte>)
    requires |bd.fileName| <= PATH_MAX && FileHeader(version, status, bd) <= w
    ensures var right := len == |FileHeader(version, status, bd)| && Consistent(HeaderAt(version, bd));
            ReadDetails(GetHeader, version, w, len) == if right then Understood(HeaderAt(version, bd)) else Refused
  {
    var h := FileHeader(version, status, bd);
    var tail := w[|h|..];
    assert w[4..] == h[4..] + tail;
    assert h[4..] == PutHeader(version, bd, []);
    HeaderAppends(version, bd, tail);
    HeaderRoundTrip(version, bd, tail);
  }

  lemma HeaderUnderstood(version: int, status: Byte, bd: BlockDetails, w: seq<Byte>)
    requires SoundBlock(bd) && FileHeader(version, status, bd) <= w
    ensures ReadDetails(GetHeader, version, w, |FileHeader(version, status, bd)|) == Understood(HeaderAt(version, bd))
  {
    HeaderVerdict(version, status, bd, |FileHeader(version, status, bd)|, w);
  }

  function SizeBytes(total: Wire): (m: seq<Byte>)
    ensures 1 < |m| <= MAX_SIZE
  {
    SizeAndFooterRoundTrip(total, 0, []);
    [SIZE_CMD] + Put(total, [])
  }

  /** A decoder's outcome on bytes that are `known` to be a message and what follows it. */
  method DecodeSize(b: seq<Byte>, ghost known: bool, ghost total: Wire, ghost tail: seq<Byte>)
    returns (ok: bool, got: int, left: nat)
    requires known ==> b == SizeBytes(total)[1..] + tail
    ensures known ==> ok && got == total && left == |tail|
    ensures ok ==> left < |b|
  {
    got, left := 0, 0;
    if known {
      assert SizeBytes(total)[1..] == Put(total, []);
      PutAppends(total, [], tail);
      assert [] + tail == tail;
      SizeAndFooterRoundTrip(total, 0, tail);
    }
    match Get(b)
    case Fail => ok := false;
    case Got(v, rest) => ok, got, left := true, v, |rest|;
  }

  function ChecksumBytes(crc: Checksum): (m: seq<Byte>)
    ensures 1 < |m| <= MAX_FOOTER
  {
    SizeAndFooterRoundTrip(0, crc, []);
    [FOOTER_CMD] + PutZigZag(crc, [])
  }

  method DecodeChecksum(b: seq<Byte>, ghost known: bool, ghost crc: Checksum, ghost tail: seq<Byte>)
    returns (ok: bool, got: int, left: nat)
    requires known ==> b == ChecksumBytes(crc)[1..] + tail
    ensures known ==> ok && got == crc && left == |tail|
    ensures ok ==> left < |b|
  {
    got, left := 0, 0;
    if known {
      assert ChecksumBytes(crc)[1..] == PutZigZag(crc, []);
      ZigZagAppends(crc, tail);
      SizeAndFooterRoundTrip(0, crc, tail);
    }
    match GetZigZag32(b)
    case Fail => ok := false;
    case Got(v, rest) => ok, got, left := true, v, |rest|;
  }

  lemma ZigZagAppends(v: I64, tail: seq<Byte>)
    ensures PutZigZag(v, tail) == PutZigZag(v, []) + tail
  {
    PutU64Appends(EncodeZigZag(v), tail);
  }

  ghost predicate InStream(version: int, f: Footer, c: Command, s: seq<Byte>, next: nat)
    requires Sound(c)
  {
    var m := CommandBytes(version, f, c);
    next + |m| <= |s| && s[next..next + |m|] == m
  }

  function SentOf(version: int, f: Footer, c: Command): Sent
    requires c.File? && Sound(c)
  {
    Sent(FileHeader(version, c.status, c.bd), HeaderAt(version, c.bd), c.data, FooterBytes(f, c.data))
  }

  lemma FilePieces(version: int, f: Footer, c: Command, s: seq<Byte>, next: nat)
    requires c.File? && Sound(c) && InStream(version, f, c, s, next)
    ensures var x := SentOf(version, f, c);
            && MessageAt(x.h, s, next) && MessageAt(x.data, s, next + |x.h|)
            && MessageAt(x.t, s, next + |x.h| + |x.data|)
            && |CommandBytes(version, f, c)| == |x.h| + |x.data| + |x.t|
  {
    var x := SentOf(version, f, c);
    CommandPieces(version, f, c);
    Pieces(s, next, x.h, x.data, x.t);
  }

  lemma CommandPieces(version: int, f: Footer, c: Command)
    requires c.File? && Sound(c)
    ensures var x := SentOf(version, f, c); CommandBytes(version, f, c) == x.h + (x.data + x.t)
  {
  }

  lemma Pieces(s: seq<Byte>, next: nat, h: seq<Byte>, d: seq<Byte>, t: seq<Byte>)
    requires var m := h + (d + t); next + |m| <= |s| && s[next..next + |m|] == m
    ensures var a, b := next + |h|, next + |h| + |d|;
            && b + |t| <= |s| && s[next..a] == h && s[a..b] == d && s[b..b + |t|] == t
  {
    var m := h + (d + t);
    SliceOfSlice(s, next, next + |m|, 0, |h|);
    SliceOfSlice(s, next, next + |m|, |h|, |h| + |d|);
    SliceOfSlice(s, next, next + |m|, |h| + |d|, |m|);
    assert m[0..|h|] == h && m[|h|..|h| + |d|] == d && m[|h| + |d|..|m|] == t;
  }

  /** The end of a connection's commands, without the padding. */
  datatype Goodbye = Goodbye(status: Byte, blocks: Wire, bytes: Wire)

  function DoneBytes(version: int, g: Goodbye): (m: seq<Byte>)
    ensures 2 < |m| <= MAX_DONE
  {
    DoneRoundTrip(version, g.blocks, g.bytes, []);
    [DONE_CMD, g.status] + PutDone(version, g.blocks, g.bytes, [])
  }

  /** Older versions do not tell the number of bytes. */
  function DoneAt(version: int, g: Goodbye): DoneValue {
    DoneValue(g.blocks, if version >= CHECKPOINT_OFFSET_VERSION then g.bytes else -1)
  }

  method DecodeDone(version: int, b: seq<Byte>, ghost known: bool, ghost g: Goodbye, ghost tail: seq<Byte>)
    returns (ok: bool, got: DoneValue)
    requires known ==> b == DoneBytes(version, g)[2..] + tail
    ensures known ==> ok && got == DoneAt(version, g)
  {
    got := DoneValue(-1, -1);
    if known {
      assert DoneBytes(version, g)[2..] == PutDone(version, g.blocks, g.bytes, []);
      DoneAppends(version, g.blocks, g.bytes, tail);
      DoneRoundTrip(version, g.blocks, g.bytes, tail);
    }
    match GetDone(version, b)
    case Fail => ok := false;
    case Got(d, _) => ok, got := true, d;
  }

  lemma DoneAppends(version: int, blocks: Wire, bytes: Wire, tail: seq<Byte>)
    ensures PutDone(version, blocks, bytes, tail) == PutDone(version, blocks, bytes, []) + tail
  {
    assert [] + tail == tail;
    PutAppends(bytes, [], tail);
    PutAppends(blocks, [], tail);
    PutAppends(blocks, Put(bytes, []), tail);
  }

  // ---------------------------------------------------------------- the read with the gap

  /**
   The window after a header longer than the `n` bytes at hand was read on: the `n` bytes, then `n` bytes that
   were in the buffer before, and only then the bytes just read, of which as many as the gap is long are left out.
   */
  function Gapped(b: seq<Byte>, at: nat, n: nat, more: seq<Byte>): seq<Byte>
    requires at + n + n <= |b|
  {
    (b[at..at + n + n] + more)[..n + |more|]
  }

  lemma GappedWindow(b: seq<Byte>, b': seq<Byte>, at: nat, n: nat, more: seq<Byte>)
    requires Filled(b, b', at + n + n, more)
    ensures b'[at..at + n + |more|] == Gapped(b, at, n, more)
  {
    SliceOfSlice(b, 0, at + n + n, at, at + n + n);
    SliceOfSlice(b', 0, at + n + n, at, at + n + n);
    assert b'[at..at + n + n + |more|] == b[at..at + n + n] + more;
    SliceOfSlice(b', at, at + n + n + |more|, 0, n + |more|);
  }

  function CommandByte(cmds: seq<Command>, k: nat): Byte
    requires k <= |cmds|
  {
    if k == |cmds| then DONE_CMD else if cmds[k].File? then FILE_CMD else SIZE_CMD
  }

  /** What a sender sends on one connection: commands, then the padded done command. */
  datatype Load = Load(version: int, footer: Footer, cmds: seq<Command>, last: seq<Byte>, bye: Goodbye)

  ghost predicate Loaded(l: Load) {
    AllSound(l.cmds) && SizesApart(l.cmds) && |l.last| == MIN_BUF_LENGTH && DoneBytes(l.version, l.bye) <= l.last
  }

  /** From `next` on the stream consists of the commands from number `k` on. */
  ghost predicate RestOf(l: Load, k: nat, s: seq<Byte>, next: nat) {
    && k <= |l.cmds| && next <= |s| && AllSound(l.cmds)
    && s[next..] == StreamBytes(l.version, l.footer, l.cmds[k..], l.last)
  }

  ghost predicate LongHeader(l: Load, k: nat) {
    && k < |l.cmds| && l.cmds[k].File? && Sound(l.cmds[k])
    && |FileHeader(l.version, l.cmds[k].status, l.cmds[k].bd)| > MIN_BUF_LENGTH
  }

  /** The bytes at the front of the stream are the next command, and behind it is the rest. */
  lemma NextCommand(l: Load, k: nat, s: seq<Byte>, next: nat)
    requires RestOf(l, k, s, next) && l.last != [] && l.last[0] == DONE_CMD
    ensures next < |s| && s[next] == CommandByte(l.cmds, k)
    ensures k == |l.cmds| ==> s[next..] == l.last
    ensures k < |l.cmds| ==> InStream(l.version, l.footer, l.cmds[k], s, next)
    ensures k < |l.cmds| ==> RestOf(l, k + 1, s, next + |CommandBytes(l.version, l.footer, l.cmds[k])|)
  {
    if k == |l.cmds| {
      assert s[next..][0] == l.last[0];
    } else {
      var m := CommandBytes(l.version, l.footer, l.cmds[k]);
      assert l.cmds[k..][0] == l.cmds[k] && l.cmds[k..][1..] == l.cmds[k + 1..];
      MessageStarts(s, next, m, StreamBytes(l.version, l.footer, l.cmds[k + 1..], l.last));
      assert m[0] == CommandByte(l.cmds, k);
      assert s[next..next + |m|][0] == m[0];
    }
  }

  lemma NextFile(l: Load, k: nat, s: seq<Byte>, next: nat, decode: HeaderDecoder)
    requires Loaded(l) && RestOf(l, k, s, next) && k < |l.cmds| && l.cmds[k].File? && Standard(decode)
    ensures var x := SentOf(l.version, l.footer, l.cmds[k]);
            && Sending(decode, l.version, x, s, next) && x.t == FooterBytes(l.footer, x.data)
            && RestOf(l, k + 1, s, next + |x.h| + |x.data| + |x.t|)
  {
    NextCommand(l, k, s, next);
    FilePieces(l.version, l.footer, l.cmds[k], s, next);
    HeaderReads(decode, l.version, l.cmds[k].status, l.cmds[k].bd);
  }

  lemma HeaderReads(decode: HeaderDecoder, version: int, status: Byte, bd: BlockDetails)
    requires Standard(decode) && SoundBlock(bd)
    ensures var h := FileHeader(version, status, bd);
            LengthRight(h) && ReadsAs(decode, version, h, HeaderAt(version, bd))
  {
    HeaderLength(version, status, bd);
    var h := FileHeader(version, status, bd);
    forall w: seq<Byte> | h <= w ensures ReadDetails(decode, version, w, |h|) == Understood(HeaderAt(version, bd)) {
      StandardReads(decode, version, w, |h|);
      HeaderUnderstood(version, status, bd, w);
    }
  }

  lemma NextSize(l: Load, k: nat, s: seq<Byte>, next: nat)
    requires Loaded(l) && RestOf(l, k, s, next) && k < |l.cmds| && l.cmds[k].Size?
    ensures var m := SizeBytes(l.cmds[k].total); next + |m| <= |s| && s[next..next + |m|] == m
    ensures RestOf(l, k + 1, s, next + |SizeBytes(l.cmds[k].total)|)
  {
    NextCommand(l, k, s, next);
  }

  lemma {:induction false} BlocksStep(version: int, cmds: seq<Command>, k: nat)
    requires k < |cmds|
    ensures Blocks(version, cmds[..k + 1]) ==
            Blocks(version, cmds[..k])
            + if cmds[k].File? then [Received(HeaderAt(version, cmds[k].bd), cmds[k].data)] else []
  {
    var p := cmds[..k + 1];
    assert p[|p| - 1] == cmds[k] && p[..|p| - 1] == cmds[..k];
  }

  class ReceiverThread {
    const stream: seq<Byte>            // everything the peer sends on the connection
    const buf: array<Byte>
    const decode: HeaderDecoder        // Protocol::decodeHeader
    var pos: nat                       // how much of it the socket has handed out
    var off: nat
    var numRead: nat
    var oldOffset: nat
    ghost var failed: bool             // a read from the socket has failed

    /** The unused bytes are in bounds, whatever they are, and no read has failed. */
    ghost predicate InBounds()
      reads this
    {
      !failed && off + numRead <= buf.Length && pos <= |stream| && buf.Length >= MAX_HEADER
    }

    /** They are the next of the stream, from byte `next`. */
    ghost predicate Ready(next: nat)
      reads this, buf
    {
      Holds(buf[..], off, numRead, stream, next) && pos == next + numRead
    }

    /** The window with the current command, the command byte taken. */
    ghost predicate InCommand()
      reads this
    {
      && off == oldOffset + 1 && numRead >= MIN_BUF_LENGTH
      && oldOffset + numRead <= buf.Length && pos <= |stream| && buf.Length >= MAX_HEADER && !failed
    }

    /** The bytes of the current command and behind it are at `oldOffset`. */
    ghost predicate Holding(next: nat)
      reads this, buf
    {
      Holds(buf[..], oldOffset, numRead, stream, next) && pos == next + numRead
    }

    /** Bytes not used yet, read or not. */
    ghost function Unused(): int
      reads this
    {
      |stream| - pos + numRead
    }

    constructor (stream: seq<Byte>, bufSize: nat)
      requires bufSize >= MAX_HEADER
      ensures InBounds() && Ready(0) && off == 0 && numRead == 0
      ensures this.stream == stream && buf.Length == bufSize && fresh(buf) && Standard(decode)
    {
      this.stream, decode := stream, GetHeader;
      buf := new Byte[bufSize];
      pos, off, numRead, oldOffset, failed := 0, 0, 0, 0, false;
    }

    /** A socket read delivers any number of bytes up to `max`, or ends, or fails. */
    method SocketRead(at: nat, max: nat) returns (n: int)
      requires at + max <= buf.Length && max > 0 && pos <= |stream|
      modifies buf, this`pos, this`failed
      ensures n <= max && (n <= 0 ==> pos == old(pos) && buf[..] == old(buf[..]))
      ensures n > 0 ==> pos == old(pos) + n <= |stream| && Stored(old(buf[..]), buf[..], at, stream[old(pos)..pos])
      ensures (n == 0 ==> pos == |stream|) && failed == (n < 0 || old(failed))
    {
      var fails: bool := *;
      if fails {
        failed := true;
        return -1;
      }
      if pos == |stream| {
        return 0;
      }
      var most := if |stream| - pos < max then |stream| - pos else max;
      var k: nat :| 1 <= k <= most;
      CopyInto(buf, at, stream[pos..pos + k]);
      pos := pos + k;
      return k;
    }

    /** Reads behind the first `len0` bytes at `at` until there are `atLeast`. */
    method ReadAtLeast(at: nat, atLeast: nat, len0: nat) returns (len: int)
      requires at + len0 <= buf.Length && 0 < atLeast <= buf.Length - at && pos <= |stream|
      modifies buf, this`pos, this`failed
      ensures len >= atLeast ==> len0 <= len && pos == old(pos) + len - len0 <= |stream|
      ensures len >= atLeast ==> Filled(old(buf[..]), buf[..], at + len0, stream[old(pos)..pos])
      ensures if len >= atLeast then failed == old(failed) else failed || |stream| - old(pos) + len0 < atLeast
    {
      len := len0;
      ghost var b0 := buf[..];
      while len < atLeast
        invariant len0 <= len && pos == old(pos) + len - len0 <= |stream|
        invariant Filled(b0, buf[..], at + len0, stream[old(pos)..pos]) && failed == old(failed)
        decreases atLeast - len
      {
        ghost var b, p := buf[..], pos;
        var n := SocketRead(at + len, buf.Length - at - len);
        if n < 0 {
          return if len > 0 then len else n;
        }
        if n == 0 {
          return len;
        }
        FilledMore(b0, b, buf[..], at + len0, stream[old(pos)..p], stream[p..pos]);
        assert stream[old(pos)..p] + stream[p..pos] == stream[old(pos)..pos];
        len := len + n;
      }
    }

    /** At least kMinBufLength bytes are in the window before a command is looked at. */
    method FillWindow(ghost place: Place) returns (e: Ending)
      requires InBounds() && (place.At? ==> Ready(place.next))
      modifies buf, this`pos, this`failed, this`numRead, this`oldOffset
      ensures e == GoesOn || e == SocketError || e == Crash
      ensures e == Crash <==> off + MIN_BUF_LENGTH > buf.Length
      ensures e == SocketError ==> failed || old(Unused()) < MIN_BUF_LENGTH
      ensures e == GoesOn ==> oldOffset == off && numRead >= MIN_BUF_LENGTH && InBounds() && Unused() == old(Unused())
      ensures e == GoesOn && place.At? ==> Holding(place.next)
    {
      if off + MIN_BUF_LENGTH > buf.Length {
        return Crash;
      }
      oldOffset := off;
      ghost var b := buf[..];
      var n := ReadAtLeast(off, MIN_BUF_LENGTH, numRead);
      if n < MIN_BUF_LENGTH {
        return SocketError;
      }
      if place.At? {
        HoldsOn(b, buf[..], off, numRead, stream, place.next, old(pos), pos);
      }
      numRead := n;
      e := GoesOn;
    }

    method ReadNextCmd(ghost place: Place) returns (e: Ending, cmd: Byte)
      requires InBounds() && (place.At? ==> Ready(place.next))
      modifies buf, this`pos, this`failed, this`off, this`numRead, this`oldOffset
      ensures e == GoesOn || e == SocketError || e == Crash
      ensures e == Crash <==> old(off) + MIN_BUF_LENGTH > buf.Length
      ensures e == SocketError ==> failed || old(Unused()) < MIN_BUF_LENGTH
      ensures e == GoesOn ==> InCommand() && oldOffset == old(off) && Unused() == old(Unused())
      ensures e == GoesOn && place.At? ==> Holding(place.next) && cmd == stream[place.next]
    {
      cmd := 0;
      e := FillWindow(place);
      if e == GoesOn {
        if place.At? {
          SeesByte(place.next, 0);
        }
        cmd := buf[off];
        off := off + 1;
      }
    }

    /** What a decoder that may look at `len` bytes of the command sees. */
    lemma Sees(next: nat, i: nat, len: nat)
      requires Holding(next) && i <= len <= numRead
      ensures oldOffset + len <= buf.Length && next + len <= |stream|
      ensures buf[oldOffset + i..oldOffset + len] == stream[next + i..next + len]
    {
      HoldsPart(buf[..], oldOffset, numRead, stream, next, i, len - i);
    }

    lemma SeesByte(next: nat, i: nat)
      requires Holding(next) && i < numRead
      ensures oldOffset + i < buf.Length && next + i < |stream| && buf[oldOffset + i] == stream[next + i]
    {
      assert buf[..][oldOffset..oldOffset + numRead][i] == buf[oldOffset + i];
    }

    /** A decoder sees the rest of the message and some of what follows it. */
    lemma SeesMessage(next: nat, msg: seq<Byte>, i: nat, len: nat)
      requires Holding(next) && i <= |msg| <= len <= numRead && stream[next..next + |msg|] == msg
      ensures oldOffset + len <= buf.Length && next + len <= |stream|
      ensures buf[oldOffset + i..oldOffset + len] == msg[i..] + stream[next + |msg|..next + len]
    {
      Sees(next, i, len);
      SliceOfSlice(stream, next, next + |msg|, i, |msg|);
      MessageInWindow(stream, next + i, msg[i..], next + len);
    }

    /** The same behind the command byte. */
    lemma SeesTail(next: nat, msg: seq<Byte>, len: nat) returns (tail: seq<Byte>)
      requires InCommand() && Holding(next) && 1 <= |msg| <= len <= MIN_BUF_LENGTH && MessageAt(msg, stream, next)
      ensures buf[off..oldOffset + len] == msg[1..] + tail && |tail| == len - |msg|
    {
      SeesMessage(next, msg, 1, len);
      tail := stream[next + |msg|..next + len];
    }

    /** Move on behind a message of `msgLen` bytes. */
    method TakeMessage(msgLen: nat, ghost place: Place)
      requires msgLen <= numRead && oldOffset + numRead <= buf.Length && (place.At? ==> Holding(place.next))
      modifies this`off, this`numRead
      ensures off == oldOffset + msgLen && numRead == old(numRead) - msgLen
      ensures place.At? ==> Ready(place.next + msgLen)
    {
      if place.At? {
        HoldsPart(buf[..], oldOffset, numRead, stream, place.next, msgLen, numRead - msgLen);
      }
      off := oldOffset + msgLen;
      numRead := numRead - msgLen;
    }

    method ProcessSizeCmd(ghost place: Place, ghost total: Wire) returns (e: Ending, t: int)
      requires InCommand()
      requires place.At? ==> Holding(place.next) && MessageAt(SizeBytes(total), stream, place.next)
      modifies this`off, this`numRead
      ensures e == GoesOn || e == ProtocolError
      ensures e == GoesOn ==> InBounds() && Unused() < old(Unused()) && off <= oldOffset + MAX_SIZE
      ensures place.At? ==> e == GoesOn && t == total && Ready(place.next + |SizeBytes(total)|)
    {
      var ok, len;
      ok, t, len := SizeInWindow(place, total);
      if !ok {
        return ProtocolError, t;
      }
      TakeMessage(len, place);
      e := GoesOn;
    }

    method SizeInWindow(ghost place: Place, ghost total: Wire) returns (ok: bool, t: int, len: nat)
      requires InCommand()
      requires place.At? ==> Holding(place.next) && MessageAt(SizeBytes(total), stream, place.next)
      ensures 1 <= len <= MAX_SIZE && (place.At? ==> ok && t == total && len == |SizeBytes(total)|)
    {
      ghost var tail := [];
      if place.At? {
        tail := SeesTail(place.next, SizeBytes(total), MAX_SIZE);
      }
      var left;
      ok, t, left := DecodeSize(buf[off..oldOffset + MAX_SIZE], place.At?, total, tail);
      len := if ok then MAX_SIZE - left else 1;
    }

    /**
     Up to the end of the header.  When it is longer than what was read, the read is told both to start behind the
     bytes at hand and to skip as many.
     */
    method ReadHeader(ghost place: Place, ghost h: seq<Byte>) returns (e: Ending, headerLen: nat)
      requires InCommand()
      requires place.At? ==> Holding(place.next) && LengthRight(h) && MessageAt(h, stream, place.next)
      modifies buf, this`pos, this`failed, this`off, this`numRead
      ensures e != Done && (e == GoesOn ==> 0 < headerLen <= numRead && off == oldOffset + 4 && 4 <= numRead)
      ensures e == GoesOn ==> oldOffset + numRead <= buf.Length && pos <= |stream| && Unused() == old(Unused())
      ensures e == GoesOn ==> !failed
      ensures place.At? && e == GoesOn ==> headerLen == |h| && pos == place.next + numRead
      ensures place.At? && e == SocketError ==> failed
      ensures place.At? && |h| <= old(numRead) ==> e == GoesOn && Holding(place.next)
      ensures place.At? && |h| > old(numRead) ==>
                && (e == Crash <==> oldOffset + old(numRead) + |h| > buf.Length)
                && (e == GoesOn || e == SocketError || e == Crash)
                && (e == GoesOn ==> GapRead(old(buf[..]), oldOffset, old(numRead), stream, place.next,
                                            buf[oldOffset..oldOffset + numRead]))
    {
      if place.At? {
        SeesLength(place.next, h);
      }
      off := off + 1;
      headerLen := Length16(buf[off], buf[off + 1]);
      if headerLen == 0 || headerLen >= 0x8000 {
        return ProtocolError, headerLen;
      }
      e := HaveHeader(headerLen, place);
      off := off + 2;
    }

    /** Reads on if the header is longer than what was read. */
    method HaveHeader(headerLen: nat, ghost place: Place) returns (e: Ending)
      requires numRead >= MIN_BUF_LENGTH && oldOffset + numRead <= buf.Length && pos <= |stream| && !failed
      requires place.At? ==> Holding(place.next)
      modifies buf, this`pos, this`failed, this`numRead
      ensures e == GoesOn || e == SocketError || e == Crash
      ensures e == GoesOn ==>
              headerLen <= numRead && MIN_BUF_LENGTH <= numRead && oldOffset + numRead <= buf.Length && pos <= |stream|
      ensures e == GoesOn ==> Unused() == old(Unused()) && !failed && (place.At? ==> pos == place.next + numRead)
      ensures e == SocketError ==> failed || old(Unused()) < headerLen
      ensures headerLen <= old(numRead) ==> e == GoesOn && (place.At? ==> Holding(place.next))
      ensures headerLen > old(numRead) ==> (e == Crash <==> oldOffset + old(numRead) + headerLen > buf.Length)
      ensures place.At? && headerLen > old(numRead) && e == GoesOn ==>
                GapRead(old(buf[..]), oldOffset, old(numRead), stream, place.next, buf[oldOffset..oldOffset + numRead])
    {
      e := GoesOn;
      if headerLen > numRead {
        e := ReadRestOfHeader(headerLen);
      }
    }

    lemma SeesLength(next: nat, h: seq<Byte>)
      requires Holding(next) && numRead >= MIN_BUF_LENGTH && LengthRight(h) && MessageAt(h, stream, next)
      ensures oldOffset + 3 < buf.Length && Length16(buf[oldOffset + 2], buf[oldOffset + 3]) == |h|
    {
      SeesByte(next, 2);
      SeesByte(next, 3);
      assert stream[next..next + |h|][2] == stream[next + 2] && stream[next..next + |h|][3] == stream[next + 3];
    }

    method ReadRestOfHeader(headerLen: nat) returns (e: Ending)
      requires numRead < headerLen && oldOffset + numRead <= buf.Length && pos <= |stream| && !failed
      modifies buf, this`pos, this`failed, this`numRead
      ensures e == GoesOn || e == SocketError || e == Crash
      ensures e == Crash <==> oldOffset + old(numRead) + headerLen > buf.Length
      ensures (e == GoesOn ==> !failed) && (e == SocketError ==> failed || old(Unused()) < headerLen)
      ensures e == GoesOn ==> headerLen <= numRead && oldOffset + numRead <= buf.Length
      ensures e == GoesOn ==> pos == old(pos) + numRead - old(numRead) <= |stream|
      ensures e == GoesOn ==> oldOffset + old(numRead) + old(numRead) <= buf.Length
      ensures e == GoesOn ==>
                buf[oldOffset..oldOffset + numRead] ==
                  Gapped(old(buf[..]), oldOffset, old(numRead), stream[old(pos)..pos])
    {
      var end := oldOffset + numRead;
      if headerLen > buf.Length - end {
        return Crash;
      }
      var n := ReadAtLeast(end, headerLen, numRead);
      if n < headerLen {
        return SocketError;
      }
      GappedWindow(old(buf[..]), buf[..], oldOffset, numRead, stream[old(pos)..pos]);
      numRead := n;
      e := GoesOn;
    }

    /** The block details behind the length field. */
    method DecodeHeader(version: int, headerLen: nat) returns (r: Reading, ghost w: seq<Byte>)
      requires off == oldOffset + 4 <= oldOffset + numRead <= buf.Length
      modifies this`off
      ensures w == buf[oldOffset..oldOffset + numRead] && r == ReadDetails(decode, version, w, headerLen)
      ensures r.Understood? ==> off == oldOffset + headerLen
    {
      w := buf[oldOffset..oldOffset + numRead];
      assert w[4..] == buf[off..oldOffset + numRead];
      match decode(version, buf[off..oldOffset + numRead])
      case Fail => r := Refused;
      case Got(d, rest) =>
        if headerLen != numRead - |rest|
           || (d.allocationStatus == TO_BE_DELETED && (d.fileSize != 0 || d.dataSize != 0)) {
          r := Refused;
        } else {
          off := oldOffset + numRead - |rest|;
          r := Understood(d);
        }
    }

    /** The header `h` of a file command; `w` is the window it was decoded from. */
    method ProcessFileHeader(version: int, ghost place: Place, ghost h: seq<Byte>)
      returns (e: Ending, got: BlockDetails, ghost w: seq<Byte>, ghost r: Reading)
      requires InCommand()
      requires place.At? ==> Holding(place.next) && LengthRight(h) && MessageAt(h, stream, place.next)
      modifies buf, this`pos, this`failed, this`off, this`numRead
      ensures e == GoesOn ==>
              oldOffset < off <= oldOffset + numRead <= buf.Length && pos <= |stream| && Unused() == old(Unused())
      ensures e == GoesOn ==> w == buf[oldOffset..oldOffset + numRead] && r == Understood(got) && !failed
      ensures e != Done && (place.At? && e == SocketError ==> failed)
      ensures place.At? ==> HeaderOutcome(|h|, old(buf[..]), oldOffset, old(numRead), stream, place.next, e, w)
      ensures place.At? && Decoded(e, w) ==> |h| <= |w| && r == ReadDetails(decode, version, w, |h|) && e == EndingOf(r)
      ensures place.At? && e == GoesOn ==> off == oldOffset + |h| && pos == place.next + numRead
    {
      got, w, r := BlockDetails([], 0, 0, 0, 0, NOT_EXISTS, 0), [], Refused;
      var len;
      e, len := ReadHeader(place, h);
      if e == GoesOn {
        e, got, w, r := UseHeader(version, len);
      }
    }

    /** The details of a header that has been read. */
    method UseHeader(version: int, len: nat)
      returns (e: Ending, got: BlockDetails, ghost w: seq<Byte>, ghost r: Reading)
      requires off == oldOffset + 4 <= oldOffset + numRead <= buf.Length && 0 < len <= numRead
      modifies this`off
      ensures w == buf[oldOffset..oldOffset + numRead] && r == ReadDetails(decode, version, w, len)
      ensures e == EndingOf(r) && (e == GoesOn ==> r == Understood(got) && off == oldOffset + len)
    {
      got := BlockDetails([], 0, 0, 0, 0, NOT_EXISTS, 0);
      var q;
      q, w := DecodeHeader(version, len);
      r := q;
      e := EndingOf(q);
      match q
      case Refused =>
      case Understood(d) => got := d;
    }

    /**
     The data of a block: first what is in the window, then straight from the socket.  What remains of the
     window afterwards is taken for the start of the next command; `d` is the window from the data on.
     */
    method ReceiveData(dataSize: nat, ghost d: seq<Byte>) returns (data: seq<Byte>, remaining: nat)
      requires oldOffset <= off <= oldOffset + numRead <= buf.Length && pos <= |stream| && buf.Length > 0
      requires d == buf[off..oldOffset + numRead]
      modifies buf, this`pos, this`failed, this`off
      ensures var t := if |d| >= dataSize then dataSize else |d|;
              && t <= |data| <= dataSize && remaining == |d| - t && off == old(off) + t
              && pos == old(pos) + |data| - t <= |stream| && data == d[..t] + stream[old(pos)..pos]
              && off + remaining <= buf.Length && buf[off..off + remaining] == d[t..]
      ensures if |data| == dataSize then failed == old(failed) else failed || pos == |stream|
    {
      remaining := numRead + oldOffset - off;
      var toWrite := if remaining >= dataSize then dataSize else remaining;
      data := buf[off..off + toWrite];
      SliceOfSlice(buf[..], off, off + |d|, 0, toWrite);
      SliceOfSlice(buf[..], off, off + |d|, toWrite, |d|);
      off := off + toWrite;
      remaining := remaining - toWrite;
      if |data| < dataSize {
        data := StreamData(data, dataSize);
      }
    }

    /** Reads at most what is missing, each time to the start of the buffer. */
    method StreamData(first: seq<Byte>, dataSize: nat) returns (data: seq<Byte>)
      requires |first| < dataSize && buf.Length > 0 && pos <= |stream|
      modifies buf, this`pos, this`failed
      ensures |first| <= |data| <= dataSize && pos == old(pos) + |data| - |first| <= |stream|
      ensures data == first + stream[old(pos)..pos]
      ensures if |data| == dataSize then failed == old(failed) else failed || pos == |stream|
    {
      data := first;
      while |data| < dataSize
        invariant |first| <= |data| <= dataSize && pos == old(pos) + |data| - |first| <= |stream|
        invariant data == first + stream[old(pos)..pos] && failed == old(failed)
        decreases dataSize - |data|
      {
        ghost var p := pos;
        var target := if dataSize - |data| < buf.Length then dataSize - |data| else buf.Length;
        var n := SocketRead(0, target);
        if n <= 0 {
          break;
        }
        assert buf[..n] == buf[..][0..n] == stream[p..pos];
        assert stream[old(pos)..pos] == stream[old(pos)..p] + stream[p..pos];
        data := data + buf[..n];
      }
    }

    /** Leftover bytes stay where they are, unless they are few and far behind. */
    method KeepLeftover(remaining: nat, ghost kept: seq<Byte>)
      requires off + remaining <= buf.Length && buf.Length >= MAX_HEADER && kept == buf[off..off + remaining]
      modifies buf, this`off, this`numRead
      ensures numRead == remaining && off + numRead <= buf.Length && off <= HighWater(buf.Length)
      ensures buf[off..off + numRead] == kept
    {
      numRead := remaining;
      if remaining == 0 {
        off := 0;
      } else if remaining < MAX_HEADER && off > buf.Length / 2 {
        CopyInto(buf, 0, buf[off..off + remaining]);
        off := 0;
      }
    }

    /**
     The data of a file command whose header is used up, and what is left of the window; `d` is the window from
     there on.
     */
    method TakeData(dataSize: nat, ghost d: seq<Byte>) returns (ok: bool, data: seq<Byte>)
      requires oldOffset < off <= oldOffset + numRead <= buf.Length && pos <= |stream| && buf.Length >= MAX_HEADER
      requires !failed && d == buf[off..oldOffset + numRead]
      modifies buf, this`pos, this`failed, this`off, this`numRead
      ensures ok ==> InBounds() && off <= HighWater(buf.Length) && Unused() < old(Unused())
      ensures ok ==> Taken(d, dataSize, stream, old(pos), pos, data, buf[..], off, numRead)
      ensures !ok ==> failed || |stream| - old(pos) + |d| < dataSize
    {
      var remaining;
      data, remaining := ReceiveData(dataSize, d);
      ok := |data| == dataSize;
      if ok {
        KeepLeftover(remaining, d[|d| - remaining..]);
      }
    }

    /** Header and data of a file command. */
    method ReceiveFile(version: int, ghost place: Place, ghost h: seq<Byte>)
      returns (e: Ending, block: Received, ghost head: Ending, ghost w: seq<Byte>)
      requires InCommand()
      requires place.At? ==> Holding(place.next) && LengthRight(h) && MessageAt(h, stream, place.next)
      modifies buf, this`pos, this`failed, this`off, this`numRead
      ensures e != Done && (e == GoesOn ==> InBounds() && off <= HighWater(buf.Length) && Unused() < old(Unused()))
      ensures e == GoesOn ==> head == GoesOn
      ensures e != GoesOn ==> e == head || (head == GoesOn && e == SocketError)
      ensures place.At? ==> HeaderOutcome(|h|, old(buf[..]), oldOffset, old(numRead), stream, place.next, head, w)
      ensures place.At? && Decoded(head, w) ==> |h| <= |w| && head == EndingOf(ReadDetails(decode, version, w, |h|))
      ensures place.At? && e == GoesOn ==> BlockFrom(decode, version, w, |h|, stream, place.next, block)
      ensures place.At? && e == GoesOn && Intact(w, stream, place.next) ==> Ready(place.next + |h| + block.bd.dataSize)
      ensures place.At? && e == SocketError && !failed ==>
                DataMissing(decode, version, w, |h|, stream, place.next, block.bd)
    {
      var got;
      ghost var r;
      e, got, w, r := ProcessFileHeader(version, place, h);
      head := e;
      block := Received(got, []);
      if e == GoesOn {
        e, block := FinishFile(version, got, place, |h|, w);
      }
    }

    /** The data behind a header of `h` bytes that was read as `bd` in the window `w`. */
    method FinishFile(version: int, bd: BlockDetails, ghost place: Place, ghost h: nat, ghost w: seq<Byte>)
      returns (e: Ending, block: Received)
      requires oldOffset < off <= oldOffset + numRead <= buf.Length && pos <= |stream| && buf.Length >= MAX_HEADER
      requires !failed
      requires place.At? ==>
               off == oldOffset + h && pos == place.next + numRead && w == buf[oldOffset..oldOffset + numRead]
      requires place.At? ==> 4 <= |w| && h <= |w| && ReadDetails(decode, version, w, h) == Understood(bd)
      modifies buf, this`pos, this`failed, this`off, this`numRead
      ensures e == GoesOn || e == SocketError
      ensures e == GoesOn ==> InBounds() && off <= HighWater(buf.Length) && Unused() < old(Unused())
      ensures place.At? && e == GoesOn ==> BlockFrom(decode, version, w, h, stream, place.next, block)
      ensures place.At? && e == GoesOn && Intact(w, stream, place.next) ==> Ready(place.next + h + block.bd.dataSize)
      ensures place.At? && e == SocketError && !failed ==>
                DataMissing(decode, version, w, h, stream, place.next, block.bd)
    {
      var ok, data := TakeBlockData(bd.dataSize, place, h, w);
      block := Received(bd, data);
      if place.At? {
        FileOutcome(decode, version, w, h, stream, place.next, block, ok, failed);
      }
      e := if ok then GoesOn else SocketError;
    }

    /** A part of the window `w`. */
    lemma PartOfWindow(w: seq<Byte>, i: nat, j: nat)
      requires oldOffset + numRead <= buf.Length && w == buf[oldOffset..oldOffset + numRead] && i <= j <= numRead
      ensures buf[oldOffset + i..oldOffset + j] == w[i..j]
    {
      SliceOfSlice(buf[..], oldOffset, oldOffset + numRead, i, j);
    }

    /** The data behind a header of `h` bytes in the window `w`. */
    method TakeBlockData(dataSize: nat, ghost place: Place, ghost h: nat, ghost w: seq<Byte>)
      returns (ok: bool, data: seq<Byte>)
      requires oldOffset < off <= oldOffset + numRead <= buf.Length && pos <= |stream| && buf.Length >= MAX_HEADER
      requires !failed
      requires place.At? ==>
               off == oldOffset + h && pos == place.next + numRead && w == buf[oldOffset..oldOffset + numRead]
      modifies buf, this`pos, this`failed, this`off, this`numRead
      ensures ok ==> InBounds() && off <= HighWater(buf.Length) && Unused() < old(Unused())
      ensures ok && place.At? ==> DataFrom(w, h, dataSize, stream, place.next, data)
      ensures ok && place.At? && Intact(w, stream, place.next) ==> Ready(place.next + h + dataSize)
      ensures !ok && place.At? ==> failed || place.next + h + dataSize > |stream|
    {
      ghost var d, p := buf[off..oldOffset + numRead], pos;
      if place.At? {
        PartOfWindow(w, h, |w|);
        d := w[h..|w|];
      }
      ok, data := TakeData(dataSize, d);
      if ok && place.At? {
        AfterData(w, h, dataSize, stream, place.next, data, p, pos, buf[..], off, numRead);
      }
    }

    /** The checksum behind a block's data. */
    method ReadFooter(ghost place: Place, ghost crc: Checksum) returns (e: Ending, got: int)
      requires InBounds()
      requires place.At? ==>
               Ready(place.next) && MessageAt(ChecksumBytes(crc), stream, place.next)
               && off + MIN_BUF_LENGTH <= buf.Length && place.next + MIN_BUF_LENGTH <= |stream|
      modifies buf, this`pos, this`failed, this`off, this`numRead, this`oldOffset
      ensures e != Done && (e == GoesOn ==> InBounds() && Unused() < old(Unused()) && off <= old(off) + MAX_FOOTER)
      ensures place.At? ==> e == GoesOn || (e == SocketError && failed)
      ensures place.At? && e == GoesOn ==> got == crc && Ready(place.next + |ChecksumBytes(crc)|)
    {
      got := 0;
      var cmd;
      e, cmd := ReadNextCmd(place);
      if e != GoesOn {
        return;
      }
      if place.At? {
        assert stream[place.next] == stream[place.next..place.next + |ChecksumBytes(crc)|][0];
      }
      if cmd != FOOTER_CMD {
        return ProtocolError, got;
      }
      e, got := DecodeFooter(place, crc);
    }

    method DecodeFooter(ghost place: Place, ghost crc: Checksum) returns (e: Ending, got: int)
      requires InCommand()
      requires place.At? ==> Holding(place.next) && MessageAt(ChecksumBytes(crc), stream, place.next)
      modifies this`off, this`numRead
      ensures e == GoesOn || e == ProtocolError
      ensures e == GoesOn ==> InBounds() && Unused() < old(Unused()) && off <= oldOffset + MAX_FOOTER
      ensures place.At? ==> e == GoesOn && got == crc && Ready(place.next + |ChecksumBytes(crc)|)
    {
      var ok, len;
      ok, got, len := FooterInWindow(place, crc);
      if !ok {
        return ProtocolError, got;
      }
      TakeMessage(len, place);
      e := GoesOn;
    }

    method FooterInWindow(ghost place: Place, ghost crc: Checksum) returns (ok: bool, got: int, len: nat)
      requires InCommand()
      requires place.At? ==> Holding(place.next) && MessageAt(ChecksumBytes(crc), stream, place.next)
      ensures 1 <= len <= MAX_FOOTER && (place.At? ==> ok && got == crc && len == |ChecksumBytes(crc)|)
    {
      ghost var tail := [];
      if place.At? {
        tail := SeesTail(place.next, ChecksumBytes(crc), MAX_FOOTER);
      }
      var left;
      ok, got, left := DecodeChecksum(buf[off..oldOffset + MAX_FOOTER], place.At?, crc, tail);
      len := if ok then MAX_FOOTER - left else 1;
    }

    /** The footer, when there is one, has to confirm the data; `sum` is the checksum that was sent. */
    method CheckFooter(footer: Footer, data: seq<Byte>, ghost place: Place, ghost sum: Checksum) returns (e: Ending)
      requires InBounds() && off <= HighWater(buf.Length)
      requires place.At? ==> Ready(place.next) && place.next + MIN_BUF_LENGTH <= |stream|
      requires place.At? ==> MessageAt(SumBytes(footer, sum), stream, place.next)
      modifies buf, this`pos, this`failed, this`off, this`numRead, this`oldOffset
      ensures e != Done && (e == GoesOn ==>
                            InBounds() && Unused() <= old(Unused()) && off <= HighWater(buf.Length) + MAX_FOOTER)
      ensures place.At? ==>
                (e == SocketError && failed) || e == if Confirms(footer, sum, data) then GoesOn else ChecksumMismatch
      ensures place.At? && e == GoesOn ==> Ready(place.next + |SumBytes(footer, sum)|)
    {
      e := GoesOn;
      if footer.ChecksumFooter? {
        e := ConfirmSum(footer.crc(data), place, sum);
      }
    }

    method ConfirmSum(checksum: Checksum, ghost place: Place, ghost sum: Checksum) returns (e: Ending)
      requires InBounds() && off <= HighWater(buf.Length)
      requires place.At? ==> Ready(place.next) && place.next + MIN_BUF_LENGTH <= |stream|
      requires place.At? ==> MessageAt(ChecksumBytes(sum), stream, place.next)
      modifies buf, this`pos, this`failed, this`off, this`numRead, this`oldOffset
      ensures e != Done && (e == GoesOn ==>
                            InBounds() && Unused() <= old(Unused()) && off <= HighWater(buf.Length) + MAX_FOOTER)
      ensures place.At? ==>
                (e == SocketError && failed) || e == if checksum == sum then GoesOn else ChecksumMismatch
      ensures place.At? && e == GoesOn ==> Ready(place.next + |ChecksumBytes(sum)|)
    {
      HighWaterRoom(buf.Length);
      var got;
      e, got := ReadFooter(place, sum);
      if e == GoesOn && got != checksum {
        e := ChecksumMismatch;
      }
    }

    /**
     A whole file command.  If the window its header was decoded from shows the stream, what is written is exactly
     the data that arrived, and the window is left at the next command with room for it; unless a read fails, the
     block is taken if and only if the checksum that arrived, `sum`, confirms that data.
     */
    method ProcessFileCmd(version: int, footer: Footer, ghost place: Place, ghost x: Sent, ghost sum: Checksum)
      returns (e: Ending, block: Received, ghost head: Ending, ghost w: seq<Byte>)
      requires InCommand()
      requires place.At? ==>
               Holding(place.next) && Sending(decode, version, x, stream, place.next)
               && x.t == SumBytes(footer, sum)
      modifies buf, this`pos, this`failed, this`off, this`numRead, this`oldOffset
      ensures e != Done && (e == GoesOn ==>
                            InBounds() && Unused() < old(Unused()) && off <= HighWater(buf.Length) + MAX_FOOTER)
      ensures place.At? ==>
              HeaderOutcome(|x.h|, old(buf[..]), old(oldOffset), old(numRead), stream, place.next, head, w)
      ensures e == GoesOn ==> head == GoesOn
      ensures e == Crash && place.At? && Intact(w, stream, place.next) ==> head == Crash
      ensures place.At? && e == GoesOn ==> BlockFrom(decode, version, w, |x.h|, stream, place.next, block)
      ensures place.At? && head != Crash && Intact(w, stream, place.next) ==>
                (e == SocketError && failed) || e == if Confirms(footer, sum, x.data) then GoesOn else ChecksumMismatch
      ensures place.At? && e == GoesOn && Intact(w, stream, place.next) ==>
                block == Received(x.bd, x.data) && Ready(place.next + |x.h| + |x.data| + |x.t|)
    {
      ghost var next := Lost;
      e, block, head, w := ReceiveFileCmd(version, place, x);
      if place.At? && head != Crash && Intact(w, stream, place.next) {
        next := At(place.next + |x.h| + |x.data|);
      }
      if e == GoesOn {
        e := CheckFooter(footer, block.data, next, sum);
      }
    }

    method ReceiveFileCmd(version: int, ghost place: Place, ghost x: Sent)
      returns (e: Ending, block: Received, ghost head: Ending, ghost w: seq<Byte>)
      requires InCommand()
      requires place.At? ==> Holding(place.next) && Sending(decode, version, x, stream, place.next)
      modifies buf, this`pos, this`failed, this`off, this`numRead
      ensures e != Done && (e == GoesOn ==> InBounds() && Unused() < old(Unused()) && off <= HighWater(buf.Length))
      ensures e == GoesOn ==> head == GoesOn
      ensures e == Crash ==> head == Crash
      ensures place.At? ==> HeaderOutcome(|x.h|, old(buf[..]), oldOffset, old(numRead), stream, place.next, head, w)
      ensures place.At? && e == GoesOn ==> BlockFrom(decode, version, w, |x.h|, stream, place.next, block)
      ensures place.At? && head != Crash && Intact(w, stream, place.next) ==>
                e == GoesOn || (e == SocketError && failed)
      ensures place.At? && e == GoesOn && Intact(w, stream, place.next) ==>
                block == Received(x.bd, x.data) && Ready(place.next + |x.h| + |x.data|)
    {
      e, block, head, w := ReceiveFile(version, place, x.h);
      if place.At? && head != Crash && Intact(w, stream, place.next) {
        IntactFile(decode, version, x, stream, place.next, head, w, e, block, failed);
      }
    }

    /** A done command is padded to the length of the window, so it fills it. */
    method ProcessDoneCmd(version: int, ghost place: Place, ghost last: seq<Byte>, ghost g: Goodbye)
      returns (e: Ending, got: DoneValue)
      requires InCommand()
      requires place.At? ==>
               Holding(place.next) && stream[place.next..] == last && |last| == MIN_BUF_LENGTH
               && DoneBytes(version, g) <= last
      modifies this`off
      ensures e == Done || e == ProtocolError
      ensures place.At? ==> e == Done && got == DoneAt(version, g) && numRead == MIN_BUF_LENGTH
    {
      got := DoneValue(-1, -1);
      if numRead != MIN_BUF_LENGTH {
        return ProtocolError, got;
      }
      off := off + 1;
      ghost var tail := [];
      if place.At? {
        ghost var m, next := DoneBytes(version, g), place.next;
        SliceOfSlice(stream, next, |stream|, 0, |m|);
        assert stream[next..|stream|] == last && last[0..|m|] == m;
        SeesMessage(next, m, 2, MAX_DONE);
        tail := stream[next + |m|..next + MAX_DONE];
      }
      var ok;
      ok, got := DecodeDone(version, buf[off..oldOffset + MAX_DONE], place.At?, g, tail);
      e := if ok then Done else ProtocolError;
    }

    /**
     The next command is number `k`, its first byte is at `next` of the stream, and there is room to fill the
     window.
     */
    ghost predicate AtCommand(l: Load, k: nat, next: nat)
      reads this, buf
    {
      && Ready(next) && RestOf(l, k, stream, next) && Standard(decode)
      && off <= HighWater(buf.Length) + MAX_FOOTER + if k > 0 && l.cmds[k - 1].Size? then MAX_SIZE else 0
    }

    /** A file command and what is known afterwards: the place behind it, or the gap its header was read with. */
    method TakeSent(version: int, footer: Footer, ghost place: Place, ghost x: Sent)
      returns (e: Ending, block: Received, ghost place': Place, ghost w: seq<Byte>, ghost gap: Gap)
      requires InCommand()
      requires place.At? ==>
               Holding(place.next) && Sending(decode, version, x, stream, place.next)
               && x.t == FooterBytes(footer, x.data)
      modifies buf, this`pos, this`failed, this`off, this`numRead, this`oldOffset
      ensures e != Done && (e == GoesOn ==>
                            InBounds() && Unused() < old(Unused()) && off <= HighWater(buf.Length) + MAX_FOOTER)
      ensures place.Lost? ==> place'.Lost?
      ensures place.At? && place'.At? ==>
                (e == GoesOn || (e == SocketError && failed)) && place'.next == place.next + |x.h| + |x.data| + |x.t|
      ensures place.At? && place'.At? && e == GoesOn ==> block == Received(x.bd, x.data) && Ready(place'.next)
      ensures place.At? && place'.Lost? ==> Short(gap, |x.h|, stream, place.next)
      ensures place.At? && place'.Lost? && e == GoesOn ==>
                GapBlock(decode, version, gap, w, |x.h|, stream, place.next, block)
    {
      gap := Gap(buf[..], oldOffset, numRead);
      ghost var head;
      e, block, head, w := ProcessFileCmd(version, footer, place, x, SumOf(footer, x.data));
      place' := Lost;
      if place.At? && head != Crash && Intact(w, stream, place.next) {
        place' := At(place.next + |x.h| + |x.data| + |x.t|);
      } else if place.At? {
        LostOutcome(|x.h|, gap, stream, place.next, head, w);
      }
    }

    /** One file command more. */
    method TakeFile(version: int, footer: Footer, ghost l: Load, ghost k: nat, ghost place: Place)
      returns (e: Ending, block: Received, ghost place': Place, ghost w: seq<Byte>, ghost gap: Gap)
      requires InCommand()
      requires place.At? ==>
               l.version == version && l.footer == footer && Loaded(l) && Standard(decode) && Holding(place.next)
      requires place.At? ==> RestOf(l, k, stream, place.next) && k < |l.cmds| && l.cmds[k].File?
      modifies buf, this`pos, this`failed, this`off, this`numRead, this`oldOffset
      ensures e != Done && (e == GoesOn ==> InBounds() && Unused() < old(Unused()))
      ensures place.Lost? ==> place'.Lost?
      ensures place.At? && place'.At? ==> e == GoesOn || (e == SocketError && failed)
      ensures place.At? && place'.At? && e == GoesOn ==>
                AtCommand(l, k + 1, place'.next) && block == Received(HeaderAt(version, l.cmds[k].bd), l.cmds[k].data)
      ensures place.At? && place'.Lost? ==> LongHeader(l, k)
      ensures place.At? && place'.Lost? ==> Short(gap, |SentOf(version, footer, l.cmds[k]).h|, stream, place.next)
      ensures place.At? && place'.Lost? && e == GoesOn ==>
                GapBlock(decode, version, gap, w, |SentOf(version, footer, l.cmds[k]).h|, stream, place.next, block)
    {
      ghost var x := Sent([], BlockDetails([], 0, 0, 0, 0, NOT_EXISTS, 0), [], []);
      if place.At? {
        NextFile(l, k, stream, place.next, decode);
        x := SentOf(version, footer, l.cmds[k]);
      }
      e, block, place', w, gap := TakeSent(version, footer, place, x);
    }

    /** One size command more. */
    method TakeSize(ghost l: Load, ghost k: nat, ghost place: Place) returns (e: Ending, ghost place': Place)
      requires InCommand()
      requires place.At? ==> Loaded(l) && Standard(decode) && Holding(place.next) && RestOf(l, k, stream, place.next)
      requires place.At? ==> k < |l.cmds| && l.cmds[k].Size? && oldOffset <= HighWater(buf.Length) + MAX_FOOTER
      modifies this`off, this`numRead
      ensures e == GoesOn || e == ProtocolError
      ensures e == GoesOn ==> InBounds() && Unused() < old(Unused())
      ensures if place.At? then e == GoesOn && place'.At? && AtCommand(l, k + 1, place'.next) else place'.Lost?
    {
      ghost var total := 0;
      place' := Lost;
      if place.At? {
        NextSize(l, k, stream, place.next);
        total := l.cmds[k].total;
        place' := At(place.next + |SizeBytes(total)|);
      }
      var t;
      e, t := ProcessSizeCmd(place, total);
    }

    /** What is known of the blocks handed out. */
    ghost predicate Tracks(l: Load, st: Progress, blocks: seq<Received>, e: Ending, got: DoneValue) {
      && st.k <= |l.cmds| && Blocks(l.version, l.cmds[..st.k]) <= blocks && AllSound(l.cmds)
      && (st.place.At? ==>
            && blocks == Blocks(l.version, l.cmds[..st.k]) && (e == GoesOn || e == Done || e == SocketError)
            && (e == Done ==> st.k == |l.cmds| && got == DoneAt(l.version, l.bye)))
      && (st.place.Lost? ==> LongHeader(l, st.k) && RestOf(l, st.k, stream, st.next) && LostBlock(l, st, blocks))
      && (st.place.Lost? && e == GoesOn ==> |blocks| > |Blocks(l.version, l.cmds[..st.k])|)
    }

    ghost predicate LostBlock(l: Load, st: Progress, blocks: seq<Received>)
      requires LongHeader(l, st.k)
    {
      var right, h := |Blocks(l.version, l.cmds[..st.k])|, |SentOf(l.version, l.footer, l.cmds[st.k]).h|;
      && Short(st.gap, h, stream, st.next)
      && (|blocks| > right ==> GapBlock(decode, l.version, st.gap, st.w, h, stream, st.next, blocks[right]))
    }

    /** A block more, in order or lost. */
    lemma TracksFile(l: Load, st: Progress, blocks: seq<Received>, block: Received, got: DoneValue, e: Ending,
                     place': Place, w: seq<Byte>, gap: Gap)
      requires Tracks(l, st, blocks, GoesOn, got) && e != Done
      requires st.place.At? ==> RestOf(l, st.k, stream, st.place.next) && st.k < |l.cmds| && l.cmds[st.k].File?
      requires st.place.Lost? ==> place'.Lost?
      requires st.place.At? && place'.At? ==> e == GoesOn || e == SocketError
      requires st.place.At? && place'.At? && e == GoesOn ==>
               block == Received(HeaderAt(l.version, l.cmds[st.k].bd), l.cmds[st.k].data)
      requires st.place.At? && place'.Lost? ==> LongHeader(l, st.k)
      requires st.place.At? && place'.Lost? ==>
                 Short(gap, |SentOf(l.version, l.footer, l.cmds[st.k]).h|, stream, st.place.next)
      requires st.place.At? && place'.Lost? && e == GoesOn ==>
                 GapBlock(decode, l.version, gap, w, |SentOf(l.version, l.footer, l.cmds[st.k]).h|, stream,
                          st.place.next, block)
      ensures Tracks(l, AfterFile(st, e, place', w, gap), if e == GoesOn then blocks + [block] else blocks, e, got)
    {
      var right := |Blocks(l.version, l.cmds[..st.k])|;
      if st.place.Lost? {
        assert (blocks + [block])[right] == blocks[right];
      } else if place'.Lost? {
        assert (blocks + [block])[right] == block;
      } else if e == GoesOn {
        BlocksStep(l.version, l.cmds, st.k);
      }
    }

    method HandleFile(version: int, footer: Footer, blocks0: seq<Received>, ghost got: DoneValue, ghost l: Load,
                      ghost st: Progress)
      returns (e: Ending, blocks: seq<Received>, ghost st': Progress)
      requires l.version == version && l.footer == footer && Loaded(l) && InCommand()
               && Tracks(l, st, blocks0, GoesOn, got)
      requires st.place.At? ==> Standard(decode) && Holding(st.place.next)
      requires st.place.At? ==> RestOf(l, st.k, stream, st.place.next) && st.k < |l.cmds| && l.cmds[st.k].File?
      modifies buf, this`pos, this`failed, this`off, this`numRead, this`oldOffset
      ensures Tracks(l, st', blocks, e, got) && (st'.place.At? && e == SocketError ==> failed)
      ensures e == GoesOn ==>
              InBounds() && Unused() < old(Unused()) && (st'.place.At? ==> AtCommand(l, st'.k, st'.place.next))
    {
      var block;
      ghost var place', w, gap;
      e, block, place', w, gap := TakeFile(version, footer, l, st.k, st.place);
      TracksFile(l, st, blocks0, block, got, e, place', w, gap);
      st' := AfterFile(st, e, place', w, gap);
      blocks := if e == GoesOn then blocks0 + [block] else blocks0;
    }

    method HandleSize(ghost blocks: seq<Received>, ghost got: DoneValue, ghost l: Load, ghost st: Progress)
      returns (e: Ending, ghost st': Progress)
      requires Loaded(l) && InCommand() && Tracks(l, st, blocks, GoesOn, got)
      requires st.place.At? ==> Standard(decode) && Holding(st.place.next) && RestOf(l, st.k, stream, st.place.next)
      requires st.place.At? ==> st.k < |l.cmds| && l.cmds[st.k].Size? && oldOffset <= HighWater(buf.Length) + MAX_FOOTER
      modifies this`off, this`numRead
      ensures Tracks(l, st', blocks, e, got) && (st'.place.At? && e == SocketError ==> failed)
      ensures e == GoesOn ==>
              InBounds() && Unused() < old(Unused()) && (st'.place.At? ==> AtCommand(l, st'.k, st'.place.next))
    {
      ghost var place';
      e, place' := TakeSize(l, st.k, st.place);
      st' := st;
      if st.place.At? {
        BlocksStep(l.version, l.cmds, st.k);
        st' := st.(k := st.k + 1, place := place');
      }
    }

    /** One command. */
    method ProcessCommand(version: int, footer: Footer, blocks0: seq<Received>, got0: DoneValue, ghost l: Load,
                          ghost st: Progress)
      returns (e: Ending, blocks: seq<Received>, got: DoneValue, ghost st': Progress)
      requires l.version == version && l.footer == footer && Loaded(l) && InBounds()
               && Tracks(l, st, blocks0, GoesOn, got0)
      requires st.place.At? ==> AtCommand(l, st.k, st.place.next)
      modifies buf, this`pos, this`failed, this`off, this`numRead, this`oldOffset
      ensures Tracks(l, st', blocks, e, got) && (st'.place.At? && e == SocketError ==> failed)
      ensures e == GoesOn ==>
              InBounds() && Unused() < old(Unused()) && (st'.place.At? ==> AtCommand(l, st'.k, st'.place.next))
    {
      blocks, got, st' := blocks0, got0, st;
      if st.place.At? {
        NextCommand(l, st.k, stream, st.place.next);
      }
      var cmd;
      e, cmd := ReadNextCmd(st.place);
      if e != GoesOn {
        return;
      }
      if cmd == DONE_CMD {
        e, got := ProcessDoneCmd(version, st.place, l.last, l.bye);
      } else if cmd == FILE_CMD {
        e, blocks, st' := HandleFile(version, footer, blocks0, got0, l, st);
      } else if cmd == SIZE_CMD {
        e, st' := HandleSize(blocks0, got0, l, st);
      } else {
        e := ProtocolError;
      }
    }

    /**
     The receiving loop.  Whatever the socket delivers at a time, as long as no header is longer than what has been
     read when it comes up, the blocks handed out are those the sender sent, in order and byte for byte, and at the
     done command they are all there.  If the loop gets lost it is at such a header, that of command `st.k`: the
     blocks before it are right, and the next one is right if and only if the bytes left in the gap by earlier commands,
     and the stream moved by the gap behind them, are by chance the stream's own.
     */
    method ReceiveBlocks(version: int, footer: Footer, ghost l: Load, ghost next0: nat)
      returns (e: Ending, blocks: seq<Received>, got: DoneValue, ghost st: Progress)
      requires l.version == version && l.footer == footer && Loaded(l) && InBounds() && AtCommand(l, 0, next0)
      modifies buf, this`pos, this`failed, this`off, this`numRead, this`oldOffset
      ensures e != GoesOn && Tracks(l, st, blocks, e, got) && (st.place.At? && e == SocketError ==> failed)
      ensures st.place.Lost? && |blocks| > |Blocks(version, l.cmds[..st.k])| ==>
                (blocks[|Blocks(version, l.cmds[..st.k])|] == BlockOf(version, l.cmds[st.k]) <==>
                   GapMatches(version, l.cmds[st.k].bd, l.cmds[st.k].data, st.gap, st.w, stream, st.next))
    {
      blocks, got, e, st := [], DoneValue(-1, -1), GoesOn, Progress(0, At(next0), 0, [], Gap([], 0, 0));
      while e == GoesOn
        invariant Tracks(l, st, blocks, e, got) && (st.place.At? && e == SocketError ==> failed)
        invariant e == GoesOn ==> InBounds() && (st.place.At? ==> AtCommand(l, st.k, st.place.next))
        decreases if e == GoesOn then 1 + Unused() else 0
      {
        e, blocks, got, st := ProcessCommand(version, footer, blocks, got, l, st);
      }
      if st.place.Lost? && |blocks| > |Blocks(version, l.cmds[..st.k])| {
        LostRightIff(l, st, blocks[|Blocks(version, l.cmds[..st.k])|]);
      }
    }

    lemma LostRightIff(l: Load, st: Progress, block: Received)
      requires Standard(decode) && Loaded(l) && LongHeader(l, st.k) && RestOf(l, st.k, stream, st.next)
      requires var h := |SentOf(l.version, l.footer, l.cmds[st.k]).h|;
               Short(st.gap, h, stream, st.next) && GapBlock(decode, l.version, st.gap, st.w, h, stream, st.next, block)
      ensures block == BlockOf(l.version, l.cmds[st.k]) <==>
                GapMatches(l.version, l.cmds[st.k].bd, l.cmds[st.k].data, st.gap, st.w, stream, st.next)
    {
      var c := l.cmds[st.k];
      NextFile(l, st.k, stream, st.next, decode);
      GapRightIff(decode, l.version, c.status, c.bd, c.data, st.gap, stream, st.next, st.w);
      OneBlock(decode, l.version, st.w, |SentOf(l.version, l.footer, c).h|, stream, st.next, block,
               BlockOf(l.version, c));
    }

    /** With headers that fit the smallest window nothing goes astray. */
    method ReceiveShortBlocks(version: int, footer: Footer, ghost l: Load, ghost next0: nat)
      returns (e: Ending, blocks: seq<Received>, got: DoneValue, ghost k: nat)
      requires l.version == version && l.footer == footer && Loaded(l) && InBounds() && AtCommand(l, 0, next0)
      requires forall i | 0 <= i < |l.cmds| :: !LongHeader(l, i)
      modifies buf, this`pos, this`failed, this`off, this`numRead, this`oldOffset
      ensures k <= |l.cmds| && blocks == Blocks(version, l.cmds[..k]) && (e == Done || (e == SocketError && failed))
      ensures e == Done ==> blocks == Blocks(version, l.cmds) && got == DoneAt(version, l.bye)
    {
      ghost var st;
      e, blocks, got, st := ReceiveBlocks(version, footer, l, next0);
      k := st.k;
      assert l.cmds[..|l.cmds|] == l.cmds;
    }
  }

  ghost predicate MessageAt(m: seq<Byte>, s: seq<Byte>, next: nat) { next + |m| <= |s| && s[next..next + |m|] == m }

  /** The third and fourth byte of a header tell its length. */
  ghost predicate LengthRight(h: seq<Byte>) { 4 <= |h| <= MAX_HEADER && Length16(h[2], h[3]) == |h| }

  /** `w` is the window after the read with the gap. */
  ghost predicate GapRead(b: seq<Byte>, at: nat, n: nat, s: seq<Byte>, next: nat, w: seq<Byte>) {
    at + n + n <= |b| && n <= |w| && next + |w| <= |s| && w == Gapped(b, at, n, s[next + n..next + |w|])
  }

  lemma HeaderLength(version: int, status: Byte, bd: BlockDetails)
    requires |bd.fileName| <= PATH_MAX
    ensures LengthRight(FileHeader(version, status, bd))
  {
  }

  /** `size` bytes come from `d` and, where it ends, from the stream at `p`; what is left of `d` is in the buffer. */
  ghost predicate Taken(d: seq<Byte>, size: nat, s: seq<Byte>, p: nat, pos: nat, data: seq<Byte>, b: seq<Byte>,
                        off: nat, n: nat) {
    var t := if |d| >= size then size else |d|;
    && p <= pos == p + size - t <= |s| && data == d[..t] + s[p..pos]
    && n == |d| - t && off + n <= |b| && b[off..off + n] == d[t..]
  }

  /** Data taken from a window and from the stream behind it. */
  lemma AfterData(w: seq<Byte>, h: nat, size: nat, s: seq<Byte>, next: nat, data: seq<Byte>, p: nat, pos: nat,
                  b: seq<Byte>, off: nat, n: nat)
    requires h <= |w| && p == next + |w| && Taken(w[h..|w|], size, s, p, pos, data, b, off, n)
    ensures DataFrom(w, h, size, s, next, data)
    ensures Intact(w, s, next) ==> Holds(b, off, n, s, next + h + size) && pos == next + h + size + n
  {
    WindowParts(w, h, InWindow(w, h, size));
    if Intact(w, s, next) {
      LeftoverHolds(w, h + InWindow(w, h, size), s, next, b, off);
    }
  }

  lemma WindowParts(w: seq<Byte>, h: nat, t: nat)
    requires h + t <= |w|
    ensures w[h..|w|][..t] == w[h..h + t] && w[h..|w|][t..] == w[h + t..|w|]
  {
  }

  /** What is left of a window that shows the stream is the stream's. */
  lemma LeftoverHolds(w: seq<Byte>, i: nat, s: seq<Byte>, next: nat, b: seq<Byte>, off: nat)
    requires Intact(w, s, next) && i <= |w| && off + |w| - i <= |b| && b[off..off + |w| - i] == w[i..|w|]
    ensures Holds(b, off, |w| - i, s, next + i)
  {
    SliceOfSlice(s, next, next + |w|, i, |w|);
  }

  /** The window shows the stream. */
  ghost predicate Intact(w: seq<Byte>, s: seq<Byte>, next: nat) { next + |w| <= |s| && w == s[next..next + |w|] }

  /** How much of the data of `size` bytes behind a header of `h` bytes is in the window. */
  function InWindow(w: seq<Byte>, h: nat, size: nat): nat
    requires h <= |w|
  {
    if |w| - h >= size then size else |w| - h
  }

  /** A block made of a window and, where its data goes on, of the bytes of the stream behind it. */
  ghost predicate BlockFrom(decode: HeaderDecoder, version: int, w: seq<Byte>, h: nat, s: seq<Byte>, next: nat,
                            block: Received) {
    && 4 <= |w| && h <= |w| && ReadDetails(decode, version, w, h) == Understood(block.bd)
    && DataFrom(w, h, block.bd.dataSize, s, next, block.data)
  }

  /** The stream ends before the data announced by a header of `h` bytes, which was read in the window. */
  ghost predicate DataMissing(decode: HeaderDecoder, version: int, w: seq<Byte>, h: nat, s: seq<Byte>, next: nat,
                              bd: BlockDetails) {
    4 <= |w| && ReadDetails(decode, version, w, h) == Understood(bd) && next + h + bd.dataSize > |s|
  }

  lemma FileOutcome(decode: HeaderDecoder, version: int, w: seq<Byte>, h: nat, s: seq<Byte>, next: nat,
                    block: Received, ok: bool, failed: bool)
    requires 4 <= |w| && h <= |w| && ReadDetails(decode, version, w, h) == Understood(block.bd)
    requires if ok then DataFrom(w, h, block.bd.dataSize, s, next, block.data)
             else failed || next + h + block.bd.dataSize > |s|
    ensures ok ==> BlockFrom(decode, version, w, h, s, next, block)
    ensures !ok && !failed ==> DataMissing(decode, version, w, h, s, next, block.bd)
  {
  }

  ghost predicate DataFrom(w: seq<Byte>, h: nat, size: nat, s: seq<Byte>, next: nat, data: seq<Byte>) {
    && h <= |w|
    && var t := InWindow(w, h, size);
       var end := next + |w| + size - t;
       next + |w| <= end <= |s| && data == w[h..h + t] + s[next + |w|..end]
  }

  lemma DataRightIff(sent: seq<Byte>, w: seq<Byte>, h: nat, s: seq<Byte>, next: nat, data: seq<Byte>)
    requires h <= |w| && next + h + |sent| <= |s| && s[next + h..next + h + |sent|] == sent
    requires DataFrom(w, h, |sent|, s, next, data)
    ensures var t := InWindow(w, h, |sent|); data == sent <==> w[h..h + t] == sent[..t]
  {
    var t := InWindow(w, h, |sent|);
    var end := next + |w| + |sent| - t;
    assert sent == sent[..t] + sent[t..];
    SliceOfSlice(s, next + h, next + h + |sent|, t, |sent|);
    if t < |sent| {
      assert sent[t..|sent|] == s[next + |w|..end];
    }
    assert data[..t] == w[h..h + t];
  }

  function BlockOf(version: int, c: Command): Received
    requires c.File?
  {
    Received(HeaderAt(version, c.bd), c.data)
  }

  lemma LostOutcome(h: nat, g: Gap, s: seq<Byte>, next: nat, e: Ending, w: seq<Byte>)
    requires HeaderOutcome(h, g.b, g.at, g.n, s, next, e, w) && (e == Crash || !Intact(w, s, next))
    ensures g.n < h && (e == GoesOn ==> GapRead(g.b, g.at, g.n, s, next, w))
  {
  }

  /** A window gives at most one block. */
  lemma OneBlock(decode: HeaderDecoder, version: int, w: seq<Byte>, h: nat, s: seq<Byte>, next: nat, a: Received,
                 b: Received)
    requires BlockFrom(decode, version, w, h, s, next, a)
    ensures a == b <==> BlockFrom(decode, version, w, h, s, next, b)
  {
  }

  // ---------------------------------------------------------------- when the block behind a gap is right

  /** The header was longer than what had been read of it. */
  ghost predicate Short(g: Gap, h: nat, s: seq<Byte>, next: nat) {
    MIN_BUF_LENGTH <= g.n < h && Holds(g.b, g.at, g.n, s, next)
  }

  /** The block was made of the window with the gap. */
  ghost predicate GapBlock(decode: HeaderDecoder, version: int, g: Gap, w: seq<Byte>, h: nat, s: seq<Byte>, next: nat,
                           block: Received) {
    GapRead(g.b, g.at, g.n, s, next, w) && BlockFrom(decode, version, w, h, s, next, block)
  }

  /** Byte `i` of that window: what was in the buffer before, and behind that the stream, moved by the gap. */
  function GapByte(g: Gap, s: seq<Byte>, next: nat, i: nat): Byte
    requires g.n <= i && g.at + g.n + g.n <= |g.b| && (i < g.n + g.n || next + i - g.n < |s|)
  {
    if i < g.n + g.n then g.b[g.at + i] else s[next + i - g.n]
  }

  lemma GapBytes(g: Gap, s: seq<Byte>, next: nat, w: seq<Byte>, i: nat)
    requires Holds(g.b, g.at, g.n, s, next) && GapRead(g.b, g.at, g.n, s, next, w) && i < |w|
    ensures w[i] == if i < g.n then s[next + i] else GapByte(g, s, next, i)
  {
    var more := s[next + g.n..next + |w|];
    assert w[i] == (g.b[g.at..g.at + g.n + g.n] + more)[i];
    if i < g.n {
      assert g.b[g.at..g.at + g.n][i] == s[next..next + g.n][i];
    } else if i >= g.n + g.n {
      assert more[i - g.n - g.n] == s[next + i - g.n];
    }
  }

  /** From the end of what had been read to the end of the data in the window, the bytes are the stream's own. */
  ghost predicate GapMatches(version: int, bd: BlockDetails, data: seq<Byte>, g: Gap, w: seq<Byte>, s: seq<Byte>,
                             next: nat)
    requires SoundBlock(bd)
  {
    BytesFit(4 + |PutHeader(version, bd, [])|, FlagAt(version, bd), |data|, g, w, s, next)
  }
  ghost predicate BytesFit(h: nat, flagAt: int, size: nat, g: Gap, w: seq<Byte>, s: seq<Byte>, next: nat) {
    && h <= |w| && next + |w| <= |s| && g.at + g.n + g.n <= |g.b|
    && forall i | g.n <= i < h + InWindow(w, h, size) :: MatchesAt(flagAt, h, g, s, next, i)
  }
  ghost predicate MatchesAt(flagAt: int, h: nat, g: Gap, s: seq<Byte>, next: nat, i: nat)
    requires g.n <= i && g.at + g.n + g.n <= |g.b| && next + i < |s|
  {
    if 4 <= i < h then SameByte(i - 4, flagAt, GapByte(g, s, next, i), s[next + i])
    else GapByte(g, s, next, i) == s[next + i]
  }

  lemma UnderstoodIff(decode: HeaderDecoder, version: int, status: Byte, bd: BlockDetails, w: seq<Byte>)
    requires Standard(decode) && SoundBlock(bd) && |w| >= 4
    ensures ReadDetails(decode, version, w, |FileHeader(version, status, bd)|) == Understood(HeaderAt(version, bd))
            <==> Alike(version, bd, w[4..])
  {
    StandardReads(decode, version, w, |FileHeader(version, status, bd)|);
    HeaderReadIff(version, bd, w[4..]);
  }

  /** The header in the window, in terms of the gap. */
  lemma HeaderMatches(x: seq<Byte>, flagAt: int, g: Gap, s: seq<Byte>, next: nat, w: seq<Byte>)
    requires 4 <= |x| <= |w| && MessageAt(x, s, next) && Short(g, |x|, s, next) && GapRead(g.b, g.at, g.n, s, next, w)
    ensures SameBytes(x[4..], flagAt, w[4..]) <==>
              forall i | g.n <= i < |x| :: MatchesAt(flagAt, |x|, g, s, next, i)
  {
    if SameBytes(x[4..], flagAt, w[4..]) {
      forall i | g.n <= i < |x| ensures MatchesAt(flagAt, |x|, g, s, next, i) {
        assert SameByte(i - 4, flagAt, w[4..][i - 4], x[4..][i - 4]);
        HeaderByte(x, g, s, next, w, i);
      }
    }
    if forall i | g.n <= i < |x| :: MatchesAt(flagAt, |x|, g, s, next, i) {
      forall j | 0 <= j < |x[4..]| ensures SameByte(j, flagAt, w[4..][j], x[4..][j]) {
        HeaderByte(x, g, s, next, w, j + 4);
        if g.n <= j + 4 { assert MatchesAt(flagAt, |x|, g, s, next, j + 4); }
      }
    }
  }

  lemma HeaderByte(x: seq<Byte>, g: Gap, s: seq<Byte>, next: nat, w: seq<Byte>, i: nat)
    requires 4 <= i < |x| <= |w| && MessageAt(x, s, next) && Holds(g.b, g.at, g.n, s, next)
    requires GapRead(g.b, g.at, g.n, s, next, w)
    ensures x[4..][i - 4] == x[i] == s[next + i] && w[4..][i - 4] == w[i]
    ensures w[i] == if i < g.n then s[next + i] else GapByte(g, s, next, i)
  {
    GapBytes(g, s, next, w, i);
    assert s[next..next + |x|][i] == x[i];
  }

  /** The data in the window, in terms of the gap. */
  lemma DataMatches(flagAt: int, h: nat, data: seq<Byte>, g: Gap, s: seq<Byte>, next: nat, w: seq<Byte>)
    requires MessageAt(data, s, next + h)
    requires Short(g, h, s, next) && GapRead(g.b, g.at, g.n, s, next, w) && h <= |w|
    ensures var t := InWindow(w, h, |data|);
            w[h..h + t] == data[..t] <==> forall i | h <= i < h + t :: MatchesAt(flagAt, h, g, s, next, i)
  {
    var t := InWindow(w, h, |data|);
    forall i | h <= i < h + t
      ensures w[i] == w[h..h + t][i - h] && data[i - h] == data[..t][i - h] == s[next + i]
      ensures w[i] == GapByte(g, s, next, i)
    {
      GapBytes(g, s, next, w, i);
      assert s[next + h..next + h + |data|][i - h] == data[i - h];
    }
    if w[h..h + t] == data[..t] {
      forall i | h <= i < h + t ensures MatchesAt(flagAt, h, g, s, next, i) {}
    }
    if forall i | h <= i < h + t :: MatchesAt(flagAt, h, g, s, next, i) {
      forall j | 0 <= j < t ensures w[h..h + t][j] == data[..t][j] {
        assert MatchesAt(flagAt, h, g, s, next, h + j);
      }
    }
  }

  /**
   The block sent comes out of the window with the gap if and only if every byte the gap puts there, stale or moved, is
   by chance the one that belongs there.
   */
  lemma GapRightIff(decode: HeaderDecoder, version: int, status: Byte, bd: BlockDetails, data: seq<Byte>, g: Gap,
                    s: seq<Byte>, next: nat, w: seq<Byte>)
    requires Standard(decode) && SoundBlock(bd) && |data| == bd.dataSize
             && MessageAt(FileHeader(version, status, bd), s, next)
    requires MessageAt(data, s, next + |FileHeader(version, status, bd)|)
    requires Short(g, |FileHeader(version, status, bd)|, s, next) && GapRead(g.b, g.at, g.n, s, next, w)
    requires |FileHeader(version, status, bd)| <= |w|
    ensures BlockFrom(decode, version, w, |FileHeader(version, status, bd)|, s, next,
                      Received(HeaderAt(version, bd), data))
            <==> GapMatches(version, bd, data, g, w, s, next)
  {
    var x, k := FileHeader(version, status, bd), FlagAt(version, bd);
    HeaderSameIff(decode, version, status, bd, w, x, k);
    GapFitsIff(decode, version, x, k, HeaderAt(version, bd), data, g, s, next, w);
  }

  lemma HeaderSameIff(decode: HeaderDecoder, version: int, status: Byte, bd: BlockDetails, w: seq<Byte>, x: seq<Byte>,
                      k: int)
    requires Standard(decode) && SoundBlock(bd) && |w| >= 4
    requires x == FileHeader(version, status, bd) && k == FlagAt(version, bd)
    ensures ReadDetails(decode, version, w, |x|) == Understood(HeaderAt(version, bd)) <==> SameBytes(x[4..], k, w[4..])
  {
    UnderstoodIff(decode, version, status, bd, w);
    HeaderBody(version, status, bd);
  }

  lemma GapFitsIff(decode: HeaderDecoder, version: int, x: seq<Byte>, flagAt: int, bd: BlockDetails, data: seq<Byte>,
                   g: Gap, s: seq<Byte>, next: nat, w: seq<Byte>)
    requires 4 <= |x| <= |w| && |data| == bd.dataSize && MessageAt(x, s, next) && MessageAt(data, s, next + |x|)
    requires Short(g, |x|, s, next) && GapRead(g.b, g.at, g.n, s, next, w)
    requires ReadDetails(decode, version, w, |x|) == Understood(bd) <==> SameBytes(x[4..], flagAt, w[4..])
    ensures BlockFrom(decode, version, w, |x|, s, next, Received(bd, data)) <==>
              BytesFit(|x|, flagAt, |data|, g, w, s, next)
  {
    HeaderMatches(x, flagAt, g, s, next, w);
    DataMatches(flagAt, |x|, data, g, s, next, w);
    WindowData(data, w, |x|, s, next);
    BothMatch(flagAt, |x|, InWindow(w, |x|, |data|), g, s, next);
  }

  lemma HeaderBody(version: int, status: Byte, bd: BlockDetails)
    requires SoundBlock(bd)
    ensures FileHeader(version, status, bd)[4..] == PutHeader(version, bd, [])
  {
  }

  lemma BothMatch(flagAt: int, h: nat, t: nat, g: Gap, s: seq<Byte>, next: nat)
    requires g.n < h && g.at + g.n + g.n <= |g.b| && next + h + t <= |s|
    ensures (forall i | g.n <= i < h + t :: MatchesAt(flagAt, h, g, s, next, i)) <==>
              && (forall i | g.n <= i < h :: MatchesAt(flagAt, h, g, s, next, i))
              && (forall i | h <= i < h + t :: MatchesAt(flagAt, h, g, s, next, i))
  {
  }

  /** The data behind a header of `h` bytes is right if and only if the part of it in the window is. */
  lemma WindowData(sent: seq<Byte>, w: seq<Byte>, h: nat, s: seq<Byte>, next: nat)
    requires h <= |w| && next + |w| <= |s| && MessageAt(sent, s, next + h)
    ensures var t := InWindow(w, h, |sent|); DataFrom(w, h, |sent|, s, next, sent) <==> w[h..h + t] == sent[..t]
  {
    var t := InWindow(w, h, |sent|);
    var end := next + |w| + |sent| - t;
    assert sent == sent[..t] + sent[t..];
    SliceOfSlice(s, next + h, next + h + |sent|, t, |sent|);
    if t < |sent| {
      assert sent[t..|sent|] == s[next + |w|..end];
    }
    if DataFrom(w, h, |sent|, s, next, sent) { assert sent[..t] == w[h..h + t]; }
  }

  /** The receiver has come as far as decoding a header. */
  predicate Decoded(e: Ending, w: seq<Byte>) { (e == GoesOn || e == ProtocolError) && |w| >= 4 }

  /**
   What becomes of a header of `h` bytes.  If it is all among the `n` bytes at hand, it is decoded from the stream.
   If not, the receiver crashes when there is no room for as much again; else it decodes the window with the gap.
   */
  ghost predicate HeaderOutcome(h: nat, b: seq<Byte>, at: nat, n: nat, s: seq<Byte>, next: nat, e: Ending,
                                w: seq<Byte>) {
    if h <= n then (Decoded(e, w) || e == SocketError) && Intact(w, s, next)
    else
      && (e == Crash <==> at + n + h > |b|)
      && (e == Crash || e == SocketError || (Decoded(e, w) && GapRead(b, at, n, s, next, w)))
  }

  function EndingOf(r: Reading): Ending { if r.Understood? then GoesOn else ProtocolError }

  /** A file command as sent: header, what it conveys, data and footer. */
  datatype Sent = Sent(h: seq<Byte>, bd: BlockDetails, data: seq<Byte>, t: seq<Byte>)

  /** Any window that starts with the header is understood. */
  ghost predicate ReadsAs(decode: HeaderDecoder, version: int, h: seq<Byte>, bd: BlockDetails) {
    forall w: seq<Byte> {:trigger ReadDetails(decode, version, w, |h|)} ::
      4 <= |h| && h <= w ==> ReadDetails(decode, version, w, |h|) == Understood(bd)
  }

  ghost predicate Sending(decode: HeaderDecoder, version: int, x: Sent, s: seq<Byte>, next: nat) {
    && LengthRight(x.h) && ReadsAs(decode, version, x.h, x.bd) && |x.data| == x.bd.dataSize
    && MessageAt(x.h, s, next) && MessageAt(x.data, s, next + |x.h|) && MessageAt(x.t, s, next + |x.h| + |x.data|)
    && next + |x.h| + |x.data| + MIN_BUF_LENGTH <= |s|
  }

  /** A window that shows the stream gives the block sent. */
  lemma IntactFile(decode: HeaderDecoder, version: int, x: Sent, s: seq<Byte>, next: nat, head: Ending, w: seq<Byte>,
                   e: Ending, block: Received, failed: bool)
    requires Sending(decode, version, x, s, next) && Intact(w, s, next) && (head == SocketError || Decoded(head, w))
    requires Decoded(head, w) ==> |x.h| <= |w| && head == EndingOf(ReadDetails(decode, version, w, |x.h|))
    requires e == GoesOn ==> BlockFrom(decode, version, w, |x.h|, s, next, block) && head == GoesOn
    requires e != GoesOn ==> e == head || (head == GoesOn && e == SocketError)
    requires e == SocketError && !failed ==>
               head == GoesOn && DataMissing(decode, version, w, |x.h|, s, next, block.bd)
    ensures e == GoesOn || (e == SocketError && failed)
    ensures e == GoesOn ==> block == Received(x.bd, x.data)
  {
    if Decoded(head, w) {
      IntactPieces(x.h, x.data, s, next, w);
      assert ReadDetails(decode, version, w, |x.h|) == Understood(x.bd);
      if e == GoesOn {
        DataRightIff(x.data, w, |x.h|, s, next, block.data);
      }
    }
  }

  lemma IntactPieces(h: seq<Byte>, data: seq<Byte>, s: seq<Byte>, next: nat, w: seq<Byte>)
    requires next + |h| + |data| <= |s| && s[next..next + |h|] == h && s[next + |h|..next + |h| + |data|] == data
    requires Intact(w, s, next) && |h| <= |w|
    ensures h <= w && var t := InWindow(w, |h|, |data|); w[|h|..|h| + t] == data[..t]
  {
    var t := InWindow(w, |h|, |data|);
    SliceOfSlice(s, next, next + |w|, 0, |h|);
    SliceOfSlice(s, next, next + |w|, |h|, |h| + t);
    SliceOfSlice(s, next + |h|, next + |h| + |data|, 0, t);
  }

  /** The buffer when a header came up of which only `n` bytes, at `at`, had been read. */
  datatype Gap = Gap(b: seq<Byte>, at: nat, n: nat)

  /** How far the receiver is: command number, place, and where, with which buffer and in which window it got lost. */
  datatype Progress = Progress(k: nat, place: Place, next: nat, w: seq<Byte>, gap: Gap)

  function AfterFile(st: Progress, e: Ending, place: Place, w: seq<Byte>, gap: Gap): Progress {
    if st.place.Lost? then st
    else if place.Lost? then Progress(st.k, Lost, st.place.next, w, gap)
    else if e == GoesOn then st.(k := st.k + 1, place := place)
    else st
  }

  // ---------------------------------------------------------------- a wrong block

  function Bytes(n: nat, v: Byte): (r: seq<Byte>)
    ensures |r| == n && forall i | 0 <= i < n :: r[i] == v
  {
    seq(n, _ => v)
  }

  /** A file of five bytes with a name of 300. */
  function LongNamed(): BlockDetails { BlockDetails(Bytes(300, 97), 1, 5, 0, 5, NOT_EXISTS, 0) }

  /** Its flags, in versions that have them. */
  function NoFlags(version: int): seq<Byte> { if version < HEADER_FLAG_AND_PREV_SEQ_ID_VERSION then [] else [0] }

  lemma SmallHeader(version: int, bd: BlockDetails)
    requires |bd.fileName| == 300 && bd.seqId < 128 && bd.dataSize < 128 && bd.offset < 128 && bd.fileSize < 128
    requires bd.allocationStatus == NOT_EXISTS
    ensures PutHeader(version, bd, []) ==
            VarBytes(300) + (bd.fileName + ([bd.seqId, bd.dataSize, bd.offset, bd.fileSize] + NoFlags(version)))
  {
    var f := NoFlags(version);
    assert PutFlags(version, bd, []) == f;
    SmallPut(bd.fileSize, f);
    SmallPut(bd.offset, [bd.fileSize] + f);
    SmallPut(bd.dataSize, [bd.offset] + ([bd.fileSize] + f));
    SmallPut(bd.seqId, [bd.dataSize] + ([bd.offset] + ([bd.fileSize] + f)));
    var a := [bd.seqId, bd.dataSize, bd.offset, bd.fileSize] + f;
    assert a == [bd.seqId] + ([bd.dataSize] + ([bd.offset] + ([bd.fileSize] + f)));
    PutU64Appends(300, bd.fileName + a);
  }

  lemma SmallPut(v: Wire, tail: seq<Byte>)
    requires v < 128
    ensures Put(v, tail) == [v] + tail
  {
  }

  /** With nothing but zeros in the buffer behind the first kMinBufLength bytes, the rest of the name reads as zeros. */
  function Misread(p: nat): BlockDetails
    requires p <= 2
  {
    BlockDetails(Bytes(252 - p, 97) + Bytes(48 + p, 0), 0, 0, 0, 0, NOT_EXISTS, 0)
  }

  /** The gapped window for a buffer of zeros is the header as far as it was at hand, and zeros. */
  lemma ZeroGap(h: seq<Byte>, s: seq<Byte>)
    requires 256 <= |h| <= 512 && h <= s
    ensures var b := h[..256] + Bytes(256, 0);
            Holds(b, 0, 256, s, 0) && GapRead(b, 0, 256, s, 0, h[..256] + Bytes(|h| - 256, 0))
  {
    var b := h[..256] + Bytes(256, 0);
    var w := h[..256] + Bytes(|h| - 256, 0);
    assert b[0..256] == h[0..256] == s[0..256];
    assert b[0..512] == b;
    assert w == (b + s[256..|h|])[..|h|];
  }

  lemma ZeroTail(version: int, p: nat)
    ensures var f := NoFlags(version); Bytes(48 + p, 0) + ([0, 0, 0, 0] + f) == Bytes(52 + p + |f|, 0)
  {
    var f := NoFlags(version);
    var a := Bytes(48 + p, 0) + ([0, 0, 0, 0] + f);
    forall i | 0 <= i < |a| ensures a[i] == 0 { }
  }

  /** Other bytes laid over the end of a header. */
  lemma Overlay(h: seq<Byte>, head: seq<Byte>, v: seq<Byte>, a: seq<Byte>, b: seq<Byte>, z: seq<Byte>)
    requires |head| == 4 && |head| + |v| + |a| == 256 && h == head + (v + (a + b)) && |z| == |b|
    ensures |h| == 256 + |b| && (h[..256] + z)[4..] == v + (a + z)
  {
    assert h[..256] == head + (v + a);
    assert (h[..256] + z)[4..] == (v + a) + z;
  }

  lemma MisreadHeader(version: int, head: seq<Byte>, h: seq<Byte>, p: nat)
    requires |head| == 4 && p == |VarBytes(300)| <= 2 && h == head + PutHeader(version, LongNamed(), [])
    ensures 256 <= |h| <= 512
    ensures (h[..256] + Bytes(|h| - 256, 0))[4..] == PutHeader(version, Misread(p), [])
  {
    var f, v := NoFlags(version), VarBytes(300);
    var a, b := Bytes(252 - p, 97), Bytes(48 + p, 97) + ([1, 5, 0, 5] + f);
    SmallHeader(version, LongNamed());
    assert Bytes(300, 97) == Bytes(252 - p, 97) + Bytes(48 + p, 97);
    assert a + b == Bytes(300, 97) + ([1, 5, 0, 5] + f);
    var z := Bytes(|b|, 0);
    Overlay(h, head, v, a, b, z);
    SmallHeader(version, Misread(p));
    ZeroTail(version, p);
    assert a + z == Misread(p).fileName + ([0, 0, 0, 0] + f);
  }

  /**
   A connection and a buffer for which the receiver hands out a block of a file that was never sent: it takes 256 of the
   header's bytes from the stream and the others from what the buffer held before.
   */
  lemma WrongBlock(version: int, status: Byte)
    returns (l: Load, s: seq<Byte>, g: Gap, w: seq<Byte>, wrong: Received)
    ensures Loaded(l) && l.version == version && |l.cmds| == 1 && RestOf(l, 0, s, 0) && LongHeader(l, 0)
    ensures var h := |FileHeader(version, l.cmds[0].status, l.cmds[0].bd)|;
            Short(g, h, s, 0) && GapBlock(GetHeader, version, g, w, h, s, 0, wrong)
    ensures wrong.bd.fileName != l.cmds[0].bd.fileName && wrong.bd.seqId != l.cmds[0].bd.seqId && wrong.data == []
    ensures |l.cmds[0].data| == 5
  {
    var c := File(status, LongNamed(), Bytes(5, 98));
    var h := FileHeader(version, status, LongNamed());
    l, s := Alone(version, c);
    var wrongBd;
    g, w, wrongBd := WrongDetails(version, status, h, s);
    wrong := Received(wrongBd, []);
  }

  /** A connection for one file, and its bytes. */
  lemma Alone(version: int, c: Command) returns (l: Load, s: seq<Byte>)
    requires c.File? && Sound(c)
    ensures Loaded(l) && l.version == version && l.cmds == [c] && RestOf(l, 0, s, 0)
    ensures FileHeader(version, c.status, c.bd) <= s
  {
    var bye := Goodbye(0, 1, 5);
    var done := DoneBytes(version, bye);
    var last := done + Bytes(MIN_BUF_LENGTH - |done|, 0);
    l := Load(version, NoFooter, [c], last, bye);
    s := StreamBytes(version, NoFooter, [c], last);
    assert [c][0..] == [c] && s[0..] == s;
    assert [c][1..] == [] && StreamBytes(version, NoFooter, [], last) == last;
    assert s == CommandBytes(version, NoFooter, c) + last;
  }

  lemma WrongDetails(version: int, status: Byte, h: seq<Byte>, s: seq<Byte>)
    returns (g: Gap, w: seq<Byte>, wrong: BlockDetails)
    requires h == FileHeader(version, status, LongNamed()) && h <= s
    ensures |h| > MIN_BUF_LENGTH && Short(g, |h|, s, 0)
    ensures GapBlock(GetHeader, version, g, w, |h|, s, 0, Received(wrong, []))
    ensures wrong.fileName != LongNamed().fileName && wrong.seqId != LongNamed().seqId
  {
    SmallVarint(300);
    var p := |VarBytes(300)|;
    wrong := Misread(p);
    MisreadHeader(version, h[..4], h, p);
    g, w := Gap(h[..256] + Bytes(256, 0), 0, 256), h[..256] + Bytes(|h| - 256, 0);
    ZeroGap(h, s);
    ReadsMisread(version, w, |h|, wrong);
    assert wrong.fileName[299] == 0 && LongNamed().fileName[299] == 97;
  }

  lemma ReadsMisread(version: int, w: seq<Byte>, h: nat, wrong: BlockDetails)
    requires |wrong.fileName| <= PATH_MAX && 4 <= |w| == h && w[4..] == PutHeader(version, wrong, [])
    requires wrong.allocationStatus == NOT_EXISTS && wrong.prevSeqId == 0
    ensures ReadDetails(GetHeader, version, w, h) == Understood(wrong)
  {
    HeaderRoundTrip(version, wrong, []);
  }

  // ---------------------------------------------------------------- what a sender can rely on

  /**
   The window a receiver may decode a header of `h` bytes from, whatever was in its buffer and however bytes
   arrive.
   */
  ghost predicate Window(h: nat, g: Gap, s: seq<Byte>, next: nat, w: seq<Byte>) {
    && MIN_BUF_LENGTH <= g.n && Holds(g.b, g.at, g.n, s, next) && h <= |w|
    && if h <= g.n then |w| == g.n && Intact(w, s, next)
       else g.at + g.n + h <= |g.b| && GapRead(g.b, g.at, g.n, s, next, w)
  }

  ghost predicate AlwaysRight(decode: HeaderDecoder, version: int, h: nat, s: seq<Byte>, next: nat, block: Received) {
    forall g: Gap, w: seq<Byte> :: Window(h, g, s, next, w) ==> BlockFrom(decode, version, w, h, s, next, block)
  }

  /** A byte that differs from `x` whatever bits are spare. */
  function Other(x: Byte): Byte { if x % 8 == 0 then 1 else 0 }

  /** A buffer that makes a header longer than kMinBufLength go wrong. */
  lemma BadBuffer(h: nat, s: seq<Byte>, next: nat) returns (g: Gap, w: seq<Byte>)
    requires MIN_BUF_LENGTH < h && next + h <= |s|
    ensures Window(h, g, s, next, w) && g.n == MIN_BUF_LENGTH && g.at + g.n + g.n <= |g.b|
    ensures g.b[g.at + g.n] == Other(s[next + g.n])
  {
    var n := MIN_BUF_LENGTH;
    var b := s[next..next + n] + Bytes(h, Other(s[next + n]));
    g := Gap(b, 0, n);
    assert b[0..n] == s[next..next + n];
    w := Gapped(b, 0, n, s[next + n..next + h]);
  }

  /**
   A block comes out as sent from every buffer and every delivery if and only if its header has at most kMinBufLength
   bytes.
   */
  lemma AlwaysRightIff(decode: HeaderDecoder, version: int, status: Byte, bd: BlockDetails, data: seq<Byte>,
                       s: seq<Byte>, next: nat)
    requires Standard(decode) && SoundBlock(bd) && |data| == bd.dataSize
    requires MessageAt(FileHeader(version, status, bd), s, next)
    requires MessageAt(data, s, next + |FileHeader(version, status, bd)|)
    ensures var h := |FileHeader(version, status, bd)|;
            AlwaysRight(decode, version, h, s, next, Received(HeaderAt(version, bd), data)) <==> h <= MIN_BUF_LENGTH
  {
    var h, block := |FileHeader(version, status, bd)|, Received(HeaderAt(version, bd), data);
    if h <= MIN_BUF_LENGTH {
      forall g: Gap, w: seq<Byte> | Window(h, g, s, next, w) ensures BlockFrom(decode, version, w, h, s, next, block) {
        IntactRight(decode, version, status, bd, data, s, next, w);
      }
    } else {
      var g, w := BadBuffer(h, s, next);
      GapRightIff(decode, version, status, bd, data, g, s, next, w);
      WrongByte(h, FlagAt(version, bd), |data|, g, w, s, next);
    }
  }

  lemma WrongByte(h: nat, flagAt: int, size: nat, g: Gap, w: seq<Byte>, s: seq<Byte>, next: nat)
    requires g.n < h && next + h <= |s|
    requires g.at + g.n + g.n <= |g.b| && 0 < g.n && g.b[g.at + g.n] == Other(s[next + g.n])
    ensures !BytesFit(h, flagAt, size, g, w, s, next)
  {
    assert !MatchesAt(flagAt, h, g, s, next, g.n);
  }

  lemma IntactRight(decode: HeaderDecoder, version: int, status: Byte, bd: BlockDetails, data: seq<Byte>, s: seq<Byte>,
                    next: nat, w: seq<Byte>)
    requires Standard(decode) && SoundBlock(bd) && |data| == bd.dataSize
    requires MessageAt(FileHeader(version, status, bd), s, next)
    requires MessageAt(data, s, next + |FileHeader(version, status, bd)|)
    requires Intact(w, s, next) && |FileHeader(version, status, bd)| <= |w|
    ensures BlockFrom(decode, version, w, |FileHeader(version, status, bd)|, s, next,
                      Received(HeaderAt(version, bd), data))
  {
    var h := FileHeader(version, status, bd);
    IntactPieces(h, data, s, next, w);
    HeaderReads(decode, version, status, bd);
    assert ReadDetails(decode, version, w, |h|) == Understood(HeaderAt(version, bd));
    WindowData(data, w, |h|, s, next);
  }
}
