/**
 The commands two peers exchange, encoded and decoded at a protocol version (Protocol.h, Protocol.cpp).

 Every `PutX(version, x, tail)` is matched by a `GetX(version, b)`; the round-trip lemmas say the
 decoder returns exactly what that version carries and stops exactly where the encoder stopped.
 */
module Protocol {
  import opened Serialization

  const SETTINGS_FLAG_VERSION := 12
  const HEADER_FLAG_AND_PREV_SEQ_ID_VERSION := 13
  const CHECKPOINT_OFFSET_VERSION := 16
  const CHECKPOINT_SEQ_ID_VERSION := 21
  const VARINT_CHANGE := 27

  const PATH_MAX: nat := 4096
  const MAX_TRANSFER_ID_LENGTH: nat := 1024
  const MAX_HEADER: nat := 1 + 2 + PATH_MAX + 4 * 10 + 1 + 10
  const MIN_BUF_LENGTH: nat := 256
  const MAX_DONE: nat := 2 + 2 * 10
  const MAX_SIZE: nat := 1 + 10
  const MAX_SETTINGS: nat := 1 + 3 * 10 + MAX_TRANSFER_ID_LENGTH + 1
  const MAX_FOOTER: nat := 1 + 10
  const MAX_VERSION: nat := 10
  const ABORT_LENGTH: nat := 4 + 1 + 8
  const CHUNKS_CMD_LENGTH: nat := 2 * 8
  const ENCRYPTION_CMD_LENGTH: nat := 1 + 1 + 1 + 16 + 4
  const MAX_CHUNK_ENCODE_LEN: nat := 20

  function NegotiateProtocol(requested: int, current: int): int {
    if requested < 10 then 0 else if current < requested then current else requested
  }

  /**
   Renegotiation settles: whenever a receiver accepts a sender's version it proposes one that both
   can speak, and proposing that version back changes nothing.
   */
  lemma NegotiationSettles(sender: int, receiver: int)
    ensures var v := NegotiateProtocol(sender, receiver);
            sender >= 10 && receiver >= 10 ==>
              v >= 10 && v <= sender && v <= receiver
              && NegotiateProtocol(v, sender) == v && NegotiateProtocol(v, receiver) == v
  {
  }

  // ---------------------------------------------------------------- block header

  /** Three bits on the wire; five values are in use. */
  type AllocationStatus = s: int | 0 <= s < 8
  const NOT_EXISTS: AllocationStatus := 0
  const EXISTS_CORRECT_SIZE: AllocationStatus := 1
  const EXISTS_TOO_LARGE: AllocationStatus := 2
  const EXISTS_TOO_SMALL: AllocationStatus := 3
  const TO_BE_DELETED: AllocationStatus := 4

  datatype BlockDetails = BlockDetails(
    fileName: seq<Byte>, seqId: Wire, fileSize: Wire, offset: Wire, dataSize: Wire,
    allocationStatus: AllocationStatus, prevSeqId: Wire)

  predicate CarriesPrevSeqId(s: AllocationStatus) { s == EXISTS_TOO_SMALL || s == EXISTS_TOO_LARGE }

  function PutFlags(version: int, bd: BlockDetails, tail: seq<Byte>): seq<Byte> {
    if version < HEADER_FLAG_AND_PREV_SEQ_ID_VERSION then tail
    else if CarriesPrevSeqId(bd.allocationStatus) then [bd.allocationStatus] + Put(bd.prevSeqId, tail)
    else [bd.allocationStatus] + tail
  }

  function PutHeader(version: int, bd: BlockDetails, tail: seq<Byte>): seq<Byte>
    requires |bd.fileName| < U64_LIMIT
  {
    PutString(bd.fileName,
      Put(bd.seqId, Put(bd.dataSize, Put(bd.offset, Put(bd.fileSize, PutFlags(version, bd, tail))))))
  }

  function GetFlags(version: int, bd: BlockDetails, b: seq<Byte>): Read<BlockDetails> {
    if version < HEADER_FLAG_AND_PREV_SEQ_ID_VERSION then Got(bd, b)
    else if b == [] then Fail
    else
      var status: AllocationStatus := b[0] % 8;
      if !CarriesPrevSeqId(status) then Got(bd.(allocationStatus := status), b[1..])
      else
        match Get(b[1..])
        case Fail => Fail
        case Got(prev, rest) => Got(bd.(allocationStatus := status, prevSeqId := prev), rest)
  }

  function GetHeader(version: int, b: seq<Byte>): Read<BlockDetails> {
    match GetString(b) case Fail => Fail case Got(name, b1) =>
    match Get(b1) case Fail => Fail case Got(seqId, b2) =>
    match Get(b2) case Fail => Fail case Got(dataSize, b3) =>
    match Get(b3) case Fail => Fail case Got(offset, b4) =>
    match Get(b4) case Fail => Fail case Got(fileSize, b5) =>
    GetFlags(version, BlockDetails(name, seqId, fileSize, offset, dataSize, NOT_EXISTS, 0), b5)
  }

  /** What a header of that version can convey; the rest keeps its default. */
  function HeaderAt(version: int, bd: BlockDetails): BlockDetails {
    if version < HEADER_FLAG_AND_PREV_SEQ_ID_VERSION then bd.(allocationStatus := NOT_EXISTS, prevSeqId := 0)
    else if CarriesPrevSeqId(bd.allocationStatus) then bd
    else bd.(prevSeqId := 0)
  }

  lemma FlagsRoundTrip(version: int, bd: BlockDetails, tail: seq<Byte>)
    ensures GetFlags(version, bd.(allocationStatus := NOT_EXISTS, prevSeqId := 0), PutFlags(version, bd, tail))
            == Got(HeaderAt(version, bd), tail)
    ensures |PutFlags(version, bd, tail)| <= 1 + MAX_VARINT + |tail|
  {
    if version >= HEADER_FLAG_AND_PREV_SEQ_ID_VERSION {
      var status: int := bd.allocationStatus;
      assert status % 8 == status;
      if CarriesPrevSeqId(bd.allocationStatus) {
        PutGet(bd.prevSeqId, tail);
        assert ([status] + Put(bd.prevSeqId, tail))[1..] == Put(bd.prevSeqId, tail);
      } else {
        assert ([status] + tail)[1..] == tail;
      }
    }
  }

  lemma HeaderRoundTrip(version: int, bd: BlockDetails, tail: seq<Byte>)
    requires |bd.fileName| < U64_LIMIT
    ensures GetHeader(version, PutHeader(version, bd, tail)) == Got(HeaderAt(version, bd), tail)
  {
    var b5 := PutFlags(version, bd, tail);
    var b4 := Put(bd.fileSize, b5);
    var b3 := Put(bd.offset, b4);
    var b2 := Put(bd.dataSize, b3);
    var b1 := Put(bd.seqId, b2);
    FlagsRoundTrip(version, bd, tail);
    PutGet(bd.fileSize, b5);
    PutGet(bd.offset, b4);
    PutGet(bd.dataSize, b3);
    PutGet(bd.seqId, b2);
    StringPutGet(bd.fileName, b1);
  }

  /** A header with other bits beside the allocation status in its flags. */
  function PutHeaderAs(version: int, bd: BlockDetails, flags: Byte, tail: seq<Byte>): seq<Byte>
    requires |bd.fileName| < U64_LIMIT
  {
    PutString(bd.fileName,
      Put(bd.seqId, Put(bd.dataSize, Put(bd.offset, Put(bd.fileSize, PutFlagsAs(version, bd, flags, tail))))))
  }
  function PutFlagsAs(version: int, bd: BlockDetails, flags: Byte, tail: seq<Byte>): seq<Byte> {
    if version < HEADER_FLAG_AND_PREV_SEQ_ID_VERSION then tail
    else [flags] + if CarriesPrevSeqId(bd.allocationStatus) then Put(bd.prevSeqId, tail) else tail
  }

  lemma GetOnly(b: seq<Byte>)
    requires Get(b).Got?
    ensures var r := Get(b);
            && |b| - |r.rest| >= |Put(r.value, [])|
            && (|b| - |r.rest| == |Put(r.value, [])| ==> b == Put(r.value, r.rest))
  {
    U64Only(b);
  }

  /** The lengths of the pieces of a header. */
  lemma HeaderLengths(version: int, bd: BlockDetails)
    requires |bd.fileName| < U64_LIMIT
    ensures |PutHeader(version, bd, [])| ==
            |PutString(bd.fileName, [])| + |Put(bd.seqId, [])| + |Put(bd.dataSize, [])| + |Put(bd.offset, [])|
            + |Put(bd.fileSize, [])| + |PutFlags(version, bd, [])|
  {
    HeaderSplits(version, bd);
  }

  lemma FlagsOnly(version: int, d: BlockDetails, b: seq<Byte>, bd: BlockDetails)
    requires d.allocationStatus == NOT_EXISTS && d.prevSeqId == 0
    requires GetFlags(version, d, b).Got? && GetFlags(version, d, b).value == HeaderAt(version, bd)
    ensures var r := GetFlags(version, d, b); var n := |PutFlags(version, bd, [])|;
            && |b| - |r.rest| >= n
            && (|b| - |r.rest| == n ==>
                  exists f: Byte :: f % 8 == bd.allocationStatus && b == PutFlagsAs(version, bd, f, r.rest))
  {
    if version >= HEADER_FLAG_AND_PREV_SEQ_ID_VERSION {
      var f, r := b[0], GetFlags(version, d, b);
      assert b == [f] + b[1..];
      if CarriesPrevSeqId(bd.allocationStatus) { GetOnly(b[1..]); }
      assert f % 8 == bd.allocationStatus;
      if |b| - |r.rest| == |PutFlags(version, bd, [])| { assert b == PutFlagsAs(version, bd, f, r.rest); }
    } else {
      var f: Byte := bd.allocationStatus;
      assert f % 8 == bd.allocationStatus && b == PutFlagsAs(version, bd, f, b);
    }
  }

  /** Bytes that read as a header, and are no longer than it, are its bytes, up to spare bits in the flags. */
  lemma HeaderOnly(version: int, b: seq<Byte>, bd: BlockDetails) returns (f: Byte)
    requires |bd.fileName| < U64_LIMIT && GetHeader(version, b).Got?
    requires GetHeader(version, b).value == HeaderAt(version, bd)
    requires |b| - |GetHeader(version, b).rest| == |PutHeader(version, bd, [])|
    ensures f % 8 == bd.allocationStatus && b == PutHeaderAs(version, bd, f, GetHeader(version, b).rest)
  {
    HeaderLengths(version, bd);
    var b1, b2, b3, b4, b5, rest := HeaderPieces(version, b, bd);
    StringOnly(b);
    GetOnly(b1);
    GetOnly(b2);
    GetOnly(b3);
    GetOnly(b4);
    FlagsOnly(version, bd.(allocationStatus := NOT_EXISTS, prevSeqId := 0), b5, bd);
    f :| f % 8 == bd.allocationStatus && b5 == PutFlagsAs(version, bd, f, rest);
  }

  /** What is left behind each field of a header that reads as `bd`. */
  lemma HeaderPieces(version: int, b: seq<Byte>, bd: BlockDetails)
    returns (b1: seq<Byte>, b2: seq<Byte>, b3: seq<Byte>, b4: seq<Byte>, b5: seq<Byte>, rest: seq<Byte>)
    requires GetHeader(version, b).Got? && GetHeader(version, b).value == HeaderAt(version, bd)
    ensures GetString(b) == Got(bd.fileName, b1) && Get(b1) == Got(bd.seqId, b2) && Get(b2) == Got(bd.dataSize, b3)
    ensures Get(b3) == Got(bd.offset, b4) && Get(b4) == Got(bd.fileSize, b5)
    ensures GetFlags(version, bd.(allocationStatus := NOT_EXISTS, prevSeqId := 0), b5) ==
            Got(HeaderAt(version, bd), rest)
    ensures GetHeader(version, b).rest == rest
  {
    b1 := GetString(b).rest;
    b2 := Get(b1).rest;
    b3 := Get(b2).rest;
    b4 := Get(b3).rest;
    b5 := Get(b4).rest;
    rest := GetHeader(version, b).rest;
  }

  lemma FlagsAsRead(version: int, bd: BlockDetails, f: Byte, tail: seq<Byte>)
    requires f % 8 == bd.allocationStatus
    ensures GetFlags(version, bd.(allocationStatus := NOT_EXISTS, prevSeqId := 0), PutFlagsAs(version, bd, f, tail))
            == Got(HeaderAt(version, bd), tail)
  {
    if version >= HEADER_FLAG_AND_PREV_SEQ_ID_VERSION {
      PutGet(bd.prevSeqId, tail);
      assert ([f] + Put(bd.prevSeqId, tail))[1..] == Put(bd.prevSeqId, tail);
      assert ([f] + tail)[1..] == tail;
    }
  }

  /** The spare bits are not looked at. */
  lemma HeaderAsRead(version: int, bd: BlockDetails, f: Byte, tail: seq<Byte>)
    requires |bd.fileName| < U64_LIMIT && f % 8 == bd.allocationStatus
    ensures GetHeader(version, PutHeaderAs(version, bd, f, tail)) == Got(HeaderAt(version, bd), tail)
  {
    var b5 := PutFlagsAs(version, bd, f, tail);
    var b4 := Put(bd.fileSize, b5);
    var b3 := Put(bd.offset, b4);
    var b2 := Put(bd.dataSize, b3);
    FlagsAsRead(version, bd, f, tail);
    PutGet(bd.fileSize, b5);
    PutGet(bd.offset, b4);
    PutGet(bd.dataSize, b3);
    PutGet(bd.seqId, b2);
    StringPutGet(bd.fileName, Put(bd.seqId, b2));
  }

  /**
   One command byte, one status byte and two length bytes precede the header; a name of at most
   PATH_MAX bytes always fits the header buffer.  Ten-byte varints would not (4 + 2 + 4096 + 51 > 4150).
   */
  lemma HeaderFits(version: int, bd: BlockDetails)
    requires |bd.fileName| <= PATH_MAX
    ensures 4 + |PutHeader(version, bd, [])| <= MAX_HEADER
  {
    var b5 := PutFlags(version, bd, []);
    var b4 := Put(bd.fileSize, b5);
    var b3 := Put(bd.offset, b4);
    var b2 := Put(bd.dataSize, b3);
    var b1 := Put(bd.seqId, b2);
    FlagsRoundTrip(version, bd, []);
    StringPutGet(bd.fileName, b1);
  }

  lemma PutAppends(v: Wire, a: seq<Byte>, tail: seq<Byte>)
    ensures Put(v, a + tail) == Put(v, a) + tail
  {
    PutU64Appends(v, a + tail);
    PutU64Appends(v, a);
  }

  lemma PutStringAppends(s: seq<Byte>, a: seq<Byte>, tail: seq<Byte>)
    requires |s| < U64_LIMIT
    ensures PutString(s, a + tail) == PutString(s, a) + tail
  {
    PutU64Appends(|s|, s + (a + tail));
    PutU64Appends(|s|, s + a);
    ConcatAssoc(s, a, tail);
    ConcatAssoc(VarBytes(|s|), s + a, tail);
  }

  lemma HeaderAppends(version: int, bd: BlockDetails, tail: seq<Byte>)
    requires |bd.fileName| < U64_LIMIT
    ensures PutHeader(version, bd, tail) == PutHeader(version, bd, []) + tail
  {
    var b5 := PutFlags(version, bd, []);
    assert PutFlags(version, bd, tail) == b5 + tail by {
      PutAppends(bd.prevSeqId, [], tail);
      assert [] + tail == tail;
      ConcatAssoc([bd.allocationStatus], Put(bd.prevSeqId, []), tail);
      ConcatAssoc([bd.allocationStatus], [], tail);
    }
    var b4 := Put(bd.fileSize, b5);
    var b3 := Put(bd.offset, b4);
    var b2 := Put(bd.dataSize, b3);
    PutAppends(bd.fileSize, b5, tail);
    PutAppends(bd.offset, b4, tail);
    PutAppends(bd.dataSize, b3, tail);
    PutAppends(bd.seqId, b2, tail);
    PutStringAppends(bd.fileName, Put(bd.seqId, b2), tail);
  }

  /** encodeVarI64C as one link of a chain of writes that started at `off`. */
  method EncodeNext(dest: array<Byte>, max: nat, p: nat, v: Wire, ghost before: seq<Byte>, ghost off: nat,
                    ghost done: seq<Byte>) returns (ok: bool, end: int)
    requires max <= dest.Length && p == off + |done| && Wrote(before, dest[..], off, done, max)
    modifies dest
    ensures ok <==> p + |VarBytes(v)| <= max
    ensures ok ==> end == p + |VarBytes(v)| && Wrote(before, dest[..], off, done + VarBytes(v), max)
    ensures !ok ==> Kept(before, dest[..], off, max)
  {
    ghost var mid := dest[..];
    ok, end := EncodeVarU64(dest, max, p, v);
    if ok {
      WroteTwice(before, mid, dest[..], off, done, VarBytes(v), max);
    } else {
      KeptAfter(before, mid, dest[..], off, done, max);
    }
  }

  function HeaderFields(bd: BlockDetails): seq<Byte>
    requires |bd.fileName| < U64_LIMIT
  {
    PutString(bd.fileName, []) + VarBytes(bd.seqId) + VarBytes(bd.dataSize) + VarBytes(bd.offset)
      + VarBytes(bd.fileSize)
  }

  lemma HeaderSplits(version: int, bd: BlockDetails)
    requires |bd.fileName| < U64_LIMIT
    ensures PutHeader(version, bd, []) == HeaderFields(bd) + PutFlags(version, bd, [])
  {
    FieldsThen(bd, PutFlags(version, bd, []));
  }

  lemma FieldsThen(bd: BlockDetails, b5: seq<Byte>)
    requires |bd.fileName| < U64_LIMIT
    ensures PutString(bd.fileName, Put(bd.seqId, Put(bd.dataSize, Put(bd.offset, Put(bd.fileSize, b5)))))
            == HeaderFields(bd) + b5
  {
    var f, o, d, q := VarBytes(bd.fileSize), VarBytes(bd.offset), VarBytes(bd.dataSize), VarBytes(bd.seqId);
    PutU64Appends(bd.fileSize, b5);
    PutU64Appends(bd.offset, f + b5);
    PutU64Appends(bd.dataSize, o + (f + b5));
    PutU64Appends(bd.seqId, d + (o + (f + b5)));
    var rest := q + (d + (o + (f + b5)));
    PutStringAppends(bd.fileName, [], rest);
    assert [] + rest == rest;
    Regroup(PutString(bd.fileName, []), q, d, o, f, b5);
  }

  /** Where the flags are in a header, if it has any. */
  function FlagAt(version: int, bd: BlockDetails): int
    requires |bd.fileName| < U64_LIMIT
  {
    if version < HEADER_FLAG_AND_PREV_SEQ_ID_VERSION then -1 else |HeaderFields(bd)|
  }

  /** The same byte at position `i`, or one that differs in spare bits of the flags only. */
  predicate SameByte(i: nat, flagAt: int, x: Byte, y: Byte) { if i == flagAt then x % 8 == y % 8 else x == y }

  /** `b` starts with the bytes `h`, up to the spare bits. */
  ghost predicate SameBytes(h: seq<Byte>, flagAt: int, b: seq<Byte>) {
    |h| <= |b| && forall i | 0 <= i < |h| :: SameByte(i, flagAt, b[i], h[i])
  }
  ghost predicate Alike(version: int, bd: BlockDetails, b: seq<Byte>)
    requires |bd.fileName| < U64_LIMIT
  {
    SameBytes(PutHeader(version, bd, []), FlagAt(version, bd), b)
  }

  lemma FlagsAsAppends(version: int, bd: BlockDetails, f: Byte, tail: seq<Byte>)
    ensures PutFlagsAs(version, bd, f, tail) == PutFlagsAs(version, bd, f, []) + tail
  {
    PutAppends(bd.prevSeqId, [], tail);
    assert [] + tail == tail;
    ConcatAssoc([f], Put(bd.prevSeqId, []), tail);
    ConcatAssoc([f], [], tail);
  }

  /** A header with flags `f`: its own bytes, but for that one. */
  lemma AsSplits(version: int, bd: BlockDetails, f: Byte, tail: seq<Byte>)
    requires |bd.fileName| < U64_LIMIT && f % 8 == bd.allocationStatus
    ensures var h, k := PutHeader(version, bd, []), FlagAt(version, bd);
            && k < |h| && PutHeaderAs(version, bd, f, tail) == (if k < 0 then h else h[k := f]) + tail
            && (k >= 0 ==> h[k] % 8 == f % 8)
  {
    var a, c := HeaderShape(version, bd);
    var d := FlagShape(version, bd, f, c);
    AsShape(version, bd, f, tail, a, d);
    SplitBytes(a, c, d, f, tail);
    FlagByte(a, c, bd.allocationStatus);
  }

  lemma FlagByte(a: seq<Byte>, c: seq<Byte>, status: AllocationStatus)
    requires c != [] ==> c[0] == status
    ensures c != [] ==> (a + c)[|a|] % 8 == status
  {
  }

  /** Fields and flags. */
  lemma HeaderShape(version: int, bd: BlockDetails) returns (a: seq<Byte>, c: seq<Byte>)
    requires |bd.fileName| < U64_LIMIT
    ensures a == HeaderFields(bd) && c == PutFlags(version, bd, []) && PutHeader(version, bd, []) == a + c
    ensures FlagAt(version, bd) == (if c == [] then -1 else |a|) && (c != [] ==> c[0] == bd.allocationStatus)
    ensures a != []
  {
    a, c := HeaderFields(bd), PutFlags(version, bd, []);
    HeaderSplits(version, bd);
  }

  lemma FlagShape(version: int, bd: BlockDetails, f: Byte, c: seq<Byte>) returns (d: seq<Byte>)
    requires c == PutFlags(version, bd, [])
    ensures d == PutFlagsAs(version, bd, f, []) && (c == d == [] || (c != [] && d == c[0 := f]))
  {
    d := PutFlagsAs(version, bd, f, []);
  }

  lemma AsShape(version: int, bd: BlockDetails, f: Byte, tail: seq<Byte>, a: seq<Byte>, d: seq<Byte>)
    requires |bd.fileName| < U64_LIMIT && a == HeaderFields(bd) && d == PutFlagsAs(version, bd, f, [])
    ensures PutHeaderAs(version, bd, f, tail) == a + (d + tail)
  {
    FieldsThen(bd, PutFlagsAs(version, bd, f, tail));
    FlagsAsAppends(version, bd, f, tail);
  }

  lemma SplitBytes(a: seq<Byte>, c: seq<Byte>, d: seq<Byte>, f: Byte, tail: seq<Byte>)
    requires c == d == [] || (c != [] && d == c[0 := f])
    ensures a + (d + tail) == (if c == [] then a + c else (a + c)[|a| := f]) + tail
  {
    ConcatAssoc(a, d, tail);
    if c != [] { assert a + c[0 := f] == (a + c)[|a| := f]; }
  }

  lemma SameAfter(h: seq<Byte>, k: int, f: Byte, tail: seq<Byte>)
    requires k < |h| && (k >= 0 ==> h[k] % 8 == f % 8)
    ensures SameBytes(h, k, (if k < 0 then h else h[k := f]) + tail)
  {
  }

  lemma SameBefore(h: seq<Byte>, k: int, b: seq<Byte>) returns (f: Byte)
    requires k < |h| && SameBytes(h, k, b)
    ensures b == (if k < 0 then h else h[k := f]) + b[|h|..] && (k >= 0 ==> h[k] % 8 == f % 8)
  {
    f := if k < 0 then 0 else b[k];
    var c := if k < 0 then h else h[k := f];
    forall i | 0 <= i < |h| ensures b[i] == c[i] { assert SameByte(i, k, b[i], h[i]); }
    if k >= 0 { assert SameByte(k, k, b[k], h[k]); }
    assert b == b[..|h|] + b[|h|..] && b[..|h|] == c;
  }

  lemma FlagIs(version: int, bd: BlockDetails)
    requires |bd.fileName| < U64_LIMIT
    ensures var h, k := PutHeader(version, bd, []), FlagAt(version, bd);
            k < |h| && (k >= 0 ==> h[k] % 8 == bd.allocationStatus)
  {
    var a, c := HeaderShape(version, bd);
    FlagByte(a, c, bd.allocationStatus);
  }

  /**
   Bytes read as a header of its own length if and only if they start with its bytes; only the spare bits of the flags
   are free.
   */
  lemma HeaderReadIff(version: int, bd: BlockDetails, b: seq<Byte>)
    requires |bd.fileName| < U64_LIMIT
    ensures var r := GetHeader(version, b);
            r.Got? && r.value == HeaderAt(version, bd) && |b| - |r.rest| == |PutHeader(version, bd, [])| <==>
              Alike(version, bd, b)
  {
    var r := GetHeader(version, b);
    if r.Got? && r.value == HeaderAt(version, bd) && |b| - |r.rest| == |PutHeader(version, bd, [])| {
      var f := HeaderOnly(version, b, bd);
      AsSplits(version, bd, f, r.rest);
      SameAfter(PutHeader(version, bd, []), FlagAt(version, bd), f, r.rest);
    }
    if Alike(version, bd, b) { AlikeReads(version, bd, b); }
  }

  lemma AlikeReads(version: int, bd: BlockDetails, b: seq<Byte>)
    requires |bd.fileName| < U64_LIMIT && Alike(version, bd, b)
    ensures GetHeader(version, b) == Got(HeaderAt(version, bd), b[|PutHeader(version, bd, [])|..])
  {
    var f := AlikeIs(version, bd, b);
    HeaderAsRead(version, bd, f, b[|PutHeader(version, bd, [])|..]);
  }

  /** They are the header's bytes with some flag byte, and what follows. */
  lemma AlikeIs(version: int, bd: BlockDetails, b: seq<Byte>) returns (f: Byte)
    requires |bd.fileName| < U64_LIMIT && Alike(version, bd, b)
    ensures f % 8 == bd.allocationStatus && |PutHeader(version, bd, [])| <= |b|
    ensures b == PutHeaderAs(version, bd, f, b[|PutHeader(version, bd, [])|..])
  {
    var h, k := PutHeader(version, bd, []), FlagAt(version, bd);
    FlagIs(version, bd);
    f := SameBefore(h, k, b);
    f := FlagOrStatus(k, f, bd.allocationStatus);
    AsSplits(version, bd, f, b[|h|..]);
  }

  lemma FlagOrStatus(k: int, f0: Byte, status: AllocationStatus) returns (f: Byte)
    requires k >= 0 ==> f0 % 8 == status
    ensures f % 8 == status && (k >= 0 ==> f == f0)
  {
    f := if k < 0 then status else f0;
    assert status % 8 == status;
  }

  lemma Regroup(n: seq<Byte>, q: seq<Byte>, d: seq<Byte>, o: seq<Byte>, f: seq<Byte>, b: seq<Byte>)
    ensures n + (q + (d + (o + (f + b)))) == n + q + d + o + f + b
  {
    ConcatAssoc(n, q, d + (o + (f + b)));
    ConcatAssoc(n + q, d, o + (f + b));
    ConcatAssoc(n + q + d, o, f + b);
    ConcatAssoc(n + q + d + o, f, b);
  }

  /** encodeHeader: all of the header is written, or the buffer was too small for it. */
  method EncodeHeader(version: int, dest: array<Byte>, off: nat, max: nat, bd: BlockDetails)
    returns (ok: bool, end: int)
    requires off <= max <= dest.Length && |bd.fileName| < U64_LIMIT
    modifies dest
    ensures ok <==> off + |PutHeader(version, bd, [])| <= max
    ensures ok ==> end == off + |PutHeader(version, bd, [])|
                   && Wrote(old(dest[..]), dest[..], off, PutHeader(version, bd, []), max)
    ensures !ok ==> Kept(old(dest[..]), dest[..], off, max)
  {
    ghost var before := dest[..];
    HeaderSplits(version, bd);
    ok, end := EncodeHeaderFields(dest, off, max, bd);
    if ok && version >= HEADER_FLAG_AND_PREV_SEQ_ID_VERSION {
      ok, end := EncodeFlags(version, dest, end, max, bd, before, off, HeaderFields(bd));
    } else if ok {
      assert HeaderFields(bd) + [] == HeaderFields(bd);
    }
  }

  method EncodeHeaderFields(dest: array<Byte>, off: nat, max: nat, bd: BlockDetails) returns (ok: bool, end: int)
    requires off <= max <= dest.Length && |bd.fileName| < U64_LIMIT
    modifies dest
    ensures ok <==> off + |HeaderFields(bd)| <= max
    ensures ok ==> end == off + |HeaderFields(bd)| && Wrote(old(dest[..]), dest[..], off, HeaderFields(bd), max)
    ensures !ok ==> Kept(old(dest[..]), dest[..], off, max)
  {
    ghost var before := dest[..];
    ghost var done := PutString(bd.fileName, []);
    ok, end := EncodeString(dest, max, off, bd.fileName);
    if !ok { return; }
    ok, end := EncodeNext(dest, max, end, bd.seqId, before, off, done);
    if !ok { return; }
    done := done + VarBytes(bd.seqId);
    ok, end := EncodeNext(dest, max, end, bd.dataSize, before, off, done);
    if !ok { return; }
    done := done + VarBytes(bd.dataSize);
    ok, end := EncodeNext(dest, max, end, bd.offset, before, off, done);
    if !ok { return; }
    done := done + VarBytes(bd.offset);
    ok, end := EncodeNext(dest, max, end, bd.fileSize, before, off, done);
  }

  method EncodeFlags(version: int, dest: array<Byte>, p: nat, max: nat, bd: BlockDetails, ghost before: seq<Byte>,
                     ghost off: nat, ghost done: seq<Byte>) returns (ok: bool, end: int)
    requires max <= dest.Length && p == off + |done| && Wrote(before, dest[..], off, done, max)
    requires version >= HEADER_FLAG_AND_PREV_SEQ_ID_VERSION
    modifies dest
    ensures ok <==> p + |PutFlags(version, bd, [])| <= max
    ensures ok ==> end == p + |PutFlags(version, bd, [])|
                   && Wrote(before, dest[..], off, done + PutFlags(version, bd, []), max)
    ensures !ok ==> Kept(before, dest[..], off, max)
  {
    if p >= max {
      return false, p;
    }
    PutByte(dest, p, bd.allocationStatus, before, off, done, max);
    ok, end := true, p + 1;
    if CarriesPrevSeqId(bd.allocationStatus) {
      ok, end := EncodeNext(dest, max, p + 1, bd.prevSeqId, before, off, done + [bd.allocationStatus]);
      ConcatAssoc(done, [bd.allocationStatus], VarBytes(bd.prevSeqId));
    } else {
      assert [bd.allocationStatus] + [] == [bd.allocationStatus];
    }
  }

  // ---------------------------------------------------------------- checkpoints

  datatype Checkpoint = Checkpoint(
    port: int, numBlocks: int, lastBlockSeqId: int, lastBlockOffset: int,
    lastBlockReceivedBytes: int, hasSeqId: bool)

  /** encodeVarI64C crashes the process on anything else. */
  ghost predicate Encodable(c: Checkpoint) {
    && 0 <= c.port <= I32_MAX
    && 0 <= c.numBlocks <= I64_MAX
    && 0 <= c.lastBlockSeqId <= I64_MAX
    && 0 <= c.lastBlockOffset <= I64_MAX
    && 0 <= c.lastBlockReceivedBytes <= I64_MAX
  }

  function PutCheckpoint(version: int, c: Checkpoint, tail: seq<Byte>): seq<Byte>
    requires Encodable(c)
  {
    var seqPart := if version >= CHECKPOINT_SEQ_ID_VERSION
                   then Put(c.lastBlockSeqId, Put(c.lastBlockOffset, tail)) else tail;
    var bytesPart := if version >= CHECKPOINT_OFFSET_VERSION
                     then Put(c.lastBlockReceivedBytes, seqPart) else seqPart;
    Put(c.port, Put(c.numBlocks, bytesPart))
  }

  /** The seq-id and offset; versions before VARINT_CHANGE wrote -1 as nine 0xff bytes and a 0x01. */
  function GetSeqIdAndOffset(version: int, c: Checkpoint, b: seq<Byte>): Read<Checkpoint> {
    match GetU64(b)
    case Fail => Fail
    case Got(uv, b1) =>
      var legacy := version < VARINT_CHANGE && uv == U64_LIMIT - 1 && b1 != [];
      if legacy && b1[0] != 1 then Fail
      else
        var seqId := if legacy then -1 else ToSigned(uv);
        match Get(if legacy then b1[1..] else b1)
        case Fail => Fail
        case Got(off, rest) => Got(c.(lastBlockSeqId := seqId, lastBlockOffset := off, hasSeqId := true), rest)
  }

  function GetCheckpoint(version: int, b: seq<Byte>): Read<Checkpoint> {
    match Get32(b) case Fail => Fail case Got(port, b1) =>
    match Get(b1) case Fail => Fail case Got(numBlocks, b2) =>
    var c := Checkpoint(port, numBlocks, 0, 0, 0, false);
    if version < CHECKPOINT_OFFSET_VERSION then Got(c, b2)
    else
      match Get(b2) case Fail => Fail case Got(received, b3) =>
      var c' := c.(lastBlockReceivedBytes := received);
      if version < CHECKPOINT_SEQ_ID_VERSION then Got(c', b3) else GetSeqIdAndOffset(version, c', b3)
  }

  function CheckpointAt(version: int, c: Checkpoint): Checkpoint {
    if version < CHECKPOINT_OFFSET_VERSION then Checkpoint(c.port, c.numBlocks, 0, 0, 0, false)
    else if version < CHECKPOINT_SEQ_ID_VERSION
    then Checkpoint(c.port, c.numBlocks, 0, 0, c.lastBlockReceivedBytes, false)
    else c.(hasSeqId := true)
  }

  lemma SeqIdAndOffsetRoundTrip(version: int, c: Checkpoint, seqId: Wire, off: Wire, tail: seq<Byte>)
    ensures GetSeqIdAndOffset(version, c, Put(seqId, Put(off, tail)))
            == Got(c.(lastBlockSeqId := seqId, lastBlockOffset := off, hasSeqId := true), tail)
  {
    U64RoundTrip(seqId, Put(off, tail));
    PutGet(off, tail);
  }

  lemma CheckpointLength(version: int, c: Checkpoint, tail: seq<Byte>)
    requires Encodable(c)
    ensures |PutCheckpoint(version, c, tail)| <= 5 * MAX_VARINT + |tail|
    ensures version < CHECKPOINT_SEQ_ID_VERSION ==> |PutCheckpoint(version, c, tail)| <= 3 * MAX_VARINT + |tail|
    ensures version < CHECKPOINT_OFFSET_VERSION ==> |PutCheckpoint(version, c, tail)| <= 2 * MAX_VARINT + |tail|
  {
  }

  lemma CheckpointRoundTrip(version: int, c: Checkpoint, tail: seq<Byte>)
    requires Encodable(c)
    ensures GetCheckpoint(version, PutCheckpoint(version, c, tail)) == Got(CheckpointAt(version, c), tail)
    ensures |PutCheckpoint(version, c, tail)| <= 5 * MAX_VARINT + |tail|
    ensures version < CHECKPOINT_SEQ_ID_VERSION ==> |PutCheckpoint(version, c, tail)| <= 3 * MAX_VARINT + |tail|
    ensures version < CHECKPOINT_OFFSET_VERSION ==> |PutCheckpoint(version, c, tail)| <= 2 * MAX_VARINT + |tail|
  {
    var b3 := if version >= CHECKPOINT_SEQ_ID_VERSION
              then Put(c.lastBlockSeqId, Put(c.lastBlockOffset, tail)) else tail;
    var b2 := if version >= CHECKPOINT_OFFSET_VERSION then Put(c.lastBlockReceivedBytes, b3) else b3;
    CheckpointLength(version, c, tail);
    PutGet(c.port, Put(c.numBlocks, b2));
    PutGet(c.numBlocks, b2);
    PutGet(c.lastBlockReceivedBytes, b3);
    SeqIdAndOffsetRoundTrip(version, Checkpoint(c.port, c.numBlocks, 0, 0, c.lastBlockReceivedBytes, false),
                            c.lastBlockSeqId, c.lastBlockOffset, tail);
  }

  ghost predicate AllEncodable(cs: seq<Checkpoint>) { forall c | c in cs :: Encodable(c) }

  function PutEach(version: int, cs: seq<Checkpoint>, tail: seq<Byte>): seq<Byte>
    requires AllEncodable(cs)
  {
    if cs == [] then tail else PutCheckpoint(version, cs[0], PutEach(version, cs[1..], tail))
  }

  function PutCheckpoints(version: int, cs: seq<Checkpoint>, tail: seq<Byte>): seq<Byte>
    requires AllEncodable(cs) && |cs| < U64_LIMIT
  {
    PutU64(|cs|, PutEach(version, cs, tail))
  }

  function GetEach(version: int, n: nat, b: seq<Byte>): Read<seq<Checkpoint>> {
    if n == 0 then Got([], b)
    else
      match GetCheckpoint(version, b) case Fail => Fail case Got(c, b1) =>
      Extends([c], GetEach(version, n - 1, b1))
  }

  function GetCheckpoints(version: int, b: seq<Byte>): Read<seq<Checkpoint>> {
    match GetU64(b) case Fail => Fail case Got(n, b1) => GetEach(version, n, b1)
  }

  function EachAt(version: int, cs: seq<Checkpoint>): (r: seq<Checkpoint>)
    ensures |r| == |cs| && forall i | 0 <= i < |cs| :: r[i] == CheckpointAt(version, cs[i])
  {
    if cs == [] then [] else [CheckpointAt(version, cs[0])] + EachAt(version, cs[1..])
  }

  lemma {:induction false} EachRoundTrip(version: int, cs: seq<Checkpoint>, tail: seq<Byte>)
    requires AllEncodable(cs)
    ensures GetEach(version, |cs|, PutEach(version, cs, tail)) == Got(EachAt(version, cs), tail)
  {
    if cs != [] {
      EachRoundTrip(version, cs[1..], tail);
      CheckpointRoundTrip(version, cs[0], PutEach(version, cs[1..], tail));
    }
  }

  lemma {:induction false} CheckpointsRoundTrip(version: int, cs: seq<Checkpoint>, tail: seq<Byte>)
    requires AllEncodable(cs) && |cs| < U64_LIMIT
    ensures GetCheckpoints(version, PutCheckpoints(version, cs, tail)) == Got(EachAt(version, cs), tail)
  {
    U64RoundTrip(|cs|, PutEach(version, cs, tail));
    EachRoundTrip(version, cs, tail);
  }

  function MaxLocalCheckpointLength(version: int): nat {
    30 + (if version >= CHECKPOINT_OFFSET_VERSION then 10 else 0)
       + (if version >= CHECKPOINT_SEQ_ID_VERSION then 20 else 0)
  }

  /** A local checkpoint, a list of one, always fits the fixed length both sides agree on. */
  lemma LocalCheckpointFits(version: int, c: Checkpoint)
    requires Encodable(c)
    ensures |PutCheckpoints(version, [c], [])| <= MaxLocalCheckpointLength(version)
    ensures PutCheckpoints(version, [c], [])[0] == 1
  {
    assert [c][1..] == [];
    assert PutEach(version, [c], []) == PutCheckpoint(version, c, []);
    CheckpointRoundTrip(version, c, []);
    PutU64Appends(1, PutCheckpoint(version, c, []));
    SmallVarint(1);
    assert VarBytes(1) == [1] by { CapacityIsU64(); }
  }

  /** decodeCheckpoints: as many entries as the leading count announces, or failure. */
  method DecodeCheckpoints(version: int, src: seq<Byte>) returns (ok: bool, list: seq<Checkpoint>, br: seq<Byte>)
    ensures ok <==> GetCheckpoints(version, src).Got?
    ensures ok ==> GetCheckpoints(version, src) == Got(list, br)
  {
    list, br := [], src;
    var len, end;
    ok, len, end := DecodeVarU64(src, 0);
    assert src[0..] == src;
    if ok {
      AllAhead(version, len, src[end..]);
      ok, list, br := DecodeEach(version, len, src[end..], GetEach(version, len, src[end..]));
    }
  }

  /** With the `n` entries from `b` on behind those of `done`, all come to `whole`. */
  ghost predicate Ahead(version: int, n: nat, b: seq<Byte>, done: seq<Checkpoint>, whole: Read<seq<Checkpoint>>) {
    whole == Extends(done, GetEach(version, n, b))
  }

  lemma {:induction false} AllAhead(version: int, n: nat, b: seq<Byte>)
    ensures Ahead(version, n, b, [], GetEach(version, n, b))
  {
    ExtendsNothing(GetEach(version, n, b));
  }

  lemma NoneAhead(version: int, b: seq<Byte>, done: seq<Checkpoint>, whole: Read<seq<Checkpoint>>)
    requires Ahead(version, 0, b, done, whole)
    ensures whole == Got(done, b)
  {
    assert done + [] == done;
  }

  method DecodeNext(version: int, n: nat, b: seq<Byte>, ghost done: seq<Checkpoint>,
                    ghost whole: Read<seq<Checkpoint>>) returns (ok: bool, c: Checkpoint, rest: seq<Byte>)
    requires n > 0 && Ahead(version, n, b, done, whole)
    ensures if ok then Ahead(version, n - 1, rest, done + [c], whole) else whole.Fail?
  {
    ok, c, rest := DecodeCheckpoint(version, b);
    if ok {
      EachStep(version, n, b, c, rest);
      ExtendsStep(done, c, GetEach(version, n - 1, rest));
    }
  }

  method DecodeEach(version: int, len: nat, src: seq<Byte>, ghost whole: Read<seq<Checkpoint>>)
    returns (ok: bool, list: seq<Checkpoint>, br: seq<Byte>)
    requires Ahead(version, len, src, [], whole)
    ensures if ok then whole == Got(list, br) else whole.Fail?
  {
    ok, list, br := true, [], src;
    for i := 0 to len
      invariant ok && Ahead(version, len - i, br, list, whole)
    {
      var c, rest;
      ok, c, rest := DecodeNext(version, len - i, br, list, whole);
      if !ok {
        return;
      }
      list, br := list + [c], rest;
    }
    NoneAhead(version, br, list, whole);
  }

  lemma EachStep(version: int, n: nat, b: seq<Byte>, c: Checkpoint, rest: seq<Byte>)
    requires n > 0 && GetCheckpoint(version, b) == Got(c, rest)
    ensures GetEach(version, n, b) == Extends([c], GetEach(version, n - 1, rest))
  {
  }

  /** `done` in front of whatever is still to be read. */
  function Extends(done: seq<Checkpoint>, more: Read<seq<Checkpoint>>): Read<seq<Checkpoint>> {
    match more case Fail => Fail case Got(cs, rest) => Got(done + cs, rest)
  }

  lemma ExtendsNothing(more: Read<seq<Checkpoint>>)
    ensures Extends([], more) == more
  {
    if more.Got? {
      assert [] + more.value == more.value;
    }
  }

  lemma ExtendsStep(done: seq<Checkpoint>, c: Checkpoint, more: Read<seq<Checkpoint>>)
    ensures Extends(done, Extends([c], more)) == Extends(done + [c], more)
  {
    if more.Got? {
      assert done + ([c] + more.value) == (done + [c]) + more.value;
    }
  }

  method DecodeWire(b: seq<Byte>) returns (ok: bool, v: int, rest: seq<Byte>)
    ensures ok <==> Get(b).Got?
    ensures ok ==> Get(b) == Got(v, rest)
  {
    var end;
    ok, v, end := DecodeVarU64(b, 0);
    assert b[0..] == b;
    rest := if ok then b[end..] else b;
    ok := ok && v <= I64_MAX;
  }

  method DecodeCheckpoint(version: int, b: seq<Byte>) returns (ok: bool, c: Checkpoint, br: seq<Byte>)
    ensures ok <==> GetCheckpoint(version, b).Got?
    ensures ok ==> GetCheckpoint(version, b) == Got(c, br)
  {
    c, br := Checkpoint(0, 0, 0, 0, 0, false), b;
    var v;
    ok, v, br := DecodeWire(br);
    if !ok || v > I32_MAX { ok := false; return; }
    c := c.(port := v);
    ok, v, br := DecodeWire(br);
    if !ok { return; }
    c := c.(numBlocks := v);
    if version >= CHECKPOINT_OFFSET_VERSION {
      ok, v, br := DecodeWire(br);
      if !ok { return; }
      c := c.(lastBlockReceivedBytes := v);
    }
    if version >= CHECKPOINT_SEQ_ID_VERSION {
      ok, c, br := DecodeSeqIdAndOffset(version, c, br);
    }
  }

  method DecodeSeqIdAndOffset(version: int, c0: Checkpoint, b: seq<Byte>)
    returns (ok: bool, c: Checkpoint, br: seq<Byte>)
    ensures ok <==> GetSeqIdAndOffset(version, c0, b).Got?
    ensures ok ==> GetSeqIdAndOffset(version, c0, b) == Got(c, br)
  {
    c, br := c0, b;
    var uv, end;
    ok, uv, end := DecodeVarU64(br, 0);
    assert b[0..] == b;
    if !ok { return; }
    br := br[end..];
    c := c.(lastBlockSeqId := ToSigned(uv));
    if version < VARINT_CHANGE && uv == U64_LIMIT - 1 && br != [] {
      if br[0] != 1 { ok := false; return; }
      br := br[1..];
      c := c.(lastBlockSeqId := -1);
    }
    var off;
    ok, off, br := DecodeWire(br);
    if ok { c := c.(lastBlockOffset := off, hasSeqId := true); }
  }

  // ---------------------------------------------------------------- settings

  datatype Settings = Settings(
    readTimeoutMillis: Wire, writeTimeoutMillis: Wire, transferId: seq<Byte>,
    enableChecksum: bool, sendFileChunks: bool, blockModeDisabled: bool, enableHeartBeat: bool)

  function SettingsFlags(s: Settings): Byte {
    (if s.enableChecksum then 1 else 0) + (if s.sendFileChunks then 2 else 0)
    + (if s.blockModeDisabled then 4 else 0) + (if s.enableHeartBeat then 8 else 0)
  }

  /** f & mask for a mask of one bit */
  predicate Bit(f: Byte, mask: nat)
    requires mask > 0
  {
    f / mask % 2 == 1
  }

  lemma FlagBits(s: Settings)
    ensures var f := SettingsFlags(s);
            Bit(f, 1) == s.enableChecksum && Bit(f, 2) == s.sendFileChunks
            && Bit(f, 4) == s.blockModeDisabled && Bit(f, 8) == s.enableHeartBeat
  {
  }

  function PutSettings(version: Wire, s: Settings, tail: seq<Byte>): seq<Byte>
    requires |s.transferId| < U64_LIMIT
  {
    Put(version, Put(s.readTimeoutMillis, Put(s.writeTimeoutMillis, PutString(s.transferId,
      if version >= SETTINGS_FLAG_VERSION then [SettingsFlags(s)] + tail else tail))))
  }

  /** decodeSettings, after decodeVersion has taken the version off the front. */
  function GetSettings(version: int, b: seq<Byte>): Read<Settings> {
    if b == [] then Fail else
    match Get32(b) case Fail => Fail case Got(rt, b1) =>
    match Get32(b1) case Fail => Fail case Got(wt, b2) =>
    match GetString(b2) case Fail => Fail case Got(id, b3) =>
    if version < SETTINGS_FLAG_VERSION then Got(Settings(rt, wt, id, false, false, false, false), b3)
    else if b3 == [] then Fail
    else
      var f := b3[0];
      Got(Settings(rt, wt, id, Bit(f, 1), Bit(f, 2), Bit(f, 4), Bit(f, 8)), b3[1..])
  }

  function SettingsAt(version: int, s: Settings): Settings {
    if version >= SETTINGS_FLAG_VERSION then s
    else s.(enableChecksum := false, sendFileChunks := false, blockModeDisabled := false, enableHeartBeat := false)
  }

  lemma SettingsRoundTrip(version: Wire, s: Settings, tail: seq<Byte>)
    requires version <= I32_MAX && s.readTimeoutMillis <= I32_MAX && s.writeTimeoutMillis <= I32_MAX
    requires |s.transferId| < U64_LIMIT
    ensures var v := Get32(PutSettings(version, s, tail));
            v.Got? && v.value == version && GetSettings(version, v.rest) == Got(SettingsAt(version, s), tail)
  {
    var b3 := if version >= SETTINGS_FLAG_VERSION then [SettingsFlags(s)] + tail else tail;
    var b2 := PutString(s.transferId, b3);
    var b1 := Put(s.writeTimeoutMillis, b2);
    PutGet(version, Put(s.readTimeoutMillis, b1));
    PutGet(s.readTimeoutMillis, b1);
    PutGet(s.writeTimeoutMillis, b2);
    StringPutGet(s.transferId, b3);
    FlagBits(s);
    assert version >= SETTINGS_FLAG_VERSION ==> b3[0] == SettingsFlags(s) && b3[1..] == tail;
  }

  /** The settings command, its command byte included, fits for every legal transfer id. */
  lemma SettingsFit(version: Wire, s: Settings)
    requires |s.transferId| <= MAX_TRANSFER_ID_LENGTH
    ensures 1 + |PutSettings(version, s, [])| <= MAX_SETTINGS
  {
    var b3 := if version >= SETTINGS_FLAG_VERSION then [SettingsFlags(s)] + [] else [];
    StringPutGet(s.transferId, b3);
  }

  // ---------------------------------------------------------------- the short commands

  function PutDone(version: int, numBlocks: Wire, totalBytes: Wire, tail: seq<Byte>): seq<Byte> {
    Put(numBlocks, if version >= CHECKPOINT_OFFSET_VERSION then Put(totalBytes, tail) else tail)
  }

  datatype DoneValue = DoneValue(numBlocks: int, totalBytes: int)

  /** Number of blocks, then the byte total, which keeps its initial -1 before version 16. */
  function GetDone(version: int, b: seq<Byte>): Read<DoneValue> {
    match Get(b) case Fail => Fail case Got(n, b1) =>
    if version < CHECKPOINT_OFFSET_VERSION then Got(DoneValue(n, -1), b1)
    else match Get(b1) case Fail => Fail case Got(t, rest) => Got(DoneValue(n, t), rest)
  }

  lemma DoneRoundTrip(version: int, numBlocks: Wire, totalBytes: Wire, tail: seq<Byte>)
    ensures GetDone(version, PutDone(version, numBlocks, totalBytes, tail))
            == Got(DoneValue(numBlocks, if version >= CHECKPOINT_OFFSET_VERSION then totalBytes else -1), tail)
    ensures 2 + |PutDone(version, numBlocks, totalBytes, [])| <= MAX_DONE
  {
    var b1 := if version >= CHECKPOINT_OFFSET_VERSION then Put(totalBytes, tail) else tail;
    PutGet(numBlocks, b1);
    PutGet(totalBytes, tail);
  }

  /** Size and footer commands are one varint behind their command byte. */
  lemma SizeAndFooterRoundTrip(total: Wire, checksum: I64, tail: seq<Byte>)
    requires I32_MIN <= checksum <= I32_MAX
    ensures Get(Put(total, tail)) == Got(total, tail) && 1 + |Put(total, [])| <= MAX_SIZE
    ensures GetZigZag32(PutZigZag(checksum, tail)) == Got(checksum, tail)
    ensures 1 + |PutZigZag(checksum, [])| <= MAX_FOOTER
  {
    PutGet(total, tail);
    ZigZagPutGet(checksum, tail);
  }

  lemma BaseValues()
    ensures Base(4) == 0x1_0000_0000 && Base(8) == U64_LIMIT
  {
    assert Base(2) == 65536;
    assert Base(4) == 256 * (256 * Base(2));
    assert Base(6) == 256 * (256 * Base(4));
    assert Base(8) == 256 * (256 * Base(6));
  }

  type I32Wire = v: int | 0 <= v <= I32_MAX

  function PutAbort(version: I32Wire, err: Byte, checkpoint: Wire): seq<Byte> {
    BaseValues();
    PutFixed(version, 4, [err] + PutFixed(checkpoint, 8, []))
  }

  function GetAbort(b: seq<Byte>): Read<(nat, Byte, nat)> {
    if |b| < ABORT_LENGTH then Fail else
    match GetFixed(b, 4) case Fail => Fail case Got(version, b1) =>
    match GetFixed(b1[1..], 8) case Fail => Fail case Got(checkpoint, rest) =>
    Got((version, b1[0], checkpoint), rest)
  }

  lemma AbortRoundTrip(version: I32Wire, err: Byte, checkpoint: Wire)
    ensures |PutAbort(version, err, checkpoint)| == ABORT_LENGTH
    ensures GetAbort(PutAbort(version, err, checkpoint)) == Got((version, err, checkpoint), [])
  {
    BaseValues();
    var b2 := PutFixed(checkpoint, 8, []);
    FixedRoundTrip(checkpoint, 8, []);
    FixedPutGet(checkpoint, 8, []);
    FixedRoundTrip(version, 4, [err] + b2);
    FixedPutGet(version, 4, [err] + b2);
    assert ([err] + b2)[1..] == b2;
  }

  function PutEncryptionSettings(kind: Wire, iv: seq<Byte>, tagInterval: I32Wire): seq<Byte>
    requires |iv| < U64_LIMIT
  {
    BaseValues();
    Put(kind, PutString(iv, PutFixed(tagInterval, 4, [])))
  }

  function GetEncryptionSettings(b: seq<Byte>): Read<(Wire, seq<Byte>, nat)> {
    match Get(b) case Fail => Fail case Got(kind, b1) =>
    match GetString(b1) case Fail => Fail case Got(iv, b2) =>
    match GetFixed(b2, 4) case Fail => Fail case Got(interval, rest) => Got((kind, iv, interval), rest)
  }

  /** The first encrypted-mode message is always exactly as long as the peer waits for. */
  lemma EncryptionSettingsRoundTrip(kind: Wire, iv: seq<Byte>, tagInterval: I32Wire)
    requires |iv| < U64_LIMIT
    ensures GetEncryptionSettings(PutEncryptionSettings(kind, iv, tagInterval)) == Got((kind, iv, tagInterval), [])
    ensures kind < 128 && |iv| == 16 ==> 1 + |PutEncryptionSettings(kind, iv, tagInterval)| == ENCRYPTION_CMD_LENGTH
  {
    BaseValues();
    var b2 := PutFixed(tagInterval, 4, []);
    FixedRoundTrip(tagInterval, 4, []);
    FixedPutGet(tagInterval, 4, []);
    StringPutGet(iv, b2);
    PutGet(kind, PutString(iv, b2));
    SmallVarint(kind);
    SmallVarint(|iv|);
    PutU64Appends(kind, PutString(iv, b2));
    PutU64Appends(|iv|, iv + b2);
  }
}
