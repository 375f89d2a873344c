/**
 Shipping the list of previously received ranges from receiver to sender in buffer-sized batches
 (Protocol.cpp, ReceiverThread.cpp, SenderThread.cpp).
 */
module ChunkBatches {
  import opened Serialization
  import opened Protocol
  import opened Chunks

  /** A FileChunksInfo as it travels. */
  datatype FileChunks = FileChunks(seqId: Wire, fileName: seq<Byte>, fileSize: Wire, chunks: seq<Interval>)

  ghost predicate EncodableChunks(cs: seq<Interval>) {
    |cs| <= I64_MAX && forall c | c in cs :: 0 <= c.start <= I64_MAX && 0 <= c.end <= I64_MAX
  }

  ghost predicate EncodableInfo(f: FileChunks) { |f.fileName| <= PATH_MAX && EncodableChunks(f.chunks) }

  ghost predicate AllEncodableInfos(fs: seq<FileChunks>) { forall f | f in fs :: EncodableInfo(f) }

  function PutChunks(cs: seq<Interval>, tail: seq<Byte>): (s: seq<Byte>)
    requires EncodableChunks(cs)
    ensures |s| <= MAX_CHUNK_ENCODE_LEN * |cs| + |tail|
  {
    if cs == [] then tail
    else
      assert cs[0] in cs;
      Put(cs[0].start, Put(cs[0].end, PutChunks(cs[1..], tail)))
  }

  function PutInfo(f: FileChunks, tail: seq<Byte>): seq<Byte>
    requires EncodableInfo(f)
  {
    Put(f.seqId, PutString(f.fileName, Put(f.fileSize, Put(|f.chunks|, PutChunks(f.chunks, tail)))))
  }

  function MaxEncodeLen(f: FileChunks): nat { 10 + 2 + |f.fileName| + 10 + 10 + |f.chunks| * MAX_CHUNK_ENCODE_LEN }

  function GetChunks(n: nat, b: seq<Byte>): (r: Read<seq<Interval>>)
    ensures r.Got? ==> |r.rest| <= |b|
  {
    if n == 0 then Got([], b)
    else
      match Get(b) case Fail => Fail case Got(start, b1) =>
      match Get(b1) case Fail => Fail case Got(end, b2) =>
      match GetChunks(n - 1, b2) case Fail => Fail case Got(cs, rest) => Got([Interval(start, end)] + cs, rest)
  }

  function GetInfo(b: seq<Byte>): (r: Read<FileChunks>)
    ensures r.Got? ==> |r.rest| < |b|
  {
    match Get(b) case Fail => Fail case Got(seqId, b1) =>
    match GetString(b1) case Fail => Fail case Got(name, b2) =>
    match Get(b2) case Fail => Fail case Got(size, b3) =>
    match Get(b3) case Fail => Fail case Got(n, b4) =>
    match GetChunks(n, b4) case Fail => Fail case Got(cs, rest) => Got(FileChunks(seqId, name, size, cs), rest)
  }

  /** A list of ranges starts with the two numbers of its first. */
  lemma {:induction false} FirstChunk(cs: seq<Interval>, tail: seq<Byte>) returns (b1: seq<Byte>, b2: seq<Byte>)
    requires EncodableChunks(cs) && cs != []
    ensures Get(PutChunks(cs, tail)) == Got(cs[0].start, b1) && Get(b1) == Got(cs[0].end, b2)
    ensures EncodableChunks(cs[1..]) && b2 == PutChunks(cs[1..], tail)
  {
    assert cs[0] in cs;
    b2 := PutChunks(cs[1..], tail);
    b1 := Put(cs[0].end, b2);
    PutGet(cs[0].start, b1);
    PutGet(cs[0].end, b2);
  }

  lemma {:induction false} OneChunkMore(n: nat, b: seq<Byte>, c: Interval, b1: seq<Byte>, b2: seq<Byte>,
                                        cs: seq<Interval>, rest: seq<Byte>)
    requires n > 0 && Get(b) == Got(c.start, b1) && Get(b1) == Got(c.end, b2) && GetChunks(n - 1, b2) == Got(cs, rest)
    ensures GetChunks(n, b) == Got([c] + cs, rest)
  {
  }

  lemma {:induction false} ChunksRoundTrip(cs: seq<Interval>, tail: seq<Byte>)
    requires EncodableChunks(cs)
    ensures GetChunks(|cs|, PutChunks(cs, tail)) == Got(cs, tail)
  {
    if cs != [] {
      var b1, b2 := FirstChunk(cs, tail);
      ChunksRoundTrip(cs[1..], tail);
      OneChunkMore(|cs|, PutChunks(cs, tail), cs[0], b1, b2, cs[1..], tail);
      assert [cs[0]] + cs[1..] == cs;
    }
  }

  lemma InfoRoundTrip(f: FileChunks, tail: seq<Byte>)
    requires EncodableInfo(f)
    ensures GetInfo(PutInfo(f, tail)) == Got(f, tail)
    ensures |PutInfo(f, tail)| <= MaxEncodeLen(f) + |tail|
    ensures PutInfo(f, tail) != []
  {
    var b4 := PutChunks(f.chunks, tail);
    var b3 := Put(|f.chunks|, b4);
    var b2 := Put(f.fileSize, b3);
    ChunksRoundTrip(f.chunks, tail);
    PutGet(|f.chunks|, b4);
    PutGet(f.fileSize, b3);
    StringPutGet(f.fileName, b2);
    PutGet(f.seqId, PutString(f.fileName, b2));
  }

  // ---------------------------------------------------------------- a list in one buffer

  function PutAll(fs: seq<FileChunks>): seq<Byte>
    requires AllEncodableInfos(fs)
  {
    if fs == [] then [] else PutInfo(fs[0], PutAll(fs[1..]))
  }

  /** decodeFileChunksInfoList: entries until the range is used up. */
  function GetAll(b: seq<Byte>): Read<seq<FileChunks>>
    decreases |b|
  {
    if b == [] then Got([], [])
    else
      match GetInfo(b) case Fail => Fail case Got(f, rest) => PrependInfo(f, GetAll(rest))
  }

  function PrependInfo(f: FileChunks, r: Read<seq<FileChunks>>): Read<seq<FileChunks>> {
    match r case Fail => Fail case Got(fs, rest) => Got([f] + fs, rest)
  }

  lemma {:induction false} AllRoundTrip(fs: seq<FileChunks>)
    requires AllEncodableInfos(fs)
    ensures GetAll(PutAll(fs)) == Got(fs, [])
  {
    if fs != [] {
      AllRoundTrip(fs[1..]);
      InfoRoundTrip(fs[0], PutAll(fs[1..]));
      assert [fs[0]] + fs[1..] == fs;
    }
  }

  // ---------------------------------------------------------------- one batch

  const LENGTH_PREFIX: nat := 4

  /** The entry leaves room for the length prefix and is strictly smaller than what remains. */
  predicate Fits(f: FileChunks, bufSize: int) { MaxEncodeLen(f) + LENGTH_PREFIX < bufSize }

  /** The entries encodeFileChunksInfoList puts in one buffer, from index i with the cursor at off. */
  function Batch(fs: seq<FileChunks>, i: nat, off: nat, bufSize: int): (batch: seq<FileChunks>)
    requires i <= |fs| && AllEncodableInfos(fs)
    decreases |fs| - i
  {
    if i == |fs| then []
    else if MaxEncodeLen(fs[i]) + LENGTH_PREFIX > bufSize then Batch(fs, i + 1, off, bufSize)
    else if MaxEncodeLen(fs[i]) + off >= bufSize then []
    else [fs[i]] + Batch(fs, i + 1, off + |PutInfo(fs[i], [])|, bufSize)
  }

  /** A batch only ever holds entries that fit, whatever the list. */
  lemma {:induction false} BatchHoldsFitting(fs: seq<FileChunks>, i: nat, off: nat, bufSize: int)
    requires i <= |fs| && AllEncodableInfos(fs) && off >= LENGTH_PREFIX
    ensures forall f | f in Batch(fs, i, off, bufSize) :: f in fs && Fits(f, bufSize)
    decreases |fs| - i
  {
    if i < |fs| {
      if MaxEncodeLen(fs[i]) + LENGTH_PREFIX > bufSize {
        BatchHoldsFitting(fs, i + 1, off, bufSize);
      } else if MaxEncodeLen(fs[i]) + off < bufSize {
        BatchHoldsFitting(fs, i + 1, off + |PutInfo(fs[i], [])|, bufSize);
      }
    }
  }

  ghost predicate AllFit(fs: seq<FileChunks>, bufSize: int) { forall f | f in fs :: Fits(f, bufSize) }

  lemma PrefixCons(fs: seq<FileChunks>, i: nat, more: seq<FileChunks>)
    requires i < |fs| && more <= fs[i + 1..]
    ensures [fs[i]] + more <= fs[i..]
  {
    assert fs[i..] == [fs[i]] + fs[i + 1..];
  }

  lemma PrefixSlice(fs: seq<FileChunks>, i: nat, batch: seq<FileChunks>)
    requires i <= |fs| && batch <= fs[i..]
    ensures i + |batch| <= |fs| && batch == fs[i..i + |batch|]
  {
  }

  /** Every entry fits, so every batch makes progress. */
  lemma {:induction false} BatchTakesOne(fs: seq<FileChunks>, i: nat, bufSize: int)
    requires i < |fs| && AllEncodableInfos(fs) && AllFit(fs, bufSize)
    ensures Batch(fs, i, LENGTH_PREFIX, bufSize) != []
  {
    assert Fits(fs[i], bufSize);
  }

  lemma {:induction false} BatchIsRun(fs: seq<FileChunks>, i: nat, off: nat, bufSize: int)
    requires i <= |fs| && AllEncodableInfos(fs) && off >= LENGTH_PREFIX && AllFit(fs, bufSize)
    ensures Batch(fs, i, off, bufSize) <= fs[i..]
    decreases |fs| - i
  {
    if i < |fs| {
      assert Fits(fs[i], bufSize);
      if MaxEncodeLen(fs[i]) + off < bufSize {
        var off' := off + |PutInfo(fs[i], [])|;
        BatchIsRun(fs, i + 1, off', bufSize);
        PrefixCons(fs, i, Batch(fs, i + 1, off', bufSize));
      }
    }
  }

  /** The batch, of `size` bytes, is the run of the list from `i` on, up to an entry that need not fit behind it. */
  ghost predicate Full(fs: seq<FileChunks>, i: nat, off: nat, bufSize: int, batch: seq<FileChunks>, size: nat) {
    var n := i + |batch|;
    n <= |fs| && batch == fs[i..n] && (n < |fs| ==> off + size + MaxEncodeLen(fs[n]) >= bufSize)
  }
  ghost predicate Encodes(batch: seq<FileChunks>, size: nat) { AllEncodableInfos(batch) && size == |PutAll(batch)| }

  lemma {:induction false} LengthByOne(f: FileChunks, rest: seq<FileChunks>, size: nat)
    requires EncodableInfo(f) && Encodes(rest, size)
    ensures Encodes([f] + rest, |PutInfo(f, [])| + size)
  {
    assert ([f] + rest)[0] == f && ([f] + rest)[1..] == rest;
    InfoAppends(f, PutAll(rest));
  }

  lemma FullerByOne(fs: seq<FileChunks>, i: nat, off: nat, bufSize: int, rest: seq<FileChunks>, one: nat, size: nat)
    requires i < |fs| && Full(fs, i + 1, off + one, bufSize, rest, size)
    ensures Full(fs, i, off, bufSize, [fs[i]] + rest, one + size)
  {
    assert [fs[i]] + fs[i + 1..i + 1 + |rest|] == fs[i..i + 1 + |rest|];
  }

  /** With entries that fit, a batch goes on as long as there is room. */
  lemma {:induction false} BatchIsFull(fs: seq<FileChunks>, i: nat, off: nat, bufSize: int) returns (size: nat)
    requires i <= |fs| && AllEncodableInfos(fs) && off >= LENGTH_PREFIX && AllFit(fs, bufSize)
    ensures var batch := Batch(fs, i, off, bufSize); Full(fs, i, off, bufSize, batch, size) && Encodes(batch, size)
    decreases |fs| - i
  {
    if Stops(fs, i, off, bufSize) {
      size := 0;
      NothingMore(fs, i, off, bufSize);
    } else {
      assert Fits(fs[i], bufSize);
      var one := |PutInfo(fs[i], [])|;
      var rest := Batch(fs, i + 1, off + one, bufSize);
      BatchStep(fs, i, off, bufSize, rest);
      size := BatchIsFull(fs, i + 1, off + one, bufSize);
      size := FullOn(fs, i, off, bufSize, rest, one, size);
    }
  }

  predicate Stops(fs: seq<FileChunks>, i: nat, off: nat, bufSize: int)
    requires i <= |fs|
  {
    i == |fs| || MaxEncodeLen(fs[i]) + off >= bufSize
  }

  lemma {:induction false} BatchStep(fs: seq<FileChunks>, i: nat, off: nat, bufSize: int, rest: seq<FileChunks>)
    requires AllEncodableInfos(fs) && i < |fs| && rest == Batch(fs, i + 1, off + |PutInfo(fs[i], [])|, bufSize)
    requires MaxEncodeLen(fs[i]) + LENGTH_PREFIX <= bufSize && MaxEncodeLen(fs[i]) + off < bufSize
    ensures Batch(fs, i, off, bufSize) == [fs[i]] + rest
  {
  }

  lemma {:induction false} NothingMore(fs: seq<FileChunks>, i: nat, off: nat, bufSize: int)
    requires AllEncodableInfos(fs) && AllFit(fs, bufSize) && i <= |fs| && Stops(fs, i, off, bufSize)
    ensures Batch(fs, i, off, bufSize) == [] && Full(fs, i, off, bufSize, [], 0) && Encodes([], 0)
  {
    assert i < |fs| ==> Fits(fs[i], bufSize);
    assert fs[i..i] == [];
  }

  lemma {:induction false} FullOn(fs: seq<FileChunks>, i: nat, off: nat, bufSize: int, rest: seq<FileChunks>, one: nat,
                                  size: nat) returns (all: nat)
    requires i < |fs| && EncodableInfo(fs[i]) && one == |PutInfo(fs[i], [])|
    requires Full(fs, i + 1, off + one, bufSize, rest, size) && Encodes(rest, size)
    ensures Full(fs, i, off, bufSize, [fs[i]] + rest, all) && Encodes([fs[i]] + rest, all)
  {
    FullerByOne(fs, i, off, bufSize, rest, one, size);
    LengthByOne(fs[i], rest, size);
    all := one + size;
  }

  lemma {:induction false} BatchEncodable(fs: seq<FileChunks>, i: nat, off: nat, bufSize: int)
    requires i <= |fs| && AllEncodableInfos(fs)
    ensures AllEncodableInfos(Batch(fs, i, off, bufSize))
    decreases |fs| - i
  {
    if i < |fs| {
      if MaxEncodeLen(fs[i]) + LENGTH_PREFIX > bufSize {
        BatchEncodable(fs, i + 1, off, bufSize);
      } else if MaxEncodeLen(fs[i]) + off < bufSize {
        BatchEncodable(fs, i + 1, off + |PutInfo(fs[i], [])|, bufSize);
      }
    }
  }

  lemma {:induction false} PrependLength(f: FileChunks, fs: seq<FileChunks>)
    requires EncodableInfo(f) && AllEncodableInfos(fs)
    ensures AllEncodableInfos([f] + fs)
    ensures |PutAll([f] + fs)| == |PutInfo(f, [])| + |PutAll(fs)|
    ensures |PutInfo(f, [])| <= MaxEncodeLen(f)
  {
    InfoAppends(f, PutAll(fs));
    InfoRoundTrip(f, []);
    assert ([f] + fs)[1..] == fs;
  }

  /** The bytes of a batch stay inside the buffer both sides agreed on. */
  lemma {:induction false} BatchStaysInBuffer(fs: seq<FileChunks>, i: nat, off: nat, bufSize: int)
    requires i <= |fs| && AllEncodableInfos(fs) && off <= bufSize
    ensures AllEncodableInfos(Batch(fs, i, off, bufSize))
    ensures off + |PutAll(Batch(fs, i, off, bufSize))| <= bufSize
    decreases |fs| - i
  {
    BatchEncodable(fs, i, off, bufSize);
    if i < |fs| {
      if MaxEncodeLen(fs[i]) + LENGTH_PREFIX > bufSize {
        BatchStaysInBuffer(fs, i + 1, off, bufSize);
      } else if MaxEncodeLen(fs[i]) + off < bufSize {
        var off' := off + |PutInfo(fs[i], [])|;
        var more := Batch(fs, i + 1, off', bufSize);
        BatchEncodable(fs, i + 1, off', bufSize);
        PrependLength(fs[i], more);
        BatchStaysInBuffer(fs, i + 1, off', bufSize);
      }
    }
  }

  lemma {:induction false} ChunksAppend(cs: seq<Interval>, tail: seq<Byte>)
    requires EncodableChunks(cs)
    ensures PutChunks(cs, tail) == PutChunks(cs, []) + tail
  {
    if cs != [] {
      assert cs[0] in cs;
      var more := PutChunks(cs[1..], []);
      ChunksAppend(cs[1..], tail);
      PutAppends(cs[0].end, more, tail);
      PutAppends(cs[0].start, Put(cs[0].end, more), tail);
    }
  }

  lemma InfoAppends(f: FileChunks, tail: seq<Byte>)
    requires EncodableInfo(f)
    ensures PutInfo(f, tail) == PutInfo(f, []) + tail
  {
    var b4 := PutChunks(f.chunks, []);
    var b3 := Put(|f.chunks|, b4);
    var b2 := Put(f.fileSize, b3);
    ChunksAppend(f.chunks, tail);
    PutAppends(|f.chunks|, b4, tail);
    PutAppends(f.fileSize, b3, tail);
    PutStringAppends(f.fileName, b2, tail);
    PutAppends(f.seqId, PutString(f.fileName, b2), tail);
  }

  /** encodeFileChunksInfoList: its loop with the two early exits, producing the bytes of one batch. */
  method EncodeFileChunksInfoList(fs: seq<FileChunks>, startIndex: nat, bufSize: int)
    returns (numEncoded: nat, bytes: seq<Byte>)
    requires startIndex <= |fs| && AllEncodableInfos(fs)
    ensures var batch := Batch(fs, startIndex, LENGTH_PREFIX, bufSize);
            numEncoded == |batch| && AllEncodableInfos(batch) && bytes == PutAll(batch)
    ensures LENGTH_PREFIX <= bufSize ==> LENGTH_PREFIX + |bytes| <= bufSize
  {
    BatchEncodable(fs, startIndex, LENGTH_PREFIX, bufSize);
    if LENGTH_PREFIX <= bufSize {
      BatchStaysInBuffer(fs, startIndex, LENGTH_PREFIX, bufSize);
    }
    ghost var batch;
    numEncoded, bytes, batch := FillBuffer(fs, startIndex, bufSize);
  }

  method FillBuffer(fs: seq<FileChunks>, startIndex: nat, bufSize: int)
    returns (numEncoded: nat, bytes: seq<Byte>, ghost batch: seq<FileChunks>)
    requires startIndex <= |fs| && AllEncodableInfos(fs)
    ensures batch == Batch(fs, startIndex, LENGTH_PREFIX, bufSize)
    ensures numEncoded == |batch| && AllEncodableInfos(batch) && bytes == PutAll(batch)
  {
    numEncoded, bytes, batch := 0, [], [];
    var off: nat := LENGTH_PREFIX;
    ghost var whole := Batch(fs, startIndex, LENGTH_PREFIX, bufSize);
    var i := startIndex;
    assert Filling(fs, whole, startIndex, off, bufSize, batch, bytes);
    while i < |fs|
      invariant startIndex <= i <= |fs| && numEncoded == |batch|
      invariant Filling(fs, whole, i, off, bufSize, batch, bytes)
    {
      if MaxEncodeLen(fs[i]) + LENGTH_PREFIX > bufSize {
        FillingSkips(fs, whole, i, off, bufSize, batch, bytes);
        i := i + 1;
        continue;
      }
      if MaxEncodeLen(fs[i]) + off >= bufSize {
        break;
      }
      bytes, off := AppendEntry(fs, whole, i, off, bufSize, batch, bytes);
      numEncoded, batch, i := numEncoded + 1, batch + [fs[i]], i + 1;
    }
    FillingDone(fs, whole, i, off, bufSize, batch, bytes);
  }

  method AppendEntry(fs: seq<FileChunks>, ghost whole: seq<FileChunks>, i: nat, off: nat, bufSize: int,
                     ghost batch: seq<FileChunks>, bytes: seq<Byte>) returns (bytes': seq<Byte>, off': nat)
    requires i < |fs| && AllEncodableInfos(fs) && Filling(fs, whole, i, off, bufSize, batch, bytes)
    requires MaxEncodeLen(fs[i]) + LENGTH_PREFIX <= bufSize && MaxEncodeLen(fs[i]) + off < bufSize
    ensures Filling(fs, whole, i + 1, off', bufSize, batch + [fs[i]], bytes')
  {
    var entry := PutInfo(fs[i], []);
    FillingTakes(fs, whole, i, off, bufSize, batch, bytes);
    bytes', off' := bytes + entry, off + |entry|;
  }

  lemma FillingSkips(fs: seq<FileChunks>, whole: seq<FileChunks>, i: nat, off: nat, bufSize: int,
                     batch: seq<FileChunks>, bytes: seq<Byte>)
    requires i < |fs| && AllEncodableInfos(fs) && Filling(fs, whole, i, off, bufSize, batch, bytes)
    requires MaxEncodeLen(fs[i]) + LENGTH_PREFIX > bufSize
    ensures Filling(fs, whole, i + 1, off, bufSize, batch, bytes)
  {
  }

  lemma FillingDone(fs: seq<FileChunks>, whole: seq<FileChunks>, i: nat, off: nat, bufSize: int,
                    batch: seq<FileChunks>, bytes: seq<Byte>)
    requires i <= |fs| && AllEncodableInfos(fs) && Filling(fs, whole, i, off, bufSize, batch, bytes)
    requires i == |fs| || (MaxEncodeLen(fs[i]) + LENGTH_PREFIX <= bufSize && MaxEncodeLen(fs[i]) + off >= bufSize)
    ensures batch == whole
  {
    assert batch + [] == batch;
  }

  /** `whole` is `batch`, already encoded as `bytes`, and what the loop will still add. */
  ghost predicate Filling(fs: seq<FileChunks>, whole: seq<FileChunks>, i: nat, off: nat, bufSize: int,
                          batch: seq<FileChunks>, bytes: seq<Byte>)
    requires i <= |fs| && AllEncodableInfos(fs)
  {
    && AllEncodableInfos(batch) && bytes == PutAll(batch)
    && whole == batch + Batch(fs, i, off, bufSize)
  }

  lemma FillingTakes(fs: seq<FileChunks>, whole: seq<FileChunks>, i: nat, off: nat, bufSize: int,
                     batch: seq<FileChunks>, bytes: seq<Byte>)
    requires i < |fs| && AllEncodableInfos(fs) && Filling(fs, whole, i, off, bufSize, batch, bytes)
    requires MaxEncodeLen(fs[i]) + LENGTH_PREFIX <= bufSize && MaxEncodeLen(fs[i]) + off < bufSize
    ensures var entry := PutInfo(fs[i], []);
            Filling(fs, whole, i + 1, off + |entry|, bufSize, batch + [fs[i]], bytes + entry)
  {
    var entry := PutInfo(fs[i], []);
    AllAppends(batch, fs[i]);
    InfosAssoc(batch, [fs[i]], Batch(fs, i + 1, off + |entry|, bufSize));
  }

  lemma InfosAssoc(a: seq<FileChunks>, b: seq<FileChunks>, c: seq<FileChunks>)
    ensures a + (b + c) == (a + b) + c
  {
  }

  lemma {:induction false} AllAppends(fs: seq<FileChunks>, f: FileChunks)
    requires AllEncodableInfos(fs) && EncodableInfo(f)
    ensures AllEncodableInfos(fs + [f])
    ensures PutAll(fs + [f]) == PutAll(fs) + PutInfo(f, [])
  {
    var all := fs + [f];
    if fs == [] {
      assert all == [f] && all[1..] == [];
    } else {
      AllAppends(fs[1..], f);
      assert all[1..] == fs[1..] + [f];
      InfoAppends(fs[0], PutAll(all[1..]));
      InfoAppends(fs[0], PutAll(fs[1..]));
      ConcatAssoc(PutInfo(fs[0], []), PutAll(fs[1..]), PutInfo(f, []));
    }
  }

  // ---------------------------------------------------------------- the whole exchange

  /** `written` and the entries sent so far, after `turns` turns of the receiver's batching loop. */
  ghost function After(fs: seq<FileChunks>, bufSize: int, turns: nat): (r: (nat, seq<FileChunks>))
    requires AllEncodableInfos(fs)
  {
    if turns == 0 then (0, [])
    else
      var (written, sent) := After(fs, bufSize, turns - 1);
      if written >= |fs| then (written, sent)
      else
        var batch := Batch(fs, written, LENGTH_PREFIX, bufSize);
        (written + |batch|, sent + batch)
  }

  lemma {:induction false} SentAllFit(fs: seq<FileChunks>, bufSize: int, turns: nat)
    requires AllEncodableInfos(fs)
    ensures AllFit(After(fs, bufSize, turns).1, bufSize)
    decreases turns
  {
    if turns > 0 {
      SentAllFit(fs, bufSize, turns - 1);
      var (written, sent) := After(fs, bufSize, turns - 1);
      if written < |fs| {
        BatchHoldsFitting(fs, written, LENGTH_PREFIX, bufSize);
      }
    }
  }

  lemma {:induction false} FittingSendsPrefix(fs: seq<FileChunks>, bufSize: int, turns: nat)
    requires AllEncodableInfos(fs) && AllFit(fs, bufSize)
    ensures var (written, sent) := After(fs, bufSize, turns);
            written <= |fs| && sent == fs[..written] && (written == |fs| || turns <= written)
    decreases turns
  {
    if turns > 0 {
      FittingSendsPrefix(fs, bufSize, turns - 1);
      var (written, sent) := After(fs, bufSize, turns - 1);
      if written < |fs| {
        BatchIsRun(fs, written, LENGTH_PREFIX, bufSize);
        BatchTakesOne(fs, written, bufSize);
        PrefixSlice(fs, written, Batch(fs, written, LENGTH_PREFIX, bufSize));
      }
    }
  }

  /**
   The receiver's loop ends having sent exactly its list if and only if every entry, at its largest,
   is strictly smaller than the buffer less the length prefix.  A larger entry is skipped without
   being counted, an entry of exactly that size stalls the loop.
   */
  lemma {:induction false} ListArrivesIffAllFit(fs: seq<FileChunks>, bufSize: int)
    requires AllEncodableInfos(fs)
    ensures AllFit(fs, bufSize) <==> exists turns: nat :: After(fs, bufSize, turns) == (|fs|, fs)
  {
    if AllFit(fs, bufSize) {
      FittingSendsPrefix(fs, bufSize, |fs|);
      assert fs[..|fs|] == fs;
      assert After(fs, bufSize, |fs|) == (|fs|, fs);
    }
    if turns: nat :| After(fs, bufSize, turns) == (|fs|, fs) {
      SentAllFit(fs, bufSize, turns);
    }
  }

  lemma OneTurn(fs: seq<FileChunks>, bufSize: int, turns: nat, written: nat, sent: seq<FileChunks>,
                batch: seq<FileChunks>)
    requires AllEncodableInfos(fs) && After(fs, bufSize, turns) == (written, sent) && written < |fs|
    requires Batch(fs, written, LENGTH_PREFIX, bufSize) == batch
    ensures After(fs, bufSize, turns + 1) == (written + |batch|, sent + batch)
  {
  }

  /** An entry too large is skipped without being counted, so the next batch sends the one behind it a second time. */
  lemma {:induction false} SkippedEntryResends(big: FileChunks, small: FileChunks, bufSize: int)
    requires EncodableInfo(big) && EncodableInfo(small) && Fits(small, bufSize)
             && MaxEncodeLen(big) + LENGTH_PREFIX > bufSize
    ensures AllEncodableInfos([big, small]) && After([big, small], bufSize, 2) == (2, [small, small])
  {
    var fs := [big, small];
    assert Batch(fs, 2, LENGTH_PREFIX + |PutInfo(small, [])|, bufSize) == [];
    assert Batch(fs, 1, LENGTH_PREFIX, bufSize) == [small];
    assert Batch(fs, 0, LENGTH_PREFIX, bufSize) == [small];
    OneTurn(fs, bufSize, 0, 0, [], [small]);
    assert [] + [small] == [small] && [small] + [small] == [small, small];
    OneTurn(fs, bufSize, 1, 1, [small], [small]);
  }

  /** One exactly as large as the buffer less the length prefix is not skipped and never fits: nothing is ever sent. */
  lemma {:induction false} ExactEntryStalls(exact: FileChunks, rest: seq<FileChunks>, bufSize: int, turns: nat)
    requires EncodableInfo(exact) && AllEncodableInfos(rest) && MaxEncodeLen(exact) + LENGTH_PREFIX == bufSize
    ensures AllEncodableInfos([exact] + rest) && After([exact] + rest, bufSize, turns) == (0, [])
    decreases turns
  {
    var fs := [exact] + rest;
    if turns > 0 {
      ExactEntryStalls(exact, rest, bufSize, turns - 1);
      var none: seq<FileChunks> := [];
      OneTurn(fs, bufSize, turns - 1, 0, none, none);
      assert none + none == none;
    }
  }

  lemma {:induction false} BatchDecodes(fs: seq<FileChunks>, i: nat, bufSize: int)
    requires AllEncodableInfos(fs) && AllFit(fs, bufSize) && i < |fs|
    ensures var batch := Batch(fs, i, LENGTH_PREFIX, bufSize);
            0 < |batch| <= |fs| - i && AllEncodableInfos(batch) && GetAll(PutAll(batch)) == Got(batch, [])
  {
    BatchIsRun(fs, i, LENGTH_PREFIX, bufSize);
    BatchTakesOne(fs, i, bufSize);
    BatchEncodable(fs, i, LENGTH_PREFIX, bufSize);
    AllRoundTrip(Batch(fs, i, LENGTH_PREFIX, bufSize));
  }

  /** One batch: encoded by the receiver, decoded by the sender. */
  method ExchangeBatch(fs: seq<FileChunks>, i: nat, bufSize: int) returns (numEncoded: nat, more: seq<FileChunks>)
    requires AllEncodableInfos(fs) && AllFit(fs, bufSize) && i < |fs|
    ensures 0 < numEncoded <= |fs| - i && more == fs[i..i + numEncoded]
  {
    var bytes;
    numEncoded, bytes := EncodeFileChunksInfoList(fs, i, bufSize);
    BatchDecodes(fs, i, bufSize);
    var ok;
    ok, more := DecodeFileChunksInfoList(bytes);
    BatchIsRun(fs, i, LENGTH_PREFIX, bufSize);
    PrefixSlice(fs, i, more);
  }

  /** sendFileChunks and readFileChunks back to back: batches go out, the sender appends what it decodes. */
  method ExchangeFileChunks(fs: seq<FileChunks>, bufSize: int) returns (received: seq<FileChunks>, turns: nat)
    requires AllEncodableInfos(fs) && AllFit(fs, bufSize)
    ensures received == fs && turns <= |fs|
  {
    var numEntriesWritten := 0;
    received, turns := [], 0;
    while numEntriesWritten < |fs|
      invariant numEntriesWritten == |received| <= |fs| && turns <= |received|
      invariant received == fs[..numEntriesWritten]
    {
      var numEncoded, more := ExchangeBatch(fs, numEntriesWritten, bufSize);
      received := received + more;
      numEntriesWritten, turns := numEntriesWritten + numEncoded, turns + 1;
    }
  }

  /** `done` in front of whatever is still to be decoded. */
  ghost function ExtendsInfos(done: seq<FileChunks>, more: Read<seq<FileChunks>>): Read<seq<FileChunks>> {
    match more case Fail => Fail case Got(fs, rest) => Got(done + fs, rest)
  }

  lemma {:induction false} ExtendsInfosStep(done: seq<FileChunks>, b: seq<Byte>, f: FileChunks, rest: seq<Byte>)
    requires b != [] && GetInfo(b) == Got(f, rest)
    ensures ExtendsInfos(done, GetAll(b)) == ExtendsInfos(done + [f], GetAll(rest))
  {
    var more := GetAll(rest);
    if more.Got? { InfosAssoc(done, [f], more.value); }
  }

  lemma {:induction false} GetAllUsesUp(b: seq<Byte>)
    ensures GetAll(b).Got? ==> GetAll(b).rest == []
    decreases |b|
  {
    if b != [] {
      var r := GetInfo(b);
      if r.Got? { GetAllUsesUp(r.rest); }
    }
  }

  /** decodeFileChunksInfoList: decodes entries while bytes are left. */
  method DecodeFileChunksInfoList(src: seq<Byte>) returns (ok: bool, fs: seq<FileChunks>)
    ensures ok <==> GetAll(src).Got?
    ensures ok ==> GetAll(src) == Got(fs, [])
  {
    ok, fs := true, [];
    var br := src;
    ghost var whole := GetAll(src);
    GetAllUsesUp(src);
    assert whole.Got? ==> [] + whole.value == whole.value;
    while ok && br != []
      invariant ok ==> whole == ExtendsInfos(fs, GetAll(br))
      invariant !ok ==> whole.Fail?
      decreases |br|, ok
    {
      var r := GetInfo(br);
      if r.Got? {
        ExtendsInfosStep(fs, br, r.value, r.rest);
        fs, br := fs + [r.value], r.rest;
      } else {
        ok := false;
      }
    }
    assert fs + [] == fs;
  }
}
