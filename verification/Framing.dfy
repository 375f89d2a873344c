/**
 Tags and IV changes inside an encrypted stream (util/WdtSocket.cpp).  Neither is announced: writer and
 reader place them by counting plaintext bytes, whatever pieces the bytes are written and read in.

 The cipher is symbolic: data passes through, marked with the IV it was encrypted under, and a tag is
 the pair of an IV and the bytes processed since that IV.
 */
module Framing {
  type Byte = b: int | 0 <= b < 256

  datatype Symbol = Data(b: Byte, iv: nat) | Tag(iv: nat, over: seq<Byte>) | Iv(iv: nat)

  /** encryption_tag_interval_bytes and the IV change interval (0: never change). */
  datatype Intervals = Intervals(tag: nat, ivChange: nat)

  // ---------------------------------------------------------------- where tags go

  /** Bytes since the last multiple of the interval. */
  ghost function Phase(n: nat, t: nat): (r: nat)
    requires t > 0
    ensures r < t
  {
    if n == 0 then 0 else if Phase(n - 1, t) + 1 == t then 0 else Phase(n - 1, t) + 1
  }

  /** A tag stands in front of byte `n`. */
  ghost predicate TagAt(n: nat, t: nat)
    requires t > 0
  {
    n > 0 && Phase(n, t) == 0
  }

  /** Bytes up to the next tag, and none at one. */
  ghost function ToNextTag(n: nat, t: nat): (r: nat)
    requires t > 0
    ensures r <= t
  {
    if n == 0 then t else if Phase(n, t) == 0 then 0 else t - Phase(n, t)
  }

  lemma ModOf(q: nat, t: nat, r: nat)
    requires r < t
    ensures (q * t + r) % t == r
  {
    assert (q * t + r) - ((q * t + r) / t) * t == (q * t + r) % t;
    DivOf(q, t, r);
  }
  lemma DivOf(q: nat, t: nat, r: nat)
    requires r < t
    ensures (q * t + r) / t == q
  {
    var d, m := (q * t + r) / t, (q * t + r) % t;
    assert d * t + m == q * t + r && 0 <= m < t;
    if d < q { Spread(d, q, t); } else if q < d { Spread(q, d, t); }
  }
  lemma Spread(a: nat, b: nat, t: nat)
    requires a < b
    ensures a * t + t <= b * t
  {
    assert (a + 1) * t == a * t + t;
    Monotone(a + 1, b, t);
  }
  lemma Monotone(a: nat, b: nat, t: nat)
    requires a <= b
    ensures a * t <= b * t
  {
    assert (b - a) * t >= 0;
    assert b * t == a * t + (b - a) * t;
  }

  lemma NextRemainder(n: nat, t: nat)
    requires t > 0
    ensures (n + 1) % t == if n % t + 1 == t then 0 else n % t + 1
  {
    var q, m := n / t, n % t;
    assert n == q * t + m;
    if m + 1 < t {
      ModOf(q, t, m + 1);
    } else {
      assert (q + 1) * t == q * t + t;
      ModOf(q + 1, t, 0);
    }
  }

  lemma {:induction false} PhaseIsRemainder(n: nat, t: nat)
    requires t > 0
    ensures Phase(n, t) == n % t
  {
    if n > 0 {
      PhaseIsRemainder(n - 1, t);
      NextRemainder(n - 1, t);
    }
  }

  /** Some way on, short of an interval. */
  lemma {:induction false} PhaseAdds(n: nat, t: nat, k: nat)
    requires t > 0 && Phase(n, t) + k <= t
    ensures Phase(n + k, t) == if Phase(n, t) + k == t then 0 else Phase(n, t) + k
  {
    if k > 0 { PhaseAdds(n, t, k - 1); }
  }

  /** No tag strictly between. */
  ghost predicate NoTagBetween(a: nat, b: nat, t: nat)
    requires t > 0
  {
    forall j: nat | a < j < b :: !TagAt(j, t)
  }

  lemma NoTagWithin(a: nat, b: nat, c: nat, t: nat)
    requires t > 0 && NoTagBetween(a, c, t) && b <= c
    ensures NoTagBetween(a, b, t)
  {
  }

  /** The offset leads to the next tag, and there is none on the way. */
  lemma NextTag(n: nat, t: nat)
    requires t > 0
    ensures var r := ToNextTag(n, t);
            && TagAt(n + r, t) && NoTagBetween(n, n + r, t) && (r > 0 ==> !TagAt(n, t))
  {
    var r := ToNextTag(n, t);
    PhaseAdds(n, t, r);
    forall j: nat | n < j < n + r ensures !TagAt(j, t) { PhaseAdds(n, t, j - n); }
  }

  /** computeNextTagOffset */
  method NextTagOffset(totalProcessed: nat, tagInterval: nat) returns (r: nat)
    requires tagInterval > 0
    ensures r == ToNextTag(totalProcessed, tagInterval)
    ensures r <= tagInterval && TagAt(totalProcessed + r, tagInterval)
            && (r > 0 ==> !TagAt(totalProcessed, tagInterval))
    ensures NoTagBetween(totalProcessed, totalProcessed + r, tagInterval)
  {
    NextTag(totalProcessed, tagInterval);
    if totalProcessed == 0 {
      return tagInterval;
    }
    PhaseIsRemainder(totalProcessed, tagInterval);
    r := tagInterval - totalProcessed % tagInterval;
    if r == tagInterval {
      r := 0;
    }
  }

  /** The next tag, counting from the one in front of byte `a`, is in front of byte `b`. */
  ghost predicate NextTagIs(a: nat, b: nat, t: nat)
    requires t > 0
  {
    a <= b && TagAt(b, t) && NoTagBetween(a, b, t) && (a < b ==> !TagAt(a, t))
  }

  lemma OneNextTag(a: nat, b: nat, t: nat)
    requires t > 0
    ensures NextTagIs(a, b, t) <==> b == a + ToNextTag(a, t)
  {
    NextTag(a, t);
  }

  /** After a tag the next one is a whole interval away. */
  lemma TagApart(n: nat, t: nat, k: nat)
    requires t > 0 && TagAt(n, t) && k <= t
    ensures NoTagBetween(n, n + k, t)
  {
    forall j: nat | n < j < n + k ensures !TagAt(j, t) { PhaseAdds(n, t, j - n); }
  }

  // ---------------------------------------------------------------- which IV is in use

  /** The IV in use once `n` bytes are processed: its number and the byte it started at. */
  datatype Cipher = Cipher(iv: nat, start: nat)

  /** checkAndChangeEncryptionIv, at a tag in front of byte `n`. */
  predicate ChangesAt(c: Cipher, n: nat, i: Intervals) {
    i.ivChange != 0 && n - c.start + i.tag > i.ivChange
  }

  /** Before the tag, if any, in front of byte `n`. */
  ghost function Before(n: nat, i: Intervals): (c: Cipher)
    requires i.tag > 0
    ensures c.start <= n
    decreases n, 0
  {
    if n == 0 then Cipher(0, 0) else After(n - 1, i)
  }
  /** And after it: the IV byte `n` goes under. */
  ghost function After(n: nat, i: Intervals): (c: Cipher)
    requires i.tag > 0
    ensures c.start <= n
    decreases n, 1
  {
    var c := Before(n, i);
    if TagAt(n, i.tag) && ChangesAt(c, n, i) then Cipher(c.iv + 1, n) else c
  }

  /** Between tags the IV stays. */
  lemma {:induction false} SameIv(a: nat, b: nat, i: Intervals)
    requires i.tag > 0 && a < b && NoTagBetween(a, b, i.tag)
    ensures Before(b, i) == After(a, i)
    decreases b
  {
    if b > a + 1 { SameIv(a, b - 1, i); }
  }

  function Max(a: nat, b: nat): nat { if a < b then b else a }

  /** The tag position after byte `n`. */
  ghost function NextAfter(n: nat, t: nat): nat
    requires t > 0
  {
    n + t - Phase(n, t)
  }

  /** From the start of its IV to the next tag there are never more bytes than the larger interval. */
  lemma {:induction false} IvCoverage(n: nat, i: Intervals)
    requires i.tag > 0 && i.ivChange > 0
    ensures NextAfter(n, i.tag) - After(n, i).start <= Max(i.ivChange, i.tag)
  {
    if n > 0 {
      IvCoverage(n - 1, i);
    }
  }

  /** An IV lasts as long as that allows: it is changed at a tag exactly if by the next one it would cover more. */
  lemma {:induction false} IvLasts(n: nat, i: Intervals)
    requires i.tag > 0
    ensures i.ivChange == 0 ==> After(n, i) == Cipher(0, 0)
    ensures i.ivChange > 0 && n > 0 && After(n, i) != After(n - 1, i) ==>
              && TagAt(n, i.tag) && After(n, i) == Cipher(After(n - 1, i).iv + 1, n)
              && NextAfter(n, i.tag) - After(n - 1, i).start > i.ivChange
  {
    if n > 0 {
      IvLasts(n - 1, i);
      assert Before(n, i) == After(n - 1, i);
    }
  }

  // ---------------------------------------------------------------- what is on the wire

  ghost function Marks(p: seq<Byte>, n: nat, i: Intervals): seq<Symbol>
    requires i.tag > 0 && n <= |p|
  {
    if !TagAt(n, i.tag) then []
    else
      var c := Before(n, i);
      [Tag(c.iv, p[c.start..n])] + (if ChangesAt(c, n, i) then [Iv(c.iv + 1)] else [])
  }

  function Datas(p: seq<Byte>, iv: nat): (r: seq<Symbol>)
    ensures |r| == |p| && forall j | 0 <= j < |r| :: r[j] == Data(p[j], iv)
  {
    seq(|p|, j requires 0 <= j < |p| => Data(p[j], iv))
  }

  /** The first `n` bytes of `p`; the tag in front of byte `n` comes only with byte `n`. */
  ghost function Wire(p: seq<Byte>, n: nat, i: Intervals): seq<Symbol>
    requires i.tag > 0 && n <= |p|
  {
    if n == 0 then [] else Wire(p, n - 1, i) + Marks(p, n - 1, i) + [Data(p[n - 1], After(n - 1, i).iv)]
  }

  lemma MarksOf(p: seq<Byte>, q: seq<Byte>, n: nat, i: Intervals)
    requires i.tag > 0 && n <= |p| && p <= q
    ensures Marks(q, n, i) == Marks(p, n, i)
  {
    var c := Before(n, i);
    assert q[c.start..n] == p[c.start..n];
  }

  lemma {:induction false} WireOf(p: seq<Byte>, q: seq<Byte>, n: nat, i: Intervals)
    requires i.tag > 0 && n <= |p| && p <= q
    ensures Wire(q, n, i) == Wire(p, n, i)
    decreases n
  {
    if n > 0 {
      WireOf(p, q, n - 1, i);
      MarksOf(p, q, n - 1, i);
    }
  }

  /** A stretch with no tag inside: the marks in front of it, then plain data under one IV. */
  lemma {:induction false} WireSegment(p: seq<Byte>, a: nat, b: nat, i: Intervals)
    requires i.tag > 0 && a < b <= |p| && NoTagBetween(a, b, i.tag)
    ensures Wire(p, b, i) == Wire(p, a, i) + Marks(p, a, i) + Datas(p[a..b], After(a, i).iv)
    decreases b
  {
    var iv := After(a, i).iv;
    if b == a + 1 {
      assert Datas(p[a..b], iv) == [Data(p[a], iv)];
    } else {
      NoTagWithin(a, b - 1, b, i.tag);
      WireSegment(p, a, b - 1, i);
      SameIv(a, b - 1, i);
      SegmentStep(p, a, b, i, Wire(p, a, i), Marks(p, a, i), iv);
    }
  }

  lemma SegmentStep(p: seq<Byte>, a: nat, b: nat, i: Intervals, w: seq<Symbol>, m: seq<Symbol>, iv: nat)
    requires i.tag > 0 && a < b - 1 && b <= |p| && !TagAt(b - 1, i.tag) && After(b - 1, i).iv == iv
    requires Wire(p, b - 1, i) == w + m + Datas(p[a..b - 1], iv)
    ensures Wire(p, b, i) == w + m + Datas(p[a..b], iv)
  {
    WireStep(p, b, i, iv);
    MoreData(p, a, b, iv);
    OneDatum(w, m, Datas(p[a..b - 1], iv), Data(p[b - 1], iv));
  }

  lemma WireStep(p: seq<Byte>, b: nat, i: Intervals, iv: nat)
    requires i.tag > 0 && 0 < b <= |p| && !TagAt(b - 1, i.tag) && After(b - 1, i).iv == iv
    ensures Wire(p, b, i) == Wire(p, b - 1, i) + [Data(p[b - 1], iv)]
  {
    assert Wire(p, b - 1, i) + [] == Wire(p, b - 1, i);
  }

  lemma MoreData(p: seq<Byte>, a: nat, b: nat, iv: nat)
    requires a < b <= |p|
    ensures Datas(p[a..b], iv) == Datas(p[a..b - 1], iv) + [Data(p[b - 1], iv)]
  {
  }

  lemma OneDatum(w: seq<Symbol>, m: seq<Symbol>, d: seq<Symbol>, x: Symbol)
    ensures (w + m + d) + [x] == w + m + (d + [x])
  {
  }

  // ---------------------------------------------------------------- writing

  /** An encryptor or decryptor: its IV and the bytes it has processed under it. */
  datatype Context = Context(iv: nat, since: seq<Byte>)

  ghost predicate Runs(x: Context, c: Cipher, p: seq<Byte>) { c.start <= |p| && x == Context(c.iv, p[c.start..]) }

  /** `out` carries all of `p`, without and with the marks that may follow it. */
  ghost predicate Open(x: Context, out: seq<Symbol>, p: seq<Byte>, i: Intervals)
    requires i.tag > 0
  {
    out == Wire(p, |p|, i) && Runs(x, Before(|p|, i), p)
  }
  ghost predicate Marked(x: Context, out: seq<Symbol>, p: seq<Byte>, i: Intervals)
    requires i.tag > 0
  {
    out == Wire(p, |p|, i) + Marks(p, |p|, i) && Runs(x, After(|p|, i), p)
  }

  lemma NothingToMark(x: Context, out: seq<Symbol>, p: seq<Byte>, i: Intervals)
    requires i.tag > 0 && Open(x, out, p, i) && !TagAt(|p|, i.tag)
    ensures Marked(x, out, p, i)
  {
    assert out + [] == out;
  }

  lemma {:induction false} WireGrows(p: seq<Byte>, buf: seq<Byte>, i: Intervals)
    requires i.tag > 0 && buf != [] && NoTagBetween(|p|, |p| + |buf|, i.tag)
    ensures Wire(p + buf, |p + buf|, i) == Wire(p, |p|, i) + Marks(p, |p|, i) + Datas(buf, After(|p|, i).iv)
  {
    var q := p + buf;
    WireOf(p, q, |p|, i);
    MarksOf(p, q, |p|, i);
    WireSegment(q, |p|, |q|, i);
    assert q[|p|..|q|] == buf;
  }

  lemma ContextGrows(x: Context, c: Cipher, p: seq<Byte>, buf: seq<Byte>)
    requires Runs(x, c, p)
    ensures Runs(Context(x.iv, x.since + buf), c, p + buf)
  {
    assert p[c.start..] + buf == (p + buf)[c.start..];
  }

  lemma DataFollows(x: Context, out: seq<Symbol>, p: seq<Byte>, buf: seq<Byte>, i: Intervals)
    requires i.tag > 0 && Marked(x, out, p, i) && buf != []
    requires NoTagBetween(|p|, |p| + |buf|, i.tag)
    ensures Open(Context(x.iv, x.since + buf), out + Datas(buf, x.iv), p + buf, i)
  {
    WireGrows(p, buf, i);
    ContextGrows(x, After(|p|, i), p, buf);
    SameIv(|p|, |p + buf|, i);
  }

  lemma TagFollows(x: Context, out: seq<Symbol>, p: seq<Byte>, i: Intervals)
    requires i.tag > 0 && Open(x, out, p, i) && TagAt(|p|, i.tag)
    ensures var change := i.ivChange != 0 && |x.since| + i.tag > i.ivChange;
            Marked(if change then Context(x.iv + 1, []) else x,
                   out + [Tag(x.iv, x.since)] + (if change then [Iv(x.iv + 1)] else []), p, i)
  {
    var c := Before(|p|, i);
    assert p[c.start..|p|] == p[c.start..];
    assert out + ([Tag(x.iv, x.since)] + [Iv(x.iv + 1)]) == out + [Tag(x.iv, x.since)] + [Iv(x.iv + 1)];
    assert out + [Tag(x.iv, x.since)] + [] == out + [Tag(x.iv, x.since)];
  }

  lemma PieceJoins(p: seq<Byte>, buf: seq<Byte>, a: nat, k: nat)
    requires a + k <= |buf|
    ensures p + buf[..a] + buf[a..a + k] == p + buf[..a + k]
  {
    assert buf[..a] + buf[a..a + k] == buf[..a + k];
  }

  lemma SplitWrite(p: seq<Byte>, buf: seq<Byte>, off: nat)
    requires off <= |buf|
    ensures (p + buf[..off]) + buf[off..] == p + buf && (off == 0 ==> p + buf[..off] == p)
  {
    assert buf[..off] + buf[off..] == buf;
  }

  class Writer {
    const intervals: Intervals
    var totalWritten: nat
    var encryptor: Context
    var out: seq<Symbol>
    ghost var plain: seq<Byte>

    ghost predicate Valid()
      reads this
    {
      intervals.tag > 0 && totalWritten == |plain| && Open(encryptor, out, plain, intervals)
    }

    constructor (intervals: Intervals)
      requires intervals.tag > 0
      ensures Valid() && plain == [] && this.intervals == intervals
    {
      this.intervals := intervals;
      totalWritten, encryptor, out, plain := 0, Context(0, []), [], [];
    }

    method EncryptAndWrite(buf: seq<Byte>)
      requires intervals.tag > 0 && totalWritten == |plain| && Marked(encryptor, out, plain, intervals) && buf != []
      requires NoTagBetween(|plain|, |plain| + |buf|, intervals.tag)
      modifies this`encryptor, this`out, this`totalWritten, this`plain
      ensures Valid() && plain == old(plain) + buf
    {
      DataFollows(encryptor, out, plain, buf, intervals);
      out := out + Datas(buf, encryptor.iv);
      encryptor := Context(encryptor.iv, encryptor.since + buf);
      plain := plain + buf;
      totalWritten := totalWritten + |buf|;
    }

    /** writeEncryptionTag and checkAndChangeEncryptionIv. */
    method WriteTag()
      requires Valid() && TagAt(totalWritten, intervals.tag)
      modifies this`encryptor, this`out
      ensures Marked(encryptor, out, plain, intervals)
    {
      TagFollows(encryptor, out, plain, intervals);
      out := out + [Tag(encryptor.iv, encryptor.since)];
      if intervals.ivChange != 0 && |encryptor.since| + intervals.tag > intervals.ivChange {
        out := out + [Iv(encryptor.iv + 1)];
        encryptor := Context(encryptor.iv + 1, []);
      } else {
        assert out + [] == out;
      }
    }

    method WriteUntagged(buf: seq<Byte>)
      requires Valid() && !TagAt(totalWritten, intervals.tag) && buf != []
      requires NoTagBetween(totalWritten, totalWritten + |buf|, intervals.tag)
      modifies this`encryptor, this`out, this`totalWritten, this`plain
      ensures Valid() && plain == old(plain) + buf
    {
      NothingToMark(encryptor, out, plain, intervals);
      EncryptAndWrite(buf);
    }

    method TagAndRest(buf: seq<Byte>)
      requires Valid() && TagAt(totalWritten, intervals.tag) && 0 < |buf| <= intervals.tag
      modifies this`encryptor, this`out, this`totalWritten, this`plain
      ensures Valid() && plain == old(plain) + buf
    {
      WriteTag();
      TagApart(totalWritten, intervals.tag, |buf|);
      EncryptAndWrite(buf);
    }

    method EncryptAndWriteWithTag(buf: seq<Byte>)
      requires Valid() && 0 < |buf| <= intervals.tag
      modifies this`encryptor, this`out, this`totalWritten, this`plain
      ensures Valid() && plain == old(plain) + buf
    {
      var t := intervals.tag;
      var nextTagOffset := NextTagOffset(totalWritten, t);
      if nextTagOffset < |buf| {
        WriteAcrossTag(buf, nextTagOffset);
      } else {
        NoTagWithin(totalWritten, totalWritten + |buf|, totalWritten + nextTagOffset, t);
        WriteUntagged(buf);
      }
    }

    method WriteAcrossTag(buf: seq<Byte>, off: nat)
      requires Valid() && off < |buf| <= intervals.tag && TagAt(totalWritten + off, intervals.tag)
      requires NoTagBetween(totalWritten, totalWritten + off, intervals.tag)
               && (off > 0 ==> !TagAt(totalWritten, intervals.tag))
      modifies this`encryptor, this`out, this`totalWritten, this`plain
      ensures Valid() && plain == old(plain) + buf
    {
      var first, rest := buf[..off], buf[off..];
      SplitWrite(plain, buf, off);
      if off > 0 {
        WriteUntagged(first);
      }
      TagAndRest(rest);
    }

    /** Whatever pieces it is called with, the wire depends only on the bytes written. */
    method Write(buf: seq<Byte>)
      requires Valid()
      modifies this`encryptor, this`out, this`totalWritten, this`plain
      ensures Valid() && plain == old(plain) + buf
      ensures out == Wire(old(plain) + buf, |old(plain) + buf|, intervals)
    {
      var written := 0;
      while written < |buf|
        invariant 0 <= written <= |buf| && Valid() && plain == old(plain) + buf[..written]
      {
        var toWrite := if |buf| - written < intervals.tag then |buf| - written else intervals.tag;
        var piece := buf[written..written + toWrite];
        PieceJoins(old(plain), buf, written, toWrite);
        EncryptAndWriteWithTag(piece);
        written := written + toWrite;
      }
      assert buf[..|buf|] == buf;
    }
  }

  // ---------------------------------------------------------------- reading

  /** What is still on the wire when `n` bytes are taken, and when the marks after them are taken too. */
  ghost function Tail(p: seq<Byte>, n: nat, i: Intervals): seq<Symbol>
    requires i.tag > 0 && n <= |p|
    decreases |p| - n, 1
  {
    if n == |p| then [] else Marks(p, n, i) + PastMarks(p, n, i)
  }
  ghost function PastMarks(p: seq<Byte>, n: nat, i: Intervals): (r: seq<Symbol>)
    requires i.tag > 0 && n < |p|
    ensures r != [] && r[0] == Data(p[n], After(n, i).iv)
    decreases |p| - n, 0
  {
    [Data(p[n], After(n, i).iv)] + Tail(p, n + 1, i)
  }

  /** Taken and untaken together are the wire. */
  lemma {:induction false} TakenAndTail(p: seq<Byte>, n: nat, i: Intervals)
    requires i.tag > 0 && n <= |p|
    ensures Wire(p, n, i) + Tail(p, n, i) == Wire(p, |p|, i)
    decreases |p| - n
  {
    if n < |p| {
      TakenAndTail(p, n + 1, i);
      TakeOne(p, n, i, Wire(p, n, i), Marks(p, n, i), [Data(p[n], After(n, i).iv)], Tail(p, n + 1, i));
    } else {
      assert Wire(p, n, i) + [] == Wire(p, n, i);
    }
  }

  lemma TakeOne(p: seq<Byte>, n: nat, i: Intervals, w: seq<Symbol>, m: seq<Symbol>, d: seq<Symbol>, t: seq<Symbol>)
    requires i.tag > 0 && n < |p| && w == Wire(p, n, i) && m == Marks(p, n, i) && d == [Data(p[n], After(n, i).iv)]
    requires t == Tail(p, n + 1, i)
    ensures Wire(p, n, i) + Tail(p, n, i) == Wire(p, n + 1, i) + Tail(p, n + 1, i)
  {
    Regroup(w, m, d, t);
  }

  lemma Regroup(w: seq<Symbol>, m: seq<Symbol>, d: seq<Symbol>, t: seq<Symbol>)
    ensures (w + m + d) + t == w + (m + (d + t))
  {
  }

  lemma {:induction false} WholeWire(p: seq<Byte>, i: Intervals)
    requires i.tag > 0
    ensures Tail(p, 0, i) == Wire(p, |p|, i)
  {
    TakenAndTail(p, 0, i);
    assert [] + Tail(p, 0, i) == Tail(p, 0, i);
  }

  /** With no tag in between, data comes without interruption and under one IV. */
  lemma {:induction false} DataRun(p: seq<Byte>, n: nat, k: nat, i: Intervals)
    requires i.tag > 0 && 0 < k && n + k <= |p| && NoTagBetween(n, n + k, i.tag)
    ensures PastMarks(p, n, i) == Datas(p[n..n + k], After(n, i).iv) + Tail(p, n + k, i)
    decreases k
  {
    var iv := After(n, i).iv;
    if k == 1 {
      assert Datas(p[n..n + 1], iv) == [Data(p[n], iv)];
    } else {
      DataRun(p, n + 1, k - 1, i);
      DataRunStep(p, n, k, i, Tail(p, n + k, i));
    }
  }

  lemma DataRunStep(p: seq<Byte>, n: nat, k: nat, i: Intervals, t: seq<Symbol>)
    requires i.tag > 0 && 1 < k && n + k <= |p| && !TagAt(n + 1, i.tag)
    requires PastMarks(p, n + 1, i) == Datas(p[n + 1..n + k], After(n + 1, i).iv) + t
    ensures PastMarks(p, n, i) == Datas(p[n..n + k], After(n, i).iv) + t
  {
    UnmarkedTail(p, n + 1, i);
    DataCons(p, n, k, After(n, i).iv, t);
  }

  lemma UnmarkedTail(p: seq<Byte>, n: nat, i: Intervals)
    requires i.tag > 0 && 0 < n < |p| && !TagAt(n, i.tag)
    ensures Tail(p, n, i) == PastMarks(p, n, i) && After(n, i) == After(n - 1, i)
  {
    assert [] + PastMarks(p, n, i) == PastMarks(p, n, i);
  }

  lemma DataCons(p: seq<Byte>, n: nat, k: nat, iv: nat, t: seq<Symbol>)
    requires 1 < k && n + k <= |p|
    ensures [Data(p[n], iv)] + (Datas(p[n + 1..n + k], iv) + t) == Datas(p[n..n + k], iv) + t
  {
    assert Datas(p[n..n + k], iv) == [Data(p[n], iv)] + Datas(p[n + 1..n + k], iv);
  }

  lemma ContextAhead(x: Context, p: seq<Byte>, total: nat, k: nat, i: Intervals)
    requires i.tag > 0 && 0 < k && total + k <= |p| && NoTagBetween(total, total + k, i.tag)
    requires Runs(x, After(total, i), p[..total])
    ensures Runs(Context(x.iv, x.since + p[total..total + k]), Before(total + k, i), p[..total + k])
  {
    SameIv(total, total + k, i);
    ContextGrows(x, After(total, i), p[..total], p[total..total + k]);
    assert p[..total] + p[total..total + k] == p[..total + k];
  }

  /** The marks in front of byte `total`, in terms of a decryptor that has kept up. */
  lemma {:induction false} MarksAre(x: Context, p: seq<Byte>, total: nat, i: Intervals)
    requires i.tag > 0 && TagAt(total, i.tag) && total <= |p| && Runs(x, Before(total, i), p[..total])
    ensures var change := i.ivChange != 0 && |x.since| + i.tag > i.ivChange;
            && Marks(p, total, i) == [Tag(x.iv, x.since)] + (if change then [Iv(x.iv + 1)] else [])
            && Runs(if change then Context(x.iv + 1, []) else x, After(total, i), p[..total])
  {
    var c := Before(total, i);
    assert p[..total][c.start..] == p[c.start..total];
  }

  /** The reader has taken `total` bytes and stands in front of, or behind, the marks that follow them. */
  ghost predicate InFront(input: seq<Symbol>, x: Context, p: seq<Byte>, total: nat, i: Intervals)
    requires i.tag > 0
  {
    total <= |p| && input == Tail(p, total, i) && Runs(x, Before(total, i), p[..total])
  }
  ghost predicate Behind(input: seq<Symbol>, x: Context, p: seq<Byte>, total: nat, i: Intervals)
    requires i.tag > 0
  {
    total < |p| && input == PastMarks(p, total, i) && Runs(x, After(total, i), p[..total])
  }

  lemma UntaggedIsBehind(input: seq<Symbol>, x: Context, p: seq<Byte>, total: nat, i: Intervals)
    requires i.tag > 0 && InFront(input, x, p, total, i) && total < |p| && !TagAt(total, i.tag)
    ensures Behind(input, x, p, total, i)
  {
  }

  lemma MayRead(input: seq<Symbol>, x: Context, p: seq<Byte>, total: nat, i: Intervals)
    requires i.tag > 0 && InFront(input, x, p, total, i) && !TagAt(total, i.tag)
    ensures total < |p| ==> Behind(input, x, p, total, i)
  {
    if total < |p| { UntaggedIsBehind(input, x, p, total, i); }
  }

  lemma TakeData(input: seq<Symbol>, x: Context, p: seq<Byte>, total: nat, k: nat, i: Intervals)
    requires i.tag > 0 && Behind(input, x, p, total, i) && 0 < k && total + k <= |p|
             && NoTagBetween(total, total + k, i.tag)
    ensures k <= |input| && input[..k] == Datas(p[total..total + k], x.iv)
    ensures InFront(input[k..], Context(x.iv, x.since + p[total..total + k]), p, total + k, i)
  {
    DataRun(p, total, k, i);
    var d := Datas(p[total..total + k], After(total, i).iv);
    assert (d + Tail(p, total + k, i))[..k] == d && (d + Tail(p, total + k, i))[k..] == Tail(p, total + k, i);
    ContextAhead(x, p, total, k, i);
  }

  lemma TakeMarks(input: seq<Symbol>, x: Context, p: seq<Byte>, total: nat, i: Intervals)
    requires i.tag > 0 && InFront(input, x, p, total, i) && TagAt(total, i.tag) && total < |p|
    ensures var change := i.ivChange != 0 && |x.since| + i.tag > i.ivChange;
            && |input| > 2 - (if change then 0 else 1) && input[0] == Tag(x.iv, x.since)
            && (change ==> input[1] == Iv(x.iv + 1))
            && Behind(input[if change then 2 else 1..], if change then Context(x.iv + 1, []) else x, p, total, i)
  {
    MarksAre(x, p, total, i);
    var m, r := Marks(p, total, i), PastMarks(p, total, i);
    assert (m + r)[|m|..] == r;
  }

  lemma SliceJoin(p: seq<Byte>, a: nat, b: nat, c: nat)
    requires a <= b <= c <= |p|
    ensures p[a..b] + p[b..c] == p[a..c]
  {
  }

  function Plain(symbols: seq<Symbol>): (r: seq<Byte>)
    requires forall j | 0 <= j < |symbols| :: symbols[j].Data?
    ensures |r| == |symbols| && forall j | 0 <= j < |r| :: r[j] == symbols[j].b
  {
    seq(|symbols|, j requires 0 <= j < |symbols| && symbols[j].Data? => symbols[j].b)
  }

  lemma PlainDatas(p: seq<Byte>, iv: nat)
    ensures Plain(Datas(p, iv)) == p
  {
  }

  function Min(a: int, b: int): int { if a < b then a else b }

  // ---------------------------------------------------------------- one read

  /**
   What the socket does when it is asked for bytes: any number, none in time, or no more (an end of file is
   Bytes(0)).
   */
  datatype Arrival = Bytes(n: nat) | TimedOut | Failed

  /** For one piece of a read: bytes up to the tag, the tag, a new IV behind it, bytes from there on. */
  datatype Arrivals = Arrivals(before: Arrival, tag: bool, iv: bool, after: Arrival)

  /** readErrorCode_; after the last two the socket is not read again. */
  datatype ReadError = OK | WDT_TIMEOUT | SOCKET_READ_ERROR | ENCRYPTION_ERROR

  /**
   How a reader stands: in front of what follows its last byte; behind a tag with no byte read since, where
   it will look for the tag again; or with a tag it could not read.
   */
  datatype Stand = InStep | Adrift | Lost
  datatype Where = Where(pos: nat, stand: Stand, error: ReadError)
  datatype Step = Step(next: Where, out: nat)

  /** How many of `want` bytes arrive when the peer has written `left`. */
  function Arrived(want: nat, left: nat, a: Arrival): nat {
    if a.Bytes? then Min(Min(a.n, want), left) else 0
  }
  function ErrorOf(a: Arrival): ReadError {
    match a
    case Bytes(n) => if n == 0 then SOCKET_READ_ERROR else WDT_TIMEOUT
    case TimedOut => WDT_TIMEOUT
    case Failed => SOCKET_READ_ERROR
  }

  /** Bytes with no tag in front of them; none of them behind a tag means that the reader is adrift. */
  function Rest(pos: nat, sofar: nat, want: nat, n: nat, a: Arrival, tagged: bool): Step
    requires pos <= n
  {
    var k := Arrived(want, n - pos, a);
    if k > 0 then Step(Where(pos + k, InStep, OK), sofar + k)
    else Step(Where(pos, if tagged then Adrift else InStep, ErrorOf(a)), sofar)
  }

  /** The tag in front of byte `pos` can be read: the reader stands in front of it, it is on the wire and arrives. */
  ghost predicate Verifies(stand: Stand, pos: nat, n: nat, a: Arrivals) { stand.InStep? && pos < n && a.tag }
  ghost predicate NewIv(pos: nat, i: Intervals)
    requires i.tag > 0
  {
    ChangesAt(Before(pos, i), pos, i)
  }

  /** From the tag on, with `sofar` bytes read in front of it. */
  ghost function AcrossTag(stand: Stand, pos: nat, sofar: nat, want: nat, n: nat, i: Intervals, a: Arrivals): Step
    requires i.tag > 0 && pos <= n
  {
    if !Verifies(stand, pos, n, a) || (NewIv(pos, i) && !a.iv) then Step(Where(pos, Lost, ENCRYPTION_ERROR), 0)
    else Rest(pos, sofar, want, n, a.after, true)
  }

  /** The tag is `off` bytes away. */
  ghost function UpToTag(w: Where, off: nat, want: nat, n: nat, i: Intervals, a: Arrivals): Step
    requires i.tag > 0 && w.pos <= n && 0 < off < want
  {
    var k := Arrived(off, n - w.pos, a.before);
    if k == 0 then Step(w.(error := ErrorOf(a.before)), 0)
    else if k < off then Step(Where(w.pos + k, InStep, OK), k)
    else AcrossTag(w.stand, w.pos + off, off, want - off, n, i, a)
  }

  /**
   A piece of at most a tag interval, of the `n` bytes the peer writes: where the reader is then and what it
   hands out.
   */
  ghost function Piece(w: Where, n: nat, i: Intervals, want: nat, a: Arrivals): Step
    requires i.tag > 0 && w.pos <= n
  {
    var off := ToNextTag(w.pos, i.tag);
    if off >= want then Rest(w.pos, 0, want, n, a.after, false)
    else if off == 0 then AcrossTag(w.stand, w.pos, 0, want, n, i, a)
    else UpToTag(w, off, want, n, i, a)
  }

  lemma ShortOfTag(w: Where, off: nat, want: nat, n: nat, i: Intervals, a: Arrivals) returns (s: Step)
    requires i.tag > 0 && w.pos <= n && 0 < off < want && off == ToNextTag(w.pos, i.tag)
    requires Arrived(off, n - w.pos, a.before) < off
    ensures var k := Arrived(off, n - w.pos, a.before);
            && s == Piece(w, n, i, want, a)
            && s == if k == 0 then Step(w.(error := ErrorOf(a.before)), 0) else Step(Where(w.pos + k, InStep, OK), k)
  {
    s := Piece(w, n, i, want, a);
  }

  lemma UpToIt(w: Where, off: nat, want: nat, n: nat, i: Intervals, a: Arrivals) returns (s: Step)
    requires i.tag > 0 && w.pos <= n && 0 < off < want && off == ToNextTag(w.pos, i.tag)
    requires Arrived(off, n - w.pos, a.before) == off
    ensures s == Piece(w, n, i, want, a) && s == AcrossTag(w.stand, w.pos + off, off, want - off, n, i, a)
  {
    s := Piece(w, n, i, want, a);
  }

  /** The reader's state makes sense: only behind a tag can it be adrift. */
  ghost predicate Sound(w: Where, n: nat, t: nat)
    requires t > 0
  {
    && w.pos <= n && (w.stand.Adrift? ==> w.pos < n && TagAt(w.pos, t))
    && (w.stand.Lost? <==> w.error.ENCRYPTION_ERROR?)
  }

  /** What a piece does, wherever it starts: bytes are handed out in order, and kept back only when the tag is lost. */
  lemma PieceSound(w: Where, n: nat, i: Intervals, want: nat, a: Arrivals)
    requires i.tag > 0 && Sound(w, n, i.tag) && !w.stand.Lost? && 0 < want
    ensures var s := Piece(w, n, i, want, a);
            && Sound(s.next, n, i.tag) && s.out <= want && w.pos + s.out <= n
            && (if s.next.stand.Lost? then s.out == 0 else s.next.pos == w.pos + s.out)
            && (s.out == want ==> s.next.stand.InStep?)
  {
    NextTag(w.pos, i.tag);
  }

  /** `k` bytes or more are there when they are asked for. */
  predicate Brings(a: Arrival, k: nat) { a.Bytes? && a.n >= k }

  /** The tag in front of byte `b` falls into a read of `want` bytes, and everything up to it arrives. */
  predicate Reaches(pos: nat, b: nat, n: nat, want: nat, a: Arrivals) {
    pos <= b <= n && b < pos + want && (pos < b ==> Brings(a.before, b - pos))
  }

  /** With the next tag at `b`, a piece starves if and only if it reaches the tag, gets it, and no data behind it. */
  lemma StarvesIff(w: Where, n: nat, i: Intervals, want: nat, a: Arrivals, b: nat)
    requires i.tag > 0 && Sound(w, n, i.tag) && w.stand.InStep? && 0 < want && NextTagIs(w.pos, b, i.tag)
    ensures Piece(w, n, i, want, a).next.stand.Adrift? <==>
              && Reaches(w.pos, b, n, want, a) && b < n && a.tag && (NewIv(b, i) ==> a.iv) && !Brings(a.after, 1)
  {
    OneNextTag(w.pos, b, i.tag);
  }

  /** It is lost if and only if it reaches the tag, and the peer has not written it or it does not arrive. */
  lemma LostIff(w: Where, n: nat, i: Intervals, want: nat, a: Arrivals, b: nat)
    requires i.tag > 0 && Sound(w, n, i.tag) && w.stand.InStep? && 0 < want && NextTagIs(w.pos, b, i.tag)
    ensures Piece(w, n, i, want, a).next.stand.Lost? <==>
              Reaches(w.pos, b, n, want, a) && (b == n || !a.tag || (NewIv(b, i) && !a.iv))
  {
    OneNextTag(w.pos, b, i.tag);
  }

  /** A reader that is adrift looks for the tag in the middle of data, and is lost. */
  lemma AdriftIsLost(w: Where, n: nat, i: Intervals, want: nat, a: Arrivals)
    requires i.tag > 0 && Sound(w, n, i.tag) && w.stand.Adrift? && 0 < want
    ensures Piece(w, n, i, want, a) == Step(Where(w.pos, Lost, ENCRYPTION_ERROR), 0)
  {
    OneNextTag(w.pos, w.pos, i.tag);
  }

  // ---------------------------------------------------------------- reads one after the other

  /** readWithTimeout; `net(j)` is what arrives for the `j`-th piece. */
  ghost function Pieces(w: Where, n: nat, i: Intervals, nbyte: nat, got: nat, net: nat -> Arrivals, j: nat): Step
    requires i.tag > 0 && Sound(w, n, i.tag) && !w.stand.Lost?
    decreases nbyte - got, 1
  {
    if got >= nbyte then Step(w, got)
    else
      var toRead := Min(nbyte - got, i.tag);
      PieceSound(w, n, i, toRead, net(j));
      Onward(Piece(w, n, i, toRead, net(j)), toRead, n, i, nbyte, got, net, j)
  }

  /** A short piece ends the read. */
  ghost function Onward(s: Step, toRead: nat, n: nat, i: Intervals, nbyte: nat, got: nat, net: nat -> Arrivals,
                        j: nat): Step
    requires i.tag > 0 && Sound(s.next, n, i.tag) && 0 < toRead && got + toRead <= nbyte
    requires s.out >= toRead ==> s.next.stand.InStep?
    decreases nbyte - got, 0
  {
    if s.out < toRead then Step(s.next, got + s.out) else Pieces(s.next, n, i, nbyte, got + s.out, net, j + 1)
  }

  lemma PiecesGoOn(w: Where, n: nat, i: Intervals, nbyte: nat, got: nat, net: nat -> Arrivals, j: nat) returns (s: Step)
    requires i.tag > 0 && Sound(w, n, i.tag) && !w.stand.Lost? && got < nbyte
    ensures var toRead := Min(nbyte - got, i.tag);
            && s == Piece(w, n, i, toRead, net(j)) && Sound(s.next, n, i.tag) && s.out <= toRead
            && (if s.next.stand.Lost? then s.out == 0 else s.next.pos == w.pos + s.out)
            && (s.out == toRead ==> s.next.stand.InStep?)
            && Pieces(w, n, i, nbyte, got, net, j) ==
               if s.out < toRead then Step(s.next, got + s.out)
               else Pieces(s.next, n, i, nbyte, got + s.out, net, j + 1)
  {
    var toRead := Min(nbyte - got, i.tag);
    s := Piece(w, n, i, toRead, net(j));
    PieceSound(w, n, i, toRead, net(j));
  }

  /** Only a timeout is forgiven. */
  predicate Readable(e: ReadError) { e == OK || e == WDT_TIMEOUT }

  ghost function ReadOf(w: Where, n: nat, i: Intervals, nbyte: nat, net: nat -> Arrivals): Step
    requires i.tag > 0 && Sound(w, n, i.tag)
  {
    if !Readable(w.error) then Step(w, 0) else Pieces(w.(error := OK), n, i, nbyte, 0, net, 0)
  }

  lemma {:induction false} PiecesSound(w: Where, n: nat, i: Intervals, nbyte: nat, got: nat, net: nat -> Arrivals,
                                       j: nat)
    requires i.tag > 0 && Sound(w, n, i.tag) && !w.stand.Lost? && got <= nbyte
    ensures var s := Pieces(w, n, i, nbyte, got, net, j);
            && Sound(s.next, n, i.tag) && got <= s.out <= nbyte && w.pos + (s.out - got) <= n
            && (!s.next.stand.Lost? ==> s.next.pos == w.pos + (s.out - got))
    decreases nbyte - got
  {
    if got < nbyte {
      var toRead := Min(nbyte - got, i.tag);
      var s := Piece(w, n, i, toRead, net(j));
      PieceSound(w, n, i, toRead, net(j));
      if s.out == toRead { PiecesSound(s.next, n, i, nbyte, got + s.out, net, j + 1); }
    }
  }

  datatype Request = Request(nbyte: nat, net: nat -> Arrivals)

  ghost function Reads(w: Where, n: nat, i: Intervals, requests: seq<Request>): Step
    requires i.tag > 0 && Sound(w, n, i.tag)
    decreases |requests|
  {
    if requests == [] then Step(w, 0)
    else
      var s := ReadOf(w, n, i, requests[0].nbyte, requests[0].net);
      ReadSound(w, n, i, requests[0].nbyte, requests[0].net);
      var rest := Reads(s.next, n, i, requests[1..]);
      Step(rest.next, s.out + rest.out)
  }

  lemma ReadSound(w: Where, n: nat, i: Intervals, nbyte: nat, net: nat -> Arrivals)
    requires i.tag > 0 && Sound(w, n, i.tag)
    ensures var s := ReadOf(w, n, i, nbyte, net);
            && Sound(s.next, n, i.tag) && s.out <= nbyte && w.pos + s.out <= n
            && (!s.next.stand.Lost? ==> s.next.pos == w.pos + s.out)
  {
    if Readable(w.error) { PiecesSound(w.(error := OK), n, i, nbyte, 0, net, 0); }
  }

  // ---------------------------------------------------------------- what a working connection promises

  /** Tags arrive, and some data whenever there is any; with `full`, all that is asked for. */
  predicate SteadyPiece(a: Arrivals, least: nat) { Brings(a.before, least) && a.tag && a.iv && Brings(a.after, least) }
  ghost predicate Steady(net: nat -> Arrivals, least: nat) { forall j: nat :: SteadyPiece(net(j), least) }

  /** In step, or lost because the peer stopped in front of a tag. */
  ghost predicate Kept(w: Where, n: nat, t: nat)
    requires t > 0
  {
    && !w.stand.Adrift? && (w.stand.Lost? ==> TagAt(n, t) && w.pos == n)
    && (w.stand.InStep? ==> Readable(w.error))
  }

  lemma PieceKeeps(w: Where, n: nat, i: Intervals, want: nat, a: Arrivals)
    requires i.tag > 0 && Sound(w, n, i.tag) && w.stand.InStep? && 0 < want && SteadyPiece(a, 1)
    ensures var s := Piece(w, n, i, want, a);
            Kept(s.next, n, i.tag) && (s.next.stand.InStep? && w.pos < n ==> s.out >= 1)
  {
    NextTag(w.pos, i.tag);
  }

  /** Two tags are an interval apart. */
  lemma TagsApart(a: nat, b: nat, t: nat)
    requires t > 0 && TagAt(a, t) && TagAt(b, t) && a < b
    ensures a + t <= b
  {
    if b < a + t { TagApart(a, t, b - a + 1); }
  }

  lemma FullPiece(w: Where, n: nat, i: Intervals, want: nat, a: Arrivals)
    requires i.tag > 0 && Sound(w, n, i.tag) && w.stand.InStep? && 0 < want <= i.tag && SteadyPiece(a, i.tag)
    ensures var s := Piece(w, n, i, want, a);
            && !s.next.stand.Adrift? && (s.next.stand.Lost? <==> TagAt(n, i.tag) && n < w.pos + want)
            && (s.next.stand.InStep? ==> s.out == Min(want, n - w.pos))
  {
    var b := w.pos + ToNextTag(w.pos, i.tag);
    NextTag(w.pos, i.tag);
    if TagAt(n, i.tag) && b < n { TagsApart(b, n, i.tag); }
  }

  lemma {:induction false} PiecesKeep(w: Where, n: nat, i: Intervals, nbyte: nat, got: nat, net: nat -> Arrivals,
                                      j: nat)
    requires i.tag > 0 && Sound(w, n, i.tag) && w.stand.InStep? && Readable(w.error) && got <= nbyte && Steady(net, 1)
    ensures var s := Pieces(w, n, i, nbyte, got, net, j);
            Kept(s.next, n, i.tag) && (s.next.stand.InStep? && w.pos < n && got < nbyte ==> s.out > got)
    decreases nbyte - got, 1
  {
    if got < nbyte {
      var toRead := Min(nbyte - got, i.tag);
      PieceSound(w, n, i, toRead, net(j));
      assert SteadyPiece(net(j), 1);
      PieceKeeps(w, n, i, toRead, net(j));
      OnwardKeeps(Piece(w, n, i, toRead, net(j)), toRead, n, i, nbyte, got, net, j);
    }
  }

  lemma {:induction false} OnwardKeeps(s: Step, toRead: nat, n: nat, i: Intervals, nbyte: nat, got: nat,
                                       net: nat -> Arrivals, j: nat)
    requires i.tag > 0 && Sound(s.next, n, i.tag) && 0 < toRead && got + toRead <= nbyte && s.out <= toRead
    requires (s.out == toRead ==> s.next.stand.InStep?) && Kept(s.next, n, i.tag) && Steady(net, 1)
    ensures var r := Onward(s, toRead, n, i, nbyte, got, net, j); Kept(r.next, n, i.tag) && r.out >= got + s.out
    decreases nbyte - got, 0
  {
    if s.out == toRead {
      PiecesSound(s.next, n, i, nbyte, got + s.out, net, j + 1);
      PiecesKeep(s.next, n, i, nbyte, got + s.out, net, j + 1);
    }
  }

  lemma {:induction false} FullPieces(w: Where, n: nat, i: Intervals, nbyte: nat, got: nat, net: nat -> Arrivals,
                                      j: nat)
    requires i.tag > 0 && Sound(w, n, i.tag) && w.stand.InStep? && got <= nbyte && Steady(net, i.tag)
    ensures var s := Pieces(w, n, i, nbyte, got, net, j);
            && (s.next.stand.Lost? <==> TagAt(n, i.tag) && n < w.pos + (nbyte - got))
            && (s.next.stand.InStep? ==> s.out - got == Min(nbyte - got, n - w.pos))
    decreases nbyte - got, 1
  {
    if got < nbyte {
      var toRead := Min(nbyte - got, i.tag);
      var s := Piece(w, n, i, toRead, net(j));
      PieceSound(w, n, i, toRead, net(j));
      assert SteadyPiece(net(j), i.tag);
      FullPiece(w, n, i, toRead, net(j));
      OnwardFull(w.pos, s, toRead, n, i, nbyte, got, net, j);
    }
  }

  lemma {:induction false} OnwardFull(pos: nat, s: Step, toRead: nat, n: nat, i: Intervals, nbyte: nat, got: nat,
                                      net: nat -> Arrivals, j: nat)
    requires i.tag > 0 && Sound(s.next, n, i.tag) && pos <= n && Steady(net, i.tag)
    requires 0 < toRead <= i.tag && got + toRead <= nbyte && (toRead < i.tag ==> got + toRead == nbyte)
    requires s.next.stand.Lost? <==> TagAt(n, i.tag) && n < pos + toRead
    requires if s.next.stand.Lost? then s.out == 0 else s.next.pos == pos + s.out && s.out <= toRead
    requires (s.out == toRead ==> s.next.stand.InStep?) && !s.next.stand.Adrift?
    requires s.next.stand.InStep? ==> s.out == Min(toRead, n - pos)
    ensures var r := Onward(s, toRead, n, i, nbyte, got, net, j);
            && (r.next.stand.Lost? <==> TagAt(n, i.tag) && n < pos + (nbyte - got))
            && (r.next.stand.InStep? ==> r.out - got == Min(nbyte - got, n - pos))
    decreases nbyte - got, 0
  {
    if s.out == toRead { FullPieces(s.next, n, i, nbyte, got + s.out, net, j + 1); }
  }

  ghost predicate AllSteady(requests: seq<Request>, least: nat) {
    forall k | 0 <= k < |requests| :: requests[k].nbyte > 0 && Steady(requests[k].net, least)
  }
  function Asked(requests: seq<Request>): nat {
    if requests == [] then 0 else requests[0].nbyte + Asked(requests[1..])
  }

  /** Once lost, nothing more comes out. */
  lemma {:induction false} LostStays(w: Where, n: nat, i: Intervals, requests: seq<Request>)
    requires i.tag > 0 && Sound(w, n, i.tag) && w.stand.Lost?
    ensures Reads(w, n, i, requests) == Step(w, 0)
    decreases |requests|
  {
    if requests != [] { LostStays(w, n, i, requests[1..]); }
  }

  lemma {:induction false} ReadsSound(w: Where, n: nat, i: Intervals, requests: seq<Request>)
    requires i.tag > 0 && Sound(w, n, i.tag)
    ensures var s := Reads(w, n, i, requests);
            && Sound(s.next, n, i.tag) && w.pos + s.out <= n
            && (!s.next.stand.Lost? ==> s.next.pos == w.pos + s.out)
    decreases |requests|
  {
    if requests != [] {
      var s := ReadOf(w, n, i, requests[0].nbyte, requests[0].net);
      ReadSound(w, n, i, requests[0].nbyte, requests[0].net);
      if s.next.stand.Lost? {
        LostStays(s.next, n, i, requests[1..]);
      } else {
        ReadsSound(s.next, n, i, requests[1..]);
      }
    }
  }

  /**
   Any reads, of any sizes and however the bytes arrive, as long as tags arrive and some data behind every one: the
   reader stays in step, and every read brings it on until all is read.  Only a peer that stops in front of a tag
   makes it lose what it has not handed out yet.
   */
  lemma {:induction false} SteadyReads(w: Where, n: nat, i: Intervals, requests: seq<Request>)
    requires i.tag > 0 && Sound(w, n, i.tag) && w.stand.InStep? && Readable(w.error) && AllSteady(requests, 1)
    ensures var s := Reads(w, n, i, requests);
            Kept(s.next, n, i.tag) && (s.next.stand.InStep? ==> s.out >= Min(n - w.pos, |requests|))
    decreases |requests|
  {
    if requests != [] {
      var r := requests[0];
      var s := ReadOf(w, n, i, r.nbyte, r.net);
      ReadSound(w, n, i, r.nbyte, r.net);
      PiecesKeep(w.(error := OK), n, i, r.nbyte, 0, r.net, 0);
      if s.next.stand.Lost? {
        LostStays(s.next, n, i, requests[1..]);
      } else {
        SteadyReads(s.next, n, i, requests[1..]);
      }
    }
  }

  /**
   When all that is asked for arrives, the reads hand out as many bytes as they ask for, as far as the peer has
   written them; they are lost if and only if they ask for more than a peer has written that stopped in front of a tag.
   */
  lemma {:induction false} FullReads(w: Where, n: nat, i: Intervals, requests: seq<Request>)
    requires i.tag > 0 && Sound(w, n, i.tag) && w.stand.InStep? && Readable(w.error) && AllSteady(requests, i.tag)
    ensures var s := Reads(w, n, i, requests);
            && (s.next.stand.Lost? <==> TagAt(n, i.tag) && n < w.pos + Asked(requests))
            && (!s.next.stand.Lost? ==> s.next.stand.InStep? && s.out == Min(Asked(requests), n - w.pos))
    decreases |requests|
  {
    if requests != [] {
      var r := requests[0];
      var s := ReadOf(w, n, i, r.nbyte, r.net);
      ReadSound(w, n, i, r.nbyte, r.net);
      LessSteady(r.net, i.tag);
      PiecesKeep(w.(error := OK), n, i, r.nbyte, 0, r.net, 0);
      FullPieces(w.(error := OK), n, i, r.nbyte, 0, r.net, 0);
      if s.next.stand.Lost? { LostStays(s.next, n, i, requests[1..]); } else { FullReads(s.next, n, i, requests[1..]); }
    }
  }

  lemma LessSteady(net: nat -> Arrivals, least: nat)
    requires least > 0 && Steady(net, least)
    ensures Steady(net, 1)
  {
    forall j: nat ensures SteadyPiece(net(j), 1) { assert SteadyPiece(net(j), least); }
  }

  lemma AdriftRead(w: Where, n: nat, i: Intervals, nbyte: nat, net: nat -> Arrivals)
    requires i.tag > 0 && Sound(w, n, i.tag) && w.stand.Adrift? && Readable(w.error) && nbyte > 0
    ensures ReadOf(w, n, i, nbyte, net) == Step(Where(w.pos, Lost, ENCRYPTION_ERROR), 0)
  {
    AdriftIsLost(w.(error := OK), n, i, Min(nbyte, i.tag), net(0));
    assert Pieces(w.(error := OK), n, i, nbyte, 0, net, 0) == Step(Where(w.pos, Lost, ENCRYPTION_ERROR), 0);
  }

  /**
   A read that starves leaves the next one, if a timeout allows it, with a tag it cannot read: no byte ever
   comes again.
   */
  lemma {:induction false} StarvedIsLost(w: Where, n: nat, i: Intervals, requests: seq<Request>)
    requires i.tag > 0 && Sound(w, n, i.tag) && w.stand.Adrift? && requests != [] && requests[0].nbyte > 0
    ensures Reads(w, n, i, requests).out == 0
    ensures Readable(w.error) ==> Reads(w, n, i, requests).next == Where(w.pos, Lost, ENCRYPTION_ERROR)
  {
    if Readable(w.error) {
      AdriftRead(w, n, i, requests[0].nbyte, requests[0].net);
      LostStays(Where(w.pos, Lost, ENCRYPTION_ERROR), n, i, requests[1..]);
    } else {
      RefusedStays(w, n, i, requests);
    }
  }

  lemma {:induction false} RefusedStays(w: Where, n: nat, i: Intervals, requests: seq<Request>)
    requires i.tag > 0 && Sound(w, n, i.tag) && !Readable(w.error)
    ensures Reads(w, n, i, requests) == Step(w, 0)
    decreases |requests|
  {
    if requests != [] { RefusedStays(w, n, i, requests[1..]); }
  }

  // ---------------------------------------------------------------- the reader

  predicate Part(p: seq<Byte>, start: nat, data: seq<Byte>) {
    start + |data| <= |p| && data == p[start..start + |data|]
  }
  lemma JoinPart(p: seq<Byte>, start: nat, a: seq<Byte>, mid: nat, b: seq<Byte>)
    requires Part(p, start, a) && mid == start + |a| && Part(p, mid, b)
    ensures Part(p, start, a + b) && |a + b| == |a| + |b|
  {
    SliceJoin(p, start, mid, mid + |b|);
  }

  lemma {:induction false} SinceIs(x: Context, p: seq<Byte>, total: nat, i: Intervals)
    requires i.tag > 0 && total <= |p| && Runs(x, Before(total, i), p[..total])
    ensures NewIv(total, i) <==> i.ivChange != 0 && |x.since| + i.tag > i.ivChange
  {
  }

  class Reader {
    const intervals: Intervals
    const plain: seq<Byte>            // everything the peer writes before it waits for an answer
    var input: seq<Symbol>            // what the peer wrote and was not read yet
    var totalRead: nat
    var decryptor: Context
    var error: ReadError
    var verified: nat                 // bytes in front of the last tag that verified
    var waiting: seq<nat>             // where the blocks end that wait for a tag
    var counted: seq<nat>             // where those end that have been counted as received
    ghost var at: Where

    /** The input is what is left of the peer's wire for `plain`, in front of or behind the marks after `totalRead`. */
    ghost predicate Stands(w: Where)
      reads this
    {
      && intervals.tag > 0 && w.pos == totalRead <= |plain| && w.error == error
      && (w.stand.Lost? <==> error.ENCRYPTION_ERROR?)
      && (w.stand.InStep? ==> InFront(input, decryptor, plain, totalRead, intervals))
      && (w.stand.Adrift? ==> Behind(input, decryptor, plain, totalRead, intervals) && TagAt(totalRead, intervals.tag))
    }

    /** Blocks are counted only when a tag behind all their bytes has verified. */
    ghost predicate Counted()
      reads this
    {
      && verified <= totalRead <= |plain|
      && (forall j | 0 <= j < |counted| :: counted[j] <= verified)
      && (forall j | 0 <= j < |waiting| :: waiting[j] <= totalRead)
    }

    ghost predicate Valid()
      reads this
    {
      Stands(at) && Counted()
    }

    constructor (intervals: Intervals, wire: seq<Symbol>, plain: seq<Byte>)
      requires intervals.tag > 0 && wire == Wire(plain, |plain|, intervals)
      ensures Valid() && at == Where(0, InStep, OK) && counted == []
      ensures this.plain == plain && input == wire && this.intervals == intervals
    {
      WholeWire(plain, intervals);
      this.intervals, this.plain := intervals, plain;
      input, totalRead, decryptor, error, verified, waiting, counted := wire, 0, Context(0, []), OK, 0, [], [];
      at := Where(0, InStep, OK);
    }

    /** A block whose last byte is in front of `end` has been written to disk. */
    method AddWaiting(end: nat)
      requires Valid() && end <= totalRead
      modifies this`waiting
      ensures Valid() && waiting == old(waiting) + [end]
    {
      waiting := waiting + [end];
    }

    /** readInternal and decrypt, where no tag is in between. */
    method ReadAndDecrypt(want: nat, a: Arrival) returns (data: seq<Byte>)
      requires intervals.tag > 0 && totalRead <= |plain| && NoTagBetween(totalRead, totalRead + want, intervals.tag)
      requires totalRead < |plain| ==> Behind(input, decryptor, plain, totalRead, intervals)
      modifies this`input, this`decryptor, this`totalRead, this`error
      ensures var k := Arrived(want, |plain| - old(totalRead), a);
              && totalRead == old(totalRead) + k && data == plain[old(totalRead)..totalRead]
              && (error == if k == 0 then ErrorOf(a) else OK)
              && (k == 0 ==> input == old(input) && decryptor == old(decryptor))
              && (k > 0 ==> InFront(input, decryptor, plain, totalRead, intervals))
    {
      var k := Arrived(want, |plain| - totalRead, a);
      if k == 0 {
        error := ErrorOf(a);
        return [];
      }
      NoTagWithin(totalRead, totalRead + k, totalRead + want, intervals.tag);
      TakeData(input, decryptor, plain, totalRead, k, intervals);
      PlainDatas(plain[totalRead..totalRead + k], decryptor.iv);
      data := Plain(input[..k]);
      input, totalRead, error := input[k..], totalRead + k, OK;
      decryptor := Context(decryptor.iv, decryptor.since + data);
    }

    /** The blocks that waited are counted when a tag verifies in front of byte `pos`. */
    ghost predicate Tells(tagged: bool, pos: nat, before: seq<nat>, waited: seq<nat>, was: nat)
      reads this
    {
      if tagged then verified == pos && counted == before + waited && waiting == []
      else verified == was && counted == before && waiting == waited
    }

    /**
     readEncryptionTag and verifyTag, on any input: if a tag `arrives`, it verifies if and only if it was made under
     the same IV and over exactly the bytes that have come out since.
     */
    method VerifyTag(arrives: bool) returns (ok: bool)
      modifies this`error
      ensures ok <==> arrives && input != [] && input[0].Tag? && decryptor == Context(input[0].iv, input[0].over)
      ensures error == if ok then old(error) else ENCRYPTION_ERROR
    {
      ok := arrives && input != [] && input[0] == Tag(decryptor.iv, decryptor.since);
      if !ok {
        error := ENCRYPTION_ERROR;
      }
    }

    /** At a tag: VerifyTag, the callback and checkAndChangeDecryptionIv. */
    method ReadTag(a: Arrivals, ghost w: Where) returns (ok: bool)
      requires Stands(w) && !w.stand.Lost? && Counted() && TagAt(totalRead, intervals.tag)
      modifies this`input, this`decryptor, this`error, this`verified, this`waiting, this`counted
      ensures Counted()
      ensures ok <==> Verifies(w.stand, totalRead, |plain|, a) && (NewIv(totalRead, intervals) ==> a.iv)
      ensures ok ==> Behind(input, decryptor, plain, totalRead, intervals) && error == old(error)
      ensures !ok ==> error == ENCRYPTION_ERROR
      ensures Tells(Verifies(w.stand, totalRead, |plain|, a), totalRead, old(counted), old(waiting), old(verified))
    {
      if a.tag && w.stand.InStep? && totalRead < |plain| {
        TakeMarks(input, decryptor, plain, totalRead, intervals);
        SinceIs(decryptor, plain, totalRead, intervals);
      }
      ok := VerifyTag(a.tag);
      if !ok {
        return;
      }
      verified, counted, waiting := totalRead, counted + waiting, [];
      if intervals.ivChange != 0 && |decryptor.since| + intervals.tag > intervals.ivChange {
        if !a.iv || !input[1].Iv? {
          error := ENCRYPTION_ERROR;
          return false;
        }
        decryptor := Context(input[1].iv, []);
        input := input[2..];
      } else {
        input := input[1..];
      }
      return true;
    }

    /** The bytes from `start` on are handed out as `s` says, and the reader stands where it says. */
    ghost predicate Did(start: nat, s: Step, data: seq<Byte>)
      reads this
    {
      && Stands(s.next) && Counted()
      && start + s.out <= |plain| && data == plain[start..start + s.out]
    }

    /** From a tag on, with `data0` read in front of it. */
    method FromTag(want: nat, a: Arrivals, ghost w: Where, data0: seq<Byte>, ghost start: nat, ghost sofar: nat)
      returns (data: seq<Byte>, ghost s: Step, ghost tagged: bool)
      requires Stands(w) && !w.stand.Lost? && Counted() && TagAt(totalRead, intervals.tag) && 0 < want <= intervals.tag
      requires |data0| == sofar && start + sofar == totalRead && data0 == plain[start..totalRead]
      modifies this`input, this`decryptor, this`totalRead, this`error, this`verified, this`waiting, this`counted
      ensures s == AcrossTag(w.stand, w.pos, sofar, want, |plain|, intervals, a) && Did(start, s, data)
      ensures tagged == Verifies(w.stand, w.pos, |plain|, a)
      ensures Tells(tagged, w.pos, old(counted), old(waiting), old(verified))
    {
      s := AcrossTag(w.stand, w.pos, sofar, want, |plain|, intervals, a);
      tagged := Verifies(w.stand, w.pos, |plain|, a);
      var ok := ReadTag(a, w);
      if !ok {
        return [], s, tagged;
      }
      TagApart(totalRead, intervals.tag, want);
      ghost var tagPos := totalRead;
      var more;
      more := ReadAndDecrypt(want, a.after);
      SliceJoin(plain, start, tagPos, totalRead);
      data := data0 + more;
    }

    /** A tag verifies within a piece of `want` bytes from `w` on, `off` bytes away. */
    ghost predicate Passes(w: Where, off: nat, want: nat, a: Arrivals) {
      w.pos <= |plain| && off < want && Arrived(off, |plain| - w.pos, a.before) == off
      && Verifies(w.stand, w.pos + off, |plain|, a)
    }

    /** The next tag is `off` bytes away. */
    ghost predicate Ahead(off: nat)
      reads this
    {
      && intervals.tag > 0 && off == ToNextTag(at.pos, intervals.tag)
      && TagAt(at.pos + off, intervals.tag) && NoTagBetween(at.pos, at.pos + off, intervals.tag)
      && (off > 0 ==> !TagAt(at.pos, intervals.tag))
    }

    method ReadBefore(off: nat, a: Arrival) returns (data: seq<Byte>)
      requires Valid() && at.stand.InStep? && 0 < off && !TagAt(totalRead, intervals.tag)
      requires NoTagBetween(totalRead, totalRead + off, intervals.tag)
      modifies this`input, this`decryptor, this`totalRead, this`error
      ensures var k := Arrived(off, |plain| - at.pos, a);
              && totalRead == at.pos + k && data == plain[at.pos..totalRead] && Counted()
              && Stands(if k == 0 then at.(error := ErrorOf(a)) else Where(totalRead, InStep, OK))
    {
      MayRead(input, decryptor, plain, totalRead, intervals);
      data := ReadAndDecrypt(off, a);
    }

    /** A piece that ends in front of the next tag. */
    method ReadUntagged(want: nat, off: nat, a: Arrivals) returns (data: seq<Byte>, ghost s: Step)
      requires Valid() && at.stand.InStep? && Ahead(off) && 0 < want <= off
      modifies this`input, this`decryptor, this`totalRead, this`error
      ensures s == Piece(at, |plain|, intervals, want, a) && Did(at.pos, s, data)
    {
      s := Piece(at, |plain|, intervals, want, a);
      NoTagWithin(totalRead, totalRead + want, totalRead + off, intervals.tag);
      data := ReadBefore(want, a.after);
    }

    /** A piece that reaches the tag, or stops short of it. */
    method ReadToTag(want: nat, off: nat, a: Arrivals)
      returns (data: seq<Byte>, ghost s: Step, ghost tagged: bool)
      requires Valid() && at.stand.InStep? && Ahead(off) && 0 < off < want <= intervals.tag
      modifies this`input, this`decryptor, this`totalRead, this`error, this`verified, this`waiting, this`counted
      ensures s == Piece(at, |plain|, intervals, want, a) && Did(at.pos, s, data)
      ensures tagged == Passes(at, off, want, a)
      ensures Tells(tagged, at.pos + off, old(counted), old(waiting), old(verified))
    {
      data := ReadBefore(off, a.before);
      if |data| < off {
        s := ShortOfTag(at, off, want, |plain|, intervals, a);
        return data, s, false;
      }
      data, s, tagged := ReadOver(want, off, a, data);
    }

    /** The rest of a piece whose first `off` bytes reach the tag. */
    method ReadOver(want: nat, off: nat, a: Arrivals, data0: seq<Byte>)
      returns (data: seq<Byte>, ghost s: Step, ghost tagged: bool)
      requires Stands(Where(at.pos + off, InStep, OK)) && Counted() && at.stand.InStep? && Ahead(off)
      requires 0 < off < want <= intervals.tag && |data0| == off && data0 == plain[at.pos..at.pos + off]
      requires Arrived(off, |plain| - at.pos, a.before) == off
      modifies this`input, this`decryptor, this`totalRead, this`error, this`verified, this`waiting, this`counted
      ensures s == Piece(at, |plain|, intervals, want, a) && Did(at.pos, s, data)
      ensures tagged == Passes(at, off, want, a)
      ensures Tells(tagged, at.pos + off, old(counted), old(waiting), old(verified))
    {
      s := UpToIt(at, off, want, |plain|, intervals, a);
      ghost var r;
      data, r, tagged := FromTag(want - off, a, Where(at.pos + off, at.stand, OK), data0, at.pos, off);
    }

    /** A piece that starts at the tag. */
    method ReadAtTag(want: nat, a: Arrivals) returns (data: seq<Byte>, ghost s: Step, ghost tagged: bool)
      requires Valid() && !at.stand.Lost? && Ahead(0) && 0 < want <= intervals.tag
      modifies this`input, this`decryptor, this`totalRead, this`error, this`verified, this`waiting, this`counted
      ensures s == Piece(at, |plain|, intervals, want, a) && Did(at.pos, s, data)
      ensures tagged == Passes(at, 0, want, a)
      ensures Tells(tagged, at.pos, old(counted), old(waiting), old(verified))
    {
      data, s, tagged := FromTag(want, a, at, [], at.pos, 0);
    }

    /** Without the tag, from the tag, or up to it. */
    method ReadByTag(want: nat, off: nat, a: Arrivals) returns (data: seq<Byte>, ghost s: Step, ghost tagged: bool)
      requires Valid() && !at.stand.Lost? && Ahead(off) && 0 < want <= intervals.tag
      modifies this`input, this`decryptor, this`totalRead, this`error, this`verified, this`waiting, this`counted
      ensures s == Piece(at, |plain|, intervals, want, a) && Did(at.pos, s, data)
      ensures tagged == Passes(at, off, want, a)
      ensures Tells(tagged, at.pos + off, old(counted), old(waiting), old(verified))
    {
      if off >= want {
        data, s := ReadUntagged(want, off, a);
        tagged := false;
      } else if off == 0 {
        data, s, tagged := ReadAtTag(want, a);
      } else {
        data, s, tagged := ReadToTag(want, off, a);
      }
    }

    /** One piece of a read, of at most a tag interval. */
    method ReadAndDecryptWithTag(want: nat, a: Arrivals) returns (data: seq<Byte>, ghost s: Step)
      requires Valid() && !at.stand.Lost? && 0 < want <= intervals.tag
      modifies this`input, this`decryptor, this`totalRead, this`error, this`verified, this`waiting, this`counted,
        this`at
      ensures s == Piece(old(at), |plain|, intervals, want, a) && at == s.next && Did(old(at).pos, s, data)
      ensures var off := ToNextTag(old(totalRead), intervals.tag);
              Tells(Passes(old(at), off, want, a), old(totalRead) + off, old(counted), old(waiting), old(verified))
    {
      var off := NextTagOffset(totalRead, intervals.tag);
      ghost var tagged;
      data, s, tagged := ReadByTag(want, off, a);
      at := s.next;
    }

    /** The blocks that waited before are still waiting, or counted. */
    ghost predicate Settles(before: seq<nat>, waited: seq<nat>)
      reads this
    {
      (counted == before && waiting == waited) || (counted == before + waited && waiting == [])
    }

    /** `data` is what was handed out from `start` on. */
    ghost predicate Fetched(start: nat, data: seq<Byte>)
      reads this
    {
      Part(plain, start, data) && (!at.stand.Lost? ==> at.pos == start + |data|)
    }

    /** The read as a whole will come to `all`: it goes on from here, or is over. */
    ghost predicate Leads(all: Step, more: bool, nbyte: nat, got: nat, net: nat -> Arrivals, j: nat)
      reads this
    {
      if more then intervals.tag > 0 && Sound(at, |plain|, intervals.tag) && !at.stand.Lost?
                   && all == Pieces(at, |plain|, intervals, nbyte, got, net, j)
      else all == Step(at, got)
    }

    lemma StandsSound()
      requires Valid()
      ensures Sound(at, |plain|, intervals.tag)
    {
    }

    /** One round of the loop. */
    method ReadPiece(nbyte: nat, data0: seq<Byte>, net: nat -> Arrivals, j: nat, ghost start: nat, ghost all: Step)
      returns (more: bool, data: seq<Byte>)
      requires Valid() && |data0| < nbyte && Fetched(start, data0) && Leads(all, true, nbyte, |data0|, net, j)
      modifies this`input, this`decryptor, this`totalRead, this`error, this`verified, this`waiting, this`counted,
        this`at
      ensures Valid() && Settles(old(counted), old(waiting)) && |data0| <= |data| <= nbyte
      ensures Fetched(start, data) && Leads(all, more, nbyte, |data|, net, j + 1) && (more ==> |data0| < |data|)
    {
      var toRead := Min(nbyte - |data0|, intervals.tag);
      ghost var pos := start + |data0|;
      var piece := TakePiece(toRead, nbyte, |data0|, net, j, all, pos);
      JoinPart(plain, start, data0, pos, piece);
      data := data0 + piece;
      more := |piece| == toRead;
    }

    method TakePiece(toRead: nat, ghost nbyte: nat, ghost got: nat, net: nat -> Arrivals, j: nat, ghost all: Step,
                     ghost pos: nat)
      returns (piece: seq<Byte>)
      requires Valid() && at.pos == pos && got < nbyte && Leads(all, true, nbyte, got, net, j)
               && toRead == Min(nbyte - got, intervals.tag)
      modifies this`input, this`decryptor, this`totalRead, this`error, this`verified, this`waiting, this`counted,
        this`at
      ensures Valid() && Settles(old(counted), old(waiting)) && |piece| <= toRead
      ensures Leads(all, |piece| == toRead, nbyte, got + |piece|, net, j + 1)
      ensures Part(plain, pos, piece) && (!at.stand.Lost? ==> at.pos == pos + |piece|)
    {
      ghost var s := PiecesGoOn(at, |plain|, intervals, nbyte, got, net, j);
      piece := ReadOne(toRead, net(j), s);
    }

    method ReadOne(want: nat, a: Arrivals, ghost s: Step) returns (data: seq<Byte>)
      requires Valid() && !at.stand.Lost? && 0 < want <= intervals.tag && s == Piece(at, |plain|, intervals, want, a)
      modifies this`input, this`decryptor, this`totalRead, this`error, this`verified, this`waiting, this`counted,
        this`at
      ensures Valid() && Settles(old(counted), old(waiting)) && at == s.next && |data| == s.out
      ensures old(at.pos) + |data| <= |plain| && data == plain[old(at.pos)..old(at.pos) + |data|]
    {
      ghost var r;
      data, r := ReadAndDecryptWithTag(want, a);
    }

    /** Any read: the bytes that come out, and where the reader is then, are those of `ReadOf`. */
    method Read(nbyte: nat, net: nat -> Arrivals) returns (data: seq<Byte>)
      requires Valid() && 0 < nbyte
      modifies this`input, this`decryptor, this`totalRead, this`error, this`verified, this`waiting, this`counted,
        this`at
      ensures Valid() && Settles(old(counted), old(waiting)) && Sound(old(at), |plain|, intervals.tag)
      ensures Step(at, |data|) == ReadOf(old(at), |plain|, intervals, nbyte, net)
      ensures old(at).pos + |data| <= |plain| && data == plain[old(at).pos..old(at).pos + |data|]
    {
      StandsSound();
      data := [];
      if Readable(error) {
        error, at := OK, at.(error := OK);
        data := ReadOn(nbyte, net);
      }
    }

    method ReadOn(nbyte: nat, net: nat -> Arrivals) returns (data: seq<Byte>)
      requires Valid() && 0 < nbyte && !at.stand.Lost?
      modifies this`input, this`decryptor, this`totalRead, this`error, this`verified, this`waiting, this`counted,
        this`at
      ensures Valid() && Settles(old(counted), old(waiting)) && Sound(old(at), |plain|, intervals.tag)
      ensures Step(at, |data|) == Pieces(old(at), |plain|, intervals, nbyte, 0, net, 0)
      ensures Fetched(old(at).pos, data)
    {
      StandsSound();
      data := [];
      ghost var start, all := at.pos, Pieces(at, |plain|, intervals, nbyte, 0, net, 0);
      var j, more := 0, true;
      while more && |data| < nbyte
        invariant Valid() && Settles(old(counted), old(waiting)) && |data| <= nbyte
        invariant Fetched(start, data) && Leads(all, more, nbyte, |data|, net, j)
        decreases nbyte - |data|, more
      {
        more, data := ReadPiece(nbyte, data, net, j, start, all);
        j := j + 1;
      }
    }

    /** Reads one after the other: their data joined is what was written, from where the reader was. */
    method ReadEach(requests: seq<Request>) returns (data: seq<Byte>)
      requires Valid() && forall k | 0 <= k < |requests| :: requests[k].nbyte > 0
      modifies this`input, this`decryptor, this`totalRead, this`error, this`verified, this`waiting, this`counted,
        this`at
      ensures Valid() && Settles(old(counted), old(waiting)) && Sound(old(at), |plain|, intervals.tag)
      ensures Step(at, |data|) == Reads(old(at), |plain|, intervals, requests)
      ensures old(at).pos + |data| <= |plain| && data == plain[old(at).pos..old(at).pos + |data|]
    {
      StandsSound();
      data := [];
      ghost var start, all := at.pos, Reads(at, |plain|, intervals, requests);
      for k := 0 to |requests|
        invariant Valid() && Settles(old(counted), old(waiting)) && Fetched(start, data)
        invariant LeadsEach(all, requests[k..], |data|)
      {
        assert requests[k..][0] == requests[k] && requests[k..][1..] == requests[k + 1..];
        data := ReadNext(requests[k..], data, start, all);
      }
    }

    /** The reads as a whole will come to `all`, with `rest` of them still to be made. */
    ghost predicate LeadsEach(all: Step, rest: seq<Request>, got: nat)
      reads this
    {
      && intervals.tag > 0 && Sound(at, |plain|, intervals.tag)
      && all == Step(Reads(at, |plain|, intervals, rest).next, got + Reads(at, |plain|, intervals, rest).out)
    }

    method ReadNext(rest: seq<Request>, data0: seq<Byte>, ghost start: nat, ghost all: Step) returns (data: seq<Byte>)
      requires Valid() && Fetched(start, data0) && rest != [] && rest[0].nbyte > 0 && LeadsEach(all, rest, |data0|)
      modifies this`input, this`decryptor, this`totalRead, this`error, this`verified, this`waiting, this`counted,
        this`at
      ensures Valid() && Settles(old(counted), old(waiting)) && Fetched(start, data)
              && LeadsEach(all, rest[1..], |data|)
    {
      ghost var before := at;
      ReadSound(at, |plain|, intervals, rest[0].nbyte, rest[0].net);
      var more := Read(rest[0].nbyte, rest[0].net);
      if !before.stand.Lost? { SliceJoin(plain, start, before.pos, before.pos + |more|); }
      data := data0 + more;
    }
  }

  // ---------------------------------------------------------------- both ends

  function Joined(bufs: seq<seq<Byte>>): seq<Byte> {
    if bufs == [] then [] else Joined(bufs[..|bufs| - 1]) + bufs[|bufs| - 1]
  }

  /**
   What was written in any pieces comes out of reads of any sizes: always a prefix; while tags arrive and some data
   behind every one, a byte more for every read; and when all that is asked for arrives, all of it.  A peer that
   stops in front of a tag must not be asked for more.
   */
  method Carry(intervals: Intervals, bufs: seq<seq<Byte>>, requests: seq<Request>) returns (data: seq<Byte>)
    requires intervals.tag > 0 && forall k | 0 <= k < |requests| :: requests[k].nbyte > 0
    ensures data <= Joined(bufs)
    ensures AllSteady(requests, 1) && !TagAt(|Joined(bufs)|, intervals.tag) ==>
              |data| >= Min(|Joined(bufs)|, |requests|)
    ensures AllSteady(requests, intervals.tag) ==>
              !TagAt(|Joined(bufs)|, intervals.tag) || Asked(requests) <= |Joined(bufs)| ==>
                |data| == Min(|Joined(bufs)|, Asked(requests))
  {
    var writer := new Writer(intervals);
    for k := 0 to |bufs|
      invariant writer.Valid() && writer.plain == Joined(bufs[..k]) && writer.intervals == intervals
    {
      writer.Write(bufs[k]);
      assert bufs[..k + 1][..k] == bufs[..k];
    }
    assert bufs[..|bufs|] == bufs;
    data := ReadBack(intervals, writer.out, Joined(bufs), requests);
  }

  method ReadBack(intervals: Intervals, wire: seq<Symbol>, plain: seq<Byte>, requests: seq<Request>)
    returns (data: seq<Byte>)
    requires intervals.tag > 0 && wire == Wire(plain, |plain|, intervals)
    requires forall k | 0 <= k < |requests| :: requests[k].nbyte > 0
    ensures data <= plain && |data| == Reads(Where(0, InStep, OK), |plain|, intervals, requests).out
    ensures AllSteady(requests, 1) && !TagAt(|plain|, intervals.tag) ==> |data| >= Min(|plain|, |requests|)
    ensures AllSteady(requests, intervals.tag) ==>
              !TagAt(|plain|, intervals.tag) || Asked(requests) <= |plain| ==> |data| == Min(|plain|, Asked(requests))
  {
    var reader := new Reader(intervals, wire, plain);
    data := reader.ReadEach(requests);
    if AllSteady(requests, 1) { SteadyReads(Where(0, InStep, OK), |plain|, intervals, requests); }
    if AllSteady(requests, intervals.tag) { FullReads(Where(0, InStep, OK), |plain|, intervals, requests); }
  }

  // ---------------------------------------------------------------- two connections that fail

  /** All that is asked for arrives. */
  function Plenty(t: nat): Arrivals { Arrivals(Bytes(t), true, true, Bytes(t)) }

  /** An interval of bytes, the tag behind it, and nothing more in time. */
  ghost predicate Stalls(net: nat -> Arrivals, t: nat) {
    net(0) == Plenty(t) && net(1) == Plenty(t).(after := TimedOut)
  }

  lemma FirstInterval(n: nat, i: Intervals, a: Arrivals)
    requires 0 < i.tag < n && Brings(a.after, i.tag)
    ensures Piece(Where(0, InStep, OK), n, i, i.tag, a) == Step(Where(i.tag, InStep, OK), i.tag)
  {
  }

  lemma TagAndNothing(n: nat, i: Intervals, want: nat, a: Arrivals)
    requires 0 < i.tag < n && 0 < want && a.tag && a.iv && a.after == TimedOut
    ensures Piece(Where(i.tag, InStep, OK), n, i, want, a) == Step(Where(i.tag, Adrift, WDT_TIMEOUT), 0)
  {
    NextTag(0, i.tag);
    OneNextTag(i.tag, i.tag, i.tag);
  }

  lemma Starves(n: nat, i: Intervals, net: nat -> Arrivals)
    requires 0 < i.tag < n && Stalls(net, i.tag)
    ensures ReadOf(Where(0, InStep, OK), n, i, n, net) == Step(Where(i.tag, Adrift, WDT_TIMEOUT), i.tag)
  {
    FirstInterval(n, i, net(0));
    var first := PiecesGoOn(Where(0, InStep, OK), n, i, n, 0, net, 0);
    TagAndNothing(n, i, Min(n - i.tag, i.tag), net(1));
    var second := PiecesGoOn(first.next, n, i, n, i.tag, net, 1);
  }

  /** The read after one that starved, if a timeout allows it. */
  method ReadAdrift(reader: Reader, nbyte: nat, net: nat -> Arrivals) returns (data: seq<Byte>)
    requires reader.Valid() && reader.at.stand.Adrift? && nbyte > 0
    modifies reader
    ensures data == [] && reader.Valid() && (old(reader.at.error) == WDT_TIMEOUT ==> reader.at.stand.Lost?)
  {
    reader.StandsSound();
    if Readable(reader.error) { AdriftRead(reader.at, |reader.plain|, reader.intervals, nbyte, net); }
    data := reader.Read(nbyte, net);
  }

  /**
   Whatever the interval and the bytes: a read that times out behind the first tag hands out the bytes in front of it,
   and the next read, with everything arriving again, hands out none and has lost the connection.
   */
  method StarvedRead(i: Intervals, bytes: seq<Byte>) returns (first: seq<Byte>, second: seq<Byte>, lost: bool)
    requires 0 < i.tag < |bytes|
    ensures first == bytes[..i.tag] && second == [] && lost
  {
    var reader := Connect(i, bytes);
    var net := (j: nat) => if j == 1 then Plenty(i.tag).(after := TimedOut) else Plenty(i.tag);
    Starves(|bytes|, i, net);
    first := reader.Read(|bytes|, net);
    second := ReadAdrift(reader, 1, (j: nat) => Plenty(i.tag));
    lost := reader.error == ENCRYPTION_ERROR;
  }

  /**
   A peer that stops in front of a tag: behind the first byte, a read for one byte more than are left hands out none of
   them, though all arrive, and the connection is lost; a read for just what was written hands out all.
   */
  method BlockedRead(i: Intervals, bytes: seq<Byte>) returns (all: seq<Byte>, none: seq<Byte>, lost: bool)
    requires 1 < i.tag == |bytes|
    ensures all == bytes && none == [] && lost
  {
    var net := (j: nat) => Plenty(i.tag);
    var reader := Connect(i, bytes);
    ReadsAll(i, |bytes|, net);
    all := reader.Read(|bytes|, net);
    var other := Connect(i, bytes);
    ReadsTooFar(i, |bytes|, net);
    var one := other.Read(1, net);
    none := other.Read(|bytes|, net);
    lost := other.error == ENCRYPTION_ERROR;
  }

  lemma ReadsAll(i: Intervals, n: nat, net: nat -> Arrivals)
    requires 1 < i.tag == n && Steady(net, n)
    ensures ReadOf(Where(0, InStep, OK), n, i, n, net).out == n
  {
    var s := PiecesGoOn(Where(0, InStep, OK), n, i, n, 0, net, 0);
    assert SteadyPiece(net(0), n);
    FullPiece(Where(0, InStep, OK), n, i, n, net(0));
  }

  lemma ReadsTooFar(i: Intervals, n: nat, net: nat -> Arrivals)
    requires 1 < i.tag == n && Steady(net, n)
    ensures ReadOf(Where(0, InStep, OK), n, i, 1, net) == Step(Where(1, InStep, OK), 1)
    ensures var s := ReadOf(Where(1, InStep, OK), n, i, n, net); s.next.stand.Lost? && s.out == 0
  {
    assert SteadyPiece(net(0), n);
    var one := PiecesGoOn(Where(0, InStep, OK), n, i, 1, 0, net, 0);
    var s := PiecesGoOn(Where(1, InStep, OK), n, i, n, 0, net, 0);
    NextTag(0, n);
    FullPiece(Where(1, InStep, OK), n, i, n, net(0));
  }

  method Connect(i: Intervals, bytes: seq<Byte>) returns (reader: Reader)
    requires i.tag > 0
    ensures fresh(reader) && reader.Valid() && reader.at == Where(0, InStep, OK)
    ensures reader.plain == bytes && reader.intervals == i
  {
    var writer := new Writer(i);
    writer.Write(bytes);
    assert [] + bytes == bytes;
    reader := new Reader(i, writer.out, bytes);
  }
}
