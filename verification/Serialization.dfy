/**
 Variable-length and fixed-length integers, ZigZag and strings, as the wire and the transfer log
 store them (util/SerializationUtil.h, util/SerializationUtil.cpp).

 `PutX(v, tail)` is the byte sequence of `v` followed by `tail`; `GetX(b)` reads one value off the
 front of a byte range and returns what is left.  The loops that fill and scan buffers are methods
 proved against these.
 */
module Serialization {

  type Byte = b: int | 0 <= b < 256

  const U64_LIMIT: int := 0x1_0000_0000_0000_0000
  const I64_MAX: int := 0x7FFF_FFFF_FFFF_FFFF
  const I32_MAX: int := 0x7FFF_FFFF
  const I32_MIN: int := -0x8000_0000
  /** A varint never takes more than this many bytes. */
  const MAX_VARINT: nat := 9

  type U64 = v: int | 0 <= v < U64_LIMIT
  type I64 = v: int | -I64_MAX - 1 <= v <= I64_MAX

  /** What a decoder yields: nothing, or a value and the unread rest of the range. */
  datatype Read<+T> = Fail | Got(value: T, rest: seq<Byte>)

  // ---------------------------------------------------------------- unsigned varint

  /** Values that fit when the varint is about to write its `count`-th byte. */
  function Capacity(count: nat): (c: nat)
    requires 1 <= count <= 9
    ensures c >= 256
    decreases 9 - count
  {
    if count == 9 then 256 else 128 * Capacity(count + 1)
  }

  lemma CapacityIsU64()
    ensures Capacity(1) == U64_LIMIT
  {
    assert Capacity(7) == 128 * (128 * 256);
    assert Capacity(5) == 128 * (128 * Capacity(7));
    assert Capacity(3) == 128 * (128 * Capacity(5));
  }

  /** `tail` preceded by a varint whose first `count - 1` bytes are already out. */
  function VarTail(v: nat, count: nat, tail: seq<Byte>): (s: seq<Byte>)
    requires 1 <= count <= 9
    ensures |tail| + 1 <= |s| <= |tail| + 10 - count
    decreases 9 - count
  {
    if count < 9 && v >= 128 then [128 + v % 128] + VarTail(v / 128, count + 1, tail) else [v % 256] + tail
  }

  function PutU64(v: U64, tail: seq<Byte>): (s: seq<Byte>)
    ensures |tail| + 1 <= |s| <= |tail| + MAX_VARINT
  {
    VarTail(v, 1, tail)
  }

  function VarBytes(v: U64): seq<Byte> { PutU64(v, []) }

  lemma {:induction false} VarTailAppends(v: nat, count: nat, tail: seq<Byte>)
    requires 1 <= count <= 9
    ensures VarTail(v, count, tail) == VarTail(v, count, []) + tail
    decreases 9 - count
  {
    if count < 9 && v >= 128 {
      VarTailAppends(v / 128, count + 1, tail);
    }
  }

  lemma PutU64Appends(v: U64, tail: seq<Byte>)
    ensures PutU64(v, tail) == VarBytes(v) + tail
  {
    VarTailAppends(v, 1, tail);
  }

  function GetVarTail(b: seq<Byte>, count: nat): (r: Read<nat>)
    requires 1 <= count <= 9
    ensures r.Got? ==> r.value < Capacity(count) && |r.rest| < |b|
    decreases 9 - count
  {
    if b == [] then Fail
    else if count < 9 && b[0] >= 128 then
      match GetVarTail(b[1..], count + 1)
      case Fail => Fail
      case Got(v, rest) => Got(b[0] - 128 + 128 * v, rest)  // & 0x7f drops the continuation bit
    else Got(b[0], b[1..])
  }

  function GetU64(b: seq<Byte>): (r: Read<U64>)
    ensures r.Got? ==> |r.rest| < |b|
  {
    CapacityIsU64();
    match GetVarTail(b, 1)
    case Fail => Fail
    case Got(v, rest) => Got(v, rest)
  }

  lemma Digits(v: nat)
    ensures v == 128 * (v / 128) + v % 128 && 0 <= v % 128 < 128
  {
  }

  lemma {:induction false} GetMore(b: Byte, s: seq<Byte>, count: nat)
    requires 1 <= count < 9 && b >= 128
    ensures GetVarTail([b] + s, count) ==
            match GetVarTail(s, count + 1) { case Fail => Fail case Got(v, rest) => Got(b - 128 + 128 * v, rest) }
  {
    assert ([b] + s)[1..] == s;
  }

  lemma {:induction false} GetLast(b: Byte, s: seq<Byte>, count: nat)
    requires count == 9 || (1 <= count < 9 && b < 128)
    ensures GetVarTail([b] + s, count) == Got(b, s)
  {
    assert ([b] + s)[1..] == s;
  }

  lemma {:induction false} DigitRoundTrip(lo: nat, hi: nat, count: nat, tail: seq<Byte>)
    requires 1 <= count < 9 && lo < 128 && hi > 0
             && GetVarTail(VarTail(hi, count + 1, tail), count + 1) == Got(hi, tail)
    ensures GetVarTail(VarTail(lo + 128 * hi, count, tail), count) == Got(lo + 128 * hi, tail)
  {
    VarTailDigits(lo, hi, count, tail);
    GetMore(128 + lo, VarTail(hi, count + 1, tail), count);
  }

  lemma DigitFits(v: nat, count: nat)
    requires 1 <= count < 9 && v < Capacity(count)
    ensures v / 128 < Capacity(count + 1)
  {
    Digits(v);
  }

  lemma {:induction false} VarTailRoundTrip(v: nat, count: nat, tail: seq<Byte>)
    requires 1 <= count <= 9 && v < Capacity(count)
    ensures GetVarTail(VarTail(v, count, tail), count) == Got(v, tail)
    decreases 9 - count
  {
    if count < 9 && v >= 128 {
      DigitFits(v, count);
      VarTailRoundTrip(v / 128, count + 1, tail);
      DigitJoins(v, count, tail);
    } else {
      GetLast(v, tail, count);
    }
  }

  lemma {:induction false} DigitJoins(v: nat, count: nat, tail: seq<Byte>)
    requires 1 <= count < 9 && v >= 128
    requires GetVarTail(VarTail(v / 128, count + 1, tail), count + 1) == Got(v / 128, tail)
    ensures GetVarTail(VarTail(v, count, tail), count) == Got(v, tail)
  {
    Digits(v);
    DigitRoundTrip(v % 128, v / 128, count, tail);
  }

  lemma U64RoundTrip(v: U64, tail: seq<Byte>)
    ensures GetU64(PutU64(v, tail)) == Got(v, tail)
  {
    CapacityIsU64();
    VarTailRoundTrip(v, 1, tail);
  }

  /** What was read of `b` is at least as long as the varint written for `v`, and if no longer the same. */
  ghost predicate ReadOff(b: seq<Byte>, v: nat, count: nat, rest: seq<Byte>)
    requires 1 <= count <= 9
  {
    NoShorter(b, rest, VarTail(v, count, []), VarTail(v, count, rest))
  }
  ghost predicate NoShorter(b: seq<Byte>, rest: seq<Byte>, bare: seq<Byte>, full: seq<Byte>) {
    |b| - |rest| >= |bare| && (|b| - |rest| == |bare| ==> b == full)
  }

  lemma {:induction false} VarTailOnly(b: seq<Byte>, count: nat, v: nat, rest: seq<Byte>)
    requires 1 <= count <= 9 && GetVarTail(b, count) == Got(v, rest)
    ensures ReadOff(b, v, count, rest)
    decreases 9 - count
  {
    if count < 9 && b[0] >= 128 {
      var lo, hi := GetsMore(b, count, v, rest);
      VarTailOnly(b[1..], count + 1, hi, rest);
      DigitOnly(b, v, lo, hi, count, rest);
    } else {
      LastOnly(b, v, count, rest);
    }
  }

  lemma {:induction false} GetsMore(b: seq<Byte>, count: nat, v: nat, rest: seq<Byte>) returns (lo: nat, hi: nat)
    requires 1 <= count < 9 && b != [] && b[0] >= 128 && GetVarTail(b, count) == Got(v, rest)
    ensures GetVarTail(b[1..], count + 1) == Got(hi, rest) && lo < 128 && b[0] == 128 + lo && v == lo + 128 * hi
  {
    lo, hi := b[0] - 128, GetVarTail(b[1..], count + 1).value;
  }

  lemma {:induction false} LastOnly(b: seq<Byte>, v: nat, count: nat, rest: seq<Byte>)
    requires 1 <= count <= 9 && b != [] && (count == 9 || b[0] < 128) && GetVarTail(b, count) == Got(v, rest)
    ensures ReadOff(b, v, count, rest)
  {
    assert b == [b[0]] + b[1..];
  }

  lemma {:induction false} DigitOnly(b: seq<Byte>, v: nat, lo: nat, hi: nat, count: nat, rest: seq<Byte>)
    requires 1 <= count < 9 && b != [] && lo < 128 && b[0] == 128 + lo && v == lo + 128 * hi
    requires ReadOff(b[1..], hi, count + 1, rest)
    ensures ReadOff(b, v, count, rest)
  {
    if hi > 0 {
      VarTailDigits(lo, hi, count, []);
      VarTailDigits(lo, hi, count, rest);
      MoreOnly(b, v, hi, count, rest);
    } else {
      OneByteOnly(v, count);
      FewOnly(b, v, count, rest);
    }
  }

  lemma {:induction false} MoreOnly(b: seq<Byte>, v: nat, hi: nat, count: nat, rest: seq<Byte>)
    requires 1 <= count < 9 && b != [] && ReadOff(b[1..], hi, count + 1, rest)
    requires VarTail(v, count, []) == [b[0]] + VarTail(hi, count + 1, [])
    requires VarTail(v, count, rest) == [b[0]] + VarTail(hi, count + 1, rest)
    ensures ReadOff(b, v, count, rest)
  {
    OneByteMore(b, rest, VarTail(hi, count + 1, []), VarTail(hi, count + 1, rest));
  }

  /** A single byte is shorter than what was read with a digit to come. */
  lemma {:induction false} FewOnly(b: seq<Byte>, v: nat, count: nat, rest: seq<Byte>)
    requires 1 <= count < 9 && b != [] && ReadOff(b[1..], 0, count + 1, rest) && |VarTail(v, count, [])| == 1
    ensures ReadOff(b, v, count, rest)
  {
    OneByteOnly(0, count + 1);
  }

  lemma OneByteMore(b: seq<Byte>, rest: seq<Byte>, bare: seq<Byte>, full: seq<Byte>)
    requires b != [] && NoShorter(b[1..], rest, bare, full)
    ensures NoShorter(b, rest, [b[0]] + bare, [b[0]] + full)
  {
    assert b == [b[0]] + b[1..];
  }

  lemma {:induction false} OneByteOnly(v: nat, count: nat)
    requires 1 <= count <= 9 && v < 128
    ensures |VarTail(v, count, [])| == 1
  {
  }

  lemma {:induction false} VarTailDigits(lo: nat, hi: nat, count: nat, tail: seq<Byte>)
    requires 1 <= count < 9 && lo < 128 && hi > 0
    ensures VarTail(lo + 128 * hi, count, tail) == [128 + lo] + VarTail(hi, count + 1, tail)
    ensures |VarTail(lo + 128 * hi, count, [])| == 1 + |VarTail(hi, count + 1, [])|
  {
    DigitsOf(lo, hi, lo + 128 * hi);
  }

  lemma DigitsOf(lo: nat, hi: nat, v: nat)
    requires lo < 128 && v == lo + 128 * hi
    ensures v / 128 == hi && v % 128 == lo
  {
  }

  lemma U64Only(b: seq<Byte>)
    requires GetU64(b).Got?
    ensures var r := GetU64(b);
            && |b| - |r.rest| >= |VarBytes(r.value)|
            && (|b| - |r.rest| == |VarBytes(r.value)| ==> b == PutU64(r.value, r.rest))
  {
    VarTailOnly(b, 1, GetU64(b).value, GetU64(b).rest);
  }

  lemma SmallVarint(v: U64)
    ensures v < 128 ==> |VarBytes(v)| == 1
    ensures v < 16384 ==> |VarBytes(v)| <= 2
  {
    if 128 <= v < 16384 {
      assert VarTail(v, 1, []) == [128 + v % 128] + VarTail(v / 128, 2, []);
      assert VarTail(v / 128, 2, []) == [v / 128];
    }
  }

  // ---------------------------------------------------------------- buffers

  /** `after` is `before` with `bytes` written at `off`; nothing below `off` or from `max` on moved. */
  ghost predicate Wrote(before: seq<Byte>, after: seq<Byte>, off: nat, bytes: seq<Byte>, max: nat) {
    && |after| == |before|
    && off + |bytes| <= max <= |before|
    && after[..off] == before[..off]
    && after[off..off + |bytes|] == bytes
    && after[max..] == before[max..]
  }

  /** A failed write leaves everything outside the free part of the buffer alone. */
  ghost predicate Kept(before: seq<Byte>, after: seq<Byte>, off: nat, max: nat) {
    && |after| == |before|
    && (off <= |before| ==> after[..off] == before[..off])
    && (max <= |before| ==> after[max..] == before[max..])
  }

  lemma WroteByte(s0: seq<Byte>, s: seq<Byte>, off: nat, done: seq<Byte>, max: nat, b: Byte)
    requires Wrote(s0, s, off, done, max) && off + |done| < max
    ensures Wrote(s0, s[off + |done| := b], off, done + [b], max)
  {
    var p := off + |done|;
    assert s[p := b][off..p + 1] == s[off..p] + [b];
  }

  lemma WroteTwice(s0: seq<Byte>, s1: seq<Byte>, s2: seq<Byte>, off: nat, a: seq<Byte>, b: seq<Byte>, max: nat)
    requires Wrote(s0, s1, off, a, max)
    requires Wrote(s1, s2, off + |a|, b, max)
    ensures Wrote(s0, s2, off, a + b, max)
  {
    var mid := off + |a|;
    assert s2[..off] == s2[..mid][..off] == s1[..mid][..off] == s1[..off];
    assert s2[off..mid] == s2[..mid][off..] == s1[..mid][off..] == s1[off..mid];
    assert s2[off..mid + |b|] == s2[off..mid] + s2[mid..mid + |b|];
  }

  lemma KeptAfter(s0: seq<Byte>, s1: seq<Byte>, s2: seq<Byte>, off: nat, a: seq<Byte>, max: nat)
    requires Wrote(s0, s1, off, a, max)
    requires Kept(s1, s2, off + |a|, max)
    ensures Kept(s0, s2, off, max)
  {
    var mid := off + |a|;
    assert s2[..off] == s2[..mid][..off] == s1[..mid][..off] == s1[..off];
  }

  method PutByte(data: array<Byte>, p: nat, b: Byte, ghost before: seq<Byte>, ghost off: nat, ghost done: seq<Byte>,
                 ghost max: nat)
    requires Wrote(before, data[..], off, done, max) && p == off + |done| < max
    modifies data
    ensures Wrote(before, data[..], off, done + [b], max)
  {
    WroteByte(before, data[..], off, done, max, b);
    data[p] := b;
  }

  lemma ConcatAssoc(a: seq<Byte>, b: seq<Byte>, c: seq<Byte>)
    ensures a + (b + c) == (a + b) + c
  {
  }

  /** One turn of the encoding loop: the low seven bits go out with the continuation bit set. */
  method PutDigit(data: array<Byte>, p: nat, rest: nat, count: nat, ghost before: seq<Byte>, ghost off: nat,
                  ghost done: seq<Byte>, ghost max: nat)
    returns (hi: nat, ghost done': seq<Byte>)
    requires 1 <= count < 9 && 128 <= rest
    requires Wrote(before, data[..], off, done, max) && p == off + |done| < max
    modifies data
    ensures |done'| == |done| + 1
    ensures Wrote(before, data[..], off, done', max)
    ensures done + VarTail(rest, count, []) == done' + VarTail(hi, count + 1, [])
  {
    var b: Byte := 128 + rest % 128;
    PutByte(data, p, b, before, off, done, max);
    hi, done' := rest / 128, done + [b];
    ConcatAssoc(done, [b], VarTail(hi, count + 1, []));
  }

  /** encodeVarU64: succeeds exactly when the value fits between `pos` and `datasz`. */
  method EncodeVarU64(data: array<Byte>, datasz: nat, pos: int, v: U64) returns (ok: bool, end: int)
    requires datasz <= data.Length
    modifies data
    ensures ok <==> 0 <= pos && pos + |VarBytes(v)| <= datasz
    ensures ok ==> end == pos + |VarBytes(v)| && Wrote(old(data[..]), data[..], pos, VarBytes(v), datasz)
    ensures !ok ==> end == pos && (0 <= pos ==> Kept(old(data[..]), data[..], pos, datasz))
    ensures pos < 0 ==> data[..] == old(data[..])
  {
    if pos < 0 {
      return false, pos;
    }
    ok, end := EncodeFrom(data, datasz, pos, v, VarBytes(v));
  }

  method EncodeFrom(data: array<Byte>, datasz: nat, pos: nat, v: nat, ghost bytes: seq<Byte>)
    returns (ok: bool, end: int)
    requires datasz <= data.Length && bytes == VarTail(v, 1, [])
    modifies data
    ensures ok <==> pos + |bytes| <= datasz
    ensures ok ==> end == pos + |bytes| && Wrote(old(data[..]), data[..], pos, bytes, datasz)
    ensures !ok ==> end == pos && Kept(old(data[..]), data[..], pos, datasz)
  {
    ghost var before, done := data[..], [];
    var p, count, rest := pos, 1, v;
    while count < 9 && rest >= 128
      invariant 1 <= count <= 9 && p == pos + |done| && |done| == count - 1 && bytes == done + VarTail(rest, count, [])
      invariant Encoding(before, data[..], pos, done, datasz)
      decreases 9 - count
    {
      if p >= datasz {
        NoRoom(before, data[..], pos, done, datasz);
        return false, pos;
      }
      rest, done := PutDigit(data, p, rest, count, before, pos, done, datasz);
      p, count := p + 1, count + 1;
    }
    LastByte(rest, count);
    if p >= datasz {
      NoRoom(before, data[..], pos, done, datasz);
      return false, pos;
    }
    PutByte(data, p, rest % 256, before, pos, done, datasz);
    return true, pos + count;
  }

  /** Part of the way through a value that is written at `pos`. */
  ghost predicate Encoding(before: seq<Byte>, after: seq<Byte>, pos: nat, done: seq<Byte>, datasz: nat) {
    if pos + |done| <= datasz then Wrote(before, after, pos, done, datasz) else after == before
  }

  lemma NoRoom(before: seq<Byte>, after: seq<Byte>, pos: nat, done: seq<Byte>, datasz: nat)
    requires Encoding(before, after, pos, done, datasz)
    ensures Kept(before, after, pos, datasz)
  {
    if pos + |done| <= datasz { WroteKeeps(before, after, pos, done, datasz); }
  }

  lemma {:induction false} LastByte(rest: nat, count: nat)
    requires 1 <= count <= 9 && (count == 9 || rest < 128)
    ensures VarTail(rest, count, []) == [rest % 256]
  {
  }

  /** x << 7 * n */
  function Shl(x: nat, n: nat): nat { if n == 0 then x else 128 * Shl(x, n - 1) }

  lemma {:induction false} ShlAdds(x: nat, y: nat, n: nat)
    ensures Shl(x + 128 * y, n) == Shl(x, n) + Shl(y, n + 1)
    decreases n
  {
    if n > 0 {
      ShlAdds(x, y, n - 1);
    }
  }

  /** After `count - 1` bytes worth `val`, the rest of the range `b` completes the number `whole`. */
  ghost predicate Completes(whole: Read<nat>, b: seq<Byte>, count: nat, val: nat)
    requires 1 <= count <= 9
  {
    var r := GetVarTail(b, count);
    if r.Fail? then whole.Fail? else whole == Got(val + Shl(r.value, count - 1), r.rest)
  }

  lemma {:induction false} CompletesStep(whole: Read<nat>, b: seq<Byte>, count: nat, val: nat)
    requires 1 <= count < 9 && b != [] && b[0] >= 128
    requires Completes(whole, b, count, val)
    ensures Completes(whole, b[1..], count + 1, val + Shl(b[0] - 128, count - 1))
    ensures b[1..] == [] ==> whole.Fail?
  {
    var r := GetVarTail(b[1..], count + 1);
    if r.Got? {
      ShlAdds(b[0] - 128, r.value, count - 1);
    }
  }

  lemma {:induction false} CompletesLast(whole: Read<nat>, b: seq<Byte>, count: nat, val: nat)
    requires 1 <= count <= 9 && b != [] && (count == 9 || b[0] < 128)
    requires Completes(whole, b, count, val)
    ensures whole == Got(val + Shl(b[0], count - 1), b[1..])
  {
  }

  lemma {:induction false} CompletesFirst(b: seq<Byte>)
    ensures Completes(GetVarTail(b, 1), b, 1, 0)
    ensures GetU64(b) == (match GetVarTail(b, 1) { case Fail => Fail case Got(v, rest) => Got(v, rest) })
  {
    CapacityIsU64();
  }

  lemma DropOne(data: seq<Byte>, i: nat)
    requires i < |data|
    ensures data[i..][1..] == data[i + 1..]
  {
  }

  /** decodeVarU64: the scanning loop computes GetU64 of what is left between `pos` and the end. */
  method DecodeVarU64(data: seq<Byte>, pos: int) returns (ok: bool, res: int, end: int)
    ensures ok <==> 0 <= pos < |data| && GetU64(data[pos..]).Got?
    ensures ok ==> 0 <= pos <= end <= |data| && GetU64(data[pos..]) == Got(res, data[end..])
    ensures !ok ==> end == pos
  {
    if pos < 0 || pos >= |data| {
      return false, 0, pos;
    }
    var p, count := data[pos..], 1;
    ghost var whole := GetVarTail(p, 1);
    CompletesFirst(p);
    var val: nat := 0;
    while count < 9 && p[0] >= 128
      invariant 1 <= count <= 9 && p != [] && |p| == |data| - pos - count + 1
      invariant p == data[pos + count - 1..]
      invariant Completes(whole, p, count, val)
      decreases 9 - count
    {
      CompletesStep(whole, p, count, val);
      DropOne(data, pos + count - 1);
      val := val + Shl(p[0] - 128, count - 1);
      p, count := p[1..], count + 1;
      if p == [] {
        return false, 0, pos;
      }
    }
    CompletesLast(whole, p, count, val);
    DropOne(data, pos + count - 1);
    return true, val + Shl(p[0], count - 1), pos + count;
  }

  // ---------------------------------------------------------------- signed values

  /** encodeVarI64C refuses negatives (it crashes the process), so only naturals reach the wire. */
  type Wire = v: int | 0 <= v <= I64_MAX

  function Put(v: Wire, tail: seq<Byte>): seq<Byte> { PutU64(v, tail) }

  /** decodeInt64C */
  function Get(b: seq<Byte>): (r: Read<Wire>)
    ensures r.Got? ==> |r.rest| < |b|
  {
    match GetU64(b)
    case Fail => Fail
    case Got(v, rest) => if v > I64_MAX then Fail else Got(v, rest)
  }

  /** decodeInt32C */
  function Get32(b: seq<Byte>): (r: Read<Wire>)
    ensures r.Got? ==> r.value <= I32_MAX && |r.rest| < |b|
  {
    match Get(b)
    case Fail => Fail
    case Got(v, rest) => if v > I32_MAX then Fail else Got(v, rest)
  }

  lemma PutGet(v: Wire, tail: seq<Byte>)
    ensures Get(Put(v, tail)) == Got(v, tail)
    ensures v <= I32_MAX ==> Get32(Put(v, tail)) == Got(v, tail)
    ensures |Put(v, tail)| <= MAX_VARINT + |tail|
  {
    U64RoundTrip(v, tail);
  }

  /** Two's complement reading of a 64-bit word and back. */
  function ToUnsigned(v: I64): U64 { if v < 0 then v + U64_LIMIT else v }
  function ToSigned(u: U64): I64 { if u > I64_MAX then u - U64_LIMIT else u }
  /** Exclusive or with a word of all ones. */
  function Complement(u: U64): U64 { U64_LIMIT - 1 - u }

  function EncodeZigZag(v: I64): U64 {
    var twice: U64 := (2 * ToUnsigned(v)) % U64_LIMIT;
    if v < 0 then Complement(twice) else twice
  }

  function DecodeZigZag(u: U64): I64 {
    ToSigned(if u % 2 == 1 then Complement(u / 2) else u / 2)
  }

  /** ZigZag is a bijection that keeps small magnitudes small. */
  lemma ZigZagRoundTrip(v: I64, u: U64)
    ensures DecodeZigZag(EncodeZigZag(v)) == v
    ensures EncodeZigZag(DecodeZigZag(u)) == u
    ensures EncodeZigZag(v) == if v < 0 then -2 * v - 1 else 2 * v
  {
    if v < 0 {
      assert 2 * ToUnsigned(v) == 2 * v + U64_LIMIT + U64_LIMIT;
      assert (2 * v + U64_LIMIT + U64_LIMIT) % U64_LIMIT == 2 * v + U64_LIMIT;
    }
    assert u == 2 * (u / 2) + u % 2;
    var w := DecodeZigZag(u);
    if u % 2 == 1 {
      assert w == -1 - u / 2;
      assert ToUnsigned(w) == U64_LIMIT - 1 - u / 2;
      assert (2 * U64_LIMIT - 2 - 2 * (u / 2)) % U64_LIMIT == U64_LIMIT - 2 - 2 * (u / 2);
    }
  }

  function PutZigZag(v: I64, tail: seq<Byte>): seq<Byte> { PutU64(EncodeZigZag(v), tail) }

  /** decodeInt32: a ZigZag value that must fit 32 bits */
  function GetZigZag32(b: seq<Byte>): Read<I64> {
    match GetU64(b)
    case Fail => Fail
    case Got(u, rest) =>
      var v := DecodeZigZag(u);
      if v > I32_MAX || v < I32_MIN then Fail else Got(v, rest)
  }

  lemma ZigZagPutGet(v: I64, tail: seq<Byte>)
    ensures GetZigZag32(PutZigZag(v, tail)) ==
            if I32_MIN <= v <= I32_MAX then Got(v, tail) else Fail
    ensures |PutZigZag(v, tail)| <= MAX_VARINT + |tail|
  {
    U64RoundTrip(EncodeZigZag(v), tail);
    ZigZagRoundTrip(v, 0);
  }

  // ---------------------------------------------------------------- fixed-length integers

  /** 256^n */
  function Base(n: nat): nat { if n == 0 then 1 else 256 * Base(n - 1) }

  /** Little-endian, `n` bytes. */
  function PutFixed(v: nat, n: nat, tail: seq<Byte>): seq<Byte>
    requires v < Base(n)
  {
    if n == 0 then tail else [v % 256] + PutFixed(v / 256, n - 1, tail)
  }

  function FixedValue(b: seq<Byte>): nat {
    if b == [] then 0 else b[0] + 256 * FixedValue(b[1..])
  }

  /** decodeIntFixedLength: fails on a short range or when the sign bit is set. */
  function GetFixed(b: seq<Byte>, n: nat): (r: Read<nat>)
    requires n >= 1
    ensures r.Got? ==> |r.rest| + n == |b|
  {
    if |b| < n || 2 * FixedValue(b[..n]) >= Base(n) then Fail else Got(FixedValue(b[..n]), b[n..])
  }

  lemma {:induction false} FixedRoundTrip(v: nat, n: nat, tail: seq<Byte>)
    requires v < Base(n)
    ensures var b := PutFixed(v, n, tail);
            |b| == n + |tail| && b[n..] == tail && FixedValue(b[..n]) == v
    decreases n
  {
    if n > 0 {
      FixedRoundTrip(v / 256, n - 1, tail);
      var b := PutFixed(v, n, tail);
      var c := PutFixed(v / 256, n - 1, tail);
      assert b[1..] == c;
      assert b[..n][1..] == c[..n - 1];
      assert b[n..] == c[n - 1..];
    }
  }

  lemma {:induction false} FixedPutGet(v: nat, n: nat, tail: seq<Byte>)
    requires n >= 1 && v < Base(n)
    ensures GetFixed(PutFixed(v, n, tail), n) == if 2 * v < Base(n) then Got(v, tail) else Fail
  {
    FixedRoundTrip(v, n, tail);
  }

  // ---------------------------------------------------------------- strings

  function PutString(s: seq<Byte>, tail: seq<Byte>): seq<Byte>
    requires |s| < U64_LIMIT
  {
    PutU64(|s|, s + tail)
  }

  function GetString(b: seq<Byte>): (r: Read<seq<Byte>>)
    ensures r.Got? ==> |r.rest| < |b| && |r.value| <= |b|
  {
    match GetU64(b)
    case Fail => Fail
    case Got(n, rest) => if n > |rest| then Fail else Got(rest[..n], rest[n..])
  }

  lemma StringOnly(b: seq<Byte>)
    requires GetString(b).Got?
    ensures var r := GetString(b);
            && |r.value| < U64_LIMIT && |b| - |r.rest| >= |PutString(r.value, [])|
            && (|b| - |r.rest| == |PutString(r.value, [])| ==> b == PutString(r.value, r.rest))
  {
    U64Only(b);
    var n, rest := GetU64(b).value, GetU64(b).rest;
    assert rest == rest[..n] + rest[n..];
    PutU64Appends(n, rest[..n] + []);
  }

  lemma StringPutGet(s: seq<Byte>, tail: seq<Byte>)
    requires |s| < U64_LIMIT
    ensures GetString(PutString(s, tail)) == Got(s, tail)
    ensures |PutString(s, tail)| <= MAX_VARINT + |s| + |tail|
    ensures |s| < 16384 ==> |PutString(s, tail)| <= 2 + |s| + |tail|
  {
    U64RoundTrip(|s|, s + tail);
    SmallVarint(|s|);
    assert (s + tail)[..|s|] == s && (s + tail)[|s|..] == tail;
  }

  method Memcpy(dest: array<Byte>, p: nat, src: seq<Byte>, ghost max: nat)
    requires p + |src| <= max <= dest.Length
    modifies dest
    ensures Wrote(old(dest[..]), dest[..], p, src, max)
  {
    forall i | 0 <= i < |src| {
      dest[p + i] := src[i];
    }
  }

  lemma StringSplits(s: seq<Byte>)
    requires |s| < U64_LIMIT
    ensures PutString(s, []) == VarBytes(|s|) + s
  {
    PutU64Appends(|s|, s + []);
    assert s + [] == s;
  }

  lemma WroteKeeps(before: seq<Byte>, after: seq<Byte>, off: nat, bytes: seq<Byte>, max: nat)
    requires Wrote(before, after, off, bytes, max)
    ensures Kept(before, after, off, max)
  {
  }

  /** encodeString: succeeds exactly when length and text both fit. */
  method EncodeString(dest: array<Byte>, sz: nat, off: int, str: seq<Byte>) returns (ok: bool, end: int)
    requires sz <= dest.Length && |str| < U64_LIMIT
    modifies dest
    ensures ok <==> 0 <= off && off + |PutString(str, [])| <= sz
    ensures ok ==> end == off + |PutString(str, [])| && Wrote(old(dest[..]), dest[..], off, PutString(str, []), sz)
    ensures !ok && 0 <= off ==> Kept(old(dest[..]), dest[..], off, sz)
  {
    StringSplits(str);
    ok, end := EncodeVarU64(dest, sz, off, |str|);
    if ok {
      ok, end := PutText(dest, sz, off, end, str, old(dest[..]), VarBytes(|str|));
    }
  }

  /** The text behind its length. */
  method PutText(dest: array<Byte>, sz: nat, ghost off: nat, p: nat, str: seq<Byte>, ghost before: seq<Byte>,
                 ghost size: seq<Byte>) returns (ok: bool, end: int)
    requires sz <= dest.Length && p == off + |size| && Wrote(before, dest[..], off, size, sz)
    modifies dest
    ensures ok <==> p + |str| <= sz
    ensures ok ==> end == p + |str| && Wrote(before, dest[..], off, size + str, sz)
    ensures !ok ==> Kept(before, dest[..], off, sz)
  {
    if p + |str| > sz {
      WroteKeeps(before, dest[..], off, size, sz);
      return false, p;
    }
    ghost var mid := dest[..];
    Memcpy(dest, p, str, sz);
    WroteTwice(before, mid, dest[..], off, size, str, sz);
    return true, p + |str|;
  }
}
