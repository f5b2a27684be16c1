/** Big-endian numbers and UTF-8 text inside byte strings. */
module ByteStrings {
  import opened Wrappers
  import opened KernelValues

  type Bytes8 = seq<U8>

  /** The first `width` bytes below a power of 256. */
  function Radix(width: nat): (n: nat)
    ensures n > 0
  {
    if width == 0 then 1 else 256 * Radix(width - 1)
  }

  function BigEndian(n: nat, width: nat): (b: Bytes8)
    ensures |b| == width
  {
    if width == 0 then [] else BigEndian(n / 256, width - 1) + [n % 256]
  }

  function FromBigEndian(b: Bytes8): (n: nat)
  {
    if b == [] then 0 else FromBigEndian(b[..|b| - 1]) * 256 + b[|b| - 1]
  }

  lemma {:induction false} BigEndianRoundTrip(n: nat, width: nat)
    requires n < Radix(width)
    ensures FromBigEndian(BigEndian(n, width)) == n
  {
    if width > 0 {
      BigEndianRoundTrip(n / 256, width - 1);
      var b := BigEndian(n, width);
      assert b[..|b| - 1] == BigEndian(n / 256, width - 1);
    }
  }

  lemma {:induction false} BytesRoundTrip(b: Bytes8)
    ensures BigEndian(FromBigEndian(b), |b|) == b
  {
    if b != [] {
      BytesRoundTrip(b[..|b| - 1]);
    }
  }

  lemma {:induction false} FromBigEndianBound(b: Bytes8)
    ensures FromBigEndian(b) < Radix(|b|)
  {
    if b != [] {
      FromBigEndianBound(b[..|b| - 1]);
    }
  }

  lemma Radixes()
    ensures Radix(1) == 256 && Radix(4) == U32_MAX + 1 && Radix(8) == U64_MAX + 1 && Radix(16) == U128_MAX + 1
  {
    assert Radix(0) == 1;
    assert Radix(1) == 256;
    assert Radix(2) == 256 * Radix(1);
    assert Radix(3) == 256 * Radix(2);
    assert Radix(4) == 256 * Radix(3);
    assert Radix(5) == 256 * Radix(4);
    assert Radix(6) == 256 * Radix(5);
    assert Radix(7) == 256 * Radix(6);
    assert Radix(8) == 256 * Radix(7);
    assert Radix(9) == 256 * Radix(8);
    assert Radix(10) == 256 * Radix(9);
    assert Radix(11) == 256 * Radix(10);
    assert Radix(12) == 256 * Radix(11);
    assert Radix(13) == 256 * Radix(12);
    assert Radix(14) == 256 * Radix(13);
    assert Radix(15) == 256 * Radix(14);
  }

  type Digest = d: Bytes8 | |d| == 32 witness BigEndian(0, 32)

  /** Two's complement. */
  function Unsigned(i: I64): (n: U64)
  {
    if i < 0 then i + U64_MAX + 1 else i
  }

  function Signed(n: U64): (i: I64)
    ensures Unsigned(i) == n
  {
    if n > I64_MAX then n - U64_MAX - 1 else n
  }

  lemma SignedRoundTrip(i: I64)
    ensures Signed(Unsigned(i)) == i
  {
  }

  // ----- UTF-8 (table 3-7 of the Unicode standard)

  predicate Continuation(b: U8)
  {
    0x80 <= b <= 0xBF
  }

  predicate ValidUtf8(s: Bytes8)
  {
    if s == [] then true
    else if s[0] <= 0x7F then ValidUtf8(s[1..])
    else if 0xC2 <= s[0] <= 0xDF then |s| >= 2 && Continuation(s[1]) && ValidUtf8(s[2..])
    else if 0xE0 <= s[0] <= 0xEF then
      && |s| >= 3 && Continuation(s[1]) && Continuation(s[2])
      && (s[0] == 0xE0 ==> s[1] >= 0xA0) && (s[0] == 0xED ==> s[1] <= 0x9F)
      && ValidUtf8(s[3..])
    else if 0xF0 <= s[0] <= 0xF4 then
      && |s| >= 4 && Continuation(s[1]) && Continuation(s[2]) && Continuation(s[3])
      && (s[0] == 0xF0 ==> s[1] >= 0x90) && (s[0] == 0xF4 ==> s[1] <= 0x8F)
      && ValidUtf8(s[4..])
    else false
  }

  // ----- reading from the front

  datatype Parsed<+T> = Parsed(value: T, rest: Bytes8)

  /** The first `n` bytes and what follows them, if there are that many. */
  function Take(b: Bytes8, n: nat): (p: Option<Parsed<Bytes8>>)
    ensures p.Some? <==> n <= |b|
    ensures p.Some? ==> b == p.value.value + p.value.rest && |p.value.value| == n
  {
    if n <= |b| then Some(Parsed(b[..n], b[n..])) else None
  }

  lemma TakeBack(a: Bytes8, rest: Bytes8)
    ensures Take(a + rest, |a|) == Some(Parsed(a, rest))
  {
  }

  /** A number of `width` bytes. */
  function TakeNumber(b: Bytes8, width: nat): (p: Option<Parsed<nat>>)
    ensures p.Some? <==> width <= |b|
    ensures p.Some? ==> p.value.value < Radix(width) && p.value.rest == b[width..]
  {
    if width <= |b| then
      FromBigEndianBound(b[..width]);
      Some(Parsed(FromBigEndian(b[..width]), b[width..]))
    else None
  }

  lemma TakeNumberBack(n: nat, width: nat, rest: Bytes8)
    requires n < Radix(width)
    ensures TakeNumber(BigEndian(n, width) + rest, width) == Some(Parsed(n, rest))
  {
    BigEndianRoundTrip(n, width);
    assert (BigEndian(n, width) + rest)[..width] == BigEndian(n, width);
  }

  // Numbers of the widths in use, written before and read from the front of a tail.

  function PutByte(n: U8, tail: Bytes8): (b: Bytes8)
    ensures |b| == |tail| + 1
  {
    [n] + tail
  }

  function TakeByte(b: Bytes8): (p: Option<Parsed<U8>>)
    ensures p.Some? <==> b != []
  {
    if b == [] then None else Some(Parsed(b[0], b[1..]))
  }

  lemma ByteBack(n: U8, tail: Bytes8)
    ensures TakeByte(PutByte(n, tail)) == Some(Parsed(n, tail))
  {
    assert PutByte(n, tail)[1..] == tail;
  }

  function PutU32(n: U32, tail: Bytes8): (b: Bytes8)
    ensures |b| == |tail| + 4
  {
    BigEndian(n, 4) + tail
  }

  function TakeU32(b: Bytes8): (p: Option<Parsed<U32>>)
    ensures p.Some? <==> |b| >= 4
  {
    Radixes();
    match TakeNumber(b, 4) case None => None case Some(t) => Some(Parsed(t.value, t.rest))
  }

  lemma U32Back(n: U32, tail: Bytes8)
    ensures TakeU32(PutU32(n, tail)) == Some(Parsed(n, tail))
  {
    Radixes();
    TakeNumberBack(n, 4, tail);
  }

  function PutU64(n: U64, tail: Bytes8): (b: Bytes8)
    ensures |b| == |tail| + 8
  {
    BigEndian(n, 8) + tail
  }

  function TakeU64(b: Bytes8): (p: Option<Parsed<U64>>)
    ensures p.Some? <==> |b| >= 8
  {
    Radixes();
    match TakeNumber(b, 8) case None => None case Some(t) => Some(Parsed(t.value, t.rest))
  }

  lemma U64Back(n: U64, tail: Bytes8)
    ensures TakeU64(PutU64(n, tail)) == Some(Parsed(n, tail))
  {
    Radixes();
    TakeNumberBack(n, 8, tail);
  }

  function PutI64(i: I64, tail: Bytes8): (b: Bytes8)
    ensures |b| == |tail| + 8
  {
    PutU64(Unsigned(i), tail)
  }

  function TakeI64(b: Bytes8): (p: Option<Parsed<I64>>)
    ensures p.Some? <==> |b| >= 8
  {
    match TakeU64(b) case None => None case Some(t) => Some(Parsed(Signed(t.value), t.rest))
  }

  lemma I64Back(i: I64, tail: Bytes8)
    ensures TakeI64(PutI64(i, tail)) == Some(Parsed(i, tail))
  {
    U64Back(Unsigned(i), tail);
    SignedRoundTrip(i);
  }

  function PutU128(n: U128, tail: Bytes8): (b: Bytes8)
    ensures |b| == |tail| + 16
  {
    BigEndian(n, 16) + tail
  }

  function TakeU128(b: Bytes8): (p: Option<Parsed<U128>>)
    ensures p.Some? <==> |b| >= 16
  {
    Radixes();
    match TakeNumber(b, 16) case None => None case Some(t) => Some(Parsed(t.value, t.rest))
  }

  lemma U128Back(n: U128, tail: Bytes8)
    ensures TakeU128(PutU128(n, tail)) == Some(Parsed(n, tail))
  {
    Radixes();
    TakeNumberBack(n, 16, tail);
  }
}
