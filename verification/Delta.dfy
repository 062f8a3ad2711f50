/**
 Delta bit packing of `int32` values: the first value, the smallest delta (or 0),
 and every delta, less that smallest one, in as many bits as the largest needs.
 Deltas are `previous - value` in wrapping 32-bit arithmetic.
 */
module DeltaPacking {
  import opened Words
  import opened BitIO
  import Stream

  const HALF := 0x8000_0000

  /** Adding a multiple of 2^32 changes nothing. */
  lemma WrapShift(a: int, k: int)
    ensures Stream.Wrap32(a + k * Stream.U32) == Stream.Wrap32(a)
  {
    var n := a + HALF;
    ModUnique(n + k * Stream.U32, Stream.U32, n / Stream.U32 + k, n % Stream.U32);
  }

  lemma WrapForm(a: int) returns (k: int)
    ensures Stream.Wrap32(a) == a + k * Stream.U32
  {
    k := -((a + HALF) / Stream.U32);
  }

  lemma WrapInner(a: int, b: int)
    ensures Stream.Wrap32(Stream.Wrap32(a) + b) == Stream.Wrap32(a + b)
    ensures Stream.Wrap32(b - Stream.Wrap32(a)) == Stream.Wrap32(b - a)
  {
    hide Stream.Wrap32;
    var k := WrapForm(a);
    WrapShift(a + b, k);
    WrapShift(b - a, -k);
  }

  /** Two numbers less than 2^32 apart wrap to the same value only when they are equal. */
  lemma WrapNear(a: int, b: int)
    requires -Stream.U32 < a - b < Stream.U32
    ensures Stream.Wrap32(a) == Stream.Wrap32(b) <==> a == b
  {
    var j := WrapForm(a);
    var k := WrapForm(b);
  }

  // ----- the packed deltas -----

  ghost predicate AllInt32(xs: seq<int>) {
    forall i :: 0 <= i < |xs| ==> Stream.IsInt32(xs[i])
  }

  function Deltas(first: int, vs: seq<int>): (ds: seq<int>)
    ensures |ds| == |vs|
    decreases |vs|
  {
    if |vs| == 0 then [] else [Stream.Wrap32(first - vs[0])] + Deltas(vs[0], vs[1..])
  }

  /** The values a list of deltas stands for. */
  function Values(prev: int, ds: seq<int>): (vs: seq<int>)
    ensures |vs| == |ds|
    decreases |ds|
  {
    if |ds| == 0 then [] else [Stream.Wrap32(prev - ds[0])] + Values(Stream.Wrap32(prev - ds[0]), ds[1..])
  }

  lemma {:induction false} ValuesOfDeltas(first: int, vs: seq<int>)
    requires AllInt32(vs)
    ensures Values(first, Deltas(first, vs)) == vs
    ensures AllInt32(Deltas(first, vs))
    decreases |vs|
  {
    hide Stream.Wrap32;
    if |vs| > 0 {
      var d := Stream.Wrap32(first - vs[0]);
      assert Deltas(first, vs)[1..] == Deltas(vs[0], vs[1..]);
      assert Stream.Wrap32(first - d) == vs[0] by { WrapBack(first, vs[0]); }
      ValuesOfDeltas(vs[0], vs[1..]);
    }
  }

  lemma WrapBack(a: int, v: int)
    requires Stream.IsInt32(v)
    ensures Stream.Wrap32(a - Stream.Wrap32(a - v)) == v
  {
    WrapInner(a - v, a);
  }

  /** What is packed for a delta. */
  function Excess(d: int, min: int): (e: int)
    ensures Stream.IsInt32(e)
  {
    Stream.Wrap32(d - min)
  }

  /** The low `width` bits of `uint64(excess)`. */
  function PackOne(e: int, width: nat): (b: Bits)
    ensures |b| == width
  {
    FromNat(e % Stream.U64, width)
  }

  function Pack(ds: seq<int>, min: int, width: nat): (b: Bits)
  {
    if |ds| == 0 then [] else PackOne(Excess(ds[0], min), width) + Pack(ds[1..], min, width)
  }

  lemma {:induction false} PackSnoc(ds: seq<int>, i: nat, min: int, width: nat)
    requires i < |ds|
    ensures Pack(ds[..i + 1], min, width) == Pack(ds[..i], min, width) + PackOne(Excess(ds[i], min), width)
  {
    hide PackOne, Excess;
    if i == 0 {
      assert ds[..1][1..] == [] && ds[..0] == [];
    } else {
      assert ds[..i + 1][1..] == ds[1..][..i] && ds[..i][1..] == ds[1..][..i - 1];
      PackSnoc(ds[1..], i - 1, min, width);
    }
  }

  /** One value of the decoder: `x` is what `ReadBits` returned. */
  function NextValue(prev: int, min: int, x: nat): (v: int)
    ensures Stream.IsInt32(v)
  {
    Stream.Wrap32(prev - Stream.Wrap32(Stream.Wrap32(x) + min))
  }

  function Unpack(prev: int, min: int, width: nat, n: nat, s: Bits): (vs: seq<int>)
    requires |s| >= n * width
    ensures |vs| == n
    decreases n
  {
    if n == 0 then []
    else
      MulStep(n, width);
      var v := NextValue(prev, min, ToNat(s[..width]));
      [v] + Unpack(v, min, width, n - 1, s[width..])
  }

  lemma MulStep(n: nat, width: nat)
    requires n > 0
    ensures n * width == width + (n - 1) * width
    ensures n * width >= width
  {
  }

  lemma PackedIs(e: int, width: nat)
    requires -HALF <= e < Pow2(width) && width <= 31
    ensures var x := ToNat(PackOne(e, width)); 0 <= x < HALF && (e >= 0 ==> x == e)
  {
    hide ToNat, FromNat, Pow2;
    ToNatFromNat(e % Stream.U64, width);
    Pow2Bound(width);
    if e >= 0 {
      SmallMod(e, Pow2(width));
    }
  }

  /** Packed and unpacked, a delta is the same exactly when its excess is not negative. */
  lemma OneIff(prev: int, d: int, min: int, width: nat)
    requires Stream.IsInt32(d) && width <= 31
    requires Excess(d, min) < Pow2(width)
    ensures NextValue(prev, min, ToNat(PackOne(Excess(d, min), width))) == Stream.Wrap32(prev - d)
        <==> Excess(d, min) >= 0
  {
    hide ToNat, FromNat, PackOne, Pow2, Stream.Wrap32;
    var e := Excess(d, min);
    var x := ToNat(PackOne(e, width));
    PackedIs(e, width);
    calc {
      NextValue(prev, min, x);
      { WrapInner(x, min); WrapInner(x + min, prev); }
      Stream.Wrap32(prev - (x + min));
    }
    var k := WrapForm(d - min);
    assert e == d - min + k * Stream.U32;
    WrapShift(prev - (x + min), k);
    assert prev - (x + min) + k * Stream.U32 == prev - d + (e - x);
    WrapNear(prev - d + (e - x), prev - d);
  }

  lemma {:induction false} Pow2Bound(width: nat)
    requires width <= 31
    ensures Pow2(width) <= HALF
  {
    Pow2ThirtyOne();
    Pow2Grow(width, 31);
  }

  lemma Pow2ThirtyOne()
    ensures Pow2(31) == HALF
  {
    Pow2Sixteen();
    Pow2Fifteen();
    Pow2Sum(16, 15);
  }

  lemma Pow2Sixteen()
    ensures Pow2(16) == 65536
  {
    Pow2Eight();
    Pow2Sum(8, 8);
  }

  lemma Pow2Fifteen()
    ensures Pow2(15) == 32768
  {
    Pow2Eight();
    assert Pow2(7) == 128;
    Pow2Sum(8, 7);
  }

  lemma {:induction false} Pow2Sum(a: nat, b: nat)
    ensures Pow2(a + b) == Pow2(a) * Pow2(b)
  {
    if b > 0 {
      Pow2Sum(a, b - 1);
      assert Pow2(a + b) == 2 * Pow2(a + (b - 1));
    }
  }

  lemma {:induction false} Pow2Grow(a: nat, b: nat)
    requires a <= b
    ensures Pow2(a) <= Pow2(b)
    decreases b
  {
    if a < b {
      Pow2Grow(a, b - 1);
    }
  }

  ghost predicate NoNegative(ds: seq<int>, min: int) {
    forall i :: 0 <= i < |ds| ==> Excess(ds[i], min) >= 0
  }

  /** The same for a whole list: it comes back exactly when no excess wrapped to a negative number. */
  lemma {:induction false} UnpackIff(prev: int, ds: seq<int>, min: int, width: nat, rest: Bits)
    requires width <= 31 && AllInt32(ds)
    requires forall i :: 0 <= i < |ds| ==> Excess(ds[i], min) < Pow2(width)
    ensures |Pack(ds, min, width)| == |ds| * width
    ensures Unpack(prev, min, width, |ds|, Pack(ds, min, width) + rest) == Values(prev, ds) <==> NoNegative(ds, min)
    decreases |ds|
  {
    hide Excess, PackOne, NextValue, ToNat, Stream.Wrap32;
    if |ds| > 0 {
      var head, tail := PackOne(Excess(ds[0], min), width), Pack(ds[1..], min, width);
      var s := Pack(ds, min, width) + rest;
      MulStep(|ds|, width);
      UnpackIff(Stream.Wrap32(prev - ds[0]), ds[1..], min, width, rest);
      assert s == head + (tail + rest);
      assert s[..width] == head && s[width..] == tail + rest;
      OneIff(prev, ds[0], min, width);
      assert NoNegative(ds, min) <==> Excess(ds[0], min) >= 0 && NoNegative(ds[1..], min) by {
        NoNegativeSplit(ds, min);
      }
      var v := NextValue(prev, min, ToNat(head));
      var u := Unpack(prev, min, width, |ds|, s);
      assert u == [v] + Unpack(v, min, width, |ds| - 1, tail + rest);
      assert u[0] == v && u[1..] == Unpack(v, min, width, |ds| - 1, tail + rest);
      var vs := Values(prev, ds);
      assert vs[0] == Stream.Wrap32(prev - ds[0]) && vs[1..] == Values(Stream.Wrap32(prev - ds[0]), ds[1..]);
      assert u == vs <==> u[0] == vs[0] && u[1..] == vs[1..];
    }
  }

  lemma NoNegativeSplit(ds: seq<int>, min: int)
    requires |ds| > 0
    ensures NoNegative(ds, min) <==> Excess(ds[0], min) >= 0 && NoNegative(ds[1..], min)
  {
    if Excess(ds[0], min) >= 0 && NoNegative(ds[1..], min) {
      forall i | 0 <= i < |ds|
        ensures Excess(ds[i], min) >= 0
      {
        assert i > 0 ==> ds[i] == ds[1..][i - 1];
      }
    }
  }

  // ----- the format -----

  function MinDelta(ds: seq<int>): (m: int)
    ensures m <= 0
    ensures AllInt32(ds) ==> Stream.IsInt32(m)
    ensures forall i :: 0 <= i < |ds| ==> m <= ds[i]
  {
    if |ds| == 0 then 0
    else
      var m := MinDelta(ds[..|ds| - 1]);
      if ds[|ds| - 1] < m then ds[|ds| - 1] else m
  }

  function MaxExcess(ds: seq<int>, min: int): (m: nat)
    ensures m < HALF
    ensures forall i :: 0 <= i < |ds| ==> Excess(ds[i], min) <= m
  {
    if |ds| == 0 then 0
    else
      var m := MaxExcess(ds[..|ds| - 1], min);
      var e := Excess(ds[|ds| - 1], min);
      if m < e then e else m
  }

  /** `32 - bits.LeadingZeros32(max)`. */
  function BitWidth(max: nat): (w: nat)
    ensures w <= 32
  {
    32 - LeadingZeros(FromNat(max, 32))
  }

  lemma BitWidthSpec(max: nat)
    requires max < HALF
    ensures BitWidth(max) <= 31 && max < Pow2(BitWidth(max))
  {
    hide FromNat, ToNat, Pow2;
    var b := FromNat(max, 32);
    var k := LeadingZeros(b);
    LeadingZerosSpec(b);
    Pow2ThirtyOne();
    assert Pow2(32) == 2 * HALF by { Pow2Sum(16, 16); Pow2Sixteen(); }
    ToNatFromNat(max, 32);
    SmallMod(max, Pow2(32));
    assert b == Zeros(k) + b[k..];
    ToNatExtend(b[k..], k);
    if k == 0 {
      TopBit(b);
    }
  }

  /** A word whose top bit is set is at least half its range. */
  lemma {:induction false} TopBit(b: Bits)
    requires |b| > 0 && b[0]
    ensures ToNat(b) >= Pow2(|b| - 1)
  {
    if |b| > 1 {
      TopBit(b[..|b| - 1]);
    }
  }

  function Width(ds: seq<int>): (w: nat)
    ensures w <= 32
  {
    BitWidth(MaxExcess(ds, MinDelta(ds)))
  }

  function Header(first: int, ds: seq<int>): (b: Bytes)
  {
    Stream.PutVarint(|ds|)
      + ([ByteOf(Width(ds))] + (Stream.PutVarint(Stream.ZigZag(MinDelta(ds))) + Stream.PutVarint(first)))
  }

  /** The bytes are the packing of a first value and its deltas, zero bits after them. */
  ghost predicate IsPacked(data: Bytes, first: int, ds: seq<int>) {
    var h := Header(first, ds);
    && |data| >= |h| && data[..|h|] == h
    && Pack(ds, MinDelta(ds), Width(ds)) <= Flat(data[|h|..])
  }

  /** The packed bytes can be counted in an `int32`. */
  ghost predicate Sound(buf: Bytes, first: int, ds: seq<int>) {
    Stream.IsInt32(first) && AllInt32(ds) && |ds| < HALF - 1 && IsPacked(buf, first, ds)
  }

  /** What the decoder makes of packed bytes. */
  ghost function Decoded(data: Bytes, first: int, ds: seq<int>): (vs: seq<int>)
    requires Sound(data, first, ds)
  {
    PackLength(ds);
    [first] + Unpack(first, MinDelta(ds), Width(ds), |ds|, Flat(data[|Header(first, ds)|..]))
  }

  lemma PackLength(ds: seq<int>)
    requires AllInt32(ds)
    ensures Width(ds) <= 31
    ensures |Pack(ds, MinDelta(ds), Width(ds))| == |ds| * Width(ds)
  {
    var min := MinDelta(ds);
    BitWidthSpec(MaxExcess(ds, min));
    UnpackIff(0, ds, min, Width(ds), []);
  }

  /** No excess wraps: every delta is less than 2^31 above the smallest one, or above zero. */
  ghost predicate Packable(vs: seq<int>) {
    |vs| > 0 ==>
      var ds := Deltas(vs[0], vs[1..]);
      forall i :: 0 <= i < |ds| ==> ds[i] - MinDelta(ds) < HALF
  }

  lemma ExcessSign(d: int, min: int)
    requires Stream.IsInt32(d) && Stream.IsInt32(min) && min <= d
    ensures Excess(d, min) >= 0 <==> d - min < HALF
  {
    WrapShift(d - min - Stream.U32, 1);
  }

  /** Decoding a packed list gives it back exactly when it is packable. */
  lemma DecodedIff(data: Bytes, vs: seq<int>)
    requires 0 < |vs| < HALF && AllInt32(vs)
    requires IsPacked(data, vs[0], Deltas(vs[0], vs[1..]))
    ensures Sound(data, vs[0], Deltas(vs[0], vs[1..]))
    ensures Decoded(data, vs[0], Deltas(vs[0], vs[1..])) == vs <==> Packable(vs)
  {
    hide Pack, Unpack, Flat, Header, Excess, Stream.Wrap32;
    var first, ds := vs[0], Deltas(vs[0], vs[1..]);
    var min, width := MinDelta(ds), Width(ds);
    ValuesOfDeltas(first, vs[1..]);
    BitWidthSpec(MaxExcess(ds, min));
    var s := Flat(data[|Header(first, ds)|..]);
    var rest := s[|Pack(ds, min, width)|..];
    assert s == Pack(ds, min, width) + rest;
    UnpackIff(first, ds, min, width, rest);
    forall i | 0 <= i < |ds|
      ensures Excess(ds[i], min) >= 0 <==> ds[i] - min < HALF
    {
      ExcessSign(ds[i], min);
    }
    assert NoNegative(ds, min) <==> Packable(vs);
    assert vs == [first] + vs[1..];
    var u := Unpack(first, min, width, |ds|, s);
    assert ([first] + u)[1..] == u;
  }

  /** A rise of one and then a fall of 2^31 - 1: the deltas lie 2^31 apart. */
  lemma WideDeltas()
    ensures AllInt32([0, 1, -2147483646]) && !Packable([0, 1, -2147483646])
  {
    var vs := [0, 1, -2147483646];
    assert vs[1..] == [1, -2147483646] && [1, -2147483646][1..] == [-2147483646];
    assert [-2147483646][1..] == [];
    var ds := Deltas(0, vs[1..]);
    assert ds == [-1, 2147483647];
    assert ds[1] - MinDelta(ds) >= HALF;
  }

  /** Offsets of a growing file are packable. */
  lemma {:induction false} AscendingPackable(vs: seq<int>)
    requires AllInt32(vs)
    requires forall i :: 0 <= i < |vs| ==> 0 <= vs[i]
    requires forall i, j :: 0 <= i < j < |vs| ==> vs[i] <= vs[j]
    ensures Packable(vs)
  {
    if |vs| > 0 {
      DeltasOfAscending(vs[0], vs[1..]);
      MinDeltaBound(Deltas(vs[0], vs[1..]));
    }
  }

  lemma {:induction false} DeltasOfAscending(first: int, vs: seq<int>)
    requires Stream.IsInt32(first) && AllInt32(vs) && 0 <= first
    requires forall i :: 0 <= i < |vs| ==> first <= vs[i]
    requires forall i, j :: 0 <= i < j < |vs| ==> vs[i] <= vs[j]
    ensures forall i :: 0 <= i < |vs| ==> -HALF < Deltas(first, vs)[i] <= 0
    decreases |vs|
  {
    if |vs| > 0 {
      DeltasOfAscending(vs[0], vs[1..]);
      var ds := Deltas(first, vs);
      assert ds[0] == first - vs[0];
      forall i | 0 <= i < |vs|
        ensures -HALF < ds[i] <= 0
      {
        assert i > 0 ==> ds[i] == Deltas(vs[0], vs[1..])[i - 1];
      }
    }
  }

  lemma {:induction false} MinDeltaBound(ds: seq<int>)
    requires forall i :: 0 <= i < |ds| ==> -HALF < ds[i] <= 0
    ensures -HALF < MinDelta(ds)
  {
    if |ds| > 0 {
      MinDeltaBound(ds[..|ds| - 1]);
    }
  }

  // ----- the encoder and decoder -----

  class DeltaBitPackingEncoder {
    var first: int
    var previous: int
    var minDelta: int
    var deltas: seq<int>
    const buffer: ByteBuffer
    const bw: Writer
    var hasFirst: bool

    ghost predicate Valid()
      reads this, bw
    {
      bw.w == buffer && bw.Partial() && bw.count == 8
    }

    /** The encoder has been given exactly the values `vs`. */
    ghost predicate Holds(vs: seq<int>)
      reads this
    {
      && hasFirst == (|vs| > 0)
      && (if |vs| == 0 then first == 0 && minDelta == 0 && deltas == []
          else first == vs[0] && previous == vs[|vs| - 1]
               && deltas == Deltas(vs[0], vs[1..]) && minDelta == MinDelta(deltas))
    }

    constructor ()
      ensures Valid() && Holds([]) && fresh(buffer) && fresh(bw)
    {
      var b := new ByteBuffer();
      var w := new Writer(b);
      first, previous, minDelta, deltas, hasFirst := 0, 0, 0, [], false;
      buffer, bw := b, w;
    }

    method Reset()
      requires bw.w == buffer
      modifies this, buffer, bw
      ensures Valid() && Holds([])
    {
      buffer.data := [];
      bw.Reset();
      hasFirst, first, previous, minDelta, deltas := false, 0, 0, 0, [];
    }

    method Add(v: int, ghost vs: seq<int>)
      requires Valid() && Holds(vs)
      modifies this
      ensures Valid() && Holds(vs + [v])
    {
      hide Stream.Wrap32, Deltas;
      if !hasFirst {
        hasFirst, first, previous := true, v, v;
        assert (vs + [v])[1..] == [];
        NoDeltas(v);
        return;
      }
      var delta := Stream.Wrap32(previous - v);
      DeltasSnoc(vs[0], vs[1..], v);
      assert (vs + [v])[1..] == vs[1..] + [v];
      assert (deltas + [delta])[..|deltas|] == deltas;
      deltas := deltas + [delta];
      if delta < minDelta {
        minDelta := delta;
      }
      previous := v;
    }

    /** The packed bytes; the bit writer is left flushed, so a second call needs a `Reset` first. */
    method Bytes() returns (data: Words.Bytes)
      requires Valid() && minDelta == MinDelta(deltas)
      modifies buffer, bw
      ensures IsPacked(data, first, deltas)
    {
      hide Pack, PackOne, Flat, FromNat, Excess, MinDelta, BitWidth, Stream.PutVarint;
      var max := MaxOf();
      var width := 32 - LeadingZeros(FromNat(max, 32));
      assert width == Width(deltas) by { WidthIs(deltas, max); }
      buffer.data := Stream.PutVarint(|deltas|)
        + ([ByteOf(width)] + (Stream.PutVarint(Stream.ZigZag(minDelta)) + Stream.PutVarint(first)));
      ghost var h := buffer.data;
      bw.Rebase();
      PackBits(width);
      ghost var bits := Pack(deltas, minDelta, width);
      bw.Flush();
      data := buffer.data;
      FlatPrefix(data, h, bits);
    }

    method MaxOf() returns (max: nat)
      ensures max == MaxExcess(deltas, minDelta)
    {
      hide Excess;
      max := 0;
      for i := 0 to |deltas|
        invariant max == MaxExcess(deltas[..i], minDelta)
      {
        assert deltas[..i + 1][..i] == deltas[..i];
        var deltaDelta := Excess(deltas[i], minDelta);
        if max < deltaDelta {
          max := deltaDelta;
        }
      }
      assert deltas[..|deltas|] == deltas;
    }

    method PackBits(width: nat)
      requires bw.Valid() && bw.w == buffer && width <= 32
      modifies bw, buffer
      ensures bw.Valid()
      ensures bw.stream == old(bw.stream) + Pack(deltas, minDelta, width)
    {
      hide Pack, FromNat, Flat, Excess;
      ghost var s0 := bw.stream;
      PackNone(minDelta, width, deltas[..0]);
      for i := 0 to |deltas|
        invariant bw.Valid()
        invariant bw.stream == s0 + Pack(deltas[..i], minDelta, width)
      {
        var deltaDelta := Excess(deltas[i], minDelta);
        LowFromNat(deltaDelta % Stream.U64, 64, width);
        PackSnoc(deltas, i, minDelta, width);
        bw.WriteBits(FromNat(deltaDelta % Stream.U64, 64), width);
        Assoc(s0, Pack(deltas[..i], minDelta, width), PackOne(deltaDelta, width));
      }
      assert deltas[..|deltas|] == deltas;
    }
  }

  lemma PackNone(min: int, width: nat, ds: seq<int>)
    requires ds == []
    ensures Pack(ds, min, width) == []
  {
  }

  lemma NoDeltas(v: int)
    ensures Deltas(v, []) == [] && MinDelta([]) == 0
  {
  }

  lemma WidthIs(ds: seq<int>, max: nat)
    requires max == MaxExcess(ds, MinDelta(ds))
    ensures Width(ds) == 32 - LeadingZeros(FromNat(max, 32))
  {
  }

  lemma {:induction false} DeltasSnoc(first: int, vs: seq<int>, v: int)
    ensures Deltas(first, vs + [v]) == Deltas(first, vs) + [Stream.Wrap32((if |vs| == 0 then first else vs[|vs| - 1]) - v)]
    decreases |vs|
  {
    hide Stream.Wrap32;
    if |vs| == 0 {
      assert (vs + [v])[1..] == [];
    } else {
      assert (vs + [v])[1..] == vs[1..] + [v];
      DeltasSnoc(vs[0], vs[1..], v);
    }
  }

  lemma {:induction false} FlatInjective(h: Bytes, data: Bytes)
    requires Flat(h) <= Flat(data)
    ensures h <= data
  {
    if |h| > 0 {
      assert Flat(h)[..8] == h[0] && Flat(data)[..8] == data[0];
      assert Flat(h)[8..] == Flat(h[1..]) && Flat(data)[8..] == Flat(data[1..]);
      FlatInjective(h[1..], data[1..]);
      assert Flat(h)[..8] == Flat(data)[..8];
      assert h == [h[0]] + h[1..] && data == [data[0]] + data[1..];
    }
  }

  /** The bytes after a prefix that the bit stream started with. */
  lemma FlatPrefix(data: Bytes, h: Bytes, bits: Bits)
    requires Flat(h) + bits <= Flat(data)
    ensures h <= data && bits <= Flat(data[|h|..])
  {
    hide Flat;
    assert Flat(h) <= Flat(data);
    FlatInjective(h, data);
    assert data == h + data[|h|..];
    FlatAppend(h, data[|h|..]);
    assert Flat(data)[|Flat(h)|..] == Flat(data[|h|..]);
  }

  method NextI32(sr: Stream.Reader, ghost x: int, ghost rest: Bytes) returns (v: int)
    requires sr.Valid()
    modifies sr
    ensures sr.Valid() && (Stream.IsInt32(x) && old(sr.Rest()) == Stream.PutVarint(x) + rest ==> v == x && sr.Rest() == rest)
  {
    hide Stream.PutVarint;
    v := Stream.ReadI32(sr, x, rest);
  }

  method NextI64(sr: Stream.Reader, ghost x: int, ghost rest: Bytes) returns (v: int)
    requires sr.Valid()
    modifies sr
    ensures sr.Valid() && (Stream.IsInt64(x) && old(sr.Rest()) == Stream.PutVarint(x) + rest ==> v == x && sr.Rest() == rest)
  {
    hide Stream.PutVarint;
    v := Stream.ReadI64(sr, x, rest);
  }

  /** The header fields and the bytes behind them. */
  method ReadHeader(buf: Bytes, ghost first: int, ghost ds: seq<int>)
    returns (n: int, width: nat, min: int, v: int, rest: Bytes)
    ensures Sound(buf, first, ds) ==>
              n == |ds| && width == Width(ds) && min == MinDelta(ds) && v == first && rest == buf[|Header(first, ds)|..]
  {
    hide Stream.PutVarint, Stream.PutUvarint, Flat, Pack, MinDelta, Width, Stream.Wrap32, ToNat, ByteOf, Stream.UnZigZag;
    ghost var good := Sound(buf, first, ds);
    ghost var m := MinDelta(ds);
    ghost var tail := if good then buf[|Header(first, ds)|..] else [];
    ghost var t3 := Stream.PutVarint(first) + tail;
    ghost var t2 := Stream.PutVarint(Stream.ZigZag(m)) + t3;
    ghost var t1 := [ByteOf(Width(ds))] + t2;
    if good {
      HeaderParts(buf, first, ds);
      ZigZagSmall(m);
    }
    var sr := new Stream.Reader(buf);
    n := NextI32(sr, |ds|, t1);
    assert t1[0] == ByteOf(Width(ds)) && t1[1..] == t2;
    var w := sr.ReadByte();
    width := ToNat(w);
    ByteValue(Width(ds));
    var z := NextI64(sr, Stream.ZigZag(m), t3);
    min := Stream.Wrap32(Stream.UnZigZag(z % Stream.U64));
    v := NextI32(sr, first, tail);
    rest := sr.original[sr.pos..];
  }

  lemma ZigZagSmall(m: int)
    requires Stream.IsInt32(m)
    ensures Stream.IsInt64(Stream.ZigZag(m)) && Stream.Wrap32(Stream.UnZigZag(Stream.ZigZag(m) % Stream.U64)) == m
  {
  }

  lemma HeaderParts(buf: Bytes, first: int, ds: seq<int>)
    requires IsPacked(buf, first, ds)
    ensures var tail := buf[|Header(first, ds)|..];
            buf == Stream.PutVarint(|ds|) + ([ByteOf(Width(ds))]
                     + (Stream.PutVarint(Stream.ZigZag(MinDelta(ds))) + (Stream.PutVarint(first) + tail)))
  {
    hide Stream.PutVarint, Flat, Pack, MinDelta, Width;
    assert buf == Header(first, ds) + buf[|Header(first, ds)|..];
  }

  /** Packed bytes hold enough bits for all deltas. */
  lemma SoundLengths(buf: Bytes, first: int, ds: seq<int>)
    requires Sound(buf, first, ds)
    ensures |ds| < HALF - 1 && Width(ds) <= 31 && |Header(first, ds)| <= |buf|
    ensures |Flat(buf[|Header(first, ds)|..])| >= |ds| * Width(ds)
  {
    hide Flat, Pack, Header, MinDelta, Width;
    PackLength(ds);
  }

  class DeltaBitPackingDecoder {
    const br: Reader
    const count: int
    var pos: int
    const width: nat
    var previous: int
    const minDelta: int

    /** The values still to come are `vs`. */
    ghost predicate Ahead(vs: seq<int>)
      reads this, br, br.buf
    {
      && br.Valid() && width <= 64 && pos == |vs| <= count
      && if pos == count && pos > 0 then
           && vs[0] == previous && |br.rest| >= (pos - 1) * width
           && vs[1..] == Unpack(previous, minDelta, width, pos - 1, br.rest)
         else |br.rest| >= pos * width && vs == Unpack(previous, minDelta, width, pos, br.rest)
    }

    /** Header, then the bit stream behind it. */
    constructor (buf: Bytes, ghost first: int, ghost ds: seq<int>)
      ensures br.Valid() && fresh(br) && fresh(br.buf)
      ensures Sound(buf, first, ds) ==> Ahead(Decoded(buf, first, ds))
    {
      var n, w, min, v, rest := ReadHeader(buf, first, ds);
      var b := new Buffer(rest);
      var r := new Reader(b);
      br := r;
      width, minDelta, previous := w, min, v;
      count := Stream.Wrap32(n + 1);
      pos := Stream.Wrap32(n + 1);
      new;
      hide Flat, Pack, Unpack, Stream.Wrap32, Header, Sound, MinDelta, Width, Ahead, Decoded;
      TailAll(rest);
      if Sound(buf, first, ds) {
        assert Stream.Wrap32(n + 1) == n + 1 by {
          SoundLengths(buf, first, ds);
        }
        AheadAtStart(buf, first, ds);
      }
    }

    lemma AheadAtStart(buf: Bytes, first: int, ds: seq<int>)
      requires Sound(buf, first, ds) && br.Valid() && |Header(first, ds)| <= |buf|
      requires br.rest == Flat(buf[|Header(first, ds)|..])
      requires pos == count == |ds| + 1 && width == Width(ds) && minDelta == MinDelta(ds) && previous == first
      ensures Ahead(Decoded(buf, first, ds))
    {
      hide Flat, Pack, Unpack, Header, Sound, MinDelta, Width;
      SoundLengths(buf, first, ds);
      var vs := Decoded(buf, first, ds);
      assert vs[1..] == Unpack(first, MinDelta(ds), Width(ds), |ds|, br.rest);
    }

    predicate HasNext()
      reads this
    {
      pos > 0
    }

    method Next(ghost vs: seq<int>) returns (v: int)
      requires br.Valid()
      modifies this, br, br.buf
      ensures br.Valid()
      ensures pos == old(pos) - 1
      ensures old(Ahead(vs)) && |vs| > 0 ==> v == vs[0] && Ahead(vs[1..])
    {
      hide Flat, Stream.Wrap32, ToNat, NextValue;
      if pos == count {
        pos := pos - 1;
        return previous;
      }
      ghost var s := br.rest;
      if Ahead(vs) && |vs| > 0 {
        MulStep(pos, width);
        HeldValue(s[..width]);
      }
      var x, _ := br.ReadBits(width);
      pos := pos - 1;
      v := NextValue(previous, minDelta, ToNat(x));
      previous := v;
    }
  }

  lemma HeldValue(b: Bits)
    requires |b| <= 64
    ensures ToNat(Held(b)) == ToNat(b)
  {
    ToNatExtend(b, 64 - |b|);
  }

  // ----- whole lists -----

  method EncodeList(vs: seq<int>) returns (data: Bytes)
    requires |vs| > 0
    ensures IsPacked(data, vs[0], Deltas(vs[0], vs[1..]))
  {
    hide Deltas, IsPacked, MinDelta;
    var enc := new DeltaBitPackingEncoder();
    for i := 0 to |vs|
      invariant enc.Valid() && fresh(enc) && fresh(enc.buffer) && fresh(enc.bw) && enc.Holds(vs[..i])
    {
      enc.Add(vs[i], vs[..i]);
      assert vs[..i + 1] == vs[..i] + [vs[i]];
    }
    assert vs[..|vs|] == vs;
    data := enc.Bytes();
  }

  /** Reads a packed list until `HasNext` says no; for malformed bytes nothing is promised. */
  method DecodeList(data: Bytes, ghost first: int, ghost ds: seq<int>) returns (vs: seq<int>)
    ensures Sound(data, first, ds) ==> vs == Decoded(data, first, ds)
  {
    hide Sound, Decoded, Unpack;
    var dec := new DeltaBitPackingDecoder(data, first, ds);
    ghost var good := Sound(data, first, ds);
    ghost var ahead := if good then Decoded(data, first, ds) else [];
    vs := [];
    while dec.HasNext()
      invariant dec.br.Valid() && fresh(dec) && fresh(dec.br) && fresh(dec.br.buf)
      invariant good ==> vs + ahead == Decoded(data, first, ds) && dec.Ahead(ahead)
      decreases dec.pos
    {
      var v := dec.Next(ahead);
      Advance(vs, ahead);
      vs := vs + [v];
      ahead := if good then ahead[1..] else [];
    }
  }

  /** One `Bytes` call on a fresh encoder decodes to the same list exactly when the list is packable. */
  method RoundTrip(vs: seq<int>) returns (out: seq<int>)
    requires 0 < |vs| < HALF && AllInt32(vs)
    ensures out == vs <==> Packable(vs)
  {
    hide Deltas, IsPacked, Sound, Decoded, Packable;
    var data := EncodeList(vs);
    DecodedIff(data, vs);
    out := DecodeList(data, vs[0], Deltas(vs[0], vs[1..]));
  }
}
