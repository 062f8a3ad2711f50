/**
 The byte stream codec of `pkg/stream`: base-128 varints, zigzag signed varints,
 little-endian fixed widths, and a reader over a byte slice.
 */
module Stream {
  import opened Words

  const U64 := 0x1_0000_0000_0000_0000
  const U32 := 0x1_0000_0000

  // ----- the formats -----

  /** `binary.PutUvarint`. */
  function PutUvarint(x: nat): (b: Bytes)
    ensures |b| >= 1
  {
    if x < 128 then [ByteOf(x)] else [ByteOf(x % 128 + 128)] + PutUvarint(x / 128)
  }

  /** A value with the bytes it took, the end of the data inside it, or a value above 64 bits. */
  datatype Uvarint = Got(value: nat, used: nat) | Eof | Overflow

  /** The value that starts at the front of `s`, the `i`-th byte of its varint. */
  function GetUvarint(s: Bytes, i: nat): (r: Uvarint)
    ensures r.Got? ==> 1 <= r.used <= |s|
    decreases |s|
  {
    if |s| == 0 then Eof
    else if ToNat(s[0]) < 128 then
      if i > 9 || (i == 9 && ToNat(s[0]) > 1) then Overflow else Got(ToNat(s[0]), 1)
    else
      match GetUvarint(s[1..], i + 1)
      case Got(v, n) => Got(ToNat(s[0]) - 128 + 128 * v, n + 1)
      case Eof => Eof
      case Overflow => Overflow
  }

  lemma GetFirst(s: Bytes, i: nat)
    requires |s| > 0
    ensures ToNat(s[0]) < 128 ==>
              GetUvarint(s, i) == if i > 9 || (i == 9 && ToNat(s[0]) > 1) then Overflow else Got(ToNat(s[0]), 1)
    ensures ToNat(s[0]) >= 128 ==>
              match GetUvarint(s[1..], i + 1)
              case Got(v, n) => GetUvarint(s, i) == Got(ToNat(s[0]) - 128 + 128 * v, n + 1)
              case other => GetUvarint(s, i) == other
  {
  }

  /** 2^(64 - 7 i): what the bytes from the `i`-th on can still contribute. */
  function Room(i: nat): (n: nat)
    ensures n >= 1
    decreases if i >= 9 then 0 else 9 - i
  {
    if i >= 9 then 2 else 128 * Room(i + 1)
  }

  lemma RoomZero()
    ensures Room(0) == U64
  {
    assert Room(5) == 128 * (128 * (128 * (128 * 2)));
    assert Room(0) == 128 * (128 * (128 * (128 * (128 * Room(5)))));
  }

  lemma {:induction false} GetBound(s: Bytes, i: nat)
    ensures GetUvarint(s, i).Got? ==> i <= 9 && GetUvarint(s, i).value < Room(i)
    decreases |s|
  {
    hide ToNat;
    if |s| > 0 {
      ByteBound(s[0]);
      if ToNat(s[0]) >= 128 {
        GetBound(s[1..], i + 1);
      } else if i < 9 {
        RoomAtLeast(i);
      }
    }
  }

  lemma {:induction false} RoomAtLeast(i: nat)
    requires i < 9
    ensures Room(i) >= 256
    decreases 9 - i
  {
    if i < 8 {
      RoomAtLeast(i + 1);
    }
  }

  lemma {:induction false} UvarintInverseFrom(x: nat, i: nat, rest: Bytes)
    requires i <= 9 && x < Room(i)
    ensures GetUvarint(PutUvarint(x) + rest, i) == Got(x, |PutUvarint(x)|)
    decreases x
  {
    hide ToNat, ByteOf;
    if x < 128 {
      ByteValue(x);
      assert (PutUvarint(x) + rest)[0] == ByteOf(x);
    } else {
      var b, tail := ByteOf(x % 128 + 128), PutUvarint(x / 128) + rest;
      ByteValue(x % 128 + 128);
      assert PutUvarint(x) + rest == [b] + tail;
      assert i < 9;
      UvarintInverseFrom(x / 128, i + 1, rest);
      MoreBytes(b, tail, i);
    }
  }

  lemma MoreBytes(b: Byte, tail: Bytes, i: nat)
    requires ToNat(b) >= 128 && GetUvarint(tail, i + 1).Got?
    ensures var g := GetUvarint(tail, i + 1);
            GetUvarint([b] + tail, i) == Got(ToNat(b) - 128 + 128 * g.value, g.used + 1)
  {
    assert ([b] + tail)[1..] == tail;
  }

  /** Every `uint64` comes back, whatever follows it. */
  lemma UvarintInverse(x: nat, rest: Bytes)
    requires x < U64
    ensures GetUvarint(PutUvarint(x) + rest, 0) == Got(x, |PutUvarint(x)|)
  {
    RoomZero();
    UvarintInverseFrom(x, 0, rest);
  }

  /** The unsigned form of a signed varint: `v << 1`, complemented when negative. */
  function ZigZag(v: int): (u: nat)
  {
    if v >= 0 then 2 * v else -2 * v - 1
  }

  function UnZigZag(u: nat): (v: int)
  {
    if u % 2 == 0 then u / 2 else -(u / 2) - 1
  }

  predicate IsInt64(v: int) {
    -0x8000_0000_0000_0000 <= v < 0x8000_0000_0000_0000
  }

  predicate IsInt32(v: int) {
    -0x8000_0000 <= v < 0x8000_0000
  }

  /** Conversion to `int32`. */
  function Wrap32(v: int): (r: int)
    ensures IsInt32(r)
    ensures IsInt32(v) ==> r == v
  {
    (v + 0x8000_0000) % U32 - 0x8000_0000
  }

  /** Zig-zag numbers each width's signed values by its unsigned ones, one to one and onto. */
  lemma ZigZagRange(v: int)
    ensures UnZigZag(ZigZag(v)) == v && (v >= 0 ==> ZigZag(UnZigZag(v)) == v)
    ensures IsInt64(v) <==> ZigZag(v) < U64
    ensures IsInt32(v) <==> ZigZag(v) < U32
  {
  }

  /** `binary.PutVarint`. */
  function PutVarint(v: int): (b: Bytes)
    ensures |b| >= 1
  {
    PutUvarint(ZigZag(v))
  }

  /** Little-endian bytes of the low `8 * n` bits of a number. */
  function PutFixed(x: nat, n: nat): (b: Bytes)
    ensures |b| == n
  {
    if n == 0 then [] else [ByteOf(x % 256)] + PutFixed(x / 256, n - 1)
  }

  function GetFixed(b: Bytes): (x: nat)
  {
    if |b| == 0 then 0 else ToNat(b[0]) + 256 * GetFixed(b[1..])
  }

  function Pow256(n: nat): (p: nat)
    ensures p >= 1
  {
    if n == 0 then 1 else 256 * Pow256(n - 1)
  }

  lemma {:induction false} FixedInverse(x: nat, n: nat)
    requires x < Pow256(n)
    ensures GetFixed(PutFixed(x, n)) == x
  {
    hide ToNat, FromNat;
    if n > 0 {
      ByteValue(x % 256);
      assert PutFixed(x, n)[1..] == PutFixed(x / 256, n - 1);
      FixedInverse(x / 256, n - 1);
    }
  }

  // ----- sizes -----

  /** `UvariantSize`: the number of bytes `PutUvarint` writes. */
  method UvariantSize(value: nat) returns (n: nat)
    ensures n == |PutUvarint(value)|
  {
    var i := 0;
    var v := value;
    while v >= 128
      invariant |PutUvarint(value)| == i + |PutUvarint(v)|
    {
      v := v / 128;
      i := i + 1;
    }
    return i + 1;
  }

  /** `VariantSize`: the number of bytes `PutVarint` writes. */
  method VariantSize(value: int) returns (n: nat)
    ensures n == |PutVarint(value)|
  {
    var ux := if value < 0 then -2 * value - 1 else 2 * value;
    n := UvariantSize(ux);
  }

  // ----- the reader -----

  /** `i` bytes of the varint in front of `s` have gone into `x`; the next one counts `scale` times. */
  ghost predicate Reading(s: Bytes, i: nat, x: nat, scale: nat) {
    && i <= |s|
    && match GetUvarint(s[i..], i)
       case Got(y, n) => GetUvarint(s, 0) == Got(x + scale * y, n + i) && x < scale && scale * Room(i) == U64
       case other => GetUvarint(s, 0) == other
  }

  lemma ReadingStart(s: Bytes)
    ensures Reading(s, 0, 0, 1)
  {
    RoomZero();
    assert s[0..] == s;
  }

  lemma ReadingEnd(s: Bytes, i: nat, x: nat, scale: nat)
    requires Reading(s, i, x, scale) && i == |s|
    ensures GetUvarint(s, 0) == Eof
  {
  }

  lemma ReadingLast(s: Bytes, i: nat, x: nat, scale: nat)
    requires Reading(s, i, x, scale) && i < |s| && ToNat(s[i]) < 128
    ensures if i > 9 || (i == 9 && ToNat(s[i]) > 1) then GetUvarint(s, 0) == Overflow
            else GetUvarint(s, 0) == Got((x + scale * ToNat(s[i])) % U64, i + 1)
  {
    hide ToNat, Room, GetUvarint;
    GetBound(s[i..], i);
    assert s[i..][0] == s[i];
    GetFirst(s[i..], i);
    if GetUvarint(s[i..], i).Got? {
      LastByte(x, scale, ToNat(s[i]), Room(i));
    }
  }

  lemma ReadingStep(s: Bytes, i: nat, x: nat, scale: nat)
    requires Reading(s, i, x, scale) && i < |s| && ToNat(s[i]) >= 128
    ensures Reading(s, i + 1, (x + scale * (ToNat(s[i]) - 128)) % U64, scale * 128)
  {
    hide ToNat, Room, GetUvarint;
    assert s[i..][0] == s[i] && s[i..][1..] == s[i + 1..];
    GetFirst(s[i..], i);
    GetBound(s[i + 1..], i + 1);
    var g := GetUvarint(s[i + 1..], i + 1);
    if g.Got? {
      ByteBound(s[i]);
      RoomStep(i);
      NextByte(x, scale, ToNat(s[i]) - 128, Room(i + 1), g.value);
    }
  }

  class Reader {
    const original: Bytes
    var pos: nat
    var err: bool

    ghost predicate Valid()
      reads this
    {
      pos <= |original|
    }

    ghost function Rest(): (r: Bytes)
      requires Valid()
      reads this
    {
      original[pos..]
    }

    constructor (data: Bytes)
      ensures Valid() && original == data && pos == 0 && !err && Rest() == data
    {
      original, pos, err := data, 0, false;
    }

    predicate Empty()
      reads this
    {
      pos >= |original|
    }

    method ReadByte() returns (b: Byte)
      requires Valid()
      modifies this
      ensures Valid()
      ensures err == (old(Rest()) == [])
      ensures !err ==> b == old(Rest())[0] && Rest() == old(Rest())[1..]
    {
      if pos >= |original| {
        err := true;
        return Zeros(8);
      }
      b, err := original[pos], false;
      pos := pos + 1;
    }

    /**
     `ReadUvarint64`.  Each byte adds its seven low bits at the next position of a
     64-bit word; `scale` is two to the number of bits already read.
     */
    method ReadUvarint64() returns (v: nat)
      requires Valid()
      modifies this
      ensures Valid()
      ensures match GetUvarint(old(Rest()), 0)
              case Got(x, n) => !err && v == x && Rest() == old(Rest())[n..]
              case Eof => err && Rest() == [] && (old(Rest()) == [] ==> v == 0)
              case Overflow => err
    {
      hide Reading, ToNat, GetUvarint;
      var x: nat, scale: nat, i: nat := 0, 1, 0;
      ghost var s := Rest();
      ReadingStart(s);
      while true
        invariant Valid() && i <= |s| && pos == old(pos) + i && (i == 0 ==> x == 0)
        invariant Reading(s, i, x, scale)
        decreases |s| - i
      {
        if pos >= |original| {
          ReadingEnd(s, i, x, scale);
          err := true;
          return x;
        }
        var b := original[pos];
        assert s[i] == b;
        pos := pos + 1;
        if ToNat(b) < 128 {
          ReadingLast(s, i, x, scale);
          if i > 9 || (i == 9 && ToNat(b) > 1) {
            err := true;
            return x;
          }
          err := false;
          return (x + scale * ToNat(b)) % U64;
        }
        ReadingStep(s, i, x, scale);
        x := (x + scale * (ToNat(b) - 128)) % U64;
        scale := scale * 128;
        i := i + 1;
      }
    }

    method ReadVarint64() returns (v: int)
      requires Valid()
      modifies this
      ensures Valid()
      ensures match GetUvarint(old(Rest()), 0)
              case Got(x, n) => !err && v == UnZigZag(x) && Rest() == old(Rest())[n..]
              case Eof => err && Rest() == [] && (old(Rest()) == [] ==> v == 0)
              case Overflow => err
    {
      var ux: int := ReadUvarint64();
      v := if ux % 2 != 0 then -(ux / 2) - 1 else ux / 2;
    }

    method ReadUvarint32() returns (v: nat)
      requires Valid()
      modifies this
      ensures Valid()
      ensures match GetUvarint(old(Rest()), 0)
              case Got(x, n) => !err && v == x % U32 && Rest() == old(Rest())[n..]
              case Eof => err && Rest() == [] && (old(Rest()) == [] ==> v == 0)
              case Overflow => err
    {
      var x := ReadUvarint64();
      v := x % U32;
    }

    method ReadVarint32() returns (v: int)
      requires Valid()
      modifies this
      ensures Valid() && IsInt32(v)
      ensures match GetUvarint(old(Rest()), 0)
              case Got(x, n) => !err && v == Wrap32(UnZigZag(x)) && Rest() == old(Rest())[n..]
              case Eof => err && Rest() == [] && (old(Rest()) == [] ==> v == 0)
              case Overflow => err
    {
      var x := ReadVarint64();
      v := Wrap32(x);
    }

    /** A slice of the original; shorter, with an error, when the data ends before it does. */
    method ReadSlice(n: int) returns (b: Bytes)
      requires Valid()
      modifies this
      ensures Valid()
      ensures n < 0 ==> err && b == []
      ensures n >= 0 && old(err) ==> err && b == [] && Rest() == old(Rest())
      ensures n >= 0 && !old(err) && n <= |old(Rest())| ==>
                !err && b == old(Rest())[..n] && Rest() == old(Rest())[n..]
      ensures n >= 0 && !old(err) && n > |old(Rest())| ==> err && b == old(Rest()) && Rest() == []
    {
      if n < 0 {
        err := true;
        return [];
      }
      if err {
        return [];
      }
      var startPos, endPos := pos, pos + n;
      if endPos > |original| {
        endPos := |original|;
        err := true;
      }
      pos := endPos;
      return original[startPos..endPos];
    }
  }

  lemma RoomStep(i: nat)
    requires i < 9
    ensures Room(i) == 128 * Room(i + 1)
  {
  }

  lemma LastByte(x: nat, scale: nat, p: nat, room: nat)
    requires x < scale && scale * room == U64 && p < room
    ensures x + scale * p < U64 && (x + scale * p) % U64 == x + scale * p
  {
    assert scale * p <= scale * (room - 1);
  }

  lemma NextByte(x: nat, scale: nat, p: nat, room: nat, y: nat)
    requires x < scale && scale * (128 * room) == U64 && p < 128 && room >= 1
    ensures x + scale * p < scale * 128 <= U64 && (x + scale * p) % U64 == x + scale * p
    ensures (scale * 128) * room == U64
    ensures x + scale * (p + 128 * y) == (x + scale * p) + (scale * 128) * y
  {
    assert scale * p <= scale * 127;
    assert (scale * 128) * room == scale * (128 * room);
    assert scale * 128 <= (scale * 128) * room;
    Distribute(scale, p, 128 * y);
    assert scale * (128 * y) == (scale * 128) * y;
  }

  lemma Distribute(a: int, b: int, c: int)
    ensures a * (b + c) == a * b + a * c
  {
  }

  // ----- reading fields off a stream that starts with them -----

  lemma NothingToGet()
    ensures GetUvarint([], 0) == Eof
  {
  }

  /** A varint that is cut off ends inside itself. */
  lemma {:induction false} UvarintCut(x: nat, b: Bytes, i: nat)
    requires b < PutUvarint(x)
    ensures GetUvarint(b, i) == Eof
    decreases x
  {
    hide ToNat, ByteOf;
    if |b| > 0 {
      assert b[0] == PutUvarint(x)[0];
      ByteValue(x % 128 + 128);
      assert PutUvarint(x)[1..] == PutUvarint(x / 128);
      UvarintCut(x / 128, b[1..], i + 1);
    }
  }

  /** What is read from a stream that starts with a varint, whole or cut off. */
  lemma ReadFront(x: nat, rest: Bytes, b: Bytes)
    requires x < U64 && (b == PutUvarint(x) + rest || b < PutUvarint(x) + rest)
    ensures var n := |PutUvarint(x)|;
            if b < PutUvarint(x) then GetUvarint(b, 0) == Eof
            else
              && n <= |b| && GetUvarint(b, 0) == Got(x, n) && b == PutUvarint(x) + b[n..]
              && if b == PutUvarint(x) + rest then b[n..] == rest else b[n..] < rest
  {
    hide PutUvarint, GetUvarint;
    var a := PutUvarint(x);
    if |b| < |a| {
      assert b < a by { assert forall i :: 0 <= i < |b| ==> b[i] == (a + rest)[i]; }
      UvarintCut(x, b, 0);
    } else {
      assert b == a + b[|a|..] by { assert forall i :: 0 <= i < |a| ==> b[i] == (a + rest)[i]; }
      UvarintInverse(x, b[|a|..]);
      assert forall i :: |a| <= i < |b| ==> b[i] == (a + rest)[i];
    }
  }

  method ReadU(r: Reader, ghost x: nat, ghost rest: Bytes) returns (v: nat)
    requires r.Valid()
    modifies r
    ensures r.Valid()
    ensures x < U64 && old(r.Rest()) == PutUvarint(x) + rest ==> !r.err && v == x && r.Rest() == rest
    ensures x < U64 && old(r.Rest()) < PutUvarint(x) + rest ==>
              if old(r.Rest()) < PutUvarint(x) then r.err && r.Rest() == [] else !r.err && v == x && r.Rest() < rest
    ensures old(r.Rest()) == [] ==> r.err && r.Rest() == [] && v == 0
  {
    hide PutUvarint, GetUvarint;
    ghost var s := r.Rest();
    NothingToGet();
    v := r.ReadUvarint64();
    if x < U64 && (s == PutUvarint(x) + rest || s < PutUvarint(x) + rest) {
      ReadFront(x, rest, s);
    }
  }

  method ReadU32(r: Reader, ghost x: nat, ghost rest: Bytes) returns (v: nat)
    requires r.Valid()
    modifies r
    ensures r.Valid() && (!r.err ==> v < U32 && |r.Rest()| < |old(r.Rest())|)
    ensures x < U32 && old(r.Rest()) == PutUvarint(x) + rest ==> !r.err && v == x && r.Rest() == rest
    ensures x < U32 && old(r.Rest()) < PutUvarint(x) + rest ==>
              if old(r.Rest()) < PutUvarint(x) then r.err && r.Rest() == []
              else !r.err && v == x && r.Rest() < rest && old(r.Rest()) == PutUvarint(x) + r.Rest()
    ensures old(r.Rest()) == [] ==> r.err && r.Rest() == [] && v == 0
  {
    hide PutUvarint, GetUvarint;
    ghost var s := r.Rest();
    NothingToGet();
    v := r.ReadUvarint32();
    if x < U32 && (s == PutUvarint(x) + rest || s < PutUvarint(x) + rest) {
      ReadFront(x, rest, s);
    }
  }

  method ReadI64(r: Reader, ghost x: int, ghost rest: Bytes) returns (v: int)
    requires r.Valid()
    modifies r
    ensures r.Valid()
    ensures IsInt64(x) && old(r.Rest()) == PutVarint(x) + rest ==> !r.err && v == x && r.Rest() == rest
    ensures IsInt64(x) && old(r.Rest()) < PutVarint(x) + rest ==>
              if old(r.Rest()) < PutVarint(x) then r.err && r.Rest() == [] else !r.err && v == x && r.Rest() < rest
    ensures old(r.Rest()) == [] ==> r.err && r.Rest() == [] && v == 0
  {
    hide PutUvarint, GetUvarint;
    ghost var s := r.Rest();
    NothingToGet();
    v := r.ReadVarint64();
    if IsInt64(x) && (s == PutVarint(x) + rest || s < PutVarint(x) + rest) {
      ZigZagRange(x);
      ReadFront(ZigZag(x), rest, s);
    }
  }

  method ReadI32(r: Reader, ghost x: int, ghost rest: Bytes) returns (v: int)
    requires r.Valid()
    modifies r
    ensures r.Valid() && IsInt32(v)
    ensures IsInt32(x) && old(r.Rest()) == PutVarint(x) + rest ==> !r.err && v == x && r.Rest() == rest
    ensures IsInt32(x) && old(r.Rest()) < PutVarint(x) + rest ==>
              if old(r.Rest()) < PutVarint(x) then r.err && r.Rest() == [] else !r.err && v == x && r.Rest() < rest
    ensures old(r.Rest()) == [] ==> r.err && r.Rest() == [] && v == 0
  {
    hide PutUvarint, GetUvarint;
    ghost var s := r.Rest();
    NothingToGet();
    v := r.ReadVarint32();
    if IsInt32(x) && (s == PutVarint(x) + rest || s < PutVarint(x) + rest) {
      ZigZagRange(x);
      ReadFront(ZigZag(x), rest, s);
    }
  }
}
