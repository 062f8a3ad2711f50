/**
 Unaligned bit input and output over bytes: `bit.Writer`, `bit.Reader` and the
 `bufioutil.Buffer` the reader pulls bytes from.  The writer is specified by the
 bits it has accepted, the reader by the bits it still has to deliver.
 */
module BitIO {
  import opened Words

  /** `bytes.Buffer` in its role as the writer's target; writes cannot fail. */
  class ByteBuffer {
    var data: Bytes

    constructor ()
      ensures data == []
    {
      data := [];
    }
  }

  /** A byte behind `k` bits of a partial byte: its front fills the byte, its end starts the next. */
  lemma ByteParts(b: Byte, x: Byte, k: nat)
    requires k < 8 && forall i :: k <= i < 8 ==> !b[i]
    ensures Or(b, Shr(x, k)) == b[..k] + x[..8 - k]
    ensures var y := Shl(x, 8 - k);
            y[..k] == x[8 - k..] && forall i :: k <= i < 8 ==> !y[i]
  {
  }

  lemma SplitByte(s: Bits, before: Bits, x: Byte, k: nat)
    requires k < 8
    ensures s + (before + x[..8 - k]) + x[8 - k..] == s + before + x
  {
  }

  class Writer {
    const w: ByteBuffer
    var b: Byte
    var count: nat  // free bits in b

    ghost var stream: Bits  // all bits accepted so far, those still in b included

    /** The partial byte holds `8 - count` bits, above zeros. */
    ghost predicate Partial()
      reads this
    {
      1 <= count <= 8 && forall i :: 8 - count <= i < 8 ==> !b[i]
    }

    ghost predicate Valid()
      reads this, w
    {
      Partial() && stream == Flat(w.data) + b[..8 - count]
    }

    /** Takes over a buffer that was changed behind the writer's back. */
    ghost method Rebase()
      requires Partial()
      modifies this`stream
      ensures Valid() && (count == 8 ==> stream == Flat(w.data))
    {
      stream := Flat(w.data) + b[..8 - count];
    }

    constructor (buffer: ByteBuffer)
      ensures Valid() && w == buffer && stream == Flat(w.data) && count == 8
    {
      w, b, count := buffer, Zeros(8), 8;
      stream := Flat(buffer.data);
    }

    method Reset()
      modifies this
      ensures Valid() && stream == Flat(w.data) && count == 8
    {
      b, count := Zeros(8), 8;
      stream := Flat(w.data);
    }

    method WriteBit(bit: bool)
      requires Valid()
      modifies this, w
      ensures Valid()
      ensures stream == old(stream) + [bit]
    {
      ghost var before := b[..8 - count];
      if bit {
        b := Or(b, Shl(One(8), count - 1));
      }
      assert b[..8 - count] == before;
      assert b[..9 - count] == before + [bit];
      count := count - 1;
      if count == 0 {
        FlatSnoc(w.data, b);
        assert b == before + [bit];
        w.data := w.data + [b];
        b, count := Zeros(8), 8;
      }
      stream := stream + [bit];
    }

    method WriteByte(x: Byte)
      requires Valid()
      modifies this, w
      ensures Valid() && count == old(count)
      ensures stream == old(stream) + x
    {
      hide Or, Shl, Shr;
      ghost var before := b[..8 - count];
      ByteParts(b, x, 8 - count);
      b := Or(b, Shr(x, 8 - count));
      FlatSnoc(w.data, b);
      w.data := w.data + [b];
      b := Shl(x, count);
      SplitByte(Flat(old(w.data)), before, x, 8 - count);
      stream := stream + x;
    }

    /** Writes the low `numBits` bits of `u`; a non-positive count writes none. */
    method WriteBits(u: Word, numBits: int)
      requires Valid()
      requires numBits <= 64
      modifies this, w
      ensures Valid()
      ensures stream == old(stream) + u[64 - (if numBits < 0 then 0 else numBits)..]
    {
      ghost var s0 := stream;
      ghost var all := u[64 - (if numBits < 0 then 0 else numBits)..];
      ghost var rest := all;
      var v: Word := Shl(u, 64 - numBits);
      assert v == Aligned(rest);
      var n := numBits;
      while n >= 8
        invariant Valid()
        invariant |rest| == (if n < 0 then 0 else n) && n <= 64
        invariant stream + rest == s0 + all
        invariant v == Aligned(rest)
      {
        AlignedShift(rest, 8);
        var byt: Byte := Shr(v, 56)[56..];
        assert byt == rest[..8];
        WriteByte(byt);
        v := Shl(v, 8);
        n := n - 8;
        assert rest == byt + rest[8..];
        rest := rest[8..];
      }
      while n > 0
        invariant Valid()
        invariant |rest| == (if n < 0 then 0 else n) && n <= 64
        invariant stream + rest == s0 + all
        invariant v == Aligned(rest)
      {
        AlignedShift(rest, 1);
        var bit := v[0];
        WriteBit(bit);
        v := Shl(v, 1);
        n := n - 1;
        assert rest == [bit] + rest[1..];
        rest := rest[1..];
      }
      assert stream == stream + rest;
    }

    /** Hands the partial byte over; the bits written so far come out padded with zeros. */
    method Flush()
      requires Valid()
      modifies w
      ensures |w.data| == (|old(stream)| + 7) / 8
      ensures Flat(w.data) == old(stream) + Zeros(8 * |w.data| - |old(stream)|)
    {
      if count != 8 {
        FlatSnoc(w.data, b);
        assert b == b[..8 - count] + Zeros(count);
        w.data := w.data + [b];
      }
    }
  }

  /** `bufioutil.Buffer`: a byte slice with a read position. */
  class Buffer {
    var buf: Bytes
    var index: nat

    constructor (e: Bytes)
      ensures buf == e && index == 0
    {
      buf, index := e, 0;
    }

    method SetBuf(s: Bytes)
      modifies this
      ensures buf == s && index == 0
    {
      buf, index := s, 0;
    }

    method SetIdx(idx: nat)
      modifies this
      ensures buf == old(buf) && index == idx
    {
      index := idx;
    }

    method GetByte() returns (b: Byte, err: bool)
      modifies this
      ensures buf == old(buf)
      ensures err == (old(index) >= |buf|)
      ensures err ==> b == Zeros(8) && index == old(index)
      ensures !err ==> b == buf[old(index)] && index == old(index) + 1
    {
      if index >= |buf| {
        return Zeros(8), true;
      }
      b, err := buf[index], false;
      index := index + 1;
    }
  }

  class Reader {
    const buf: Buffer
    var b: Byte
    var count: nat  // unread bits in b
    var err: bool   // index out of range

    ghost var rest: Bits  // the bits still to be delivered; none once a read has failed

    ghost predicate Valid()
      reads this, buf
    {
      && count < 8
      && (count > 0 ==> forall i :: count <= i < 8 ==> !b[i])
      && (err ==> buf.index >= |buf.buf|)
      && rest == if err then [] else b[..count] + Tail(buf.buf, buf.index)
    }

    constructor (buffer: Buffer)
      ensures Valid() && buf == buffer
      ensures rest == Tail(buf.buf, buf.index)
    {
      buf, b, count, err := buffer, Zeros(8), 0, false;
      rest := Tail(buffer.buf, buffer.index);
    }

    method Reset()
      modifies this
      ensures Valid()
      ensures rest == Tail(buf.buf, buf.index)
    {
      err, count, b := false, 0, Zeros(8);
      rest := Tail(buf.buf, buf.index);
    }

    method ReadBit() returns (bit: bool, e: bool)
      requires Valid()
      modifies this, buf
      ensures Valid() && buf.buf == old(buf.buf)
      ensures e == err == (old(rest) == [])
      ensures !e ==> bit == old(rest)[0] && rest == old(rest)[1..]
    {
      hide Tail, Flat, Shl;
      TailStep(buf.buf, buf.index);
      if count == 0 {
        b, err := buf.GetByte();
        count := 8;
      }
      ghost var top := b[..count];
      count := count - 1;
      var d := b[0];
      ShlOne(b, count + 1);
      b := Shl(b, 1);
      rest := if err then [] else rest[1..];
      return d, err;
    }

    method ReadByte() returns (x: Byte, e: bool)
      requires Valid()
      modifies this, buf
      ensures Valid() && buf.buf == old(buf.buf)
      ensures e == err == (|old(rest)| < 8)
      ensures !e ==> x == old(rest)[..8] && rest == old(rest)[8..]
    {
      hide Tail, Flat;
      TailStep(buf.buf, buf.index);
      if count == 0 {
        b, err := buf.GetByte();
        rest := if err then [] else rest[8..];
        return b, err;
      }
      x := b;
      b, err := buf.GetByte();
      SpliceByte(x, b, count, Tail(buf.buf, buf.index));
      x, b := Or(x, Shr(b, count)), Shl(b, 8 - count);
      rest := if err then [] else rest[8..];
      return x, err;
    }

    /** Reads `numBits` bits into the bottom of a word; bits beyond 64 leave at its top. */
    method ReadBits(numBits: int) returns (u: Word, e: bool)
      requires Valid()
      modifies this, buf
      ensures Valid() && buf.buf == old(buf.buf)
      ensures e == (|old(rest)| < numBits)
      ensures e ==> rest == []
      ensures !e ==> u == Held(old(rest)[..Count(numBits)]) && rest == old(rest)[Count(numBits)..]
    {
      ghost var r0 := rest;
      ghost var got: Bits := [];
      var n := numBits;
      u := Zeros(64);
      HeldNone();
      hide Held, PushBits, Flat, Tail;
      while n >= 8
        invariant Valid() && buf.buf == old(buf.buf)
        invariant got + rest == r0 && u == Held(got)
        invariant n + |got| == numBits && (n >= 0 || got == [])
      {
        ghost var before := rest;
        var byt, failed := ReadByte();
        if failed {
          return Zeros(64), true;
        }
        Regroup(got, before, byt);
        HeldAppend(got, byt);
        u := PushBits(u, byt);
        n := n - 8;
        got := got + byt;
      }
      while n > 0
        invariant Valid() && buf.buf == old(buf.buf)
        invariant got + rest == r0 && u == Held(got)
        invariant n + |got| == numBits && (n >= 0 || got == [])
      {
        ghost var before := rest;
        var bit, failed := ReadBit();
        if failed {
          return Zeros(64), true;
        }
        Regroup(got, before, [bit]);
        HeldAppend(got, [bit]);
        u := PushBits(u, [bit]);
        n := n - 1;
        got := got + [bit];
      }
      e := false;
    }
  }

  function Count(n: int): (c: nat)
  {
    if n < 0 then 0 else n
  }

  /** The `uint64` accumulator after the bits `x` went in at the bottom. */
  function Held(x: Bits): (w: Word)
  {
    if |x| <= 64 then Extend(x, 64) else x[|x| - 64..]
  }

  lemma HeldNone()
    ensures Held([]) == Zeros(64)
  {
  }

  /** `u << |x|`, then `x` in the freed bits. */
  function PushBits(u: Word, x: Bits): (r: Word)
    requires |x| <= 64
  {
    Or(Shl(u, |x|), Extend(x, 64))
  }

  lemma Regroup(got: Bits, rest: Bits, x: Bits)
    requires |x| <= |rest| && x == rest[..|x|]
    ensures got + rest == (got + x) + rest[|x|..]
  {
  }

  lemma HeldAppend(x: Bits, y: Bits)
    requires |y| <= 64
    ensures PushBits(Held(x), y) == Held(x + y)
  {
    var l, e := PushBits(Held(x), y), Held(x + y);
    forall i | 0 <= i < 64
      ensures l[i] == e[i]
    {
    }
  }

  /** The word whose top bits are `rest`. */
  function Aligned(rest: Bits): (w: Word)
    requires |rest| <= 64
  {
    rest + Zeros(64 - |rest|)
  }

  lemma AlignedShift(rest: Bits, k: nat)
    requires k <= |rest| <= 64
    ensures Shl(Aligned(rest), k) == Aligned(rest[k..])
    ensures k == 8 ==> Shr(Aligned(rest), 56)[56..] == rest[..8]
  {
  }

  /** The bits of the bytes from `index` on. */
  ghost function Tail(data: Bytes, index: nat): (t: Bits)
  {
    if index < |data| then Flat(data[index..]) else []
  }

  lemma TailStep(data: Bytes, index: nat)
    ensures index >= |data| ==> Tail(data, index) == []
    ensures index < |data| ==> Tail(data, index) == data[index] + Tail(data, index + 1)
  {
    if index < |data| {
      assert data[index..][1..] == data[index + 1..];
      assert index + 1 == |data| ==> data[index + 1..] == [];
    }
  }

  lemma ShlOne(b: Byte, n: nat)
    requires 1 <= n <= 8
    ensures Shl(b, 1)[..n - 1] == b[..n][1..]
  {
  }

  /** Reading across a byte boundary: the unread top of one byte, then bits of the next. */
  lemma SpliceByte(x: Byte, y: Byte, count: nat, rest: Bits)
    requires 0 < count < 8
    requires forall i :: count <= i < 8 ==> !x[i]
    ensures Or(x, Shr(y, count)) == (x[..count] + (y + rest))[..8]
    ensures Shl(y, 8 - count)[..count] + rest == (x[..count] + (y + rest))[8..]
  {
    assert Or(x, Shr(y, count)) == x[..count] + y[..8 - count];
    assert Shl(y, 8 - count)[..count] == y[8 - count..];
  }

  // ----- writing any mix of items and reading it back -----

  datatype Item = OneBit(bit: bool) | OneByte(byt: Byte) | SomeBits(u: Word, n: nat)

  /** What an item puts into the stream. */
  ghost function Payload(x: Item): (p: Bits)
    requires x.SomeBits? ==> x.n <= 64
  {
    match x
    case OneBit(b) => [b]
    case OneByte(y) => y
    case SomeBits(u, n) => u[64 - n..]
  }

  ghost predicate Writable(xs: seq<Item>) {
    forall i :: 0 <= i < |xs| && xs[i].SomeBits? ==> xs[i].n <= 64
  }

  ghost function Payloads(xs: seq<Item>): (p: Bits)
    requires Writable(xs)
  {
    if |xs| == 0 then [] else Payload(xs[0]) + Payloads(xs[1..])
  }

  lemma {:induction false} PayloadsSnoc(xs: seq<Item>, k: nat)
    requires Writable(xs) && k < |xs|
    ensures Payloads(xs[..k + 1]) == Payloads(xs[..k]) + Payload(xs[k])
  {
    if k == 0 {
      assert xs[..1][1..] == [] && xs[..0] == [];
    } else {
      assert xs[..k + 1][1..] == xs[1..][..k] && xs[..k][1..] == xs[1..][..k - 1];
      PayloadsSnoc(xs[1..], k - 1);
    }
  }

  /** A read returns the item with its word cut to the bits that were asked for. */
  function Cut(x: Item): (r: Item)
    requires x.SomeBits? ==> x.n <= 64
  {
    match x
    case SomeBits(u, n) => SomeBits(Extend(u[64 - n..], 64), n)
    case _ => x
  }

  method WriteItem(bw: Writer, x: Item)
    requires bw.Valid() && (x.SomeBits? ==> x.n <= 64)
    modifies bw, bw.w
    ensures bw.Valid() && bw.stream == old(bw.stream) + Payload(x)
  {
    match x
    case OneBit(b) => bw.WriteBit(b);
    case OneByte(y) => bw.WriteByte(y);
    case SomeBits(u, n) => bw.WriteBits(u, n);
  }

  method ReadItem(br: Reader, x: Item, ghost rest: Bits) returns (r: Item, e: bool)
    requires br.Valid() && (x.SomeBits? ==> x.n <= 64)
    requires br.rest == Payload(x) + rest
    modifies br, br.buf
    ensures br.Valid() && !e && r == Cut(x) && br.rest == rest
  {
    hide Flat, Tail;
    match x
    case OneBit(_) => {
      var b;
      b, e := br.ReadBit();
      r := OneBit(b);
    }
    case OneByte(_) => {
      var y;
      y, e := br.ReadByte();
      r := OneByte(y);
    }
    case SomeBits(_, n) => {
      var u;
      u, e := br.ReadBits(n);
      r := SomeBits(u, n);
    }
  }

  /**
   Bits, bytes and words written at any alignment and flushed are read back by
   the matching reads, without an out-of-range error.
   */
  method WriteThenRead(xs: seq<Item>) returns (rs: seq<Item>, failed: bool)
    requires Writable(xs)
    ensures !failed
    ensures |rs| == |xs| && forall i :: 0 <= i < |xs| ==> rs[i] == Cut(xs[i])
  {
    var data := WriteItems(xs);
    var br := OpenReader(data);
    rs, failed := ReadItems(br, xs, Zeros(8 * |data| - |Payloads(xs)|));
  }

  method OpenReader(data: Bytes) returns (br: Reader)
    ensures fresh(br) && fresh(br.buf)
    ensures br.Valid() && br.rest == Flat(data)
  {
    var buf := new Buffer(data);
    br := new Reader(buf);
    TailAll(data);
  }

  method ReadItems(br: Reader, xs: seq<Item>, ghost pad: Bits) returns (rs: seq<Item>, failed: bool)
    requires Writable(xs)
    requires br.Valid() && br.rest == Payloads(xs) + pad
    modifies br, br.buf
    decreases |xs|
    ensures !failed
    ensures |rs| == |xs| && forall i :: 0 <= i < |xs| ==> rs[i] == Cut(xs[i])
  {
    hide Flat, Payload, Cut;
    if |xs| == 0 {
      return [], false;
    }
    var r;
    r, failed := ReadItem(br, xs[0], Payloads(xs[1..]) + pad);
    rs, failed := ReadItems(br, xs[1..], pad);
    rs := [r] + rs;
  }

  method WriteItems(xs: seq<Item>) returns (data: Bytes)
    requires Writable(xs)
    ensures |Payloads(xs)| <= 8 * |data|
    ensures Flat(data) == Payloads(xs) + Zeros(8 * |data| - |Payloads(xs)|)
  {
    var w := new ByteBuffer();
    var bw := new Writer(w);
    for i := 0 to |xs|
      invariant bw.Valid() && fresh(bw) && fresh(bw.w)
      invariant bw.stream == Payloads(xs[..i])
    {
      PayloadsSnoc(xs, i);
      WriteItem(bw, xs[i]);
    }
    assert xs[..|xs|] == xs;
    bw.Flush();
    data := bw.w.data;
  }

  lemma TailAll(data: Bytes)
    ensures Tail(data, 0) == Flat(data)
  {
    assert |data| > 0 ==> data[0..] == data;
  }
}
