/**
 The time series format of `pkg/encoding/tsd.go`: a start slot and a slot count,
 sixteen bits each, then one bit stream in which the presence bit of every slot
 is followed, when the slot has a value, by that value's XOR code.
 */
module Tsd {
  import opened Options
  import opened Words
  import opened BitIO
  import opened XorCodec

  type Slot = Option<Word>

  // ----- the format -----

  function SlotBits(e: Enc, x: Slot): (b: Bits)
  {
    match x
    case None => [false]
    case Some(v) => [true] + EncBits(e, v)
  }

  function SlotNext(e: Enc, x: Slot): (e': Enc)
  {
    match x
    case None => e
    case Some(v) => EncNext(e, v)
  }

  function SlotsBits(e: Enc, xs: seq<Slot>): (b: Bits)
    decreases |xs|
  {
    if |xs| == 0 then [] else SlotBits(e, xs[0]) + SlotsBits(SlotNext(e, xs[0]), xs[1..])
  }

  function SlotsNext(e: Enc, xs: seq<Slot>): (e': Enc)
    decreases |xs|
  {
    if |xs| == 0 then e else SlotsNext(SlotNext(e, xs[0]), xs[1..])
  }

  lemma {:induction false} SlotsSnoc(e: Enc, xs: seq<Slot>, x: Slot)
    ensures SlotsBits(e, xs + [x]) == SlotsBits(e, xs) + SlotBits(SlotsNext(e, xs), x)
    ensures SlotsNext(e, xs + [x]) == SlotNext(SlotsNext(e, xs), x)
    decreases |xs|
  {
    hide SlotBits, SlotNext;
    if |xs| == 0 {
      assert (xs + [x])[1..] == [];
    } else {
      assert (xs + [x])[1..] == xs[1..] + [x];
      SlotsSnoc(SlotNext(e, xs[0]), xs[1..], x);
    }
  }

  /** Decoding `n` slots; `None` when the stream ends too early. */
  function DecSlots(d: Dec, n: nat, s: Bits): (r: Option<seq<Slot>>)
    requires DecValid(d)
    decreases n
  {
    if n == 0 then Some([])
    else if |s| == 0 then None
    else if !s[0] then Prepend(None, DecSlots(d, n - 1, s[1..]))
    else
      match DecStep(d, s[1..])
      case None => None
      case Some((d', s')) => Prepend(Some(d'.val), DecSlots(d', n - 1, s'))
  }

  function Prepend<T>(x: T, r: Option<seq<T>>): (r': Option<seq<T>>)
  {
    match r
    case None => None
    case Some(xs) => Some([x] + xs)
  }

  /** Any number of the encoded slots decode to themselves, whatever follows them. */
  lemma {:induction false} SlotsInverse(e: Enc, d: Dec, xs: seq<Slot>, n: nat, rest: Bits)
    requires Sync(e, d) && n <= |xs|
    ensures DecSlots(d, n, SlotsBits(e, xs) + rest) == Some(xs[..n])
    decreases n
  {
    hide EncBits, EncNext, DecStep, DecValid;
    if n > 0 {
      var tail := SlotsBits(SlotNext(e, xs[0]), xs[1..]) + rest;
      assert SlotsBits(e, xs) + rest == SlotBits(e, xs[0]) + tail;
      assert xs[..n] == [xs[0]] + xs[1..][..n - 1];
      match xs[0]
      case None =>
        assert (SlotsBits(e, xs) + rest)[1..] == tail;
        SlotsInverse(e, d, xs[1..], n - 1, rest);
      case Some(v) =>
        assert (SlotsBits(e, xs) + rest)[1..] == EncBits(e, v) + tail;
        StepInverse(e, d, v, tail);
        SlotsInverse(EncNext(e, v), DecStep(d, EncBits(e, v) + tail).value.0, xs[1..], n - 1, rest);
    }
  }

  const U16 := 65536

  /** `LittleEndian.PutUint16` of the low sixteen bits of a number. */
  function PutU16(n: int): (b: Bytes)
    ensures |b| == 2
  {
    [FromNat(n % U16 % 256, 8), FromNat(n % U16 / 256, 8)]
  }

  function GetU16(lo: Byte, hi: Byte): (n: nat)
    ensures n < U16
  {
    assert Pow2(8) == 256 by { Pow2Eight(); }
    ToNat(lo) + 256 * ToNat(hi)
  }

  lemma U16Inverse(n: int)
    ensures GetU16(PutU16(n)[0], PutU16(n)[1]) == n % U16
  {
    hide FromNat, ToNat, Pow2;
    Pow2Eight();
    ToNatFromNat(n % U16 % 256, 8);
    ToNatFromNat(n % U16 / 256, 8);
  }

  function DecodedStart(data: Bytes): (n: nat)
    requires |data| >= 4
    ensures n < U16
  {
    GetU16(data[0], data[1])
  }

  function DecodedCount(data: Bytes): (n: nat)
    requires |data| >= 4
    ensures n < U16
  {
    GetU16(data[2], data[3])
  }

  /**
   The bytes hold exactly these slots from this start slot on, sixteen bits of each number
   kept.  An encoder that was reset starts in another state `e` and counts `kept` slots more.
   */
  ghost predicate IsTsd(data: Bytes, start: int, xs: seq<Slot>, e: Enc := NewEnc, kept: nat := 0)
  {
    && |data| >= 4
    && DecodedStart(data) == start % U16
    && DecodedCount(data) == (kept + |xs|) % U16
    && SlotsBits(e, xs) <= Flat(data[4..])
  }

  function DecodedSlots(data: Bytes): (r: Option<seq<Slot>>)
    requires |data| >= 4
  {
    DecSlots(NewDec, DecodedCount(data), Flat(data[4..]))
  }

  /**
   Decoding what was encoded, for every start and every list of slots: the start
   and the number of slots come back modulo 2^16, the slots themselves exactly.
   */
  lemma DecodeEncoded(data: Bytes, start: int, xs: seq<Slot>)
    requires IsTsd(data, start, xs)
    ensures DecodedStart(data) == start % U16
    ensures DecodedSlots(data) == Some(xs[..|xs| % U16])
  {
    hide SlotsBits, DecSlots, Flat, Sync;
    NewInSync();
    var s := Flat(data[4..]);
    var rest := s[|SlotsBits(NewEnc, xs)|..];
    assert s == SlotsBits(NewEnc, xs) + rest;
    SlotsInverse(NewEnc, NewDec, xs, |xs| % U16, rest);
  }

  /** The header is wide enough exactly for starts and counts below 2^16. */
  lemma RoundTripIff(data: Bytes, start: int, xs: seq<Slot>)
    requires IsTsd(data, start, xs)
    ensures (DecodedStart(data) == start && DecodedSlots(data) == Some(xs)) <==> (0 <= start < U16 && |xs| < U16)
  {
    hide SlotsBits, DecodedSlots, Flat, DecodedStart;
    DecodeEncoded(data, start, xs);
    assert xs[..|xs| % U16] == xs <==> |xs| < U16;
  }

  /** What a reset encoder wrote comes back exactly when, besides, the slots counted before are a multiple of 2^16. */
  lemma ResetRoundTripIff(data: Bytes, start: int, kept: nat, xs: seq<Slot>)
    requires IsTsd(data, start, xs, ResetEnc, kept)
    ensures (DecodedStart(data) == start && DecodedSlots(data) == Some(xs)) <==>
            (0 <= start < U16 && |xs| < U16 && kept % U16 == 0)
  {
    hide SlotsBits, DecSlots, Flat, Sync, DecodedStart, DecodedCount;
    NewInSync();
    var s := Flat(data[4..]);
    DecSlotsLength(NewDec, DecodedCount(data), s);
    if |xs| < U16 && kept % U16 == 0 {
      var rest := s[|SlotsBits(ResetEnc, xs)|..];
      assert s == SlotsBits(ResetEnc, xs) + rest;
      SlotsInverse(ResetEnc, NewDec, xs, |xs|, rest);
      assert xs[..|xs|] == xs;
    }
  }

  // ----- the encoder -----

  class TSDEncoder {
    const startTime: int
    const bitBuffer: ByteBuffer
    const bitWriter: Writer
    const values: XOREncoder
    var count: nat

    ghost const Repr: set<object>

    ghost predicate Wired() {
      && Repr == {this, bitBuffer, bitWriter, values}
      && bitWriter.w == bitBuffer && values.bw == bitWriter
    }

    ghost predicate Valid()
      reads this, Repr
    {
      Wired() && bitWriter.Valid()
    }

    /** The bit stream holds exactly the slots `xs`. */
    ghost predicate Holds(xs: seq<Slot>, e: Enc := NewEnc, kept: nat := 0)
      requires Valid()
      reads this, Repr
    {
      && count == kept + |xs|
      && bitWriter.stream == SlotsBits(e, xs)
      && values.State() == SlotsNext(e, xs)
    }

    constructor (startTime: int)
      ensures Valid() && fresh(Repr)
      ensures this.startTime == startTime && Holds([])
    {
      this.startTime := startTime;
      var buffer := new ByteBuffer();
      var writer := new Writer(buffer);
      var xor := new XOREncoder(writer);
      bitBuffer, bitWriter, values, count := buffer, writer, xor, 0;
      Repr := {this, buffer, writer, xor};
    }

    /** `Reset`: an empty stream, but the slots written before stay in the count. */
    method Reset()
      requires Wired()
      modifies Repr
      ensures Valid() && Holds([], ResetEnc, old(count))
    {
      bitBuffer.data := [];
      bitWriter.Reset();
      values.Reset();
    }

    method AppendTime(slot: bool)
      requires Valid()
      modifies this`count, bitWriter, bitBuffer
      ensures Valid() && count == old(count) + 1
      ensures bitWriter.stream == old(bitWriter.stream) + [slot]
    {
      bitWriter.WriteBit(slot);
      count := count + 1;
    }

    method AppendValue(value: Word)
      requires Valid()
      modifies values, bitWriter, bitBuffer
      ensures Valid() && count == old(count)
      ensures bitWriter.stream == old(bitWriter.stream) + EncBits(old(values.State()), value)
      ensures values.State() == EncNext(old(values.State()), value)
    {
      values.Write(value);
    }

    /** The two calls by which every client of the encoder adds one slot. */
    method Append(x: Slot, ghost xs: seq<Slot>, ghost e: Enc := NewEnc, ghost kept: nat := 0)
      requires Valid() && Holds(xs, e, kept)
      modifies Repr
      ensures Valid() && Holds(xs + [x], e, kept)
    {
      hide EncBits, EncNext, Flat;
      SlotsSnoc(e, xs, x);
      hide SlotsBits, SlotsNext;
      match x
      case None =>
        AppendTime(false);
      case Some(v) =>
        AppendTime(true);
        AppendValue(v);
        Assoc(SlotsBits(e, xs), [true], EncBits(SlotsNext(e, xs), v));
    }

    /** The finished bytes; flushes the writer, so the encoder is done afterwards. */
    method Bytes(ghost xs: seq<Slot>, ghost e: Enc := NewEnc, ghost kept: nat := 0) returns (data: Words.Bytes)
      requires Valid() && Holds(xs, e, kept)
      modifies bitBuffer
      ensures IsTsd(data, startTime, xs, e, kept)
    {
      hide Flat, SlotsBits, SlotsNext, PutU16, GetU16;
      U16Inverse(startTime);
      U16Inverse(count);
      bitWriter.Flush();
      data := PutU16(startTime) + PutU16(count) + bitBuffer.data;
      assert data[4..] == bitBuffer.data;
    }
  }

  // ----- the decoder -----

  class TSDDecoder {
    var startTime: int
    var endTime: int
    var count: int
    const reader: Reader
    const values: XORDecoder
    const buf: Buffer
    var idx: int
    var err: bool

    ghost const Repr: set<object>

    ghost predicate Valid()
      reads this, Repr
    {
      && Repr == {this, buf, reader, values}
      && reader.buf == buf && values.br == reader
      && reader.Valid() && values.Valid()
    }

    /** The slots still to be read are `xs`, and nothing has failed so far. */
    ghost predicate Ahead(xs: seq<Slot>)
      requires Valid()
      reads this, Repr
    {
      !values.err && DecSlots(values.State(), |xs|, reader.rest) == Some(xs)
    }

    constructor (data: Bytes)
      requires |data| >= 4
      ensures Valid() && fresh(Repr)
      ensures startTime == DecodedStart(data) && count == DecodedCount(data) && endTime == startTime + count - 1
      ensures idx == 0 && !err
      ensures DecodedSlots(data).Some? ==> Ahead(DecodedSlots(data).value) && |DecodedSlots(data).value| == count
    {
      var buffer := new Buffer(data);
      var r := new Reader(buffer);
      var v := new XORDecoder(r);
      buf, reader, values := buffer, r, v;
      idx, err, startTime, count, endTime := 0, false, 0, 0, 0;
      Repr := {this, buffer, r, v};
      new;
      Reset(data);
    }

    method Reset(data: Bytes)
      requires Valid() && |data| >= 4
      modifies Repr
      ensures Valid()
      ensures startTime == DecodedStart(data) && count == DecodedCount(data) && endTime == startTime + count - 1
      ensures idx == 0 && !err
      ensures DecodedSlots(data).Some? ==> Ahead(DecodedSlots(data).value) && |DecodedSlots(data).value| == count
    {
      hide Flat, DecStep, GetU16;
      values.Reset();
      buf.SetBuf(data);
      idx, err := 0, false;
      startTime := GetU16(data[0], data[1]);
      count := GetU16(data[2], data[3]);
      endTime := startTime + count - 1;
      buf.SetIdx(4);
      reader.Reset();
      TailFour(data);
      DecSlotsLength(NewDec, count, reader.rest);
    }

    method Next() returns (more: bool)
      modifies this`idx
      ensures more == (old(idx) < count)
      ensures idx == if more then old(idx) + 1 else old(idx)
    {
      if count > idx {
        idx := idx + 1;
        return true;
      }
      return false;
    }

    /** Reads the presence bit of the next slot; past the end of the data it answers no. */
    method HasValue() returns (has: bool)
      requires Valid()
      modifies this`err, reader, buf
      ensures Valid() && values.State() == old(values.State()) && values.err == old(values.err)
      ensures old(reader.rest) == [] ==> !has && err
      ensures old(reader.rest) != [] ==>
                has == old(reader.rest)[0] && reader.rest == old(reader.rest)[1..] && err == old(err)
    {
      hide Flat;
      var b, e := reader.ReadBit();
      if e {
        err := true;
        return false;
      }
      return b;
    }

    method HasValueWithSlot(slot: int) returns (has: bool)
      requires Valid()
      modifies this`err, this`idx, reader, buf
      ensures Valid() && values.State() == old(values.State()) && values.err == old(values.err)
      ensures !(0 <= slot <= count && slot == old(idx)) ==>
                !has && idx == old(idx) && reader.rest == old(reader.rest)
      ensures 0 <= slot <= count && slot == old(idx) ==> idx == old(idx) + 1
      ensures 0 <= slot <= count && slot == old(idx) && old(reader.rest) != [] ==>
                has == old(reader.rest)[0] && reader.rest == old(reader.rest)[1..]
    {
      if slot < 0 || slot > count {
        return false;
      }
      if slot == idx {
        idx := idx + 1;
        has := HasValue();
        return;
      }
      return false;
    }

    function Slot(): (s: int)
      reads this
    {
      startTime + idx - 1
    }

    method Value() returns (v: Word)
      requires Valid()
      modifies values, reader, buf
      ensures Valid()
      ensures !old(values.err) && DecStep(old(values.State()), old(reader.rest)).Some? ==>
                var r := DecStep(old(values.State()), old(reader.rest)).value;
                !values.err && values.State() == r.0 && v == r.0.val && reader.rest == r.1
    {
      var ok := values.Next();
      if ok {
        return values.val;
      }
      return Zeros(64);
    }
  }

  lemma TailFour(data: Bytes)
    requires |data| >= 4
    ensures Tail(data, 4) == Flat(data[4..])
  {
    assert |data| == 4 ==> data[4..] == [];
  }

  lemma {:induction false} DecSlotsLength(d: Dec, n: nat, s: Bits)
    requires DecValid(d)
    ensures DecSlots(d, n, s).Some? ==> |DecSlots(d, n, s).value| == n
    decreases n
  {
    hide DecStep;
    if n > 0 && |s| > 0 {
      if !s[0] {
        DecSlotsLength(d, n - 1, s[1..]);
      } else if DecStep(d, s[1..]).Some? {
        var r := DecStep(d, s[1..]).value;
        DecSlotsLength(r.0, n - 1, r.1);
      }
    }
  }

  // ----- whole series -----

  method AppendAll(enc: TSDEncoder, xs: seq<Slot>, ghost e: Enc, ghost kept: nat)
    requires enc.Valid() && enc.Holds([], e, kept)
    modifies enc.Repr
    ensures enc.Valid() && enc.Holds(xs, e, kept)
  {
    hide TSDEncoder.Holds;
    assert xs[..0] == [];
    for i := 0 to |xs|
      invariant enc.Valid() && enc.Holds(xs[..i], e, kept)
    {
      enc.Append(xs[i], xs[..i], e, kept);
      assert xs[..i + 1] == xs[..i] + [xs[i]];
    }
    assert xs[..|xs|] == xs;
  }

  method EncodeSeries(start: int, xs: seq<Slot>) returns (data: Bytes)
    ensures IsTsd(data, start, xs)
  {
    hide IsTsd, SlotsBits, SlotsNext;
    var enc := new TSDEncoder(start);
    AppendAll(enc, xs, NewEnc, 0);
    data := enc.Bytes(xs);
  }

  /** A decoder driven by `Next`, `HasValue` and `Value`, as the readers of the format drive it. */
  method DecodeSeries(data: Bytes) returns (start: int, xs: seq<Slot>, slots: seq<int>)
    requires |data| >= 4
    ensures start == DecodedStart(data)
    ensures DecodedSlots(data).Some? ==> xs == DecodedSlots(data).value
    ensures |slots| == |xs| && forall i :: 0 <= i < |xs| ==> slots[i] == start + i
  {
    hide DecodedSlots, DecodedStart, DecodedCount, DecSlots, Flat, Tail;
    var dec := new TSDDecoder(data);
    ghost var good := DecodedSlots(data).Some?;
    ghost var ahead := if good then DecodedSlots(data).value else [];
    start, xs, slots := dec.startTime, [], [];
    var more := dec.Next();
    while more
      invariant fresh(dec.Repr) && dec.Valid() && dec.startTime == start
      invariant dec.idx == |xs| + (if more then 1 else 0)
      invariant if more then dec.count > |xs| else dec.count == |xs|
      invariant good ==> DecodedSlots(data).value == xs + ahead && |ahead| == dec.count - |xs| && dec.Ahead(ahead)
      invariant |slots| == |xs| && forall i :: 0 <= i < |xs| ==> slots[i] == start + i
      decreases dec.count - |xs|
    {
      var x := ReadSlot(dec, ahead);
      slots := slots + [dec.Slot()];
      Advance(xs, ahead);
      xs := xs + [x];
      ahead := if good then ahead[1..] else [];
      more := dec.Next();
    }
  }

  method ReadSlot(dec: TSDDecoder, ghost ahead: seq<Slot>) returns (x: Slot)
    requires dec.Valid()
    modifies dec`err, dec.reader, dec.values, dec.buf
    ensures dec.Valid()
    ensures old(dec.Ahead(ahead)) && |ahead| > 0 ==> x == ahead[0] && dec.Ahead(ahead[1..]) && dec.err == old(dec.err)
  {
    hide Flat, DecStep;
    var has := dec.HasValue();
    if has {
      var v := dec.Value();
      x := Some(v);
    } else {
      x := None;
    }
  }

  /** One encoder for two series: the second comes back exactly when the first did not change the count. */
  method ReuseEncoder(start: int, xs: seq<Slot>, ys: seq<Slot>) returns (first: Bytes, second: Bytes)
    ensures IsTsd(first, start, xs) && |second| >= 4
    ensures (DecodedStart(second) == start && DecodedSlots(second) == Some(ys)) <==>
            (0 <= start < U16 && |ys| < U16 && |xs| % U16 == 0)
  {
    hide IsTsd, SlotsBits, SlotsNext, DecodedStart, DecodedSlots;
    var enc := new TSDEncoder(start);
    AppendAll(enc, xs, NewEnc, 0);
    first := enc.Bytes(xs);
    enc.Reset();
    AppendAll(enc, ys, ResetEnc, |xs|);
    second := enc.Bytes(ys, ResetEnc, |xs|);
    assert |second| >= 4 by { TsdLength(second, start, ys, ResetEnc, |xs|); }
    ResetRoundTripIff(second, start, |xs|, ys);
  }

  /** Encode, then decode: the series comes back whenever its start and length fit in sixteen bits. */
  method SeriesRoundTrip(start: int, xs: seq<Slot>) returns (start': int, xs': seq<Slot>, slots: seq<int>)
    ensures start' == start % U16 && xs' == xs[..|xs| % U16]
    ensures |slots| == |xs'| && forall i :: 0 <= i < |xs'| ==> slots[i] == start' + i
  {
    hide IsTsd, DecodedSlots, DecodedStart;
    var data := EncodeSeries(start, xs);
    assert |data| >= 4 by { TsdLength(data, start, xs); }
    DecodeEncoded(data, start, xs);
    start', xs', slots := DecodeSeries(data);
  }

  lemma TsdLength(data: Bytes, start: int, xs: seq<Slot>, e: Enc := NewEnc, kept: nat := 0)
    requires IsTsd(data, start, xs, e, kept)
    ensures |data| >= 4
  {
  }
}
