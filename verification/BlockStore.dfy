/**
 The in-memory block of `tsdb/memdb`: a window of at most 64 slots that is being
 written, and an already compressed run.  `compact` merges the two into a new
 compressed run.  `intBlock` and `floatBlock` come from one template; here they
 are one class with the two value encodings.
 */
module BlockStore {
  import opened Options
  import opened Words
  import opened BitIO
  import opened XorCodec
  import opened Tsd

  // ----- value encodings -----

  /** `int64` values are stored zigzag encoded, `float64` values by their bit pattern. */
  datatype Kind = IntValues | FloatValues

  /** The word whose every bit is `b`: `x >> 63` on a signed word with sign bit `b`. */
  function Fill(b: bool): (w: Word)
  {
    seq(64, i => b)
  }

  function ZigZagEncode(x: Word): (v: Word)
  {
    Xor(Shl(x, 1), Fill(x[0]))
  }

  function ZigZagDecode(v: Word): (x: Word)
  {
    Xor(Shr(v, 1), Fill(v[63]))
  }

  lemma ZigZagInverse(x: Word)
    ensures ZigZagDecode(ZigZagEncode(x)) == x
    ensures ZigZagEncode(ZigZagDecode(x)) == x
  {
    var v := ZigZagEncode(x);
    assert v[63] == x[0];
    forall i | 0 <= i < 64
      ensures ZigZagDecode(v)[i] == x[i]
    {
      assert i > 0 ==> v[i - 1] == (x[i] != x[0]);
    }
    var d := ZigZagDecode(x);
    assert d[0] == x[63];
    forall i | 0 <= i < 64
      ensures ZigZagEncode(d)[i] == x[i]
    {
      assert i < 63 ==> d[i + 1] == (x[i] != x[63]);
    }
  }

  function ToBits(kind: Kind, v: Word): (w: Word)
  {
    if kind.IntValues? then ZigZagEncode(v) else v
  }

  function FromBits(kind: Kind, w: Word): (v: Word)
  {
    if kind.IntValues? then ZigZagDecode(w) else w
  }

  lemma ValueInverse(kind: Kind, v: Word)
    ensures FromBits(kind, ToBits(kind, v)) == v
  {
    ZigZagInverse(v);
  }

  // ----- the container: one presence bit per slot of the window -----

  /** `1 << uint64(64 - pos - 1)`; a negative count wraps and shifts everything out. */
  function Mask(pos: int): (m: Word)
  {
    if 64 - pos - 1 < 0 then Zeros(64) else Shl(One(64), 64 - pos - 1)
  }

  predicate HasValue(container: Word, pos: int) {
    And(container, Mask(pos)) != Zeros(64)
  }

  lemma HasValueIsBit(container: Word, pos: int)
    ensures HasValue(container, pos) <==> 0 <= pos < 64 && container[pos]
  {
    var a := And(container, Mask(pos));
    forall i | 0 <= i < 64
      ensures a[i] == (i == pos && container[i])
    {
    }
    if 0 <= pos < 64 && container[pos] {
      assert a[pos];
    } else {
      assert a == Zeros(64);
    }
  }

  lemma SetValueIsUpdate(container: Word, pos: nat)
    requires pos < 64
    ensures Or(container, Mask(pos)) == container[pos := true]
  {
  }

  function EndTime(container: Word, startTime: int): (end: int)
  {
    startTime + (64 - TrailingZeros(container)) - 1
  }

  /** The end slot is the last one that is present. */
  lemma EndTimeIsLast(container: Word, startTime: int)
    requires container != Zeros(64)
    ensures startTime <= EndTime(container, startTime) < startTime + 64
    ensures container[EndTime(container, startTime) - startTime]
    ensures forall i :: EndTime(container, startTime) - startTime < i < 64 ==> !container[i]
  {
    TrailingZerosSpec(container);
    assert exists i :: 0 <= i < 64 && container[i] by {
      assert container != Zeros(64);
    }
  }

  // ----- what a block holds, slot by slot -----

  /** The state of the window. */
  datatype Window = Window(container: Word, startTime: int, values: seq<Word>)

  ghost predicate WindowValid(w: Window) {
    |w.values| <= 64 && forall i :: |w.values| <= i < 64 ==> !w.container[i]
  }

  /** The window's value at an absolute slot. */
  ghost function NewAt(w: Window, slot: int): (x: Option<Word>)
  {
    var pos := slot - w.startTime;
    if 0 <= pos < 64 && pos < |w.values| && w.container[pos] then Some(w.values[pos]) else None
  }

  ghost predicate Readable(compress: Bytes) {
    compress == [] || (|compress| >= 4 && DecodedSlots(compress).Some?)
  }

  /** The stored word of a series at an absolute slot. */
  ghost function SlotOf(start: int, xs: seq<Slot>, slot: int): (x: Slot)
  {
    if start <= slot < start + |xs| then xs[slot - start] else None
  }

  /** The stored word of the compressed run at an absolute slot. */
  ghost function OldAt(compress: Bytes, slot: int): (x: Slot)
    requires Readable(compress)
  {
    if compress == [] then None
    else SlotOf(DecodedStart(compress), DecodedSlots(compress).value, slot)
  }

  /** The compressed run's value, decoded, at an absolute slot. */
  ghost function ValueAt(kind: Kind, compress: Bytes, slot: int): (v: Option<Word>)
    requires Readable(compress)
  {
    Decoded(kind, OldAt(compress, slot))
  }

  function Decoded(kind: Kind, x: Slot): (v: Option<Word>)
  {
    match x
    case None => None
    case Some(w) => Some(FromBits(kind, w))
  }

  /** Pointwise merge: both present aggregate, one present wins, none stays empty. */
  function Combine(agg: (Word, Word) -> Word, new_: Option<Word>, old_: Option<Word>): (v: Option<Word>)
  {
    match (new_, old_)
    case (None, o) => o
    case (Some(n), None) => Some(n)
    case (Some(n), Some(o)) => Some(agg(n, o))
  }

  /** The word `compact` stores for a slot. */
  function MergedSlot(kind: Kind, agg: (Word, Word) -> Word, new_: Option<Word>, old_: Slot): (x: Slot)
  {
    match (new_, old_)
    case (None, o) => o
    case (Some(n), None) => Some(ToBits(kind, n))
    case (Some(n), Some(o)) => Some(ToBits(kind, agg(n, FromBits(kind, o))))
  }

  lemma MergedSlotValue(kind: Kind, agg: (Word, Word) -> Word, new_: Option<Word>, old_: Slot)
    ensures Decoded(kind, MergedSlot(kind, agg, new_, old_)) == Combine(agg, new_, Decoded(kind, old_))
  {
    match (new_, old_)
    case (None, _) =>
    case (Some(n), None) => ValueInverse(kind, n);
    case (Some(n), Some(o)) => ValueInverse(kind, agg(n, FromBits(kind, o)));
  }

  /** The slots `xs`, the first of them `start`, are the pointwise merge of window and compressed run. */
  ghost predicate Merges(kind: Kind, agg: (Word, Word) -> Word, w: Window, compress: Bytes, start: int, xs: seq<Slot>)
    requires Readable(compress)
  {
    forall k :: 0 <= k < |xs| ==> xs[k] == MergedSlot(kind, agg, NewAt(w, start + k), OldAt(compress, start + k))
  }

  lemma MergesNone(kind: Kind, agg: (Word, Word) -> Word, w: Window, compress: Bytes, start: int)
    requires Readable(compress)
    ensures Merges(kind, agg, w, compress, start, [])
  {
  }

  lemma MergesSnoc(kind: Kind, agg: (Word, Word) -> Word, w: Window, compress: Bytes, start: int, xs: seq<Slot>, x: Slot)
    requires Readable(compress) && Merges(kind, agg, w, compress, start, xs)
    requires x == MergedSlot(kind, agg, NewAt(w, start + |xs|), OldAt(compress, start + |xs|))
    ensures Merges(kind, agg, w, compress, start, xs + [x])
  {
  }

  function Min(a: int, b: int): int {
    if a > b then b else a
  }

  function Max(a: int, b: int): int {
    if a < b then b else a
  }

  /** The sixteen-bit header can describe slots `start` to `end`. */
  predicate Fits(start: int, end: int) {
    0 <= start < U16 && end - start + 1 < U16
  }

  /** The new run `data` holds, at every slot, the merge of the window and the old run. */
  ghost predicate StoresMerge(kind: Kind, agg: (Word, Word) -> Word, w: Window, compress: Bytes, data: Bytes)
    requires Readable(compress) && Readable(data)
  {
    forall slot :: OldAt(data, slot) == MergedSlot(kind, agg, NewAt(w, slot), OldAt(compress, slot))
  }

  class Block {
    const kind: Kind
    var container: Word
    var startTime: int
    var compress: Bytes
    const values: array<Word>

    ghost predicate Valid()
      reads this, values
    {
      && values.Length <= 64
      && (forall i :: values.Length <= i < 64 ==> !container[i])
      && Readable(compress)
    }

    constructor (kind: Kind, size: nat)
      requires size <= 64
      ensures Valid() && fresh(values) && values.Length == size && this.kind == kind
      ensures container == Zeros(64) && compress == []
    {
      this.kind := kind;
      container, startTime, compress := Zeros(64), 0, [];
      values := new Word[size](i => Zeros(64));
    }

    method SetStartTime(startTime: int)
      requires Valid()
      modifies this`startTime, this`container
      ensures Valid() && this.startTime == startTime && container == Zeros(64)
    {
      this.startTime := startTime;
      container := Zeros(64);
    }

    /** `setIntValue` and `setFloatValue`. */
    method SetValue(pos: nat, value: Word)
      requires Valid() && pos < values.Length
      modifies this`container, values
      ensures Valid()
      ensures container == old(container)[pos := true]
      ensures values[..] == old(values[..])[pos := value]
    {
      SetValueIsUpdate(container, pos);
      container := Or(container, Mask(pos));
      values[pos] := value;
    }

    ghost function Win(): (w: Window)
      reads this, values
    {
      Window(container, startTime, values[..])
    }

    /**
     Merges window and compressed run.  The slots of the result are, from the
     smaller start to the larger end, the pointwise merge of the two.
     */
    method Compact(agg: (Word, Word) -> Word) returns (start: int, end: int)
      requires Valid()
      modifies this`compress, this`container
      ensures container == Zeros(64)
      ensures Readable(compress)
      ensures old(container) == Zeros(64) ==> compress == old(compress)
      ensures old(container) != Zeros(64) && old(compress) == [] ==>
                start == startTime && end == EndTime(old(container), startTime)
      ensures old(compress) != [] ==>
                && start == (if old(container) == Zeros(64) then DecodedStart(compress)
                             else Min(startTime, DecodedStart(old(compress))))
                && end == (if old(container) == Zeros(64) then DecodedStart(compress) + DecodedCount(compress) - 1
                           else Max(EndTime(old(container), startTime),
                                    DecodedStart(old(compress)) + DecodedCount(old(compress)) - 1))
      ensures old(container) != Zeros(64) ==>
                && compress != [] && start <= end
                && DecodedStart(compress) == start % U16
                && DecodedCount(compress) == (end - start + 1) % U16
      ensures Fits(start, end) || old(container) == Zeros(64) ==>
                StoresMerge(kind, agg, old(Win()), old(compress), compress)
      ensures old(container) != Zeros(64) && !Fits(start, end)
              && (NewAt(old(Win()), end).Some? || OldAt(old(compress), end).Some?) ==>
                !StoresMerge(kind, agg, old(Win()), old(compress), compress)
    {
      hide DecodedSlots, DecodedStart, DecodedCount, ToBits, FromBits, IsTsd, NewAt;
      if container == Zeros(64) {
        EmptyWindow(Win());
        if compress == [] {
          return 0, 0;
        }
        start := GetU16(compress[0], compress[1]);
        end := start + GetU16(compress[2], compress[3]) - 1;
        assert start == DecodedStart(compress) && end == start + DecodedCount(compress) - 1 by {
          HeaderFields(compress);
        }
        return;
      }
      var data;
      ghost var xs;
      if compress == [] {
        start, end := startTime, EndTime(container, startTime);
        data, xs := EncodeWindow(start, end, agg);
      } else {
        start, end, data, xs := EncodeMerge(agg);
      }
      StoredSeries(kind, agg, Win(), compress, start, end, xs, data);
      if !Fits(start, end) && (NewAt(Win(), end).Some? || OldAt(compress, end).Some?) {
        UnfitLoses(kind, agg, Win(), compress, start, end, xs, data);
      }
      compress := data;
      container := Zeros(64);
    }

    /** A position of the window, when there is no compressed run. */
    method WindowSlot(idx: nat, ghost agg: (Word, Word) -> Word) returns (x: Slot)
      requires Valid() && compress == []
      ensures x == MergedSlot(kind, agg, NewAt(Win(), startTime + idx), OldAt(compress, startTime + idx))
    {
      hide ToBits, FromBits;
      HasValueIsBit(container, idx);
      if HasValue(container, idx) {
        x := Some(ToBits(kind, values[idx]));
      } else {
        x := None;
      }
    }

    /** No compressed run yet: encodes the window alone. */
    method EncodeWindow(start: int, end: int, ghost agg: (Word, Word) -> Word)
      returns (data: Bytes, ghost xs: seq<Slot>)
      requires Valid() && container != Zeros(64) && compress == []
      requires start == startTime && end == EndTime(container, startTime)
      ensures |xs| == end - start + 1 && IsTsd(data, start, xs)
      ensures Merges(kind, agg, Win(), compress, start, xs)
    {
      hide IsTsd, SlotsBits, SlotsNext, EndTime, Merges, MergedSlot, NewAt, OldAt, Readable;
      EndTimeIsLast(container, startTime);
      var encode := new TSDEncoder(start);
      xs := [];
      ghost var w := Win();
      MergesNone(kind, agg, w, compress, start);
      var i := start;
      while i <= end
        invariant start <= i <= end + 1 && |xs| == i - start
        invariant fresh(encode.Repr) && encode.Valid() && encode.startTime == start && encode.Holds(xs)
        invariant Merges(kind, agg, w, compress, start, xs)
      {
        var x := WindowSlot(i - start, agg);
        encode.Append(x, xs);
        MergesSnoc(kind, agg, w, compress, start, xs, x);
        xs := xs + [x];
        i := i + 1;
      }
      data := encode.Bytes(xs);
    }

    /** The scan position: how far the decoder of the compressed run is before slot `i`. */
    ghost predicate At(tsd: TSDDecoder, i: int, all: seq<Slot>)
      reads tsd, tsd.Repr
    {
      && tsd.Valid()
      && tsd.count == |all|
      && (i <= tsd.startTime ==> tsd.idx == 0 && tsd.Ahead(all))
      && (0 < i - tsd.startTime <= |all| ==>
            tsd.idx == i - tsd.startTime && tsd.Ahead(all[i - tsd.startTime..]))
      && (i - tsd.startTime > |all| ==> tsd.idx == |all| + 1)
    }

    method OpenScan() returns (tsd: TSDDecoder, ghost all: seq<Slot>)
      requires Valid() && compress != []
      ensures fresh(tsd.Repr) && tsd.Valid() && this !in tsd.Repr && values !in tsd.Repr
      ensures all == DecodedSlots(compress).value
      ensures tsd.startTime == DecodedStart(compress)
      ensures tsd.endTime == tsd.startTime + |all| - 1 == DecodedStart(compress) + DecodedCount(compress) - 1
      ensures forall i :: i <= tsd.startTime ==> At(tsd, i, all)
    {
      hide DecodedSlots, DecodedStart, DecodedCount, DecSlots, Flat, Tail;
      SlotsCount(compress);
      tsd := new TSDDecoder(compress);
      all := DecodedSlots(compress).value;
    }

    /** The scanner before slot `i`: the slots `xs` are already re-encoded. */
    ghost predicate Scanning(tsd: TSDDecoder, encode: TSDEncoder, i: int, all: seq<Slot>, start: int, xs: seq<Slot>)
      reads tsd, tsd.Repr, encode, encode.Repr
    {
      && tsd.Valid() && At(tsd, i, all) && tsd.endTime == tsd.startTime + |all| - 1
      && encode.Valid() && encode.startTime == start && encode.Holds(xs)
      && tsd.Repr !! encode.Repr
      && {this, values} !! tsd.Repr && {this, values} !! encode.Repr
      && |xs| == i - start
    }

    /** Both present: re-encodes every slot from the smaller start to the larger end. */
    method EncodeMerge(agg: (Word, Word) -> Word)
      returns (start: int, end: int, data: Bytes, ghost xs: seq<Slot>)
      requires Valid() && container != Zeros(64) && compress != []
      ensures start == Min(startTime, DecodedStart(compress))
      ensures end == Max(EndTime(container, startTime), DecodedStart(compress) + DecodedCount(compress) - 1)
      ensures |xs| == end - start + 1 && IsTsd(data, start, xs)
      ensures Merges(kind, agg, Win(), compress, start, xs)
    {
      hide Merges, IsTsd, SlotsBits, SlotsNext, DecodedStart, DecodedCount, DecodedSlots, EndTime, DecSlots, At;
      EndTimeIsLast(container, startTime);
      var tsd;
      ghost var all;
      tsd, all := OpenScan();
      start := Min(startTime, tsd.startTime);
      var curEnd := EndTime(container, startTime);
      end := Max(curEnd, tsd.endTime);
      var encode := new TSDEncoder(start);
      xs := ScanAll(tsd, encode, start, end, curEnd, agg, all);
      data := encode.Bytes(xs);
    }

    method ScanAll(tsd: TSDDecoder, encode: TSDEncoder, start: int, end: int, curEnd: int,
                   agg: (Word, Word) -> Word, ghost all: seq<Slot>)
      returns (ghost xs: seq<Slot>)
      requires Valid() && container != Zeros(64) && compress != [] && curEnd == EndTime(container, startTime)
      requires Scanning(tsd, encode, start, all, start, []) && start <= end + 1
      requires all == DecodedSlots(compress).value && tsd.startTime == DecodedStart(compress)
      modifies tsd.Repr, encode.Repr
      ensures |xs| == end - start + 1
      ensures encode.Valid() && encode.startTime == start && encode.Holds(xs)
      ensures Merges(kind, agg, Win(), compress, start, xs)
    {
      hide Merges, MergedSlot, NewAt, SlotOf, DecodedSlots, DecodedStart, EndTime, At, TSDEncoder.Holds;
      xs := [];
      ghost var w := Win();
      MergesNone(kind, agg, w, compress, start);
      var i := start;
      while i <= end
        invariant start <= i <= end + 1
        invariant Scanning(tsd, encode, i, all, start, xs) && tsd.startTime == DecodedStart(compress)
        invariant Merges(kind, agg, w, compress, start, xs)
      {
        var x := ScanSlot(tsd, i, curEnd, agg, all);
        encode.Append(x, xs);
        MergesSnoc(kind, agg, w, compress, start, xs, x);
        xs := xs + [x];
        i := i + 1;
      }
    }

    /** One turn of the merge scanner. */
    method ScanSlot(tsd: TSDDecoder, i: int, curEnd: int, agg: (Word, Word) -> Word, ghost all: seq<Slot>)
      returns (x: Slot)
      requires Valid() && container != Zeros(64) && curEnd == EndTime(container, startTime)
      requires {this, values} !! tsd.Repr
      requires At(tsd, i, all) && tsd.endTime == tsd.startTime + |all| - 1
      modifies tsd`err, tsd`idx, tsd.reader, tsd.values, tsd.buf
      ensures tsd.Valid() && At(tsd, i + 1, all)
      ensures x == MergedSlot(kind, agg, NewAt(Win(), i), SlotOf(tsd.startTime, all, i))
    {
      hide At, EndTime, MergedSlot, NewAt, TSDDecoder.Valid, Readable;
      var inOldRange := tsd.startTime <= i <= tsd.endTime;
      var hasOldValue, oldValue := ScanOld(tsd, i, inOldRange, all);
      x := Emit(i, curEnd, inOldRange, hasOldValue, oldValue, agg);
    }

    /** The scanner's choice for slot `i`. */
    method Emit(i: int, curEnd: int, inOldRange: bool, hasOldValue: bool, oldValue: Word, agg: (Word, Word) -> Word)
      returns (x: Slot)
      requires Valid() && container != Zeros(64) && curEnd == EndTime(container, startTime)
      ensures x == MergedSlot(kind, agg, NewAt(Win(), i), if inOldRange && hasOldValue then Some(oldValue) else None)
    {
      hide EndTime, ToBits, FromBits, NewAt, HasValue;
      PresentSlot(Win(), i);
      var inCurrentRange := startTime <= i <= curEnd;
      var newSlot := i - startTime;
      var hasValue := HasValue(container, newSlot);
      if inCurrentRange && inOldRange {
        x := MergeSlot(hasValue, hasOldValue, newSlot, oldValue, agg);
      } else if inCurrentRange && hasValue {
        x := Some(ToBits(kind, values[newSlot]));
      } else if inCurrentRange {
        x := None;
      } else if inOldRange && hasOldValue {
        x := Some(oldValue);
      } else {
        x := None;
      }
    }

    /**
     The decoder's part of a turn: the presence bit, and the value when it is needed.
     Past the end of the run the decoder is asked for one bit more than the run
     holds; that answer is never used.
     */
    method ScanOld(tsd: TSDDecoder, i: int, inOldRange: bool, ghost all: seq<Slot>)
      returns (hasOldValue: bool, oldValue: Word)
      requires At(tsd, i, all)
      requires inOldRange == (tsd.startTime <= i < tsd.startTime + |all|)
      modifies tsd`err, tsd`idx, tsd.reader, tsd.values, tsd.buf
      ensures tsd.Valid() && At(tsd, i + 1, all)
      ensures inOldRange ==> all[i - tsd.startTime] == if hasOldValue then Some(oldValue) else None
    {
      hide Flat, DecStep, Tail;
      ghost var k := i - tsd.startTime;
      if inOldRange {
        assert all[0..] == all;
        assert tsd.Ahead(all[k..]);
        assert all[k..][1..] == all[k + 1..];
      }
      hasOldValue := tsd.HasValueWithSlot(i - tsd.startTime);
      oldValue := Zeros(64);
      if inOldRange && hasOldValue {
        oldValue := tsd.Value();
      }
    }

    /** The four cases of a slot that lies in both ranges. */
    method MergeSlot(hasValue: bool, hasOldValue: bool, newSlot: int, oldValue: Word, agg: (Word, Word) -> Word)
      returns (x: Slot)
      requires hasValue ==> 0 <= newSlot < values.Length
      ensures x == MergedSlot(kind, agg, if hasValue then Some(values[newSlot]) else None,
                              if hasOldValue then Some(oldValue) else None)
    {
      if hasValue && hasOldValue {
        x := Some(ToBits(kind, agg(values[newSlot], FromBits(kind, oldValue))));
      } else if hasValue {
        x := Some(ToBits(kind, values[newSlot]));
      } else if hasOldValue {
        x := Some(oldValue);
      } else {
        x := None;
      }
    }
  }

  /** The presence bit decides what the window holds at a slot, and present slots lie in its range. */
  lemma PresentSlot(w: Window, slot: int)
    requires WindowValid(w) && w.container != Zeros(64)
    ensures HasValue(w.container, slot - w.startTime) ==>
              && w.startTime <= slot <= EndTime(w.container, w.startTime)
              && slot - w.startTime < |w.values|
              && NewAt(w, slot) == Some(w.values[slot - w.startTime])
    ensures !HasValue(w.container, slot - w.startTime) ==> NewAt(w, slot) == None
  {
    hide HasValue, EndTime;
    HasValueIsBit(w.container, slot - w.startTime);
    EndTimeIsLast(w.container, w.startTime);
  }

  lemma EmptyWindow(w: Window)
    requires w.container == Zeros(64)
    ensures forall slot :: NewAt(w, slot) == None
  {
  }

  lemma HeaderFields(compress: Bytes)
    requires |compress| >= 4
    ensures DecodedStart(compress) == GetU16(compress[0], compress[1])
    ensures DecodedCount(compress) == GetU16(compress[2], compress[3])
  {
  }

  /** A run that fits its header reads back, at every slot, as the pointwise merge it was built from. */
  lemma StoredSeries(kind: Kind, agg: (Word, Word) -> Word, w: Window,
                     compress: Bytes, start: int, end: int, xs: seq<Slot>, data: Bytes)
    requires w.container != Zeros(64) && Readable(compress)
    requires start <= w.startTime && EndTime(w.container, w.startTime) <= end
    requires compress != [] ==>
               start <= DecodedStart(compress) && DecodedStart(compress) + DecodedCount(compress) - 1 <= end
    requires |xs| == end - start + 1 && IsTsd(data, start, xs)
    requires Merges(kind, agg, w, compress, start, xs)
    ensures data != [] && Readable(data)
    ensures start <= end
    ensures DecodedStart(data) == start % U16 && DecodedCount(data) == (end - start + 1) % U16
    ensures Fits(start, end) ==> StoresMerge(kind, agg, w, compress, data)
  {
    hide MergedSlot, NewAt, EndTime, DecSlots, Flat, DecodedStart, DecodedCount, DecodedSlots, SlotsBits;
    DecodeEncoded(data, start, xs);
    EndTimeIsLast(w.container, w.startTime);
    if Fits(start, end) {
      assert xs[..|xs| % U16] == xs;
      if compress != [] {
        SlotsCount(compress);
      }
      forall slot
        ensures OldAt(data, slot) == MergedSlot(kind, agg, NewAt(w, slot), OldAt(compress, slot))
      {
        if start <= slot <= end {
          assert slot == start + (slot - start);
        } else {
          OutsideEmpty(w, compress, start, end, slot);
          BothEmpty(kind, agg);
        }
      }
    }
  }

  lemma SlotsCount(compress: Bytes)
    requires |compress| >= 4 && DecodedSlots(compress).Some?
    ensures |DecodedSlots(compress).value| == DecodedCount(compress)
  {
    DecSlotsLength(NewDec, DecodedCount(compress), Flat(compress[4..]));
  }

  lemma BothEmpty(kind: Kind, agg: (Word, Word) -> Word)
    ensures MergedSlot(kind, agg, None, None) == None
  {
  }

  lemma OutsideEmpty(w: Window, compress: Bytes, start: int, end: int, slot: int)
    requires w.container != Zeros(64) && Readable(compress)
    requires start <= w.startTime && EndTime(w.container, w.startTime) <= end
    requires compress != [] ==>
               start <= DecodedStart(compress) && DecodedStart(compress) + |DecodedSlots(compress).value| - 1 <= end
    requires !(start <= slot <= end)
    ensures NewAt(w, slot) == None && OldAt(compress, slot) == None
  {
    EndTimeIsLast(w.container, w.startTime);
  }

  /** What a stored run reads back as: its slots, cut and moved as its header says. */
  lemma StoredAt(data: Bytes, start: int, xs: seq<Slot>, slot: int)
    requires IsTsd(data, start, xs)
    ensures Readable(data) && data != []
    ensures OldAt(data, slot) == SlotOf(start % U16, xs[..|xs| % U16], slot)
  {
    hide SlotOf, DecSlots, Flat, DecodedStart, DecodedCount, DecodedSlots, SlotsBits;
    DecodeEncoded(data, start, xs);
  }

  /** A run that does not fit its header loses or moves a slot, if its last slot holds a value. */
  lemma UnfitLoses(kind: Kind, agg: (Word, Word) -> Word, w: Window,
                   compress: Bytes, start: int, end: int, xs: seq<Slot>, data: Bytes)
    requires Readable(compress) && start <= end && |xs| == end - start + 1 && IsTsd(data, start, xs)
    requires Merges(kind, agg, w, compress, start, xs)
    requires NewAt(w, end).Some? || OldAt(compress, end).Some?
    requires !Fits(start, end)
    ensures Readable(data) && !StoresMerge(kind, agg, w, compress, data)
  {
    hide IsTsd, NewAt, OldAt, Readable, ToBits, FromBits;
    var last := |xs| - 1;
    assert xs[last] == MergedSlot(kind, agg, NewAt(w, start + last), OldAt(compress, start + last));
    StoredAt(data, start, xs, end);
    var ds, dc := start % U16, |xs| % U16;
    if start < 0 && ds <= end < ds + dc && xs[end - ds] == xs[last] {
      var i := end - ds;
      StoredAt(data, start, xs, start + i);
      assert xs[i] == MergedSlot(kind, agg, NewAt(w, start + i), OldAt(compress, start + i));
      assert OldAt(data, start + i) == None;
    } else {
      assert OldAt(data, end) != xs[last];
    }
  }

  // ----- runs of fill-then-compact rounds -----

  /** A new window start, then writes to window positions, then a compaction. */
  datatype Round = Round(start: int, writes: seq<(nat, Word)>)

  /** The value a series of writes leaves at a position: the last one wins. */
  ghost function Written(writes: seq<(nat, Word)>, pos: int): (x: Option<Word>)
  {
    if |writes| == 0 then None
    else
      var (p, v) := writes[|writes| - 1];
      if p == pos then Some(v) else Written(writes[..|writes| - 1], pos)
  }

  /** What a slot holds after the rounds: each round's value aggregated with what was there. */
  ghost function FoldAt(agg: (Word, Word) -> Word, rounds: seq<Round>, slot: int): (v: Option<Word>)
  {
    if |rounds| == 0 then None
    else
      var r := rounds[|rounds| - 1];
      Combine(agg, Written(r.writes, slot - r.start), FoldAt(agg, rounds[..|rounds| - 1], slot))
  }

  lemma FoldSnoc(agg: (Word, Word) -> Word, rounds: seq<Round>, i: nat)
    requires i < |rounds|
    ensures forall slot :: FoldAt(agg, rounds[..i + 1], slot)
                        == Combine(agg, Written(rounds[i].writes, slot - rounds[i].start), FoldAt(agg, rounds[..i], slot))
  {
    assert rounds[..i + 1][..i] == rounds[..i];
  }

  // ----- the slots that a run of rounds covers -----

  /** The last position written. */
  function LastPos(writes: seq<(nat, Word)>): (p: nat)
    requires |writes| > 0
  {
    var w := writes[|writes| - 1];
    if |writes| == 1 then w.0
    else
      var q := LastPos(writes[..|writes| - 1]);
      if q < w.0 then w.0 else q
  }

  datatype Span = Span(lo: int, hi: int)

  /** The bounds after one more round; a round without writes has none. */
  function Widen(span: Option<Span>, r: Round): (span': Option<Span>)
  {
    if |r.writes| == 0 then span
    else
      var end := r.start + LastPos(r.writes);
      match span
      case None => Some(Span(r.start, end))
      case Some(Span(lo, hi)) => Some(Span(Min(r.start, lo), Max(end, hi)))
  }

  function Bounds(rounds: seq<Round>): (span: Option<Span>)
  {
    if |rounds| == 0 then None else Widen(Bounds(rounds[..|rounds| - 1]), rounds[|rounds| - 1])
  }

  predicate SpanFits(span: Option<Span>) {
    span.Some? ==> Fits(span.value.lo, span.value.hi)
  }

  /** Rounds inside 65535 slots that start below 2^16 fit the header throughout. */
  lemma {:induction false} NearbyFits(rounds: seq<Round>, lo: int)
    requires 0 <= lo < U16
    requires forall i :: 0 <= i < |rounds| && |rounds[i].writes| > 0 ==>
               lo <= rounds[i].start < U16 && rounds[i].start + LastPos(rounds[i].writes) < lo + 65535
    ensures SpanFits(Bounds(rounds))
    ensures Bounds(rounds).Some? ==>
              lo <= Bounds(rounds).value.lo < U16 && Bounds(rounds).value.hi < lo + 65535
    decreases |rounds|
  {
    hide LastPos;
    if |rounds| > 0 {
      NearbyFits(rounds[..|rounds| - 1], lo);
    }
  }

  /** The compressed run covers exactly these slots, and the last one holds a value. */
  ghost predicate Spans(compress: Bytes, span: Option<Span>)
    requires Readable(compress)
  {
    match span
    case None => compress == []
    case Some(Span(lo, hi)) =>
      && compress != [] && DecodedStart(compress) == lo && DecodedStart(compress) + DecodedCount(compress) - 1 == hi
      && OldAt(compress, hi).Some?
  }

  method FillWindow(b: Block, writes: seq<(nat, Word)>)
    requires b.Valid() && b.container == Zeros(64)
    requires forall i :: 0 <= i < |writes| ==> writes[i].0 < b.values.Length
    modifies b`container, b.values
    ensures b.Valid()
    ensures forall slot :: NewAt(b.Win(), slot) == Written(writes, slot - b.startTime)
  {
    hide Readable, NewAt, Written;
    EmptyWindow(b.Win());
    assert forall pos :: Written(writes[..0], pos) == None by { NothingWritten(writes[..0]); }
    for i := 0 to |writes|
      invariant b.Valid()
      invariant forall slot :: NewAt(b.Win(), slot) == Written(writes[..i], slot - b.startTime)
    {
      ghost var w := b.Win();
      b.SetValue(writes[i].0, writes[i].1);
      assert writes[..i + 1] == writes[..i] + [writes[i]];
      WriteStep(w, writes[..i], writes[i].0, writes[i].1);
    }
    assert writes[..|writes|] == writes;
  }

  lemma NothingWritten(writes: seq<(nat, Word)>)
    requires writes == []
    ensures forall pos :: Written(writes, pos) == None
  {
  }

  lemma WriteStep(w: Window, writes: seq<(nat, Word)>, p: nat, v: Word)
    requires p < |w.values| <= 64
    requires forall slot :: NewAt(w, slot) == Written(writes, slot - w.startTime)
    ensures var w' := w.(container := w.container[p := true], values := w.values[p := v]);
            forall slot :: NewAt(w', slot) == Written(writes + [(p, v)], slot - w.startTime)
  {
    var w' := w.(container := w.container[p := true], values := w.values[p := v]);
    assert (writes + [(p, v)])[..|writes|] == writes;
    forall slot
      ensures NewAt(w', slot) == Written(writes + [(p, v)], slot - w.startTime)
    {
      assert NewAt(w, slot) == Written(writes, slot - w.startTime);
    }
  }

  /** A slot is written if and only if some write names it, and the last one so written is `LastPos`. */
  lemma {:induction false} WrittenUpTo(writes: seq<(nat, Word)>, pos: int)
    requires |writes| > 0
    ensures Written(writes, LastPos(writes)).Some?
    ensures Written(writes, pos).Some? ==> pos <= LastPos(writes)
    decreases |writes|
  {
    if |writes| == 1 {
      NothingWritten(writes[..0]);
      assert Written(writes, pos) == if writes[0].0 == pos then Some(writes[0].1) else Written(writes[..0], pos);
    } else {
      var n := |writes| - 1;
      WrittenUpTo(writes[..n], pos);
      var (p, v) := writes[n];
      assert LastPos(writes) == if LastPos(writes[..n]) < p then p else LastPos(writes[..n]);
    }
  }

  lemma WindowBit(w: Window, i: int)
    requires WindowValid(w)
    ensures NewAt(w, w.startTime + i).Some? <==> 0 <= i < 64 && w.container[i]
  {
  }

  /** The window's last slot is the last position written. */
  lemma WindowEnd(w: Window, writes: seq<(nat, Word)>)
    requires WindowValid(w)
    requires forall slot :: NewAt(w, slot) == Written(writes, slot - w.startTime)
    ensures w.container == Zeros(64) <==> |writes| == 0
    ensures |writes| > 0 ==> EndTime(w.container, w.startTime) == w.startTime + LastPos(writes)
    ensures |writes| > 0 ==> NewAt(w, EndTime(w.container, w.startTime)).Some?
  {
    hide NewAt, Written, EndTime, LastPos, WindowValid;
    forall i
      ensures Written(writes, i).Some? <==> 0 <= i < 64 && w.container[i]
    {
      WindowBit(w, i);
      assert NewAt(w, w.startTime + i) == Written(writes, i);
    }
    if |writes| == 0 {
      NothingWritten(writes);
      assert w.container == Zeros(64);
    } else {
      LastBit(w.container, writes);
      WindowLast(w.container, w.startTime, writes);
      WindowBit(w, LastPos(writes));
    }
  }

  lemma LastBit(container: Word, writes: seq<(nat, Word)>)
    requires |writes| > 0
    requires forall i :: Written(writes, i).Some? <==> 0 <= i < 64 && container[i]
    ensures LastPos(writes) < 64 && container[LastPos(writes)]
    ensures forall i :: LastPos(writes) < i < 64 ==> !container[i]
  {
    hide Written, LastPos;
    WrittenUpTo(writes, 0);
    forall i | LastPos(writes) < i < 64
      ensures !container[i]
    {
      WrittenUpTo(writes, i);
    }
  }

  lemma WindowLast(container: Word, startTime: int, writes: seq<(nat, Word)>)
    requires |writes| > 0 && LastPos(writes) < 64 && container[LastPos(writes)]
    requires forall i :: LastPos(writes) < i < 64 ==> !container[i]
    ensures container != Zeros(64)
    ensures EndTime(container, startTime) == startTime + LastPos(writes)
  {
    hide EndTime, LastPos;
    EndTimeIsLast(container, startTime);
  }

  /** The run holds, at every slot, what the rounds left there. */
  ghost predicate HoldsFold(kind: Kind, agg: (Word, Word) -> Word, rounds: seq<Round>, compress: Bytes)
    requires Readable(compress)
  {
    forall slot :: ValueAt(kind, compress, slot) == FoldAt(agg, rounds, slot)
  }

  /** The new run's values are, at every slot, the round's writes aggregated with the old ones. */
  ghost predicate Combines(kind: Kind, agg: (Word, Word) -> Word, r: Round, before: Bytes, after: Bytes)
    requires Readable(before) && Readable(after)
  {
    forall slot :: ValueAt(kind, after, slot) == Combine(agg, Written(r.writes, slot - r.start), ValueAt(kind, before, slot))
  }

  lemma DecodedSame(kind: Kind, x: Slot, y: Slot)
    ensures Decoded(kind, x) == Decoded(kind, y) <==> x == y
  {
    if x.Some? {
      ZigZagInverse(x.value);
    }
    if y.Some? {
      ZigZagInverse(y.value);
    }
  }

  /** Storing the merge of the words is combining the values. */
  lemma MergeCombines(kind: Kind, agg: (Word, Word) -> Word, w: Window, r: Round, before: Bytes, after: Bytes)
    requires Readable(before) && Readable(after) && w.startTime == r.start
    requires forall slot :: NewAt(w, slot) == Written(r.writes, slot - w.startTime)
    ensures StoresMerge(kind, agg, w, before, after) <==> Combines(kind, agg, r, before, after)
  {
    hide OldAt, NewAt, Written, MergedSlot, Combine, Readable, Decoded;
    forall slot
      ensures OldAt(after, slot) == MergedSlot(kind, agg, NewAt(w, slot), OldAt(before, slot)) <==>
              ValueAt(kind, after, slot) == Combine(agg, Written(r.writes, slot - r.start), ValueAt(kind, before, slot))
    {
      MergedSlotValue(kind, agg, NewAt(w, slot), OldAt(before, slot));
      DecodedSame(kind, OldAt(after, slot), MergedSlot(kind, agg, NewAt(w, slot), OldAt(before, slot)));
    }
  }

  /**
   After any rounds whose slots have fitted the header so far, one more round leaves at every
   slot the fold of the values written to it if and only if the slots still fit.
   */
  method RunRounds(b: Block, rounds: seq<Round>, agg: (Word, Word) -> Word)
    requires b.Valid() && b.compress == []
    requires forall i :: 0 <= i < |rounds| ==> InWindow(rounds[i], b.values.Length)
    requires forall n :: 0 <= n < |rounds| ==> SpanFits(Bounds(rounds[..n]))
    modifies b, b.values
    ensures b.Valid()
    ensures HoldsFold(b.kind, agg, rounds, b.compress) <==> SpanFits(Bounds(rounds))
  {
    hide HoldsFold, Spans, Bounds, Widen, Combines, SpanFits, Readable, InWindow;
    NoRounds(b.kind, agg, rounds[..0]);
    for i := 0 to |rounds|
      invariant b.Valid()
      invariant SpanFits(Bounds(rounds[..i])) ==> Spans(b.compress, Bounds(rounds[..i]))
      invariant HoldsFold(b.kind, agg, rounds[..i], b.compress) <==> SpanFits(Bounds(rounds[..i]))
    {
      ghost var before := b.compress;
      RunRound(b, rounds[i], agg, Bounds(rounds[..i]));
      FoldStep(b.kind, agg, rounds, i, before, b.compress);
    }
    assert rounds[..|rounds|] == rounds;
  }

  lemma NoRounds(kind: Kind, agg: (Word, Word) -> Word, rounds: seq<Round>)
    requires rounds == []
    ensures HoldsFold(kind, agg, rounds, []) && SpanFits(Bounds(rounds)) && Spans([], Bounds(rounds))
  {
  }

  lemma FoldStep(kind: Kind, agg: (Word, Word) -> Word, rounds: seq<Round>, i: nat, before: Bytes, after: Bytes)
    requires i < |rounds| && Readable(before) && Readable(after) && HoldsFold(kind, agg, rounds[..i], before)
    ensures Combines(kind, agg, rounds[i], before, after) <==> HoldsFold(kind, agg, rounds[..i + 1], after)
    ensures Bounds(rounds[..i + 1]) == Widen(Bounds(rounds[..i]), rounds[i])
  {
    hide ValueAt, FoldAt, Written, Combine, Readable, Widen;
    FoldSnoc(agg, rounds, i);
    assert rounds[..i + 1][..i] == rounds[..i];
  }

  /** The positions of a round's writes are in the window. */
  predicate InWindow(r: Round, size: nat) {
    forall i :: 0 <= i < |r.writes| ==> r.writes[i].0 < size
  }

  /** One round on a run that fits its header. */
  method RunRound(b: Block, r: Round, agg: (Word, Word) -> Word, ghost span: Option<Span>)
    requires b.Valid() && Spans(b.compress, span) && InWindow(r, b.values.Length)
    modifies b, b.values
    ensures b.Valid()
    ensures Combines(b.kind, agg, r, old(b.compress), b.compress) <==> SpanFits(Widen(span, r))
    ensures SpanFits(Widen(span, r)) ==> Spans(b.compress, Widen(span, r))
  {
    hide DecodedSlots, DecodedStart, DecodedCount, Written, NewAt, OldAt, EndTime, Combines, StoresMerge, Readable, LastPos;
    b.SetStartTime(r.start);
    FillWindow(b, r.writes);
    ghost var w, before := b.Win(), b.compress;
    WindowEnd(w, r.writes);
    var start, end := b.Compact(agg);
    MergeCombines(b.kind, agg, w, r, before, b.compress);
    if |r.writes| > 0 && StoresMerge(b.kind, agg, w, before, b.compress) {
      LastMerged(b.kind, agg, w, before, b.compress, end);
    }
  }

  lemma LastMerged(kind: Kind, agg: (Word, Word) -> Word, w: Window, before: Bytes, after: Bytes, end: int)
    requires Readable(before) && Readable(after) && StoresMerge(kind, agg, w, before, after)
    ensures NewAt(w, end).Some? || OldAt(before, end).Some? ==> OldAt(after, end).Some?
  {
    hide NewAt, OldAt, Readable, ToBits, FromBits;
  }

  /** The rounds of two values for one slot. */
  function InTurn(start: int, a: Word, c: Word): (rounds: seq<Round>) {
    [Round(start, [(0, a)]), Round(start, [(0, c)])]
  }

  lemma InTurnFits(start: int, a: Word, c: Word)
    requires 0 <= start < U16
    ensures forall n :: 0 <= n <= 2 ==> SpanFits(Bounds(InTurn(start, a, c)[..n]))
    ensures InTurn(start, a, c)[..2] == InTurn(start, a, c)
  {
    hide Bounds, SpanFits;
    forall n | 0 <= n <= 2
      ensures SpanFits(Bounds(InTurn(start, a, c)[..n]))
    {
      NearbyFits(InTurn(start, a, c)[..n], start);
    }
  }

  lemma InTurnFolds(agg: (Word, Word) -> Word, start: int, a: Word, c: Word)
    ensures FoldAt(agg, InTurn(start, a, c), start) == Some(agg(c, a))
  {
    var rounds := InTurn(start, a, c);
    assert rounds[..2] == rounds && rounds[..0] == [];
    assert FoldAt(agg, rounds[..1], start) == Some(a) by {
      FoldSnoc(agg, rounds, 0);
      assert Written(rounds[0].writes, 0) == Some(a);
    }
    FoldSnoc(agg, rounds, 1);
    assert Written(rounds[1].writes, 0) == Some(c);
  }

  /** Two values compacted in turn into one slot: the later value is the aggregation's first argument. */
  method TwoRounds(kind: Kind, start: int, a: Word, c: Word, agg: (Word, Word) -> Word) returns (b: Block)
    requires 0 <= start < U16
    ensures b.Valid() && ValueAt(kind, b.compress, start) == Some(agg(c, a))
  {
    hide Readable, ValueAt, FoldAt, Bounds, SpanFits;
    InTurnFits(start, a, c);
    b := new Block(kind, 1);
    RunRounds(b, InTurn(start, a, c), agg);
    InTurnFolds(agg, start, a, c);
  }
}
