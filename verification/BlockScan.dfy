/**
 The read path of a memory block (`scan` and `aggregate` in `tsdb/memdb/block_store.gen.go`):
 the values of the window and of the compressed run go to the aggregators, slot by slot,
 until they need no more.  Main result: a scan gives the same before and after a compaction
 if and only if no slot of the window's range has a value in the compressed run only, or the
 window starts at slot 0.
 */
module BlockScan {
  import opened Options
  import opened Words
  import opened BitIO
  import opened XorCodec
  import opened Tsd
  import opened BlockStore

  /** One call of the aggregators: a slot and a value. */
  datatype Call = Call(slot: int, value: Word)

  // ----- what a scan emits -----

  /** The range of the window: from its start to its last value. */
  ghost predicate InRange(w: Window, slot: int) {
    w.container != Zeros(64) && w.startTime <= slot <= EndTime(w.container, w.startTime)
  }

  /** The call for a slot.  A value that only the run has, in the window's range, gets a window position. */
  ghost function CallAt(kind: Kind, agg: (Word, Word) -> Word, w: Window, compress: Bytes, slot: int): (c: Option<Call>)
    requires Readable(compress)
  {
    match (NewAt(w, slot), ValueAt(kind, compress, slot))
    case (None, None) => None
    case (None, Some(o)) => Some(Call(if InRange(w, slot) then slot - w.startTime else slot, o))
    case (Some(n), None) => Some(Call(slot, n))
    case (Some(n), Some(o)) => Some(Call(slot, agg(n, o)))
  }

  /** The merged value of a slot under its own number. */
  ghost function PointAt(kind: Kind, agg: (Word, Word) -> Word, w: Window, compress: Bytes, slot: int): (c: Option<Call>)
    requires Readable(compress)
  {
    match Combine(agg, NewAt(w, slot), ValueAt(kind, compress, slot))
    case None => None
    case Some(v) => Some(Call(slot, v))
  }

  function Listed(c: Option<Call>): (cs: seq<Call>)
  {
    if c == None then [] else [c.value]
  }

  /** The calls for the slots from `lo` to below `hi`. */
  ghost function Calls(kind: Kind, agg: (Word, Word) -> Word, w: Window, compress: Bytes, lo: int, hi: int): (cs: seq<Call>)
    requires Readable(compress)
    decreases hi - lo
  {
    if hi <= lo then [] else Calls(kind, agg, w, compress, lo, hi - 1) + Listed(CallAt(kind, agg, w, compress, hi - 1))
  }

  ghost function Points(kind: Kind, agg: (Word, Word) -> Word, w: Window, compress: Bytes, lo: int, hi: int): (cs: seq<Call>)
    requires Readable(compress)
    decreases hi - lo
  {
    if hi <= lo then [] else Points(kind, agg, w, compress, lo, hi - 1) + Listed(PointAt(kind, agg, w, compress, hi - 1))
  }

  /** The first slot and the slot behind the last one of window and run together. */
  ghost function Lo(w: Window, compress: Bytes): (lo: int)
    requires Readable(compress)
  {
    if compress == [] then w.startTime
    else if w.container == Zeros(64) then DecodedStart(compress)
    else Min(w.startTime, DecodedStart(compress))
  }

  ghost function Hi(w: Window, compress: Bytes): (hi: int)
    requires Readable(compress)
  {
    if w.container == Zeros(64) then
      if compress == [] then w.startTime else DecodedStart(compress) + DecodedCount(compress)
    else
      var end := EndTime(w.container, w.startTime);
      if compress == [] then end + 1 else Max(end, DecodedStart(compress) + DecodedCount(compress) - 1) + 1
  }

  ghost function AllCalls(kind: Kind, agg: (Word, Word) -> Word, w: Window, compress: Bytes): (cs: seq<Call>)
    requires Readable(compress)
  {
    Calls(kind, agg, w, compress, Lo(w, compress), Hi(w, compress))
  }

  // ----- stopping early -----

  /** The aggregators have what they need after these calls. */
  predicate Complete(done: seq<Call> -> bool, cs: seq<Call>) {
    |cs| > 0 && done(cs)
  }

  /** The calls that are made of those in `cs`: no more once the aggregators are complete. */
  function Made(done: seq<Call> -> bool, cs: seq<Call>): (made: seq<Call>)
  {
    if |cs| == 0 then []
    else
      var made := Made(done, cs[..|cs| - 1]);
      if Complete(done, made) then made else cs
  }

  /** The calls are made up to the first that completes the aggregators, or all of them. */
  lemma {:induction false} MadeIs(done: seq<Call> -> bool, cs: seq<Call>)
    ensures var made := Made(done, cs);
            && made <= cs && (made == cs || Complete(done, made))
            && forall n :: 0 < n < |made| ==> !done(cs[..n])
    decreases |cs|
  {
    if |cs| > 0 {
      var shorter := cs[..|cs| - 1];
      MadeIs(done, shorter);
      assert forall n :: 0 <= n <= |shorter| ==> shorter[..n] == cs[..n];
    }
  }

  lemma MadeSnoc(done: seq<Call> -> bool, cs: seq<Call>, c: Option<Call>)
    requires Made(done, cs) == cs && !Complete(done, cs)
    ensures Made(done, cs + Listed(c)) == cs + Listed(c)
  {
    if c.Some? {
      assert (cs + [c.value])[..|cs|] == cs;
    } else {
      assert cs + [] == cs;
    }
  }

  lemma {:induction false} MadeStays(done: seq<Call> -> bool, cs: seq<Call>, more: seq<Call>)
    requires Made(done, cs) == cs && Complete(done, cs)
    ensures Made(done, cs + more) == cs
    decreases |more|
  {
    if |more| == 0 {
      assert cs + more == cs;
    } else {
      MadeStays(done, cs, more[..|more| - 1]);
      assert (cs + more)[..|cs + more| - 1] == cs + more[..|more| - 1];
    }
  }

  lemma {:induction false} CallsFrom(kind: Kind, agg: (Word, Word) -> Word, w: Window, compress: Bytes, lo: int, mid: int, hi: int)
    returns (more: seq<Call>)
    requires Readable(compress) && lo <= mid <= hi
    ensures Calls(kind, agg, w, compress, lo, hi) == Calls(kind, agg, w, compress, lo, mid) + more
    decreases hi - mid
  {
    hide CallAt, Readable;
    if mid == hi {
      more := [];
    } else {
      more := CallsFrom(kind, agg, w, compress, lo, mid, hi - 1);
      more := more + Listed(CallAt(kind, agg, w, compress, hi - 1));
    }
  }

  /** A scan that is complete at slot `mid` makes no calls for later slots. */
  lemma CompleteAt(done: seq<Call> -> bool, kind: Kind, agg: (Word, Word) -> Word, w: Window, compress: Bytes,
                   lo: int, mid: int, hi: int)
    requires Readable(compress) && lo <= mid <= hi
    requires var cs := Calls(kind, agg, w, compress, lo, mid); Made(done, cs) == cs && Complete(done, cs)
    ensures Made(done, Calls(kind, agg, w, compress, lo, hi)) == Calls(kind, agg, w, compress, lo, mid)
  {
    hide Calls, Made, Complete, Readable;
    var more := CallsFrom(kind, agg, w, compress, lo, mid, hi);
    MadeStays(done, Calls(kind, agg, w, compress, lo, mid), more);
  }

  // ----- when a scan is the merge -----

  /** Every value that only the run has lies outside the window's range, or the range starts at slot 0. */
  ghost predicate Agrees(w: Window, compress: Bytes)
    requires Readable(compress)
  {
    w.startTime == 0 || forall slot :: InRange(w, slot) && OldAt(compress, slot).Some? ==> NewAt(w, slot).Some?
  }

  lemma SameCall(kind: Kind, agg: (Word, Word) -> Word, w: Window, compress: Bytes, slot: int)
    requires Readable(compress)
    ensures var c, d := CallAt(kind, agg, w, compress, slot), PointAt(kind, agg, w, compress, slot);
            && c.Some? == d.Some?
            && (c == d <==> w.startTime == 0 || (InRange(w, slot) && OldAt(compress, slot).Some? ==> NewAt(w, slot).Some?))
  {
    hide OldAt, NewAt, InRange, Readable, FromBits;
  }

  lemma {:induction false} CallsArePoints(kind: Kind, agg: (Word, Word) -> Word, w: Window, compress: Bytes, lo: int, hi: int)
    requires Readable(compress)
    ensures |Calls(kind, agg, w, compress, lo, hi)| == |Points(kind, agg, w, compress, lo, hi)|
    ensures Calls(kind, agg, w, compress, lo, hi) == Points(kind, agg, w, compress, lo, hi) <==>
            forall slot :: lo <= slot < hi ==> CallAt(kind, agg, w, compress, slot) == PointAt(kind, agg, w, compress, slot)
    decreases hi - lo
  {
    hide CallAt, PointAt, Readable;
    if lo < hi {
      CallsArePoints(kind, agg, w, compress, lo, hi - 1);
      SameCall(kind, agg, w, compress, hi - 1);
      var c, d := CallAt(kind, agg, w, compress, hi - 1), PointAt(kind, agg, w, compress, hi - 1);
      SnocSame(Calls(kind, agg, w, compress, lo, hi - 1), Points(kind, agg, w, compress, lo, hi - 1), c, d);
    }
  }

  lemma SnocSame(a: seq<Call>, b: seq<Call>, c: Option<Call>, d: Option<Call>)
    requires |a| == |b| && c.Some? == d.Some?
    ensures |a + Listed(c)| == |b + Listed(d)|
    ensures a + Listed(c) == b + Listed(d) <==> a == b && c == d
  {
    if a + Listed(c) == b + Listed(d) {
      assert a == (a + Listed(c))[..|a|] && b == (b + Listed(d))[..|b|];
      if c.Some? {
        assert (a + Listed(c))[|a|] == c.value && (b + Listed(d))[|b|] == d.value;
      }
    }
  }

  /** A scan hands over the merged value of every slot under its own number if and only if it agrees. */
  lemma ScanIsMergeIff(kind: Kind, agg: (Word, Word) -> Word, w: Window, compress: Bytes)
    requires Readable(compress)
    ensures AllCalls(kind, agg, w, compress) == Points(kind, agg, w, compress, Lo(w, compress), Hi(w, compress)) <==>
            Agrees(w, compress)
  {
    hide CallAt, PointAt, Calls, Points, OldAt, NewAt, Readable;
    var lo, hi := Lo(w, compress), Hi(w, compress);
    CallsArePoints(kind, agg, w, compress, lo, hi);
    forall slot
      ensures InRange(w, slot) ==> lo <= slot < hi
      ensures CallAt(kind, agg, w, compress, slot) == PointAt(kind, agg, w, compress, slot) <==>
              w.startTime == 0 || (InRange(w, slot) && OldAt(compress, slot).Some? ==> NewAt(w, slot).Some?)
    {
      SameCall(kind, agg, w, compress, slot);
    }
  }

  // ----- before and after a compaction -----

  lemma {:induction false} CompactedPoints(kind: Kind, agg: (Word, Word) -> Word, w: Window, compress: Bytes, data: Bytes,
                                           lo: int, hi: int)
    requires Readable(compress) && Readable(data) && StoresMerge(kind, agg, w, compress, data)
    ensures Calls(kind, agg, w.(container := Zeros(64)), data, lo, hi) == Points(kind, agg, w, compress, lo, hi)
    decreases hi - lo
  {
    hide OldAt, NewAt, Readable, MergedSlot, Combine, Decoded;
    if lo < hi {
      CompactedPoints(kind, agg, w, compress, data, lo, hi - 1);
      var w' := w.(container := Zeros(64));
      EmptyWindow(w');
      MergedSlotValue(kind, agg, NewAt(w, hi - 1), OldAt(compress, hi - 1));
      assert CallAt(kind, agg, w', data, hi - 1) == PointAt(kind, agg, w, compress, hi - 1);
    }
  }

  /** The scan of a compacted block is the merge of what it was compacted from. */
  lemma CompactedCalls(kind: Kind, agg: (Word, Word) -> Word, w: Window, compress: Bytes, data: Bytes)
    requires Readable(compress) && Readable(data) && StoresMerge(kind, agg, w, compress, data) && data != []
    requires DecodedStart(data) == Lo(w, compress) && DecodedStart(data) + DecodedCount(data) == Hi(w, compress)
    ensures AllCalls(kind, agg, w.(container := Zeros(64)), data)
         == Points(kind, agg, w, compress, Lo(w, compress), Hi(w, compress))
  {
    hide Calls, Points, StoresMerge, Readable, DecodedStart, DecodedCount;
    CompactedPoints(kind, agg, w, compress, data, Lo(w, compress), Hi(w, compress));
  }

  // ----- the scan -----

  /** The slots from `lo` to below `i` are handed over, and the aggregators are not complete. */
  ghost predicate Scanned(done: seq<Call> -> bool, kind: Kind, agg: (Word, Word) -> Word, w: Window, compress: Bytes,
                          lo: int, i: int, calls: seq<Call>)
    requires Readable(compress)
  {
    lo <= i && calls == Calls(kind, agg, w, compress, lo, i) && Made(done, calls) == calls && !Complete(done, calls)
  }

  lemma ScannedNone(done: seq<Call> -> bool, kind: Kind, agg: (Word, Word) -> Word, w: Window, compress: Bytes, lo: int)
    requires Readable(compress)
    ensures Scanned(done, kind, agg, w, compress, lo, lo, [])
  {
  }

  /** `aggregate`: hands one slot over, when it has a value. */
  method Aggregate(done: seq<Call> -> bool, calls: seq<Call>, c: Option<Call>, ghost kind: Kind,
                   ghost agg: (Word, Word) -> Word, ghost w: Window, ghost compress: Bytes, ghost lo: int, ghost i: int,
                   ghost hi: int)
    returns (calls': seq<Call>, complete: bool)
    requires Readable(compress) && Scanned(done, kind, agg, w, compress, lo, i, calls) && i < hi
    requires c == CallAt(kind, agg, w, compress, i)
    ensures !complete ==> Scanned(done, kind, agg, w, compress, lo, i + 1, calls')
    ensures complete ==> calls' == Made(done, Calls(kind, agg, w, compress, lo, hi))
  {
    hide CallAt, Readable;
    MadeSnoc(done, calls, c);
    if c == None {
      return calls, false;
    }
    calls' := calls + [c.value];
    complete := done(calls');
    if complete {
      CompleteAt(done, kind, agg, w, compress, lo, i + 1, hi);
    }
  }

  /** The window alone. */
  method ScanWindow(b: Block, agg: (Word, Word) -> Word, done: seq<Call> -> bool) returns (calls: seq<Call>)
    requires b.Valid() && b.compress == [] && b.container != Zeros(64)
    ensures calls == Made(done, AllCalls(b.kind, agg, b.Win(), b.compress))
  {
    hide EndTime, HasValue, NewAt, Calls, Scanned;
    ghost var w := b.Win();
    EndTimeIsLast(b.container, b.startTime);
    var end := EndTime(b.container, b.startTime) - b.startTime;
    calls := [];
    ScannedNone(done, b.kind, agg, w, [], b.startTime);
    for i := 0 to end + 1
      invariant Scanned(done, b.kind, agg, w, [], b.startTime, b.startTime + i, calls)
    {
      PresentSlot(w, b.startTime + i);
      var c := None;
      if HasValue(b.container, i) {
        c := Some(Call(i + b.startTime, b.values[i]));
      }
      var complete;
      calls, complete := Aggregate(done, calls, c, b.kind, agg, w, [], b.startTime, b.startTime + i, Hi(w, []));
      if complete {
        return;
      }
    }
    ScannedAll(done, b.kind, agg, w, [], b.startTime, Hi(w, []), calls);
  }

  lemma ScannedAll(done: seq<Call> -> bool, kind: Kind, agg: (Word, Word) -> Word, w: Window, compress: Bytes,
                   lo: int, hi: int, calls: seq<Call>)
    requires Readable(compress) && Scanned(done, kind, agg, w, compress, lo, hi, calls)
    ensures calls == Made(done, Calls(kind, agg, w, compress, lo, hi))
  {
  }

  /** The decoder of the run before its `k`th slot. */
  ghost predicate RunAt(b: Block, tsd: TSDDecoder, k: nat)
    requires b.Valid() && b.compress != []
    reads b, b.values, tsd, tsd.Repr
  {
    var all := DecodedSlots(b.compress).value;
    && tsd.Valid() && !tsd.err && {b, b.values} !! tsd.Repr
    && tsd.startTime == DecodedStart(b.compress) && tsd.count == DecodedCount(b.compress) == |all|
    && tsd.idx == k <= |all| && tsd.Ahead(all[k..])
  }

  method OpenRun(b: Block) returns (tsd: TSDDecoder)
    requires b.Valid() && b.compress != []
    ensures fresh(tsd.Repr) && RunAt(b, tsd, 0)
  {
    hide DecodedSlots, DecodedStart, DecodedCount, DecSlots, Flat, Tail;
    SlotsCount(b.compress);
    tsd := new TSDDecoder(b.compress);
    ghost var all := DecodedSlots(b.compress).value;
    assert all[0..] == all;
  }

  /** One turn of the loop over the run. */
  method RunTurn(b: Block, tsd: TSDDecoder, ghost k: nat, ghost agg: (Word, Word) -> Word)
    returns (more: bool, c: Option<Call>)
    requires b.Valid() && b.compress != [] && b.container == Zeros(64) && RunAt(b, tsd, k)
    modifies tsd.Repr
    ensures more == (k < DecodedCount(b.compress)) && (more ==> RunAt(b, tsd, k + 1))
    ensures more ==> c == CallAt(b.kind, agg, b.Win(), b.compress, DecodedStart(b.compress) + k)
  {
    hide DecodedSlots, DecodedStart, DecodedCount, DecSlots, FromBits, NewAt, DecStep;
    ghost var all := DecodedSlots(b.compress).value;
    EmptyWindow(b.Win());
    more, c := false, None;
    if !tsd.err {
      more := tsd.Next();
      if more {
        assert all[k..][0] == all[k] && all[k..][1..] == all[k + 1..];
        var x := ReadSlot(tsd, all[k..]);
        c := if x == None then None else Some(Call(tsd.Slot(), FromBits(b.kind, x.value)));
      }
    }
  }

  /** The compressed run alone. */
  method ScanRun(b: Block, agg: (Word, Word) -> Word, done: seq<Call> -> bool) returns (calls: seq<Call>)
    requires b.Valid() && b.compress != [] && b.container == Zeros(64)
    ensures calls == Made(done, AllCalls(b.kind, agg, b.Win(), b.compress))
  {
    hide DecodedSlots, DecodedStart, DecodedCount, Made, Calls, RunAt, CallAt, Scanned;
    ghost var w, lo, hi := b.Win(), DecodedStart(b.compress), DecodedStart(b.compress) + DecodedCount(b.compress);
    var tsd := OpenRun(b);
    calls := [];
    ScannedNone(done, b.kind, agg, w, b.compress, lo);
    ghost var k := 0;
    while true
      invariant k <= DecodedCount(b.compress) && b.Valid() && fresh(tsd.Repr) && RunAt(b, tsd, k)
      invariant Scanned(done, b.kind, agg, w, b.compress, lo, lo + k, calls)
      decreases DecodedCount(b.compress) - k
    {
      var more, c := RunTurn(b, tsd, k, agg);
      if !more {
        break;
      }
      var complete;
      calls, complete := Aggregate(done, calls, c, b.kind, agg, w, b.compress, lo, lo + k, hi);
      if complete {
        return;
      }
      k := k + 1;
    }
    ScannedAll(done, b.kind, agg, w, b.compress, lo, hi, calls);
  }

  /** The scanner's choice for slot `i`: the four cases of both ranges, or the one range. */
  method ChooseCall(b: Block, i: int, curEnd: int, inOldRange: bool, hasOldValue: bool, oldValue: Word, agg: (Word, Word) -> Word)
    returns (c: Option<Call>)
    requires b.Valid() && b.container != Zeros(64) && curEnd == EndTime(b.container, b.startTime)
    requires OldAt(b.compress, i) == if inOldRange && hasOldValue then Some(oldValue) else None
    ensures c == CallAt(b.kind, agg, b.Win(), b.compress, i)
  {
    hide EndTime, FromBits, NewAt, HasValue, OldAt;
    PresentSlot(b.Win(), i);
    var inCurrentRange := b.startTime <= i <= curEnd;
    var newSlot := i - b.startTime;
    var hasValue := HasValue(b.container, newSlot);
    if inCurrentRange && inOldRange {
      if hasValue && hasOldValue {
        c := Some(Call(newSlot + b.startTime, agg(b.values[newSlot], FromBits(b.kind, oldValue))));
      } else if hasValue {
        c := Some(Call(newSlot + b.startTime, b.values[newSlot]));
      } else if hasOldValue {
        c := Some(Call(newSlot, FromBits(b.kind, oldValue)));
      } else {
        c := None;
      }
    } else if inCurrentRange && hasValue {
      c := Some(Call(newSlot + b.startTime, b.values[newSlot]));
    } else if !inCurrentRange && inOldRange && hasOldValue {
      c := Some(Call(i, FromBits(b.kind, oldValue)));
    } else {
      c := None;
    }
  }

  /** The slots of a compressed run. */
  ghost function RunSlots(compress: Bytes): (all: seq<Slot>)
    requires Readable(compress) && compress != []
  {
    DecodedSlots(compress).value
  }

  /** The merge scanner before slot `i`. */
  ghost predicate BothAt(b: Block, tsd: TSDDecoder, i: int)
    requires b.Valid() && b.compress != []
    reads b, b.values, tsd, tsd.Repr
  {
    var all := RunSlots(b.compress);
    && tsd.Valid() && {b, b.values} !! tsd.Repr && b.At(tsd, i, all)
    && tsd.startTime == DecodedStart(b.compress) && tsd.endTime == tsd.startTime + |all| - 1
  }

  method OpenBoth(b: Block) returns (tsd: TSDDecoder, start: int, end: int, curEnd: int)
    requires b.Valid() && b.compress != [] && b.container != Zeros(64)
    ensures fresh(tsd.Repr) && start <= end && curEnd == EndTime(b.container, b.startTime)
    ensures start == Lo(b.Win(), b.compress) && end + 1 == Hi(b.Win(), b.compress) && BothAt(b, tsd, start)
  {
    hide DecodedSlots, DecodedStart, DecodedCount, EndTime, Block.At;
    EndTimeIsLast(b.container, b.startTime);
    ghost var all;
    tsd, all := b.OpenScan();
    start := Min(b.startTime, tsd.startTime);
    curEnd := EndTime(b.container, b.startTime);
    end := Max(curEnd, tsd.endTime);
  }

  /** One turn of the merge scanner. */
  method BothTurn(b: Block, tsd: TSDDecoder, i: int, curEnd: int, agg: (Word, Word) -> Word) returns (c: Option<Call>)
    requires b.Valid() && b.compress != [] && b.container != Zeros(64) && curEnd == EndTime(b.container, b.startTime)
    requires BothAt(b, tsd, i)
    modifies tsd.Repr
    ensures BothAt(b, tsd, i + 1)
    ensures c == CallAt(b.kind, agg, b.Win(), b.compress, i)
  {
    hide DecodedSlots, DecodedStart, EndTime, CallAt, Block.At, Readable, NewAt;
    ghost var all := RunSlots(b.compress);
    var inOldRange := tsd.startTime <= i <= tsd.endTime;
    var hasOldValue, oldValue := b.ScanOld(tsd, i, inOldRange, all);
    c := ChooseCall(b, i, curEnd, inOldRange, hasOldValue, oldValue, agg);
  }

  /** Both: the merge scanner. */
  method ScanBoth(b: Block, agg: (Word, Word) -> Word, done: seq<Call> -> bool) returns (calls: seq<Call>)
    requires b.Valid() && b.compress != [] && b.container != Zeros(64)
    ensures calls == Made(done, AllCalls(b.kind, agg, b.Win(), b.compress))
  {
    hide DecodedSlots, DecodedStart, DecodedCount, EndTime, Made, Calls, BothAt, CallAt, Scanned;
    ghost var w := b.Win();
    var tsd, start, end, curEnd := OpenBoth(b);
    calls := [];
    ScannedNone(done, b.kind, agg, w, b.compress, start);
    for i := start to end + 1
      invariant b.Valid() && fresh(tsd.Repr) && BothAt(b, tsd, i)
      invariant Scanned(done, b.kind, agg, w, b.compress, start, i, calls)
    {
      var c := BothTurn(b, tsd, i, curEnd, agg);
      var complete;
      calls, complete := Aggregate(done, calls, c, b.kind, agg, w, b.compress, start, i, end + 1);
      if complete {
        return;
      }
    }
    ScannedAll(done, b.kind, agg, w, b.compress, start, end + 1, calls);
  }

  /** `scan`: the calls for all slots in order, up to the one that completes the aggregators. */
  method Scan(b: Block, agg: (Word, Word) -> Word, done: seq<Call> -> bool) returns (calls: seq<Call>)
    requires b.Valid()
    ensures calls == Made(done, AllCalls(b.kind, agg, b.Win(), b.compress))
    ensures calls <= AllCalls(b.kind, agg, b.Win(), b.compress)
    ensures calls == AllCalls(b.kind, agg, b.Win(), b.compress) || (calls != [] && done(calls))
    ensures forall n :: 0 < n < |calls| ==> !done(AllCalls(b.kind, agg, b.Win(), b.compress)[..n])
  {
    hide Readable, DecodedStart, DecodedCount, EndTime;
    MadeIs(done, AllCalls(b.kind, agg, b.Win(), b.compress));
    if b.compress == [] && b.container == Zeros(64) {
      calls := [];
    } else if b.compress == [] {
      calls := ScanWindow(b, agg, done);
    } else if b.container == Zeros(64) {
      calls := ScanRun(b, agg, done);
    } else {
      calls := ScanBoth(b, agg, done);
    }
  }

  lemma {:induction false} MadeAll(done: seq<Call> -> bool, cs: seq<Call>)
    requires forall c :: !done(c)
    ensures Made(done, cs) == cs
    decreases |cs|
  {
    if |cs| > 0 {
      MadeAll(done, cs[..|cs| - 1]);
    }
  }

  /**
   A scan, a compaction and a second scan.  Where the block agrees, both scans make the same
   calls; and only there, when the aggregators take all values.
   */
  method ScanCompactScan(b: Block, agg: (Word, Word) -> Word, done: seq<Call> -> bool)
    returns (before: seq<Call>, after: seq<Call>)
    requires b.Valid() && b.container != Zeros(64)
    requires Fits(Lo(b.Win(), b.compress), Hi(b.Win(), b.compress) - 1)
    modifies b`compress, b`container
    ensures b.Valid()
    ensures Agrees(old(b.Win()), old(b.compress)) ==> before == after
    ensures (forall cs :: !done(cs)) ==> (before == after <==> Agrees(old(b.Win()), old(b.compress)))
  {
    hide DecodedSlots, DecodedStart, DecodedCount, EndTime, Made, Calls, Points, Agrees, StoresMerge, NewAt, OldAt;
    ghost var w, compress := b.Win(), b.compress;
    before := Scan(b, agg, done);
    var _, _ := b.Compact(agg);
    after := Scan(b, agg, done);
    CompactedCalls(b.kind, agg, w, compress, b.compress);
    ScanIsMergeIff(b.kind, agg, w, compress);
    if forall cs :: !done(cs) {
      MadeAll(done, AllCalls(b.kind, agg, w, compress));
      MadeAll(done, AllCalls(b.kind, agg, b.Win(), b.compress));
    }
  }

  /** A window that starts at slot 1 and holds one value. */
  ghost predicate HoldsOne(w: Window, p: nat, u: Word) {
    w.startTime == 1 && |w.values| == 2 && p < 2 && w.container == Zeros(64)[p := true] && w.values[p] == u
  }

  lemma OneValue(w: Window, p: nat, u: Word)
    requires HoldsOne(w, p, u)
    ensures w.container != Zeros(64) && EndTime(w.container, 1) == 1 + p
    ensures forall slot :: NewAt(w, slot) == if slot == 1 + p then Some(u) else None
  {
    hide EndTime;
    assert w.container[p] && forall i :: 0 <= i < 64 && i != p ==> !w.container[i];
    EndTimeIsLast(w.container, 1);
  }

  lemma OneMisplaced(agg: (Word, Word) -> Word, w: Window, compress: Bytes, u: Word, v: Word)
    requires HoldsOne(w, 1, v) && Readable(compress) && compress != []
    requires DecodedStart(compress) == 1 && DecodedCount(compress) == 1
    requires forall slot :: OldAt(compress, slot) == if slot == 1 then Some(u) else None
    ensures AllCalls(FloatValues, agg, w, compress) == [Call(0, u), Call(2, v)]
  {
    hide EndTime, OldAt, NewAt, DecodedStart, DecodedCount, Readable, HoldsOne;
    assert w.startTime == 1 by { OneStart(w, 1, v); }
    OneValue(w, 1, v);
    assert Lo(w, compress) == 1 && Hi(w, compress) == 3;
    assert CallAt(FloatValues, agg, w, compress, 1) == Some(Call(0, u));
    assert CallAt(FloatValues, agg, w, compress, 2) == Some(Call(2, v));
    assert Calls(FloatValues, agg, w, compress, 1, 1) == [];
    assert Calls(FloatValues, agg, w, compress, 1, 2) == [Call(0, u)];
  }

  lemma OneStored(agg: (Word, Word) -> Word, w: Window, data: Bytes, u: Word)
    requires HoldsOne(w, 0, u) && Readable(data) && StoresMerge(FloatValues, agg, w, [], data)
    ensures forall slot :: OldAt(data, slot) == if slot == 1 then Some(u) else None
  {
    hide EndTime, NewAt, Readable, HoldsOne, SlotOf;
    OneValue(w, 0, u);
  }

  lemma OneStart(w: Window, p: nat, u: Word)
    requires HoldsOne(w, p, u)
    ensures w.startTime == 1
  {
  }

  /** A value at slot 1 is compacted, a value at slot 2 follows: the scan reports the first at slot 0. */
  method MisplacedSlot(u: Word, v: Word, agg: (Word, Word) -> Word) returns (calls: seq<Call>)
    ensures calls == [Call(0, u), Call(2, v)]
  {
    hide EndTime, OldAt, NewAt, DecodedStart, DecodedCount, DecodedSlots, Calls, CallAt, Made, Readable;
    var b := new Block(FloatValues, 2);
    b.SetStartTime(1);
    b.SetValue(0, u);
    ghost var w := b.Win();
    OneValue(w, 0, u);
    var start, end := b.Compact(agg);
    OneStored(agg, w, b.compress, u);
    b.SetStartTime(1);
    b.SetValue(1, v);
    OneMisplaced(agg, b.Win(), b.compress, u, v);
    var never := (cs: seq<Call>) => false;
    calls := Scan(b, agg, never);
    MadeAll(never, [Call(0, u), Call(2, v)]);
  }
}
