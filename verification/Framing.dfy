/**
 Two framings over the byte stream codec: the edit log of `kv/version`, a typed
 record list that becomes one manifest record, and the batch of length-prefixed
 messages a replication channel appends to its queue.
 */
module Framing {
  import opened Words
  import opened Stream

  // ----- edit log -----

  datatype FileMeta = FileMeta(number: int, minKey: nat, maxKey: nat, size: int)

  datatype Log =
    | NewFile(level: int, file: FileMeta)
    | DeleteFile(level: int, number: int)
    | NextFileNumber(number: int)

  datatype EditLog = EditLog(familyID: int, logs: seq<Log>)

  /** The fields are in the ranges of their machine types. */
  predicate LogOk(l: Log) {
    match l
    case NewFile(level, f) =>
      IsInt32(level) && IsInt64(f.number) && f.minKey < U32 && f.maxKey < U32 && IsInt32(f.size)
    case DeleteFile(level, n) => IsInt32(level) && IsInt64(n)
    case NextFileNumber(n) => IsInt64(n)
  }

  predicate LogsOk(logs: seq<Log>) {
    |logs| < U64 && forall i :: 0 <= i < |logs| ==> LogOk(logs[i])
  }

  function TypeOf(l: Log): (t: int)
  {
    match l
    case NewFile(_, _) => 1
    case DeleteFile(_, _) => 2
    case NextFileNumber(_) => 3
  }

  function Encode(l: Log): (b: Bytes)
  {
    match l
    case NewFile(level, f) =>
      PutVarint(level) + (PutVarint(f.number) + (PutUvarint(f.minKey) + (PutUvarint(f.maxKey) + PutVarint(f.size))))
    case DeleteFile(level, n) => PutVarint(level) + PutVarint(n)
    case NextFileNumber(n) => PutVarint(n)
  }

  /** One record: its type, the length of its data, its data. */
  function Record(l: Log): (b: Bytes)
  {
    PutVarint(TypeOf(l)) + (PutUvarint(|Encode(l)| % U32) + Encode(l))
  }

  function Records(logs: seq<Log>): (b: Bytes)
  {
    if |logs| == 0 then [] else Record(logs[0]) + Records(logs[1..])
  }

  function Marshal(el: EditLog): (b: Bytes)
  {
    PutVarint(Wrap32(el.familyID)) + (PutUvarint(|el.logs|) + Records(el.logs))
  }

  lemma {:induction false} UvarintLength(x: nat, i: nat)
    requires i <= 9 && x < Room(i)
    ensures |PutUvarint(x)| <= 10 - i
    decreases x
  {
    hide ByteOf;
    if x >= 128 {
      assert i < 9;
      UvarintLength(x / 128, i + 1);
    }
  }

  lemma EncodeLength(l: Log)
    requires LogOk(l)
    ensures 0 < |Encode(l)| <= 50
  {
    hide PutUvarint, ZigZag;
    RoomZero();
    match l
    case NewFile(level, f) =>
      ZigZagRange(level); ZigZagRange(f.number); ZigZagRange(f.size);
      UvarintLength(ZigZag(level), 0); UvarintLength(ZigZag(f.number), 0); UvarintLength(ZigZag(f.size), 0);
      UvarintLength(f.minKey, 0); UvarintLength(f.maxKey, 0);
    case DeleteFile(level, n) =>
      ZigZagRange(level); ZigZagRange(n);
      UvarintLength(ZigZag(level), 0); UvarintLength(ZigZag(n), 0);
    case NextFileNumber(n) =>
      ZigZagRange(n);
      UvarintLength(ZigZag(n), 0);
  }

  // ----- reading an edit log -----

  /** `Decode` of the log type registered under `t`; an unknown type is an error. */
  method Decode(t: int, data: Bytes, ghost l: Log) returns (ok: bool, l': Log)
    ensures LogOk(l) && t == TypeOf(l) && data == Encode(l) ==> ok && l' == l
    ensures LogOk(l) && t == TypeOf(l) && data < Encode(l) ==> !ok
    ensures ok ==> 1 <= t <= 3 && TypeOf(l') == t
  {
    hide PutUvarint, PutVarint;
    var r := new Reader(data);
    l' := NextFileNumber(0);
    if t == 1 {
      ok, l' := DecodeNewFile(r, if l.NewFile? then l else NewFile(0, FileMeta(0, 0, 0, 0)));
    } else if t == 2 {
      ghost var (x, y) := if l.DeleteFile? then (l.level, l.number) else (0, 0);
      EndOf(PutVarint(y));
      var level := ReadI32(r, x, PutVarint(y));
      var number := ReadI64(r, y, []);
      ok, l' := !r.err, DeleteFile(level, number);
    } else if t == 3 {
      ghost var y := if l.NextFileNumber? then l.number else 0;
      EndOf(PutVarint(y));
      var number := ReadI64(r, y, []);
      ok, l' := !r.err, NextFileNumber(number);
    } else {
      ok := false;
    }
  }

  lemma EndOf(a: Bytes)
    ensures a == a + []
  {
  }

  method DecodeNewFile(r: Reader, ghost l: Log) returns (ok: bool, l': Log)
    requires r.Valid() && l.NewFile?
    modifies r
    ensures LogOk(l) && old(r.Rest()) == Encode(l) ==> ok && l' == l
    ensures LogOk(l) && old(r.Rest()) < Encode(l) ==> !ok
    ensures l'.NewFile?
  {
    hide PutUvarint, PutVarint;
    ghost var f := l.file;
    EndOf(PutVarint(f.size));
    var level := ReadI32(r, l.level, PutVarint(f.number) + (PutUvarint(f.minKey) + (PutUvarint(f.maxKey) + PutVarint(f.size))));
    var number := ReadI64(r, f.number, PutUvarint(f.minKey) + (PutUvarint(f.maxKey) + PutVarint(f.size)));
    var minKey := ReadU32(r, f.minKey, PutUvarint(f.maxKey) + PutVarint(f.size));
    var maxKey := ReadU32(r, f.maxKey, PutVarint(f.size));
    var size := ReadI32(r, f.size, []);
    ok, l' := !r.err, NewFile(level, FileMeta(number, minKey, maxKey, size));
  }

  /**
   `unmarshal`.  What `marshal` wrote comes back, for every list of records; the
   family id goes through an `int32`.  What lost its end, wherever, is an error.
   */
  method Unmarshal(buf: Bytes, ghost el: EditLog) returns (ok: bool, el': EditLog)
    ensures LogsOk(el.logs) && buf == Marshal(el) ==> ok && el' == EditLog(Wrap32(el.familyID), el.logs)
    ensures LogsOk(el.logs) && buf < Marshal(el) ==> !ok
  {
    hide PutUvarint, PutVarint, Records, Wrap32;
    var r := new Reader(buf);
    var id := ReadI32(r, Wrap32(el.familyID), PutUvarint(|el.logs|) + Records(el.logs));
    var count := ReadU(r, |el.logs|, Records(el.logs));
    var logs;
    ok, logs := ReadRecords(r, count, el.logs);
    el' := EditLog(id, logs);
  }

  /** A part of the records from `done` on is left, and `count` of them are awaited. */
  ghost predicate Ahead(r: Reader, logs: seq<Log>, done: nat, count: nat)
    requires r.Valid()
    reads r
  {
    done <= |logs| && count == |logs| - done && r.Rest() < Records(logs[done..])
  }

  /** The loop over the records.  An error of the reader stays, once its data is used up. */
  method ReadRecords(r: Reader, count: nat, ghost logs: seq<Log>) returns (ok: bool, out: seq<Log>)
    requires r.Valid()
    modifies r
    ensures LogsOk(logs) && count == |logs| && !old(r.err) && old(r.Rest()) == Records(logs) ==> ok && out == logs
    ensures LogsOk(logs) && ((old(r.err) && old(r.Rest()) == []) || (count == |logs| && old(r.Rest()) < Records(logs))) ==> !ok
  {
    hide Records;
    ghost var good := LogsOk(logs) && count == |logs| && !r.err && r.Rest() == Records(logs);
    ghost var cut := LogsOk(logs) && ((r.err && r.Rest() == []) || (count == |logs| && r.Rest() < Records(logs)));
    assert logs[0..] == logs;
    out := [];
    for done := 0 to count
      invariant r.Valid() && (good ==> out == logs[..done] && !r.err && r.Rest() == Records(logs[done..]))
      invariant cut ==> (r.err && r.Rest() == []) || Ahead(r, logs, done, count - done)
    {
      ghost var known := good || (cut && Ahead(r, logs, done, count - done));
      if known {
        RecordsHead(logs, done);
      }
      ghost var next, rest := if known then logs[done] else NextFileNumber(0), if known then Records(logs[done + 1..]) else [];
      var read, l := ReadRecord(r, next, rest);
      if !read {
        return false, out;
      }
      out := out + [l];
    }
    NoRecords(logs);
    ok := !r.err;
  }

  lemma NoRecords(logs: seq<Log>)
    ensures Records(logs[|logs|..]) == []
  {
  }

  lemma RecordsHead(logs: seq<Log>, i: nat)
    requires i < |logs|
    ensures Records(logs[i..]) == Record(logs[i]) + Records(logs[i + 1..])
  {
    hide Record;
    assert logs[i..][1..] == logs[i + 1..];
  }

  method ReadRecord(r: Reader, ghost l: Log, ghost rest: Bytes) returns (ok: bool, l': Log)
    requires r.Valid()
    modifies r
    ensures r.Valid()
    ensures LogOk(l) && old(r.Rest()) == Record(l) + rest ==> ok && l' == l && !r.err && r.Rest() == rest
    ensures LogOk(l) && old(r.Rest()) < Record(l) + rest && ok ==> l' == l && !r.err && r.Rest() < rest
    ensures old(r.Rest()) == [] ==> !ok
  {
    hide PutUvarint, PutVarint, Encode;
    TypeByte(l);
    RecordParts(l, rest);
    var t := ReadI32(r, TypeOf(l), PutUvarint(|Encode(l)| % U32) + (Encode(l) + rest));
    if t != 1 && t != 2 && t != 3 {
      return false, NextFileNumber(0);
    }
    ok, l' := ReadData(r, t, l, rest);
  }

  /** A record's length and data. */
  method ReadData(r: Reader, t: int, ghost l: Log, ghost rest: Bytes) returns (ok: bool, l': Log)
    requires r.Valid()
    modifies r
    ensures r.Valid()
    ensures LogOk(l) && t == TypeOf(l) && old(r.Rest()) == PutUvarint(|Encode(l)| % U32) + (Encode(l) + rest) ==>
              ok && l' == l && !r.err && r.Rest() == rest
    ensures LogOk(l) && t == TypeOf(l) && old(r.Rest()) < PutUvarint(|Encode(l)| % U32) + (Encode(l) + rest) && ok ==>
              l' == l && !r.err && r.Rest() < rest
  {
    hide PutUvarint, Encode;
    ghost var data := Encode(l);
    if LogOk(l) {
      EncodeLength(l);
      Split(data, rest);
    }
    var n := ReadU32(r, |data| % U32, data + rest);
    ghost var before := r.Rest();
    var b := r.ReadSlice(n);
    if before < data + rest {
      SliceFront(data, rest, before);
    }
    ok, l' := Decode(t, b, l);
  }

  lemma TypeByte(l: Log)
    ensures |PutVarint(TypeOf(l))| == 1
  {
  }

  /** The first bytes of a stream that is cut off: all of `a`, or a part of it. */
  lemma SliceFront(a: Bytes, rest: Bytes, b: Bytes)
    requires b < a + rest
    ensures if |b| < |a| then b < a else b[..|a|] == a && b[|a|..] < rest
  {
    assert forall i :: 0 <= i < |b| ==> b[i] == (a + rest)[i];
  }

  lemma RecordParts(l: Log, rest: Bytes)
    ensures Record(l) + rest == PutVarint(TypeOf(l)) + (PutUvarint(|Encode(l)| % U32) + (Encode(l) + rest))
  {
    hide PutUvarint, PutVarint, Encode;
  }

  /** Every edit log survives the manifest, its family id cut to 32 bits. */
  method EditLogRoundTrip(el: EditLog) returns (ok: bool, el': EditLog)
    requires LogsOk(el.logs)
    ensures ok && el' == EditLog(Wrap32(el.familyID), el.logs)
    ensures el' == el <==> IsInt32(el.familyID)
  {
    ok, el' := Unmarshal(Marshal(el), el);
  }

  // ----- replica batches -----

  /** `appendWithVarLen`. */
  function Frame(data: Bytes): (b: Bytes)
    ensures |b| >= 1
  {
    PutUvarint(|data| % U32) + data
  }

  function Frames(ds: seq<Bytes>): (b: Bytes)
  {
    if |ds| == 0 then [] else Frames(ds[..|ds| - 1]) + Frame(ds[|ds| - 1])
  }

  lemma {:induction false} FramesFront(ds: seq<Bytes>)
    requires |ds| > 0
    ensures Frames(ds) == Frame(ds[0]) + Frames(ds[1..])
    decreases |ds|
  {
    hide Frame;
    if |ds| == 1 {
      assert ds[..0] == [] && ds[1..] == [];
    } else {
      var n := |ds| - 1;
      FramesFront(ds[..n]);
      assert ds[..n][1..] == ds[1..][..n - 1];
      assert ds[1..][n - 1] == ds[n];
    }
  }

  predicate FramesOk(ds: seq<Bytes>) {
    forall i :: 0 <= i < |ds| ==> |ds[i]| < U32
  }

  /**
   The message loop of `handleReplica`: all messages of a batch, and of a batch that lost its
   end all messages before the cut.
   */
  method ParseFrames(buf: Bytes, ghost ds: seq<Bytes>) returns (out: seq<Bytes>)
    ensures FramesOk(ds) && buf == Frames(ds) ==> out == ds
    ensures FramesOk(ds) && buf <= Frames(ds) ==>
              && |out| <= |ds| && out == ds[..|out|] && Frames(out) <= buf
              && (|out| < |ds| ==> !(Frames(ds[..|out| + 1]) <= buf))
  {
    ghost var known := FramesOk(ds) && buf <= Frames(ds);
    var r := new Reader(buf);
    out := [];
    ghost var left := buf;
    ParsedNone(ds, buf);
    hide Frame, Frames, Parsed;
    while !r.Empty()
      invariant r.Valid() && fresh(r) && left == r.Rest()
      invariant known ==> Parsed(ds, out, buf, left)
      decreases |left|
    {
      if known {
        ParsedNext(ds, out, buf, left);
      }
      ghost var d, rest := if known then ds[|out|] else [], if known then Frames(ds[|out| + 1..]) else [];
      var more, b := ReadFrame(r, d, rest);
      if !more {
        break;
      }
      if known {
        ParsedMore(ds, out, buf, left, r.Rest());
      }
      left := r.Rest();
      out := out + [b];
    }
    if known {
      ParsedEnd(ds, out, buf, left);
    }
  }

  /** The messages `out` are parsed, and `left` is what is left of the batch. */
  ghost predicate Parsed(ds: seq<Bytes>, out: seq<Bytes>, buf: Bytes, left: Bytes) {
    && |out| <= |ds| && out == ds[..|out|]
    && buf == Frames(out) + left && left <= Frames(ds[|out|..])
  }

  lemma ParsedNone(ds: seq<Bytes>, buf: Bytes)
    ensures buf <= Frames(ds) ==> Parsed(ds, [], buf, buf)
  {
    assert ds[0..] == ds;
  }

  lemma ParsedNext(ds: seq<Bytes>, out: seq<Bytes>, buf: Bytes, left: Bytes)
    requires Parsed(ds, out, buf, left) && left != []
    ensures |out| < |ds| && left <= Frame(ds[|out|]) + Frames(ds[|out| + 1..])
  {
    hide Frame;
    var k := |out|;
    FramesFront(ds[k..]);
    assert ds[k..][1..] == ds[k + 1..];
  }

  lemma ParsedMore(ds: seq<Bytes>, out: seq<Bytes>, buf: Bytes, left: Bytes, left': Bytes)
    requires Parsed(ds, out, buf, left) && |out| < |ds|
    requires left == Frame(ds[|out|]) + left' && left' <= Frames(ds[|out| + 1..])
    ensures Parsed(ds, out + [ds[|out|]], buf, left')
  {
    hide Frame, Frames;
    FramesSnoc(ds, |out|);
    Assoc(Frames(out), Frame(ds[|out|]), left');
  }

  /** Parsing stops where the next message is not whole. */
  lemma ParsedEnd(ds: seq<Bytes>, out: seq<Bytes>, buf: Bytes, left: Bytes)
    requires Parsed(ds, out, buf, left) && (|out| < |ds| ==> |left| < |Frame(ds[|out|])|)
    ensures |out| <= |ds| && out == ds[..|out|] && Frames(out) <= buf
    ensures |out| < |ds| ==> !(Frames(ds[..|out| + 1]) <= buf)
    ensures buf == Frames(ds) ==> out == ds
  {
    hide Frame, Frames;
    if |out| < |ds| {
      FramesSnoc(ds, |out|);
      FramesPrefix(ds, |out| + 1);
    }
  }

  lemma FramesSnoc(ds: seq<Bytes>, k: nat)
    requires k < |ds|
    ensures Frames(ds[..k + 1]) == Frames(ds[..k]) + Frame(ds[k]) && ds[..k + 1] == ds[..k] + [ds[k]]
  {
    hide Frame;
    assert ds[..k + 1][..k] == ds[..k];
  }

  lemma {:induction false} FramesPrefix(ds: seq<Bytes>, k: nat)
    requires k <= |ds|
    ensures Frames(ds[..k]) <= Frames(ds)
    decreases |ds|
  {
    hide Frame;
    if k == |ds| {
      assert ds[..k] == ds;
    } else {
      FramesPrefix(ds[..|ds| - 1], k);
      assert ds[..|ds| - 1][..k] == ds[..k];
    }
  }

  method ReadFrame(r: Reader, ghost d: Bytes, ghost rest: Bytes) returns (more: bool, b: Bytes)
    requires r.Valid() && r.Rest() != []
    modifies r
    ensures r.Valid() && (more ==> |r.Rest()| < |old(r.Rest())|)
    ensures |d| < U32 && old(r.Rest()) <= Frame(d) + rest ==>
              if |old(r.Rest())| < |Frame(d)| then !more
              else more && b == d && old(r.Rest()) == Frame(d) + r.Rest() && r.Rest() <= rest
  {
    hide PutUvarint;
    ghost var before := r.Rest();
    FrameParts(d, rest);
    var n := ReadU32(r, |d| % U32, d + rest);
    ghost var mid := r.Rest();
    b := r.ReadSlice(n);
    more := !r.err;
    if |d| < U32 && before <= Frame(d) + rest && |d| <= |mid| {
      FrameTail(d, rest, mid);
      FrameParts(d, r.Rest());
    }
  }

  lemma FrameTail(d: Bytes, rest: Bytes, mid: Bytes)
    requires |d| <= |mid|
    ensures mid <= d + rest ==> mid == d + mid[|d|..] && mid[..|d|] == d && mid[|d|..] <= rest
  {
    if mid <= d + rest {
      assert forall i :: 0 <= i < |mid| ==> mid[i] == (d + rest)[i];
    }
  }

  lemma FrameParts(d: Bytes, rest: Bytes)
    ensures Frame(d) + rest == PutUvarint(|d| % U32) + (d + rest)
  {
  }

  /** The loop that parses a queue message recovers the messages a channel put into it. */
  method BatchRoundTrip(ds: seq<Bytes>) returns (out: seq<Bytes>)
    requires FramesOk(ds)
    ensures out == ds
  {
    out := ParseFrames(Frames(ds), ds);
  }
}
