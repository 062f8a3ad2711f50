/**
 Sorted string tables (`kv/table`).  A builder appends length-prefixed values in
 ascending key order, then the packed offsets, the key bitmap and a footer; a
 reader opens such a file, looks keys up and iterates.  Roaring bitmaps appear as
 their ascending key lists, with the marshal pair as a parameter.
 */
module Table {
  import opened Options
  import opened Words
  import Stream
  import DeltaPacking

  datatype KV = KV(key: UInt32, value: Bytes)

  /** The bitmap library's marshal pair. */
  datatype BitmapCodec = BitmapCodec(marshal: seq<UInt32> -> Bytes, unmarshal: Bytes -> Option<seq<UInt32>>)

  /** Marshalling a bitmap and back gives its ascending keys; nothing is asked for other lists. */
  ghost predicate GoodCodec(c: BitmapCodec) {
    forall ks :: AscendingKeys(ks) ==> c.unmarshal(c.marshal(ks)) == Some(ks)
  }

  ghost predicate AscendingKeys(ks: seq<UInt32>) {
    forall i, j :: 0 <= i < j < |ks| ==> ks[i] < ks[j]
  }

  function PackKeys(ks: seq<UInt32>): (b: Bytes)
    ensures |b| == 4 * |ks|
  {
    if |ks| == 0 then [] else Stream.PutFixed(ks[0], 4) + PackKeys(ks[1..])
  }

  function UnpackKeys(b: Bytes): (ks: seq<UInt32>)
  {
    if |b| < 4 then [] else [Stream.GetFixed(b[..4]) % Stream.U32] + UnpackKeys(b[4..])
  }

  lemma {:induction false} KeysInverse(ks: seq<UInt32>)
    ensures UnpackKeys(PackKeys(ks)) == ks
  {
    hide Stream.PutFixed, Stream.GetFixed;
    if |ks| > 0 {
      var b := PackKeys(ks);
      assert b[..4] == Stream.PutFixed(ks[0], 4) && b[4..] == PackKeys(ks[1..]);
      Pow256Values();
      Stream.FixedInverse(ks[0], 4);
      SmallMod(ks[0], Stream.U32);
      KeysInverse(ks[1..]);
    }
  }

  /** Codecs that, as a bitmap does, deliver nothing but ascending keys can be good. */
  lemma GoodCodecs()
    ensures exists c: BitmapCodec :: GoodCodec(c) && forall b :: c.unmarshal(b).Some? ==> AscendingKeys(c.unmarshal(b).value)
  {
    hide PackKeys, UnpackKeys;
    var c := BitmapCodec(ks => PackKeys(ks), b => if AscendingKeys(UnpackKeys(b)) then Some(UnpackKeys(b)) else None);
    forall ks | AscendingKeys(ks)
      ensures c.unmarshal(c.marshal(ks)) == Some(ks)
    {
      KeysInverse(ks);
    }
    assert GoodCodec(c);
  }

  // ----- contents -----

  ghost predicate Ascending(es: seq<KV>) {
    forall i, j :: 0 <= i < j < |es| ==> es[i].key < es[j].key
  }

  function Keys(es: seq<KV>): (ks: seq<UInt32>)
    ensures |ks| == |es|
    ensures forall i :: 0 <= i < |es| ==> ks[i] == es[i].key
  {
    seq(|es|, i requires 0 <= i < |es| => es[i].key)
  }

  /** The entries a run of adds leaves: a key not above the last accepted one is dropped. */
  function Accepted(adds: seq<KV>): (es: seq<KV>)
  {
    if |adds| == 0 then []
    else
      var es, x := Accepted(adds[..|adds| - 1]), adds[|adds| - 1];
      if |es| > 0 && x.key <= es[|es| - 1].key then es else es + [x]
  }

  lemma AcceptedMore(adds: seq<KV>, i: nat)
    requires i < |adds|
    ensures var es, x := Accepted(adds[..i]), adds[i];
            Accepted(adds[..i + 1]) == if |es| > 0 && x.key <= es[|es| - 1].key then es else es + [x]
  {
    assert adds[..i + 1][..i] == adds[..i];
  }

  lemma {:induction false} AcceptedAscending(adds: seq<KV>)
    ensures Ascending(Accepted(adds))
    ensures |adds| > 0 ==> |Accepted(adds)| > 0
  {
    if |adds| > 0 {
      AcceptedAscending(adds[..|adds| - 1]);
    }
  }

  // ----- layout -----

  /** `bufioWriter.Write`: the length, then the content. */
  function Entry(v: Bytes): (b: Bytes)
    ensures |b| > |v|
  {
    Stream.PutUvarint(|v|) + v
  }

  function Data(es: seq<KV>): (b: Bytes)
  {
    if |es| == 0 then [] else Data(es[..|es| - 1]) + Entry(es[|es| - 1].value)
  }

  /** Where each value starts, as the `int32` the builder stores. */
  function Offsets(es: seq<KV>): (os: seq<int>)
    ensures |os| == |es|
  {
    if |es| == 0 then [] else Offsets(es[..|es| - 1]) + [Stream.Wrap32(|Data(es[..|es| - 1])|)]
  }

  const MAGIC := 0x69632d656d656c65
  const VERSION := 0

  function Footer(posOfOffset: nat, posOfKeys: nat): (b: Bytes)
    ensures |b| == 17
  {
    Stream.PutFixed(posOfOffset, 4) + Stream.PutFixed(posOfKeys, 4) + [ByteOf(VERSION)] + Stream.PutFixed(MAGIC, 8)
  }

  /** The deltas and first value the offset encoder holds. */
  function First(os: seq<int>): int {
    if |os| == 0 then 0 else os[0]
  }

  function DeltasOf(os: seq<int>): seq<int> {
    if |os| == 0 then [] else DeltaPacking.Deltas(os[0], os[1..])
  }

  /** The file is the table of `es`, `ob` its packed offsets. */
  ghost predicate IsTable(c: BitmapCodec, file: Bytes, es: seq<KV>, ob: Bytes) {
    && DeltaPacking.IsPacked(ob, First(Offsets(es)), DeltasOf(Offsets(es)))
    && file == Data(es) + (Entry(ob) + (Entry(c.marshal(Keys(es)))
               + Entry(Footer(|Data(es)| % Stream.U32, (|Data(es)| + |Entry(ob)|) % Stream.U32))))
  }

  // ----- reading an entry -----

  /** `readBytes`: the slice behind the length at `offset`, nil when the data is too short. */
  function EntryAt(file: Bytes, offset: nat): (v: Option<Bytes>)
    requires offset <= |file|
  {
    match Stream.GetUvarint(file[offset..], 0)
    case Got(n, _) =>
      var start := offset + |Stream.PutUvarint(n)|;
      if start + n > |file| then None else Some(file[start..start + n])
    case _ => None
  }

  lemma EntryInverse(a: Bytes, v: Bytes, b: Bytes)
    requires |v| < Stream.U64
    ensures EntryAt(a + (Entry(v) + b), |a|) == Some(v)
  {
    hide Stream.PutUvarint, Stream.GetUvarint;
    var file := a + (Entry(v) + b);
    assert file[|a|..] == Stream.PutUvarint(|v|) + (v + b);
    Stream.UvarintInverse(|v|, v + b);
    var start := |a| + |Stream.PutUvarint(|v|)|;
    assert file[start..start + |v|] == v;
  }

  /** Every value can be read at its offset, in any file that starts with the data section. */
  lemma {:induction false} ValueAtOffset(es: seq<KV>, i: nat, rest: Bytes)
    requires i < |es| && |Data(es)| < DeltaPacking.HALF
    ensures Offsets(es)[i] == |Data(es[..i])| <= |Data(es)|
    ensures EntryAt(Data(es) + rest, |Data(es[..i])|) == Some(es[i].value)
    decreases |es|
  {
    hide EntryAt, Entry;
    var n := |es| - 1;
    var init, last := es[..n], es[n];
    Assoc(Data(init), Entry(last.value), rest);
    if i == n {
      EntryInverse(Data(init), last.value, rest);
    } else {
      ValueAtOffset(init, i, Entry(last.value) + rest);
      assert es[..i] == init[..i];
    }
  }

  lemma {:induction false} OffsetsGrow(es: seq<KV>)
    requires |Data(es)| < DeltaPacking.HALF
    ensures forall i :: 0 <= i < |es| ==> 0 <= Offsets(es)[i] < |Data(es)|
    ensures forall i, j :: 0 <= i < j < |es| ==> Offsets(es)[i] <= Offsets(es)[j]
    decreases |es|
  {
    if |es| > 0 {
      OffsetsGrow(es[..|es| - 1]);
    }
  }

  /** One entry more. */
  lemma Snoc(es: seq<KV>, x: KV)
    ensures Data(es + [x]) == Data(es) + Entry(x.value)
    ensures Offsets(es + [x]) == Offsets(es) + [Stream.Wrap32(|Data(es)|)]
    ensures Keys(es + [x]) == Keys(es) + [x.key]
  {
    hide Entry, Stream.Wrap32;
    assert (es + [x])[..|es|] == es;
  }

  lemma AscendingSnoc(es: seq<KV>, x: KV)
    requires Ascending(es) && (|es| > 0 ==> es[|es| - 1].key < x.key)
    ensures Ascending(es + [x])
  {
  }

  // ----- the builder -----

  class StoreBuilder {
    const fileNumber: int
    const codec: BitmapCodec
    var written: Bytes  // what the buffered writer has accepted
    const offset: DeltaPacking.DeltaBitPackingEncoder
    var keys: seq<UInt32>
    var minKey: UInt32
    var maxKey: UInt32
    var first: bool
    ghost var entries: seq<KV>

    ghost predicate Valid()
      reads this, offset, offset.bw
    {
      && written == Data(entries) && keys == Keys(entries) && Ascending(entries)
      && first == (|entries| == 0)
      && (|entries| > 0 ==> minKey == entries[0].key && maxKey == entries[|entries| - 1].key)
      && offset.Valid() && offset.Holds(Offsets(entries))
    }

    constructor (fileNumber: int, codec: BitmapCodec)
      ensures Valid() && entries == [] && this.fileNumber == fileNumber && this.codec == codec
      ensures fresh(offset) && fresh(offset.bw) && fresh(offset.buffer)
    {
      this.fileNumber, this.codec := fileNumber, codec;
      var enc := new DeltaPacking.DeltaBitPackingEncoder();
      offset := enc;
      written, keys, minKey, maxKey, first, entries := [], [], 0, 0, true, [];
    }

    method Write(content: Bytes)
      modifies this`written
      ensures written == old(written) + Entry(content)
    {
      written := written + Stream.PutUvarint(|content|);
      written := written + content;
      Assoc(old(written), Stream.PutUvarint(|content|), content);
    }

    /** Accepts a key above the last one; drops any other. */
    method Add(key: UInt32, value: Bytes)
      requires Valid()
      modifies this`written, this`keys, this`minKey, this`maxKey, this`first, this`entries, offset
      ensures Valid()
      ensures entries == if |old(entries)| > 0 && key <= old(entries)[|old(entries)| - 1].key then old(entries)
                         else old(entries) + [KV(key, value)]
    {
      hide Entry, Data, Offsets, Keys, Ascending;
      hide DeltaPacking.DeltaBitPackingEncoder.Holds, DeltaPacking.DeltaBitPackingEncoder.Valid;
      if !first && key <= maxKey {
        return;
      }
      Snoc(entries, KV(key, value));
      AscendingSnoc(entries, KV(key, value));
      var pos := |written|;
      Write(value);
      offset.Add(Stream.Wrap32(pos), Offsets(entries));
      keys := keys + [key];
      if first {
        minKey := key;
      }
      maxKey, first := key, false;
      entries := entries + [KV(key, value)];
    }

    function Size(): (n: int)
      reads this
    {
      Stream.Wrap32(|written|)
    }

    /** Writes offsets, keys and footer; the result is the finished file. */
    method Close() returns (file: Bytes, ghost ob: Bytes)
      requires Valid()
      modifies this`written, offset.buffer, offset.bw
      ensures IsTable(codec, file, entries, ob) && written == file
    {
      hide Entry, Data, DeltaPacking.IsPacked, Footer, DeltaPacking.Deltas, DeltaPacking.MinDelta;
      var posOfOffset := |written|;
      assert DeltaPacking.MinDelta([]) == 0 by { DeltaPacking.NoDeltas(0); }
      var offsets := offset.Bytes();
      ob := offsets;
      Write(offsets);
      var posOfKeys := |written|;
      Write(codec.marshal(keys));
      Write(Footer(posOfOffset % Stream.U32, posOfKeys % Stream.U32));
      file := written;
      Nest(Data(entries), Entry(ob), Entry(codec.marshal(keys)),
           Entry(Footer(posOfOffset % Stream.U32, posOfKeys % Stream.U32)));
    }
  }

  lemma Nest(a: Bytes, b: Bytes, c: Bytes, d: Bytes)
    ensures a + b + c + d == a + (b + (c + d))
  {
  }

  // ----- the reader -----

  const FOOTER_SIZE := 18
  const MIN_LENGTH := 20

  /** An opened table: the mapped bytes, the key list, the value offsets. */
  datatype Reader = Reader(data: Bytes, keys: seq<UInt32>, offsets: seq<int>)

  method ReadBytes(data: Bytes, offset: nat) returns (v: Option<Bytes>)
    requires offset <= |data|
    ensures v == EntryAt(data, offset)
  {
    match Stream.GetUvarint(data[offset..], 0)
    case Got(length, _) =>
      var bytesCount := Stream.UvariantSize(length);
      var start := offset + bytesCount;
      var end := start + length;
      if end > |data| {
        return None;
      }
      return Some(data[start..end]);
    case _ =>
      return None;
  }

  /**
   `newMMapStoreReader` and `initialize`.  A table below 2^31 bytes opens exactly
   when it has an entry, and its reader knows every key and offset.
   */
  method Open(data: Bytes, codec: BitmapCodec, ghost es: seq<KV>, ghost ob: Bytes) returns (r: Option<Reader>)
    ensures GoodCodec(codec) && Ascending(es) && |data| < DeltaPacking.HALF && IsTable(codec, data, es, ob) ==>
              if |es| == 0 then r == None else r == Some(Reader(data, Keys(es), Offsets(es)))
    ensures r.Some? ==>
              && |data| >= MIN_LENGTH && Stream.GetFixed(data[|data| - 8..]) == MAGIC
              && r.value.data == data && |r.value.keys| == |r.value.offsets|
  {
    hide EntryAt, IsTable, Ascending, Keys, Offsets, GoodCodec, Footer, DeltaPacking.Decoded, DeltaPacking.Sound;
    ghost var good := GoodCodec(codec) && Ascending(es) && |data| < DeltaPacking.HALF && IsTable(codec, data, es, ob);
    if good {
      Sections(codec, data, es, ob);
      TableOffsets(codec, data, es, ob);
    }
    if |data| < MIN_LENGTH {
      return None;
    }
    var buf := ReadBytes(data, |data| - FOOTER_SIZE);
    if buf == None || |buf.value| != FOOTER_SIZE - 1 {
      return None;
    }
    FooterIsLast(data, buf.value);
    if Stream.GetFixed(buf.value[9..]) != MAGIC {
      return None;
    }
    var posOfOffset := Stream.GetFixed(buf.value[..4]);
    var posOfKeys := Stream.GetFixed(buf.value[4..8]);
    if posOfOffset > |data| || posOfKeys > |data| {
      return None;  // the Go code slices out of range here and panics
    }
    var kb := ReadBytes(data, posOfKeys);
    var keys := if kb == None then codec.unmarshal([]) else codec.unmarshal(kb.value);
    if keys == None {
      return None;
    }
    var block := ReadBytes(data, posOfOffset);
    var offsets := DeltaPacking.DecodeList(if block == None then [] else block.value, First(Offsets(es)), DeltasOf(Offsets(es)));
    if |offsets| != |keys.value| {
      return None;
    }
    r := Some(Reader(data, keys.value, offsets));
  }

  /** A footer of the right length ends with the file. */
  lemma FooterIsLast(data: Bytes, foot: Bytes)
    requires |data| >= MIN_LENGTH && EntryAt(data, |data| - FOOTER_SIZE) == Some(foot) && |foot| == FOOTER_SIZE - 1
    ensures foot[9..] == data[|data| - 8..]
  {
    hide Stream.GetUvarint;
    var n := |foot|;
    assert |Stream.PutUvarint(n)| == 1;
  }

  /** What the reader finds in a table: footer, keys, offset block, and the decoded offsets. */
  lemma Sections(c: BitmapCodec, file: Bytes, es: seq<KV>, ob: Bytes)
    requires GoodCodec(c) && Ascending(es) && |file| < DeltaPacking.HALF && IsTable(c, file, es, ob)
    ensures |file| >= MIN_LENGTH
    ensures var p, q := |Data(es)|, |Data(es)| + |Entry(ob)|;
            && p <= |file| && q <= |file|
            && EntryAt(file, |file| - FOOTER_SIZE) == Some(Footer(p, q))
            && Stream.GetFixed(Footer(p, q)[..4]) == p && Stream.GetFixed(Footer(p, q)[4..8]) == q
            && Stream.GetFixed(Footer(p, q)[9..]) == MAGIC
            && EntryAt(file, q) == Some(c.marshal(Keys(es))) && c.unmarshal(c.marshal(Keys(es))) == Some(Keys(es))
            && EntryAt(file, p) == Some(ob)
  {
    hide EntryAt, Entry, Data, DeltaPacking.IsPacked, Offsets, Footer, Stream.GetFixed, Keys;
    var p, q := |Data(es)|, |Data(es)| + |Entry(ob)|;
    var kb, foot := c.marshal(Keys(es)), Footer(p, q);
    assert AscendingKeys(Keys(es)) by { KeysAscend(es); }
    SmallMod(p, Stream.U32);
    SmallMod(q, Stream.U32);
    FooterEntry(foot);
    SectionsOf(Data(es), ob, kb, foot, file);
    FooterFields(p, q);
  }

  lemma KeysAscend(es: seq<KV>)
    requires Ascending(es)
    ensures AscendingKeys(Keys(es))
  {
  }

  lemma SectionsOf(data: Bytes, ob: Bytes, kb: Bytes, foot: Bytes, file: Bytes)
    requires file == data + (Entry(ob) + (Entry(kb) + Entry(foot))) && |file| < Stream.U64
    ensures |file| == |data| + |Entry(ob)| + |Entry(kb)| + |Entry(foot)|
    ensures EntryAt(file, |data|) == Some(ob)
    ensures EntryAt(file, |data| + |Entry(ob)|) == Some(kb)
    ensures EntryAt(file, |data| + |Entry(ob)| + |Entry(kb)|) == Some(foot)
  {
    hide EntryAt, Entry;
    EntryInverse(data, ob, Entry(kb) + Entry(foot));
    EntryInverse(data + Entry(ob), kb, Entry(foot));
    EntryInverse(data + Entry(ob) + Entry(kb), foot, []);
    Assoc(data, Entry(ob), Entry(kb) + Entry(foot));
    Assoc(data + Entry(ob), Entry(kb), Entry(foot));
    assert Entry(foot) + [] == Entry(foot);
  }

  lemma FooterEntry(foot: Bytes)
    requires |foot| == 17
    ensures |Entry(foot)| == FOOTER_SIZE
  {
    assert Stream.PutUvarint(17) == [ByteOf(17)];
  }

  lemma FooterFields(p: nat, q: nat)
    requires p < Stream.U32 && q < Stream.U32
    ensures Stream.GetFixed(Footer(p, q)[..4]) == p
    ensures Stream.GetFixed(Footer(p, q)[4..8]) == q
    ensures Stream.GetFixed(Footer(p, q)[9..]) == MAGIC
  {
    hide Stream.PutFixed, Stream.GetFixed;
    var f := Footer(p, q);
    assert f[..4] == Stream.PutFixed(p, 4) && f[4..8] == Stream.PutFixed(q, 4) && f[9..] == Stream.PutFixed(MAGIC, 8);
    Pow256Values();
    Stream.FixedInverse(p, 4);
    Stream.FixedInverse(q, 4);
    Stream.FixedInverse(MAGIC, 8);
  }

  lemma Pow256Values()
    ensures Stream.Pow256(4) == Stream.U32 && Stream.Pow256(8) == Stream.U64
  {
    assert Stream.Pow256(4) == 256 * (256 * (256 * (256 * 1)));
    assert Stream.Pow256(8) == 256 * (256 * (256 * (256 * Stream.Pow256(4))));
  }

  /** The offset block gives the offsets back; that of an empty table gives one stray zero. */
  lemma OffsetBlock(es: seq<KV>, ob: Bytes)
    requires |Data(es)| < DeltaPacking.HALF
    requires DeltaPacking.IsPacked(ob, First(Offsets(es)), DeltasOf(Offsets(es)))
    ensures DeltaPacking.Sound(ob, First(Offsets(es)), DeltasOf(Offsets(es)))
    ensures if |es| == 0 then |DeltaPacking.Decoded(ob, First(Offsets(es)), DeltasOf(Offsets(es)))| == 1
            else DeltaPacking.Decoded(ob, First(Offsets(es)), DeltasOf(Offsets(es))) == Offsets(es)
  {
    hide DeltaPacking.IsPacked, DeltaPacking.Deltas, Offsets, Data, DeltaPacking.Packable;
    OffsetsGrow(es);
    if |es| > 0 {
      EntriesCount(es);
      DeltaPacking.AscendingPackable(Offsets(es));
      DeltaPacking.DecodedIff(ob, Offsets(es));
    }
  }

  lemma TableOffsets(c: BitmapCodec, file: Bytes, es: seq<KV>, ob: Bytes)
    requires |file| < DeltaPacking.HALF && IsTable(c, file, es, ob)
    ensures DeltaPacking.Sound(ob, First(Offsets(es)), DeltasOf(Offsets(es)))
    ensures if |es| == 0 then |DeltaPacking.Decoded(ob, First(Offsets(es)), DeltasOf(Offsets(es)))| == 1
            else DeltaPacking.Decoded(ob, First(Offsets(es)), DeltasOf(Offsets(es))) == Offsets(es)
  {
    hide Data, Entry, Footer, Keys, Offsets, First, DeltasOf, DeltaPacking.IsPacked, DeltaPacking.Decoded, DeltaPacking.Sound;
    OffsetBlock(es, ob);
  }

  lemma {:induction false} EntriesCount(es: seq<KV>)
    ensures |es| <= |Data(es)|
  {
    if |es| > 0 {
      EntriesCount(es[..|es| - 1]);
    }
  }

  /** `Get`: by rank into the offsets; nil for a key that is not there. */
  method Get(r: Reader, key: UInt32, ghost es: seq<KV>, ghost rest: Bytes) returns (v: Option<Bytes>)
    requires Ascending(es) && |Data(es)| < DeltaPacking.HALF
    requires r == Reader(Data(es) + rest, Keys(es), Offsets(es))
    ensures (exists i :: 0 <= i < |es| && es[i].key == key) ==>
              v.Some? && KV(key, v.value) in es
    ensures (forall i :: 0 <= i < |es| ==> es[i].key != key) ==> v == None
  {
    hide Data, Offsets, EntryAt;
    if key !in r.keys {
      return None;
    }
    var rank := Rank(r.keys, key);
    var offset := r.offsets[rank - 1];
    ValueAtOffset(es, rank - 1, rest);
    v := ReadBytes(r.data, offset);
    assert es[rank - 1] == KV(key, v.value);
  }

  /** `Bitmap.Rank`: how many keys are at most `key`. */
  method Rank(ks: seq<UInt32>, key: UInt32) returns (n: nat)
    requires key in ks && forall i, j :: 0 <= i < j < |ks| ==> ks[i] < ks[j]
    ensures 1 <= n <= |ks| && ks[n - 1] == key
    ensures forall i :: 0 <= i < |ks| ==> (ks[i] <= key <==> i < n)
  {
    n := 0;
    while n < |ks| && ks[n] <= key
      invariant n <= |ks| && forall i :: 0 <= i < n ==> ks[i] <= key
    {
      n := n + 1;
    }
  }

  /** The iterator yields the entries in key order. */
  method Iterate(r: Reader, ghost es: seq<KV>, ghost rest: Bytes) returns (out: seq<KV>)
    requires |Data(es)| < DeltaPacking.HALF
    requires r == Reader(Data(es) + rest, Keys(es), Offsets(es))
    ensures out == es
  {
    hide Data, Offsets, EntryAt;
    out := [];
    for idx := 0 to |r.keys|
      invariant out == es[..idx]
    {
      ValueAtOffset(es, idx, rest);
      var v := ReadBytes(r.data, r.offsets[idx]);
      out := out + [KV(r.keys[idx], v.value)];
    }
  }

  /**
   Build, close, open: the file is the table of the accepted adds; below 2^31 bytes it
   opens, every accepted key is found with the value it was first added with, no other
   key is found, and the iterator yields the accepted entries in key order.
   */
  method BuildAndRead(codec: BitmapCodec, adds: seq<KV>, probe: UInt32)
    returns (file: Bytes, out: seq<KV>, v: Option<Bytes>, ok: bool)
    requires GoodCodec(codec) && |adds| > 0
    ensures exists ob :: IsTable(codec, file, Accepted(adds), ob)
    ensures ok <==> |file| < DeltaPacking.HALF
    ensures ok ==> out == Accepted(adds)
    ensures ok ==> (v.Some? <==> exists i :: 0 <= i < |Accepted(adds)| && Accepted(adds)[i].key == probe)
    ensures ok && v.Some? ==> KV(probe, v.value) in Accepted(adds)
  {
    hide Data, Offsets, IsTable, GoodCodec, Ascending, Keys;
    AcceptedAscending(adds);
    ghost var ob;
    file, ob := Build(codec, adds);
    ghost var es := Accepted(adds);
    var r := Open(file, codec, es, ob);
    if |file| >= DeltaPacking.HALF || r == None {
      return file, [], None, false;
    }
    StartsWithData(codec, file, es, ob);
    ghost var rest := file[|Data(es)|..];
    out := Iterate(r.value, es, rest);
    v := Get(r.value, probe, es, rest);
    ok := true;
  }

  method Build(codec: BitmapCodec, adds: seq<KV>) returns (file: Bytes, ghost ob: Bytes)
    ensures IsTable(codec, file, Accepted(adds), ob)
  {
    hide IsTable, StoreBuilder.Valid, Accepted;
    var b := new StoreBuilder(1, codec);
    AddAll(b, adds);
    file, ob := b.Close();
  }

  method AddAll(b: StoreBuilder, adds: seq<KV>)
    requires b.Valid() && b.entries == []
    modifies b, b.offset
    ensures b.Valid() && b.entries == Accepted(adds)
  {
    assert Accepted(adds[..0]) == [];
    hide StoreBuilder.Valid, Accepted;
    for i := 0 to |adds|
      invariant b.Valid() && b.entries == Accepted(adds[..i])
    {
      b.Add(adds[i].key, adds[i].value);
      AcceptedMore(adds, i);
    }
    assert adds[..|adds|] == adds;
  }

  lemma StartsWithData(c: BitmapCodec, file: Bytes, es: seq<KV>, ob: Bytes)
    requires IsTable(c, file, es, ob)
    ensures |Data(es)| <= |file| && file == Data(es) + file[|Data(es)|..]
  {
    hide Data, Entry, Footer, Keys;
  }
}
