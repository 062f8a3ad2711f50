/**
 The merging compaction job of `kv/compact_job.go`: it drains the merged iterator,
 collects the values of each key, hands them to the merger once per key, and writes
 the results into as many output tables as the size limit asks for.
 */
module CompactJob {
  import opened Options
  import opened Words
  import opened Table
  import opened MergeIterator
  import Framing
  import Stream

  /** `Merger.Merge`; `None` is its error. */
  type Merger = (UInt32, seq<Bytes>) -> Option<Bytes>

  // ----- what a merge of sorted pairs means -----

  /** The values of key `k`, in order. */
  function Values(s: seq<KV>, k: UInt32): (vs: seq<Bytes>)
  {
    if |s| == 0 then []
    else
      var vs := Values(s[..|s| - 1], k);
      if s[|s| - 1].key == k then vs + [s[|s| - 1].value] else vs
  }

  /** The value a table holds for a key. */
  function Lookup(es: seq<KV>, k: UInt32): (v: Option<Bytes>)
  {
    if |es| == 0 then None
    else if es[|es| - 1].key == k then Some(es[|es| - 1].value)
    else Lookup(es[..|es| - 1], k)
  }

  /** What one key's values become: nothing when there are none or the merger returns an empty value. */
  function Outcome(merge: Merger, k: UInt32, vs: seq<Bytes>): (v: Option<Bytes>)
  {
    if |vs| == 0 then None
    else
      match merge(k, vs)
      case Some(v) => if |v| == 0 then None else Some(v)
      case None => None
  }

  /** `es` is the compaction of `s`: every key at most once, with the merge of all its values. */
  ghost predicate Compacts(merge: Merger, s: seq<KV>, es: seq<KV>) {
    Ascending(es) && forall k :: Lookup(es, k) == Outcome(merge, k, Values(s, k))
  }

  lemma ValuesSnoc(s: seq<KV>, x: KV, k: UInt32)
    ensures Values(s + [x], k) == if x.key == k then Values(s, k) + [x.value] else Values(s, k)
  {
    assert (s + [x])[..|s|] == s;
  }

  lemma LookupSnoc(es: seq<KV>, x: KV, k: UInt32)
    ensures Lookup(es + [x], k) == if x.key == k then Some(x.value) else Lookup(es, k)
  {
    assert (es + [x])[..|es|] == es;
  }

  lemma {:induction false} ValuesAbsent(s: seq<KV>, k: UInt32)
    requires forall i :: 0 <= i < |s| ==> s[i].key != k
    ensures Values(s, k) == []
  {
    if |s| > 0 {
      ValuesAbsent(s[..|s| - 1], k);
    }
  }

  lemma {:induction false} LookupAbsent(es: seq<KV>, k: UInt32)
    requires forall i :: 0 <= i < |es| ==> es[i].key != k
    ensures Lookup(es, k) == None
  {
    if |es| > 0 {
      LookupAbsent(es[..|es| - 1], k);
    }
  }

  /** A value occurs under `k` as often as the pair occurs. */
  lemma {:induction false} ValuesCount(s: seq<KV>, k: UInt32, v: Bytes)
    ensures multiset(Values(s, k))[v] == multiset(s)[KV(k, v)]
  {
    if |s| > 0 {
      var n := |s| - 1;
      assert s == s[..n] + [s[n]];
      ValuesCount(s[..n], k, v);
    }
  }

  /** All values of `k` in all inputs. */
  ghost function InputValues(inputs: seq<seq<KV>>, k: UInt32): (m: multiset<Bytes>)
  {
    if |inputs| == 0 then multiset{}
    else InputValues(inputs[..|inputs| - 1], k) + multiset(Values(inputs[|inputs| - 1], k))
  }

  lemma {:induction false} InputValuesCount(inputs: seq<seq<KV>>, k: UInt32, v: Bytes)
    ensures InputValues(inputs, k)[v] == AllPairs(inputs)[KV(k, v)]
  {
    hide Values;
    if |inputs| > 0 {
      InputValuesCount(inputs[..|inputs| - 1], k, v);
      ValuesCount(inputs[|inputs| - 1], k, v);
    }
  }

  /** Pairs that are all of key `k`'s pairs carry all of its values. */
  lemma AllValuesOf(inputs: seq<seq<KV>>, s: seq<KV>, rest: multiset<KV>, k: UInt32)
    requires rest + multiset(s) == AllPairs(inputs)
    requires forall kv :: kv in rest ==> kv.key != k
    ensures multiset(Values(s, k)) == InputValues(inputs, k)
  {
    forall v
      ensures multiset(Values(s, k))[v] == InputValues(inputs, k)[v]
    {
      hide Values, InputValues, AllPairs;
      ValuesCount(s, k, v);
      InputValuesCount(inputs, k, v);
      assert KV(k, v) !in rest;
      assert (rest + multiset(s))[KV(k, v)] == AllPairs(inputs)[KV(k, v)];
    }
  }

  // ----- the grouping loop, on values -----

  /**
   After the pairs `s`: `need` collects the values of the last key `prev`, and `es`
   is the compaction of all smaller keys.
   */
  ghost predicate Grouped(merge: Merger, s: seq<KV>, es: seq<KV>, start: bool, prev: UInt32, need: seq<Bytes>) {
    && Sorted(s) && Ascending(es)
    && (start ==> s == [] && es == [] && need == [])
    && (!start ==>
          && |s| > 0 && prev == s[|s| - 1].key && need == Values(s, prev) && |need| > 0
          && (forall i :: 0 <= i < |es| ==> es[i].key < prev)
          && (forall k: UInt32 :: k < prev ==> Lookup(es, k) == Outcome(merge, k, Values(s, k)))
          && (forall k: UInt32 :: k < prev && |Values(s, k)| > 0 ==> merge(k, Values(s, k)).Some?))
  }

  lemma GroupStart(merge: Merger, x: KV)
    ensures Grouped(merge, [x], [], false, x.key, [x.value])
  {
    assert [x][..0] == [];
    assert Values([x], x.key) == [x.value];
  }

  lemma GroupSame(merge: Merger, s: seq<KV>, es: seq<KV>, prev: UInt32, need: seq<Bytes>, x: KV)
    requires Grouped(merge, s, es, false, prev, need) && x.key == prev
    ensures Grouped(merge, s + [x], es, false, prev, need + [x.value])
  {
    hide Values, Lookup, Outcome;
    forall k
      ensures Values(s + [x], k) == if x.key == k then Values(s, k) + [x.value] else Values(s, k)
    {
      ValuesSnoc(s, x, k);
    }
    SortedSnoc(s, x);
  }

  /** The entries after merging the collected values of `prev`. */
  function Closed(es: seq<KV>, prev: UInt32, v: Bytes): (es': seq<KV>)
  {
    if |v| == 0 then es else es + [KV(prev, v)]
  }

  lemma GroupClose(merge: Merger, s: seq<KV>, es: seq<KV>, prev: UInt32, need: seq<Bytes>, v: Bytes)
    requires Grouped(merge, s, es, false, prev, need) && merge(prev, need) == Some(v)
    ensures Ascending(Closed(es, prev, v))
    ensures forall i :: 0 <= i < |Closed(es, prev, v)| ==> Closed(es, prev, v)[i].key <= prev
    ensures forall k: UInt32 :: k <= prev ==> Lookup(Closed(es, prev, v), k) == Outcome(merge, k, Values(s, k))
    ensures forall k: UInt32 :: k <= prev && |Values(s, k)| > 0 ==> merge(k, Values(s, k)).Some?
  {
    hide Values, Lookup;
    LookupAbsent(es, prev);
    forall k: UInt32 | k <= prev
      ensures Lookup(Closed(es, prev, v), k) == Outcome(merge, k, Values(s, k))
    {
      LookupSnoc(es, KV(prev, v), k);
    }
  }

  lemma GroupNext(merge: Merger, s: seq<KV>, es: seq<KV>, prev: UInt32, need: seq<Bytes>, v: Bytes, x: KV)
    requires Grouped(merge, s, es, false, prev, need) && merge(prev, need) == Some(v) && prev < x.key
    ensures Grouped(merge, s + [x], Closed(es, prev, v), false, x.key, [x.value])
  {
    hide Values, Lookup, Outcome, Closed;
    var es' := Closed(es, prev, v);
    GroupClose(merge, s, es, prev, need, v);
    SortedSnoc(s, x);
    forall k
      ensures Values(s + [x], k) == if x.key == k then Values(s, k) + [x.value] else Values(s, k)
      ensures prev < k ==> Values(s, k) == []
      ensures prev < k ==> Lookup(es', k) == None
    {
      ValuesSnoc(s, x, k);
      if prev < k {
        ValuesAbsent(s, k);
        LookupAbsent(es', k);
      }
    }
    NoOutcome(merge);
  }

  lemma NoOutcome(merge: Merger)
    ensures forall k :: Outcome(merge, k, []) == None
  {
  }

  lemma GroupDone(merge: Merger, s: seq<KV>, es: seq<KV>, prev: UInt32, need: seq<Bytes>, v: Bytes)
    requires Grouped(merge, s, es, false, prev, need) && merge(prev, need) == Some(v)
    ensures Compacts(merge, s, Closed(es, prev, v))
    ensures forall k: UInt32 :: |Values(s, k)| > 0 ==> merge(k, Values(s, k)).Some?
  {
    hide Values, Lookup, Outcome, Closed;
    var es' := Closed(es, prev, v);
    GroupClose(merge, s, es, prev, need, v);
    NoOutcome(merge);
    forall k: UInt32 | prev < k
      ensures Values(s, k) == [] && Lookup(es', k) == None
    {
      ValuesAbsent(s, k);
      LookupAbsent(es', k);
    }
  }

  // ----- the job -----

  function Concat(cs: seq<seq<KV>>): (es: seq<KV>)
  {
    if |cs| == 0 then [] else Concat(cs[..|cs| - 1]) + cs[|cs| - 1]
  }

  /** The recorded output is a table of `es`, with exactly its key range and size. */
  ghost predicate IsOutput(codec: BitmapCodec, files: map<int, Bytes>, f: Framing.FileMeta, es: seq<KV>) {
    && |es| > 0 && f.minKey == es[0].key && f.maxKey == es[|es| - 1].key
    && f.number in files && f.size == Stream.Wrap32(|files[f.number]|)
    && exists ob :: IsTable(codec, files[f.number], es, ob)
  }

  ghost predicate AreOutputs(codec: BitmapCodec, files: map<int, Bytes>, fs: seq<Framing.FileMeta>, cs: seq<seq<KV>>) {
    && |fs| == |cs|
    && (forall i :: 0 <= i < |fs| ==> IsOutput(codec, files, fs[i], cs[i]))
    && (forall i, j :: 0 <= i < j < |fs| ==> fs[i].number < fs[j].number)
    && (forall n :: n in files ==> exists i :: 0 <= i < |fs| && fs[i].number == n)
  }

  /** One more output under a number above all earlier ones. */
  lemma OutputsSnoc(codec: BitmapCodec, files: map<int, Bytes>, fs: seq<Framing.FileMeta>, cs: seq<seq<KV>>,
                    f: Framing.FileMeta, file: Bytes, es: seq<KV>, ob: Bytes)
    requires AreOutputs(codec, files, fs, cs) && forall i :: 0 <= i < |fs| ==> fs[i].number < f.number
    requires IsTable(codec, file, es, ob) && |es| > 0
    requires f.minKey == es[0].key && f.maxKey == es[|es| - 1].key && f.size == Stream.Wrap32(|file|)
    ensures AreOutputs(codec, files[f.number := file], fs + [f], cs + [es])
  {
    hide IsTable;
    var files' := files[f.number := file];
    forall i | 0 <= i < |fs|
      ensures IsOutput(codec, files', fs[i], cs[i])
    {
      assert IsOutput(codec, files, fs[i], cs[i]);
    }
    assert IsOutput(codec, files', f, es);
    forall n | n in files'
      ensures exists i :: 0 <= i < |fs + [f]| && (fs + [f])[i].number == n
    {
      if n in files && n != f.number {
        var i :| 0 <= i < |fs| && fs[i].number == n;
        assert (fs + [f])[i].number == n;
      } else {
        assert (fs + [f])[|fs|].number == n;
      }
    }
  }

  // ----- rotation -----

  /** `Size` of a builder with these entries, an `int32`. */
  function DataSize(es: seq<KV>): (n: int)
  {
    Stream.Wrap32(|Data(es)|)
  }

  /** With none of these entries the output was large enough. */
  ghost predicate Unfilled(max: int, es: seq<KV>) {
    forall n :: 0 < n <= |es| ==> DataSize(es[..n]) < max
  }

  /** Large enough with its last entry, and not before. */
  ghost predicate Filled(max: int, es: seq<KV>) {
    |es| > 0 && DataSize(es) >= max && Unfilled(max, es[..|es| - 1])
  }

  /** Every closed output is filled, and the open one is not. */
  ghost predicate Rotating(max: int, cs: seq<seq<KV>>, open: seq<KV>) {
    (forall i :: 0 <= i < |cs| ==> Filled(max, cs[i])) && Unfilled(max, open)
  }

  /** Every output but the last is filled, and the last is no larger than that. */
  ghost predicate Rotated(max: int, cs: seq<seq<KV>>) {
    forall i :: 0 <= i < |cs| ==>
      if i < |cs| - 1 then Filled(max, cs[i]) else Filled(max, cs[i]) || Unfilled(max, cs[i])
  }

  lemma RotateMore(max: int, cs: seq<seq<KV>>, es: seq<KV>, x: KV)
    requires Rotating(max, cs, es)
    ensures if DataSize(es + [x]) >= max then Rotating(max, cs + [es + [x]], []) else Rotating(max, cs, es + [x])
  {
    hide DataSize;
    var es' := es + [x];
    assert es'[..|es|] == es && es'[..|es'|] == es';
    if DataSize(es') < max {
      forall n | 0 < n <= |es'|
        ensures DataSize(es'[..n]) < max
      {
        if n <= |es| {
          assert es'[..n] == es[..n];
        }
      }
    }
  }

  lemma RotateEnd(max: int, cs: seq<seq<KV>>, es: seq<KV>)
    requires Rotating(max, cs, es)
    ensures Rotated(max, cs) && Rotated(max, cs + [es])
  {
    hide Filled, Unfilled;
  }

  class CompactionJob {
    const merge: Merger
    const codec: BitmapCodec
    const maxFileSize: int
    ghost const firstFileNumber: int
    var builder: StoreBuilder?
    var nextFileNumber: int
    var outputs: seq<Framing.FileMeta>
    var pendingOutputs: set<int>
    var files: map<int, Bytes>  // the finished tables
    ghost var contents: seq<seq<KV>>

    constructor (merge: Merger, codec: BitmapCodec, maxFileSize: int, nextFileNumber: int)
      ensures Valid() && All() == [] && builder == null && contents == []
      ensures this.merge == merge && this.codec == codec && firstFileNumber == nextFileNumber
      ensures this.maxFileSize == maxFileSize
    {
      this.merge, this.codec, this.maxFileSize := merge, codec, maxFileSize;
      this.nextFileNumber, firstFileNumber := nextFileNumber, nextFileNumber;
      builder, outputs, pendingOutputs, files, contents := null, [], {}, map[], [];
    }

    ghost function Repr(): (r: set<object>)
      reads this
    {
      if builder == null then {} else {builder, builder.offset, builder.offset.bw, builder.offset.buffer}
    }

    ghost predicate Valid()
      reads this, Repr()
    {
      && AreOutputs(codec, files, outputs, contents)
      && firstFileNumber <= nextFileNumber && (forall n :: n in files ==> firstFileNumber <= n < nextFileNumber)
      && (forall i :: 0 <= i < |outputs| ==> outputs[i].number < nextFileNumber && outputs[i].number in pendingOutputs)
      && (builder != null ==>
            && builder.Valid() && builder.codec == codec
            && firstFileNumber <= builder.fileNumber < nextFileNumber && builder.fileNumber in pendingOutputs
            && forall i :: 0 <= i < |outputs| ==> outputs[i].number < builder.fileNumber)
    }

    ghost function Open(): (es: seq<KV>)
      reads this, builder
    {
      if builder == null then [] else builder.entries
    }

    ghost predicate Filling()
      reads this, builder
    {
      Rotating(maxFileSize, contents, Open())
    }

    /** Everything added so far, over all outputs. */
    ghost function All(): (es: seq<KV>)
      reads this, Repr()
    {
      Concat(contents) + (if builder == null then [] else builder.entries)
    }

    /** `openCompactionOutputFile`: a fresh file number, registered as pending. */
    method OpenOutput()
      requires Valid() && builder == null
      modifies this
      ensures Valid() && All() == old(All()) && builder != null && fresh(Repr()) && Open() == []
      ensures outputs == old(outputs) && contents == old(contents)
    {
      hide AreOutputs, Concat, Table.StoreBuilder.Valid;
      var b := new StoreBuilder(nextFileNumber, codec);
      nextFileNumber := nextFileNumber + 1;
      pendingOutputs := pendingOutputs + {b.fileNumber};
      builder := b;
    }

    /** `finishCompactionOutputFile`: closes the builder and records the output. */
    method FinishOutput() returns (ok: bool)
      requires Valid()
      modifies this, Repr()
      ensures ok == (old(builder) != null)
      ensures Valid() && All() == old(All()) && builder == null
      ensures contents == if |old(Open())| == 0 then old(contents) else old(contents) + [old(Open())]
    {
      hide AreOutputs, Table.StoreBuilder.Valid, IsTable;
      var b := builder;
      if b == null {
        return false;
      }
      ok := true;
      if |b.keys| == 0 {
        assert b.entries == [] by { BuilderCount(b); }
        builder := null;
        return;
      }
      BuilderCount(b);
      ghost var es := b.entries;
      var file;
      ghost var ob;
      file, ob := b.Close();
      var f := Framing.FileMeta(b.fileNumber, b.minKey, b.maxKey, b.Size());
      OutputsSnoc(codec, files, outputs, contents, f, file, es, ob);
      ConcatSnoc(contents, es);
      files := files[f.number := file];
      outputs := outputs + [f];
      contents := contents + [es];
      builder := null;
    }

    /** `add`: drops an empty value; opens an output when there is none and closes it when it is large enough. */
    method Add(key: UInt32, value: Bytes)
      requires Valid() && Filling() && forall i :: 0 <= i < |All()| ==> All()[i].key < key
      modifies this, Repr()
      ensures Valid() && Filling() && All() == Closed(old(All()), key, value) && fresh(Repr() - old(Repr()))
      ensures |value| == 0 ==> contents == old(contents) && Open() == old(Open())
      ensures |value| > 0 ==>
                var es := old(Open()) + [KV(key, value)];
                if DataSize(es) >= maxFileSize then contents == old(contents) + [es] && Open() == []
                else contents == old(contents) && Open() == es
    {
      hide AreOutputs, Concat, Table.StoreBuilder.Valid, IsTable, Rotating, Data;
      ghost var was := Open();
      RotateMore(maxFileSize, contents, was, KV(key, value));
      if |value| == 0 {
        return;
      }
      if builder == null {
        OpenOutput();
      }
      ghost var before := All();
      ghost var es := builder.entries;
      if |es| > 0 {
        assert before[|before| - 1] == es[|es| - 1];
      }
      builder.Add(key, value);
      assert builder.entries == was + [KV(key, value)];
      assert All() == before + [KV(key, value)];
      BuilderSize(builder);
      if builder.Size() >= maxFileSize {
        var _ := FinishOutput();
      }
    }

    /** Merges the collected values of one key and adds the result; false when the merger fails. */
    method CloseGroup(prev: UInt32, need: seq<Bytes>, ghost s: seq<KV>) returns (ok: bool)
      requires Valid() && Filling() && Grouped(merge, s, All(), false, prev, need)
      modifies this, Repr()
      ensures Valid() && Filling() && ok == merge(prev, need).Some?
      ensures ok ==> All() == Closed(old(All()), prev, merge(prev, need).value)
      ensures fresh(Repr() - old(Repr()))
    {
      hide AreOutputs, Concat, IsTable, Values, Lookup, Outcome, Closed;
      var v := merge(prev, need);
      if v == None {
        return false;
      }
      Add(prev, v.value);
      ok := true;
    }

    /**
     `doMerge`.  On success the outputs together are the compaction of the inputs'
     pairs, in some order that is sorted by key; on failure the merger has failed on
     all values of some key.
     */
    method DoMerge(inputs: seq<seq<KV>>) returns (ok: bool, ghost order: seq<KV>, ghost bad: UInt32)
      requires Valid() && contents == [] && builder == null
      requires forall i :: 0 <= i < |inputs| ==> Sorted(inputs[i])
      modifies this
      ensures Valid()
      ensures ok ==> Rotated(maxFileSize, contents)
      ensures ok ==>
                && AreOutputs(codec, files, outputs, contents) && builder == null
                && Sorted(order) && multiset(order) == AllPairs(inputs)
                && Compacts(merge, order, Concat(contents))
                && forall k: UInt32 :: |Values(order, k)| > 0 ==> merge(k, Values(order, k)).Some?
      ensures !ok ==>
                && |Values(order, bad)| > 0 && merge(bad, Values(order, bad)) == None
                && multiset(Values(order, bad)) == InputValues(inputs, bad)
    {
      hide AreOutputs, Concat, IsTable, Values, Lookup, Outcome, Closed, AllPairs, Pending, InputValues;
      hide MergedIterator.Valid, Grouped, Drained, Compacts, Sorted, All, Valid, Coming;
      assert All() == [] by { NothingYet(); }
      var it := new MergedIterator(inputs);
      var needMerge: seq<Bytes> := [];
      var previousKey: UInt32 := 0;
      var start := true;
      order, bad := [], 0;
      NoGroup(merge, inputs, Pending(it.pq));
      NoRepr();
      NothingYet();
      ghost var rest;
      var more;
      more, rest := Pull(it);
      while more
        invariant Valid() && Filling() && fresh(Repr()) && fresh(it) && it.Valid() && it !in Repr()
        invariant Grouped(merge, order, All(), start, previousKey, needMerge) && Drained(inputs, order, rest)
        invariant start == (|needMerge| == 0)
        invariant Coming(it, more, rest)
        decreases more, |rest|
      {
        ComingHead(it, rest);
        ok, needMerge := Feed(start, previousKey, needMerge, it.curKey, it.curValue, inputs, order, rest);
        if !ok {
          bad := previousKey;
          return;
        }
        DrainOne(inputs, order, Pending(it.pq), KV(it.curKey, it.curValue));
        order := order + [KV(it.curKey, it.curValue)];
        start, previousKey := false, it.curKey;
        more, rest := Pull(it);
      }
      NothingComing(it, rest);
      ok, bad := FinishMerge(needMerge, previousKey, inputs, order);
    }

    /** The body of the loop: another value of the same key, or the first of the next. */
    method Feed(start: bool, previousKey: UInt32, need: seq<Bytes>, key: UInt32, value: Bytes,
                ghost inputs: seq<seq<KV>>, ghost order: seq<KV>, ghost rest: multiset<KV>)
      returns (ok: bool, need': seq<Bytes>)
      requires Valid() && Filling() && Grouped(merge, order, All(), start, previousKey, need)
      requires Drained(inputs, order, rest)
      requires KV(key, value) in rest && forall kv :: kv in rest ==> key <= kv.key
      modifies this, Repr()
      ensures Valid() && Filling()
      ensures ok ==> Grouped(merge, order + [KV(key, value)], All(), false, key, need') && |need'| > 0
      ensures !ok ==>
                && |Values(order, previousKey)| > 0 && merge(previousKey, Values(order, previousKey)) == None
                && multiset(Values(order, previousKey)) == InputValues(inputs, previousKey)
      ensures fresh(Repr() - old(Repr()))
    {
      hide *;
      GroupOrder(merge, inputs, order, rest, All(), start, previousKey, need, KV(key, value));
      if start || key == previousKey {
        GroupMore(merge, order, All(), start, previousKey, need, KV(key, value));
        return true, need + [value];
      }
      ghost var es := All();
      ok := CloseGroup(previousKey, need, order);
      need' := [value];
      if ok {
        GroupNext(merge, order, es, previousKey, need, merge(previousKey, need).value, KV(key, value));
      } else {
        GroupFailed(merge, inputs, order, rest, es, previousKey, need);
      }
    }

    lemma NothingYet()
      requires contents == [] && builder == null
      ensures All() == [] && Filling()
    {
    }

    lemma NoRepr()
      requires builder == null
      ensures Repr() == {}
    {
    }

    /** The end of `doMerge`: the last key's values, then the open output. */
    method FinishMerge(needMerge: seq<Bytes>, previousKey: UInt32, ghost inputs: seq<seq<KV>>, ghost order: seq<KV>)
      returns (ok: bool, ghost bad: UInt32)
      requires Valid() && Filling() && Grouped(merge, order, All(), |needMerge| == 0, previousKey, needMerge)
      requires Drained(inputs, order, multiset{})
      modifies this, Repr()
      ensures Valid()
      ensures ok ==> Rotated(maxFileSize, contents)
      ensures ok ==>
                && AreOutputs(codec, files, outputs, contents) && builder == null
                && Sorted(order) && multiset(order) == AllPairs(inputs)
                && Compacts(merge, order, Concat(contents))
                && forall k: UInt32 :: |Values(order, k)| > 0 ==> merge(k, Values(order, k)).Some?
      ensures !ok ==>
                && |Values(order, bad)| > 0 && merge(bad, Values(order, bad)) == None
                && multiset(Values(order, bad)) == InputValues(inputs, bad)
    {
      hide AreOutputs, Concat, IsTable, Values, Lookup, Outcome, Closed, AllPairs, Pending, InputValues;
      hide Grouped, Compacts;
      bad := previousKey;
      if |needMerge| > 0 {
        ghost var es := All();
        ok := CloseGroup(previousKey, needMerge, order);
        if !ok {
          GroupFailed(merge, inputs, order, multiset{}, es, previousKey, needMerge);
          return;
        }
        GroupDone(merge, order, es, previousKey, needMerge, merge(previousKey, needMerge).value);
      } else {
        NothingToMerge(merge, order, All(), previousKey);
      }
      RotateEnd(maxFileSize, contents, Open());
      if builder != null {
        var _ := FinishOutput();
      }
      assert All() == Concat(contents);
      assert multiset{} + multiset(order) == multiset(order);
      ok := true;
    }
  }

  // ----- draining the iterator into groups -----

  /** The iterator's current pair, the least of the pairs `rest` that are not yet delivered; or none are left. */
  ghost predicate Coming(it: MergedIterator, more: bool, rest: multiset<KV>)
    reads it
  {
    if more then
      && rest == Pending(it.pq) + multiset{KV(it.curKey, it.curValue)}
      && forall kv :: kv in rest ==> it.curKey <= kv.key
    else rest == multiset{}
  }

  lemma ComingHead(it: MergedIterator, rest: multiset<KV>)
    requires Coming(it, true, rest)
    ensures rest == Pending(it.pq) + multiset{KV(it.curKey, it.curValue)} && KV(it.curKey, it.curValue) in rest
    ensures |Pending(it.pq)| < |rest|
    ensures forall kv :: kv in rest ==> it.curKey <= kv.key
    ensures forall kv :: kv in Pending(it.pq) ==> it.curKey <= kv.key
  {
    hide Pending;
    assert forall kv :: kv in Pending(it.pq) ==> kv in rest;
  }

  method Pull(it: MergedIterator) returns (more: bool, ghost rest: multiset<KV>)
    requires it.Valid()
    modifies it
    ensures it.Valid() && rest == old(Pending(it.pq)) && Coming(it, more, rest)
  {
    hide Pending, MergedIterator.Valid;
    rest := Pending(it.pq);
    more := it.HasNext();
  }

  lemma NothingComing(it: MergedIterator, rest: multiset<KV>)
    requires Coming(it, false, rest)
    ensures rest == multiset{}
  {
  }

  lemma NoGroup(merge: Merger, inputs: seq<seq<KV>>, rest: multiset<KV>)
    requires rest == AllPairs(inputs)
    ensures Grouped(merge, [], [], true, 0, []) && Drained(inputs, [], rest)
  {
    hide AllPairs;
    var none: seq<KV> := [];
    assert multiset(none) == multiset{} && rest + multiset{} == rest;
  }

  /** The next pair is not below the key being collected. */
  lemma GroupOrder(merge: Merger, inputs: seq<seq<KV>>, s: seq<KV>, rest: multiset<KV>,
                   es: seq<KV>, start: bool, prev: UInt32, need: seq<Bytes>, x: KV)
    requires Grouped(merge, s, es, start, prev, need) && Drained(inputs, s, rest) && x in rest
    ensures !start ==> prev <= x.key
  {
  }

  lemma GroupMore(merge: Merger, s: seq<KV>, es: seq<KV>, start: bool, prev: UInt32, need: seq<Bytes>, x: KV)
    requires Grouped(merge, s, es, start, prev, need) && (start || x.key == prev)
    ensures Grouped(merge, s + [x], es, false, x.key, need + [x.value])
  {
    hide Values, Lookup, Outcome;
    if start {
      GroupStart(merge, x);
      assert s + [x] == [x] && need + [x.value] == [x.value];
    } else {
      GroupSame(merge, s, es, prev, need, x);
    }
  }

  lemma GroupFailed(merge: Merger, inputs: seq<seq<KV>>, s: seq<KV>, rest: multiset<KV>,
                    es: seq<KV>, prev: UInt32, need: seq<Bytes>)
    requires Grouped(merge, s, es, false, prev, need) && Drained(inputs, s, rest) && merge(prev, need) == None
    requires forall kv :: kv in rest ==> kv.key != prev
    ensures |Values(s, prev)| > 0 && merge(prev, Values(s, prev)) == None
    ensures multiset(Values(s, prev)) == InputValues(inputs, prev)
  {
    hide Values, Lookup, Outcome, InputValues, AllPairs;
    AllValuesOf(inputs, s, rest, prev);
  }

  lemma NothingToMerge(merge: Merger, s: seq<KV>, es: seq<KV>, prev: UInt32)
    requires Grouped(merge, s, es, true, prev, [])
    ensures Compacts(merge, s, es)
    ensures forall k: UInt32 :: |Values(s, k)| > 0 ==> merge(k, Values(s, k)).Some?
  {
  }

  lemma BuilderSize(b: StoreBuilder)
    requires b.Valid()
    ensures b.Size() == DataSize(b.entries)
  {
  }

  lemma BuilderCount(b: StoreBuilder)
    requires b.Valid()
    ensures |b.keys| == |b.entries|
    ensures |b.entries| > 0 ==> b.minKey == b.entries[0].key && b.maxKey == b.entries[|b.entries| - 1].key
  {
  }

  lemma ConcatSnoc(cs: seq<seq<KV>>, es: seq<KV>)
    ensures Concat(cs + [es]) == Concat(cs) + es
  {
    assert (cs + [es])[..|cs|] == cs;
  }
}
