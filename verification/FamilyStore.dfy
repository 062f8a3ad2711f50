/**
 A family over its table files, byte for byte: a flush builds a table, a background
 compaction opens its inputs, merges them and commits.  Both are runs of the state
 machine of `Family`.
 */
module FamilyStore {
  import opened Options
  import opened Words
  import opened Table
  import opened MergeIterator
  import opened CompactJob
  import opened Framing
  import opened Versions
  import opened Lsm
  import opened Family
  import DeltaPacking
  import Stream

  /** Each table is stored in the file of its number. */
  ghost predicate OnDisk(codec: BitmapCodec, files: map<int, Bytes>, t: Tables) {
    forall n :: n in t ==> n in files && Stores(codec, files[n], t[n])
  }

  ghost predicate Stores(codec: BitmapCodec, file: Bytes, es: seq<KV>) {
    exists ob :: IsTable(codec, file, es, ob)
  }

  /** All files are below 2^31 bytes, the range of the offsets a table records. */
  ghost predicate AllSmall(files: map<int, Bytes>) {
    forall n :: n in files ==> |files[n]| < DeltaPacking.HALF
  }

  /** The merger fails on all the values some key has in the inputs. */
  ghost predicate MergerFails(merge: Merger, inputs: seq<seq<KV>>) {
    exists k, vs :: |vs| > 0 && merge(k, vs) == None && multiset(vs) == InputValues(inputs, k)
  }

  /** Opening a table file and iterating over it. */
  method ReadTable(codec: BitmapCodec, file: Bytes, ghost es: seq<KV>) returns (out: seq<KV>)
    requires GoodCodec(codec) && Stores(codec, file, es) && Ascending(es) && |es| > 0 && |file| < DeltaPacking.HALF
    ensures out == es
  {
    hide IsTable, GoodCodec, Ascending, Data, Keys, Offsets;
    ghost var ob :| IsTable(codec, file, es, ob);
    var r := Open(file, codec, es, ob);
    StartsWithData(codec, file, es, ob);
    out := Iterate(r.value, es, file[|Data(es)|..]);
  }

  /** `makeInputIterator`. */
  method ReadInputs(codec: BitmapCodec, files: map<int, Bytes>, fs: seq<FileMeta>, ghost t: Tables)
    returns (inputs: seq<seq<KV>>)
    requires GoodCodec(codec) && OnDisk(codec, files, t) && AllSmall(files)
    requires forall f :: f in fs ==> f.number in t && IsMeta(f, t[f.number])
    ensures inputs == Inputs(fs, t)
  {
    hide GoodCodec, Stores;
    inputs := [];
    for i := 0 to |fs|
      invariant |inputs| == i && forall j :: 0 <= j < i ==> inputs[j] == t[fs[j].number]
    {
      var n := fs[i].number;
      assert fs[i] in fs;
      var es := ReadTable(codec, files[n], t[n]);
      inputs := inputs + [es];
    }
  }

  /** `EditLog.apply`. */
  method ApplyLogs(v: Version, logs: seq<Log>) returns (v': Version)
    ensures v' == ApplyAll(v, logs)
  {
    v' := v;
    assert logs[..0] == [];
    for i := 0 to |logs|
      invariant v' == ApplyAll(v, logs[..i])
    {
      assert logs[..i + 1][..i] == logs[..i];
      v' := Apply(v', logs[i]);
    }
    assert logs[..|logs|] == logs;
  }

  // ----- runs -----

  lemma {:induction false} RunConcat(merge: Merger, s: State, a: seq<Op>, b: seq<Op>)
    ensures Run(merge, s, a + b) == Run(merge, Run(merge, s, a), b)
    decreases |b|
  {
    hide Step;
    if |b| == 0 {
      assert a + b == a;
    } else {
      assert (a + b)[..|a| + |b| - 1] == a + b[..|b| - 1];
      RunConcat(merge, s, a, b[..|b| - 1]);
    }
  }

  lemma RunOne(merge: Merger, s: State, op: Op)
    ensures Run(merge, s, [op]) == Step(merge, s, op)
  {
    assert [op][..0] == [];
  }

  /** Every operation of the run is enabled when its turn comes. */
  ghost predicate Taken(merge: Merger, s: State, ops: seq<Op>) {
    forall i :: 0 <= i < |ops| ==> Enabled(merge, Run(merge, s, ops[..i]), ops[i])
  }

  lemma TakenOne(merge: Merger, s: State, op: Op)
    requires Enabled(merge, s, op)
    ensures Taken(merge, s, [op])
  {
    hide Enabled;
    assert [op][..0] == [];
  }

  lemma TakenConcat(merge: Merger, s: State, a: seq<Op>, b: seq<Op>)
    requires Taken(merge, s, a) && Taken(merge, Run(merge, s, a), b)
    ensures Taken(merge, s, a + b)
  {
    hide Run, Enabled;
    forall i | 0 <= i < |a + b|
      ensures Enabled(merge, Run(merge, s, (a + b)[..i]), (a + b)[i])
    {
      if i < |a| {
        assert (a + b)[..i] == a[..i];
      } else {
        assert (a + b)[..i] == a + b[..i - |a|];
        RunConcat(merge, s, a, b[..i - |a|]);
      }
    }
  }

  lemma TakenAllocs(merge: Merger, s: State, n: nat)
    ensures Taken(merge, s, Allocs(n))
  {
    hide Run;
  }

  ghost function Allocs(n: nat): (ops: seq<Op>)
    ensures |ops| == n && forall i :: 0 <= i < n ==> ops[i] == Alloc
  {
    seq(n, _ => Alloc)
  }

  lemma {:induction false} RunAllocs(merge: Merger, s: State, n: nat)
    ensures var s' := Run(merge, s, Allocs(n));
            && s'.next == s.next + n
            && (forall x :: x in s'.free <==> x in s.free || s.next <= x < s.next + n)
            && s' == s.(next := s'.next, free := s'.free)
    decreases n
  {
    if n > 0 {
      RunAllocs(merge, s, n - 1);
      assert Allocs(n)[..n - 1] == Allocs(n - 1);
    }
  }

  /** The run of a merging job: pick, open outputs, commit. */
  ghost function JobOps(c: Compaction, n: nat, last: Op): (ops: seq<Op>)
  {
    [Begin(c)] + (Allocs(n) + [last])
  }

  lemma JobOpsEnds(c: Compaction, n: nat, last: Op)
    ensures var ops := JobOps(c, n, last);
            |ops| >= 2 && ops[0] == Begin(c) && ops[|ops| - 1] == last
  {
  }

  lemma RunJob(merge: Merger, s: State, c: Compaction, n: nat, last: Op)
    requires Enabled(merge, s, Begin(c))
    ensures var s1 := s.(job := Busy(c));
            && Run(merge, s, JobOps(c, n, last)) == Step(merge, Run(merge, s1, Allocs(n)), last)
            && (Enabled(merge, Run(merge, s1, Allocs(n)), last) ==> Taken(merge, s, JobOps(c, n, last)))
  {
    hide Step, Run, Allocs, Taken, Enabled;
    var s1 := s.(job := Busy(c));
    RunOne(merge, s, Begin(c));
    assert Step(merge, s, Begin(c)) == s1 by { BeginStep(merge, s, c); }
    RunConcat(merge, s, [Begin(c)], Allocs(n) + [last]);
    RunConcat(merge, s1, Allocs(n), [last]);
    RunOne(merge, Run(merge, s1, Allocs(n)), last);
    if Enabled(merge, Run(merge, s1, Allocs(n)), last) {
      TakenOne(merge, Run(merge, s1, Allocs(n)), last);
      TakenAllocs(merge, s1, n);
      TakenConcat(merge, s1, Allocs(n), [last]);
      TakenOne(merge, s, Begin(c));
      TakenConcat(merge, s, [Begin(c)], Allocs(n) + [last]);
    }
  }

  lemma BeginStep(merge: Merger, s: State, c: Compaction)
    requires Enabled(merge, s, Begin(c))
    ensures Step(merge, s, Begin(c)) == s.(job := Busy(c))
  {
  }

  // ----- the family -----

  class StoredFamily {
    const merge: Merger
    const codec: BitmapCodec
    const maxFileSize: int
    const threshold: int
    var v: Version
    var files: map<int, Bytes>
    var next: int
    ghost var tables: Tables
    ghost var free: set<int>
    ghost var history: seq<seq<KV>>

    constructor (merge: Merger, codec: BitmapCodec, maxFileSize: int, threshold: int, levels: nat)
      requires levels >= 2
      ensures Valid() && View() == Init(levels)
    {
      this.merge, this.codec, this.maxFileSize, this.threshold := merge, codec, maxFileSize, threshold;
      v, files, next, tables, free, history := Empty(levels), map[], 2, map[], {}, [];
      new;
      InitInv(levels);
    }

    ghost function View(): (s: State)
      reads this
    {
      State(v, tables, next, free, Idle, history)
    }

    ghost predicate Valid()
      reads this
    {
      Inv(View()) && OnDisk(codec, files, tables) && forall n :: n in files ==> n < next
    }

    /**
     A flusher's adds and commit: one allocation and one flush of the accepted pairs,
     stored in one new file; without an add nothing happens.
     */
    method Flush(adds: seq<KV>) returns (size: nat, ghost ops: seq<Op>)
      requires Valid()
      modifies this
      ensures Valid() && Taken(merge, old(View()), ops) && View() == Run(merge, old(View()), ops)
      ensures |adds| == 0 ==> ops == [] && files == old(files)
      ensures |adds| > 0 ==>
                && old(next) in files && size == |files[old(next)]|
                && files == old(files)[old(next) := files[old(next)]]
                && ops == [Alloc, Op.Flush(old(next), Accepted(adds), Stream.Wrap32(size))]
    {
      hide Inv, OnDisk, Step, Run, Accepted, IsTable, Stores, Taken;
      if |adds| == 0 {
        RunNone(merge, View());
        return 0, [];
      }
      ghost var s := View();
      var f, file := FlushTable(next, codec, adds);
      size := |file|;
      AcceptedAscending(adds);
      var logs := [NewFile(0, f), NextFileNumber(next + 1)];
      v := ApplyLogs(v, logs);
      files := files[f.number := file];
      ghost var es := Accepted(adds);
      ops := [Alloc, Op.Flush(s.next, es, f.size)];
      FlushRun(merge, s, f, es);
      next := next + 2;
      tables, history := tables[f.number := es], history + [es];
      RunFromKeeps(merge, s, ops);
      OnDiskAdd(codec, old(files), old(tables), f.number, file, es);
    }

    /**
     `backgroundCompactionJob`: picks, then moves or merges, then commits.  It is a run of
     the state machine: nothing below the threshold, else a trivial move, a merge, or the
     abort of a merge on which the merger fails, each operation enabled in its turn.  A job
     that succeeds leaves level 0 empty.  No file changes; a merge adds files.
     */
    method Compact() returns (done: bool, ghost ops: seq<Op>)
      requires Valid() && GoodCodec(codec) && AllSmall(files)
      modifies this
      ensures Valid() && Taken(merge, old(View()), ops) && View() == Run(merge, old(View()), ops)
      ensures ops == [] <==> |LevelOf(old(v), 0)| < threshold
      ensures ops != [] ==> |ops| >= 2 && ops[0].Begin?
      ensures done <==> ops != [] && (ops[|ops| - 1].Move? || ops[|ops| - 1].Merge?)
      ensures done ==> LevelOf(v, 0) == map[]
      ensures done && ops[|ops| - 1].Merge? ==> Rotated(maxFileSize, ops[|ops| - 1].cs)
      ensures !done && ops != [] ==>
                ops[|ops| - 1].Abort? && MergerFails(merge, Inputs(ops[0].c.low + ops[0].c.up, old(tables)))
      ensures forall n :: n in old(files) ==> n in files && files[n] == old(files)[n]
      ensures forall n :: n in files && n !in old(files) ==> n in tables && n >= old(next)
      ensures !done || ops[|ops| - 1].Move? ==> files == old(files)
    {
      hide Inv, OnDisk, Step, Run, Lists, Overlapping, GoodCodec, MergerFails, Taken;
      ghost var s := View();
      assert |v| >= 2 && Keyed(v) by { InvVersion(s); }
      var c := PickL0Compaction(v, threshold);
      if c == None {
        RunNone(merge, s);
        return false, [];
      }
      if c.value.TrivialMove() {
        var f := c.value.low[0];
        v := ApplyLogs(v, [Log.DeleteFile(0, f.number), NewFile(1, f), NextFileNumber(next)]);
        next := next + 1;
        ops := [Begin(c.value), Move];
        MoveRun(merge, s, c.value);
        RunFromKeeps(merge, s, ops);
        return true, ops;
      }
      done, ops := MergeJob(c.value);
    }

    method MergeJob(c: Compaction) returns (done: bool, ghost ops: seq<Op>)
      requires Valid() && GoodCodec(codec) && AllSmall(files)
      requires Enabled(merge, View(), Begin(c)) && !c.TrivialMove()
      modifies this
      ensures Valid() && Taken(merge, old(View()), ops) && View() == Run(merge, old(View()), ops)
      ensures |ops| >= 2 && ops[0] == Begin(c) && if done then ops[|ops| - 1].Merge? else ops[|ops| - 1].Abort?
      ensures !done ==> MergerFails(merge, Inputs(c.low + c.up, old(tables)))
      ensures !done ==> files == old(files)
      ensures done ==> LevelOf(v, 0) == map[] && Rotated(maxFileSize, ops[|ops| - 1].cs)
      ensures forall n :: n in old(files) ==> n in files && files[n] == old(files)[n]
      ensures forall n :: n in files && n !in old(files) ==> n in tables && n >= old(next)
    {
      hide Inv, OnDisk, Run, Enabled, GoodCodec, ApplyAll, CompactionLogs, AreOutputs, Stored, JobOps, Taken;
      hide Sorted, AllPairs, Compacts, Concat, Values, MergerFails, Rotated;
      ghost var s := View();
      JobInputs(merge, s, c);
      var inputs := ReadInputs(codec, files, c.low + c.up, tables);
      var ok, outputs, made, next', cs, order := MergeInputs(inputs);
      if !ok {
        ops := JobOps(c, next' - next, Abort);
        JobOpsEnds(c, next' - next, Abort);
        AbortRun(merge, s, c, next');
        next, free := next', Run(merge, s, ops).free;
        RunFromKeeps(merge, s, ops);
        return false, ops;
      }
      ops := JobOps(c, next' - next, Merge(outputs, cs, order));
      MergeRun(merge, s, codec, made, outputs, cs, order, c, next');
      MergeEmpties(merge, s, c, outputs, next');
      v := ApplyLogs(v, CompactionLogs(c.low, c.up, outputs) + [NextFileNumber(next')]);
      files := files + made;
      tables, free, next := Stored(tables, outputs, cs), Run(merge, s, ops).free, next' + 1;
      RunFromKeeps(merge, s, ops);
      OnDiskOutputs(codec, old(files), s.tables, made, outputs, cs);
      done := true;
    }

    /** Reads a key from every file that `FindReaders` returns: all its stored values, in some order. */
    method Get(key: UInt32) returns (vals: seq<Bytes>)
      requires Valid() && GoodCodec(codec) && AllSmall(files)
      ensures multiset(vals) == Total(v, tables, key)
    {
      hide OnDisk, GoodCodec, Total, Stores;
      var fs := FindReaders(v, tables, key);
      vals := [];
      assert fs[..0] == [];
      for i := 0 to |fs|
        invariant multiset(vals) == Lsm.Read(fs[..i], tables, key)
      {
        hide Inv, Lsm.Read, Lookup;
        var n := fs[i].number;
        assert n in files && n in tables && Stores(codec, files[n], tables[n]) && IsMeta(fs[i], tables[n]) by {
          assert fs[i] in fs;
          StoredFile(View(), codec, files, fs[i], key);
        }
        var x := GetFrom(codec, files[n], key, tables[n]);
        ReadSnoc(fs, i, tables, key);
        if x.Some? {
          vals := vals + [x.value];
        }
      }
      assert fs[..|fs|] == fs;
    }

    /** The merging job on its inputs, with its outputs and the numbers it used. */
    method MergeInputs(inputs: seq<seq<KV>>)
      returns (ok: bool, outputs: seq<FileMeta>, made: map<int, Bytes>, next': int, ghost cs: seq<seq<KV>>, ghost order: seq<KV>)
      requires forall i :: 0 <= i < |inputs| ==> Sorted(inputs[i])
      ensures next <= next' && forall n :: n in made ==> next <= n < next'
      ensures !ok ==> MergerFails(merge, inputs)
      ensures ok ==>
                && AreOutputs(codec, made, outputs, cs) && Rotated(maxFileSize, cs)
                && Sorted(order) && multiset(order) == AllPairs(inputs)
                && Compacts(merge, order, Concat(cs))
                && forall k: UInt32 :: |Values(order, k)| > 0 ==> merge(k, Values(order, k)).Some?
    {
      hide AreOutputs, Sorted, AllPairs, Compacts, Values, Concat, InputValues, Rotated;
      var job := new CompactionJob(merge, codec, maxFileSize, next);
      ghost var bad;
      ok, order, bad := job.DoMerge(inputs);
      outputs, made, next', cs := job.outputs, job.files, job.nextFileNumber, job.contents;
    }
  }

  method GetFrom(codec: BitmapCodec, file: Bytes, key: UInt32, ghost es: seq<KV>) returns (v: Option<Bytes>)
    requires GoodCodec(codec) && Stores(codec, file, es) && Ascending(es) && |es| > 0 && |file| < DeltaPacking.HALF
    ensures v == Lookup(es, key)
  {
    hide IsTable, GoodCodec, Data, Keys, Offsets, Lookup;
    ghost var ob :| IsTable(codec, file, es, ob);
    var r := Open(file, codec, es, ob);
    StartsWithData(codec, file, es, ob);
    v := Table.Get(r.value, key, es, file[|Data(es)|..]);
    LookupAt(es, key);
    if v.Some? {
      LookupThere(es, KV(key, v.value));
    }
  }

  lemma {:induction false} LookupThere(es: seq<KV>, x: KV)
    requires Ascending(es) && x in es
    ensures Lookup(es, x.key) == Some(x.value)
  {
    if es[|es| - 1] != x {
      LookupThere(es[..|es| - 1], x);
    }
  }

  lemma StoredFile(s: State, codec: BitmapCodec, files: map<int, Bytes>, f: FileMeta, key: UInt32)
    requires FilesOk(s.v, s.tables) && OnDisk(codec, files, s.tables) && IsFound(f, s.v, key)
    ensures f.number in s.tables && f.number in files
    ensures Stores(codec, files[f.number], s.tables[f.number]) && IsMeta(f, s.tables[f.number])
  {
    hide Stores, IsMeta;
  }

  lemma ReadSnoc(fs: seq<FileMeta>, i: nat, t: Tables, k: UInt32)
    requires i < |fs| && fs[i].number in t
    ensures Lsm.Read(fs[..i + 1], t, k) == Lsm.Read(fs[..i], t, k) + Bag(Lookup(t[fs[i].number], k))
  {
    assert fs[..i + 1][..i] == fs[..i];
  }

  lemma InvVersion(s: State)
    requires Inv(s)
    ensures |s.v| >= 2 && Keyed(s.v)
  {
  }

  /** Picking and moving. */
  lemma MoveRun(merge: Merger, s: State, c: Compaction)
    requires |s.v| >= 2 && s.job == Idle && Enabled(merge, s, Begin(c)) && c.TrivialMove()
    ensures Taken(merge, s, [Begin(c), Move]) && LevelOf(Run(merge, s, [Begin(c), Move]).v, 0) == map[]
    ensures var f := c.low[0];
            Run(merge, s, [Begin(c), Move])
            == s.(v := ApplyAll(s.v, [Log.DeleteFile(0, f.number), NewFile(1, f), NextFileNumber(s.next)]), next := s.next + 1)
  {
    hide ApplyAll, Lists, Overlapping, Taken, Run, Keyed;
    var f := c.low[0];
    assert [Begin(c), Move] == [Begin(c)] + [Move];
    RunConcat(merge, s, [Begin(c)], [Move]);
    RunOne(merge, s, Begin(c));
    RunOne(merge, Step(merge, s, Begin(c)), Move);
    TakenOne(merge, s, Begin(c));
    TakenOne(merge, Step(merge, s, Begin(c)), Move);
    TakenConcat(merge, s, [Begin(c)], [Move]);
    hide Enabled;
    MoveVersion(s, f);
    MovedAll(c, s.v);
    assert [Log.DeleteFile(0, f.number), NewFile(1, f)] + [NextFileNumber(s.next)]
        == [Log.DeleteFile(0, f.number), NewFile(1, f), NextFileNumber(s.next)];
  }

  lemma MovedAll(c: Compaction, v: Version)
    requires |v| > 0 && Lists(c.low, v[0]) && c.TrivialMove()
    ensures v[0] - {c.low[0].number} == map[]
  {
    assert Numbers(c.low) == {c.low[0].number};
  }

  lemma MergedAll(c: Compaction, v: Version)
    requires |v| > 0 && Lists(c.low, v[0])
    ensures v[0] - Numbers(c.low) == map[]
  {
  }

  lemma InputTable(merge: Merger, s: State, c: Compaction, f: FileMeta)
    requires Inv(s) && Enabled(merge, s, Begin(c)) && (f in c.low || f in c.up)
    ensures f.number in s.tables && IsMeta(f, s.tables[f.number])
  {
    hide IsMeta, OneTable, Numbers;
    if f in c.low {
      var i :| 0 <= i < |c.low| && c.low[i] == f;
      assert f.number in s.v[0] && s.v[0][f.number] == f;
    } else {
      var i :| 0 <= i < |c.up| && c.up[i] == f;
      assert f.number in s.v[1] && s.v[1][f.number] == f;
    }
  }

  /** The inputs of a picked job are tables of the family. */
  lemma JobInputs(merge: Merger, s: State, c: Compaction)
    requires Inv(s) && Enabled(merge, s, Begin(c))
    ensures forall f :: f in c.low + c.up ==> f.number in s.tables && IsMeta(f, s.tables[f.number])
    ensures forall i :: 0 <= i < |c.low + c.up| ==> Sorted(Inputs(c.low + c.up, s.tables)[i])
  {
    hide IsMeta, Inv, Enabled, Sorted;
    var fs := c.low + c.up;
    forall f | f in fs
      ensures f.number in s.tables && IsMeta(f, s.tables[f.number])
    {
      InputTable(merge, s, c, f);
    }
    forall i | 0 <= i < |fs|
      ensures Sorted(Inputs(fs, s.tables)[i])
    {
      assert fs[i] in fs;
      MetaSorted(fs[i], s.tables[fs[i].number]);
    }
  }

  lemma MetaSorted(f: FileMeta, es: seq<KV>)
    requires IsMeta(f, es)
    ensures Sorted(es)
  {
  }

  lemma AbortStep(merge: Merger, s: State)
    requires s.job.Busy?
    ensures Enabled(merge, s, Abort)
    ensures Step(merge, s, Abort) == s.(job := Idle)
  {
  }

  lemma MergeStep(merge: Merger, s: State, outs: seq<FileMeta>, cs: seq<seq<KV>>, order: seq<KV>)
    requires s.job.Busy? && !s.job.c.TrivialMove() && Built(merge, s, s.job.c, outs, cs, order)
    ensures Enabled(merge, s, Merge(outs, cs, order))
    ensures var c := s.job.c;
            Step(merge, s, Merge(outs, cs, order))
            == State(ApplyAll(s.v, CompactionLogs(c.low, c.up, outs) + [NextFileNumber(s.next)]), Stored(s.tables, outs, cs),
                     s.next + 1, s.free - Numbers(outs), Idle, s.history)
  {
    hide ApplyAll, CompactionLogs, Stored, Built;
  }

  lemma AbortRun(merge: Merger, s: State, c: Compaction, next': int)
    requires s.job == Idle && Enabled(merge, s, Begin(c)) && s.next <= next'
    ensures Taken(merge, s, JobOps(c, next' - s.next, Abort))
    ensures var s' := Run(merge, s, JobOps(c, next' - s.next, Abort));
            s' == s.(next := next', free := s'.free)
  {
    hide Step, Run, Enabled, JobOps, Taken;
    var s1 := s.(job := Busy(c));
    RunAllocs(merge, s1, next' - s.next);
    RunJob(merge, s, c, next' - s.next, Abort);
    AbortStep(merge, Run(merge, s1, Allocs(next' - s.next)));
  }

  /** A job that has built its outputs under the numbers from `s.next` on commits them. */
  lemma MergeRun(merge: Merger, s: State, codec: BitmapCodec, made: map<int, Bytes>,
                 outs: seq<FileMeta>, cs: seq<seq<KV>>, order: seq<KV>, c: Compaction, next': int)
    requires Inv(s) && s.job == Idle && Enabled(merge, s, Begin(c)) && !c.TrivialMove() && s.next <= next'
    requires AreOutputs(codec, made, outs, cs) && forall n :: n in made ==> s.next <= n < next'
    requires Sorted(order) && multiset(order) == AllPairs(Inputs(c.low + c.up, s.tables))
    requires Compacts(merge, order, Concat(cs))
    requires forall k: UInt32 :: |Values(order, k)| > 0 ==> merge(k, Values(order, k)).Some?
    ensures |outs| == |cs| && forall n :: n in made ==> n !in s.tables
    ensures var ops := JobOps(c, next' - s.next, Merge(outs, cs, order));
            && |ops| >= 2 && ops[0] == Begin(c) && ops[|ops| - 1] == Merge(outs, cs, order) && Taken(merge, s, ops)
            && Run(merge, s, ops)
            == State(ApplyAll(s.v, CompactionLogs(c.low, c.up, outs) + [NextFileNumber(next')]), Stored(s.tables, outs, cs),
                     next' + 1, Run(merge, s, ops).free, Idle, s.history)
  {
    hide Step, Run, Enabled, JobOps, ApplyAll, CompactionLogs, Stored, Built, Taken;
    hide Sorted, AllPairs, Compacts, Values, IsOutput;
    var n, last := next' - s.next, Merge(outs, cs, order);
    var s1 := s.(job := Busy(c));
    var s2 := Run(merge, s1, Allocs(n));
    JobOpsEnds(c, n, last);
    RunAllocs(merge, s1, n);
    RunJob(merge, s, c, n, last);
    OutputsBuilt(merge, s1, s2, codec, made, outs, cs, order, c);
    MergeStep(merge, s2, outs, cs, order);
  }

  /** A merge takes all of level 0 with it. */
  lemma MergeEmpties(merge: Merger, s: State, c: Compaction, outs: seq<FileMeta>, next': int)
    requires Inv(s) && Enabled(merge, s, Begin(c))
    ensures LevelOf(ApplyAll(s.v, CompactionLogs(c.low, c.up, outs) + [NextFileNumber(next')]), 0) == map[]
  {
    hide ApplyAll, CompactionLogs, Numbers, AsLevel, Overlapping, Lists, FilesOk, OneTable;
    ApplyConcat(s.v, CompactionLogs(c.low, c.up, outs), [NextFileNumber(next')]);
    ApplyCompaction(s.v, c.low, c.up, outs);
    ApplySingle(ApplyAll(s.v, CompactionLogs(c.low, c.up, outs)), NextFileNumber(next'));
    MergedAll(c, s.v);
  }

  /** What the job built is what the state machine may commit. */
  lemma OutputsBuilt(merge: Merger, s1: State, s2: State, codec: BitmapCodec, made: map<int, Bytes>,
                     outs: seq<FileMeta>, cs: seq<seq<KV>>, order: seq<KV>, c: Compaction)
    requires AreOutputs(codec, made, outs, cs) && s2.tables == s1.tables
    requires forall n :: n in made ==> n in s2.free
    requires Sorted(order) && multiset(order) == AllPairs(Inputs(c.low + c.up, s1.tables))
    requires Compacts(merge, order, Concat(cs))
    requires forall k: UInt32 :: |Values(order, k)| > 0 ==> merge(k, Values(order, k)).Some?
    ensures Built(merge, s2, c, outs, cs, order)
  {
    hide IsTable, AllPairs, Values, Sorted, Ascending;
    forall i | 0 <= i < |outs|
      ensures outs[i].number in s2.free && IsMeta(outs[i], cs[i])
    {
      assert IsOutput(codec, made, outs[i], cs[i]);
      PartAscending(cs, i);
    }
  }

  lemma {:induction false} PartAscending(cs: seq<seq<KV>>, i: nat)
    requires Ascending(Concat(cs)) && i < |cs|
    ensures Ascending(cs[i])
    decreases |cs|
  {
    hide Ascending;
    var n := |cs| - 1;
    BagConcat(Concat(cs[..n]), cs[n], 0);
    if i < n {
      PartAscending(cs[..n], i);
    }
  }

  lemma OnDiskOutputs(codec: BitmapCodec, files: map<int, Bytes>, t: Tables, made: map<int, Bytes>,
                      outs: seq<FileMeta>, cs: seq<seq<KV>>)
    requires OnDisk(codec, files, t) && AreOutputs(codec, made, outs, cs)
    requires forall n :: n in made ==> n !in t
    ensures OnDisk(codec, files + made, Stored(t, outs, cs))
    ensures forall n :: n in made ==> n in Stored(t, outs, cs)
  {
    hide Stores, Stored, IsTable;
    StoredAt(t, outs, cs);
    forall n | n in Stored(t, outs, cs)
      ensures n in files + made && Stores(codec, (files + made)[n], Stored(t, outs, cs)[n])
    {
      if n in Numbers(outs) {
        var i := IndexOf(outs, n);
        OutputStores(codec, made, outs[i], cs[i]);
      }
    }
  }

  lemma OutputStores(codec: BitmapCodec, made: map<int, Bytes>, f: FileMeta, es: seq<KV>)
    requires IsOutput(codec, made, f, es)
    ensures Stores(codec, made[f.number], es)
  {
  }

  method FlushTable(number: int, codec: BitmapCodec, adds: seq<KV>) returns (f: FileMeta, file: Bytes)
    requires |adds| > 0
    ensures |Accepted(adds)| > 0 && f == MetaOf(number, Accepted(adds), Stream.Wrap32(|file|))
    ensures Stores(codec, file, Accepted(adds))
  {
    hide Data, Offsets, IsTable, Ascending, Keys, StoreBuilder.Valid, Accepted;
    var b := new StoreBuilder(number, codec);
    AddAll(b, adds);
    AcceptedAscending(adds);
    BuilderCount(b);
    ghost var ob;
    file, ob := b.Close();
    f := FileMeta(b.fileNumber, b.minKey, b.maxKey, b.Size());
  }

  lemma RunNone(merge: Merger, s: State)
    ensures Run(merge, s, []) == s && Taken(merge, s, [])
  {
  }

  lemma AllocStep(merge: Merger, s: State)
    ensures Step(merge, s, Alloc) == s.(next := s.next + 1, free := s.free + {s.next})
  {
  }

  lemma FlushStep(merge: Merger, s: State, n: int, es: seq<KV>, size: int)
    requires n in s.free && |es| > 0 && Ascending(es)
    ensures Step(merge, s, Op.Flush(n, es, size))
         == State(ApplyAll(s.v, [NewFile(0, MetaOf(n, es, size))] + [NextFileNumber(s.next)]), s.tables[n := es], s.next + 1,
                  s.free - {n}, s.job, s.history + [es])
  {
    hide ApplyAll;
  }

  /** Opening a builder and committing it. */
  lemma FlushRun(merge: Merger, s: State, f: FileMeta, es: seq<KV>)
    requires Inv(s) && s.job == Idle && |es| > 0 && Ascending(es) && f == MetaOf(s.next, es, f.size)
    ensures Taken(merge, s, [Alloc, Op.Flush(s.next, es, f.size)])
    ensures Run(merge, s, [Alloc, Op.Flush(s.next, es, f.size)])
         == State(ApplyAll(s.v, [NewFile(0, f), NextFileNumber(s.next + 1)]), s.tables[f.number := es], s.next + 2,
                  s.free, Idle, s.history + [es])
  {
    hide ApplyAll, FilesOk, OneTable, Step, Run, Ascending;
    var flush := Op.Flush(s.next, es, f.size);
    AllocStep(merge, s);
    FlushStep(merge, Step(merge, s, Alloc), s.next, es, f.size);
    assert [Alloc, flush] == [Alloc] + [flush];
    RunConcat(merge, s, [Alloc], [flush]);
    RunOne(merge, s, Alloc);
    RunOne(merge, Step(merge, s, Alloc), flush);
    TakenOne(merge, s, Alloc);
    TakenOne(merge, Step(merge, s, Alloc), flush);
    TakenConcat(merge, s, [Alloc], [flush]);
    hide Taken, Enabled;
    assert [NewFile(0, f)] + [NextFileNumber(s.next + 1)] == [NewFile(0, f), NextFileNumber(s.next + 1)];
    assert s.free + {s.next} - {s.next} == s.free;
  }

  lemma {:induction false} RunFromKeeps(merge: Merger, s: State, ops: seq<Op>)
    requires Inv(s)
    ensures Inv(Run(merge, s, ops))
    decreases |ops|
  {
    hide Inv, Step;
    if |ops| > 0 {
      RunFromKeeps(merge, s, ops[..|ops| - 1]);
      StepKeeps(merge, Run(merge, s, ops[..|ops| - 1]), ops[|ops| - 1]);
    }
  }

  lemma OnDiskAdd(codec: BitmapCodec, files: map<int, Bytes>, t: Tables, n: int, file: Bytes, es: seq<KV>)
    requires OnDisk(codec, files, t) && Stores(codec, file, es)
    ensures OnDisk(codec, files[n := file], t[n := es])
  {
    hide Stores;
  }
}
