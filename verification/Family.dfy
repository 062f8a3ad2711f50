/**
 All runs of one column family: flushes and compactions in any interleaving.  Main
 results: a key's meaning is always that of all values ever flushed for it, and a
 key is in at most one level-1 table.
 */
module Family {
  import opened Options
  import opened Words
  import opened Table
  import opened MergeIterator
  import opened CompactJob
  import opened Framing
  import opened Versions
  import opened Lsm

  datatype Job = Idle | Busy(c: Compaction)

  /**
   `free` holds the file numbers handed out to flushers and jobs that have not
   committed; `history` the contents of all committed flushes.
   */
  datatype State = State(v: Version, tables: Tables, next: int, free: set<int>, job: Job, history: seq<seq<KV>>)

  function Init(levels: nat): (s: State)
  {
    State(Empty(levels), map[], 2, {}, Idle, [])
  }

  datatype Op =
    | Alloc  // a flusher or a job opens a table builder
    | Flush(n: int, es: seq<KV>, size: int)  // a flusher commits
    | Begin(c: Compaction)  // a job takes its snapshot and picks its inputs
    | Move  // a job commits a trivial move
    | Merge(outs: seq<FileMeta>, cs: seq<seq<KV>>, order: seq<KV>)  // a job commits its merge
    | Abort  // a job fails

  function MetaOf(n: int, es: seq<KV>, size: int): (f: FileMeta)
    requires |es| > 0
  {
    FileMeta(n, es[0].key, es[|es| - 1].key, size)
  }

  /** The outputs a merging job can have built: fresh numbers, exact ranges, the compaction of its inputs. */
  ghost predicate Built(merge: Merger, s: State, c: Compaction, outs: seq<FileMeta>, cs: seq<seq<KV>>, order: seq<KV>) {
    && |outs| == |cs| && DistinctNumbers(outs)
    && (forall i :: 0 <= i < |outs| ==> outs[i].number in s.free && IsMeta(outs[i], cs[i]))
    && Sorted(order) && multiset(order) == AllPairs(Inputs(c.low + c.up, s.tables))
    && Compacts(merge, order, Concat(cs))
    && forall k: UInt32 :: |Values(order, k)| > 0 ==> merge(k, Values(order, k)).Some?
  }

  ghost predicate Enabled(merge: Merger, s: State, op: Op) {
    match op
    case Alloc => true
    case Flush(n, es, _) => n in s.free && |es| > 0 && Ascending(es)
    case Begin(c) =>
      && s.job == Idle && |s.v| > 0
      && Lists(c.low, s.v[0]) && Lists(c.up, Overlapping(LevelOf(s.v, 1), s.v[0].Values))
    case Move => s.job.Busy? && s.job.c.TrivialMove()
    case Merge(outs, cs, order) => s.job.Busy? && !s.job.c.TrivialMove() && Built(merge, s, s.job.c, outs, cs, order)
    case Abort => s.job.Busy?
  }

  /** `CommitFamilyEditLog`: the logs go to the version that is current now; logging the next number uses it up. */
  function Commit(s: State, logs: seq<Log>): (s': State)
  {
    s.(v := ApplyAll(s.v, logs + [NextFileNumber(s.next)]), next := s.next + 1)
  }

  function Stored(t: Tables, fs: seq<FileMeta>, cs: seq<seq<KV>>): (t': Tables)
    requires |fs| == |cs|
  {
    if |fs| == 0 then t
    else Stored(t, fs[..|fs| - 1], cs[..|fs| - 1])[fs[|fs| - 1].number := cs[|fs| - 1]]
  }

  /** A disabled operation leaves the state alone. */
  ghost function Step(merge: Merger, s: State, op: Op): (s': State)
  {
    if !Enabled(merge, s, op) then s
    else
      match op
      case Alloc => s.(next := s.next + 1, free := s.free + {s.next})
      case Flush(n, es, size) =>
        Commit(s, [NewFile(0, MetaOf(n, es, size))])
          .(tables := s.tables[n := es], free := s.free - {n}, history := s.history + [es])
      case Begin(c) => s.(job := Busy(c))
      case Move =>
        var f := s.job.c.low[0];
        Commit(s, [Log.DeleteFile(0, f.number), NewFile(1, f)]).(job := Idle)
      case Merge(outs, cs, order) =>
        Commit(s, CompactionLogs(s.job.c.low, s.job.c.up, outs))
          .(tables := Stored(s.tables, outs, cs), free := s.free - Numbers(outs), job := Idle)
      case Abort => s.(job := Idle)
  }

  ghost function Run(merge: Merger, s: State, ops: seq<Op>): (s': State)
  {
    if |ops| == 0 then s else Step(merge, Run(merge, s, ops[..|ops| - 1]), ops[|ops| - 1])
  }

  // ----- invariant -----

  /** No key is in two of the tables. */
  ghost predicate OneTable(m: map<int, FileMeta>, t: Tables) {
    forall x, y, k: UInt32 :: x in m && y in m && x != y ==> !(ValueIn(t, x, k).Some? && ValueIn(t, y, k).Some?)
  }

  /** A job's inputs are still there, and its level-1 inputs are all files that meet its level-0 inputs. */
  ghost predicate JobOk(c: Compaction, v: Version)
    requires |v| >= 2
  {
    && DistinctNumbers(c.low)
    && (forall f :: f in c.low ==> f.number in v[0] && v[0][f.number] == f)
    && Lists(c.up, Overlapping(v[1], Elements(c.low)))
  }

  ghost predicate Inv(s: State) {
    && |s.v| >= 2 && FilesOk(s.v, s.tables)
    && s.v[0].Keys !! s.v[1].Keys
    && s.free !! s.tables.Keys && (forall n :: n in s.free || n in s.tables ==> n < s.next)
    && OneTable(s.v[1], s.tables)
    && (s.job.Busy? ==> JobOk(s.job.c, s.v))
  }

  lemma InitInv(levels: nat)
    requires levels >= 2
    ensures Inv(Init(levels))
  {
  }

  // ----- flush -----

  lemma CommitOne(s: State, log: Log)
    ensures ApplyAll(s.v, [log] + [NextFileNumber(s.next)]) == Apply(s.v, log)
  {
    ApplyConcat(s.v, [log], [NextFileNumber(s.next)]);
    ApplySingle(s.v, log);
    ApplySingle(Apply(s.v, log), NextFileNumber(s.next));
  }

  lemma FlushKeeps(merge: Merger, s: State, n: int, es: seq<KV>, size: int)
    requires Inv(s) && Enabled(merge, s, Flush(n, es, size))
    ensures Inv(Step(merge, s, Flush(n, es, size)))
    ensures Step(merge, s, Flush(n, es, size)).v == s.v[0 := s.v[0][n := MetaOf(n, es, size)]]
  {
    hide Lists, Overlapping, ApplyAll, OneTable;
    var f := MetaOf(n, es, size);
    var s' := Step(merge, s, Flush(n, es, size));
    CommitOne(s, NewFile(0, f));
    assert s'.v == s.v[0 := s.v[0][n := f]];
    OneTableSame(s.v[1], s.tables, s'.tables);
  }

  lemma OneTableSame(m: map<int, FileMeta>, t: Tables, t': Tables)
    requires OneTable(m, t) && forall n :: n in m ==> n in t && n in t' && t'[n] == t[n]
    ensures OneTable(m, t')
  {
    hide Lookup;
    forall x, y, k: UInt32 | x in m && y in m && x != y
      ensures !(ValueIn(t', x, k).Some? && ValueIn(t', y, k).Some?)
    {
      assert ValueIn(t, x, k) == ValueIn(t', x, k) && ValueIn(t, y, k) == ValueIn(t', y, k);
    }
  }

  // ----- begin -----

  lemma BeginKeeps(merge: Merger, s: State, c: Compaction)
    requires Inv(s) && Enabled(merge, s, Begin(c))
    ensures Inv(Step(merge, s, Begin(c)))
  {
    hide OneTable, FilesOk, Overlapping;
    ListedValues(c.low, s.v[0]);
  }

  // ----- trivial move -----

  lemma MoveVersion(s: State, f: FileMeta)
    requires |s.v| >= 2
    ensures ApplyAll(s.v, [Log.DeleteFile(0, f.number), NewFile(1, f)] + [NextFileNumber(s.next)])
         == s.v[0 := s.v[0] - {f.number}][1 := s.v[1][f.number := f]]
  {
    hide ApplyAll;
    var a, b, z := Log.DeleteFile(0, f.number), NewFile(1, f), NextFileNumber(s.next);
    assert [a, b] + [z] == [a] + ([b] + [z]);
    ApplyConcat(s.v, [a], [b] + [z]);
    ApplyConcat(s.v, [a], [z]);
    CommitOne(s, a);
    ApplySingle(s.v, a);
    ApplyConcat(Apply(s.v, a), [b], [z]);
    ApplySingle(Apply(s.v, a), b);
    ApplySingle(Apply(Apply(s.v, a), b), z);
  }

  lemma ApplySingle(v: Version, log: Log)
    ensures ApplyAll(v, [log]) == Apply(v, log)
  {
    assert [log][..0] == [];
  }

  /** A level-1 file that shares a key with a level-0 input is an input too. */
  lemma SharedIsInput(c: Compaction, v: Version, t: Tables, f: FileMeta, y: int, k: UInt32)
    requires |v| >= 2 && FilesOk(v, t) && JobOk(c, v) && f in c.low && y in v[1]
    requires ValueIn(t, f.number, k).Some? && ValueIn(t, y, k).Some?
    ensures y in Numbers(c.up)
  {
    hide Numbers, ValueIn;
    assert f.number in v[0] && v[0][f.number] == f;
    RangeBounds(f, t, k);
    RangeBounds(v[1][y], t, k);
    assert Overlaps(v[1][y], f.minKey, f.maxKey);
    assert y in Overlapping(v[1], Elements(c.low));
  }

  lemma MoveKeeps(merge: Merger, s: State)
    requires Inv(s) && Enabled(merge, s, Move)
    ensures Inv(Step(merge, s, Move))
    ensures var f := s.job.c.low[0];
            f.number in s.v[0] && Step(merge, s, Move).v == s.v[0 := s.v[0] - {f.number}][1 := s.v[1][f.number := f]]
  {
    hide ApplyAll, Lists, Overlapping, ValueIn;
    var c := s.job.c;
    var f := c.low[0];
    assert f in c.low;
    MoveVersion(s, f);
    forall y, k: UInt32 | y in s.v[1] && ValueIn(s.tables, f.number, k).Some? && ValueIn(s.tables, y, k).Some?
      ensures false
    {
      SharedIsInput(c, s.v, s.tables, f, y, k);
      NoUpInputs(c);
    }
  }

  lemma NoUpInputs(c: Compaction)
    requires |c.up| == 0
    ensures Numbers(c.up) == {}
  {
  }

  // ----- merge -----

  lemma MergeVersion(s: State, c: Compaction, outs: seq<FileMeta>)
    requires |s.v| >= 2
    ensures ApplyAll(s.v, CompactionLogs(c.low, c.up, outs) + [NextFileNumber(s.next)])
         == s.v[0 := s.v[0] - Numbers(c.low)][1 := s.v[1] - Numbers(c.up) + AsLevel(outs)]
  {
    hide ApplyAll, CompactionLogs, Numbers, AsLevel;
    ApplyConcat(s.v, CompactionLogs(c.low, c.up, outs), [NextFileNumber(s.next)]);
    ApplyCompaction(s.v, c.low, c.up, outs);
    ApplySingle(ApplyAll(s.v, CompactionLogs(c.low, c.up, outs)), NextFileNumber(s.next));
  }

  lemma {:induction false} StoredKeys(t: Tables, fs: seq<FileMeta>, cs: seq<seq<KV>>)
    requires |fs| == |cs|
    ensures Stored(t, fs, cs).Keys == t.Keys + Numbers(fs)
    decreases |fs|
  {
    if |fs| > 0 {
      StoredKeys(t, fs[..|fs| - 1], cs[..|fs| - 1]);
      NumbersSnoc(fs);
    }
  }

  lemma {:induction false} StoredIndex(t: Tables, fs: seq<FileMeta>, cs: seq<seq<KV>>, i: nat)
    requires |fs| == |cs| && DistinctNumbers(fs) && i < |fs|
    ensures fs[i].number in Stored(t, fs, cs) && Stored(t, fs, cs)[fs[i].number] == cs[i]
    decreases |fs|
  {
    var n := |fs| - 1;
    if i < n {
      StoredIndex(t, fs[..n], cs[..n], i);
    }
  }

  lemma {:induction false} StoredOther(t: Tables, fs: seq<FileMeta>, cs: seq<seq<KV>>, x: int)
    requires |fs| == |cs| && x in t && forall i :: 0 <= i < |fs| ==> fs[i].number != x
    ensures x in Stored(t, fs, cs) && Stored(t, fs, cs)[x] == t[x]
    decreases |fs|
  {
    if |fs| > 0 {
      StoredOther(t, fs[..|fs| - 1], cs[..|fs| - 1], x);
    }
  }

  lemma StoredAt(t: Tables, fs: seq<FileMeta>, cs: seq<seq<KV>>)
    requires |fs| == |cs| && DistinctNumbers(fs)
    ensures Stored(t, fs, cs).Keys == t.Keys + Numbers(fs)
    ensures forall i :: 0 <= i < |fs| ==> Stored(t, fs, cs)[fs[i].number] == cs[i]
    ensures forall n :: n in t && n !in Numbers(fs) ==> Stored(t, fs, cs)[n] == t[n]
  {
    hide Stored, Numbers;
    StoredKeys(t, fs, cs);
    forall i | 0 <= i < |fs|
      ensures Stored(t, fs, cs)[fs[i].number] == cs[i]
    {
      StoredIndex(t, fs, cs, i);
    }
    forall n | n in t && n !in Numbers(fs)
      ensures Stored(t, fs, cs)[n] == t[n]
    {
      StoredOther(t, fs, cs, n);
    }
  }

  /** Two parts of an ascending list share no key, and each part's keys are the list's. */
  lemma {:induction false} PartsDisjoint(cs: seq<seq<KV>>, i: nat, j: nat, k: UInt32)
    requires Ascending(Concat(cs)) && i < |cs| && j < |cs| && i != j
    ensures Lookup(cs[i], k).Some? ==> Lookup(Concat(cs), k).Some? && Lookup(cs[j], k) == None
    decreases |cs|
  {
    hide Lookup, Ascending, Bag;
    var n := |cs| - 1;
    BagConcat(Concat(cs[..n]), cs[n], k);
    LookupConcat(Concat(cs[..n]), cs[n], k);
    OneOfTwo(Lookup(Concat(cs[..n]), k), Lookup(cs[n], k), Lookup(Concat(cs), k));
    if i < n && j < n {
      PartsDisjoint(cs[..n], i, j, k);
    } else if i < n {
      PartOf(cs[..n], i, k);
    } else {
      PartOf(cs[..n], j, k);
    }
  }

  lemma OneOfTwo(a: Option<Bytes>, b: Option<Bytes>, c: Option<Bytes>)
    requires Bag(c) == Bag(a) + Bag(b)
    ensures a == None || b == None
  {
    assert |Bag(c)| == |Bag(a)| + |Bag(b)|;
  }

  lemma {:induction false} PartOf(cs: seq<seq<KV>>, i: nat, k: UInt32)
    requires i < |cs|
    ensures Lookup(cs[i], k).Some? ==> Lookup(Concat(cs), k).Some?
    decreases |cs|
  {
    hide Lookup;
    var n := |cs| - 1;
    LookupConcat(Concat(cs[..n]), cs[n], k);
    if i < n {
      PartOf(cs[..n], i, k);
    }
  }

  /** A value read from a list of files is in one of them. */
  lemma {:induction false} ReadSome(fs: seq<FileMeta>, t: Tables, k: UInt32)
    requires Read(fs, t, k) != multiset{}
    ensures exists i :: 0 <= i < |fs| && ValueIn(t, fs[i].number, k).Some?
    decreases |fs|
  {
    hide ValueIn;
    var n := |fs| - 1;
    if ValueIn(t, fs[n].number, k) == None {
      ReadSome(fs[..n], t, k);
      var i :| 0 <= i < n && ValueIn(t, fs[..n][i].number, k).Some?;
      assert ValueIn(t, fs[i].number, k).Some?;
    }
  }

  /** What a job reads of key `k` is what its merged order has of it. */
  lemma OrderReads(merge: Merger, s: State, c: Compaction, outs: seq<FileMeta>, cs: seq<seq<KV>>, order: seq<KV>, k: UInt32)
    requires Inv(s) && JobOk(c, s.v) && Built(merge, s, c, outs, cs, order)
    ensures multiset(Values(order, k)) == Read(c.low + c.up, s.tables, k)
  {
    hide InputValues, Read, Values, AllPairs, OneTable, Overlapping, Compacts;
    var none: multiset<KV> := multiset{};
    assert none + multiset(order) == multiset(order);
    AllValuesOf(Inputs(c.low + c.up, s.tables), order, none, k);
    InputFiles(s, c);
    InputsRead(c.low + c.up, s.tables, k);
  }

  lemma InputFiles(s: State, c: Compaction)
    requires |s.v| >= 2 && FilesOk(s.v, s.tables) && JobOk(c, s.v)
    ensures forall i :: 0 <= i < |c.low + c.up| ==>
              var n := (c.low + c.up)[i].number;
              n in s.tables && Ascending(s.tables[n])
  {
    hide Ascending;
    forall i | 0 <= i < |c.low + c.up|
      ensures (c.low + c.up)[i].number in s.tables && Ascending(s.tables[(c.low + c.up)[i].number])
    {
      var f := (c.low + c.up)[i];
      if i < |c.low| {
        assert f in c.low;
        assert f.number in s.v[0];
      } else {
        assert f == c.up[i - |c.low|];
        assert f.number in s.v[1];
      }
    }
  }

  /** An output shares no key with a level-1 file that was not an input. */
  lemma OutputApart(merge: Merger, s: State, c: Compaction, outs: seq<FileMeta>, cs: seq<seq<KV>>, order: seq<KV>,
                    i: nat, y: int, k: UInt32)
    requires Inv(s) && JobOk(c, s.v) && Built(merge, s, c, outs, cs, order)
    requires i < |cs| && Lookup(cs[i], k).Some? && y in s.v[1] && y !in Numbers(c.up)
    ensures ValueIn(s.tables, y, k) == None
  {
    hide Read, Values, AllPairs, Overlapping, Lookup, ValueIn, FilesOk, Ascending;
    PartOf(cs, i, k);
    assert |Values(order, k)| > 0;
    OrderReads(merge, s, c, outs, cs, order, k);
    assert Values(order, k)[0] in multiset(Values(order, k));
    ReadSome(c.low + c.up, s.tables, k);
    var j :| 0 <= j < |c.low + c.up| && ValueIn(s.tables, (c.low + c.up)[j].number, k).Some?;
    var f := (c.low + c.up)[j];
    if j < |c.low| {
      assert f in c.low;
      if ValueIn(s.tables, y, k).Some? {
        SharedIsInput(c, s.v, s.tables, f, y, k);
      }
    } else {
      assert f == c.up[j - |c.low|];
      UpInput(c, s.v, j - |c.low|);
    }
  }

  lemma UpInput(c: Compaction, v: Version, j: nat)
    requires |v| >= 2 && JobOk(c, v) && j < |c.up|
    ensures c.up[j].number in v[1] && c.up[j].number in Numbers(c.up)
  {
  }

  /** The version and tables after a merge. */
  ghost function MergedVersion(v: Version, c: Compaction, outs: seq<FileMeta>): (v': Version)
    requires |v| >= 2
  {
    v[0 := v[0] - Numbers(c.low)][1 := v[1] - Numbers(c.up) + AsLevel(outs)]
  }

  lemma MergeFiles(merge: Merger, s: State, c: Compaction, outs: seq<FileMeta>, cs: seq<seq<KV>>, order: seq<KV>)
    requires Inv(s) && Built(merge, s, c, outs, cs, order)
    ensures FilesOk(MergedVersion(s.v, c, outs), Stored(s.tables, outs, cs))
    ensures forall l, n :: 0 <= l < |s.v| && n in s.v[l] ==> n !in Numbers(outs)
  {
    hide Numbers, AsLevel, Stored, IsMeta, Compacts, OneTable, AllPairs;
    var v': Version := MergedVersion(s.v, c, outs);
    var t' := Stored(s.tables, outs, cs);
    AsLevelAt(outs);
    StoredAt(s.tables, outs, cs);
    forall l, n | 0 <= l < |v'| && n in v'[l]
      ensures v'[l][n].number == n && n in t' && IsMeta(v'[l][n], t'[n])
    {
      if n in Numbers(outs) && l == 1 {
        var i := IndexOf(outs, n);
      } else {
        assert n in s.v[l] && v'[l][n] == s.v[l][n];
        FreshOutputs(s, outs, n);
      }
    }
    forall l, n | 0 <= l < |s.v| && n in s.v[l]
      ensures n !in Numbers(outs)
    {
      FreshOutputs(s, outs, n);
    }
  }

  lemma FreshOutputs(s: State, outs: seq<FileMeta>, n: int)
    requires s.free !! s.tables.Keys && n in s.tables
    requires forall i :: 0 <= i < |outs| ==> outs[i].number in s.free
    ensures n !in Numbers(outs)
  {
  }

  lemma MergeOneTable(merge: Merger, s: State, c: Compaction, outs: seq<FileMeta>, cs: seq<seq<KV>>, order: seq<KV>)
    requires Inv(s) && JobOk(c, s.v) && Built(merge, s, c, outs, cs, order)
    ensures OneTable(MergedVersion(s.v, c, outs)[1], Stored(s.tables, outs, cs))
  {
    hide Numbers, AsLevel, Stored, JobOk, Lookup, FilesOk, Values, AllPairs, Compacts;
    var m, t' := MergedVersion(s.v, c, outs)[1], Stored(s.tables, outs, cs);
    forall x, y, k: UInt32 | x in m && y in m && x != y && ValueIn(t', x, k).Some?
      ensures ValueIn(t', y, k) == None
    {
      MergedApart(merge, s, c, outs, cs, order, x, y, k);
    }
  }

  lemma MergedApart(merge: Merger, s: State, c: Compaction, outs: seq<FileMeta>, cs: seq<seq<KV>>, order: seq<KV>,
                    x: int, y: int, k: UInt32)
    requires Inv(s) && JobOk(c, s.v) && Built(merge, s, c, outs, cs, order)
    requires var m := MergedVersion(s.v, c, outs)[1]; x in m && y in m && x != y
    requires ValueIn(Stored(s.tables, outs, cs), x, k).Some?
    ensures ValueIn(Stored(s.tables, outs, cs), y, k) == None
  {
    hide Numbers, AsLevel, Stored, JobOk, Lookup, Overlapping, FilesOk, Values, AllPairs, Ascending, Lists;
    AsLevelAt(outs);
    StoredAt(s.tables, outs, cs);
    MergeFiles(merge, s, c, outs, cs, order);
    if x in Numbers(outs) && y in Numbers(outs) {
      var i := IndexOf(outs, x);
      var j := IndexOf(outs, y);
      PartsDisjoint(cs, i, j, k);
    } else if x in Numbers(outs) {
      var i := IndexOf(outs, x);
      OutputApart(merge, s, c, outs, cs, order, i, y, k);
      Untouched(s, outs, cs, y);
    } else if y in Numbers(outs) {
      var j := IndexOf(outs, y);
      Untouched(s, outs, cs, x);
      if Lookup(cs[j], k).Some? {
        OutputApart(merge, s, c, outs, cs, order, j, x, k);
      }
    } else {
      Untouched(s, outs, cs, x);
      Untouched(s, outs, cs, y);
      assert ValueIn(s.tables, x, k).Some?;
    }
  }

  lemma Untouched(s: State, outs: seq<FileMeta>, cs: seq<seq<KV>>, n: int)
    requires Inv(s) && n in s.v[1] && |outs| == |cs| && DistinctNumbers(outs)
    requires n !in Numbers(outs)
    ensures n in s.tables && n in Stored(s.tables, outs, cs) && Stored(s.tables, outs, cs)[n] == s.tables[n]
  {
    StoredAt(s.tables, outs, cs);
  }

  lemma MergeKeeps(merge: Merger, s: State, outs: seq<FileMeta>, cs: seq<seq<KV>>, order: seq<KV>)
    requires Inv(s) && Enabled(merge, s, Merge(outs, cs, order))
    ensures Inv(Step(merge, s, Merge(outs, cs, order)))
    ensures Step(merge, s, Merge(outs, cs, order)).v == MergedVersion(s.v, s.job.c, outs)
  {
    hide ApplyAll, Numbers, AsLevel, Stored, FilesOk, OneTable, CompactionLogs, JobOk, Compacts, Values, AllPairs;
    var c := s.job.c;
    MergeVersion(s, c, outs);
    MergeFiles(merge, s, c, outs, cs, order);
    MergeOneTable(merge, s, c, outs, cs, order);
    AsLevelAt(outs);
    StoredAt(s.tables, outs, cs);
    forall n | n in Numbers(outs)
      ensures n in s.free
    {
      var i := IndexOf(outs, n);
    }
    assert s.v[0].Keys - Numbers(c.low) !! s.v[1].Keys - Numbers(c.up) + Numbers(outs);
  }

  /** Every operation keeps the invariant. */
  lemma StepKeeps(merge: Merger, s: State, op: Op)
    requires Inv(s)
    ensures Inv(Step(merge, s, op))
  {
    hide FilesOk, OneTable, JobOk, ApplyAll;
    if Enabled(merge, s, op) {
      match op
      case Alloc =>
      case Flush(n, es, size) => FlushKeeps(merge, s, n, es, size);
      case Begin(c) => BeginKeeps(merge, s, c);
      case Move => MoveKeeps(merge, s);
      case Merge(outs, cs, order) => MergeKeeps(merge, s, outs, cs, order);
      case Abort =>
    }
  }

  /** In every reachable state of a family with two levels or more, no key is in two level-1 tables. */
  lemma {:induction false} RunKeeps(merge: Merger, levels: nat, ops: seq<Op>)
    requires levels >= 2
    ensures Inv(Run(merge, Init(levels), ops))
    decreases |ops|
  {
    hide Inv, Step;
    if |ops| == 0 {
      InitInv(levels);
    } else {
      RunKeeps(merge, levels, ops[..|ops| - 1]);
      StepKeeps(merge, Run(merge, Init(levels), ops[..|ops| - 1]), ops[|ops| - 1]);
    }
  }

  // ----- the meaning of a key -----

  /**
   A merger keeps a reading `q` of bags of values when replacing values by their
   merge, or by nothing if that is empty, never changes the reading, whatever other
   values there are.
   */
  ghost predicate MergerKeeps<T(!new)>(merge: Merger, q: (UInt32, multiset<Bytes>) -> T) {
    forall k: UInt32, vs: seq<Bytes>, rest: multiset<Bytes> :: |vs| > 0 && merge(k, vs).Some? ==>
      q(k, multiset(vs) + rest) == q(k, Bag(Outcome(merge, k, vs)) + rest)
  }

  /**
   The mergers the store is made for: merging does not depend on the order of the values,
   merging a merge with more values is merging all of them, and an empty merge is as good
   as no value.  Such a merger keeps its own reading.
   */
  lemma AssociativeMergerKeeps(merge: Merger, all: (UInt32, multiset<Bytes>) -> Bytes)
    requires forall k: UInt32, vs: seq<Bytes> :: |vs| > 0 ==> merge(k, vs) == Some(all(k, multiset(vs)))
    requires forall k: UInt32, a: multiset<Bytes>, b: multiset<Bytes> :: |a| > 0 ==>
               all(k, multiset{all(k, a)} + b) == all(k, a + b)
    requires forall k: UInt32, a: multiset<Bytes> :: all(k, a) == all(k, multiset{[]} + a)
    ensures MergerKeeps(merge, all)
  {
    forall k: UInt32, vs: seq<Bytes>, rest: multiset<Bytes> | |vs| > 0
      ensures all(k, multiset(vs) + rest) == all(k, Bag(Outcome(merge, k, vs)) + rest)
    {
      assert merge(k, vs) == Some(all(k, multiset(vs)));
      assert all(k, multiset{all(k, multiset(vs))} + rest) == all(k, multiset(vs) + rest);
      MergeReads(merge, all, k, vs, rest);
    }
  }

  lemma MergeReads(merge: Merger, all: (UInt32, multiset<Bytes>) -> Bytes, k: UInt32, vs: seq<Bytes>, rest: multiset<Bytes>)
    requires |vs| > 0 && merge(k, vs) == Some(all(k, multiset(vs)))
    requires all(k, multiset{all(k, multiset(vs))} + rest) == all(k, multiset(vs) + rest)
    requires all(k, rest) == all(k, multiset{[]} + rest)
    ensures all(k, multiset(vs) + rest) == all(k, Bag(Outcome(merge, k, vs)) + rest)
  {
    var v := all(k, multiset(vs));
    if |v| == 0 {
      assert v == [];
      assert Bag(Outcome(merge, k, vs)) + rest == rest;
    }
  }

  /** Interchangeable bags: whatever is added to them, they read the same. */
  ghost predicate Same<T(!new)>(q: (UInt32, multiset<Bytes>) -> T, k: UInt32, a: multiset<Bytes>, b: multiset<Bytes>) {
    forall c: multiset<Bytes> :: q(k, a + c) == q(k, b + c)
  }

  lemma SameAdd<T(!new)>(q: (UInt32, multiset<Bytes>) -> T, k: UInt32, a: multiset<Bytes>, b: multiset<Bytes>, x: multiset<Bytes>)
    requires Same(q, k, a, b)
    ensures Same(q, k, a + x, b + x)
  {
    forall c: multiset<Bytes>
      ensures q(k, a + x + c) == q(k, b + x + c)
    {
      assert a + x + c == a + (x + c) && b + x + c == b + (x + c);
    }
  }

  lemma TotalSplit(v: Version, t: Tables, k: UInt32)
    requires |v| >= 2
    ensures Total(v, t, k) == Held(v[0].Keys, t, k) + (Held(v[1].Keys, t, k) + Total(v[2..], t, k))
  {
    hide Held;
    assert v[1..][1..] == v[2..];
    assert Total(v[1..], t, k) == Held(v[1].Keys, t, k) + Total(v[2..], t, k);
  }

  /** A flush adds its value of the key, nothing else. */
  lemma FlushTotal(merge: Merger, s: State, n: int, es: seq<KV>, size: int, k: UInt32)
    requires Inv(s) && Enabled(merge, s, Flush(n, es, size))
    ensures var s' := Step(merge, s, Flush(n, es, size));
            Total(s'.v, s'.tables, k) == Total(s.v, s.tables, k) + Bag(Lookup(es, k))
  {
    hide Held, Total, Step, Lookup, Bag, JobOk, OneTable;
    var s' := Step(merge, s, Flush(n, es, size));
    FlushKeeps(merge, s, n, es, size);
    assert s'.tables == s.tables[n := es] by { FlushTables(merge, s, n, es, size); }
    TotalSplit(s.v, s.tables, k);
    TotalSplit(s'.v, s'.tables, k);
    assert s'.v[2..] == s.v[2..];
    forall l, x | 0 <= l < |s.v| && x in s.v[l]
      ensures ValueIn(s.tables, x, k) == ValueIn(s'.tables, x, k)
    {
    }
    HeldSame(s.v[0].Keys, s.tables, s'.tables, k);
    HeldSame(s.v[1].Keys, s.tables, s'.tables, k);
    TailSame(s.v, s.tables, s'.tables, k);
    HeldRemove(s'.v[0].Keys, s'.tables, k, n);
    assert s'.v[0].Keys - {n} == s.v[0].Keys;
  }

  lemma FlushTables(merge: Merger, s: State, n: int, es: seq<KV>, size: int)
    requires Enabled(merge, s, Flush(n, es, size))
    ensures Step(merge, s, Flush(n, es, size)).tables == s.tables[n := es]
  {
  }

  lemma TailSame(v: Version, t: Tables, t': Tables, k: UInt32)
    requires |v| >= 2 && forall l, n :: 0 <= l < |v| && n in v[l] ==> ValueIn(t, n, k) == ValueIn(t', n, k)
    ensures Total(v[2..], t, k) == Total(v[2..], t', k)
  {
    hide ValueIn, Total;
    forall l, n | 0 <= l < |v[2..]| && n in v[2..][l]
      ensures ValueIn(t, n, k) == ValueIn(t', n, k)
    {
      assert n in v[l + 2];
    }
    TotalSame(v[2..], t, t', k);
  }

  /** A trivial move changes no key's values. */
  lemma MoveTotal(merge: Merger, s: State, k: UInt32)
    requires Inv(s) && Enabled(merge, s, Move)
    ensures var s' := Step(merge, s, Move);
            Total(s'.v, s'.tables, k) == Total(s.v, s.tables, k)
  {
    hide Held, Total, Bag, ValueIn, JobOk, OneTable, ApplyAll;
    var s' := Step(merge, s, Move);
    var n := s.job.c.low[0].number;
    MoveKeeps(merge, s);
    TotalSplit(s.v, s.tables, k);
    TotalSplit(s'.v, s'.tables, k);
    assert s'.v[2..] == s.v[2..];
    HeldRemove(s.v[0].Keys, s.tables, k, n);
    HeldRemove(s'.v[1].Keys, s.tables, k, n);
    assert s'.v[0].Keys == s.v[0].Keys - {n};
    assert s'.v[1].Keys - {n} == s.v[1].Keys;
  }

  /** Splitting off some of a level's files. */
  lemma HeldSplit(m: map<int, FileMeta>, fs: seq<FileMeta>, t: Tables, k: UInt32)
    requires DistinctNumbers(fs) && Numbers(fs) <= m.Keys
    ensures Held(m.Keys, t, k) == Held(m.Keys - Numbers(fs), t, k) + Read(fs, t, k)
  {
    hide Held, Read, Numbers;
    HeldUnion(m.Keys - Numbers(fs), Numbers(fs), t, k);
    assert m.Keys - Numbers(fs) + Numbers(fs) == m.Keys;
    ReadNumbers(fs, t, k);
  }

  lemma InputNumbers(c: Compaction, v: Version)
    requires |v| >= 2 && JobOk(c, v)
    ensures Numbers(c.low) <= v[0].Keys && Numbers(c.up) <= v[1].Keys
    ensures DistinctNumbers(c.low) && DistinctNumbers(c.up)
  {
    forall n | n in Numbers(c.low)
      ensures n in v[0]
    {
      var i := IndexOf(c.low, n);
      assert c.low[i] in c.low;
    }
  }

  /** What the outputs hold of a key, and that they are new to level 1. */
  lemma MergedHeld(merge: Merger, s: State, c: Compaction, outs: seq<FileMeta>, cs: seq<seq<KV>>, order: seq<KV>, k: UInt32)
    requires Inv(s) && JobOk(c, s.v) && Built(merge, s, c, outs, cs, order)
    ensures Held(MergedVersion(s.v, c, outs)[1].Keys, Stored(s.tables, outs, cs), k)
         == Held(s.v[1].Keys - Numbers(c.up), Stored(s.tables, outs, cs), k) + Bag(Outcome(merge, k, Values(order, k)))
  {
    hide Held, Read, Numbers, AsLevel, Stored, Lookup, Outcome, Values, AllPairs, FilesOk, JobOk, OneTable, Ascending;
    var t' := Stored(s.tables, outs, cs);
    AsLevelAt(outs);
    StoredAt(s.tables, outs, cs);
    MergeFiles(merge, s, c, outs, cs, order);
    assert s.v[1].Keys - Numbers(c.up) !! Numbers(outs);
    assert MergedVersion(s.v, c, outs)[1].Keys == s.v[1].Keys - Numbers(c.up) + Numbers(outs);
    HeldUnion(s.v[1].Keys - Numbers(c.up), Numbers(outs), t', k);
    ReadNumbers(outs, t', k);
    OutputsRead(outs, cs, t', k);
  }

  /** The files that stay hold what they held. */
  lemma StoredSame(merge: Merger, s: State, c: Compaction, outs: seq<FileMeta>, cs: seq<seq<KV>>, order: seq<KV>, k: UInt32)
    requires Inv(s) && Built(merge, s, c, outs, cs, order)
    ensures forall l, n :: 0 <= l < |s.v| && n in s.v[l] ==>
              ValueIn(s.tables, n, k) == ValueIn(Stored(s.tables, outs, cs), n, k)
  {
    hide Numbers, Stored, Lookup, Values, AllPairs, Compacts, OneTable, AsLevel;
    StoredAt(s.tables, outs, cs);
    MergeFiles(merge, s, c, outs, cs, order);
  }

  /** A merge replaces all values of a key in its inputs by their outcome; the rest stays. */
  lemma MergeTotal(merge: Merger, s: State, outs: seq<FileMeta>, cs: seq<seq<KV>>, order: seq<KV>, k: UInt32)
    returns (rest: multiset<Bytes>)
    requires Inv(s) && Enabled(merge, s, Merge(outs, cs, order))
    ensures var s' := Step(merge, s, Merge(outs, cs, order));
            && Total(s.v, s.tables, k) == multiset(Values(order, k)) + rest
            && Total(s'.v, s'.tables, k) == Bag(Outcome(merge, k, Values(order, k))) + rest
  {
    hide Held, Read, Total, Numbers, AsLevel, Stored, Outcome, Values, AllPairs, FilesOk, JobOk, OneTable, Bag, ValueIn;
    hide ApplyAll, CompactionLogs, Compacts;
    var c, t, t' := s.job.c, s.tables, Stored(s.tables, outs, cs);
    var s' := Step(merge, s, Merge(outs, cs, order));
    var low, up := s.v[0].Keys - Numbers(c.low), s.v[1].Keys - Numbers(c.up);
    MergeKeeps(merge, s, outs, cs, order);
    StoredSame(merge, s, c, outs, cs, order, k);
    InputNumbers(c, s.v);
    TotalSplit(s.v, t, k);
    TotalSplit(s'.v, t', k);
    assert s'.v[2..] == s.v[2..] && s'.v[0].Keys == low;
    TailSame(s.v, t, t', k);
    HeldSplit(s.v[0], c.low, t, k);
    HeldSplit(s.v[1], c.up, t, k);
    HeldSame(low, t, t', k);
    HeldSame(up, t, t', k);
    MergedHeld(merge, s, c, outs, cs, order, k);
    OrderReads(merge, s, c, outs, cs, order, k);
    ReadConcat(c.low, c.up, t, k);
    rest := Held(low, t, k) + (Held(up, t, k) + Total(s.v[2..], t, k));
  }

  /** No operation changes what any key reads, beyond the values a flush adds. */
  lemma StepMeaning<T(!new)>(merge: Merger, q: (UInt32, multiset<Bytes>) -> T, s: State, op: Op, k: UInt32)
    requires Inv(s) && MergerKeeps(merge, q) && Same(q, k, Total(s.v, s.tables, k), InputValues(s.history, k))
    ensures var s' := Step(merge, s, op);
            Same(q, k, Total(s'.v, s'.tables, k), InputValues(s'.history, k))
  {
    hide Inv, Total, InputValues, MergerKeeps, Same, ApplyAll, Stored;
    if Enabled(merge, s, op) {
      match op
      case Alloc =>
      case Flush(n, es, size) =>
        FlushTotal(merge, s, n, es, size, k);
        ValuesOfTable(es, k);
        HistorySnoc(s.history, es, k);
        SameAdd(q, k, Total(s.v, s.tables, k), InputValues(s.history, k), Bag(Lookup(es, k)));
      case Begin(c) =>
      case Move => MoveTotal(merge, s, k);
      case Merge(outs, cs, order) =>
        var rest := MergeTotal(merge, s, outs, cs, order, k);
        MergeSame(merge, q, k, Values(order, k), rest, InputValues(s.history, k));
      case Abort =>
    }
  }

  lemma HistorySnoc(history: seq<seq<KV>>, es: seq<KV>, k: UInt32)
    ensures InputValues(history + [es], k) == InputValues(history, k) + multiset(Values(es, k))
  {
    assert (history + [es])[..|history|] == history;
  }

  lemma MergeSame<T(!new)>(merge: Merger, q: (UInt32, multiset<Bytes>) -> T, k: UInt32, vs: seq<Bytes>,
                           rest: multiset<Bytes>, b: multiset<Bytes>)
    requires MergerKeeps(merge, q) && (|vs| > 0 ==> merge(k, vs).Some?)
    requires Same(q, k, multiset(vs) + rest, b)
    ensures Same(q, k, Bag(Outcome(merge, k, vs)) + rest, b)
  {
    var out := Bag(Outcome(merge, k, vs));
    if |vs| == 0 {
      assert out == multiset(vs);
    } else {
      forall c: multiset<Bytes>
        ensures q(k, out + rest + c) == q(k, multiset(vs) + rest + c)
      {
        assert out + rest + c == out + (rest + c) && multiset(vs) + rest + c == multiset(vs) + (rest + c);
      }
    }
  }

  lemma {:induction false} RunSame<T(!new)>(merge: Merger, q: (UInt32, multiset<Bytes>) -> T, levels: nat, ops: seq<Op>, k: UInt32)
    requires levels >= 2 && MergerKeeps(merge, q)
    ensures var s := Run(merge, Init(levels), ops);
            Same(q, k, Total(s.v, s.tables, k), InputValues(s.history, k))
    decreases |ops|
  {
    hide Inv, Step, MergerKeeps;
    if |ops| == 0 {
      NothingStored(levels, k);
    } else {
      hide Total, InputValues, Same;
      RunSame(merge, q, levels, ops[..|ops| - 1], k);
      RunKeeps(merge, levels, ops[..|ops| - 1]);
      StepMeaning(merge, q, Run(merge, Init(levels), ops[..|ops| - 1]), ops[|ops| - 1], k);
    }
  }

  lemma {:induction false} NothingStored(levels: nat, k: UInt32)
    ensures Total(Empty(levels), map[], k) == multiset{}
    decreases levels
  {
    if levels > 0 {
      NothingStored(levels - 1, k);
      assert Empty(levels)[1..] == Empty(levels - 1);
    }
  }

  /**
   After every run of a family with two levels or more, reading the files found for
   a key gives what reading all values ever flushed for it would give, for every
   reading the merger keeps.
   */
  lemma RunMeaning<T(!new)>(merge: Merger, q: (UInt32, multiset<Bytes>) -> T, levels: nat, ops: seq<Op>, k: UInt32)
    requires levels >= 2 && MergerKeeps(merge, q)
    ensures var s := Run(merge, Init(levels), ops);
            q(k, Total(s.v, s.tables, k)) == q(k, InputValues(s.history, k))
  {
    hide Run, Total, InputValues, MergerKeeps;
    var s := Run(merge, Init(levels), ops);
    RunSame(merge, q, levels, ops, k);
    var none: multiset<Bytes> := multiset{};
    assert Total(s.v, s.tables, k) + none == Total(s.v, s.tables, k);
    assert InputValues(s.history, k) + none == InputValues(s.history, k);
  }

  // ----- one level -----

  /** With a single level a compaction's outputs are dropped: its inputs' values are gone. */
  lemma OneLevelLoses(merge: Merger, s: State, op: Op, k: UInt32)
    requires |s.v| == 1 && s.job.Busy? && (op.Move? || op.Merge?) && Enabled(merge, s, op)
    requires DistinctNumbers(s.job.c.low) && Numbers(s.job.c.low) <= s.v[0].Keys
    ensures Step(merge, s, op).v == [s.v[0] - Numbers(s.job.c.low)]
    ensures Total(s.v, s.tables, k) == Total(Step(merge, s, op).v, s.tables, k) + Read(s.job.c.low, s.tables, k)
  {
    hide Held, Read, Numbers, ApplyAll;
    var c, z := s.job.c, NextFileNumber(s.next);
    if op.Move? {
      OneLevelMove(s.v, c.low, z);
    } else {
      ApplyConcat(s.v, CompactionLogs(c.low, c.up, op.outs), [z]);
      OneLevelCompaction(s.v, c.low, c.up, op.outs);
      ApplySingle([s.v[0] - Numbers(c.low)], z);
    }
    HeldSplit(s.v[0], c.low, s.tables, k);
    OneLevelTotal(s.v[0], s.tables, k);
    OneLevelTotal(s.v[0] - Numbers(c.low), s.tables, k);
  }

  lemma OneLevelMove(v: Version, low: seq<FileMeta>, z: Log)
    requires |v| == 1 && |low| == 1 && z.NextFileNumber?
    ensures ApplyAll(v, [Log.DeleteFile(0, low[0].number), NewFile(1, low[0])] + [z]) == [v[0] - Numbers(low)]
  {
    hide ApplyAll;
    var a, b := Log.DeleteFile(0, low[0].number), NewFile(1, low[0]);
    assert [a, b] + [z] == [a] + [b, z];
    ApplyConcat(v, [a], [b, z]);
    ApplySingle(v, a);
    IgnoredLogs(Apply(v, a), [b, z]);
    assert Numbers(low) == {low[0].number};
  }

  lemma OneLevelTotal(m: map<int, FileMeta>, t: Tables, k: UInt32)
    ensures Total([m], t, k) == Held(m.Keys, t, k)
  {
    hide Held;
    assert [m][1..] == [];
    assert Total([], t, k) == multiset{};
  }

  lemma RunSnoc(merge: Merger, s: State, ops: seq<Op>, op: Op)
    ensures Run(merge, s, ops + [op]) == Step(merge, Run(merge, s, ops), op)
  {
    hide Step;
    assert (ops + [op])[..|ops|] == ops;
  }

  /** A flush of one pair, then a compaction of it. */
  function LosingRun(k: UInt32, v: Bytes): (ops: seq<Op>)
  {
    [Alloc, Flush(2, [KV(k, v)], 0), Begin(Compaction([MetaOf(2, [KV(k, v)], 0)], [])), Move]
  }

  lemma FlushedOne(merge: Merger, k: UInt32, v: Bytes)
    ensures Run(merge, Init(1), [Alloc, Flush(2, [KV(k, v)], 0)])
         == State([map[2 := MetaOf(2, [KV(k, v)], 0)]], map[2 := [KV(k, v)]], 4, {}, Idle, [[KV(k, v)]])
  {
    hide ApplyAll;
    var es, s1 := [KV(k, v)], State([map[]], map[], 3, {2}, Idle, []);
    assert Empty(1) == [map[]];
    assert [] + [Alloc] == [Alloc] && [Alloc] + [Flush(2, es, 0)] == [Alloc, Flush(2, es, 0)];
    RunSnoc(merge, Init(1), [], Alloc);
    assert Run(merge, Init(1), [Alloc]) == s1;
    RunSnoc(merge, Init(1), [Alloc], Flush(2, es, 0));
    CommitOne(s1, NewFile(0, MetaOf(2, es, 0)));
    assert {2} - {2} == {};
  }

  lemma ListsOne(f: FileMeta)
    ensures Lists([f], map[f.number := f]) && Lists([], map[])
  {
    NoFiles();
    ListsSnoc([], map[], f);
    assert [] + [f] == [f] && map[][f.number := f] == map[f.number := f];
  }

  /** With one level, this run leaves nothing of the flushed value. */
  lemma LosesOne(merge: Merger, k: UInt32, v: Bytes)
    ensures var s := Run(merge, Init(1), LosingRun(k, v));
            && Total(s.v, s.tables, k) == multiset{}
            && InputValues(s.history, k) == multiset{v}
  {
    hide Run, Lists;
    var es := [KV(k, v)];
    var f, flush := MetaOf(2, es, 0), [Alloc, Flush(2, es, 0)];
    var c := Compaction([f], []);
    var s2 := Run(merge, Init(1), flush);
    FlushedOne(merge, k, v);
    ListsOne(f);
    assert Overlapping(LevelOf(s2.v, 1), s2.v[0].Values) == map[];
    RunSnoc(merge, Init(1), flush, Begin(c));
    RunSnoc(merge, Init(1), flush + [Begin(c)], Move);
    assert flush + [Begin(c)] + [Move] == LosingRun(k, v);
    var s3 := Run(merge, Init(1), flush + [Begin(c)]);
    assert s3 == s2.(job := Busy(c)) && Enabled(merge, s3, Move);
    OneLevelMove(s3.v, c.low, NextFileNumber(s3.next));
    var s4 := Run(merge, Init(1), LosingRun(k, v));
    assert s3.v[0] - Numbers([f]) == map[] by { assert 2 in Numbers([f]) by { assert [f][0].number == 2; } }
    assert s4.v == [map[]] && s4.history == [es];
    OneLevelTotal(map[], s4.tables, k);
    HistorySnoc([], es, k);
    assert [] + [es] == [es];
    ValuesSnoc([], KV(k, v), k);
    assert [] + [KV(k, v)] == es;
  }

  /**
   For every reading the merger keeps and that tells one value of a key from none: all runs
   read the key as all values ever flushed for it if and only if there are two levels or more.
   */
  lemma LevelsIff<T(!new)>(merge: Merger, q: (UInt32, multiset<Bytes>) -> T, levels: nat, k: UInt32, v: Bytes)
    requires levels >= 1 && MergerKeeps(merge, q) && q(k, multiset{}) != q(k, multiset{v})
    ensures levels >= 2 <==>
            forall ops :: ReadsAsFlushed(merge, q, levels, ops, k)
  {
    hide MergerKeeps;
    if levels >= 2 {
      forall ops
        ensures ReadsAsFlushed(merge, q, levels, ops, k)
      {
        RunMeaning(merge, q, levels, ops, k);
      }
    } else {
      hide Run, Total, InputValues;
      LosesOne(merge, k, v);
      assert !ReadsAsFlushed(merge, q, 1, LosingRun(k, v), k);
    }
  }

  ghost predicate ReadsAsFlushed<T>(merge: Merger, q: (UInt32, multiset<Bytes>) -> T, levels: nat, ops: seq<Op>, k: UInt32) {
    var s := Run(merge, Init(levels), ops);
    q(k, Total(s.v, s.tables, k)) == q(k, InputValues(s.history, k))
  }
}
