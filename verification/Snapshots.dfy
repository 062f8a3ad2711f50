/**
 Reading through a snapshot (`kv/version/snapshot.go`, `kv/family.go`): the runs of a
 family together with what becomes of its table files.  A snapshot keeps the version
 that was current when it was opened and reads the files of that version.  Main
 result: whatever is flushed, merged and cleaned up meanwhile, it goes on reading what
 was flushed before it was opened.
 */
module Snapshots {
  import opened Options
  import opened Words
  import opened Table
  import opened CompactJob
  import opened Framing
  import opened Versions
  import opened Lsm
  import Family
  import Retention

  /** `seen` gives the version that each snapshot was opened on. */
  datatype State = State(fam: Family.State, ret: Retention.State, seen: map<int, Version>)

  datatype Op = OfFamily(fop: Family.Op) | OfFiles(rop: Retention.Op)

  function Init(levels: nat): (s: State)
  {
    State(Family.Init(levels), Retention.Init(), map[])
  }

  /** What a committing operation does to the current version's set of files. */
  ghost function Edit(s: Family.State, op: Family.Op): (r: Retention.Op)
    requires op.Flush? || (op.Move? && s.job.Busy? && s.job.c.TrivialMove()) || (op.Merge? && s.job.Busy?)
  {
    match op
    case Flush(n, _, _) => Retention.Commit({}, {n})
    case Move => Retention.Commit({s.job.c.low[0].number}, {s.job.c.low[0].number})
    case Merge(outs, _, _) => Retention.Commit(Numbers(s.job.c.low) + Numbers(s.job.c.up), Numbers(outs))
  }

  predicate Commits(op: Family.Op) {
    op.Flush? || op.Move? || op.Merge?
  }

  /** Only a file that is still registered as a pending output can be committed. */
  ghost predicate Enabled(merge: Merger, s: State, op: Op) {
    match op
    case OfFamily(f) =>
      Family.Enabled(merge, s.fam, f) && (Commits(f) ==> Retention.Enabled(s.ret, Edit(s.fam, f)))
    case OfFiles(r) => !r.Create? && !r.Commit?
  }

  ghost function Step(merge: Merger, s: State, op: Op): (s': State)
  {
    if !Enabled(merge, s, op) then s
    else
      match op
      case OfFamily(f) =>
        var fam := Family.Step(merge, s.fam, f);
        if f.Alloc? then s.(fam := fam, ret := Retention.Step(s.ret.(nextFile := s.fam.next), Retention.Create))
        else if Commits(f) then s.(fam := fam, ret := Retention.Step(s.ret, Edit(s.fam, f)))
        else s.(fam := fam)
      case OfFiles(r) =>
        State(s.fam, Retention.Step(s.ret, r), if r.OpenSnapshot? then s.seen[s.ret.nextSnapshot := s.fam.v] else s.seen)
  }

  ghost function Run(merge: Merger, s: State, ops: seq<Op>): (s': State)
  {
    if |ops| == 0 then s else Step(merge, Run(merge, s, ops[..|ops| - 1]), ops[|ops| - 1])
  }

  /** No clean-up pass collects while a file it listed is between creation and registration. */
  ghost predicate QuietRun(merge: Merger, s: State, ops: seq<Op>) {
    forall i :: 0 <= i < |ops| ==> Quiet(Run(merge, s, ops[..i]), ops[i])
  }

  ghost predicate Quiet(s: State, op: Op) {
    op.OfFiles? ==> Retention.Quiet(s.ret, op.rop)
  }

  // ----- reading -----

  ghost function OnDisk(t: Tables, disk: set<int>): (t': Tables)
  {
    map n | n in t && n in disk :: t[n]
  }

  /** All values of `k` in the files of the snapshot's version that can still be opened. */
  ghost function ReadKey(s: State, h: int, k: UInt32): (m: multiset<Bytes>)
    requires h in s.seen
  {
    Total(s.seen[h], OnDisk(s.fam.tables, s.ret.disk), k)
  }

  // ----- invariant -----

  function Files(v: Version): (ns: set<int>)
  {
    set l, n | 0 <= l < |v| && n in v[l] :: n
  }

  /** Levels from the third on are never used. */
  ghost predicate Shallow(v: Version) {
    |v| >= 2 && forall l, n :: 2 <= l < |v| ==> n !in v[l]
  }

  lemma FilesTwo(v: Version)
    requires Shallow(v)
    ensures Files(v) == v[0].Keys + v[1].Keys
  {
    forall n | n in Files(v)
      ensures n in v[0].Keys + v[1].Keys
    {
      var l :| 0 <= l < |v| && n in v[l];
    }
    forall n | n in v[0].Keys + v[1].Keys
      ensures n in Files(v)
    {
      assert n in v[0] || n in v[1];
    }
  }

  ghost predicate SeenOk(s: State) {
    forall h :: h in s.ret.snapshots ==> h in s.seen && Files(s.seen[h]) == Retention.Seen(s.ret, h)
  }

  ghost predicate Inv(s: State) {
    && Family.Inv(s.fam) && Retention.Inv(s.ret) && s.ret.nextFile <= s.fam.next
    && Shallow(s.fam.v) && s.ret.active[s.ret.current] == Files(s.fam.v)
    && Retention.ActiveFiles(s.ret) <= s.fam.tables.Keys
    && SeenOk(s)
  }

  lemma InitInv(levels: nat)
    requires levels >= 2
    ensures Inv(Init(levels))
  {
    Family.InitInv(levels);
    Retention.InitInv();
    assert Retention.ActiveFiles(Retention.Init()) == {};
    FilesTwo(Empty(levels));
  }

  /** A file's contents, once committed, never change, and a committed file keeps its number. */
  lemma TablesGrow(merge: Merger, s: Family.State, op: Family.Op, n: int)
    requires Family.Inv(s) && n in s.tables
    ensures var t' := Family.Step(merge, s, op).tables;
            n in t' && t'[n] == s.tables[n]
  {
    hide Family.Stored, Family.Commit, FilesOk, Family.OneTable, Family.JobOk;
    if Family.Enabled(merge, s, op) && op.Merge? {
      FreshNumbers(merge, s, op.outs, op.cs, op.order, n);
      Family.StoredOther(s.tables, op.outs, op.cs, n);
      CommitTables(s, CompactionLogs(s.job.c.low, s.job.c.up, op.outs));
    } else if Family.Enabled(merge, s, op) && op.Flush? {
      CommitTables(s, [NewFile(0, Family.MetaOf(op.n, op.es, op.size))]);
    } else if Family.Enabled(merge, s, op) && op.Move? {
      var f := s.job.c.low[0];
      CommitTables(s, [Log.DeleteFile(0, f.number), NewFile(1, f)]);
    }
  }

  lemma CommitTables(s: Family.State, logs: seq<Log>)
    ensures Family.Commit(s, logs).tables == s.tables && Family.Commit(s, logs).next == s.next + 1
  {
  }

  lemma FreshNumbers(merge: Merger, s: Family.State, outs: seq<FileMeta>, cs: seq<seq<KV>>, order: seq<KV>, n: int)
    requires Family.Inv(s) && s.job.Busy? && Family.Built(merge, s, s.job.c, outs, cs, order) && n in s.tables
    ensures forall i :: 0 <= i < |outs| ==> outs[i].number != n
  {
  }

  // ----- commits -----

  ghost predicate EditOk(v: Version, v': Version, r: Retention.Op) {
    r.Commit? && Shallow(v') && Files(v') == Files(v) - r.del + r.add
  }

  lemma FlushEdit(merge: Merger, s: Family.State, op: Family.Op)
    requires Family.Inv(s) && Shallow(s.v) && op.Flush? && Family.Enabled(merge, s, op)
    ensures EditOk(s.v, Family.Step(merge, s, op).v, Edit(s, op))
  {
    hide Family.Step, Files, FilesOk, Family.OneTable, Family.JobOk;
    Family.FlushKeeps(merge, s, op.n, op.es, op.size);
    FilesTwo(s.v);
    FilesTwo(Family.Step(merge, s, op).v);
  }

  lemma MoveEdit(merge: Merger, s: Family.State)
    requires Family.Inv(s) && Shallow(s.v) && Family.Enabled(merge, s, Family.Move)
    ensures EditOk(s.v, Family.Step(merge, s, Family.Move).v, Edit(s, Family.Move))
  {
    hide Family.Step, Files, FilesOk, Family.OneTable, Family.JobOk;
    Family.MoveKeeps(merge, s);
    FilesTwo(s.v);
    FilesTwo(Family.Step(merge, s, Family.Move).v);
  }

  lemma MergeEdit(merge: Merger, s: Family.State, op: Family.Op)
    requires Family.Inv(s) && Shallow(s.v) && op.Merge? && Family.Enabled(merge, s, op)
    ensures EditOk(s.v, Family.Step(merge, s, op).v, Edit(s, op))
  {
    hide Family.Step, Files, FilesOk, Family.OneTable, Family.JobOk, Family.Built, Numbers, AsLevel;
    var c := s.job.c;
    Family.MergeKeeps(merge, s, op.outs, op.cs, op.order);
    Family.InputNumbers(c, s.v);
    AsLevelKeys(op.outs);
    FilesTwo(s.v);
    FilesTwo(Family.Step(merge, s, op).v);
  }

  /** The set of files that the retention side records is the set of files of the family's version. */
  lemma CommitEdit(merge: Merger, s: Family.State, op: Family.Op)
    requires Family.Inv(s) && Shallow(s.v) && Commits(op) && Family.Enabled(merge, s, op)
    ensures EditOk(s.v, Family.Step(merge, s, op).v, Edit(s, op))
    ensures Family.Step(merge, s, op).next == s.next + 1
  {
    hide EditOk, Family.Inv;
    match op
    case Flush(_, _, _) => FlushEdit(merge, s, op);
    case Move => MoveEdit(merge, s);
    case Merge(_, _, _) => MergeEdit(merge, s, op);
  }

  lemma FilesStored(s: Family.State)
    requires Family.Inv(s)
    ensures Files(s.v) <= s.tables.Keys
  {
    hide IsMeta;
  }

  /** Every open snapshot still sees its files. */
  lemma SeenStep(s: State, s': State, r: Retention.Op)
    requires Retention.VersionsOk(s.ret) && SeenOk(s) && s'.ret == Retention.Step(s.ret, r)
    requires s'.seen == s.seen && !r.OpenSnapshot?
    ensures SeenOk(s')
  {
    hide Files, Retention.Seen, Retention.Step, Retention.VersionsOk;
    SameSnapshots(s.ret, r);
    forall h | h in s'.ret.snapshots
      ensures h in s'.seen && Files(s'.seen[h]) == Retention.Seen(s'.ret, h)
    {
      Retention.SnapshotStable(s.ret, r, h);
    }
  }

  lemma SameSnapshots(s: Retention.State, r: Retention.Op)
    requires !r.OpenSnapshot?
    ensures forall h :: h in Retention.Step(s, r).snapshots ==> h in s.snapshots
  {
  }

  lemma CommitKeeps(merge: Merger, s: State, f: Family.Op)
    requires Inv(s) && Enabled(merge, s, OfFamily(f)) && Commits(f)
    ensures Inv(Step(merge, s, OfFamily(f)))
  {
    var r := Edit(s.fam, f);
    hide Family.Step, Family.Inv, Family.Enabled, Retention.CommitEdit, Retention.Seen, Retention.Inv, Files, Edit, Shallow;
    var s' := Step(merge, s, OfFamily(f));
    Family.StepKeeps(merge, s.fam, f);
    CommitEdit(merge, s.fam, f);
    RetentionParts(s.ret);
    Retention.CommitStep(s.ret, r.del, r.add);
    Retention.CommitShape(s.ret, r.del, r.add);
    SeenStep(s, s', r);
    FilesStored(s'.fam);
    hide SeenOk, Retention.VersionsOk, Retention.FilesOk;
    forall n | n in s.fam.tables
      ensures n in s'.fam.tables
    {
      TablesGrow(merge, s.fam, f, n);
    }
    CommitActive(s.ret, r, s.fam.tables.Keys, s'.fam.tables.Keys);
  }

  lemma CommitActive(s: Retention.State, r: Retention.Op, known: set<int>, known': set<int>)
    requires Retention.VersionsOk(s) && r.Commit? && Retention.Enabled(s, r)
    requires known <= known' && Retention.ActiveFiles(s) <= known && s.active[s.current] - r.del + r.add <= known'
    ensures Retention.ActiveFiles(Retention.Step(s, r)) <= known'
  {
    hide Retention.CommitEdit;
    var s' := Retention.Step(s, r);
    Retention.CommitShape(s, r.del, r.add);
    forall n | n in Retention.ActiveFiles(s')
      ensures n in known'
    {
      var id :| id in s'.active && n in s'.active[id];
      if id != s'.current {
        assert n in Retention.ActiveFiles(s);
      }
    }
  }

  lemma RetentionParts(s: Retention.State)
    requires Retention.Inv(s)
    ensures Retention.VersionsOk(s) && Retention.FilesOk(s)
  {
  }

  // ----- the other steps -----

  lemma AllocKeeps(merge: Merger, s: State)
    requires Inv(s)
    ensures Inv(Step(merge, s, OfFamily(Family.Alloc)))
  {
    hide Family.Inv, Files, Shallow, Retention.VersionsOk, Retention.ActiveFiles;
    var s' := Step(merge, s, OfFamily(Family.Alloc));
    var raised := s.ret.(nextFile := s.fam.next);
    Family.StepKeeps(merge, s.fam, Family.Alloc);
    Retention.SameVersions(s.ret, raised);
    Retention.OtherSteps(raised, Retention.Create);
    Retention.SameVersions(s.ret, s'.ret);
    SeenStep(s.(ret := raised), s', Retention.Create);
  }

  lemma FilesKeeps(merge: Merger, s: State, r: Retention.Op)
    requires Inv(s) && !r.Create? && !r.Commit? && Retention.Quiet(s.ret, r)
    ensures Inv(Step(merge, s, OfFiles(r)))
  {
    hide Family.Inv, Files, Shallow, Retention.Inv, Retention.Seen;
    var s' := Step(merge, s, OfFiles(r));
    RetentionParts(s.ret);
    Retention.StepKeeps(s.ret, r);
    FilesOnly(s.ret, r);
    if r.OpenSnapshot? {
      OpenSeen(s, s');
    } else {
      SeenStep(s, s', r);
    }
  }

  /** Reading and cleaning up leave the current version alone and give no file back to an older one. */
  lemma FilesOnly(s: Retention.State, r: Retention.Op)
    requires Retention.VersionsOk(s) && !r.Create? && !r.Commit?
    ensures var s' := Retention.Step(s, r);
            && s'.current == s.current && s.current in s'.active && s'.active[s.current] == s.active[s.current]
            && s'.nextFile == s.nextFile && Retention.ActiveFiles(s') <= Retention.ActiveFiles(s)
  {
    hide Retention.Holders;
    var s' := Retention.Step(s, r);
    assert forall id :: id in s'.active ==> id in s.active && s'.active[id] == s.active[id];
    if r.CloseSnapshot? && Retention.Enabled(s, r) {
      Retention.ReleaseFiles(s, s.snapshots[r.h]);
    }
  }

  lemma OpenSeen(s: State, s': State)
    requires Inv(s) && s'.ret == Retention.Step(s.ret, Retention.OpenSnapshot)
    requires s'.seen == s.seen[s.ret.nextSnapshot := s.fam.v]
    ensures SeenOk(s')
  {
    hide Family.Inv, Files, Shallow, Retention.FilesOk, Retention.SweepOk;
  }

  /** Every operation of a quiet run keeps the invariant. */
  lemma StepKeeps(merge: Merger, s: State, op: Op)
    requires Inv(s) && Quiet(s, op)
    ensures Inv(Step(merge, s, op))
  {
    if Enabled(merge, s, op) {
      match op
      case OfFiles(r) =>
        hide *;
        FilesKeeps(merge, s, r);
      case OfFamily(f) =>
        if Commits(f) {
          hide *;
          CommitKeeps(merge, s, f);
        } else if f.Alloc? {
          hide *;
          AllocKeeps(merge, s);
        } else {
          hide Family.Inv, Files, Shallow, Retention.Inv, Retention.Seen, SeenOk, Retention.ActiveFiles;
          Family.StepKeeps(merge, s.fam, f);
        }
    }
  }

  lemma {:induction false} RunKeeps(merge: Merger, levels: nat, ops: seq<Op>)
    requires levels >= 2 && QuietRun(merge, Init(levels), ops)
    ensures Inv(Run(merge, Init(levels), ops))
    decreases |ops|
  {
    hide Inv, Step, Init, Quiet;
    if |ops| == 0 {
      InitInv(levels);
    } else {
      var n := |ops| - 1;
      QuietPrefix(merge, levels, ops, n);
      RunKeeps(merge, levels, ops[..n]);
      assert Quiet(Run(merge, Init(levels), ops[..n]), ops[n]);
      StepKeeps(merge, Run(merge, Init(levels), ops[..n]), ops[n]);
    }
  }

  lemma QuietPrefix(merge: Merger, levels: nat, ops: seq<Op>, n: nat)
    requires n <= |ops| && QuietRun(merge, Init(levels), ops)
    ensures QuietRun(merge, Init(levels), ops[..n])
  {
    hide Run, Init, Quiet;
    forall i | 0 <= i < n
      ensures Quiet(Run(merge, Init(levels), ops[..n][..i]), ops[..n][i])
    {
      assert ops[..n][..i] == ops[..i];
    }
  }

  // ----- a snapshot's reads -----

  /** The files of an open snapshot are on disk with the contents they were committed with. */
  lemma SeenReadable(s: State, h: int, n: int)
    requires Inv(s) && h in s.ret.snapshots && n in Files(s.seen[h])
    ensures n in s.fam.tables && n in s.ret.disk
  {
    hide Family.Inv, Files, Shallow, Retention.Seen, Retention.VersionsOk, Retention.SweepOk;
    Retention.SeenActive(s.ret, h);
    assert n in Retention.ActiveFiles(s.ret);
  }

  lemma ReadsTables(s: State, h: int, k: UInt32)
    requires Inv(s) && h in s.ret.snapshots
    ensures h in s.seen && ReadKey(s, h, k) == Total(s.seen[h], s.fam.tables, k)
  {
    hide Family.Inv, Shallow, Retention.Inv, Retention.Seen, Total, Lookup;
    var v, t, t' := s.seen[h], s.fam.tables, OnDisk(s.fam.tables, s.ret.disk);
    forall l, n | 0 <= l < |v| && n in v[l]
      ensures ValueIn(t', n, k) == ValueIn(t, n, k)
    {
      assert n in Files(v);
      SeenReadable(s, h, n);
    }
    TotalSame(v, t', t, k);
  }

  lemma SameView(merge: Merger, s: State, op: Op, h: int)
    requires h in s.seen && h in s.ret.snapshots && h < s.ret.nextSnapshot
    ensures h in Step(merge, s, op).seen && Step(merge, s, op).seen[h] == s.seen[h]
  {
    hide Family.Step, Family.Enabled, Retention.Step, Edit;
  }

  /** No step changes what an open snapshot reads. */
  lemma ReadStable(merge: Merger, s: State, op: Op, h: int, k: UInt32)
    requires Inv(s) && Quiet(s, op) && h in s.ret.snapshots && h in Step(merge, s, op).ret.snapshots
    ensures h in s.seen && h in Step(merge, s, op).seen
    ensures ReadKey(Step(merge, s, op), h, k) == ReadKey(s, h, k)
  {
    var s' := Step(merge, s, op);
    SnapshotParts(s, h);
    StepKeeps(merge, s, op);
    SameView(merge, s, op, h);
    hide *;
    ReadsTables(s, h, k);
    ReadsTables(s', h, k);
    SameContents(merge, s, op, h, k);
  }

  lemma SnapshotParts(s: State, h: int)
    requires Inv(s) && h in s.ret.snapshots
    ensures h in s.seen && h < s.ret.nextSnapshot
  {
    hide Family.Inv, Files, Shallow, Retention.Seen;
  }

  lemma SameContents(merge: Merger, s: State, op: Op, h: int, k: UInt32)
    requires Inv(s) && h in s.ret.snapshots && h in s.seen
    ensures Total(s.seen[h], Step(merge, s, op).fam.tables, k) == Total(s.seen[h], s.fam.tables, k)
  {
    hide Inv, Total, Lookup, Family.Step, Family.Enabled, Retention.Step, Edit;
    var v, t, t' := s.seen[h], s.fam.tables, Step(merge, s, op).fam.tables;
    FamilyPart(s);
    forall l, n | 0 <= l < |v| && n in v[l]
      ensures ValueIn(t', n, k) == ValueIn(t, n, k)
    {
      assert n in Files(v);
      SeenReadable(s, h, n);
      if op.OfFamily? {
        TablesGrow(merge, s.fam, op.fop, n);
      }
    }
    TotalSame(v, t', t, k);
  }

  lemma FamilyPart(s: State)
    requires Inv(s)
    ensures Family.Inv(s.fam)
  {
  }

  ghost predicate OpenFrom(merge: Merger, levels: nat, ops: seq<Op>, n: nat, h: int)
  {
    forall i :: n <= i <= |ops| ==> h in Run(merge, Init(levels), ops[..i]).ret.snapshots
  }

  lemma RunNext(merge: Merger, levels: nat, ops: seq<Op>, n: nat)
    requires n < |ops|
    ensures Run(merge, Init(levels), ops[..n + 1]) == Step(merge, Run(merge, Init(levels), ops[..n]), ops[n])
  {
    hide Step, Init;
    assert ops[..n + 1][..n] == ops[..n];
  }

  /** While a snapshot is open, its reads of every key stay as they are. */
  lemma {:induction false} ReadsKeep(merge: Merger, levels: nat, ops: seq<Op>, n: nat, h: int, k: UInt32)
    requires levels >= 2 && n <= |ops| && QuietRun(merge, Init(levels), ops) && OpenFrom(merge, levels, ops, n, h)
    ensures var s, s' := Run(merge, Init(levels), ops[..n]), Run(merge, Init(levels), ops);
            h in s.seen && h in s'.seen && ReadKey(s', h, k) == ReadKey(s, h, k)
    decreases |ops| - n
  {
    hide Step, Run, Init, Inv, Quiet, ReadKey;
    var s := Run(merge, Init(levels), ops[..n]);
    assert h in s.ret.snapshots;
    QuietPrefix(merge, levels, ops, n);
    RunKeeps(merge, levels, ops[..n]);
    if n < |ops| {
      ReadsKeep(merge, levels, ops, n + 1, h, k);
      RunNext(merge, levels, ops, n);
      assert h in Run(merge, Init(levels), ops[..n + 1]).ret.snapshots;
      ReadStable(merge, s, ops[n], h, k);
    } else {
      assert ops[..n] == ops;
      SnapshotParts(s, h);
    }
  }

  /** The family's part of a run is a run of the family. */
  lemma {:induction false} FamilyRun(merge: Merger, levels: nat, ops: seq<Op>) returns (fops: seq<Family.Op>)
    ensures Run(merge, Init(levels), ops).fam == Family.Run(merge, Family.Init(levels), fops)
    decreases |ops|
  {
    fops := [];
    if |ops| > 0 {
      var n := |ops| - 1;
      fops := FamilyRun(merge, levels, ops[..n]);
      var s := Run(merge, Init(levels), ops[..n]);
      FamilyStep(merge, s, ops[n]);
      if Enabled(merge, s, ops[n]) && ops[n].OfFamily? {
        hide Family.Step, Step;
        Family.RunSnoc(merge, Family.Init(levels), fops, ops[n].fop);
        fops := fops + [ops[n].fop];
      }
    }
  }

  lemma FamilyStep(merge: Merger, s: State, op: Op)
    ensures Step(merge, s, op).fam
         == if Enabled(merge, s, op) && op.OfFamily? then Family.Step(merge, s.fam, op.fop) else s.fam
  {
    hide Family.Step, Retention.Step, Enabled;
  }

  /**
   A snapshot reads, as long as it is open, what reading all values flushed before it was
   opened would give, for every reading the merger keeps.
   */
  lemma ReadsAsOpened<T(!new)>(merge: Merger, q: (UInt32, multiset<Bytes>) -> T, levels: nat, ops: seq<Op>, n: nat, k: UInt32)
    requires levels >= 2 && Family.MergerKeeps(merge, q) && n < |ops| && QuietRun(merge, Init(levels), ops)
    requires ops[n] == OfFiles(Retention.OpenSnapshot)
    requires OpenFrom(merge, levels, ops, n + 1, Run(merge, Init(levels), ops[..n]).ret.nextSnapshot)
    ensures var s, s' := Run(merge, Init(levels), ops[..n]), Run(merge, Init(levels), ops);
            var h := s.ret.nextSnapshot;
            h in s'.seen && q(k, ReadKey(s', h, k)) == q(k, InputValues(s.fam.history, k))
  {
    hide Run, Init, Inv, Quiet, ReadKey, Total, Family.Run, Family.MergerKeeps, InputValues, QuietRun, Family.Init;
    var s, s1 := Run(merge, Init(levels), ops[..n]), Run(merge, Init(levels), ops[..n + 1]);
    var h := s.ret.nextSnapshot;
    ReadsKeep(merge, levels, ops, n + 1, h, k);
    QuietPrefix(merge, levels, ops, n + 1);
    RunKeeps(merge, levels, ops[..n + 1]);
    RunNext(merge, levels, ops, n);
    OpenView(merge, s);
    ReadsTables(s1, h, k);
    var fops := FamilyRun(merge, levels, ops[..n]);
    Family.RunMeaning(merge, q, levels, fops, k);
  }

  lemma OpenView(merge: Merger, s: State)
    ensures var s' := Step(merge, s, OfFiles(Retention.OpenSnapshot));
            && s'.fam == s.fam && s.ret.nextSnapshot in s'.ret.snapshots
            && s.ret.nextSnapshot in s'.seen && s'.seen[s.ret.nextSnapshot] == s.fam.v
  {
  }

  // ----- every state can go on -----

  lemma AllocStep(merge: Merger, s: State)
    ensures var n, s' := s.fam.next, Step(merge, s, OfFamily(Family.Alloc));
            && s'.fam == s.fam.(next := n + 1, free := s.fam.free + {n}) && s'.seen == s.seen
            && s'.ret == s.ret.(nextFile := n + 1, disk := s.ret.disk + {n}, unregistered := s.ret.unregistered + {n})
  {
  }

  lemma RegisterStep(merge: Merger, s: State, n: int)
    requires n in s.ret.unregistered
    ensures Step(merge, s, OfFiles(Retention.Register(n)))
         == s.(ret := s.ret.(pending := s.ret.pending + {n}, unregistered := s.ret.unregistered - {n}))
  {
  }

  /** After these steps the flush is in the family's history and in the version a new snapshot sees. */
  lemma FlushGoesIn(merge: Merger, s: State, es: seq<KV>, k: UInt32)
    requires Inv(s) && |es| > 0 && Ascending(es)
    ensures var n := s.fam.next;
            var s2 := Step(merge, Step(merge, s, OfFamily(Family.Alloc)), OfFiles(Retention.Register(n)));
            var s3 := Step(merge, s2, OfFamily(Family.Flush(n, es, 0)));
            && s3.fam.history == s.fam.history + [es]
            && s3.ret.current in s3.ret.active && n in s3.ret.active[s3.ret.current]
            && Total(s3.fam.v, s3.fam.tables, k) == Total(s.fam.v, s.fam.tables, k) + Bag(Lookup(es, k))
  {
    hide Step, Inv, Lookup, Total;
    var n := s.fam.next;
    var s1 := Step(merge, s, OfFamily(Family.Alloc));
    var s2 := Step(merge, s1, OfFiles(Retention.Register(n)));
    var flush := Family.Flush(n, es, 0);
    AllocStep(merge, s);
    RegisterStep(merge, s1, n);
    QuietFamily(s, Family.Alloc);
    StepKeeps(merge, s, OfFamily(Family.Alloc));
    QuietRegister(s1, n);
    StepKeeps(merge, s1, OfFiles(Retention.Register(n)));
    FlushStep(merge, s2, flush);
    FamilyPart(s2);
    Family.FlushTotal(merge, s2.fam, n, es, 0, k);
  }

  lemma QuietFamily(s: State, f: Family.Op)
    ensures Quiet(s, OfFamily(f))
  {
  }

  lemma QuietRegister(s: State, n: int)
    ensures Quiet(s, OfFiles(Retention.Register(n)))
  {
  }

  lemma FlushStep(merge: Merger, s: State, f: Family.Op)
    requires Inv(s) && f.Flush? && f.n in s.fam.free && f.n in s.ret.pending && |f.es| > 0 && Ascending(f.es)
    ensures Family.Enabled(merge, s.fam, f)
    ensures var s' := Step(merge, s, OfFamily(f));
            && s'.fam == Family.Step(merge, s.fam, f) && s'.fam.history == s.fam.history + [f.es]
            && s'.ret.current in s'.ret.active && f.n in s'.ret.active[s'.ret.current]
  {
    hide Family.Inv, Files, Shallow, SeenOk, Retention.ActiveFiles, Retention.CommitEdit;
    Retention.CommitShape(s.ret, {}, {f.n});
  }

  /**
   From every reachable state any non-empty table can be flushed, and a snapshot opened then
   reads, of every key, the flushed value besides what was stored.
   */
  lemma FlushThenRead(merge: Merger, levels: nat, ops: seq<Op>, es: seq<KV>, k: UInt32) returns (more: seq<Op>)
    requires levels >= 2 && QuietRun(merge, Init(levels), ops) && |es| > 0 && Ascending(es)
    ensures var s, u := Run(merge, Init(levels), ops), Run(merge, Run(merge, Init(levels), ops), more);
            var h := s.ret.nextSnapshot;
            && u.fam.history == s.fam.history + [es] && h in u.seen
            && ReadKey(u, h, k) == Total(s.fam.v, s.fam.tables, k) + Bag(Lookup(es, k))
  {
    hide Run, Init, Inv, Step, ReadKey, Total, Lookup, QuietRun;
    var s := Run(merge, Init(levels), ops);
    RunKeeps(merge, levels, ops);
    var n := s.fam.next;
    var a, b, c := OfFamily(Family.Alloc), OfFiles(Retention.Register(n)), OfFamily(Family.Flush(n, es, 0));
    var open := OfFiles(Retention.OpenSnapshot);
    var s3 := Step(merge, Step(merge, Step(merge, s, a), b), c);
    FlushGoesIn(merge, s, es, k);
    ThreeKeep(merge, s, n, es);
    OpenView(merge, s3);
    QuietOpen(s3);
    StepKeeps(merge, s3, open);
    ReadsTables(Step(merge, s3, open), s.ret.nextSnapshot, k);
    RunFour(merge, s, a, b, c, open);
    more := [a, b, c, open];
  }

  lemma QuietOpen(s: State)
    ensures Quiet(s, OfFiles(Retention.OpenSnapshot))
  {
  }

  lemma ThreeKeep(merge: Merger, s: State, n: int, es: seq<KV>)
    requires Inv(s)
    ensures var s3 := Step(merge, Step(merge, Step(merge, s, OfFamily(Family.Alloc)), OfFiles(Retention.Register(n))),
                           OfFamily(Family.Flush(n, es, 0)));
            Inv(s3) && s3.ret.nextSnapshot == s.ret.nextSnapshot
  {
    var s1 := Step(merge, s, OfFamily(Family.Alloc));
    var s2 := Step(merge, s1, OfFiles(Retention.Register(n)));
    assert s2.ret.nextSnapshot == s.ret.nextSnapshot;
    assert Step(merge, s2, OfFamily(Family.Flush(n, es, 0))).ret.nextSnapshot == s2.ret.nextSnapshot;
    hide Step, Inv;
    QuietFamily(s, Family.Alloc);
    StepKeeps(merge, s, OfFamily(Family.Alloc));
    QuietRegister(s1, n);
    StepKeeps(merge, s1, OfFiles(Retention.Register(n)));
    QuietFamily(s2, Family.Flush(n, es, 0));
    StepKeeps(merge, s2, OfFamily(Family.Flush(n, es, 0)));
  }

  lemma RunFour(merge: Merger, s: State, a: Op, b: Op, c: Op, d: Op)
    ensures Run(merge, s, [a, b, c, d]) == Step(merge, Step(merge, Step(merge, Step(merge, s, a), b), c), d)
  {
    hide Step;
    assert [a, b, c, d][..3] == [a, b, c] && [a, b, c][..2] == [a, b] && [a, b][..1] == [a] && [a][..0] == [];
    assert Run(merge, s, [a]) == Step(merge, Run(merge, s, []), a);
    assert Run(merge, s, [a, b]) == Step(merge, Run(merge, s, [a]), b);
    assert Run(merge, s, [a, b, c]) == Step(merge, Run(merge, s, [a, b]), c);
  }
}
