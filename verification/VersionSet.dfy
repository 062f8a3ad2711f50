/**
 The version set over the bytes of its manifest (`kv/version/version_set.go`).
 */
module VersionSet {
  import opened Framing
  import opened Options
  import opened Versions
  import opened Words
  import opened Manifest
  import Stream

  /** The records a manifest is made of, marshalled. */
  ghost predicate IsJournal(journal: seq<Bytes>, rs: seq<EditLog>) {
    |journal| == |rs| && forall i :: 0 <= i < |rs| ==> journal[i] == Marshal(rs[i])
  }

  /** Fields in the ranges of their machine types. */
  predicate RecordOk(r: EditLog) {
    Stream.IsInt32(r.familyID) && LogsOk(r.logs)
  }

  /** Records some of which may have lost their ends. */
  ghost predicate IsCut(journal: seq<Bytes>, rs: seq<EditLog>) {
    |journal| == |rs| && forall i :: 0 <= i < |rs| ==> RecordOk(rs[i]) && journal[i] <= Marshal(rs[i])
  }

  /** `recover`: the records of the manifest in order; one that is cut off or cannot be placed is an error. */
  method Recover(levels: nat, ids: set<int>, journal: seq<Bytes>, ghost rs: seq<EditLog>) returns (m: Option<Memory>)
    ensures IsJournal(journal, rs) && (forall i :: 0 <= i < |rs| ==> RecordOk(rs[i])) ==> m == Replay(levels, ids, rs)
    ensures IsCut(journal, rs) && !IsJournal(journal, rs) ==> m == None
  {
    hide Marshal, LogsOk;
    ghost var good := IsJournal(journal, rs) && forall i :: 0 <= i < |rs| ==> RecordOk(rs[i]);
    ghost var cut := IsCut(journal, rs);
    var mem := Start(levels, ids);
    assert rs[..0] == [];
    for i := 0 to |journal|
      invariant good ==> Replay(levels, ids, rs[..i]) == Some(mem)
      invariant cut ==> forall j :: 0 <= j < i ==> journal[j] == Marshal(rs[j])
    {
      var ok, r := Unmarshal(journal[i], if good || cut then rs[i] else EditLog(0, []));
      if good {
        assert rs[..i + 1] == rs[..i] + [rs[i]];
        ReplaySnoc(levels, ids, rs[..i], rs[i]);
      }
      if !ok {
        return None;
      }
      var next := ReplayRecord(mem, r);
      if next == None {
        if good {
          ReplayStops(levels, ids, rs, i + 1);
        }
        return None;
      }
      mem := next.value;
    }
    assert good ==> rs[..|journal|] == rs;
    m := Some(mem);
  }

  lemma {:induction false} ReplayStops(levels: nat, ids: set<int>, rs: seq<EditLog>, n: nat)
    requires n <= |rs| && Replay(levels, ids, rs[..n]) == None
    ensures Replay(levels, ids, rs) == None
    decreases |rs|
  {
    hide ReplayOne;
    if n < |rs| {
      assert rs[..|rs| - 1][..n] == rs[..n];
      ReplayStops(levels, ids, rs[..|rs| - 1], n);
    } else {
      assert rs[..n] == rs;
    }
  }

  /** `applyVersionSet` or `applyFamilyVersion`, log by log. */
  method ReplayRecord(m: Memory, r: EditLog) returns (m': Option<Memory>)
    ensures m' == ReplayOne(m, r)
    ensures m' == None <==> r.familyID != STORE_FAMILY_ID && r.familyID !in m.vs
    ensures m'.Some? ==>
              m'.value.vs == if r.familyID == STORE_FAMILY_ID then m.vs
                             else m.vs[r.familyID := ApplyAll(m.vs[r.familyID], r.logs)]
  {
    if r.familyID != STORE_FAMILY_ID && r.familyID !in m.vs {
      return None;
    }
    var mem := m;
    var logs := r.logs;
    assert logs[..0] == [];
    ghost var stored := r.familyID == STORE_FAMILY_ID;
    ghost var vs := m.vs;
    for i := 0 to |logs|
      invariant stored ==> mem == ApplyNumbers(m, logs[..i])
      invariant !stored ==> r.familyID in mem.vs && mem.vs == m.vs[r.familyID := ApplyAll(m.vs[r.familyID], logs[..i])]
      invariant !stored ==> mem == ApplyNumbers(m, logs[..i]).(vs := mem.vs)
    {
      assert logs[..i + 1][..i] == logs[..i];
      if r.familyID != STORE_FAMILY_ID {
        mem := mem.(vs := mem.vs[r.familyID := Apply(mem.vs[r.familyID], logs[i])]);
      }
      if logs[i].NextFileNumber? {
        mem := mem.(manifest := logs[i].number, next := logs[i].number + 1);
      }
    }
    assert logs[..|logs|] == logs;
    if !stored {
      NumbersApart(m, m.(vs := m.vs[r.familyID := ApplyAll(m.vs[r.familyID], r.logs)]), r.logs);
    }
    m' := Some(mem);
  }

  // ----- writing -----

  class StoreVersionSet {
    const levels: nat
    var vs: map<int, Version>
    var manifestFileNumber: int
    var nextFileNumber: int
    var journal: seq<Bytes>  // the manifest being written
    ghost var records: seq<EditLog>

    function Mem(): (m: Memory)
      reads this
    {
      Memory(vs, manifestFileNumber, nextFileNumber)
    }

    ghost predicate Valid()
      reads this
    {
      && IsJournal(journal, records)
      && forall id :: id in vs ==> id != STORE_FAMILY_ID && |vs[id]| == levels && Keyed(vs[id])
    }

    /** A version set that holds what a manifest replays to, with no manifest of its own yet. */
    constructor (levels: nat, m: Memory)
      requires forall id :: id in m.vs ==> id != STORE_FAMILY_ID && |m.vs[id]| == levels && Keyed(m.vs[id])
      ensures Valid() && Mem() == m && this.levels == levels && records == []
    {
      this.levels := levels;
      vs, manifestFileNumber, nextFileNumber, journal, records := m.vs, m.manifest, m.next, [], [];
    }

    method NextFileNumber() returns (n: int)
      requires Valid()
      modifies this`nextFileNumber
      ensures Valid() && n == old(nextFileNumber) && Mem() == old(Mem()).(next := n + 1)
    {
      n := nextFileNumber;
      nextFileNumber := n + 1;
    }

    method Persist(r: EditLog)
      requires Valid()
      modifies this`journal, this`records
      ensures Valid() && records == old(records) + [r]
    {
      hide Marshal;
      journal, records := journal + [Marshal(r)], records + [r];
    }

    /** An unknown family is an error; otherwise the log is extended by the next number, persisted and applied. */
    method CommitFamilyEditLog(id: int, logs: seq<Log>) returns (ok: bool)
      requires Valid() && NoNumberLogs(logs)
      modifies this
      ensures Valid() && ok == (id in old(vs))
      ensures !ok ==> Mem() == old(Mem()) && records == old(records)
      ensures ok ==>
                var r := EditLog(id, logs + [Log.NextFileNumber(old(nextFileNumber))]);
                && records == old(records) + [r] && Some(Mem()) == ReplayOne(old(Mem()), r)
      ensures ok ==>
                && vs == old(vs)[id := ApplyAll(old(vs)[id], logs)]
                && manifestFileNumber == old(nextFileNumber) && nextFileNumber == old(nextFileNumber) + 1
    {
      hide ReplayOne, Marshal;
      if id !in vs {
        return false;
      }
      var r := EditLog(id, logs + [Log.NextFileNumber(nextFileNumber)]);
      Persist(r);
      ReplayShape(Mem(), r);
      CommitIs(Mem(), id, logs);
      var m := ReplayRecord(Mem(), r);
      vs, manifestFileNumber, nextFileNumber := m.value.vs, m.value.manifest, m.value.next;
      ok := true;
    }

    /** `createSnapshot` and `persistEditLogs` into an empty manifest. */
    method WriteSnapshot() returns (ghost ids: seq<int>, ghost parts: map<int, seq<seq<FileMeta>>>)
      requires Valid() && records == []
      modifies this`journal, this`records
      ensures Valid() && ListsStore(levels, ids, parts, vs)
      ensures records == SnapshotRecords(ids, parts, nextFileNumber)
    {
      hide Marshal, LevelLogs, ListsVersion, IsJournal;
      ids, parts := [], map[];
      var todo := vs.Keys;
      while todo != {}
        invariant Valid() && todo <= vs.Keys
        invariant forall id :: id in ids <==> id in vs && id !in todo
        invariant forall i, j :: 0 <= i < j < |ids| ==> ids[i] != ids[j]
        invariant forall id :: id in ids ==> id in parts && ListsVersion(parts[id], vs[id])
        invariant records == FamilyRecords(ids, parts)
        decreases |todo|
      {
        SomeNumber(todo);
        var id :| id in todo;
        var logs, part := FamilySnapshot(vs[id]);
        FamilySnoc(ids, parts, id, part);
        Persist(EditLog(id, logs));
        ids, parts := ids + [id], parts[id := part];
        todo := todo - {id};
      }
      Persist(EditLog(STORE_FAMILY_ID, [Log.NextFileNumber(nextFileNumber)]));
    }

    /** `createFamilySnapshot`. */
    static method FamilySnapshot(v: Version) returns (logs: seq<Log>, ghost parts: seq<seq<FileMeta>>)
      requires Keyed(v)
      ensures ListsVersion(parts, v) && logs == LevelLogs(parts)
      ensures ApplyAll(Empty(|v|), logs) == v
    {
      hide Lists;
      logs, parts := [], [];
      for level := 0 to |v|
        invariant |parts| == level && logs == LevelLogs(parts)
        invariant forall l :: 0 <= l < level ==> Lists(parts[l], v[l])
      {
        var files := GetFiles(v, level);
        assert (parts + [files])[..level] == parts;
        parts := parts + [files];
        logs := logs + NewLogs(level, files);
      }
      SnapshotRebuilds(parts, v, |v|);
      assert parts[..|v|] == parts && v[..|v|] + Empty(|v|)[|v|..] == v;
    }
  }

  lemma FamilySnoc(ids: seq<int>, parts: map<int, seq<seq<FileMeta>>>, id: int, part: seq<seq<FileMeta>>)
    requires id !in ids
    ensures FamilyRecords(ids + [id], parts[id := part]) == FamilyRecords(ids, parts) + [EditLog(id, LevelLogs(part))]
  {
    hide LevelLogs;
    assert forall i :: 0 <= i < |ids| ==> ids[i] != id;
  }

  lemma CommitIs(m: Memory, id: int, logs: seq<Log>)
    requires id in m.vs && id != STORE_FAMILY_ID && NoNumberLogs(logs)
    ensures ReplayOne(m, EditLog(id, logs + [Log.NextFileNumber(m.next)]))
         == Some(Memory(m.vs[id := ApplyAll(m.vs[id], logs)], m.next, m.next + 1))
  {
    hide ApplyAll, ApplyNumbers;
    var all := logs + [Log.NextFileNumber(m.next)];
    ApplyConcat(m.vs[id], logs, [Log.NextFileNumber(m.next)]);
    ApplyNumberLog(ApplyAll(m.vs[id], logs), m.next);
    CommitNumbers(m.(vs := m.vs[id := ApplyAll(m.vs[id], all)]), logs, m.next);
  }

  lemma ReplayShape(m: Memory, r: EditLog)
    requires r.familyID != STORE_FAMILY_ID && r.familyID in m.vs && Keyed(m.vs[r.familyID])
    ensures ReplayOne(m, r).Some?
    ensures ReplayOne(m, r).value.vs == m.vs[r.familyID := ApplyAll(m.vs[r.familyID], r.logs)]
    ensures Keyed(ApplyAll(m.vs[r.familyID], r.logs))
  {
    AppliedKeyed(m.vs[r.familyID], r.logs);
  }

  // ----- bytes and back -----

  function FileCount(v: Version): (n: nat)
  {
    if |v| == 0 then 0 else FileCount(v[..|v| - 1]) + |v[|v| - 1]|
  }

  /** All numbers fit the fields they are written to. */
  ghost predicate Fits(m: Memory) {
    && Stream.IsInt64(m.next)
    && forall id :: id in m.vs ==>
         && Stream.IsInt32(id) && FileCount(m.vs[id]) < Stream.U64 && Stream.IsInt32(|m.vs[id]|)
         && forall l, n :: 0 <= l < |m.vs[id]| && n in m.vs[id][l] ==> LogOk(NewFile(l, m.vs[id][l][n]))
  }

  lemma {:induction false} ListedCount(fs: seq<FileMeta>)
    requires DistinctNumbers(fs)
    ensures |AsLevel(fs)| == |fs|
  {
    if |fs| > 0 {
      var n := |fs| - 1;
      ListedCount(fs[..n]);
      AsLevelKeys(fs[..n]);
    }
  }

  /** A snapshot's logs are as many as there are files, and fit. */
  lemma {:induction false} SnapshotLogsOk(parts: seq<seq<FileMeta>>, v: Version, n: nat)
    requires ListsVersion(parts, v) && n <= |v|
    requires forall l, x :: 0 <= l < |v| && x in v[l] ==> LogOk(NewFile(l, v[l][x]))
    ensures |LevelLogs(parts[..n])| == FileCount(v[..n])
    ensures forall i :: 0 <= i < |LevelLogs(parts[..n])| ==> LogOk(LevelLogs(parts[..n])[i])
    decreases n
  {
    hide LogOk;
    if n > 0 {
      var l := n - 1;
      SnapshotLogsOk(parts, v, l);
      assert parts[..n][..l] == parts[..l] && v[..n][..l] == v[..l];
      assert Lists(parts[l], v[l]);
      ListedLevel(parts[l], v[l]);
      ListedCount(parts[l]);
      forall i | 0 <= i < |parts[l]|
        ensures LogOk(NewLogs(l, parts[l])[i])
      {
        assert parts[l][i].number in v[l];
      }
    }
  }

  lemma SnapshotRecordsOk(levels: nat, ids: seq<int>, parts: map<int, seq<seq<FileMeta>>>, m: Memory, i: nat)
    requires ListsStore(levels, ids, parts, m.vs) && Fits(m) && i < |SnapshotRecords(ids, parts, m.next)|
    ensures RecordOk(SnapshotRecords(ids, parts, m.next)[i])
  {
    hide ListsVersion, LogOk, FileCount;
    if i < |ids| {
      var id := ids[i];
      assert id in ids;
      PartsLength(parts[id], m.vs[id]);
      SnapshotLogsOk(parts[id], m.vs[id], levels);
      assert parts[id][..levels] == parts[id] && m.vs[id][..levels] == m.vs[id];
    } else {
      assert LogOk(Log.NextFileNumber(m.next)) by { NumberOk(m.next); }
    }
  }

  lemma NumberOk(n: int)
    requires Stream.IsInt64(n)
    ensures LogOk(Log.NextFileNumber(n))
  {
  }

  /** Snapshot, bytes, recovery: the same families, and the number the snapshot logged. */
  method Reopen(levels: nat, m: Memory) returns (m': Option<Memory>)
    requires forall id :: id in m.vs ==> id != STORE_FAMILY_ID && |m.vs[id]| == levels && Keyed(m.vs[id])
    requires Fits(m)
    ensures m' == Some(Memory(m.vs, m.next, m.next + 1))
  {
    hide IsJournal, Replay, SnapshotRecords, ListsStore, RecordOk, Fits;
    var versions := new StoreVersionSet(levels, m);
    ghost var ids;
    ghost var parts;
    ids, parts := versions.WriteSnapshot();
    ghost var rs := versions.records;
    forall i | 0 <= i < |rs|
      ensures RecordOk(rs[i])
    {
      SnapshotRecordsOk(levels, ids, parts, m, i);
    }
    SnapshotReplays(levels, ids, parts, m.vs, m.next);
    m' := Recover(levels, m.vs.Keys, versions.journal, rs);
  }
}
