/**
 The manifest of a store (`kv/version/version_set.go`, `kv/store.go`): commits append
 edit logs to the manifest that CURRENT names; opening a store replays it, writes a
 snapshot into a new manifest, switches CURRENT and removes the other manifests.  The
 process may stop between any two steps.
 */
module Manifest {
  import opened Framing
  import opened Options
  import opened Versions

  const STORE_FAMILY_ID := -99999999

  /** What the version set keeps in memory. */
  datatype Memory = Memory(vs: map<int, Version>, manifest: int, next: int)

  // ----- replay -----

  /** Only a logged file number changes the counters. */
  function ApplyNumbers(m: Memory, logs: seq<Log>): (m': Memory)
    ensures m'.vs == m.vs
  {
    if |logs| == 0 then m
    else
      var m1, log := ApplyNumbers(m, logs[..|logs| - 1]), logs[|logs| - 1];
      match log
      case NextFileNumber(n) => m1.(manifest := n, next := n + 1)
      case _ => m1
  }

  /** One record; a record of an unknown family is an error. */
  function ReplayOne(m: Memory, r: EditLog): (m': Option<Memory>)
  {
    if r.familyID == STORE_FAMILY_ID then Some(ApplyNumbers(m, r.logs))
    else if r.familyID in m.vs then
      Some(ApplyNumbers(m.(vs := m.vs[r.familyID := ApplyAll(m.vs[r.familyID], r.logs)]), r.logs))
    else None
  }

  function Start(levels: nat, ids: set<int>): (m: Memory)
  {
    Memory(map id | id in ids :: Empty(levels), 1, 2)
  }

  function Replay(levels: nat, ids: set<int>, rs: seq<EditLog>): (m: Option<Memory>)
  {
    if |rs| == 0 then Some(Start(levels, ids))
    else
      match Replay(levels, ids, rs[..|rs| - 1])
      case None => None
      case Some(m) => ReplayOne(m, rs[|rs| - 1])
  }

  lemma ReplaySnoc(levels: nat, ids: set<int>, rs: seq<EditLog>, r: EditLog)
    ensures Replay(levels, ids, rs + [r]) ==
            match Replay(levels, ids, rs) { case None => None case Some(m) => ReplayOne(m, r) }
  {
    hide ReplayOne;
    assert (rs + [r])[..|rs|] == rs;
  }

  lemma {:induction false} ReplayKeys(levels: nat, ids: set<int>, rs: seq<EditLog>)
    ensures var m := Replay(levels, ids, rs); m.Some? ==> m.value.vs.Keys == ids
    decreases |rs|
  {
    if |rs| > 0 {
      ReplayKeys(levels, ids, rs[..|rs| - 1]);
    }
  }

  /** Replay with a family more: it is empty, the others are as before. */
  lemma {:induction false} ReplayMore(levels: nat, ids: set<int>, id: int, rs: seq<EditLog>)
    requires Replay(levels, ids, rs).Some? && id !in ids
    ensures var m := Replay(levels, ids, rs).value;
            Replay(levels, ids + {id}, rs) == Some(m.(vs := m.vs[id := Empty(levels)]))
    decreases |rs|
  {
    if |rs| == 0 {
      assert (map x | x in ids + {id} :: Empty(levels)) == (map x | x in ids :: Empty(levels))[id := Empty(levels)];
    } else {
      var r := rs[|rs| - 1];
      var m := Replay(levels, ids, rs[..|rs| - 1]).value;
      ReplayMore(levels, ids, id, rs[..|rs| - 1]);
      ReplayKeys(levels, ids, rs[..|rs| - 1]);
      ReplayOneMore(m, id, Empty(levels), r);
    }
  }

  lemma ReplayOneMore(m: Memory, id: int, v: Version, r: EditLog)
    requires id !in m.vs && ReplayOne(m, r).Some?
    ensures var m' := ReplayOne(m, r).value;
            ReplayOne(m.(vs := m.vs[id := v]), r) == Some(m'.(vs := m'.vs[id := v]))
  {
    if r.familyID == STORE_FAMILY_ID {
      NumbersApart(m, m.(vs := m.vs[id := v]), r.logs);
    } else {
      var vs := m.vs[r.familyID := ApplyAll(m.vs[r.familyID], r.logs)];
      assert m.vs[id := v][r.familyID := ApplyAll(m.vs[r.familyID], r.logs)] == vs[id := v];
      NumbersApart(m.(vs := vs), m.(vs := vs[id := v]), r.logs);
    }
  }

  /** The counters do not depend on the versions. */
  lemma {:induction false} NumbersApart(a: Memory, b: Memory, logs: seq<Log>)
    requires a.manifest == b.manifest && a.next == b.next
    ensures ApplyNumbers(b, logs) == ApplyNumbers(a, logs).(vs := b.vs)
  {
    if |logs| > 0 {
      NumbersApart(a, b, logs[..|logs| - 1]);
    }
  }

  predicate NoNumberLogs(logs: seq<Log>) {
    forall i :: 0 <= i < |logs| ==> !logs[i].NextFileNumber?
  }

  lemma {:induction false} NumbersUnchanged(m: Memory, logs: seq<Log>)
    requires NoNumberLogs(logs)
    ensures ApplyNumbers(m, logs) == m
  {
    if |logs| > 0 {
      NumbersUnchanged(m, logs[..|logs| - 1]);
    }
  }

  // ----- snapshots -----

  /** The logs that rebuild a version, level by level, each level's files in some order. */
  function LevelLogs(parts: seq<seq<FileMeta>>): (logs: seq<Log>)
  {
    if |parts| == 0 then []
    else LevelLogs(parts[..|parts| - 1]) + NewLogs(|parts| - 1, parts[|parts| - 1])
  }

  ghost predicate ListsVersion(parts: seq<seq<FileMeta>>, v: Version) {
    |parts| == |v| && forall l :: 0 <= l < |v| ==> Lists(parts[l], v[l])
  }

  /** Replaying the snapshot of a version on an empty one gives the version. */
  lemma {:induction false} SnapshotRebuilds(parts: seq<seq<FileMeta>>, v: Version, n: nat)
    requires ListsVersion(parts, v) && n <= |v|
    ensures ApplyAll(Empty(|v|), LevelLogs(parts[..n])) == v[..n] + Empty(|v|)[n..]
    ensures NoNumberLogs(LevelLogs(parts[..n]))
    decreases n
  {
    if n == 0 {
      assert parts[..0] == [];
      assert v[..0] + Empty(|v|)[0..] == Empty(|v|);
    } else {
      SnapshotRebuilds(parts, v, n - 1);
      assert parts[..n][..n - 1] == parts[..n - 1];
      RebuildLevel(parts, v, n);
    }
  }

  lemma RebuildLevel(parts: seq<seq<FileMeta>>, v: Version, n: nat)
    requires ListsVersion(parts, v) && 0 < n <= |v|
    requires ApplyAll(Empty(|v|), LevelLogs(parts[..n - 1])) == v[..n - 1] + Empty(|v|)[n - 1..]
    ensures ApplyAll(Empty(|v|), LevelLogs(parts[..n - 1]) + NewLogs(n - 1, parts[n - 1])) == v[..n] + Empty(|v|)[n..]
  {
    hide ApplyAll, NewLogs, AsLevel, Lists, LevelLogs;
    var before := v[..n - 1] + Empty(|v|)[n - 1..];
    ApplyConcat(Empty(|v|), LevelLogs(parts[..n - 1]), NewLogs(n - 1, parts[n - 1]));
    ApplyNews(before, n - 1, parts[n - 1]);
    ListedLevel(parts[n - 1], v[n - 1]);
    assert before[n - 1] == map[] && map[] + v[n - 1] == v[n - 1];
    assert before[n - 1 := v[n - 1]] == v[..n] + Empty(|v|)[n..];
  }

  /** `createSnapshot`: a record per family, then the store's next file number. */
  function FamilyRecords(ids: seq<int>, parts: map<int, seq<seq<FileMeta>>>): (rs: seq<EditLog>)
    ensures |rs| == |ids|
  {
    seq(|ids|, i requires 0 <= i < |ids| => EditLog(ids[i], if ids[i] in parts then LevelLogs(parts[ids[i]]) else []))
  }

  function SnapshotRecords(ids: seq<int>, parts: map<int, seq<seq<FileMeta>>>, next: int): (rs: seq<EditLog>)
  {
    FamilyRecords(ids, parts) + [EditLog(STORE_FAMILY_ID, [NextFileNumber(next)])]
  }

  /** Every family once, in some order, with its files level by level. */
  ghost predicate ListsStore(levels: nat, ids: seq<int>, parts: map<int, seq<seq<FileMeta>>>, vs: map<int, Version>) {
    && (forall i, j :: 0 <= i < j < |ids| ==> ids[i] != ids[j])
    && (forall id :: id in ids <==> id in vs)
    && (forall id :: id in vs ==> id != STORE_FAMILY_ID && |vs[id]| == levels && id in parts && ListsVersion(parts[id], vs[id]))
  }

  /** The families rebuilt by the first `n` records of a snapshot. */
  ghost function Rebuilt(levels: nat, ids: seq<int>, vs: map<int, Version>, n: nat): (m: map<int, Version>)
    requires n <= |ids|
  {
    map id | id in vs :: if id in ids[..n] then vs[id] else Empty(levels)
  }

  lemma {:induction false} ReplayFamilies(levels: nat, ids: seq<int>, parts: map<int, seq<seq<FileMeta>>>,
                                          vs: map<int, Version>, n: nat)
    requires ListsStore(levels, ids, parts, vs) && n <= |ids|
    ensures Replay(levels, vs.Keys, FamilyRecords(ids, parts)[..n]) == Some(Memory(Rebuilt(levels, ids, vs, n), 1, 2))
    decreases n
  {
    hide Replay, ReplayOne, Rebuilt, ListsStore;
    var rs := FamilyRecords(ids, parts);
    if n == 0 {
      assert rs[..0] == [];
      ReplayNothing(levels, ids, vs);
    } else {
      ReplayFamilies(levels, ids, parts, vs, n - 1);
      assert rs[..n] == rs[..n - 1] + [rs[n - 1]];
      ReplaySnoc(levels, vs.Keys, rs[..n - 1], rs[n - 1]);
      RebuildFamily(levels, ids, parts, vs, n);
    }
  }

  lemma ReplayNothing(levels: nat, ids: seq<int>, vs: map<int, Version>)
    ensures Replay(levels, vs.Keys, []) == Some(Memory(Rebuilt(levels, ids, vs, 0), 1, 2))
  {
    assert Start(levels, vs.Keys).vs == Rebuilt(levels, ids, vs, 0);
  }

  lemma RebuildFamily(levels: nat, ids: seq<int>, parts: map<int, seq<seq<FileMeta>>>, vs: map<int, Version>, n: nat)
    requires ListsStore(levels, ids, parts, vs) && 0 < n <= |ids|
    ensures ReplayOne(Memory(Rebuilt(levels, ids, vs, n - 1), 1, 2), FamilyRecords(ids, parts)[n - 1])
         == Some(Memory(Rebuilt(levels, ids, vs, n), 1, 2))
  {
    hide LevelLogs, ListsVersion, ApplyAll;
    var id := ids[n - 1];
    assert id in ids;
    var m := Rebuilt(levels, ids, vs, n - 1);
    assert id !in ids[..n - 1];
    SnapshotRebuilds(parts[id], vs[id], levels);
    assert |parts[id]| == levels by { PartsLength(parts[id], vs[id]); }
    assert parts[id][..levels] == parts[id] && vs[id][..levels] + Empty(levels)[levels..] == vs[id];
    assert ids[..n] == ids[..n - 1] + [id];
    assert m[id := vs[id]] == Rebuilt(levels, ids, vs, n);
    NumbersUnchanged(Memory(m[id := vs[id]], 1, 2), LevelLogs(parts[id]));
  }

  lemma PartsLength(parts: seq<seq<FileMeta>>, v: Version)
    requires ListsVersion(parts, v)
    ensures |parts| == |v|
  {
  }

  /** Replaying a snapshot gives the families it was taken of, and its number. */
  lemma SnapshotReplays(levels: nat, ids: seq<int>, parts: map<int, seq<seq<FileMeta>>>, vs: map<int, Version>, next: int)
    requires ListsStore(levels, ids, parts, vs)
    ensures Replay(levels, vs.Keys, SnapshotRecords(ids, parts, next)) == Some(Memory(vs, next, next + 1))
  {
    hide Replay, ListsVersion;
    var rs := FamilyRecords(ids, parts);
    assert rs[..|ids|] == rs;
    ReplayFamilies(levels, ids, parts, vs, |ids|);
    assert ids[..|ids|] == ids;
    assert Rebuilt(levels, ids, vs, |ids|) == vs by {
      assert forall id :: id in vs ==> id in ids;
    }
    ReplaySnoc(levels, vs.Keys, rs, EditLog(STORE_FAMILY_ID, [NextFileNumber(next)]));
    assert [NextFileNumber(next)][..0] == [];
  }

  // ----- the store over its life -----

  datatype Phase =
    | Down
    | Replayed(m: Memory)  // the manifest has been read
    | Written(m: Memory)  // the new manifest has been written
    | Opened(m: Memory)  // CURRENT names it
    | Up(m: Memory)  // the other manifests are gone

  /**
   The family ids of the OPTIONS file, the manifests, the one CURRENT names, the
   running process, and what has been committed so far.
   */
  datatype State = State(
    families: set<int>,
    manifests: map<int, seq<EditLog>>,
    current: int,
    phase: Phase,
    committed: map<int, Version>)

  function Init(): (s: State)
  {
    State({}, map[1 := SnapshotRecords([], map[], 2)], 1, Up(Memory(map[], 1, 2)), map[])
  }

  datatype Op =
    | CreateFamily(id: int)
    | Alloc
    | Commit(id: int, logs: seq<Log>)
    | Crash
    | ReadManifest
    | WriteManifest(ids: seq<int>, parts: map<int, seq<seq<FileMeta>>>)
    | SwitchCurrent
    | DeleteManifests
    | FailOpen(i: nat)  // an open that fails after reading `i` records

  /** An edit log of a flush or a compaction: its new files have numbers handed out before. */
  predicate Edits(logs: seq<Log>, next: int) {
    NoNumberLogs(logs) && forall i :: 0 <= i < |logs| ==> logs[i].NewFile? ==> logs[i].file.number < next
  }

  ghost predicate Enabled(levels: nat, s: State, op: Op) {
    match op
    case CreateFamily(id) => s.phase.Up? && id !in s.families && id != STORE_FAMILY_ID
    case Alloc => s.phase.Up?
    case Commit(id, logs) => s.phase.Up? && id in s.phase.m.vs && Edits(logs, s.phase.m.next)
    case Crash => true
    case ReadManifest =>
      s.phase.Down? && s.current in s.manifests && Replay(levels, s.families, s.manifests[s.current]).Some?
    case WriteManifest(ids, parts) => s.phase.Replayed? && ListsStore(levels, ids, parts, s.phase.m.vs)
    case SwitchCurrent => s.phase.Written?
    case DeleteManifests => s.phase.Opened?
    case FailOpen(i) =>
      && s.phase.Down? && s.current in s.manifests && i <= |s.manifests[s.current]|
      && Replay(levels, s.families, s.manifests[s.current][..i]).Some?
  }

  /** `deleteObsoleteFiles`: of the manifests only the one of the given number stays. */
  function KeepOnly(manifests: map<int, seq<EditLog>>, number: int): (kept: map<int, seq<EditLog>>)
  {
    map n | n in manifests && n == number :: manifests[n]
  }

  ghost function Step(levels: nat, s: State, op: Op): (s': State)
  {
    if !Enabled(levels, s, op) then s
    else
      match op
      case CreateFamily(id) =>
        var m := s.phase.m;
        s.(families := s.families + {id}, phase := Up(m.(vs := m.vs[id := Empty(levels)])),
           committed := s.committed[id := Empty(levels)])
      case Alloc => s.(phase := Up(s.phase.m.(next := s.phase.m.next + 1)))
      case Commit(id, logs) =>
        var m, r := s.phase.m, EditLog(id, logs + [NextFileNumber(s.phase.m.next)]);
        var v := ApplyAll(m.vs[id], r.logs);
        s.(manifests := if s.current in s.manifests then s.manifests[s.current := s.manifests[s.current] + [r]] else s.manifests,
           phase := Up(ApplyNumbers(m.(vs := m.vs[id := v]), r.logs)),
           committed := s.committed[id := v])
      case Crash => s.(phase := Down)
      case ReadManifest => s.(phase := Replayed(Replay(levels, s.families, s.manifests[s.current]).value))
      case WriteManifest(ids, parts) =>
        var m := s.phase.m;
        s.(manifests := s.manifests[m.manifest := SnapshotRecords(ids, parts, m.next)], phase := Written(m))
      case SwitchCurrent => s.(current := s.phase.m.manifest, phase := Opened(s.phase.m))
      case DeleteManifests =>
        var m := s.phase.m;
        s.(manifests := KeepOnly(s.manifests, m.manifest), phase := Up(m))
      case FailOpen(i) =>
        var m := Replay(levels, s.families, s.manifests[s.current][..i]).value;
        s.(manifests := KeepOnly(s.manifests, m.manifest))
  }

  ghost function Run(levels: nat, s: State, ops: seq<Op>): (s': State)
  {
    if |ops| == 0 then s else Step(levels, Run(levels, s, ops[..|ops| - 1]), ops[|ops| - 1])
  }

  ghost predicate FilesBelow(vs: map<int, Version>, n: int) {
    forall id :: id in vs ==> VersionBelow(vs[id], n)
  }

  ghost predicate VersionBelow(v: Version, n: int) {
    forall l, x :: 0 <= l < |v| && x in v[l] ==> x < n
  }

  ghost predicate Shaped(levels: nat, vs: map<int, Version>) {
    forall id :: id in vs ==> |vs[id]| == levels && id != STORE_FAMILY_ID
  }

  /** The manifest `rs`, of number `n`, replays to the committed state and to a number above all files and itself. */
  ghost predicate Durable(levels: nat, s: State, n: int, rs: seq<EditLog>) {
    var m := Replay(levels, s.families, rs);
    && m.Some? && m.value.vs == s.committed && m.value.next == m.value.manifest + 1
    && n < m.value.manifest && FilesBelow(s.committed, m.value.manifest)
    && LoggedAbove(rs, n)
  }

  /** Every file number logged in the records is above `n`. */
  ghost predicate LoggedAbove(rs: seq<EditLog>, n: int) {
    forall i, j :: 0 <= i < |rs| && 0 <= j < |rs[i].logs| && rs[i].logs[j].NextFileNumber? ==> n < rs[i].logs[j].number
  }

  ghost predicate Inv(levels: nat, s: State) {
    && s.families == s.committed.Keys && Shaped(levels, s.committed)
    && s.current in s.manifests && Durable(levels, s, s.current, s.manifests[s.current])
    && var m := Replay(levels, s.families, s.manifests[s.current]).value;
       match s.phase
       case Down => true
       case Replayed(m') => m' == m
       case Written(m') =>
         && m' == m && m.manifest in s.manifests
         && Replay(levels, s.families, s.manifests[m.manifest]) == Some(Memory(s.committed, m.next, m.next + 1))
         && LoggedAbove(s.manifests[m.manifest], m.manifest)
       case Opened(m') => m'.vs == s.committed && m'.manifest == s.current && m.manifest <= m'.next
       case Up(m') => m'.vs == s.committed && m.manifest <= m'.next
  }

  lemma InitInv(levels: nat)
    ensures Inv(levels, Init())
  {
    SnapshotReplays(levels, [], map[], map[], 2);
  }

  // ----- each step -----

  lemma CreateKeeps(levels: nat, s: State, id: int)
    requires Inv(levels, s) && Enabled(levels, s, CreateFamily(id))
    ensures Inv(levels, Step(levels, s, CreateFamily(id)))
  {
    hide Replay, LoggedAbove;
    ReplayMore(levels, s.families, id, s.manifests[s.current]);
  }

  /** The counters after a commit's logs. */
  lemma CommitNumbers(m: Memory, logs: seq<Log>, n: int)
    requires NoNumberLogs(logs)
    ensures ApplyNumbers(m, logs + [NextFileNumber(n)]) == m.(manifest := n, next := n + 1)
  {
    assert (logs + [NextFileNumber(n)])[..|logs|] == logs;
    NumbersUnchanged(m, logs);
  }

  /** A version only gets files that the logs name. */
  lemma {:induction false} AppliedBelow(v: Version, logs: seq<Log>, n: int)
    requires VersionBelow(v, n)
    requires forall i :: 0 <= i < |logs| ==> logs[i].NewFile? ==> logs[i].file.number < n
    ensures VersionBelow(ApplyAll(v, logs), n)
    decreases |logs|
  {
    if |logs| > 0 {
      AppliedBelow(v, logs[..|logs| - 1], n);
      ApplyBelow(ApplyAll(v, logs[..|logs| - 1]), logs[|logs| - 1], n);
    }
  }

  lemma ApplyBelow(v: Version, log: Log, n: int)
    requires VersionBelow(v, n) && (log.NewFile? ==> log.file.number < n)
    ensures VersionBelow(Apply(v, log), n)
  {
    var v' := Apply(v, log);
    forall l, x | 0 <= l < |v'| && x in v'[l]
      ensures x < n
    {
      assert x in v[l] || (log.NewFile? && x == log.file.number);
    }
  }

  lemma CommitKeeps(levels: nat, s: State, id: int, logs: seq<Log>)
    requires Inv(levels, s) && Enabled(levels, s, Commit(id, logs))
    ensures Inv(levels, Step(levels, s, Commit(id, logs)))
  {
    hide Replay, LoggedAbove, FilesBelow, ApplyAll, ApplyNumbers;
    var m, rs := s.phase.m, s.manifests[s.current];
    var r := EditLog(id, logs + [NextFileNumber(m.next)]);
    var was := Replay(levels, s.families, rs).value;
    ReplaySnoc(levels, s.families, rs, r);
    CommitNumbers(m.(vs := m.vs[id := ApplyAll(m.vs[id], r.logs)]), logs, m.next);
    CommitNumbers(was.(vs := m.vs[id := ApplyAll(m.vs[id], r.logs)]), logs, m.next);
    CommitBelow(s.committed, id, r.logs, was.manifest, m.next);
    LoggedSnoc(rs, r, s.current);
  }

  lemma CommitBelow(vs: map<int, Version>, id: int, logs: seq<Log>, a: int, b: int)
    requires FilesBelow(vs, a) && a <= b && id in vs
    requires forall i :: 0 <= i < |logs| ==> logs[i].NewFile? ==> logs[i].file.number < b
    ensures FilesBelow(vs[id := ApplyAll(vs[id], logs)], b)
  {
    hide ApplyAll, VersionBelow;
    BelowMore(vs[id], a, b);
    AppliedBelow(vs[id], logs, b);
    forall x | x in vs
      ensures VersionBelow(vs[x], b)
    {
      BelowMore(vs[x], a, b);
    }
  }

  lemma BelowMore(v: Version, a: int, b: int)
    requires VersionBelow(v, a) && a <= b
    ensures VersionBelow(v, b)
  {
  }

  lemma LoggedSnoc(rs: seq<EditLog>, r: EditLog, n: int)
    requires LoggedAbove(rs, n)
    requires forall j :: 0 <= j < |r.logs| && r.logs[j].NextFileNumber? ==> n < r.logs[j].number
    ensures LoggedAbove(rs + [r], n)
  {
  }

  lemma WriteKeeps(levels: nat, s: State, ids: seq<int>, parts: map<int, seq<seq<FileMeta>>>)
    requires Inv(levels, s) && Enabled(levels, s, WriteManifest(ids, parts))
    ensures Inv(levels, Step(levels, s, WriteManifest(ids, parts)))
  {
    hide Replay, LoggedAbove, ListsStore, SnapshotRecords, FilesBelow;
    SnapshotReplays(levels, ids, parts, s.phase.m.vs, s.phase.m.next);
    SnapshotLogged(ids, parts, s.phase.m.next, s.phase.m.manifest);
  }

  lemma SnapshotLogged(ids: seq<int>, parts: map<int, seq<seq<FileMeta>>>, next: int, n: int)
    requires n < next
    ensures LoggedAbove(SnapshotRecords(ids, parts, next), n)
  {
    hide LevelLogs;
    var rs := SnapshotRecords(ids, parts, next);
    forall i, j | 0 <= i < |rs| && 0 <= j < |rs[i].logs| && rs[i].logs[j].NextFileNumber?
      ensures n < rs[i].logs[j].number
    {
      if i < |ids| {
        if ids[i] in parts {
          LevelLogsPlain(parts[ids[i]]);
        }
      }
    }
  }

  lemma {:induction false} LevelLogsPlain(parts: seq<seq<FileMeta>>)
    ensures NoNumberLogs(LevelLogs(parts))
  {
    if |parts| > 0 {
      LevelLogsPlain(parts[..|parts| - 1]);
    }
  }

  lemma SwitchKeeps(levels: nat, s: State)
    requires Inv(levels, s) && Enabled(levels, s, SwitchCurrent)
    ensures Inv(levels, Step(levels, s, SwitchCurrent))
  {
    hide Replay, LoggedAbove, VersionBelow;
    var m := s.phase.m;
    forall id | id in s.committed
      ensures VersionBelow(s.committed[id], m.next)
    {
      BelowMore(s.committed[id], m.manifest, m.next);
    }
  }

  /** A failed open that leaves the manifest in use: it is the first, and no file number has been read. */
  ghost predicate Harmless(s: State, op: Op) {
    op.FailOpen? && s.phase.Down? && s.current in s.manifests && op.i <= |s.manifests[s.current]| ==>
      s.current == 1 && Unnumbered(s.manifests[s.current][..op.i])
  }

  ghost predicate HarmlessRun(levels: nat, ops: seq<Op>) {
    forall i :: 0 <= i < |ops| ==> Harmless(Run(levels, Init(), ops[..i]), ops[i])
  }

  lemma StepKeeps(levels: nat, s: State, op: Op)
    requires Inv(levels, s) && Harmless(s, op)
    ensures Inv(levels, Step(levels, s, op))
  {
    hide Replay, LoggedAbove, FilesBelow, Unnumbered;
    if Enabled(levels, s, op) {
      match op
      case CreateFamily(id) => CreateKeeps(levels, s, id);
      case Commit(id, logs) => CommitKeeps(levels, s, id, logs);
      case WriteManifest(ids, parts) => WriteKeeps(levels, s, ids, parts);
      case SwitchCurrent => SwitchKeeps(levels, s);
      case FailOpen(i) => FailedOpenKeepsIff(levels, s, i);
      case _ =>
    }
  }

  lemma {:induction false} RunKeeps(levels: nat, ops: seq<Op>)
    requires HarmlessRun(levels, ops)
    ensures Inv(levels, Run(levels, Init(), ops))
    decreases |ops|
  {
    hide Inv, Step, Harmless;
    if |ops| == 0 {
      InitInv(levels);
    } else {
      var n := |ops| - 1;
      forall i | 0 <= i < n
        ensures Harmless(Run(levels, Init(), ops[..n][..i]), ops[..n][i])
      {
        assert ops[..n][..i] == ops[..i];
      }
      RunKeeps(levels, ops[..n]);
      assert Harmless(Run(levels, Init(), ops[..n]), ops[n]);
      StepKeeps(levels, Run(levels, Init(), ops[..n]), ops[n]);
    }
  }

  /**
   After every run whose failed opens are harmless, whatever step the process stopped at,
   the manifest that CURRENT names exists and replays without error to exactly the
   committed families, to a next file number above every file in them, and to a number for
   the new manifest that is not that of the old.
   */
  lemma Recovers(levels: nat, ops: seq<Op>)
    requires HarmlessRun(levels, ops)
    ensures var s := Run(levels, Init(), ops);
            && s.current in s.manifests
            && var m := Replay(levels, s.families, s.manifests[s.current]);
               && m.Some? && m.value.vs == s.committed
               && m.value.manifest > s.current
               && forall id, l, x :: id in s.committed && 0 <= l < |s.committed[id]| && x in s.committed[id][l] ==> x < m.value.next
  {
    hide Run, Replay, LoggedAbove, HarmlessRun;
    RunKeeps(levels, ops);
    var s := Run(levels, Init(), ops);
    forall id, l, x | id in s.committed && 0 <= l < |s.committed[id]| && x in s.committed[id][l]
      ensures x < Replay(levels, s.families, s.manifests[s.current]).value.manifest
    {
      assert VersionBelow(s.committed[id], Replay(levels, s.families, s.manifests[s.current]).value.manifest);
    }
  }

  // ----- what a commit and an open achieve -----

  /** A commit is in the manifest and in memory, under the next file number. */
  lemma CommitGoesIn(levels: nat, s: State, id: int, logs: seq<Log>)
    requires Inv(levels, s) && Enabled(levels, s, Commit(id, logs))
    ensures var s', n := Step(levels, s, Commit(id, logs)), s.phase.m.next;
            && id in s.committed && s'.committed == s.committed[id := ApplyAll(s.committed[id], logs)]
            && s.current in s.manifests
            && s'.manifests == s.manifests[s.current := s.manifests[s.current] + [EditLog(id, logs + [NextFileNumber(n)])]]
            && s'.phase == Up(Memory(s'.committed, n, n + 1))
            && s' == s.(committed := s'.committed, manifests := s'.manifests, phase := s'.phase)
  {
    hide Durable, ApplyAll, ApplyNumbers, Replay, Shaped;
    var m := s.phase.m;
    ApplyConcat(m.vs[id], logs, [NextFileNumber(m.next)]);
    ApplyNumberLog(ApplyAll(m.vs[id], logs), m.next);
    CommitNumbers(m.(vs := m.vs[id := ApplyAll(m.vs[id], logs + [NextFileNumber(m.next)])]), logs, m.next);
  }

  lemma ApplyNumberLog(v: Version, n: int)
    ensures ApplyAll(v, [NextFileNumber(n)]) == v
  {
    assert [NextFileNumber(n)][..0] == [];
  }

  lemma CreateGoesIn(levels: nat, s: State, id: int)
    requires Inv(levels, s) && s.phase.Up? && id !in s.families && id != STORE_FAMILY_ID
    ensures var s' := Step(levels, s, CreateFamily(id));
            && s'.families == s.families + {id} && s'.committed == s.committed[id := Empty(levels)]
            && s'.phase == Up(s.phase.m.(vs := s'.committed)) && s'.manifests == s.manifests && s'.current == s.current
  {
    hide Durable, Replay, Shaped;
  }

  /** Files are stored under their own numbers. */
  ghost predicate AllKeyed(vs: map<int, Version>) {
    forall id :: id in vs ==> Keyed(vs[id])
  }

  lemma {:induction false} AppliedKeyed(v: Version, logs: seq<Log>)
    requires Keyed(v)
    ensures Keyed(ApplyAll(v, logs))
    decreases |logs|
  {
    if |logs| > 0 {
      var v1, log := ApplyAll(v, logs[..|logs| - 1]), logs[|logs| - 1];
      AppliedKeyed(v, logs[..|logs| - 1]);
      forall l, n | 0 <= l < |v1| && n in Apply(v1, log)[l]
        ensures Apply(v1, log)[l][n].number == n
      {
      }
    }
  }

  lemma StepKeyed(levels: nat, s: State, op: Op)
    requires Inv(levels, s) && AllKeyed(s.committed)
    ensures AllKeyed(Step(levels, s, op).committed)
  {
    hide Durable, Replay, ApplyAll, Keyed;
    if Enabled(levels, s, op) && op.Commit? {
      AppliedKeyed(s.phase.m.vs[op.id], op.logs + [NextFileNumber(s.phase.m.next)]);
    } else if Enabled(levels, s, op) && op.CreateFamily? {
      EmptyKeyed(levels);
    }
  }

  lemma EmptyKeyed(levels: nat)
    ensures Keyed(Empty(levels))
  {
  }

  lemma {:induction false} RunKeyed(levels: nat, ops: seq<Op>)
    requires HarmlessRun(levels, ops)
    ensures AllKeyed(Run(levels, Init(), ops).committed)
    decreases |ops|
  {
    hide Step, Inv, AllKeyed, Harmless;
    if |ops| == 0 {
      NoneKeyed();
    } else {
      var n := |ops| - 1;
      forall i | 0 <= i < n
        ensures Harmless(Run(levels, Init(), ops[..n][..i]), ops[..n][i])
      {
        assert ops[..n][..i] == ops[..i];
      }
      RunKeyed(levels, ops[..n]);
      RunKeeps(levels, ops[..n]);
      StepKeyed(levels, Run(levels, Init(), ops[..n]), ops[n]);
    }
  }

  lemma NoneKeyed()
    ensures AllKeyed(Init().committed)
  {
  }

  lemma {:induction false} ListLevel(m: map<int, FileMeta>) returns (fs: seq<FileMeta>)
    requires forall n :: n in m ==> m[n].number == n
    ensures Lists(fs, m)
    decreases |m|
  {
    fs := [];
    SomeNumber(m.Keys);
    if m.Keys == {} {
      assert m == map[];
      NoFiles();
    } else {
      var n :| n in m.Keys;
      var rest := m - {n};
      assert rest.Keys == m.Keys - {n};
      fs := ListLevel(rest);
      ListsSnoc(fs, rest, m[n]);
      assert rest[n := m[n]] == m;
      fs := fs + [m[n]];
    }
  }

  lemma {:induction false} ListVersion(v: Version, n: nat) returns (parts: seq<seq<FileMeta>>)
    requires Keyed(v) && n <= |v|
    ensures |parts| == n && forall l :: 0 <= l < n ==> Lists(parts[l], v[l])
  {
    hide Lists;
    parts := [];
    if n > 0 {
      parts := ListVersion(v, n - 1);
      var fs := ListLevel(v[n - 1]);
      parts := parts + [fs];
    }
  }

  lemma {:induction false} ListFamilies(levels: nat, vs: map<int, Version>)
    returns (ids: seq<int>, parts: map<int, seq<seq<FileMeta>>>)
    requires Shaped(levels, vs) && AllKeyed(vs)
    ensures ListsStore(levels, ids, parts, vs)
    decreases |vs|
  {
    hide Lists, Keyed;
    ids, parts := [], map[];
    SomeNumber(vs.Keys);
    if vs.Keys != {} {
      var id :| id in vs.Keys;
      var rest := vs - {id};
      assert rest.Keys == vs.Keys - {id};
      ids, parts := ListFamilies(levels, rest);
      var part := ListVersion(vs[id], |vs[id]|);
      ids, parts := ids + [id], parts[id := part];
    }
  }

  /** Listing a replayed store and opening it over its own snapshot. */
  lemma OpenSteps(levels: nat, s: State, ids: seq<int>, parts: map<int, seq<seq<FileMeta>>>)
    requires Inv(levels, s) && ListsStore(levels, ids, parts, s.committed)
    ensures var s' := Step(levels, Step(levels, Step(levels, Step(levels, Step(levels, s, Crash), ReadManifest),
                        WriteManifest(ids, parts)), SwitchCurrent), DeleteManifests);
            && s'.phase.Up? && s'.phase.m.vs == s.committed == s'.committed && s'.families == s.families
            && s'.manifests == map[s'.current := SnapshotRecords(ids, parts, s'.phase.m.next)]
            && s'.phase.m.manifest == s'.current && s.current < s'.current < s'.phase.m.next
            && FilesBelow(s.committed, s'.current)
  {
    hide Replay, ListsStore, SnapshotRecords, FilesBelow, LoggedAbove;
  }

  /**
   After every run whose failed opens are harmless, a stop and an open bring the store up with
   exactly the committed families, under a new manifest that is the only one left.
   */
  lemma Reopens(levels: nat, ops: seq<Op>) returns (more: seq<Op>)
    requires HarmlessRun(levels, ops)
    ensures var s, u := Run(levels, Init(), ops), Run(levels, Init(), ops + more);
            && u.phase.Up? && u.phase.m.vs == s.committed == u.committed && u.families == s.families
            && u.manifests.Keys == {u.current} && s.current < u.current < u.phase.m.next
            && FilesBelow(s.committed, u.current)
  {
    hide Run, Step, Inv, FilesBelow, ListsStore, AllKeyed, HarmlessRun, SnapshotRecords;
    var s := Run(levels, Init(), ops);
    RunKeeps(levels, ops);
    RunKeyed(levels, ops);
    ShapedIn(levels, s);
    var ids, parts := ListFamilies(levels, s.committed);
    OpenSteps(levels, s, ids, parts);
    var a, b, c, d, e := Crash, ReadManifest, WriteManifest(ids, parts), SwitchCurrent, DeleteManifests;
    RunSnoc(levels, Init(), ops, a);
    RunSnoc(levels, Init(), ops + [a], b);
    RunSnoc(levels, Init(), ops + [a] + [b], c);
    RunSnoc(levels, Init(), ops + [a] + [b] + [c], d);
    RunSnoc(levels, Init(), ops + [a] + [b] + [c] + [d], e);
    more := [a, b, c, d, e];
    assert ops + more == ops + [a] + [b] + [c] + [d] + [e];
  }

  lemma ShapedIn(levels: nat, s: State)
    requires Inv(levels, s)
    ensures Shaped(levels, s.committed)
  {
  }

  // ----- an open that fails -----

  /** No record logs a file number. */
  ghost predicate Unnumbered(rs: seq<EditLog>) {
    forall i :: 0 <= i < |rs| ==> NoNumberLogs(rs[i].logs)
  }

  lemma {:induction false} ReplayNumber(levels: nat, ids: set<int>, rs: seq<EditLog>, n: int)
    requires LoggedAbove(rs, n) && Replay(levels, ids, rs).Some?
    ensures if Unnumbered(rs) then Replay(levels, ids, rs).value.manifest == 1
            else Replay(levels, ids, rs).value.manifest > n
    decreases |rs|
  {
    if |rs| > 0 {
      var k := |rs| - 1;
      var r := rs[k];
      ReplayNumber(levels, ids, rs[..k], n);
      var m := Replay(levels, ids, rs[..k]).value;
      var m1 := if r.familyID == STORE_FAMILY_ID then m else m.(vs := m.vs[r.familyID := ApplyAll(m.vs[r.familyID], r.logs)]);
      RecordNumber(m1, r.logs, n);
      assert Unnumbered(rs) <==> Unnumbered(rs[..k]) && NoNumberLogs(r.logs);
    }
  }

  lemma {:induction false} RecordNumber(m: Memory, logs: seq<Log>, n: int)
    requires forall j :: 0 <= j < |logs| && logs[j].NextFileNumber? ==> n < logs[j].number
    ensures if NoNumberLogs(logs) then ApplyNumbers(m, logs) == m else ApplyNumbers(m, logs).manifest > n
    decreases |logs|
  {
    if |logs| > 0 {
      RecordNumber(m, logs[..|logs| - 1], n);
    }
  }

  /**
   An open that fails still removes every manifest but the one of the number it has reached.
   The manifest that CURRENT names survives, and everything stays recoverable, if and only
   if it is the first manifest and no file number was among the records read.
   */
  lemma FailedOpenKeepsIff(levels: nat, s: State, i: nat)
    requires Inv(levels, s) && Enabled(levels, s, FailOpen(i))
    ensures var s' := Step(levels, s, FailOpen(i));
            && (s'.current in s'.manifests <==> Harmless(s, FailOpen(i)))
            && (Inv(levels, s') <==> Harmless(s, FailOpen(i)))
  {
    hide Replay, Unnumbered, LoggedAbove, FilesBelow;
    assert LoggedAbove(s.manifests[s.current][..i], s.current) by {
      LoggedPrefix(s.manifests[s.current], i, s.current);
    }
    ReplayNumber(levels, s.families, s.manifests[s.current][..i], s.current);
  }

  lemma LoggedPrefix(rs: seq<EditLog>, i: nat, n: int)
    requires LoggedAbove(rs, n) && i <= |rs|
    ensures LoggedAbove(rs[..i], n)
  {
  }

  lemma RunSnoc(levels: nat, s: State, ops: seq<Op>, op: Op)
    ensures Run(levels, s, ops + [op]) == Step(levels, Run(levels, s, ops), op)
  {
    hide Step;
    assert (ops + [op])[..|ops|] == ops;
  }

  /** The store opened again, before it removes the first manifest. */
  function OpenedAgain(): (s: State)
  {
    State({}, map[1 := SnapshotRecords([], map[], 2), 2 := SnapshotRecords([], map[], 3)], 2,
          Opened(Memory(map[], 2, 3)), map[])
  }

  lemma OpenAgain(levels: nat)
    ensures Run(levels, Init(), [Crash, ReadManifest, WriteManifest([], map[]), SwitchCurrent]) == OpenedAgain()
  {
    hide Run, Replay, SnapshotRecords;
    var none: map<int, Version> := map[];
    SnapshotReplays(levels, [], map[], none, 2);
    assert none.Keys == {};
    RunNothing(levels);
    assert [] + [Crash] == [Crash] && [Crash] + [ReadManifest] == [Crash, ReadManifest];
    RunSnoc(levels, Init(), [], Crash);
    RunSnoc(levels, Init(), [Crash], ReadManifest);
    var s2 := Run(levels, Init(), [Crash, ReadManifest]);
    assert s2 == Init().(phase := Replayed(Memory(none, 2, 3)));
    RunSnoc(levels, Init(), [Crash, ReadManifest], WriteManifest([], map[]));
    RunSnoc(levels, Init(), [Crash, ReadManifest] + [WriteManifest([], map[])], SwitchCurrent);
    assert [Crash, ReadManifest] + [WriteManifest([], map[])] + [SwitchCurrent]
        == [Crash, ReadManifest, WriteManifest([], map[]), SwitchCurrent];
  }

  /** A store that is opened again and then fails to open before the first record has lost its manifest. */
  lemma ManifestLost(levels: nat)
    ensures var s := Run(levels, Init(), [Crash, ReadManifest, WriteManifest([], map[]), SwitchCurrent, DeleteManifests, Crash, FailOpen(0)]);
            s.current == 2 && s.manifests == map[]
  {
    hide Run, Replay, SnapshotRecords;
    var a := [Crash, ReadManifest, WriteManifest([], map[]), SwitchCurrent];
    OpenAgain(levels);
    RunSnoc(levels, Init(), a, DeleteManifests);
    var s5 := Run(levels, Init(), a + [DeleteManifests]);
    assert s5.manifests == KeepOnly(OpenedAgain().manifests, 2) && s5.current == 2;
    RunSnoc(levels, Init(), a + [DeleteManifests], Crash);
    RunSnoc(levels, Init(), a + [DeleteManifests] + [Crash], FailOpen(0));
    assert a + [DeleteManifests] + [Crash] + [FailOpen(0)]
        == [Crash, ReadManifest, WriteManifest([], map[]), SwitchCurrent, DeleteManifests, Crash, FailOpen(0)];
    var s6 := Run(levels, Init(), a + [DeleteManifests] + [Crash]);
    assert s6 == s5.(phase := Down) && 2 in s6.manifests;
    assert s6.manifests[2][..0] == [];
    ReplayEmpty(levels, s6.families);
    assert KeepOnly(s6.manifests, 1) == map[];
  }

  lemma RunNothing(levels: nat)
    ensures Run(levels, Init(), []) == Init()
  {
  }

  lemma ReplayEmpty(levels: nat, ids: set<int>)
    ensures Replay(levels, ids, []) == Some(Start(levels, ids))
  {
  }
}
