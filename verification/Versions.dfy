/**
 Version metadata of `kv/version`: the table files of each level, the edit logs
 that change them, and the pick of a level-0 compaction.
 */
module Versions {
  import opened Framing
  import opened Options

  /** The files of each level, by number; the length is the number of levels. */
  type Version = seq<map<int, FileMeta>>

  function Empty(levels: nat): (v: Version)
    ensures |v| == levels && forall l :: 0 <= l < levels ==> v[l] == map[]
  {
    seq(levels, _ => map[])
  }

  /** A level the version does not have is ignored. */
  function AddFile(v: Version, level: int, f: FileMeta): (v': Version)
    ensures |v'| == |v|
  {
    if 0 <= level < |v| then v[level := v[level][f.number := f]] else v
  }

  function DeleteFile(v: Version, level: int, n: int): (v': Version)
    ensures |v'| == |v|
  {
    if 0 <= level < |v| then v[level := v[level] - {n}] else v
  }

  function Apply(v: Version, log: Log): (v': Version)
    ensures |v'| == |v|
  {
    match log
    case NewFile(level, f) => AddFile(v, level, f)
    case DeleteFile(level, n) => DeleteFile(v, level, n)
    case NextFileNumber(_) => v
  }

  function ApplyAll(v: Version, logs: seq<Log>): (v': Version)
    ensures |v'| == |v|
  {
    if |logs| == 0 then v else Apply(ApplyAll(v, logs[..|logs| - 1]), logs[|logs| - 1])
  }

  lemma {:induction false} ApplyConcat(v: Version, a: seq<Log>, b: seq<Log>)
    ensures ApplyAll(v, a + b) == ApplyAll(ApplyAll(v, a), b)
    decreases |b|
  {
    hide Apply;
    if |b| == 0 {
      assert a + b == a;
    } else {
      var n := |b| - 1;
      assert (a + b)[..|a| + n] == a + b[..n];
      ApplyConcat(v, a, b[..n]);
    }
  }

  // ----- the logs of a compaction -----

  ghost function Numbers(fs: seq<FileMeta>): (ns: set<int>)
    ensures forall n :: n in ns <==> exists i :: 0 <= i < |fs| && fs[i].number == n
  {
    set i | 0 <= i < |fs| :: fs[i].number
  }

  function DeleteLogs(level: int, fs: seq<FileMeta>): (logs: seq<Log>)
    ensures |logs| == |fs|
  {
    seq(|fs|, i requires 0 <= i < |fs| => Log.DeleteFile(level, fs[i].number))
  }

  function NewLogs(level: int, fs: seq<FileMeta>): (logs: seq<Log>)
    ensures |logs| == |fs|
  {
    seq(|fs|, i requires 0 <= i < |fs| => NewFile(level, fs[i]))
  }

  lemma {:induction false} ApplyDeletes(v: Version, level: nat, fs: seq<FileMeta>)
    requires level < |v|
    ensures ApplyAll(v, DeleteLogs(level, fs)) == v[level := v[level] - Numbers(fs)]
    decreases |fs|
  {
    if |fs| == 0 {
      assert v[level] - Numbers(fs) == v[level];
      assert v[level := v[level]] == v;
    } else {
      var n := |fs| - 1;
      ApplyDeletes(v, level, fs[..n]);
      assert DeleteLogs(level, fs)[..n] == DeleteLogs(level, fs[..n]);
      assert v[level] - Numbers(fs[..n]) - {fs[n].number} == v[level] - Numbers(fs) by {
        NumbersSnoc(fs);
      }
    }
  }

  lemma NumbersSnoc(fs: seq<FileMeta>)
    requires |fs| > 0
    ensures Numbers(fs) == Numbers(fs[..|fs| - 1]) + {fs[|fs| - 1].number}
  {
    var n := |fs| - 1;
    forall x | x in Numbers(fs)
      ensures x in Numbers(fs[..n]) + {fs[n].number}
    {
      var i :| 0 <= i < |fs| && fs[i].number == x;
      if i < n {
        assert fs[..n][i].number == x;
      }
    }
    forall x | x in Numbers(fs[..n])
      ensures x in Numbers(fs)
    {
      var i :| 0 <= i < n && fs[..n][i].number == x;
      assert fs[i].number == x;
    }
  }

  /** The files as a level. */
  function AsLevel(fs: seq<FileMeta>): (m: map<int, FileMeta>)
  {
    if |fs| == 0 then map[] else AsLevel(fs[..|fs| - 1])[fs[|fs| - 1].number := fs[|fs| - 1]]
  }

  ghost predicate DistinctNumbers(fs: seq<FileMeta>) {
    forall i, j :: 0 <= i < j < |fs| ==> fs[i].number != fs[j].number
  }

  lemma IndexOf(fs: seq<FileMeta>, n: int) returns (i: nat)
    requires n in Numbers(fs)
    ensures i < |fs| && fs[i].number == n
  {
    i :| i < |fs| && fs[i].number == n;
  }

  lemma {:induction false} AsLevelKeys(fs: seq<FileMeta>)
    ensures AsLevel(fs).Keys == Numbers(fs)
    decreases |fs|
  {
    if |fs| > 0 {
      AsLevelKeys(fs[..|fs| - 1]);
      NumbersSnoc(fs);
    }
  }

  lemma {:induction false} AsLevelAt(fs: seq<FileMeta>)
    requires DistinctNumbers(fs)
    ensures AsLevel(fs).Keys == Numbers(fs)
    ensures forall i :: 0 <= i < |fs| ==> fs[i].number in AsLevel(fs) && AsLevel(fs)[fs[i].number] == fs[i]
    decreases |fs|
  {
    AsLevelKeys(fs);
    hide Numbers;
    if |fs| > 0 {
      var n := |fs| - 1;
      AsLevelAt(fs[..n]);
      forall i | 0 <= i < |fs|
        ensures fs[i].number in AsLevel(fs) && AsLevel(fs)[fs[i].number] == fs[i]
      {
        if i < n {
          assert fs[..n][i] == fs[i];
        }
      }
    }
  }

  lemma {:induction false} ApplyNews(v: Version, level: nat, fs: seq<FileMeta>)
    requires level < |v|
    ensures ApplyAll(v, NewLogs(level, fs)) == v[level := v[level] + AsLevel(fs)]
    decreases |fs|
  {
    if |fs| == 0 {
      assert v[level] + AsLevel(fs) == v[level];
      assert v[level := v[level]] == v;
    } else {
      var n := |fs| - 1;
      ApplyNews(v, level, fs[..n]);
      assert NewLogs(level, fs)[..n] == NewLogs(level, fs[..n]);
      assert (v[level] + AsLevel(fs[..n]))[fs[n].number := fs[n]] == v[level] + AsLevel(fs);
    }
  }

  /** `installCompactionResults`: the inputs of both levels go, the outputs come to the upper level. */
  function CompactionLogs(low: seq<FileMeta>, up: seq<FileMeta>, outputs: seq<FileMeta>): (logs: seq<Log>)
  {
    DeleteLogs(0, low) + DeleteLogs(1, up) + NewLogs(1, outputs)
  }

  /** With two levels or more, the outputs replace the inputs. */
  lemma ApplyCompaction(v: Version, low: seq<FileMeta>, up: seq<FileMeta>, outputs: seq<FileMeta>)
    requires |v| >= 2
    ensures ApplyAll(v, CompactionLogs(low, up, outputs))
         == v[0 := v[0] - Numbers(low)][1 := v[1] - Numbers(up) + AsLevel(outputs)]
  {
    hide Numbers, AsLevel, DeleteLogs, NewLogs, ApplyAll;
    ApplyConcat(v, DeleteLogs(0, low) + DeleteLogs(1, up), NewLogs(1, outputs));
    ApplyConcat(v, DeleteLogs(0, low), DeleteLogs(1, up));
    ApplyDeletes(v, 0, low);
    var a := v[0 := v[0] - Numbers(low)];
    ApplyDeletes(a, 1, up);
    ApplyNews(a[1 := a[1] - Numbers(up)], 1, outputs);
  }

  /** A log for a level that does not exist changes nothing. */
  lemma {:induction false} IgnoredLogs(v: Version, logs: seq<Log>)
    requires forall i :: 0 <= i < |logs| ==> !logs[i].NextFileNumber? ==> logs[i].level >= |v|
    ensures ApplyAll(v, logs) == v
    decreases |logs|
  {
    if |logs| > 0 {
      IgnoredLogs(v, logs[..|logs| - 1]);
    }
  }

  /** With one level only the deletions happen: the outputs have nowhere to go. */
  lemma OneLevelCompaction(v: Version, low: seq<FileMeta>, up: seq<FileMeta>, outputs: seq<FileMeta>)
    requires |v| == 1
    ensures ApplyAll(v, CompactionLogs(low, up, outputs)) == [v[0] - Numbers(low)]
  {
    hide Numbers;
    ApplyConcat(v, DeleteLogs(0, low) + DeleteLogs(1, up), NewLogs(1, outputs));
    ApplyConcat(v, DeleteLogs(0, low), DeleteLogs(1, up));
    ApplyDeletes(v, 0, low);
    var a := v[0 := v[0] - Numbers(low)];
    IgnoredLogs(a, DeleteLogs(1, up));
    IgnoredLogs(a, NewLogs(1, outputs));
  }

  // ----- listing and picking files -----

  /** `fs` lists exactly the files of the level, each once. */
  ghost predicate Lists(fs: seq<FileMeta>, m: map<int, FileMeta>) {
    && (forall i, j :: 0 <= i < j < |fs| ==> fs[i].number != fs[j].number)
    && (forall i :: 0 <= i < |fs| ==> fs[i].number in m && m[fs[i].number] == fs[i])
    && Numbers(fs) == m.Keys
  }

  /** Every file is stored under its own number. */
  ghost predicate Keyed(v: Version) {
    forall l, n :: 0 <= l < |v| && n in v[l] ==> v[l][n].number == n
  }

  lemma ListsSnoc(fs: seq<FileMeta>, m: map<int, FileMeta>, f: FileMeta)
    requires Lists(fs, m) && f.number !in m
    ensures Lists(fs + [f], m[f.number := f])
  {
    var fs' := fs + [f];
    assert fs'[..|fs|] == fs;
    NumbersSnoc(fs');
    forall i, j | 0 <= i < j < |fs'|
      ensures fs'[i].number != fs'[j].number
    {
      assert fs[i].number in m;
    }
  }

  /** `getFiles`: the map's values, in no particular order. */
  method GetFiles(v: Version, level: int) returns (fs: seq<FileMeta>)
    requires Keyed(v)
    ensures Lists(fs, LevelOf(v, level))
    ensures forall f :: f in fs <==> HasFile(v, level, f)
    ensures forall i, j :: 0 <= i < j < |fs| ==> fs[i].number != fs[j].number
  {
    if level < 0 || level >= |v| {
      NoFiles();
      return [];
    }
    fs := ListFiles(v[level]);
    ListedAre(fs, v[level]);
  }

  /** The file is in that level, under its own number. */
  predicate HasFile(v: Version, level: int, f: FileMeta) {
    0 <= level < |v| && f.number in v[level] && v[level][f.number] == f
  }

  lemma ListedAre(fs: seq<FileMeta>, m: map<int, FileMeta>)
    requires Lists(fs, m)
    ensures forall f :: f in fs <==> f.number in m && m[f.number] == f
  {
    forall f: FileMeta | f.number in m && m[f.number] == f
      ensures f in fs
    {
      assert f.number in Numbers(fs);
    }
  }

  method ListFiles(m: map<int, FileMeta>) returns (fs: seq<FileMeta>)
    requires forall n :: n in m ==> m[n].number == n
    ensures Lists(fs, m)
  {
    fs := [];
    ghost var done: map<int, FileMeta> := map[];
    NoFiles();
    var todo := m.Keys;
    while |todo| > 0
      invariant todo <= m.Keys && done.Keys == m.Keys - todo && Lists(fs, done)
      invariant forall n :: n in done ==> done[n] == m[n]
      decreases |todo|
    {
      SomeNumber(todo);
      var n :| n in todo;
      hide Lists;
      ListsSnoc(fs, done, m[n]);
      fs := fs + [m[n]];
      done := done[n := m[n]];
      todo := todo - {n};
    }
    assert done == m;
  }

  lemma SomeNumber(ns: set<int>)
    ensures ns == {} || exists n :: n in ns
  {
    if forall n :: n !in ns {
      assert ns == {};
    }
  }

  lemma NoFiles()
    ensures Lists([], map[])
  {
  }

  /** The files of a level that satisfy `p`. */
  function Where(m: map<int, FileMeta>, p: FileMeta -> bool): (m': map<int, FileMeta>)
  {
    map n | n in m && p(m[n]) :: m[n]
  }

  /** Keeps the listed files that satisfy `p`, as the range loops over `getFiles` do. */
  method Select(fs: seq<FileMeta>, p: FileMeta -> bool, ghost m: map<int, FileMeta>) returns (out: seq<FileMeta>)
    requires Lists(fs, m)
    ensures Lists(out, Where(m, p))
  {
    out := [];
    ghost var seen: map<int, FileMeta> := map[];
    NoFiles();
    hide Lists, Where, Numbers;
    assert Numbers(fs[..0]) == {} by { NoNumbers(fs); }
    assert Where(seen, p) == map[] by { NoWhere(p); }
    for i := 0 to |fs|
      invariant seen.Keys == Numbers(fs[..i])
      invariant forall n :: n in seen ==> n in m && seen[n] == m[n]
      invariant Lists(out, Where(seen, p))
    {
      ListedAt(fs, m, i);
      WhereSnoc(seen, fs[i], p);
      if p(fs[i]) {
        ListsSnoc(out, Where(seen, p), fs[i]);
        out := out + [fs[i]];
      }
      seen := seen[fs[i].number := fs[i]];
    }
    AllListed(fs, m);
    assert seen == m;
  }

  lemma WhereSnoc(seen: map<int, FileMeta>, f: FileMeta, p: FileMeta -> bool)
    requires f.number !in seen
    ensures f.number !in Where(seen, p)
    ensures Where(seen[f.number := f], p) == if p(f) then Where(seen, p)[f.number := f] else Where(seen, p)
  {
  }

  lemma AllListed(fs: seq<FileMeta>, m: map<int, FileMeta>)
    requires Lists(fs, m)
    ensures Numbers(fs[..|fs|]) == m.Keys
  {
    assert fs[..|fs|] == fs;
  }

  lemma NoNumbers(fs: seq<FileMeta>)
    ensures Numbers(fs[..0]) == {}
  {
  }

  lemma NoWhere(p: FileMeta -> bool)
    ensures Where(map[], p) == map[]
  {
  }

  lemma ListedAt(fs: seq<FileMeta>, m: map<int, FileMeta>, i: nat)
    requires Lists(fs, m) && i < |fs|
    ensures fs[i].number in m && m[fs[i].number] == fs[i] && fs[i].number !in Numbers(fs[..i])
    ensures Numbers(fs[..i + 1]) == Numbers(fs[..i]) + {fs[i].number}
  {
    NumbersSnoc(fs[..i + 1]);
    assert fs[..i + 1][..i] == fs[..i];
  }

  predicate Overlaps(f: FileMeta, lo: nat, hi: nat) {
    !(f.maxKey < lo || f.minKey > hi)
  }

  /** Two proper key ranges overlap if and only if some key lies in both. */
  lemma OverlapsIff(f: FileMeta, lo: nat, hi: nat)
    requires f.minKey <= f.maxKey && lo <= hi
    ensures Overlaps(f, lo, hi) <==> exists k: nat :: Covers(f, k) && lo <= k <= hi
  {
    if Overlaps(f, lo, hi) {
      var k := if f.minKey < lo then lo else f.minKey;
      assert Covers(f, k) && lo <= k <= hi;
    }
  }

  function LevelOf(v: Version, level: int): (m: map<int, FileMeta>)
  {
    if 0 <= level < |v| then v[level] else map[]
  }

  /** `getOverlappingInputs`. */
  method GetOverlappingInputs(v: Version, level: int, lo: nat, hi: nat) returns (fs: seq<FileMeta>)
    requires Keyed(v)
    ensures Lists(fs, Where(LevelOf(v, level), f => Overlaps(f, lo, hi)))
    ensures forall f :: f in fs <==> HasFile(v, level, f) && lo <= f.maxKey && f.minKey <= hi
  {
    var files := GetFiles(v, level);
    fs := Select(files, f => Overlaps(f, lo, hi), LevelOf(v, level));
    ListedAre(fs, Where(LevelOf(v, level), f => Overlaps(f, lo, hi)));
  }

  /** The upper files whose range meets that of some lower file. */
  ghost function Overlapping(up: map<int, FileMeta>, low: set<FileMeta>): (m: map<int, FileMeta>)
  {
    map n | n in up && (exists f :: f in low && Overlaps(up[n], f.minKey, f.maxKey)) :: up[n]
  }

  datatype Compaction = Compaction(low: seq<FileMeta>, up: seq<FileMeta>) {
    /** `IsTrivialMove`. */
    predicate TrivialMove() {
      |low| == 1 && |up| == 0
    }
  }

  /**
   `PickL0Compaction`: all of level 0, and of level 1 exactly the files that meet
   the range of some level-0 file.
   */
  method PickL0Compaction(v: Version, threshold: int) returns (c: Option<Compaction>)
    requires |v| > 0 && Keyed(v)
    ensures c == None <==> |v[0]| < threshold
    ensures c.Some? ==> Lists(c.value.low, v[0]) && Lists(c.value.up, Overlapping(LevelOf(v, 1), v[0].Values))
    ensures c.Some? ==>
              && (forall f :: f in c.value.low <==> HasFile(v, 0, f))
              && (forall i, j :: 0 <= i < j < |c.value.up| ==> c.value.up[i].number != c.value.up[j].number)
              && (forall f :: f in c.value.up <==> HasFile(v, 1, f) && MeetsSome(f, v[0]))
  {
    hide Lists;
    if |v[0]| < threshold {
      return None;
    }
    var low := GetFiles(v, 0);
    var picked := PickUp(v, low);
    ListedValues(low, v[0]);
    PickedKeyed(v, low, picked);
    var up := GetFiles([picked], 0);
    PickedAre(v, picked);
    c := Some(Compaction(low, up));
  }

  /** The two ranges leave no gap: neither file ends before the other begins. */
  predicate Meets(f: FileMeta, g: FileMeta) {
    g.minKey <= f.maxKey && f.minKey <= g.maxKey
  }

  /** Files with proper ranges meet if and only if some key lies in both. */
  lemma MeetsIff(f: FileMeta, g: FileMeta)
    requires f.minKey <= f.maxKey && g.minKey <= g.maxKey
    ensures Meets(f, g) <==> exists k: nat :: Covers(f, k) && Covers(g, k)
  {
    OverlapsIff(f, g.minKey, g.maxKey);
    if Meets(f, g) {
      var k: nat :| Covers(f, k) && g.minKey <= k <= g.maxKey;
      assert Covers(g, k);
    }
  }

  ghost predicate MeetsSome(f: FileMeta, low: map<int, FileMeta>) {
    exists n :: n in low && Meets(f, low[n])
  }

  lemma PickedAre(v: Version, picked: map<int, FileMeta>)
    requires |v| > 0 && picked == Overlapping(LevelOf(v, 1), v[0].Values)
    ensures forall f: FileMeta :: f.number in picked && picked[f.number] == f <==> HasFile(v, 1, f) && MeetsSome(f, v[0])
  {
    forall f: FileMeta
      ensures f.number in picked && picked[f.number] == f <==> HasFile(v, 1, f) && MeetsSome(f, v[0])
    {
      if HasFile(v, 1, f) && MeetsSome(f, v[0]) {
        var j :| j in v[0] && Meets(f, v[0][j]);
        assert v[0][j] in v[0].Values && Overlaps(f, v[0][j].minKey, v[0][j].maxKey);
      } else if f.number in picked && picked[f.number] == f {
        OverlapMeets(f, v[0]);
      }
    }
  }

  lemma OverlapMeets(f: FileMeta, low: map<int, FileMeta>)
    requires exists g :: g in low.Values && Overlaps(f, g.minKey, g.maxKey)
    ensures MeetsSome(f, low)
  {
    var g :| g in low.Values && Overlaps(f, g.minKey, g.maxKey);
    KeyOf(low, g);
    var j :| j in low && low[j] == g;
    assert Meets(f, low[j]);
  }

  lemma KeyOf(m: map<int, FileMeta>, f: FileMeta)
    ensures f !in m.Values || exists n :: n in m && m[n] == f
  {
    if forall n :: n in m ==> m[n] != f {
      assert f !in m.Values;
    }
  }

  const LOW_EXAMPLE := map[1 := FileMeta(1, 1, 10, 0), 2 := FileMeta(2, 1000, 1001, 0)]
  const UP_EXAMPLE := map[3 := FileMeta(3, 1, 5, 0), 4 := FileMeta(4, 100, 200, 0), 5 := FileMeta(5, 400, 500, 0)]

  lemma ExampleMeets(f: FileMeta)
    ensures f.number in UP_EXAMPLE && UP_EXAMPLE[f.number] == f && MeetsSome(f, LOW_EXAMPLE) <==> f == FileMeta(3, 1, 5, 0)
  {
    if f.number in UP_EXAMPLE && UP_EXAMPLE[f.number] == f && MeetsSome(f, LOW_EXAMPLE) {
      var j :| j in LOW_EXAMPLE && Meets(f, LOW_EXAMPLE[j]);
    } else if f == FileMeta(3, 1, 5, 0) {
      assert f == UP_EXAMPLE[3] && 1 in LOW_EXAMPLE && Meets(f, LOW_EXAMPLE[1]);
    }
  }

  /** Of the level-1 files 1~5, 100~200 and 400~500, the level-0 files 1~10 and 1000~1001 pick the first only. */
  method PickExample() returns (up: seq<FileMeta>)
    ensures up == [FileMeta(3, 1, 5, 0)]
  {
    hide MeetsSome, Lists, Overlapping;
    var v := [LOW_EXAMPLE, UP_EXAMPLE];
    assert |LOW_EXAMPLE| == 2 && Keyed(v) by { ExampleKeyed(); }
    var c := PickL0Compaction(v, 2);
    up := c.value.up;
    forall f
      ensures f in up <==> f == FileMeta(3, 1, 5, 0)
    {
      ExampleMeets(f);
    }
    OnlyOne(up, FileMeta(3, 1, 5, 0));
  }

  lemma ExampleKeyed()
    ensures |LOW_EXAMPLE| == 2 && Keyed([LOW_EXAMPLE, UP_EXAMPLE])
  {
    assert LOW_EXAMPLE.Keys == {1, 2};
  }

  lemma OnlyOne(fs: seq<FileMeta>, f: FileMeta)
    requires (forall g :: g in fs <==> g == f) && forall i, j :: 0 <= i < j < |fs| ==> fs[i].number != fs[j].number
    ensures fs == [f]
  {
    assert f in fs;
    forall i | 0 <= i < |fs|
      ensures i == 0 && fs[i] == f
    {
      assert fs[i] in fs && fs[0] in fs;
    }
    assert fs[|fs| - 1] == f;
  }

  function Elements(fs: seq<FileMeta>): (s: set<FileMeta>)
  {
    set f | f in fs
  }

  lemma ListedValues(fs: seq<FileMeta>, m: map<int, FileMeta>)
    requires Lists(fs, m)
    ensures Elements(fs) == m.Values
  {
    forall f | f in m.Values
      ensures f in fs
    {
      var n :| n in m && m[n] == f;
      assert n in Numbers(fs);
    }
  }

  lemma PickedKeyed(v: Version, low: seq<FileMeta>, picked: map<int, FileMeta>)
    requires Keyed(v) && picked == Overlapping(LevelOf(v, 1), Elements(low))
    ensures Keyed([picked])
  {
  }

  /** The loop that gathers the level-1 inputs, by number. */
  method PickUp(v: Version, low: seq<FileMeta>) returns (picked: map<int, FileMeta>)
    requires Keyed(v)
    ensures picked == Overlapping(LevelOf(v, 1), Elements(low))
  {
    picked := map[];
    assert picked == Overlapping(LevelOf(v, 1), Elements(low[..0]));
    hide *;
    for i := 0 to |low|
      invariant picked == Overlapping(LevelOf(v, 1), Elements(low[..i]))
    {
      var ups := GetOverlappingInputs(v, 1, low[i].minKey, low[i].maxKey);
      OverlappingSnoc(LevelOf(v, 1), low, i);
      picked := PutAll(picked, ups, Where(LevelOf(v, 1), f => Overlaps(f, low[i].minKey, low[i].maxKey)));
    }
    assert low[..|low|] == low;
  }

  lemma OverlappingSnoc(up: map<int, FileMeta>, low: seq<FileMeta>, i: nat)
    requires i < |low|
    ensures Overlapping(up, Elements(low[..i + 1]))
         == Overlapping(up, Elements(low[..i])) + Where(up, f => Overlaps(f, low[i].minKey, low[i].maxKey))
  {
    assert low[..i + 1] == low[..i] + [low[i]];
    assert Elements(low[..i + 1]) == Elements(low[..i]) + {low[i]};
  }

  lemma PutOne(a: map<int, FileMeta>, b: map<int, FileMeta>, f: FileMeta)
    ensures (a + b)[f.number := f] == a + b[f.number := f]
  {
  }

  lemma ListedLevel(fs: seq<FileMeta>, m: map<int, FileMeta>)
    requires Lists(fs, m)
    ensures AsLevel(fs) == m
  {
    hide Numbers, AsLevel;
    AsLevelAt(fs);
    forall n | n in m
      ensures AsLevel(fs)[n] == m[n]
    {
      var i := IndexOf(fs, n);
    }
  }

  method PutAll(picked: map<int, FileMeta>, fs: seq<FileMeta>, ghost m: map<int, FileMeta>)
    returns (out: map<int, FileMeta>)
    requires Lists(fs, m)
    ensures out == picked + m
  {
    out := picked;
    NonePut(picked, fs);
    hide *;
    for i := 0 to |fs|
      invariant out == picked + AsLevel(fs[..i])
    {
      LevelSnoc(fs, i);
      PutOne(picked, AsLevel(fs[..i]), fs[i]);
      out := out[fs[i].number := fs[i]];
    }
    assert fs[..|fs|] == fs;
    ListedLevel(fs, m);
  }

  lemma NonePut(picked: map<int, FileMeta>, fs: seq<FileMeta>)
    ensures picked + AsLevel(fs[..0]) == picked
  {
  }

  lemma LevelSnoc(fs: seq<FileMeta>, i: nat)
    requires i < |fs|
    ensures AsLevel(fs[..i + 1]) == AsLevel(fs[..i])[fs[i].number := fs[i]]
  {
    assert fs[..i + 1][..i] == fs[..i];
  }

  predicate Covers(f: FileMeta, key: nat) {
    key >= f.minKey && key <= f.maxKey
  }

  function Joined(parts: seq<seq<FileMeta>>): (fs: seq<FileMeta>)
  {
    if |parts| == 0 then [] else parts[0] + Joined(parts[1..])
  }

  lemma {:induction false} JoinedSnoc(parts: seq<seq<FileMeta>>, last: seq<FileMeta>)
    ensures Joined(parts + [last]) == Joined(parts) + last
  {
    if |parts| > 0 {
      JoinedSnoc(parts[1..], last);
      assert (parts + [last])[1..] == parts[1..] + [last];
    }
  }

  /** A file of the version whose range covers the key. */
  ghost predicate IsFound(f: FileMeta, v: Version, key: nat) {
    Covers(f, key) && exists l :: 0 <= l < |v| && f.number in v[l] && v[l][f.number] == f
  }

  lemma {:induction false} JoinedFound(v: Version, key: nat, parts: seq<seq<FileMeta>>)
    requires |parts| == |v| && forall l :: 0 <= l < |v| ==> Lists(parts[l], Where(v[l], f => Covers(f, key)))
    ensures forall f :: f in Joined(parts) <==> IsFound(f, v, key)
    decreases |v|
  {
    if |v| > 0 {
      JoinedFound(v[1..], key, parts[1..]);
      forall f
        ensures f in Joined(parts) <==> IsFound(f, v, key)
      {
        FoundFirst(v, key, parts[0], f);
        assert IsFound(f, v, key) <==> IsFound(f, v[..1], key) || IsFound(f, v[1..], key) by { FoundSplit(v, key, f); }
      }
    }
  }

  lemma FoundFirst(v: Version, key: nat, fs: seq<FileMeta>, f: FileMeta)
    requires |v| > 0 && Lists(fs, Where(v[0], f => Covers(f, key)))
    ensures f in fs <==> IsFound(f, v[..1], key)
  {
    var m := Where(v[0], f => Covers(f, key));
    if f in fs {
      assert f.number in m && v[..1][0] == v[0];
    }
    if IsFound(f, v[..1], key) {
      assert f.number in m && m[f.number] == f;
      var i := IndexOf(fs, f.number);
      assert fs[i] == f;
    }
  }

  lemma FoundSplit(v: Version, key: nat, f: FileMeta)
    requires |v| > 0
    ensures IsFound(f, v, key) <==> IsFound(f, v[..1], key) || IsFound(f, v[1..], key)
  {
    if IsFound(f, v, key) {
      var l :| 0 <= l < |v| && f.number in v[l] && v[l][f.number] == f;
      if l == 0 {
        assert f.number in v[..1][0];
      } else {
        assert f.number in v[1..][l - 1];
      }
    }
    if IsFound(f, v[1..], key) {
      var l :| 0 <= l < |v[1..]| && f.number in v[1..][l] && v[1..][l][f.number] == f;
      assert f.number in v[l + 1];
    }
    if IsFound(f, v[..1], key) {
      assert f.number in v[0];
    }
  }

  /** `findFiles`: level by level, the files whose range covers the key. */
  method FindFiles(v: Version, key: nat) returns (fs: seq<FileMeta>, ghost parts: seq<seq<FileMeta>>)
    requires Keyed(v)
    ensures forall f :: f in fs <==> IsFound(f, v, key)
    ensures forall f :: f in fs <==> f.minKey <= key <= f.maxKey && exists l :: HasFile(v, l, f)
    ensures |parts| == |v| && fs == Joined(parts)
    ensures forall l :: 0 <= l < |v| ==> Lists(parts[l], Where(v[l], f => Covers(f, key)))
  {
    hide Lists, IsFound;
    fs, parts := [], [];
    for level := 0 to |v|
      invariant |parts| == level && fs == Joined(parts)
      invariant forall l :: 0 <= l < level ==> Lists(parts[l], Where(v[l], f => Covers(f, key)))
    {
      var files := GetFiles(v, level);
      var found := Select(files, f => Covers(f, key), v[level]);
      fs := fs + found;
      JoinedSnoc(parts, found);
      parts := parts + [found];
    }
    JoinedFound(v, key, parts);
    FoundIs(v, key);
  }

  lemma FoundIs(v: Version, key: nat)
    ensures forall f :: IsFound(f, v, key) <==> f.minKey <= key <= f.maxKey && exists l :: HasFile(v, l, f)
  {
    forall f: FileMeta
      ensures (exists l :: HasFile(v, l, f)) <==> exists l :: 0 <= l < |v| && f.number in v[l] && v[l][f.number] == f
    {
      assert forall l :: HasFile(v, l, f) <==> 0 <= l < |v| && f.number in v[l] && v[l][f.number] == f;
    }
  }
}
