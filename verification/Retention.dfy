/**
 Which table files may be removed (`kv/version/family_version.go`,
 `kv/version/snapshot.go`, `kv/family.go`).  Versions are kept while current or
 referenced by a snapshot; a clean-up pass lists the directory, then collects pending
 outputs, then the files of active versions, then removes the rest.  The steps of
 the pass, of flushers, compactions and readers interleave freely.
 */
module Retention {
  /** A clean-up pass: the listing, then what is known to be live. */
  datatype Sweep =
    | NoSweep
    | Listed(files: set<int>)
    | Collected(files: set<int>, live: set<int>)
    | Ready(files: set<int>, live: set<int>)

  /**
   `active` gives the file numbers of each active version, `refs` the reference
   counts, `snapshots` the version of each open snapshot, `unregistered` the files
   created but not yet entered in `pending`.
   */
  datatype State = State(
    active: map<int, set<int>>,
    refs: map<int, int>,
    current: int,
    nextVersion: int,
    snapshots: map<int, int>,
    nextSnapshot: int,
    nextFile: int,
    disk: set<int>,
    unregistered: set<int>,
    pending: set<int>,
    sweep: Sweep)

  function Init(): (s: State)
  {
    State(map[0 := {}], map[0 := 0], 0, 1, map[], 0, 2, {}, {}, {}, NoSweep)
  }

  datatype Op =
    | Create  // newTableBuilder
    | Register(n: int)  // addPendingOutput
    | Commit(del: set<int>, add: set<int>)  // CommitFamilyEditLog
    | Unregister(n: int)  // removePendingOutput
    | OpenSnapshot  // GetSnapshot
    | CloseSnapshot(h: int)
    | List | Collect | Mark | Remove(n: int) | Finish  // deleteObsoleteFiles

  // ----- versions and snapshots -----

  function Ref(s: State, id: int): (n: int)
  {
    if id in s.refs then s.refs[id] else 0
  }

  /** `removeVersion`: never the current one. */
  function Removed(s: State, id: int): (s': State)
  {
    if id == s.current then s else s.(active := s.active - {id})
  }

  /** `release`. */
  function Released(s: State, id: int): (s': State)
  {
    var s1 := s.(refs := s.refs[id := Ref(s, id) - 1]);
    if Ref(s1, id) == 0 then Removed(s1, id) else s1
  }

  /** `appendVersion`. */
  function Appended(s: State, files: set<int>): (s': State)
  {
    var id, previous := s.nextVersion, s.current;
    var s1 := s.(active := s.active[id := files], refs := s.refs[id := 0], current := id, nextVersion := id + 1);
    if Ref(s1, previous) == 0 then Removed(s1, previous) else s1
  }

  /** `CommitFamilyEditLog`: holds a reference on the version it replaces while it works. */
  function CommitEdit(s: State, del: set<int>, add: set<int>): (s': State)
  {
    var id := s.current;
    var s1 := s.(refs := s.refs[id := Ref(s, id) + 1]);
    var files := if id in s1.active then s1.active[id] else {};
    Released(Appended(s1, files - del + add), id)
  }

  /** The files of all active versions. */
  function ActiveFiles(s: State): (fs: set<int>)
  {
    set id, f | id in s.active && f in s.active[id] :: f
  }

  /** What must stay on disk. */
  function Needed(s: State): (fs: set<int>)
  {
    ActiveFiles(s) + s.pending + s.unregistered
  }

  predicate Enabled(s: State, op: Op)
  {
    match op
    case Create => true
    case Register(n) => n in s.unregistered
    case Commit(del, add) => s.current in s.active && add <= s.pending + s.active[s.current]
    case Unregister(n) => n in s.pending
    case OpenSnapshot => true
    case CloseSnapshot(h) => h in s.snapshots
    case List => s.sweep.NoSweep?
    case Collect => s.sweep.Listed?
    case Mark => s.sweep.Collected?
    case Remove(n) => s.sweep.Ready? && n in s.sweep.files && n !in s.sweep.live
    case Finish => s.sweep.Ready?
  }

  function Step(s: State, op: Op): (s': State)
  {
    if !Enabled(s, op) then s
    else
      match op
      case Create =>
        s.(disk := s.disk + {s.nextFile}, unregistered := s.unregistered + {s.nextFile}, nextFile := s.nextFile + 1)
      case Register(n) => s.(pending := s.pending + {n}, unregistered := s.unregistered - {n})
      case Commit(del, add) => CommitEdit(s, del, add)
      case Unregister(n) => s.(pending := s.pending - {n})
      case OpenSnapshot =>
        s.(refs := s.refs[s.current := Ref(s, s.current) + 1],
           snapshots := s.snapshots[s.nextSnapshot := s.current], nextSnapshot := s.nextSnapshot + 1)
      case CloseSnapshot(h) => Released(s, s.snapshots[h]).(snapshots := s.snapshots - {h})
      case List => s.(sweep := Listed(s.disk))
      case Collect => s.(sweep := Collected(s.sweep.files, s.pending))
      case Mark => s.(sweep := Ready(s.sweep.files, s.sweep.live + ActiveFiles(s)))
      case Remove(n) => s.(disk := s.disk - {n})
      case Finish => s.(sweep := NoSweep)
  }

  function Run(s: State, ops: seq<Op>): (s': State)
  {
    if |ops| == 0 then s else Step(Run(s, ops[..|ops| - 1]), ops[|ops| - 1])
  }

  // ----- reference counts -----

  function Holders(s: State, id: int): (hs: set<int>)
  {
    set h | h in s.snapshots && s.snapshots[h] == id
  }

  /** A version is active exactly when it is current or some snapshot of it is open; counts are exact. */
  ghost predicate VersionsOk(s: State) {
    && s.current in s.active && s.current < s.nextVersion
    && (forall id :: id in s.active ==> id < s.nextVersion)
    && (forall h :: h in s.snapshots ==> h < s.nextSnapshot && s.snapshots[h] in s.active)
    && (forall id :: id in s.active ==> id in s.refs && s.refs[id] == |Holders(s, id)|)
    && (forall id :: id in s.active ==> id == s.current || s.refs[id] > 0)
    && (forall id :: id in s.refs && id !in s.active ==> s.refs[id] == 0)
  }

  /** Put together: exactly the current version and those with a positive count are active. */
  lemma ActiveIff(s: State, id: int)
    requires VersionsOk(s)
    ensures id in s.active <==> id == s.current || Ref(s, id) > 0
  {
  }

  lemma InitVersions()
    ensures VersionsOk(Init())
  {
    assert Holders(Init(), 0) == {};
  }

  /** Committing installs a version with a new id; the old one goes when no snapshot holds it. */
  lemma CommitShape(s: State, del: set<int>, add: set<int>)
    requires VersionsOk(s)
    ensures var s', files := CommitEdit(s, del, add), s.active[s.current] - del + add;
            && s'.current == s.nextVersion && s'.nextVersion == s.nextVersion + 1
            && s'.active == (if s.refs[s.current] > 0 then s.active else s.active - {s.current})[s.nextVersion := files]
            && s'.refs == s.refs[s.nextVersion := 0]
            && s' == s.(active := s'.active, refs := s'.refs, current := s'.current, nextVersion := s'.nextVersion)
  {
    var id := s.current;
    var r := s.refs[id];
    var s' := CommitEdit(s, del, add);
    var a := s.active[s.nextVersion := s.active[id] - del + add];
    assert s.refs[id := r + 1][s.nextVersion := 0][id := r] == s.refs[s.nextVersion := 0];
    assert r >= 0;
    assert a - {id} == (s.active - {id})[s.nextVersion := s.active[id] - del + add];
  }

  lemma CommitVersions(s: State, del: set<int>, add: set<int>)
    requires VersionsOk(s)
    ensures VersionsOk(CommitEdit(s, del, add))
  {
    hide CommitEdit;
    CommitShape(s, del, add);
    var s' := CommitEdit(s, del, add);
    assert forall h :: h in s.snapshots ==> s.snapshots[h] in s.active && s.snapshots[h] < s.nextVersion;
    assert Holders(s, s.nextVersion) == {};
    forall id | id in s'.active
      ensures id in s'.refs && s'.refs[id] == |Holders(s', id)|
    {
      assert Holders(s', id) == Holders(s, id);
    }
    forall h | h in s'.snapshots
      ensures s'.snapshots[h] in s'.active
    {
      if s.snapshots[h] == s.current {
        assert h in Holders(s, s.current);
      }
    }
  }

  lemma OpenVersions(s: State)
    requires VersionsOk(s)
    ensures VersionsOk(Step(s, OpenSnapshot))
  {
    var s' := Step(s, OpenSnapshot);
    assert s'.snapshots == s.snapshots[s.nextSnapshot := s.current] && s'.active == s.active;
    assert s'.refs == s.refs[s.current := s.refs[s.current] + 1];
    hide Step, Ref;
    assert s.nextSnapshot !in s.snapshots;
    forall id | id in s'.active
      ensures id in s'.refs && s'.refs[id] == |Holders(s', id)|
    {
      if id == s.current {
        assert Holders(s', id) == Holders(s, id) + {s.nextSnapshot};
      } else {
        assert Holders(s', id) == Holders(s, id);
      }
    }
  }

  lemma CloseShape(s: State, h: int)
    requires VersionsOk(s) && h in s.snapshots
    ensures var s', id := Step(s, CloseSnapshot(h)), s.snapshots[h];
            && s'.snapshots == s.snapshots - {h} && s'.refs == s.refs[id := s.refs[id] - 1]
            && s'.active == (if s.refs[id] == 1 && id != s.current then s.active - {id} else s.active)
            && s' == s.(active := s'.active, refs := s'.refs, snapshots := s'.snapshots)
  {
    hide Holders;
  }

  lemma CloseVersions(s: State, h: int)
    requires VersionsOk(s) && h in s.snapshots
    ensures VersionsOk(Step(s, CloseSnapshot(h)))
  {
    hide Step;
    var s' := Step(s, CloseSnapshot(h));
    var id := s.snapshots[h];
    CloseShape(s, h);
    assert Holders(s', id) == Holders(s, id) - {h};
    assert |Holders(s', id)| == |Holders(s, id)| - 1;
    forall x | x in s'.active
      ensures x in s'.refs && s'.refs[x] == |Holders(s', x)|
    {
      if x != id {
        assert Holders(s', x) == Holders(s, x);
      }
    }
    forall g | g in s'.snapshots
      ensures s'.snapshots[g] in s'.active
    {
      if s.snapshots[g] == id {
        assert g in Holders(s', id);
      }
    }
  }

  /** A version has a reference exactly when a snapshot of it is open. */
  lemma HeldIff(s: State, id: int)
    requires VersionsOk(s) && id in s.active
    ensures s.refs[id] > 0 <==> exists h :: h in s.snapshots && s.snapshots[h] == id
  {
    assert forall h :: h in s.snapshots && s.snapshots[h] == id <==> h in Holders(s, id);
    SomeOf(Holders(s, id));
  }

  /** A commit keeps every version but the one it replaces, and that one exactly when a snapshot holds it. */
  lemma CommitHeld(s: State, del: set<int>, add: set<int>)
    requires VersionsOk(s)
    ensures var s' := CommitEdit(s, del, add);
            && s'.snapshots == s.snapshots && s'.disk == s.disk && s'.pending == s.pending
            && s'.current in s'.active && s'.active[s'.current] == s.active[s.current] - del + add
            && (forall id :: id in s'.active && id != s'.current ==> id in s.active && s'.active[id] == s.active[id])
            && (forall id :: id in s.active ==>
                  (id in s'.active <==> id != s.current || exists h :: h in s.snapshots && s.snapshots[h] == id))
  {
    hide CommitEdit;
    CommitShape(s, del, add);
    HeldIff(s, s.current);
  }

  /** Closing a snapshot drops its version exactly when it is not current and no other snapshot holds it. */
  lemma CloseHeld(s: State, h: int)
    requires VersionsOk(s) && h in s.snapshots
    ensures var s' := Step(s, CloseSnapshot(h));
            forall id :: id in s'.active <==>
              id in s.active
              && (id == s.snapshots[h] && id != s.current ==> exists g :: g in s'.snapshots && s'.snapshots[g] == id)
  {
    hide Step;
    var s', id := Step(s, CloseSnapshot(h)), s.snapshots[h];
    CloseShape(s, h);
    CloseVersions(s, h);
    assert forall g :: g in s'.snapshots ==> s'.snapshots[g] in s'.active;
    if id in s'.active {
      HeldIff(s', id);
    }
  }

  // ----- what stays on disk -----

  ghost predicate FilesOk(s: State) {
    && Needed(s) <= s.disk && s.unregistered !! s.pending + ActiveFiles(s)
    && (forall f :: f in s.disk ==> f < s.nextFile)
  }

  /** What a pass knows at each stage. */
  ghost predicate SweepOk(s: State) {
    match s.sweep
    case NoSweep => true
    case Listed(files) => forall f :: f in files ==> f < s.nextFile
    case Collected(files, live) =>
      (forall f :: f in files ==> f < s.nextFile) && files !! s.unregistered && files * s.pending <= live
    case Ready(files, live) =>
      (forall f :: f in files ==> f < s.nextFile) && files !! s.unregistered && files * (s.pending + ActiveFiles(s)) <= live
  }

  ghost predicate Inv(s: State) {
    VersionsOk(s) && FilesOk(s) && SweepOk(s)
  }

  /** When a pass collects the pending outputs, no listed file is between creation and registration. */
  predicate Quiet(s: State, op: Op) {
    op == Collect && s.sweep.Listed? ==> s.sweep.files !! s.unregistered
  }

  ghost predicate QuietRun(s: State, ops: seq<Op>) {
    forall i :: 0 <= i < |ops| ==> Quiet(Run(s, ops[..i]), ops[i])
  }

  lemma CommitFiles(s: State, del: set<int>, add: set<int>)
    requires VersionsOk(s) && add <= s.pending + s.active[s.current]
    ensures ActiveFiles(CommitEdit(s, del, add)) <= ActiveFiles(s) + s.pending
  {
    hide CommitEdit;
    CommitShape(s, del, add);
    var s' := CommitEdit(s, del, add);
    forall f | f in ActiveFiles(s')
      ensures f in ActiveFiles(s) + s.pending
    {
      var id :| id in s'.active && f in s'.active[id];
      if id == s.nextVersion {
        if f !in s.pending {
          assert f in s.active[s.current];
        }
      } else {
        assert id in s.active && f in s.active[id];
      }
    }
  }

  lemma ReleaseFiles(s: State, id: int)
    ensures ActiveFiles(Released(s, id)) <= ActiveFiles(s)
  {
  }

  lemma SnapshotSteps(s: State, op: Op)
    requires Inv(s) && (op.OpenSnapshot? || op.CloseSnapshot?)
    ensures Inv(Step(s, op))
  {
    if op.CloseSnapshot? && op.h in s.snapshots {
      CloseVersions(s, op.h);
      ReleaseFiles(s, s.snapshots[op.h]);
      var s' := Step(s, op);
      assert ActiveFiles(s') <= ActiveFiles(s);
    } else if op.OpenSnapshot? {
      OpenVersions(s);
      assert ActiveFiles(Step(s, op)) == ActiveFiles(s);
    }
  }

  lemma CommitStep(s: State, del: set<int>, add: set<int>)
    requires Inv(s)
    ensures Inv(Step(s, Commit(del, add)))
  {
    if Enabled(s, Commit(del, add)) {
      hide CommitEdit;
      CommitVersions(s, del, add);
      CommitFiles(s, del, add);
      CommitShape(s, del, add);
      hide VersionsOk, ActiveFiles;
    }
  }

  /** Steps that leave versions and snapshots alone. */
  lemma OtherSteps(s: State, op: Op)
    requires Inv(s) && Quiet(s, op) && !op.OpenSnapshot? && !op.CloseSnapshot? && !op.Commit?
    ensures Inv(Step(s, op))
  {
    hide VersionsOk, ActiveFiles;
    SameVersions(s, Step(s, op));
  }

  lemma SameVersions(s: State, s': State)
    requires VersionsOk(s) && s'.active == s.active && s'.refs == s.refs && s'.current == s.current
    requires s'.nextVersion == s.nextVersion && s'.snapshots == s.snapshots && s'.nextSnapshot == s.nextSnapshot
    ensures VersionsOk(s') && ActiveFiles(s') == ActiveFiles(s)
  {
    assert forall id :: Holders(s', id) == Holders(s, id);
  }

  lemma StepKeeps(s: State, op: Op)
    requires Inv(s) && Quiet(s, op)
    ensures Inv(Step(s, op))
  {
    hide Step, Inv;
    match op
    case OpenSnapshot => SnapshotSteps(s, op);
    case CloseSnapshot(h) => SnapshotSteps(s, op);
    case Commit(del, add) => CommitStep(s, del, add);
    case _ => OtherSteps(s, op);
  }

  /** No step of a quiet run loses a needed file. */
  lemma {:induction false} RunKeeps(s: State, ops: seq<Op>)
    requires Inv(s) && QuietRun(s, ops)
    ensures Inv(Run(s, ops))
    decreases |ops|
  {
    hide Step, Inv;
    if |ops| > 0 {
      var n := |ops| - 1;
      assert QuietRun(s, ops[..n]) by { QuietPrefix(s, ops, n); }
      RunKeeps(s, ops[..n]);
      var s' := Run(s, ops[..n]);
      assert Quiet(s', ops[n]);
      StepKeeps(s', ops[n]);
    }
  }

  lemma QuietPrefix(s: State, ops: seq<Op>, n: nat)
    requires n <= |ops| && QuietRun(s, ops)
    ensures QuietRun(s, ops[..n])
  {
    hide Run;
    forall i | 0 <= i < n
      ensures Quiet(Run(s, ops[..n][..i]), ops[..n][i])
    {
      assert ops[..n][..i] == ops[..i];
    }
  }

  lemma InitInv()
    ensures Inv(Init())
  {
    InitVersions();
    assert ActiveFiles(Init()) == {};
  }

  /**
   Collecting the pending outputs is safe in every continuation exactly when no listed
   file is still unregistered: such a file is removed under its writer.
   */
  lemma CollectSafeIff(s: State)
    requires Inv(s) && s.sweep.Listed?
    ensures Quiet(s, Collect) <==>
            forall ops :: QuietRun(Step(s, Collect), ops) ==> Needed(Run(Step(s, Collect), ops)) <= Run(Step(s, Collect), ops).disk
  {
    var s1 := Step(s, Collect);
    if Quiet(s, Collect) {
      OtherSteps(s, Collect);
      forall ops | QuietRun(s1, ops)
        ensures Needed(Run(s1, ops)) <= Run(s1, ops).disk
      {
        RunKeeps(s1, ops);
      }
    } else {
      Meeting(s.sweep.files, s.unregistered);
      var f :| f in s.sweep.files && f in s.unregistered;
      CollectLoses(s, f);
    }
  }

  lemma Meeting(a: set<int>, b: set<int>)
    ensures a !! b || exists f :: f in a && f in b
  {
    if forall f :: f in a ==> f !in b {
      assert a !! b;
    }
  }

  lemma CollectLoses(s: State, f: int)
    requires Inv(s) && s.sweep.Listed? && f in s.sweep.files && f in s.unregistered
    ensures var s1, ops := Step(s, Collect), [Mark, Remove(f)];
            QuietRun(s1, ops) && f in Needed(Run(s1, ops)) && f !in Run(s1, ops).disk
  {
    hide VersionsOk, ActiveFiles;
    var s1 := Step(s, Collect);
    var s2 := Step(s1, Mark);
    var ops := [Mark, Remove(f)];
    SameVersions(s, s1);
    assert ops[..0] == [] && ops[..1] == [Mark];
    assert Run(s1, [Mark]) == s2;
    assert Run(s1, ops) == Step(s2, Remove(f));
  }

  /** A new table file is listed before it is registered: the pass removes it under its writer. */
  lemma OutputLost()
    ensures var ops := [Create, List, Collect, Mark, Remove(2)];
            2 in Run(Init(), ops).unregistered && 2 !in Run(Init(), ops).disk
  {
    hide Step, Enabled;
    var ops := [Create, List, Collect, Mark, Remove(2)];
    RunNext(ops, 0);
    RunNext(ops, 1);
    RunNext(ops, 2);
    RunNext(ops, 3);
    RunNext(ops, 4);
    assert ops[..0] == [] && ops[..5] == ops;
    OutputLostSteps();
  }

  lemma OutputLostSteps()
    ensures var s := Step(Step(Step(Step(Step(Init(), Create), List), Collect), Mark), Remove(2));
            2 in s.unregistered && 2 !in s.disk
  {
    var s1 := Step(Init(), Create);
    var s3 := Step(Step(s1, List), Collect);
    assert s3.sweep == Collected({2}, {}) && s3.unregistered == {2};
    assert ActiveFiles(s3) == {};
  }

  // ----- from creation to commit, and to removal -----

  /** A pending output stays on disk, whatever else happens, until it is unregistered. */
  lemma {:induction false} PendingStays(s: State, ops: seq<Op>, n: int)
    requires Inv(s) && QuietRun(s, ops) && n in s.pending
    requires forall i :: 0 <= i < |ops| ==> ops[i] != Unregister(n)
    ensures n in Run(s, ops).pending && n in Run(s, ops).disk
    decreases |ops|
  {
    hide Step, Inv;
    RunKeeps(s, ops);
    PendingOnDisk(Run(s, ops));
    if |ops| > 0 {
      var k := |ops| - 1;
      QuietPrefix(s, ops, k);
      PendingStays(s, ops[..k], n);
      PendingStep(Run(s, ops[..k]), ops[k], n);
    }
  }

  lemma PendingOnDisk(s: State)
    requires Inv(s)
    ensures s.pending <= s.disk
  {
    hide VersionsOk, SweepOk, ActiveFiles;
  }

  lemma PendingStep(s: State, op: Op, n: int)
    requires n in s.pending && op != Unregister(n)
    ensures n in Step(s, op).pending
  {
  }

  /** A new file, once registered, is there until it is unregistered. */
  lemma NewFileStays(s: State, ops: seq<Op>)
    requires Inv(s) && forall i :: 0 <= i < |ops| ==> ops[i] != Unregister(s.nextFile)
    requires QuietRun(Step(Step(s, Create), Register(s.nextFile)), ops)
    ensures s.nextFile in Run(Step(Step(s, Create), Register(s.nextFile)), ops).disk
  {
    hide Run, QuietRun;
    var n := s.nextFile;
    OtherSteps(s, Create);
    assert n in Step(s, Create).unregistered;
    OtherSteps(Step(s, Create), Register(n));
    assert n in Step(Step(s, Create), Register(n)).pending;
    hide Step, Inv;
    PendingStays(Step(Step(s, Create), Register(n)), ops, n);
  }

  /** Creating, registering, committing and unregistering a file adds it to the current version. */
  lemma FileCommits(s: State)
    requires Inv(s)
    ensures var n := s.nextFile;
            var s' := Step(Step(Step(Step(s, Create), Register(n)), Commit({}, {n})), Unregister(n));
            && s'.active[s'.current] == s.active[s.current] + {n} && s'.pending == s.pending - {n}
            && s'.disk == s.disk + {n} && s'.unregistered == s.unregistered - {n}
  {
    hide CommitEdit, ActiveFiles;
    var n := s.nextFile;
    var s1 := Step(s, Create);
    var s2 := Step(s1, Register(n));
    SameVersions(s, s2);
    CommitShape(s2, {}, {n});
  }

  /** An undisturbed pass removes any file that is neither pending nor in an active version. */
  lemma PassRemoves(s: State, n: int)
    requires Inv(s) && s.sweep == NoSweep && n in s.disk && n !in s.pending && n !in ActiveFiles(s)
    ensures Step(Step(Step(Step(Step(s, List), Collect), Mark), Remove(n)), Finish) == s.(disk := s.disk - {n})
  {
    var s2 := Step(Step(s, List), Collect);
    SameVersions(s, s2);
    hide VersionsOk, ActiveFiles;
  }

  // ----- snapshots -----

  /** The files an open snapshot sees. */
  function Seen(s: State, h: int): (fs: set<int>)
    requires h in s.snapshots
  {
    if s.snapshots[h] in s.active then s.active[s.snapshots[h]] else {}
  }

  /** While it stays open, a snapshot sees the same files, whatever is committed. */
  lemma SnapshotStable(s: State, op: Op, h: int)
    requires VersionsOk(s) && h in s.snapshots && h in Step(s, op).snapshots
    ensures Seen(Step(s, op), h) == Seen(s, h)
  {
    var id := s.snapshots[h];
    assert h in Holders(s, id);
    match op
    case Commit(del, add) =>
      if Enabled(s, op) {
        hide CommitEdit;
        CommitShape(s, del, add);
      }
    case CloseSnapshot(g) =>
      if g in s.snapshots && g != h && s.snapshots[g] == id {
        assert {g, h} <= Holders(s, id);
        TwoHolders(Holders(s, id), g, h);
      }
    case _ =>
  }

  lemma TwoHolders(hs: set<int>, g: int, h: int)
    requires g in hs && h in hs && g != h
    ensures |hs| >= 2
  {
    assert h in hs - {g};
    assert |hs - {g}| == |hs| - 1;
  }

  /** In every quiet run the files an open snapshot sees are those it saw when opened, and are on disk. */
  lemma {:induction false} SnapshotKeeps(ops: seq<Op>, n: nat, h: int)
    requires n <= |ops| && QuietRun(Init(), ops)
    requires forall i :: n <= i <= |ops| ==> h in Run(Init(), ops[..i]).snapshots
    ensures h in Run(Init(), ops).snapshots && h in Run(Init(), ops[..n]).snapshots
    ensures Seen(Run(Init(), ops), h) == Seen(Run(Init(), ops[..n]), h)
    ensures Seen(Run(Init(), ops), h) <= Run(Init(), ops).disk
    decreases |ops| - n
  {
    hide Step, Run;
    assert ops[..|ops|] == ops;
    InitInv();
    RunKeeps(Init(), ops);
    SeenActive(Run(Init(), ops), h);
    if n < |ops| {
      SnapshotKeeps(ops, n + 1, h);
      PrefixInv(ops, n);
      RunNext(ops, n);
      SnapshotStable(Run(Init(), ops[..n]), ops[n], h);
    }
  }

  lemma RunNext(ops: seq<Op>, n: nat)
    requires n < |ops|
    ensures Run(Init(), ops[..n + 1]) == Step(Run(Init(), ops[..n]), ops[n])
  {
    hide Step;
    assert ops[..n + 1][..n] == ops[..n];
  }

  lemma SeenActive(s: State, h: int)
    requires h in s.snapshots
    ensures Seen(s, h) <= ActiveFiles(s)
  {
    forall f | f in Seen(s, h)
      ensures f in ActiveFiles(s)
    {
      var id: int := s.snapshots[h];
      assert id in s.active && f in s.active[id];
    }
  }

  lemma PrefixInv(ops: seq<Op>, n: nat)
    requires n <= |ops| && QuietRun(Init(), ops)
    ensures Inv(Run(Init(), ops[..n]))
  {
    hide Run, Inv, QuietRun;
    InitInv();
    QuietPrefix(Init(), ops, n);
    RunKeeps(Init(), ops[..n]);
  }

  // ----- the family -----

  class FamilyFiles {
    var active: map<int, set<int>>
    var refs: map<int, int>
    var current: int
    var nextVersion: int
    var snapshots: map<int, int>
    var nextSnapshot: int
    var nextFile: int
    var disk: set<int>
    var unregistered: set<int>
    var pending: set<int>

    constructor ()
      ensures View() == Init() && Inv(View())
    {
      active, refs, current, nextVersion := map[0 := {}], map[0 := 0], 0, 1;
      snapshots, nextSnapshot, nextFile, disk, unregistered, pending := map[], 0, 2, {}, {}, {};
      new;
      InitInv();
    }

    ghost function View(): (s: State)
      reads this
    {
      State(active, refs, current, nextVersion, snapshots, nextSnapshot, nextFile, disk, unregistered, pending, NoSweep)
    }

    method NewTableBuilder() returns (n: int)
      modifies this
      ensures n == old(nextFile) && View() == Step(old(View()), Create)
      ensures View() == old(View()).(disk := old(disk) + {n}, unregistered := old(unregistered) + {n}, nextFile := n + 1)
    {
      n := nextFile;
      nextFile := nextFile + 1;
      disk := disk + {n};
      unregistered := unregistered + {n};
    }

    method AddPendingOutput(n: int)
      requires n in unregistered
      modifies this
      ensures View() == Step(old(View()), Register(n))
      ensures View() == old(View()).(pending := old(pending) + {n}, unregistered := old(unregistered) - {n})
    {
      pending := pending + {n};
      unregistered := unregistered - {n};
    }

    method RemovePendingOutput(n: int)
      modifies this
      ensures View() == Step(old(View()), Unregister(n))
      ensures View() == old(View()).(pending := old(pending) - {n})
    {
      pending := pending - {n};
    }

    method GetSnapshot() returns (h: int)
      requires Inv(View())
      modifies this
      ensures View() == Step(old(View()), OpenSnapshot) && Inv(View())
      ensures h in snapshots && Seen(View(), h) == old(active[current])
      ensures h !in old(snapshots) && snapshots == old(snapshots)[h := old(current)]
      ensures active == old(active) && current == old(current) && disk == old(disk) && pending == old(pending)
    {
      ghost var s := View();
      SnapshotSteps(s, OpenSnapshot);
      h := nextSnapshot;
      Retain(current);
      snapshots := snapshots[h := current];
      nextSnapshot := h + 1;
    }

    method Retain(id: int)
      requires id in refs
      modifies this`refs
      ensures refs == old(refs)[id := old(refs)[id] + 1]
    {
      refs := refs[id := refs[id] + 1];
    }

    method RemoveVersion(id: int)
      modifies this`active
      ensures View() == Removed(old(View()), id)
      ensures active == if id == current then old(active) else old(active) - {id}
    {
      if id != current {
        active := active - {id};
      }
    }

    method Release(id: int)
      requires id in refs
      modifies this`refs, this`active
      ensures View() == Released(old(View()), id)
      ensures refs == old(refs)[id := old(refs)[id] - 1]
      ensures active == if old(refs)[id] == 1 && id != current then old(active) - {id} else old(active)
    {
      var newVal := refs[id] - 1;
      refs := refs[id := newVal];
      if newVal == 0 {
        RemoveVersion(id);
      }
    }

    /** Only the first close of a snapshot has an effect. */
    method CloseSnapshot(h: int)
      requires Inv(View())
      modifies this
      ensures View() == Step(old(View()), Op.CloseSnapshot(h)) && Inv(View())
      ensures h !in old(snapshots) ==> View() == old(View())
      ensures h in old(snapshots) ==>
                && snapshots == old(snapshots) - {h} && current == old(current) && disk == old(disk)
                && forall id :: id in active <==>
                     id in old(active) && (id == old(snapshots)[h] && id != current ==> exists g :: g in snapshots && snapshots[g] == id)
    {
      SnapshotSteps(View(), Op.CloseSnapshot(h));
      if h in snapshots {
        CloseHeld(View(), h);
      }
      if h in snapshots {
        Release(snapshots[h]);
        snapshots := snapshots - {h};
      }
    }

    method AppendVersion(files: set<int>)
      requires current < nextVersion && current in refs
      modifies this
      ensures View() == Appended(old(View()), files)
      ensures current == old(nextVersion) && nextVersion == current + 1 && current in active && active[current] == files
      ensures active == (if old(refs)[old(current)] == 0 then old(active) - {old(current)} else old(active))[current := files]
    {
      var previous := current;
      var id := nextVersion;
      nextVersion := id + 1;
      active := active[id := files];
      refs := refs[id := 0];
      current := id;
      if refs[previous] == 0 {
        RemoveVersion(previous);
      }
    }

    /** A version edit: `del` leaves and `add` joins the files of the current version. */
    method CommitFamilyEditLog(del: set<int>, add: set<int>)
      requires Inv(View()) && add <= pending + active[current]
      modifies this
      ensures View() == Step(old(View()), Commit(del, add)) && Inv(View())
      ensures current in active && active[current] == old(active[current]) - del + add
      ensures snapshots == old(snapshots) && disk == old(disk) && pending == old(pending)
      ensures forall id :: id in active && id != current ==> id in old(active) && active[id] == old(active)[id]
      ensures forall id :: id in old(active) ==>
                (id in active <==> id != old(current) || exists h :: h in snapshots && snapshots[h] == id)
    {
      ghost var s := View();
      CommitStep(s, del, add);
      CommitHeld(s, del, add);
      hide ActiveFiles, Holders, FilesOk, SweepOk;
      var id := current;
      Retain(id);
      AppendVersion(active[id] - del + add);
      Release(id);
    }

    /** `GetAllActiveFiles`: a file of several versions appears once. */
    method GetAllActiveFiles() returns (fs: set<int>)
      ensures fs == ActiveFiles(View())
      ensures forall f :: f in fs <==> exists id :: id in active && f in active[id]
    {
      fs := {};
      var todo := active.Keys;
      while todo != {}
        invariant todo <= active.Keys && fs == FilesOf(active, active.Keys - todo)
        decreases |todo|
      {
        var id := PickVersion(todo);
        FilesOfMore(active, active.Keys - todo, id);
        fs := fs + active[id];
        todo := todo - {id};
        assert active.Keys - todo == active.Keys - (todo + {id}) + {id};
      }
      assert active.Keys - todo == active.Keys;
    }

    /** A whole pass with nothing else in between: exactly what is pending or active stays. */
    method DeleteObsoleteFiles()
      modifies this`disk
      ensures disk == old(disk) * (pending + ActiveFiles(View()))
      ensures forall n :: n in disk <==> n in old(disk) && (n in pending || exists id :: id in active && n in active[id])
    {
      var live := GetAllActiveFiles();
      disk := RemoveDead(disk, pending + live);
      SameActive(old(View()), View());
    }
  }

  /** The loop over the listing. */
  method RemoveDead(listing: set<int>, live: set<int>) returns (left: set<int>)
    ensures left == listing * live
  {
    left := listing;
    var todo := listing;
    while todo != {}
      invariant todo <= listing && forall n :: n in left <==> n in listing && (n in live || n in todo)
      decreases |todo|
    {
      var n := PickVersion(todo);
      if n !in live {
        left := left - {n};
      }
      todo := todo - {n};
    }
    assert forall n :: n in left <==> n in listing * live;
  }

  lemma SameActive(s: State, s': State)
    requires s'.active == s.active
    ensures ActiveFiles(s') == ActiveFiles(s)
  {
  }

  ghost function FilesOf(active: map<int, set<int>>, ids: set<int>): (fs: set<int>)
    requires ids <= active.Keys
  {
    set id, f | id in ids && f in active[id] :: f
  }

  lemma FilesOfMore(active: map<int, set<int>>, ids: set<int>, id: int)
    requires ids <= active.Keys && id in active
    ensures FilesOf(active, ids + {id}) == FilesOf(active, ids) + active[id]
  {
    var a, b := FilesOf(active, ids + {id}), FilesOf(active, ids) + active[id];
    forall f | f in a
      ensures f in b
    {
      var x :| x in ids + {id} && f in active[x];
    }
    forall f | f in b
      ensures f in a
    {
      if f in active[id] {
        assert id in ids + {id};
      } else {
        var x :| x in ids && f in active[x];
        assert x in ids + {id};
      }
    }
  }

  method PickVersion(ids: set<int>) returns (id: int)
    requires ids != {}
    ensures id in ids
  {
    SomeOf(ids);
    id :| id in ids;
  }

  lemma SomeOf(ids: set<int>)
    ensures ids == {} || exists id :: id in ids
  {
    if forall id :: id !in ids {
      assert ids == {};
    }
  }
}
