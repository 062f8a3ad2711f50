/**
 All runs of grouped tasks: a group is shown as done only with the results of all
 executors of one submission.
 */
module TaskGroupRuns {
  import opened TaskGroup

  lemma InitInv()
    ensures Inv(Init())
  {
    hide RunningOk, ClosedOk, WaiterOk;
    PersistsSelf(map[], 0);
  }

  // ----- growing records -----

  ghost predicate Extends<K, V>(m: map<K, V>, m': map<K, V>) {
    forall k :: k in m ==> k in m' && m'[k] == m[k]
  }

  lemma StoreOkMore(st: Store, results: map<Claim, Task>, submissions: map<int, Submission>,
                    results': map<Claim, Task>, submissions': map<int, Submission>)
    requires StoreOk(st, results, submissions) && Extends(results, results') && Extends(submissions, submissions')
    ensures StoreOk(st, results', submissions')
  {
    forall name | StatusKey(name) in st
      ensures RunningOk(st, name, results', submissions') || ClosedOk(st, name, results', submissions')
    {
      StatusOkMore(st, name, results, submissions, results', submissions');
    }
  }

  lemma StatusOkMore(st: Store, name: int, results: map<Claim, Task>, submissions: map<int, Submission>,
                     results': map<Claim, Task>, submissions': map<int, Submission>)
    requires StatusKey(name) in st && Extends(results, results') && Extends(submissions, submissions')
    requires RunningOk(st, name, results, submissions) || ClosedOk(st, name, results, submissions)
    ensures RunningOk(st, name, results', submissions') || ClosedOk(st, name, results', submissions')
  {
    hide Distinct;
    if ClosedOk(st, name, results, submissions) {
      var g := st[StatusKey(name)].value.group;
      var rev :| JustifiedBy(g, name, rev, results, submissions);
      assert JustifiedBy(g, name, rev, results', submissions');
    }
  }

  lemma WaiterOkMore(st: Store, name: int, w: Waiter, results: map<Claim, Task>, submissions: map<int, Submission>,
                     results': map<Claim, Task>, submissions': map<int, Submission>)
    requires WaiterOk(st, name, w, results, submissions) && Extends(results, results') && Extends(submissions, submissions')
    ensures WaiterOk(st, name, w, results', submissions')
  {
  }

  /** One more revision, which keeps or rewrites entries. */
  lemma HistorySnoc(h: seq<Store>, st: Store)
    requires HistoryOk(h)
    requires forall k :: k in st ==> st[k].rev == |h| || (k in h[|h| - 1] && h[|h| - 1][k] == st[k])
    ensures HistoryOk(h + [st])
  {
    var n := |h| - 1;
    forall p | 0 <= p <= n
      ensures Persists(h[p], st, p)
    {
      assert Persists(h[p], h[n], p);
    }
    assert RevsUpTo(st, |h|) by { assert RevsUpTo(h[n], n); }
    hide Persists, RevsUpTo;
    assert Persists(st, st, |h|) by { PersistsSelf(st, |h|); }
  }

  lemma PersistsSelf(st: Store, p: int)
    ensures Persists(st, st, p)
  {
  }

  /** The parts of the invariant that a new revision must establish. */
  lemma NewRevision(s: State, s': State, st: Store)
    requires Inv(s) && s' == s.(history := s.history + [st], results := s'.results, submissions := s'.submissions, waiters := s'.waiters)
    requires forall k :: k in st ==> st[k].rev == |s.history| || (k in Current(s) && Current(s)[k] == st[k])
    requires StoreOk(st, s'.results, s'.submissions)
    requires Extends(s.results, s'.results) && Extends(s.submissions, s'.submissions)
    requires forall r :: r in s'.submissions ==> r < |s.history| + 1
    requires ClaimsOk(s')
    requires forall name :: name in s'.waiters ==> name in s.waiters && s'.waiters[name] == s.waiters[name]
    ensures Inv(s')
  {
    hide StoreOk, WaiterOk, ClaimsOk;
    HistorySnoc(s.history, st);
    forall p | 0 <= p < |s'.history|
      ensures StoreOk(s'.history[p], s'.results, s'.submissions)
    {
      if p < |s.history| {
        StoreOkMore(s.history[p], s.results, s.submissions, s'.results, s'.submissions);
      }
    }
    forall name | name in s'.waiters
      ensures WaiterOk(s'.history[s'.seen], name, s'.waiters[name], s'.results, s'.submissions)
    {
      WaiterOkMore(s.history[s.seen], name, s.waiters[name], s.results, s.submissions, s'.results, s'.submissions);
    }
  }

  // ----- submit -----

  lemma {:induction false} PutTasksAt(st: Store, ts: seq<Task>, rev: int, k: Key)
    ensures var st' := PutTasks(st, ts, rev);
            if exists i :: 0 <= i < |ts| && k == TaskKey(ts[i].name, ts[i].executor)
            then k in st' && st'[k].rev == rev && st'[k].value.TaskValue? && st'[k].value.task in ts
                 && k == TaskKey(st'[k].value.task.name, st'[k].value.task.executor)
            else (k in st' <==> k in st) && (k in st ==> st'[k] == st[k])
    decreases |ts|
  {
    if |ts| > 0 {
      PutTasksAt(st, ts[..|ts| - 1], rev, k);
    }
  }

  /** The store after a submission, key by key. */
  lemma SubmittedAt(st: Store, name: int, xs: seq<int>, rev: int, k: Key)
    ensures var ts := NewTasks(name, xs);
            var e := Entry(GroupValue(Group(Running, ts)), rev);
            var st' := PutTasks(st[StatusKey(name) := e], ts, rev);
            if k == StatusKey(name) then k in st' && st'[k] == e
            else if k.TaskKey? && k.name == name && k.executor in xs
            then k in st' && st'[k] == Entry(TaskValue(Task(name, k.executor, Created, NO_MESSAGE)), rev)
            else (k in st' <==> k in st) && (k in st ==> st'[k] == st[k])
  {
    hide PutTasks;
    var ts := NewTasks(name, xs);
    var e := Entry(GroupValue(Group(Running, ts)), rev);
    PutTasksAt(st[StatusKey(name) := e], ts, rev, k);
    if k.TaskKey? && k.name == name && k.executor in xs {
      var i :| 0 <= i < |xs| && xs[i] == k.executor;
      assert k == TaskKey(ts[i].name, ts[i].executor);
    }
  }

  /** A store keeps its status entries sound when the keys of the name keep their entries. */
  lemma StatusKept(st: Store, st': Store, name: int, results: map<Claim, Task>, submissions: map<int, Submission>)
    requires StatusKey(name) in st && (RunningOk(st, name, results, submissions) || ClosedOk(st, name, results, submissions))
    requires forall k: Key :: k.name == name && k in st ==> k in st' && st'[k] == st[k]
    ensures RunningOk(st', name, results, submissions) || ClosedOk(st', name, results, submissions)
  {
    hide Distinct, JustifiedBy;
    assert StatusKey(name).name == name;
    if RunningOk(st, name, results, submissions) {
      forall x | x in submissions[st[StatusKey(name)].rev].executors
        ensures TaskKey(name, x) in st' && st'[TaskKey(name, x)] == st[TaskKey(name, x)]
      {
        assert TaskKey(name, x).name == name;
      }
    }
  }

  lemma SubmitKeeps(s: State, name: int, xs: seq<int>)
    requires Inv(s) && Enabled(s, Submit(name, xs))
    ensures Inv(Step(s, Submit(name, xs)))
  {
    var s' := Step(s, Submit(name, xs));
    var st, st', rev := Current(s), Current(s'), |s.history|;
    assert s'.submissions == s.submissions[rev := Submission(name, xs)] && s'.history == s.history + [st'];
    forall k: Key
      ensures if k == StatusKey(name) then k in st' && st'[k] == Entry(GroupValue(Group(Running, NewTasks(name, xs))), rev)
              else if k.TaskKey? && k.name == name && k.executor in xs
              then k in st' && st'[k] == Entry(TaskValue(Task(name, k.executor, Created, NO_MESSAGE)), rev)
              else (k in st' <==> k in st) && (k in st ==> st'[k] == st[k])
    {
      SubmittedAt(st, name, xs, rev, k);
    }
    SubmitStore(s, st', name, xs);
    hide StoreOk, HistoryOk, WaiterOk, Step, Enabled;
    NewRevision(s, s', st');
  }

  lemma SubmitStore(s: State, st': Store, name: int, xs: seq<int>)
    requires Inv(s) && Distinct(xs) && |xs| > 0
    requires forall k: Key ::
               if k == StatusKey(name) then k in st' && st'[k] == Entry(GroupValue(Group(Running, NewTasks(name, xs))), |s.history|)
               else if k.TaskKey? && k.name == name && k.executor in xs
               then k in st' && st'[k] == Entry(TaskValue(Task(name, k.executor, Created, NO_MESSAGE)), |s.history|)
               else (k in st' <==> k in Current(s)) && (k in Current(s) ==> st'[k] == Current(s)[k])
    ensures StoreOk(st', s.results, s.submissions[|s.history| := Submission(name, xs)])
  {
    var st, subs := Current(s), s.submissions[|s.history| := Submission(name, xs)];
    assert StoreOk(st, s.results, s.submissions);
    StoreOkMore(st, s.results, s.submissions, s.results, subs);
    hide Inv;
    forall n | StatusKey(n) in st'
      ensures RunningOk(st', n, s.results, subs) || ClosedOk(st', n, s.results, subs)
    {
      if n != name {
        StatusKept(st, st', n, s.results, subs);
      }
    }
  }

  // ----- finish -----

  /** A processor whose guard holds saw the entry that is still there. */
  lemma GuardSees(h: seq<Store>, at: int, k: Key)
    requires HistoryOk(h) && 0 <= at < |h| && k in h[at] && k in h[|h| - 1] && h[|h| - 1][k].rev == h[at][k].rev
    ensures h[at][k] == h[|h| - 1][k]
  {
    assert RevsUpTo(h[at], at) && Persists(h[at], h[|h| - 1], at);
  }

  lemma FinishKeeps(s: State, at: int, name: int, x: int, failed: bool, msg: string)
    requires Inv(s) && Enabled(s, Finish(at, name, x, failed, msg))
    ensures Inv(Step(s, Finish(at, name, x, failed, msg)))
  {
    var k := TaskKey(name, x);
    var s' := Step(s, Finish(at, name, x, failed, msg));
    var st, st' := Current(s), Current(s');
    GuardSees(s.history, at, k);
    assert StoreOk(st, s.results, s.submissions);
    var t := st'[k].value.task;
    var c := Claim(name, x, st[k].rev);
    assert st' == st[k := Entry(TaskValue(t), |s.history|)] && s'.results == s.results[c := t];
    assert c !in s.results;
    hide Step, Enabled, HistoryOk, WaiterOk;
    FinishStore(st, k, t, |s.history|, s.results, s.submissions);
    assert RevsUpTo(st, |s.history| - 1) by { LastRevs(s.history); }
    NewRevision(s, s', st');
  }

  lemma LastRevs(h: seq<Store>)
    requires HistoryOk(h)
    ensures RevsUpTo(h[|h| - 1], |h| - 1)
  {
  }

  lemma FinishStore(st: Store, k: Key, t: Task, rev: int, results: map<Claim, Task>, submissions: map<int, Submission>)
    requires StoreOk(st, results, submissions) && k.TaskKey? && k in st && !IsDone(st[k].value.task.state)
    requires t.name == k.name && t.executor == k.executor && IsDone(t.state)
    requires Claim(k.name, k.executor, st[k].rev) !in results
    ensures StoreOk(st[k := Entry(TaskValue(t), rev)], results[Claim(k.name, k.executor, st[k].rev) := t], submissions)
  {
    var st' := st[k := Entry(TaskValue(t), rev)];
    var results' := results[Claim(k.name, k.executor, st[k].rev) := t];
    StoreOkMore(st, results, submissions, results', submissions);
    forall n | StatusKey(n) in st'
      ensures RunningOk(st', n, results', submissions) || ClosedOk(st', n, results', submissions)
    {
      FinishStatus(st, k, t, rev, results, submissions, n);
    }
  }

  lemma FinishStatus(st: Store, k: Key, t: Task, rev: int, results: map<Claim, Task>, submissions: map<int, Submission>, n: int)
    requires StoreOk(st, results, submissions) && k.TaskKey? && k in st && !IsDone(st[k].value.task.state)
    requires t.name == k.name && t.executor == k.executor && IsDone(t.state)
    requires Claim(k.name, k.executor, st[k].rev) !in results && StatusKey(n) in st
    ensures var st' := st[k := Entry(TaskValue(t), rev)];
            var results' := results[Claim(k.name, k.executor, st[k].rev) := t];
            RunningOk(st', n, results', submissions) || ClosedOk(st', n, results', submissions)
  {
    hide Distinct, JustifiedBy;
    var results' := results[Claim(k.name, k.executor, st[k].rev) := t];
    StatusOkMore(st, n, results, submissions, results', submissions);
  }

  // ----- what the controller reads -----

  /** A status that has not changed since the controller last read it is the same entry. */
  lemma StatusPersists(h: seq<Store>, p: int, q: int, name: int, rev: int)
    requires HistoryOk(h) && 0 <= p <= q < |h| && rev <= p && StatusAt(h[q], name, rev)
    ensures StatusAt(h[p], name, rev) && h[p][StatusKey(name)] == h[q][StatusKey(name)]
  {
    assert Persists(h[p], h[q], p);
  }

  /** Reading on keeps every waiter sound. */
  lemma SeenKeeps(s: State, at: int)
    requires Inv(s) && s.seen <= at < |s.history|
    ensures Inv(s.(seen := at))
  {
    hide HistoryOk, StoreOk;
    var s' := s.(seen := at);
    forall name | name in s'.waiters
      ensures WaiterOk(s'.history[at], name, s'.waiters[name], s'.results, s'.submissions)
    {
      var w := s.waiters[name];
      if StatusAt(s.history[at], name, w.rev) {
        StatusPersists(s.history, s.seen, at, name, w.rev);
      }
    }
    assert ClaimsOk(s');
  }

  lemma AddKeeps(s: State, name: int)
    requires Inv(s) && Visible(s, s.seen, StatusKey(name)) && s.history[s.seen][StatusKey(name)].value.GroupValue?
    ensures Inv(Add(s, name, s.history[s.seen][StatusKey(name)]))
  {
    var st := s.history[s.seen];
    var e := st[StatusKey(name)];
    assert StoreOk(st, s.results, s.submissions) && RevsUpTo(st, s.seen);
    if !IsDone(e.value.group.state) {
      var w := NewWaiter(e.value.group, e.rev);
      assert RunningOk(st, name, s.results, s.submissions);
      forall i | 0 <= i < |w.tasks|
        ensures w.tasks[i].executor in w.waiting
      {
      }
      assert WaiterOk(st, name, w, s.results, s.submissions);
      assert ClaimsOk(Add(s, name, e));
    }
  }

  lemma {:induction false} ReplaceAt(ts: seq<Task>, xs: seq<int>, t: Task, i: nat)
    requires |ts| == |xs| && Distinct(xs) && i < |ts| && forall j :: 0 <= j < |ts| ==> ts[j].executor == xs[j]
    ensures Replace(ts, t)[i] == if xs[i] == t.executor then t else ts[i]
    decreases |ts|
  {
    if ts[0].executor != t.executor && i > 0 {
      ReplaceAt(ts[1..], xs[1..], t, i - 1);
    }
  }

  /** Confirming a result the controller reads keeps the waiter sound. */
  lemma ConfirmKeeps(s: State, name: int, x: int)
    requires Inv(s) && name in s.waiters && Visible(s, s.seen, TaskKey(name, x))
    requires IsDone(s.history[s.seen][TaskKey(name, x)].value.task.state)
    ensures WaiterOk(s.history[s.seen], name, Confirmed(s.waiters[name], s.history[s.seen][TaskKey(name, x)].value.task),
                     s.results, s.submissions)
  {
    var st, w := s.history[s.seen], s.waiters[name];
    var t := st[TaskKey(name, x)].value.task;
    assert StoreOk(st, s.results, s.submissions);
    assert t.name == name && t.executor == x;
    var xs := s.submissions[w.rev].executors;
    if StatusAt(st, name, w.rev) {
      assert RunningOk(st, name, s.results, s.submissions);
    }
    hide Inv, StoreOk, Distinct;
    forall i | 0 <= i < |xs|
      ensures Replace(w.tasks, t)[i] == if xs[i] == t.executor then t else w.tasks[i]
    {
      ReplaceAt(w.tasks, xs, t, i);
    }
  }

  // ----- closing a group -----

  lemma {:induction false} DeleteTasksAt(st: Store, ts: seq<Task>, k: Key)
    ensures var st' := DeleteTasks(st, ts);
            && (k in st' <==> k in st && forall i :: 0 <= i < |ts| ==> k != TaskKey(ts[i].name, ts[i].executor))
            && (k in st' ==> st'[k] == st[k])
    decreases |ts|
  {
    if |ts| > 0 {
      DeleteTasksAt(st, ts[..|ts| - 1], k);
    }
  }

  /** A waiter that waits for nobody and whose guard holds has the results of its whole submission. */
  lemma CloseJustified(s: State, name: int, w: Waiter)
    requires Inv(s) && w.rev <= s.seen && WaiterOk(s.history[s.seen], name, w, s.results, s.submissions)
    requires w.waiting == {} && CanClose(s, name, w)
    ensures JustifiedBy(Group(Verdict(w.tasks), w.tasks), name, w.rev, s.results, s.submissions)
  {
    hide StoreOk, HistoryOk;
    VerdictIs(w.tasks);
    StatusPersists(s.history, s.seen, |s.history| - 1, name, w.rev);
  }

  lemma CloseStore(st: Store, st': Store, name: int, rev: int, w: Waiter, results: map<Claim, Task>, submissions: map<int, Submission>)
    requires StoreOk(st, results, submissions)
    requires forall i :: 0 <= i < |w.tasks| ==> w.tasks[i].name == name
    requires JustifiedBy(Group(Verdict(w.tasks), w.tasks), name, w.rev, results, submissions)
    requires st' == DeleteTasks(st, w.tasks)[StatusKey(name) := Entry(GroupValue(Group(Verdict(w.tasks), w.tasks)), rev)]
    ensures StoreOk(st', results, submissions)
    ensures forall k :: k in st' ==> st'[k].rev == rev || (k in st && st[k] == st'[k])
  {
    hide JustifiedBy, DeleteTasks;
    VerdictIs(w.tasks);
    forall k: Key
      ensures k in st' && k != StatusKey(name) ==> k in st && st'[k] == st[k]
      ensures k.name != name && k in st ==> k in st' && st'[k] == st[k]
    {
      DeleteTasksAt(st, w.tasks, k);
    }
    forall n | StatusKey(n) in st'
      ensures RunningOk(st', n, results, submissions) || ClosedOk(st', n, results, submissions)
    {
      if n != name {
        StatusKept(st, st', n, results, submissions);
      }
    }
  }

  lemma CloseKeeps(s: State, name: int, w: Waiter)
    requires Inv(s) && w.rev <= s.seen && WaiterOk(s.history[s.seen], name, w, s.results, s.submissions)
    requires w.waiting == {} && CanClose(s, name, w)
    ensures Inv(Close(s, name, w))
  {
    var s' := Close(s, name, w);
    var st, st' := Current(s), Current(s');
    CloseJustified(s, name, w);
    assert StoreOk(st, s.results, s.submissions);
    CloseStore(st, st', name, |s.history|, w, s.results, s.submissions);
    hide StoreOk, HistoryOk, WaiterOk, DeleteTasks;
    NewRevision(s, s', st');
  }

  lemma NotifyKeeps(s: State, name: int, x: int)
    requires Inv(s) && Visible(s, s.seen, TaskKey(name, x)) && s.history[s.seen][TaskKey(name, x)].value.TaskValue?
    ensures Inv(Notify(s, s.history[s.seen][TaskKey(name, x)].value.task))
  {
    var t := s.history[s.seen][TaskKey(name, x)].value.task;
    assert StoreOk(s.history[s.seen], s.results, s.submissions);
    assert t.name == name;
    if IsDone(t.state) && name in s.waiters {
      ConfirmKeeps(s, name, x);
      var w := Confirmed(s.waiters[name], t);
      var s1 := s.(waiters := s.waiters[name := w]);
      assert ClaimsOk(s1);
      hide StoreOk, HistoryOk, WaiterOk, Close;
      assert Inv(s1);
      if w.waiting == {} && CanClose(s1, name, w) {
        CloseKeeps(s1, name, w);
      }
    }
  }

  lemma StepKeeps(s: State, op: Op)
    requires Inv(s)
    ensures Inv(Step(s, op))
  {
    hide StoreOk, HistoryOk, WaiterOk, Add, Notify, PutTasks;
    if Enabled(s, op) {
      match op
      case Submit(name, xs) => SubmitKeeps(s, name, xs);
      case Finish(at, name, x, failed, msg) => FinishKeeps(s, at, name, x, failed, msg);
      case SeeStatus(at, name) =>
        SeenKeeps(s, at);
        AddKeeps(s.(seen := at), name);
      case SeeTask(at, name, x) =>
        SeenKeeps(s, at);
        NotifyKeeps(s.(seen := at), name, x);
      case Restart =>
        assert ClaimsOk(Step(s, op));
    }
  }

  lemma {:induction false} RunKeeps(ops: seq<Op>)
    ensures Inv(Run(Init(), ops))
    decreases |ops|
  {
    hide Inv, Step;
    if |ops| == 0 {
      InitInv();
    } else {
      RunKeeps(ops[..|ops| - 1]);
      StepKeeps(Run(Init(), ops[..|ops| - 1]), ops[|ops| - 1]);
    }
  }

  /**
   In every run, whenever any revision shows a group as done, there is a submission of
   that name all of whose executors have written results for that very submission, the
   group lists these results in order, and it is OK exactly when no result has an error
   message.
   */
  lemma DoneIsJustified(ops: seq<Op>, p: int, name: int)
    requires 0 <= p < |Run(Init(), ops).history| && StatusKey(name) in Run(Init(), ops).history[p]
    requires var v := Run(Init(), ops).history[p][StatusKey(name)].value; v.GroupValue? && IsDone(v.group.state)
    ensures var s := Run(Init(), ops);
            exists rev :: JustifiedBy(s.history[p][StatusKey(name)].value.group, name, rev, s.results, s.submissions)
  {
    hide Run, JustifiedBy, RunningOk;
    RunKeeps(ops);
    var s := Run(Init(), ops);
    assert StoreOk(s.history[p], s.results, s.submissions);
    assert RunningOk(s.history[p], name, s.results, s.submissions) ==> false by { RunningNotDone(s.history[p], name, s.results, s.submissions); }
  }

  lemma RunningNotDone(st: Store, name: int, results: map<Claim, Task>, submissions: map<int, Submission>)
    requires StatusKey(name) in st && st[StatusKey(name)].value.GroupValue? && IsDone(st[StatusKey(name)].value.group.state)
    ensures !RunningOk(st, name, results, submissions)
  {
  }

  /** Results never change once written. */
  lemma ResultsStay(s: State, op: Op)
    requires Inv(s)
    ensures Extends(s.results, Step(s, op).results)
  {
    hide StoreOk, WaiterOk, PutTasks;
    if op.Finish? && Enabled(s, op) {
      GuardSees(s.history, op.at, TaskKey(op.name, op.executor));
    }
  }
}
