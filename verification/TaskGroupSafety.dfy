/**
 What runs of grouped tasks guarantee: a running group is closed only with the results of
 its own submission, what its state says about failures, and when listing everything
 again closes a group.
 */
module TaskGroupSafety {
  import opened TaskGroup
  import opened TaskGroupRuns

  // ----- from one revision to the next -----

  /**
   A group that is done was so at the revision before, or it was running and now holds the
   results of the submission it was running for.
   */
  ghost predicate TransitionOk(a: Store, b: Store, results: map<Claim, Task>, submissions: map<int, Submission>) {
    forall name :: StatusKey(name) in b && b[StatusKey(name)].value.GroupValue? && IsDone(b[StatusKey(name)].value.group.state) ==>
      && StatusKey(name) in a && a[StatusKey(name)].value.GroupValue?
      && (a[StatusKey(name)] == b[StatusKey(name)]
          || (!IsDone(a[StatusKey(name)].value.group.state)
              && JustifiedBy(b[StatusKey(name)].value.group, name, a[StatusKey(name)].rev, results, submissions)))
  }

  lemma TransitionMore(a: Store, b: Store, results: map<Claim, Task>, submissions: map<int, Submission>,
                       results': map<Claim, Task>, submissions': map<int, Submission>)
    requires TransitionOk(a, b, results, submissions) && Extends(results, results') && Extends(submissions, submissions')
    ensures TransitionOk(a, b, results', submissions')
  {
  }

  /** A step leaves the history alone or adds a sound revision; records only grow. */
  ghost predicate StepOk(s: State, s': State)
    requires |s.history| > 0
  {
    && Extends(s.results, s'.results) && Extends(s.submissions, s'.submissions)
    && (s'.history == s.history
        || (|s'.history| == |s.history| + 1 && s'.history == s.history + [Current(s')]
            && TransitionOk(Current(s), Current(s'), s'.results, s'.submissions)))
  }

  lemma SubmitOk(s: State, name: int, xs: seq<int>)
    requires Inv(s) && Enabled(s, Submit(name, xs))
    ensures StepOk(s, Step(s, Submit(name, xs)))
  {
    var s' := Step(s, Submit(name, xs));
    assert s'.history == s.history + [Current(s')];
    assert StoreOk(Current(s), s.results, s.submissions);
    hide HistoryOk, WaiterOk, JustifiedBy;
    forall n
      ensures n == name ==> StatusKey(n) in Current(s') && Current(s')[StatusKey(n)].value == GroupValue(Group(Running, NewTasks(name, xs)))
      ensures n != name && StatusKey(n) in Current(s') ==>
                StatusKey(n) in Current(s) && Current(s)[StatusKey(n)] == Current(s')[StatusKey(n)]
    {
      SubmittedAt(Current(s), name, xs, |s.history|, StatusKey(n));
    }
    hide StoreOk, PutTasks, Step, Enabled;
  }

  lemma FinishOk(s: State, op: Op)
    requires Inv(s) && op.Finish? && Enabled(s, op)
    ensures StepOk(s, Step(s, op))
  {
    ResultsStay(s, op);
    var s' := Step(s, op);
    assert StoreOk(Current(s), s.results, s.submissions);
    hide HistoryOk, WaiterOk, JustifiedBy, Extends;
    assert s'.submissions == s.submissions;
    assert Extends(s.submissions, s'.submissions) by { ExtendsSelf(s.submissions); }
  }

  lemma ExtendsSelf<K, V>(m: map<K, V>)
    ensures Extends(m, m)
  {
  }

  lemma CloseOk(s: State, name: int, w: Waiter)
    requires Inv(s) && w.rev <= s.seen && WaiterOk(s.history[s.seen], name, w, s.results, s.submissions)
    requires w.waiting == {} && CanClose(s, name, w)
    ensures StepOk(s, Close(s, name, w))
  {
    CloseJustified(s, name, w);
    StatusPersists(s.history, s.seen, |s.history| - 1, name, w.rev);
    var s' := Close(s, name, w);
    assert StoreOk(Current(s), s.results, s.submissions);
    hide HistoryOk, JustifiedBy, StoreOk, RunningOk, ClosedOk;
    forall n | n != name && StatusKey(n) in Current(s')
      ensures StatusKey(n) in Current(s) && Current(s)[StatusKey(n)] == Current(s')[StatusKey(n)]
    {
      DeleteTasksAt(Current(s), w.tasks, StatusKey(n));
    }
    StatusIsGroup(s, name);
    assert forall n :: StatusKey(n) in Current(s) ==> Current(s)[StatusKey(n)].value.GroupValue? by {
      forall n | StatusKey(n) in Current(s)
        ensures Current(s)[StatusKey(n)].value.GroupValue?
      {
        StatusIsGroup(s, n);
      }
    }
  }

  lemma StatusIsGroup(s: State, name: int)
    requires Inv(s)
    ensures StatusKey(name) in Current(s) ==> Current(s)[StatusKey(name)].value.GroupValue?
  {
    hide JustifiedBy, WaiterOk, HistoryOk;
    assert StoreOk(Current(s), s.results, s.submissions);
  }

  lemma NotifyOk(s: State, name: int, x: int)
    requires Inv(s) && Visible(s, s.seen, TaskKey(name, x)) && s.history[s.seen][TaskKey(name, x)].value.TaskValue?
    ensures StepOk(s, Notify(s, s.history[s.seen][TaskKey(name, x)].value.task))
  {
    hide Close, CanClose;
    var t := s.history[s.seen][TaskKey(name, x)].value.task;
    assert StoreOk(s.history[s.seen], s.results, s.submissions);
    assert t.name == name;
    if IsDone(t.state) && name in s.waiters {
      ConfirmKeeps(s, name, x);
      var w := Confirmed(s.waiters[name], t);
      var s1 := s.(waiters := s.waiters[name := w]);
      assert ClaimsOk(s1);
      hide StoreOk, HistoryOk;
      assert Inv(s1);
      if w.waiting == {} && CanClose(s1, name, w) {
        CloseOk(s1, name, w);
        hide TransitionOk;
        assert StepOk(s, Close(s1, name, w));
      }
    }
  }

  /** Every step of the protocol makes a sound transition. */
  lemma StepTransition(s: State, op: Op)
    requires Inv(s)
    ensures StepOk(s, Step(s, op))
  {
    hide StoreOk, HistoryOk, WaiterOk, PutTasks, TransitionOk;
    if Enabled(s, op) {
      match op
      case Submit(name, xs) => SubmitOk(s, name, xs);
      case Finish(_, _, _, _, _) => FinishOk(s, op);
      case SeeTask(at, name, x) =>
        SeenKeeps(s, at);
        NotifyOk(s.(seen := at), name, x);
      case _ =>
    }
  }

  lemma {:induction false} RunTransitions(ops: seq<Op>, p: int)
    requires 0 < p < |Run(Init(), ops).history|
    ensures var s := Run(Init(), ops); TransitionOk(s.history[p - 1], s.history[p], s.results, s.submissions)
    decreases |ops|
  {
    hide TransitionOk, Step;
    if |ops| > 0 {
      var before := Run(Init(), ops[..|ops| - 1]);
      RunKeeps(ops[..|ops| - 1]);
      StepTransition(before, ops[|ops| - 1]);
      var s := Run(Init(), ops);
      if p < |before.history| {
        RunTransitions(ops[..|ops| - 1], p);
        TransitionMore(before.history[p - 1], before.history[p], before.results, before.submissions, s.results, s.submissions);
      }
    }
  }

  /**
   In every run, when a group is running at one revision and done at the next, every
   executor of the very submission it was running for has written a result for that
   submission, and the group lists these results.
   */
  lemma ClosesOwnSubmission(ops: seq<Op>, p: int, name: int)
    requires 0 < p < |Run(Init(), ops).history|
    requires StatusKey(name) in Run(Init(), ops).history[p - 1] && StatusKey(name) in Run(Init(), ops).history[p]
    requires var a := Run(Init(), ops).history[p - 1][StatusKey(name)].value;
             var b := Run(Init(), ops).history[p][StatusKey(name)].value;
             a.GroupValue? && !IsDone(a.group.state) && b.GroupValue? && IsDone(b.group.state)
    ensures var s := Run(Init(), ops);
            JustifiedBy(s.history[p][StatusKey(name)].value.group, name, s.history[p - 1][StatusKey(name)].rev,
                        s.results, s.submissions)
  {
    hide Run, JustifiedBy;
    RunTransitions(ops, p);
  }

  // ----- failures -----

  /** Unfinished tasks and good results carry no error message. */
  ghost predicate MessagesOk(s: State) {
    && (forall c :: c in s.results ==> s.results[c].state == DoneOK ==> s.results[c].errMsg == NO_MESSAGE)
    && (forall p :: 0 <= p < |s.history| ==> Unsaid(s.history[p]))
  }

  ghost predicate Unsaid(st: Store) {
    forall k :: k in st && st[k].value.TaskValue? && !IsDone(st[k].value.task.state) ==> st[k].value.task.errMsg == NO_MESSAGE
  }

  lemma StepMessages(s: State, op: Op)
    requires Inv(s) && MessagesOk(s)
    ensures MessagesOk(Step(s, op))
  {
    hide PutTasks, DeleteTasks, StoreOk, WaiterOk, Persists, RevsUpTo;
    if Enabled(s, op) {
      match op
      case Submit(name, xs) =>
        var s' := Step(s, op);
        assert Unsaid(Current(s));
        forall k | k in Current(s')
          ensures (k in Current(s) && Current(s')[k] == Current(s)[k])
               || !Current(s')[k].value.TaskValue? || Current(s')[k].value.task.errMsg == NO_MESSAGE
        {
          SubmittedAt(Current(s), name, xs, |s.history|, k);
        }
        assert s'.history == s.history + [Current(s')] && Unsaid(Current(s'));
      case Finish(at, name, x, failed, msg) =>
        assert Unsaid(s.history[at]) && Unsaid(Current(s));
      case SeeTask(at, name, x) =>
        var t := s.history[at][TaskKey(name, x)].value.task;
        NotifyMessages(s.(seen := at), t);
      case _ =>
    }
  }

  lemma NotifyMessages(s: State, t: Task)
    requires |s.history| > 0 && MessagesOk(s)
    ensures MessagesOk(Notify(s, t))
  {
    hide DeleteTasks;
    var s' := Notify(s, t);
    assert Unsaid(Current(s));
    if s'.history != s.history {
      var w := Confirmed(s.waiters[t.name], t);
      forall k | k in Current(s') && k != StatusKey(t.name)
        ensures k in Current(s) && Current(s')[k] == Current(s)[k]
      {
        DeleteTasksAt(Current(s), w.tasks, k);
      }
      assert Unsaid(Current(s'));
    }
  }

  lemma {:induction false} RunMessages(ops: seq<Op>)
    ensures MessagesOk(Run(Init(), ops))
    decreases |ops|
  {
    hide Step, Inv;
    if |ops| > 0 {
      hide MessagesOk;
      RunMessages(ops[..|ops| - 1]);
      RunKeeps(ops[..|ops| - 1]);
      StepMessages(Run(Init(), ops[..|ops| - 1]), ops[|ops| - 1]);
    }
  }

  /**
   In every run a closed group is OK if and only if each of its failed tasks has an error
   without text: failures without text are not seen.
   */
  lemma FailureShowsIff(ops: seq<Op>, p: int, name: int)
    requires 0 <= p < |Run(Init(), ops).history| && StatusKey(name) in Run(Init(), ops).history[p]
    requires var v := Run(Init(), ops).history[p][StatusKey(name)].value; v.GroupValue? && IsDone(v.group.state)
    ensures var g := Run(Init(), ops).history[p][StatusKey(name)].value.group;
            g.state == DoneOK <==> forall i :: 0 <= i < |g.tasks| && g.tasks[i].state == DoneErr ==> g.tasks[i].errMsg == NO_MESSAGE
  {
    hide Run;
    DoneIsJustified(ops, p, name);
    RunMessages(ops);
    var s := Run(Init(), ops);
    var g := s.history[p][StatusKey(name)].value.group;
    var rev :| JustifiedBy(g, name, rev, s.results, s.submissions);
    forall i | 0 <= i < |g.tasks|
      ensures IsDone(g.tasks[i].state) && (g.tasks[i].state == DoneOK ==> g.tasks[i].errMsg == NO_MESSAGE)
    {
      assert s.results[Claim(name, s.submissions[rev].executors[i], rev)] == g.tasks[i];
    }
  }

  lemma RunSnoc(s: State, ops: seq<Op>, op: Op)
    requires |s.history| > 0
    ensures Run(s, ops + [op]) == Step(Run(s, ops), op)
  {
    hide Step;
    assert (ops + [op])[..|ops|] == ops;
  }

  /** The first two steps of the runs below: a group of one executor, and its submission. */
  function Submitted(): (st: Store)
  {
    map[StatusKey(1) := Entry(GroupValue(Group(Running, [Task(1, 7, Created, NO_MESSAGE)])), 1),
        TaskKey(1, 7) := Entry(TaskValue(Task(1, 7, Created, NO_MESSAGE)), 1)]
  }

  lemma SubmitOne()
    ensures Run(Init(), [Submit(1, [7])]) == State([map[], Submitted()], 0, map[], map[], map[1 := Submission(1, [7])])
  {
    var s' := Step(Init(), Submit(1, [7]));
    var ts := NewTasks(1, [7]);
    assert ts == [Task(1, 7, Created, NO_MESSAGE)];
    var st: Store := map[StatusKey(1) := Entry(GroupValue(Group(Running, ts)), 1)];
    assert ts[..0] == [];
    assert PutTasks(st, ts, 1) == PutTasks(st, ts[..0], 1)[TaskKey(1, 7) := Entry(TaskValue(ts[0]), 1)];
    assert PutTasks(st, ts, 1) == Submitted();
    RunSnoc(Init(), [], Submit(1, [7]));
    assert [] + [Submit(1, [7])] == [Submit(1, [7])];
    assert s'.history == [map[], Submitted()];
  }

  lemma ReplaceOne(x: Task, t: Task)
    requires x.executor == t.executor
    ensures Replace([x], t) == [t]
  {
    assert [x][1..] == [];
  }

  function Finished(t: Task): (s: State)
  {
    State([map[], Submitted(), Submitted()[TaskKey(1, 7) := Entry(TaskValue(t), 2)]], 1,
          map[1 := Waiter(1, [Task(1, 7, Created, NO_MESSAGE)], {7})],
          map[Claim(1, 7, 1) := t], map[1 := Submission(1, [7])])
  }

  /** The submission, its status read, and the task's result. */
  lemma SubmitSeeFinish(failed: bool, msg: string)
    ensures Run(Init(), [Submit(1, [7]), SeeStatus(1, 1), Finish(1, 1, 7, failed, msg)])
         == Finished(if failed then Task(1, 7, DoneErr, msg) else Task(1, 7, DoneOK, NO_MESSAGE))
  {
    hide Run;
    var a, b, c := Submit(1, [7]), SeeStatus(1, 1), Finish(1, 1, 7, failed, msg);
    SubmitOne();
    RunSnoc(Init(), [a], b);
    RunSnoc(Init(), [a, b], c);
    assert [a] + [b] == [a, b] && [a, b] + [c] == [a, b, c];
    var g := Group(Running, [Task(1, 7, Created, NO_MESSAGE)]);
    assert NewWaiter(g, 1).waiting == {7} by { assert g.tasks[0].executor == 7; }
  }

  /** A run in which the only task fails: its group shows the failure exactly when it has a text. */
  lemma OneFailure(msg: string)
    ensures var s := Run(Init(), [Submit(1, [7]), SeeStatus(1, 1), Finish(1, 1, 7, true, msg), SeeTask(2, 1, 7)]);
            && |s.history| == 4 && StatusKey(1) in s.history[3]
            && s.history[3][StatusKey(1)].value
            == GroupValue(Group(if msg == NO_MESSAGE then DoneOK else DoneErr, [Task(1, 7, DoneErr, msg)]))
  {
    hide Run;
    var ops, d := [Submit(1, [7]), SeeStatus(1, 1), Finish(1, 1, 7, true, msg)], SeeTask(2, 1, 7);
    SubmitSeeFinish(true, msg);
    RunSnoc(Init(), ops, d);
    assert ops + [d] == [Submit(1, [7]), SeeStatus(1, 1), Finish(1, 1, 7, true, msg), d];
    var t := Task(1, 7, DoneErr, msg);
    ReplaceOne(Task(1, 7, Created, NO_MESSAGE), t);
    assert {7} - {7} == {};
    VerdictIs([t]);
    hide DeleteTasks, Verdict, Replace;
  }

  // ----- listing everything again -----

  /** The group is running and all of its tasks have results. */
  ghost predicate Complete(st: Store, name: int) {
    && StatusKey(name) in st && st[StatusKey(name)].value.GroupValue? && !IsDone(st[StatusKey(name)].value.group.state)
    && forall t :: t in st[StatusKey(name)].value.group.tasks ==> HasResult(st, name, t.executor)
  }

  ghost predicate HasResult(st: Store, name: int, x: int) {
    && TaskKey(name, x) in st && st[TaskKey(name, x)].value.TaskValue?
    && st[TaskKey(name, x)].value.task.name == name && st[TaskKey(name, x)].value.task.executor == x
    && IsDone(st[TaskKey(name, x)].value.task.state)
  }

  /** `xs` are the group's executors, in some order. */
  ghost predicate ListsExecutors(xs: seq<int>, g: Group) {
    (forall t :: t in g.tasks ==> t.executor in xs) && (forall x :: x in xs ==> exists t :: t in g.tasks && t.executor == x)
  }

  /** The task events of one list, which come before the status: keys are listed in order. */
  function TaskEvents(at: int, name: int, xs: seq<int>): (ops: seq<Op>)
    ensures |ops| == |xs| && forall i :: 0 <= i < |xs| ==> ops[i] == SeeTask(at, name, xs[i])
  {
    seq(|xs|, i requires 0 <= i < |xs| => SeeTask(at, name, xs[i]))
  }

  lemma EventsSnoc(s: State, at: int, name: int, xs: seq<int>)
    requires |s.history| > 0 && |xs| > 0
    ensures Run(s, TaskEvents(at, name, xs)) == Step(Run(s, TaskEvents(at, name, xs[..|xs| - 1])), SeeTask(at, name, xs[|xs| - 1]))
  {
    hide Step;
    var n := |xs| - 1;
    assert TaskEvents(at, name, xs) == TaskEvents(at, name, xs[..n]) + [SeeTask(at, name, xs[n])];
    RunSnoc(s, TaskEvents(at, name, xs[..n]), SeeTask(at, name, xs[n]));
  }

  /** The waiter the controller has for the submission `rev`, if any. */
  predicate WaitsFor(s: State, name: int, rev: int) {
    name in s.waiters && s.waiters[name].rev == rev
  }

  /** Without a waiter for the current submission, no task event closes the group. */
  lemma {:induction false} EventsIgnored(s: State, at: int, name: int, xs: seq<int>)
    requires at == |s.history| - 1 >= 0 && s.seen <= at && Complete(Current(s), name)
    requires !WaitsFor(s, name, Current(s)[StatusKey(name)].rev)
    requires forall x :: x in xs ==> HasResult(Current(s), name, x)
    ensures var s' := Run(s, TaskEvents(at, name, xs));
            s'.history == s.history && s'.seen <= at && !WaitsFor(s', name, Current(s)[StatusKey(name)].rev)
    decreases |xs|
  {
    hide Run, Step, Complete, HasResult;
    if |xs| == 0 {
      NoEvents(s, at, name, xs);
    } else {
      var n := |xs| - 1;
      EventsIgnored(s, at, name, xs[..n]);
      EventsSnoc(s, at, name, xs);
      assert xs[n] in xs;
      EventIgnored(Run(s, TaskEvents(at, name, xs[..n])), at, name, xs[n]);
    }
  }

  lemma NoEvents(s: State, at: int, name: int, xs: seq<int>)
    requires |s.history| > 0 && |xs| == 0
    ensures Run(s, TaskEvents(at, name, xs)) == s
  {
  }

  lemma EventIgnored(s: State, at: int, name: int, x: int)
    requires at == |s.history| - 1 >= 0 && s.seen <= at && Complete(Current(s), name) && HasResult(Current(s), name, x)
    requires !WaitsFor(s, name, Current(s)[StatusKey(name)].rev)
    ensures var s' := Step(s, SeeTask(at, name, x));
            s'.history == s.history && s'.seen <= at && !WaitsFor(s', name, Current(s)[StatusKey(name)].rev)
  {
    hide Replace, Close;
  }

  /** The group has been closed by the revision after `s`. */
  ghost predicate ClosedAfter(s: State, s': State, name: int) {
    && |s.history| < |s'.history| && StatusKey(name) in s'.history[|s.history|]
    && s'.history[|s.history|][StatusKey(name)].value.GroupValue?
    && IsDone(s'.history[|s.history|][StatusKey(name)].value.group.state)
  }

  function Elements(xs: seq<int>): (ns: set<int>)
  {
    set x | x in xs
  }

  /** With one, after some events the group is closed or these executors are not waited for any more. */
  lemma {:induction false} EventsCount(s: State, at: int, name: int, xs: seq<int>)
    requires at == |s.history| - 1 >= 0 && s.seen <= at && Complete(Current(s), name)
    requires WaitsFor(s, name, Current(s)[StatusKey(name)].rev)
    requires forall x :: x in xs ==> HasResult(Current(s), name, x)
    ensures var s' := Run(s, TaskEvents(at, name, xs));
            || ClosedAfter(s, s', name)
            || (&& s'.history == s.history && s'.seen <= at && WaitsFor(s', name, Current(s)[StatusKey(name)].rev)
                && s'.waiters[name].waiting == s.waiters[name].waiting - Elements(xs)
                && (|xs| > 0 ==> s'.waiters[name].waiting != {}))
    decreases |xs|
  {
    hide Run, Step, Complete, HasResult;
    if |xs| == 0 {
      NoEvents(s, at, name, xs);
      assert s.waiters[name].waiting - Elements(xs) == s.waiters[name].waiting;
    } else {
      var n := |xs| - 1;
      EventsCount(s, at, name, xs[..n]);
      EventsSnoc(s, at, name, xs);
      assert xs[n] in xs && xs == xs[..n] + [xs[n]];
      assert Elements(xs) == Elements(xs[..n]) + {xs[n]};
      var s1 := Run(s, TaskEvents(at, name, xs[..n]));
      if ClosedAfter(s, s1, name) {
        EventAppends(s1, SeeTask(at, name, xs[n]));
      } else {
        EventCloses(s1, at, name, xs[n]);
      }
    }
  }

  lemma EventAppends(s: State, op: Op)
    requires |s.history| > 0 && op.SeeTask?
    ensures s.history <= Step(s, op).history
  {
  }

  lemma EventCloses(s: State, at: int, name: int, x: int)
    requires at == |s.history| - 1 >= 0 && s.seen <= at && Complete(Current(s), name)
    requires WaitsFor(s, name, Current(s)[StatusKey(name)].rev) && HasResult(Current(s), name, x)
    ensures var s' := Step(s, SeeTask(at, name, x));
            if s.waiters[name].waiting - {x} == {} then ClosedAfter(s, s', name)
            else s'.history == s.history && s'.seen == at && WaitsFor(s', name, Current(s)[StatusKey(name)].rev)
                 && s'.waiters[name].waiting == s.waiters[name].waiting - {x}
  {
    hide Replace, DeleteTasks;
    var t := Current(s)[TaskKey(name, x)].value.task;
    VerdictIs(Confirmed(s.waiters[name], t).tasks);
    hide Verdict;
  }

  /**
   Listing everything at the current revision closes a group whose tasks all have results
   if and only if the controller already waits for that very submission; otherwise the
   group stays open and every one of its executors is waited for again.
   */
  lemma RelistClosesIff(s: State, name: int, xs: seq<int>)
    requires Inv(s) && Complete(Current(s), name) && ListsExecutors(xs, Current(s)[StatusKey(name)].value.group)
    ensures var at, e := |s.history| - 1, Current(s)[StatusKey(name)];
            var s1 := Run(s, TaskEvents(at, name, xs));
            var s2 := Step(s1, SeeStatus(at, name));
            && (ClosedAfter(s, s2, name) <==> WaitsFor(s, name, e.rev))
            && (!WaitsFor(s, name, e.rev) ==>
                  && s2.history == s.history && WaitsFor(s2, name, e.rev)
                  && forall x :: x in xs ==> x in s2.waiters[name].waiting)
  {
    var at, e := |s.history| - 1, Current(s)[StatusKey(name)];
    if WaitsFor(s, name, e.rev) {
      RelistCloses(s, name, xs);
      hide Inv, Complete;
      StatusEvent(Run(s, TaskEvents(at, name, xs)), at, name);
    } else {
      RelistForgets(s, name, xs);
    }
  }

  lemma ListedHaveResults(s: State, name: int, xs: seq<int>, x: int)
    requires |s.history| > 0 && Complete(Current(s), name)
    requires ListsExecutors(xs, Current(s)[StatusKey(name)].value.group) && x in xs
    ensures HasResult(Current(s), name, x)
  {
    var t :| t in Current(s)[StatusKey(name)].value.group.tasks && t.executor == x;
  }

  lemma RelistCloses(s: State, name: int, xs: seq<int>)
    requires Inv(s) && Complete(Current(s), name) && ListsExecutors(xs, Current(s)[StatusKey(name)].value.group)
    requires WaitsFor(s, name, Current(s)[StatusKey(name)].rev)
    ensures ClosedAfter(s, Run(s, TaskEvents(|s.history| - 1, name, xs)), name)
  {
    var e := Current(s)[StatusKey(name)];
    GroupShape(s, name);
    WaiterShape(s, name, e);
    hide Inv, HasResult, Step, Run;
    forall x | x in xs
      ensures HasResult(Current(s), name, x)
    {
      ListedHaveResults(s, name, xs, x);
    }
    AllListed(e.value.group, xs, s.waiters[name].waiting);
    hide Complete, ListsExecutors, Elements;
    EventsCount(s, |s.history| - 1, name, xs);
  }

  lemma AllListed(g: Group, xs: seq<int>, waiting: set<int>)
    requires ListsExecutors(xs, g) && |g.tasks| > 0
    requires forall x :: x in waiting ==> exists t :: t in g.tasks && t.executor == x
    ensures waiting - Elements(xs) == {} && |xs| > 0
  {
    forall x | x in waiting
      ensures x in xs
    {
      var t :| t in g.tasks && t.executor == x;
    }
    assert g.tasks[0] in g.tasks;
  }

  lemma RelistForgets(s: State, name: int, xs: seq<int>)
    requires Inv(s) && Complete(Current(s), name) && ListsExecutors(xs, Current(s)[StatusKey(name)].value.group)
    requires !WaitsFor(s, name, Current(s)[StatusKey(name)].rev)
    ensures var at, e := |s.history| - 1, Current(s)[StatusKey(name)];
            var s2 := Step(Run(s, TaskEvents(at, name, xs)), SeeStatus(at, name));
            && s2.history == s.history && WaitsFor(s2, name, e.rev)
            && forall x :: x in xs ==> x in s2.waiters[name].waiting
  {
    var at, e := |s.history| - 1, Current(s)[StatusKey(name)];
    GroupShape(s, name);
    hide Inv, HasResult, Step, Run;
    forall x | x in xs
      ensures HasResult(Current(s), name, x)
    {
      ListedHaveResults(s, name, xs, x);
    }
    EventsIgnored(s, at, name, xs);
    hide Run, Complete, ListsExecutors;
    StatusAdds(Run(s, TaskEvents(at, name, xs)), at, name, xs, e);
  }

  lemma StatusAdds(s: State, at: int, name: int, xs: seq<int>, e: Entry)
    requires s.seen <= at && Visible(s, at, StatusKey(name)) && s.history[at][StatusKey(name)] == e
    requires e.value.GroupValue? && !IsDone(e.value.group.state) && ListsExecutors(xs, e.value.group)
    ensures var s' := Step(s, SeeStatus(at, name));
            && s'.history == s.history && WaitsFor(s', name, e.rev)
            && forall x :: x in xs ==> x in s'.waiters[name].waiting
  {
    forall x | x in xs
      ensures x in NewWaiter(e.value.group, e.rev).waiting
    {
      var t :| t in e.value.group.tasks && t.executor == x;
      var i :| 0 <= i < |e.value.group.tasks| && e.value.group.tasks[i] == t;
    }
    hide NewWaiter, ListsExecutors;
  }

  lemma StatusEvent(s: State, at: int, name: int)
    requires |s.history| > 0
    ensures Step(s, SeeStatus(at, name)).history == s.history
  {
  }

  /** A running group is that of its submission, which has executors. */
  lemma GroupShape(s: State, name: int)
    requires Inv(s) && Complete(Current(s), name)
    ensures 0 <= s.seen <= |s.history| - 1
    ensures |Current(s)[StatusKey(name)].value.group.tasks| > 0
  {
    hide HistoryOk, WaiterOk, JustifiedBy;
    assert StoreOk(Current(s), s.results, s.submissions);
    assert RunningOk(Current(s), name, s.results, s.submissions);
  }

  lemma WaiterShape(s: State, name: int, e: Entry)
    requires Inv(s) && Complete(Current(s), name) && e == Current(s)[StatusKey(name)] && WaitsFor(s, name, e.rev)
    ensures forall x :: x in s.waiters[name].waiting ==> exists t :: t in e.value.group.tasks && t.executor == x
  {
    hide HistoryOk;
    assert StoreOk(Current(s), s.results, s.submissions);
    assert RunningOk(Current(s), name, s.results, s.submissions);
    var xs := s.submissions[e.rev].executors;
    forall x | x in s.waiters[name].waiting
      ensures exists t :: t in e.value.group.tasks && t.executor == x
    {
      assert x in xs;
      var i :| 0 <= i < |xs| && xs[i] == x;
      assert e.value.group.tasks[i] in e.value.group.tasks && e.value.group.tasks[i].executor == x;
    }
  }

  /** A run that ends with all results in, everything read, and the group open. */
  lemma StuckGroup()
    ensures var s := Run(Init(), [Submit(1, [7]), SeeStatus(1, 1), Finish(1, 1, 7, false, NO_MESSAGE), Restart,
                                  SeeTask(2, 1, 7), SeeStatus(2, 1)]);
            && |s.history| == 3 && Complete(Current(s), 1) && s.seen == 2
            && 1 in s.waiters && s.waiters[1].waiting == {7}
  {
    hide Run;
    var ops := [Submit(1, [7]), SeeStatus(1, 1), Finish(1, 1, 7, false, NO_MESSAGE)];
    SubmitSeeFinish(false, NO_MESSAGE);
    RunSnoc(Init(), ops, Restart);
    var g := Group(Running, [Task(1, 7, Created, NO_MESSAGE)]);
    assert NewWaiter(g, 1).waiting == {7} by { assert g.tasks[0].executor == 7; }
    var s1 := Run(Init(), ops + [Restart]);
    assert s1.waiters == map[] && s1.history == Finished(Task(1, 7, DoneOK, NO_MESSAGE)).history;
    RunSnoc(Init(), ops + [Restart], SeeTask(2, 1, 7));
    assert Run(Init(), ops + [Restart] + [SeeTask(2, 1, 7)]) == s1.(seen := 2);
    RunSnoc(Init(), ops + [Restart] + [SeeTask(2, 1, 7)], SeeStatus(2, 1));
    assert ops + [Restart] + [SeeTask(2, 1, 7)] + [SeeStatus(2, 1)]
        == [Submit(1, [7]), SeeStatus(1, 1), Finish(1, 1, 7, false, NO_MESSAGE), Restart, SeeTask(2, 1, 7), SeeStatus(2, 1)];
  }
}
