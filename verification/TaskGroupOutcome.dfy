/**
 What executors report and what the groups show: a group ends as OK exactly when every
 executor reported success, or a failure without a text; and every running group can still
 be closed.
 */
module TaskGroupOutcome {
  import opened TaskGroup
  import opened TaskGroupRuns
  import opened TaskGroupSafety

  /** What a processor was told by its task. */
  datatype Outcome = Outcome(failed: bool, msg: string)

  predicate Records(t: Task, o: Outcome) {
    if o.failed then t.state == DoneErr && t.errMsg == o.msg else t.state == DoneOK && t.errMsg == NO_MESSAGE
  }

  /** The reports that counted in a run, by the task and the submission they were for. */
  ghost function Told(ops: seq<Op>): (m: map<Claim, Outcome>)
  {
    if |ops| == 0 then map[]
    else
      var s, op, m := Run(Init(), ops[..|ops| - 1]), ops[|ops| - 1], Told(ops[..|ops| - 1]);
      if op.Finish? && Enabled(s, op)
      then m[Claim(op.name, op.executor, s.history[op.at][TaskKey(op.name, op.executor)].rev) := Outcome(op.failed, op.msg)]
      else m
  }

  /** A report changes its own task and nothing else, to exactly what was reported. */
  lemma FinishRecords(s: State, op: Op)
    requires Inv(s) && MessagesOk(s) && op.Finish? && Enabled(s, op)
    ensures var k := TaskKey(op.name, op.executor);
            var s', c := Step(s, op), Claim(op.name, op.executor, s.history[op.at][k].rev);
            && c !in s.results && c in s'.results
            && s' == s.(results := s.results[c := s'.results[c]],
                        history := s.history + [Current(s)[k := Entry(TaskValue(s'.results[c]), |s.history|)]])
            && s'.results[c].name == op.name && s'.results[c].executor == op.executor
            && Records(s'.results[c], Outcome(op.failed, op.msg))
  {
    hide WaiterOk, RunningOk, ClosedOk;
    var k := TaskKey(op.name, op.executor);
    GuardSees(s.history, op.at, k);
    assert StoreOk(s.history[op.at], s.results, s.submissions);
    assert Unsaid(s.history[op.at]);
  }

  lemma NoReport(s: State, op: Op)
    requires |s.history| > 0 && !(op.Finish? && Enabled(s, op))
    ensures Step(s, op).results == s.results
  {
  }

  /** The results are the reports. */
  lemma {:induction false} ResultsAreTold(ops: seq<Op>)
    ensures Run(Init(), ops).results.Keys == Told(ops).Keys
    ensures forall c :: c in Told(ops) ==> Records(Run(Init(), ops).results[c], Told(ops)[c])
    decreases |ops|
  {
    hide Step, Inv, MessagesOk, Enabled, Records;
    if |ops| > 0 {
      var n := |ops| - 1;
      var s, op := Run(Init(), ops[..n]), ops[n];
      ResultsAreTold(ops[..n]);
      if op.Finish? && Enabled(s, op) {
        RunKeeps(ops[..n]);
        RunMessages(ops[..n]);
        FinishRecords(s, op);
      } else {
        NoReport(s, op);
      }
    }
  }

  /** Succeeded, or failed without a text. */
  predicate Quiet(o: Outcome) {
    o.failed ==> o.msg == NO_MESSAGE
  }

  /**
   In every run, a group that is done belongs to a submission all of whose executors have
   reported, and it is OK if and only if each of them reported success or a failure without
   a text.
   */
  lemma OutcomeShows(ops: seq<Op>, p: int, name: int) returns (rev: int)
    requires 0 <= p < |Run(Init(), ops).history| && StatusKey(name) in Run(Init(), ops).history[p]
    requires var v := Run(Init(), ops).history[p][StatusKey(name)].value; v.GroupValue? && IsDone(v.group.state)
    ensures var s := Run(Init(), ops);
            && rev in s.submissions && s.submissions[rev].name == name
            && (forall x :: x in s.submissions[rev].executors ==> Claim(name, x, rev) in Told(ops))
            && (s.history[p][StatusKey(name)].value.group.state == DoneOK <==>
                  forall x :: x in s.submissions[rev].executors ==> Quiet(Told(ops)[Claim(name, x, rev)]))
  {
    hide Run, Told;
    DoneIsJustified(ops, p, name);
    ResultsAreTold(ops);
    var s := Run(Init(), ops);
    var g := s.history[p][StatusKey(name)].value.group;
    rev :| JustifiedBy(g, name, rev, s.results, s.submissions);
    var xs := s.submissions[rev].executors;
    forall i | 0 <= i < |xs|
      ensures Claim(name, xs[i], rev) in Told(ops)
      ensures g.tasks[i].errMsg == NO_MESSAGE <==> Quiet(Told(ops)[Claim(name, xs[i], rev)])
    {
      assert s.results[Claim(name, xs[i], rev)] == g.tasks[i];
    }
    if g.state == DoneOK {
      forall x | x in xs
        ensures Quiet(Told(ops)[Claim(name, x, rev)])
      {
        var i :| 0 <= i < |xs| && xs[i] == x;
        assert g.tasks[i].errMsg == NO_MESSAGE;
      }
    } else {
      var i :| 0 <= i < |g.tasks| && g.tasks[i].errMsg != NO_MESSAGE;
      assert xs[i] in xs && !Quiet(Told(ops)[Claim(name, xs[i], rev)]);
    }
  }

  // ----- every running group can be closed -----

  ghost predicate RunningNow(s: State, name: int)
    requires |s.history| > 0
  {
    StatusKey(name) in Current(s) && Current(s)[StatusKey(name)].value.GroupValue?
    && !IsDone(Current(s)[StatusKey(name)].value.group.state)
  }

  /** The running group's executors, each with its task in the store. */
  lemma RunningParts(s: State, name: int) returns (xs: seq<int>)
    requires Inv(s) && RunningNow(s, name)
    ensures var g := Current(s)[StatusKey(name)].value.group;
            && ListsExecutors(xs, g) && Distinct(xs)
            && forall x :: x in xs ==> HasTask(s, name, x)
  {
    hide HistoryOk, WaiterOk, ClosedOk;
    assert StoreOk(Current(s), s.results, s.submissions);
    var e := Current(s)[StatusKey(name)];
    RunningIs(Current(s), name, s.results, s.submissions);
    xs := s.submissions[e.rev].executors;
    var ts := e.value.group.tasks;
    forall t | t in ts
      ensures t.executor in xs
    {
      var i :| 0 <= i < |ts| && ts[i] == t;
    }
    forall x | x in xs
      ensures exists t :: t in ts && t.executor == x
    {
      var i :| 0 <= i < |xs| && xs[i] == x;
      assert ts[i] in ts && ts[i].executor == x;
    }
  }

  ghost predicate HasTask(s: State, name: int, x: int)
    requires |s.history| > 0
  {
    var k := TaskKey(name, x);
    && k in Current(s) && Current(s)[k].value.TaskValue?
    && Current(s)[k].value.task.name == name && Current(s)[k].value.task.executor == x
  }

  lemma RunningIs(st: Store, name: int, results: map<Claim, Task>, submissions: map<int, Submission>)
    requires StoreOk(st, results, submissions) && StatusKey(name) in st
    requires st[StatusKey(name)].value.GroupValue? && !IsDone(st[StatusKey(name)].value.group.state)
    ensures RunningOk(st, name, results, submissions)
  {
  }

  /** One executor reports, unless it has; the rest of the store stays. */
  lemma ReportOne(s: State, name: int, x: int) returns (op: Op)
    requires Inv(s) && MessagesOk(s) && HasTask(s, name, x)
    ensures var s' := Step(s, op);
            && Inv(s') && MessagesOk(s') && HasResult(Current(s'), name, x)
            && forall k :: k != TaskKey(name, x) ==>
                 (k in Current(s') <==> k in Current(s)) && (k in Current(s) ==> Current(s')[k] == Current(s)[k])
  {
    var at := |s.history| - 1;
    op := Finish(at, name, x, false, NO_MESSAGE);
    StepKeeps(s, op);
    StepMessages(s, op);
    hide Inv, MessagesOk;
    if Enabled(s, op) {
      FinishRecords(s, op);
    }
  }

  /** All executors of a list report. */
  lemma {:induction false} ReportAll(s: State, name: int, xs: seq<int>) returns (ops: seq<Op>)
    requires |s.history| > 0 && Inv(s) && MessagesOk(s) && (forall x :: x in xs ==> HasTask(s, name, x)) && Distinct(xs)
    ensures var s' := Run(s, ops);
            && Inv(s') && MessagesOk(s') && (forall x :: x in xs ==> HasResult(Current(s'), name, x))
            && (StatusKey(name) in Current(s) ==>
                  StatusKey(name) in Current(s') && Current(s')[StatusKey(name)] == Current(s)[StatusKey(name)])
            && forall x :: HasTask(s, name, x) ==> HasTask(s', name, x)
    decreases |xs|
  {
    ops := [];
    hide Inv, MessagesOk, Step;
    if |xs| > 0 {
      var n := |xs| - 1;
      var x := xs[n];
      ops := ReportAll(s, name, xs[..n]);
      var s1 := Run(s, ops);
      assert x in xs && HasTask(s1, name, x);
      var op := ReportOne(s1, name, x);
      RunSnoc(s, ops, op);
      ops := ops + [op];
      forall y | y in xs
        ensures HasResult(Step(s1, op).history[|Step(s1, op).history| - 1], name, y)
      {
        if y != x {
          assert y in xs[..n];
        }
      }
    }
  }

  lemma {:induction false} RunConcat(s: State, a: seq<Op>, b: seq<Op>)
    requires |s.history| > 0
    ensures Run(s, a + b) == Run(Run(s, a), b)
    decreases |b|
  {
    hide Step;
    if |b| == 0 {
      assert a + b == a;
    } else {
      assert (a + b)[..|a + b| - 1] == a + b[..|b| - 1];
      RunConcat(s, a, b[..|b| - 1]);
    }
  }

  ghost predicate ClosedAt(s: State, p: int, name: int)
    requires 0 <= p < |s.history|
  {
    StatusKey(name) in s.history[p] && s.history[p][StatusKey(name)].value.GroupValue?
    && IsDone(s.history[p][StatusKey(name)].value.group.state)
  }

  /**
   From every reachable state, some steps close a group that is running: its executors report,
   the controller reads the status and then the tasks.
   */
  lemma GroupCloses(ops: seq<Op>, name: int) returns (more: seq<Op>)
    requires RunningNow(Run(Init(), ops), name)
    ensures var s, u := Run(Init(), ops), Run(Init(), ops + more);
            exists p :: |s.history| <= p < |u.history| && ClosedAt(u, p, name)
  {
    hide Run, Step, Inv, MessagesOk, ListsExecutors, Distinct, HasTask;
    var s := Run(Init(), ops);
    RunKeeps(ops);
    RunMessages(ops);
    var xs := RunningParts(s, name);
    var reports := ReportAll(s, name, xs);
    var s1 := Run(s, reports);
    var events := CloseNow(s1, name, xs);
    RunConcat(s, reports, events);
    RunConcat(Init(), ops, reports + events);
    more := reports + events;
    assert ClosedAt(Run(s1, events), |s1.history|, name);
  }

  lemma CloseNow(s: State, name: int, xs: seq<int>) returns (events: seq<Op>)
    requires |s.history| > 0 && Inv(s) && RunningNow(s, name) && ListsExecutors(xs, Current(s)[StatusKey(name)].value.group)
    requires forall x :: x in xs ==> HasResult(Current(s), name, x)
    ensures ClosedAfter(s, Run(s, events), name)
  {
    hide *;
    var at, see := |s.history| - 1, SeeStatus(|s.history| - 1, name);
    SeeNow(s, name, xs);
    events := SeeFirst(s, see, TaskEvents(at, name, xs));
    RelistAfter(s, Step(s, see), name, xs);
  }

  lemma SeeFirst(s: State, see: Op, events: seq<Op>) returns (ops: seq<Op>)
    requires |s.history| > 0
    ensures Run(s, ops) == Run(Step(s, see), events)
  {
    hide Run, Step;
    ops := [see] + events;
    RunNone(s);
    RunSnoc(s, [], see);
    assert [] + [see] == [see];
    RunConcat(s, [see], events);
  }

  lemma RelistAfter(s: State, s2: State, name: int, xs: seq<int>)
    requires |s.history| > 0 && Inv(s2) && s2.history == s.history && Complete(Current(s), name)
    requires ListsExecutors(xs, Current(s)[StatusKey(name)].value.group)
    requires WaitsFor(s2, name, Current(s)[StatusKey(name)].rev)
    ensures ClosedAfter(s, Run(s2, TaskEvents(|s.history| - 1, name, xs)), name)
  {
    hide Inv, Run, ListsExecutors, HasResult, TaskEvents, WaitsFor;
    RelistCloses(s2, name, xs);
  }

  lemma RunNone(s: State)
    requires |s.history| > 0
    ensures Run(s, []) == s
  {
  }

  lemma SeeNow(s: State, name: int, xs: seq<int>)
    requires Inv(s) && RunningNow(s, name) && ListsExecutors(xs, Current(s)[StatusKey(name)].value.group)
    requires forall x :: x in xs ==> HasResult(Current(s), name, x)
    ensures var s' := Step(s, SeeStatus(|s.history| - 1, name));
            && Inv(s') && s'.history == s.history && Complete(Current(s), name)
            && WaitsFor(s', name, Current(s)[StatusKey(name)].rev)
  {
    StepKeeps(s, SeeStatus(|s.history| - 1, name));
    hide HistoryOk, StoreOk, WaiterOk, ClaimsOk, HasResult;
  }
}
