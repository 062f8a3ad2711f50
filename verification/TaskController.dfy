/** The controller's code (`coordinator/task/controller.go`), step for step the functions of `TaskGroup`. */
module TaskController {
  import opened Options
  import opened TaskGroup
  import opened TaskGroupRuns

  // ----- the controller's code -----

  /** `ts'` is `ts` with the first task of the executor replaced by `t`. */
  ghost predicate ReplacesFirst(ts: seq<Task>, t: Task, ts': seq<Task>) {
    && |ts'| == |ts|
    && forall i :: 0 <= i < |ts| ==>
         ts'[i] == if ts[i].executor == t.executor && (forall j :: 0 <= j < i ==> ts[j].executor != t.executor) then t
                   else ts[i]
  }

  /** The key is that of one of the tasks. */
  ghost predicate Names(ts: seq<Task>, k: Key) {
    exists i :: 0 <= i < |ts| && k == TaskKey(ts[i].name, ts[i].executor)
  }

  class StatusWaiter {
    const rev: int
    var tasks: seq<Task>
    var waiting: set<int>

    constructor (g: Group, rev: int)
      ensures View() == NewWaiter(g, rev)
      ensures this.rev == rev && tasks == g.tasks
      ensures forall x :: x in waiting <==> exists i :: 0 <= i < |g.tasks| && g.tasks[i].executor == x
    {
      this.rev := rev;
      tasks, waiting := g.tasks, {};
      new;
      for i := 0 to |g.tasks|
        invariant tasks == g.tasks && waiting == set j | 0 <= j < i :: g.tasks[j].executor
      {
        waiting := waiting + {g.tasks[i].executor};
      }
    }

    function View(): (w: Waiter)
      reads this
    {
      Waiter(rev, tasks, waiting)
    }

    /** Only an executor waited for counts; its first task takes the result. */
    method Confirm(task: Task)
      modifies this
      ensures View() == Confirmed(old(View()), task)
      ensures task.executor !in old(waiting) ==> tasks == old(tasks) && waiting == old(waiting)
      ensures task.executor in old(waiting) ==>
                waiting == old(waiting) - {task.executor} && ReplacesFirst(old(tasks), task, tasks)
    {
      if task.executor !in waiting {
        return;
      }
      waiting := waiting - {task.executor};
      for i := 0 to |tasks|
        invariant tasks == old(tasks)
        invariant forall j :: 0 <= j < i ==> tasks[j].executor != task.executor
      {
        if task.executor == tasks[i].executor {
          ReplaceFirst(tasks, task, i);
          tasks := tasks[i := task];
          return;
        }
      }
      ReplaceNone(tasks, task);
    }

    /** The state the group is closed with, and the store without its tasks. */
    method UpdateStatus(st: Store) returns (verdict: TaskState, st': Store)
      ensures verdict == Verdict(tasks) && st' == DeleteTasks(st, tasks)
      ensures verdict == if exists i :: 0 <= i < |tasks| && tasks[i].errMsg != NO_MESSAGE then DoneErr else DoneOK
      ensures forall k :: k in st' <==> k in st && !Names(tasks, k)
      ensures forall k :: k in st' ==> st'[k] == st[k]
    {
      verdict, st' := DoneOK, st;
      assert tasks[..0] == [];
      for i := 0 to |tasks|
        invariant verdict == Verdict(tasks[..i]) && st' == DeleteTasks(st, tasks[..i])
      {
        assert tasks[..i + 1][..i] == tasks[..i];
        st' := st' - {TaskKey(tasks[i].name, tasks[i].executor)};
        if tasks[i].errMsg != NO_MESSAGE {
          verdict := DoneErr;
        }
      }
      assert tasks[..|tasks|] == tasks;
      VerdictIs(tasks);
      DeletedAre(st, tasks);
    }
  }

  lemma DeletedAre(st: Store, ts: seq<Task>)
    ensures forall k :: k in DeleteTasks(st, ts) <==> k in st && !Names(ts, k)
    ensures forall k :: k in DeleteTasks(st, ts) ==> DeleteTasks(st, ts)[k] == st[k]
  {
    hide DeleteTasks;
    forall k
      ensures k in DeleteTasks(st, ts) <==> k in st && !Names(ts, k)
      ensures k in DeleteTasks(st, ts) ==> DeleteTasks(st, ts)[k] == st[k]
    {
      DeleteTasksAt(st, ts, k);
    }
  }

  lemma {:induction false} ReplaceFirst(ts: seq<Task>, t: Task, i: nat)
    requires i < |ts| && ts[i].executor == t.executor && forall j :: 0 <= j < i ==> ts[j].executor != t.executor
    ensures Replace(ts, t) == ts[i := t]
    decreases |ts|
  {
    if i > 0 {
      ReplaceFirst(ts[1..], t, i - 1);
    }
  }

  lemma {:induction false} ReplaceNone(ts: seq<Task>, t: Task)
    requires forall j :: 0 <= j < |ts| ==> ts[j].executor != t.executor
    ensures Replace(ts, t) == ts
    decreases |ts|
  {
    if |ts| > 0 {
      ReplaceNone(ts[1..], t);
    }
  }

  /** The waiter's tasks after the result `t`: it counts only if its executor was waited for. */
  ghost predicate Takes(w: Waiter, t: Task, ts: seq<Task>) {
    if t.executor in w.waiting then ReplacesFirst(w.tasks, t, ts) else ts == w.tasks
  }

  /** The store in which the group is closed: its tasks are gone, its status tells whether one has an error message. */
  ghost predicate Closes(st: Store, t: Task, w: Waiter, rev: int, st': Store) {
    && StatusKey(t.name) in st' && st'[StatusKey(t.name)].rev == rev && st'[StatusKey(t.name)].value.GroupValue?
    && var g := st'[StatusKey(t.name)].value.group;
       && Takes(w, t, g.tasks)
       && g.state == (if exists i :: 0 <= i < |g.tasks| && g.tasks[i].errMsg != NO_MESSAGE then DoneErr else DoneOK)
       && (forall k :: k != StatusKey(t.name) ==> (k in st' <==> k in st && !Names(g.tasks, k)))
       && (forall k :: k in st' && k != StatusKey(t.name) ==> st'[k] == st[k])
  }

  /**
   The store after a submission: a running group and one new task per executor, all written at
   `rev`, and nothing else changed.
   */
  ghost predicate IsSubmitted(st: Store, name: int, xs: seq<int>, rev: int, st': Store) {
    && StatusKey(name) in st' && st'[StatusKey(name)].rev == rev && st'[StatusKey(name)].value.GroupValue?
    && var g := st'[StatusKey(name)].value.group;
       && g.state == Running && |g.tasks| == |xs|
       && (forall i :: 0 <= i < |xs| ==> g.tasks[i] == Task(name, xs[i], Created, NO_MESSAGE))
       && (forall x :: x in xs ==>
             TaskKey(name, x) in st' && st'[TaskKey(name, x)] == Entry(TaskValue(Task(name, x, Created, NO_MESSAGE)), rev))
       && (forall k: Key :: k != StatusKey(name) && !(k.TaskKey? && k.name == name && k.executor in xs) ==>
             (k in st' <==> k in st) && (k in st ==> st'[k] == st[k]))
  }

  lemma SubmittedIs(st: Store, name: int, xs: seq<int>, rev: int)
    ensures var ts := NewTasks(name, xs);
            IsSubmitted(st, name, xs, rev, PutTasks(st[StatusKey(name) := Entry(GroupValue(Group(Running, ts)), rev)], ts, rev))
  {
    hide PutTasks;
    forall k: Key
    {
      SubmittedAt(st, name, xs, rev, k);
    }
  }

  lemma ReplaceIs(ts: seq<Task>, t: Task)
    ensures ReplacesFirst(ts, t, Replace(ts, t))
  {
    hide Replace;
    if i :| 0 <= i < |ts| && ts[i].executor == t.executor && forall j :: 0 <= j < i ==> ts[j].executor != t.executor {
      ReplaceFirst(ts, t, i);
    } else {
      NoneFirst(ts, t, |ts|);
      ReplaceNone(ts, t);
    }
  }

  lemma {:induction false} NoneFirst(ts: seq<Task>, t: Task, n: nat)
    requires n <= |ts|
    requires forall i :: 0 <= i < |ts| && ts[i].executor == t.executor ==> exists j :: 0 <= j < i && ts[j].executor == t.executor
    ensures forall i :: 0 <= i < n ==> ts[i].executor != t.executor
  {
    if n > 0 {
      NoneFirst(ts, t, n - 1);
    }
  }

  /** What a result does to the controller and to the store. */
  lemma NotifyIs(s: State, t: Task)
    requires |s.history| > 0
    ensures !IsDone(t.state) || t.name !in s.waiters ==> Notify(s, t) == s
    ensures IsDone(t.state) && t.name in s.waiters ==>
              var w, st, s' := s.waiters[t.name], Current(s), Notify(s, t);
              if w.waiting <= {t.executor} && StatusKey(t.name) in st && st[StatusKey(t.name)].rev == w.rev then
                && |s'.history| == |s.history| + 1 && s'.history[..|s.history|] == s.history
                && s'.waiters == s.waiters - {t.name} && Closes(st, t, w, |s.history|, Current(s'))
              else
                && s'.history == s.history && t.name in s'.waiters && s'.waiters == s.waiters[t.name := s'.waiters[t.name]]
                && s'.waiters[t.name].rev == w.rev && s'.waiters[t.name].waiting == w.waiting - {t.executor}
                && Takes(w, t, s'.waiters[t.name].tasks)
  {
    hide Replace, DeleteTasks, Verdict, ReplacesFirst;
    if IsDone(t.state) && t.name in s.waiters {
      var w := s.waiters[t.name];
      var w' := Confirmed(w, t);
      ReplaceIs(w.tasks, t);
      assert Takes(w, t, w'.tasks) && w'.waiting == w.waiting - {t.executor};
      assert w'.waiting == {} <==> w.waiting <= {t.executor};
      VerdictIs(w'.tasks);
      DeletedAre(Current(s), w'.tasks);
    }
  }

  datatype Submitted = ErrClosed | ErrLimit | Nothing | Txn(st: Store)

  class Controller {
    var waiters: map<int, Waiter>

    constructor ()
      ensures waiters == map[]
    {
      waiters := map[];
    }

    /** `Submit`: the status and all tasks in one transaction. */
    method Submit(closed: bool, name: int, executors: seq<int>, st: Store, rev: int) returns (r: Submitted)
      ensures r == ErrClosed <==> closed
      ensures r == ErrLimit <==> !closed && |executors| >= MAX_TASKS_LIMIT
      ensures r == Nothing <==> !closed && |executors| == 0
      ensures r.Txn? ==>
                IsSubmitted(st, name, executors, rev, r.st)
      ensures r.Txn? ==>
                forall s: State :: |s.history| == rev && rev > 0 && Current(s) == st && Distinct(executors) ==>
                  Step(s, Op.Submit(name, executors)).history == s.history + [r.st]
    {
      if closed {
        return ErrClosed;
      }
      if |executors| >= MAX_TASKS_LIMIT {
        return ErrLimit;
      }
      if |executors| == 0 {
        return Nothing;
      }
      var tasks := [];
      for i := 0 to |executors|
        invariant tasks == NewTasks(name, executors[..i])
      {
        tasks := tasks + [Task(name, executors[i], Created, NO_MESSAGE)];
      }
      assert executors[..|executors|] == executors;
      var puts := st[StatusKey(name) := Entry(GroupValue(Group(Running, tasks)), rev)];
      ghost var before := puts;
      assert tasks[..0] == [];
      for i := 0 to |tasks|
        invariant puts == PutTasks(before, tasks[..i], rev)
      {
        assert tasks[..i + 1][..i] == tasks[..i];
        puts := puts[TaskKey(tasks[i].name, tasks[i].executor) := Entry(TaskValue(tasks[i]), rev)];
      }
      assert tasks[..|tasks|] == tasks;
      SubmittedIs(st, name, executors, rev);
      r := Txn(puts);
    }

    /** Groups that are done already are ignored; a waiter of the same name is replaced. */
    method TryAdd(name: int, e: Entry, ghost s: State)
      requires e.value.GroupValue? && s.waiters == waiters
      modifies this
      ensures waiters == Add(s, name, e).waiters
      ensures IsDone(e.value.group.state) ==> waiters == old(waiters)
      ensures !IsDone(e.value.group.state) ==>
                && name in waiters && waiters == old(waiters)[name := waiters[name]]
                && waiters[name].rev == e.rev && waiters[name].tasks == e.value.group.tasks
                && forall x :: x in waiters[name].waiting <==> exists t :: t in e.value.group.tasks && t.executor == x
    {
      if IsDone(e.value.group.state) {
        return;
      }
      var w := new StatusWaiter(e.value.group, e.rev);
      waiters := waiters[name := w.View()];
    }

    /** Confirms a result; closes the group when it was the last and the status has not changed. */
    method TryNotify(t: Task, st: Store, rev: int, ghost s: State) returns (txn: Option<Store>)
      requires s.waiters == waiters && |s.history| > 0 && st == Current(s) && rev == |s.history|
      modifies this
      ensures waiters == Notify(s, t).waiters
      ensures Notify(s, t).history == if txn.Some? then s.history + [txn.value] else s.history
      ensures !IsDone(t.state) || t.name !in old(waiters) ==> txn == None && waiters == old(waiters)
      ensures IsDone(t.state) && t.name in old(waiters) ==>
                var w := old(waiters)[t.name];
                && (txn.Some? <==> w.waiting <= {t.executor} && StatusKey(t.name) in st && st[StatusKey(t.name)].rev == w.rev)
                && (txn.Some? ==> waiters == old(waiters) - {t.name} && Closes(st, t, w, rev, txn.value))
                && (txn == None ==>
                      && t.name in waiters && waiters == old(waiters)[t.name := waiters[t.name]]
                      && waiters[t.name].rev == w.rev && waiters[t.name].waiting == w.waiting - {t.executor}
                      && Takes(w, t, waiters[t.name].tasks))
    {
      hide Takes, Closes, Replace, DeleteTasks, Verdict, ReplacesFirst, Names;
      NotifyIs(s, t);
      if !IsDone(t.state) || t.name !in waiters {
        return None;
      }
      var was := waiters[t.name];
      var w := new StatusWaiter(Group(Running, was.tasks), was.rev);
      w.waiting := was.waiting;
      w.Confirm(t);
      waiters := waiters[t.name := w.View()];
      if w.waiting != {} || StatusKey(t.name) !in st || st[StatusKey(t.name)].rev != w.rev {
        return None;
      }
      var verdict, st' := w.UpdateStatus(st);
      waiters := waiters - {t.name};
      txn := Some(st'[StatusKey(t.name) := Entry(GroupValue(Group(verdict, w.tasks)), rev)]);
    }
  }
}
