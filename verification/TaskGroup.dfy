/**
 Grouped tasks over a versioned key-value store (`coordinator/task`): a submission
 puts the group's status and one task per executor in one transaction; executors
 write results under a revision guard; the controller watches, collects results and
 closes the group under a revision guard.  Events may be repeated, relisted or late,
 a name may be submitted again at any time, the controller may restart.
 */
module TaskGroup {
  datatype TaskState = Created | Running | DoneOK | DoneErr

  predicate IsDone(st: TaskState) {
    st == DoneOK || st == DoneErr
  }

  /** `name` stands for the kind and the name of a task. */
  datatype Task = Task(name: int, executor: int, state: TaskState, errMsg: string)

  datatype Group = Group(state: TaskState, tasks: seq<Task>)

  datatype Key = StatusKey(name: int) | TaskKey(name: int, executor: int)

  datatype Value = TaskValue(task: Task) | GroupValue(group: Group)

  /** A value and the revision that wrote it. */
  datatype Entry = Entry(value: Value, rev: int)

  type Store = map<Key, Entry>

  const MAX_TASKS_LIMIT := 127

  const NO_MESSAGE: string := []

  /** The controller's record of a running group. */
  datatype Waiter = Waiter(rev: int, tasks: seq<Task>, waiting: set<int>)

  /** A result: the task `executor` finished for the submission at revision `rev`. */
  datatype Claim = Claim(name: int, executor: int, rev: int)

  datatype Submission = Submission(name: int, executors: seq<int>)

  /**
   `history[r]` is the store at revision `r`, `seen` the revision the controller has
   read up to; `results` and `submissions` record what executors and submitters did.
   */
  datatype State = State(
    history: seq<Store>,
    seen: int,
    waiters: map<int, Waiter>,
    results: map<Claim, Task>,
    submissions: map<int, Submission>)

  function Init(): (s: State)
  {
    State([map[]], 0, map[], map[], map[])
  }

  function Current(s: State): (st: Store)
    requires |s.history| > 0
  {
    s.history[|s.history| - 1]
  }

  datatype Op =
    | Submit(name: int, executors: seq<int>)
    | Finish(at: int, name: int, executor: int, failed: bool, msg: string)  // a processor that saw revision `at`
    | SeeStatus(at: int, name: int)  // a status event
    | SeeTask(at: int, name: int, executor: int)  // a task event
    | Restart

  // ----- submitting -----

  function NewTasks(name: int, executors: seq<int>): (ts: seq<Task>)
    ensures |ts| == |executors|
    ensures forall i :: 0 <= i < |ts| ==> ts[i] == Task(name, executors[i], Created, NO_MESSAGE)
  {
    seq(|executors|, i requires 0 <= i < |executors| => Task(name, executors[i], Created, NO_MESSAGE))
  }

  ghost predicate Distinct(xs: seq<int>) {
    forall i, j :: 0 <= i < j < |xs| ==> xs[i] != xs[j]
  }

  function PutTasks(st: Store, ts: seq<Task>, rev: int): (st': Store)
  {
    if |ts| == 0 then st
    else
      var t := ts[|ts| - 1];
      PutTasks(st, ts[..|ts| - 1], rev)[TaskKey(t.name, t.executor) := Entry(TaskValue(t), rev)]
  }

  // ----- the controller -----

  /** `newStatusWaiter`. */
  function NewWaiter(g: Group, rev: int): (w: Waiter)
  {
    Waiter(rev, g.tasks, set i | 0 <= i < |g.tasks| :: g.tasks[i].executor)
  }

  /** The first task of the executor is replaced. */
  function Replace(ts: seq<Task>, t: Task): (ts': seq<Task>)
    ensures |ts'| == |ts|
  {
    if |ts| == 0 then []
    else if ts[0].executor == t.executor then [t] + ts[1..]
    else [ts[0]] + Replace(ts[1..], t)
  }

  /** `confirm`. */
  function Confirmed(w: Waiter, t: Task): (w': Waiter)
  {
    if t.executor !in w.waiting then w
    else Waiter(w.rev, Replace(w.tasks, t), w.waiting - {t.executor})
  }

  /** The state a closed group gets: it looks at the error messages only. */
  function Verdict(ts: seq<Task>): (st: TaskState)
  {
    if |ts| == 0 then DoneOK
    else if ts[|ts| - 1].errMsg != NO_MESSAGE then DoneErr
    else Verdict(ts[..|ts| - 1])
  }

  lemma {:induction false} VerdictIs(ts: seq<Task>)
    ensures Verdict(ts) == DoneOK <==> forall i :: 0 <= i < |ts| ==> ts[i].errMsg == NO_MESSAGE
    ensures IsDone(Verdict(ts))
  {
    if |ts| > 0 {
      VerdictIs(ts[..|ts| - 1]);
    }
  }

  function DeleteTasks(st: Store, ts: seq<Task>): (st': Store)
  {
    if |ts| == 0 then st
    else DeleteTasks(st, ts[..|ts| - 1]) - {TaskKey(ts[|ts| - 1].name, ts[|ts| - 1].executor)}
  }

  /** `UpdateStatus` succeeds while the status is still the one the waiter was made from. */
  predicate CanClose(s: State, name: int, w: Waiter)
    requires |s.history| > 0
  {
    StatusKey(name) in Current(s) && Current(s)[StatusKey(name)].rev == w.rev
  }

  function Close(s: State, name: int, w: Waiter): (s': State)
    requires |s.history| > 0
  {
    var rev := |s.history|;
    var st := DeleteTasks(Current(s), w.tasks)[StatusKey(name) := Entry(GroupValue(Group(Verdict(w.tasks), w.tasks)), rev)];
    s.(history := s.history + [st], waiters := s.waiters - {name})
  }

  /** `TryNotify`. */
  function Notify(s: State, t: Task): (s': State)
    requires |s.history| > 0
  {
    if !IsDone(t.state) || t.name !in s.waiters then s
    else
      var w := Confirmed(s.waiters[t.name], t);
      var s1 := s.(waiters := s.waiters[t.name := w]);
      if w.waiting == {} && CanClose(s1, t.name, w) then Close(s1, t.name, w) else s1
  }

  /** `TryAdd`. */
  function Add(s: State, name: int, e: Entry): (s': State)
    requires e.value.GroupValue?
  {
    if IsDone(e.value.group.state) then s else s.(waiters := s.waiters[name := NewWaiter(e.value.group, e.rev)])
  }

  // ----- steps -----

  predicate Visible(s: State, at: int, key: Key)
  {
    0 <= at < |s.history| && key in s.history[at]
  }

  ghost predicate Enabled(s: State, op: Op)
    requires |s.history| > 0
  {
    match op
    case Submit(name, executors) => 0 < |executors| < MAX_TASKS_LIMIT && Distinct(executors)
    case Finish(at, name, executor, _, _) =>
      var key := TaskKey(name, executor);
      && Visible(s, at, key) && s.history[at][key].value.TaskValue? && !IsDone(s.history[at][key].value.task.state)
      && key in Current(s) && Current(s)[key].rev == s.history[at][key].rev
    case SeeStatus(at, name) =>
      s.seen <= at && Visible(s, at, StatusKey(name)) && s.history[at][StatusKey(name)].value.GroupValue?
    case SeeTask(at, name, executor) =>
      s.seen <= at && Visible(s, at, TaskKey(name, executor)) && s.history[at][TaskKey(name, executor)].value.TaskValue?
    case Restart => true
  }

  ghost function Step(s: State, op: Op): (s': State)
    requires |s.history| > 0
    ensures |s'.history| >= |s.history|
  {
    if !Enabled(s, op) then s
    else
      match op
      case Submit(name, executors) =>
        var rev, ts := |s.history|, NewTasks(name, executors);
        var st := PutTasks(Current(s)[StatusKey(name) := Entry(GroupValue(Group(Running, ts)), rev)], ts, rev);
        s.(history := s.history + [st], submissions := s.submissions[rev := Submission(name, executors)])
      case Finish(at, name, executor, failed, msg) =>
        var key := TaskKey(name, executor);
        var seen := s.history[at][key];
        var t := if failed then seen.value.task.(state := DoneErr, errMsg := msg) else seen.value.task.(state := DoneOK);
        s.(history := s.history + [Current(s)[key := Entry(TaskValue(t), |s.history|)]],
           results := s.results[Claim(name, executor, seen.rev) := t])
      case SeeStatus(at, name) => Add(s.(seen := at), name, s.history[at][StatusKey(name)])
      case SeeTask(at, name, executor) => Notify(s.(seen := at), s.history[at][TaskKey(name, executor)].value.task)
      case Restart => s.(waiters := map[])
  }

  ghost function Run(s: State, ops: seq<Op>): (s': State)
    requires |s.history| > 0
    ensures |s'.history| >= |s.history|
  {
    if |ops| == 0 then s else Step(Run(s, ops[..|ops| - 1]), ops[|ops| - 1])
  }

  // ----- invariant -----

  /** A value written at a revision stays until its key is written or deleted. */
  ghost predicate HistoryOk(h: seq<Store>) {
    && |h| > 0
    && (forall p :: 0 <= p < |h| ==> RevsUpTo(h[p], p))
    && (forall p, q :: 0 <= p <= q < |h| ==> Persists(h[p], h[q], p))
  }

  ghost predicate RevsUpTo(st: Store, p: int) {
    forall k :: k in st ==> st[k].rev <= p
  }

  /** What the later store has from revision `p` or before, the store at `p` has too. */
  ghost predicate Persists(a: Store, b: Store, p: int) {
    forall k :: k in b && b[k].rev <= p ==> k in a && a[k] == b[k]
  }

  /** A running group of submission `rev`: each of its tasks is as submitted or holds the result of its executor. */
  ghost predicate RunningOk(st: Store, name: int, results: map<Claim, Task>, submissions: map<int, Submission>)
    requires StatusKey(name) in st
  {
    var e := st[StatusKey(name)];
    && e.value.GroupValue? && !IsDone(e.value.group.state)
    && e.rev in submissions && submissions[e.rev].name == name && Distinct(submissions[e.rev].executors)
    && |submissions[e.rev].executors| > 0
    && e.value.group.tasks == NewTasks(name, submissions[e.rev].executors)
    && forall x :: x in submissions[e.rev].executors ==>
         var k := TaskKey(name, x);
         && k in st && st[k].value.TaskValue?
         && st[k].value.task.name == name && st[k].value.task.executor == x
         && if IsDone(st[k].value.task.state)
            then Claim(name, x, e.rev) in results && results[Claim(name, x, e.rev)] == st[k].value.task
            else st[k].rev == e.rev
  }

  /**
   A closed group: every executor of some earlier submission has written a result for
   it, the group holds exactly these results, and it is OK when none has an error message.
   */
  ghost predicate ClosedOk(st: Store, name: int, results: map<Claim, Task>, submissions: map<int, Submission>)
    requires StatusKey(name) in st
  {
    var e := st[StatusKey(name)];
    && e.value.GroupValue? && IsDone(e.value.group.state)
    && exists rev :: JustifiedBy(e.value.group, name, rev, results, submissions)
  }

  ghost predicate JustifiedBy(g: Group, name: int, rev: int, results: map<Claim, Task>, submissions: map<int, Submission>) {
    && rev in submissions && submissions[rev].name == name && |g.tasks| == |submissions[rev].executors|
    && (forall i :: 0 <= i < |g.tasks| ==>
          var c := Claim(name, submissions[rev].executors[i], rev);
          c in results && results[c] == g.tasks[i] && IsDone(g.tasks[i].state))
    && (g.state == DoneOK <==> forall i :: 0 <= i < |g.tasks| ==> g.tasks[i].errMsg == NO_MESSAGE)
  }

  ghost predicate StoreOk(st: Store, results: map<Claim, Task>, submissions: map<int, Submission>) {
    && (forall name :: StatusKey(name) in st ==>
          RunningOk(st, name, results, submissions) || ClosedOk(st, name, results, submissions))
    && (forall name, x :: TaskKey(name, x) in st ==>
          st[TaskKey(name, x)].value.TaskValue? && st[TaskKey(name, x)].value.task.name == name
          && st[TaskKey(name, x)].value.task.executor == x)
  }

  /** The status the controller has read is still that of submission `rev`. */
  predicate StatusAt(st: Store, name: int, rev: int) {
    StatusKey(name) in st && st[StatusKey(name)].rev == rev
  }

  /**
   A waiter tracks a submission: as long as the status read is that submission's, every
   task it no longer waits for holds the result of its executor for that submission.
   */
  ghost predicate WaiterOk(st: Store, name: int, w: Waiter, results: map<Claim, Task>, submissions: map<int, Submission>) {
    && w.rev in submissions && submissions[w.rev].name == name && Distinct(submissions[w.rev].executors)
    && var xs := submissions[w.rev].executors;
       && |w.tasks| == |xs| && (forall x :: x in w.waiting ==> x in xs)
       && (StatusAt(st, name, w.rev) ==> st[StatusKey(name)].value.GroupValue? && !IsDone(st[StatusKey(name)].value.group.state))
       && (forall i :: 0 <= i < |xs| ==> w.tasks[i].name == name && w.tasks[i].executor == xs[i])
       && (forall i :: 0 <= i < |xs| && xs[i] !in w.waiting ==>
             && IsDone(w.tasks[i].state)
             && (StatusAt(st, name, w.rev) ==>
                   Claim(name, xs[i], w.rev) in results && results[Claim(name, xs[i], w.rev)] == w.tasks[i]))
  }

  ghost predicate Inv(s: State) {
    && HistoryOk(s.history) && 0 <= s.seen < |s.history|
    && (forall p :: 0 <= p < |s.history| ==> StoreOk(s.history[p], s.results, s.submissions))
    && ClaimsOk(s)
    && (forall r :: r in s.submissions ==> r < |s.history|)
    && (forall name :: name in s.waiters ==>
          s.waiters[name].rev <= s.seen
          && WaiterOk(s.history[s.seen], name, s.waiters[name], s.results, s.submissions))
  }

  /** A task that has a result is no longer the entry the result was for. */
  ghost predicate ClaimsOk(s: State)
    requires |s.history| > 0
  {
    forall c :: c in s.results ==>
      && c.rev < |s.history|
      && (TaskKey(c.name, c.executor) in Current(s) ==> Current(s)[TaskKey(c.name, c.executor)].rev != c.rev)
  }
}
