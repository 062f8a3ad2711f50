/**
 The file number counter (`kv/version/version_set.go`).  A commit loads the counter,
 logs it, and stores it plus one when it applies its own log; only commits exclude
 each other, so numbers may be handed out in between.
 */
module FileNumbers {
  import opened Options

  /** `handed` lists the numbers given out; `since` counts those given out since the load. */
  datatype Counter = Counter(next: int, handed: seq<int>, loaded: Option<int>, since: nat)

  datatype Op = Take | Load | Store

  function Init(): (c: Counter)
  {
    Counter(2, [], None, 0)
  }

  function Step(c: Counter, op: Op): (c': Counter)
  {
    match op
    case Take => Counter(c.next + 1, c.handed + [c.next], c.loaded, c.since + 1)
    case Load => if c.loaded == None then c.(loaded := Some(c.next), since := 0) else c
    case Store => if c.loaded == None then c else c.(next := c.loaded.value + 1, loaded := None, since := 0)
  }

  function Run(c: Counter, ops: seq<Op>): (c': Counter)
  {
    if |ops| == 0 then c else Step(Run(c, ops[..|ops| - 1]), ops[|ops| - 1])
  }

  ghost predicate Distinct(ns: seq<int>) {
    forall i, j :: 0 <= i < j < |ns| ==> ns[i] != ns[j]
  }

  /** The counter is above all numbers given out, and just above those given out since the load. */
  ghost predicate Inv(c: Counter) {
    && Distinct(c.handed) && (forall i :: 0 <= i < |c.handed| ==> c.handed[i] < c.next)
    && (c.loaded.Some? ==>
          && c.next == c.loaded.value + c.since
          && forall n :: c.loaded.value <= n < c.next ==> n in c.handed)
  }

  /** At most one number was handed out between the load and the store. */
  predicate Slow(c: Counter, op: Op) {
    op == Store && c.loaded.Some? ==> c.since <= 1
  }

  lemma StepKeeps(c: Counter, op: Op)
    requires Inv(c) && Slow(c, op)
    ensures Inv(Step(c, op))
  {
    if op == Take {
      var c' := Step(c, op);
      assert c'.handed[|c.handed|] == c.next;
      if c.loaded.Some? {
        forall n | c.loaded.value <= n < c'.next
          ensures n in c'.handed
        {
          if n < c.next {
            assert n in c.handed;
          }
        }
      }
    }
  }

  /** While no commit is overtaken twice, no number is handed out twice. */
  lemma {:induction false} RunKeeps(c: Counter, ops: seq<Op>)
    requires Inv(c) && forall i :: 0 <= i < |ops| ==> Slow(Run(c, ops[..i]), ops[i])
    ensures Inv(Run(c, ops))
    decreases |ops|
  {
    if |ops| > 0 {
      var n := |ops| - 1;
      forall i | 0 <= i < n
        ensures Slow(Run(c, ops[..n][..i]), ops[..n][i])
      {
        assert ops[..n][..i] == ops[..i];
      }
      RunKeeps(c, ops[..n]);
      StepKeeps(Run(c, ops[..n]), ops[n]);
    }
  }

  /** A commit overtaken by two numbers takes the counter back below the second one. */
  lemma NumberReused()
    ensures Run(Init(), [Load, Take, Take, Store, Take]).handed == [2, 3, 3]
  {
    var ops := [Load, Take, Take, Store, Take];
    assert ops[..4] == [Load, Take, Take, Store] && ops[..4][..3] == [Load, Take, Take];
    assert [Load, Take, Take][..2] == [Load, Take] && [Load, Take][..1] == [Load] && [Load][..0] == [];
    assert Run(Init(), [Load]) == Step(Init(), Load);
    assert Run(Init(), [Load, Take]) == Step(Run(Init(), [Load]), Take);
    assert Run(Init(), [Load, Take, Take]) == Step(Run(Init(), [Load, Take]), Take);
    assert Run(Init(), ops[..4]) == Step(Run(Init(), [Load, Take, Take]), Store);
  }

  /** A store keeps later numbers new exactly when at most one was handed out since its load. */
  lemma StoreUniqueIff(c: Counter)
    requires Inv(c) && c.loaded.Some?
    ensures c.since <= 1 <==>
            forall ops :: (forall i :: 0 <= i < |ops| ==> Slow(Run(Step(c, Store), ops[..i]), ops[i])) ==>
              Distinct(Run(Step(c, Store), ops).handed)
  {
    var c1 := Step(c, Store);
    if c.since <= 1 {
      StepKeeps(c, Store);
      forall ops | forall i :: 0 <= i < |ops| ==> Slow(Run(c1, ops[..i]), ops[i])
        ensures Distinct(Run(c1, ops).handed)
      {
        RunKeeps(c1, ops);
      }
    } else {
      var ops := [Take];
      assert ops[..0] == [];
      assert Run(c1, ops) == Step(c1, Take);
      assert c.loaded.value + 1 in c.handed;
      var i :| 0 <= i < |c.handed| && c.handed[i] == c.loaded.value + 1;
      var hs := Run(c1, ops).handed;
      assert hs[i] == hs[|c.handed|];
      assert forall i :: 0 <= i < |ops| ==> Slow(Run(c1, ops[..i]), ops[i]);
    }
  }
}
