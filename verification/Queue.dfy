/**
 The fan-out queue of `pkg/queue`: one append-only log, any number of named
 consumers, each with a consume position (`head`) and an acknowledged position
 (`tail`), and a queue tail below which whole segments may be removed.
 */
module Queue {
  import opened Options

  type Data = seq<int>

  /** One consumer; `metaHead`/`metaTail` is what its mapped meta page holds. */
  datatype Fan = Fan(head: int, tail: int, metaHead: int, metaTail: int)

  /**
   `log` holds every message ever appended, `removed` how many of the oldest ones
   segment removal has dropped; `metaTail` is the queue tail on its meta page.
   */
  datatype State = State(log: seq<Data>, tail: int, metaTail: int, removed: nat, fans: map<string, Fan>) {
    /** The sequence the next append gets. */
    function Head(): int {
      |log|
    }
  }

  const NO_NEW_MESSAGE := -1

  // ----- one consumer -----

  function ConsumeResult(f: Fan, queueHead: int): (seq_: int)
  {
    if f.head < queueHead then f.head else NO_NEW_MESSAGE
  }

  function Consumed(f: Fan, queueHead: int): (f': Fan)
  {
    if f.head < queueHead then f.(head := f.head + 1) else f
  }

  predicate CanSetHead(f: Fan, queueHead: int, seq_: int) {
    f.tail <= seq_ <= queueHead
  }

  predicate AckAdvances(f: Fan, ackSeq: int) {
    f.tail < ackSeq < f.head
  }

  function Acked(f: Fan, ackSeq: int): (f': Fan)
  {
    if AckAdvances(f, ackSeq) then f.(tail := ackSeq, metaHead := f.head, metaTail := ackSeq) else f
  }

  /** `NewFanOut`: positions from the meta page, or the queue tail when the page is still zero. */
  function OpenFan(metaHead: int, metaTail: int, queueTail: int): (f: Fan)
  {
    if metaHead == 0 && metaTail == 0 then Fan(queueTail, queueTail, metaHead, metaTail)
    else Fan(metaHead, metaTail, metaHead, metaTail)
  }

  // ----- the queue -----

  ghost predicate IsMinTail(fans: map<string, Fan>, init: int, m: int) {
    && m <= init
    && (forall k :: k in fans ==> m <= fans[k].tail)
    && (m == init || exists k :: k in fans && fans[k].tail == m)
  }

  /** One more consumer in the minimum. */
  lemma MinTailStep(fans: map<string, Fan>, k: string, init: int, m: int)
    requires k in fans && IsMinTail(fans - {k}, init, m)
    ensures IsMinTail(fans, init, if fans[k].tail < m then fans[k].tail else m)
  {
    var rest := fans - {k};
    forall j | j in fans
      ensures (if fans[k].tail < m then fans[k].tail else m) <= fans[j].tail
    {
      assert j != k ==> j in rest && rest[j] == fans[j];
    }
    if m <= fans[k].tail && m != init {
      var j :| j in rest && rest[j].tail == m;
      assert j in fans && fans[j].tail == m;
    }
  }

  lemma {:induction false} MinTailExists(fans: map<string, Fan>, init: int) returns (m: int)
    ensures IsMinTail(fans, init, m)
    decreases |fans|
  {
    if |fans| == 0 {
      m := init;
    } else {
      var k :| k in fans;
      m := MinTailExists(fans - {k}, init);
      MinTailStep(fans, k, init, m);
      m := if fans[k].tail < m then fans[k].tail else m;
    }
  }

  lemma NoTails(fans: map<string, Fan>, init: int)
    requires |fans| == 0
    ensures IsMinTail(fans, init, init)
  {
  }

  lemma MinTailUnique(fans: map<string, Fan>, init: int, m: int, m': int)
    requires IsMinTail(fans, init, m) && IsMinTail(fans, init, m')
    ensures m == m'
  {
  }

  ghost function MinTail(fans: map<string, Fan>, init: int): (m: int)
    ensures IsMinTail(fans, init, m)
  {
    assert exists m :: IsMinTail(fans, init, m) by {
      var m := MinTailExists(fans, init);
    }
    var m :| IsMinTail(fans, init, m);
    m
  }

  /** `queue.Ack`: the tail moves up to a sequence that has already been appended. */
  function QueueAck(s: State, seq_: int): (s': State)
  {
    if s.tail < seq_ < s.Head() then s.(tail := seq_, metaTail := seq_) else s
  }

  /** `fanOutQueue.Sync`: the queue tail follows the slowest consumer. */
  ghost function Synced(s: State): (s': State)
  {
    if |s.fans| == 0 then s else QueueAck(s, MinTail(s.fans, s.Head()))
  }

  datatype Op =
    | Append(data: Data)
    | Create(name: string)
    | Consume(name: string)
    | SetHead(name: string, seq_: int)
    | Ack(name: string, seq_: int)
    | RemoveSegments(bound: nat)
    | Restart

  /** Segment removal drops some messages below the queue tail; a restart reloads every position. */
  ghost function Step(s: State, op: Op): (s': State)
  {
    match op
    case Append(d) => s.(log := s.log + [d])
    case Create(n) => if n in s.fans then s else s.(fans := s.fans[n := OpenFan(0, 0, s.tail)])
    case Consume(n) => if n in s.fans then s.(fans := s.fans[n := Consumed(s.fans[n], s.Head())]) else s
    case SetHead(n, q) =>
      if n in s.fans && CanSetHead(s.fans[n], s.Head(), q) then s.(fans := s.fans[n := s.fans[n].(head := q)]) else s
    case Ack(n, q) =>
      if n in s.fans && AckAdvances(s.fans[n], q) then Synced(s.(fans := s.fans[n := Acked(s.fans[n], q)])) else s
    case RemoveSegments(b) => if s.removed < b <= s.tail then s.(removed := b) else s
    case Restart =>
      s.(tail := s.metaTail,
         fans := map n | n in s.fans :: OpenFan(s.fans[n].metaHead, s.fans[n].metaTail, s.metaTail))
  }

  ghost function Run(s: State, ops: seq<Op>): (s': State)
  {
    if |ops| == 0 then s else Step(Run(s, ops[..|ops| - 1]), ops[|ops| - 1])
  }

  // ----- what every run keeps -----

  ghost predicate FanInv(f: Fan, s: State) {
    && s.tail <= f.tail <= f.head <= s.Head()
    && (if f.metaHead == 0 && f.metaTail == 0 then f.tail == s.tail
        else f.metaTail == f.tail && f.tail <= f.metaHead <= s.Head())
  }

  /** The queue tail is the slowest consumer's, and nothing at or above it has been removed. */
  ghost predicate Inv(s: State) {
    && 0 <= s.tail == s.metaTail
    && s.tail <= s.Head()
    && s.removed <= s.tail
    && (forall n :: n in s.fans ==> FanInv(s.fans[n], s))
    && (|s.fans| > 0 ==> exists n :: n in s.fans && s.fans[n].tail == s.tail)
  }

  lemma AckKeepsInv(s: State, n: string, q: int)
    requires Inv(s) && n in s.fans && AckAdvances(s.fans[n], q)
    ensures Inv(Step(s, Op.Ack(n, q)))
  {
    var fans := s.fans[n := Acked(s.fans[n], q)];
    var m := MinTail(fans, s.Head());
    assert n in fans && fans[n].tail == q < s.Head();
    var k :| k in fans && fans[k].tail == m;
    var s' := Step(s, Op.Ack(n, q));
    assert s'.fans == fans && k in s'.fans;
    assert m >= s.tail;
    assert s'.tail == m;
    forall j | j in fans
      ensures FanInv(fans[j], s')
    {
      assert j in s.fans && FanInv(s.fans[j], s);
    }
  }

  lemma OpenKeepsFan(f: Fan, s: State)
    requires FanInv(f, s) && s.tail == s.metaTail
    ensures FanInv(OpenFan(f.metaHead, f.metaTail, s.metaTail), s)
    ensures OpenFan(f.metaHead, f.metaTail, s.metaTail).tail == f.tail
  {
  }

  lemma RestartKeepsInv(s: State)
    requires Inv(s)
    ensures Inv(Step(s, Restart))
  {
    var s' := Step(s, Restart);
    forall n | n in s.fans
      ensures FanInv(s'.fans[n], s') && s'.fans[n].tail == s.fans[n].tail
    {
      OpenKeepsFan(s.fans[n], s);
    }
    if |s'.fans| > 0 {
      var n :| n in s'.fans;
      assert n in s.fans;
      var k :| k in s.fans && s.fans[k].tail == s.tail;
      assert k in s'.fans;
    }
  }

  lemma UpdateFanKeepsInv(s: State, n: string, f: Fan)
    requires Inv(s) && n in s.fans && FanInv(f, s) && f.tail == s.fans[n].tail
    ensures Inv(s.(fans := s.fans[n := f]))
  {
    var s' := s.(fans := s.fans[n := f]);
    var k :| k in s.fans && s.fans[k].tail == s.tail;
    assert k in s'.fans && s'.fans[k].tail == s'.tail;
    forall j | j in s'.fans
      ensures FanInv(s'.fans[j], s')
    {
      assert j != n ==> FanInv(s.fans[j], s);
    }
  }

  lemma CreateKeepsInv(s: State, n: string)
    requires Inv(s) && n !in s.fans
    ensures Inv(Step(s, Create(n)))
  {
    var s' := Step(s, Create(n));
    assert n in s'.fans && s'.fans[n].tail == s'.tail;
    forall j | j in s'.fans
      ensures FanInv(s'.fans[j], s')
    {
      assert j != n ==> FanInv(s.fans[j], s);
    }
  }

  lemma AppendKeepsInv(s: State, d: Data)
    requires Inv(s)
    ensures Inv(Step(s, Append(d)))
  {
    var s' := Step(s, Append(d));
    forall j | j in s'.fans
      ensures FanInv(s'.fans[j], s')
    {
      assert FanInv(s.fans[j], s);
    }
  }

  lemma StepKeepsInv(s: State, op: Op)
    requires Inv(s)
    ensures Inv(Step(s, op))
  {
    hide Inv, FanInv, IsMinTail, MinTail, Synced;
    match op
    case Append(d) => AppendKeepsInv(s, d);
    case Create(n) => if n !in s.fans { CreateKeepsInv(s, n); }
    case Consume(n) => ConsumeKeepsInv(s, n);
    case SetHead(n, q) => SetHeadKeepsInv(s, n, q);
    case Ack(n, q) => if n in s.fans && AckAdvances(s.fans[n], q) { AckKeepsInv(s, n, q); }
    case RemoveSegments(b) => RemoveKeepsInv(s, b);
    case Restart => RestartKeepsInv(s);
  }

  lemma ConsumeKeepsInv(s: State, n: string)
    requires Inv(s)
    ensures Inv(Step(s, Op.Consume(n)))
  {
    if n in s.fans {
      UpdateFanKeepsInv(s, n, Consumed(s.fans[n], s.Head()));
    }
  }

  lemma SetHeadKeepsInv(s: State, n: string, q: int)
    requires Inv(s)
    ensures Inv(Step(s, Op.SetHead(n, q)))
  {
    if n in s.fans && CanSetHead(s.fans[n], s.Head(), q) {
      UpdateFanKeepsInv(s, n, s.fans[n].(head := q));
    }
  }

  lemma RemoveKeepsInv(s: State, b: nat)
    requires Inv(s)
    ensures Inv(Step(s, RemoveSegments(b)))
  {
    var s' := Step(s, RemoveSegments(b));
    forall j | j in s'.fans
      ensures FanInv(s'.fans[j], s')
    {
      assert FanInv(s.fans[j], s);
    }
  }

  /** Over every run the invariant holds. */
  lemma {:induction false} RunKeepsInv(s: State, ops: seq<Op>)
    requires Inv(s)
    ensures Inv(Run(s, ops))
  {
    hide Inv, Step;
    if |ops| > 0 {
      RunKeepsInv(s, ops[..|ops| - 1]);
      StepKeepsInv(Run(s, ops[..|ops| - 1]), ops[|ops| - 1]);
    }
  }

  const Empty := State([], 0, 0, 0, map[])

  /**
   Retention: whatever was appended, consumed, acknowledged, removed and restarted,
   the queue tail is the least consumer tail, and every message some consumer has
   not acknowledged is still there, with the next one it will be handed among them.
   */
  lemma Retention(ops: seq<Op>)
    ensures var s := Run(Empty, ops);
            && (|s.fans| > 0 ==> IsMinTail(s.fans, s.Head(), s.tail))
            && (forall n :: n in s.fans ==>
                  s.removed <= s.fans[n].tail <= s.fans[n].head <= s.Head())
  {
    RunKeepsInv(Empty, ops);
  }

  /** Tails never go back, of the queue or of a consumer, and the log only grows. */
  lemma TailsOnlyGrow(s: State, op: Op)
    requires Inv(s)
    ensures var s' := Step(s, op);
            && s.tail <= s'.tail && s.log <= s'.log && s.removed <= s'.removed
            && (forall n :: n in s.fans ==> n in s'.fans && s.fans[n].tail <= s'.fans[n].tail)
  {
    hide MinTail, IsMinTail;
    if op.Ack? && op.name in s.fans && AckAdvances(s.fans[op.name], op.seq_) {
      AckKeepsInv(s, op.name, op.seq_);
    }
    if op.Restart? {
      forall n | n in s.fans
        ensures s.fans[n].tail <= Step(s, op).fans[n].tail
      {
        OpenKeepsFan(s.fans[n], s);
      }
    }
  }

  // ----- where a consumer starts again -----

  /** The consumer's head when it last acknowledged something new, if it ever did. */
  ghost function AckedHead(ops: seq<Op>, n: string): (h: Option<int>)
  {
    if |ops| == 0 then None
    else
      var s, op := Run(Empty, ops[..|ops| - 1]), ops[|ops| - 1];
      if op.Ack? && op.name == n && n in s.fans && s.fans[n].tail < op.seq_ < s.fans[n].head then Some(s.fans[n].head)
      else AckedHead(ops[..|ops| - 1], n)
  }

  lemma NamesStay(s: State, op: Op, n: string)
    requires n in s.fans
    ensures n in Step(s, op).fans
  {
    hide MinTail;
  }

  lemma {:induction false} NeverAcked(ops: seq<Op>, n: string)
    requires n !in Run(Empty, ops).fans
    ensures AckedHead(ops, n) == None
    decreases |ops|
  {
    hide Step;
    if |ops| > 0 {
      var k := |ops| - 1;
      if n in Run(Empty, ops[..k]).fans {
        NamesStay(Run(Empty, ops[..k]), ops[k], n);
      }
      NeverAcked(ops[..k], n);
    }
  }

  ghost predicate MetaOk(f: Fan, h: Option<int>) {
    if h == None then f.metaHead == 0 && f.metaTail == 0 else f.metaHead == h.value && 0 < f.metaTail == f.tail
  }

  lemma MetaStep(s: State, op: Op, n: string, h: Option<int>)
    requires Inv(s) && n in Step(s, op).fans
    requires if n in s.fans then MetaOk(s.fans[n], h) else h == None
    ensures var acked := op.Ack? && op.name == n && n in s.fans && s.fans[n].tail < op.seq_ < s.fans[n].head;
            MetaOk(Step(s, op).fans[n], if acked then Some(s.fans[n].head) else h)
  {
    hide MinTail, IsMinTail;
    if n in s.fans {
      assert FanInv(s.fans[n], s);
    }
  }

  /** The meta page of a consumer: its head then and its tail now, or still zero. */
  lemma {:induction false} MetaIs(ops: seq<Op>, n: string)
    requires n in Run(Empty, ops).fans
    ensures MetaOk(Run(Empty, ops).fans[n], AckedHead(ops, n))
    decreases |ops|
  {
    hide Step, MetaOk, Inv;
    var k := |ops| - 1;
    var s := Run(Empty, ops[..k]);
    EmptyInv();
    RunKeepsInv(Empty, ops[..k]);
    if n in s.fans {
      MetaIs(ops[..k], n);
    } else {
      NeverAcked(ops[..k], n);
    }
    MetaStep(s, ops[k], n, AckedHead(ops[..k], n));
  }

  lemma EmptyInv()
    ensures Inv(Empty)
  {
  }

  /** After a restart a consumer goes on at its head of its last new acknowledgement, or at the queue tail. */
  lemma RestartsAt(ops: seq<Op>, n: string)
    requires n in Run(Empty, ops).fans
    ensures var s, s' := Run(Empty, ops), Step(Run(Empty, ops), Restart);
            && n in s'.fans && s'.fans[n].tail == s.fans[n].tail
            && s'.fans[n].head == (if AckedHead(ops, n) == None then s.tail else AckedHead(ops, n).value)
  {
    hide Run, AckedHead;
    MetaIs(ops, n);
    EmptyInv();
    RunKeepsInv(Empty, ops);
    assert FanInv(Run(Empty, ops).fans[n], Run(Empty, ops));
  }

  // ----- the queue as an object -----

  class FanOutQueue {
    var log: seq<Data>
    var tailSeq: int
    var metaTail: int
    var removed: nat
    var fans: map<string, Fan>
    const sizeLimit: nat

    ghost function Abs(): (s: State)
      reads this
    {
      State(log, tailSeq, metaTail, removed, fans)
    }

    constructor (sizeLimit: nat)
      ensures Abs() == Empty
    {
      this.sizeLimit := sizeLimit;
      log, tailSeq, metaTail, removed, fans := [], 0, 0, 0, map[];
    }

    /** The sequence of the message, or -1 when it is larger than a data file. */
    method Append(data: Data) returns (seq_: int)
      modifies this
      ensures |data| > sizeLimit ==> seq_ == -1 && Abs() == old(Abs())
      ensures |data| <= sizeLimit ==> seq_ == |old(log)| && Abs() == old(Abs()).(log := old(log) + [data])
      ensures |data| <= sizeLimit ==> Abs() == Step(old(Abs()), Op.Append(data))
    {
      if |data| > sizeLimit {
        return -1;
      }
      seq_ := |log|;
      log := log + [data];
    }

    method GetOrCreateFanOut(name: string)
      modifies this
      ensures Abs() == Step(old(Abs()), Create(name))
      ensures name in old(fans) ==> Abs() == old(Abs())
      ensures name !in old(fans) ==>
                Abs() == old(Abs()).(fans := old(fans)[name := Fan(old(tailSeq), old(tailSeq), 0, 0)])
    {
      if name !in fans {
        fans := fans[name := OpenFan(0, 0, tailSeq)];
      }
    }

    method Consume(name: string) returns (seq_: int)
      requires name in fans
      modifies this
      ensures Abs() == Step(old(Abs()), Op.Consume(name))
      ensures var f := old(fans)[name];
              if f.head < |log| then seq_ == f.head && Abs() == old(Abs()).(fans := old(fans)[name := f.(head := f.head + 1)])
              else seq_ == -1 && Abs() == old(Abs())
    {
      var f := fans[name];
      if f.head < |log| {
        fans := fans[name := f.(head := f.head + 1)];
        return f.head;
      }
      assert fans[name := f] == fans;
      return NO_NEW_MESSAGE;
    }

    method SetHeadSeq(name: string, seq_: int) returns (ok: bool)
      requires name in fans
      modifies this
      ensures Abs() == Step(old(Abs()), SetHead(name, seq_))
      ensures ok <==> old(fans)[name].tail <= seq_ <= |old(log)|
      ensures Abs() == if ok then old(Abs()).(fans := old(fans)[name := old(fans)[name].(head := seq_)]) else old(Abs())
    {
      var f := fans[name];
      if seq_ > |log| || seq_ < f.tail {
        return false;
      }
      fans := fans[name := f.(head := seq_)];
      return true;
    }

    /**
     An acknowledgement between tail and head moves the tail, writes both positions to the meta
     page, and the queue tail follows the slowest consumer; any other does nothing.
     */
    method Ack(name: string, ackSeq: int)
      requires name in fans
      modifies this
      ensures Abs() == Step(old(Abs()), Op.Ack(name, ackSeq))
      ensures var f := old(fans)[name];
              if f.tail < ackSeq < f.head then
                && fans == old(fans)[name := Fan(f.head, ackSeq, f.head, ackSeq)]
                && log == old(log) && removed == old(removed)
                && (old(Inv(Abs())) ==>
                      && tailSeq == metaTail && (forall n :: n in fans ==> tailSeq <= fans[n].tail)
                      && exists n :: n in fans && fans[n].tail == tailSeq)
              else Abs() == old(Abs())
    {
      ghost var s := Abs();
      if Inv(s) {
        StepKeepsInv(s, Op.Ack(name, ackSeq));
      }
      var f := fans[name];
      if ackSeq > f.tail && ackSeq < f.head {
        fans := fans[name := f.(tail := ackSeq, metaHead := f.head, metaTail := ackSeq)];
        Sync();
      }
    }

    method Sync()
      modifies this
      ensures Abs() == Synced(old(Abs()))
      ensures Abs() == old(Abs()).(tail := tailSeq, metaTail := metaTail)
      ensures |fans| > 0 ==>
                exists m :: IsMinTail(fans, |log|, m) &&
                  if old(tailSeq) < m < |log| then tailSeq == m == metaTail
                  else tailSeq == old(tailSeq) && metaTail == old(metaTail)
    {
      hide IsMinTail;
      if |fans| == 0 {
        return;
      }
      assert IsMinTail(fans - fans.Keys, |log|, |log|) by { NoTails(fans - fans.Keys, |log|); }
      var ackSeq := |log|;
      var todo := fans.Keys;
      while todo != {}
        invariant unchanged(this) && todo <= fans.Keys
        invariant IsMinTail(fans - todo, |log|, ackSeq)
        decreases |todo|
      {
        var k :| k in todo;
        var ts := fans[k].tail;
        ghost var done := fans - (todo - {k});
        assert done - {k} == fans - todo;
        MinTailStep(done, k, |log|, ackSeq);
        if ts < ackSeq {
          ackSeq := ts;
        }
        todo := todo - {k};
      }
      assert fans - {} == fans;
      MinTailUnique(fans, |log|, ackSeq, MinTail(fans, |log|));
      if ackSeq > tailSeq && ackSeq < |log| {
        tailSeq, metaTail := ackSeq, ackSeq;
      }
    }
  }
}
