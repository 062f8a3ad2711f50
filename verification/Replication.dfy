/**
 Replication of one shard's log from a broker to one storage node: the broker's
 fan-out consumer and replicator, the storage node's sequence and write handler,
 and the handshake that lines the two up after a reconnect.  One step is one RPC,
 one queue call or one atomic update; steps interleave freely.
 */
module Replication {
  import opened Options
  import opened Queue

  datatype Replica = Replica(seq_: int, data: Data)

  // ----- the storage node -----

  /**
   `head`, `ack` and `synced` are the in-memory sequence; `persisted` is the
   acknowledged sequence on its meta page.  `applied` lists the replicas handled
   since the last restart, when the head was `base`; `durable` is what is flushed.
   */
  datatype Store = Store(head: int, ack: int, synced: bool, persisted: int,
                         base: int, applied: seq<Replica>, durable: map<int, Data>)

  function StoreOne(st: Store, r: Replica): (st': Store)
  {
    st.(applied := st.applied + [r], head := st.head + 1)
  }

  /** The loop of `Writer.Write`: stops at the first replica that is not the one wanted. */
  function StoreBatch(st: Store, rs: seq<Replica>): (st': Store)
    decreases |rs|
  {
    if |rs| == 0 || rs[0].seq_ != st.head then st
    else StoreBatch(StoreOne(st, rs[0]), rs[1..])
  }

  predicate Accepted(st: Store, rs: seq<Replica>)
    decreases |rs|
  {
    |rs| == 0 || (rs[0].seq_ == st.head && Accepted(StoreOne(st, rs[0]), rs[1..]))
  }

  /** The first `k` replicas, and no more, are the wanted ones: numbered from `head` on without a hole. */
  ghost predicate Wanted(rs: seq<Replica>, head: int, k: nat) {
    && k <= |rs| && (forall i :: 0 <= i < k ==> rs[i].seq_ == head + i)
    && (k < |rs| ==> rs[k].seq_ != head + k)
  }

  /** A batch is applied up to the first replica that is not the wanted one, and accepted if there is none. */
  lemma {:induction false} StoreBatchIs(st: Store, rs: seq<Replica>, k: nat)
    requires Wanted(rs, st.head, k)
    ensures StoreBatch(st, rs) == st.(applied := st.applied + rs[..k], head := st.head + k)
    ensures Accepted(st, rs) <==> k == |rs|
    decreases |rs|
  {
    if k > 0 {
      StoreBatchIs(StoreOne(st, rs[0]), rs[1..], k - 1);
      assert st.applied + rs[..k] == (st.applied + [rs[0]]) + rs[1..][..k - 1];
    } else {
      assert st.applied + rs[..k] == st.applied;
    }
  }

  /** Disk after the applied replicas below `a` were written to it, in order. */
  function WriteOut(durable: map<int, Data>, applied: seq<Replica>, a: int): (d: map<int, Data>)
  {
    if |applied| == 0 then durable
    else
      var r := applied[|applied| - 1];
      var d := WriteOut(durable, applied[..|applied| - 1], a);
      if r.seq_ < a then d[r.seq_ := r.data] else d
  }

  /** Everything applied below `a` reaches disk, then the sequence is set and synced. */
  function Flushed(st: Store, a: int): (st': Store)
  {
    st.(ack := a, persisted := a, synced := true, durable := WriteOut(st.durable, st.applied, a))
  }

  /** `NewSequence`: head and ack start from the persisted acknowledgement; memory is lost. */
  function Restarted(st: Store): (st': Store)
  {
    st.(head := st.persisted, ack := st.persisted, synced := false, base := st.persisted, applied := [])
  }

  // ----- the whole system -----

  /** Where `recvLoop` is: connected or reconnecting, or inside the handshake. */
  datatype Conn = Down | GotNext(next: int) | Resetting(to: int) | Ready

  /** `wire` and `acks` hold every message ever sent: delivery may lose, repeat and reorder them. */
  datatype World = World(log: seq<Data>, fan: Fan, conn: Conn, batch: seq<Replica>,
                         wire: set<seq<Replica>>, acks: set<int>, store: Store)

  datatype Op =
    | Append(data: Data)
    | Consume                      // sendLoop takes one message into its batch
    | Send                         // sendLoop sends the batch
    | Deliver(rs: seq<Replica>, k: nat)  // storage handles the first k replicas of a message
    | Respond                      // storage answers, with its ack when synced
    | RecvAck(a: int)              // recvLoop gets an ack
    | Disconnect
    | AskNext                      // handshake: the Next RPC
    | AdoptNext                    // handshake: SetHeadSeq on the fan-out
    | ResetRemote                  // handshake: the Reset RPC
    | Flush(a: int)
    | ClearSynced
    | RestartStorage
    | RestartBroker

  ghost function WorldStep(w: World, op: Op): (w': World)
  {
    match op
    case Append(d) => w.(log := w.log + [d])
    case Consume =>
      if w.fan.head < |w.log| && 0 <= w.fan.head then
        w.(fan := Consumed(w.fan, |w.log|), batch := w.batch + [Replica(w.fan.head, w.log[w.fan.head])])
      else w
    case Send => w.(wire := w.wire + {w.batch}, batch := [])
    case Deliver(rs, k) =>
      if rs in w.wire && k <= |rs| then w.(store := StoreBatch(w.store, rs[..k])) else w
    case Respond => if w.store.synced then w.(acks := w.acks + {w.store.ack}) else w
    case RecvAck(a) => if w.conn == Ready && a in w.acks then w.(fan := Acked(w.fan, a)) else w
    case Disconnect => if w.conn == Ready then w.(conn := Down) else w
    case AskNext => if w.conn == Down then w.(conn := GotNext(w.store.head)) else w
    case AdoptNext =>
      if w.conn.GotNext? then
        if CanSetHead(w.fan, |w.log|, w.conn.next) then w.(fan := w.fan.(head := w.conn.next), conn := Ready)
        else w.(conn := Resetting(w.fan.head))
      else w
    case ResetRemote =>
      if w.conn.Resetting? then w.(store := w.store.(head := w.conn.to), conn := Ready) else w
    case Flush(a) => if w.store.persisted <= a <= w.store.head then w.(store := Flushed(w.store, a)) else w
    case ClearSynced => w.(store := w.store.(synced := false))
    case RestartStorage => w.(store := Restarted(w.store))
    case RestartBroker =>
      // an unacknowledged consumer reopens at the queue tail, which is its own tail (Queue.FanInv)
      w.(fan := OpenFan(w.fan.metaHead, w.fan.metaTail, w.fan.tail), conn := Down, batch := [])
  }

  ghost function Run(w: World, ops: seq<Op>): (w': World)
  {
    if |ops| == 0 then w else WorldStep(Run(w, ops[..|ops| - 1]), ops[|ops| - 1])
  }

  // ----- the property -----

  /** The storage node has the log's message for `s`, on disk or since its last restart. */
  ghost predicate Has(w: World, s: int) {
    && 0 <= s < |w.log|
    && ((s in w.store.durable && w.store.durable[s] == w.log[s])
        || exists i :: 0 <= i < |w.store.applied| && w.store.applied[i] == Replica(s, w.log[s]))
  }

  ghost predicate NoGap(w: World) {
    forall s :: 0 <= s < w.store.head ==> Has(w, s)
  }

  ghost predicate FanOk(w: World) {
    && 0 <= w.fan.tail <= w.fan.head <= |w.log|
    && ((w.fan.metaHead == 0 && w.fan.metaTail == 0)
        || (w.fan.metaTail == w.fan.tail && w.fan.tail <= w.fan.metaHead <= |w.log|))
  }

  /** A target and its storage node before the first connection, the node's memory empty. */
  ghost predicate Init(w: World) {
    && FanOk(w)
    && w.conn == Down && w.batch == [] && w.wire == {} && w.acks == {}
    && 0 <= w.store.persisted <= |w.log|
    && w.store == Restarted(w.store)
    && (forall s :: s in w.store.durable <==> 0 <= s < w.store.persisted)
    && (forall s :: 0 <= s < w.store.persisted ==> w.store.durable[s] == w.log[s])
  }

  // ----- the invariant of targets that start at or below the storage's acknowledgement -----

  /** A message carries the log's data for its sequences. */
  ghost predicate Genuine(log: seq<Data>, rs: seq<Replica>) {
    forall i :: 0 <= i < |rs| ==> 0 <= rs[i].seq_ < |log| && rs[i].data == log[rs[i].seq_]
  }

  /** Replicas since the restart are consecutive from `base`, each the log's own. */
  ghost predicate AppliedOk(log: seq<Data>, st: Store) {
    && 0 <= st.base && st.head == st.base + |st.applied| <= |log|
    && forall i :: 0 <= i < |st.applied| ==> st.applied[i] == Replica(st.base + i, log[st.base + i])
  }

  ghost predicate DurableOk(log: seq<Data>, st: Store) {
    && 0 <= st.persisted <= st.head
    && st.base <= st.persisted
    && (forall s :: 0 <= s < st.persisted ==> s in st.durable)
    && (forall s :: s in st.durable ==> 0 <= s < |log| && st.durable[s] == log[s])
  }

  ghost predicate ConnOk(w: World) {
    match w.conn
    case GotNext(n) => w.fan.tail <= n <= |w.log|
    case Resetting(_) => false
    case _ => true
  }

  ghost predicate Inv(w: World) {
    && FanOk(w)
    && w.fan.tail <= w.store.persisted
    && AppliedOk(w.log, w.store)
    && DurableOk(w.log, w.store)
    && w.store.ack <= w.store.persisted
    && (forall a :: a in w.acks ==> a <= w.store.persisted)
    && Genuine(w.log, w.batch)
    && (forall rs :: rs in w.wire ==> Genuine(w.log, rs))
    && ConnOk(w)
  }

  lemma InvNoGap(w: World)
    requires Inv(w)
    ensures NoGap(w)
  {
    forall s | 0 <= s < w.store.head
      ensures Has(w, s)
    {
      if s >= w.store.persisted {
        assert w.store.applied[s - w.store.base] == Replica(s, w.log[s]);
      }
    }
  }

  lemma InitInv(w: World)
    requires Init(w) && w.fan.tail <= w.store.persisted
    ensures Inv(w)
  {
  }

  lemma AppendKeeps(w: World, d: Data)
    requires Inv(w)
    ensures Inv(WorldStep(w, Op.Append(d)))
  {
  }

  lemma {:induction false} StoreBatchKeeps(log: seq<Data>, st: Store, rs: seq<Replica>)
    requires AppliedOk(log, st) && DurableOk(log, st) && Genuine(log, rs)
    ensures var st' := StoreBatch(st, rs);
            && AppliedOk(log, st') && DurableOk(log, st')
            && st'.persisted == st.persisted && st'.ack == st.ack
    decreases |rs|
  {
    if |rs| > 0 && rs[0].seq_ == st.head {
      StoreBatchKeeps(log, StoreOne(st, rs[0]), rs[1..]);
    }
  }

  /** Writing out consecutive genuine replicas leaves the log's data, below `a`, on disk. */
  lemma {:induction false} WriteOutSpec(log: seq<Data>, st: Store, n: nat, a: int)
    requires AppliedOk(log, st) && n <= |st.applied|
    requires forall s :: 0 <= s < st.base ==> s in st.durable
    requires forall s :: s in st.durable ==> 0 <= s < |log| && st.durable[s] == log[s]
    ensures var d := WriteOut(st.durable, st.applied[..n], a);
            && (forall s :: s in st.durable ==> s in d)
            && (forall s :: 0 <= s < st.base + n && s < a ==> s in d)
            && (forall s :: s in d ==> 0 <= s < |log| && d[s] == log[s])
  {
    if n > 0 {
      WriteOutSpec(log, st, n - 1, a);
      assert st.applied[..n][..n - 1] == st.applied[..n - 1];
      assert st.applied[n - 1] == Replica(st.base + n - 1, log[st.base + n - 1]);
    }
  }

  lemma FlushKeeps(log: seq<Data>, st: Store, a: int)
    requires AppliedOk(log, st) && DurableOk(log, st)
    requires st.persisted <= a <= st.head
    ensures AppliedOk(log, Flushed(st, a)) && DurableOk(log, Flushed(st, a))
  {
    WriteOutSpec(log, st, |st.applied|, a);
    assert st.applied[..|st.applied|] == st.applied;
  }

  lemma StepKeeps(w: World, op: Op)
    requires Inv(w)
    ensures Inv(WorldStep(w, op))
  {
    hide StoreBatch, WriteOut;
    match op
    case Append(d) => AppendKeeps(w, d);
    case Deliver(rs, k) =>
      if rs in w.wire && k <= |rs| {
        assert Genuine(w.log, rs);
        StoreBatchKeeps(w.log, w.store, rs[..k]);
      }
    case Flush(a) =>
      if w.store.persisted <= a <= w.store.head {
        FlushKeeps(w.log, w.store, a);
      }
    case _ =>
  }

  lemma {:induction false} RunKeeps(w: World, ops: seq<Op>)
    requires Inv(w)
    ensures Inv(Run(w, ops))
  {
    hide Inv, WorldStep;
    if |ops| > 0 {
      RunKeeps(w, ops[..|ops| - 1]);
      StepKeeps(Run(w, ops[..|ops| - 1]), ops[|ops| - 1]);
    }
  }

  // ----- exactly when replication has no gap -----

  /** The handshake of a target that is ahead of its storage node moves the node past data it never got. */
  lemma LateTargetSkips(w: World)
    requires Init(w) && w.fan.tail > w.store.persisted
    ensures !NoGap(Run(w, [AskNext, AdoptNext, ResetRemote]))
  {
    hide Run;
    var w1 := WorldStep(w, AskNext);
    var w2 := WorldStep(w1, AdoptNext);
    var w3 := WorldStep(w2, ResetRemote);
    RunThree(w, AskNext, AdoptNext, ResetRemote);
    assert w3.store.head == w.fan.head;
    assert !Has(w3, w.store.persisted);
  }

  lemma RunThree(w: World, a: Op, b: Op, c: Op)
    ensures Run(w, [a, b, c]) == WorldStep(WorldStep(WorldStep(w, a), b), c)
  {
    hide WorldStep;
    assert [a, b, c][..2] == [a, b] && [a, b][..1] == [a] && [a][..0] == [];
    assert Run(w, [a]) == WorldStep(Run(w, []), a);
    assert Run(w, [a, b]) == WorldStep(Run(w, [a]), b);
  }

  /**
   No gap, over every interleaving, exactly for the targets that start at or below
   what the storage node has acknowledged.
   */
  lemma NoGapIff(w: World)
    requires Init(w)
    ensures (forall ops :: NoGap(Run(w, ops))) <==> w.fan.tail <= w.store.persisted
  {
    hide NoGap, Run;
    if w.fan.tail <= w.store.persisted {
      InitInv(w);
      forall ops
        ensures NoGap(Run(w, ops))
      {
        RunKeeps(w, ops);
        InvNoGap(Run(w, ops));
      }
    } else {
      LateTargetSkips(w);
    }
  }

  /**
   The order of the positions, in every state such a target can reach: broker tail,
   persisted ack, storage head, log head; and the handshake never falls back to
   resetting the storage node.  Replicas since the last restart were applied in
   order, each exactly once.
   */
  lemma PositionsOrdered(w: World, ops: seq<Op>)
    requires Init(w) && w.fan.tail <= w.store.persisted
    ensures var v := Run(w, ops);
            && v.fan.tail <= v.store.persisted <= v.store.head <= |v.log|
            && !v.conn.Resetting?
            && (v.conn.GotNext? ==> CanSetHead(v.fan, |v.log|, v.conn.next))
            && 0 <= v.store.base && v.store.base + |v.store.applied| == v.store.head
            && (forall i :: 0 <= i < |v.store.applied| ==>
                  v.store.applied[i] == Replica(v.store.base + i, v.log[v.store.base + i]))
  {
    InitInv(w);
    RunKeeps(w, ops);
  }

  // ----- the protocol can always finish -----

  lemma RunSnoc(w: World, ops: seq<Op>, op: Op)
    ensures Run(w, ops + [op]) == WorldStep(Run(w, ops), op)
  {
    hide WorldStep;
    assert (ops + [op])[..|ops|] == ops;
  }

  /** From wherever the handshake is, four steps connect the target at the storage node's head. */
  lemma Connects(v: World)
    requires Inv(v)
    ensures var u := WorldStep(WorldStep(WorldStep(WorldStep(v, AdoptNext), Disconnect), AskNext), AdoptNext);
            u == v.(conn := Ready, fan := v.fan.(head := v.store.head))
  {
    hide StoreBatch, Flushed, AppliedOk, Genuine;
    assert v.store.head <= |v.log| by { HeadInLog(v); }
  }

  lemma HeadInLog(v: World)
    requires Inv(v)
    ensures v.store.head <= |v.log| && v.fan.tail <= v.store.persisted <= v.store.head
  {
  }

  ghost function Reconnect(): (ops: seq<Op>)
  {
    [AdoptNext, Disconnect, AskNext, AdoptNext, Send]
  }

  lemma ReconnectRuns(v: World)
    requires Inv(v)
    ensures var u := Run(v, Reconnect());
            u == v.(conn := Ready, fan := v.fan.(head := v.store.head), batch := [], wire := v.wire + {v.batch})
  {
    hide WorldStep, Run, Inv;
    var a, b, c, d, e := AdoptNext, Disconnect, AskNext, AdoptNext, Send;
    RunNone(v);
    RunSnoc(v, [], a);
    RunSnoc(v, [a], b);
    RunSnoc(v, [a, b], c);
    RunSnoc(v, [a, b, c], d);
    RunSnoc(v, [a, b, c, d], e);
    assert [] + [a] == [a] && [a] + [b] == [a, b] && [a, b] + [c] == [a, b, c];
    assert [a, b, c] + [d] == [a, b, c, d] && [a, b, c, d] + [e] == Reconnect();
    Connects(v);
    SendStep(Run(v, [a, b, c, d]));
  }

  lemma RunNone(w: World)
    ensures Run(w, []) == w
  {
  }

  lemma SendStep(w: World)
    ensures WorldStep(w, Send) == w.(wire := w.wire + {w.batch}, batch := [])
  {
  }

  lemma {:induction false} RunConcat(w: World, a: seq<Op>, b: seq<Op>)
    ensures Run(w, a + b) == Run(Run(w, a), b)
    decreases |b|
  {
    hide WorldStep;
    if |b| == 0 {
      assert a + b == a;
    } else {
      assert (a + b)[..|a + b| - 1] == a + b[..|b| - 1];
      RunConcat(w, a, b[..|b| - 1]);
    }
  }

  /** The log's messages from `h` on. */
  function Messages(log: seq<Data>, h: int, n: nat): (rs: seq<Replica>)
    requires 0 <= h && h + n <= |log|
    ensures |rs| == n && forall i :: 0 <= i < n ==> rs[i] == Replica(h + i, log[h + i])
  {
    seq(n, i requires 0 <= i < n => Replica(h + i, log[h + i]))
  }

  ghost function Consumes(n: nat): (ops: seq<Op>)
    ensures |ops| == n && forall i :: 0 <= i < n ==> ops[i] == Op.Consume
  {
    seq(n, _ => Op.Consume)
  }

  lemma ConsumeStep(v: World)
    requires 0 <= v.fan.head < |v.log|
    ensures WorldStep(v, Op.Consume)
         == v.(fan := v.fan.(head := v.fan.head + 1), batch := v.batch + [Replica(v.fan.head, v.log[v.fan.head])])
  {
  }

  lemma {:induction false} ConsumesRun(v: World, n: nat)
    requires 0 <= v.fan.head && v.fan.head + n <= |v.log| && v.batch == []
    ensures Run(v, Consumes(n))
         == v.(fan := v.fan.(head := v.fan.head + n), batch := Messages(v.log, v.fan.head, n))
    decreases n
  {
    hide WorldStep, Run;
    if n == 0 {
      RunNone(v);
    } else {
      ConsumesRun(v, n - 1);
      assert Consumes(n) == Consumes(n - 1) + [Op.Consume];
      RunSnoc(v, Consumes(n - 1), Op.Consume);
      ConsumeStep(Run(v, Consumes(n - 1)));
      assert Messages(v.log, v.fan.head, n)
          == Messages(v.log, v.fan.head, n - 1) + [Replica(v.fan.head + n - 1, v.log[v.fan.head + n - 1])];
    }
  }

  /** What a connected target does to bring its storage node up to the end of the log. */
  ghost function Transfer(v: World): (ops: seq<Op>)
    requires Inv(v)
  {
    HeadInLog(v);
    var n := |v.log| - v.store.head;
    Consumes(n) + [Send, Deliver(Messages(v.log, v.store.head, n), n)]
  }

  lemma TransferRuns(v: World)
    requires Inv(v) && v.conn == Ready && v.fan.head == v.store.head && v.batch == []
    ensures var u := Run(v, Transfer(v));
            && u.log == v.log && u.conn == Ready && u.acks == v.acks
            && u.fan == v.fan.(head := |v.log|) && u.store.head == |v.log|
            && u.store == v.store.(head := u.store.head, applied := u.store.applied)
  {
    hide Run, Consumes, StoreBatch, Inv;
    HeadInLog(v);
    BaseInLog(v);
    var n := |v.log| - v.store.head;
    var rs := Messages(v.log, v.store.head, n);
    var d := Deliver(rs, n);
    ConsumesRun(v, n);
    RunSnoc(v, Consumes(n), Send);
    RunSnoc(v, Consumes(n) + [Send], d);
    assert Consumes(n) + [Send] + [d] == Transfer(v);
    assert rs[..n] == rs;
    StoreBatchIs(v.store, rs, n);
  }

  lemma BaseInLog(v: World)
    requires Inv(v)
    ensures 0 <= v.store.head
  {
  }

  /** The storage flushes and answers, the broker takes the answer, the storage flushes the last message. */
  ghost function Settle(v: World): (ops: seq<Op>)
  {
    var a := |v.log| - 1;
    if v.store.persisted > a then [] else [Flush(a), Respond, RecvAck(a), Flush(a + 1)]
  }

  lemma SettleSteps(v: World)
    requires v.conn == Ready && v.fan.tail <= v.store.persisted < |v.log| == v.store.head == v.fan.head
    ensures var a := |v.log| - 1;
            var u := WorldStep(WorldStep(WorldStep(WorldStep(v, Flush(a)), Respond), RecvAck(a)), Flush(a + 1));
            u.log == v.log && u.store.head == |v.log| == u.store.persisted && u.fan.tail == a
  {
    hide WriteOut;
  }

  lemma SettleRuns(v: World)
    requires v.conn == Ready && v.fan.tail <= v.store.persisted <= |v.log| == v.store.head == v.fan.head
    ensures var u := Run(v, Settle(v));
            && u.log == v.log && u.store.head == |v.log| == u.store.persisted
            && u.fan.tail == if v.store.persisted < |v.log| then |v.log| - 1 else v.fan.tail
  {
    hide Run, WorldStep;
    var a := |v.log| - 1;
    RunNone(v);
    if v.store.persisted <= a {
      SettleSteps(v);
      RunSnoc(v, [], Flush(a));
      RunSnoc(v, [Flush(a)], Respond);
      RunSnoc(v, [Flush(a), Respond], RecvAck(a));
      RunSnoc(v, [Flush(a), Respond, RecvAck(a)], Flush(a + 1));
      assert [] + [Flush(a)] == [Flush(a)] && [Flush(a)] + [Respond] == [Flush(a), Respond];
      assert [Flush(a), Respond] + [RecvAck(a)] == [Flush(a), Respond, RecvAck(a)];
      assert [Flush(a), Respond, RecvAck(a)] + [Flush(a + 1)] == Settle(v);
    }
  }

  /**
   From every state that such a target can reach, some steps bring every message of the log to
   the storage node's disk, and the broker's tail up to the last message.
   */
  lemma CatchesUp(w: World, ops: seq<Op>) returns (more: seq<Op>)
    requires Init(w) && w.fan.tail <= w.store.persisted
    ensures var v, u := Run(w, ops), Run(Run(w, ops), more);
            && u.log == v.log && u.store.head == |v.log|
            && (forall s :: 0 <= s < |v.log| ==> s in u.store.durable && u.store.durable[s] == v.log[s])
            && (v.store.persisted < |v.log| ==> u.fan.tail == |v.log| - 1)
  {
    hide Run, WorldStep, Inv, Init, Transfer, Settle;
    var v := Run(w, ops);
    InitInv(w);
    RunKeeps(w, ops);
    HeadInLog(v);
    var v1 := Run(v, Reconnect());
    ReconnectRuns(v);
    RunKeeps(v, Reconnect());
    var v2 := Run(v1, Transfer(v1));
    TransferRuns(v1);
    RunKeeps(v1, Transfer(v1));
    HeadInLog(v2);
    SettleRuns(v2);
    RunKeeps(v2, Settle(v2));
    AllDurable(Run(v2, Settle(v2)));
    RunConcat(v, Reconnect(), Transfer(v1));
    RunConcat(v, Reconnect() + Transfer(v1), Settle(v2));
    more := Reconnect() + Transfer(v1) + Settle(v2);
  }

  lemma AllDurable(u: World)
    requires Inv(u) && u.store.persisted == |u.log|
    ensures forall s :: 0 <= s < |u.log| ==> s in u.store.durable && u.store.durable[s] == u.log[s]
  {
  }

  // ----- the objects of both ends -----

  /** `sequence` in `replication/sequence.go`; `meta` is its eight-byte page. */
  class Sequence {
    var headSeq: int
    var ackSeq: int
    var synced: bool
    var meta: int

    constructor (meta: int)
      ensures headSeq == meta && ackSeq == meta && !synced && this.meta == meta
    {
      this.meta := meta;
      headSeq, ackSeq, synced := meta, meta, false;
    }

    method SetHeadSeq(seq_: int)
      modifies this`headSeq
      ensures headSeq == seq_
    {
      headSeq := seq_;
    }

    method SetAckSeq(seq_: int)
      modifies this`ackSeq
      ensures ackSeq == seq_
    {
      ackSeq := seq_;
    }

    method Sync()
      modifies this`meta, this`synced
      ensures meta == ackSeq && synced
    {
      meta := ackSeq;
      synced := true;
    }
  }

  /** The write handler of one stream; `applied` records the replicas given to the shard. */
  class WriteHandler {
    const sequence: Sequence
    var applied: seq<Replica>

    /** A storage node that comes up on the meta page of `st` is `st` restarted. */
    constructor (meta: int, ghost st: Store)
      requires meta == st.persisted
      ensures fresh(sequence) && Abs(st.persisted, st.durable) == Restarted(st)
    {
      sequence := new Sequence(meta);
      applied := [];
    }

    ghost function Abs(base: int, durable: map<int, Data>): (st: Store)
      reads this, sequence
    {
      Store(sequence.headSeq, sequence.ackSeq, sequence.synced, sequence.meta, base, applied, durable)
    }

    /** One request: `ok` is false when it ends in an out-of-range status; `ack` is sent when synced. */
    method Write(replicas: seq<Replica>, ghost base: int, ghost durable: map<int, Data>)
      returns (ok: bool, ack: Option<int>, ghost k: nat)
      modifies this`applied, sequence`headSeq
      ensures k <= |replicas| && (forall i :: 0 <= i < k ==> replicas[i].seq_ == old(sequence.headSeq) + i)
      ensures k < |replicas| ==> replicas[k].seq_ != old(sequence.headSeq) + k
      ensures applied == old(applied) + replicas[..k] && sequence.headSeq == old(sequence.headSeq) + k
      ensures ok <==> k == |replicas|
      ensures ack == if ok && |replicas| > 0 && sequence.synced then Some(sequence.ackSeq) else None
      ensures Abs(base, durable) == StoreBatch(old(Abs(base, durable)), replicas)
    {
      ghost var st := Abs(base, durable);
      k := 0;
      for i := 0 to |replicas|
        invariant unchanged(sequence`ackSeq, sequence`synced, sequence`meta)
        invariant k == i && (forall j :: 0 <= j < i ==> replicas[j].seq_ == st.head + j)
        invariant applied == st.applied + replicas[..i] && sequence.headSeq == st.head + i
      {
        var replica := replicas[i];
        var hs := sequence.headSeq;
        if hs != replica.seq_ {
          StoreBatchIs(st, replicas, k);
          return false, None, k;
        }
        applied := applied + [replica];
        sequence.SetHeadSeq(hs + 1);
        assert replicas[..i + 1] == replicas[..i] + [replica];
        k := k + 1;
      }
      StoreBatchIs(st, replicas, k);
      ok := true;
      ack := if |replicas| > 0 && sequence.synced then Some(sequence.ackSeq) else None;
    }

    /** The answer is what the handshake of any world with this storage goes on with. */
    method Next(ghost w: World) returns (next: int)
      requires w.store == Abs(w.store.base, w.store.durable) && w.conn == Down
      ensures next == sequence.headSeq && WorldStep(w, AskNext) == w.(conn := GotNext(next))
    {
      next := sequence.headSeq;
    }

    /** The storage takes the step that ends a handshake with a reset. */
    method Reset(seq_: int, ghost w: World)
      requires w.store == Abs(w.store.base, w.store.durable) && w.conn == Resetting(seq_)
      modifies sequence`headSeq
      ensures sequence.headSeq == seq_
      ensures WorldStep(w, ResetRemote) == w.(store := Abs(w.store.base, w.store.durable), conn := Ready)
    {
      sequence.SetHeadSeq(seq_);
    }

    /** After a flush up to `a`: the sequence is set and synced, so a restart begins at `a`. */
    method Acknowledge(a: int, ghost w: World)
      requires w.store == Abs(w.store.base, w.store.durable) && w.store.persisted <= a <= w.store.head
      modifies sequence`ackSeq, sequence`synced, sequence`meta
      ensures sequence.ackSeq == a == sequence.meta && sequence.synced
      ensures WorldStep(w, Flush(a)).store == Abs(w.store.base, WriteOut(w.store.durable, w.store.applied, a))
      ensures Restarted(WorldStep(w, Flush(a)).store).head == a
    {
      sequence.SetAckSeq(a);
      sequence.Sync();
    }
  }

  const BATCH_SIZE := 10

  /** The broker's end of one target: its consumer on the queue, and what it has in hand. */
  class Replicator {
    const queue: FanOutQueue
    const name: string

    constructor (queue: FanOutQueue, name: string)
      ensures this.queue == queue && this.name == name
    {
      this.queue, this.name := queue, name;
    }

    /** A batch is the next messages of the log, at most ten, each with its own data. */
    method ConsumeBatch() returns (replicas: seq<Replica>)
      requires name in queue.fans && 0 <= queue.fans[name].head
      modifies queue
      ensures queue.log == old(queue.log) && name in queue.fans
      ensures var h := old(queue.fans)[name].head;
              && queue.fans[name] == old(queue.fans)[name].(head := h + |replicas|)
              && |replicas| == (if h >= |queue.log| then 0
                                else if |queue.log| - h < BATCH_SIZE then |queue.log| - h else BATCH_SIZE)
              && Genuine(queue.log, replicas)
              && forall i :: 0 <= i < |replicas| ==> replicas[i].seq_ == h + i
    {
      replicas := [];
      ghost var h := queue.fans[name].head;
      var i := 0;
      while i < BATCH_SIZE
        invariant 0 <= i <= BATCH_SIZE && i == |replicas|
        invariant queue.log == old(queue.log) && name in queue.fans
        invariant queue.fans[name] == old(queue.fans)[name].(head := h + i)
        invariant h + i <= |queue.log| || i == 0
        invariant Genuine(queue.log, replicas)
        invariant forall k :: 0 <= k < i ==> replicas[k].seq_ == h + k
      {
        var seq_ := queue.Consume(name);
        if seq_ == NO_NEW_MESSAGE {
          break;
        }
        replicas := replicas + [Replica(seq_, queue.log[seq_])];
        i := i + 1;
      }
    }

    /** The decision of the handshake: adopt the remote head, or say that the remote must be reset to ours. */
    method Adopt(next: int) returns (reset: Option<int>)
      requires name in queue.fans
      modifies queue
      ensures queue.log == old(queue.log) && name in queue.fans
      ensures var f := old(queue.fans)[name];
              if f.tail <= next <= |queue.log| then
                reset == None && queue.fans == old(queue.fans)[name := f.(head := next)]
              else reset == Some(f.head) && queue.fans == old(queue.fans)
    {
      var ok := queue.SetHeadSeq(name, next);
      if ok {
        reset := None;
      } else {
        reset := Some(queue.fans[name].head);
      }
    }
  }
}
