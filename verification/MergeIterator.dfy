/**
 The merged iterator of `kv/table/iterator.go`: a binary heap of cursors, one per
 input, driven by the operations of Go's `container/heap`.
 */
module MergeIterator {
  import opened Table

  /** An input positioned on a pair, with the pairs behind it. */
  datatype Cursor = Cursor(head: KV, rest: seq<KV>)

  /** `index` is the position the queue last recorded for the item. */
  datatype Item = Item(cur: Cursor, index: int)

  function Pairs(c: Cursor): (kvs: seq<KV>)
  {
    [c.head] + c.rest
  }

  // ----- what the cursors still hold -----

  ghost function Pending(pq: seq<Item>): (m: multiset<KV>)
  {
    if |pq| == 0 then multiset{}
    else Pending(pq[..|pq| - 1]) + multiset(Pairs(pq[|pq| - 1].cur))
  }

  lemma {:induction false} PendingUpdate(pq: seq<Item>, i: nat, x: Item)
    requires i < |pq|
    ensures Pending(pq[i := x]) + multiset(Pairs(pq[i].cur)) == Pending(pq) + multiset(Pairs(x.cur))
    decreases |pq|
  {
    hide Pairs;
    var n := |pq| - 1;
    var pq' := pq[i := x];
    assert Pending(pq') == Pending(pq'[..n]) + multiset(Pairs(pq'[n].cur));
    if i == n {
      assert pq'[..n] == pq[..n];
    } else {
      assert pq'[..n] == pq[..n][i := x];
      PendingUpdate(pq[..n], i, x);
      AddBoth(Pending(pq'[..n]), Pending(pq[..n]), multiset(Pairs(pq[i].cur)), multiset(Pairs(x.cur)),
              multiset(Pairs(pq[n].cur)));
    }
  }

  lemma AddBoth(a: multiset<KV>, b: multiset<KV>, m: multiset<KV>, n: multiset<KV>, last: multiset<KV>)
    requires a + m == b + n
    ensures (a + last) + m == (b + last) + n
  {
    assert (a + last) + m == (a + m) + last;
  }

  lemma {:induction false} PendingAppend(pq: seq<Item>, x: Item)
    ensures Pending(pq + [x]) == Pending(pq) + multiset(Pairs(x.cur))
  {
    assert (pq + [x])[..|pq|] == pq;
  }

  ghost predicate Sorted(kvs: seq<KV>) {
    forall i, j :: 0 <= i < j < |kvs| ==> kvs[i].key <= kvs[j].key
  }

  ghost predicate AllSorted(pq: seq<Item>) {
    forall i :: 0 <= i < |pq| ==> Sorted(Pairs(pq[i].cur))
  }

  // ----- heap order -----

  function Parent(k: int): (p: int)
  {
    (k - 1) / 2
  }

  function Key(pq: seq<Item>, i: int): (k: nat)
    requires 0 <= i < |pq|
  {
    pq[i].cur.head.key
  }

  /** Among the first `n` items, parents from `lo` on are not above their children. */
  ghost predicate HeapFrom(pq: seq<Item>, lo: int, n: int)
    requires 0 <= lo && n <= |pq|
  {
    forall k :: 0 < k < n && lo <= Parent(k) ==> Key(pq, Parent(k)) <= Key(pq, k)
  }

  lemma {:induction false} RootLeast(pq: seq<Item>, k: nat)
    requires HeapFrom(pq, 0, |pq|) && k < |pq|
    ensures Key(pq, 0) <= Key(pq, k)
    decreases k
  {
    if k > 0 {
      RootLeast(pq, Parent(k));
    }
  }

  lemma FirstLeast(ps: seq<KV>, kv: KV)
    requires Sorted(ps) && kv in ps
    ensures ps[0].key <= kv.key
  {
  }

  /** The root's pair has the least key of all pairs still to come. */
  lemma {:induction false} RootLeastPending(pq: seq<Item>, n: nat, kv: KV)
    requires HeapFrom(pq, 0, |pq|) && AllSorted(pq) && 0 < |pq| && n <= |pq|
    requires kv in Pending(pq[..n])
    ensures Key(pq, 0) <= kv.key
    decreases n
  {
    hide HeapFrom;
    assert pq[..n][..n - 1] == pq[..n - 1];
    var ps := Pairs(pq[n - 1].cur);
    if kv in ps {
      FirstLeast(ps, kv);
      RootLeast(pq, n - 1);
    } else {
      RootLeastPending(pq, n - 1, kv);
    }
  }

  /** `Swap`: each item is given the position it came from, not the one it went to. */
  function Swap(pq: seq<Item>, i: nat, j: nat): (pq': seq<Item>)
    requires i < |pq| && j < |pq|
    ensures |pq'| == |pq|
    ensures pq'[i].cur == pq[j].cur && pq'[j].cur == pq[i].cur
    ensures forall k :: 0 <= k < |pq| && k != i && k != j ==> pq'[k] == pq[k]
  {
    var s := pq[i := pq[j]][j := pq[i]];
    var t := s[i := s[i].(index := j)];
    t[j := t[j].(index := i)]
  }

  /** The same pairs in the same number of cursors, each still sorted. */
  ghost predicate Kept(pq: seq<Item>, pq': seq<Item>) {
    |pq'| == |pq| && Pending(pq') == Pending(pq) && (AllSorted(pq) ==> AllSorted(pq'))
  }

  lemma SwapKeeps(pq: seq<Item>, i: nat, j: nat)
    requires i < |pq| && j < |pq|
    ensures Kept(pq, Swap(pq, i, j))
  {
    hide Pairs, Pending, Sorted;
    var a := pq[i := pq[j]];
    var s := a[j := pq[i]];
    var t := s[i := s[i].(index := j)];
    var u := t[j := t[j].(index := i)];
    PendingUpdate(pq, i, pq[j]);
    PendingUpdate(a, j, pq[i]);
    PendingUpdate(s, i, s[i].(index := j));
    PendingUpdate(t, j, t[j].(index := i));
    Cancel(Pending(pq), Pending(s), multiset(Pairs(pq[j].cur)));
    Cancel(Pending(s), Pending(t), multiset(Pairs(s[i].cur)));
    Cancel(Pending(t), Pending(u), multiset(Pairs(t[j].cur)));
  }

  lemma Cancel(p: multiset<KV>, q: multiset<KV>, m: multiset<KV>)
    requires p + m == q + m
    ensures p == q
  {
    forall kv
      ensures p[kv] == q[kv]
    {
      assert (p + m)[kv] == (q + m)[kv];
    }
  }

  // ----- sinking and rising -----

  /** Order holds from `lo` on, except below `i`, whose children are not below its parent. */
  ghost predicate Sinking(pq: seq<Item>, lo: int, i: int, n: int)
    requires 0 <= lo <= i < n <= |pq|
  {
    && (forall k :: 0 < k < n && lo <= Parent(k) && Parent(k) != i ==> Key(pq, Parent(k)) <= Key(pq, k))
    && (i > lo ==> lo <= Parent(i) && forall k :: 0 < k < n && Parent(k) == i ==> Key(pq, Parent(i)) <= Key(pq, k))
  }

  /** Swapping `i` with its smaller child `j` moves the gap down to `j`. */
  lemma SinkSwap(pq: seq<Item>, lo: nat, i: nat, j: nat, n: nat)
    requires lo <= i < j < n <= |pq| && Sinking(pq, lo, i, n) && Parent(j) == i
    requires forall k :: 0 < k < n && Parent(k) == i ==> Key(pq, j) <= Key(pq, k)
    requires Key(pq, j) < Key(pq, i)
    ensures Sinking(Swap(pq, i, j), lo, j, n)
  {
    var pq' := Swap(pq, i, j);
    forall k | 0 < k < n && lo <= Parent(k) && Parent(k) != j
      ensures Key(pq', Parent(k)) <= Key(pq', k)
    {
      if k == i {
        assert Key(pq, Parent(i)) <= Key(pq, j);
      }
    }
  }

  /** Order holds everywhere, except above `j`, whose children are not below its parent. */
  ghost predicate Rising(pq: seq<Item>, j: int)
    requires 0 <= j < |pq|
  {
    && (forall k :: 0 < k < |pq| && k != j ==> Key(pq, Parent(k)) <= Key(pq, k))
    && (j > 0 ==> forall k :: 0 < k < |pq| && Parent(k) == j ==> Key(pq, Parent(j)) <= Key(pq, k))
  }

  lemma RiseSwap(pq: seq<Item>, j: nat)
    requires 0 < j < |pq| && Rising(pq, j) && Key(pq, j) < Key(pq, Parent(j))
    ensures Rising(Swap(pq, Parent(j), j), Parent(j))
  {
    var i := Parent(j);
    var pq' := Swap(pq, i, j);
    forall k | 0 < k < |pq| && k != i
      ensures Key(pq', Parent(k)) <= Key(pq', k)
    {
      if Parent(k) == i && k != j {
        assert Key(pq, i) <= Key(pq, k);
      }
    }
    if i > 0 {
      forall k | 0 < k < |pq| && Parent(k) == i
        ensures Key(pq', Parent(i)) <= Key(pq', k)
      {
        assert Key(pq, Parent(i)) <= Key(pq, i);
      }
    }
  }

  // ----- the iterator -----

  class MergedIterator {
    var pq: seq<Item>
    var curKey: Words.UInt32
    var curValue: Words.Bytes

    ghost predicate Valid()
      reads this
    {
      HeapFrom(pq, 0, |pq|) && AllSorted(pq)
    }

    /** `heap.down`: sinks item `i0` among the first `n`. */
    method Down(i0: nat, n: nat) returns (moved: bool)
      requires i0 < n <= |pq| && HeapFrom(pq, i0 + 1, n)
      modifies this`pq
      ensures Kept(old(pq), pq) && |pq| == |old(pq)| && HeapFrom(pq, i0, n)
      ensures forall k :: n <= k < |pq| ==> pq[k] == old(pq)[k]
      ensures 2 * i0 + 1 >= n ==> !moved && pq == old(pq)
    {
      hide Kept, AllSorted, Pending, Key, Swap;
      KeptRefl(pq);
      var i := i0;
      while 2 * i + 1 < n
        invariant i0 <= i < n && |pq| == |old(pq)| && Kept(old(pq), pq)
        invariant i == i0 ==> pq == old(pq)
        invariant forall k :: n <= k < |pq| ==> pq[k] == old(pq)[k]
        invariant Sinking(pq, i0, i, n)
        decreases n - i
      {
        var j := SmallerChild(i, n);
        if !(Key(pq, j) < Key(pq, i)) {
          break;
        }
        SinkSwap(pq, i0, i, j, n);
        SwapKeeps(pq, i, j);
        KeptTrans(old(pq), pq, Swap(pq, i, j));
        pq := Swap(pq, i, j);
        i := j;
      }
      moved := i > i0;
    }

    method SmallerChild(i: nat, n: nat) returns (j: nat)
      requires 2 * i + 1 < n <= |pq|
      ensures i < j < n && Parent(j) == i
      ensures forall k :: 0 < k < n && Parent(k) == i ==> Key(pq, j) <= Key(pq, k)
    {
      j := 2 * i + 1;
      if j + 1 < n && Key(pq, j + 1) < Key(pq, j) {
        j := j + 1;
      }
      assert forall k :: 0 < k < n && Parent(k) == i ==> k == 2 * i + 1 || k == 2 * i + 2;
    }

    /** `heap.up`: raises item `j0`. */
    method Up(j0: nat)
      requires j0 < |pq| && Rising(pq, j0)
      modifies this`pq
      ensures Kept(old(pq), pq) && HeapFrom(pq, 0, |pq|)
    {
      hide Kept, AllSorted, Pending, Key, Swap;
      KeptRefl(pq);
      var j := j0;
      while true
        invariant 0 <= j < |pq| && |pq| == |old(pq)| && Kept(old(pq), pq) && Rising(pq, j)
        decreases j
      {
        var i := if j == 0 then 0 else (j - 1) / 2;
        if i == j || !(Key(pq, j) < Key(pq, i)) {
          break;
        }
        RiseSwap(pq, j);
        SwapKeeps(pq, i, j);
        KeptTrans(old(pq), pq, Swap(pq, i, j));
        pq := Swap(pq, i, j);
        j := i;
      }
    }

    /** `heap.Init`. */
    method Init()
      modifies this`pq
      ensures Kept(old(pq), pq) && HeapFrom(pq, 0, |pq|)
    {
      hide Kept, AllSorted, Pending;
      KeptRefl(pq);
      var n := |pq|;
      var i := n / 2 - 1;
      while i >= 0
        invariant -1 <= i < n && |pq| == n && Kept(old(pq), pq)
        invariant HeapFrom(pq, i + 1, n)
        decreases i
      {
        ghost var before := pq;
        var _ := Down(i, n);
        KeptTrans(old(pq), before, pq);
        i := i - 1;
      }
    }

    /** `NewMergedIterator`: inputs without a pair are left out. */
    constructor (inputs: seq<seq<KV>>)
      requires forall i :: 0 <= i < |inputs| ==> Sorted(inputs[i])
      ensures Valid() && Pending(pq) == AllPairs(inputs)
    {
      pq, curKey, curValue := [], 0, [];
      new;
      hide Pending, AllPairs, Sorted, HeapFrom, AllSorted;
      pq := Cursors(inputs);
      Init();
    }

    /** The item of one input goes to the end of the queue, unordered until `Init`. */
    static method AddCursor(pq: seq<Item>, input: seq<KV>) returns (pq': seq<Item>)
      requires AllSorted(pq) && Sorted(input)
      ensures AllSorted(pq') && Pending(pq') == Pending(pq) + multiset(input)
    {
      hide Pending, Sorted;
      if |input| > 0 {
        var x := Item(Cursor(input[0], input[1..]), |pq|);
        assert Pairs(x.cur) == input;
        PendingAppend(pq, x);
        pq' := pq + [x];
      } else {
        assert multiset(input) == multiset{};
        pq' := pq;
      }
    }

    static method Cursors(inputs: seq<seq<KV>>) returns (pq: seq<Item>)
      requires forall i :: 0 <= i < |inputs| ==> Sorted(inputs[i])
      ensures AllSorted(pq) && Pending(pq) == AllPairs(inputs)
    {
      pq := [];
      assert Pending(pq) == AllPairs(inputs[..0]) by { NothingPending(inputs[..0], pq); }
      hide Pending, AllPairs, Sorted;
      for i := 0 to |inputs|
        invariant AllSorted(pq) && Pending(pq) == AllPairs(inputs[..i])
      {
        AllPairsSnoc(inputs, i);
        pq := AddCursor(pq, inputs[i]);
      }
      assert inputs[..|inputs|] == inputs;
    }

    /**
     `HasNext` advances: the pair it makes current has the least key of all pairs
     not yet delivered, and is removed from them.
     */
    method HasNext() returns (more: bool)
      requires Valid()
      modifies this
      ensures Valid()
      ensures more == (|old(pq)| > 0)
      ensures !more ==> pq == old(pq) && Pending(pq) == multiset{}
      ensures more ==>
                && Pending(pq) + multiset{KV(curKey, curValue)} == old(Pending(pq))
                && forall kv :: kv in old(Pending(pq)) ==> curKey <= kv.key
    {
      if |pq| == 0 {
        NonePending(pq);
        return false;
      }
      hide *;
      more := true;
      ghost var before := Pending(pq);
      RootLeastOfAll(pq);
      var item := Pop();
      curKey, curValue := item.cur.head.key, item.cur.head.value;
      ghost var mid := Pending(pq);
      Requeue(item);
      assert Pending(pq) + multiset{item.cur.head} == mid + multiset(Pairs(item.cur)) == before;
      assert item.cur.head == KV(curKey, curValue);
    }

    /** An input that has another pair goes back into the queue. */
    method Requeue(item: Item)
      requires Valid() && Sorted(Pairs(item.cur))
      modifies this`pq
      ensures Valid()
      ensures Pending(pq) + multiset{item.cur.head} == old(Pending(pq)) + multiset(Pairs(item.cur))
    {
      hide *;
      PairsNext(item.cur);
      if |item.cur.rest| > 0 {
        Push(Item(Cursor(item.cur.rest[0], item.cur.rest[1..]), -1));
      }
    }

    /** `heap.Pop`. */
    method Pop() returns (item: Item)
      requires Valid() && |pq| > 0
      modifies this`pq
      ensures Valid() && item.cur == old(pq)[0].cur && Sorted(Pairs(item.cur))
      ensures Pending(pq) + multiset(Pairs(item.cur)) == old(Pending(pq))
    {
      hide Pending, Pairs, Sorted;
      var n := |pq| - 1;
      SwapKeeps(pq, 0, n);
      pq := Swap(pq, 0, n);
      if n > 0 {
        var _ := Down(0, n);
      }
      item := pq[n].(index := -1);
      assert pq == pq[..n] + [pq[n]];
      PendingAppend(pq[..n], pq[n]);
      pq := pq[..n];
    }

    /** `Push`, which records the right position, then `update`, which is `heap.Fix` at that position. */
    method Push(x: Item)
      requires Valid() && Sorted(Pairs(x.cur))
      modifies this`pq
      ensures Valid() && Pending(pq) == old(Pending(pq)) + multiset(Pairs(x.cur))
    {
      hide Pending, Pairs, Sorted;
      var item := x.(index := |pq|);
      PendingAppend(pq, item);
      pq := pq + [item];
      Fix(item.index);
    }

    /** `heap.Fix` on the last item. */
    method Fix(i: nat)
      requires 0 <= i == |pq| - 1 && HeapFrom(pq, 0, i) && AllSorted(pq)
      modifies this`pq
      ensures Valid() && Pending(pq) == old(Pending(pq))
    {
      hide Pending, Pairs, Sorted;
      var moved := Down(i, |pq|);
      if !moved {
        Up(i);
      }
    }
  }

  lemma KeptRefl(pq: seq<Item>)
    ensures Kept(pq, pq)
  {
  }

  lemma KeptTrans(a: seq<Item>, b: seq<Item>, c: seq<Item>)
    requires Kept(a, b) && Kept(b, c)
    ensures Kept(a, c)
  {
  }

  lemma PairsNext(c: Cursor)
    ensures multiset(Pairs(c)) == multiset(c.rest) + multiset{c.head}
    ensures |c.rest| > 0 ==> Pairs(Cursor(c.rest[0], c.rest[1..])) == c.rest
    ensures |c.rest| == 0 ==> multiset(c.rest) == multiset{}
    ensures Sorted(Pairs(c)) ==> Sorted(c.rest)
  {
    if Sorted(Pairs(c)) {
      forall i, j | 0 <= i < j < |c.rest|
        ensures c.rest[i].key <= c.rest[j].key
      {
        assert Pairs(c)[i + 1] == c.rest[i] && Pairs(c)[j + 1] == c.rest[j];
      }
    }
  }

  lemma RootLeastOfAll(pq: seq<Item>)
    requires HeapFrom(pq, 0, |pq|) && AllSorted(pq) && 0 < |pq|
    ensures forall kv :: kv in Pending(pq) ==> Key(pq, 0) <= kv.key
  {
    assert pq[..|pq|] == pq;
    forall kv | kv in Pending(pq)
      ensures Key(pq, 0) <= kv.key
    {
      RootLeastPending(pq, |pq|, kv);
    }
  }

  /** All pairs of all inputs. */
  ghost function AllPairs(inputs: seq<seq<KV>>): (m: multiset<KV>)
  {
    if |inputs| == 0 then multiset{}
    else AllPairs(inputs[..|inputs| - 1]) + multiset(inputs[|inputs| - 1])
  }

  lemma AllPairsSnoc(inputs: seq<seq<KV>>, i: nat)
    requires i < |inputs|
    ensures AllPairs(inputs[..i + 1]) == AllPairs(inputs[..i]) + multiset(inputs[i])
  {
    assert inputs[..i + 1][..i] == inputs[..i];
  }

  lemma NothingPending(inputs: seq<seq<KV>>, pq: seq<Item>)
    requires inputs == [] && pq == []
    ensures Pending(pq) == AllPairs(inputs)
  {
  }

  lemma SortedSnoc(s: seq<KV>, x: KV)
    requires Sorted(s) && (|s| > 0 ==> s[|s| - 1].key <= x.key)
    ensures Sorted(s + [x])
  {
  }

  /** The pairs taken so far are sorted, and together with `rest`, none of which is smaller, they are the input. */
  ghost predicate Drained(inputs: seq<seq<KV>>, order: seq<KV>, rest: multiset<KV>) {
    && Sorted(order) && rest + multiset(order) == AllPairs(inputs)
    && forall i, kv :: 0 <= i < |order| && kv in rest ==> order[i].key <= kv.key
  }

  lemma DrainOne(inputs: seq<seq<KV>>, order: seq<KV>, rest: multiset<KV>, x: KV)
    requires Drained(inputs, order, rest + multiset{x})
    requires forall kv :: kv in rest ==> x.key <= kv.key
    ensures Drained(inputs, order + [x], rest)
  {
    hide AllPairs;
    assert x in rest + multiset{x};
    SortedSnoc(order, x);
    assert multiset(order + [x]) == multiset(order) + multiset{x};
    forall i, kv | 0 <= i < |order| && kv in rest
      ensures order[i].key <= kv.key
    {
      assert kv in rest + multiset{x};
    }
  }

  /** Draining the iterator yields every pair of every input exactly once, keys never going down. */
  method Merge(inputs: seq<seq<KV>>) returns (out: seq<KV>)
    requires forall i :: 0 <= i < |inputs| ==> Sorted(inputs[i])
    ensures Sorted(out) && multiset(out) == AllPairs(inputs)
  {
    hide Pending, AllPairs, MergedIterator.Valid, Drained;
    var it := new MergedIterator(inputs);
    out := [];
    var more := true;
    NoneDrained(inputs);
    while more
      invariant fresh(it) && it.Valid() && Drained(inputs, out, Pending(it.pq))
      invariant !more ==> Pending(it.pq) == multiset{}
      decreases more, |Pending(it.pq)|
    {
      more := it.HasNext();
      if more {
        DrainOne(inputs, out, Pending(it.pq), KV(it.curKey, it.curValue));
        out := out + [KV(it.curKey, it.curValue)];
      }
    }
    AllDrained(inputs, out);
  }

  lemma NoneDrained(inputs: seq<seq<KV>>)
    ensures Drained(inputs, [], AllPairs(inputs))
  {
  }

  lemma AllDrained(inputs: seq<seq<KV>>, out: seq<KV>)
    requires Drained(inputs, out, multiset{})
    ensures Sorted(out) && multiset(out) == AllPairs(inputs)
  {
  }

  lemma NonePending(pq: seq<Item>)
    requires pq == []
    ensures Pending(pq) == multiset{}
  {
  }
}
