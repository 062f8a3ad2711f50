/**
 The values stored under a key, over the files and levels of a version
 (`kv/version/version.go`, `kv/version/snapshot.go`), and what a compaction does to
 them: a file whose range does not cover the key holds none, and reading a list of files
 is reading their contents one after the other.
 */
module Lsm {
  import opened Options
  import opened Words
  import opened Table
  import opened MergeIterator
  import opened CompactJob
  import opened Framing
  import opened Versions

  /** The contents of the table files, by number. */
  type Tables = map<int, seq<KV>>

  // ----- the values stored under a key -----

  function Bag(v: Option<Bytes>): (m: multiset<Bytes>)
  {
    if v == None then multiset{} else multiset{v.value}
  }

  function ValueIn(t: Tables, n: int, k: UInt32): (v: Option<Bytes>)
  {
    if n in t then Lookup(t[n], k) else None
  }

  ghost function Pick(ns: set<int>): (n: int)
    requires ns != {}
    ensures n in ns
  {
    SomeNumber(ns);
    var n :| n in ns;
    n
  }

  /** All values of `k` in the given files. */
  ghost function Held(ns: set<int>, t: Tables, k: UInt32): (m: multiset<Bytes>)
    decreases |ns|
  {
    if ns == {} then multiset{}
    else
      var n := Pick(ns);
      Held(ns - {n}, t, k) + Bag(ValueIn(t, n, k))
  }

  lemma {:induction false} HeldRemove(ns: set<int>, t: Tables, k: UInt32, x: int)
    requires x in ns
    ensures Held(ns, t, k) == Held(ns - {x}, t, k) + Bag(ValueIn(t, x, k))
    decreases |ns|
  {
    hide Pick, ValueIn, Bag;
    var n := Pick(ns);
    if n != x {
      HeldRemove(ns - {n}, t, k, x);
      HeldRemove(ns - {x}, t, k, n);
      assert ns - {n} - {x} == ns - {x} - {n};
    }
  }

  lemma {:induction false} HeldUnion(a: set<int>, b: set<int>, t: Tables, k: UInt32)
    requires a !! b
    ensures Held(a + b, t, k) == Held(a, t, k) + Held(b, t, k)
    decreases |b|
  {
    hide Pick, ValueIn, Bag;
    if b == {} {
      assert a + b == a;
    } else {
      var n := Pick(b);
      HeldUnion(a, b - {n}, t, k);
      HeldRemove(a + b, t, k, n);
      assert a + b - {n} == a + (b - {n});
    }
  }

  lemma {:induction false} HeldSame(ns: set<int>, t: Tables, t': Tables, k: UInt32)
    requires forall n :: n in ns ==> ValueIn(t, n, k) == ValueIn(t', n, k)
    ensures Held(ns, t, k) == Held(ns, t', k)
    decreases |ns|
  {
    hide Pick, ValueIn, Bag;
    if ns != {} {
      HeldSame(ns - {Pick(ns)}, t, t', k);
    }
  }

  lemma {:induction false} HeldNone(ns: set<int>, t: Tables, k: UInt32)
    requires forall n :: n in ns ==> ValueIn(t, n, k) == None
    ensures Held(ns, t, k) == multiset{}
    decreases |ns|
  {
    hide Pick, ValueIn;
    if ns != {} {
      HeldNone(ns - {Pick(ns)}, t, k);
    }
  }

  /** All values of `k` in all levels. */
  ghost function Total(v: Version, t: Tables, k: UInt32): (m: multiset<Bytes>)
  {
    if |v| == 0 then multiset{} else Held(v[0].Keys, t, k) + Total(v[1..], t, k)
  }

  lemma {:induction false} TotalSame(v: Version, t: Tables, t': Tables, k: UInt32)
    requires forall l, n :: 0 <= l < |v| && n in v[l] ==> ValueIn(t, n, k) == ValueIn(t', n, k)
    ensures Total(v, t, k) == Total(v, t', k)
    decreases |v|
  {
    hide Held, ValueIn;
    if |v| > 0 {
      HeldSame(v[0].Keys, t, t', k);
      forall l, n | 0 <= l < |v[1..]| && n in v[1..][l]
        ensures ValueIn(t, n, k) == ValueIn(t', n, k)
      {
        assert n in v[l + 1];
      }
      TotalSame(v[1..], t, t', k);
    }
  }

  // ----- reading a key -----

  /** The metadata of a table file: its exact key range. */
  ghost predicate IsMeta(f: FileMeta, es: seq<KV>) {
    |es| > 0 && Ascending(es) && f.minKey == es[0].key && f.maxKey == es[|es| - 1].key
  }

  lemma {:induction false} LookupInRange(es: seq<KV>, n: nat, k: UInt32)
    requires Ascending(es) && n <= |es| && Lookup(es[..n], k).Some?
    ensures |es| > 0 && es[0].key <= k <= es[|es| - 1].key
    decreases n
  {
    assert es[..n][..n - 1] == es[..n - 1];
    if es[n - 1].key != k {
      LookupInRange(es, n - 1, k);
    }
  }

  /** A key outside the recorded range is not in the table. */
  lemma RangeBounds(f: FileMeta, t: Tables, k: UInt32)
    requires f.number in t && IsMeta(f, t[f.number])
    ensures ValueIn(t, f.number, k).Some? ==> Covers(f, k)
  {
    var es := t[f.number];
    assert es[..|es|] == es;
    if Lookup(es, k).Some? {
      LookupInRange(es, |es|, k);
    }
  }

  ghost predicate FilesOk(v: Version, t: Tables) {
    Keyed(v) && forall l, n :: 0 <= l < |v| && n in v[l] ==> n in t && IsMeta(v[l][n], t[n])
  }

  /** The values read from a list of files. */
  ghost function Read(fs: seq<FileMeta>, t: Tables, k: UInt32): (m: multiset<Bytes>)
  {
    if |fs| == 0 then multiset{}
    else Read(fs[..|fs| - 1], t, k) + Bag(ValueIn(t, fs[|fs| - 1].number, k))
  }

  lemma {:induction false} ReadConcat(a: seq<FileMeta>, b: seq<FileMeta>, t: Tables, k: UInt32)
    ensures Read(a + b, t, k) == Read(a, t, k) + Read(b, t, k)
    decreases |b|
  {
    hide ValueIn, Bag;
    if |b| == 0 {
      assert a + b == a;
    } else {
      var n := |b| - 1;
      assert (a + b)[..|a| + n] == a + b[..n];
      ReadConcat(a, b[..n], t, k);
    }
  }

  lemma {:induction false} ReadNumbers(fs: seq<FileMeta>, t: Tables, k: UInt32)
    requires forall i, j :: 0 <= i < j < |fs| ==> fs[i].number != fs[j].number
    ensures Read(fs, t, k) == Held(Numbers(fs), t, k)
    decreases |fs|
  {
    hide ValueIn, Bag, Numbers;
    if |fs| == 0 {
      assert Numbers(fs) == {};
    } else {
      var n := |fs| - 1;
      ReadNumbers(fs[..n], t, k);
      NumbersSnoc(fs);
      HeldRemove(Numbers(fs), t, k, fs[n].number);
      assert Numbers(fs) - {fs[n].number} == Numbers(fs[..n]);
    }
  }

  /** Restricting a level to the files that cover the key loses nothing. */
  lemma CoveringSuffices(m: map<int, FileMeta>, t: Tables, k: UInt32)
    requires forall n :: n in m ==> m[n].number == n && n in t && IsMeta(m[n], t[n])
    ensures Held(Where(m, f => Covers(f, k)).Keys, t, k) == Held(m.Keys, t, k)
  {
    hide Held, IsMeta, Covers, ValueIn;
    var yes := Where(m, f => Covers(f, k)).Keys;
    var no := m.Keys - yes;
    forall n | n in no
      ensures ValueIn(t, n, k) == None
    {
      RangeBounds(m[n], t, k);
    }
    HeldNone(no, t, k);
    HeldUnion(yes, no, t, k);
    assert yes + no == m.Keys;
  }

  /** Reading the files that `findFiles` returns reads every stored value of the key. */
  lemma {:induction false} FoundReadsAll(v: Version, t: Tables, k: UInt32, parts: seq<seq<FileMeta>>)
    requires FilesOk(v, t) && |parts| == |v|
    requires forall l :: 0 <= l < |v| ==> Lists(parts[l], Where(v[l], f => Covers(f, k)))
    ensures Read(Joined(parts), t, k) == Total(v, t, k)
    decreases |v|
  {
    if |v| > 0 {
      hide Held, Read, Where, Numbers, FilesOk;
      ReadConcat(parts[0], Joined(parts[1..]), t, k);
      ReadNumbers(parts[0], t, k);
      FilesOkTail(v, t);
      CoveringSuffices(v[0], t, k);
      FoundReadsAll(v[1..], t, k, parts[1..]);
    }
  }

  lemma FilesOkTail(v: Version, t: Tables)
    requires FilesOk(v, t) && |v| > 0
    ensures FilesOk(v[1..], t)
    ensures forall n :: n in v[0] ==> v[0][n].number == n && n in t && IsMeta(v[0][n], t[n])
  {
    hide IsMeta;
    forall l, n | 0 <= l < |v[1..]| && n in v[1..][l]
      ensures v[1..][l][n].number == n && n in t && IsMeta(v[1..][l][n], t[n])
    {
      assert n in v[l + 1];
    }
  }

  /** `FindReaders`: files of the version whose range covers the key; together they hold all of its values. */
  method FindReaders(v: Version, ghost t: Tables, key: UInt32) returns (fs: seq<FileMeta>)
    requires FilesOk(v, t)
    ensures Read(fs, t, key) == Total(v, t, key)
    ensures forall f :: f in fs <==> IsFound(f, v, key)
  {
    ghost var parts;
    fs, parts := FindFiles(v, key);
    FoundReadsAll(v, t, key, parts);
  }

  // ----- what a compaction does to the values of a key -----

  /** The inputs of a job, one iterator per file. */
  function Inputs(fs: seq<FileMeta>, t: Tables): (inputs: seq<seq<KV>>)
    ensures |inputs| == |fs|
  {
    seq(|fs|, i requires 0 <= i < |fs| => if fs[i].number in t then t[fs[i].number] else [])
  }

  lemma {:induction false} LookupAt(es: seq<KV>, k: UInt32)
    ensures Lookup(es, k).Some? <==> exists i :: 0 <= i < |es| && es[i].key == k
  {
    if |es| > 0 {
      LookupAt(es[..|es| - 1], k);
    }
  }

  /** In a table a key has at most the value it is looked up with. */
  lemma {:induction false} ValuesOfTable(es: seq<KV>, k: UInt32)
    requires Ascending(es)
    ensures multiset(Values(es, k)) == Bag(Lookup(es, k))
  {
    if |es| > 0 {
      var n := |es| - 1;
      if es[n].key == k {
        ValuesAbsent(es[..n], k);
      } else {
        ValuesOfTable(es[..n], k);
      }
    }
  }

  lemma {:induction false} InputsRead(fs: seq<FileMeta>, t: Tables, k: UInt32)
    requires forall i :: 0 <= i < |fs| ==> fs[i].number in t && Ascending(t[fs[i].number])
    ensures InputValues(Inputs(fs, t), k) == Read(fs, t, k)
    decreases |fs|
  {
    hide Values, Lookup, Bag, Ascending;
    if |fs| > 0 {
      var n := |fs| - 1;
      assert Inputs(fs, t)[..n] == Inputs(fs[..n], t);
      InputsRead(fs[..n], t, k);
      ValuesOfTable(t[fs[n].number], k);
    }
  }

  lemma {:induction false} LookupConcat(a: seq<KV>, b: seq<KV>, k: UInt32)
    ensures Lookup(a + b, k) == if Lookup(b, k).Some? then Lookup(b, k) else Lookup(a, k)
    decreases |b|
  {
    if |b| == 0 {
      assert a + b == a;
    } else {
      assert (a + b)[..|a + b| - 1] == a + b[..|b| - 1];
      LookupConcat(a, b[..|b| - 1], k);
    }
  }

  lemma BagConcat(a: seq<KV>, b: seq<KV>, k: UInt32)
    requires Ascending(a + b)
    ensures Bag(Lookup(a + b, k)) == Bag(Lookup(a, k)) + Bag(Lookup(b, k))
    ensures Ascending(a) && Ascending(b)
  {
    hide Lookup;
    LookupConcat(a, b, k);
    LookupAt(a, k);
    LookupAt(b, k);
    assert forall i :: 0 <= i < |a| ==> (a + b)[i] == a[i];
    assert forall i :: 0 <= i < |b| ==> (a + b)[|a| + i] == b[i];
  }

  /** The outputs together hold of each key what the whole compaction yields. */
  lemma {:induction false} OutputsRead(fs: seq<FileMeta>, cs: seq<seq<KV>>, t: Tables, k: UInt32)
    requires |fs| == |cs| && Ascending(Concat(cs))
    requires forall i :: 0 <= i < |fs| ==> fs[i].number in t && t[fs[i].number] == cs[i]
    ensures Read(fs, t, k) == Bag(Lookup(Concat(cs), k))
    decreases |fs|
  {
    hide Lookup, Ascending;
    if |fs| == 0 {
      LookupAt([], k);
    } else {
      var n := |fs| - 1;
      BagConcat(Concat(cs[..n]), cs[n], k);
      OutputsRead(fs[..n], cs[..n], t, k);
    }
  }
}
