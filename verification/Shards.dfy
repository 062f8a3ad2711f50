/**
 Replica placement of `coordinator/database/shard_assign.go`: the first replicas go
 round-robin from a start position, the others at distances that grow by one after each
 round over the nodes.  `start` and `shift` stand for the two random choices.
 */
module Shards {
  import opened Options
  import Words

  function Rem(a: int, n: int): (r: int)
    requires n > 0
    ensures 0 <= r < n
  {
    a % n
  }

  function Quo(a: int, n: int): (q: int)
    requires n > 0
    ensures a >= 0 ==> q >= 0
  {
    a / n
  }

  /** The position of shard `s`'s first replica among `n` nodes. */
  function First(s: int, start: int, n: int): (i: int)
    requires n > 0
    ensures 0 <= i < n
  {
    Rem(s + start, n)
  }

  /** The distance of a further replica from the first, never a whole round. */
  function Distance(k: int, n: int): (d: int)
    requires n > 1
    ensures 1 <= d < n
  {
    1 + Rem(k, n - 1)
  }

  /** `replicaIndex`. */
  function ReplicaIndex(first: int, shift: int, j: int, n: int): (i: int)
    requires n > 1
    ensures 0 <= i < n
  {
    Rem(first + Distance(shift + j, n), n)
  }

  /** How often the shift has grown by shard `s`, counting from shard `from`. */
  function ShiftAt(shift: int, s: int, from: int, n: int): (k: int)
    requires n > 0
  {
    shift + Quo(s, n) - (if from > 0 then Quo(from - 1, n) else 0)
  }

  /** The node position of replica `j` of shard `s`; replica 0 is the leader. */
  function Place(s: int, j: nat, start: int, shift: int, from: int, n: int): (i: int)
    requires n > 0 && (j > 0 ==> n > 1)
    ensures 0 <= i < n
  {
    if j == 0 then First(s, start, n) else ReplicaIndex(First(s, start, n), ShiftAt(shift, s, from, n), j - 1, n)
  }

  // ----- remainders -----

  lemma RemUnique(x: int, n: int, q: int, r: int)
    requires n > 0 && 0 <= r < n && x == q * n + r
    ensures Rem(x, n) == r && Quo(x, n) == q
  {
    Words.ModUnique(x, n, q, r);
  }

  lemma Division(x: int, n: int)
    requires n > 0
    ensures x == Quo(x, n) * n + Rem(x, n)
  {
  }

  /** Adding less than `n` to a remainder wraps at most once. */
  lemma ModAdd(c: int, k: int, n: int)
    requires n > 0 && 0 <= k < n
    ensures Rem(c + k, n) == if Rem(c, n) + k < n then Rem(c, n) + k else Rem(c, n) + k - n
  {
    hide Rem, Quo;
    var q, r := Quo(c, n), Rem(c, n);
    Division(c, n);
    if r + k < n {
      RemUnique(c + k, n, q, r + k);
    } else {
      assert (q + 1) * n == q * n + n;
      RemUnique(c + k, n, q + 1, r + k - n);
    }
  }

  lemma ModAddMod(a: int, b: int, n: int)
    requires n > 0
    ensures Rem(Rem(a, n) + b, n) == Rem(a + b, n)
  {
    hide Rem, Quo;
    var q, p, r := Quo(a, n), Quo(Rem(a, n) + b, n), Rem(Rem(a, n) + b, n);
    Division(a, n);
    Division(Rem(a, n) + b, n);
    assert (q + p) * n == q * n + p * n;
    RemUnique(a + b, n, q + p, r);
  }

  /** Distances below `n` lead to different positions. */
  lemma PlacesDiffer(c: int, d: int, e: int, n: int)
    requires n > 0 && 0 <= d < n && 0 <= e < n && d != e
    ensures Rem(c + d, n) != Rem(c + e, n)
  {
    hide Rem;
    ModAdd(c, d, n);
    ModAdd(c, e, n);
  }

  lemma WholeRound(a: int, n: int)
    requires n > 0
    ensures Rem(a + n, n) == Rem(a, n)
  {
    hide Rem, Quo;
    var q, r := Quo(a, n), Rem(a, n);
    Division(a, n);
    assert (q + 1) * n == q * n + n;
    RemUnique(a + n, n, q + 1, r);
  }

  lemma TurnOf(x: int, c: int, k: int, n: int)
    requires n > 0 && 0 <= x < n && 0 <= k < n
    ensures Rem(c + k, n) == x <==> Rem(x - c, n) == k
  {
    hide Rem, Quo;
    ModAdd(c, k, n);
    Division(c, n);
    var q, r := Quo(c, n), Rem(c, n);
    if r <= x {
      assert (-q) * n == -(q * n);
      RemUnique(x - c, n, -q, x - r);
    } else {
      assert (-q - 1) * n == -(q * n) - n;
      RemUnique(x - c, n, -q - 1, x - r + n);
    }
  }

  // ----- replicas of one shard are on different nodes -----

  /** The replicas of a shard take pairwise different positions, for every start and shift. */
  lemma ReplicasDiffer(s: int, i: nat, j: nat, start: int, shift: int, from: int, n: int)
    requires n > 0 && i < j < n
    ensures Place(s, i, start, shift, from, n) != Place(s, j, start, shift, from, n)
  {
    hide Rem, Quo;
    var first, k := First(s, start, n), ShiftAt(shift, s, from, n);
    var e := Distance(k + (j - 1), n);
    if i == 0 {
      PlacesDiffer(first, 0, e, n);
      RemUnique(first, n, 0, first);
    } else {
      PlacesDiffer(k, i - 1, j - 1, n - 1);
      PlacesDiffer(first, Distance(k + (i - 1), n), e, n);
    }
  }

  // ----- load -----

  /** How many of the first `shards` shards have their replica `j` at position `x`. */
  ghost function RoleLoad(x: int, j: nat, shards: nat, start: int, shift: int, n: int): (c: nat)
    requires n > 0 && (j > 0 ==> n > 1)
  {
    if shards == 0 then 0
    else RoleLoad(x, j, shards - 1, start, shift, n) + (if Place(shards - 1, j, start, shift, 0, n) == x then 1 else 0)
  }

  /** Within a round over the nodes, a replica moves on by one with each shard. */
  lemma PlaceInRound(b: nat, k: nat, j: nat, start: int, shift: int, n: int)
    requires n > 0 && k < n && (j > 0 ==> n > 1)
    ensures Place(b * n + k, j, start, shift, 0, n) == Rem(RoundStart(b, j, start, shift, n) + k, n)
  {
    hide Rem, Quo, Place, RoundStart;
    RemUnique(b * n + k, n, b, k);
    PlaceAt(b * n + k, j, start, shift, n);
  }

  lemma PlaceIs(s: nat, j: nat, start: int, shift: int, n: int)
    requires n > 0 && (j > 0 ==> n > 1)
    ensures j == 0 ==> Place(s, j, start, shift, 0, n) == Rem(s + start, n)
    ensures j > 0 ==>
              Place(s, j, start, shift, 0, n) == Rem(Rem(s + start, n) + Distance(shift + Quo(s, n) + (j - 1), n), n)
  {
    hide Rem, Quo, Distance;
  }

  lemma PlaceAt(s: nat, j: nat, start: int, shift: int, n: int)
    requires n > 0 && (j > 0 ==> n > 1)
    ensures Place(s, j, start, shift, 0, n) == Rem(RoundStart(Quo(s, n), j, start, shift, n) + Rem(s, n), n)
  {
    hide Rem, Quo, Place, Distance;
    PlaceIs(s, j, start, shift, n);
    TwoSteps(s, start, if j == 0 then 0 else Distance(shift + Quo(s, n) + (j - 1), n), n);
  }

  lemma TwoSteps(s: int, start: int, d: int, n: int)
    requires n > 0
    ensures Rem(Rem(s + start, n) + d, n) == Rem(start + d + Rem(s, n), n)
    ensures Rem(s + start, n) == Rem(start + Rem(s, n), n)
  {
    hide Rem, Quo;
    ModAddMod(s, start, n);
    ModAddMod(Rem(s, n) + start, d, n);
    assert Rem(s, n) + start + d == start + d + Rem(s, n);
  }

  function RoundStart(b: nat, j: nat, start: int, shift: int, n: int): (c: int)
    requires n > 0 && (j > 0 ==> n > 1)
  {
    if j == 0 then start else start + Distance(shift + b + (j - 1), n)
  }

  /** A position is met once in each full round, and in a started one when its turn has come. */
  lemma {:induction false} RoleLoadIs(x: int, j: nat, b: nat, k: nat, start: int, shift: int, n: int)
    requires n > 0 && 0 <= x < n && k <= n && (j > 0 ==> n > 1)
    ensures RoleLoad(x, j, b * n + k, start, shift, n)
         == b + (if Rem(x - RoundStart(b, j, start, shift, n), n) < k then 1 else 0)
    decreases b, k
  {
    hide Rem, Quo, Place;
    if k > 0 {
      var c := RoundStart(b, j, start, shift, n);
      RoleLoadIs(x, j, b, k - 1, start, shift, n);
      PlaceInRound(b, k - 1, j, start, shift, n);
      TurnOf(x, c, k - 1, n);
    } else if b > 0 {
      RoleLoadIs(x, j, b - 1, n, start, shift, n);
      assert (b - 1) * n + n == b * n;
    }
  }

  // ----- load over all replicas -----

  /** How many replicas of shard `s`, among its first `m`, are at position `x`. */
  ghost function ShardLoad(x: int, s: int, m: nat, start: int, shift: int, n: int): (c: nat)
    requires n > 0 && m <= n
  {
    if m == 0 then 0
    else ShardLoad(x, s, m - 1, start, shift, n) + (if Place(s, m - 1, start, shift, 0, n) == x then 1 else 0)
  }

  /** How many replicas of the first `shards` shards are at position `x`. */
  ghost function Load(x: int, shards: nat, factor: nat, start: int, shift: int, n: int): (c: nat)
    requires n > 0 && factor <= n
  {
    if shards == 0 then 0
    else Load(x, shards - 1, factor, start, shift, n) + ShardLoad(x, shards - 1, factor, start, shift, n)
  }

  lemma {:induction false} NoLoad(x: int, shards: nat, start: int, shift: int, n: int)
    requires n > 0
    ensures Load(x, shards, 0, start, shift, n) == 0
  {
    hide Rem, Quo;
    if shards > 0 {
      NoLoad(x, shards - 1, start, shift, n);
    }
  }

  /** Counting by shard and counting by replica agree. */
  lemma {:induction false} LoadByRole(x: int, shards: nat, factor: nat, start: int, shift: int, n: int)
    requires n > 0 && 0 < factor <= n
    ensures Load(x, shards, factor, start, shift, n)
         == Load(x, shards, factor - 1, start, shift, n) + RoleLoad(x, factor - 1, shards, start, shift, n)
    decreases shards
  {
    hide Rem, Quo, Place;
    if shards > 0 {
      LoadByRole(x, shards - 1, factor, start, shift, n);
    }
  }

  /**
   Every node carries, for each replica of a shard, as many as there are full rounds, or
   one more.
   */
  lemma {:induction false} LoadBounds(x: int, b: nat, k: nat, factor: nat, start: int, shift: int, n: int)
    requires n > 0 && 0 <= x < n && k <= n && factor <= n
    ensures factor * b <= Load(x, b * n + k, factor, start, shift, n) <= factor * b + (if k == 0 then 0 else factor)
    decreases factor
  {
    hide Rem, Quo, Load, RoleLoad;
    if factor == 0 {
      NoLoad(x, b * n + k, start, shift, n);
    } else {
      LoadBounds(x, b, k, factor - 1, start, shift, n);
      LoadByRole(x, b * n + k, factor, start, shift, n);
      RoleLoadIs(x, factor - 1, b, k, start, shift, n);
      assert (factor - 1) * b + b == factor * b;
    }
  }

  /** Any two nodes differ by at most the replica factor, and not at all when the shards fill whole rounds. */
  lemma Balanced(x: int, y: int, shards: nat, factor: nat, start: int, shift: int, n: int)
    requires n > 0 && 0 <= x < n && 0 <= y < n && factor <= n
    ensures Load(x, shards, factor, start, shift, n) - Load(y, shards, factor, start, shift, n) <= factor
    ensures Rem(shards, n) == 0 ==> Load(x, shards, factor, start, shift, n) == factor * Quo(shards, n)
  {
    hide Rem, Quo, Load;
    var b, k := Quo(shards, n), Rem(shards, n);
    Division(shards, n);
    LoadBounds(x, b, k, factor, start, shift, n);
    LoadBounds(y, b, k, factor, start, shift, n);
  }

  /** Leaders alone differ by at most one. */
  lemma LeadersBalanced(x: int, y: int, shards: nat, start: int, shift: int, n: int)
    requires n > 0 && 0 <= x < n && 0 <= y < n
    ensures RoleLoad(x, 0, shards, start, shift, n) - RoleLoad(y, 0, shards, start, shift, n) <= 1
  {
    hide Rem, Quo, RoleLoad;
    var b, k := Quo(shards, n), Rem(shards, n);
    Division(shards, n);
    RoleLoadIs(x, 0, b, k, start, shift, n);
    RoleLoadIs(y, 0, b, k, start, shift, n);
  }

  // ----- spread -----

  /** How many of the first `shards` shards have replica `i` at `x` and replica `j` at `y`. */
  ghost function PairLoad(x: int, i: nat, y: int, j: nat, shards: nat, start: int, shift: int, n: int): (c: nat)
    requires n > 1
  {
    if shards == 0 then 0
    else
      var here := Place(shards - 1, i, start, shift, 0, n) == x && Place(shards - 1, j, start, shift, 0, n) == y;
      PairLoad(x, i, y, j, shards - 1, start, shift, n) + (if here then 1 else 0)
  }

  /** In round `b`, the shard that `x` leads has replica `j` at the distance that the round gives. */
  lemma LedPlace(x: int, y: int, j: nat, b: nat, k: nat, start: int, shift: int, n: int)
    requires n > 1 && 0 <= x < n && 0 <= y < n && k < n && j > 0
    ensures Place(b * n + k, 0, start, shift, 0, n) == x <==> Rem(x - start, n) == k
    ensures Place(b * n + k, 0, start, shift, 0, n) == x ==>
              (Place(b * n + k, j, start, shift, 0, n) == y <==> First(b, shift + (j - 1), n - 1) == Rem(y - x, n) - 1)
  {
    hide Rem, Quo, Place, RoundStart;
    PlaceInRound(b, k, 0, start, shift, n);
    StartOfLeaders(b, start, shift, n);
    TurnOf(x, start, k, n);
    RemUnique(b * n + k, n, b, k);
    PlaceIs(b * n + k, 0, start, shift, n);
    PlaceIs(b * n + k, j, start, shift, n);
    TurnOf(y, x, Distance(shift + b + (j - 1), n), n);
  }

  lemma StartOfLeaders(b: nat, start: int, shift: int, n: int)
    requires n > 0
    ensures RoundStart(b, 0, start, shift, n) == start
  {
  }

  /** A node leads one shard a round, and its replica `j` goes round the distances. */
  lemma {:induction false} LedLoadIs(x: int, y: int, j: nat, b: nat, k: nat, start: int, shift: int, n: int)
    requires n > 1 && 0 <= x < n && 0 <= y < n && k <= n && j > 0
    ensures var rounds := if Rem(x - start, n) < k then b + 1 else b;
            PairLoad(x, 0, y, j, b * n + k, start, shift, n)
              == RoleLoad(Rem(y - x, n) - 1, 0, rounds, shift + (j - 1), 0, n - 1)
    decreases b, k
  {
    hide Rem, Quo, Place;
    if k > 0 {
      LedLoadIs(x, y, j, b, k - 1, start, shift, n);
      LedPlace(x, y, j, b, k - 1, start, shift, n);
      PlaceOfLeader(b, shift + (j - 1), n - 1);
    } else if b > 0 {
      LedLoadIs(x, y, j, b - 1, n, start, shift, n);
      assert (b - 1) * n + n == b * n;
    }
  }

  lemma PlaceOfLeader(s: int, start: int, n: int)
    requires n > 0
    ensures Place(s, 0, start, 0, 0, n) == First(s, start, n)
  {
  }

  lemma Apart(x: int, y: int, n: int)
    requires n > 1 && 0 <= x < n && 0 <= y < n && y != x
    ensures 1 <= Rem(y - x, n) < n
  {
    hide Rem, Quo;
    TurnOf(y, x, 0, n);
    RemUnique(x, n, 0, x);
  }

  /** Every two nodes meet as leader and replica `j` once in `n - 1` rounds. */
  lemma LedBounds(x: int, y: int, j: nat, shards: nat, start: int, shift: int, n: int)
    requires n > 1 && 0 <= x < n && 0 <= y < n && y != x && j > 0
    ensures var q := Quo(Quo(shards, n), n - 1);
            q <= PairLoad(x, 0, y, j, shards, start, shift, n) <= q + 1
  {
    hide Rem, Quo, RoleLoad, PairLoad;
    var b, k := Quo(shards, n), Rem(shards, n);
    Division(shards, n);
    Division(b, n - 1);
    LedLoadIs(x, y, j, b, k, start, shift, n);
    Apart(x, y, n);
    RoleLoadIs(Rem(y - x, n) - 1, 0, Quo(b, n - 1), Rem(b, n - 1), shift + (j - 1), 0, n - 1);
    RoleLoadIs(Rem(y - x, n) - 1, 0, Quo(b, n - 1), Rem(b, n - 1) + 1, shift + (j - 1), 0, n - 1);
  }

  lemma {:induction false} PairSwap(x: int, i: nat, y: int, j: nat, shards: nat, start: int, shift: int, n: int)
    requires n > 1
    ensures PairLoad(x, i, y, j, shards, start, shift, n) == PairLoad(y, j, x, i, shards, start, shift, n)
  {
    hide Rem, Quo, Place;
    if shards > 0 {
      PairSwap(x, i, y, j, shards - 1, start, shift, n);
    }
  }

  /** With three nodes, two replicas of a shard say where its leader is. */
  lemma {:induction false} ThirdLeads(x: int, i: nat, y: int, j: nat, shards: nat, start: int, shift: int)
    requires 0 <= x < 3 && 0 <= y < 3 && x != y && 0 < i < 3 && 0 < j < 3 && i != j
    ensures PairLoad(x, i, y, j, shards, start, shift, 3) == PairLoad(3 - x - y, 0, x, i, shards, start, shift, 3)
  {
    hide Rem, Quo, Place;
    if shards > 0 {
      ThirdLeads(x, i, y, j, shards - 1, start, shift);
      ReplicasDiffer(shards - 1, 0, i, start, shift, 0, 3);
      ReplicasDiffer(shards - 1, 0, j, start, shift, 0, 3);
      ReplicasDiffer(shards - 1, if i < j then i else j, if i < j then j else i, start, shift, 0, 3);
    }
  }

  /** Distances that grow by `g` grow by one more place when they pass a whole round. */
  function Extra(k: int, g: int, n: int): (x: int)
    requires n > 1
    ensures 0 <= x <= 1
  {
    if Rem(k, n - 1) + g < n - 1 then 0 else 1
  }

  /** Replica `j` of a shard is `j - i` places after replica `i`, or one more, whatever the shift. */
  lemma FollowersTogether(s: nat, i: nat, j: nat, start: int, shift: int, n: int)
    requires 0 < i < j < n
    ensures var p, q := Place(s, i, start, shift, 0, n), Place(s, j, start, shift, 0, n);
            q == Rem(p + ((j - i) + Extra(ShiftAt(shift, s, 0, n) + (i - 1), j - i, n)), n)
  {
    hide Rem, Quo, First, ReplicaIndex, ShiftAt, Extra;
    FartherPlace(First(s, start, n), ShiftAt(shift, s, 0, n), i, j, n);
  }

  lemma FartherPlace(first: int, k: int, i: nat, j: nat, n: int)
    requires 0 < i < j < n
    ensures ReplicaIndex(first, k, j - 1, n)
         == Rem(ReplicaIndex(first, k, i - 1, n) + ((j - i) + Extra(k + (i - 1), j - i, n)), n)
  {
    hide Rem, Quo, Distance, Extra;
    var d, g, x := Distance(k + (i - 1), n), j - i, Extra(k + (i - 1), j - i, n);
    DistanceMore(k + (i - 1), g, n);
    assert k + (i - 1) + g == k + (j - 1);
    ModAddMod(first + d, g + x, n);
    if x == 1 {
      var e := Distance(k + (j - 1), n);
      WholeRound(first + e, n);
      assert first + d + (g + x) == first + e + n;
    } else {
      assert first + d + (g + x) == first + Distance(k + (j - 1), n);
    }
  }

  lemma DistanceMore(k: int, g: int, n: int)
    requires n > 1 && 0 <= g < n - 1
    ensures Distance(k + g, n) == Distance(k, n) + g - (if Extra(k, g, n) == 1 then n - 1 else 0)
  {
    hide Rem, Quo;
    ModAdd(k, g, n - 1);
  }

  /** Nodes `t` apart never hold replicas `i` and `j` of one shard. */
  lemma {:induction false} NeverMeet(t: int, i: nat, j: nat, shards: nat, start: int, shift: int, n: int)
    requires 0 < i < j < n && 0 < t < n && t != j - i && t != j - i + 1
    ensures PairLoad(0, i, t, j, shards, start, shift, n) == 0
  {
    hide Rem, Quo, Place;
    if shards > 0 {
      NeverMeet(t, i, j, shards - 1, start, shift, n);
      FollowersTogether(shards - 1, i, j, start, shift, n);
      RemUnique(j - i, n, 0, j - i);
      if j - i + 1 < n {
        RemUnique(j - i + 1, n, 0, j - i + 1);
      } else {
        WholeRound(0, n);
      }
    }
  }

  /** With this shift, nodes `j - i` apart meet in the first round and in the `n`th. */
  lemma Meet(p: int, i: nat, j: nat, b: nat, n: int) returns (s: nat)
    requires 0 < i < j < n && 0 <= p < n && (b == 0 || b == n - 1)
    ensures b * n <= s < b * n + n
    ensures Place(s, i, 0, n - i, 0, n) == p && Place(s, j, 0, n - i, 0, n) == Rem(p + (j - i), n)
  {
    hide Rem, Quo;
    var c := RoundStart(b, i, 0, n - i, n);
    var k := Rem(p - c, n);
    s := b * n + k;
    PlaceInRound(b, k, i, 0, n - i, n);
    TurnOf(p, c, k, n);
    FollowersTogether(s, i, j, 0, n - i, n);
    RemUnique(s, n, b, k);
    RemUnique(n - 1, n - 1, 1, 0);
    RemUnique(2 * (n - 1), n - 1, 2, 0);
  }

  lemma {:induction false} PairGrows(x: int, i: nat, y: int, j: nat, s: nat, shards: nat, start: int, shift: int, n: int)
    requires n > 1 && s <= shards
    ensures PairLoad(x, i, y, j, s, start, shift, n) <= PairLoad(x, i, y, j, shards, start, shift, n)
    decreases shards
  {
    hide Rem, Quo, Place;
    if s < shards {
      PairGrows(x, i, y, j, s, shards - 1, start, shift, n);
    }
  }

  lemma MeetTwice(p: int, i: nat, j: nat, n: int) returns (shards: nat)
    requires 0 < i < j < n && 0 <= p < n
    ensures PairLoad(p, i, Rem(p + (j - i), n), j, shards, 0, n - i, n) >= 2
  {
    hide Rem, Quo, Place;
    var y := Rem(p + (j - i), n);
    var s1 := Meet(p, i, j, 0, n);
    var s2 := Meet(p, i, j, n - 1, n);
    assert (n - 1) * n >= n by { assert (n - 1) * n >= 1 * n; }
    PairGrows(p, i, y, j, s1 + 1, s2, 0, n - i, n);
    shards := s2 + 1;
  }

  /** Of the shards that hold replica `i` on one node, replica `j` is on the others equally often, but for one. */
  ghost predicate Spread(i: nat, j: nat, n: int)
    requires n > 1
  {
    forall x, y, z, shards: nat, start, shift ::
      0 <= x < n && 0 <= y < n && 0 <= z < n && y != x && z != x && 0 <= start < n && 0 <= shift < n ==>
        PairLoad(x, i, y, j, shards, start, shift, n) - PairLoad(x, i, z, j, shards, start, shift, n) <= 1
  }

  lemma PairBounds(x: int, i: nat, y: int, j: nat, shards: nat, start: int, shift: int, n: int)
    requires n > 1 && i < n && j < n && i != j && (i == 0 || j == 0 || n <= 3)
    requires 0 <= x < n && 0 <= y < n && y != x
    ensures var q := Quo(Quo(shards, n), n - 1);
            q <= PairLoad(x, i, y, j, shards, start, shift, n) <= q + 1
  {
    hide Rem, Quo, PairLoad;
    if i == 0 {
      LedBounds(x, y, j, shards, start, shift, n);
    } else if j == 0 {
      PairSwap(x, i, y, j, shards, start, shift, n);
      LedBounds(y, x, i, shards, start, shift, n);
    } else {
      ThirdLeads(x, i, y, j, shards, start, shift);
      LedBounds(3 - x - y, x, i, shards, start, shift, n);
    }
  }

  /** The leader is spread against every other replica; two others are only among three nodes. */
  lemma SpreadIff(i: nat, j: nat, n: int)
    requires n > 1 && i < n && j < n && i != j
    ensures Spread(i, j, n) <==> i == 0 || j == 0 || n <= 3
  {
    hide Rem, Quo, PairLoad;
    if i == 0 || j == 0 || n <= 3 {
      forall x, y, z, shards: nat, start, shift |
        0 <= x < n && 0 <= y < n && 0 <= z < n && y != x && z != x
        ensures PairLoad(x, i, y, j, shards, start, shift, n) - PairLoad(x, i, z, j, shards, start, shift, n) <= 1
      {
        PairBounds(x, i, y, j, shards, start, shift, n);
        PairBounds(x, i, z, j, shards, start, shift, n);
      }
    } else {
      NotSpread(i, j, n);
    }
  }

  lemma NotSpread(i: nat, j: nat, n: int)
    requires 0 < i < n && 0 < j < n && i != j && n >= 4
    ensures !Spread(i, j, n)
  {
    hide Rem, Quo, PairLoad;
    if i < j {
      var d := j - i;
      var t := if d == 1 then 3 else 1;
      var shards := MeetTwice(0, i, j, n);
      NeverMeet(t, i, j, shards, 0, n - i, n);
      RemUnique(d, n, 0, d);
      assert PairLoad(0, i, d, j, shards, 0, n - i, n) - PairLoad(0, i, t, j, shards, 0, n - i, n) > 1;
    } else {
      var d := i - j;
      var t := if d == 1 then 3 else 1;
      var p := Rem(t - d, n);
      var shards := MeetTwice(p, j, i, n);
      NeverMeet(t, j, i, shards, 0, n - j, n);
      TurnOf(p, t - d, 0, n);
      ModAddMod(t - d, d, n);
      RemUnique(t, n, 0, t);
      PlacesDiffer(t - d, 0, d, n);
      PairSwap(p, j, t, i, shards, 0, n - j, n);
      PairSwap(0, j, t, i, shards, 0, n - j, n);
      assert PairLoad(t, i, p, j, shards, 0, n - j, n) - PairLoad(t, i, 0, j, shards, 0, n - j, n) > 1;
    }
  }

  // ----- the assignment -----

  /** The leaders go round the nodes; replica `j` follows its leader at a distance that grows with each round. */
  ghost function Spot(s: int, j: nat, start: int, shift: int, n: int): (i: int)
    requires n > 0 && (j > 0 ==> n > 1)
  {
    if j == 0 then (s + start) % n else ((s + start) % n + 1 + (shift + s / n + j - 1) % (n - 1)) % n
  }

  lemma SpotIsPlace(s: int, j: nat, start: int, shift: int, n: int)
    requires n > 0 && (j > 0 ==> n > 1)
    ensures Place(s, j, start, shift, 0, n) == Spot(s, j, start, shift, n)
  {
    if j > 0 {
      assert First(s, start, n) + Distance(ShiftAt(shift, s, 0, n) + j - 1, n)
          == (s + start) % n + 1 + (shift + s / n + j - 1) % (n - 1);
    }
  }

  /** The replica list of a shard. */
  function Replicas(nodes: seq<int>, s: int, factor: nat, start: int, shift: int, from: int): (rs: seq<int>)
    requires 0 < factor <= |nodes|
    ensures |rs| == factor
    ensures forall j :: 0 <= j < factor ==> rs[j] == nodes[Place(s, j, start, shift, from, |nodes|)]
  {
    seq(factor, j requires 0 <= j < factor => nodes[Place(s, j, start, shift, from, |nodes|)])
  }

  predicate IsAt(nodes: seq<int>, node: int, i: int) {
    0 <= i < |nodes| && nodes[i] == node
  }

  ghost predicate Unique(nodes: seq<int>) {
    forall i, j :: 0 <= i < j < |nodes| ==> nodes[i] != nodes[j]
  }

  /** The load counts a node's occurrences in the replica lists. */
  lemma {:induction false} LoadCounts(nodes: seq<int>, x: nat, s: int, factor: nat, start: int, shift: int)
    requires 0 < factor <= |nodes| && x < |nodes| && Unique(nodes)
    ensures multiset(Replicas(nodes, s, factor, start, shift, 0))[nodes[x]] == ShardLoad(x, s, factor, start, shift, |nodes|)
    decreases factor
  {
    hide Rem, Quo, Place;
    var rs := Replicas(nodes, s, factor, start, shift, 0);
    var y := Place(s, factor - 1, start, shift, 0, |nodes|);
    assert rs == rs[..factor - 1] + [nodes[y]];
    assert nodes[y] == nodes[x] <==> x == y;
    if factor == 1 {
      assert ShardLoad(x, s, 0, start, shift, |nodes|) == 0;
    } else {
      assert rs[..factor - 1] == Replicas(nodes, s, factor - 1, start, shift, 0);
      LoadCounts(nodes, x, s, factor - 1, start, shift);
    }
  }

  /** How often a node occurs in the replica lists of the first `n` shards. */
  ghost function Occurs(shards: map<int, seq<int>>, n: nat, node: int): (c: nat)
    requires forall s :: 0 <= s < n ==> s in shards
  {
    if n == 0 then 0 else Occurs(shards, n - 1, node) + multiset(shards[n - 1])[node]
  }

  ghost predicate Assigned(shards: map<int, seq<int>>, m: nat, nodes: seq<int>, factor: nat, start: int, shift: int)
    requires 0 < factor <= |nodes|
  {
    forall s :: 0 <= s < m ==> s in shards && shards[s] == Replicas(nodes, s, factor, start, shift, 0)
  }

  ghost predicate Placed(shards: map<int, seq<int>>, m: nat, nodes: seq<int>, factor: nat, start: int, shift: int)
    requires 0 < factor <= |nodes|
  {
    forall s, j :: 0 <= s < m && 0 <= j < factor ==>
      && s in shards && |shards[s]| == factor
      && IsAt(nodes, shards[s][j], Spot(s, j, start, shift, |nodes|))
  }

  lemma AssignedPlaced(shards: map<int, seq<int>>, m: nat, nodes: seq<int>, factor: nat, start: int, shift: int)
    requires 0 < factor <= |nodes| && Assigned(shards, m, nodes, factor, start, shift)
    ensures Placed(shards, m, nodes, factor, start, shift)
  {
    hide Place, Spot;
    forall s, j | 0 <= s < m && 0 <= j < factor
      ensures IsAt(nodes, shards[s][j], Spot(s, j, start, shift, |nodes|))
    {
      SpotIsPlace(s, j, start, shift, |nodes|);
    }
  }

  lemma {:induction false} OccursIsLoad(shards: map<int, seq<int>>, m: nat, nodes: seq<int>, x: nat, factor: nat, start: int, shift: int)
    requires 0 < factor <= |nodes| && x < |nodes| && Unique(nodes)
    requires Assigned(shards, m, nodes, factor, start, shift)
    ensures Occurs(shards, m, nodes[x]) == Load(x, m, factor, start, shift, |nodes|)
    decreases m
  {
    hide Rem, Quo, ShardLoad, Replicas;
    if m > 0 {
      OccursIsLoad(shards, m - 1, nodes, x, factor, start, shift);
      LoadCounts(nodes, x, m - 1, factor, start, shift);
    }
  }

  /** The first goal: all nodes hold equally many replicas, but for at most `factor`. */
  ghost predicate Even(shards: map<int, seq<int>>, m: nat, nodes: seq<int>, factor: nat)
    requires forall s :: 0 <= s < m ==> s in shards
  {
    forall x, y :: 0 <= x < |nodes| && 0 <= y < |nodes| ==>
      && Occurs(shards, m, nodes[x]) - Occurs(shards, m, nodes[y]) <= factor
      && (Rem(m, |nodes|) == 0 ==> Occurs(shards, m, nodes[x]) == factor * Quo(m, |nodes|))
  }

  lemma MapEven(shards: map<int, seq<int>>, m: nat, nodes: seq<int>, factor: nat, start: int, shift: int)
    requires 0 < factor <= |nodes| && Unique(nodes)
    requires Assigned(shards, m, nodes, factor, start, shift)
    ensures Even(shards, m, nodes, factor)
  {
    hide Rem, Quo, Occurs, Load, Replicas;
    forall x, y | 0 <= x < |nodes| && 0 <= y < |nodes|
      ensures Occurs(shards, m, nodes[x]) - Occurs(shards, m, nodes[y]) <= factor
      ensures Rem(m, |nodes|) == 0 ==> Occurs(shards, m, nodes[x]) == factor * Quo(m, |nodes|)
    {
      OccursIsLoad(shards, m, nodes, x, factor, start, shift);
      OccursIsLoad(shards, m, nodes, y, factor, start, shift);
      Balanced(x, y, m, factor, start, shift, |nodes|);
    }
  }

  /** `ShardAssignment.AddReplica`. */
  function AddReplica(shards: map<int, seq<int>>, s: int, node: int): (shards': map<int, seq<int>>)
  {
    shards[s := (if s in shards then shards[s] else []) + [node]]
  }

  /** `assignReplicasToStorageNodes`, from shard `from` on, when it has no replicas yet. */
  method AssignReplicas(nodes: seq<int>, numOfShard: nat, factor: nat, start: int, shift: int, from: nat)
    returns (shards: map<int, seq<int>>)
    requires 0 < factor <= |nodes|
    ensures forall s :: s in shards <==> from <= s < from + numOfShard
    ensures forall s :: from <= s < from + numOfShard ==> shards[s] == Replicas(nodes, s, factor, start, shift, from)
  {
    var n := |nodes|;
    var nextReplicaShift := shift;
    var current := from;
    shards := map[];
    for i := 0 to numOfShard
      invariant current == from + i
      invariant nextReplicaShift == if i == 0 then shift else ShiftAt(shift, current - 1, from, n)
      invariant forall s :: s in shards <==> from <= s < from + i
      invariant forall s :: from <= s < from + i ==> shards[s] == Replicas(nodes, s, factor, start, shift, from)
    {
      if current > 0 && current % n == 0 {
        nextReplicaShift := nextReplicaShift + 1;
      }
      ShiftGrows(shift, current, from, n);
      shards := AssignShard(nodes, shards, current, factor, start, nextReplicaShift, shift, from);
      current := current + 1;
    }
  }

  /** The shift of a shard is that of the one before, or one more after a full round. */
  lemma ShiftGrows(shift: int, s: nat, from: nat, n: nat)
    requires n > 0 && from <= s
    ensures var one := if s > 0 && s % n == 0 then 1 else 0;
            ShiftAt(shift, s, from, n) == (if s == from then shift else ShiftAt(shift, s - 1, from, n)) + one
  {
    if s > 0 {
      var q, r := (s - 1) / n, (s - 1) % n;
      assert s - 1 == q * n + r;
      if r + 1 < n {
        RemUnique(s, n, q, r + 1);
      } else {
        assert (q + 1) * n == q * n + n;
        RemUnique(s, n, q + 1, 0);
      }
    }
  }

  method AssignShard(nodes: seq<int>, shards: map<int, seq<int>>, s: int, factor: nat, start: int, next: int,
                     ghost shift: int, ghost from: int)
    returns (shards': map<int, seq<int>>)
    requires 0 < factor <= |nodes| && s !in shards && next == ShiftAt(shift, s, from, |nodes|)
    ensures shards' == shards[s := Replicas(nodes, s, factor, start, shift, from)]
  {
    hide First, ReplicaIndex, ShiftAt;
    var n := |nodes|;
    var first := First(s, start, n);
    shards' := AddReplica(shards, s, nodes[first]);
    assert shards'[s] == Replicas(nodes, s, 1, start, shift, from);
    for j := 0 to factor - 1
      invariant shards' == shards[s := Replicas(nodes, s, j + 1, start, shift, from)]
    {
      var idx := ReplicaIndex(first, next, j, n);
      shards' := AddReplica(shards', s, nodes[idx]);
      assert shards'[s] == Replicas(nodes, s, j + 2, start, shift, from);
    }
  }

  /**
   `ShardAssignment`: refuses exactly the three bad configurations; otherwise every shard
   gets `factor` replicas, on different nodes and evenly when the node list has no duplicates.
   */
  method Assign(nodes: seq<int>, numOfShard: int, factor: int, start: int, shift: int)
    returns (r: Option<map<int, seq<int>>>)
    ensures r == None <==> numOfShard <= 0 || factor <= 0 || factor > |nodes|
    ensures r.Some? ==>
              && (forall s :: s in r.value <==> 0 <= s < numOfShard)
              && forall s :: 0 <= s < numOfShard ==> r.value[s] == Replicas(nodes, s, factor, start, shift, 0)
    ensures r.Some? ==> Placed(r.value, numOfShard, nodes, factor, start, shift)
    ensures r.Some? && Unique(nodes) ==>
              && (forall s :: 0 <= s < numOfShard ==> Unique(r.value[s]))
              && Even(r.value, numOfShard, nodes, factor)
  {
    if numOfShard <= 0 || factor <= 0 || factor > |nodes| {
      return None;
    }
    var shards := AssignReplicas(nodes, numOfShard, factor, start, shift, 0);
    forall s, i, j | 0 <= s < numOfShard && 0 <= i < j < factor
      ensures Place(s, i, start, shift, 0, |nodes|) != Place(s, j, start, shift, 0, |nodes|)
    {
      ReplicasDiffer(s, i, j, start, shift, 0, |nodes|);
    }
    hide Place, Even, Placed;
    assert Assigned(shards, numOfShard, nodes, factor, start, shift);
    AssignedPlaced(shards, numOfShard, nodes, factor, start, shift);
    if Unique(nodes) {
      MapEven(shards, numOfShard, nodes, factor, start, shift);
    }
    r := Some(shards);
  }
}
