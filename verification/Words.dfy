/**
 Machine words as the bits they hold, most significant bit first.  A `uint64`
 is a `Word`, a `uint8` a `Byte`; shifts, `|` and `^` are defined on the bits,
 and `ToNat`/`FromNat` give a word its numeric value.
 */
module Words {

  type Bits = seq<bool>
  type Byte = b: Bits | |b| == 8 witness Zeros(8)
  type Bytes = seq<Byte>
  type UInt32 = n: nat | n < 0x1_0000_0000
  type Word = w: Bits | |w| == 64 witness Zeros(64)

  function Zeros(n: nat): (z: Bits)
    ensures |z| == n
    ensures forall i :: 0 <= i < n ==> !z[i]
  {
    seq(n, i => false)
  }

  /** `w << k`: bits leave at the top, zeros enter at the bottom. */
  function Shl(w: Bits, k: nat): (r: Bits)
    ensures |r| == |w|
    ensures forall i :: 0 <= i < |w| ==> r[i] == (i + k < |w| && w[i + k])
  {
    seq(|w|, i requires 0 <= i < |w| => i + k < |w| && w[i + k])
  }

  /** `w >> k` on an unsigned word. */
  function Shr(w: Bits, k: nat): (r: Bits)
    ensures |r| == |w|
    ensures forall i :: 0 <= i < |w| ==> r[i] == (i >= k && w[i - k])
  {
    seq(|w|, i requires 0 <= i < |w| => i >= k && w[i - k])
  }

  function Or(a: Bits, b: Bits): (r: Bits)
    requires |a| == |b|
    ensures |r| == |a|
    ensures forall i :: 0 <= i < |a| ==> r[i] == (a[i] || b[i])
  {
    seq(|a|, i requires 0 <= i < |a| => a[i] || b[i])
  }

  function And(a: Bits, b: Bits): (r: Bits)
    requires |a| == |b|
    ensures |r| == |a|
    ensures forall i :: 0 <= i < |a| ==> r[i] == (a[i] && b[i])
  {
    seq(|a|, i requires 0 <= i < |a| => a[i] && b[i])
  }

  function Xor(a: Bits, b: Bits): (r: Bits)
    requires |a| == |b|
    ensures |r| == |a|
    ensures forall i :: 0 <= i < |a| ==> r[i] == (a[i] != b[i])
  {
    seq(|a|, i requires 0 <= i < |a| => a[i] != b[i])
  }

  /** Widening conversion of an unsigned value to `n` bits. */
  function Extend(b: Bits, n: nat): (r: Bits)
    requires |b| <= n
    ensures |r| == n
  {
    Zeros(n - |b|) + b
  }

  /** The word 1 at the given width. */
  function One(width: nat): (r: Bits)
    requires width > 0
    ensures |r| == width
    ensures forall i :: 0 <= i < width ==> r[i] == (i == width - 1)
  {
    Zeros(width - 1) + [true]
  }

  /** `bits.LeadingZeros64` and its 32-bit form. */
  function LeadingZeros(w: Bits): (n: nat)
    ensures n <= |w|
  {
    if |w| == 0 || w[0] then 0 else 1 + LeadingZeros(w[1..])
  }

  lemma {:induction false} LeadingZerosSpec(w: Bits)
    ensures forall i :: 0 <= i < LeadingZeros(w) ==> !w[i]
    ensures LeadingZeros(w) < |w| ==> w[LeadingZeros(w)]
  {
    if |w| > 0 && !w[0] {
      LeadingZerosSpec(w[1..]);
      forall i | 0 < i < LeadingZeros(w)
        ensures !w[i]
      {
        assert w[i] == w[1..][i - 1];
      }
    }
  }

  /** `bits.TrailingZeros64`. */
  function TrailingZeros(w: Bits): (n: nat)
    ensures n <= |w|
  {
    if |w| == 0 || w[|w| - 1] then 0 else 1 + TrailingZeros(w[..|w| - 1])
  }

  lemma {:induction false} TrailingZerosSpec(w: Bits)
    ensures forall i :: |w| - TrailingZeros(w) <= i < |w| ==> !w[i]
    ensures TrailingZeros(w) < |w| ==> w[|w| - 1 - TrailingZeros(w)]
  {
    if |w| > 0 && !w[|w| - 1] {
      TrailingZerosSpec(w[..|w| - 1]);
    }
  }

  /** The bit stream a run of bytes holds. */
  function Flat(bs: Bytes): (r: Bits)
    ensures |r| == 8 * |bs|
  {
    if |bs| == 0 then [] else bs[0] + Flat(bs[1..])
  }

  lemma {:induction false} FlatAppend(a: Bytes, b: Bytes)
    ensures Flat(a + b) == Flat(a) + Flat(b)
  {
    if |a| == 0 {
      assert a + b == b;
    } else {
      assert (a + b)[1..] == a[1..] + b;
      FlatAppend(a[1..], b);
    }
  }

  lemma FlatSnoc(a: Bytes, b: Byte)
    ensures Flat(a + [b]) == Flat(a) + b
  {
    assert [b][1..] == [];
    assert Flat([b]) == b;
    FlatAppend(a, [b]);
  }

  function Pow2(n: nat): (p: nat)
    ensures p >= 1
  {
    if n == 0 then 1 else 2 * Pow2(n - 1)
  }

  /** The unsigned value of a word. */
  function ToNat(b: Bits): (n: nat)
    ensures n < Pow2(|b|)
  {
    if |b| == 0 then 0
    else 2 * ToNat(b[..|b| - 1]) + (if b[|b| - 1] then 1 else 0)
  }

  /** The low `width` bits of a number: the conversion that truncates. */
  function FromNat(n: nat, width: nat): (b: Bits)
    ensures |b| == width
  {
    if width == 0 then [] else FromNat(n / 2, width - 1) + [n % 2 == 1]
  }

  lemma {:induction false} ToNatFromNat(n: nat, width: nat)
    ensures ToNat(FromNat(n, width)) == n % Pow2(width)
  {
    if width > 0 {
      var b := FromNat(n, width);
      assert b[..|b| - 1] == FromNat(n / 2, width - 1);
      ToNatFromNat(n / 2, width - 1);
      ModDouble(n, Pow2(width - 1));
    }
  }

  lemma ModDouble(n: nat, p: nat)
    requires p > 0
    ensures n % (2 * p) == 2 * (n / 2 % p) + n % 2
  {
    var q, r := n / 2 / p, n / 2 % p;
    assert n / 2 == q * p + r;
    assert n == q * (2 * p) + (2 * r + n % 2);
    ModUnique(n, 2 * p, q, 2 * r + n % 2);
  }

  lemma ModUnique(n: int, d: int, q: int, r: int)
    requires 0 <= r < d
    requires n == q * d + r
    ensures n % d == r && n / d == q
  {
    var q', r' := n / d, n % d;
    assert n == q' * d + r';
    assert (q - q') * d == r' - r;
    MulBound(q - q', d);
    MulBound(q' - q, d);
  }

  lemma MulBound(a: int, d: int)
    requires d > 0
    ensures a >= 1 ==> a * d >= d
  {}

  lemma SmallMod(n: nat, p: nat)
    requires n < p
    ensures n % p == n
  {}

  lemma {:induction false} ToNatExtend(b: Bits, k: nat)
    ensures ToNat(Zeros(k) + b) == ToNat(b)
  {
    var e := Zeros(k) + b;
    if |b| == 0 {
      assert e == Zeros(k);
      ToNatZeros(k);
    } else {
      assert e[..|e| - 1] == Zeros(k) + b[..|b| - 1];
      ToNatExtend(b[..|b| - 1], k);
    }
  }

  lemma {:induction false} ToNatZeros(k: nat)
    ensures ToNat(Zeros(k)) == 0
  {
    if k > 0 {
      assert Zeros(k)[..k - 1] == Zeros(k - 1);
      ToNatZeros(k - 1);
    }
  }

  lemma Pow2Eight()
    ensures Pow2(8) == 256
  {
    assert Pow2(4) == 16;
    assert Pow2(8) == 16 * Pow2(4);
  }

  /** The byte with a given value; larger numbers keep their low eight bits. */
  function ByteOf(n: nat): (b: Byte)
  {
    FromNat(n, 8)
  }

  lemma ByteValue(n: nat)
    ensures ToNat(ByteOf(n)) == n % 256
  {
    hide ToNat, FromNat, Pow2;
    Pow2Eight();
    ToNatFromNat(n, 8);
  }

  lemma ByteBound(b: Byte)
    ensures ToNat(b) < 256
  {
    hide ToNat, Pow2;
    Pow2Eight();
  }

  /** The low bits of a number do not depend on how many more are kept. */
  lemma {:induction false} LowFromNat(n: nat, width: nat, k: nat)
    requires k <= width
    ensures FromNat(n, width)[width - k..] == FromNat(n, k)
  {
    if k > 0 {
      LowFromNat(n / 2, width - 1, k - 1);
      var b := FromNat(n, width);
      assert b[width - k..] == FromNat(n / 2, width - 1)[width - k..] + [n % 2 == 1];
    }
  }

  // ----- sequence bookkeeping -----

  lemma Split<T>(a: seq<T>, b: seq<T>)
    ensures (a + b)[..|a|] == a && (a + b)[|a|..] == b
  {
  }

  lemma Assoc<T>(a: seq<T>, b: seq<T>, c: seq<T>)
    ensures a + b + c == a + (b + c)
  {
  }

  lemma Advance<T>(done: seq<T>, ahead: seq<T>)
    ensures ahead != [] ==> done + ahead == (done + [ahead[0]]) + ahead[1..]
  {
  }
}
