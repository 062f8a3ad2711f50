/**
 The XOR value codec (section 4.1.2 of the Gorilla paper, PVLDB volume 8, with
 six bits for the number of leading zeros and the reuse bit inverted).  One step
 of the encoder and of the decoder are functions on their states; the classes
 below compute them on a bit stream, and the lemmas show that a decoder whose
 window is in step with the encoder's gives every value back.
 */
module XorCodec {
  import opened Options
  import opened Words
  import opened BitIO

  /** Encoder state: `leading`/`trailing` describe the window of meaningful bits. */
  datatype Enc = Enc(first: bool, prev: Word, leading: nat, trailing: nat)

  /** Decoder state; a malformed stream can make `trailing` wrap, seen here as negative. */
  datatype Dec = Dec(first: bool, val: Word, leading: nat, trailing: int)

  const NewEnc := Enc(true, Zeros(64), 0, 0)
  const ResetEnc := Enc(true, Zeros(64), 255, 0)
  const NewDec := Dec(true, Zeros(64), 0, 0)

  /** The low `n` bits of a word. */
  function Low(w: Word, n: nat): (b: Bits)
    requires n <= 64
    ensures |b| == n
  {
    w[64 - n..]
  }

  predicate Reuses(e: Enc, delta: Word) {
    LeadingZeros(delta) >= e.leading && TrailingZeros(delta) >= e.trailing
  }

  lemma NonZeroWidth(delta: Word)
    requires delta != Zeros(64)
    ensures LeadingZeros(delta) + TrailingZeros(delta) <= 63
  {
    LeadingZerosSpec(delta);
    TrailingZerosSpec(delta);
    assert exists i :: 0 <= i < 64 && delta[i] by {
      assert delta != Zeros(64);
    }
  }

  function EncNext(e: Enc, v: Word): (e': Enc)
  {
    var delta := Xor(v, e.prev);
    if e.first then e.(first := false, prev := v)
    else if delta == Zeros(64) || Reuses(e, delta) then e.(prev := v)
    else Enc(false, v, LeadingZeros(delta), TrailingZeros(delta))
  }

  function EncBits(e: Enc, v: Word): (b: Bits)
  {
    var delta := Xor(v, e.prev);
    if e.first then v
    else if delta == Zeros(64) then [false]
    else
      NonZeroWidth(delta);
      if Reuses(e, delta) then
        [true, true] + Block(delta, e.leading, e.trailing)
      else
        var leading, trailing := LeadingZeros(delta), TrailingZeros(delta);
        Header(leading, 64 - leading - trailing) + Block(delta, leading, trailing)
  }

  /** The meaningful bits of `delta` under a window. */
  function Block(delta: Word, leading: nat, trailing: nat): (b: Bits)
    requires leading + trailing <= 63
    ensures |b| == 64 - leading - trailing
  {
    Low(Shr(delta, trailing), 64 - leading - trailing)
  }

  /** Control bits and description of a new window. */
  function Header(leading: nat, blockSize: nat): (b: Bits)
    requires blockSize >= 1
    ensures |b| == 14
  {
    [true, false] + FromNat(leading, 6) + FromNat(blockSize - 1, 6)
  }

  /** The block as a word, shifted left; a wrapped shift count leaves nothing. */
  function Paste(w: Word, k: int): (r: Word)
  {
    if k < 0 then Zeros(64) else Shl(w, k)
  }

  predicate DecValid(d: Dec) {
    1 <= 64 - d.leading - d.trailing <= 64
  }

  function DecBlock(d: Dec, s: Bits): (r: Option<(Dec, Bits)>)
    requires DecValid(d)
    ensures r.Some? ==> DecValid(r.value.0)
  {
    var blockSize := 64 - d.leading - d.trailing;
    if |s| < blockSize then None
    else Some((d.(val := Xor(d.val, Paste(Extend(s[..blockSize], 64), d.trailing))), s[blockSize..]))
  }

  /** One decoding step; `None` when the stream ends inside it. */
  function DecStep(d: Dec, s: Bits): (r: Option<(Dec, Bits)>)
    requires DecValid(d)
    ensures r.Some? ==> DecValid(r.value.0)
  {
    if d.first then
      if |s| < 64 then None else Some((d.(first := false, val := s[..64]), s[64..]))
    else if |s| == 0 then None
    else if !s[0] then Some((d, s[1..]))
    else if |s| == 1 then None
    else if s[1] then DecBlock(d, s[2..])
    else if |s| < 14 then None
    else
      var leading, blockSize := ToNat(s[2..8]), ToNat(s[8..14]) + 1;
      assert Pow2(6) == 64;
      DecBlock(d.(leading := leading, trailing := 64 - leading - blockSize), s[14..])
  }

  /** The steps that need no window: the first value, a repeated one, and the end of the stream. */
  lemma DecEasy(d: Dec, s: Bits)
    requires DecValid(d)
    ensures d.first ==>
              DecStep(d, s) == if |s| < 64 then None else Some((d.(first := false, val := s[..64]), s[64..]))
    ensures !d.first && |s| == 0 ==> DecStep(d, s) == None
    ensures !d.first && |s| > 0 && !s[0] ==> DecStep(d, s) == Some((d, s[1..]))
  {
    hide ToNat, DecBlock;
  }

  /** The windows agree, unless the encoder's is still one no value can fall into. */
  predicate Sync(e: Enc, d: Dec) {
    && DecValid(d)
    && e.first == d.first
    && (!e.first ==> e.prev == d.val)
    && (e.leading >= 64 || (d.leading == e.leading && d.trailing == e.trailing))
  }

  lemma NewInSync()
    ensures Sync(NewEnc, NewDec) && Sync(ResetEnc, NewDec)
  {
  }

  // ----- one step undone -----

  /** Cutting a block out of a word and putting it back loses nothing outside the window. */
  lemma BlockInverse(delta: Word, l: nat, t: nat)
    requires l + t <= 63
    requires l <= LeadingZeros(delta) && t <= TrailingZeros(delta)
    ensures Paste(Extend(Block(delta, l, t), 64), t) == delta
  {
    LeadingZerosSpec(delta);
    TrailingZerosSpec(delta);
    BlockIsSlice(delta, l, t);
    PasteSlice(delta[l..64 - t], t);
    assert Zeros(l) + delta[l..64 - t] + Zeros(t) == delta;
  }

  lemma BlockIsSlice(delta: Word, l: nat, t: nat)
    requires l + t <= 63
    ensures Block(delta, l, t) == delta[l..64 - t]
  {
  }

  lemma PasteSlice(b: Bits, t: nat)
    requires |b| + t <= 64
    ensures Paste(Extend(b, 64), t) == Zeros(64 - |b| - t) + b + Zeros(t)
  {
  }

  lemma XorBack(prev: Word, v: Word)
    ensures Xor(prev, Xor(v, prev)) == v
    ensures Xor(v, prev) == Zeros(64) ==> v == prev
  {
    if Xor(v, prev) == Zeros(64) {
      forall i | 0 <= i < 64
        ensures v[i] == prev[i]
      {
        assert !Xor(v, prev)[i];
      }
    }
  }

  lemma BlockStep(d: Dec, delta: Word, rest: Bits)
    requires d.trailing >= 0 && d.leading + d.trailing <= 63
    requires d.leading <= LeadingZeros(delta) && d.trailing <= TrailingZeros(delta)
    ensures DecBlock(d, Block(delta, d.leading, d.trailing) + rest) == Some((d.(val := Xor(d.val, delta)), rest))
  {
    hide Xor, Block, Paste, Extend, LeadingZeros, TrailingZeros;
    Split(Block(delta, d.leading, d.trailing), rest);
    BlockInverse(delta, d.leading, d.trailing);
  }

  lemma HeaderStep(d: Dec, leading: nat, blockSize: nat, block: Bits)
    requires DecValid(d) && !d.first
    requires leading <= 63 && 1 <= blockSize <= 64
    ensures DecStep(d, Header(leading, blockSize) + block)
         == DecBlock(d.(leading := leading, trailing := 64 - leading - blockSize), block)
  {
    hide DecBlock, FromNat, ToNat;
    var a, b := FromNat(leading, 6), FromNat(blockSize - 1, 6);
    var s := Header(leading, blockSize) + block;
    assert s[2..8] == a && s[8..14] == b && s[14..] == block;
    assert Pow2(6) == 64;
    ToNatFromNat(leading, 6);
    ToNatFromNat(blockSize - 1, 6);
    SmallMod(leading, 64);
    SmallMod(blockSize - 1, 64);
  }

  /** A block is the part of the difference inside the window. */
  lemma BlockIs(delta: Word, leading: nat, trailing: nat)
    requires leading + trailing <= 63
    ensures Block(delta, leading, trailing) == delta[leading..64 - trailing]
  {
    assert Shr(delta, trailing)[trailing..] == delta[..64 - trailing];
  }

  /** The difference has no set bit outside the window. */
  ghost predicate Inside(delta: Word, leading: nat, trailing: nat) {
    forall i :: 0 <= i < 64 && (i < leading || i >= 64 - trailing) ==> !delta[i]
  }

  lemma ReusesIff(e: Enc, delta: Word)
    requires delta != Zeros(64)
    ensures Reuses(e, delta) <==> Inside(delta, e.leading, e.trailing)
  {
    hide LeadingZeros, TrailingZeros;
    NonZeroWidth(delta);
    LeadingZerosSpec(delta);
    TrailingZerosSpec(delta);
  }

  lemma NarrowWindow(delta: Word)
    requires delta != Zeros(64)
    ensures var l, t := LeadingZeros(delta), TrailingZeros(delta);
            l + t <= 63 && delta[l] && delta[63 - t] && Inside(delta, l, t)
  {
    hide LeadingZeros, TrailingZeros;
    NonZeroWidth(delta);
    LeadingZerosSpec(delta);
    TrailingZerosSpec(delta);
  }

  /**
   What a changed value costs: two bits and the old window when no set bit is outside it, else
   14 bits and exactly the bits from the first set one to the last, which become the window.
   */
  lemma BlockWidth(e: Enc, v: Word)
    requires !e.first && v != e.prev
    ensures var delta, bits, e' := Xor(v, e.prev), EncBits(e, v), EncNext(e, v);
            if Inside(delta, e.leading, e.trailing) then
              && e.leading + e.trailing <= 63 && e' == e.(prev := v)
              && bits == [true, true] + delta[e.leading..64 - e.trailing]
            else
              && e'.leading + e'.trailing <= 63 && delta[e'.leading] && delta[63 - e'.trailing]
              && Inside(delta, e'.leading, e'.trailing)
              && bits == [true, false] + FromNat(e'.leading, 6) + FromNat(63 - e'.leading - e'.trailing, 6)
                       + delta[e'.leading..64 - e'.trailing]
  {
    hide LeadingZeros, TrailingZeros, FromNat, Block, Inside;
    var delta := Xor(v, e.prev);
    XorBack(e.prev, v);
    NarrowWindow(delta);
    ReusesIff(e, delta);
    if Reuses(e, delta) {
      BlockIs(delta, e.leading, e.trailing);
    } else {
      BlockIs(delta, LeadingZeros(delta), TrailingZeros(delta));
    }
  }

  lemma ReuseInverse(e: Enc, d: Dec, v: Word, rest: Bits)
    requires Sync(e, d) && !e.first
    requires Xor(v, e.prev) != Zeros(64) && Reuses(e, Xor(v, e.prev))
    ensures DecStep(d, EncBits(e, v) + rest) == Some((d.(val := v), rest))
  {
    var delta := Xor(v, e.prev);
    NonZeroWidth(delta);
    XorBack(e.prev, v);
    Split([true, true], Block(delta, e.leading, e.trailing) + rest);
    assert EncBits(e, v) + rest == [true, true] + (Block(delta, e.leading, e.trailing) + rest);
    BlockStep(d, delta, rest);
  }

  lemma NewWindowInverse(e: Enc, d: Dec, v: Word, rest: Bits)
    requires Sync(e, d) && !e.first
    requires Xor(v, e.prev) != Zeros(64) && !Reuses(e, Xor(v, e.prev))
    ensures DecStep(d, EncBits(e, v) + rest)
         == Some((Dec(false, v, LeadingZeros(Xor(v, e.prev)), TrailingZeros(Xor(v, e.prev))), rest))
  {
    hide FromNat, Xor, Block, DecStep, DecBlock;
    var delta := Xor(v, e.prev);
    var l, t := LeadingZeros(delta), TrailingZeros(delta);
    NonZeroWidth(delta);
    XorBack(e.prev, v);
    assert EncBits(e, v) + rest == Header(l, 64 - l - t) + (Block(delta, l, t) + rest);
    HeaderStep(d, l, 64 - l - t, Block(delta, l, t) + rest);
    BlockStep(d.(leading := l, trailing := t), delta, rest);
  }

  /** A decoder in step with the encoder takes off exactly what it wrote and stays in step. */
  lemma StepInverse(e: Enc, d: Dec, v: Word, rest: Bits)
    requires Sync(e, d)
    ensures var r := DecStep(d, EncBits(e, v) + rest);
            r.Some? && r.value.0.val == v && r.value.1 == rest && Sync(EncNext(e, v), r.value.0)
  {
    var delta := Xor(v, e.prev);
    if e.first {
      Split(v, rest);
    } else if delta == Zeros(64) {
      XorBack(e.prev, v);
      Split([false], rest);
    } else if Reuses(e, delta) {
      ReuseInverse(e, d, v, rest);
    } else {
      NonZeroWidth(delta);
      NewWindowInverse(e, d, v, rest);
    }
  }

  // ----- whole runs -----

  function EncRun(e: Enc, vs: seq<Word>): (b: Bits)
    decreases |vs|
  {
    if |vs| == 0 then [] else EncBits(e, vs[0]) + EncRun(EncNext(e, vs[0]), vs[1..])
  }

  function DecRun(d: Dec, n: nat, s: Bits): (r: Option<seq<Word>>)
    requires DecValid(d)
    decreases n
  {
    if n == 0 then Some([])
    else
      match DecStep(d, s)
      case None => None
      case Some((d', s')) =>
        match DecRun(d', n - 1, s')
        case None => None
        case Some(vs) => Some([d'.val] + vs)
  }

  /** Every list of values comes back, whatever bits follow it in the stream. */
  lemma {:induction false} RoundTrip(e: Enc, d: Dec, vs: seq<Word>, rest: Bits)
    requires Sync(e, d)
    ensures DecRun(d, |vs|, EncRun(e, vs) + rest) == Some(vs)
    decreases |vs|
  {
    hide EncBits, EncNext, DecStep;
    if |vs| > 0 {
      var tail := EncRun(EncNext(e, vs[0]), vs[1..]);
      assert EncRun(e, vs) + rest == EncBits(e, vs[0]) + (tail + rest);
      StepInverse(e, d, vs[0], tail + rest);
      RoundTrip(EncNext(e, vs[0]), DecStep(d, EncRun(e, vs) + rest).value.0, vs[1..], rest);
      assert vs == [vs[0]] + vs[1..];
    }
  }

  /** The round trip from a new encoder and from a reset one. */
  lemma RoundTripFromStart(vs: seq<Word>, rest: Bits)
    ensures DecRun(NewDec, |vs|, EncRun(NewEnc, vs) + rest) == Some(vs)
    ensures DecRun(NewDec, |vs|, EncRun(ResetEnc, vs) + rest) == Some(vs)
  {
    NewInSync();
    RoundTrip(NewEnc, NewDec, vs, rest);
    RoundTrip(ResetEnc, NewDec, vs, rest);
  }

  function Changes(prev: Word, vs: seq<Word>): (n: nat)
    ensures n <= |vs|
    decreases |vs|
  {
    if |vs| == 0 then 0 else (if vs[0] != prev then 1 else 0) + Changes(vs[0], vs[1..])
  }

  /**
   A window of (0, 0) takes every block, so an encoder that was created and never
   reset spends 66 bits on each change and never narrows its window.
   */
  lemma {:induction false} WideWindowStays(e: Enc, vs: seq<Word>)
    requires !e.first && e.leading == 0 && e.trailing == 0
    ensures |EncRun(e, vs)| == |vs| + 65 * Changes(e.prev, vs)
    decreases |vs|
  {
    if |vs| > 0 {
      var e' := EncNext(e, vs[0]);
      XorBack(e.prev, vs[0]);
      if vs[0] == e.prev {
        assert Xor(vs[0], e.prev) == Zeros(64);
      }
      WideWindowStays(e', vs[1..]);
    }
  }

  lemma SizeFromNew(vs: seq<Word>)
    requires |vs| > 0
    ensures |EncRun(NewEnc, vs)| == 64 + (|vs| - 1) + 65 * Changes(vs[0], vs[1..])
  {
    WideWindowStays(EncNext(NewEnc, vs[0]), vs[1..]);
  }

  // ----- the encoder and decoder objects -----

  class XOREncoder {
    const bw: Writer
    var previousVal: Word
    var leading: nat
    var trailing: nat
    var first: bool

    ghost predicate Valid()
      reads this, bw, bw.w
    {
      bw.Valid()
    }

    ghost function State(): (e: Enc)
      reads this
    {
      Enc(first, previousVal, leading, trailing)
    }

    constructor (writer: Writer)
      ensures bw == writer && State() == NewEnc
    {
      bw := writer;
      previousVal, leading, trailing, first := Zeros(64), 0, 0, true;
    }

    method Reset()
      modifies this
      ensures State() == ResetEnc
    {
      previousVal, leading, trailing, first := Zeros(64), 255, 0, true;
    }

    method Write(val: Word)
      requires Valid()
      modifies this, bw, bw.w
      ensures Valid()
      ensures State() == EncNext(old(State()), val)
      ensures bw.stream == old(bw.stream) + EncBits(old(State()), val)
    {
      hide Flat, LeadingZeros, TrailingZeros, Block, Header;
      if first {
        first, previousVal := false, val;
        bw.WriteBits(val, 64);
        return;
      }
      var delta: Word := Xor(val, previousVal);
      if delta == Zeros(64) {
        bw.WriteBit(false);
        previousVal := val;
      } else {
        NonZeroWidth(delta);
        WriteDelta(delta);
        previousVal := val;
      }
    }

    /** The branch of `Write` for a non-zero XOR. */
    method WriteDelta(delta: Word)
      requires Valid()
      requires delta != Zeros(64) && LeadingZeros(delta) + TrailingZeros(delta) <= 63
      modifies this, bw, bw.w
      ensures Valid() && first == old(first) && previousVal == old(previousVal)
      ensures Reuses(old(State()), delta) ==>
                && leading == old(leading) && trailing == old(trailing)
                && bw.stream == old(bw.stream) + ([true, true] + Block(delta, leading, trailing))
      ensures !Reuses(old(State()), delta) ==>
                && leading == LeadingZeros(delta) && trailing == TrailingZeros(delta)
                && bw.stream == old(bw.stream)
                     + (Header(leading, 64 - leading - trailing) + Block(delta, leading, trailing))
    {
      hide Flat, FromNat, LeadingZeros, TrailingZeros, Shr, Zeros;
      bw.WriteBit(true);
      var l, t := LeadingZeros(delta), TrailingZeros(delta);
      if l >= leading && t >= trailing {
        bw.WriteBit(true);
        bw.WriteBits(Shr(delta, trailing), 64 - leading - trailing);
        Gather(old(bw.stream), true, true, Block(delta, leading, trailing));
      } else {
        bw.WriteBit(false);
        WriteWindow(delta, l, t);
        Gather(old(bw.stream), true, false,
               FromNat(l, 6) + FromNat(64 - l - t - 1, 6) + Block(delta, l, t));
        Regroup3([true, false], FromNat(l, 6), FromNat(64 - l - t - 1, 6), Block(delta, l, t));
        leading, trailing := l, t;
      }
    }

    method WriteWindow(delta: Word, l: nat, t: nat)
      requires Valid() && l + t <= 63
      modifies bw, bw.w
      ensures Valid()
      ensures bw.stream == old(bw.stream) + (FromNat(l, 6) + FromNat(64 - l - t - 1, 6) + Block(delta, l, t))
    {
      hide FromNat, Flat, Shr;
      var blockSize := 64 - l - t;
      LowFromNat(l, 64, 6);
      LowFromNat(blockSize - 1, 64, 6);
      bw.WriteBits(FromNat(l, 64), 6);
      bw.WriteBits(FromNat(blockSize - 1, 64), 6);
      bw.WriteBits(Shr(delta, t), blockSize);
      Regroup3(old(bw.stream), FromNat(l, 6), FromNat(blockSize - 1, 6), Block(delta, l, t));
    }
  }

  lemma Gather(s: Bits, x: bool, y: bool, z: Bits)
    ensures s + [x] + [y] + z == s + ([x, y] + z)
  {
  }

  lemma Regroup3(s: Bits, a: Bits, b: Bits, c: Bits)
    ensures s + a + b + c == s + (a + b + c)
  {
  }

  class XORDecoder {
    const br: Reader
    var val: Word
    var leading: nat
    var trailing: int
    var first: bool
    var err: bool

    ghost predicate Valid()
      reads this, br, br.buf
    {
      br.Valid() && (err || DecValid(State()))
    }

    ghost function State(): (d: Dec)
      reads this
    {
      Dec(first, val, leading, trailing)
    }

    constructor (reader: Reader)
      ensures br == reader && State() == NewDec && !err
    {
      br, val, leading, trailing, first, err := reader, Zeros(64), 0, 0, true, false;
    }

    method Reset()
      modifies this
      ensures State() == NewDec && !err
    {
      first, leading, trailing, err, val := true, 0, 0, false, Zeros(64);
    }

    /** `Next`: the value is in `val` afterwards. */
    method Next() returns (ok: bool)
      requires Valid()
      modifies this, br, br.buf
      ensures Valid() && br.buf.buf == old(br.buf.buf)
      ensures old(err) ==> !ok && err
      ensures !old(err) ==>
                match DecStep(old(State()), old(br.rest))
                case Some((d, s)) => ok && !err && State() == d && br.rest == s
                case None => err && (ok <==> old(first))
    {
      if err {
        return false;
      }
      DecEasy(State(), br.rest);
      hide ToNat, Flat, DecBlock, DecStep;
      if first {
        first := false;
        val, err := br.ReadBits(64);
        return true;
      }
      var b;
      b, err := br.ReadBit();
      if err {
        return false;
      }
      if b {
        ok := NextChanged(old(br.rest));
        return;
      }
      return true;
    }

    /** The branch of `Next` for a value that differs from the previous one. */
    method NextChanged(ghost s: Bits) returns (ok: bool)
      requires Valid() && !err && !first && |s| >= 1 && s[0] && br.rest == s[1..]
      modifies this, br, br.buf
      ensures Valid() && br.buf.buf == old(br.buf.buf)
      ensures match DecStep(old(State()), s)
              case Some((d, s')) => ok && !err && State() == d && br.rest == s'
              case None => err && !ok
    {
      hide ToNat, Flat, Xor, Paste, DecBlock;
      var b;
      b, err := br.ReadBit();
      if err {
        return false;
      }
      assert br.rest == s[2..];
      if !b {
        ok := ReadWindow(s);
        if !ok {
          return;
        }
      }
      ok := ReadBlock();
    }

    /** Reads a new window, six bits for each of its two numbers. */
    method ReadWindow(ghost s: Bits) returns (ok: bool)
      requires Valid() && !err && |s| >= 2 && br.rest == s[2..]
      modifies this, br, br.buf
      ensures Valid() && br.buf.buf == old(br.buf.buf)
      ensures val == old(val) && first == old(first)
      ensures ok == !err == (|s| >= 14)
      ensures ok ==> leading == ToNat(s[2..8]) && trailing == 64 - leading - (ToNat(s[8..14]) + 1)
      ensures ok ==> br.rest == s[14..]
    {
      hide ToNat, Flat;
      var size;
      leading, err := ReadSix();
      if err {
        return false;
      }
      assert s[2..][..6] == s[2..8] && s[2..][6..] == s[8..];
      size, err := ReadSix();
      if err {
        return false;
      }
      assert s[8..][..6] == s[8..14] && s[8..][6..] == s[14..];
      trailing := 64 - leading - (size + 1);
      ok := true;
    }

    method ReadSix() returns (n: nat, e: bool)
      requires br.Valid()
      modifies br, br.buf
      ensures br.Valid() && br.buf.buf == old(br.buf.buf)
      ensures e == (|old(br.rest)| < 6)
      ensures !e ==> n == ToNat(old(br.rest)[..6]) && n < 64 && br.rest == old(br.rest)[6..]
    {
      var u;
      u, e := br.ReadBits(6);
      n := ToNat(u);
      if !e {
        ToNatExtend(old(br.rest)[..6], 58);
        assert Pow2(6) == 64;
      }
    }

    method ReadBlock() returns (ok: bool)
      requires Valid() && !err
      modifies this, br, br.buf
      ensures Valid() && br.buf.buf == old(br.buf.buf)
      ensures match DecBlock(old(State()), old(br.rest))
              case Some((d, s)) => ok && !err && State() == d && br.rest == s
              case None => err && !ok
    {
      hide Xor, Paste, Flat;
      var blockSize := 64 - leading - trailing;
      var delta, e := br.ReadBits(blockSize);
      if e {
        err := true;
        return false;
      }
      val := Xor(val, Paste(delta, trailing));
      ok := true;
    }
  }
}
