/** CRC-32 of the config envelope (crates/smartbox-config/src/serialization.rs; section 8 of RFC 1952). */
module Crc {
  import opened Basics

  function Pow2(n: nat): (p: nat)
    ensures p > 0
  {
    if n == 0 then 1 else 2 * Pow2(n - 1)
  }

  lemma {:induction false} Pow2Add(m: nat, n: nat)
    ensures Pow2(m + n) == Pow2(m) * Pow2(n)
  {
    if m > 0 { Pow2Add(m - 1, n); }
  }

  /** The low `k` bits of `n`, least significant first. */
  function BitsOf(n: nat, k: nat): (s: seq<bool>)
    ensures |s| == k
    decreases k, n
  {
    if k == 0 then [] else [n % 2 == 1] + BitsOf(n / 2, k - 1)
  }

  function Value(s: seq<bool>): nat {
    if s == [] then 0 else (if s[0] then 1 else 0) + 2 * Value(s[1..])
  }

  lemma {:induction false} ValueBound(s: seq<bool>)
    ensures Value(s) < Pow2(|s|)
  {
    if s != [] { ValueBound(s[1..]); }
  }

  lemma {:induction false} ValueOfBits(n: nat, k: nat)
    requires n < Pow2(k)
    ensures Value(BitsOf(n, k)) == n
    decreases k
  {
    if k > 0 {
      ValueOfBits(n / 2, k - 1);
      assert BitsOf(n, k)[1..] == BitsOf(n / 2, k - 1);
    }
  }

  lemma {:induction false} BitsOfValue(s: seq<bool>)
    ensures BitsOf(Value(s), |s|) == s
  {
    if s != [] {
      BitsOfValue(s[1..]);
      assert s == [s[0]] + s[1..];
    }
  }

  /** A 32-bit register, least significant bit first. */
  type Word = w: seq<bool> | |w| == 32 witness seq(32, i => false)

  function WordOf(n: nat): Word {
    seq(32, i requires 0 <= i => n / Pow2(i) % 2 == 1)
  }

  const POLY: Word := WordOf(0xEDB8_8320)

  function Xor(x: Word, y: Word): Word {
    seq(32, i requires 0 <= i < 32 => x[i] != y[i])
  }

  function And(x: Word, y: Word): Word {
    seq(32, i requires 0 <= i < 32 => x[i] && y[i])
  }

  function Not(x: Word): Word {
    seq(32, i requires 0 <= i < 32 => !x[i])
  }

  /** `x >> 1`. */
  function Half(x: Word): Word {
    x[1..] + [false]
  }

  /** All bits equal to `b`: the two's complement negation of the one-bit number `b`. */
  function Fill(b: bool): Word {
    seq(32, i => b)
  }

  function Bits(b: byte): seq<bool> {
    BitsOf(b as nat, 8)
  }

  function Widen(b: byte): Word {
    Bits(b) + seq(24, i => false)
  }

  /** One shift of the register: divide by the generator when a one falls out. */
  function Shift(x: Word): Word {
    if x[0] then Xor(Half(x), POLY) else Half(x)
  }

  function Shifts(x: Word, n: nat): Word
    decreases n, x
  {
    if n == 0 then x else Shifts(Shift(x), n - 1)
  }

  /** The register after one byte. */
  function Feed(x: Word, b: byte): Word {
    Shifts(Xor(x, Widen(b)), 8)
  }

  function FeedAll(x: Word, bytes: Bytes): Word {
    Fold(Feed, x, bytes)
  }

  function Fold<S, T>(f: (S, T) -> S, s: S, ts: seq<T>): S
    decreases |ts|
  {
    if ts == [] then s else f(Fold(f, s, ts[..|ts| - 1]), ts[|ts| - 1])
  }

  lemma {:induction false} FoldConcat<S, T>(f: (S, T) -> S, s: S, a: seq<T>, b: seq<T>)
    ensures Fold(f, s, a + b) == Fold(f, Fold(f, s, a), b)
    decreases |b|
  {
    if b == [] {
      assert a + b == a;
    } else {
      var n := |b| - 1;
      FoldConcat(f, s, a, b[..n]);
      assert (a + b)[..|a| + n] == a + b[..n];
    }
  }

  lemma {:induction false} FoldFirst<S, T>(f: (S, T) -> S, s: S, ts: seq<T>)
    requires ts != []
    ensures Fold(f, s, ts) == Fold(f, f(s, ts[0]), ts[1..])
  {
    assert ts == [ts[0]] + ts[1..];
    FoldConcat(f, s, [ts[0]], ts[1..]);
    assert Fold(f, s, [ts[0]][..0]) == s;
  }

  function Crc32(bytes: Bytes): Word {
    Not(FeedAll(Fill(true), bytes))
  }

  /** The branch-free form the source runs. */
  method ComputeCrc32(bytes: Bytes) returns (crc: Word)
    ensures crc == Crc32(bytes)
  {
    crc := Fill(true);
    for i := 0 to |bytes|
      invariant crc == FeedAll(Fill(true), bytes[..i])
    {
      assert bytes[..i + 1][..i] == bytes[..i];
      crc := FeedByte(crc, bytes[i]);
    }
    assert bytes[..|bytes|] == bytes;
    crc := Not(crc);
  }

  method FeedByte(register: Word, b: byte) returns (crc: Word)
    ensures crc == Feed(register, b)
  {
    crc := Xor(register, Widen(b));
    for k := 0 to 8
      invariant Feed(register, b) == Shifts(crc, 8 - k)
    {
      var mask := Fill(crc[0]);
      MaskedShift(crc);
      crc := Xor(Half(crc), And(POLY, mask));
    }
  }

  lemma {:induction false} MaskedShift(x: Word)
    ensures Xor(Half(x), And(POLY, Fill(x[0]))) == Shift(x)
  {
    if !x[0] {
      assert Xor(Half(x), And(POLY, Fill(x[0]))) == Half(x);
    } else {
      assert And(POLY, Fill(x[0])) == POLY;
    }
  }

  // -- running the register backwards -------------------------------------------------------

  lemma {:induction false} TopWeight()
    ensures Pow2(31) == 0x8000_0000
  {
    assert Pow2(8) == 256 && Pow2(7) == 128;
    Pow2Add(8, 8);
    Pow2Add(8, 7);
    Pow2Add(16, 15);
  }

  lemma {:induction false} PolyTop()
    ensures POLY[31]
  {
    TopWeight();
    assert POLY[31] == (0xEDB8_8320 / Pow2(31) % 2 == 1);
  }

  /** `x` and `y` agree from bit `n` up. */
  ghost predicate AgreeFrom(x: Word, y: Word, n: nat) {
    forall i :: n <= i < 32 ==> x[i] == y[i]
  }

  /** Below bit 32 - n, `u` and `v` differ exactly where `x` and `y` differ n bits higher. */
  ghost predicate Lifted(x: Word, y: Word, u: Word, v: Word, n: nat) {
    && n <= 32
    && (forall i :: 0 <= i < n ==> x[i] == y[i])
    && (forall i :: n <= i < 32 ==> ((x[i] == y[i]) <==> (u[i - n] == v[i - n])))
  }

  lemma {:induction false} StepBack(x: Word, y: Word)
    requires Shift(x)[31] == Shift(y)[31]
    ensures Lifted(x, y, Shift(x), Shift(y), 1)
  {
    PolyTop();
    assert Shift(x)[31] == x[0] && Shift(y)[31] == y[0];
    forall i | 1 <= i < 32
      ensures (x[i] == y[i]) <==> (Shift(x)[i - 1] == Shift(y)[i - 1])
    {
      assert Half(x)[i - 1] == x[i] && Half(y)[i - 1] == y[i];
    }
  }

  lemma {:induction false} LiftedTwice(x: Word, y: Word, u: Word, v: Word, s: Word, t: Word, n: nat)
    requires n < 32 && Lifted(x, y, u, v, 1) && Lifted(u, v, s, t, n)
    ensures Lifted(x, y, s, t, n + 1)
  {
    assert forall i :: n + 1 <= i < 32 ==> ((x[i] == y[i]) <==> (u[i - 1] == v[i - 1]));
  }

  lemma {:induction false} ShiftsBack(x: Word, y: Word, n: nat)
    requires n <= 32 && AgreeFrom(Shifts(x, n), Shifts(y, n), 32 - n)
    ensures Lifted(x, y, Shifts(x, n), Shifts(y, n), n)
    decreases n
  {
    if n > 0 {
      var u, v := Shift(x), Shift(y);
      ShiftsBack(u, v, n - 1);
      StepBack(x, y);
      LiftedTwice(x, y, u, v, Shifts(x, n), Shifts(y, n), n - 1);
    }
  }

  lemma {:induction false} FeedInjective(x: Word, y: Word, b: byte)
    requires Feed(x, b) == Feed(y, b)
    ensures x == y
  {
    var p, q := Xor(x, Widen(b)), Xor(y, Widen(b));
    ShiftsBack(p, q, 8);
    forall i | 0 <= i < 32 ensures x[i] == y[i] {
      assert p[i] == q[i];
    }
  }

  lemma {:induction false} FeedAllInjective(x: Word, y: Word, bytes: Bytes)
    requires FeedAll(x, bytes) == FeedAll(y, bytes)
    ensures x == y
    decreases |bytes|
  {
    if bytes != [] {
      var n := |bytes| - 1;
      FeedInjective(FeedAll(x, bytes[..n]), FeedAll(y, bytes[..n]), bytes[n]);
      FeedAllInjective(x, y, bytes[..n]);
    }
  }

  lemma {:induction false} FeedAllConcat(x: Word, a: Bytes, b: Bytes)
    ensures FeedAll(x, a + b) == FeedAll(FeedAll(x, a), b)
    decreases |b|
  {
    FoldConcat(Feed, x, a, b);
  }

  lemma {:induction false} FeedFirst(x: Word, bytes: Bytes)
    requires bytes != []
    ensures FeedAll(x, bytes) == FeedAll(Feed(x, bytes[0]), bytes[1..])
  {
    FoldFirst(Feed, x, bytes);
  }

  // -- a window of at most four bytes ------------------------------------------------------

  ghost predicate BitDiffers(a: Bytes, b: Bytes, i: nat)
    requires |a| == |b|
  {
    i < 8 * |a| && Bits(a[i / 8])[i % 8] != Bits(b[i / 8])[i % 8]
  }

  /** Registers that meet again after two windows differed exactly as the windows do. */
  lemma {:induction false} WindowBack(x: Word, y: Word, a: Bytes, b: Bytes)
    requires |a| == |b| <= 4 && FeedAll(x, a) == FeedAll(y, b)
    ensures forall i :: 0 <= i < 32 ==> (x[i] != y[i] <==> BitDiffers(a, b, i))
    decreases |a|
  {
    if a != [] {
      FeedFirst(x, a);
      FeedFirst(y, b);
      WindowBack(Feed(x, a[0]), Feed(y, b[0]), a[1..], b[1..]);
      WindowStep(x, y, a, b);
    }
  }

  lemma {:induction false} WindowStep(x: Word, y: Word, a: Bytes, b: Bytes)
    requires 0 < |a| == |b| <= 4
    requires forall i :: 0 <= i < 32 ==>
      (Feed(x, a[0])[i] != Feed(y, b[0])[i] <==> BitDiffers(a[1..], b[1..], i))
    ensures forall i :: 0 <= i < 32 ==> (x[i] != y[i] <==> BitDiffers(a, b, i))
  {
    assert AgreeFrom(Feed(x, a[0]), Feed(y, b[0]), 24);
    ShiftsBack(Xor(x, Widen(a[0])), Xor(y, Widen(b[0])), 8);
    forall i | 0 <= i < 32 ensures x[i] != y[i] <==> BitDiffers(a, b, i) {
      WindowBit(x, y, a, b, i);
    }
  }

  lemma {:induction false} WindowBit(x: Word, y: Word, a: Bytes, b: Bytes, i: nat)
    requires 0 < |a| == |b| <= 4 && i < 32
    requires var p, q := Xor(x, Widen(a[0])), Xor(y, Widen(b[0]));
      p[i] != q[i] <==> (8 <= i && BitDiffers(a[1..], b[1..], i - 8))
    ensures x[i] != y[i] <==> BitDiffers(a, b, i)
  {
    var p, q := Xor(x, Widen(a[0])), Xor(y, Widen(b[0]));
    if i < 8 {
      assert i / 8 == 0 && i % 8 == i;
      assert Widen(a[0])[i] == Bits(a[0])[i] && Widen(b[0])[i] == Bits(b[0])[i];
    } else {
      assert !Widen(a[0])[i] && !Widen(b[0])[i];
      HigherBit(a, b, i);
    }
  }

  lemma {:induction false} HigherBit(a: Bytes, b: Bytes, i: nat)
    requires 0 < |a| == |b| && 8 <= i
    ensures BitDiffers(a[1..], b[1..], i - 8) <==> BitDiffers(a, b, i)
  {
    assert i / 8 == (i - 8) / 8 + 1 && i % 8 == (i - 8) % 8;
  }

  /** Any change confined to at most four consecutive bytes changes the checksum. */
  lemma {:induction false} BurstChangesCrc(before: Bytes, a: Bytes, b: Bytes, after: Bytes)
    requires |a| == |b| <= 4 && a != b
    ensures Crc32(before + a + after) != Crc32(before + b + after)
  {
    var x := FeedAll(Fill(true), before);
    FeedAllConcat(Fill(true), before, a);
    FeedAllConcat(Fill(true), before, b);
    FeedAllConcat(Fill(true), before + a, after);
    FeedAllConcat(Fill(true), before + b, after);
    var u, v := FeedAll(x, a), FeedAll(x, b);
    if Not(FeedAll(u, after)) == Not(FeedAll(v, after)) {
      NotInjective(FeedAll(u, after), FeedAll(v, after));
      FeedAllInjective(u, v, after);
      WindowBack(x, x, a, b);
      SameBits(a, b);
      assert false;
    }
  }

  lemma {:induction false} SameBits(a: Bytes, b: Bytes)
    requires |a| == |b| <= 4 && forall i :: 0 <= i < 32 ==> !BitDiffers(a, b, i)
    ensures a == b
  {
    forall k | 0 <= k < |a| ensures a[k] == b[k] {
      forall j | 0 <= j < 8 ensures Bits(a[k])[j] == Bits(b[k])[j] {
        assert (8 * k + j) / 8 == k && (8 * k + j) % 8 == j;
        assert !BitDiffers(a, b, 8 * k + j);
      }
      BitsInjective(a[k], b[k]);
    }
  }

  lemma {:induction false} BitsInjective(a: byte, b: byte)
    requires Bits(a) == Bits(b)
    ensures a == b
  {
    assert Pow2(8) == 256;
    ValueOfBits(a as nat, 8);
    ValueOfBits(b as nat, 8);
  }

  lemma {:induction false} NotInjective(x: Word, y: Word)
    requires Not(x) == Not(y)
    ensures x == y
  {
    forall i | 0 <= i < 32 ensures x[i] == y[i] {
      assert Not(x)[i] == Not(y)[i];
    }
  }
}
