/** Comparing credentials without an early exit (crates/GatoMQTT/src/handler/connect.rs, `ct_eq`). */
module Credentials {
  import opened Basics
  import opened Crc

  function Zeros(width: nat): seq<bool> {
    seq(width, i => false)
  }

  function OrBits(x: seq<bool>, y: seq<bool>): (r: seq<bool>)
    requires |x| == |y|
    ensures |r| == |x|
  {
    seq(|x|, i requires 0 <= i < |x| => x[i] || y[i])
  }

  function XorBits(x: seq<bool>, y: seq<bool>): (r: seq<bool>)
    requires |x| == |y|
    ensures |r| == |x|
  {
    seq(|x|, i requires 0 <= i < |x| => x[i] != y[i])
  }

  lemma {:induction false} XorZero(x: seq<bool>, y: seq<bool>)
    requires |x| == |y|
    ensures XorBits(x, y) == Zeros(|x|) <==> x == y
  {
    if XorBits(x, y) == Zeros(|x|) {
      forall i | 0 <= i < |x| ensures x[i] == y[i] { assert XorBits(x, y)[i] == Zeros(|x|)[i]; }
    }
    if x == y { assert XorBits(x, y) == Zeros(|x|); }
  }

  lemma {:induction false} OrZero(x: seq<bool>, y: seq<bool>)
    requires |x| == |y|
    ensures OrBits(x, y) == Zeros(|x|) <==> x == Zeros(|x|) && y == Zeros(|x|)
  {
    if OrBits(x, y) == Zeros(|x|) {
      forall i | 0 <= i < |x| ensures x[i] == Zeros(|x|)[i] && y[i] == Zeros(|x|)[i] {
        assert OrBits(x, y)[i] == Zeros(|x|)[i];
      }
    }
  }

  lemma {:induction false} SameBits(m: nat, n: nat, width: nat)
    requires m < Pow2(width) && n < Pow2(width)
    ensures XorBits(BitsOf(m, width), BitsOf(n, width)) == Zeros(width) <==> m == n
  {
    ValueOfBits(m, width);
    ValueOfBits(n, width);
    XorZero(BitsOf(m, width), BitsOf(n, width));
  }

  lemma {:induction false} ByteFits(b: byte, width: nat)
    requires width >= 8
    ensures b as nat < Pow2(width)
  {
    Pow2Add(8, width - 8);
    assert Pow2(8) == 256;
    assert 256 * Pow2(width - 8) >= 256;
  }

  /** A missing byte reads as zero. */
  function ByteAt(s: Bytes, i: nat): byte {
    if i < |s| then s[i] else 0
  }

  /** `width` is the number of bits of a length. Every byte is looked at, and only equal strings pass. */
  method CtEq(lhs: Bytes, rhs: Bytes, width: nat) returns (equal: bool)
    requires width >= 8 && |lhs| < Pow2(width) && |rhs| < Pow2(width)
    ensures equal <==> lhs == rhs
  {
    var most := if |lhs| >= |rhs| then |lhs| else |rhs|;
    SameBits(|lhs|, |rhs|, width);
    var diff := XorBits(BitsOf(|lhs|, width), BitsOf(|rhs|, width));
    for i := 0 to most
      invariant |diff| == width
      invariant diff == Zeros(width) <==> |lhs| == |rhs| && forall k :: 0 <= k < i ==> ByteAt(lhs, k) == ByteAt(rhs, k)
    {
      var left, right := ByteAt(lhs, i), ByteAt(rhs, i);
      ByteFits(left, width);
      ByteFits(right, width);
      SameBits(left as nat, right as nat, width);
      var bits := XorBits(BitsOf(left as nat, width), BitsOf(right as nat, width));
      OrZero(diff, bits);
      diff := OrBits(diff, bits);
    }
    equal := diff == Zeros(width);
    assert equal ==> forall k :: 0 <= k < |lhs| ==> lhs[k] == ByteAt(lhs, k) == ByteAt(rhs, k) == rhs[k];
  }
}
