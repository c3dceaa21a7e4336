/** Types shared by every module of the model. */
module Basics {

  datatype Option<+T> = None | Some(value: T)

  datatype Result<+T, +E> = Ok(value: T) | Err(error: E)

  newtype byte = b: int | 0 <= b < 256

  type Bytes = seq<byte>

  type U16 = n: nat | n < 0x1_0000

  type U32 = n: nat | n < 0x1_0000_0000

  /** Quality of service levels (crates/GatoMQTT/src/qos.rs). */
  datatype QoS = AtMostOnce | AtLeastOnce | ExactlyOnce

  function Rank(q: QoS): nat {
    match q
    case AtMostOnce => 0
    case AtLeastOnce => 1
    case ExactlyOnce => 2
  }

  function MaxQos(a: QoS, b: QoS): QoS {
    if Rank(a) >= Rank(b) then a else b
  }

  function MinQos(a: QoS, b: QoS): QoS {
    if Rank(a) <= Rank(b) then a else b
  }

  function Min(a: int, b: int): int {
    if a <= b then a else b
  }

  function Max(a: int, b: int): int {
    if a >= b then a else b
  }

  /** Position of the first element with property `p`, or |xs|. */
  function FirstWhere<T>(xs: seq<T>, p: T -> bool): (i: nat)
    ensures i <= |xs|
    ensures i < |xs| ==> p(xs[i])
    ensures forall k :: 0 <= k < i ==> !p(xs[k])
  {
    if xs == [] || p(xs[0]) then 0 else 1 + FirstWhere(xs[1..], p)
  }
}
