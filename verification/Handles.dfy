/** Sensor handles are 32-bit words. The proxy keeps the index of the sub-HAL that owns a sensor in the most
    significant byte, which `kSensorHandleSubHalIndexMask` selects, and the sub-HAL's own handle in the other three. */
module Handles {

  type Byte = x: nat | x < 256
  type LowBits = x: nat | x < 0x100_0000

  /** An `int32_t`, as its most significant byte and the 24 bits below it. */
  datatype Handle = Handle(top: Byte, low: LowBits)

  function Pow2(n: nat): nat {
    if n == 0 then 1 else 2 * Pow2(n - 1)
  }

  /** Bitwise "or" of the `n` lowest bits. */
  function Or(a: nat, b: nat, n: nat): (r: nat)
    ensures r < Pow2(n)
  {
    if n == 0 then 0
    else 2 * Or(a / 2, b / 2, n - 1) + (if a % 2 == 1 || b % 2 == 1 then 1 else 0)
  }

  /** `handle | (static_cast<int32_t>(index) << 24)`: only the low byte of the index survives the shift. */
  function SetSubHalIndex(handle: Handle, subHalIndex: nat): Handle {
    assert Pow2(8) == 256;
    Handle(Or(handle.top, subHalIndex % 256, 8), handle.low)
  }

  /** `>>` on a negative `int32_t` shifts sign bits in, and the cast to a 64-bit `size_t` then gives a number just
      below 2^64. */
  function ExtractSubHalIndex(handle: Handle): nat {
    if handle.top < 128 then handle.top else 0x1_0000_0000_0000_0000 - 256 + handle.top
  }

  function ClearSubHalIndex(handle: Handle): Handle {
    handle.(top := 0)
  }

  predicate SubHalIndexIsClear(handle: Handle) {
    handle.top == 0
  }

  lemma {:induction false} OrWithZero(b: nat, n: nat)
    requires b < Pow2(n)
    ensures Or(0, b, n) == b
  {
    if n == 0 {
    } else {
      OrWithZero(b / 2, n - 1);
    }
  }

  lemma TaggedHandle(handle: Handle, subHalIndex: nat)
    requires SubHalIndexIsClear(handle)
    ensures SetSubHalIndex(handle, subHalIndex) == Handle(subHalIndex % 256, handle.low)
  {
    assert Pow2(8) == 256;
    OrWithZero(subHalIndex % 256, 8);
  }

  /** Routing round trip: a tagged handle gives back the sub-HAL's own handle, and gives back the index exactly when
      the index fits in seven bits. */
  lemma RoutingRoundTrip(handle: Handle, subHalIndex: nat)
    requires SubHalIndexIsClear(handle) && subHalIndex < 0x8000_0000
    ensures ClearSubHalIndex(SetSubHalIndex(handle, subHalIndex)) == handle
    ensures ExtractSubHalIndex(SetSubHalIndex(handle, subHalIndex)) == subHalIndex <==> subHalIndex < 128
  {
    TaggedHandle(handle, subHalIndex);
    assert subHalIndex < 128 ==> subHalIndex % 256 == subHalIndex;
  }

  /** Two tagged handles are the same exactly when the sub-HALs' handles are and the indices agree modulo 256. */
  lemma TaggedHandlesCollide(h: Handle, i: nat, k: Handle, j: nat)
    requires SubHalIndexIsClear(h) && SubHalIndexIsClear(k)
    ensures SetSubHalIndex(h, i) == SetSubHalIndex(k, j) <==> h == k && i % 256 == j % 256
  {
    TaggedHandle(h, i);
    TaggedHandle(k, j);
  }
}
