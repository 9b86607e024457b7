/** Bytes, optional values, and the few operations on byte sequences that every module uses. */
module Bytes {

  newtype byte = x: int | 0 <= x < 256

  type Bytes = seq<byte>

  datatype Option<+T> = None | Some(value: T)

  datatype Result<+T, +E> = Success(value: T) | Failure(error: E)

  /** What Go's make([]byte, n) holds. */
  function Zeros(n: nat): (z: Bytes)
    ensures |z| == n && forall k :: 0 <= k < n ==> z[k] == 0
  {
    seq(n, _ => 0)
  }

  /** `base` with `piece` copied over it from index `at` on. */
  function Splice(base: Bytes, at: nat, piece: Bytes): (r: Bytes)
    requires at + |piece| <= |base|
    ensures |r| == |base|
    ensures forall k :: 0 <= k < |r| ==> r[k] == if at <= k < at + |piece| then piece[k - at] else base[k]
  {
    base[..at] + piece + base[at + |piece|..]
  }

  /** `x` cut or zero-filled to `n` bytes: how a block of n bytes reads when the server holds `x` for it. */
  function Pad(x: Bytes, n: nat): (r: Bytes)
    ensures |r| == n
    ensures forall k :: 0 <= k < n ==> r[k] == if k < |x| then x[k] else 0
  {
    if |x| <= n then x + Zeros(n - |x|) else x[..n]
  }

  const TWO_TO_THE_31: int := 0x8000_0000

  /** Go's int32(x). */
  function Int32(x: int): (y: int)
    ensures -TWO_TO_THE_31 <= y < TWO_TO_THE_31
    ensures -TWO_TO_THE_31 <= x < TWO_TO_THE_31 ==> y == x
    ensures TWO_TO_THE_31 <= x < 2 * TWO_TO_THE_31 ==> y == x - 2 * TWO_TO_THE_31
  {
    (x + TWO_TO_THE_31) % (2 * TWO_TO_THE_31) - TWO_TO_THE_31
  }
}
