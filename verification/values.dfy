/** Option and Result, the failure-carrying wrappers used across the model. */
module Wrappers {
  datatype Option<+T> = None | Some(value: T)

  datatype Result<+R, +E> = Success(value: R) | Failure(error: E)
}

/** Bound parameter values and the Java `int` arithmetic on parameter positions. */
module Values {

  /** A Java `int`. */
  newtype int32 = x: int | -0x8000_0000 <= x < 0x8000_0000

  /**
   * A bound parameter. `Bound(raw)` is `new Value(raw)`; `Unset` is the
   * empty `new Value()` that stands in for a position nobody bound. How a
   * value prints is not part of this model: every operation that needs the
   * text takes the rendering as a parameter.
   */
  datatype Value<T> = Unset | Bound(raw: T)

  /**
   * The zero-based map key `position - 1` of a one-based position, computed
   * in 32-bit two's complement: `Integer.MIN_VALUE - 1` wraps to
   * `Integer.MAX_VALUE`.
   */
  function KeyOf(position: int32): (k: int)
    ensures -0x8000_0000 <= k < 0x8000_0000
    ensures (k - (position as int - 1)) % 0x1_0000_0000 == 0
    ensures position as int >= 1 ==> 0 <= k
  {
    if position == -0x8000_0000 then 0x7fff_ffff else position as int - 1
  }

  /** What `parameterValues.get(k)` yields, with Java's `null` read as `Unset`. */
  function Lookup<T>(values: map<int, Value<T>>, k: int): Value<T> {
    if k in values then values[k] else Unset
  }
}
