/**
 * Small shared vocabulary: bytes as the SDKs see them, and the Option and
 * Result wrappers used to model Python's None and raised errors and C++'s
 * null handles and early returns.
 */
module Common {
  /** An unsigned 8-bit value (Python `int` taken from a report, C++ `uint8_t`). */
  type Byte = x: int | 0 <= x < 256

  datatype Option<T> = None | Some(value: T)

  /** A value, or the error a Python call would raise. */
  datatype Result<T> = Ok(value: T) | Err(error: string)

  /** True when the byte range `lo..hi` (inclusive) holds `x`. */
  predicate InRange(x: int, lo: int, hi: int)
  {
    lo <= x <= hi
  }

  /** Splitting a linear index q*n+r with r < n gives back q and r. */
  lemma DivModOfLinear(q: nat, r: nat, n: nat)
    requires r < n
    ensures q * n + r < (q + 1) * n
    ensures (q * n + r) / n == q && (q * n + r) % n == r
  {
    var i := q * n + r;
    var d := i / n - q;
    assert d * n == r - i % n by {
      assert i == (i / n) * n + i % n;
      assert (i / n) * n == d * n + q * n;
    }
  }
}
