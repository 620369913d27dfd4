/**
 * Shared vocabulary of the simulated telemetry: an optional value, and the
 * uniform draws `Math.random()` hands out, taken here as parameters in [0, 1).
 */
module Sim {

  datatype Option<+T> = None | Some(value: T)

  /** A value `Math.random()` can return. */
  predicate IsDraw(r: real) {
    0.0 <= r < 1.0
  }

  /** `lo + r * width`: maps a draw affinely onto the half-open band [lo, lo + width). */
  function Scaled(lo: real, width: real, r: real): (v: real)
    requires IsDraw(r) && 0.0 < width
    ensures lo <= v < lo + width
  {
    assert r * width < 1.0 * width;
    lo + r * width
  }

  /** `Math.floor(r * n)`: a uniform index into a non-empty collection of size `n`. */
  function DrawIndex(r: real, n: nat): (i: nat)
    requires IsDraw(r) && 0 < n
    ensures i < n
  {
    var x := r * n as real;
    assert 0.0 <= x < n as real by { assert r * n as real < 1.0 * n as real; }
    x.Floor
  }
}
