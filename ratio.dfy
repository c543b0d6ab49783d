/**
 * The two rounding helpers the matmul launch geometry uses. Their definitions
 * are not part of this model; the functions below give them the meaning their
 * names and call sites imply, over naturals with a positive divisor.
 */
module Ratio {
  import opened Arith

  /** `round_ratio_up(x, y)`: the ceiling of `x / y`. */
  function RoundRatioUp(x: nat, y: nat): (r: nat)
    requires y > 0
    ensures x <= r * y < x + y
  {
    var q := (x + y - 1) / y;
    assert x + y - 1 == q * y + (x + y - 1) % y;
    q
  }

  /** `round_up_to_nearest_multiple(x, multiple)`: first multiple of `multiple` at or above `x`. */
  function RoundUpToNearestMultiple(x: nat, multiple: nat): (r: nat)
    requires multiple > 0
    ensures r % multiple == 0
    ensures x <= r < x + multiple
  {
    var q := RoundRatioUp(x, multiple);
    DivModOf(q, 0, multiple);
    q * multiple
  }

  /** The ceiling is the least quotient whose multiple reaches `x`. */
  lemma RoundRatioUpIsLeast(x: nat, y: nat, w: nat)
    requires y > 0 && x <= w * y
    ensures RoundRatioUp(x, y) <= w
  {
    var r := RoundRatioUp(x, y);
    if w < r {
      MulMono(w + 1, r, y);
      assert false;
    }
  }

  /** Rounding up gives the least multiple of `multiple` that is at least `x`. */
  lemma RoundUpIsLeast(x: nat, multiple: nat, w: nat)
    requires multiple > 0 && w % multiple == 0 && x <= w
    ensures RoundUpToNearestMultiple(x, multiple) <= w
  {
    var r := RoundUpToNearestMultiple(x, multiple);
    var q, q' := w / multiple, r / multiple;
    assert w == q * multiple;
    assert r == q' * multiple;
    if q < q' {
      MulMono(q + 1, q', multiple);
      assert false;
    }
  }
}
