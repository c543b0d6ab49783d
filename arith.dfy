/**
 * Facts about products, Euclidean division and row-major (flattened) indices
 * over the naturals. The matmul model indexes flat buffers with expressions
 * such as `batch * m * n + row * n + col`; these lemmas keep the nonlinear
 * reasoning in one place so that the kernel proofs stay linear.
 */
module Arith {

  /** Multiplying by a natural preserves `<=`. */
  lemma MulMono(a: nat, b: nat, d: nat)
    requires a <= b
    ensures a * d <= b * d
  {
    var e := b - a;
    assert b * d == a * d + e * d;
  }

  /** One more row of `d`: `(q + 1) * d == q * d + d`. */
  lemma MulSucc(q: nat, d: nat)
    ensures (q + 1) * d == q * d + d
  {
  }

  /** A row-major index `r * cols + c` of an in-range cell stays below `rows * cols`. */
  lemma FlatBound(r: nat, c: nat, rows: nat, cols: nat)
    requires r < rows && c < cols
    ensures r * cols + c < rows * cols
  {
    MulMono(r + 1, rows, cols);
  }

  /** Row-major indices are unique: `q * d + s` determines `q` and `s` when `s < d`. */
  lemma FlatUnique(q: nat, s: nat, q': nat, s': nat, d: nat)
    requires s < d && s' < d
    requires q * d + s == q' * d + s'
    ensures q == q' && s == s'
  {
    if q < q' {
      MulMono(q + 1, q', d);
      assert false;
    } else if q' < q {
      MulMono(q' + 1, q, d);
      assert false;
    }
  }

  /** Division and remainder recover the two parts of a row-major index. */
  lemma DivModOf(q: nat, s: nat, d: nat)
    requires s < d
    ensures (q * d + s) / d == q && (q * d + s) % d == s
  {
    var x := q * d + s;
    var q', s' := x / d, x % d;
    assert x == q' * d + s';
    FlatUnique(q, s, q', s', d);
  }

  /** A natural below `q * d` has quotient below `q`. */
  lemma DivBelow(x: nat, q: nat, d: nat)
    requires d > 0 && x < q * d
    ensures x / d < q
  {
    var q' := x / d;
    assert x == q' * d + x % d;
    if q' >= q {
      MulMono(q, q', d);
      assert false;
    }
  }

  /** The tile `t` of size `T` is the one holding `r` exactly when `r / T == t`. */
  lemma TileOf(r: nat, t: nat, T: nat)
    requires T > 0
    ensures (t * T <= r < t * T + T) <==> r / T == t
  {
    var q, s := r / T, r % T;
    assert r == q * T + s && 0 <= s < T;
    if t * T <= r < t * T + T {
      FlatUnique(t, r - t * T, q, s, T);
    } else if q == t {
      assert false;
    }
  }

  /**
   * Splitting a position `rel` below `B * (m * n)` into (batch, row, column)
   * of B row-major m-by-n matrices gives in-range parts that recombine to `rel`.
   */
  lemma Unflatten(rel: nat, B: nat, m: nat, n: nat)
    requires rel < B * (m * n)
    ensures m * n > 0 && n > 0
    ensures rel / (m * n) < B && (rel % (m * n)) / n < m
    ensures rel == (rel / (m * n)) * (m * n) + ((rel % (m * n)) / n) * n + (rel % (m * n)) % n
  {
    DivBelow(rel, B, m * n);
    var w := rel % (m * n);
    DivBelow(w, m, n);
    assert rel == (rel / (m * n)) * (m * n) + w;
    assert w == (w / n) * n + w % n;
  }
}
