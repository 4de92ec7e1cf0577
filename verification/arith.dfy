/** Facts about mixed-radix numbers `a + n * b`, the shape of every flat index in the model. */
module Arith {

  lemma {:induction false} MulMonotone(n: int, a: int, b: int)
    requires 0 <= n && a <= b
    ensures n * a <= n * b
  {
    assert n * b - n * a == n * (b - a);
  }

  /** A digit `a < n` plus `n` times a digit `b < m` stays below `n * m`. */
  lemma {:induction false} MixedRadixBound(a: int, n: int, b: int, m: int)
    requires 0 <= a < n && 0 <= b < m
    ensures 0 <= a + n * b < n * m
  {
    MulMonotone(n, 0, b);
    MulMonotone(n, b, m - 1);
  }

  /** Numbers with a higher top digit are larger, whatever the lower digit. */
  lemma {:induction false} DigitOrder(n: int, k: int, a: int, k2: int, b: int)
    requires 0 <= a < n && 0 <= b && k < k2
    ensures k * n + a < k2 * n + b
  {
    MulMonotone(n, k + 1, k2);
    assert n * (k + 1) == n * k + n;
    assert n * k == k * n && n * k2 == k2 * n;
  }

  /** Euclidean division by `n` splits `a + n * b` back into its two digits. */
  lemma {:induction false} MixedRadixSplit(a: int, n: int, b: int)
    requires 0 <= a < n && 0 <= b
    ensures (a + n * b) / n == b
    ensures (a + n * b) % n == a
  {
    var k := a + n * b;
    var q, r := k / n, k % n;
    assert k == n * q + r && 0 <= r < n;
    if q > b {
      MulMonotone(n, b + 1, q);
      assert false;
    } else if q < b {
      MulMonotone(n, q, b - 1);
      assert false;
    }
  }

  /** The quotient of a number below `n * m` by `n` is below `m`. */
  lemma {:induction false} QuotientBound(k: int, n: int, m: int)
    requires 0 <= k < n * m && 0 < n
    ensures 0 <= k / n < m
  {
    var q := k / n;
    assert k == n * q + k % n;
    if q >= m {
      MulMonotone(n, m, q);
      assert false;
    } else if q < 0 {
      MulMonotone(n, q, -1);
      assert false;
    }
  }

  /** Four digits, `x` least significant, read back from the number they make. */
  lemma {:induction false} DigitsOfNumber(x: int, nx: int, y: int, ny: int, z: int, nz: int, c: int)
    requires 0 <= x < nx && 0 <= y < ny && 0 <= z < nz && 0 <= c
    ensures var k := x + nx * (y + ny * (z + nz * c));
            k % nx == x && (k / nx) % ny == y && (k / nx / ny) % nz == z && k / nx / ny / nz == c
  {
    var k2 := z + nz * c;
    var k1 := y + ny * k2;
    MulMonotone(nz, 0, c);
    MulMonotone(ny, 0, k2);
    MixedRadixSplit(x, nx, k1);
    MixedRadixSplit(y, ny, k2);
    MixedRadixSplit(z, nz, c);
  }

  /** A number below `nx * (ny * (nz * nc))` is its four digits put back together. */
  lemma {:induction false} NumberOfDigits(k: int, nx: int, ny: int, nz: int, nc: int)
    requires 0 <= k < nx * (ny * (nz * nc)) && 0 < nx && 0 < ny && 0 < nz
    ensures 0 <= k % nx < nx && 0 <= (k / nx) % ny < ny && 0 <= (k / nx / ny) % nz < nz
    ensures 0 <= k / nx / ny / nz < nc
    ensures k == k % nx + nx * ((k / nx) % ny + ny * ((k / nx / ny) % nz + nz * (k / nx / ny / nz)))
  {
    var k1 := k / nx;
    var k2 := k1 / ny;
    QuotientBound(k, nx, ny * (nz * nc));
    QuotientBound(k1, ny, nz * nc);
    QuotientBound(k2, nz, nc);
    assert k == k % nx + nx * k1;
    assert k1 == k1 % ny + ny * k2;
    assert k2 == k2 % nz + nz * (k2 / nz);
  }

  /** The loop nest `z { y { x { c } } }` visits `valuedim * xnodes * ynodes * znodes` cells. */
  lemma {:induction false} NestedProduct(a: int, b: int, c: int, d: int)
    ensures d * (c * (b * a)) == a * b * c * d
  {
    assert b * a == a * b;
    assert c * (a * b) == a * b * c;
    assert d * (a * b * c) == a * b * c * d;
  }
}
