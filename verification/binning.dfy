/**
 * The bin boundaries of the uplift curve: bin b of `size` over n rows is the
 * half-open row range [ceil(n*(b-1)/size), ceil(n*b/size)).
 */
module Binning {

  /**
   * Ceiling of x / s for a positive divisor, in exact integer arithmetic: the
   * number of s-sized steps needed to cover x (CeilDivBounds).
   */
  function CeilDiv(x: nat, s: nat): nat
    requires s > 0
  {
    (x + s - 1) / s
  }

  /** CeilDiv(x, s) is the ceiling of x / s: c * s >= x > (c - 1) * s. */
  lemma CeilDivBounds(x: nat, s: nat)
    requires s > 0
    ensures CeilDiv(x, s) * s >= x
    ensures (CeilDiv(x, s) - 1) * s < x
  {
    var c, r := (x + s - 1) / s, (x + s - 1) % s;
    assert x + s - 1 == c * s + r && 0 <= r < s;
    assert (c - 1) * s == c * s - s;
  }

  /** The least multiple bound: CeilDiv(x, s) is the least c with c * s >= x. */
  lemma CeilDivLeast(x: nat, s: nat, d: int)
    requires s > 0 && d * s >= x
    ensures CeilDiv(x, s) <= d
  {
    var c := CeilDiv(x, s);
    CeilDivBounds(x, s);
    if c > d {
      if x == 0 {
        MulMonotone(d, -1, s);
      } else {
        MulMonotone(d, c - 1, s);
      }
      assert false;
    }
  }

  lemma MulMonotone(a: int, b: int, s: nat)
    requires a <= b
    ensures a * s <= b * s
  {
    var k: nat := b - a;
    assert b * s == a * s + k * s;
  }

  lemma CeilDivMonotone(x: nat, y: nat, s: nat)
    requires s > 0 && x <= y
    ensures CeilDiv(x, s) <= CeilDiv(y, s)
  {
    CeilDivBounds(y, s);
    CeilDivLeast(x, s, CeilDiv(y, s));
  }

  /** Adding at most one divisor's worth raises the ceiling by at most one. */
  lemma CeilDivStep(x: nat, r: nat, s: nat)
    requires s > 0 && r <= s
    ensures CeilDiv(x, s) <= CeilDiv(x + r, s) <= CeilDiv(x, s) + 1
  {
    var c := CeilDiv(x, s);
    CeilDivBounds(x, s);
    CeilDivMonotone(x, x + r, s);
    assert (c + 1) * s == c * s + s;
    CeilDivLeast(x + r, s, c + 1);
  }

  /** Adding q whole divisors raises the ceiling by exactly q. */
  lemma CeilDivShift(x: nat, q: nat, s: nat)
    requires s > 0
    ensures CeilDiv(x + q * s, s) == CeilDiv(x, s) + q
  {
    var y := x + s - 1;
    var c, r := y / s, y % s;
    assert y == c * s + r && 0 <= r < s;
    assert (c + q) * s == c * s + q * s;
    DivUnique(y + q * s, s, c + q, r);
  }

  /** The quotient is the only c leaving a remainder in [0, s). */
  lemma DivUnique(y: int, s: nat, c: int, r: int)
    requires s > 0 && y == c * s + r && 0 <= r < s
    ensures y / s == c
  {
    var c', r' := y / s, y % s;
    assert y == c' * s + r' && 0 <= r' < s;
    if c' < c {
      MulMonotone(c' + 1, c, s);
      assert false;
    } else if c < c' {
      MulMonotone(c + 1, c', s);
      assert false;
    }
  }

  /** Offset of boundary j (0 <= j <= size): ceil(n * j / size), never past row n. */
  function Boundary(n: nat, size: nat, j: nat): (r: nat)
    requires size > 0 && j <= size
    ensures r <= n
  {
    BoundaryAtMostN(n, size, j);
    CeilDiv(n * j, size)
  }

  lemma BoundaryAtMostN(n: nat, size: nat, j: nat)
    requires size > 0 && j <= size
    ensures CeilDiv(n * j, size) <= n
  {
    MulMonotone(j, size, n);
    CeilDivLeast(n * j, size, n);
  }

  /** First row of bin b (1-based), as the source's `start`. */
  function BinStart(n: nat, size: nat, b: nat): nat
    requires size > 0 && 1 <= b <= size
  {
    Boundary(n, size, b - 1)
  }

  /** One past the last row of bin b, as the source's `end`. */
  function BinEnd(n: nat, size: nat, b: nat): nat
    requires size > 0 && 1 <= b <= size
  {
    Boundary(n, size, b)
  }

  lemma BoundaryMonotone(n: nat, size: nat, i: nat, j: nat)
    requires size > 0 && i <= j <= size
    ensures Boundary(n, size, i) <= Boundary(n, size, j)
  {
    assert n * i <= n * j by {
      assert n * j - n * i == n * (j - i);
    }
    CeilDivMonotone(n * i, n * j, size);
  }

  /**
   * The boundaries run from 0 to n without going back: the first bin starts at
   * row 0, the last ends at row n, and every boundary lies in [0, n].
   */
  lemma BoundaryRange(n: nat, size: nat)
    requires size > 0
    ensures Boundary(n, size, 0) == 0
    ensures Boundary(n, size, size) == n
  {
    CeilDivLeast(0, size, 0);
    CeilDivShift(0, n, size);
    assert n * size == 0 + n * size;
  }

  /** Every bin holds floor(n / size) or floor(n / size) + 1 rows. */
  lemma {:induction false} BinSizeNearQuotient(n: nat, size: nat, b: nat)
    requires size > 0 && 1 <= b <= size
    ensures BinStart(n, size, b) <= BinEnd(n, size, b)
    ensures n / size <= BinEnd(n, size, b) - BinStart(n, size, b) <= n / size + 1
  {
    var q, r := n / size, n % size;
    var x := n * (b - 1);
    assert n == q * size + r;
    assert n * b == x + r + q * size by {
      assert n * b == n * (b - 1) + n;
    }
    CeilDivShift(x + r, q, size);
    CeilDivStep(x, r, size);
  }

  /** Bin sizes differ by at most one row. */
  lemma BinSizesBalanced(n: nat, size: nat, b: nat, b': nat)
    requires size > 0 && 1 <= b <= size && 1 <= b' <= size
    ensures -1 <= (BinEnd(n, size, b) - BinStart(n, size, b)) - (BinEnd(n, size, b') - BinStart(n, size, b')) <= 1
  {
    BinSizeNearQuotient(n, size, b);
    BinSizeNearQuotient(n, size, b');
  }

  /** Every row lies in at least one bin. */
  lemma {:induction false} RowCovered(n: nat, size: nat, i: nat, j: nat)
    requires size > 0 && i < n && j < size && Boundary(n, size, j) <= i
    ensures exists b :: 1 <= b <= size && BinStart(n, size, b) <= i < BinEnd(n, size, b)
    decreases size - j
  {
    BoundaryRange(n, size);
    if i < Boundary(n, size, j + 1) {
      assert BinStart(n, size, j + 1) <= i < BinEnd(n, size, j + 1);
    } else {
      RowCovered(n, size, i, j + 1);
    }
  }

  /**
   * The bins partition the rows [0, n): every row index lies in exactly one bin.
   */
  lemma RowInExactlyOneBin(n: nat, size: nat, i: nat)
    requires size > 0 && i < n
    ensures exists b :: 1 <= b <= size && BinStart(n, size, b) <= i < BinEnd(n, size, b)
    ensures forall b, b' ::
      1 <= b <= size && 1 <= b' <= size &&
      BinStart(n, size, b) <= i < BinEnd(n, size, b) &&
      BinStart(n, size, b') <= i < BinEnd(n, size, b')
      ==> b == b'
  {
    BoundaryRange(n, size);
    RowCovered(n, size, i, 0);
    forall b, b' |
      1 <= b <= size && 1 <= b' <= size &&
      BinStart(n, size, b) <= i < BinEnd(n, size, b) &&
      BinStart(n, size, b') <= i < BinEnd(n, size, b')
      ensures b == b'
    {
      if b < b' {
        BoundaryMonotone(n, size, b, b' - 1);
      } else if b' < b {
        BoundaryMonotone(n, size, b', b - 1);
      }
    }
  }
}
