/** Integer geometry of the lattice: the non-negative modulus, row-major
    indexing, the world-wrapping neighbour function and the placement box
    that a grid occupies inside a possibly larger world. */
module Geometry {

  /** AvidaTools' `Mod` for a positive modulus: the remainder in [0, m).
      Dafny's `%` is Euclidean, which is exactly that. */
  function Mod(a: int, m: int): int
    requires m > 0
  {
    a % m
  }

  lemma MulLeft(a: int, b: int, c: int)
    requires a <= b && 0 <= c
    ensures c * a <= c * b
  {
  }

  /** Euclidean division is unique: any quotient/remainder pair with the
      remainder in [0, m) is the one `/` and `%` produce. */
  lemma DivModUnique(x: int, m: int, q: int, r: int)
    requires m > 0 && 0 <= r < m && x == m * q + r
    ensures x / m == q && x % m == r
  {
    var q0, r0 := x / m, x % m;
    assert x == m * q0 + r0;
    if q0 < q {
      MulLeft(q0 + 1, q, m);
      assert false;
    } else if q < q0 {
      MulLeft(q + 1, q0, m);
      assert false;
    }
  }

  lemma ModShift(x: int, m: int, k: int)
    requires m > 0
    ensures (x + m * k) % m == x % m
  {
    DivModUnique(x + m * k, m, x / m + k, x % m);
  }

  /** Adding the remainder of `v - a` back onto `a` lands on `v` modulo m. */
  lemma ModAddBack(a: int, v: int, m: int)
    requires m > 0
    ensures (a + (v - a) % m) % m == v % m
  {
    var q := (v - a) / m;
    assert a + (v - a) % m == v + m * (-q);
    ModShift(v, m, -q);
  }

  /** Subtracting `a` after reducing `a + t` gives the remainder of `t`. */
  lemma ModSubBack(a: int, t: int, m: int)
    requires m > 0
    ensures ((a + t) % m - a) % m == t % m
  {
    var q := (a + t) / m;
    assert (a + t) % m - a == t + m * (-q);
    ModShift(t, m, -q);
  }

  /** Reducing a non-negative number never makes it larger. */
  lemma ModAtMost(a: int, m: int)
    requires m > 0 && 0 <= a
    ensures a % m <= a
  {
    if a < m {
      DivModUnique(a, m, 0, a);
    }
  }

  /** Row-major index of (r, c) in a `w`-wide array. */
  lemma RowMajorBound(r: int, c: int, w: int, h: int)
    requires 0 <= r < h && 0 <= c < w
    ensures 0 <= w * r + c < w * h
  {
    MulLeft(r, h - 1, w);
  }

  /** Row and column are recovered from a row-major index. */
  lemma RowMajorSplit(r: int, c: int, w: int)
    requires w > 0 && 0 <= c < w
    ensures (w * r + c) / w == r && (w * r + c) % w == c
  {
    DivModUnique(w * r + c, w, r, c);
  }

  /** AvidaTools' `GridNeighbor`: the cell (dx, dy) away from `id` in a
      `sizeX` by `sizeY` world, wrapping around the world's edges. */
  function GridNeighbor(id: int, sizeX: int, sizeY: int, dx: int, dy: int): (n: int)
    requires sizeX > 0 && sizeY > 0 && id >= 0
    ensures 0 <= n < sizeX * sizeY
  {
    var nx := Mod(id % sizeX + dx, sizeX);
    var ny := Mod(id / sizeX + dy, sizeY);
    RowMajorBound(ny, nx, sizeX, sizeY);
    sizeX * ny + nx
  }

  /** The placement box (`cWorldCellBox`): origin, extent, and the stride of
      the world whose coordinate space it lives in. */
  datatype CellBox = CellBox(x: int, y: int, width: int, height: int, stride: int)

  /** A box the wiring code can index without leaving a grid of `size`
      cells: non-empty, within one stride-wide row band, last cell in range. */
  predicate BoxFits(b: CellBox, size: int)
  {
    && 0 <= b.x && 0 <= b.y && 1 <= b.width && 1 <= b.height
    && b.x + b.width <= b.stride
    && b.stride * (b.y + b.height - 1) + b.x + b.width <= size
  }

  /** The placement box with no rows and no columns, which a world whose
      box was never set up has: every loop over it is empty. Its stride is
      still the world's width. */
  predicate EmptyBox(b: CellBox)
  {
    b.width == 0 && b.height == 0 && b.stride > 0
  }

  /** A box the wiring and reset loops accept: one that fits, or the empty one. */
  predicate BoxAccepted(b: CellBox, size: int)
  {
    BoxFits(b, size) || EmptyBox(b)
  }

  /** A box laid out in the grid's own world: its stride is the world width
      and it lies inside the `wx` by `wy` world. */
  predicate WorldBox(b: CellBox, wx: int, wy: int)
  {
    && 0 <= b.x && 0 <= b.y && 1 <= b.width && 1 <= b.height
    && b.x + b.width <= wx && b.y + b.height <= wy
    && b.stride == wx
  }

  function FirstRow(b: CellBox): int { b.y }
  function LastRow(b: CellBox): int { b.y + b.height - 1 }
  function FirstCol(b: CellBox): int { b.x }
  function LastCol(b: CellBox): int { b.x + b.width - 1 }

  /** Index of absolute row `r`, column `c` under the box's stride. */
  function At(b: CellBox, r: int, c: int): int
  {
    b.stride * r + c
  }

  function RowOf(b: CellBox, i: int): int
    requires b.stride > 0
  {
    i / b.stride
  }

  function ColOf(b: CellBox, i: int): int
    requires b.stride > 0
  {
    i % b.stride
  }

  predicate InBoxRC(b: CellBox, r: int, c: int)
  {
    b.y <= r < b.y + b.height && b.x <= c < b.x + b.width
  }

  predicate InBox(b: CellBox, i: int)
    requires b.stride > 0
  {
    0 <= i && InBoxRC(b, RowOf(b, i), ColOf(b, i))
  }

  /** Every cell of a fitting box has an in-range index that decodes back
      to its row and column. */
  lemma AtInBox(b: CellBox, size: int, r: int, c: int)
    requires BoxFits(b, size) && InBoxRC(b, r, c)
    ensures 0 <= At(b, r, c) < size
    ensures RowOf(b, At(b, r, c)) == r && ColOf(b, At(b, r, c)) == c
    ensures InBox(b, At(b, r, c))
  {
    RowMajorSplit(r, c, b.stride);
    MulLeft(r, b.y + b.height - 1, b.stride);
    MulLeft(0, r, b.stride);
  }

  /** A box cell is the cell at its own row and column. */
  lemma BoxCellAt(b: CellBox, i: int)
    requires b.stride > 0 && InBox(b, i)
    ensures i == At(b, RowOf(b, i), ColOf(b, i))
  {
  }

  lemma WorldBoxFits(b: CellBox, wx: int, wy: int)
    requires WorldBox(b, wx, wy)
    ensures BoxFits(b, wx * wy)
  {
    MulLeft(b.y + b.height - 1, wy - 1, wx);
  }

  /** Inside the world, GridNeighbor does not wrap: it is plain offset
      arithmetic on the row and column. */
  lemma NeighborNoWrap(b: CellBox, wx: int, wy: int, r: int, c: int, dx: int, dy: int)
    requires WorldBox(b, wx, wy) && InBoxRC(b, r, c)
    requires 0 <= r + dy < wy && 0 <= c + dx < wx
    ensures GridNeighbor(At(b, r, c), wx, wy, dx, dy) == At(b, r + dy, c + dx)
  {
    RowMajorSplit(r, c, wx);
    MulLeft(0, r, wx);
    DivModUnique(c + dx, wx, 0, c + dx);
    DivModUnique(r + dy, wy, 0, r + dy);
  }
}
