/** `Source` and `Sink`: staging over the cells a (normalised) rectangle
    covers, with both coordinates reduced modulo the world. */
module Regions {
  import opened Geometry
  import opened Cells
  import opened Staging
  import opened Ranges

  predicate NonEmpty(r: Rect)
  {
    r.x1 <= r.x2 && r.y1 <= r.y2
  }

  function Width(r: Rect): int { r.x2 - r.x1 + 1 }

  function Height(r: Rect): int { r.y2 - r.y1 + 1 }

  /** The index `elem` a rectangle loop computes at row i, column j. */
  function Elem(wx: int, wy: int, i: int, j: int): (e: int)
    requires wx > 0 && wy > 0
    ensures 0 <= e < wx * wy
  {
    RowMajorBound(Mod(i, wy), Mod(j, wx), wx, wy);
    wx * Mod(i, wy) + Mod(j, wx)
  }

  function Area(r: Rect): int { Width(r) * Height(r) }

  /** The n-th cell the rectangle loops visit: row offset n / Width, column
      offset n % Width. */
  function Visit(r: Rect, wx: int, wy: int, n: int): int
    requires wx > 0 && wy > 0 && Width(r) > 0
  {
    Elem(wx, wy, r.y1 + n / Width(r), r.x1 + n % Width(r))
  }

  /** The indices the rectangle loops visit, in visiting order: rows y1..y2
      outermost, columns x1..x2 inside. */
  function RectCells(r: Rect, wx: int, wy: int): (s: seq<int>)
    requires wx > 0 && wy > 0
  {
    if !NonEmpty(r) then []
    else seq(Area(r), n requires 0 <= n < Area(r) => Visit(r, wx, wy, n))
  }

  /** Cell e lies under the rectangle: its row is swept by y1..y2 and its
      column by x1..x2, both taken modulo the world. */
  predicate Covered(r: Rect, wx: int, wy: int, e: int)
    requires wx > 0 && wy > 0
  {
    Swept(r.y1, r.y2, wy, e / wx) && Swept(r.x1, r.x2, wx, e % wx)
  }

  /** Every visited index is a cell of the world, and each cell is visited
      exactly when the rectangle covers it. */
  lemma RectCellsCover(r: Rect, wx: int, wy: int, e: int)
    requires wx > 0 && wy > 0
    ensures forall n | 0 <= n < |RectCells(r, wx, wy)| :: 0 <= RectCells(r, wx, wy)[n] < wx * wy
    ensures 0 <= e < wx * wy ==> (e in RectCells(r, wx, wy) <==> Covered(r, wx, wy, e))
  {
    var s := RectCells(r, wx, wy);
    if 0 <= e < wx * wy {
      if e in s {
        var n :| 0 <= n < |s| && s[n] == e;
        VisitedIsCovered(r, wx, wy, n);
      }
      if Covered(r, wx, wy, e) {
        var n := CoveredIsVisited(r, wx, wy, e);
        assert s[n] == e;
      }
    }
  }

  /** Position n of a non-empty rectangle splits into a row offset below
      Height and a column offset below Width. */
  lemma Offsets(r: Rect, n: int)
    requires NonEmpty(r) && 0 <= n < Area(r)
    ensures 0 <= n / Width(r) < Height(r) && 0 <= n % Width(r) < Width(r)
    ensures n == Width(r) * (n / Width(r)) + n % Width(r)
  {
    if n / Width(r) >= Height(r) {
      MulLeft(Height(r), n / Width(r), Width(r));
    }
  }

  lemma VisitedIsCovered(r: Rect, wx: int, wy: int, n: int)
    requires wx > 0 && wy > 0 && NonEmpty(r) && 0 <= n < Area(r)
    ensures Covered(r, wx, wy, Visit(r, wx, wy, n))
  {
    var a, b := n / Width(r), n % Width(r);
    Offsets(r, n);
    var row, col := Mod(r.y1 + a, wy), Mod(r.x1 + b, wx);
    var e := Visit(r, wx, wy, n);
    assert e / wx == row && e % wx == col by {
      RowMajorSplit(row, col, wx);
    }
    assert Mod(row - r.y1, wy) <= r.y2 - r.y1 by {
      ModSubBack(r.y1, a, wy);
      ModAtMost(a, wy);
    }
    assert Mod(col - r.x1, wx) <= r.x2 - r.x1 by {
      ModSubBack(r.x1, b, wx);
      ModAtMost(b, wx);
    }
  }

  /** Reducing `base` plus the residue of `v - base` gives back a `v` that
      already lies in [0, w). */
  lemma OffsetBack(base: int, v: int, w: int)
    requires w > 0 && 0 <= v < w
    ensures Mod(base + Mod(v - base, w), w) == v
  {
    ModAddBack(base, v, w);
    DivModUnique(v, w, 0, v);
  }

  /** A swept coordinate is reached from the start of its range after
      Mod(v - lo, w) steps, within the range. */
  lemma SweptOffset(lo: int, hi: int, w: int, v: int)
    requires w > 0 && 0 <= v < w && Swept(lo, hi, w, v)
    ensures 0 <= Mod(v - lo, w) < hi - lo + 1
    ensures Mod(lo + Mod(v - lo, w), w) == v
  {
    OffsetBack(lo, v, w);
  }

  /** A cell index splits into a row below wy and a column below wx. */
  lemma CellRowCol(wx: int, wy: int, e: int)
    requires wx > 0 && wy > 0 && 0 <= e < wx * wy
    ensures 0 <= e / wx < wy && 0 <= e % wx < wx
  {
    if e / wx >= wy {
      MulLeft(wy, e / wx, wx);
    }
  }

  /** A loop position whose reduced row and column are those of cell e
      computes e. */
  lemma ElemOfParts(wx: int, wy: int, i: int, j: int, e: int)
    requires wx > 0 && wy > 0 && Mod(i, wy) == e / wx && Mod(j, wx) == e % wx
    ensures Elem(wx, wy, i, j) == e
  {
  }

  /** Row offset a and column offset b of a w by h rectangle form a
      position inside its area that splits back into a and b. */
  lemma PositionInArea(w: int, h: int, a: int, b: int)
    requires 0 <= a < h && 0 <= b < w
    ensures 0 <= w * a + b < w * h
    ensures (w * a + b) / w == a && (w * a + b) % w == b
  {
    RowMajorBound(a, b, w, h);
    RowMajorSplit(a, b, w);
  }

  /** The loops reach row offset a, column offset b at position
      Width * a + b. */
  lemma VisitOfOffsets(r: Rect, wx: int, wy: int, a: int, b: int)
    requires wx > 0 && wy > 0 && 0 <= a < Height(r) && 0 <= b < Width(r)
    ensures 0 <= Width(r) * a + b < Area(r)
    ensures Visit(r, wx, wy, Width(r) * a + b) == Elem(wx, wy, r.y1 + a, r.x1 + b)
  {
    PositionInArea(Width(r), Height(r), a, b);
  }

  lemma CoveredIsVisited(r: Rect, wx: int, wy: int, e: int) returns (n: int)
    requires wx > 0 && wy > 0 && 0 <= e < wx * wy && Covered(r, wx, wy, e)
    ensures NonEmpty(r) && 0 <= n < Area(r) && Visit(r, wx, wy, n) == e
  {
    var row, col := e / wx, e % wx;
    CellRowCol(wx, wy, e);
    SweptOffset(r.y1, r.y2, wy, row);
    SweptOffset(r.x1, r.x2, wx, col);
    var a, b := Mod(row - r.y1, wy), Mod(col - r.x1, wx);
    VisitOfOffsets(r, wx, wy, a, b);
    ElemOfParts(wx, wy, r.y1 + a, r.x1 + b, e);
    n := Width(r) * a + b;
  }

  /** Two offsets in [0, w) from the same base reduce to the same residue
      only if they are equal. */
  lemma ModInjective(base: int, u: int, v: int, w: int)
    requires w > 0 && 0 <= u < w && 0 <= v < w && Mod(base + u, w) == Mod(base + v, w)
    ensures u == v
  {
    ModSubBack(base, u, w);
    ModSubBack(base, v, w);
    DivModUnique(u, w, 0, u);
    DivModUnique(v, w, 0, v);
  }

  /** Two loop positions that compute the same index agree on row and
      column modulo the world. */
  lemma ElemInjective(wx: int, wy: int, i1: int, j1: int, i2: int, j2: int)
    requires wx > 0 && wy > 0 && Elem(wx, wy, i1, j1) == Elem(wx, wy, i2, j2)
    ensures Mod(i1, wy) == Mod(i2, wy) && Mod(j1, wx) == Mod(j2, wx)
  {
    RowMajorSplit(Mod(i1, wy), Mod(j1, wx), wx);
    RowMajorSplit(Mod(i2, wy), Mod(j2, wx), wx);
  }

  lemma VisitInjective(r: Rect, wx: int, wy: int, m: int, n: int)
    requires wx > 0 && wy > 0 && NonEmpty(r) && Width(r) <= wx && Height(r) <= wy
    requires 0 <= m < Area(r) && 0 <= n < Area(r) && Visit(r, wx, wy, m) == Visit(r, wx, wy, n)
    ensures m == n
  {
    var w := Width(r);
    Offsets(r, m);
    Offsets(r, n);
    var am, bm, an, bn := m / w, m % w, n / w, n % w;
    ElemInjective(wx, wy, r.y1 + am, r.x1 + bm, r.y1 + an, r.x1 + bn);
    ModInjective(r.y1, am, an, wy);
    ModInjective(r.x1, bm, bn, wx);
  }

  /** A rectangle no wider and no taller than the world visits every cell
      at most once. */
  lemma RectCellsDistinct(r: Rect, wx: int, wy: int)
    requires wx > 0 && wy > 0 && Width(r) <= wx && Height(r) <= wy
    ensures forall m, n | 0 <= m < n < |RectCells(r, wx, wy)| :: RectCells(r, wx, wy)[m] != RectCells(r, wx, wy)[n]
  {
    var s := RectCells(r, wx, wy);
    forall m, n | 0 <= m < n < |s|
      ensures s[m] != s[n]
    {
      if s[m] == s[n] {
        VisitInjective(r, wx, wy, m, n);
      }
    }
  }

  /** How many times `e` occurs in `s`. */
  function Count(s: seq<int>, e: int): nat
  {
    if |s| == 0 then 0 else Count(s[..|s| - 1], e) + (if s[|s| - 1] == e then 1 else 0)
  }

  lemma {:induction false} CountPositive(s: seq<int>, e: int)
    ensures Count(s, e) > 0 <==> e in s
  {
    if |s| > 0 {
      var n := |s| - 1;
      CountPositive(s[..n], e);
      assert s == s[..n] + [s[n]];
    }
  }

  /** One `Rate` call per visited cell, staging f(cell). */
  function Spread(cells: seq<int>, f: int -> real): seq<Call>
  {
    seq(|cells|, n requires 0 <= n < |cells| => Call(cells[n], f(cells[n])))
  }

  lemma SpreadPrefix(cells: seq<int>, f: int -> real, n: int)
    requires 0 <= n <= |cells|
    ensures Spread(cells, f)[..n] == Spread(cells[..n], f)
  {
  }

  /** k copies of v added up. */
  function Times(k: nat, v: real): real
  {
    if k == 0 then 0.0 else Times(k - 1, v) + v
  }

  lemma {:induction false} TimesIsProduct(k: nat, v: real)
    ensures Times(k, v) == (k as real) * v
  {
    if k > 0 {
      TimesIsProduct(k - 1, v);
    }
  }

  lemma {:induction false} TimesNegate(k: nat, v: real)
    ensures Times(k, -v) == -Times(k, v)
  {
    if k > 0 {
      TimesNegate(k - 1, v);
    }
  }

  lemma {:induction false} TimesNonNegative(k: nat, v: real)
    requires v >= 0.0
    ensures Times(k, v) >= 0.0
  {
    if k > 0 {
      TimesNonNegative(k - 1, v);
    }
  }

  /** A cell receives f(cell) once for each time it is visited. */
  lemma {:induction false} SpreadValue(cells: seq<int>, f: int -> real, e: int)
    ensures ValueFor(Spread(cells, f), e) == Times(Count(cells, e), f(e))
  {
    if |cells| > 0 {
      var n := |cells| - 1;
      assert ValueFor(Spread(cells, f), e)
          == ValueFor(Spread(cells[..n], f), e) + (if cells[n] == e then f(e) else 0.0) by {
        SpreadPrefix(cells, f, n);
      }
      SpreadValue(cells[..n], f, e);
    }
  }

  lemma {:induction false} SpreadTotal(cells: seq<int>, v: real)
    ensures Total(Spread(cells, Even(v))) == Times(|cells|, v)
  {
    if |cells| > 0 {
      var n := |cells| - 1;
      SpreadPrefix(cells, Even(v), n);
      SpreadTotal(cells[..n], v);
    }
  }

  /** In a sequence without repeats, every element occurs at most once. */
  lemma {:induction false} DistinctOnce(s: seq<int>, e: int)
    requires forall m, n | 0 <= m < n < |s| :: s[m] != s[n]
    ensures Count(s, e) <= 1
  {
    if |s| > 0 {
      var n := |s| - 1;
      DistinctOnce(s[..n], e);
      if s[n] == e {
        CountPositive(s[..n], e);
      }
    }
  }

  /** How often the rectangle loops visit cell e. */
  lemma VisitCount(r: Rect, wx: int, wy: int, e: int)
    requires wx > 0 && wy > 0 && 0 <= e < wx * wy
    ensures !Covered(r, wx, wy, e) ==> Count(RectCells(r, wx, wy), e) == 0
    ensures Width(r) <= wx && Height(r) <= wy ==>
      Count(RectCells(r, wx, wy), e) == if Covered(r, wx, wy, e) then 1 else 0
  {
    RectCellsCover(r, wx, wy, e);
    CountPositive(RectCells(r, wx, wy), e);
    if Width(r) <= wx && Height(r) <= wy {
      RectCellsDistinct(r, wx, wy);
      DistinctOnce(RectCells(r, wx, wy), e);
    }
  }

  /** The same share for every visited cell. */
  function Even(share: real): int -> real
  {
    _ => share
  }

  /** t equal shares of amount / t add back up to amount. */
  lemma ShareBack(t: nat, amount: real)
    requires t >= 1
    ensures Times(t, amount / (t as real)) == amount
  {
    TimesIsProduct(t, amount / (t as real));
  }

  /** `Source(amount)`: spread `amount` evenly over the inflow rectangle.
      Nothing outside the rectangle changes, the increments staged sum to
      exactly `amount`, and when the rectangle fits in the world each
      covered cell receives one equal share. */
  function Source(g: seq<Cell>, wx: int, wy: int, inflow: Rect, amount: real): (g': seq<Cell>)
    requires wx > 0 && wy > 0 && |g| == wx * wy
    ensures OnlyDeltas(g, g')
    ensures !NonEmpty(inflow) ==> g' == g
    ensures NonEmpty(inflow) ==> SumDelta(g') == SumDelta(g) + amount && SumAmount(g') == SumAmount(g)
    ensures forall e | 0 <= e < |g| && !Covered(inflow, wx, wy, e) :: g'[e] == g[e]
    ensures NonEmpty(inflow) && Width(inflow) <= wx && Height(inflow) <= wy ==>
      forall e | 0 <= e < |g| && Covered(inflow, wx, wy, e) ::
        g'[e].delta == g[e].delta + amount / (Area(inflow) as real)
  {
    if !NonEmpty(inflow) then g
    else
      assert Area(inflow) >= 1 by { MulLeft(1, Height(inflow), Width(inflow)); }
      var per := amount / (Area(inflow) as real);
      SourceTotals(g, wx, wy, inflow, amount);
      SourceCells(g, wx, wy, inflow, per);
      Spreading(g, wx, wy, inflow, per)
  }

  /** The `Rate` calls of the rectangle loops, one share per visit. */
  function Spreading(g: seq<Cell>, wx: int, wy: int, r: Rect, per: real): (g': seq<Cell>)
    requires wx > 0 && wy > 0 && |g| == wx * wy
    ensures OnlyDeltas(g, g')
    ensures forall e | 0 <= e < |g| :: g'[e].delta == g[e].delta + ValueFor(Spread(RectCells(r, wx, wy), Even(per)), e)
  {
    RectCellsCover(r, wx, wy, 0);
    RateBatch(g, Spread(RectCells(r, wx, wy), Even(per)))
  }

  lemma SourceTotals(g: seq<Cell>, wx: int, wy: int, r: Rect, amount: real)
    requires wx > 0 && wy > 0 && |g| == wx * wy && NonEmpty(r) && Area(r) >= 1
    ensures var g' := Spreading(g, wx, wy, r, amount / (Area(r) as real));
      SumDelta(g') == SumDelta(g) + amount && SumAmount(g') == SumAmount(g)
  {
    var per := amount / (Area(r) as real);
    var g' := Spreading(g, wx, wy, r, per);
    var staged := Times(Area(r), per);
    assert staged == amount by {
      ShareBack(Area(r), amount);
    }
    assert SumDelta(g') == SumDelta(g) + staged && SumAmount(g') == SumAmount(g) by {
      SpreadingTotals(g, wx, wy, r, per);
    }
  }

  lemma SpreadingTotals(g: seq<Cell>, wx: int, wy: int, r: Rect, per: real)
    requires wx > 0 && wy > 0 && |g| == wx * wy && NonEmpty(r)
    ensures SumDelta(Spreading(g, wx, wy, r, per)) == SumDelta(g) + Times(Area(r), per)
    ensures SumAmount(Spreading(g, wx, wy, r, per)) == SumAmount(g)
  {
    var calls := Spread(RectCells(r, wx, wy), Even(per));
    RectCellsCover(r, wx, wy, 0);
    RateBatchTotals(g, calls);
    SourceTotal(r, wx, wy, per);
  }

  lemma SourceCells(g: seq<Cell>, wx: int, wy: int, r: Rect, per: real)
    requires wx > 0 && wy > 0 && |g| == wx * wy
    ensures var g' := Spreading(g, wx, wy, r, per);
      && (forall e | 0 <= e < |g| && !Covered(r, wx, wy, e) :: g'[e] == g[e])
      && (Width(r) <= wx && Height(r) <= wy ==>
            forall e | 0 <= e < |g| && Covered(r, wx, wy, e) :: g'[e].delta == g[e].delta + per)
  {
    var g' := Spreading(g, wx, wy, r, per);
    forall e | 0 <= e < |g|
      ensures !Covered(r, wx, wy, e) ==> g'[e] == g[e]
      ensures Width(r) <= wx && Height(r) <= wy && Covered(r, wx, wy, e) ==> g'[e].delta == g[e].delta + per
    {
      SourceShare(r, wx, wy, per, e);
    }
  }

  lemma SourceTotal(r: Rect, wx: int, wy: int, per: real)
    requires wx > 0 && wy > 0 && NonEmpty(r)
    ensures Total(Spread(RectCells(r, wx, wy), Even(per))) == Times(Area(r), per)
  {
    SpreadTotal(RectCells(r, wx, wy), per);
  }

  /** What `Source` stages into one cell: nothing off the rectangle, one
      share on it when the rectangle fits in the world. */
  lemma SourceShare(r: Rect, wx: int, wy: int, per: real, e: int)
    requires wx > 0 && wy > 0 && 0 <= e < wx * wy
    ensures !Covered(r, wx, wy, e) ==> ValueFor(Spread(RectCells(r, wx, wy), Even(per)), e) == 0.0
    ensures Width(r) <= wx && Height(r) <= wy && Covered(r, wx, wy, e) ==>
      ValueFor(Spread(RectCells(r, wx, wy), Even(per)), e) == per
  {
    SpreadValue(RectCells(r, wx, wy), Even(per), e);
    VisitCount(r, wx, wy, e);
  }

  /** An outflow rectangle with a corner still at the NONE sentinel. */
  predicate Unset(r: Rect)
  {
    r.x1 == NONE || r.y1 == NONE || r.x2 == NONE || r.y2 == NONE
  }

  /** `CheckRanges` clamps every corner into the world, so a normalised
      outflow rectangle is never unset: the guard in `Sink` only catches a
      rectangle that has not been normalised. */
  lemma CheckedNeverUnset(f: Flows, wx: int, wy: int)
    requires wx >= 0 && wy >= 0
    ensures !Unset(CheckRanges(f, wx, wy).outflow) && !Unset(CheckRanges(f, wx, wy).inflow)
  {
  }

  /** What one `Sink` visit takes from cell e: the non-negative part of its
      amount times (1 - decay). The amount is read from the grid before any
      of the visits, since staging leaves amounts alone. */
  function Removal(g: seq<Cell>, decay: real, e: int): (d: real)
    ensures d >= 0.0
  {
    Max(GetAmount(g, e) * (1.0 - decay), 0.0)
  }

  function Drain(g: seq<Cell>, decay: real): int -> real
  {
    e => -Removal(g, decay, e)
  }

  /** The `Rate` calls of the outflow loops. */
  function Draining(g: seq<Cell>, wx: int, wy: int, r: Rect, decay: real): (g': seq<Cell>)
    requires wx > 0 && wy > 0 && |g| == wx * wy
    ensures OnlyDeltas(g, g')
    ensures forall e | 0 <= e < |g| :: g'[e].delta == g[e].delta + ValueFor(Spread(RectCells(r, wx, wy), Drain(g, decay)), e)
  {
    RectCellsCover(r, wx, wy, 0);
    RateBatch(g, Spread(RectCells(r, wx, wy), Drain(g, decay)))
  }

  /** A sink takes each cell's removal once per visit of the outflow loops. */
  lemma DrainingCells(g: seq<Cell>, wx: int, wy: int, r: Rect, decay: real)
    requires wx > 0 && wy > 0 && |g| == wx * wy
    ensures forall e | 0 <= e < |g| ::
      Draining(g, wx, wy, r, decay)[e].delta == g[e].delta - Times(Count(RectCells(r, wx, wy), e), Removal(g, decay, e))
  {
    var g' := Draining(g, wx, wy, r, decay);
    forall e | 0 <= e < |g|
      ensures g'[e].delta == g[e].delta - Times(Count(RectCells(r, wx, wy), e), Removal(g, decay, e))
    {
      DrainValue(g, RectCells(r, wx, wy), decay, e);
    }
  }

  lemma DrainValue(g: seq<Cell>, cells: seq<int>, decay: real, e: int)
    ensures ValueFor(Spread(cells, Drain(g, decay)), e) == -Times(Count(cells, e), Removal(g, decay, e))
  {
    SpreadValue(cells, Drain(g, decay), e);
    assert Drain(g, decay)(e) == -Removal(g, decay, e);
    TimesNegate(Count(cells, e), Removal(g, decay, e));
  }

  lemma RealMulNonNegative(x: real, y: real)
    requires 0.0 <= x && 0.0 <= y
    ensures 0.0 <= x * y
  {
  }

  /** `Sink(decay)`: unless a corner of the outflow rectangle is unset, stage
      into every visited cell the negated removal. No delta ever grows,
      nothing off the rectangle changes, and when the rectangle fits in the
      world each covered cell loses exactly one removal. */
  function Sink(g: seq<Cell>, wx: int, wy: int, outflow: Rect, decay: real): (g': seq<Cell>)
    requires wx > 0 && wy > 0 && |g| == wx * wy
    ensures OnlyDeltas(g, g')
    ensures Unset(outflow) ==> g' == g
    ensures forall e | 0 <= e < |g| :: g'[e].delta <= g[e].delta
    ensures forall e | 0 <= e < |g| && !Covered(outflow, wx, wy, e) :: g'[e] == g[e]
    ensures !Unset(outflow) && Width(outflow) <= wx && Height(outflow) <= wy ==>
      forall e | 0 <= e < |g| && Covered(outflow, wx, wy, e) :: g'[e].delta == g[e].delta - Removal(g, decay, e)
  {
    if Unset(outflow) then g
    else
      SinkCells(g, wx, wy, outflow, decay);
      Draining(g, wx, wy, outflow, decay)
  }

  lemma SinkCells(g: seq<Cell>, wx: int, wy: int, r: Rect, decay: real)
    requires wx > 0 && wy > 0 && |g| == wx * wy
    ensures var g' := Draining(g, wx, wy, r, decay);
      && (forall e | 0 <= e < |g| :: g'[e].delta <= g[e].delta)
      && (forall e | 0 <= e < |g| && !Covered(r, wx, wy, e) :: g'[e] == g[e])
      && (Width(r) <= wx && Height(r) <= wy ==>
            forall e | 0 <= e < |g| && Covered(r, wx, wy, e) :: g'[e].delta == g[e].delta - Removal(g, decay, e))
  {
    var g' := Draining(g, wx, wy, r, decay);
    DrainingCells(g, wx, wy, r, decay);
    forall e | 0 <= e < |g|
      ensures g'[e].delta <= g[e].delta
      ensures !Covered(r, wx, wy, e) ==> g'[e] == g[e]
      ensures Width(r) <= wx && Height(r) <= wy && Covered(r, wx, wy, e) ==> g'[e].delta == g[e].delta - Removal(g, decay, e)
    {
      var k := Count(RectCells(r, wx, wy), e);
      TimesNonNegative(k, Removal(g, decay, e));
      VisitCount(r, wx, wy, e);
    }
  }

  /** The arithmetic of one removal from a non-negative amount: never more
      than the amount, and with decay at most 1 exactly amount * (1 - decay),
      leaving amount * decay behind. */
  lemma RemovalArithmetic(a: real, decay: real)
    requires a >= 0.0 && decay >= 0.0
    ensures Max(a * (1.0 - decay), 0.0) <= a
    ensures decay <= 1.0 ==> Max(a * (1.0 - decay), 0.0) == a * (1.0 - decay)
    ensures a - a * (1.0 - decay) == a * decay
  {
    RealMulNonNegative(a, decay);
    if decay <= 1.0 {
      RealMulNonNegative(a, 1.0 - decay);
    }
  }

  /** One removal from a stored non-negative amount. */
  lemma RemovalOfStored(g: seq<Cell>, decay: real, e: int)
    requires 0 <= e < |g| && g[e].amount >= 0.0 && decay >= 0.0
    ensures Removal(g, decay, e) <= g[e].amount
    ensures decay <= 1.0 ==> Removal(g, decay, e) == g[e].amount * (1.0 - decay)
  {
    assert GetAmount(g, e) == g[e].amount;
    RemovalArithmetic(g[e].amount, decay);
  }

  /** With a retention factor in [0, 1], a sink over a rectangle that fits
      in the world leaves each covered cell, once folded, with `decay` times
      its amount plus whatever else was pending. */
  lemma SinkRetainsDecayFraction(g: seq<Cell>, wx: int, wy: int, outflow: Rect, decay: real, e: int)
    requires wx > 0 && wy > 0 && |g| == wx * wy && !Unset(outflow)
    requires Width(outflow) <= wx && Height(outflow) <= wy
    requires 0.0 <= decay <= 1.0 && 0 <= e < |g| && g[e].amount >= 0.0 && Covered(outflow, wx, wy, e)
    ensures StateAll(Sink(g, wx, wy, outflow, decay))[e].amount == g[e].amount * decay + g[e].delta
  {
    SinkCovered(g, wx, wy, outflow, decay, e);
    FoldedRemoval(g, Sink(g, wx, wy, outflow, decay), decay, e);
  }

  /** A cell that lost amount * (1 - decay) keeps amount * decay once folded. */
  lemma FoldedRemoval(g: seq<Cell>, h: seq<Cell>, decay: real, e: int)
    requires 0 <= e < |g| == |h| && h[e].amount == g[e].amount
    requires h[e].delta == g[e].delta - g[e].amount * (1.0 - decay)
    ensures StateAll(h)[e].amount == g[e].amount * decay + g[e].delta
  {
    FoldAfterRemoval(g[e].amount, g[e].delta, decay, h[e].amount, h[e].delta);
  }

  lemma FoldAfterRemoval(a: real, d: real, decay: real, amount': real, delta': real)
    requires amount' == a && delta' == d - a * (1.0 - decay)
    ensures amount' + delta' == a * decay + d
  {
  }

  lemma SinkCovered(g: seq<Cell>, wx: int, wy: int, outflow: Rect, decay: real, e: int)
    requires wx > 0 && wy > 0 && |g| == wx * wy && !Unset(outflow)
    requires Width(outflow) <= wx && Height(outflow) <= wy
    requires 0.0 <= decay <= 1.0 && 0 <= e < |g| && g[e].amount >= 0.0 && Covered(outflow, wx, wy, e)
    ensures Sink(g, wx, wy, outflow, decay)[e].amount == g[e].amount
    ensures Sink(g, wx, wy, outflow, decay)[e].delta == g[e].delta - g[e].amount * (1.0 - decay)
  {
    RemovalOfStored(g, decay, e);
  }

  /** One cell under a sink: what stays is not negative, provided the cell
      is visited at most once, decay is not negative and nothing negative
      is stored or pending. */
  lemma SinkCellNonNegative(g: seq<Cell>, wx: int, wy: int, outflow: Rect, decay: real, e: int)
    requires wx > 0 && wy > 0 && |g| == wx * wy
    requires Width(outflow) <= wx && Height(outflow) <= wy && 0.0 <= decay
    requires 0 <= e < |g| && g[e].amount >= 0.0 && g[e].delta >= 0.0
    ensures Sink(g, wx, wy, outflow, decay)[e].amount + Sink(g, wx, wy, outflow, decay)[e].delta >= 0.0
  {
    var g' := Sink(g, wx, wy, outflow, decay);
    if !Unset(outflow) && Covered(outflow, wx, wy, e) {
      RemovalOfStored(g, decay, e);
    }
  }

  /** The resource never goes negative under a sink followed by a fold,
      provided no cell is visited twice, the decay factor is not negative
      and nothing negative is stored or pending. */
  lemma SinkKeepsNonNegative(g: seq<Cell>, wx: int, wy: int, outflow: Rect, decay: real)
    requires wx > 0 && wy > 0 && |g| == wx * wy
    requires Width(outflow) <= wx && Height(outflow) <= wy && 0.0 <= decay
    requires forall e | 0 <= e < |g| :: g[e].amount >= 0.0 && g[e].delta >= 0.0
    ensures forall e | 0 <= e < |g| :: StateAll(Sink(g, wx, wy, outflow, decay))[e].amount >= 0.0
  {
    var g' := Sink(g, wx, wy, outflow, decay);
    forall e | 0 <= e < |g|
      ensures StateAll(g')[e].amount >= 0.0
    {
      SinkCellNonNegative(g, wx, wy, outflow, decay, e);
    }
  }
}
