/** Worked cases: small worlds run through the operations, and the input
    that lets `Sink` overdraw a cell. */
module Scenarios {
  import opened Geometry
  import opened Cells
  import opened Staging
  import opened Ranges
  import opened Regions

  /** Nothing stored and nothing staged anywhere. */
  predicate Empty(g: seq<Cell>)
  {
    forall i | 0 <= i < |g| :: g[i].amount == 0.0 && g[i].delta == 0.0
  }

  /** A grid whose only non-zero amount is at cell i holds exactly that
      much in total. */
  lemma {:induction false} SumAmountSingle(g: seq<Cell>, i: int)
    requires 0 <= i < |g| && forall j | 0 <= j < |g| && j != i :: g[j].amount == 0.0
    ensures SumAmount(g) == g[i].amount
  {
    var n := |g| - 1;
    if i < n {
      SumAmountSingle(g[..n], i);
    } else {
      SumAmountZero(g[..n]);
    }
  }

  lemma {:induction false} SumAmountZero(g: seq<Cell>)
    requires forall j | 0 <= j < |g| :: g[j].amount == 0.0
    ensures SumAmount(g) == 0.0
  {
    if |g| > 0 {
      SumAmountZero(g[..|g| - 1]);
    }
  }

  /** A 3 by 3 grid starting empty: `Rate(4, 10)`, `State(4)`, then
      `SumAll()` is 10, cell 4 reads 10 and every other cell reads 0. */
  method RateStateSum(g: seq<Cell>) returns (sum: real, probes: seq<real>)
    requires |g| == 9 && Empty(g)
    ensures sum == 10.0
    ensures |probes| == 9
    ensures forall i | 0 <= i < 9 :: probes[i] == if i == 4 then 10.0 else 0.0
  {
    var h := State(Rate(g, 4, 10.0), 4);
    SumAmountSingle(h, 4);
    sum := SumAll(h);
    probes := seq(9, i requires 0 <= i < 9 => GetAmount(h, i));
  }

  /** A 2 by 2 world starting empty, the inflow rectangle covering all of
      it: `Source(8)` then `StateAll()` leaves 2 in each of the 4 cells. */
  lemma SourceSpreadsEvenly(g: seq<Cell>)
    requires |g| == 4 && Empty(g)
    ensures CheckRanges(Flows(Rect(0, 0, 1, 1), Rect(0, 0, 1, 1)), 2, 2).inflow == Rect(0, 0, 1, 1)
    ensures forall e | 0 <= e < 4 :: StateAll(Source(g, 2, 2, Rect(0, 0, 1, 1), 8.0))[e].amount == 2.0
  {
    var r := Rect(0, 0, 1, 1);
    NormaliseKeepsOrdered(r, 2, 2);
    assert Area(r) == 4;
    forall e | 0 <= e < 4
      ensures Covered(r, 2, 2, e)
    {
      assert 0 <= e / 2 < 2 && 0 <= e % 2 < 2;
      assert Mod(e / 2, 2) == e / 2 && Mod(e % 2, 2) == e % 2;
    }
  }

  /** A 1 by 1 world holding 10 with the outflow rectangle on its one cell:
      `Sink(0.5)` then `StateAll()` leaves 5. */
  lemma SinkHalves(g: seq<Cell>)
    requires |g| == 1 && g[0].amount == 10.0 && g[0].delta == 0.0
    ensures StateAll(Sink(g, 1, 1, Rect(0, 0, 0, 0), 0.5))[0].amount == 5.0
  {
    var r := Rect(0, 0, 0, 0);
    assert Mod(0, 1) == 0;
    assert Covered(r, 1, 1, 0);
    SinkRetainsDecayFraction(g, 1, 1, r, 0.5, 0);
  }

  /** An outflow rectangle given wider than the world normalises to one
      that spans the 1-wide world's only column twice. */
  lemma WideOutflowNormalises()
    ensures CheckRanges(Flows(Rect(0, 0, 5, 0), Rect(0, 0, 5, 0)), 1, 1).outflow == Rect(0, 0, 1, 0)
  {
  }

  /** In a 1 by 1 world every index a rectangle loop computes is 0. */
  lemma OneCellElem(i: int, j: int)
    ensures Elem(1, 1, i, j) == 0
  {
    assert Mod(i, 1) == 0 && Mod(j, 1) == 0;
  }

  /** The outflow loops then visit cell 0 twice. */
  lemma WideOutflowVisitsTwice(r: Rect)
    requires r == Rect(0, 0, 1, 0)
    ensures RectCells(r, 1, 1) == [0, 0]
    ensures Count(RectCells(r, 1, 1), 0) == 2
  {
    var s := RectCells(r, 1, 1);
    assert Area(r) == 2;
    forall n | 0 <= n < |s| ensures s[n] == 0 {
      OneCellElem(r.y1 + n / Width(r), r.x1 + n % Width(r));
    }
    assert s == [0, 0];
    CountAll(s, 0);
  }

  /** A sequence holding only e counts e once per element. */
  lemma {:induction false} CountAll(s: seq<int>, e: int)
    requires forall n | 0 <= n < |s| :: s[n] == e
    ensures Count(s, e) == |s|
  {
    if |s| > 0 {
      CountAll(s[..|s| - 1], e);
    }
  }

  /** So `Sink` takes its share twice: a 1 by 1 world holding 1, its
      outflow rectangle given as columns 0..5, decay 0, ends at -1. */
  lemma SinkOverdrawsDoubleCover(g: seq<Cell>)
    requires |g| == 1 && g[0].amount == 1.0 && g[0].delta == 0.0
    ensures StateAll(Sink(g, 1, 1, CheckRanges(Flows(Rect(0, 0, 5, 0), Rect(0, 0, 5, 0)), 1, 1).outflow, 0.0))[0].amount == -1.0
  {
    WideOutflowNormalises();
    var r := Rect(0, 0, 1, 0);
    WideOutflowVisitsTwice(r);
    DrainingCells(g, 1, 1, r, 0.0);
    assert Removal(g, 0.0, 0) == 1.0;
    assert Times(2, 1.0) == 2.0;
  }
}
