/** The two-phase update discipline: changes are staged into each cell's
    pending delta by `Rate` and become visible in its amount only when
    `State` folds them in. */
module Staging {
  import opened Geometry
  import opened Cells

  /** What `GetAmount` answers for an index or coordinate off the grid. */
  const NoAmount: real := NONE as real

  /** A probe of cell i that never fails: off the grid it answers NoAmount. */
  function GetAmount(g: seq<Cell>, i: int): (a: real)
    ensures 0 <= i < |g| ==> a == g[i].amount
    ensures !(0 <= i < |g|) ==> a == NoAmount
  {
    if 0 <= i < |g| then g[i].amount else NoAmount
  }

  /** `GetAmount(x, y)`: the amount at column x, row y of a `wx` by `wy`
      world, stored at row-major index y * wx + x; NoAmount off the world. */
  function GetAmountXY(g: seq<Cell>, wx: int, wy: int, x: int, y: int): (a: real)
    requires |g| == wx * wy
    ensures 0 <= x < wx && 0 <= y < wy ==> 0 <= wx * y + x < |g| && a == GetAmount(g, wx * y + x)
    ensures !(0 <= x < wx && 0 <= y < wy) ==> a == NoAmount
  {
    if 0 <= x < wx && 0 <= y < wy then
      RowMajorBound(y, x, wx, wy);
      g[y * wx + x].amount
    else NoAmount
  }

  /** `Rate(i, r)`: stage `r` into cell i. Only that cell's delta moves. */
  function Rate(g: seq<Cell>, i: int, r: real): (g': seq<Cell>)
    requires 0 <= i < |g|
    ensures OnlyDeltas(g, g')
    ensures g'[i].delta == g[i].delta + r
    ensures forall j | 0 <= j < |g| && j != i :: g'[j] == g[j]
  {
    g[i := RateCell(g[i], r)]
  }

  /** A coordinate inside the world names exactly one cell, and decodes
      back to itself. */
  lemma CoordinateIndex(wx: int, wy: int, x: int, y: int)
    requires 0 <= x < wx && 0 <= y < wy
    ensures 0 <= wx * y + x < wx * wy
    ensures (wx * y + x) / wx == y && (wx * y + x) % wx == x
  {
    RowMajorBound(y, x, wx, wy);
    RowMajorSplit(y, x, wx);
  }

  /** `Rate(x, y, r)`: stage `r` into the cell at column x, row y, which is
      index y * wx + x; every other cell is left alone. */
  function RateXY(g: seq<Cell>, wx: int, wy: int, x: int, y: int, r: real): (g': seq<Cell>)
    requires |g| == wx * wy && 0 <= x < wx && 0 <= y < wy
    ensures OnlyDeltas(g, g')
    ensures 0 <= wx * y + x < |g| && g'[wx * y + x].delta == g[wx * y + x].delta + r
    ensures forall j | 0 <= j < |g| && j != wx * y + x :: g'[j] == g[j]
  {
    CoordinateIndex(wx, wy, x, y);
    Rate(g, y * wx + x, r)
  }

  /** `State(i)`: fold cell i's pending delta into its amount. */
  function State(g: seq<Cell>, i: int): (g': seq<Cell>)
    requires 0 <= i < |g|
    ensures |g'| == |g|
    ensures g'[i].amount == g[i].amount + g[i].delta && g'[i].delta == 0.0
    ensures g'[i].initial == g[i].initial && g'[i].slots == g[i].slots
    ensures forall j | 0 <= j < |g| && j != i :: g'[j] == g[j]
  {
    g[i := FoldCell(g[i])]
  }

  /** `State(x, y)`: fold the cell at column x, row y. */
  function StateXY(g: seq<Cell>, wx: int, wy: int, x: int, y: int): (g': seq<Cell>)
    requires |g| == wx * wy && 0 <= x < wx && 0 <= y < wy
    ensures |g'| == |g| && 0 <= wx * y + x < |g|
    ensures g'[wx * y + x].amount == g[wx * y + x].amount + g[wx * y + x].delta
    ensures g'[wx * y + x].delta == 0.0
    ensures g'[wx * y + x].initial == g[wx * y + x].initial && g'[wx * y + x].slots == g[wx * y + x].slots
    ensures forall j | 0 <= j < |g| && j != wx * y + x :: g'[j] == g[j]
  {
    CoordinateIndex(wx, wy, x, y);
    State(g, y * wx + x)
  }

  /** `RateAll(r)`: stage `r` into every cell. */
  function RateAll(g: seq<Cell>, r: real): (g': seq<Cell>)
    ensures OnlyDeltas(g, g')
    ensures forall i | 0 <= i < |g| :: g'[i].delta == g[i].delta + r
  {
    seq(|g|, i requires 0 <= i < |g| => RateCell(g[i], r))
  }

  /** `StateAll()`: fold every cell. */
  function StateAll(g: seq<Cell>): (g': seq<Cell>)
    ensures |g'| == |g|
    ensures forall i | 0 <= i < |g| ::
      && g'[i].amount == g[i].amount + g[i].delta && g'[i].delta == 0.0
      && g'[i].initial == g[i].initial && g'[i].slots == g[i].slots
  {
    seq(|g|, i requires 0 <= i < |g| => FoldCell(g[i]))
  }

  /** Staging is invisible to every probe until a fold: after `Rate`, every
      index, on or off the grid, reads the same amount as before. */
  lemma RateInvisibleUntilState(g: seq<Cell>, i: int, r: real, j: int)
    requires 0 <= i < |g|
    ensures GetAmount(Rate(g, i, r), j) == GetAmount(g, j)
  {
  }

  /** Staging then folding cell i adds the staged rate (and whatever was
      pending) to its amount and clears the buffer. */
  lemma RateThenState(g: seq<Cell>, i: int, r: real)
    requires 0 <= i < |g|
    ensures GetAmount(State(Rate(g, i, r), i), i) == g[i].amount + g[i].delta + r
    ensures State(Rate(g, i, r), i)[i].delta == 0.0
    ensures forall j | 0 <= j < |g| && j != i :: State(Rate(g, i, r), i)[j] == g[j]
  {
  }

  /** Total amount over the grid, summed in index order. */
  function SumAmount(g: seq<Cell>): real
  {
    if |g| == 0 then 0.0 else SumAmount(g[..|g| - 1]) + g[|g| - 1].amount
  }

  /** Total pending change over the grid. */
  function SumDelta(g: seq<Cell>): real
  {
    if |g| == 0 then 0.0 else SumDelta(g[..|g| - 1]) + g[|g| - 1].delta
  }

  /** `SumAll()`: the total resource over every cell, probing each index in
      turn. */
  method SumAll(g: seq<Cell>) returns (sum: real)
    ensures sum == SumAmount(g)
  {
    sum := 0.0;
    var i := 0;
    while i < |g|
      invariant 0 <= i <= |g|
      invariant sum == SumAmount(g[..i])
    {
      assert g[..i + 1][..i] == g[..i];
      sum := sum + GetAmount(g, i);
      i := i + 1;
    }
    assert g[..|g|] == g;
  }

  /** Grids that agree cell by cell on amounts have equal totals. */
  lemma {:induction false} SumAmountPointwise(g: seq<Cell>, h: seq<Cell>)
    requires |g| == |h| && forall i | 0 <= i < |g| :: g[i].amount == h[i].amount
    ensures SumAmount(g) == SumAmount(h)
  {
    if |g| > 0 {
      SumAmountPointwise(g[..|g| - 1], h[..|h| - 1]);
    }
  }

  /** Staging `r` into one cell raises the grid's pending total by `r` and
      leaves its amount total alone. */
  lemma {:induction false} RateTotals(g: seq<Cell>, i: int, r: real)
    requires 0 <= i < |g|
    ensures SumDelta(Rate(g, i, r)) == SumDelta(g) + r
    ensures SumAmount(Rate(g, i, r)) == SumAmount(g)
  {
    var g' := Rate(g, i, r);
    var n := |g| - 1;
    if i == n {
      assert g'[..n] == g[..n];
    } else {
      assert g'[..n] == Rate(g[..n], i, r);
      RateTotals(g[..n], i, r);
    }
  }

  /** `RateAll` stages `r` once per cell: the pending total grows by
      `|g|` times `r`, and the amount total is unchanged. */
  lemma {:induction false} RateAllTotals(g: seq<Cell>, r: real)
    ensures SumDelta(RateAll(g, r)) == SumDelta(g) + (|g| as real) * r
    ensures SumAmount(RateAll(g, r)) == SumAmount(g)
  {
    if |g| > 0 {
      var n := |g| - 1;
      assert RateAll(g, r)[..n] == RateAll(g[..n], r);
      RateAllTotals(g[..n], r);
    }
  }

  /** Folding every cell conserves the staged mass: the amount total grows
      by exactly the pending total, which drops to zero. */
  lemma {:induction false} StateAllTotals(g: seq<Cell>)
    ensures SumAmount(StateAll(g)) == SumAmount(g) + SumDelta(g)
    ensures SumDelta(StateAll(g)) == 0.0
  {
    if |g| > 0 {
      var n := |g| - 1;
      assert StateAll(g)[..n] == StateAll(g[..n]);
      StateAllTotals(g[..n]);
    }
  }

  /** Folding the cells one at a time, in index order, up to n. */
  function StateUpTo(g: seq<Cell>, n: nat): (h: seq<Cell>)
    requires n <= |g|
    ensures |h| == |g|
  {
    if n == 0 then g else State(StateUpTo(g, n - 1), n - 1)
  }

  /** `StateAll` is `State` applied to each cell in turn. */
  lemma {:induction false} StateAllIsEachState(g: seq<Cell>, n: nat)
    requires n <= |g|
    ensures |StateUpTo(g, n)| == |g|
    ensures forall i | 0 <= i < |g| :: StateUpTo(g, n)[i] == if i < n then FoldCell(g[i]) else g[i]
    ensures n == |g| ==> StateUpTo(g, n) == StateAll(g)
  {
    if n > 0 {
      StateAllIsEachState(g, n - 1);
    }
  }

  /** One staged change: a rate for one cell. */
  datatype Call = Call(cell: int, value: real)

  predicate CallsFit(calls: seq<Call>, size: int)
  {
    forall n | 0 <= n < |calls| :: 0 <= calls[n].cell < size
  }

  /** The total staged into cell e by `calls`. */
  function ValueFor(calls: seq<Call>, e: int): real
  {
    if |calls| == 0 then 0.0
    else ValueFor(calls[..|calls| - 1], e) + (if calls[|calls| - 1].cell == e then calls[|calls| - 1].value else 0.0)
  }

  /** Everything `calls` stages. */
  function Total(calls: seq<Call>): real
  {
    if |calls| == 0 then 0.0 else Total(calls[..|calls| - 1]) + calls[|calls| - 1].value
  }

  /** A run of `Rate` calls, issued in order: each cell's delta grows by
      exactly what the calls stage into it, and nothing else changes. */
  function RateBatch(g: seq<Cell>, calls: seq<Call>): (g': seq<Cell>)
    requires CallsFit(calls, |g|)
    ensures OnlyDeltas(g, g')
    ensures forall e | 0 <= e < |g| :: g'[e].delta == g[e].delta + ValueFor(calls, e)
  {
    if |calls| == 0 then g
    else
      var c := calls[|calls| - 1];
      Rate(RateBatch(g, calls[..|calls| - 1]), c.cell, c.value)
  }

  /** A batch of rates raises the pending total by the batch's total. */
  lemma {:induction false} RateBatchTotals(g: seq<Cell>, calls: seq<Call>)
    requires CallsFit(calls, |g|)
    ensures SumDelta(RateBatch(g, calls)) == SumDelta(g) + Total(calls)
    ensures SumAmount(RateBatch(g, calls)) == SumAmount(g)
  {
    if |calls| > 0 {
      var c := calls[|calls| - 1];
      RateBatchTotals(g, calls[..|calls| - 1]);
      RateTotals(RateBatch(g, calls[..|calls| - 1]), c.cell, c.value);
    }
  }

  lemma {:induction false} ValueForConcat(a: seq<Call>, b: seq<Call>, e: int)
    ensures ValueFor(a + b, e) == ValueFor(a, e) + ValueFor(b, e)
  {
    if |b| > 0 {
      assert (a + b)[..|a + b| - 1] == a + b[..|b| - 1];
      ValueForConcat(a, b[..|b| - 1], e);
    } else {
      assert a + b == a;
    }
  }

  /** Taking one call out of a sequence takes it out of its multiset. */
  lemma RemoveOne(q: seq<Call>, k: int)
    requires 0 <= k < |q|
    ensures multiset(q[..k] + q[k + 1..]) == multiset(q) - multiset{q[k]}
  {
    assert q == q[..k] + [q[k]] + q[k + 1..];
    assert multiset(q) == multiset(q[..k]) + multiset{q[k]} + multiset(q[k + 1..]);
  }

  /** Matching the last call of p with a copy in q leaves two multiset-equal
      remainders. */
  lemma PermutationRest(p: seq<Call>, q: seq<Call>, k: int)
    requires multiset(p) == multiset(q) && |p| > 0 && 0 <= k < |q| && q[k] == p[|p| - 1]
    ensures multiset(p[..|p| - 1]) == multiset(q[..k] + q[k + 1..])
  {
    RemoveOne(p, |p| - 1);
    RemoveOne(q, k);
    assert p[|p|..] == [];
    assert p[..|p| - 1] + p[|p|..] == p[..|p| - 1];
  }

  /** What a batch stages into a cell is what the batch without call k
      stages plus call k's share. */
  lemma ValueForSplit(q: seq<Call>, k: int, e: int)
    requires 0 <= k < |q|
    ensures ValueFor(q, e) == ValueFor(q[..k] + q[k + 1..], e) + (if q[k].cell == e then q[k].value else 0.0)
  {
    var q1, x, q2 := q[..k], q[k], q[k + 1..];
    assert q == (q1 + [x]) + q2;
    ValueForConcat(q1 + [x], q2, e);
    ValueForConcat(q1, [x], e);
    ValueForConcat(q1, q2, e);
    assert [x][..0] == [];
  }

  /** What a batch stages into a cell does not depend on the order of the
      calls. */
  lemma {:induction false} ValueForPermutation(p: seq<Call>, q: seq<Call>, e: int)
    requires multiset(p) == multiset(q)
    ensures ValueFor(p, e) == ValueFor(q, e)
    decreases |p|
  {
    if |p| > 0 {
      var x := p[|p| - 1];
      assert x in multiset(q) by { assert x in multiset(p); }
      var k :| 0 <= k < |q| && q[k] == x;
      PermutationRest(p, q, k);
      ValueForPermutation(p[..|p| - 1], q[..k] + q[k + 1..], e);
      ValueForSplit(q, k, e);
    } else {
      assert |q| == |multiset(q)| == 0;
    }
  }

  /** Order independence of staging: any reordering of the same `Rate`
      calls leaves the grid in the same state. */
  lemma RateOrderIndependent(g: seq<Cell>, p: seq<Call>, q: seq<Call>)
    requires CallsFit(p, |g|) && CallsFit(q, |g|) && multiset(p) == multiset(q)
    ensures RateBatch(g, p) == RateBatch(g, q)
  {
    var a, b := RateBatch(g, p), RateBatch(g, q);
    forall e | 0 <= e < |g|
      ensures a[e] == b[e]
    {
      ValueForPermutation(p, q, e);
    }
  }
}
