/** The per-cell descriptor list (`cCellResource`) and the operations that
    walk it: `SetCellList`, `CellInflow`, `CellOutflow`, plus `SetCellAmount`
    and `ResetResourceCounts`. */
module CellList {
  import opened Geometry
  import opened Cells
  import opened Staging

  /** One descriptor: a cell index with its initial amount, inflow rate and
      outflow fraction. */
  datatype CellResource = CellResource(id: int, initial: real, inflow: real, outflow: real)

  /** Either the operation ran to the end, or the assertion in `Rate` fired
      while handling the descriptor at index `record`. */
  datatype Outcome<T> = Done(value: T) | AssertFails(record: nat)

  predicate ValidId(id: int, size: int)
  {
    0 <= id < size
  }

  /** Some descriptor names cell e. */
  predicate Named(list: seq<CellResource>, e: int)
  {
    |list| > 0 && (list[|list| - 1].id == e || Named(list[..|list| - 1], e))
  }

  lemma {:induction false} NamedIndex(list: seq<CellResource>, e: int)
    ensures Named(list, e) <==> exists k | 0 <= k < |list| :: list[k].id == e
  {
    if |list| > 0 {
      var n := |list| - 1;
      NamedIndex(list[..n], e);
      if Named(list[..n], e) {
        var k :| 0 <= k < n && list[..n][k].id == e;
        assert list[k].id == e;
      }
      if exists k | 0 <= k < |list| :: list[k].id == e {
        var k :| 0 <= k < |list| && list[k].id == e;
        if k < n {
          assert list[..n][k].id == e;
        }
      }
    }
  }

  /** Sum of the inflow rates of the descriptors naming cell e. */
  function InflowFor(list: seq<CellResource>, e: int): real
  {
    if |list| == 0 then 0.0
    else InflowFor(list[..|list| - 1], e) + (if list[|list| - 1].id == e then list[|list| - 1].inflow else 0.0)
  }

  /** Sum of the inflow rates of the descriptors naming a cell of the grid. */
  function ValidInflow(list: seq<CellResource>, size: int): real
  {
    if |list| == 0 then 0.0
    else
      var rec := list[|list| - 1];
      ValidInflow(list[..|list| - 1], size) + (if ValidId(rec.id, size) then rec.inflow else 0.0)
  }

  /** `CellInflow()`: stage each descriptor's inflow into its cell,
      silently skipping descriptors whose index is off the grid. Every cell
      gains the inflow of exactly the descriptors that name it. */
  function CellInflow(g: seq<Cell>, list: seq<CellResource>): (g': seq<Cell>)
    ensures OnlyDeltas(g, g')
    ensures forall e | 0 <= e < |g| :: g'[e].delta == g[e].delta + InflowFor(list, e)
  {
    if |list| == 0 then g
    else
      var h := CellInflow(g, list[..|list| - 1]);
      var rec := list[|list| - 1];
      if ValidId(rec.id, |h|) then Rate(h, rec.id, rec.inflow) else h
  }

  /** Inflow conserves: the pending total grows by the inflow of the
      descriptors that name a cell of the grid, and no amount moves. */
  lemma {:induction false} CellInflowTotals(g: seq<Cell>, list: seq<CellResource>)
    ensures SumDelta(CellInflow(g, list)) == SumDelta(g) + ValidInflow(list, |g|)
    ensures SumAmount(CellInflow(g, list)) == SumAmount(g)
  {
    if |list| > 0 {
      var n := |list| - 1;
      CellInflowTotals(g, list[..n]);
      var h := CellInflow(g, list[..n]);
      if ValidId(list[n].id, |h|) {
        RateTotals(h, list[n].id, list[n].inflow);
      }
    }
  }

  /** What `CellOutflow` takes from cell e for one descriptor naming it:
      the non-negative part of the cell's amount times the descriptor's
      outflow fraction. */
  function Outtake(g: seq<Cell>, rec: CellResource): real
  {
    Max(GetAmount(g, rec.id) * rec.outflow, 0.0)
  }

  /** Sum of the outtakes of the descriptors naming cell e. */
  function OutflowFor(g: seq<Cell>, list: seq<CellResource>, e: int): real
  {
    if |list| == 0 then 0.0
    else OutflowFor(g, list[..|list| - 1], e) + (if list[|list| - 1].id == e then Outtake(g, list[|list| - 1]) else 0.0)
  }

  /** Every descriptor names a cell of the grid. */
  predicate AllValid(list: seq<CellResource>, size: int)
  {
    forall k | 0 <= k < |list| :: ValidId(list[k].id, size)
  }

  /** Descriptor k is the first that names no cell of the grid. */
  predicate FirstInvalid(list: seq<CellResource>, size: int, k: int)
  {
    0 <= k < |list| && !ValidId(list[k].id, size) && forall j | 0 <= j < k :: ValidId(list[j].id, size)
  }

  /** The state of the `CellOutflow` loop: the grid (or the assertion that
      ended the loop) and the local `deltaamount`, which keeps its last
      value across descriptors. */
  datatype OutflowState = OutflowState(grid: Outcome<seq<Cell>>, deltaAmount: real)

  /** The `CellOutflow` loop over the first |list| descriptors. The amount
      to take is recomputed only for a valid index; `Rate` is then called
      with the (possibly stale) amount whatever the index, and an invalid
      index fires its assertion. The stale amount therefore never reaches a
      cell. */
  function OutflowLoop(g: seq<Cell>, list: seq<CellResource>): (st: OutflowState)
    ensures st.grid.Done? <==> AllValid(list, |g|)
    ensures st.grid.AssertFails? ==> FirstInvalid(list, |g|, st.grid.record)
    ensures st.grid.Done? ==>
      && OnlyDeltas(g, st.grid.value)
      && forall e | 0 <= e < |g| :: st.grid.value[e].delta == g[e].delta - OutflowFor(g, list, e)
  {
    if |list| == 0 then OutflowState(Done(g), 0.0)
    else
      var n := |list| - 1;
      var prev := OutflowLoop(g, list[..n]);
      var rec := list[n];
      match prev.grid
      case AssertFails(_) => prev
      case Done(h) =>
        var amount := if ValidId(rec.id, |h|) then Outtake(h, rec) else prev.deltaAmount;
        if ValidId(rec.id, |h|) then
          assert h[rec.id].amount == g[rec.id].amount;
          assert Outtake(h, rec) == Outtake(g, rec);
          OutflowState(Done(Rate(h, rec.id, -amount)), amount)
        else
          OutflowState(AssertFails(n), amount)
  }

  /** `CellOutflow()`: take from each named cell its outflow fraction of
      the amount; if any descriptor names no cell, the assertion fires at the
      first one. */
  function CellOutflow(g: seq<Cell>, list: seq<CellResource>): (o: Outcome<seq<Cell>>)
    ensures o.Done? <==> AllValid(list, |g|)
    ensures o.AssertFails? ==> FirstInvalid(list, |g|, o.record)
    ensures o.Done? ==>
      && OnlyDeltas(g, o.value)
      && forall e | 0 <= e < |g| :: o.value[e].delta == g[e].delta - OutflowFor(g, list, e)
  {
    OutflowLoop(g, list).grid
  }

  lemma {:induction false} OutflowForNonNegative(g: seq<Cell>, list: seq<CellResource>, e: int)
    ensures OutflowFor(g, list, e) >= 0.0
  {
    if |list| > 0 {
      OutflowForNonNegative(g, list[..|list| - 1], e);
    }
  }

  /** Outflow never raises a pending delta. */
  lemma CellOutflowNeverAdds(g: seq<Cell>, list: seq<CellResource>)
    requires CellOutflow(g, list).Done?
    ensures forall e | 0 <= e < |g| :: CellOutflow(g, list).value[e].delta <= g[e].delta
  {
    forall e | 0 <= e < |g| {
      OutflowForNonNegative(g, list, e);
    }
  }

  /** Sum of the initial amounts of the descriptors naming cell e. */
  function InitialFor(list: seq<CellResource>, e: int): real
  {
    if |list| == 0 then 0.0
    else InitialFor(list[..|list| - 1], e) + (if list[|list| - 1].id == e then list[|list| - 1].initial else 0.0)
  }

  /** The initial amount of the last descriptor naming cell e. */
  function LastInitial(list: seq<CellResource>, e: int): real
    requires Named(list, e)
  {
    if list[|list| - 1].id == e then list[|list| - 1].initial else LastInitial(list[..|list| - 1], e)
  }

  lemma {:induction false} InitialForUnnamed(list: seq<CellResource>, e: int)
    requires !Named(list, e)
    ensures InitialFor(list, e) == 0.0
  {
    if |list| > 0 {
      InitialForUnnamed(list[..|list| - 1], e);
    }
  }

  /** `h` is `g` after loading the descriptors: each named cell has folded
      its pending delta and the sum of its descriptors' initial amounts into
      its amount, keeps the last descriptor's initial amount as its reset
      value and has nothing pending; every other cell is untouched. */
  predicate Loaded(g: seq<Cell>, list: seq<CellResource>, h: seq<Cell>)
  {
    && |h| == |g|
    && forall e | 0 <= e < |g| ::
         if Named(list, e) then
           && h[e].amount == g[e].amount + g[e].delta + InitialFor(list, e)
           && h[e].delta == 0.0
           && h[e].initial == LastInitial(list, e)
           && h[e].slots == g[e].slots
         else h[e] == g[e]
  }

  /** Loading one valid descriptor: `Rate` its initial amount, `State` the
      cell, then record the initial amount. */
  function LoadOne(h: seq<Cell>, rec: CellResource): seq<Cell>
    requires ValidId(rec.id, |h|)
  {
    var f := State(Rate(h, rec.id, rec.initial), rec.id);
    f[rec.id := f[rec.id].(initial := rec.initial)]
  }

  lemma LoadStep(g: seq<Cell>, list: seq<CellResource>, h: seq<Cell>, rec: CellResource)
    requires Loaded(g, list, h) && ValidId(rec.id, |h|)
    ensures Loaded(g, list + [rec], LoadOne(h, rec))
  {
    var list' := list + [rec];
    assert list'[..|list'| - 1] == list;
    var h' := LoadOne(h, rec);
    forall e | 0 <= e < |g|
      ensures if Named(list', e) then
           && h'[e].amount == g[e].amount + g[e].delta + InitialFor(list', e)
           && h'[e].delta == 0.0
           && h'[e].initial == LastInitial(list', e)
           && h'[e].slots == g[e].slots
         else h'[e] == g[e]
    {
      if e == rec.id && !Named(list, e) {
        InitialForUnnamed(list, e);
      }
    }
  }

  /** `SetCellList(list)` as written: its guard admits an index equal to
      the grid size, for which `Rate` fires its assertion. */
  function SetCellList(g: seq<Cell>, list: seq<CellResource>): (o: Outcome<seq<Cell>>)
    ensures o.Done? <==> forall k | 0 <= k < |list| :: list[k].id != |g|
    ensures o.AssertFails? ==> o.record < |list| && list[o.record].id == |g| && forall j | 0 <= j < o.record :: list[j].id != |g|
    ensures o.Done? ==> Loaded(g, list, o.value)
  {
    if |list| == 0 then Done(g)
    else
      var n := |list| - 1;
      var rec := list[n];
      assert list[..n] + [rec] == list;
      match SetCellList(g, list[..n])
      case AssertFails(k) => AssertFails(k)
      case Done(h) =>
        if 0 <= rec.id <= |h| then
          if rec.id < |h| then
            LoadStep(g, list[..n], h, rec);
            Done(LoadOne(h, rec))
          else AssertFails(n)
        else
          assert Loaded(g, list, h) by {
            assert forall e | 0 <= e < |g| :: Named(list, e) == Named(list[..n], e);
          }
          Done(h)
  }

  /** `SetCellList(list)` with the guard `0 <= id < size`: descriptors naming
      no cell are skipped, and the list always loads. */
  function SetCellListChecked(g: seq<Cell>, list: seq<CellResource>): (h: seq<Cell>)
    ensures Loaded(g, list, h)
  {
    if |list| == 0 then g
    else
      var n := |list| - 1;
      var rec := list[n];
      assert list[..n] + [rec] == list;
      var h := SetCellListChecked(g, list[..n]);
      if ValidId(rec.id, |h|) then
        LoadStep(g, list[..n], h, rec);
        LoadOne(h, rec)
      else
        assert Loaded(g, list, h) by {
          assert forall e | 0 <= e < |g| :: Named(list, e) == Named(list[..n], e);
        }
        h
  }

  /** Two grids loaded from the same list agree. */
  lemma LoadedUnique(g: seq<Cell>, list: seq<CellResource>, h: seq<Cell>, h': seq<Cell>)
    requires Loaded(g, list, h) && Loaded(g, list, h')
    ensures h == h'
  {
    forall e | 0 <= e < |g|
      ensures h[e] == h'[e]
    {
    }
  }

  /** Where no descriptor names the one-past-the-end index, the two guards
      agree. */
  lemma SetCellListAgrees(g: seq<Cell>, list: seq<CellResource>)
    requires forall k | 0 <= k < |list| :: list[k].id != |g|
    ensures SetCellList(g, list) == Done(SetCellListChecked(g, list))
  {
    LoadedUnique(g, list, SetCellList(g, list).value, SetCellListChecked(g, list));
  }

  /** The off-by-one: a descriptor naming index |g| passes the `<=` guard
      and fires the assertion in `Rate`, where the checked guard skips it. */
  lemma SetCellListOffByOne(g: seq<Cell>, rec: CellResource)
    requires rec.id == |g|
    ensures SetCellList(g, [rec]) == AssertFails(0)
    ensures SetCellListChecked(g, [rec]) == g
  {
    assert [rec][..0] == [];
    LoadedUnique(g, [rec], SetCellListChecked(g, [rec]), g);
  }

  /** `SetCellAmount(id, res)`: overwrite one cell's amount; an index off
      the grid is ignored. */
  function SetCellAmount(g: seq<Cell>, id: int, res: real): (g': seq<Cell>)
    ensures |g'| == |g|
    ensures ValidId(id, |g|) ==> g'[id] == g[id].(amount := res)
    ensures forall j | 0 <= j < |g| && j != id :: g'[j] == g[j]
  {
    if ValidId(id, |g|) then g[id := g[id].(amount := res)] else g
  }

  /** Every probe after `SetCellAmount` reads the new amount at the cell set
      and the old one everywhere else, on or off the grid. */
  lemma SetCellAmountProbe(g: seq<Cell>, id: int, res: real, j: int)
    ensures GetAmount(SetCellAmount(g, id, res), j) == if j == id && ValidId(id, |g|) then res else GetAmount(g, j)
  {
  }

  /** The element's `ResetResourceCount(init)`: back to the baseline with
      nothing pending. */
  function ResetCell(c: Cell, init: real): Cell
  {
    c.(amount := init, delta := 0.0)
  }

  /** The cells `ResetResourceCounts` writes: rows y..y+height-1 of the box,
      columns 0..width-1 of the world, since the index leaves out the box's
      column origin. */
  predicate ResetTarget(b: CellBox, i: int)
    requires b.stride > 0
  {
    0 <= i && b.y <= RowOf(b, i) < b.y + b.height && ColOf(b, i) < b.width
  }

  /** Cell i comes before (row r, column c) in the loops' row-by-row,
      column-by-column order. */
  predicate Before(b: CellBox, i: int, r: int, c: int)
    requires b.stride > 0
  {
    RowOf(b, i) < r || (RowOf(b, i) == r && ColOf(b, i) < c)
  }

  /** One step of the inner loop: moving past (r, c) adds exactly the cell
      at (r, c). */
  lemma BeforeStep(b: CellBox, i: int, r: int, c: int)
    requires b.stride > 0 && 0 <= i && 0 <= c < b.stride
    ensures Before(b, i, r, c + 1) <==> Before(b, i, r, c) || i == At(b, r, c)
  {
    if i == At(b, r, c) {
      RowMajorSplit(r, c, b.stride);
    }
  }

  /** Grid `h` is `g` with the cells the as-written loops pick reset, up
      to (row r, column c). */
  predicate TargetsResetBefore(g: seq<Cell>, h: seq<Cell>, b: CellBox, init: real, r: int, c: int)
    requires b.stride > 0
  {
    |h| == |g| && forall i | 0 <= i < |g| :: h[i] == if ResetTarget(b, i) && Before(b, i, r, c) then ResetCell(g[i], init) else g[i]
  }

  /** Grid `h` is `g` with the box's cells reset, up to (row r, column c). */
  predicate BoxResetBefore(g: seq<Cell>, h: seq<Cell>, b: CellBox, init: real, r: int, c: int)
    requires b.stride > 0
  {
    |h| == |g| && forall i | 0 <= i < |g| :: h[i] == if InBox(b, i) && Before(b, i, r, c) then ResetCell(g[i], init) else g[i]
  }

  /** `ResetResourceCounts()` as written: the nested loops over the box's
      height and width, writing cell (y + yy) * stride + xx, so every cell
      of the box's rows in columns 0..width-1 is reset whatever the box's
      column origin. */
  method ResetResourceCounts(g: seq<Cell>, b: CellBox, init: real) returns (g': seq<Cell>)
    requires BoxAccepted(b, |g|)
    ensures |g'| == |g|
    ensures forall i | 0 <= i < |g| :: g'[i] == if ResetTarget(b, i) then ResetCell(g[i], init) else g[i]
  {
    g' := g;
    var yy := 0;
    while yy < b.height
      invariant 0 <= yy <= b.height
      invariant TargetsResetBefore(g, g', b, init, b.y + yy, 0)
    {
      var xx := 0;
      while xx < b.width
        invariant 0 <= xx <= b.width
        invariant TargetsResetBefore(g, g', b, init, b.y + yy, xx)
      {
        var id := (b.y + yy) * b.stride + xx;
        assert id == At(b, b.y + yy, xx);
        assert 0 <= id < |g| && ResetTarget(b, id) by {
          RowMajorSplit(b.y + yy, xx, b.stride);
          MulLeft(b.y + yy, b.y + b.height - 1, b.stride);
          MulLeft(0, b.y + yy, b.stride);
        }
        var r, c := b.y + yy, xx;
        forall i | 0 <= i < |g|
          ensures Before(b, i, r, c + 1) <==> Before(b, i, r, c) || i == id
        {
          BeforeStep(b, i, r, c);
        }
        g' := g'[id := ResetCell(g[id], init)];
        xx := xx + 1;
      }
      yy := yy + 1;
    }
  }

  /** `ResetResourceCounts()` over the box itself, offset by its column
      origin as the wiring loops are: exactly the box's cells are reset. */
  method ResetBoxCounts(g: seq<Cell>, b: CellBox, init: real) returns (g': seq<Cell>)
    requires BoxAccepted(b, |g|)
    ensures |g'| == |g|
    ensures forall i | 0 <= i < |g| :: g'[i] == if InBox(b, i) then ResetCell(g[i], init) else g[i]
  {
    g' := g;
    var yy := 0;
    while yy < b.height
      invariant 0 <= yy <= b.height
      invariant BoxResetBefore(g, g', b, init, b.y + yy, b.x)
    {
      var xx := 0;
      while xx < b.width
        invariant 0 <= xx <= b.width
        invariant BoxResetBefore(g, g', b, init, b.y + yy, b.x + xx)
      {
        var id := (b.y + yy) * b.stride + b.x + xx;
        assert id == At(b, b.y + yy, b.x + xx);
        assert 0 <= id < |g| && InBox(b, id) by {
          AtInBox(b, |g|, b.y + yy, b.x + xx);
        }
        var r, c := b.y + yy, b.x + xx;
        forall i | 0 <= i < |g|
          ensures Before(b, i, r, c + 1) <==> Before(b, i, r, c) || i == id
        {
          BeforeStep(b, i, r, c);
        }
        g' := g'[id := ResetCell(g[id], init)];
        xx := xx + 1;
      }
      yy := yy + 1;
    }
  }

  /** The missing column origin: for a box that does not start at column 0,
      the as-written loops reset a cell left of the box and leave the box's
      last column alone. */
  lemma ResetMissesShiftedBox(b: CellBox, size: int)
    requires BoxFits(b, size) && b.x > 0
    ensures 0 <= At(b, b.y, LastCol(b)) < size
    ensures InBox(b, At(b, b.y, LastCol(b))) && !ResetTarget(b, At(b, b.y, LastCol(b)))
    ensures 0 <= At(b, b.y, 0) < size
    ensures ResetTarget(b, At(b, b.y, 0)) && !InBox(b, At(b, b.y, 0))
  {
    AtInBox(b, size, b.y, LastCol(b));
    RowMajorSplit(b.y, 0, b.stride);
    MulLeft(0, b.y, b.stride);
  }
}
