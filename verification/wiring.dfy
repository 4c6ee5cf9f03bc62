/** Construction of the neighbour graph (`SetPointers`, `ResizeClear`).

    Slot 0 is the up-left neighbour and the slots go clockwise:

        0 1 2
        7   3
        6 5 4

    The source builds the graph in passes: every slot of every cell is
    cleared, every box cell gets its eight lattice links, then a top/bottom
    pass and a left/right pass fix the slots that cross the box's edge. The
    closed form `Wired` says what the passes leave behind; `SlotAfter`
    describes the graph part way through the two edge passes. */
module Wiring {
  import opened Geometry
  import opened Cells

  /** `nGeometry::GRID` (bounded) and `nGeometry::TORUS` (wrapping); the
      edge passes treat every topology other than GRID as a torus. */
  datatype Topology = Grid | Torus

  /** Column and row offsets of the eight slots, clockwise from up-left. */
  const DXs: seq<int> := [-1, 0, 1, 1, 1, 0, -1, -1]
  const DYs: seq<int> := [-1, -1, -1, 0, 1, 1, 1, 0]

  function DX(k: int): int
    requires 0 <= k < 8
  {
    DXs[k]
  }

  function DY(k: int): int
    requires 0 <= k < 8
  {
    DYs[k]
  }

  /** Even slots are the diagonals. */
  function WeightOf(k: int): Weight
  {
    if k % 2 == 0 then Diag else Orth
  }

  /** The slot pointing back the other way. */
  function Opposite(k: int): int
  {
    (k + 4) % 8
  }

  /** The slots that leave the box through its top, bottom, left and right edges. */
  predicate TopSlot(k: int) { 0 <= k <= 2 }
  predicate BottomSlot(k: int) { 4 <= k <= 6 }
  predicate LeftSlot(k: int) { k == 0 || k == 6 || k == 7 }
  predicate RightSlot(k: int) { 2 <= k <= 4 }

  /** Slot k of cell i as the connect pass sets it: the lattice neighbour,
      wrapping around the world. */
  function Lattice(i: int, wx: int, wy: int, k: int): Slot
    requires wx > 0 && wy > 0 && i >= 0 && 0 <= k < 8
  {
    Link(GridNeighbor(i, wx, wy, DX(k), DY(k)), DX(k), DY(k), WeightOf(k))
  }

  /** The eight `SetPtr` calls of the connect pass, written out as the
      source writes them. */
  function LatticeSlots(id: int, wx: int, wy: int): seq<Slot>
    requires wx > 0 && wy > 0 && id >= 0
  {
    [ Link(GridNeighbor(id, wx, wy, -1, -1), -1, -1, Diag),
      Link(GridNeighbor(id, wx, wy,  0, -1),  0, -1, Orth),
      Link(GridNeighbor(id, wx, wy,  1, -1),  1, -1, Diag),
      Link(GridNeighbor(id, wx, wy,  1,  0),  1,  0, Orth),
      Link(GridNeighbor(id, wx, wy,  1,  1),  1,  1, Diag),
      Link(GridNeighbor(id, wx, wy,  0,  1),  0,  1, Orth),
      Link(GridNeighbor(id, wx, wy, -1,  1), -1,  1, Diag),
      Link(GridNeighbor(id, wx, wy, -1,  0), -1,  0, Orth) ]
  }

  /** The written-out connect pass agrees with the offset and weight tables. */
  lemma LatticeSlotsTable(id: int, wx: int, wy: int, k: int)
    requires wx > 0 && wy > 0 && id >= 0 && 0 <= k < 8
    ensures |LatticeSlots(id, wx, wy)| == 8
    ensures LatticeSlots(id, wx, wy)[k] == Lattice(id, wx, wy, k)
  {
  }

  /* Torus wrap targets. The top and bottom passes send a top-row cell's
     diagonals, and a bottom-row cell's, to fixed corners of the box whatever
     the cell's column; likewise the left and right passes whatever the row. */

  function TopTarget(b: CellBox, c: int, k: int): int
  {
    if k == 0 then At(b, LastRow(b), LastCol(b))
    else if k == 1 then At(b, LastRow(b), c)
    else At(b, LastRow(b), FirstCol(b))
  }

  function BottomTarget(b: CellBox, c: int, k: int): int
  {
    if k == 6 then At(b, FirstRow(b), LastCol(b))
    else if k == 5 then At(b, FirstRow(b), c)
    else At(b, FirstRow(b), FirstCol(b))
  }

  function LeftTarget(b: CellBox, r: int, k: int): int
  {
    if k == 0 then At(b, LastRow(b), LastCol(b))
    else if k == 7 then At(b, r, LastCol(b))
    else At(b, FirstRow(b), LastCol(b))
  }

  function RightTarget(b: CellBox, r: int, k: int): int
  {
    if k == 2 then At(b, LastRow(b), FirstCol(b))
    else if k == 3 then At(b, r, FirstCol(b))
    else At(b, FirstRow(b), FirstCol(b))
  }

  /** What an edge pass writes into slot k: nothing on a bounded grid, the
      wrap target on a torus. */
  function EdgeLink(geo: Topology, k: int, target: int): Slot
    requires 0 <= k < 8
  {
    if geo == Grid then NoLink else Link(target, DX(k), DY(k), WeightOf(k))
  }

  /** Slot k of cell i once the top/bottom pass has handled the first `tb`
      columns of the box and the left/right pass the first `lr` rows. The
      left/right pass runs last, so its writes take precedence. */
  function SlotAfter(b: CellBox, geo: Topology, wx: int, wy: int, i: int, k: int, tb: int, lr: int): Slot
    requires b.stride > 0 && wx > 0 && wy > 0 && 0 <= k < 8
  {
    if !InBox(b, i) then NoLink
    else
      var r, c := RowOf(b, i), ColOf(b, i);
      if r < b.y + lr && c == FirstCol(b) && LeftSlot(k) then EdgeLink(geo, k, LeftTarget(b, r, k))
      else if r < b.y + lr && c == LastCol(b) && RightSlot(k) then EdgeLink(geo, k, RightTarget(b, r, k))
      else if c < b.x + tb && r == FirstRow(b) && TopSlot(k) then EdgeLink(geo, k, TopTarget(b, c, k))
      else if c < b.x + tb && r == LastRow(b) && BottomSlot(k) then EdgeLink(geo, k, BottomTarget(b, c, k))
      else Lattice(i, wx, wy, k)
  }

  /** Slot k of cell i once the graph is built. */
  function Wired(b: CellBox, geo: Topology, wx: int, wy: int, i: int, k: int): Slot
    requires b.stride > 0 && wx > 0 && wy > 0 && 0 <= k < 8
  {
    SlotAfter(b, geo, wx, wy, i, k, b.width, b.height)
  }

  /** Cell i has been reached by the connect pass after `yy` whole box rows
      and `xx` cells of the next. */
  predicate Connected(b: CellBox, i: int, yy: int, xx: int)
    requires b.stride > 0
  {
    InBox(b, i) && (RowOf(b, i) < b.y + yy || (RowOf(b, i) == b.y + yy && ColOf(b, i) < b.x + xx))
  }

  /** The grid's slots are as the connect pass leaves them after `yy` rows
      and `xx` cells. */
  predicate ConnectedUpTo(w: seq<Cell>, b: CellBox, wx: int, wy: int, yy: int, xx: int)
    requires b.stride > 0 && wx > 0 && wy > 0
  {
    && Shaped(w)
    && forall i, k | 0 <= i < |w| && 0 <= k < 8 ::
         w[i].slots[k] == (if Connected(b, i, yy, xx) then Lattice(i, wx, wy, k) else NoLink)
  }

  /** The grid's slots are as the edge passes leave them after `tb` columns
      and `lr` rows. */
  predicate WiredUpTo(w: seq<Cell>, b: CellBox, geo: Topology, wx: int, wy: int, tb: int, lr: int)
    requires b.stride > 0 && wx > 0 && wy > 0
  {
    && Shaped(w)
    && forall i, k | 0 <= i < |w| && 0 <= k < 8 :: w[i].slots[k] == SlotAfter(b, geo, wx, wy, i, k, tb, lr)
  }

  /** The two grids agree on everything but the slots. */
  predicate SameStores(w: seq<Cell>, g: seq<Cell>)
  {
    |w| == |g| && forall i | 0 <= i < |w| :: SameStore(w[i], g[i])
  }

  /** A grid whose every slot matches the closed form, and whose stored
      values match `g`, is wired that far. */
  lemma CellsWired(w: seq<Cell>, g: seq<Cell>, b: CellBox, geo: Topology, wx: int, wy: int, tb: int, lr: int)
    requires b.stride > 0 && wx > 0 && wy > 0 && |w| == |g|
    requires Shaped(w) && forall i | 0 <= i < |g| :: SameStore(w[i], g[i])
    requires forall i, k | 0 <= i < |g| && 0 <= k < 8 :: w[i].slots[k] == SlotAfter(b, geo, wx, wy, i, k, tb, lr)
    ensures SameStores(w, g)
    ensures WiredUpTo(w, b, geo, wx, wy, tb, lr)
  {
  }

  /** One step of the connect pass: the eight `SetPtr` calls on box cell `id`. */
  function ConnectCell(w: seq<Cell>, wx: int, wy: int, id: int): seq<Cell>
    requires wx > 0 && wy > 0 && 0 <= id < |w|
  {
    w[id := w[id].(slots := LatticeSlots(id, wx, wy))]
  }

  lemma ConnectCellStep(w: seq<Cell>, b: CellBox, wx: int, wy: int, yy: int, xx: int)
    requires wx > 0 && wy > 0 && BoxFits(b, |w|) && 0 <= yy < b.height && 0 <= xx < b.width
    requires ConnectedUpTo(w, b, wx, wy, yy, xx)
    ensures 0 <= At(b, b.y + yy, b.x + xx) < |w|
    ensures ConnectedUpTo(ConnectCell(w, wx, wy, At(b, b.y + yy, b.x + xx)), b, wx, wy, yy, xx + 1)
  {
    var id := At(b, b.y + yy, b.x + xx);
    AtInBox(b, |w|, b.y + yy, b.x + xx);
    var w' := ConnectCell(w, wx, wy, id);
    forall i, k | 0 <= i < |w'| && 0 <= k < 8
      ensures w'[i].slots[k] == (if Connected(b, i, yy, xx + 1) then Lattice(i, wx, wy, k) else NoLink)
    {
      if i == id {
        LatticeSlotsTable(id, wx, wy, k);
      } else if InBox(b, i) {
        BoxCellAt(b, i);
      }
    }
  }

  /** The connect pass: every box cell gets its eight lattice links. */
  method ConnectBox(g: seq<Cell>, wx: int, wy: int, b: CellBox) returns (w: seq<Cell>)
    requires wx > 0 && wy > 0 && BoxFits(b, |g|) && Shaped(g)
    requires forall i | 0 <= i < |g| :: g[i].slots == Unlinked
    ensures SameStores(w, g)
    ensures ConnectedUpTo(w, b, wx, wy, b.height, 0)
  {
    w := g;
    var yy := 0;
    while yy < b.height
      invariant 0 <= yy <= b.height
      invariant SameStores(w, g)
      invariant ConnectedUpTo(w, b, wx, wy, yy, 0)
    {
      var xx := 0;
      while xx < b.width
        invariant 0 <= xx <= b.width
        invariant SameStores(w, g)
        invariant ConnectedUpTo(w, b, wx, wy, yy, xx)
      {
        var id := At(b, b.y + yy, b.x + xx);
        ConnectCellStep(w, b, wx, wy, yy, xx);
        w := ConnectCell(w, wx, wy, id);
        xx := xx + 1;
      }
      yy := yy + 1;
    }
  }

  /** One column of the top/bottom pass: the top cell's slots 0 1 2 and the
      bottom cell's slots 6 5 4, cut on a bounded grid and wrapped on a torus. */
  function TopBottomColumn(w: seq<Cell>, b: CellBox, geo: Topology, xx: int): seq<Cell>
    requires BoxFits(b, |w|) && Shaped(w) && 0 <= xx < b.width
  {
    var yTop := b.y;
    var yBot := b.y + b.height - 1;
    var offX := b.x + xx;
    var top := At(b, yTop, offX);
    var bot := At(b, yBot, offX);
    AtInBox(b, |w|, yTop, offX);
    AtInBox(b, |w|, yBot, offX);
    if geo == Grid then
      var w1 := w[top := SetPtr(SetPtr(SetPtr(w[top], 0, NoLink), 1, NoLink), 2, NoLink)];
      w1[bot := SetPtr(SetPtr(SetPtr(w1[bot], 6, NoLink), 5, NoLink), 4, NoLink)]
    else
      var rowUp := b.y + b.height - 1;
      var rowDown := b.y;
      var colLeft := b.x + b.width - 1;
      var colRight := b.x;
      var colCur := b.x + xx;
      var c0 := At(b, rowUp, colLeft);
      var c1 := At(b, rowUp, colCur);
      var c2 := At(b, rowUp, colRight);
      var c6 := At(b, rowDown, colLeft);
      var c5 := At(b, rowDown, colCur);
      var c4 := At(b, rowDown, colRight);
      var w1 := w[top := SetPtr(SetPtr(SetPtr(w[top], 0, Link(c0, -1, -1, Diag)), 1, Link(c1, 0, -1, Orth)), 2, Link(c2, 1, -1, Diag))];
      w1[bot := SetPtr(SetPtr(SetPtr(w1[bot], 6, Link(c6, -1, 1, Diag)), 5, Link(c5, 0, 1, Orth)), 4, Link(c4, 1, 1, Diag))]
  }

  /** Slot k of cell i once column `xx` of the top/bottom pass has run,
      given what it held before: the top cell's slots 0 1 2 and the bottom
      cell's slots 4 5 6 take their edge links. */
  function ColumnEdge(b: CellBox, geo: Topology, xx: int, i: int, k: int, before: Slot): Slot
    requires 0 <= k < 8
  {
    if i == At(b, LastRow(b), b.x + xx) && BottomSlot(k) then EdgeLink(geo, k, BottomTarget(b, b.x + xx, k))
    else if i == At(b, FirstRow(b), b.x + xx) && TopSlot(k) then EdgeLink(geo, k, TopTarget(b, b.x + xx, k))
    else before
  }

  /** The eight slots of cell i once column `xx` has run, given the eight it
      held before. */
  function ColumnSlots(b: CellBox, geo: Topology, xx: int, i: int, before: seq<Slot>): seq<Slot>
    requires |before| == 8
  {
    seq(8, k requires 0 <= k < 8 => ColumnEdge(b, geo, xx, i, k, before[k]))
  }

  /** What one column of the top/bottom pass does to cell i: its slots
      become `ColumnSlots` and its stored values are kept. */
  lemma TopBottomColumnCell(w: seq<Cell>, b: CellBox, geo: Topology, xx: int, i: int)
    requires BoxFits(b, |w|) && Shaped(w) && 0 <= xx < b.width && 0 <= i < |w|
    ensures |TopBottomColumn(w, b, geo, xx)| == |w|
    ensures TopBottomColumn(w, b, geo, xx)[i] == w[i].(slots := ColumnSlots(b, geo, xx, i, w[i].slots))
  {
    AtInBox(b, |w|, b.y, b.x + xx);
    AtInBox(b, |w|, b.y + b.height - 1, b.x + xx);
  }

  /** The same for every cell. */
  lemma TopBottomColumnEffect(w: seq<Cell>, b: CellBox, geo: Topology, xx: int)
    requires BoxFits(b, |w|) && Shaped(w) && 0 <= xx < b.width
    ensures |TopBottomColumn(w, b, geo, xx)| == |w|
    ensures forall i | 0 <= i < |w| :: TopBottomColumn(w, b, geo, xx)[i] == w[i].(slots := ColumnSlots(b, geo, xx, i, w[i].slots))
  {
    AtInBox(b, |w|, b.y, b.x);
    TopBottomColumnCell(w, b, geo, xx, 0);
    var w' := TopBottomColumn(w, b, geo, xx);
    forall i | 0 <= i < |w|
      ensures w'[i] == w[i].(slots := ColumnSlots(b, geo, xx, i, w[i].slots))
    {
      TopBottomColumnCell(w, b, geo, xx, i);
    }
  }

  /** Handling one more column changes the closed form only at that
      column's top and bottom cells. */
  lemma SlotAfterTopBottom(b: CellBox, geo: Topology, wx: int, wy: int, size: int, xx: int, i: int, k: int)
    requires wx > 0 && wy > 0 && BoxFits(b, size) && 0 <= xx < b.width && 0 <= k < 8
    ensures SlotAfter(b, geo, wx, wy, i, k, xx + 1, 0) ==
      ColumnEdge(b, geo, xx, i, k, SlotAfter(b, geo, wx, wy, i, k, xx, 0))
  {
    AtInBox(b, size, FirstRow(b), b.x + xx);
    AtInBox(b, size, LastRow(b), b.x + xx);
    if InBox(b, i) {
      BoxCellAt(b, i);
    }
  }

  /** Any grid the column writes onto a grid wired up to column `xx` is
      wired up to column `xx + 1`. */
  lemma ColumnAdvances(w: seq<Cell>, w': seq<Cell>, b: CellBox, geo: Topology, wx: int, wy: int, xx: int)
    requires wx > 0 && wy > 0 && BoxFits(b, |w|) && 0 <= xx < b.width
    requires WiredUpTo(w, b, geo, wx, wy, xx, 0) && |w'| == |w|
    requires forall i | 0 <= i < |w| :: w'[i] == w[i].(slots := ColumnSlots(b, geo, xx, i, w[i].slots))
    ensures SameStores(w', w)
    ensures WiredUpTo(w', b, geo, wx, wy, xx + 1, 0)
  {
    forall i, k | 0 <= i < |w| && 0 <= k < 8
      ensures w'[i].slots[k] == SlotAfter(b, geo, wx, wy, i, k, xx + 1, 0)
    {
      SlotAfterTopBottom(b, geo, wx, wy, |w|, xx, i, k);
    }
    CellsWired(w', w, b, geo, wx, wy, xx + 1, 0);
  }

  lemma TopBottomColumnStep(w: seq<Cell>, b: CellBox, geo: Topology, wx: int, wy: int, xx: int)
    requires wx > 0 && wy > 0 && BoxFits(b, |w|) && 0 <= xx < b.width
    requires WiredUpTo(w, b, geo, wx, wy, xx, 0)
    ensures SameStores(TopBottomColumn(w, b, geo, xx), w)
    ensures WiredUpTo(TopBottomColumn(w, b, geo, xx), b, geo, wx, wy, xx + 1, 0)
  {
    TopBottomColumnEffect(w, b, geo, xx);
    ColumnAdvances(w, TopBottomColumn(w, b, geo, xx), b, geo, wx, wy, xx);
  }

  /** One row of the left/right pass: the left cell's slots 0 7 6 and the
      right cell's slots 2 3 4, cut on a bounded grid and wrapped on a torus. */
  function LeftRightRow(w: seq<Cell>, b: CellBox, geo: Topology, yy: int): seq<Cell>
    requires BoxFits(b, |w|) && Shaped(w) && 0 <= yy < b.height
  {
    var left := At(b, b.y + yy, b.x);
    var right := At(b, b.y + yy, b.x + b.width - 1);
    AtInBox(b, |w|, b.y + yy, b.x);
    AtInBox(b, |w|, b.y + yy, b.x + b.width - 1);
    if geo == Grid then
      var w1 := w[left := SetPtr(SetPtr(SetPtr(w[left], 0, NoLink), 7, NoLink), 6, NoLink)];
      w1[right := SetPtr(SetPtr(SetPtr(w1[right], 2, NoLink), 3, NoLink), 4, NoLink)]
    else
      var rowUp := b.y + b.height - 1;
      var rowDown := b.y;
      var colLeft := b.x + b.width - 1;
      var colRight := b.x;
      var rowCur := b.y + yy;
      var c0 := At(b, rowUp, colLeft);
      var c2 := At(b, rowUp, colRight);
      var c7 := At(b, rowCur, colLeft);
      var c3 := At(b, rowCur, colRight);
      var c6 := At(b, rowDown, colLeft);
      var c4 := At(b, rowDown, colRight);
      var w1 := w[left := SetPtr(SetPtr(SetPtr(w[left], 0, Link(c0, -1, -1, Diag)), 7, Link(c7, -1, 0, Orth)), 6, Link(c6, -1, 1, Diag))];
      w1[right := SetPtr(SetPtr(SetPtr(w1[right], 2, Link(c2, 1, -1, Diag)), 3, Link(c3, 1, 0, Orth)), 4, Link(c4, 1, 1, Diag))]
  }

  /** Slot k of cell i once row `yy` of the left/right pass has run, given
      what it held before: the left cell's slots 0 7 6 and the right cell's
      slots 2 3 4 take their edge links. */
  function RowEdge(b: CellBox, geo: Topology, yy: int, i: int, k: int, before: Slot): Slot
    requires 0 <= k < 8
  {
    if i == At(b, b.y + yy, LastCol(b)) && RightSlot(k) then EdgeLink(geo, k, RightTarget(b, b.y + yy, k))
    else if i == At(b, b.y + yy, FirstCol(b)) && LeftSlot(k) then EdgeLink(geo, k, LeftTarget(b, b.y + yy, k))
    else before
  }

  /** The eight slots of cell i once row `yy` has run, given the eight it
      held before. */
  function RowSlots(b: CellBox, geo: Topology, yy: int, i: int, before: seq<Slot>): seq<Slot>
    requires |before| == 8
  {
    seq(8, k requires 0 <= k < 8 => RowEdge(b, geo, yy, i, k, before[k]))
  }

  /** What one row of the left/right pass does to cell i: its slots
      become `RowSlots` and its stored values are kept. */
  lemma LeftRightRowCell(w: seq<Cell>, b: CellBox, geo: Topology, yy: int, i: int)
    requires BoxFits(b, |w|) && Shaped(w) && 0 <= yy < b.height && 0 <= i < |w|
    ensures |LeftRightRow(w, b, geo, yy)| == |w|
    ensures LeftRightRow(w, b, geo, yy)[i] == w[i].(slots := RowSlots(b, geo, yy, i, w[i].slots))
  {
    AtInBox(b, |w|, b.y + yy, b.x);
    AtInBox(b, |w|, b.y + yy, b.x + b.width - 1);
  }

  /** The same for every cell. */
  lemma LeftRightRowEffect(w: seq<Cell>, b: CellBox, geo: Topology, yy: int)
    requires BoxFits(b, |w|) && Shaped(w) && 0 <= yy < b.height
    ensures |LeftRightRow(w, b, geo, yy)| == |w|
    ensures forall i | 0 <= i < |w| :: LeftRightRow(w, b, geo, yy)[i] == w[i].(slots := RowSlots(b, geo, yy, i, w[i].slots))
  {
    AtInBox(b, |w|, b.y, b.x);
    LeftRightRowCell(w, b, geo, yy, 0);
    var w' := LeftRightRow(w, b, geo, yy);
    forall i | 0 <= i < |w|
      ensures w'[i] == w[i].(slots := RowSlots(b, geo, yy, i, w[i].slots))
    {
      LeftRightRowCell(w, b, geo, yy, i);
    }
  }

  /** Handling one more row changes the closed form only at that row's
      left and right cells. */
  lemma SlotAfterLeftRight(b: CellBox, geo: Topology, wx: int, wy: int, size: int, yy: int, i: int, k: int)
    requires wx > 0 && wy > 0 && BoxFits(b, size) && 0 <= yy < b.height && 0 <= k < 8
    ensures SlotAfter(b, geo, wx, wy, i, k, b.width, yy + 1) ==
      RowEdge(b, geo, yy, i, k, SlotAfter(b, geo, wx, wy, i, k, b.width, yy))
  {
    AtInBox(b, size, b.y + yy, FirstCol(b));
    AtInBox(b, size, b.y + yy, LastCol(b));
    if InBox(b, i) {
      BoxCellAt(b, i);
    }
  }

  /** Any grid the row writes onto a grid wired up to row `yy` is wired up
      to row `yy + 1`. */
  lemma RowAdvances(w: seq<Cell>, w': seq<Cell>, b: CellBox, geo: Topology, wx: int, wy: int, yy: int)
    requires wx > 0 && wy > 0 && BoxFits(b, |w|) && 0 <= yy < b.height
    requires WiredUpTo(w, b, geo, wx, wy, b.width, yy) && |w'| == |w|
    requires forall i | 0 <= i < |w| :: w'[i] == w[i].(slots := RowSlots(b, geo, yy, i, w[i].slots))
    ensures SameStores(w', w)
    ensures WiredUpTo(w', b, geo, wx, wy, b.width, yy + 1)
  {
    forall i, k | 0 <= i < |w| && 0 <= k < 8
      ensures w'[i].slots[k] == SlotAfter(b, geo, wx, wy, i, k, b.width, yy + 1)
    {
      SlotAfterLeftRight(b, geo, wx, wy, |w|, yy, i, k);
    }
    CellsWired(w', w, b, geo, wx, wy, b.width, yy + 1);
  }

  lemma LeftRightRowStep(w: seq<Cell>, b: CellBox, geo: Topology, wx: int, wy: int, yy: int)
    requires wx > 0 && wy > 0 && BoxFits(b, |w|) && 0 <= yy < b.height
    requires WiredUpTo(w, b, geo, wx, wy, b.width, yy)
    ensures SameStores(LeftRightRow(w, b, geo, yy), w)
    ensures WiredUpTo(LeftRightRow(w, b, geo, yy), b, geo, wx, wy, b.width, yy + 1)
  {
    LeftRightRowEffect(w, b, geo, yy);
    RowAdvances(w, LeftRightRow(w, b, geo, yy), b, geo, wx, wy, yy);
  }

  /** Every set slot sits in a box cell and carries its slot's offsets and
      weight; on a torus no slot of a box cell is left unset. */
  lemma WiredShape(b: CellBox, geo: Topology, wx: int, wy: int, i: int, k: int)
    requires b.stride > 0 && wx > 0 && wy > 0 && 0 <= k < 8
    ensures Wired(b, geo, wx, wy, i, k).Link? ==>
      && InBox(b, i)
      && Wired(b, geo, wx, wy, i, k).dx == DX(k)
      && Wired(b, geo, wx, wy, i, k).dy == DY(k)
      && Wired(b, geo, wx, wy, i, k).weight == WeightOf(k)
    ensures geo == Torus && InBox(b, i) ==> Wired(b, geo, wx, wy, i, k).Link?
  {
  }

  /** `SetPointers`: rebuild every cell's eight slots for the placement box
      `b` of a `wx` by `wy` world. Only the slots change; outside the box
      every slot is unset, and a set slot always carries its slot's fixed
      offset and weight. */
  method SetPointers(g: seq<Cell>, wx: int, wy: int, geo: Topology, b: CellBox) returns (w: seq<Cell>)
    requires wx > 0 && wy > 0 && |g| == wx * wy && BoxAccepted(b, |g|)
    ensures |w| == |g| && Shaped(w)
    ensures forall i | 0 <= i < |w| :: SameStore(w[i], g[i])
    ensures forall i, k | 0 <= i < |w| && 0 <= k < 8 :: w[i].slots[k] == Wired(b, geo, wx, wy, i, k)
    ensures forall i | 0 <= i < |w| && !InBox(b, i) :: w[i].slots == Unlinked
    ensures forall i, k | 0 <= i < |w| && 0 <= k < 8 && w[i].slots[k].Link? ::
      && InBox(b, i)
      && w[i].slots[k].dx == DX(k) && w[i].slots[k].dy == DY(k) && w[i].slots[k].weight == WeightOf(k)
    ensures geo == Torus ==> forall i, k | 0 <= i < |w| && InBox(b, i) && 0 <= k < 8 :: w[i].slots[k].Link?
  {
    var n := |g|;
    // First make all cells disconnected.
    w := seq(n, i requires 0 <= i < n => g[i].(slots := Unlinked));
    if EmptyBox(b) {
      // Every loop below is empty: the cleared grid is the result.
      EmptyBoxWired(w, g, b, geo, wx, wy);
    } else {
      // Next connect every box cell to its eight lattice neighbours.
      w := ConnectBox(w, wx, wy, b);
      ConnectedIsWired(w, b, geo, wx, wy);
      // Then the top and bottom edges, and the left and right edges.
      w := TopBottomPass(w, g, wx, wy, geo, b);
      w := LeftRightPass(w, g, wx, wy, geo, b);
    }
    WiringFinished(w, g, b, geo, wx, wy);
  }

  /** For the empty box the closed form is unset everywhere, so the cleared
      grid is already fully wired. */
  lemma EmptyBoxWired(w: seq<Cell>, g: seq<Cell>, b: CellBox, geo: Topology, wx: int, wy: int)
    requires wx > 0 && wy > 0 && EmptyBox(b) && |w| == |g|
    requires forall i | 0 <= i < |g| :: w[i] == g[i].(slots := Unlinked)
    ensures SameStores(w, g) && WiredUpTo(w, b, geo, wx, wy, b.width, b.height)
  {
  }

  /** Right after the connect pass the grid is wired up to no edge at all. */
  lemma ConnectedIsWired(w: seq<Cell>, b: CellBox, geo: Topology, wx: int, wy: int)
    requires wx > 0 && wy > 0 && BoxFits(b, |w|) && Shaped(w)
    requires ConnectedUpTo(w, b, wx, wy, b.height, 0)
    ensures WiredUpTo(w, b, geo, wx, wy, 0, 0)
  {
  }

  /** The top/bottom loop of `SetPointers`, one column at a time. */
  method TopBottomPass(w0: seq<Cell>, g: seq<Cell>, wx: int, wy: int, geo: Topology, b: CellBox) returns (w: seq<Cell>)
    requires wx > 0 && wy > 0 && BoxFits(b, |w0|)
    requires SameStores(w0, g) && WiredUpTo(w0, b, geo, wx, wy, 0, 0)
    ensures SameStores(w, g) && WiredUpTo(w, b, geo, wx, wy, b.width, 0)
  {
    w := w0;
    var xx := 0;
    while xx < b.width
      invariant 0 <= xx <= b.width
      invariant SameStores(w, g)
      invariant WiredUpTo(w, b, geo, wx, wy, xx, 0)
    {
      TopBottomColumnStep(w, b, geo, wx, wy, xx);
      w := TopBottomColumn(w, b, geo, xx);
      xx := xx + 1;
    }
  }

  /** The left/right loop of `SetPointers`, one row at a time. */
  method LeftRightPass(w0: seq<Cell>, g: seq<Cell>, wx: int, wy: int, geo: Topology, b: CellBox) returns (w: seq<Cell>)
    requires wx > 0 && wy > 0 && BoxFits(b, |w0|)
    requires SameStores(w0, g) && WiredUpTo(w0, b, geo, wx, wy, b.width, 0)
    ensures SameStores(w, g) && WiredUpTo(w, b, geo, wx, wy, b.width, b.height)
  {
    w := w0;
    var yy := 0;
    while yy < b.height
      invariant 0 <= yy <= b.height
      invariant SameStores(w, g)
      invariant WiredUpTo(w, b, geo, wx, wy, b.width, yy)
    {
      LeftRightRowStep(w, b, geo, wx, wy, yy);
      w := LeftRightRow(w, b, geo, yy);
      yy := yy + 1;
    }
  }

  /** Once both edge passes have run, every slot is the closed form's, so it
      is unset outside the box, carries its slot's offsets and weight when
      set, and is always set inside the box of a torus. */
  lemma WiringFinished(w: seq<Cell>, g: seq<Cell>, b: CellBox, geo: Topology, wx: int, wy: int)
    requires wx > 0 && wy > 0 && b.stride > 0
    requires SameStores(w, g) && WiredUpTo(w, b, geo, wx, wy, b.width, b.height)
    ensures forall i, k | 0 <= i < |w| && 0 <= k < 8 :: w[i].slots[k] == Wired(b, geo, wx, wy, i, k)
    ensures forall i | 0 <= i < |w| && !InBox(b, i) :: w[i].slots == Unlinked
    ensures forall i, k | 0 <= i < |w| && 0 <= k < 8 && w[i].slots[k].Link? ::
      && InBox(b, i)
      && w[i].slots[k].dx == DX(k) && w[i].slots[k].dy == DY(k) && w[i].slots[k].weight == WeightOf(k)
    ensures geo == Torus ==> forall i, k | 0 <= i < |w| && InBox(b, i) && 0 <= k < 8 :: w[i].slots[k].Link?
  {
    forall i, k | 0 <= i < |w| && 0 <= k < 8
      ensures w[i].slots[k].Link? ==>
        && InBox(b, i)
        && w[i].slots[k].dx == DX(k) && w[i].slots[k].dy == DY(k) && w[i].slots[k].weight == WeightOf(k)
      ensures geo == Torus && InBox(b, i) ==> w[i].slots[k].Link?
    {
      WiredShape(b, geo, wx, wy, i, k);
    }
    forall i | 0 <= i < |w| && !InBox(b, i)
      ensures w[i].slots == Unlinked
    {
      assert forall k | 0 <= k < 8 :: w[i].slots[k] == Unlinked[k];
    }
  }

  /** `ResizeClear`: a fresh `wx` by `wy` grid of empty cells wired for the
      placement box `b`. */
  method ResizeClear(wx: int, wy: int, geo: Topology, b: CellBox) returns (w: seq<Cell>)
    requires wx > 0 && wy > 0 && BoxAccepted(b, wx * wy)
    ensures |w| == wx * wy && Shaped(w)
    ensures forall i | 0 <= i < |w| :: w[i].amount == 0.0 && w[i].delta == 0.0 && w[i].initial == 0.0
    ensures forall i, k | 0 <= i < |w| && 0 <= k < 8 :: w[i].slots[k] == Wired(b, geo, wx, wy, i, k)
  {
    var empty := seq(wx * wy, _ => Blank);
    w := SetPointers(empty, wx, wy, geo, b);
  }
}
