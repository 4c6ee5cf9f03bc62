/** What the wiring built by `SetPointers` means: which slot of which box
    cell points where, on a bounded grid and on a torus. */
module WiringProps {
  import opened Geometry
  import opened Cells
  import opened Wiring

  /** The edge-slot sets are exactly the slots whose offset leaves the box
      on that side. */
  lemma SlotSides(k: int)
    requires 0 <= k < 8
    ensures LeftSlot(k) <==> DX(k) == -1
    ensures RightSlot(k) <==> DX(k) == 1
    ensures TopSlot(k) <==> DY(k) == -1
    ensures BottomSlot(k) <==> DY(k) == 1
    ensures -1 <= DX(k) <= 1 && -1 <= DY(k) <= 1
    ensures DX(Opposite(k)) == -DX(k) && DY(Opposite(k)) == -DY(k)
    ensures WeightOf(Opposite(k)) == WeightOf(k) && 0 <= Opposite(k) < 8
    ensures Opposite(Opposite(k)) == k
    ensures WeightOf(k) == Orth <==> DX(k) == 0 || DY(k) == 0
  {
  }

  /** Slot k of box cell (r, c) leaves the box across one of its edges. */
  predicate Crosses(b: CellBox, r: int, c: int, k: int)
  {
    || (r == FirstRow(b) && TopSlot(k))
    || (r == LastRow(b) && BottomSlot(k))
    || (c == FirstCol(b) && LeftSlot(k))
    || (c == LastCol(b) && RightSlot(k))
  }

  /** A slot crosses an edge exactly when its lattice neighbour is outside
      the box. */
  lemma CrossesIffOutside(b: CellBox, r: int, c: int, k: int)
    requires 0 <= k < 8 && InBoxRC(b, r, c)
    ensures Crosses(b, r, c, k) <==> !InBoxRC(b, r + DY(k), c + DX(k))
  {
    SlotSides(k);
  }

  /** A slot that does not cross the box's edge keeps the connect pass's
      lattice link, on either topology. */
  lemma WiredKeepsLattice(b: CellBox, geo: Topology, wx: int, wy: int, i: int, k: int)
    requires b.stride > 0 && wx > 0 && wy > 0 && 0 <= k < 8 && InBox(b, i)
    requires !Crosses(b, RowOf(b, i), ColOf(b, i), k)
    ensures Wired(b, geo, wx, wy, i, k) == Lattice(i, wx, wy, k)
  {
  }

  /** Inside a box laid out in its own world, a slot whose lattice
      neighbour is in the box points at that neighbour. */
  lemma WiredInside(b: CellBox, geo: Topology, wx: int, wy: int, i: int, k: int)
    requires WorldBox(b, wx, wy) && wy > 0 && 0 <= k < 8 && InBox(b, i)
    requires InBoxRC(b, RowOf(b, i) + DY(k), ColOf(b, i) + DX(k))
    ensures Wired(b, geo, wx, wy, i, k)
         == Link(At(b, RowOf(b, i) + DY(k), ColOf(b, i) + DX(k)), DX(k), DY(k), WeightOf(k))
  {
    var r, c := RowOf(b, i), ColOf(b, i);
    CrossesIffOutside(b, r, c, k);
    BoxCellAt(b, i);
    NeighborNoWrap(b, wx, wy, r, c, DX(k), DY(k));
  }

  /** Bounded grid: slot k of a box cell is unset exactly when it crosses
      the box's edge (top row 0 1 2, bottom row 4 5 6, left column 0 7 6,
      right column 2 3 4); every other slot keeps its lattice link. */
  lemma GridSeverance(b: CellBox, wx: int, wy: int, i: int, k: int)
    requires b.stride > 0 && wx > 0 && wy > 0 && 0 <= k < 8 && InBox(b, i)
    ensures Wired(b, Grid, wx, wy, i, k) == NoLink <==> Crosses(b, RowOf(b, i), ColOf(b, i), k)
    ensures !Crosses(b, RowOf(b, i), ColOf(b, i), k) ==> Wired(b, Grid, wx, wy, i, k) == Lattice(i, wx, wy, k)
  {
  }

  /** Bounded grid in its own world: a slot is set exactly when the lattice
      neighbour lies in the box, and then it points at that neighbour. */
  lemma GridLinksBoxNeighbours(b: CellBox, wx: int, wy: int, i: int, k: int)
    requires WorldBox(b, wx, wy) && wy > 0 && 0 <= k < 8 && InBox(b, i)
    ensures var r, c := RowOf(b, i), ColOf(b, i);
      Wired(b, Grid, wx, wy, i, k)
      == if InBoxRC(b, r + DY(k), c + DX(k))
         then Link(At(b, r + DY(k), c + DX(k)), DX(k), DY(k), WeightOf(k))
         else NoLink
  {
    var r, c := RowOf(b, i), ColOf(b, i);
    CrossesIffOutside(b, r, c, k);
    if InBoxRC(b, r + DY(k), c + DX(k)) {
      WiredInside(b, Grid, wx, wy, i, k);
    }
  }

  /** Bounded grid: every link has its reverse. If slot k of cell i points
      at j, then j is a box cell and its opposite slot points back at i with
      the negated offset and the same weight. */
  lemma GridReciprocal(b: CellBox, wx: int, wy: int, i: int, k: int)
    requires WorldBox(b, wx, wy) && wy > 0 && 0 <= k < 8 && InBox(b, i)
    requires Wired(b, Grid, wx, wy, i, k).Link?
    ensures var j := Wired(b, Grid, wx, wy, i, k).target;
      && InBox(b, j)
      && Wired(b, Grid, wx, wy, j, Opposite(k)) == Link(i, -DX(k), -DY(k), WeightOf(k))
  {
    var r, c := RowOf(b, i), ColOf(b, i);
    WorldBoxFits(b, wx, wy);
    GridLinksBoxNeighbours(b, wx, wy, i, k);
    var r', c' := r + DY(k), c + DX(k);
    var j := At(b, r', c');
    AtInBox(b, wx * wy, r', c');
    SlotSides(k);
    GridLinksBoxNeighbours(b, wx, wy, j, Opposite(k));
    BoxCellAt(b, i);
  }

  /** The row reached by stepping off the box's top or bottom on a torus. */
  function WrapRow(b: CellBox, v: int): int
  {
    if v < FirstRow(b) then LastRow(b) else if v > LastRow(b) then FirstRow(b) else v
  }

  function WrapCol(b: CellBox, v: int): int
  {
    if v < FirstCol(b) then LastCol(b) else if v > LastCol(b) then FirstCol(b) else v
  }

  /** Torus: each orthogonal slot of a box cell points at the neighbour one
      step away, wrapped to the opposite edge of the box: a top-row cell's
      slot 1 to the bottom row, a bottom-row cell's slot 5 to the top row, a
      left-column cell's slot 7 to the right column and a right-column
      cell's slot 3 to the left column, each in the same column or row. */
  lemma TorusOrthogonalWrap(b: CellBox, wx: int, wy: int, i: int, k: int)
    requires WorldBox(b, wx, wy) && wy > 0 && 0 <= k < 8 && k % 2 == 1 && InBox(b, i)
    ensures var r, c := RowOf(b, i), ColOf(b, i);
      Wired(b, Torus, wx, wy, i, k)
      == Link(At(b, WrapRow(b, r + DY(k)), WrapCol(b, c + DX(k))), DX(k), DY(k), Orth)
  {
    var r, c := RowOf(b, i), ColOf(b, i);
    if InBoxRC(b, r + DY(k), c + DX(k)) {
      WiredInside(b, Torus, wx, wy, i, k);
    } else {
      CrossesIffOutside(b, r, c, k);
      SlotSides(k);
    }
  }

  /** Torus: the diagonal slots of edge cells go to fixed corners of the
      box, whatever the cell's column or row. Slot 0 of any top-row or
      left-column cell goes to the bottom-right corner, slot 2 of any
      top-row or right-column cell to the bottom-left corner, slot 4 of any
      bottom-row or right-column cell to the top-left corner, and slot 6 of
      any bottom-row or left-column cell to the top-right corner. */
  lemma TorusEdgeDiagonals(b: CellBox, wx: int, wy: int, i: int)
    requires b.stride > 0 && wx > 0 && wy > 0 && InBox(b, i)
    ensures var r, c := RowOf(b, i), ColOf(b, i);
      && (r == FirstRow(b) || c == FirstCol(b) ==>
            Wired(b, Torus, wx, wy, i, 0) == Link(At(b, LastRow(b), LastCol(b)), -1, -1, Diag))
      && (r == FirstRow(b) || c == LastCol(b) ==>
            Wired(b, Torus, wx, wy, i, 2) == Link(At(b, LastRow(b), FirstCol(b)), 1, -1, Diag))
      && (r == LastRow(b) || c == LastCol(b) ==>
            Wired(b, Torus, wx, wy, i, 4) == Link(At(b, FirstRow(b), FirstCol(b)), 1, 1, Diag))
      && (r == LastRow(b) || c == FirstCol(b) ==>
            Wired(b, Torus, wx, wy, i, 6) == Link(At(b, FirstRow(b), LastCol(b)), -1, 1, Diag))
  {
  }

  /** Torus: every slot of every box cell points at a box cell. */
  lemma TorusClosed(b: CellBox, wx: int, wy: int, i: int, k: int)
    requires WorldBox(b, wx, wy) && wy > 0 && 0 <= k < 8 && InBox(b, i)
    ensures Wired(b, Torus, wx, wy, i, k).Link?
    ensures InBox(b, Wired(b, Torus, wx, wy, i, k).target)
  {
    var r, c := RowOf(b, i), ColOf(b, i);
    WorldBoxFits(b, wx, wy);
    if InBoxRC(b, r + DY(k), c + DX(k)) {
      WiredInside(b, Torus, wx, wy, i, k);
      AtInBox(b, wx * wy, r + DY(k), c + DX(k));
    } else {
      AtInBox(b, wx * wy, LastRow(b), LastCol(b));
      AtInBox(b, wx * wy, LastRow(b), FirstCol(b));
      AtInBox(b, wx * wy, FirstRow(b), LastCol(b));
      AtInBox(b, wx * wy, FirstRow(b), FirstCol(b));
      AtInBox(b, wx * wy, LastRow(b), c);
      AtInBox(b, wx * wy, FirstRow(b), c);
      AtInBox(b, wx * wy, r, LastCol(b));
      AtInBox(b, wx * wy, r, FirstCol(b));
    }
  }

  /** Stepping off the box and back on again returns to the start. */
  lemma WrapBack(b: CellBox, r: int, c: int, dx: int, dy: int)
    requires InBoxRC(b, r, c) && -1 <= dx <= 1 && -1 <= dy <= 1
    ensures WrapRow(b, WrapRow(b, r + dy) - dy) == r
    ensures WrapCol(b, WrapCol(b, c + dx) - dx) == c
    ensures InBoxRC(b, WrapRow(b, r + dy), WrapCol(b, c + dx))
  {
  }

  /** Torus: the orthogonal links are reciprocal. If slot k (odd) of cell i
      points at j, slot k + 4 (mod 8) of j points back at i. */
  lemma TorusOrthogonalReciprocal(b: CellBox, wx: int, wy: int, i: int, k: int)
    requires WorldBox(b, wx, wy) && wy > 0 && 0 <= k < 8 && k % 2 == 1 && InBox(b, i)
    ensures var j := Wired(b, Torus, wx, wy, i, k).target;
      && InBox(b, j)
      && Wired(b, Torus, wx, wy, j, Opposite(k)) == Link(i, -DX(k), -DY(k), Orth)
  {
    var r, c := RowOf(b, i), ColOf(b, i);
    WorldBoxFits(b, wx, wy);
    SlotSides(k);
    TorusOrthogonalWrap(b, wx, wy, i, k);
    var r', c' := WrapRow(b, r + DY(k)), WrapCol(b, c + DX(k));
    WrapBack(b, r, c, DX(k), DY(k));
    var j := At(b, r', c');
    AtInBox(b, wx * wy, r', c');
    TorusOrthogonalWrap(b, wx, wy, j, Opposite(k));
    BoxCellAt(b, i);
  }

  /** Torus: the diagonal links of non-corner edge cells are not
      reciprocal. In a 3 by 3 torus filling its world, the top-middle cell 1
      sends slot 0 to the bottom-right corner 8, but cell 8's slot 4 points
      at cell 0, not back at 1; and the true up-left wrap of cell 1 is 6. */
  lemma TorusDiagonalNotReciprocal(b: CellBox)
    requires b == CellBox(0, 0, 3, 3, 3)
    ensures WorldBox(b, 3, 3)
    ensures Wired(b, Torus, 3, 3, 1, 0) == Link(8, -1, -1, Diag)
    ensures Wired(b, Torus, 3, 3, 8, 4) == Link(0, 1, 1, Diag)
    ensures TrueTorus(b, 1, 0) == Link(6, -1, -1, Diag)
  {
    assert InBox(b, 1) && RowOf(b, 1) == 0 && ColOf(b, 1) == 1;
    TorusEdgeDiagonals(b, 3, 3, 1);
    assert InBox(b, 8) && RowOf(b, 8) == 2 && ColOf(b, 8) == 2;
    TorusEdgeDiagonals(b, 3, 3, 8);
  }

  /** The wiring a torus over the box would have: every slot points at the
      neighbour one step away, wrapped to the opposite edge of the box on
      both axes, diagonals included. */
  function TrueTorus(b: CellBox, i: int, k: int): Slot
    requires b.stride > 0 && 0 <= k < 8
  {
    if !InBox(b, i) then NoLink
    else Link(At(b, WrapRow(b, RowOf(b, i) + DY(k)), WrapCol(b, ColOf(b, i) + DX(k))), DX(k), DY(k), WeightOf(k))
  }

  /** One wrapped step (dx, dy) from a box cell lands on a box cell, and the
      wrapped step back lands where it started. */
  lemma TrueTorusStep(b: CellBox, wx: int, wy: int, i: int, dx: int, dy: int)
    requires WorldBox(b, wx, wy) && wy > 0 && InBox(b, i) && -1 <= dx <= 1 && -1 <= dy <= 1
    ensures var j := At(b, WrapRow(b, RowOf(b, i) + dy), WrapCol(b, ColOf(b, i) + dx));
      && InBox(b, j)
      && At(b, WrapRow(b, RowOf(b, j) - dy), WrapCol(b, ColOf(b, j) - dx)) == i
  {
    var r, c := RowOf(b, i), ColOf(b, i);
    var r', c' := WrapRow(b, r + dy), WrapCol(b, c + dx);
    WrapBack(b, r, c, dx, dy);
    WorldBoxFits(b, wx, wy);
    AtInBox(b, wx * wy, r', c');
    BoxCellAt(b, i);
  }

  /** On the true torus every link, diagonals included, is reciprocal. */
  lemma TrueTorusReciprocal(b: CellBox, wx: int, wy: int, i: int, k: int)
    requires WorldBox(b, wx, wy) && wy > 0 && 0 <= k < 8 && InBox(b, i)
    ensures TrueTorus(b, i, k).Link?
    ensures var j := TrueTorus(b, i, k).target;
      && InBox(b, j)
      && TrueTorus(b, j, Opposite(k)) == Link(i, -DX(k), -DY(k), WeightOf(k))
  {
    SlotSides(k);
    TrueTorusStep(b, wx, wy, i, DX(k), DY(k));
  }

  /** The built torus agrees with the true torus on every orthogonal slot
      and on every slot whose neighbour lies inside the box. */
  lemma TorusAgreesOffDiagonalEdges(b: CellBox, wx: int, wy: int, i: int, k: int)
    requires WorldBox(b, wx, wy) && wy > 0 && 0 <= k < 8 && InBox(b, i)
    requires k % 2 == 1 || InBoxRC(b, RowOf(b, i) + DY(k), ColOf(b, i) + DX(k))
    ensures Wired(b, Torus, wx, wy, i, k) == TrueTorus(b, i, k)
  {
    SlotSides(k);
    if k % 2 == 1 {
      TorusOrthogonalWrap(b, wx, wy, i, k);
    } else {
      WiredInside(b, Torus, wx, wy, i, k);
    }
  }
}
