/** How the edge walk of `FlowAll` meets the graph `SetPointers` builds:
    every link it sets can be followed, and visiting only slots 3 to 6
    still reaches every reciprocal link. */
module FlowLinks {
  import opened Geometry
  import opened Cells
  import opened Wiring
  import opened WiringProps
  import opened Flow

  /** The slots `SetPointers` builds name cells of the grid. */
  lemma WiredWellLinked(g: seq<Cell>, b: CellBox, geo: Topology, wx: int, wy: int)
    requires wx > 0 && wy > 0 && |g| == wx * wy && BoxFits(b, |g|) && Shaped(g)
    requires forall i, k | 0 <= i < |g| && 0 <= k < 8 :: g[i].slots[k] == Wired(b, geo, wx, wy, i, k)
    ensures WellLinked(g)
  {
    forall i, k | 0 <= i < |g| && 0 <= k < 8 && g[i].slots[k].Link? && g[i].slots[k].target >= 0
      ensures g[i].slots[k].target < |g|
    {
      WiredTarget(b, geo, wx, wy, i, k);
    }
  }

  /** A set slot of a built graph targets a cell index. */
  lemma WiredTarget(b: CellBox, geo: Topology, wx: int, wy: int, i: int, k: int)
    requires wx > 0 && wy > 0 && BoxFits(b, wx * wy) && 0 <= k < 8
    requires Wired(b, geo, wx, wy, i, k).Link?
    ensures 0 <= Wired(b, geo, wx, wy, i, k).target < wx * wy
  {
    var size := wx * wy;
    AtInBox(b, size, LastRow(b), LastCol(b));
    AtInBox(b, size, LastRow(b), FirstCol(b));
    AtInBox(b, size, FirstRow(b), LastCol(b));
    AtInBox(b, size, FirstRow(b), FirstCol(b));
    if InBox(b, i) {
      var r, c := RowOf(b, i), ColOf(b, i);
      AtInBox(b, size, LastRow(b), c);
      AtInBox(b, size, FirstRow(b), c);
      AtInBox(b, size, r, LastCol(b));
      AtInBox(b, size, r, FirstCol(b));
    }
  }

  /** Visiting half the slots still reaches every link of a bounded grid
      (and every orthogonal link of a torus): a link in slot 0, 1, 2 or 7
      is flowed from the other end, as the forward link pointing back. */
  lemma HalfSlotsCoverLinks(g: seq<Cell>, b: CellBox, geo: Topology, wx: int, wy: int, c: Coeffs, i: int, k: int)
    requires wx > 0 && wy > 0 && |g| == wx * wy && WorldBox(b, wx, wy) && Shaped(g)
    requires forall i, k | 0 <= i < |g| && 0 <= k < 8 :: g[i].slots[k] == Wired(b, geo, wx, wy, i, k)
    requires !Still(c) && 0 <= i < |g| && 0 <= k < 8 && g[i].slots[k].Link?
    requires geo == Grid || k % 2 == 1
    ensures var s := g[i].slots[k];
      if Forward(k) then Edge(i, k, s.target, s.dx, s.dy, s.weight) in FlowEdges(g, c)
      else Edge(s.target, Opposite(k), i, -s.dx, -s.dy, s.weight) in FlowEdges(g, c)
  {
    WorldBoxFits(b, wx, wy);
    var s := g[i].slots[k];
    WiredShape(b, geo, wx, wy, i, k);
    WiredTarget(b, geo, wx, wy, i, k);
    if Forward(k) {
      FlowEdgesMembership(g, c, Edge(i, k, s.target, s.dx, s.dy, s.weight));
    } else {
      var j := s.target;
      if geo == Grid {
        GridReciprocal(b, wx, wy, i, k);
      } else {
        TorusOrthogonalReciprocal(b, wx, wy, i, k);
      }
      assert g[j].slots[Opposite(k)] == Link(i, -s.dx, -s.dy, s.weight);
      FlowEdgesMembership(g, c, Edge(j, Opposite(k), i, -s.dx, -s.dy, s.weight));
    }
  }
}
