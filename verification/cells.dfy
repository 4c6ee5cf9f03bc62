/** One lattice site (`cSpatialCountElem`): the resource amount, the pending
    change staged into it, its configured initial value, and eight directed
    neighbour slots. */
module Cells {

  /** `cResource::NONE`, the sentinel for "no neighbour" and "no amount". */
  const NONE: int := -99

  /** The two link lengths: 1.0 for orthogonal neighbours, the square root
      of two for diagonal ones. */
  datatype Weight = Orth | Diag

  /** A neighbour slot: unset (every field NONE in the source), or a target
      index with the column offset, row offset and length of the link. */
  datatype Slot = NoLink | Link(target: int, dx: int, dy: int, weight: Weight)

  datatype Cell = Cell(amount: real, delta: real, initial: real, slots: seq<Slot>)

  const Unlinked: seq<Slot> := [NoLink, NoLink, NoLink, NoLink, NoLink, NoLink, NoLink, NoLink]

  /** A default-constructed site: nothing stored, nothing staged. */
  const Blank: Cell := Cell(0.0, 0.0, 0.0, Unlinked)

  /** Every cell carries exactly eight slots. */
  predicate Shaped(g: seq<Cell>)
  {
    forall i | 0 <= i < |g| :: |g[i].slots| == 8
  }

  /** Two cells agree on everything but their slots. */
  predicate SameStore(a: Cell, b: Cell)
  {
    a.amount == b.amount && a.delta == b.delta && a.initial == b.initial
  }

  /** Two grids differ at most in their pending deltas. */
  predicate OnlyDeltas(g: seq<Cell>, h: seq<Cell>)
  {
    && |g| == |h|
    && forall i | 0 <= i < |g| ::
         g[i].amount == h[i].amount && g[i].initial == h[i].initial && g[i].slots == h[i].slots
  }

  function SetPtr(c: Cell, k: int, s: Slot): Cell
    requires 0 <= k < |c.slots|
  {
    c.(slots := c.slots[k := s])
  }

  /** The element's `Rate`: stage a change. */
  function RateCell(c: Cell, r: real): Cell
  {
    c.(delta := c.delta + r)
  }

  /** `Apto::Max` on amounts. */
  function Max(a: real, b: real): real
  {
    if a < b then b else a
  }

  /** The element's `State`: fold the staged change into the amount. */
  function FoldCell(c: Cell): Cell
  {
    c.(amount := c.amount + c.delta, delta := 0.0)
  }
}
