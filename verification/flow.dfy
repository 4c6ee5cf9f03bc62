/** The edge walk of `FlowAll`: every cell, slots 3 to 6 (right, down-right,
    down, down-left), skipping unset slots. The diffusion and gravity
    arithmetic of `FlowMatter` is not modelled; it is a parameter that
    computes how much moves along one edge, and the walk stages that amount
    out of one end and into the other. */
module Flow {
  import opened Cells
  import opened Staging

  /** The diffusion and gravity coefficients of one resource. */
  datatype Coeffs = Coeffs(xdiffuse: real, ydiffuse: real, xgravity: real, ygravity: real)

  /** All four coefficients are exactly zero: the walk is skipped. */
  predicate Still(c: Coeffs)
  {
    c.xdiffuse == 0.0 && c.ydiffuse == 0.0 && c.xgravity == 0.0 && c.ygravity == 0.0
  }

  /** One visited edge: from cell `from` through its slot `slot` to cell
      `to`, with the slot's offsets and length. */
  datatype Edge = Edge(from: int, slot: int, to: int, dx: int, dy: int, weight: Weight)

  /** The amount `FlowMatter` moves along an edge, from the state of its two
      end cells and the coefficients. */
  type Transfer = (Cell, Cell, Coeffs, Edge) -> real

  /** The half of the slots the walk looks at. */
  predicate Forward(k: int)
  {
    3 <= k <= 6
  }

  /** The edge slot k of cell i yields: none when the slot's target is not
      a cell index. */
  function SlotEdge(g: seq<Cell>, i: int, k: int): seq<Edge>
    requires Shaped(g) && 0 <= i < |g| && 0 <= k < 8
  {
    match g[i].slots[k]
    case NoLink => []
    case Link(t, dx, dy, w) => if t >= 0 then [Edge(i, k, t, dx, dy, w)] else []
  }

  /** Position (i, k) of the walk is a cell below |g| and a slot in 3..7;
      the end of the walk is cell |g|, slot 3. */
  predicate Position(g: seq<Cell>, i: int, k: int)
  {
    0 <= i <= |g| && 3 <= k <= 7 && (i == |g| ==> k == 3)
  }

  /** The edges the walk has visited on reaching cell i, slot k: those of
      cells 0..i-1, then those of slots 3..k-1 of cell i, in order. Slot 7
      of a cell is the same point as slot 3 of the next. */
  function Walk(g: seq<Cell>, i: int, k: int): seq<Edge>
    requires Shaped(g) && Position(g, i, k)
    decreases i, k
  {
    if k > 3 then Walk(g, i, k - 1) + SlotEdge(g, i, k - 1)
    else if i == 0 then []
    else Walk(g, i - 1, 7)
  }

  /** The edges `FlowAll` visits, in order. */
  function FlowEdges(g: seq<Cell>, c: Coeffs): seq<Edge>
    requires Shaped(g)
  {
    if Still(c) then [] else Walk(g, |g|, 3)
  }

  /** Edge e is the forward link slot e.slot of cell e.from holds. */
  predicate Visited(g: seq<Cell>, e: Edge)
    requires Shaped(g)
  {
    && 0 <= e.from < |g| && Forward(e.slot) && e.to >= 0
    && g[e.from].slots[e.slot] == Link(e.to, e.dx, e.dy, e.weight)
  }

  /** Edge e leaves from a point the walk passes before cell i, slot k. */
  predicate Reached(e: Edge, i: int, k: int)
  {
    e.from < i || (e.from == i && e.slot < k)
  }

  lemma {:induction false} WalkMembership(g: seq<Cell>, i: int, k: int, e: Edge)
    requires Shaped(g) && Position(g, i, k)
    ensures e in Walk(g, i, k) <==> Visited(g, e) && Reached(e, i, k)
    decreases i, k
  {
    if k > 3 {
      var a, b := Walk(g, i, k - 1), SlotEdge(g, i, k - 1);
      assert e in a + b <==> e in a || e in b;
      WalkMembership(g, i, k - 1, e);
    } else if i > 0 {
      WalkMembership(g, i - 1, 7, e);
    }
  }

  /** The walk visits exactly the set forward links: an edge is visited if
      and only if the coefficients are not all zero and some cell holds it
      in one of slots 3..6 with a target that is a cell index. */
  lemma FlowEdgesMembership(g: seq<Cell>, c: Coeffs, e: Edge)
    requires Shaped(g)
    ensures e in FlowEdges(g, c) <==> !Still(c) && Visited(g, e)
  {
    WalkMembership(g, |g|, 3, e);
  }

  /** Edge d comes before edge e in the walk: a lower cell, or the same
      cell and a lower slot. */
  predicate Precedes(d: Edge, e: Edge)
  {
    d.from < e.from || (d.from == e.from && d.slot < e.slot)
  }

  /** Edge p - 1 of s precedes edge p. */
  predicate StepInOrder(s: seq<Edge>, p: int)
    requires 0 < p < |s|
  {
    Precedes(s[p - 1], s[p])
  }

  /** Each edge of s precedes the next one. */
  predicate InWalkOrder(s: seq<Edge>)
  {
    forall p | 0 < p < |s| :: StepInOrder(s, p)
  }

  /** Every edge of s leaves from before cell i, slot k. */
  predicate AllReached(s: seq<Edge>, i: int, k: int)
  {
    forall p | 0 <= p < |s| :: Reached(s[p], i, k)
  }

  /** In a run in walk order, every edge precedes every later one. */
  lemma {:induction false} WalkOrderAll(s: seq<Edge>, p: int, q: int)
    requires InWalkOrder(s) && 0 <= p < q < |s|
    ensures Precedes(s[p], s[q])
    decreases q - p
  {
    assert StepInOrder(s, q);
    if p + 1 < q {
      WalkOrderAll(s, p, q - 1);
    }
  }

  /** Appending at most one edge of cell i, slot k to a walk that has not
      yet reached (i, k) keeps it in walk order. */
  lemma AppendInOrder(a: seq<Edge>, b: seq<Edge>, i: int, k: int)
    requires InWalkOrder(a) && AllReached(a, i, k)
    requires |b| <= 1 && forall p | 0 <= p < |b| :: b[p].from == i && b[p].slot == k
    ensures InWalkOrder(a + b) && AllReached(a + b, i, k + 1)
  {
    var s := a + b;
    forall p | 0 < p < |s|
      ensures StepInOrder(s, p)
    {
      if p < |a| {
        assert StepInOrder(a, p);
        assert s[p - 1] == a[p - 1] && s[p] == a[p];
      } else {
        assert s[p - 1] == a[p - 1] && s[p] == b[0];
      }
    }
    forall p | 0 <= p < |s|
      ensures Reached(s[p], i, k + 1)
    {
      if p < |a| {
        assert s[p] == a[p];
      } else {
        assert s[p] == b[p - |a|];
      }
    }
  }

  lemma {:induction false} WalkOrdered(g: seq<Cell>, i: int, k: int)
    requires Shaped(g) && Position(g, i, k)
    ensures InWalkOrder(Walk(g, i, k)) && AllReached(Walk(g, i, k), i, k)
    decreases i, k
  {
    if k > 3 {
      WalkOrdered(g, i, k - 1);
      AppendInOrder(Walk(g, i, k - 1), SlotEdge(g, i, k - 1), i, k - 1);
    } else if i > 0 {
      var s := Walk(g, i - 1, 7);
      WalkOrdered(g, i - 1, 7);
      forall p | 0 <= p < |s| ensures Reached(s[p], i, k) {
        assert Reached(s[p], i - 1, 7);
      }
    }
  }

  /** Each (cell, slot) pair is visited at most once: no edge is flowed
      twice from the same side. */
  lemma FlowEdgesOnce(g: seq<Cell>, c: Coeffs, p: int, q: int)
    requires Shaped(g) && 0 <= p < q < |FlowEdges(g, c)|
    ensures (FlowEdges(g, c)[p].from, FlowEdges(g, c)[p].slot) != (FlowEdges(g, c)[q].from, FlowEdges(g, c)[q].slot)
  {
    WalkOrdered(g, |g|, 3);
    WalkOrderAll(FlowEdges(g, c), p, q);
  }

  /** Every set slot names a cell of the grid, so the walk can index it. */
  predicate WellLinked(g: seq<Cell>)
    requires Shaped(g)
  {
    forall i, k | 0 <= i < |g| && 0 <= k < 8 && g[i].slots[k].Link? && g[i].slots[k].target >= 0 ::
      g[i].slots[k].target < |g|
  }

  /** Both ends of edge e are cells of a grid of `size` cells. */
  predicate Fits(e: Edge, size: int)
  {
    0 <= e.from < size && 0 <= e.to < size
  }

  /** Staging t out of cell a and into cell b changes only deltas, keeps
      their total, and leaves every other cell alone. */
  lemma MoveKeeps(g: seq<Cell>, a: int, b: int, t: real)
    requires 0 <= a < |g| && 0 <= b < |g|
    ensures OnlyDeltas(g, Rate(Rate(g, a, -t), b, t))
    ensures SumDelta(Rate(Rate(g, a, -t), b, t)) == SumDelta(g)
    ensures forall j | 0 <= j < |g| && j != a && j != b :: Rate(Rate(g, a, -t), b, t)[j] == g[j]
  {
    var h1 := Rate(g, a, -t);
    RateTotals(g, a, -t);
    RateTotals(h1, b, t);
  }

  /** `FlowMatter` on one edge: compute the transfer from the current state
      of both end cells, stage it out of `from` and into `to`. */
  function FlowMatter(g: seq<Cell>, c: Coeffs, move: Transfer, e: Edge): (h: seq<Cell>)
    requires Fits(e, |g|)
    ensures OnlyDeltas(g, h)
    ensures SumDelta(h) == SumDelta(g)
    ensures forall j | 0 <= j < |g| && j != e.from && j != e.to :: h[j] == g[j]
  {
    var t := move(g[e.from], g[e.to], c, e);
    MoveKeeps(g, e.from, e.to, t);
    Rate(Rate(g, e.from, -t), e.to, t)
  }

  /** Some edge of `es` ends at cell j. */
  predicate Touches(es: seq<Edge>, j: int)
  {
    exists n | 0 <= n < |es| :: es[n].from == j || es[n].to == j
  }

  /** `FlowMatter` over a run of edges, in order; an edge whose ends are not
      both cells (which a well-linked grid never yields) is passed over. */
  function FlowAlong(g: seq<Cell>, c: Coeffs, move: Transfer, es: seq<Edge>): seq<Cell>
    decreases |es|
  {
    if |es| == 0 then g
    else
      var h := if Fits(es[0], |g|) then FlowMatter(g, c, move, es[0]) else g;
      FlowAlong(h, c, move, es[1..])
  }

  /** Flowing along any run of edges changes only deltas, keeps their
      total, and leaves alone every cell no edge touches. */
  lemma {:induction false} FlowAlongKeeps(g: seq<Cell>, c: Coeffs, move: Transfer, es: seq<Edge>)
    ensures OnlyDeltas(g, FlowAlong(g, c, move, es))
    ensures SumDelta(FlowAlong(g, c, move, es)) == SumDelta(g)
    ensures forall j | 0 <= j < |g| && !Touches(es, j) :: FlowAlong(g, c, move, es)[j] == g[j]
    decreases |es|
  {
    if |es| > 0 {
      var h := if Fits(es[0], |g|) then FlowMatter(g, c, move, es[0]) else g;
      FlowAlongKeeps(h, c, move, es[1..]);
      forall j | 0 <= j < |g| && !Touches(es, j)
        ensures FlowAlong(g, c, move, es)[j] == g[j]
      {
        assert es[0] == es[0 + 0];
        assert !Touches(es[1..], j) by {
          forall n | 0 <= n < |es[1..]| ensures es[1..][n].from != j && es[1..][n].to != j {
            assert es[1..][n] == es[n + 1];
          }
        }
      }
    }
  }

  /** Flowing along a + b is flowing along a, then along b. */
  lemma {:induction false} FlowAlongConcat(g: seq<Cell>, c: Coeffs, move: Transfer, a: seq<Edge>, b: seq<Edge>)
    ensures FlowAlong(g, c, move, a + b) == FlowAlong(FlowAlong(g, c, move, a), c, move, b)
    decreases |a|
  {
    if |a| > 0 {
      assert (a + b)[0] == a[0];
      assert (a + b)[1..] == a[1..] + b;
      var h := if Fits(a[0], |g|) then FlowMatter(g, c, move, a[0]) else g;
      FlowAlongConcat(h, c, move, a[1..], b);
    } else {
      assert a + b == b;
    }
  }

  /** A well-linked grid never makes the walk pass an edge over: both ends
      of every visited edge are cells. */
  lemma FlowEdgesFit(g: seq<Cell>, c: Coeffs, e: Edge)
    requires Shaped(g) && WellLinked(g) && e in FlowEdges(g, c)
    ensures Fits(e, |g|)
  {
    FlowEdgesMembership(g, c, e);
  }

  /** The body of the inner loop: read slot k of cell i and, when its
      target is a cell index, run `FlowMatter` along it. */
  function FlowSlot(g: seq<Cell>, h: seq<Cell>, c: Coeffs, move: Transfer, i: int, k: int): seq<Cell>
    requires Shaped(g) && WellLinked(g) && 0 <= i < |g| && 0 <= k < 8 && |h| == |g|
  {
    var s := g[i].slots[k];
    if s.Link? && s.target >= 0 then FlowMatter(h, c, move, Edge(i, k, s.target, s.dx, s.dy, s.weight)) else h
  }

  /** One step of the inner loop extends the walk by slot k of cell i. */
  lemma FlowAllStep(g: seq<Cell>, c: Coeffs, move: Transfer, i: int, k: int, h: seq<Cell>)
    requires Shaped(g) && WellLinked(g) && 0 <= i < |g| && 3 <= k <= 6
    requires h == FlowAlong(g, c, move, Walk(g, i, k))
    ensures |h| == |g|
    ensures FlowAlong(g, c, move, Walk(g, i, k + 1)) == FlowSlot(g, h, c, move, i, k)
  {
    var done := Walk(g, i, k);
    var step := SlotEdge(g, i, k);
    assert Walk(g, i, k + 1) == done + step;
    FlowAlongConcat(g, c, move, done, step);
    FlowAlongKeeps(g, c, move, done);
    var s := g[i].slots[k];
    if s.Link? && s.target >= 0 {
      var e := Edge(i, k, s.target, s.dx, s.dy, s.weight);
      assert step == [e];
      assert Fits(e, |h|);
      assert FlowAlong(h, c, move, [e]) == FlowAlong(FlowMatter(h, c, move, e), c, move, []);
    } else {
      assert step == [];
    }
  }

  /** Slot 7 of cell i is where cell i + 1 begins. */
  lemma NextCell(g: seq<Cell>, i: int)
    requires Shaped(g) && 0 <= i < |g|
    ensures Walk(g, i + 1, 3) == Walk(g, i, 7)
  {
  }

  /** The inner loop of `FlowAll` for cell i: slots 3..6 in order. */
  method FlowCell(g: seq<Cell>, c: Coeffs, move: Transfer, i: int, h: seq<Cell>) returns (h': seq<Cell>)
    requires Shaped(g) && WellLinked(g) && 0 <= i < |g|
    requires h == FlowAlong(g, c, move, Walk(g, i, 3))
    ensures h' == FlowAlong(g, c, move, Walk(g, i + 1, 3))
  {
    h' := h;
    var k := 3;
    while k <= 6
      invariant 3 <= k <= 7
      invariant h' == FlowAlong(g, c, move, Walk(g, i, k))
    {
      FlowAllStep(g, c, move, i, k, h');
      h' := FlowSlot(g, h', c, move, i, k);
      k := k + 1;
    }
    NextCell(g, i);
  }

  /** `FlowAll()`: unless every coefficient is zero, visit slots 3..6 of
      every cell and run `FlowMatter` on each whose target is a cell index.
      The result is the edge-by-edge flow along `FlowEdges`; only deltas
      change, their total is kept, and a cell no visited edge touches is
      left alone. */
  method FlowAll(g: seq<Cell>, c: Coeffs, move: Transfer) returns (h: seq<Cell>)
    requires Shaped(g) && WellLinked(g)
    ensures h == FlowAlong(g, c, move, FlowEdges(g, c))
    ensures OnlyDeltas(g, h) && SumDelta(h) == SumDelta(g) && SumAmount(h) == SumAmount(g)
    ensures Still(c) ==> h == g
    ensures forall j | 0 <= j < |g| && !Touches(FlowEdges(g, c), j) :: h[j] == g[j]
  {
    if Still(c) {
      return g;
    }
    h := g;
    var i := 0;
    while i < |g|
      invariant 0 <= i <= |g|
      invariant h == FlowAlong(g, c, move, Walk(g, i, 3))
    {
      h := FlowCell(g, c, move, i, h);
      i := i + 1;
    }
    FlowAlongKeeps(g, c, move, FlowEdges(g, c));
    SumAmountPointwise(g, h);
  }
}
