/** The inflow and outflow rectangles and their normalisation by
    `CheckRanges`. */
module Ranges {
  import opened Geometry

  /** A rectangle of columns x1..x2 and rows y1..y2, both ends inclusive.
      After normalisation x2 may exceed the world width, meaning the range
      wraps past the right edge back to column 0 (likewise for rows). */
  datatype Rect = Rect(x1: int, y1: int, x2: int, y2: int)

  /** The two rectangles one resource carries. */
  datatype Flows = Flows(inflow: Rect, outflow: Rect)

  /** Clamp a coordinate into [0, hi]. */
  function Clamp(v: int, hi: int): (c: int)
    requires hi >= 0
    ensures 0 <= c <= hi
    ensures 0 <= v <= hi ==> c == v
    ensures v < 0 ==> c == 0
    ensures v > hi ==> c == hi
  {
    if v < 0 then 0 else if v > hi then hi else v
  }

  /** One axis: clamp both ends into [0, w], then, if the end lies before
      the start, move it one world further on so the range crosses zero. */
  function NormaliseAxis(lo: int, hi: int, w: int): (p: (int, int))
    requires w >= 0
    ensures 0 <= p.0 <= w && p.0 <= p.1 <= p.0 + w
    ensures p.0 == Clamp(lo, w)
    ensures Clamp(lo, w) <= Clamp(hi, w) ==> p.1 == Clamp(hi, w)
    ensures Clamp(hi, w) < Clamp(lo, w) ==> p.1 == Clamp(hi, w) + w
  {
    var a := Clamp(lo, w);
    var b := Clamp(hi, w);
    if b < a then (a, b + w) else (a, b)
  }

  /** One rectangle normalised against a `wx` by `wy` world. */
  function NormaliseRect(r: Rect, wx: int, wy: int): (n: Rect)
    requires wx >= 0 && wy >= 0
    ensures 0 <= n.x1 <= wx && n.x1 <= n.x2 <= n.x1 + wx
    ensures 0 <= n.y1 <= wy && n.y1 <= n.y2 <= n.y1 + wy
  {
    var xs := NormaliseAxis(r.x1, r.x2, wx);
    var ys := NormaliseAxis(r.y1, r.y2, wy);
    Rect(xs.0, ys.0, xs.1, ys.1)
  }

  /** `CheckRanges()`: normalise both rectangles. Afterwards each is
      non-empty, starts inside the world, and spans at most one world
      width and one world height past its start. */
  function CheckRanges(f: Flows, wx: int, wy: int): (n: Flows)
    requires wx >= 0 && wy >= 0
    ensures 0 <= n.inflow.x1 <= wx && n.inflow.x1 <= n.inflow.x2 <= n.inflow.x1 + wx
    ensures 0 <= n.inflow.y1 <= wy && n.inflow.y1 <= n.inflow.y2 <= n.inflow.y1 + wy
    ensures 0 <= n.outflow.x1 <= wx && n.outflow.x1 <= n.outflow.x2 <= n.outflow.x1 + wx
    ensures 0 <= n.outflow.y1 <= wy && n.outflow.y1 <= n.outflow.y2 <= n.outflow.y1 + wy
  {
    Flows(NormaliseRect(f.inflow, wx, wy), NormaliseRect(f.outflow, wx, wy))
  }

  /** A rectangle already inside the world and written low-to-high is left
      exactly as it is. */
  lemma NormaliseKeepsOrdered(r: Rect, wx: int, wy: int)
    requires 0 <= r.x1 <= r.x2 <= wx && 0 <= r.y1 <= r.y2 <= wy
    ensures NormaliseRect(r, wx, wy) == r
  {
  }

  /** Column (or row) c is swept by an axis range lo..hi that starts in
      [0, w): the loop visits lo, lo+1, ..., hi and reduces each modulo w. */
  predicate Swept(lo: int, hi: int, w: int, c: int)
    requires w > 0
  {
    Mod(c - lo, w) <= hi - lo
  }

  /** What normalisation means: for ends given inside the world, the
      normalised range sweeps exactly lo..hi when lo <= hi, and otherwise
      the wrap-around range lo..w-1 followed by 0..hi. */
  lemma {:induction false} NormaliseAxisSweeps(lo: int, hi: int, w: int, c: int)
    requires 0 <= lo < w && 0 <= hi < w && 0 <= c < w
    ensures var p := NormaliseAxis(lo, hi, w);
      Swept(p.0, p.1, w, c) <==> if lo <= hi then lo <= c <= hi else c >= lo || c <= hi
  {
    var p := NormaliseAxis(lo, hi, w);
    assert p.0 == lo;
    if c >= lo {
      DivModUnique(c - lo, w, 0, c - lo);
    } else {
      DivModUnique(c - lo, w, -1, c - lo + w);
    }
  }

  /** A normalised range sweeps one position twice exactly when it spans
      more than a world: that happens only when its start clamps to 0 and
      its end to the full width w. */
  lemma NormaliseAxisOverlap(lo: int, hi: int, w: int)
    requires w > 0
    ensures var p := NormaliseAxis(lo, hi, w);
      p.1 - p.0 + 1 > w <==> Clamp(lo, w) == 0 && Clamp(hi, w) == w
  {
  }
}
