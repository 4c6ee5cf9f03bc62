# Spatial resource grid (`cSpatialResCount`) in Dafny

This project models Avida's spatial resource grid, `cSpatialResCount`. One
resource is held on a `world_x` by `world_y` lattice of cells. Each cell
stores:

- an amount;
- a pending change (the "rate" buffer);
- an initial value;
- eight neighbour slots, numbered clockwise from up-left.

Changes are never written straight into the amount. `Rate` stages them, and
`State` / `StateAll` fold them in.

The model covers:

- **Neighbour graph.** `SetPointers` and `ResizeClear` build it for a
  placement box inside the world. There are two boundary rules: a bounded
  GRID, where edge slots are cut, and a TORUS, where edge slots wrap to the
  opposite side of the box.
- **Rectangles.** `CheckRanges` normalises the inflow and outflow
  rectangles. `Source` spreads a total over the inflow rectangle. `Sink`
  takes a share of each amount over the outflow rectangle.
- **Descriptor list.** `SetCellList`, `CellInflow` and `CellOutflow` walk
  the per-cell descriptor list.
- **Per-cell operations.** `Rate`/`State` by index and by coordinate,
  `RateAll`, `StateAll`, `GetAmount`, `SumAll`, `SetCellAmount` and
  `ResetResourceCounts`.
- **Flow.** The edge walk of `FlowAll` visits slots 3 to 6 of every cell and
  skips unset slots. The diffusion and gravity arithmetic of `FlowMatter` is
  a parameter: it says how much moves along an edge, and the walk stages
  that amount out of one end and into the other with two `Rate` calls.

Modules:

- **`Geometry`**: modular arithmetic, `GridNeighbor` and the placement box.
- **`Cells`**: the cell and slot datatypes.
- **`Wiring`**: graph construction.
- **`WiringProps`**: what the graph means.
- **`Staging`**: rate and state, sums, and order independence.
- **`Ranges`**: `CheckRanges`.
- **`Regions`**: `Source` and `Sink`.
- **`CellList`**: the descriptor list, `SetCellAmount` and resets.
- **`Flow`**: `FlowAll`.
- **`Scenarios`**: small worked worlds.

Conventions:

- A grid is a `seq<Cell>`. Amounts are `real`.
- `cResource::NONE` is taken to be -99.
- Dafny's `%` is the non-negative remainder, the same as AvidaTools' `Mod`.
- An out-of-range index passed to `Rate`/`State` is a precondition, because
  the source asserts there.
- The list operations can reach that assertion through a descriptor's index,
  so they return `AssertFails(record)` instead of requiring anything.

## Model

| member | source | states |
|---|---|---|
| Wiring.LatticeSlotsTable | avida-core/source/main/cSpatialResCount.cc:132-139 | A table check: the eight `SetPtr` calls of the connect pass, written out as `LatticeSlots`, agree slot by slot with the rule `Lattice` that the rest of the model uses. Slot k links to the world-wrapped neighbour at offset (DX(k), DY(k)) with weight WeightOf(k). |
| Wiring.ConnectBox | avida-core/source/main/cSpatialResCount.cc:123-141 | After the connect loops, every box cell's eight slots hold its wrapped lattice neighbours. Every cell outside the box keeps its cleared slots, and no stored value changes. |
| Wiring.TopBottomColumnCell | avida-core/source/main/cSpatialResCount.cc:146-187 | One column of the top/bottom pass rewrites only the top cell's slots 0 1 2 and the bottom cell's slots 4 5 6. On a GRID they become unset; on a TORUS they link to the wrapped row's corners and same column. Every other slot and every stored value is kept. |
| Wiring.TopBottomPass | avida-core/source/main/cSpatialResCount.cc:146-187 | After the whole top/bottom loop every slot of the grid equals the closed form with every column's edge links applied, and no stored value has changed. |
| Wiring.LeftRightRowCell | avida-core/source/main/cSpatialResCount.cc:190-233 | One row of the left/right pass rewrites only the left cell's slots 0 7 6 and the right cell's slots 2 3 4. On a GRID they become unset; on a TORUS they link to the wrapped column's corners and same row. Every other slot and every stored value is kept. |
| Wiring.LeftRightPass | avida-core/source/main/cSpatialResCount.cc:190-233 | After the whole left/right loop every slot equals the closed form with every column's and every row's edge links applied, the rows' links overriding the columns', and no stored value has changed. |
| Wiring.SetPointers | avida-core/source/main/cSpatialResCount.cc:102-234 | Only slots change. Each slot equals the closed form `Wired`, which is the connect pass overridden by the top/bottom pass and then by the left/right pass. Cells outside the box are unlinked. A set slot carries its slot's fixed offset and weight. On a torus every slot of a box cell is set. The empty box is accepted: its loops do nothing, so every slot is left unset. |
| Wiring.WiredShape | avida-core/source/main/cSpatialResCount.cc:109-233 | A set slot belongs to a box cell and carries its slot's offset and weight. On a torus no box slot is left unset. |
| Wiring.ResizeClear | avida-core/source/main/cSpatialResCount.cc:85-100 | The result is a fresh world_x*world_y grid of empty cells whose slots are exactly those `SetPointers` builds, for a fitting or an empty box. |
| WiringProps.SlotSides | avida-core/source/main/cSpatialResCount.cc:126-139 | Slots {0,1,2}, {4,5,6}, {0,6,7} and {2,3,4} are exactly the slots whose row or column offset leaves a cell upwards, downwards, leftwards or rightwards. The opposite slot (k+4 mod 8) negates both offsets and keeps the weight. |
| WiringProps.CrossesIffOutside | avida-core/source/main/cSpatialResCount.cc:145-233 | A slot that an edge pass rewrites for box cell (r, c) is exactly a slot whose lattice neighbour lies outside the box. |
| WiringProps.GridSeverance | avida-core/source/main/cSpatialResCount.cc:152-206 | On a GRID, a box cell's slot is unset if and only if it crosses the box edge. Otherwise it keeps its lattice link. |
| WiringProps.GridLinksBoxNeighbours | avida-core/source/main/cSpatialResCount.cc:123-206 | On a GRID, slot k of box cell (r, c) points at (r+dy, c+dx) when that cell is in the box, and is unset otherwise. |
| WiringProps.GridReciprocal | avida-core/source/main/cSpatialResCount.cc:123-206 | On a GRID every link is reciprocal. Its target is a box cell whose opposite slot points back with negated offsets and the same weight. |
| WiringProps.TorusOrthogonalWrap | avida-core/source/main/cSpatialResCount.cc:164-232 | On a TORUS, orthogonal slots point one step away and wrap to the opposite edge of the box, in the same row or column. |
| WiringProps.TorusEdgeDiagonals | avida-core/source/main/cSpatialResCount.cc:164-232 | On a TORUS, the diagonal slots of any top/bottom-row or left/right-column cell point at fixed corners of the box (c_0, c_2, c_4, c_6), whatever the cell's column or row. |
| WiringProps.TorusClosed | avida-core/source/main/cSpatialResCount.cc:164-232 | On a TORUS, every slot of every box cell is set and points at a box cell. |
| WiringProps.TorusOrthogonalReciprocal | avida-core/source/main/cSpatialResCount.cc:164-232 | On a TORUS, every orthogonal link is reciprocal. |
| WiringProps.TorusDiagonalNotReciprocal | avida-core/source/main/cSpatialResCount.cc:164-187 | On a 3×3 torus, cell 1's up-left slot points at cell 8, cell 8's down-right slot points at cell 0 (not back at cell 1), and the wrapped neighbour would have been cell 6. |
| WiringProps.TrueTorusReciprocal | avida-core/source/main/cSpatialResCount.cc:164-232 | On a torus that wraps diagonals per axis, every link, diagonals included, is reciprocal. |
| WiringProps.TorusAgreesOffDiagonalEdges | avida-core/source/main/cSpatialResCount.cc:164-232 | The TORUS wiring agrees with the per-axis wrap on every orthogonal slot and on every diagonal whose neighbour is inside the box. |
| Ranges.Clamp | avida-core/source/main/cSpatialResCount.cc:244-263 | A corner below 0 becomes 0, one above the extent becomes the extent, and one in [0, extent] is kept. |
| Ranges.NormaliseAxis | avida-core/source/main/cSpatialResCount.cc:244-268 | The start is the clamped start. The end is the clamped end, plus the extent exactly when the clamped end lies before the clamped start, so start ≤ end ≤ start + extent. |
| Ranges.CheckRanges | avida-core/source/main/cSpatialResCount.cc:236-296 | Both rectangles start in [0, world] and span at most one world extent past their start, on each axis. |
| Ranges.NormaliseKeepsOrdered | avida-core/source/main/cSpatialResCount.cc:244-268 | A rectangle already inside the world and ordered low to high is unchanged. |
| Ranges.NormaliseAxisSweeps | avida-core/source/main/cSpatialResCount.cc:265-268 | For ends inside the world, the normalised range sweeps column c if and only if lo ≤ c ≤ hi (ordered ends), or c ≥ lo or c ≤ hi (ends crossing zero). |
| Ranges.NormaliseAxisOverlap | avida-core/source/main/cSpatialResCount.cc:244-268 | A normalised range is longer than the world exactly when its start clamps to 0 and its end to the full extent. |
| Staging.GetAmount | avida-core/source/main/cSpatialResCount.cc:360-366 | An index on the grid reads that cell's amount; any other index, negative or past the end, reads the NONE sentinel instead of failing. |
| Staging.GetAmountXY | avida-core/source/main/cSpatialResCount.cc:370-376 | In range, the result is the amount at index y*world_x + x, which is a valid index. Out of range, it is the NONE sentinel. |
| Staging.Rate | avida-core/source/main/cSpatialResCount.cc:318-324 | Only the target cell's pending change moves, by exactly the rate. Amounts, initial values, slots and every other cell are unchanged. |
| Staging.RateXY | avida-core/source/main/cSpatialResCount.cc:328-334 | The same as `Rate`, at index y*world_x + x. |
| Staging.State | avida-core/source/main/cSpatialResCount.cc:339-345 | The cell's amount becomes amount + pending and its pending change becomes 0. Every other cell is unchanged. |
| Staging.StateXY | avida-core/source/main/cSpatialResCount.cc:350-356 | The same as `State`, at index y*world_x + x: that cell's amount absorbs its pending change, which becomes 0, its initial value and slots are kept, and every other cell is unchanged. |
| Staging.CoordinateIndex | avida-core/source/main/cSpatialResCount.cc:328-356 | A coordinate in range maps to a cell index that decodes back to the same column and row. |
| Staging.RateAll | avida-core/source/main/cSpatialResCount.cc:378-385 | Every cell's pending change grows by the rate, and nothing else changes. |
| Staging.StateAll | avida-core/source/main/cSpatialResCount.cc:390-397 | Every cell folds its pending change into its amount, and keeps its initial value and slots. |
| Staging.RateInvisibleUntilState | avida-core/source/main/cSpatialResCount.cc:318-366 | A `Rate` alone changes no `GetAmount` probe, on or off the grid. |
| Staging.RateThenState | avida-core/source/main/cSpatialResCount.cc:318-345 | `Rate` then `State` makes the rate visible in that cell's amount, and leaves every other cell alone. |
| Staging.SumAll | avida-core/source/main/cSpatialResCount.cc:427-436 | The loop returns the total amount over all cells. |
| Staging.SumAmountPointwise | avida-core/source/main/cSpatialResCount.cc:427-436 | Grids with equal amounts cell by cell have equal totals. |
| Staging.RateAllTotals | avida-core/source/main/cSpatialResCount.cc:378-385 | `RateAll` raises the total pending change by the number of cells times the rate and leaves the total amount unchanged. |
| Staging.RateTotals | avida-core/source/main/cSpatialResCount.cc:318-324 | One `Rate` raises the total pending change by the rate and leaves the total amount unchanged. |
| Staging.StateAllTotals | avida-core/source/main/cSpatialResCount.cc:390-397 | Folding conserves: the new total amount is the old total amount plus the old total pending, and nothing stays pending. |
| Staging.StateAllIsEachState | avida-core/source/main/cSpatialResCount.cc:339-397 | `StateAll` equals `State` applied to every index in turn. |
| Staging.RateBatch | avida-core/source/main/cSpatialResCount.cc:318-324 | A run of `Rate` calls raises each cell's pending change by the sum of the rates aimed at it, and nothing else changes. |
| Staging.RateBatchTotals | avida-core/source/main/cSpatialResCount.cc:318-324 | A run of `Rate` calls raises the total pending change by the sum of all its rates. |
| Staging.ValueForPermutation | avida-core/source/main/cSpatialResCount.cc:318-324 | Two call lists that are permutations of each other stage the same total into every cell. |
| Staging.RateOrderIndependent | avida-core/source/main/cSpatialResCount.cc:318-397 | Any reordering of the `Rate` calls of a step leaves the same grid, so the same amounts after `StateAll`. |
| Regions.Elem | avida-core/source/main/cSpatialResCount.cc:450 | The index the rectangle loops compute, Mod(i, world_y)*world_x + Mod(j, world_x), is always a cell index. |
| Regions.RectCellsCover | avida-core/source/main/cSpatialResCount.cc:448-453 | Every visited index is a cell. A cell is visited if and only if its row is swept by y1..y2 and its column by x1..x2, modulo the world. |
| Regions.RectCellsDistinct | avida-core/source/main/cSpatialResCount.cc:448-453 | A rectangle no wider and no taller than the world visits no cell twice. |
| Regions.VisitCount | avida-core/source/main/cSpatialResCount.cc:448-453 | An uncovered cell is visited 0 times. For a rectangle that fits the world, a covered cell is visited exactly once. |
| Regions.Source | avida-core/source/main/cSpatialResCount.cc:441-454 | Only pending changes move, and cells the inflow rectangle misses are untouched. A non-empty rectangle raises the total pending by exactly `amount` and leaves total amount unchanged. When the rectangle fits the world, each covered cell gains amount / (cells in the rectangle). An empty rectangle changes nothing. |
| Regions.CheckedNeverUnset | avida-core/source/main/cSpatialResCount.cc:236-296 | After `CheckRanges` no corner is NONE, so the `Sink` guard only catches rectangles that were never normalised. |
| Regions.Removal | avida-core/source/main/cSpatialResCount.cc:483 | What one `Sink` visit removes is never negative. |
| Regions.DrainingCells | avida-core/source/main/cSpatialResCount.cc:480-486 | Each cell's pending change drops by one removal per visit of the outflow loops. |
| Regions.Sink | avida-core/source/main/cSpatialResCount.cc:473-487 | An unset corner (NONE) makes `Sink` a no-op. Otherwise only pending changes move, and none rises. Uncovered cells are untouched. In a rectangle that fits the world, each covered cell loses exactly max(amount*(1-decay), 0). |
| Regions.SinkRetainsDecayFraction | avida-core/source/main/cSpatialResCount.cc:473-487 | With 0 ≤ decay ≤ 1, a rectangle that fits, and a non-negative amount, a covered cell folds to amount*decay + pending. |
| Regions.SinkCellNonNegative | avida-core/source/main/cSpatialResCount.cc:473-487 | One cell with non-negative amount and pending change, decay ≥ 0 and a rectangle that fits, still has amount + pending ≥ 0 after `Sink`. |
| Regions.SinkKeepsNonNegative | avida-core/source/main/cSpatialResCount.cc:473-487 | Under the same conditions for every cell, no amount is negative after `Sink` and `StateAll`. |
| CellList.CellInflow | avida-core/source/main/cSpatialResCount.cc:458-469 | Descriptors with an off-grid index are skipped. Every cell's pending change grows by the inflow of exactly the descriptors naming it, and nothing else changes. |
| CellList.CellInflowTotals | avida-core/source/main/cSpatialResCount.cc:458-469 | The total pending change grows by the inflow of the on-grid descriptors, and the total amount is unchanged. |
| CellList.OutflowLoop | avida-core/source/main/cSpatialResCount.cc:491-506 | The loop with its carried-over `deltaamount` completes if and only if every descriptor names a cell. Otherwise the assertion fires at the first one that does not. On completion each cell loses the sum of its descriptors' max(amount*outflow, 0), so a stale amount never reaches a cell. |
| CellList.CellOutflow | avida-core/source/main/cSpatialResCount.cc:491-506 | The same as `OutflowLoop`, for the whole list. |
| CellList.CellOutflowNeverAdds | avida-core/source/main/cSpatialResCount.cc:491-506 | A completed `CellOutflow` never raises a pending change. |
| CellList.LoadStep | avida-core/source/main/cSpatialResCount.cc:309-311 | Loading one more valid descriptor, with `Rate` + `State` + `SetInitial`, keeps the loaded-grid description. |
| CellList.SetCellList | avida-core/source/main/cSpatialResCount.cc:299-314 | With the `<=` guard, the list loads completely if and only if no descriptor names index size. Otherwise the `Rate` assertion fires at the first descriptor that does. A completed load folds each named cell's pending change and its descriptors' initial amounts into its amount, keeps the last descriptor's initial value, and leaves unnamed cells alone. |
| CellList.SetCellListChecked | avida-core/source/main/cSpatialResCount.cc:299-314 | With the guard `0 <= id < size`, the list always loads, with the same loaded-grid description. |
| CellList.LoadedUnique | avida-core/source/main/cSpatialResCount.cc:299-314 | The loaded-grid description fixes the grid uniquely. |
| CellList.SetCellListAgrees | avida-core/source/main/cSpatialResCount.cc:299-314 | When no descriptor names index size, the as-written and checked loads give the same grid. |
| CellList.SetCellListOffByOne | avida-core/source/main/cSpatialResCount.cc:308 | A single descriptor naming index size passes the `<=` guard and fires the assertion at record 0, where the checked guard skips it and leaves the grid unchanged. |
| CellList.SetCellAmount | avida-core/source/main/cSpatialResCount.cc:508-514 | A valid index gets the new amount and keeps its other fields. An invalid index changes nothing. Every other cell is unchanged. |
| CellList.SetCellAmountProbe | avida-core/source/main/cSpatialResCount.cc:508-514 | Every later `GetAmount` probe reads the new amount at the cell set and the old amount elsewhere, on or off the grid. |
| CellList.ResetResourceCounts | avida-core/source/main/cSpatialResCount.cc:517-525 | As written, exactly the cells in the box's rows and in world columns 0..width-1 are reset (amount = initial baseline, nothing pending). All others are unchanged. For the empty box nothing is reset. |
| CellList.ResetBoxCounts | avida-core/source/main/cSpatialResCount.cc:517-525 | With the box's column origin added, exactly the box's cells are reset. All others are unchanged. |
| CellList.ResetMissesShiftedBox | avida-core/source/main/cSpatialResCount.cc:521 | For a box not starting at column 0, the as-written loops skip the box's last column in its first row, and reset the cell at column 0 of that row, which is outside the box. |
| Flow.FlowEdgesMembership | avida-core/source/main/cSpatialResCount.cc:399-423 | An edge is visited if and only if some coefficient is non-zero and it is a set link in slot 3..6 of some cell with a non-negative target. |
| Flow.FlowEdgesOnce | avida-core/source/main/cSpatialResCount.cc:407-421 | No (cell, slot) pair is visited twice. |
| Flow.FlowMatter | avida-core/source/main/cSpatialResCount.cc:418-419 | One edge's transfer changes only pending changes, and only at the edge's two ends. Their total is unchanged. |
| Flow.FlowAlongKeeps | avida-core/source/main/cSpatialResCount.cc:407-422 | A run of edge transfers changes only pending changes, keeps their total, and leaves every untouched cell alone. |
| Flow.FlowAll | avida-core/source/main/cSpatialResCount.cc:399-423 | The nested loops compute the in-order flow along exactly the visited edges. All coefficients zero returns the grid unchanged. Only pending changes move, total pending and total amount are kept, and cells no visited edge touches are unchanged. |
| Flow.FlowEdgesFit | avida-core/source/main/cSpatialResCount.cc:414-419 | On a well-linked grid both ends of every visited edge are cells. |
| FlowLinks.WiredWellLinked | avida-core/source/main/cSpatialResCount.cc:102-234 | Every slot `SetPointers` sets names a cell of the grid. |
| FlowLinks.HalfSlotsCoverLinks | avida-core/source/main/cSpatialResCount.cc:409-412 | Visiting only slots 3..6 still flows every GRID link, and every TORUS orthogonal link. A link in slot 0, 1, 2 or 7 is visited from its target as the opposite forward link. |
| Scenarios.RateStateSum | avida-core/source/main/cSpatialResCount.cc:318-436 | On an empty 3×3 grid, `Rate(4, 10)`, `State(4)` then `SumAll()` gives 10. Cell 4 reads 10 and every other cell reads 0. |
| Scenarios.SourceSpreadsEvenly | avida-core/source/main/cSpatialResCount.cc:441-454 | On an empty 2×2 world with the inflow rectangle covering it, `Source(8)` then `StateAll()` leaves 2 in each cell. |
| Scenarios.SinkHalves | avida-core/source/main/cSpatialResCount.cc:473-487 | A 1×1 world holding 10, with `Sink(0.5)` then `StateAll()`, holds 5. |
| Scenarios.WideOutflowNormalises | avida-core/source/main/cSpatialResCount.cc:270-294 | On a 1×1 world the outflow columns 0..5 normalise to 0..1. |
| Scenarios.WideOutflowVisitsTwice | avida-core/source/main/cSpatialResCount.cc:480-486 | Those columns make the outflow loops visit cell 0 twice. |
| Scenarios.SinkOverdrawsDoubleCover | avida-core/source/main/cSpatialResCount.cc:473-487 | So a cell holding 1 with decay 0 ends at -1 after `Sink` and `StateAll`. |

## Where the code and its evident intent differ

The model follows the code in each of these cases:

- **`Sink` takes the complement of `decay`.** It removes amount·(1 − decay)
  per visit, and the cell keeps the fraction `decay`
  (`Regions.SinkRetainsDecayFraction`). The comment above `Sink`
  (cSpatialResCount.cc:471) says it takes away a given percentage, which
  reads as removing the fraction `decay`.
- **`Sink` can drive an amount negative.** The code clamps only the removal
  itself at 0. Non-negativity is proved when the outflow rectangle fits the
  world and decay ≥ 0, with non-negative amounts and pending changes
  (`Regions.SinkKeepsNonNegative`); these conditions are sufficient, not
  necessary.
  `CheckRanges` turns an over-wide rectangle such as columns 0..5 of a
  1-wide world into one that sweeps a column twice. `Sink` then removes the
  share twice (`Scenarios.SinkOverdrawsDoubleCover`).
- **TORUS diagonals are not symmetric.** The comment in `FlowAll`
  (cSpatialResCount.cc:409-410) walks only half the slots because flow is
  two-way, which assumes every used link has a reciprocal. On a TORUS the edge diagonals go to fixed box
  corners, so they are not reciprocal (see Findings). Orthogonal torus links
  and all GRID links are reciprocal.
- **The `Sink` guard can only fire before `CheckRanges`.** `CheckRanges`
  clamps a NONE corner to 0 (`Regions.CheckedNeverUnset`).

## Left out

- **Diffusion and gravity.** The arithmetic of `FlowMatter` (floating point,
  √2 weights) is not shown here. It is a parameter `move`, and the model
  assumes, as its own premise, that it stages equal and opposite `Rate`s
  (−t and +t) at the edge's two ends. Whether the real `FlowMatter` conserves mass
  is not claimed.
- **Edge weights.** These are an `Orth | Diag` tag, not the doubles 1.0 and
  √2.
- **Floating point.** Amounts are exact reals, not IEEE doubles, so
  rounding, infinities and NaN are out.
- **The `nGeometry::GLOBAL` topology.** It is out of the model. The edge
  passes treat every non-GRID topology as a torus, which `Topology.Torus`
  covers.
- **The constructors and the destructor** (lines 34-82). So are
  `m_modified`, the stored coefficients, and `cell_list_ptr` ownership. The
  list is passed to each list operation.
- **Stored dimensions.** `world_x`, `world_y` and `num_cells` are
  parameters, and `num_cells` is taken to equal the grid length.
- **Baseline and reset.** `m_initial` is a parameter `init`. The reset of a
  cell (`ResetResourceCount`) is taken to set the amount to `init` and clear
  the pending change.
- **Other files.** `cSpatialCountElem` and `cResource.h` are not part of
  this model. AvidaTools' `Mod` and `GridNeighbor` are modelled from their
  use here: a non-negative remainder, and a neighbour wrapped around the
  whole world.
- **Release builds.** `assert(false)` in `Rate` and `State` is modelled as
  the debug build sees it: a precondition for direct calls, and
  `AssertFails` for the list operations. In a release build the invalid
  call is skipped instead.
- **`Regions.Source`:** the per-cell share is stated only for rectangles no
  larger than the world. A larger one visits some cells more than once, and
  for that case the model states only the totals.
- **`Regions.Sink`:** the per-cell removal is stated only for rectangles no
  larger than the world, for the same reason. `Regions.DrainingCells` gives
  the general per-visit count.
- **Half-empty placement boxes.** `SetPointers`, `ResizeClear` and
  `ResetResourceCounts` accept a box that fits the world or the empty box
  (no rows and no columns, whose loops all do nothing). A box with zero
  width but some rows, or the reverse, is not modelled: one of its edge
  loops would index a cell outside the box (one column before it, or one
  row above it).
- **`Geometry.EmptyBox`:** the empty box is taken to have a positive stride
  (the world width). The loops ignore the stride when the box is empty, but
  the model's closed form `Wired` divides by it, so an empty box with
  stride 0 is not covered.

## Findings

| source | as written | input that shows it | evidently intended | confidence | as-written member | corrected member |
|---|---|---|---|---|---|---|
| avida-core/source/main/cSpatialResCount.cc:308 | `SetCellList` admits `cell_id <= grid.GetSize()` | a descriptor with id = size: `Rate` fires its assertion | `cell_id < grid.GetSize()`, as in `CellInflow`/`CellOutflow` | high, not executed | CellList.SetCellListOffByOne | CellList.SetCellListAgrees |
| avida-core/source/main/cSpatialResCount.cc:521 | `ResetResourceCounts` indexes `(cbox.GetY() + yy) * cbox.GetWorldX() + xx`, without `cbox.GetX()` | a box with x > 0: its last column is never reset, and column 0 left of the box is | `(cbox.GetY() + yy) * cbox.GetWorldX() + cbox.GetX() + xx`, as in the connect loop at line 126 | high, not executed | CellList.ResetMissesShiftedBox | CellList.ResetBoxCounts |
| avida-core/source/main/cSpatialResCount.cc:171-231 | on a TORUS, top/bottom/left/right edge cells point their diagonal slots at the fixed box corners c_0, c_2, c_4, c_6 | 3×3 torus: cell 1's slot 0 points at 8, and cell 8's slot 4 points at 0, not back at 1 | the diagonal neighbour wrapped per axis (cell 6 for cell 1) | medium, not executed | WiringProps.TorusDiagonalNotReciprocal | WiringProps.TrueTorusReciprocal |
