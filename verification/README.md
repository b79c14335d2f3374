# Hexagonal layout manager: grid bookkeeping and control panel

This project is a Dafny model of the two custom elements of the hexagonal
layout manager:

- `HexagonalLayoutManager` (src/draw.js) keeps a table of hexagonal cells, one
  per (row, col). Each cell has a fill and a `collide` flag. On top of the
  table it keeps a list of placed shapes and an undo history. It places
  tiles, HQs and mud patches from offset tables; `[start, end]` rows expand
  into runs of columns. Before a tile or an HQ is placed it checks for
  collisions. Ctrl+Z undoes the last placement. `draw` sizes the grid from
  the `width` and `height` attributes and replays a shape list.
- `HexagonalLayoutManagerCtrl` (src/ctrl.js) is the control panel. It holds a
  three-state placement mode with two selector buttons whose `selected`
  marks follow the mode. It turns a cell click into `drawHQ`, `drawTile` or
  the label dialog, and offers save, load and clear actions against the
  grid's store.

The model has five modules:

- `Cells`: the cell record, `Array.find` lookup and the column-major layout
  that `drawGrid` builds.
- `Footprints`: coordinate rows, range expansion, the probes of the
  collision check, and the tile and HQ tables. A hexagonal distance serves as
  an independent definition of the HQ footprint.
- `Painting`: specification functions for one `_drawShape` walk
  (`PaintSeq`), one undo (`UndoSeq`) and a replay of a shape list
  (`Replay`), with their lemmas.
- `Draw`: the class `LayoutManager`. Its fields are the cell table, the
  shapes, the history, the grid options, the attributes and the store.
- `Ctrl`: the class `LayoutControl`. Its fields are the mode, the button
  marks (an array), the dialog and the grid it drives.

The methods of both classes change their fields in place. Each method is
proved against the specification functions.

A polygon in the history is identified by the grid generation that created
it and its index in that generation's table. `drawGrid` starts a new
generation. So undoing an entry recorded before a redraw touches polygons
that are no longer on screen, and the visible table does not change.

`_drawShape` does not check that an offset names an existing cell. When one
does not, the walk throws after repainting the cells before it. The model
keeps this as the outcome `Crashed`: the partial repaint stays, and no shape
record or history entry is pushed. Callers see it as `Failed`, or as `ok ==
false`. So a tile or HQ with no colliding cell can still fail: the collision
check ignores offsets that have no cell, and `_drawShape` then throws on
them. `Draw.HQOnFirstColumnThrows` shows it for an HQ anchored in the first
column of a fresh grid: no cell collides, yet its first offset (0, -1) has
no cell and the walk throws.

The HQ table holds the anchor and its six neighbours;
`Footprints.HQFootprint` proves it is the hexagonal disc of radius one.

## Model

| member | source | states |
|---|---|---|
| Cells.NewGrid | src/draw.js:200-214 | `drawGrid` builds cols*rows cells, all white, none colliding, none tagged |
| Cells.Lookup | src/draw.js:172-174 | the index found is inside the table |
| Cells.LookupFinds | src/draw.js:172-174 | `find` returns the first cell at (row, col), and returns nothing exactly when no cell is there |
| Cells.LookupLaid | src/draw.js:197-214 | in a table `drawGrid(cols, rows)` laid out, lookup finds the unique cell at index col*rows+row for a position inside the bounds, and nothing outside them |
| Cells.NewGridLaid | src/draw.js:197-214 | a fresh grid holds cols*rows cells, cell i at row i % rows and column i / rows, none tagged as part of an HQ |
| Cells.LaidCellAt | src/draw.js:200-214 | every cell of a laid-out table lies inside the bounds, at index col*rows+row |
| Cells.LookupSameLayout | src/draw.js:172-174 | lookup reads only positions, so repainting never changes what a later lookup finds |
| Cells.LaidSameLayout | src/draw.js:253-256 | a table with the same positions and tags as a laid-out one is laid out too, and untagged if it was |
| Footprints.Expand | src/draw.js:160-168 | the `while (start <= end)` loop yields end-start+1 offsets (none when start > end), all in row idx |
| Footprints.RowOffsets | src/draw.js:157-169 | a range row `[start, end]` is walked as end-start+1 offsets, none when start > end (their contents are stated by `ExpandContents`) |
| Footprints.Footprint | src/draw.js:156-186 | the footprint is at least as long as its last row's offsets; that rows are walked in order, each appending its offsets, is stated by `FootprintPrefix`, and that every offset comes from some row by `FootprintFromRows` |
| Footprints.FootprintFromRows | src/draw.js:156-186 | every offset of the footprint is an offset of one of the shape's rows |
| Footprints.RowProbes | src/draw.js:137-146 | the collision check probes only offsets the row paints, and nothing for a range row |
| Footprints.Probes | src/draw.js:137-146 | every probed offset is one that `_drawShape` paints, for either anchor parity |
| Footprints.HQCoords | src/draw.js:112-122 | `drawHQ`'s table is three pair rows for an odd anchor row and four for an even one |
| Footprints.ExpandContents | src/draw.js:157-169 | a range row `[start, end]` at index idx expands to end-start+1 offsets (none when start > end); the k-th is (idx, start+k-shift), with shift 1 when the anchor row is odd and idx even |
| Footprints.FootprintPrefix | src/draw.js:156-186 | the rows are walked in order: the footprint of the first k+1 rows is that of the first k followed by row k, and is a prefix of the whole |
| Footprints.ProbesOfPairs | src/draw.js:135-148 | for a shape of pair rows only, the collision check probes exactly the offsets `_drawShape` paints |
| Footprints.HQFootprint | src/draw.js:112-122 | for either parity of the anchor row, the HQ footprint has 7 distinct offsets; they are exactly the cells at most one hexagon step from the anchor, and the collision check probes all of them |
| Footprints.NearAnchor | src/draw.js:113-122 | an offset is in the HQ table of the anchor's parity exactly when it is within one step of the anchor |
| Painting.Repaint | src/draw.js:253-256 | repainting sets the fill and `!!collide` from the options, adds a label when asked, and keeps the position and tag |
| Painting.PaintStep | src/draw.js:171-186 | one offset: after a throw nothing changes; an offset with no cell throws; otherwise the cell's fill is recorded and the cell repainted (its properties are stated by the lemmas on `PaintSeq` below) |
| Painting.PaintSeq | src/draw.js:171-186 | the walk over the footprint's offsets in order, stopping at the first throw (its properties are stated by `PaintDoneIff`, `PaintRecords`, `PaintCells` and the lemmas after them) |
| Painting.Restore | src/draw.js:239-245 | undo of one polygon gives back its recorded fill with `collide` false, removes the recorded label, and keeps the position and tag |
| Painting.UndoStep | src/draw.js:239-245 | one record changes at most the polygon it names, and nothing when that polygon belongs to an earlier generation |
| Painting.UndoSeq | src/draw.js:239-245 | undoing an entry keeps the table's size |
| Painting.Blocked | src/draw.js:139-144 | a probe blocks only on an existing cell at that position whose polygon collides, so nothing blocks on a table with no colliding cell |
| Painting.Replay | src/draw.js:342-346 | the shapes drawn in order, each pushing its record and entry, until one throws (its properties are stated by `ReplayShapes`, `ReplayOkIff` and the lemmas after them) |
| Painting.PaintDoneIff | src/draw.js:172-176 | the walk completes exactly when every offset of the footprint resolves to an existing cell |
| Painting.PaintCrashSticks | src/draw.js:172-176 | once the walk has thrown, the remaining offsets change nothing |
| Painting.PaintLayout | src/draw.js:253-256 | painting, complete or not, keeps every cell's position and tag |
| Painting.PaintRecords | src/draw.js:175-185 | a completed walk records one entry per offset, in footprint order, naming the cell the offset resolves to, with its label flag |
| Painting.PaintCells | src/draw.js:179 | a completed walk gives every covered cell the options' fill and `collide` flag and leaves every other cell as it was |
| Painting.PaintPriorFills | src/draw.js:175-178 | without repeated offsets, each record holds the fill its cell had before the shape was drawn |
| Painting.PaintRepainted | src/draw.js:179-184 | without repeated offsets, each covered cell is exactly the repaint of what it was |
| Painting.PaintBlocks | src/draw.js:256 | after a completed walk with `collide` set, every cell of the footprint blocks |
| Painting.UndoLayout | src/draw.js:239-244 | undo keeps every cell's position and tag |
| Painting.UndoStale | src/draw.js:194-197 | an entry recorded on an earlier grid generation leaves the current table unchanged |
| Painting.UndoRestores | src/draw.js:239-244 | undoing an entry of distinct current cells restores each named cell from its record: prior fill, `collide` false, recorded label removed |
| Painting.UndoUntouched | src/draw.js:239-244 | undo leaves every cell no record names unchanged |
| Painting.PaintUndo | src/draw.js:235-246 | drawing a footprint without repeats whose cells all exist and none collide, then undoing the entry, gives back exactly the table from before |
| Painting.ReplayShapes | src/draw.js:342-346 | a replay keeps the layout; one that completes pushes exactly the given list without labels and one history entry per shape |
| Painting.ReplayOkIff | src/draw.js:342-346 | a replay completes exactly when every shape's footprint resolves on the table it starts from |
| Painting.ReplayCrashSticks | src/draw.js:342-346 | once one shape of the list has thrown, the shapes after it change nothing |
| Painting.ReplayIgnoresLabels | src/draw.js:342-346 | replay draws the same with or without the records' labels |
| Painting.PaintAnyGen | src/draw.js:171-186 | the walk completes, and leaves the same cells, in any grid generation; the generation only names the recorded polygons |
| Painting.ReplayAnyGen | src/draw.js:342-346 | a replay completes, and draws the same cells and shape records, in any grid generation |
| Painting.ReplayPlaced | src/draw.js:171-191 | a placement that completes on the table a completed replay left gives the table, records and history of the replay of the list with the placed shape appended |
| Painting.ReplaySavedList | src/draw.js:342-346 | the list a completed replay pushed, replayed in a later generation on the same starting table, draws the same cells and the same shape records, and what the original list draws in that generation |
| Draw.EntityOpts | src/draw.js:105-107 | a placement's options copy the grid's, with the entity's fill, and `collide` set when the entity blocks |
| Draw.InnerMudShapes | src/draw.js:66-95 | `drawInnerMud` draws seven unlabelled shapes, the first one blocking |
| Draw.CanvasSize | src/draw.js:320-321 | width is the attribute or 500; height is the attribute when non-zero, the width when the attribute is missing and the width non-zero, else 500 |
| Draw.Fit | src/draw.js:333-335 | the number of cells is the largest n with 30*n not above the pixel size (`Math.floor`) |
| Draw.StorageKey | src/draw.js:44-53 | the page-storage key is `HexGrid:` followed by the key, so distinct keys never share an entry |
| Draw.SetLabelAt | src/ctrl.js:225-228 | writing a label changes that record's label only, and nothing when the record is gone |
| Draw.LayoutManager.constructor | src/draw.js:349-353 | the element starts with no shapes and no history, on the empty grid sized from its attributes |
| Draw.LayoutManager.DrawGrid | src/draw.js:194-221 | the table becomes the fresh cols-by-rows grid, column by column; shapes and history are left as they were; a new generation begins |
| Draw.LayoutManager.ShapeCollide | src/draw.js:135-148 | the result is true exactly when a probed offset resolves to an existing cell that collides |
| Draw.LayoutManager.DrawShape | src/draw.js:150-192 | the table becomes the outcome of the footprint walk; a shape record and a history entry are pushed exactly when it completes; the layout is kept |
| Draw.LayoutManager.PaintFootprint | src/draw.js:156-186 | the rows are walked in order; the table becomes the walk's outcome, the entry holds the records of a completed walk, and nothing else changes |
| Draw.LayoutManager.ExpandRange | src/draw.js:157-169 | the `while` loop builds the range row's expansion |
| Draw.LayoutManager.RowOf | src/draw.js:156-169 | each row becomes the offsets it stands for, pairs as they are and ranges expanded |
| Draw.LayoutManager.PaintRow | src/draw.js:171-186 | one row's `forEach` continues the walk, or throws on the first offset with no cell |
| Draw.LayoutManager.DrawShapes | src/draw.js:342-346 | the shapes are drawn in order, after the existing shapes and history, until one throws |
| Draw.LayoutManager.DrawTile | src/draw.js:97-110 | a collision changes nothing; otherwise the single cell is drawn with hue 200 and `collide` set |
| Draw.LayoutManager.DrawHQ | src/draw.js:112-133 | a collision changes nothing; otherwise the HQ table of the anchor's parity is drawn with hue 110 and `collide` set |
| Draw.LayoutManager.DrawMud | src/draw.js:56-64 | the mud table is drawn with hue 40 and the grid's `collide` (false), without a collision check |
| Draw.LayoutManager.DrawInnerMud | src/draw.js:66-95 | the seven inner-mud shapes are drawn in order without a collision check, ending at the first that throws |
| Draw.LayoutManager.Undo | src/draw.js:235-246 | with an empty history it fails and changes nothing; otherwise it pops the last shape and entry and undoes that entry on the table |
| Draw.LayoutManager.Draw | src/draw.js:318-347 | a fresh grid sized from the attributes, then the list replayed on it after the existing shapes and history |
| Draw.LayoutManager.AttributeChanged | src/draw.js:359-363 | a new `width` or `height` redraws the empty grid at the new size, keeping shapes and history; other names change nothing |
| Draw.LayoutManager.StorageSet | src/draw.js:44-46 | the list is stored under the prefixed key, and nothing else changes |
| Draw.LayoutManager.StorageGet | src/draw.js:48-53 | the stored list, or nothing when the key was never set |
| Draw.LayoutManager.SetLabel | src/ctrl.js:225-228 | the shape list becomes `SetLabelAt` of the old one |
| Draw.LayoutManager.Reload | src/ctrl.js:141-144 | a page reload leaves no shapes and no history, the empty grid from the unchanged attributes with the default options in a new generation, and the store as it was |
| Draw.DrawnShapeEffect | src/draw.js:171-191 | a completed placement repainted every covered cell with its fill and flag, left the others alone, and recorded one entry per offset in order |
| Draw.PlacedBlocksTiles | src/draw.js:102-104 | a tile anchored on any cell of a completed blocking placement collides |
| Draw.HQOnFirstColumnThrows | src/draw.js:112-133 | an HQ anchored in the first column of a fresh grid passes the collision check, yet its walk throws on offset (0, -1) |
| Draw.HQUndo | src/draw.js:124-131 | an HQ placed without collision and then undone leaves the table exactly as before |
| Ctrl.Toggle | src/ctrl.js:155-159 | pressing the selected type clears the mode; pressing the other selects it directly, with no step through none |
| Ctrl.ToggleTwice | src/ctrl.js:155-159 | pressing the same selector twice from none, or from that type, comes back to where it started |
| Ctrl.LabelInput | src/ctrl.js:219-220 | the dialog's input shows the shape's label, or is empty when there is none |
| Ctrl.LayoutControl.constructor | src/ctrl.js:235-238 | the panel starts with no mode, no button marked and the dialog closed |
| Ctrl.LayoutControl.Select | src/ctrl.js:150-173 | every mark is cleared, the mode toggles, and only the button of the new mode is marked |
| Ctrl.LayoutControl.ClickSelectHQ | src/ctrl.js:150-161 | the mode becomes none from `hq` and `hq` otherwise; `select-hq` is marked exactly when `hq` is now selected |
| Ctrl.LayoutControl.ClickSelectTile | src/ctrl.js:162-173 | the mode becomes none from `tile` and `tile` otherwise; `select-tile` is marked exactly when `tile` is now selected |
| Ctrl.LayoutControl.ClickCell | src/ctrl.js:200-232 | `hq` mode runs `drawHQ` and `tile` mode runs `drawTile` on the cell's row and column; no mode places nothing; the dialog opens only on a tagged cell, on the last record; the mode never changes |
| Ctrl.LayoutControl.ConfirmLabel | src/ctrl.js:222-229 | a bound save button writes the input onto the record it was bound to and closes the dialog; an unbound one does nothing |
| Ctrl.LayoutControl.Save | src/ctrl.js:146-148 | the grid's shape list is stored under `hqs`; the table, shapes, history, attributes, options and generation stay |
| Ctrl.LayoutControl.Load | src/ctrl.js:136-139 | the list stored under `hqs` (empty when none) is replayed on a fresh grid, sized from the unchanged attributes in the next generation, after the existing shapes |
| Ctrl.LayoutControl.Refresh | src/ctrl.js:141-144 | the empty list is stored under `hqs`, then the page reloads: no shapes, a fresh grid sized from the unchanged attributes, no mode, dialog closed |

## Left out

- SVG and DOM construction, shadow roots, CSS, pixel origins, polygon points and label placement are not modelled. A cell keeps only its position, fill, `collide` flag, label count and HQ tag.
- `_generateColor` formatting is not modelled: a fill is the triple (hue, saturation %, lightness %).
- `window.localStorage` and JSON are not modelled. The store is a map from prefixed key to shape list, and a stored list is a value copy.
- `storage.add` is never called and is not modelled. As written it would store only the new value, not the extended list.
- Events and browser calls are not modelled: `CustomEvent` dispatch, listener wiring, `alert` (the `Collision` outcome), `showModal` and `close` (the `dialogOpen` flag), and `window.location.reload` (`Reload`).
- The tooltip on `tile-over` is not modelled. It is timer and DOM behaviour, and the grid never dispatches that event.
- Calling the panel's `draw` a second time is not modelled. It would bind every listener again.
- The `options` argument of the drawing methods is not modelled. Callers of `drawTile`, `drawHQ` and `drawMud` leave it empty. `draw` passes only `radius` to `drawGrid`, which is pixel geometry, so the model keeps only `indexes` as a parameter of `DrawGrid`.
- Attribute values are whole numbers or missing. `NaN` and fractional values of `getAttribute(..) * 1` are not modelled.
- The polygon tag `entityType === 'hq'` is the `entityHQ` flag of a cell. Nothing in the source sets it, and the model proves that `drawGrid` leaves every cell untagged and painting keeps it so. The editor branch of `ClickCell` is therefore modelled but unreachable from a fresh grid.
- Ctrl.LayoutControl.ConfirmLabel: a shape record is identified by its index, not by object identity. The source's listener keeps the object it first captured, even after undo removed that object from the list. The model instead writes to whatever record then sits at that index, or to nothing when the list has become shorter.
- Painting.ReplaySavedList: save then load gives back the saved cells only for a table that is a completed replay. `Painting.ReplayPlaced` shows that completed `drawTile`, `drawHQ` and `drawMud` placements keep the table a completed replay. Two things break the round trip. A placement that threw keeps its partial repaint with no record, so a load does not redraw those cells. An undo sets `collide` false on every cell it restores, so undoing a mud patch laid over a tile leaves the tile's cells not colliding, while a replay of the tile alone would make them collide. Labels written by the dialog are also dropped, because a replay pushes records without labels.
- A label on a polygon is a count. Which label element undo removes is not modelled.
- Once the `keyup` listener is bound it is never bound again; the model has no listener state.
- The mud coordinate tables are kept verbatim as data. No property about their shape is stated.
