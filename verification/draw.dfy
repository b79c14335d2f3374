/**
 * The grid component `HexagonalLayoutManager` (src/draw.js) as a class: the
 * cell table, the shape list, the undo history and the persisted store are
 * fields its methods update in place. Each method is proved against the
 * specification functions of `Painting`.
 */
module Draw {
  import opened Cells
  import opened Footprints
  import opened Painting

  /** The pixel diameter of one hexagon (`radius * 2` with radius 15). */
  const CellPixels := 30

  /** The fills `_generateColor` produces for the entities. */
  const TileColor := Hsla(200, 100, 50)
  const HQColor := Hsla(110, 100, 50)
  const MudColor := Hsla(40, 100, 50)
  const InnerMudColor := Hsla(20, 100, 50)
  const DropColor := Hsla(200, 20, 80)

  /** `drawMud`'s table: seventy-three `[start, end]` rows, each a run of columns. */
  const MudCoords: seq<CoordRow> := [
    Range(0, 36), Range(-1, 36), Range(-1, 37), Range(-2, 37), Range(-2, 38), Range(-3, 38), Range(-3, 39),
    Range(-4, 39), Range(-4, 40), Range(-5, 40), Range(-5, 41), Range(-6, 41), Range(-6, 42), Range(-7, 42),
    Range(-7, 43), Range(-8, 43), Range(-8, 44), Range(-9, 44), Range(-9, 45), Range(-10, 45), Range(-10, 46),
    Range(-11, 46), Range(-11, 47), Range(-12, 47), Range(-12, 48), Range(-13, 48), Range(-13, 49), Range(-14, 49),
    Range(-14, 50), Range(-15, 50), Range(-15, 51), Range(-16, 51), Range(-16, 52), Range(-17, 52), Range(-17, 53),
    Range(-18, 53), Range(-18, 54), Range(-18, 53), Range(-17, 53), Range(-17, 52), Range(-16, 52), Range(-16, 51),
    Range(-15, 51), Range(-15, 50), Range(-14, 50), Range(-14, 49), Range(-13, 49), Range(-13, 48), Range(-12, 48),
    Range(-12, 47), Range(-11, 47), Range(-11, 46), Range(-10, 46), Range(-10, 45), Range(-9, 45), Range(-9, 44),
    Range(-8, 44), Range(-8, 43), Range(-7, 43), Range(-7, 42), Range(-6, 42), Range(-6, 41), Range(-5, 41),
    Range(-5, 40), Range(-4, 40), Range(-4, 39), Range(-3, 39), Range(-3, 38), Range(-2, 38), Range(-2, 37),
    Range(-1, 37), Range(-1, 36), Range(0, 36)]

  /** The first table of `drawInnerMud`: thirty-seven range rows. */
  const InnerMudCoords: seq<CoordRow> := [
    Range(0, 18), Range(-1, 18), Range(-1, 19), Range(-2, 19), Range(-2, 20), Range(-3, 20), Range(-3, 21),
    Range(-4, 21), Range(-4, 22), Range(-5, 22), Range(-5, 23), Range(-6, 23), Range(-6, 24), Range(-7, 24),
    Range(-7, 25), Range(-8, 25), Range(-8, 26), Range(-9, 26), Range(-9, 27), Range(-9, 26), Range(-8, 26),
    Range(-8, 25), Range(-7, 25), Range(-7, 24), Range(-6, 24), Range(-6, 23), Range(-5, 23), Range(-5, 22),
    Range(-4, 22), Range(-4, 21), Range(-3, 21), Range(-3, 20), Range(-2, 20), Range(-2, 19), Range(-1, 19),
    Range(-1, 18), Range(0, 18)]

  /** The small patch `drawInnerMud` draws three times. */
  const PatchCoords: seq<CoordRow> := [
    Range(0, 4), Range(-1, 4), Range(-1, 5), Range(-2, 5), Range(-2, 6), Range(-2, 5), Range(-1, 5), Range(-1, 4), Range(0, 4)]

  /** The drop `drawInnerMud` draws three times. */
  const DropCoords: seq<CoordRow> := [Range(0, 2), Range(-1, 2), Range(-1, 3), Range(-1, 2), Range(0, 2)]

  /** `{...this._opts}` with a new fill style, and with `collide = true`
      when the entity blocks others. */
  function EntityOpts(grid: Opts, fill: Color, blocks: bool): (o: Opts)
    ensures o.fillStyle == fill && o.indexes == grid.indexes
    ensures o.collide == (blocks || grid.collide)
  {
    grid.(fillStyle := fill, collide := if blocks then true else grid.collide)
  }

  /** The seven shapes `drawInnerMud(x, y)` draws, in order: the blocking
      inner mud, three patches and three drops around it. */
  function InnerMudShapes(x: int, y: int, grid: Opts): (items: seq<Shape>)
    ensures |items| == 7
    ensures forall k :: 0 <= k < 7 ==> items[k].labelText.None? && items[k].opts.indexes == grid.indexes
    ensures items[0].opts.collide
  {
    var inner := EntityOpts(grid, InnerMudColor, true);
    var patch := EntityOpts(grid, InnerMudColor, false);
    var drop := EntityOpts(grid, DropColor, false);
    [ Shape(x, y, InnerMudCoords, inner, None),
      Shape(x - 3, y - 1, PatchCoords, patch, None),
      Shape(x + 13, y + 24, PatchCoords, patch, None),
      Shape(x + 31, y - 1, PatchCoords, patch, None),
      Shape(x - 1, y, DropCoords, drop, None),
      Shape(x + 15, y + 25, DropCoords, drop, None),
      Shape(x + 33, y, DropCoords, drop, None) ]
  }

  /** The canvas size `draw` reads from the `width` and `height`
      attributes (None: the attribute is missing or empty). */
  function CanvasSize(widthAttr: Option<int>, heightAttr: Option<int>): (size: (int, int))
    ensures size.0 == (if widthAttr.Some? then widthAttr.value else 500)
    ensures size.1 != 0
    ensures heightAttr.Some? && heightAttr.value != 0 ==> size.1 == heightAttr.value
    ensures heightAttr.None? ==> size.1 == (if size.0 != 0 then size.0 else 500)
    ensures heightAttr == Some(0) ==> size.1 == 500
  {
    var width := if widthAttr.Some? then widthAttr.value else 500;
    var height :=
      if heightAttr.None? && width != 0 then width
      else if heightAttr.Some? && heightAttr.value != 0 then heightAttr.value
      else 500;
    (width, height)
  }

  /** `Math.floor(pixels / 30)`: the number of whole cells that fit. */
  function Fit(pixels: int): (n: int)
    ensures CellPixels * n <= pixels < CellPixels * n + CellPixels
  {
    pixels / CellPixels
  }

  /** What `drawTile` and `drawHQ` report: the shape was drawn, the
      collision alert was raised and nothing was drawn, or `_drawShape`
      threw on an offset outside the grid. */
  datatype Outcome = Placed | Collision | Failed

  /** The page-storage key `storage` uses for its own key. */
  function StorageKey(key: string): (full: string)
    ensures |full| == |key| + 8 && full[..8] == "HexGrid:" && full[8..] == key
  {
    "HexGrid:" + key
  }

  /** The shape records after the label dialog wrote `text` on record k:
      that record alone gets the label; a record that no longer exists
      leaves the list as it is. */
  function SetLabelAt(shapes: seq<Shape>, k: int, text: string): (r: seq<Shape>)
    ensures |r| == |shapes|
    ensures forall j :: 0 <= j < |shapes| && j != k ==> r[j] == shapes[j]
    ensures 0 <= k < |shapes| ==> r[k] == shapes[k].(labelText := Some(text))
  {
    if 0 <= k < |shapes| then shapes[k := shapes[k].(labelText := Some(text))] else shapes
  }

  class LayoutManager {
    /** `_cells`. */
    var cells: seq<Cell>
    /** `_shapes`: one record per completed `_drawShape`. */
    var shapes: seq<Shape>
    /** `_history`: one entry per completed `_drawShape`. */
    var history: seq<seq<Prior>>
    /** How many times `drawGrid` has replaced the table. */
    var generation: nat
    /** `_opts`: the grid options shapes start from. */
    var gridOpts: Opts
    /** The page's local storage, by full key (`HexGrid:` + key). */
    var storage: map<string, seq<Shape>>
    /** The `width` and `height` attributes. */
    var widthAttr: Option<int>
    var heightAttr: Option<int>
    /** The dimensions of the current grid. */
    ghost var cols: nat
    ghost var rows: nat

    /** One shape record per history entry, and a table laid out as a
        cols-by-rows grid. */
    ghost predicate Valid()
      reads this
    {
      |shapes| == |history| && Laid(cells, cols, rows)
    }

    /** Everything but the table, the shapes and the history. */
    ghost function Config(): (nat, Opts, map<string, seq<Shape>>, Option<int>, Option<int>, nat, nat)
      reads this
    {
      (generation, gridOpts, storage, widthAttr, heightAttr, cols, rows)
    }

    /** The table, the shapes and the history are those the replay r
        produced, on top of the shapes s0 and history h0. */
    ghost predicate Extends(s0: seq<Shape>, h0: seq<seq<Prior>>, r: Replayed)
      reads this
    {
      cells == r.cells && shapes == s0 + r.shapes && history == h0 + r.entries
    }

    /** `_drawShape(x, y, coords, opts)` took the table c0, the shapes s0
        and the history h0 to the current ones: the cells are the outcome of
        the footprint's walk, and the shape record and history entry were
        pushed exactly when the walk completed (ok). */
    ghost predicate ShapeDrawn(c0: seq<Cell>, s0: seq<Shape>, h0: seq<seq<Prior>>, gen: nat,
                               x: int, y: int, coords: seq<CoordRow>, opts: Opts, ok: bool)
      reads this
    {
      var p := PaintSeq(c0, gen, x, y, Footprint(coords, IsOdd(x)), opts);
      ok == p.Done? && cells == p.cells &&
      shapes == (if ok then s0 + [Shape(x, y, coords, opts, None)] else s0) &&
      history == (if ok then h0 + [p.priors] else h0)
    }

    /** The element is created with its attributes and the page's storage,
        and draws an empty grid. */
    constructor(width: Option<int>, height: Option<int>, stored: map<string, seq<Shape>>)
      ensures Valid() && shapes == [] && history == []
      ensures widthAttr == width && heightAttr == height && storage == stored
      ensures var size := CanvasSize(width, height);
        cells == NewGrid(Extent(Fit(size.0)), Extent(Fit(size.1)), false)
      ensures gridOpts == Opts(White, false, false)
    {
      cells := [];
      shapes := [];
      history := [];
      generation := 0;
      gridOpts := Opts(White, false, false);
      storage := stored;
      widthAttr := width;
      heightAttr := height;
      cols, rows := 0, 0;
      new;
      Draw([]);
    }

    /** `drawGrid(cols, rows)`: a fresh table of white, non-colliding cells,
        column by column; the shapes and the history are left as they are. */
    method DrawGrid(numCols: int, numRows: int, indexes: bool)
      requires Valid()
      modifies this
      ensures cells == NewGrid(Extent(numCols), Extent(numRows), indexes)
      ensures cols == Extent(numCols) && rows == Extent(numRows)
      ensures gridOpts == Opts(White, false, indexes) && generation == old(generation) + 1
      ensures shapes == old(shapes) && history == old(history)
      ensures storage == old(storage) && widthAttr == old(widthAttr) && heightAttr == old(heightAttr)
      ensures Valid() && Untagged(cells)
    {
      var height := Extent(numRows);
      cells := [];
      var col := 0;
      while col < numCols
        invariant 0 <= col <= Extent(numCols)
        invariant |cells| == col * height
        invariant forall i :: 0 <= i < |cells| ==> cells[i] == NewCell(i % height, i / height, indexes)
        invariant Config() == old(Config()) && shapes == old(shapes) && history == old(history)
      {
        var row := 0;
        while row < numRows
          invariant 0 <= row <= height
          invariant |cells| == col * height + row
          invariant forall i :: 0 <= i < |cells| ==> cells[i] == NewCell(i % height, i / height, indexes)
          invariant Config() == old(Config()) && shapes == old(shapes) && history == old(history)
        {
          DivModColumnMajor(col, row, height);
          cells := cells + [NewCell(row, col, indexes)];
          row := row + 1;
        }
        assert (col + 1) * height == col * height + height;
        col := col + 1;
      }
      gridOpts := Opts(White, false, indexes);
      generation := generation + 1;
      cols, rows := Extent(numCols), Extent(numRows);
      NewGridLaid(cols, rows, indexes);
    }

    /** `_shapeCollide(x, y, coords)`: true exactly when one of the probed
        offsets names an existing cell that collides. */
    method ShapeCollide(x: int, y: int, coords: seq<CoordRow>) returns (yes: bool)
      ensures yes == Collides(cells, x, y, coords)
    {
      yes := false;
      var idx := 0;
      while idx < |coords|
        invariant 0 <= idx <= |coords|
        invariant yes == AnyBlocked(cells, x, y, Probes(coords[..idx]))
      {
        var row := RowProbes(coords[idx]);
        ghost var before := Probes(coords[..idx]);
        assert before + row[..0] == before;
        var j := 0;
        while j < |row|
          invariant 0 <= j <= |row|
          invariant yes == AnyBlocked(cells, x, y, before + row[..j])
        {
          var cord := row[j];
          var cell := Lookup(cells, x + cord.dr, y + cord.dc);
          if cell.Some? && cells[cell.value].collide {
            yes := true;
          }
          AnyBlockedSnoc(cells, x, y, before + row[..j], cord);
          assert before + row[..j + 1] == before + row[..j] + [cord];
          j := j + 1;
        }
        assert row[..|row|] == row;
        ProbesSnoc(coords, idx);
        idx := idx + 1;
      }
      assert coords[..|coords|] == coords;
    }

    /** `_drawShape(x, y, coords, opts)`: walks the footprint, repainting and
        recording each cell. When every offset finds a cell, the shape
        record and the history entry are pushed; when one does not, the
        cells repainted before it stay repainted and nothing is pushed. */
    method DrawShape(x: int, y: int, coords: seq<CoordRow>, opts: Opts) returns (ok: bool)
      requires Valid()
      modifies this
      ensures ShapeDrawn(old(cells), old(shapes), old(history), generation, x, y, coords, opts, ok)
      ensures Config() == old(Config())
      ensures Valid() && SameLayout(old(cells), cells)
    {
      ghost var cells0 := cells;
      var entry;
      ok, entry := PaintFootprint(x, y, coords, opts);
      if ok {
        history := history + [entry];
        shapes := shapes + [Shape(x, y, coords, opts, None)];
      }
      PaintLayout(cells0, generation, x, y, Footprint(coords, IsOdd(x)), opts);
      LaidSameLayout(cells0, cells, cols, rows);
    }

    /** The `coords.forEach((row, idx) => ...)` walk of `_drawShape`: each
        row in order, until an offset finds no cell. */
    method PaintFootprint(x: int, y: int, coords: seq<CoordRow>, opts: Opts) returns (ok: bool, entry: seq<Prior>)
      modifies this
      ensures var p := PaintSeq(old(cells), generation, x, y, Footprint(coords, IsOdd(x)), opts);
        ok == p.Done? && cells == p.cells && (ok ==> entry == p.priors)
      ensures Config() == old(Config()) && shapes == old(shapes) && history == old(history)
    {
      var odd := IsOdd(x);
      ghost var cells0, gen := cells, generation;
      ghost var done: seq<Offset> := [];
      ghost var all := Footprint(coords, odd);
      entry := [];
      ok := true;
      var idx := 0;
      while idx < |coords| && ok
        invariant 0 <= idx <= |coords|
        invariant ok ==> done == Footprint(coords[..idx], odd) && PaintSeq(cells0, gen, x, y, done, opts) == Done(cells, entry)
        invariant !ok ==> PaintSeq(cells0, gen, x, y, all, opts) == Crashed(cells)
        invariant Config() == old(Config()) && shapes == old(shapes) && history == old(history)
      {
        var row := RowOf(coords[idx], idx, odd);
        PaintRowsStep(cells0, gen, x, y, coords, idx, odd, opts);
        ok, entry := PaintRow(x, y, row, opts, cells0, done, entry);
        done := done + row;
        idx := idx + 1;
      }
      if ok {
        assert coords[..|coords|] == coords;
      }
    }

    /** The offsets `_drawShape` visits for the row at index idx: a pair row
        as it is, a range row expanded. */
    static method RowOf(row: CoordRow, idx: int, odd: bool) returns (offsets: seq<Offset>)
      ensures offsets == RowOffsets(row, idx, odd)
    {
      match row {
        case Pairs(cords) =>
          offsets := cords;
        case Range(start, end) =>
          offsets := ExpandRange(idx, start, end, odd);
      }
    }

    /** The `while (start <= end)` loop of `_drawShape`: the range row at
        index idx becomes one offset per column, shifted one to the left
        on even rows of a shape anchored on an odd row. */
    static method ExpandRange(idx: int, start: int, end: int, odd: bool) returns (row: seq<Offset>)
      ensures row == Expand(idx, start, end, RowShift(odd, idx))
    {
      row := [];
      var c := start;
      while c <= end
        invariant c == start || start <= c <= end + 1
        invariant row == Expand(idx, start, c - 1, RowShift(odd, idx))
      {
        if odd && idx % 2 == 0 {
          row := row + [Offset(idx, c - 1)];
        } else {
          row := row + [Offset(idx, c)];
        }
        c := c + 1;
      }
    }

    /** `row.forEach(cord => ...)` inside `_drawShape`: repaints and records
        the cells of one row of offsets, after the offsets `done`; returns
        false where the walk throws. */
    method PaintRow(x: int, y: int, row: seq<Offset>, opts: Opts, ghost cells0: seq<Cell>, ghost done: seq<Offset>,
                    entry0: seq<Prior>) returns (ok: bool, entry: seq<Prior>)
      requires PaintSeq(cells0, generation, x, y, done, opts) == Done(cells, entry0)
      modifies this
      ensures ok ==> PaintSeq(cells0, generation, x, y, done + row, opts) == Done(cells, entry)
      ensures !ok ==> PaintSeq(cells0, generation, x, y, done + row, opts) == Crashed(cells)
      ensures Config() == old(Config()) && shapes == old(shapes) && history == old(history)
    {
      ghost var gen := generation;
      entry := entry0;
      assert done + row[..0] == done;
      ok := true;
      var j := 0;
      while j < |row| && ok
        invariant 0 <= j <= |row|
        invariant ok ==> PaintSeq(cells0, gen, x, y, done + row[..j], opts) == Done(cells, entry)
        invariant !ok ==> PaintSeq(cells0, gen, x, y, done + row, opts) == Crashed(cells)
        invariant Config() == old(Config()) && shapes == old(shapes) && history == old(history)
      {
        var cord := row[j];
        PaintRowStep(cells0, gen, x, y, done, row, j, opts, cells, entry);
        var cell := Lookup(cells, x + cord.dr, y + cord.dc);
        if cell.None? {
          ok := false;
        } else {
          var i := cell.value;
          entry := entry + [Prior(CellRef(generation, i), cells[i].fill, opts.indexes)];
          cells := cells[i := Repaint(cells[i], opts)];
        }
        j := j + 1;
      }
      if ok {
        assert row[..|row|] == row;
      }
    }

    /** `shapes.forEach(shape => this._drawShape(...))`: draws the shapes in
        order and ends at the first one that throws. */
    method DrawShapes(items: seq<Shape>) returns (ok: bool)
      requires Valid()
      modifies this
      ensures var r := Replay(old(cells), generation, items);
        Extends(old(shapes), old(history), r) && ok == r.ok
      ensures Config() == old(Config()) && Valid()
    {
      ghost var cells0, s0, h0, gen := cells, shapes, history, generation;
      assert items[..0] == [];
      ok := true;
      var k := 0;
      while k < |items| && ok
        invariant 0 <= k <= |items| && Valid() && Config() == old(Config())
        invariant ok ==> Extends(s0, h0, Replay(cells0, gen, items[..k])) && Replay(cells0, gen, items[..k]).ok
        invariant !ok ==> Extends(s0, h0, Replay(cells0, gen, items)) && !Replay(cells0, gen, items).ok
      {
        var s := items[k];
        ReplayOnTop(cells0, gen, items, k, s0, h0);
        ok := DrawShape(s.x, s.y, s.coords, s.opts);
        if !ok {
          ReplayCrashSticks(cells0, gen, items, k + 1);
        }
        k := k + 1;
      }
      if ok {
        assert items[..|items|] == items;
      }
    }

    /** `drawTile(x, y)`: a blocking single cell, unless the cell already
        collides. */
    method DrawTile(x: int, y: int) returns (outcome: Outcome)
      requires Valid()
      modifies this
      ensures outcome == Collision <==> old(Collides(cells, x, y, TileCoords))
      ensures outcome == Collision ==> cells == old(cells) && shapes == old(shapes) && history == old(history)
      ensures outcome != Collision ==>
        ShapeDrawn(old(cells), old(shapes), old(history), generation, x, y, TileCoords,
                   EntityOpts(old(gridOpts), TileColor, true), outcome == Placed)
      ensures Config() == old(Config()) && Valid()
    {
      var collide := ShapeCollide(x, y, TileCoords);
      if collide {
        return Collision;
      }
      var opts := EntityOpts(gridOpts, TileColor, true);
      var ok := DrawShape(x, y, TileCoords, opts);
      outcome := if ok then Placed else Failed;
    }

    /** `drawHQ(x, y)`: the seven-cell HQ table for x's parity, blocking,
        unless one of its cells already collides. */
    method DrawHQ(x: int, y: int) returns (outcome: Outcome)
      requires Valid()
      modifies this
      ensures outcome == Collision <==> old(Collides(cells, x, y, HQCoords(x)))
      ensures outcome == Collision ==> cells == old(cells) && shapes == old(shapes) && history == old(history)
      ensures outcome != Collision ==>
        ShapeDrawn(old(cells), old(shapes), old(history), generation, x, y, HQCoords(x),
                   EntityOpts(old(gridOpts), HQColor, true), outcome == Placed)
      ensures Config() == old(Config()) && Valid()
    {
      var collide := ShapeCollide(x, y, HQCoords(x));
      if collide {
        return Collision;
      }
      var opts := EntityOpts(gridOpts, HQColor, true);
      var ok := DrawShape(x, y, HQCoords(x), opts);
      outcome := if ok then Placed else Failed;
    }

    /** `drawMud(x, y)`: the mud area, drawn without a collision check. */
    method DrawMud(x: int, y: int) returns (ok: bool)
      requires Valid()
      modifies this
      ensures ShapeDrawn(old(cells), old(shapes), old(history), generation, x, y, MudCoords,
                         EntityOpts(old(gridOpts), MudColor, false), ok)
      ensures Config() == old(Config()) && Valid()
    {
      var opts := EntityOpts(gridOpts, MudColor, false);
      ok := DrawShape(x, y, MudCoords, opts);
    }

    /** `drawInnerMud(x, y)`: seven shapes without a collision check, the
        first one blocking; a shape that throws ends the call. */
    method DrawInnerMud(x: int, y: int) returns (ok: bool)
      requires Valid()
      modifies this
      ensures var r := Replay(old(cells), generation, InnerMudShapes(x, y, old(gridOpts)));
        Extends(old(shapes), old(history), r) && ok == r.ok
      ensures Config() == old(Config()) && Valid()
    {
      ok := DrawShapes(InnerMudShapes(x, y, gridOpts));
    }

    /** The Ctrl+Z handler: pops the last shape record and history entry and
        puts back the recorded fills, clearing `collide`. With an empty
        history the handler throws and nothing changes. */
    method Undo() returns (ok: bool)
      requires Valid()
      modifies this
      ensures ok <==> old(history) != []
      ensures !ok ==> cells == old(cells) && shapes == old(shapes) && history == old(history)
      ensures ok ==>
        shapes == old(shapes)[..|old(shapes)| - 1] && history == old(history)[..|old(history)| - 1] &&
        cells == UndoSeq(old(cells), generation, old(history)[|old(history)| - 1])
      ensures Config() == old(Config()) && Valid()
    {
      if history == [] {
        return false;
      }
      shapes := shapes[..|shapes| - 1];
      var operation := history[|history| - 1];
      history := history[..|history| - 1];
      ghost var cells0 := cells;
      var k := 0;
      while k < |operation|
        invariant 0 <= k <= |operation|
        invariant cells == UndoSeq(cells0, generation, operation[..k])
        invariant Config() == old(Config()) && shapes == old(shapes)[..|old(shapes)| - 1] && history == old(history)[..|old(history)| - 1]
      {
        var p := operation[k];
        if p.cell.gen == generation && p.cell.index < |cells| {
          cells := cells[p.cell.index := Restore(cells[p.cell.index], p)];
        }
        assert operation[..k + 1][..k] == operation[..k];
        k := k + 1;
      }
      assert operation[..|operation|] == operation;
      UndoLayout(cells0, generation, operation);
      LaidSameLayout(cells0, cells, cols, rows);
      ok := true;
    }

    /** `draw(shapes)`: sizes the grid from the attributes, draws a fresh
        grid and replays the shapes onto it, after the shapes and history
        already there; a shape that throws ends the replay. */
    method Draw(items: seq<Shape>)
      requires Valid()
      modifies this
      ensures var size := CanvasSize(widthAttr, heightAttr);
        var blank := NewGrid(Extent(Fit(size.0)), Extent(Fit(size.1)), false);
        Extends(old(shapes), old(history), Replay(blank, generation, items))
      ensures generation == old(generation) + 1 && gridOpts == Opts(White, false, false)
      ensures storage == old(storage) && widthAttr == old(widthAttr) && heightAttr == old(heightAttr)
      ensures Valid()
    {
      var size := CanvasSize(widthAttr, heightAttr);
      DrawGrid(Fit(size.0), Fit(size.1), false);
      var _ := DrawShapes(items);
    }

    /** `attributeChangedCallback`: a new `width` or `height` redraws the
        empty grid; other names are ignored. */
    method AttributeChanged(name: string, value: Option<int>)
      requires Valid()
      modifies this
      ensures name == "width" ==> widthAttr == value && heightAttr == old(heightAttr)
      ensures name == "height" ==> heightAttr == value && widthAttr == old(widthAttr)
      ensures name == "width" || name == "height" ==>
        var size := CanvasSize(widthAttr, heightAttr);
        cells == NewGrid(Extent(Fit(size.0)), Extent(Fit(size.1)), false) &&
        shapes == old(shapes) && history == old(history) && generation == old(generation) + 1
      ensures name != "width" && name != "height" ==> cells == old(cells) && Config() == old(Config())
      ensures shapes == old(shapes) && history == old(history) && storage == old(storage) && Valid()
    {
      if name == "width" || name == "height" {
        if name == "width" {
          widthAttr := value;
        } else {
          heightAttr := value;
        }
        Draw([]);
      }
    }

    /** `storage.set(key, val)`. */
    method StorageSet(key: string, val: seq<Shape>)
      modifies this
      ensures storage == old(storage)[StorageKey(key) := val]
      ensures cells == old(cells) && shapes == old(shapes) && history == old(history)
      ensures generation == old(generation) && gridOpts == old(gridOpts)
      ensures widthAttr == old(widthAttr) && heightAttr == old(heightAttr) && cols == old(cols) && rows == old(rows)
    {
      storage := storage[StorageKey(key) := val];
    }

    /** `storage.get(key)`: the stored list, or nothing when the key was
        never set. */
    method StorageGet(key: string) returns (val: Option<seq<Shape>>)
      ensures val.Some? <==> StorageKey(key) in storage
      ensures val.Some? ==> val.value == storage[StorageKey(key)]
    {
      if StorageKey(key) in storage {
        val := Some(storage[StorageKey(key)]);
      } else {
        val := None;
      }
    }

    /** The label the editor dialog writes on the shape record at index k. */
    method SetLabel(k: int, text: string)
      modifies this
      ensures shapes == SetLabelAt(old(shapes), k, text)
      ensures cells == old(cells) && history == old(history) && Config() == old(Config())
    {
      if 0 <= k < |shapes| {
        shapes := shapes[k := shapes[k].(labelText := Some(text))];
      }
    }

    /** A page reload: the element is created again with the same
        attributes and the same storage, with no shapes and no history. */
    method Reload()
      requires Valid()
      modifies this
      ensures shapes == [] && history == [] && storage == old(storage)
      ensures var size := CanvasSize(widthAttr, heightAttr);
        cells == NewGrid(Extent(Fit(size.0)), Extent(Fit(size.1)), false)
      ensures widthAttr == old(widthAttr) && heightAttr == old(heightAttr) && Valid()
      ensures gridOpts == Opts(White, false, false) && generation == old(generation) + 1
    {
      shapes := [];
      history := [];
      Draw([]);
    }
  }

  /** A shape `_drawShape` completed repainted every cell its footprint
      covers with the options' fill and `collide` flag, left every other
      cell as it was, and recorded one entry per offset, in footprint order,
      naming the cell that offset resolved to. */
  lemma DrawnShapeEffect(cells: seq<Cell>, gen: nat, x: int, y: int, coords: seq<CoordRow>, opts: Opts)
    requires PaintSeq(cells, gen, x, y, Footprint(coords, IsOdd(x)), opts).Done?
    ensures var fp := Footprint(coords, IsOdd(x));
      var p := PaintSeq(cells, gen, x, y, fp, opts);
      PaintedCells(cells, x, y, fp, opts, p.cells) && RecordsFor(cells, gen, x, y, fp, opts, p.priors)
  {
    var fp := Footprint(coords, IsOdd(x));
    PaintDoneIff(cells, gen, x, y, fp, opts);
    PaintEffect(cells, gen, x, y, fp, opts);
  }

  /** Drawing a tile on a cell of a shape placed with `collide` set
      reports a collision: every cell of such a shape blocks. */
  lemma PlacedBlocksTiles(cells: seq<Cell>, gen: nat, x: int, y: int, fp: seq<Offset>, opts: Opts, k: int)
    requires PaintSeq(cells, gen, x, y, fp, opts).Done? && opts.collide && 0 <= k < |fp|
    ensures Collides(PaintSeq(cells, gen, x, y, fp, opts).cells, x + fp[k].dr, y + fp[k].dc, TileCoords)
  {
    var after := PaintSeq(cells, gen, x, y, fp, opts).cells;
    PaintDoneIff(cells, gen, x, y, fp, opts);
    PaintBlocks(cells, gen, x, y, fp, opts);
    assert TileCoords[..0] == [];
    assert Probes(TileCoords) == [Offset(0, 0)];
    assert Blocked(after, x + fp[k].dr + Probes(TileCoords)[0].dr, y + fp[k].dc + Probes(TileCoords)[0].dc);
  }

  /** An HQ that was placed and then undone leaves the table exactly as it
      was: the HQ table has no repeated cell and the collision check let
      it through only on cells that did not collide. */
  lemma HQUndo(cells: seq<Cell>, gen: nat, x: int, y: int, opts: Opts)
    requires !Collides(cells, x, y, HQCoords(x))
    requires PaintSeq(cells, gen, x, y, Footprint(HQCoords(x), IsOdd(x)), opts).Done?
    ensures var p := PaintSeq(cells, gen, x, y, Footprint(HQCoords(x), IsOdd(x)), opts);
      UndoSeq(p.cells, gen, p.priors) == cells
  {
    var fp := Footprint(HQCoords(x), IsOdd(x));
    HQFootprint(x, y);
    PaintDoneIff(cells, gen, x, y, fp, opts);
    PaintUndo(cells, gen, x, y, fp, opts);
  }

  /** An HQ anchored in the first column of a fresh grid meets no colliding
      cell, so `drawHQ` goes on to `_drawShape`; but its first offset
      (0, -1) names column -1, which has no cell, and the walk throws. */
  lemma HQOnFirstColumnThrows(cols: nat, rows: nat, gen: nat, x: int, opts: Opts)
    ensures !Collides(NewGrid(cols, rows, false), x, 0, HQCoords(x))
    ensures PaintSeq(NewGrid(cols, rows, false), gen, x, 0, Footprint(HQCoords(x), IsOdd(x)), opts).Crashed?
  {
    var g := NewGrid(cols, rows, false);
    var fp := Footprint(HQCoords(x), IsOdd(x));
    NewGridLaid(cols, rows, false);
    LookupLaid(g, cols, rows, x, -1);
    if IsOdd(x) {
      HQFootprintOdd(x);
    } else {
      HQFootprintEven(x);
    }
    assert Target(g, x, 0, fp[0]).None?;
    PaintDoneIff(g, gen, x, 0, fp, opts);
  }

  /** One more step of the replay, on top of the shapes s0 and history h0,
      in the terms `_drawShape` reports it. */
  lemma ReplayOnTop(cells: seq<Cell>, gen: nat, items: seq<Shape>, k: int, s0: seq<Shape>, h0: seq<seq<Prior>>)
    requires 0 <= k < |items| && Replay(cells, gen, items[..k]).ok
    ensures var r := Replay(cells, gen, items[..k]);
      var s := items[k];
      var p := PaintSeq(r.cells, gen, s.x, s.y, Footprint(s.coords, IsOdd(s.x)), s.opts);
      var r1 := Replay(cells, gen, items[..k + 1]);
      r1.ok == p.Done? && r1.cells == p.cells &&
      s0 + r1.shapes == (if p.Done? then (s0 + r.shapes) + [Shape(s.x, s.y, s.coords, s.opts, None)] else s0 + r.shapes) &&
      h0 + r1.entries == (if p.Done? then (h0 + r.entries) + [p.priors] else h0 + r.entries)
  {
    ReplayNext(cells, gen, items, k);
    var r := Replay(cells, gen, items[..k]);
    var s := items[k];
    assert Unlabelled(s) == Shape(s.x, s.y, s.coords, s.opts, None);
    assert s0 + (r.shapes + [Unlabelled(s)]) == (s0 + r.shapes) + [Unlabelled(s)];
    var p := PaintSeq(r.cells, gen, s.x, s.y, Footprint(s.coords, IsOdd(s.x)), s.opts);
    if p.Done? {
      assert h0 + (r.entries + [p.priors]) == (h0 + r.entries) + [p.priors];
    }
  }
}
