/**
 * The cell table of the hexagonal grid (src/draw.js, `_cells`): one record
 * per (row, col) position, built column by column by `drawGrid`, and the
 * coordinate lookup (`_cells.find`) that every drawing operation goes through.
 * Pixel origins and polygons are not modelled; a cell keeps only what the
 * grid logic reads back from its polygon.
 */
module Cells {

  datatype Option<T> = None | Some(value: T)

  /** A polygon's fill: white for an empty fill style, otherwise the colour
      `_generateColor` formats as hsla(hue, saturation%, lightness%, 1). */
  datatype Color = White | Hsla(hue: int, saturation: int, lightness: int)

  /** One hexagon: its grid position, the fill and `collide` flag kept on its
      polygon, how many label texts are attached after the polygon, and
      whether the polygon is tagged `entityType === 'hq'`. */
  datatype Cell = Cell(row: int, col: int, fill: Color, collide: bool, labels: nat, entityHQ: bool)

  /** A cell as `drawGrid` creates it: white, not colliding, untagged, with
      a coordinate label when the grid options ask for indexes. */
  function NewCell(row: int, col: int, indexes: bool): Cell {
    Cell(row, col, White, false, if indexes then 1 else 0, false)
  }

  predicate At(c: Cell, row: int, col: int) {
    c.row == row && c.col == col
  }

  /** A pixel count or grid size clamped at zero: a `for` loop up to a
      negative bound runs no iteration. */
  function Extent(n: int): nat {
    if n < 0 then 0 else n
  }

  /** `_cells.find(c => c.row === row && c.col === col)`: the index of the
      first cell at (row, col), or None when no cell is there. */
  function Lookup(cells: seq<Cell>, row: int, col: int): (res: Option<nat>)
    ensures res.Some? ==> res.value < |cells|
  {
    LookupFrom(cells, row, col, 0)
  }

  /** The search of `find` from index `from` on. */
  function LookupFrom(cells: seq<Cell>, row: int, col: int, from: nat): (res: Option<nat>)
    ensures res.Some? ==> from <= res.value < |cells|
    decreases |cells| - from
  {
    if from >= |cells| then None
    else if At(cells[from], row, col) then Some(from)
    else LookupFrom(cells, row, col, from + 1)
  }

  lemma {:induction false} LookupFromFinds(cells: seq<Cell>, row: int, col: int, from: nat)
    ensures LookupFrom(cells, row, col, from).Some? ==>
      At(cells[LookupFrom(cells, row, col, from).value], row, col) &&
      forall j :: from <= j < LookupFrom(cells, row, col, from).value ==> !At(cells[j], row, col)
    ensures LookupFrom(cells, row, col, from).None? ==> forall j :: from <= j < |cells| ==> !At(cells[j], row, col)
    decreases |cells| - from
  {
    if from < |cells| && !At(cells[from], row, col) {
      LookupFromFinds(cells, row, col, from + 1);
    }
  }

  /** Lookup finds the first cell at (row, col), and finds nothing exactly
      when no cell is there. */
  lemma LookupFinds(cells: seq<Cell>, row: int, col: int)
    ensures Lookup(cells, row, col).Some? ==>
      At(cells[Lookup(cells, row, col).value], row, col) &&
      forall j :: 0 <= j < Lookup(cells, row, col).value ==> !At(cells[j], row, col)
    ensures Lookup(cells, row, col).None? ==> forall j :: 0 <= j < |cells| ==> !At(cells[j], row, col)
  {
    LookupFromFinds(cells, row, col, 0);
  }

  /** The table `drawGrid(cols, rows)` builds: columns in the outer loop, so
      the cell at (row, col) is the (col * rows + row)-th one pushed. */
  function NewGrid(cols: nat, rows: nat, indexes: bool): (g: seq<Cell>)
    ensures |g| == cols * rows
    ensures forall i :: 0 <= i < |g| ==> g[i].fill == White && !g[i].collide && !g[i].entityHQ
  {
    seq(cols * rows, i requires 0 <= i < cols * rows => NewCell(i % rows, i / rows, indexes))
  }

  /** The positions of `cells` are those of a cols-by-rows grid laid out
      column by column: this is what painting preserves. */
  ghost predicate Laid(cells: seq<Cell>, cols: nat, rows: nat) {
    |cells| == cols * rows &&
    forall i :: 0 <= i < |cells| ==> cells[i].row == i % rows && cells[i].col == i / rows
  }

  /** Two tables agree on every cell's position and tag (they may differ in
      fills, collision flags and labels). */
  ghost predicate SameLayout(a: seq<Cell>, b: seq<Cell>) {
    |a| == |b| &&
    forall i :: 0 <= i < |a| ==> a[i].row == b[i].row && a[i].col == b[i].col && a[i].entityHQ == b[i].entityHQ
  }

  /** Only positions matter for the layout: a table with the same layout as
      a laid-out one is laid out the same way, and tags carry over. */
  lemma LaidSameLayout(a: seq<Cell>, b: seq<Cell>, cols: nat, rows: nat)
    requires SameLayout(a, b)
    ensures Laid(a, cols, rows) ==> Laid(b, cols, rows)
    ensures Untagged(a) ==> Untagged(b)
  {
  }

  /** No cell of the table is tagged as part of an HQ. */
  ghost predicate Untagged(cells: seq<Cell>) {
    forall i :: 0 <= i < |cells| ==> !cells[i].entityHQ
  }

  lemma DivModColumnMajor(col: int, row: int, rows: int)
    requires 0 <= row < rows
    ensures (col * rows + row) / rows == col && (col * rows + row) % rows == row
  {
    var k := col * rows + row;
    var q, m := k / rows, k % rows;
    assert k == q * rows + m;
    SmallMultiple(col - q, rows, m - row);
  }

  /** The only multiple of a positive number strictly between its negation
      and itself is zero. */
  lemma SmallMultiple(a: int, b: int, p: int)
    requires b > 0 && a * b == p && -b < p < b
    ensures a == 0
  {
  }

  lemma MulMonotone(a: int, b: int, c: int)
    requires a <= b && 0 <= c
    ensures a * c <= b * c
  {
    assert b * c - a * c == (b - a) * c;
  }

  lemma IndexInGrid(i: int, cols: nat, rows: nat)
    requires 0 <= i < cols * rows
    ensures rows > 0 && 0 <= i / rows < cols && i == (i / rows) * rows + i % rows
  {
  }

  /** A fresh grid is laid out as a cols-by-rows grid, every cell untagged. */
  lemma NewGridLaid(cols: nat, rows: nat, indexes: bool)
    ensures Laid(NewGrid(cols, rows, indexes), cols, rows)
    ensures Untagged(NewGrid(cols, rows, indexes))
  {
  }

  /** In a laid-out table, the cell at index i sits at row i % rows and
      column i / rows, inside the bounds. */
  lemma LaidCellAt(cells: seq<Cell>, cols: nat, rows: nat, i: int)
    requires Laid(cells, cols, rows) && 0 <= i < |cells|
    ensures 0 <= cells[i].row < rows && 0 <= cells[i].col < cols
    ensures i == cells[i].col * rows + cells[i].row
  {
    IndexInGrid(i, cols, rows);
  }

  /** In a laid-out table, the position (row, col) inside the bounds is held
      by the cell at index col * rows + row. */
  lemma LaidIndexOf(cells: seq<Cell>, cols: nat, rows: nat, row: int, col: int)
    requires Laid(cells, cols, rows) && 0 <= row < rows && 0 <= col < cols
    ensures col * rows + row < |cells| && At(cells[col * rows + row], row, col)
  {
    DivModColumnMajor(col, row, rows);
    MulMonotone(col + 1, cols, rows);
  }

  /** Coordinate lookup in a laid-out table finds the unique cell inside the
      bounds, at index col * rows + row, and nothing outside them. */
  lemma {:induction false} LookupLaid(cells: seq<Cell>, cols: nat, rows: nat, row: int, col: int)
    requires Laid(cells, cols, rows)
    ensures Lookup(cells, row, col) == if 0 <= row < rows && 0 <= col < cols then Some(col * rows + row) else None
  {
    var res := Lookup(cells, row, col);
    LookupFinds(cells, row, col);
    if 0 <= row < rows && 0 <= col < cols {
      LaidIndexOf(cells, cols, rows, row, col);
      LaidCellAt(cells, cols, rows, res.value);
    } else if res.Some? {
      LaidCellAt(cells, cols, rows, res.value);
    }
  }

  /** Lookup only reads positions, so two tables with the same layout give
      the same answer. */
  lemma {:induction false} LookupFromSameLayout(a: seq<Cell>, b: seq<Cell>, row: int, col: int, from: nat)
    requires SameLayout(a, b)
    ensures LookupFrom(a, row, col, from) == LookupFrom(b, row, col, from)
    decreases |a| - from
  {
    if from < |a| && !At(a[from], row, col) {
      LookupFromSameLayout(a, b, row, col, from + 1);
    }
  }

  /** Lookup only reads positions, so two tables with the same layout give
      the same answer. */
  lemma LookupSameLayout(a: seq<Cell>, b: seq<Cell>, row: int, col: int)
    requires SameLayout(a, b)
    ensures Lookup(a, row, col) == Lookup(b, row, col)
  {
    LookupFromSameLayout(a, b, row, col, 0);
  }
}
