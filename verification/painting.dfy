/**
 * What drawing a shape and undoing it do to the cell table (src/draw.js):
 * `_drawShape` repaints the cells of a footprint one after another through
 * the repaint branch of `_drawPoly` and records each cell's previous fill;
 * the Ctrl+Z handler walks such a record and puts the fills back;
 * `_shapeCollide` asks whether any probed cell already collides; `draw`
 * replays a list of shapes onto a fresh grid. These functions are the
 * specifications the methods of `Draw.LayoutManager` are proved against.
 */
module Painting {
  import opened Cells
  import opened Footprints

  /** The options `_drawShape` uses: the fill style, the flag `_drawPoly`
      stores as `!!opts.collide`, and whether to attach coordinate labels. */
  datatype Opts = Opts(fillStyle: Color, collide: bool, indexes: bool)

  /** A record of `_shapes`: the anchor, the unexpanded coords, the options,
      and the label the control panel's dialog may write. */
  datatype Shape = Shape(x: int, y: int, coords: seq<CoordRow>, opts: Opts, labelText: Option<string>)

  /** A polygon: the grid generation (the `drawGrid` call) that created it
      and its index in that generation's table. */
  datatype CellRef = CellRef(gen: nat, index: nat)

  /** One record of a history entry: the polygon, its fill before the
      repaint, and whether a label text was attached after it. */
  datatype Prior = Prior(cell: CellRef, bgColor: Color, hasLabel: bool)

  /** The outcome of `_drawShape` on the cell table: every offset found a
      cell, or the first one that did not threw a TypeError (`cell` is
      undefined), leaving the cells repainted so far as they are. */
  datatype Painted = Done(cells: seq<Cell>, priors: seq<Prior>) | Crashed(cells: seq<Cell>)

  /** The repaint branch of `_drawPoly` plus the optional label. */
  function Repaint(c: Cell, opts: Opts): (r: Cell)
    ensures r.row == c.row && r.col == c.col && r.entityHQ == c.entityHQ
    ensures r.fill == opts.fillStyle && r.collide == opts.collide
    ensures r.labels == if opts.indexes then c.labels + 1 else c.labels
  {
    c.(fill := opts.fillStyle, collide := opts.collide, labels := if opts.indexes then c.labels + 1 else c.labels)
  }

  /** The cell an offset from anchor (x, y) resolves to. */
  function Target(cells: seq<Cell>, x: int, y: int, o: Offset): Option<nat> {
    Lookup(cells, x + o.dr, y + o.dc)
  }

  /** Every offset of fp resolves to an existing cell. */
  ghost predicate Resolves(cells: seq<Cell>, x: int, y: int, fp: seq<Offset>) {
    forall k :: 0 <= k < |fp| ==> Target(cells, x, y, fp[k]).Some?
  }

  /** Cell i is one that fp covers from anchor (x, y). */
  ghost predicate Covers(cells: seq<Cell>, x: int, y: int, fp: seq<Offset>, i: int) {
    exists k :: 0 <= k < |fp| && Target(cells, x, y, fp[k]) == Some(i)
  }

  /** One iteration of `_drawShape`'s inner `forEach`: the offset is looked
      up in the current table; a missing cell throws, otherwise its prior
      fill is recorded and the cell repainted. */
  function PaintStep(p: Painted, gen: nat, x: int, y: int, o: Offset, opts: Opts): (r: Painted)
  {
    match p
    case Crashed(_) => p
    case Done(cs, ps) =>
      match Target(cs, x, y, o)
      case None => Crashed(cs)
      case Some(i) => Done(cs[i := Repaint(cs[i], opts)], ps + [Prior(CellRef(gen, i), cs[i].fill, opts.indexes)])
  }

  /** `_drawShape`'s walk over the offsets of a footprint, in order. */
  function PaintSeq(cells: seq<Cell>, gen: nat, x: int, y: int, fp: seq<Offset>, opts: Opts): (r: Painted)
  {
    if fp == [] then Done(cells, []) else PaintStep(PaintSeq(cells, gen, x, y, fp[..|fp| - 1], opts), gen, x, y, fp[|fp| - 1], opts)
  }

  /** What the Ctrl+Z handler does to one recorded polygon: the old fill
      comes back, `collide` becomes false whatever it was, and the label
      recorded with it is removed. */
  function Restore(c: Cell, p: Prior): (r: Cell)
    ensures r.row == c.row && r.col == c.col && r.entityHQ == c.entityHQ
    ensures r.fill == p.bgColor && !r.collide
    ensures r.labels == if p.hasLabel && c.labels > 0 then c.labels - 1 else c.labels
  {
    c.(fill := p.bgColor, collide := false, labels := if p.hasLabel && c.labels > 0 then c.labels - 1 else c.labels)
  }

  /** Undo of one record on the table of generation gen: a polygon from an
      earlier generation is no longer in the table, so nothing there changes. */
  function UndoStep(cells: seq<Cell>, gen: nat, p: Prior): (r: seq<Cell>)
    ensures |r| == |cells|
    ensures p.cell.gen != gen ==> r == cells
    ensures forall i :: 0 <= i < |cells| && i != p.cell.index ==> r[i] == cells[i]
  {
    if p.cell.gen == gen && p.cell.index < |cells| then cells[p.cell.index := Restore(cells[p.cell.index], p)] else cells
  }

  /** `operation.forEach(...)`: the records of one history entry, in order. */
  function UndoSeq(cells: seq<Cell>, gen: nat, ps: seq<Prior>): (r: seq<Cell>)
    ensures |r| == |cells|
  {
    if ps == [] then cells else UndoStep(UndoSeq(cells, gen, ps[..|ps| - 1]), gen, ps[|ps| - 1])
  }

  /** The probed cell exists and its polygon collides. */
  predicate Blocked(cells: seq<Cell>, row: int, col: int): (b: bool)
    ensures b ==> exists i :: 0 <= i < |cells| && At(cells[i], row, col) && cells[i].collide
    ensures (forall i :: 0 <= i < |cells| ==> !cells[i].collide) ==> !b
  {
    LookupFinds(cells, row, col);
    match Lookup(cells, row, col)
    case Some(i) => cells[i].collide
    case None => false
  }

  ghost predicate AnyBlocked(cells: seq<Cell>, x: int, y: int, offsets: seq<Offset>) {
    exists k :: 0 <= k < |offsets| && Blocked(cells, x + offsets[k].dr, y + offsets[k].dc)
  }

  lemma AnyBlockedSnoc(cells: seq<Cell>, x: int, y: int, offsets: seq<Offset>, o: Offset)
    ensures AnyBlocked(cells, x, y, offsets + [o]) <==> AnyBlocked(cells, x, y, offsets) || Blocked(cells, x + o.dr, y + o.dc)
  {
    var s := offsets + [o];
    if AnyBlocked(cells, x, y, offsets) {
      var k :| 0 <= k < |offsets| && Blocked(cells, x + offsets[k].dr, y + offsets[k].dc);
      assert s[k] == offsets[k];
    }
    if Blocked(cells, x + o.dr, y + o.dc) {
      assert s[|offsets|] == o;
    }
    if AnyBlocked(cells, x, y, s) {
      var k :| 0 <= k < |s| && Blocked(cells, x + s[k].dr, y + s[k].dc);
      if k < |offsets| {
        assert s[k] == offsets[k];
      }
    }
  }

  /** `_shapeCollide(x, y, coords)`: some probed offset resolves to an
      existing cell that collides; offsets outside the grid are ignored. */
  ghost predicate Collides(cells: seq<Cell>, x: int, y: int, coords: seq<CoordRow>) {
    AnyBlocked(cells, x, y, Probes(coords))
  }

  /** The footprint `_drawShape` paints for a shape record. */
  function ShapeFootprint(s: Shape): seq<Offset> {
    Footprint(s.coords, IsOdd(s.x))
  }

  /** The record `_drawShape` pushes when it replays a shape: `{x, y, coords,
      opts}`, without the label. */
  function Unlabelled(s: Shape): Shape {
    s.(labelText := None)
  }

  function UnlabelledAll(items: seq<Shape>): seq<Shape> {
    seq(|items|, k requires 0 <= k < |items| => Unlabelled(items[k]))
  }

  /** What `draw(shapes)` adds after laying out the grid: the table, the
      shape records and history entries pushed, and whether every shape
      was drawn (`ok`) or one threw and ended the replay. */
  datatype Replayed = Replayed(cells: seq<Cell>, shapes: seq<Shape>, entries: seq<seq<Prior>>, ok: bool)

  /** `shapes.forEach(shape => this._drawShape(...))`, in order, stopping at
      the first shape that throws. */
  function Replay(cells: seq<Cell>, gen: nat, items: seq<Shape>): (r: Replayed)
  {
    if items == [] then Replayed(cells, [], [], true)
    else
      var r := Replay(cells, gen, items[..|items| - 1]);
      var s := items[|items| - 1];
      if !r.ok then r
      else
        match PaintSeq(r.cells, gen, s.x, s.y, ShapeFootprint(s), s.opts)
        case Crashed(cs) => Replayed(cs, r.shapes, r.entries, false)
        case Done(cs, ps) => Replayed(cs, r.shapes + [Unlabelled(s)], r.entries + [ps], true)
  }

  // ---------------------------------------------------------------------
  // Painting

  /** Painting changes fills, flags and labels only: positions and tags of
      the table stay as they were, whether or not the walk threw. */
  lemma {:induction false} PaintLayout(cells: seq<Cell>, gen: nat, x: int, y: int, fp: seq<Offset>, opts: Opts)
    ensures SameLayout(cells, PaintSeq(cells, gen, x, y, fp, opts).cells)
  {
    if fp != [] {
      PaintLayout(cells, gen, x, y, fp[..|fp| - 1], opts);
    }
  }

  lemma ResolvesPrefix(cells: seq<Cell>, x: int, y: int, fp: seq<Offset>)
    requires fp != []
    ensures Resolves(cells, x, y, fp) <==>
      Resolves(cells, x, y, fp[..|fp| - 1]) && Target(cells, x, y, fp[|fp| - 1]).Some?
  {
    assert forall k :: 0 <= k < |fp| - 1 ==> fp[..|fp| - 1][k] == fp[k];
  }

  /** `_drawShape` completes exactly when every offset of the footprint
      resolves to an existing cell; otherwise it throws. */
  lemma {:induction false} PaintDoneIff(cells: seq<Cell>, gen: nat, x: int, y: int, fp: seq<Offset>, opts: Opts)
    ensures PaintSeq(cells, gen, x, y, fp, opts).Done? <==> Resolves(cells, x, y, fp)
  {
    if fp != [] {
      var n := |fp| - 1;
      PaintDoneIff(cells, gen, x, y, fp[..n], opts);
      ResolvesPrefix(cells, x, y, fp);
      var prev := PaintSeq(cells, gen, x, y, fp[..n], opts);
      PaintLayout(cells, gen, x, y, fp[..n], opts);
      LookupSameLayout(cells, prev.cells, x + fp[n].dr, y + fp[n].dc);
    }
  }

  lemma CoversPrefix(cells: seq<Cell>, x: int, y: int, fp: seq<Offset>, i: int)
    requires fp != [] && Target(cells, x, y, fp[|fp| - 1]).Some?
    ensures Covers(cells, x, y, fp, i) <==>
      Covers(cells, x, y, fp[..|fp| - 1], i) || Target(cells, x, y, fp[|fp| - 1]) == Some(i)
  {
    var n := |fp| - 1;
    if Covers(cells, x, y, fp, i) {
      var k :| 0 <= k < |fp| && Target(cells, x, y, fp[k]) == Some(i);
      if k < n {
        assert fp[..n][k] == fp[k];
      }
    }
    if Covers(cells, x, y, fp[..n], i) {
      var k :| 0 <= k < n && Target(cells, x, y, fp[..n][k]) == Some(i);
      assert fp[..n][k] == fp[k];
    }
    if Target(cells, x, y, fp[n]) == Some(i) {
      assert Covers(cells, x, y, fp, i) by {
        assert 0 <= n < |fp|;
      }
    }
  }

  /** Once the walk has thrown, the remaining offsets change nothing: the
      outcome of the whole walk is that of the prefix. */
  lemma {:induction false} PaintCrashSticks(cells: seq<Cell>, gen: nat, x: int, y: int, fp: seq<Offset>, n: int, opts: Opts)
    requires 0 <= n <= |fp| && PaintSeq(cells, gen, x, y, fp[..n], opts).Crashed?
    ensures PaintSeq(cells, gen, x, y, fp, opts) == PaintSeq(cells, gen, x, y, fp[..n], opts)
  {
    if n < |fp| {
      var m := |fp| - 1;
      assert fp[..m][..n] == fp[..n];
      PaintCrashSticks(cells, gen, x, y, fp[..m], n, opts);
    } else {
      assert fp[..n] == fp;
    }
  }

  /** Painting one more offset is one more step of the walk. */
  lemma PaintAppend(cells: seq<Cell>, gen: nat, x: int, y: int, fp: seq<Offset>, o: Offset, opts: Opts)
    ensures PaintSeq(cells, gen, x, y, fp + [o], opts) == PaintStep(PaintSeq(cells, gen, x, y, fp, opts), gen, x, y, o, opts)
  {
    assert (fp + [o])[..|fp|] == fp;
  }

  /** Walking a row of offsets after the offsets `done`, which left the
      table cs and the records ps: the (j + 1)-th offset of the row throws
      when it resolves to no cell, and the throw is the outcome of the whole
      row; otherwise it repaints and records the cell it resolves to. */
  lemma PaintRowStep(cells: seq<Cell>, gen: nat, x: int, y: int, done: seq<Offset>, row: seq<Offset>, j: int, opts: Opts,
                     cs: seq<Cell>, ps: seq<Prior>)
    requires 0 <= j < |row| && PaintSeq(cells, gen, x, y, done + row[..j], opts) == Done(cs, ps)
    ensures Target(cs, x, y, row[j]).None? ==> PaintSeq(cells, gen, x, y, done + row, opts) == Crashed(cs)
    ensures Target(cs, x, y, row[j]).Some? ==>
      var i := Target(cs, x, y, row[j]).value;
      PaintSeq(cells, gen, x, y, done + row[..j + 1], opts) ==
        Done(cs[i := Repaint(cs[i], opts)], ps + [Prior(CellRef(gen, i), cs[i].fill, opts.indexes)])
  {
    assert done + row[..j + 1] == (done + row[..j]) + [row[j]];
    PaintAppend(cells, gen, x, y, done + row[..j], row[j], opts);
    var q := PaintSeq(cells, gen, x, y, done + row[..j + 1], opts);
    if q.Crashed? {
      assert (done + row)[..|done| + j + 1] == done + row[..j + 1];
      PaintCrashSticks(cells, gen, x, y, done + row, |done| + j + 1, opts);
    }
  }

  /** Walking the rows of a shape one at a time: the footprint of the first
      idx + 1 rows is that of the first idx rows followed by row idx, and
      once the walk has thrown within them the later rows change nothing. */
  lemma PaintRowsStep(cells: seq<Cell>, gen: nat, x: int, y: int, coords: seq<CoordRow>, idx: int, odd: bool, opts: Opts)
    requires 0 <= idx < |coords|
    ensures Footprint(coords[..idx + 1], odd) == Footprint(coords[..idx], odd) + RowOffsets(coords[idx], idx, odd)
    ensures var fp := Footprint(coords[..idx], odd) + RowOffsets(coords[idx], idx, odd);
      PaintSeq(cells, gen, x, y, fp, opts).Crashed? ==>
      PaintSeq(cells, gen, x, y, Footprint(coords, odd), opts) == PaintSeq(cells, gen, x, y, fp, opts)
  {
    var all := Footprint(coords, odd);
    FootprintPrefix(coords, idx, odd);
    var fp := Footprint(coords[..idx + 1], odd);
    if PaintSeq(cells, gen, x, y, fp, opts).Crashed? {
      assert all[..|fp|] == fp;
      PaintCrashSticks(cells, gen, x, y, all, |fp|, opts);
    }
  }

  /** One step of the walk: once the first n offsets are painted, the
      next one repaints the cell it resolves to in the original table. */
  lemma PaintSnoc(cells: seq<Cell>, gen: nat, x: int, y: int, fp: seq<Offset>, opts: Opts)
    requires fp != [] && PaintSeq(cells, gen, x, y, fp[..|fp| - 1], opts).Done?
    requires Target(cells, x, y, fp[|fp| - 1]).Some?
    ensures var prev := PaintSeq(cells, gen, x, y, fp[..|fp| - 1], opts);
      var i := Target(cells, x, y, fp[|fp| - 1]).value;
      i < |prev.cells| &&
      PaintSeq(cells, gen, x, y, fp, opts) ==
        Done(prev.cells[i := Repaint(prev.cells[i], opts)], prev.priors + [Prior(CellRef(gen, i), prev.cells[i].fill, opts.indexes)])
  {
    var n := |fp| - 1;
    var prev := PaintSeq(cells, gen, x, y, fp[..n], opts);
    assert PaintSeq(cells, gen, x, y, fp, opts) == PaintStep(prev, gen, x, y, fp[n], opts);
    PaintLayout(cells, gen, x, y, fp[..n], opts);
    LookupSameLayout(cells, prev.cells, x + fp[n].dr, y + fp[n].dc);
  }

  /** The records name, in footprint order, the cells the offsets resolve to. */
  ghost predicate RecordsFor(cells: seq<Cell>, gen: nat, x: int, y: int, fp: seq<Offset>, opts: Opts, ps: seq<Prior>) {
    |ps| == |fp| &&
    forall k :: 0 <= k < |fp| ==>
      Target(cells, x, y, fp[k]).Some? && ps[k].cell == CellRef(gen, Target(cells, x, y, fp[k]).value) &&
      ps[k].hasLabel == opts.indexes
  }

  /** Covered cells carry the options' fill and flag; the others are as before. */
  ghost predicate PaintedCells(cells: seq<Cell>, x: int, y: int, fp: seq<Offset>, opts: Opts, cs: seq<Cell>) {
    |cs| == |cells| &&
    (forall i :: 0 <= i < |cells| && Covers(cells, x, y, fp, i) ==> cs[i].fill == opts.fillStyle && cs[i].collide == opts.collide) &&
    (forall i :: 0 <= i < |cells| && !Covers(cells, x, y, fp, i) ==> cs[i] == cells[i])
  }

  /** A footprint whose offsets all resolve is painted completely: one
      record per offset, in footprint order, naming the cell the offset
      resolves to. */
  lemma {:induction false} PaintRecords(cells: seq<Cell>, gen: nat, x: int, y: int, fp: seq<Offset>, opts: Opts)
    requires Resolves(cells, x, y, fp)
    ensures PaintSeq(cells, gen, x, y, fp, opts).Done?
    ensures RecordsFor(cells, gen, x, y, fp, opts, PaintSeq(cells, gen, x, y, fp, opts).priors)
  {
    if fp != [] {
      var n := |fp| - 1;
      ResolvesPrefix(cells, x, y, fp);
      PaintRecords(cells, gen, x, y, fp[..n], opts);
      var prev := PaintSeq(cells, gen, x, y, fp[..n], opts);
      PaintSnoc(cells, gen, x, y, fp, opts);
      var i0 := Target(cells, x, y, fp[n]).value;
      var r := PaintSeq(cells, gen, x, y, fp, opts);
      assert r.priors == prev.priors + [Prior(CellRef(gen, i0), prev.cells[i0].fill, opts.indexes)];
      forall k | 0 <= k < n
        ensures Target(cells, x, y, fp[k]).Some? && r.priors[k].cell == CellRef(gen, Target(cells, x, y, fp[k]).value)
        ensures r.priors[k].hasLabel == opts.indexes
      {
        assert fp[..n][k] == fp[k];
        assert r.priors[k] == prev.priors[k];
      }
    }
  }

  /** When every offset resolves, every covered cell takes the fill and
      `collide` flag of the options and every other cell is unchanged. */
  lemma {:induction false} PaintCells(cells: seq<Cell>, gen: nat, x: int, y: int, fp: seq<Offset>, opts: Opts)
    requires Resolves(cells, x, y, fp)
    ensures PaintSeq(cells, gen, x, y, fp, opts).Done?
    ensures PaintedCells(cells, x, y, fp, opts, PaintSeq(cells, gen, x, y, fp, opts).cells)
  {
    if fp != [] {
      var n := |fp| - 1;
      ResolvesPrefix(cells, x, y, fp);
      PaintCells(cells, gen, x, y, fp[..n], opts);
      var prev := PaintSeq(cells, gen, x, y, fp[..n], opts);
      PaintSnoc(cells, gen, x, y, fp, opts);
      var i0 := Target(cells, x, y, fp[n]).value;
      var r := PaintSeq(cells, gen, x, y, fp, opts);
      assert r.cells == prev.cells[i0 := Repaint(prev.cells[i0], opts)];
      forall i | 0 <= i < |cells|
        ensures Covers(cells, x, y, fp, i) ==> r.cells[i].fill == opts.fillStyle && r.cells[i].collide == opts.collide
        ensures !Covers(cells, x, y, fp, i) ==> r.cells[i] == cells[i]
      {
        CoversPrefix(cells, x, y, fp, i);
      }
    }
  }

  /** Both of the above. */
  lemma PaintEffect(cells: seq<Cell>, gen: nat, x: int, y: int, fp: seq<Offset>, opts: Opts)
    requires Resolves(cells, x, y, fp)
    ensures PaintSeq(cells, gen, x, y, fp, opts).Done?
    ensures RecordsFor(cells, gen, x, y, fp, opts, PaintSeq(cells, gen, x, y, fp, opts).priors)
    ensures PaintedCells(cells, x, y, fp, opts, PaintSeq(cells, gen, x, y, fp, opts).cells)
  {
    PaintRecords(cells, gen, x, y, fp, opts);
    PaintCells(cells, gen, x, y, fp, opts);
  }

  /** Offsets that differ resolve to different cells. */
  lemma DistinctTargets(cells: seq<Cell>, x: int, y: int, fp: seq<Offset>)
    requires Resolves(cells, x, y, fp) && NoDup(fp)
    ensures forall k, l :: 0 <= k < l < |fp| ==> Target(cells, x, y, fp[k]) != Target(cells, x, y, fp[l])
  {
    forall k, l | 0 <= k < l < |fp| ensures Target(cells, x, y, fp[k]) != Target(cells, x, y, fp[l]) {
      LookupFinds(cells, x + fp[k].dr, y + fp[k].dc);
      LookupFinds(cells, x + fp[l].dr, y + fp[l].dc);
    }
  }

  /** Each record holds the fill its cell had before the shape was drawn. */
  ghost predicate PriorFills(cells: seq<Cell>, x: int, y: int, fp: seq<Offset>, ps: seq<Prior>) {
    |ps| == |fp| &&
    forall k :: 0 <= k < |fp| ==>
      Target(cells, x, y, fp[k]).Some? && Target(cells, x, y, fp[k]).value < |cells| &&
      ps[k].bgColor == cells[Target(cells, x, y, fp[k]).value].fill
  }

  /** Each covered cell is exactly the repaint of what it was. */
  ghost predicate RepaintedCells(cells: seq<Cell>, x: int, y: int, fp: seq<Offset>, opts: Opts, cs: seq<Cell>) {
    |cs| == |cells| &&
    forall i :: 0 <= i < |cells| && Covers(cells, x, y, fp, i) ==> cs[i] == Repaint(cells[i], opts)
  }

  /** Without repeated offsets, the cell the last offset resolves to is not
      covered by the offsets before it. */
  lemma LastTargetFresh(cells: seq<Cell>, x: int, y: int, fp: seq<Offset>)
    requires fp != [] && Resolves(cells, x, y, fp) && NoDup(fp)
    ensures !Covers(cells, x, y, fp[..|fp| - 1], Target(cells, x, y, fp[|fp| - 1]).value)
  {
    var n := |fp| - 1;
    var i0 := Target(cells, x, y, fp[n]).value;
    if Covers(cells, x, y, fp[..n], i0) {
      var k :| 0 <= k < n && Target(cells, x, y, fp[..n][k]) == Some(i0);
      assert fp[..n][k] == fp[k];
      DistinctTargets(cells, x, y, fp);
      assert false;
    }
  }

  /** When the footprint has no repeated offset, each record holds the fill
      its cell had before the shape was drawn. */
  lemma {:induction false} PaintPriorFills(cells: seq<Cell>, gen: nat, x: int, y: int, fp: seq<Offset>, opts: Opts)
    requires Resolves(cells, x, y, fp) && NoDup(fp)
    ensures PaintSeq(cells, gen, x, y, fp, opts).Done?
    ensures PriorFills(cells, x, y, fp, PaintSeq(cells, gen, x, y, fp, opts).priors)
  {
    if fp != [] {
      var n := |fp| - 1;
      ResolvesPrefix(cells, x, y, fp);
      assert NoDup(fp[..n]);
      PaintPriorFills(cells, gen, x, y, fp[..n], opts);
      PaintEffect(cells, gen, x, y, fp[..n], opts);
      var prev := PaintSeq(cells, gen, x, y, fp[..n], opts);
      PaintSnoc(cells, gen, x, y, fp, opts);
      LastTargetFresh(cells, x, y, fp);
      var i0 := Target(cells, x, y, fp[n]).value;
      var r := PaintSeq(cells, gen, x, y, fp, opts);
      assert prev.cells[i0] == cells[i0];
      assert r.priors == prev.priors + [Prior(CellRef(gen, i0), prev.cells[i0].fill, opts.indexes)];
      forall k | 0 <= k < |fp|
        ensures Target(cells, x, y, fp[k]).Some? && Target(cells, x, y, fp[k]).value < |cells|
        ensures r.priors[k].bgColor == cells[Target(cells, x, y, fp[k]).value].fill
      {
        if k < n {
          assert fp[..n][k] == fp[k];
          assert r.priors[k] == prev.priors[k];
        }
      }
    }
  }

  /** When the footprint has no repeated offset, each covered cell is
      exactly the repaint of what it was. */
  lemma {:induction false} PaintRepainted(cells: seq<Cell>, gen: nat, x: int, y: int, fp: seq<Offset>, opts: Opts)
    requires Resolves(cells, x, y, fp) && NoDup(fp)
    ensures PaintSeq(cells, gen, x, y, fp, opts).Done?
    ensures RepaintedCells(cells, x, y, fp, opts, PaintSeq(cells, gen, x, y, fp, opts).cells)
  {
    PaintEffect(cells, gen, x, y, fp, opts);
    if fp != [] {
      var n := |fp| - 1;
      ResolvesPrefix(cells, x, y, fp);
      assert NoDup(fp[..n]);
      PaintRepainted(cells, gen, x, y, fp[..n], opts);
      PaintEffect(cells, gen, x, y, fp[..n], opts);
      PaintSnoc(cells, gen, x, y, fp, opts);
      LastTargetFresh(cells, x, y, fp);
      var r := PaintSeq(cells, gen, x, y, fp, opts);
      forall i | 0 <= i < |cells| && Covers(cells, x, y, fp, i)
        ensures r.cells[i] == Repaint(cells[i], opts)
      {
        CoversPrefix(cells, x, y, fp, i);
      }
    }
  }

  /** After a colliding shape is drawn, every cell of its footprint blocks. */
  lemma PaintBlocks(cells: seq<Cell>, gen: nat, x: int, y: int, fp: seq<Offset>, opts: Opts)
    requires Resolves(cells, x, y, fp) && opts.collide
    ensures forall k :: 0 <= k < |fp| ==> Blocked(PaintSeq(cells, gen, x, y, fp, opts).cells, x + fp[k].dr, y + fp[k].dc)
  {
    PaintEffect(cells, gen, x, y, fp, opts);
    var r := PaintSeq(cells, gen, x, y, fp, opts);
    PaintLayout(cells, gen, x, y, fp, opts);
    forall k | 0 <= k < |fp| ensures Blocked(r.cells, x + fp[k].dr, y + fp[k].dc) {
      LookupSameLayout(cells, r.cells, x + fp[k].dr, y + fp[k].dc);
      assert Covers(cells, x, y, fp, Target(cells, x, y, fp[k]).value);
    }
  }

  // ---------------------------------------------------------------------
  // Undo

  /** Undo never moves a cell: the table keeps its layout. */
  lemma {:induction false} UndoLayout(cells: seq<Cell>, gen: nat, ps: seq<Prior>)
    ensures SameLayout(cells, UndoSeq(cells, gen, ps))
  {
    if ps != [] {
      UndoLayout(cells, gen, ps[..|ps| - 1]);
    }
  }

  /** An entry recorded on an earlier grid generation leaves the table
      unchanged. */
  lemma {:induction false} UndoStale(cells: seq<Cell>, gen: nat, ps: seq<Prior>)
    requires forall k :: 0 <= k < |ps| ==> ps[k].cell.gen != gen
    ensures UndoSeq(cells, gen, ps) == cells
  {
    if ps != [] {
      assert forall k :: 0 <= k < |ps| - 1 ==> ps[..|ps| - 1][k] == ps[k];
      UndoStale(cells, gen, ps[..|ps| - 1]);
    }
  }

  ghost predicate CurrentRefs(cells: seq<Cell>, gen: nat, ps: seq<Prior>) {
    forall k :: 0 <= k < |ps| ==> ps[k].cell.gen == gen && ps[k].cell.index < |cells|
  }

  ghost predicate DistinctRefs(ps: seq<Prior>) {
    forall k, l :: 0 <= k < l < |ps| ==> ps[k].cell.index != ps[l].cell.index
  }

  lemma {:induction false} UndoLength(cells: seq<Cell>, gen: nat, ps: seq<Prior>)
    ensures |UndoSeq(cells, gen, ps)| == |cells|
  {
    if ps != [] {
      UndoLength(cells, gen, ps[..|ps| - 1]);
    }
  }

  /** Undoing an entry whose records name distinct cells of the current
      table restores each of those cells from its record. */
  lemma {:induction false} UndoRestores(cells: seq<Cell>, gen: nat, ps: seq<Prior>)
    requires CurrentRefs(cells, gen, ps) && DistinctRefs(ps)
    ensures |UndoSeq(cells, gen, ps)| == |cells|
    ensures forall k :: 0 <= k < |ps| ==>
      UndoSeq(cells, gen, ps)[ps[k].cell.index] == Restore(cells[ps[k].cell.index], ps[k])
  {
    UndoLength(cells, gen, ps);
    if ps != [] {
      var n := |ps| - 1;
      assert forall k :: 0 <= k < n ==> ps[..n][k] == ps[k];
      UndoRestores(cells, gen, ps[..n]);
      UndoUntouched(cells, gen, ps[..n]);
    }
  }

  /** Undo leaves every cell that no record names unchanged. */
  lemma {:induction false} UndoUntouched(cells: seq<Cell>, gen: nat, ps: seq<Prior>)
    ensures |UndoSeq(cells, gen, ps)| == |cells|
    ensures forall i :: 0 <= i < |cells| && (forall k :: 0 <= k < |ps| ==> ps[k].cell.index != i) ==>
      UndoSeq(cells, gen, ps)[i] == cells[i]
  {
    UndoLength(cells, gen, ps);
    if ps != [] {
      var n := |ps| - 1;
      assert forall k :: 0 <= k < n ==> ps[..n][k] == ps[k];
      UndoUntouched(cells, gen, ps[..n]);
    }
  }

  /** Undoing a repaint of a cell that did not collide gives the cell back. */
  lemma UndoCovered(cells: seq<Cell>, gen: nat, x: int, y: int, fp: seq<Offset>, opts: Opts,
                    cs: seq<Cell>, ps: seq<Prior>, k: int)
    requires RecordsFor(cells, gen, x, y, fp, opts, ps) && PriorFills(cells, x, y, fp, ps)
    requires RepaintedCells(cells, x, y, fp, opts, cs)
    requires 0 <= k < |fp| && !Blocked(cells, x + fp[k].dr, y + fp[k].dc)
    ensures ps[k].cell.index < |cells|
    ensures Restore(cs[ps[k].cell.index], ps[k]) == cells[ps[k].cell.index]
  {
    var i := ps[k].cell.index;
    assert Covers(cells, x, y, fp, i);
  }

  /** A cell the footprint does not cover is named by no record. */
  lemma UncoveredUnnamed(cells: seq<Cell>, gen: nat, x: int, y: int, fp: seq<Offset>, opts: Opts, ps: seq<Prior>, i: int)
    requires RecordsFor(cells, gen, x, y, fp, opts, ps) && !Covers(cells, x, y, fp, i)
    ensures forall k :: 0 <= k < |ps| ==> ps[k].cell.index != i
  {
  }

  /** Undo after drawing: when every offset of a footprint without repeats
      resolves and none of its cells collided beforehand (what `drawTile`
      and `drawHQ` check), undoing the recorded entry gives back exactly
      the table as it was before the shape was drawn. */
  lemma PaintUndo(cells: seq<Cell>, gen: nat, x: int, y: int, fp: seq<Offset>, opts: Opts)
    requires Resolves(cells, x, y, fp) && NoDup(fp) && !AnyBlocked(cells, x, y, fp)
    ensures PaintSeq(cells, gen, x, y, fp, opts).Done?
    ensures UndoSeq(PaintSeq(cells, gen, x, y, fp, opts).cells, gen, PaintSeq(cells, gen, x, y, fp, opts).priors) == cells
  {
    PaintEffect(cells, gen, x, y, fp, opts);
    PaintPriorFills(cells, gen, x, y, fp, opts);
    PaintRepainted(cells, gen, x, y, fp, opts);
    DistinctTargets(cells, x, y, fp);
    var r := PaintSeq(cells, gen, x, y, fp, opts);
    assert CurrentRefs(r.cells, gen, r.priors) && DistinctRefs(r.priors);
    UndoRestores(r.cells, gen, r.priors);
    UndoUntouched(r.cells, gen, r.priors);
    var u := UndoSeq(r.cells, gen, r.priors);
    forall i | 0 <= i < |cells| ensures u[i] == cells[i] {
      if Covers(cells, x, y, fp, i) {
        var k :| 0 <= k < |fp| && Target(cells, x, y, fp[k]) == Some(i);
        UndoCovered(cells, gen, x, y, fp, opts, r.cells, r.priors, k);
      } else {
        UncoveredUnnamed(cells, gen, x, y, fp, opts, r.priors, i);
      }
    }
  }

  // ---------------------------------------------------------------------
  // Replay

  lemma UnlabelledSnoc(items: seq<Shape>)
    requires items != []
    ensures UnlabelledAll(items) == UnlabelledAll(items[..|items| - 1]) + [Unlabelled(items[|items| - 1])]
  {
  }

  /** A replay that completes pushes exactly the given list, without
      labels, and one history entry per shape; the table keeps its layout
      in any case. */
  lemma {:induction false} ReplayShapes(cells: seq<Cell>, gen: nat, items: seq<Shape>)
    ensures SameLayout(cells, Replay(cells, gen, items).cells)
    ensures Replay(cells, gen, items).ok ==>
      Replay(cells, gen, items).shapes == UnlabelledAll(items) && |Replay(cells, gen, items).entries| == |items|
    ensures |Replay(cells, gen, items).shapes| == |Replay(cells, gen, items).entries| <= |items|
  {
    if items != [] {
      var n := |items| - 1;
      ReplayShapes(cells, gen, items[..n]);
      var r := Replay(cells, gen, items[..n]);
      PaintLayout(r.cells, gen, items[n].x, items[n].y, ShapeFootprint(items[n]), items[n].opts);
      UnlabelledSnoc(items);
    }
  }

  lemma ResolvesSameLayout(a: seq<Cell>, b: seq<Cell>, x: int, y: int, fp: seq<Offset>)
    requires SameLayout(a, b)
    ensures Resolves(a, x, y, fp) <==> Resolves(b, x, y, fp)
  {
    forall k | 0 <= k < |fp| ensures Target(a, x, y, fp[k]) == Target(b, x, y, fp[k]) {
      LookupSameLayout(a, b, x + fp[k].dr, y + fp[k].dc);
    }
  }

  /** Every shape of the list has a footprint that resolves on cells. */
  ghost predicate AllResolve(cells: seq<Cell>, items: seq<Shape>) {
    forall k :: 0 <= k < |items| ==> Resolves(cells, items[k].x, items[k].y, ShapeFootprint(items[k]))
  }

  lemma AllResolveSnoc(cells: seq<Cell>, items: seq<Shape>)
    requires items != []
    ensures var n := |items| - 1;
      AllResolve(cells, items) <==>
      AllResolve(cells, items[..n]) && Resolves(cells, items[n].x, items[n].y, ShapeFootprint(items[n]))
  {
    var n := |items| - 1;
    assert forall k :: 0 <= k < n ==> items[..n][k] == items[k];
  }

  /** A replay completes exactly when the footprint of every shape in the
      list resolves on the table it starts from. */
  lemma {:induction false} ReplayOkIff(cells: seq<Cell>, gen: nat, items: seq<Shape>)
    ensures Replay(cells, gen, items).ok <==>
      forall k :: 0 <= k < |items| ==> Resolves(cells, items[k].x, items[k].y, ShapeFootprint(items[k]))
  {
    if items != [] {
      var n := |items| - 1;
      ReplayOkIff(cells, gen, items[..n]);
      ReplayShapes(cells, gen, items[..n]);
      var r := Replay(cells, gen, items[..n]);
      var s := items[n];
      var p := PaintSeq(r.cells, gen, s.x, s.y, ShapeFootprint(s), s.opts);
      assert Replay(cells, gen, items).ok == (r.ok && p.Done?);
      PaintDoneIff(r.cells, gen, s.x, s.y, ShapeFootprint(s), s.opts);
      ResolvesSameLayout(cells, r.cells, s.x, s.y, ShapeFootprint(s));
      AllResolveSnoc(cells, items);
    }
  }

  /** One more shape of the list, after the shapes before it were all
      drawn: its footprint is painted on the table they left. */
  lemma ReplayNext(cells: seq<Cell>, gen: nat, items: seq<Shape>, k: int)
    requires 0 <= k < |items| && Replay(cells, gen, items[..k]).ok
    ensures var r := Replay(cells, gen, items[..k]);
      var s := items[k];
      var p := PaintSeq(r.cells, gen, s.x, s.y, ShapeFootprint(s), s.opts);
      Replay(cells, gen, items[..k + 1]) ==
        if p.Done? then Replayed(p.cells, r.shapes + [Unlabelled(s)], r.entries + [p.priors], true)
        else Replayed(p.cells, r.shapes, r.entries, false)
  {
    assert items[..k + 1][..k] == items[..k];
    assert items[..k + 1][k] == items[k];
  }

  /** Once a shape has thrown, the shapes after it are not drawn: the
      replay of the whole list is that of the prefix. */
  lemma {:induction false} ReplayCrashSticks(cells: seq<Cell>, gen: nat, items: seq<Shape>, n: int)
    requires 0 <= n <= |items| && !Replay(cells, gen, items[..n]).ok
    ensures Replay(cells, gen, items) == Replay(cells, gen, items[..n])
  {
    if n < |items| {
      var m := |items| - 1;
      assert items[..m][..n] == items[..n];
      ReplayCrashSticks(cells, gen, items[..m], n);
    } else {
      assert items[..n] == items;
    }
  }

  /** Replay ignores labels: replaying the unlabelled records draws the
      same cells, records and entries as replaying the originals. */
  lemma {:induction false} ReplayIgnoresLabels(cells: seq<Cell>, gen: nat, items: seq<Shape>)
    ensures Replay(cells, gen, UnlabelledAll(items)) == Replay(cells, gen, items)
  {
    if items != [] {
      var n := |items| - 1;
      UnlabelledSnoc(items);
      assert UnlabelledAll(items)[..n] == UnlabelledAll(items[..n]);
      ReplayIgnoresLabels(cells, gen, items[..n]);
    }
  }

  /** The generation only names the polygons in the records: the walk
      completes, and leaves the same cells, whatever generation it runs in. */
  lemma {:induction false} PaintAnyGen(cells: seq<Cell>, g1: nat, g2: nat, x: int, y: int, fp: seq<Offset>, opts: Opts)
    ensures PaintSeq(cells, g1, x, y, fp, opts).Done? == PaintSeq(cells, g2, x, y, fp, opts).Done?
    ensures PaintSeq(cells, g1, x, y, fp, opts).cells == PaintSeq(cells, g2, x, y, fp, opts).cells
  {
    if fp != [] {
      PaintAnyGen(cells, g1, g2, x, y, fp[..|fp| - 1], opts);
    }
  }

  /** A replay completes, and draws the same cells and shape records,
      whatever generation it runs in; only the history entries name it. */
  lemma {:induction false} ReplayAnyGen(cells: seq<Cell>, g1: nat, g2: nat, items: seq<Shape>)
    ensures Replay(cells, g1, items).ok == Replay(cells, g2, items).ok
    ensures Replay(cells, g1, items).cells == Replay(cells, g2, items).cells
    ensures Replay(cells, g1, items).shapes == Replay(cells, g2, items).shapes
  {
    if items != [] {
      var n := |items| - 1;
      var s := items[n];
      ReplayAnyGen(cells, g1, g2, items[..n]);
      PaintAnyGen(Replay(cells, g1, items[..n]).cells, g1, g2, s.x, s.y, ShapeFootprint(s), s.opts);
    }
  }

  /** A placement that completes on the table a completed replay left
      (`drawTile`, `drawHQ`, `drawMud` in the same generation) takes the
      table, the shape records and the history to those of the replay of
      the list with the placed shape appended. */
  lemma ReplayPlaced(cells: seq<Cell>, gen: nat, items: seq<Shape>, x: int, y: int, coords: seq<CoordRow>, opts: Opts)
    requires Replay(cells, gen, items).ok
    ensures var r := Replay(cells, gen, items);
      var p := PaintSeq(r.cells, gen, x, y, Footprint(coords, IsOdd(x)), opts);
      var s := Shape(x, y, coords, opts, None);
      p.Done? ==> Replay(cells, gen, items + [s]) == Replayed(p.cells, r.shapes + [s], r.entries + [p.priors], true)
  {
    var s := Shape(x, y, coords, opts, None);
    assert (items + [s])[..|items|] == items;
  }

  /** Save, then load on a table laid out the same way in a later
      generation: replaying the shape list that a completed replay pushed
      draws what the original list draws in that generation, and so the
      same cells and shape records that were saved. */
  lemma ReplaySavedList(cells: seq<Cell>, g1: nat, g2: nat, items: seq<Shape>)
    requires Replay(cells, g1, items).ok
    ensures var saved := Replay(cells, g1, items).shapes;
      Replay(cells, g2, saved) == Replay(cells, g2, items) &&
      Replay(cells, g2, saved).ok &&
      Replay(cells, g2, saved).cells == Replay(cells, g1, items).cells &&
      Replay(cells, g2, saved).shapes == saved
  {
    ReplayShapes(cells, g1, items);
    ReplayIgnoresLabels(cells, g2, items);
    ReplayAnyGen(cells, g1, g2, items);
  }
}
