/**
 * Shape footprints (src/draw.js): the `coords` a shape is drawn from, the
 * way `_drawShape` turns them into relative cell offsets, the offsets that
 * `_shapeCollide` probes, and the coordinate tables of a Tile and an HQ.
 * A hexagonal distance on the odd-row-shifted layout serves as the
 * independent reference for the HQ footprint.
 */
module Footprints {

  /** A relative cell offset `[dr, dc]`: row first, then column. */
  datatype Offset = Offset(dr: int, dc: int)

  /** One row of a shape's `coords`: a list of `[dr, dc]` pairs, or the
      two-number row `[start, end]` that `_drawShape` expands into a run of
      columns. */
  datatype CoordRow = Pairs(cords: seq<Offset>) | Range(start: int, end: int)

  /** `x % 2 !== 0`: JavaScript's remainder is negative for a negative odd
      x, but it is non-zero exactly when Dafny's is. */
  predicate IsOdd(x: int) {
    x % 2 != 0
  }

  /** The column shift of the range row at index idx: one to the left when
      the anchor row is odd and idx is even. */
  function RowShift(odd: bool, idx: int): int {
    if odd && idx % 2 == 0 then 1 else 0
  }

  /** The offsets the `while (start <= end)` loop pushes for a range row,
      up to column `end`: `[idx, c - shift]` for c from start on. */
  function Expand(idx: int, start: int, end: int, shift: int): (r: seq<Offset>)
    ensures |r| == if start <= end then end - start + 1 else 0
    ensures forall k :: 0 <= k < |r| ==> r[k].dr == idx
    decreases end - start
  {
    if end < start then [] else Expand(idx, start, end - 1, shift) + [Offset(idx, end - shift)]
  }

  /** A range row expands to end - start + 1 offsets (none when start > end),
      the k-th one in row idx at column start + k - shift. */
  lemma {:induction false} ExpandContents(idx: int, start: int, end: int, shift: int)
    ensures |Expand(idx, start, end, shift)| == if start <= end then end - start + 1 else 0
    ensures forall k :: 0 <= k < |Expand(idx, start, end, shift)| ==>
              Expand(idx, start, end, shift)[k] == Offset(idx, start + k - shift)
    decreases end - start
  {
    if start <= end {
      ExpandContents(idx, start, end - 1, shift);
    }
  }

  /** The offsets `_drawShape` visits for the row at index idx. */
  function RowOffsets(row: CoordRow, idx: int, odd: bool): (r: seq<Offset>)
    ensures row.Range? ==> |r| == if row.start <= row.end then row.end - row.start + 1 else 0
  {
    match row
    case Pairs(cords) => cords
    case Range(start, end) =>
      ExpandContents(idx, start, end, RowShift(odd, idx));
      Expand(idx, start, end, RowShift(odd, idx))
  }

  /** Every offset `_drawShape` visits, row after row, in order. */
  function Footprint(coords: seq<CoordRow>, odd: bool): (r: seq<Offset>)
    ensures coords != [] ==> |RowOffsets(coords[|coords| - 1], |coords| - 1, odd)| <= |r|
  {
    if coords == [] then []
    else Footprint(coords[..|coords| - 1], odd) + RowOffsets(coords[|coords| - 1], |coords| - 1, odd)
  }

  /** The rows drawn so far are drawn first: the footprint of a prefix of
      the rows is a prefix of the footprint, and one more row appends its
      offsets. */
  lemma {:induction false} FootprintPrefix(coords: seq<CoordRow>, k: int, odd: bool)
    requires 0 <= k < |coords|
    ensures Footprint(coords[..k + 1], odd) == Footprint(coords[..k], odd) + RowOffsets(coords[k], k, odd)
    ensures Footprint(coords[..k + 1], odd) <= Footprint(coords, odd)
    decreases |coords| - k
  {
    assert coords[..k + 1][..k] == coords[..k];
    if k + 1 < |coords| {
      FootprintPrefix(coords, k + 1, odd);
    } else {
      assert coords[..k + 1] == coords;
    }
  }

  /** Every offset of the footprint is one of the offsets of some row. */
  lemma {:induction false} FootprintFromRows(coords: seq<CoordRow>, odd: bool)
    ensures forall k :: 0 <= k < |Footprint(coords, odd)| ==>
      exists i :: 0 <= i < |coords| && Footprint(coords, odd)[k] in RowOffsets(coords[i], i, odd)
  {
    if coords != [] {
      var n := |coords| - 1;
      FootprintFromRows(coords[..n], odd);
      var fp, prev := Footprint(coords, odd), Footprint(coords[..n], odd);
      forall k | 0 <= k < |fp|
        ensures exists i :: 0 <= i < |coords| && fp[k] in RowOffsets(coords[i], i, odd)
      {
        if k < |prev| {
          var i :| 0 <= i < n && prev[k] in RowOffsets(coords[..n][i], i, odd);
          assert coords[..n][i] == coords[i];
          assert fp[k] == prev[k];
          assert fp[k] in RowOffsets(coords[i], i, odd);
        } else {
          assert fp[k] == RowOffsets(coords[n], n, odd)[k - |prev|];
          assert fp[k] in RowOffsets(coords[n], n, odd);
        }
      }
      assert forall k :: 0 <= k < |fp| ==> exists i :: 0 <= i < |coords| && fp[k] in RowOffsets(coords[i], i, odd);
    } else {
      assert Footprint(coords, odd) == [];
    }
  }

  /** The offsets `_shapeCollide` probes for one row. It does not expand
      ranges: for a range row each `cord` is a number, `cord[0]` is
      undefined and no cell is found, so the row probes nothing. */
  function RowProbes(row: CoordRow): (r: seq<Offset>)
    ensures forall idx, odd, o :: o in r ==> o in RowOffsets(row, idx, odd)
    ensures row.Range? ==> r == []
  {
    match row
    case Pairs(cords) => cords
    case Range(_, _) => []
  }

  /** Every offset `_shapeCollide` probes, row after row, in order. */
  function Probes(coords: seq<CoordRow>): (r: seq<Offset>)
    ensures forall odd, o :: o in r ==> o in Footprint(coords, odd)
  {
    if coords == [] then []
    else Probes(coords[..|coords| - 1]) + RowProbes(coords[|coords| - 1])
  }

  lemma ProbesSnoc(coords: seq<CoordRow>, k: int)
    requires 0 <= k < |coords|
    ensures Probes(coords[..k + 1]) == Probes(coords[..k]) + RowProbes(coords[k])
  {
    assert coords[..k + 1][..k] == coords[..k];
  }

  /** A shape made only of pair rows is probed on exactly the offsets it
      is drawn on, whatever the anchor parity. */
  lemma {:induction false} ProbesOfPairs(coords: seq<CoordRow>, odd: bool)
    requires forall i :: 0 <= i < |coords| ==> coords[i].Pairs?
    ensures Probes(coords) == Footprint(coords, odd)
  {
    if coords != [] {
      ProbesOfPairs(coords[..|coords| - 1], odd);
    }
  }

  ghost predicate NoDup(offsets: seq<Offset>) {
    forall i, j :: 0 <= i < j < |offsets| ==> offsets[i] != offsets[j]
  }

  /** `drawTile`'s table: the anchor cell alone. */
  const TileCoords: seq<CoordRow> := [Pairs([Offset(0, 0)])]

  /** `drawHQ`'s table: the anchor and its six neighbours, grouped by rows,
      with one table for an odd anchor row and one for an even one. */
  function HQCoords(x: int): (c: seq<CoordRow>)
    ensures |c| == if IsOdd(x) then 3 else 4
    ensures forall i :: 0 <= i < |c| ==> c[i].Pairs? && 1 <= |c[i].cords| <= 3
  {
    if IsOdd(x) then
      [ Pairs([Offset(0, -1), Offset(-1, 0), Offset(-1, 1)]),
        Pairs([Offset(0, 0)]),
        Pairs([Offset(0, 1), Offset(1, 1), Offset(1, 0)]) ]
    else
      [ Pairs([Offset(0, -1)]),
        Pairs([Offset(-1, -1), Offset(0, 0), Offset(1, -1)]),
        Pairs([Offset(-1, 0), Offset(1, 0)]),
        Pairs([Offset(0, 1)]) ]
  }

  function Abs(n: int): nat {
    if n < 0 then -n else n
  }

  /** The axial column of a cell in a layout where odd rows are shifted
      half a cell to the right (`if (row % 2 !== 0) x += offset`). */
  function AxialQ(row: int, col: int): int {
    col - (row - row % 2) / 2
  }

  /** The number of hexagon steps between two cells of that layout. */
  function HexDistance(r1: int, c1: int, r2: int, c2: int): int {
    var dq := AxialQ(r2, c2) - AxialQ(r1, c1);
    var dr := r2 - r1;
    (Abs(dq) + Abs(dr) + Abs(dq + dr)) / 2
  }

  /** The HQ table as one list of offsets, for each anchor parity. */
  function HQOffsets(odd: bool): seq<Offset> {
    if odd then
      [Offset(0, -1), Offset(-1, 0), Offset(-1, 1), Offset(0, 0), Offset(0, 1), Offset(1, 1), Offset(1, 0)]
    else
      [Offset(0, -1), Offset(-1, -1), Offset(0, 0), Offset(1, -1), Offset(-1, 0), Offset(1, 0), Offset(0, 1)]
  }

  lemma HQFootprintOdd(x: int)
    requires IsOdd(x)
    ensures Footprint(HQCoords(x), true) == HQOffsets(true)
  {
    var c := HQCoords(x);
    assert c[..1][..0] == [];
    assert Footprint(c[..1], true) == [Offset(0, -1), Offset(-1, 0), Offset(-1, 1)];
    assert c[..2][..1] == c[..1];
    assert Footprint(c[..2], true) == [Offset(0, -1), Offset(-1, 0), Offset(-1, 1), Offset(0, 0)];
    assert c[..3] == c;
  }

  lemma HQFootprintEven(x: int)
    requires !IsOdd(x)
    ensures Footprint(HQCoords(x), false) == HQOffsets(false)
  {
    var c := HQCoords(x);
    assert c[..1][..0] == [];
    assert Footprint(c[..1], false) == [Offset(0, -1)];
    assert c[..2][..1] == c[..1];
    assert Footprint(c[..2], false) == [Offset(0, -1), Offset(-1, -1), Offset(0, 0), Offset(1, -1)];
    assert c[..3][..2] == c[..2];
    assert Footprint(c[..3], false) ==
      [Offset(0, -1), Offset(-1, -1), Offset(0, 0), Offset(1, -1), Offset(-1, 0), Offset(1, 0)];
    assert c[..4] == c;
  }

  /** The offsets within one step of an anchor in row x are those of the
      HQ table for x's parity. */
  lemma NearAnchor(x: int, y: int, o: Offset)
    ensures HexDistance(x, y, x + o.dr, y + o.dc) <= 1 <==> o in HQOffsets(IsOdd(x))
  {
  }

  lemma HQOffsetsDistinct(odd: bool)
    ensures |HQOffsets(odd)| == 7 && NoDup(HQOffsets(odd))
  {
  }

  /** The HQ footprint is the hexagonal disc of radius one around the
      anchor: seven distinct offsets, exactly the cells at most one step
      from (x, y), so (0, 0) and the six neighbours; `_shapeCollide`
      probes all of them. */
  lemma HQFootprint(x: int, y: int)
    ensures Probes(HQCoords(x)) == Footprint(HQCoords(x), IsOdd(x))
    ensures |Footprint(HQCoords(x), IsOdd(x))| == 7 && NoDup(Footprint(HQCoords(x), IsOdd(x)))
    ensures forall o :: o in Footprint(HQCoords(x), IsOdd(x)) <==> HexDistance(x, y, x + o.dr, y + o.dc) <= 1
  {
    ProbesOfPairs(HQCoords(x), IsOdd(x));
    if IsOdd(x) {
      HQFootprintOdd(x);
    } else {
      HQFootprintEven(x);
    }
    HQOffsetsDistinct(IsOdd(x));
    forall o ensures o in HQOffsets(IsOdd(x)) <==> HexDistance(x, y, x + o.dr, y + o.dc) <= 1 {
      NearAnchor(x, y, o);
    }
  }
}
