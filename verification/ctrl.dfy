/**
 * The control panel `HexagonalLayoutManagerCtrl` (src/ctrl.js) as a class:
 * the selected entity type, the `selected` marks of the two selector
 * buttons, the label dialog and the grid element it drives. Its handlers
 * are methods; each one is proved against the contracts of `Draw`.
 */
module Ctrl {
  import opened Cells
  import opened Footprints
  import opened Painting
  import opened Draw

  /** `selectedType`: nothing, `'hq'` or `'tile'`. */
  datatype Mode = NoMode | HQMode | TileMode

  /** A selector button pressed while `m` is selected: pressing the selected
      entity type clears the selection, pressing another one selects it. */
  function Toggle(m: Mode, pressed: Mode): (r: Mode)
    requires pressed != NoMode
    ensures r == NoMode <==> m == pressed
    ensures r != NoMode ==> r == pressed
  {
    if m == pressed then NoMode else pressed
  }

  /** Pressing the same selector twice gives back the selection it started
      from, when that was nothing or the pressed type. */
  lemma ToggleTwice(m: Mode, pressed: Mode)
    requires pressed != NoMode && (m == NoMode || m == pressed)
    ensures Toggle(Toggle(m, pressed), pressed) == m
  {
  }

  /** The text `ip.value = shape.label || null` puts in the dialog's input:
      the label, or the empty string when there is none. */
  function LabelInput(s: Shape): (text: string)
    ensures s.labelText.Some? ==> text == s.labelText.value
    ensures s.labelText.None? ==> text == ""
  {
    if s.labelText.Some? then s.labelText.value else ""
  }

  class LayoutControl {
    /** The grid element named by the `grid` attribute. */
    const grid: LayoutManager
    var selectedType: Mode
    /** The `selected` class of the toolbar buttons, in order: select-hq,
        select-tile. */
    const marks: array<bool>
    /** The label dialog is shown. */
    var dialogOpen: bool
    /** The text of the dialog's input. */
    var input: string
    /** Once the dialog's save button has its listener (`bound`), the index
        of the shape record that listener writes to. */
    var bound: Option<nat>

    /** Exactly the button of the selected type carries the `selected` mark,
        and the grid keeps its own invariant. */
    ghost predicate Valid()
      reads this, marks, grid
    {
      marks.Length == 2 &&
      marks[0] == (selectedType == HQMode) && marks[1] == (selectedType == TileMode) &&
      grid.Valid()
    }

    /** The panel is attached to a grid and draws its toolbar: nothing is
        selected, no mark is set and the dialog is closed. */
    constructor(g: LayoutManager)
      requires g.Valid()
      ensures Valid() && grid == g && fresh(marks)
      ensures selectedType == NoMode && !dialogOpen && input == "" && bound == None
    {
      grid := g;
      selectedType := NoMode;
      marks := new bool[2](_ => false);
      dialogOpen := false;
      input := "";
      bound := None;
    }

    /** The listener of a selector button: clears the mark of every toolbar
        button, then toggles the selection and marks the pressed button when
        it became selected. */
    method Select(pressed: Mode)
      requires Valid() && pressed != NoMode
      modifies this, marks
      ensures Valid()
      ensures selectedType == Toggle(old(selectedType), pressed)
      ensures dialogOpen == old(dialogOpen) && input == old(input) && bound == old(bound)
    {
      for i := 0 to marks.Length
        invariant forall j :: 0 <= j < i ==> !marks[j]
        modifies marks
      {
        marks[i] := false;
      }
      if selectedType == pressed {
        selectedType := NoMode;
        return;
      }
      selectedType := pressed;
      if pressed == HQMode {
        marks[0] := true;
      } else {
        marks[1] := true;
      }
    }

    /** The `select-hq` button. */
    method ClickSelectHQ()
      requires Valid()
      modifies this, marks
      ensures Valid()
      ensures selectedType == (if old(selectedType) == HQMode then NoMode else HQMode)
      ensures marks[0] == (old(selectedType) != HQMode) && !marks[1]
      ensures dialogOpen == old(dialogOpen) && input == old(input) && bound == old(bound)
    {
      Select(HQMode);
    }

    /** The `select-tile` button. */
    method ClickSelectTile()
      requires Valid()
      modifies this, marks
      ensures Valid()
      ensures selectedType == (if old(selectedType) == TileMode then NoMode else TileMode)
      ensures marks[1] == (old(selectedType) != TileMode) && !marks[0]
      ensures dialogOpen == old(dialogOpen) && input == old(input) && bound == old(bound)
    {
      Select(TileMode);
    }

    /** The `tile-click` listener on the cell at index i of the grid's table:
        an HQ or a tile anchored on that cell when one is selected. With
        nothing selected, a cell tagged as part of an HQ opens the label
        dialog on the last shape record (every record matches the cell's
        undefined shape index); the first time, the dialog's save button is
        bound to that record. With no record at all the listener throws
        after showing the dialog. */
    method ClickCell(i: int)
      requires Valid() && 0 <= i < |grid.cells|
      modifies this, grid
      ensures Valid() && selectedType == old(selectedType)
      ensures old(selectedType) == HQMode ==>
        var r, c := old(grid.cells[i].row), old(grid.cells[i].col);
        (Collides(old(grid.cells), r, c, HQCoords(r)) ==> grid.cells == old(grid.cells) && grid.shapes == old(grid.shapes) && grid.history == old(grid.history)) &&
        (!Collides(old(grid.cells), r, c, HQCoords(r)) ==>
          grid.ShapeDrawn(old(grid.cells), old(grid.shapes), old(grid.history), grid.generation, r, c, HQCoords(r),
                          EntityOpts(old(grid.gridOpts), HQColor, true), |grid.shapes| == |old(grid.shapes)| + 1))
      ensures old(selectedType) == TileMode ==>
        var r, c := old(grid.cells[i].row), old(grid.cells[i].col);
        (Collides(old(grid.cells), r, c, TileCoords) ==> grid.cells == old(grid.cells) && grid.shapes == old(grid.shapes) && grid.history == old(grid.history)) &&
        (!Collides(old(grid.cells), r, c, TileCoords) ==>
          grid.ShapeDrawn(old(grid.cells), old(grid.shapes), old(grid.history), grid.generation, r, c, TileCoords,
                          EntityOpts(old(grid.gridOpts), TileColor, true), |grid.shapes| == |old(grid.shapes)| + 1))
      ensures old(selectedType) != NoMode ==>
        grid.Config() == old(grid.Config()) && dialogOpen == old(dialogOpen) && input == old(input) && bound == old(bound)
      ensures old(selectedType) == NoMode ==>
        grid.cells == old(grid.cells) && grid.shapes == old(grid.shapes) && grid.history == old(grid.history) &&
        grid.Config() == old(grid.Config())
      ensures old(selectedType) == NoMode && !old(grid.cells[i].entityHQ) ==>
        dialogOpen == old(dialogOpen) && input == old(input) && bound == old(bound)
      ensures old(selectedType) == NoMode && old(grid.cells[i].entityHQ) ==>
        dialogOpen &&
        (old(grid.shapes) == [] ==> input == old(input) && bound == old(bound)) &&
        (old(grid.shapes) != [] ==>
          input == LabelInput(old(grid.shapes)[|old(grid.shapes)| - 1]) &&
          bound == (if old(bound).None? then Some(|old(grid.shapes)| - 1) else old(bound)))
      ensures old(Untagged(grid.cells)) ==> dialogOpen == old(dialogOpen) && bound == old(bound)
    {
      var cell := grid.cells[i];
      if selectedType == HQMode {
        var _ := grid.DrawHQ(cell.row, cell.col);
      } else if selectedType == TileMode {
        var _ := grid.DrawTile(cell.row, cell.col);
      } else if cell.entityHQ {
        var shapes := grid.shapes;
        dialogOpen := true;
        if shapes == [] {
          return;
        }
        var target := |shapes| - 1;
        input := LabelInput(shapes[target]);
        if bound.None? {
          bound := Some(target);
        }
      }
    }

    /** The dialog's save button: once bound, its listener writes the input
        as the label of the record it was bound to and closes the dialog;
        before that the button has no listener and nothing happens. */
    method ConfirmLabel(text: string)
      requires Valid()
      modifies this, grid
      ensures Valid() && input == text && bound == old(bound) && selectedType == old(selectedType)
      ensures bound.Some? ==> !dialogOpen && grid.shapes == SetLabelAt(old(grid.shapes), bound.value, text)
      ensures bound.None? ==> dialogOpen == old(dialogOpen) && grid.shapes == old(grid.shapes)
      ensures grid.cells == old(grid.cells) && grid.history == old(grid.history) && grid.Config() == old(grid.Config())
    {
      input := text;
      if bound.Some? {
        grid.SetLabel(bound.value, input);
        dialogOpen := false;
      }
    }

    /** The `save` button: the grid's shape records are stored under `hqs`. */
    method Save()
      requires Valid()
      modifies grid
      ensures Valid()
      ensures grid.storage == old(grid.storage)[StorageKey("hqs") := old(grid.shapes)]
      ensures grid.cells == old(grid.cells) && grid.shapes == old(grid.shapes) && grid.history == old(grid.history)
      ensures grid.generation == old(grid.generation) && grid.gridOpts == old(grid.gridOpts)
      ensures grid.widthAttr == old(grid.widthAttr) && grid.heightAttr == old(grid.heightAttr)
    {
      grid.StorageSet("hqs", grid.shapes);
    }

    /** The `load` button: the records stored under `hqs` (none when the key
        was never set) are drawn on a fresh grid, after the records and
        history already there. */
    method Load()
      requires Valid()
      modifies grid
      ensures Valid()
      ensures var items := if StorageKey("hqs") in old(grid.storage) then old(grid.storage)[StorageKey("hqs")] else [];
        var size := CanvasSize(old(grid.widthAttr), old(grid.heightAttr));
        var blank := NewGrid(Extent(Fit(size.0)), Extent(Fit(size.1)), false);
        grid.Extends(old(grid.shapes), old(grid.history), Replay(blank, grid.generation, items))
      ensures grid.storage == old(grid.storage)
      ensures grid.widthAttr == old(grid.widthAttr) && grid.heightAttr == old(grid.heightAttr)
      ensures grid.generation == old(grid.generation) + 1 && grid.gridOpts == Opts(White, false, false)
    {
      var stored := grid.StorageGet("hqs");
      var items := if stored.Some? then stored.value else [];
      grid.Draw(items);
    }

    /** The `refresh` button: the stored list becomes empty and the page is
        reloaded, which creates the grid and the panel afresh. */
    method Refresh()
      requires Valid()
      modifies this, marks, grid
      ensures Valid()
      ensures grid.storage == old(grid.storage)[StorageKey("hqs") := []]
      ensures grid.shapes == [] && grid.history == []
      ensures var size := CanvasSize(grid.widthAttr, grid.heightAttr);
        grid.cells == NewGrid(Extent(Fit(size.0)), Extent(Fit(size.1)), false)
      ensures grid.widthAttr == old(grid.widthAttr) && grid.heightAttr == old(grid.heightAttr)
      ensures grid.gridOpts == Opts(White, false, false)
      ensures selectedType == NoMode && !dialogOpen && input == "" && bound == None
    {
      grid.StorageSet("hqs", []);
      grid.Reload();
      selectedType := NoMode;
      marks[0], marks[1] := false, false;
      dialogOpen := false;
      input := "";
      bound := None;
    }
  }
}
