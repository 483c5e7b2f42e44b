/**
 * The ribbon buttons that drive the add-in: copying the selected table's
 * layout (or clearing the held layout), and writing the stored default
 * style onto the selected table.
 */
module Ribbon {
  import opened Host
  import opened Settings
  import opened Layout
  import opened AddInState

  /**
   * The table shape a selection denotes for the ribbon buttons: the first
   * shape of the range when shapes or text are selected and that shape has a
   * table. Every failure while inspecting the selection yields None.
   */
  function GetSelectedTableShape(sel: Selection): (r: Option<Shape>)
    ensures r.Some? <==>
      && (sel.kind == Some(ShapesSelected) || sel.kind == Some(TextSelected))
      && sel.range.Some? && |sel.range.value| > 0 && sel.range.value[0].content.TableOf?
    ensures r.Some? ==> r.value == sel.range.value[0]
  {
    if sel.kind == Some(ShapesSelected) || sel.kind == Some(TextSelected) then FirstTableShape(sel.range)
    else None
  }

  /**
   * Whatever the selection-change handler writes onto, the ribbon buttons
   * would also pick; the converse fails for a text selection inside a table,
   * which the buttons accept and the handler ignores.
   */
  lemma HandlerNarrowerThanButtons(held: Option<TableLayoutInfo>, copiedFrom: int, sel: Selection)
    ensures Decide(held, copiedFrom, false, sel).ApplyTo? ==>
      GetSelectedTableShape(sel) == Some(Decide(held, copiedFrom, false, sel).shape)
    ensures sel.kind == Some(TextSelected) && GetSelectedTableShape(sel).Some? ==>
      Decide(held, copiedFrom, false, sel) == Ignore
  {
  }

  /**
   * The copy button: with a table selected, captures its layout and
   * remembers the shape's id; with none, clears the held layout and the id.
   * A capture that throws escapes before either field is assigned.
   */
  method OnTableLayoutCopy(addIn: AddIn, sel: Selection, faults: set<Fault>) returns (raised: bool)
    modifies addIn
    ensures addIn.applyingLayout == old(addIn.applyingLayout) && addIn.applied == old(addIn.applied)
    ensures GetSelectedTableShape(sel).None? ==>
      !raised && addIn.copiedTableLayout == None && addIn.copiedFromShapeId == -1
    ensures GetSelectedTableShape(sel).Some? ==>
      var shape := GetSelectedTableShape(sel).value;
      && (raised <==> CopyThrows(shape.content.table, faults))
      && (raised ==> addIn.copiedTableLayout == old(addIn.copiedTableLayout)
                     && addIn.copiedFromShapeId == old(addIn.copiedFromShapeId))
      && (!raised ==> addIn.copiedTableLayout == Some(CapturedLayout(shape.content.table, faults))
                      && addIn.copiedFromShapeId == shape.id)
  {
    var tableShape := GetSelectedTableShape(sel);
    if tableShape.Some? {
      var layout := CopyLayout(tableShape.value.content.table, faults);
      if layout.Threw? {
        return true;
      }
      addIn.copiedTableLayout := Some(layout.value);
      addIn.copiedFromShapeId := tableShape.value.id;
    } else {
      addIn.copiedTableLayout := None;
      addIn.copiedFromShapeId := -1;
    }
    raised := false;
  }

  /**
   * The apply-default button: with no table selected nothing happens;
   * otherwise the settings are loaded (falling back to the built-in
   * default) and written onto the selected table once. The add-in's held
   * layout and source id are outside its frame, so they stay as they were.
   */
  method OnApplyDefaultLayout(sel: Selection, stored: StoredSettings, faults: set<Fault>) returns (raised: bool)
    modifies SelectedTables(sel)
    ensures GetSelectedTableShape(sel).None? ==> !raised && unchanged(SelectedTables(sel))
    ensures GetSelectedTableShape(sel).Some? ==>
      var t := GetSelectedTableShape(sel).value.content.table;
      && (raised <==> CountRead in faults)
      && forall i, j :: 0 <= i < t.Length0 && 0 <= j < t.Length1 ==>
           t[i, j] == if raised then old(t[i, j])
                      else LaidOutCell(old(t[i, j]), i + 1, j + 1, DefaultLayout(Load(stored)), faults)
  {
    var tableShape := GetSelectedTableShape(sel);
    if tableShape.None? {
      return false;
    }
    var settings := Load(stored);
    var ok := ApplyDefaultLayout(tableShape.value.content.table, Some(settings), faults);
    raised := !ok;
  }
}
