/**
 * The add-in's shared state and the propagation step: while a layout is
 * held, selecting another table shape writes the held layout onto it.
 */
module AddInState {
  import opened Host
  import opened Layout

  /** What one selection-change notification does. */
  datatype Reaction = Ignore | Raise | ApplyTo(shape: Shape)

  /**
   * The decision the handler takes from the state it finds and the new
   * selection. Reading the selection type is not guarded, so a failure there
   * escapes (Raise); every failure while looking for the table shape is
   * swallowed and means there is none.
   */
  function Decide(held: Option<TableLayoutInfo>, copiedFrom: int, applying: bool, sel: Selection): (r: Reaction)
    ensures r.ApplyTo? <==>
      && held.Some? && !applying
      && sel.kind == Some(ShapesSelected)
      && FirstTableShape(sel.range).Some? && FirstTableShape(sel.range).value.id != copiedFrom
    ensures r.ApplyTo? ==> r.shape == sel.range.value[0] && r.shape.content.TableOf? && r.shape.id != copiedFrom
    ensures r.Raise? <==> held.Some? && !applying && sel.kind.None?
  {
    if held.None? || applying then Ignore
    else if sel.kind.None? then Raise
    else if sel.kind.value != ShapesSelected then Ignore
    else match FirstTableShape(sel.range)
      case None => Ignore
      case Some(shape) => if shape.id == copiedFrom then Ignore else ApplyTo(shape)
  }

  /** While the guard is set, or while nothing is held, a notification does nothing. */
  lemma GuardAndEmptyStateIgnore(held: Option<TableLayoutInfo>, copiedFrom: int, applying: bool, sel: Selection)
    ensures applying || held.None? ==> Decide(held, copiedFrom, applying, sel) == Ignore
  {
  }

  /** A text selection never triggers propagation, even inside a table shape. */
  lemma TextSelectionIgnored(held: Option<TableLayoutInfo>, copiedFrom: int, applying: bool, sel: Selection)
    requires sel.kind == Some(TextSelected)
    ensures Decide(held, copiedFrom, applying, sel) == Ignore
  {
  }

  /** Every table `sels` can reach, except those in `except`, is as it was. */
  twostate predicate OthersUnchanged(sels: seq<Selection>, except: set<object>)
    reads TablesOf(sels)
  {
    forall k :: 0 <= k < |sels| && FirstTableShape(sels[k].range).Some? ==>
      var u := sels[k].range.value[0].content.table;
      u !in except ==> unchanged(u)
  }

  class AddIn {
    /** The layout last copied, None when nothing is held. */
    var copiedTableLayout: Option<TableLayoutInfo>
    /** The id of the shape the held layout was copied from, -1 when none. */
    var copiedFromShapeId: int
    /** Set while the handler is writing a layout, so that notifications raised meanwhile do nothing. */
    var applyingLayout: bool
    /** The ids of the shapes the handler has written the held layout onto, in order. */
    ghost var applied: seq<int>

    /** At start-up nothing is held and no shape is the source. */
    constructor()
      ensures copiedTableLayout == None && copiedFromShapeId == -1
      ensures !applyingLayout && applied == []
    {
      copiedTableLayout := None;
      copiedFromShapeId := -1;
      applyingLayout := false;
      applied := [];
    }

    /**
     * The selection-change handler. `duringApply` lists the notifications
     * the host raises while the layout is being written; each is handled by
     * this same method, with the guard set. Raised is true when an
     * exception escapes, and the guard is cleared in that case too.
     */
    method OnWindowSelectionChange(sel: Selection, faults: set<Fault>, duringApply: seq<Selection>) returns (raised: bool)
      modifies this, SelectedTables(sel), TablesOf(duringApply)
      decreases |duringApply|
      ensures copiedTableLayout == old(copiedTableLayout) && copiedFromShapeId == old(copiedFromShapeId)
      ensures applyingLayout == old(applyingLayout)
      ensures match Decide(old(copiedTableLayout), old(copiedFromShapeId), old(applyingLayout), sel)
        case ApplyTo(shape) =>
          var t := shape.content.table;
          && applied == old(applied) + [shape.id]
          && (raised <==> CountRead in faults)
          && (forall i, j :: 0 <= i < t.Length0 && 0 <= j < t.Length1 ==>
                t[i, j] == if raised then old(t[i, j])
                           else LaidOutCell(old(t[i, j]), i + 1, j + 1, old(copiedTableLayout).value, faults))
          && OthersUnchanged(duringApply, {t})
        case Raise =>
          raised && applied == old(applied) && unchanged(SelectedTables(sel)) && OthersUnchanged(duringApply, {})
        case Ignore =>
          !raised && applied == old(applied) && unchanged(SelectedTables(sel)) && OthersUnchanged(duringApply, {})
    {
      if copiedTableLayout.None? || applyingLayout {
        return false;
      }
      if sel.kind.None? {
        return true;
      }
      if sel.kind.value != ShapesSelected {
        return false;
      }
      var tableShape := FirstTableShape(sel.range);
      if tableShape.None? || tableShape.value.id == copiedFromShapeId {
        return false;
      }
      var table := tableShape.value.content.table;
      applyingLayout := true;
      applied := applied + [tableShape.value.id];
      var ok, attempted := ApplyLayout(table, copiedTableLayout, faults);
      for k := 0 to |duringApply|
        invariant copiedTableLayout == old(copiedTableLayout) && copiedFromShapeId == old(copiedFromShapeId)
        invariant applyingLayout && applied == old(applied) + [tableShape.value.id]
        invariant forall i, j :: 0 <= i < table.Length0 && 0 <= j < table.Length1 ==>
          table[i, j] == if !ok then old(table[i, j])
                         else LaidOutCell(old(table[i, j]), i + 1, j + 1, old(copiedTableLayout).value, faults)
        invariant OthersUnchanged(duringApply, {table})
      {
        var nestedRaised := OnWindowSelectionChange(duringApply[k], faults, []);
      }
      applyingLayout := false;
      raised := !ok;
    }
  }
}
