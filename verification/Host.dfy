/**
 * The slice of the presentation host's object model that the add-in touches:
 * live table cells and their formatting, the selection, shapes, and the
 * failures any host call may raise.
 *
 * Every property access on the host can throw. Instead of exceptions the
 * model takes the set of host calls that fail during one operation as an
 * input (`faults`), and each operation says what happens when a member of
 * that set is reached.
 */
module Host {

  datatype Option<T> = None | Some(value: T)

  /** The outcome of a host-facing operation that may let an exception escape. */
  datatype Attempt<T> = Returned(value: T) | Threw

  /** A signed 32-bit integer, the type of every packed colour value. */
  type Int32 = x: int | -0x8000_0000 <= x < 0x8000_0000

  /** The four edges of a cell; margins and borders are kept per edge. */
  datatype Side = Top | Bottom | Left | Right

  datatype Sides<T> = Sides(top: T, bottom: T, left: T, right: T) {

    function Get(side: Side): T {
      match side
      case Top => top
      case Bottom => bottom
      case Left => left
      case Right => right
    }

    /** The same four values with the one on `side` replaced. */
    function With(side: Side, v: T): (r: Sides<T>)
      ensures r.Get(side) == v
      ensures forall s :: s != side ==> r.Get(s) == Get(s)
    {
      match side
      case Top => this.(top := v)
      case Bottom => this.(bottom := v)
      case Left => this.(left := v)
      case Right => this.(right := v)
    }
  }

  /** The kind of a shape fill: solid, cleared to the slide background, or any other kind (gradient, pattern, picture, mixed). */
  datatype FillKind = Solid | Background | OtherFill(code: int)

  /** One border line of a live cell. */
  datatype Line = Line(visible: bool, color: Int32, weight: real, dash: int)

  /** The formatting of one live table cell, as the host reports it. */
  datatype Cell = Cell(
    fillType: FillKind,
    fillColor: Int32,
    fillTransparency: real,
    fontName: string,
    fontSize: real,
    fontBold: bool,
    fontItalic: bool,
    fontColor: Int32,
    margins: Sides<real>,
    borders: Sides<Line>)

  /** A live table: row r, column c (both counted from 1) is held at [r - 1, c - 1]. */
  type Table = array2<Cell>

  /** A host call on one cell that may throw. */
  datatype Attr =
    | CellAccess          // table.Cell(r, c)
    | FillObject          // cell.Shape.Fill
    | FillType            // fill.Type (read)
    | FillSolid           // fill.Solid()
    | FillBackground      // fill.Background()
    | FillColor           // fill.ForeColor.RGB
    | FillTransparency    // fill.Transparency
    | FontObject          // cell.Shape.TextFrame.TextRange.Font
    | FontName
    | FontSize
    | FontBold
    | FontItalic
    | FontColor
    | TextFrame           // cell.Shape.TextFrame
    | Margin(side: Side)
    | BorderObject(side: Side)   // cell.Borders[side]
    | BorderVisible(side: Side)
    | BorderColor(side: Side)
    | BorderWeight(side: Side)
    | BorderDash(side: Side)

  /** A failing host call: reading a table's row or column count, or a call on cell (row, col). */
  datatype Fault = CountRead | At(row: int, col: int, attr: Attr)

  /** The calls that fail on cell (r, c). */
  function CellFaults(faults: set<Fault>, r: int, c: int): (f: set<Attr>)
    ensures forall a :: a in f <==> At(r, c, a) in faults
  {
    set x | x in faults && x.At? && x.row == r && x.col == c :: x.attr
  }

  datatype SelectionKind = NoSelection | SlidesSelected | ShapesSelected | TextSelected

  /** What a shape holds: a table, no table, or a HasTable flag that cannot be read. */
  datatype ShapeContent = TableOf(table: Table) | NoTable | HasTableUnreadable

  datatype Shape = Shape(id: int, content: ShapeContent)

  /**
   * A window selection. `kind` is None when reading the selection type throws;
   * `range` is None when reading the selected shape range throws.
   */
  datatype Selection = Selection(kind: Option<SelectionKind>, range: Option<seq<Shape>>)

  /**
   * The table shape a shape range denotes: its first shape, when the range is
   * readable and non-empty and that shape reports a table. Every failure
   * along the way is swallowed and yields None.
   */
  function FirstTableShape(range: Option<seq<Shape>>): (r: Option<Shape>)
    ensures r.Some? <==> range.Some? && |range.value| > 0 && range.value[0].content.TableOf?
    ensures r.Some? ==> r.value == range.value[0]
  {
    match range
    case None => None
    case Some(shapes) =>
      if |shapes| > 0 then
        match shapes[0].content
        case TableOf(_) => Some(shapes[0])
        case NoTable => None
        case HasTableUnreadable => None
      else None
  }

  /** The tables a selection can reach, the frame of anything that styles "the selected table". */
  function SelectedTables(sel: Selection): set<object>
  {
    match FirstTableShape(sel.range)
    case Some(shape) => {shape.content.table}
    case None => {}
  }

  /** The tables any of several selections can reach. */
  function TablesOf(sels: seq<Selection>): (ts: set<object>)
    ensures forall k :: 0 <= k < |sels| ==> SelectedTables(sels[k]) <= ts
  {
    if sels == [] then {}
    else
      var rest := TablesOf(sels[1..]);
      assert forall k :: 1 <= k < |sels| ==> sels[k] == sels[1..][k - 1];
      SelectedTables(sels[0]) + rest
  }
}
