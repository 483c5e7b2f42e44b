/**
 * Capturing a table's style (header = cell (1,1), body = cell (2,1)) and
 * writing a captured or default style onto every cell of a live table, with
 * every host call allowed to fail on its own.
 */
module Layout {
  import opened Host
  import opened Settings

  // ---------------------------------------------------------------------
  // The style model
  // ---------------------------------------------------------------------

  datatype BorderInfo = BorderInfo(visible: bool, colorRGB: Int32, weight: real, dashStyle: int)

  /**
   * One section's style. A font name the host could not report is "" (the
   * source keeps null, which every consumer treats like ""). A border is
   * None only in a style that was never filled in.
   */
  datatype CellStyleInfo = CellStyleInfo(
    fillType: FillKind,
    fillForeColorRGB: Int32,
    fillTransparency: real,
    fontName: string,
    fontSize: real,
    fontBold: bool,
    fontItalic: bool,
    fontColorRGB: Int32,
    margins: Sides<real>,
    borders: Sides<Option<BorderInfo>>)

  /** A captured layout; a section is None when there was no cell to sample it from. */
  datatype TableLayoutInfo = TableLayoutInfo(headerStyle: Option<CellStyleInfo>, bodyStyle: Option<CellStyleInfo>)

  /** Visible, black, 0.75 pt, solid: a border nobody could read or nobody stored. */
  const DefaultBorder: BorderInfo := BorderInfo(true, 0x000000, 0.75, 1)

  // ---------------------------------------------------------------------
  // From stored settings to a layout
  // ---------------------------------------------------------------------

  /** A stored border carried over field by field; a missing one becomes the default border. */
  function ToBorderInfo(style: Option<DefaultBorderStyle>): (b: BorderInfo)
    ensures style.None? ==> b == DefaultBorder
    ensures style.Some? ==> b.visible == style.value.visible && b.colorRGB == style.value.colorRGB
                            && b.weight == style.value.weight && b.dashStyle == style.value.dashStyle
  {
    match style
    case None => DefaultBorder
    case Some(s) => BorderInfo(s.visible, s.colorRGB, s.weight, s.dashStyle)
  }

  /** A stored section style as a style to apply: always a solid fill, always four borders. */
  function ToCellStyleInfo(style: Option<DefaultCellStyle>): (r: Option<CellStyleInfo>)
    ensures r.Some? <==> style.Some?
    ensures r.Some? ==> r.value.fillType == Solid && forall side :: r.value.borders.Get(side).Some?
  {
    match style
    case None => None
    case Some(s) =>
      Some(CellStyleInfo(
        fillType := Solid,
        fillForeColorRGB := s.fillForeColorRGB,
        fillTransparency := s.fillTransparency,
        fontName := s.fontName,
        fontSize := s.fontSize,
        fontBold := s.fontBold,
        fontItalic := s.fontItalic,
        fontColorRGB := s.fontColorRGB,
        margins := s.margins,
        borders := Sides(
          Some(ToBorderInfo(s.borders.top)), Some(ToBorderInfo(s.borders.bottom)),
          Some(ToBorderInfo(s.borders.left)), Some(ToBorderInfo(s.borders.right)))))
  }

  /** The layout that applying default settings writes. */
  function DefaultLayout(settings: DefaultTableSettings): (l: TableLayoutInfo)
    ensures l.headerStyle.Some? <==> settings.headerStyle.Some?
    ensures l.bodyStyle.Some? <==> settings.bodyStyle.Some?
    ensures l.headerStyle.Some? ==> l.headerStyle.value.fillType == Solid
    ensures l.bodyStyle.Some? ==> l.bodyStyle.value.fillType == Solid
  {
    TableLayoutInfo(ToCellStyleInfo(settings.headerStyle), ToCellStyleInfo(settings.bodyStyle))
  }

  /**
   * A style converted from settings is always a solid fill with every border
   * present; a border missing from the settings becomes the default border;
   * every other value is carried over unchanged.
   */
  lemma SettingsConversion(style: Option<DefaultCellStyle>)
    ensures ToCellStyleInfo(style).Some? <==> style.Some?
    ensures style.Some? ==>
      var s, r := style.value, ToCellStyleInfo(style).value;
      && r.fillType == Solid
      && r.fillForeColorRGB == s.fillForeColorRGB && r.fillTransparency == s.fillTransparency
      && r.fontName == s.fontName && r.fontSize == s.fontSize
      && r.fontBold == s.fontBold && r.fontItalic == s.fontItalic && r.fontColorRGB == s.fontColorRGB
      && r.margins == s.margins
      && forall side :: r.borders.Get(side).Some?
           && (s.borders.Get(side).None? ==> r.borders.Get(side).value == DefaultBorder)
           && (s.borders.Get(side).Some? ==>
                 var b := s.borders.Get(side).value;
                 r.borders.Get(side).value == BorderInfo(b.visible, b.colorRGB, b.weight, b.dashStyle))
  {
  }

  // ---------------------------------------------------------------------
  // Capture
  // ---------------------------------------------------------------------

  /** What capturing one border yields; a failed read keeps the default for that attribute. */
  function CapturedBorder(line: Line, f: set<Attr>, side: Side): BorderInfo
  {
    if BorderObject(side) in f then DefaultBorder
    else BorderInfo(
      visible := if BorderVisible(side) in f then DefaultBorder.visible else line.visible,
      colorRGB := if BorderColor(side) in f then DefaultBorder.colorRGB else line.color,
      weight := if BorderWeight(side) in f then DefaultBorder.weight else line.weight,
      dashStyle := if BorderDash(side) in f then DefaultBorder.dashStyle else line.dash)
  }

  /** Whether capturing a cell throws: the fill, font and text-frame objects are fetched outside any handler. */
  predicate CaptureThrows(f: set<Attr>)
  {
    FillObject in f || FontObject in f || TextFrame in f
  }

  /**
   * What capturing one cell yields when it does not throw. An unreadable fill
   * type reads as Background; every other unreadable value stays at its
   * zero value ("", 0, false).
   */
  function CapturedStyle(cell: Cell, f: set<Attr>): CellStyleInfo
  {
    CellStyleInfo(
      fillType := if FillType in f then Background else cell.fillType,
      fillForeColorRGB := if FillColor in f then 0 else cell.fillColor,
      fillTransparency := if FillTransparency in f then 0.0 else cell.fillTransparency,
      fontName := if FontName in f then "" else cell.fontName,
      fontSize := if FontSize in f then 0.0 else cell.fontSize,
      fontBold := if FontBold in f then false else cell.fontBold,
      fontItalic := if FontItalic in f then false else cell.fontItalic,
      fontColorRGB := if FontColor in f then 0 else cell.fontColor,
      margins := Sides(
        if Margin(Top) in f then 0.0 else cell.margins.top,
        if Margin(Bottom) in f then 0.0 else cell.margins.bottom,
        if Margin(Left) in f then 0.0 else cell.margins.left,
        if Margin(Right) in f then 0.0 else cell.margins.right),
      borders := Sides(
        Some(CapturedBorder(cell.borders.top, f, Top)),
        Some(CapturedBorder(cell.borders.bottom, f, Bottom)),
        Some(CapturedBorder(cell.borders.left, f, Left)),
        Some(CapturedBorder(cell.borders.right, f, Right))))
  }

  /** Reads one border: start from the default and overwrite each attribute that can be read. */
  method CopyBorder(cell: Cell, f: set<Attr>, side: Side) returns (info: BorderInfo)
    ensures info == CapturedBorder(cell.borders.Get(side), f, side)
    ensures BorderObject(side) in f ==> info == DefaultBorder
    ensures BorderObject(side) !in f ==>
      && (info.visible <==> BorderVisible(side) in f || cell.borders.Get(side).visible)
      && info.colorRGB == (if BorderColor(side) in f then 0 else cell.borders.Get(side).color)
  {
    var visible, color, weight, dash := DefaultBorder.visible, DefaultBorder.colorRGB, DefaultBorder.weight, DefaultBorder.dashStyle;
    if BorderObject(side) !in f {
      var border := cell.borders.Get(side);
      if BorderVisible(side) !in f { visible := border.visible; }
      if BorderColor(side) !in f { color := border.color; }
      if BorderWeight(side) !in f { weight := border.weight; }
      if BorderDash(side) !in f { dash := border.dash; }
    }
    info := BorderInfo(visible, color, weight, dash);
  }

  /** Reads one cell's style attribute by attribute; Threw when a fill, font or text-frame fetch fails. */
  method CopyCellStyle(cell: Cell, f: set<Attr>) returns (r: Attempt<CellStyleInfo>)
    ensures r.Threw? <==> CaptureThrows(f)
    ensures r.Returned? ==> r.value == CapturedStyle(cell, f)
  {
    if FillObject in f {
      return Threw;
    }
    var fillType := if FillType in f then Background else cell.fillType;
    var fillColor: Int32, transparency := 0, 0.0;
    if FillColor !in f { fillColor := cell.fillColor; }
    if FillTransparency !in f { transparency := cell.fillTransparency; }

    if FontObject in f {
      return Threw;
    }
    var fontName, fontSize, bold, italic, fontColor: Int32 := "", 0.0, false, false, 0;
    if FontName !in f { fontName := cell.fontName; }
    if FontSize !in f { fontSize := cell.fontSize; }
    if FontBold !in f { bold := cell.fontBold; }
    if FontItalic !in f { italic := cell.fontItalic; }
    if FontColor !in f { fontColor := cell.fontColor; }

    if TextFrame in f {
      return Threw;
    }
    var margins := Sides(0.0, 0.0, 0.0, 0.0);
    if Margin(Top) !in f { margins := margins.(top := cell.margins.top); }
    if Margin(Bottom) !in f { margins := margins.(bottom := cell.margins.bottom); }
    if Margin(Left) !in f { margins := margins.(left := cell.margins.left); }
    if Margin(Right) !in f { margins := margins.(right := cell.margins.right); }

    var top := CopyBorder(cell, f, Top);
    var bottom := CopyBorder(cell, f, Bottom);
    var left := CopyBorder(cell, f, Left);
    var right := CopyBorder(cell, f, Right);
    return Returned(CellStyleInfo(fillType, fillColor, transparency, fontName, fontSize, bold, italic, fontColor,
      margins, Sides(Some(top), Some(bottom), Some(left), Some(right))));
  }

  /**
   * Failed reads leave deterministic values: an unreadable fill type is
   * Background, any other unreadable cell value is zero, empty or false, and
   * an unreadable border (or border attribute) is the default border's,
   * the same border a settings file without that border yields.
   */
  lemma CaptureDefaults(cell: Cell, f: set<Attr>)
    ensures var s := CapturedStyle(cell, f);
      && s.fillType == (if FillType in f then Background else cell.fillType)
      && (FillColor in f ==> s.fillForeColorRGB == 0) && (FillTransparency in f ==> s.fillTransparency == 0.0)
      && (FontName in f ==> s.fontName == "") && (FontSize in f ==> s.fontSize == 0.0)
      && (FontBold in f ==> !s.fontBold) && (FontItalic in f ==> !s.fontItalic)
      && (FontColor in f ==> s.fontColorRGB == 0)
      && (forall side :: Margin(side) in f ==> s.margins.Get(side) == 0.0)
      && (forall side :: Margin(side) !in f ==> s.margins.Get(side) == cell.margins.Get(side))
      && forall side :: s.borders.Get(side).Some?
           && (BorderObject(side) in f ==> s.borders.Get(side).value == ToBorderInfo(None))
           && (BorderObject(side) !in f && BorderVisible(side) !in f ==>
                 s.borders.Get(side).value.visible == cell.borders.Get(side).visible)
           && (BorderObject(side) !in f ==>
                 && (BorderVisible(side) in f ==> s.borders.Get(side).value.visible)
                 && (BorderColor(side) in f ==> s.borders.Get(side).value.colorRGB == 0)
                 && (BorderWeight(side) in f ==> s.borders.Get(side).value.weight == DefaultBorder.weight)
                 && (BorderDash(side) in f ==> s.borders.Get(side).value.dashStyle == DefaultBorder.dashStyle))
  {
  }

  /** Whether sampling cell (r, c) of a table with at least r rows throws. */
  predicate SampleThrows(faults: set<Fault>, r: int, c: int)
  {
    At(r, c, CellAccess) in faults || CaptureThrows(CellFaults(faults, r, c))
  }

  /** Whether capturing the layout of `table` throws. */
  predicate CopyThrows(table: Table, faults: set<Fault>)
  {
    || CountRead in faults
    || (table.Length0 >= 1 && table.Length1 >= 1 && SampleThrows(faults, 1, 1))
    || (table.Length0 >= 2 && table.Length1 >= 1 && SampleThrows(faults, 2, 1))
  }

  /** The layout a capture that does not throw yields. */
  function CapturedLayout(table: Table, faults: set<Fault>): (l: TableLayoutInfo)
    reads table
    ensures l.headerStyle.None? <==> table.Length0 == 0 || table.Length1 == 0
    ensures l.bodyStyle.None? <==> table.Length0 == 0 || table.Length1 == 0
    ensures table.Length0 < 2 ==> l.bodyStyle == l.headerStyle
    ensures l.headerStyle.Some? ==> l.headerStyle.value == CapturedStyle(table[0, 0], CellFaults(faults, 1, 1))
    ensures table.Length0 >= 2 && l.bodyStyle.Some? ==> l.bodyStyle.value == CapturedStyle(table[1, 0], CellFaults(faults, 2, 1))
  {
    var header := if table.Length0 >= 1 && table.Length1 >= 1
                  then Some(CapturedStyle(table[0, 0], CellFaults(faults, 1, 1))) else None;
    var body := if table.Length0 >= 2 && table.Length1 >= 1
                then Some(CapturedStyle(table[1, 0], CellFaults(faults, 2, 1))) else header;
    TableLayoutInfo(header, body)
  }

  /**
   * Captures a table's layout: the header from cell (1,1), the body from
   * cell (2,1), or the header again when there is no second row. Nothing
   * here catches, so any failing count read, cell access or object fetch
   * makes the whole capture throw.
   */
  method CopyLayout(table: Table, faults: set<Fault>) returns (r: Attempt<TableLayoutInfo>)
    ensures r.Threw? <==> CopyThrows(table, faults)
    ensures r.Returned? ==> r.value == CapturedLayout(table, faults)
  {
    if CountRead in faults {
      return Threw;
    }
    var rows, cols := table.Length0, table.Length1;
    var info := TableLayoutInfo(None, None);

    if rows >= 1 && cols >= 1 {
      if At(1, 1, CellAccess) in faults {
        return Threw;
      }
      var header := CopyCellStyle(table[0, 0], CellFaults(faults, 1, 1));
      if header.Threw? {
        return Threw;
      }
      info := info.(headerStyle := Some(header.value));
    }

    if rows >= 2 && cols >= 1 {
      if At(2, 1, CellAccess) in faults {
        return Threw;
      }
      var body := CopyCellStyle(table[1, 0], CellFaults(faults, 2, 1));
      if body.Threw? {
        return Threw;
      }
      info := info.(bodyStyle := Some(body.value));
    } else {
      info := info.(bodyStyle := info.headerStyle);
    }
    return Returned(info);
  }

  // ---------------------------------------------------------------------
  // Apply: the effect on one cell
  // ---------------------------------------------------------------------

  /**
   * The fill after the fill block: Background clears to the background;
   * Solid and every other kind make the fill solid, then set its colour, then
   * its transparency, and the first failing step ends the block.
   */
  function StyledFill(cell: Cell, style: CellStyleInfo, f: set<Attr>): Cell
  {
    if style.fillType == Background then
      if FillBackground in f then cell else cell.(fillType := Background)
    else if FillSolid in f then cell
    else if FillColor in f then cell.(fillType := Solid)
    else if FillTransparency in f then cell.(fillType := Solid, fillColor := style.fillForeColorRGB)
    else cell.(fillType := Solid, fillColor := style.fillForeColorRGB, fillTransparency := style.fillTransparency)
  }

  /** The font after the font writes: name only when non-empty, size only when positive, each write on its own. */
  function StyledFont(cell: Cell, style: CellStyleInfo, f: set<Attr>): Cell
  {
    cell.(
      fontName := if style.fontName != "" && FontName !in f then style.fontName else cell.fontName,
      fontSize := if style.fontSize > 0.0 && FontSize !in f then style.fontSize else cell.fontSize,
      fontBold := if FontBold !in f then style.fontBold else cell.fontBold,
      fontItalic := if FontItalic !in f then style.fontItalic else cell.fontItalic,
      fontColor := if FontColor !in f then style.fontColorRGB else cell.fontColor)
  }

  /**
   * One border after ApplyBorder: nothing without a border to apply or
   * without the border object; otherwise visibility, and only for a visible
   * border also colour, weight and dash, each write on its own.
   */
  function StyledLine(line: Line, info: Option<BorderInfo>, f: set<Attr>, side: Side): Line
  {
    if info.None? || BorderObject(side) in f then line
    else
      var b := info.value;
      var shown := if BorderVisible(side) in f then line else line.(visible := b.visible);
      if !b.visible then shown
      else shown.(
        color := if BorderColor(side) in f then line.color else b.colorRGB,
        weight := if BorderWeight(side) in f then line.weight else b.weight,
        dash := if BorderDash(side) in f then line.dash else b.dashStyle)
  }

  function StyledMargin(cell: Cell, style: CellStyleInfo, f: set<Attr>, side: Side): real
  {
    if Margin(side) in f then cell.margins.Get(side) else style.margins.Get(side)
  }

  /** The text-frame margins and the four borders after their writes. */
  function StyledFrame(cell: Cell, style: CellStyleInfo, f: set<Attr>): Cell
  {
    cell.(
      margins := Sides(
        StyledMargin(cell, style, f, Top), StyledMargin(cell, style, f, Bottom),
        StyledMargin(cell, style, f, Left), StyledMargin(cell, style, f, Right)),
      borders := Sides(
        StyledLine(cell.borders.top, style.borders.top, f, Top),
        StyledLine(cell.borders.bottom, style.borders.bottom, f, Bottom),
        StyledLine(cell.borders.left, style.borders.left, f, Left),
        StyledLine(cell.borders.right, style.borders.right, f, Right)))
  }

  /**
   * A cell after ApplyCellStyle. A failing fetch of the fill, font or text
   * frame object escapes and abandons everything after it in this cell;
   * every other failure loses only its own write.
   */
  function StyledCell(cell: Cell, style: CellStyleInfo, f: set<Attr>): Cell
  {
    if FillObject in f then cell
    else
      var filled := StyledFill(cell, style, f);
      if FontObject in f then filled
      else
        var fonted := StyledFont(filled, style, f);
        if TextFrame in f then fonted
        else StyledFrame(fonted, style, f)
  }

  /** Writes one border of cell [i, j] as StyledLine says. */
  method ApplyBorder(table: Table, i: nat, j: nat, side: Side, info: Option<BorderInfo>, f: set<Attr>)
    requires i < table.Length0 && j < table.Length1
    modifies table
    ensures table[i, j] == old(table[i, j]).(borders := old(table[i, j]).borders.With(side,
              StyledLine(old(table[i, j]).borders.Get(side), info, f, side)))
    ensures forall k, l :: 0 <= k < table.Length0 && 0 <= l < table.Length1 && (k, l) != (i, j) ==>
              table[k, l] == old(table[k, l])
  {
    if info.None? || BorderObject(side) in f {
      return;
    }
    var b := info.value;
    if BorderVisible(side) !in f {
      table[i, j] := table[i, j].(borders := table[i, j].borders.With(side,
                       table[i, j].borders.Get(side).(visible := b.visible)));
    }
    if b.visible {
      if BorderColor(side) !in f {
        table[i, j] := table[i, j].(borders := table[i, j].borders.With(side,
                         table[i, j].borders.Get(side).(color := b.colorRGB)));
      }
      if BorderWeight(side) !in f {
        table[i, j] := table[i, j].(borders := table[i, j].borders.With(side,
                         table[i, j].borders.Get(side).(weight := b.weight)));
      }
      if BorderDash(side) !in f {
        table[i, j] := table[i, j].(borders := table[i, j].borders.With(side,
                         table[i, j].borders.Get(side).(dash := b.dashStyle)));
      }
    }
  }

  /** The fill block of ApplyCellStyle: one handler around the whole switch. */
  method ApplyFill(table: Table, i: nat, j: nat, style: CellStyleInfo, f: set<Attr>)
    requires i < table.Length0 && j < table.Length1
    modifies table
    ensures table[i, j] == StyledFill(old(table[i, j]), style, f)
    ensures forall k, l :: 0 <= k < table.Length0 && 0 <= l < table.Length1 && (k, l) != (i, j) ==>
              table[k, l] == old(table[k, l])
  {
    if style.fillType == Background {
      if FillBackground !in f {
        table[i, j] := table[i, j].(fillType := Background);
      }
    } else if FillSolid !in f {
      table[i, j] := table[i, j].(fillType := Solid);
      if FillColor !in f {
        table[i, j] := table[i, j].(fillColor := style.fillForeColorRGB);
        if FillTransparency !in f {
          table[i, j] := table[i, j].(fillTransparency := style.fillTransparency);
        }
      }
    }
  }

  /** The font writes of ApplyCellStyle, each in its own handler. */
  method ApplyFont(table: Table, i: nat, j: nat, style: CellStyleInfo, f: set<Attr>)
    requires i < table.Length0 && j < table.Length1
    modifies table
    ensures table[i, j] == StyledFont(old(table[i, j]), style, f)
    ensures forall k, l :: 0 <= k < table.Length0 && 0 <= l < table.Length1 && (k, l) != (i, j) ==>
              table[k, l] == old(table[k, l])
  {
    if style.fontName != "" && FontName !in f {
      table[i, j] := table[i, j].(fontName := style.fontName);
    }
    if style.fontSize > 0.0 && FontSize !in f {
      table[i, j] := table[i, j].(fontSize := style.fontSize);
    }
    if FontBold !in f {
      table[i, j] := table[i, j].(fontBold := style.fontBold);
    }
    if FontItalic !in f {
      table[i, j] := table[i, j].(fontItalic := style.fontItalic);
    }
    if FontColor !in f {
      table[i, j] := table[i, j].(fontColor := style.fontColorRGB);
    }
  }

  /** The margin writes of ApplyCellStyle, each in its own handler. */
  method ApplyMargins(table: Table, i: nat, j: nat, style: CellStyleInfo, f: set<Attr>)
    requires i < table.Length0 && j < table.Length1
    modifies table
    ensures table[i, j] == old(table[i, j]).(margins := StyledFrame(old(table[i, j]), style, f).margins)
    ensures forall k, l :: 0 <= k < table.Length0 && 0 <= l < table.Length1 && (k, l) != (i, j) ==>
              table[k, l] == old(table[k, l])
  {
    if Margin(Top) !in f {
      table[i, j] := table[i, j].(margins := table[i, j].margins.(top := style.margins.top));
    }
    if Margin(Bottom) !in f {
      table[i, j] := table[i, j].(margins := table[i, j].margins.(bottom := style.margins.bottom));
    }
    if Margin(Left) !in f {
      table[i, j] := table[i, j].(margins := table[i, j].margins.(left := style.margins.left));
    }
    if Margin(Right) !in f {
      table[i, j] := table[i, j].(margins := table[i, j].margins.(right := style.margins.right));
    }
  }

  /**
   * Writes `style` onto cell [i, j] as StyledCell says: the fill block, the
   * font writes, the margins and the four borders, with a failing fetch of
   * the fill, font or text-frame object ending the cell early.
   */
  method ApplyCellStyle(table: Table, i: nat, j: nat, style: CellStyleInfo, f: set<Attr>)
    requires i < table.Length0 && j < table.Length1
    modifies table
    ensures table[i, j] == StyledCell(old(table[i, j]), style, f)
    ensures forall k, l :: 0 <= k < table.Length0 && 0 <= l < table.Length1 && (k, l) != (i, j) ==>
              table[k, l] == old(table[k, l])
  {
    if FillObject in f {
      return;
    }
    ApplyFill(table, i, j, style, f);
    if FontObject in f {
      return;
    }
    ApplyFont(table, i, j, style, f);
    if TextFrame in f {
      return;
    }
    ApplyMargins(table, i, j, style, f);
    ApplyBorder(table, i, j, Top, style.borders.top, f);
    ApplyBorder(table, i, j, Bottom, style.borders.bottom, f);
    ApplyBorder(table, i, j, Left, style.borders.left, f);
    ApplyBorder(table, i, j, Right, style.borders.right, f);
  }

  /** A failing fetch of the fill object abandons the whole cell; of the font object, everything after the fill; of the text frame, the margins and borders. */
  lemma FetchFailureAbandonsRest(cell: Cell, style: CellStyleInfo, f: set<Attr>)
    ensures FillObject in f ==> StyledCell(cell, style, f) == cell
    ensures FillObject !in f && FontObject in f ==> StyledCell(cell, style, f) == StyledFill(cell, style, f)
    ensures FillObject !in f && FontObject !in f && TextFrame in f ==>
      && StyledCell(cell, style, f).margins == cell.margins
      && StyledCell(cell, style, f).borders == cell.borders
  {
  }

  /**
   * When no object fetch fails, every font, margin and border write is
   * attempted on its own: each field holds the style's value exactly when its
   * own write did not fail (and, for name and size, the value is non-empty or
   * positive), and the cell's old value otherwise.
   */
  lemma WritesAreIndependent(cell: Cell, style: CellStyleInfo, f: set<Attr>)
    requires FillObject !in f && FontObject !in f && TextFrame !in f
    ensures var out := StyledCell(cell, style, f);
      && out.fontName == (if style.fontName != "" && FontName !in f then style.fontName else cell.fontName)
      && out.fontSize == (if style.fontSize > 0.0 && FontSize !in f then style.fontSize else cell.fontSize)
      && out.fontBold == (if FontBold in f then cell.fontBold else style.fontBold)
      && out.fontItalic == (if FontItalic in f then cell.fontItalic else style.fontItalic)
      && out.fontColor == (if FontColor in f then cell.fontColor else style.fontColorRGB)
      && (forall side :: out.margins.Get(side) == (if Margin(side) in f then cell.margins.Get(side) else style.margins.Get(side)))
      && (forall side :: out.borders.Get(side) == StyledLine(cell.borders.Get(side), style.borders.Get(side), f, side))
  {
  }

  /**
   * The fill block: a Background style clears the fill to the background and
   * keeps colour and transparency; any other kind ends up a solid fill with
   * the style's colour and transparency when none of those writes fails.
   */
  lemma FillRules(cell: Cell, style: CellStyleInfo, f: set<Attr>)
    ensures var out := StyledFill(cell, style, f);
      && out.(fillType := cell.fillType, fillColor := cell.fillColor, fillTransparency := cell.fillTransparency) == cell
      && (style.fillType == Background && FillBackground !in f ==>
            out == cell.(fillType := Background))
      && (style.fillType != Background && FillSolid !in f ==> out.fillType == Solid)
      && (style.fillType != Background && FillSolid !in f && FillColor !in f && FillTransparency !in f ==>
            out.fillColor == style.fillForeColorRGB && out.fillTransparency == style.fillTransparency)
      && (FillSolid in f && style.fillType != Background ==> out == cell)
  {
  }

  /** A style converted from settings always writes a solid fill. */
  lemma SettingsStylesFillSolid(settings: DefaultTableSettings, r: int)
    requires RowStyle(DefaultLayout(settings), r).Some?
    ensures RowStyle(DefaultLayout(settings), r).value.fillType == Solid
  {
  }

  /**
   * The border rules: no border info writes nothing; an invisible border
   * writes only the visibility; a visible one also writes colour, weight and
   * dash, each on its own.
   */
  lemma BorderRules(line: Line, info: Option<BorderInfo>, f: set<Attr>, side: Side)
    ensures info.None? || BorderObject(side) in f ==> StyledLine(line, info, f, side) == line
    ensures info.Some? && !info.value.visible ==>
      StyledLine(line, info, f, side).(visible := line.visible) == line
    ensures info.Some? && BorderObject(side) !in f && BorderVisible(side) !in f ==>
      StyledLine(line, info, f, side).visible == info.value.visible
    ensures info.Some? && info.value.visible && BorderObject(side) !in f ==>
      && StyledLine(line, info, f, side).color == (if BorderColor(side) in f then line.color else info.value.colorRGB)
      && StyledLine(line, info, f, side).weight == (if BorderWeight(side) in f then line.weight else info.value.weight)
      && StyledLine(line, info, f, side).dash == (if BorderDash(side) in f then line.dash else info.value.dashStyle)
  {
  }

  /**
   * Copying a cell that was just styled without failures gives the style
   * back, for every style whose fill is solid, whose font name and size would
   * be written, and whose four borders are present and visible.
   */
  lemma {:induction false} CaptureAfterApply(cell: Cell, style: CellStyleInfo)
    requires style.fillType == Solid && style.fontName != "" && style.fontSize > 0.0
    requires forall side :: style.borders.Get(side).Some? && style.borders.Get(side).value.visible
    ensures CapturedStyle(StyledCell(cell, style, {}), {}) == style
  {
    var out := StyledCell(cell, style, {});
    WritesAreIndependent(cell, style, {});
    forall side
      ensures Some(CapturedBorder(out.borders.Get(side), {}, side)) == style.borders.Get(side)
    {
      BorderRules(cell.borders.Get(side), style.borders.Get(side), {}, side);
    }
    assert style.borders == Sides(style.borders.Get(Top), style.borders.Get(Bottom),
                                  style.borders.Get(Left), style.borders.Get(Right));
    assert style.margins == Sides(out.margins.Get(Top), out.margins.Get(Bottom),
                                  out.margins.Get(Left), out.margins.Get(Right));
  }

  // ---------------------------------------------------------------------
  // Apply: the whole table
  // ---------------------------------------------------------------------

  /** The style row r is written with: the header for row 1, the body for every later row. */
  function RowStyle(layout: TableLayoutInfo, r: int): Option<CellStyleInfo>
  {
    if r == 1 then layout.headerStyle else layout.bodyStyle
  }

  /**
   * Cell (r, c) after ApplyLayout, given its state before: untouched when its
   * row has no style or the cell cannot be fetched, otherwise styled with
   * the failures that hit this cell and no others.
   */
  function LaidOutCell(cell: Cell, r: int, c: int, layout: TableLayoutInfo, faults: set<Fault>): Cell
  {
    match RowStyle(layout, r)
    case None => cell
    case Some(style) =>
      if At(r, c, CellAccess) in faults then cell else StyledCell(cell, style, CellFaults(faults, r, c))
  }

  /**
   * A failure inside one cell never reaches another: what happens to cell
   * (r, c) depends only on the failures that hit (r, c).
   */
  lemma {:induction false} CellIsolation(cell: Cell, r: int, c: int, layout: TableLayoutInfo, faults: set<Fault>, faults': set<Fault>)
    requires forall a :: At(r, c, a) in faults <==> At(r, c, a) in faults'
    ensures LaidOutCell(cell, r, c, layout, faults) == LaidOutCell(cell, r, c, layout, faults')
  {
    assert CellFaults(faults, r, c) == CellFaults(faults', r, c);
  }

  /**
   * The per-cell consequences of the row choice, unfolded: a row whose style
   * is None, or a cell that cannot be fetched, is left as it was; row 1 takes
   * the header style, every later row the body style. The promise about the
   * whole table is ApplyLayout's postcondition, which is stated through
   * LaidOutCell and so through RowStyle.
   */
  lemma RowSelection(cell: Cell, r: int, c: int, layout: TableLayoutInfo, faults: set<Fault>)
    ensures RowStyle(layout, r).None? ==> LaidOutCell(cell, r, c, layout, faults) == cell
    ensures r == 1 ==> RowStyle(layout, r) == layout.headerStyle
    ensures r != 1 ==> RowStyle(layout, r) == layout.bodyStyle
    ensures At(r, c, CellAccess) in faults ==> LaidOutCell(cell, r, c, layout, faults) == cell
  {
  }

  /** The cells (r, 1) .. (r, cols), in order. */
  function RowCells(r: int, cols: nat): (cells: seq<(int, int)>)
    ensures |cells| == cols
    ensures forall k :: 0 <= k < cols ==> cells[k] == (r, k + 1)
  {
    if cols == 0 then [] else RowCells(r, cols - 1) + [(r, cols)]
  }

  /** The cells ApplyLayout tries to style, in the order it tries them: row by row, skipping rows without a style. */
  function Attempts(layout: TableLayoutInfo, rows: nat, cols: nat): seq<(int, int)>
  {
    if rows == 0 then []
    else Attempts(layout, rows - 1, cols) + (if RowStyle(layout, rows).Some? then RowCells(rows, cols) else [])
  }

  /** (r, c) comes strictly before (r', c') in row-major order. */
  predicate RowMajorBefore(p: (int, int), q: (int, int))
  {
    p.0 < q.0 || (p.0 == q.0 && p.1 < q.1)
  }

  /** Every attempt lies in a styled row between 1 and `rows`, and in a column between 1 and `cols`. */
  lemma {:induction false} AttemptsInBounds(layout: TableLayoutInfo, rows: nat, cols: nat)
    ensures forall k :: 0 <= k < |Attempts(layout, rows, cols)| ==>
      var p := Attempts(layout, rows, cols)[k];
      1 <= p.0 <= rows && 1 <= p.1 <= cols && RowStyle(layout, p.0).Some?
  {
    if rows > 0 {
      AttemptsInBounds(layout, rows - 1, cols);
      var prev := Attempts(layout, rows - 1, cols);
      var row := if RowStyle(layout, rows).Some? then RowCells(rows, cols) else [];
      assert Attempts(layout, rows, cols) == prev + row;
    }
  }

  /**
   * ApplyLayout attempts every cell of every styled row, and no other cell:
   * (r, c) is attempted exactly when 1 <= r <= rows, 1 <= c <= cols and
   * row r has a style.
   */
  lemma {:induction false} AttemptsCoverStyledRows(layout: TableLayoutInfo, rows: nat, cols: nat)
    ensures forall r, c :: (r, c) in Attempts(layout, rows, cols) <==>
      1 <= r <= rows && 1 <= c <= cols && RowStyle(layout, r).Some?
  {
    var all := Attempts(layout, rows, cols);
    AttemptsInBounds(layout, rows, cols);
    forall r, c
      ensures (r, c) in all <==> 1 <= r <= rows && 1 <= c <= cols && RowStyle(layout, r).Some?
    {
      if (r, c) in all {
        var k :| 0 <= k < |all| && all[k] == (r, c);
      }
      if 1 <= r <= rows && 1 <= c <= cols && RowStyle(layout, r).Some? {
        AttemptsContain(layout, rows, cols, r, c);
      }
    }
  }

  /** Every cell of a styled row within the table is attempted. */
  lemma {:induction false} AttemptsContain(layout: TableLayoutInfo, rows: nat, cols: nat, r: int, c: int)
    requires 1 <= r <= rows && 1 <= c <= cols && RowStyle(layout, r).Some?
    ensures (r, c) in Attempts(layout, rows, cols)
  {
    var prev := Attempts(layout, rows - 1, cols);
    var row: seq<(int, int)> := if RowStyle(layout, rows).Some? then RowCells(rows, cols) else [];
    assert Attempts(layout, rows, cols) == prev + row;
    if r == rows {
      assert (prev + row)[|prev| + c - 1] == (r, c);
    } else {
      AttemptsContain(layout, rows - 1, cols, r, c);
      assert (prev + row)[..|prev|] == prev;
    }
  }

  /**
   * The attempts come in strictly increasing row-major order, so no cell is
   * attempted twice.
   */
  lemma {:induction false} AttemptsInRowMajorOrder(layout: TableLayoutInfo, rows: nat, cols: nat)
    ensures forall k, l :: 0 <= k < l < |Attempts(layout, rows, cols)| ==>
      RowMajorBefore(Attempts(layout, rows, cols)[k], Attempts(layout, rows, cols)[l])
  {
    if rows > 0 {
      AttemptsInRowMajorOrder(layout, rows - 1, cols);
      AttemptsInBounds(layout, rows - 1, cols);
      var all := Attempts(layout, rows, cols);
      var prev := Attempts(layout, rows - 1, cols);
      var row := if RowStyle(layout, rows).Some? then RowCells(rows, cols) else [];
      assert all == prev + row;
      forall k, l | 0 <= k < l < |all|
        ensures RowMajorBefore(all[k], all[l])
      {
        if l < |prev| {
          assert all[k] == prev[k] && all[l] == prev[l];
        } else if k < |prev| {
          assert all[k] == prev[k] && all[l] == row[l - |prev|];
        } else {
          assert all[k] == row[k - |prev|] && all[l] == row[l - |prev|];
        }
      }
    }
  }

  /**
   * The inner loop of ApplyLayout for row r = i + 1: styles cells (r, 1) ..
   * (r, cols) in order, each in its own handler, and touches no other row.
   */
  method ApplyRow(table: Table, i: nat, style: CellStyleInfo, layout: TableLayoutInfo, faults: set<Fault>)
    returns (ghost attempted: seq<(int, int)>)
    requires i < table.Length0 && RowStyle(layout, i + 1) == Some(style)
    modifies table
    ensures attempted == RowCells(i + 1, table.Length1)
    ensures forall j :: 0 <= j < table.Length1 ==>
      table[i, j] == LaidOutCell(old(table[i, j]), i + 1, j + 1, layout, faults)
    ensures forall k, j :: 0 <= k < table.Length0 && 0 <= j < table.Length1 && k != i ==>
      table[k, j] == old(table[k, j])
  {
    attempted := [];
    var r, cols := i + 1, table.Length1;
    for c := 1 to cols + 1
      invariant attempted == RowCells(r, c - 1)
      invariant forall j :: 0 <= j < cols ==>
        table[i, j] == if j < c - 1 then LaidOutCell(old(table[i, j]), r, j + 1, layout, faults)
                       else old(table[i, j])
      invariant forall k, j :: 0 <= k < table.Length0 && 0 <= j < cols && k != i ==>
        table[k, j] == old(table[k, j])
    {
      attempted := attempted + [(r, c)];
      if At(r, c, CellAccess) !in faults {
        ApplyCellStyle(table, i, c - 1, style, CellFaults(faults, r, c));
      }
    }
  }

  /**
   * Writes the layout onto every cell: row 1 gets the header style, every
   * later row the body style, a row whose style is None is skipped, and a
   * failure inside one cell is caught there and never reaches another cell.
   * Reading the row and column counts is not guarded: when it fails the
   * call throws (ok is false) before any cell is touched. `attempted` lists
   * the cells tried, in order.
   */
  method ApplyLayout(table: Table, layout: Option<TableLayoutInfo>, faults: set<Fault>)
    returns (ok: bool, ghost attempted: seq<(int, int)>)
    modifies table
    ensures ok <==> layout.None? || CountRead !in faults
    ensures attempted == if layout.Some? && ok then Attempts(layout.value, table.Length0, table.Length1) else []
    ensures forall i, j :: 0 <= i < table.Length0 && 0 <= j < table.Length1 ==>
      table[i, j] == if layout.Some? && ok then LaidOutCell(old(table[i, j]), i + 1, j + 1, layout.value, faults)
                     else old(table[i, j])
  {
    attempted := [];
    if layout.None? {
      return true, attempted;
    }
    if CountRead in faults {
      return false, attempted;
    }
    var rows, cols := table.Length0, table.Length1;
    for r := 1 to rows + 1
      invariant attempted == Attempts(layout.value, r - 1, cols)
      invariant forall i, j :: 0 <= i < rows && 0 <= j < cols ==>
        table[i, j] == if i < r - 1 then LaidOutCell(old(table[i, j]), i + 1, j + 1, layout.value, faults)
                       else old(table[i, j])
    {
      var style := if r == 1 then layout.value.headerStyle else layout.value.bodyStyle;
      if style.None? {
        continue;
      }
      ghost var row := ApplyRow(table, r - 1, style.value, layout.value, faults);
      attempted := attempted + row;
    }
    ok := true;
  }

  /** Applies stored default settings: nothing without settings, otherwise their converted layout. */
  method ApplyDefaultLayout(table: Table, settings: Option<DefaultTableSettings>, faults: set<Fault>) returns (ok: bool)
    modifies table
    ensures ok <==> settings.None? || CountRead !in faults
    ensures forall i, j :: 0 <= i < table.Length0 && 0 <= j < table.Length1 ==>
      table[i, j] == if settings.Some? && ok
                     then LaidOutCell(old(table[i, j]), i + 1, j + 1, DefaultLayout(settings.value), faults)
                     else old(table[i, j])
  {
    if settings.None? {
      return true;
    }
    var layout := DefaultLayout(settings.value);
    ghost var attempted;
    ok, attempted := ApplyLayout(table, Some(layout), faults);
  }

  /**
   * Applying the built-in defaults to a table without failures paints row 1
   * with a solid fill 0xC47244 and white text, and every later row with a
   * solid white fill and black text, in the default font at size 11.
   */
  lemma BuiltInDefaultsPaint(cell: Cell, r: int, c: int)
    requires r >= 1
    ensures var out := LaidOutCell(cell, r, c, DefaultLayout(BuiltInDefaults()), {});
      && out.fillType == Solid && out.fillTransparency == 0.0
      && out.fillColor == (if r == 1 then 0xC47244 else 0xFFFFFF)
      && out.fontColor == (if r == 1 then 0xFFFFFF else 0x000000)
      && out.fontName == DefaultFontName && out.fontSize == 11.0
      && !out.fontBold && !out.fontItalic
  {
  }
}
