/**
 * The user's default table style: the records that are stored in the
 * settings file, the built-in default, and the rule that a missing or
 * unreadable settings file yields the built-in default.
 */
module Settings {
  import opened Host

  /** A stored border. `dashStyle` is the host's line dash code: 1 solid, 2 round dot, 3 dash, 4 dash-dot, 5 dash-dot-dot. */
  datatype DefaultBorderStyle = DefaultBorderStyle(visible: bool, colorRGB: Int32, weight: real, dashStyle: int)

  /** A stored section style. A border is None when the settings file holds none for that edge. */
  datatype DefaultCellStyle = DefaultCellStyle(
    fillForeColorRGB: Int32,
    fillTransparency: real,
    fontColorRGB: Int32,
    fontName: string,
    fontSize: real,
    fontBold: bool,
    fontItalic: bool,
    margins: Sides<real>,
    borders: Sides<Option<DefaultBorderStyle>>)

  /** A section style is None when the settings file holds none for it. */
  datatype DefaultTableSettings = DefaultTableSettings(
    headerStyle: Option<DefaultCellStyle>,
    bodyStyle: Option<DefaultCellStyle>)

  /** Visible, black, 0.75 pt, solid. */
  const SolidBlackBorder: DefaultBorderStyle := DefaultBorderStyle(true, 0x000000, 0.75, 1)

  const DefaultFontName: string := "游ゴシック"

  /** A section style with the built-in font, margins and borders, and the given fill and font colours. */
  function BuiltInSection(fill: Int32, fontColor: Int32): DefaultCellStyle
  {
    DefaultCellStyle(
      fillForeColorRGB := fill,
      fillTransparency := 0.0,
      fontColorRGB := fontColor,
      fontName := DefaultFontName,
      fontSize := 11.0,
      fontBold := false,
      fontItalic := false,
      margins := Sides(3.6, 3.6, 7.2, 7.2),
      borders := Sides(Some(SolidBlackBorder), Some(SolidBlackBorder), Some(SolidBlackBorder), Some(SolidBlackBorder)))
  }

  /** The built-in default: a dark-blue header with white text over a white body with black text. */
  function BuiltInDefaults(): (d: DefaultTableSettings)
    ensures d.headerStyle.Some? && d.bodyStyle.Some?
  {
    DefaultTableSettings(
      headerStyle := Some(BuiltInSection(0xC47244, 0xFFFFFF)),
      bodyStyle := Some(BuiltInSection(0xFFFFFF, 0x000000)))
  }

  /**
   * What the settings file yields: whether it exists, and the deserialised
   * value, None when deserialisation throws.
   */
  datatype StoredSettings = StoredSettings(fileExists: bool, parsed: Option<DefaultTableSettings>)

  /** Load: the stored settings when the file exists and parses, the built-in default otherwise. */
  function Load(stored: StoredSettings): (settings: DefaultTableSettings)
    ensures settings == BuiltInDefaults() || Some(settings) == stored.parsed
    ensures !stored.fileExists ==> settings == BuiltInDefaults()
  {
    if !stored.fileExists then BuiltInDefaults()
    else match stored.parsed
      case Some(settings) => settings
      case None => BuiltInDefaults()
  }

  /** Both sections of the built-in default share every value except the fill and font colours. */
  lemma BuiltInSectionsShareLayout()
    ensures BuiltInDefaults().headerStyle.Some? && BuiltInDefaults().bodyStyle.Some?
    ensures var h, b := BuiltInDefaults().headerStyle.value, BuiltInDefaults().bodyStyle.value;
      && h.fillForeColorRGB == 0xC47244 && h.fontColorRGB == 0xFFFFFF
      && b.fillForeColorRGB == 0xFFFFFF && b.fontColorRGB == 0x000000
      && h.(fillForeColorRGB := 0, fontColorRGB := 0) == b.(fillForeColorRGB := 0, fontColorRGB := 0)
    ensures forall s :: s in {BuiltInDefaults().headerStyle.value, BuiltInDefaults().bodyStyle.value} ==>
      && s.fillTransparency == 0.0 && s.fontName == DefaultFontName && s.fontSize == 11.0
      && !s.fontBold && !s.fontItalic
      && s.margins.top == 3.6 && s.margins.bottom == 3.6 && s.margins.left == 7.2 && s.margins.right == 7.2
      && forall side :: s.borders.Get(side) == Some(SolidBlackBorder)
  {
  }

  /** A settings file that is missing or cannot be deserialised never leaves the add-in without settings: it yields the built-in default. */
  lemma LoadFallsBackToBuiltIn(stored: StoredSettings)
    ensures !stored.fileExists || stored.parsed.None? ==> Load(stored) == BuiltInDefaults()
    ensures stored.fileExists && stored.parsed.Some? ==> Load(stored) == stored.parsed.value
    ensures Load(stored) == BuiltInDefaults() || Some(Load(stored)) == stored.parsed
  {
  }
}
