/**
 * The value-level helpers of the default-settings dialog: conversion between
 * the host's packed colour (red in the low byte, then green, then blue) and
 * an (R, G, B) colour, clamping of decimal inputs, and the clamping applied
 * when a stored style is loaded into the dialog's numeric fields.
 */
module SettingsForm {
  import opened Host
  import opened Settings

  type Channel = x: int | 0 <= x < 256

  /** An opaque (R, G, B) colour. */
  datatype Color = Color(r: Channel, g: Channel, b: Channel)

  /**
   * Red is bits 0-7, green bits 8-15, blue bits 16-23; the top byte is
   * ignored. Masking the low byte of a two's-complement integer is the
   * Euclidean remainder by 256, and an arithmetic right shift by 8 or 16 is
   * the floor (here Euclidean) quotient by 2^8 or 2^16, so the bitwise
   * expression is written in those terms.
   */
  function OfficeBgrToColor(bgr: Int32): (c: Color)
    ensures c.r + 0x100 * c.g + 0x1_0000 * c.b == bgr % 0x100_0000
  {
    LowBytes(bgr);
    Color(bgr % 0x100, (bgr / 0x100) % 0x100, (bgr / 0x1_0000) % 0x100)
  }

  /** Packs red into bits 0-7, green into bits 8-15 and blue into bits 16-23 (the fields do not overlap, so OR is addition). */
  function ColorToOfficeBgr(c: Color): (bgr: Int32)
    ensures 0 <= bgr < 0x100_0000
  {
    c.r + 0x100 * c.g + 0x1_0000 * c.b
  }

  /** The three low bytes of x, reassembled, are x modulo 2^24. */
  lemma LowBytes(x: int)
    ensures x % 0x100 + 0x100 * ((x / 0x100) % 0x100) + 0x1_0000 * ((x / 0x1_0000) % 0x100) == x % 0x100_0000
  {
    var q, m := x / 0x100_0000, x % 0x100_0000;
    assert x == q * 0x100_0000 + m;
    ByteShift(q * 0x1_0000, m);
    ByteShift(q * 0x100, m / 0x100);
    assert x / 0x1_0000 == (x / 0x100) / 0x100;
    assert m / 0x1_0000 == (m / 0x100) / 0x100;
    ByteShift(q, m / 0x1_0000);
    assert m / 0x1_0000 < 0x100;
    assert m / 0x100 == (m / 0x1_0000) * 0x100 + (m / 0x100) % 0x100;
  }

  /** Shifting a byte out of a number leaves the higher part and the rest independent. */
  lemma ByteShift(a: int, b: int)
    ensures (a * 0x100 + b) / 0x100 == a + b / 0x100
    ensures (a * 0x100 + b) % 0x100 == b % 0x100
  {
  }

  /** Decoding ignores every bit above bit 23, negative values included. */
  lemma DecodeIgnoresHighBits(x: Int32)
    ensures OfficeBgrToColor(x) == OfficeBgrToColor(x % 0x100_0000)
  {
    var q, m := x / 0x100_0000, x % 0x100_0000;
    assert x == q * 0x100_0000 + m;
    ByteShift(q * 0x1_0000, m);
    ByteShift(q * 0x100, m / 0x100);
    assert m / 0x1_0000 == (m / 0x100) / 0x100;
    assert x / 0x1_0000 == (x / 0x100) / 0x100;
    ByteShift(q, m / 0x1_0000);
  }

  /** Every packed colour in [0, 2^24) survives a decode and re-encode. */
  lemma BgrRoundTrip(x: Int32)
    requires 0 <= x < 0x100_0000
    ensures ColorToOfficeBgr(OfficeBgrToColor(x)) == x
  {
    var c := OfficeBgrToColor(x);
    assert x / 0x1_0000 < 0x100;
    assert x / 0x100 == (x / 0x1_0000) * 0x100 + c.g;
  }

  /** Every colour survives an encode and decode. */
  lemma ColorRoundTrip(c: Color)
    ensures OfficeBgrToColor(ColorToOfficeBgr(c)) == c
  {
    var x := ColorToOfficeBgr(c);
    assert x / 0x100 == c.g + 0x100 * c.b;
    assert x / 0x1_0000 == c.b;
  }

  /** `value` pulled into [min, max]: below min gives min, above max gives max. */
  function ClampDecimal(value: real, min: real, max: real): (r: real)
    ensures min <= max ==> min <= r <= max
    ensures min <= value <= max ==> r == value
    ensures value < min ==> r == min
    ensures min <= value && max < value ==> r == max
  {
    if value < min then min else if value > max then max else value
  }

  /** Clamping twice into the same range is clamping once. */
  lemma ClampIdempotent(value: real, min: real, max: real)
    requires min <= max
    ensures ClampDecimal(ClampDecimal(value, min, max), min, max) == ClampDecimal(value, min, max)
  {
  }

  /** The values one style section of the dialog shows after loading a stored style. */
  datatype StyleControls = StyleControls(
    fillColorRGB: Int32,
    fillButtonColor: Color,
    transparencyPercent: real,
    fontColorRGB: Int32,
    fontButtonColor: Color,
    fontName: string,
    fontSize: real,
    bold: bool,
    italic: bool,
    margins: Sides<real>)

  /**
   * Loads a stored style into the dialog: colours are kept as packed values
   * and shown decoded; transparency (as a percentage) and margins are
   * clamped into [0, 100], the font size into [1, 200].
   */
  function LoadStyleControls(style: DefaultCellStyle): (ctrl: StyleControls)
    ensures ctrl.fillColorRGB == style.fillForeColorRGB && ctrl.fontColorRGB == style.fontColorRGB
    ensures ctrl.fillButtonColor == OfficeBgrToColor(style.fillForeColorRGB)
    ensures ctrl.fontButtonColor == OfficeBgrToColor(style.fontColorRGB)
    ensures 0.0 <= ctrl.transparencyPercent <= 100.0 && 1.0 <= ctrl.fontSize <= 200.0
    ensures forall side :: 0.0 <= ctrl.margins.Get(side) <= 100.0
    ensures 1.0 <= style.fontSize <= 200.0 ==> ctrl.fontSize == style.fontSize
    ensures 0.0 <= style.fillTransparency <= 1.0 ==> ctrl.transparencyPercent == style.fillTransparency * 100.0
    ensures forall side :: 0.0 <= style.margins.Get(side) <= 100.0 ==> ctrl.margins.Get(side) == style.margins.Get(side)
    ensures ctrl.fontName == style.fontName && ctrl.bold == style.fontBold && ctrl.italic == style.fontItalic
  {
    StyleControls(
      fillColorRGB := style.fillForeColorRGB,
      fillButtonColor := OfficeBgrToColor(style.fillForeColorRGB),
      transparencyPercent := ClampDecimal(style.fillTransparency * 100.0, 0.0, 100.0),
      fontColorRGB := style.fontColorRGB,
      fontButtonColor := OfficeBgrToColor(style.fontColorRGB),
      fontName := style.fontName,
      fontSize := ClampDecimal(style.fontSize, 1.0, 200.0),
      bold := style.fontBold,
      italic := style.fontItalic,
      margins := Sides(
        ClampDecimal(style.margins.top, 0.0, 100.0),
        ClampDecimal(style.margins.bottom, 0.0, 100.0),
        ClampDecimal(style.margins.left, 0.0, 100.0),
        ClampDecimal(style.margins.right, 0.0, 100.0)))
  }

  /** The built-in header fill decodes to R=68, G=114, B=196 and its text is white; the body is white with black text. */
  lemma BuiltInColours()
    ensures BuiltInDefaults().headerStyle.Some? && BuiltInDefaults().bodyStyle.Some?
    ensures OfficeBgrToColor(BuiltInDefaults().headerStyle.value.fillForeColorRGB) == Color(68, 114, 196)
    ensures OfficeBgrToColor(BuiltInDefaults().headerStyle.value.fontColorRGB) == Color(255, 255, 255)
    ensures OfficeBgrToColor(BuiltInDefaults().bodyStyle.value.fillForeColorRGB) == Color(255, 255, 255)
    ensures OfficeBgrToColor(BuiltInDefaults().bodyStyle.value.fontColorRGB) == Color(0, 0, 0)
  {
  }
}
