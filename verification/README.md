# PowerPoint table-layout tools: a verified model

PowerPointUsefulTools is a presentation-host add-in that copies one table's visual
style and replays it onto other tables. The copy button samples the selected table:
cell (1,1) gives the header style and cell (2,1) gives the body style. While a style
is held, a table shape selected later gets that style unless its Id equals the Id of
the shape the style was copied from. Text selections and notifications raised during
a write are ignored. A second button writes a
user-defined default style, stored in a settings file, onto the selected table.

This project models that core in Dafny:

- `Host.dfy` (module `Host`): the part of the host object model the add-in touches.
  - A live table is an `array2` of cell records.
  - Host failures take three forms:
    - a failing call on a cell is an `Attr` at that cell;
    - a failing row or column count read is `CountRead`;
    - a selection whose type or shape range cannot be read holds `None` there.
  - The set of failures during one operation is an input, `faults`. Reads of a
    shape's id and table, and of the active window, are taken to succeed (see
    "Left out").
- `DefaultTableSettings.dfy` (module `Settings`): the stored default style records,
  the built-in default, and the fallback rule of `Load`.
- `TableSettingsForm.dfy` (module `SettingsForm`): the packed colour encoding and
  decoding, `ClampDecimal`, and the clamping done when a stored style is shown in the
  settings dialog.
- `TableLayoutManager.dfy` (module `Layout`): capture and apply.
  - Capture builds a record attribute by attribute.
  - Apply writes a style onto each cell in place. It has nested row and column loops
    and one exception handler per cell.
  - Each method is proved against a specification function: `CapturedStyle`,
    `StyledCell` or `LaidOutCell`.
- `ThisAddIn.dfy` (module `AddInState`): the add-in's shared state, as class `AddIn`,
  and the selection-change handler.
  - The handler is specified by the decision function `Decide`.
  - The handler re-invokes itself on the notifications the host raises while it is
    writing. This shows that the re-entrancy guard prevents any nested write.
- `RibbonUsefulTools.dfy` (module `Ribbon`): the copy button, the apply-default button,
  and the selection filter they share.

## Model

| member | source | states |
|---|---|---|
| Host.FirstTableShape | ThisAddIn.cs:24-35 | A selection denotes a table shape exactly when its shape range is readable and non-empty and the first shape has a table. That shape is the first of the range. |
| Settings.BuiltInSectionsShareLayout | DefaultTableSettings.cs:44-84 | The built-in header has fill 0xC47244 and font colour 0xFFFFFF. The body has fill 0xFFFFFF and font colour 0. Both have transparency 0 and the font 游ゴシック at 11, neither bold nor italic. Both have margins 3.6/3.6/7.2/7.2. All eight borders are visible, black, 0.75 wide and solid. The two sections differ only in their colours. |
| Settings.BuiltInDefaults | DefaultTableSettings.cs:44-84 | The built-in default has both a header and a body style. Their values are stated by `Settings.BuiltInSectionsShareLayout`. |
| Settings.Load | DefaultTableSettings.cs:91-106 | The loaded settings are either the built-in default or the parsed file. When no file exists they are the built-in default. |
| Settings.LoadFallsBackToBuiltIn | DefaultTableSettings.cs:91-106 | A missing or undeserialisable settings file yields the built-in default. Otherwise the parsed value is returned. |
| SettingsForm.OfficeBgrToColor | TableSettingsForm.cs:329-332 | The decoded channels, reassembled as R + 2^8 G + 2^16 B, are the packed value's low 24 bits. |
| SettingsForm.ColorToOfficeBgr | TableSettingsForm.cs:334-337 | Packing three channels yields a value in [0, 2^24). |
| SettingsForm.DecodeIgnoresHighBits | TableSettingsForm.cs:329-332 | Decoding ignores every bit above bit 23, including for negative values. |
| SettingsForm.BgrRoundTrip | TableSettingsForm.cs:329-337 | Every packed colour in [0, 2^24) is unchanged by decoding and then re-encoding it. |
| SettingsForm.ColorRoundTrip | TableSettingsForm.cs:329-337 | Every (R, G, B) colour is unchanged by encoding and then decoding it. |
| SettingsForm.ClampDecimal | TableSettingsForm.cs:339-342 | The result lies in [min, max] when min <= max. It is the input when the input is in range, min below the range and max above it. |
| SettingsForm.ClampIdempotent | TableSettingsForm.cs:339-342 | Clamping twice into the same range is the same as clamping once. |
| SettingsForm.LoadStyleControls | TableSettingsForm.cs:275-296 | Colours are shown as stored and decoded. Transparency as a percentage and the margins lie in [0, 100], and the font size lies in [1, 200]. Each value that is already in range is shown exactly. |
| SettingsForm.BuiltInColours | DefaultTableSettings.cs:46-51 | The built-in header fill decodes to R=68, G=114, B=196 with white text. The body is white with black text. |
| Layout.ToBorderInfo | TableLayoutManager.cs:80-89 | A stored border is carried over field by field. A missing one becomes visible, black, 0.75 and solid. |
| Layout.ToCellStyleInfo | TableLayoutManager.cs:56-78 | A missing section style stays missing. A present one becomes a style with a solid fill and four present borders. |
| Layout.DefaultLayout | TableLayoutManager.cs:48-52 | The layout built from settings has a header exactly when the settings have one, and the same holds for the body. Both are solid fills. |
| Layout.SettingsConversion | TableLayoutManager.cs:56-89 | A style converted from settings always has a solid fill and four present borders. A border missing from the settings becomes visible, black, 0.75 and solid. Every other value is carried over unchanged, including a present border's visibility, colour, weight and dash. |
| Layout.CopyBorder | TableLayoutManager.cs:136-149 | Reading one border yields the default border when the border object cannot be fetched. Otherwise it yields the cell's value for each attribute that can be read and the default for each that cannot. |
| Layout.CopyCellStyle | TableLayoutManager.cs:106-134 | Capturing a cell throws exactly when the fill, font or text-frame object cannot be fetched. Otherwise it yields the cell's style, and each unreadable attribute keeps its default. |
| Layout.CaptureDefaults | TableLayoutManager.cs:108-149 | Failed reads leave deterministic values. An unreadable fill type is Background. Other unreadable values are zero, empty or false. A border object that cannot be fetched equals the border a settings file without that border yields. Each unreadable attribute of a fetched border takes that default border's value: visible, colour 0, weight 0.75, dash 1. |
| Layout.CapturedLayout | TableLayoutManager.cs:93-103 | An empty table gives neither a header nor a body. A table with fewer than two rows gives a body equal to its header. Otherwise the header is captured from cell (1,1) and the body from cell (2,1). |
| Layout.CopyLayout | TableLayoutManager.cs:91-104 | The capture throws exactly when a count read, a cell fetch or an object fetch for a sampled cell fails (`CopyThrows`). Otherwise it returns `CapturedLayout` of the table. |
| Layout.ApplyFill | TableLayoutManager.cs:172-192 | The fill block changes only the target cell, and only as the fill rules say. |
| Layout.ApplyFont | TableLayoutManager.cs:194-199 | The font writes change only the target cell's font. Each write happens on its own. |
| Layout.ApplyMargins | TableLayoutManager.cs:201-205 | The margin writes change only the target cell's margins. Each write happens on its own. |
| Layout.ApplyBorder | TableLayoutManager.cs:213-228 | Writing one border changes only that border of the target cell, as the border rules say. |
| Layout.ApplyCellStyle | TableLayoutManager.cs:170-211 | Styling a cell changes that cell as `StyledCell` says and leaves every other cell as it was. |
| Layout.FetchFailureAbandonsRest | TableLayoutManager.cs:165-211 | A failed fill-object fetch leaves the cell untouched. A failed font-object fetch keeps only the fill writes. A failed text-frame fetch leaves the margins and borders untouched. |
| Layout.WritesAreIndependent | TableLayoutManager.cs:194-210 | Without a failed object fetch, each font, margin and border field holds the style's value exactly when its own write did not fail. The font name is written only when non-empty, and the size only when positive. |
| Layout.FillRules | TableLayoutManager.cs:173-192 | A Background style clears the fill to the background and keeps its colour and transparency. Every other kind makes the fill solid and writes the style's colour and transparency. The fill block changes no other field. |
| Layout.SettingsStylesFillSolid | TableLayoutManager.cs:56-61 | Every row style of a layout built from settings has a solid fill. |
| Layout.BorderRules | TableLayoutManager.cs:213-228 | No border info, or no border object, writes nothing. An invisible border changes only the visibility. A visible border also gets colour, weight and dash, each on its own. |
| Layout.CaptureAfterApply | TableLayoutManager.cs:106-228 | Capturing a cell that was just styled without failures gives the style back. This holds for every style with a solid fill, a non-empty font name, a positive size and four present, visible borders. |
| Layout.CellIsolation | TableLayoutManager.cs:163-166 | What happens to cell (r, c) depends only on the failures at (r, c). A failure elsewhere never changes it. |
| Layout.RowSelection | TableLayoutManager.cs:158-165 | Unfolds the row choice for one cell; the whole-table promise is `Layout.ApplyLayout`'s. Row 1 takes the header style and every later row the body style. A row without a style, or a cell that cannot be fetched, is left as it was. |
| Layout.AttemptsInBounds | TableLayoutManager.cs:158-166 | Every attempted cell lies within the table and in a styled row. |
| Layout.AttemptsCoverStyledRows | TableLayoutManager.cs:158-166 | A cell is attempted exactly when it lies within the table and its row has a style. |
| Layout.AttemptsContain | TableLayoutManager.cs:158-166 | Every cell of a styled row within the table is attempted. |
| Layout.AttemptsInRowMajorOrder | TableLayoutManager.cs:158-166 | Attempts come in strictly increasing row-major order, so no cell is attempted twice. |
| Layout.ApplyRow | TableLayoutManager.cs:163-166 | The inner loop styles cells (r, 1) to (r, cols) in order and touches no other row. |
| Layout.ApplyLayout | TableLayoutManager.cs:151-168 | A None layout changes nothing. A failing count read throws before any cell is touched. Otherwise every cell ends as `LaidOutCell` says and the cells are attempted in the order `Attempts` gives. |
| Layout.ApplyDefaultLayout | TableLayoutManager.cs:45-54 | None settings change nothing. Otherwise every cell ends as the layout converted from the settings says. |
| Layout.BuiltInDefaultsPaint | TableLayoutManager.cs:45-54 | Applying the built-in default without failures gives row 1 a solid 0xC47244 fill with white text and every later row a solid white fill with black text, in 游ゴシック at 11. |
| AddInState.Decide | ThisAddIn.cs:19-37 | A notification writes a layout exactly when a layout is held, no write is in progress, the selection is of shapes, and its first shape is a table whose Id differs from the held source Id. It throws exactly when the selection type cannot be read while a layout is held and no write is in progress. |
| AddInState.GuardAndEmptyStateIgnore | ThisAddIn.cs:21 | With nothing held, or while a write is in progress, a notification does nothing. |
| AddInState.TextSelectionIgnored | ThisAddIn.cs:22 | A text selection never triggers propagation. |
| AddInState.AddIn.constructor | ThisAddIn.cs:9-12 | At start-up nothing is held, the source id is -1 and the guard is clear. |
| AddInState.AddIn.OnWindowSelectionChange | ThisAddIn.cs:19-48 | When it applies, the held layout is written once onto the selected table and logged once. Notifications raised during the write change nothing. The guard is back to its old value even when the write throws. The held layout and source id never change. When it does not apply, no table changes. |
| Ribbon.GetSelectedTableShape | RibbonUsefulTools.cs:41-59 | A selection of shapes or text whose readable, non-empty range starts with a table shape yields that shape. Every other selection, including one that cannot be inspected, yields None. |
| Ribbon.HandlerNarrowerThanButtons | ThisAddIn.cs:22 | Every shape the handler writes onto is the shape the buttons would pick. A text selection in a table is picked by the buttons and ignored by the handler. |
| Ribbon.OnTableLayoutCopy | RibbonUsefulTools.cs:25-39 | With a table selected, the button stores the captured layout and that shape's id. A capture that throws leaves both as they were. With no table selected, the button clears the layout and sets the id to -1. |
| Ribbon.OnApplyDefaultLayout | RibbonUsefulTools.cs:61-69 | With no table selected, nothing changes. Otherwise the loaded settings are written onto the selected table once, and the add-in's state is outside the frame. |

## Left out

- User interface: the settings dialog's construction, the colour picker, font enumeration and button wiring are not modelled. `BtnDefaultTableSettings_Click` is not modelled either. Only the values `LoadStyleControls` puts into the controls are modelled.
- The settings dialog's `ReadStyleControls` is not modelled. It writes no borders, so settings saved from the dialog carry no borders, and applying them uses the default border on all four edges.
- Settings file I/O: the file path, XML (de)serialisation and `Save` are not modelled. `Load` takes whether the file exists and the parsed value (None when deserialisation throws) as input.
- Add-in start-up, shutdown, event registration, ribbon XML loading and `Ribbon_Load` are host plumbing and are not modelled.
- Reading the active window's selection, a shape's `Id` and a shape's `Table` is assumed to return a value. The row and column count reads inside capture and apply can fail (`CountRead`).
- `MsoTriState` mixed values are not modelled. Bold, italic and border visibility are booleans, and the host's "mixed" answer is not modelled.
- A null font name and an empty one are the same value "". Every consumer of the name tests for null or empty alike.
- Floating point is not modelled. Weights, margins, sizes and transparency are exact reals. Transparency times 100 is exact, and the casts between float and decimal lose nothing.
- The host's `dynamic` border indexing becomes a four-sided record indexed by `Side`.
- Selection-change notifications raised during a write are handled after the layout write in the model, not interleaved between cell writes. While the guard is set they change nothing, so the order does not affect any state.
- Body style aliasing: in the source, the body style of a one-row capture is the same object as the header style. Values in the model cannot alias. Nothing mutates a captured layout afterwards, so the difference cannot be observed.
- SettingsForm.LoadStyleControls: a stored settings file whose header or body style is null makes the dialog throw. The model takes a present style, because the dialog is outside the modelled core.

- Capture is not isolated for every attribute. The fill, font and text-frame objects are fetched outside any handler in `CopyCellStyle` (TableLayoutManager.cs:110, 115, 122), so a failure there makes the copy button throw. `Layout.CopyCellStyle` and `Ribbon.OnTableLayoutCopy` model that behaviour, and the held layout and source id stay as they were.
- Ribbon.OnApplyDefaultLayout: selection-change notifications raised while this button writes are not modelled. Only the handler's own write is given such notifications (`duringApply`). The button never sets the re-entrancy guard (RibbonUsefulTools.cs:61-69). So on a host that raised a notification during this write, an add-in holding a copied layout would pass ThisAddIn.cs:21-37 and write the held layout over the default onto a selected table whose Id differs from the held source Id. The contract states the outcome when no such notification arrives.
