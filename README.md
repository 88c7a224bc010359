# TCPDF table extension, modelled in Dafny

This project models the table extension for the TCPDF PDF library. A `Table` holds `Row`s,
which hold `Cell`s, each with text, a colspan, an optional width, a font weight and size,
and border, align and fill attributes. A `TableConverter` lays the table out and draws it:

- It resolves one width per column. Each column takes the widest single-column cell that
  starts in it. All columns are rescaled proportionally when they overflow the page or
  when the table declares its own width.
- It spreads the column widths over the cells, so a cell spanning `n` columns gets their sum.
- It measures every row as the highest of its cells.
- It walks a cursor over the rows and cells, drawing one box per cell.
- The surface's font is saved before the measuring pass and restored after it. It is
  also saved and restored around every drawn box.

The width and height results are memoized in the converter. The `Helper` functions
(colour parsing, unit conversion, page-space arithmetic) and the
`BackgroundFormatterOptions` holder are modelled too.

Modules:

- `Values`: `Option`, `Result`, `Outcome` and the exceptions. It also holds the PHP
  values the setters receive, with PHP truthiness and `is_numeric`.
- `Surface`: the TCPDF surface as a class `Pdf`.
  - Page geometry and margins are constants.
  - Text measurement is a pair of uninterpreted functions.
  - Drawing appends a `DrawCall` to a log and moves the cursor the way `MultiCell` does.
- `Helper`: `convertColor` as a loop-based method proved against `ColorOf`; the unit
  conversion; the page-space functions.
- `Layout`: the value-level specification of the layout.
  - Raw widths, rescaling and the spread over cells.
  - Row heights and the placement of every box.
  - The lemmas about all of these.
- `Grid`: the classes `Table`, `Row` and `Cell` with their setters and validation, and
  `Content`, which reads the rows and cells into a value grid of `CellSpec`.
- `Background`: the class `BackgroundFormatterOptions`.
- `Conversion`: the class `TableConverter`. Each of its loops is a method whose
  postcondition ties its result or the new surface state to a `Layout` function.

The layout functions recurse from the back where the source's loop builds a prefix
(`RawWidths`, `RowHeights`, `CellWidthGrid`). They recurse from the front where the loop
walks a cursor (`RowDraws`, `Placement`).

## Model

| member | source | states |
|---|---|---|
| Layout.Feed | src/Tcpdf/Extension/Table/TableConverter.php:31-33 | recording a single-column cell's width in column `c` replaces the stored width when that is empty (0) or smaller, and leaves every other column as it was |
| Layout.RawRow | src/Tcpdf/Extension/Table/TableConverter.php:27-36 | one row of the raw-width pass, feeding each colspan-1 cell's width into its start column; characterised by `RawRowAttained`, `RawRowBound` and `RawRowLength` |
| Layout.RawWidths | src/Tcpdf/Extension/Table/TableConverter.php:25-38 | the raw column widths of all rows; characterised by `RawWidthIsAttained`, `RawWidthIsUpperBound` and `RawWidthsLength`, and `GetRawCellWidths` is proved equal to it |
| Layout.RawWidthIsAttained | src/Tcpdf/Extension/Table/TableConverter.php:26-36 | a raw column width is 0 or the explicit-or-measured width of some colspan-1 cell whose start column (the sum of the colspans before it) is that column |
| Layout.RawWidthIsUpperBound | src/Tcpdf/Extension/Table/TableConverter.php:26-36 | with non-negative cell widths, a raw column width is at least the width of every colspan-1 cell starting in that column, so together with `RawWidthIsAttained` it is their maximum |
| Layout.RawWidthsLength | src/Tcpdf/Extension/Table/TableConverter.php:25-38 | the raw width list is non-empty exactly when some row has a colspan-1 cell |
| Layout.Rescale | src/Tcpdf/Extension/Table/TableConverter.php:66-81 | one scaled width per raw width; the values are pinned by `RescaleIsUniform`, `RescaleSum` and `RescaleHitsTarget` |
| Layout.RescaleIsUniform | src/Tcpdf/Extension/Table/TableConverter.php:66-81 | rescaling multiplies every column by the same factor `target/sum`, so ratios between columns are kept |
| Layout.RescaleSum | src/Tcpdf/Extension/Table/TableConverter.php:66-81 | the rescaled widths add up to the raw sum times `target/sum` |
| Layout.RescaleHitsTarget | src/Tcpdf/Extension/Table/TableConverter.php:66-81 | rescaling by the raw sum makes the columns add up to exactly the target width |
| Layout.ColumnWidths | src/Tcpdf/Extension/Table/TableConverter.php:53-81 | without overflow and without a declared width the raw widths are kept; the result fails with division by zero exactly when rescaling is due on a non-empty list summing to 0; otherwise the columns are rescaled uniformly and sum to the target (the declared width, else the page content width) |
| Layout.CellWidthGrid | src/Tcpdf/Extension/Table/TableConverter.php:85-98 | the grid has one row of widths per table row, each the spread of the columns over that row's cells |
| Layout.RowCellWidths | src/Tcpdf/Extension/Table/TableConverter.php:86-97 | one width per cell of the row; `CellWidthIsSpannedColumns` gives each value and `RowWidthIsSpannedWidth` their sum |
| Layout.CellWidthIsSpannedColumns | src/Tcpdf/Extension/Table/TableConverter.php:87-95 | the width of cell `k` is the sum of its `colspan` columns starting after the columns spanned by the cells before it (a missing column counts 0) |
| Layout.SpanWidthSplit | src/Tcpdf/Extension/Table/TableConverter.php:89-92 | a span of `m + n` columns is the span of the first `m` plus the span of the next `n` |
| Layout.RowWidthIsSpannedWidth | src/Tcpdf/Extension/Table/TableConverter.php:85-98 | a row's cell widths add up to the width of all the columns its cells span |
| Layout.SpanWidthIsSum | src/Tcpdf/Extension/Table/TableConverter.php:89-92 | a span from column 0 of `n` existing columns is the sum of the first `n` column widths |
| Layout.FullRowHasTableWidth | src/Tcpdf/Extension/Table/TableConverter.php:85-98 | a row whose cells span every column is exactly as wide as all the columns together |
| Layout.CellWidths | src/Tcpdf/Extension/Table/TableConverter.php:47-101 | when the widths resolve, the grid has one width per cell of every row |
| Layout.RowHeight | src/Tcpdf/Extension/Table/TableConverter.php:140-163 | the height of one row; `RowHeightIsMax` shows it is the maximum of its cells' heights, starting from 0 |
| Layout.RowHeights | src/Tcpdf/Extension/Table/TableConverter.php:138-165 | one height per row, each the row's height at that row's cell widths |
| Layout.RowHeightIsMax | src/Tcpdf/Extension/Table/TableConverter.php:140-165 | a row's height is at least 0 and at least every cell's measured height (in the cell's font, at its width), and it is 0 or one of those heights |
| Layout.RowDraws | src/Tcpdf/Extension/Table/TableConverter.php:224-248 | one box per cell of the row; `RowDrawAt` gives each box and `CellsAbut` shows neighbouring boxes abut |
| Layout.Placement | src/Tcpdf/Extension/Table/TableConverter.php:220-251 | the table draws exactly one box per cell |
| Layout.PlacementFrom | src/Tcpdf/Extension/Table/TableConverter.php:222-251 | the boxes of the rows from `r` on are row `r`'s boxes, then those of the later rows one row advance further down |
| Layout.RowDrawAt | src/Tcpdf/Extension/Table/TableConverter.php:224-247 | cell `k` of a row is drawn at the row's x plus the widths of cells `0..k-1`, at the row's y, with its grid width, the row's height, its own text, border, align and fill, in its own font |
| Layout.CellsAbut | src/Tcpdf/Extension/Table/TableConverter.php:231-232 | each box of a row starts where the previous one ends |
| Layout.DrawOfCell | src/Tcpdf/Extension/Table/TableConverter.php:220-251 | the box of cell `k` of row `r` is drawn at the start x plus the widths before it in its row, below the heights of the rows above, with the cell's width and the row's height |
| Conversion.WidthsFor | src/Tcpdf/Extension/Table/TableConverter.php:47-101 | the widths the table's content calls for fit the content: one per cell |
| Conversion.RenderFor | src/Tcpdf/Extension/Table/TableConverter.php:214-252 | the boxes converting the table draws are one per cell |
| Conversion.TableConverter.constructor | src/Tcpdf/Extension/Table/TableConverter.php:17-21 | creating the converter converts the table: on success every box of `RenderFor` is drawn in order, x is back where it was, y is below the table and the font is unchanged; on failure the exception is kept, nothing is drawn and the cursor's x and y are unchanged |
| Conversion.TableConverter.GetRawCellWidths | src/Tcpdf/Extension/Table/TableConverter.php:23-39 | the nested loops compute exactly `RawWidths` of the table's cells, in the surface's font |
| Conversion.TableConverter.ScaleColumns | src/Tcpdf/Extension/Table/TableConverter.php:53-81 | the scaling loop computes exactly `ColumnWidths` |
| Conversion.TableConverter.SpreadColumns | src/Tcpdf/Extension/Table/TableConverter.php:85-98 | the spreading loop computes exactly `CellWidthGrid`, and reports whether any row has a cell |
| Conversion.TableConverter.SpreadRow | src/Tcpdf/Extension/Table/TableConverter.php:86-97 | the per-row loop with the column counter `c` and cell counter `cr` computes exactly `RowCellWidths` |
| Conversion.TableConverter.ResolveWidths | src/Tcpdf/Extension/Table/TableConverter.php:53-98 | scaling fails with the same exception as `ColumnWidths`, otherwise the result is the column widths spread over the cells |
| Conversion.TableConverter.GetCellWidths | src/Tcpdf/Extension/Table/TableConverter.php:47-101 | a stored grid is returned unchanged without recomputation; otherwise the result is `WidthsFor` the content, stored when it resolves and some row has a cell |
| Conversion.TableConverter.SaveFontSettings | src/Tcpdf/Extension/Table/TableConverter.php:171-181 | the surface's current font settings are saved |
| Conversion.TableConverter.RestoreFontSettings | src/Tcpdf/Extension/Table/TableConverter.php:183-196 | the saved family, style, size and cell height ratio are put back; with nothing saved it raises an error and leaves the font alone |
| Conversion.TableConverter.GetRowHeights | src/Tcpdf/Extension/Table/TableConverter.php:128-169 | stored non-empty heights are returned without recomputation; otherwise the result is `HeightsFor` the content (or the width exception), it is stored, and the surface's font is the same afterwards |
| Conversion.TableConverter.MeasureRows | src/Tcpdf/Extension/Table/TableConverter.php:139-164 | the loop over the rows computes exactly `RowHeights` and keeps the font family and cell height ratio |
| Conversion.TableConverter.MeasureRow | src/Tcpdf/Extension/Table/TableConverter.php:140-161 | the loop over a row's cells, each measured in its own font, computes exactly `RowHeight` |
| Conversion.TableConverter.Convert | src/Tcpdf/Extension/Table/TableConverter.php:214-252 | a width exception is returned with nothing drawn and the cursor's x and y unchanged; otherwise exactly the boxes of `RenderFor` are appended to the log, x ends where it started, y moves down by the table's height and the font is unchanged |
| Conversion.TableConverter.DrawRows | src/Tcpdf/Extension/Table/TableConverter.php:220-251 | the row loop appends exactly `Placement` of the rows from the starting cursor, resets x after every row and moves y down by `TableHeight` |
| Conversion.TableConverter.DrawRow | src/Tcpdf/Extension/Table/TableConverter.php:224-248 | the cell loop appends exactly `RowDraws` of the row, with the font saved and restored around every box |
| Helper.ColorOf | src/Tcpdf/Extension/Helper.php:26-41 | the result is null exactly for an empty value or `'transparent'`; an RGB array comes back unchanged; a string gives one component per two-character chunk of the padded digits |
| Helper.ConvertColor | src/Tcpdf/Extension/Helper.php:26-41 | the method with its padding loop computes exactly `ColorOf` |
| Helper.PadWithLastChar | src/Tcpdf/Extension/Helper.php:34-36 | the loop computes exactly `PadToSix`: the input followed by copies of its last character up to length 6 |
| Helper.PadToSix | src/Tcpdf/Extension/Helper.php:34-36 | the padded string starts with the input, is at least 6 long, and every added character is the input's last one |
| Helper.StripHashes | src/Tcpdf/Extension/Helper.php:33 | the result is the input without all its leading `#` |
| Helper.ShortColorIsByteTriple | src/Tcpdf/Extension/Helper.php:33-37 | a string of 1 to 6 hex digits after its leading `#` converts to exactly three components, each in 0..255 |
| Helper.SixDigitColor | src/Tcpdf/Extension/Helper.php:33-37 | a `#` and six hex digits convert to the three digit pairs, each read as a base-16 byte |
| Helper.ThreeDigitColor | src/Tcpdf/Extension/Helper.php:33-37 | a `#` and three hex digits convert to the first pair and then twice the last digit doubled, because padding repeats the last character |
| Helper.PaddedColor | src/Tcpdf/Extension/Helper.php:33-37 | a colour with one to six characters after its `#`s converts to the hexadecimal values of the three pairs of its padded form |
| Helper.StripOneHash | src/Tcpdf/Extension/Helper.php:33 | a single leading `#` is the only character `ltrim` removes when the next character is not `#` |
| Helper.MagentaExample | src/Tcpdf/Extension/Helper.php:17 | `'#ff00ff'` converts to (255, 0, 255) |
| Helper.ShortGreyExample | src/Tcpdf/Extension/Helper.php:18 | `'#aaa'` converts to (170, 170, 170) |
| Helper.ArrayAndTransparentExamples | src/Tcpdf/Extension/Helper.php:19-20 | an RGB array is returned as given and `'transparent'` converts to null |
| Helper.ShortColorRepeatsLastDigit | src/Tcpdf/Extension/Helper.php:34-37 | `'#abc'` pads to `abcccc` and converts to (171, 204, 204), not to the CSS expansion `aabbcc` |
| Helper.SizeInPixelAsWritten | src/Tcpdf/Extension/Helper.php:43-68 | as written, the conversion fails exactly for an unknown unit after lower-casing, and for `in` it gives `dpi` whatever the length (see Findings) |
| Helper.InchIgnoresWidth | src/Tcpdf/Extension/Helper.php:59-62 | as written, 2 inches at 72 dpi give 72 pixels while the same length in centimetres gives 144 |
| Helper.SizeInPixel | src/Tcpdf/Extension/Helper.php:43-68 | the result fails, with the invalid-unit message naming the lower-cased unit, exactly for a unit that is none of px, pt, mm, cm, in after lower-casing; px and pt return the length unchanged |
| Helper.SizeInPixelAgreesAcrossUnits | src/Tcpdf/Extension/Helper.php:51-62 | the corrected conversion gives the same pixels for a length in inches, centimetres and millimetres |
| Helper.SizeInPixelIgnoresCase | src/Tcpdf/Extension/Helper.php:45 | the unit is compared case-insensitively |
| Helper.SizeInPixelIsLinear | src/Tcpdf/Extension/Helper.php:47-67 | for every known unit the pixel size is proportional to the input length |
| Helper.RemainingYPageSpace | src/Tcpdf/Extension/Helper.php:78-85 | the page height in user units less the bottom margin and `y`; characterised by `RemainingSpaceDecreases` and `ContentHeightIsSpaceBelowTopMargin` |
| Helper.PageContentHeight | src/Tcpdf/Extension/Helper.php:94-101 | the page height in user units less both vertical margins; `ContentHeightIsSpaceBelowTopMargin` ties it to the remaining space at the top margin |
| Helper.ChunkAt | src/Tcpdf/Extension/Helper.php:37 | chunk `i` of `str_split($color, 2)` holds characters `2i` and `2i + 1`, or only the final character for the last chunk of an odd length |
| Helper.RemainingSpaceDecreases | src/Tcpdf/Extension/Helper.php:78-85 | the remaining page space shrinks strictly as y grows, by exactly the change in y |
| Helper.ContentHeightIsSpaceBelowTopMargin | src/Tcpdf/Extension/Helper.php:94-101 | the page content height is the remaining space at the top margin |
| Grid.WeightOfStyle | src/Tcpdf/Extension/Table/Table.php:42-45 | the weight is bold exactly when the font style contains `B` |
| Grid.Table.constructor | src/Tcpdf/Extension/Table/Table.php:34-46 | the table keeps the surface, records its x, starts with no rows, line height 1 and no width, and takes border width, font family and size from the surface, bold exactly when the style contains `B` |
| Grid.Table.NewRow | src/Tcpdf/Extension/Table/Table.php:87-90 | exactly one new row, owned by this table and without cells, is appended; earlier rows are unchanged |
| Grid.Table.GetRows | src/Tcpdf/Extension/Table/Table.php:105-108 | returns the stored row list; `SetRows` and `NewRow` state their effect through it and through `rows` |
| Grid.Table.SetRows | src/Tcpdf/Extension/Table/Table.php:105-114 | after setting, `GetRows` returns exactly the given list |
| Grid.Table.SetBorderWidth | src/Tcpdf/Extension/Table/Table.php:53-57 | stores the border width and nothing else |
| Grid.Table.SetLineHeight | src/Tcpdf/Extension/Table/Table.php:77-81 | stores the line height and nothing else |
| Grid.Table.SetFontFamily | src/Tcpdf/Extension/Table/Table.php:149-153 | stores the font family and nothing else |
| Grid.Table.GetWidth | src/Tcpdf/Extension/Table/Table.php:116-127 | null exactly when no width is set; an absolute width is returned as stored |
| Grid.PercentageWidthFits | src/Tcpdf/Extension/Table/Table.php:121-125 | a percentage between 0 and 100 gives a width between 0 and the room from the table's x to the right margin, and 100% fills that room exactly |
| Grid.Table.SetWidth | src/Tcpdf/Extension/Table/Table.php:134-142 | a non-numeric width raises the invalid-argument error and changes nothing; otherwise the width and the percentage flag (PHP truthiness) are stored |
| Grid.Table.SetFontSize | src/Tcpdf/Extension/Table/Table.php:160-167 | a non-numeric size raises the invalid-argument error and changes nothing; otherwise it is stored |
| Grid.Table.SetFontWeight | src/Tcpdf/Extension/Table/Table.php:174-181 | only `normal` and `bold` are stored; anything else raises the invalid-argument error and keeps the old weight |
| Grid.Row.constructor | src/Tcpdf/Extension/Table/Row.php:13-18 | the row belongs to the given table and has no cell list yet (null, not empty) |
| Grid.Row.NewCell | src/Tcpdf/Extension/Table/Row.php:25-28 | exactly one new cell, owned by this row and holding the given text, is appended; earlier cells are unchanged |
| Grid.Row.GetCells | src/Tcpdf/Extension/Table/Row.php:43-46 | the cells added so far, or null while none has been added (the constructor leaves the list null, `NewCell` makes it a list) |
| Grid.Row.GetTable | src/Tcpdf/Extension/Table/Row.php:34-37 | returns the table the row was created for |
| Grid.Row.End | src/Tcpdf/Extension/Table/Row.php:52-55 | returns the same table as `GetTable` |
| Grid.Cell.constructor | src/Tcpdf/Extension/Table/Cell.php:17-37 | a new cell keeps its row and text, has colspan 1, border 0, align `L`, fill 0, no width, the surface's font size, and is bold exactly when the surface's style contains `B` |
| Grid.Cell.SetColspan | src/Tcpdf/Extension/Table/Cell.php:48-55 | a colspan below 1 raises the invalid-argument error and changes nothing; otherwise it is stored |
| Grid.Cell.SetWidth | src/Tcpdf/Extension/Table/Cell.php:67-74 | a width loosely different from the current one is stored and clears the cached line number; a loosely equal one changes nothing |
| Grid.Cell.SetMinHeight | src/Tcpdf/Extension/Table/Cell.php:81-85 | stores the minimum height and nothing else |
| Grid.Cell.SetLineHeight | src/Tcpdf/Extension/Table/Cell.php:95-99 | stores the line height and nothing else |
| Grid.Cell.SetText | src/Tcpdf/Extension/Table/Cell.php:106-110 | stores the text and nothing else |
| Grid.Cell.SetBorder | src/Tcpdf/Extension/Table/Cell.php:136-140 | stores the border as given and nothing else |
| Grid.Cell.SetAlign | src/Tcpdf/Extension/Table/Cell.php:160-164 | stores the alignment as given and nothing else |
| Grid.Cell.SetFill | src/Tcpdf/Extension/Table/Cell.php:178-182 | stores the fill as given and nothing else |
| Grid.Cell.SetFontSize | src/Tcpdf/Extension/Table/Cell.php:222-226 | stores the font size and nothing else |
| Grid.Cell.SetFontWeight | src/Tcpdf/Extension/Table/Cell.php:199-206 | only `normal` and `bold` are stored; anything else fails (with a class-not-found error, see below) and keeps the old weight |
| Grid.Cell.GetLineHeight | src/Tcpdf/Extension/Table/Cell.php:87-93 | the cell's own line height when truthy, else the table's; truthy exactly when one of the two is |
| Grid.Cell.End | src/Tcpdf/Extension/Table/Cell.php:249-255 | returns the owning row exactly when the effective line height is truthy, otherwise the runtime error |
| Grid.Cell.Spec | src/Tcpdf/Extension/Table/TableConverter.php:28-30 | the value the converter reads carries the cell's text, colspan and width, and is bold exactly when the weight is `bold` |
| Grid.RowContent | src/Tcpdf/Extension/Table/TableConverter.php:28 | one cell description per cell of the row, in order, each the description of that cell |
| Grid.Content | src/Tcpdf/Extension/Table/TableConverter.php:26-28 | one row of cell descriptions per row of the table, in order, each the descriptions of that row's cells (none while the row has no cell list) |
| Background.BackgroundFormatterOptions.constructor | src/Tcpdf/Extension/Attribute/BackgroundFormatterOptions.php:13-24 | stores the image and both maximums, starts the width and height at the maximums and dpi at null |
| Background.BackgroundFormatterOptions.SetImage | src/Tcpdf/Extension/Attribute/BackgroundFormatterOptions.php:51-55 | changes the image and nothing else |
| Background.BackgroundFormatterOptions.SetHeight | src/Tcpdf/Extension/Attribute/BackgroundFormatterOptions.php:57-61 | changes the height and nothing else; the maximums are constants |
| Background.BackgroundFormatterOptions.SetWidth | src/Tcpdf/Extension/Attribute/BackgroundFormatterOptions.php:63-67 | changes the width and nothing else; the maximums are constants |
| Background.BackgroundFormatterOptions.SetDpi | src/Tcpdf/Extension/Attribute/BackgroundFormatterOptions.php:74-77 | changes the dpi and nothing else |

## Left out

- TCPDF itself is not part of this model. Text width and wrapped-text height are uninterpreted functions of the font, width and text. Page width, page height, scale factor, margins and line width are constants of the surface. `MultiCell` is a log entry that moves the cursor below the box and back to the left margin. It has no automatic page break, padding or wrapping.
- PHP floats are modelled as reals: rounding and `INF`/`NAN` are not modelled.
- Division by a zero column sum follows PHP 8, which raises `DivisionByZeroError`. Older PHP versions warn and go on with `INF`/`NAN` (PHP 7) or `false` (PHP 5); those are not modelled.
- Colspans are integers of at least 1. PHP's `setColspan` also accepts a fractional number such as 1.5, which the model does not.
- PHP numeric strings (`"12"` accepted by `is_numeric`) are not modelled. A PHP value is null, a boolean, a number or a string, and only numbers are numeric.
- `_getCellWordWidths` is not modelled. No caller uses it; every call to it in `_getCellWidths` is commented out.
- `Table::end` is not modelled. It calls the converter's private `convert` after the constructor has already run it, which PHP rejects as a call to a private method. Rendering is modelled once, in the constructor.
- The page-break callback and the cache directory of `Table` are stored but never used by the converter. Page breaking, rowspan, padding, vertical alignment, minimum height and line number are not part of the layout either.
- `BackgroundAttribute` and `AbstractAttribute` are not part of this model: they only pass values through.
- The converter reads the rows and cells once, when it is created (`content`). PHP reads them again on every pass, but nothing changes them during a conversion, so the passes see the same values.
- Conversion.TableConverter.GetCellWidths: when no row has a cell, PHP's `cellWidths` stays null and `_getCellWidths` returns null. The model returns the grid of empty rows and, as in PHP, stores nothing. The only reader indexes it once per cell, so the two cannot be told apart.
- Layout.RawWidthIsUpperBound: assumes every cell's width (explicit or measured) is non-negative. With a negative width, PHP's `empty()` on a stored 0 lets a later negative width replace it.
- Helper.ConvertColor: a string colour must keep at least one character after its leading `#`s, because otherwise PHP's padding loop never ends. A colour string is PHP's byte string, one character per byte: `ltrim`, `strlen`, `substr` and `str_split` count bytes, so a multi-byte UTF-8 character such as `é` is two characters here (`"\u00C3\u00A9"`), and a Dafny string holding characters above U+00FF stands for no PHP string. Strings of any length are modelled, and non-hex bytes are skipped as `hexdec` does.
- Grid.Cell.SetFontWeight and Conversion.TableConverter.RestoreFontSettings throw `InvalidArgumentException` and `RuntimeException` without a leading backslash inside the namespace `Tcpdf\Extension\Table`. PHP therefore looks for classes that do not exist and raises a class-not-found `Error`; the model returns `ClassNotFound` with that class name instead of the invalid-argument or runtime exception the code evidently means.
- Colour strings are padded by repeating their last character (`'#abc'` becomes `abcccc`), as `Helper.php` does. This differs from CSS's doubling of each digit; the model follows the code.

## Findings

| source | as written | input that shows it | evidently intended | confidence | as-written member | corrected member |
|---|---|---|---|---|---|---|
| src/Tcpdf/Extension/Helper.php:59-62 | for unit `in` the length in inches is set to 1, so the result is `dpi` whatever the input length | `getSizeInPixel(2, 'in', 72)` gives 72, while the same 2 inches as `getSizeInPixel(5.08, 'cm', 72)` give 144 | the inch count is the input length, so the result is `widthInUserUnit * dpi` | high (not executed) | Helper.SizeInPixelAsWritten, Helper.InchIgnoresWidth | Helper.SizeInPixel, Helper.SizeInPixelAgreesAcrossUnits |
