/** The converter that draws a table onto its surface: it resolves the cell
    widths and the row heights (both memoized), then walks a cursor over the
    rows and cells, drawing one box per cell. Each loop is proved to compute
    the corresponding function of the Layout module. */
module Conversion {
  import opened Values
  import opened Surface
  import opened Layout
  import opened Grid

  /** The page width less both side margins. */
  function ContentWidth(pdf: Pdf): real
  {
    pdf.pageWidth - pdf.margins.left - pdf.margins.right
  }

  /** The cell widths the content calls for with the table's width and the
      surface's current font. */
  function WidthsFor(content: seq<seq<CellSpec>>, table: Table): (r: Result<seq<seq<real>>>)
    reads table, table.pdf
    ensures r.Ok? ==> GridFits(content, r.value)
  {
    CellWidths(content, table.pdf.font, table.pdf.stringWidth, ContentWidth(table.pdf), table.GetWidth())
  }

  /** The row heights the content calls for. */
  function HeightsFor(content: seq<seq<CellSpec>>, table: Table): (r: Result<seq<real>>)
    reads table, table.pdf
    ensures r.Ok? ==> |r.value| == |content|
  {
    match WidthsFor(content, table)
    case Err(e) => Err(e)
    case Ok(ws) => Ok(RowHeights(content, ws, table.pdf.font, table.pdf.stringHeight))
  }

  /** The boxes converting the content draws from the current cursor, or the
      exception it raises. */
  function RenderFor(content: seq<seq<CellSpec>>, table: Table): (r: Result<seq<DrawCall>>)
    reads table, table.pdf
    ensures r.Ok? ==> |r.value| == CellCount(content)
  {
    match WidthsFor(content, table)
    case Err(e) => Err(e)
    case Ok(ws) =>
      Ok(Placement(content, ws, RowHeights(content, ws, table.pdf.font, table.pdf.stringHeight),
                   table.pdf.x, table.pdf.y, table.pdf.font))
  }

  /** How far converting the content moves the cursor down. */
  function RenderedHeight(content: seq<seq<CellSpec>>, table: Table): real
    reads table, table.pdf
  {
    match HeightsFor(content, table)
    case Err(_) => 0.0
    case Ok(hs) => TableHeight(content, hs)
  }

  predicate HasCells(rows: seq<seq<CellSpec>>)
  {
    exists i :: 0 <= i < |rows| && rows[i] != []
  }

  class TableConverter {
    const table: Table
    /** The table's rows and cells, read when the converter is created. */
    const content: seq<seq<CellSpec>>
    var fontSettings: Option<FontSettings>
    var rowHeights: Option<seq<real>>
    var cellWidths: Option<seq<seq<real>>>
    /** How the conversion run by the constructor ended; PHP lets a failure
        escape from the constructor as an exception. */
    var conversion: Outcome

    /** Converts the table at once: on success every cell is drawn, the
        cursor is back at its x and below the table, and the font is as
        before; on failure nothing is drawn and the cursor has not moved. */
    constructor (table: Table)
      modifies table.pdf
      ensures this.table == table && content == old(Content(table.rows))
      ensures old(RenderFor(Content(table.rows), table)).Err? ==>
                conversion == Fail(old(RenderFor(Content(table.rows), table)).error) &&
                table.pdf.drawn == old(table.pdf.drawn) &&
                table.pdf.x == old(table.pdf.x) && table.pdf.y == old(table.pdf.y)
      ensures old(RenderFor(Content(table.rows), table)).Ok? ==>
                conversion == Pass &&
                table.pdf.drawn == old(table.pdf.drawn) + old(RenderFor(Content(table.rows), table)).value &&
                table.pdf.x == old(table.pdf.x) &&
                table.pdf.y == old(table.pdf.y) + old(RenderedHeight(Content(table.rows), table))
      ensures table.pdf.font == old(table.pdf.font)
    {
      this.table := table;
      content := Content(table.rows);
      fontSettings := None;
      rowHeights := None;
      cellWidths := None;
      conversion := Pass;
      new;
      conversion := Convert();
    }

    /** Memo consistency: stored cell widths are the ones the table calls for. */
    predicate MemoIsCurrent()
      reads this, table, table.pdf
    {
      cellWidths.Some? ==> WidthsFor(content, table) == Ok(cellWidths.value)
    }

    /** The raw column widths: for every column, the widest single-column
        cell starting in it. */
    method GetRawCellWidths() returns (raw: seq<real>)
      ensures raw == RawWidths(content, table.pdf.font, table.pdf.stringWidth)
    {
      var rows := content;
      var pdf := table.pdf;
      raw := [];
      var r := 0;
      while r < |rows|
        invariant 0 <= r <= |rows|
        invariant raw == RawWidths(rows[..r], pdf.font, pdf.stringWidth)
      {
        var cells := rows[r];
        ghost var before := raw;
        var c := 0;
        var k := 0;
        while k < |cells|
          invariant 0 <= k <= |cells| && c == SpanSum(cells[..k])
          invariant raw == RawRow(before, cells[..k], pdf.font, pdf.stringWidth)
        {
          var cell := cells[k];
          if cell.colspan == 1 {
            var width := if IsSetNonZero(cell.width) then cell.width.value else pdf.GetStringWidth(cell.text);
            if c >= |raw| {
              // a new key: the columns in between stay unset and read as 0
              raw := raw + Zeros(c - |raw|) + [width];
            } else if raw[c] == 0.0 || width > raw[c] {
              raw := raw[c := width];
            }
          }
          assert cells[..k + 1][..k] == cells[..k];
          c := c + cell.colspan;
          k := k + 1;
        }
        assert cells[..|cells|] == cells;
        assert rows[..r + 1][..r] == rows[..r];
        r := r + 1;
      }
      assert rows[..|rows|] == rows;
    }

    /** The rescaling pass over the raw widths: with a sum above the maximum
        width, or with a width of the table's own, every column is scaled by
        the same factor. */
    static method ScaleColumns(raw: seq<real>, maxWidth: real, definedWidth: Option<real>) returns (result: Result<seq<real>>)
      ensures result == ColumnWidths(raw, maxWidth, definedWidth)
    {
      var sum := Sum(raw);
      var cols := raw;
      if sum > maxWidth || IsSetNonZero(definedWidth) {
        ghost var target := RescaleTarget(maxWidth, definedWidth);
        var i := 0;
        while i < |cols|
          invariant 0 <= i <= |cols| == |raw|
          invariant i > 0 ==> sum != 0.0 && forall j :: 0 <= j < i ==> cols[j] == raw[j] / sum * target
          invariant forall j :: i <= j < |cols| ==> cols[j] == raw[j]
        {
          if sum == 0.0 {
            return Err(DivisionByZero);
          }
          var newWidth;
          if IsSetNonZero(definedWidth) {
            newWidth := cols[i] / sum * definedWidth.value;
          } else {
            newWidth := cols[i] / sum * maxWidth;
          }
          cols := cols[i := newWidth];
          i := i + 1;
        }
        if |raw| > 0 {
          assert forall j :: 0 <= j < |raw| ==> cols[j] == Rescale(raw, sum, target)[j];
          assert cols == Rescale(raw, sum, target);
        }
      }
      return Ok(cols);
    }

    /** The width of every cell: the sum of the columns it spans. */
    static method SpreadColumns(cols: seq<real>, rows: seq<seq<CellSpec>>) returns (grid: seq<seq<real>>, anyCell: bool)
      ensures grid == CellWidthGrid(cols, rows)
      ensures anyCell <==> HasCells(rows)
    {
      grid := [];
      anyCell := false;
      var r := 0;
      while r < |rows|
        invariant 0 <= r <= |rows|
        invariant grid == CellWidthGrid(cols, rows[..r])
        invariant anyCell <==> exists i :: 0 <= i < r && rows[i] != []
      {
        var rowWidths := SpreadRow(cols, rows[r]);
        assert rows[..r + 1][..r] == rows[..r];
        if rows[r] != [] {
          anyCell := true;
        }
        grid := grid + [rowWidths];
        r := r + 1;
      }
      assert rows[..|rows|] == rows;
    }

    /** One row of the width pass: each cell adds up the colspan columns from
        the current column, which then moves past them. */
    static method SpreadRow(cols: seq<real>, cells: seq<CellSpec>) returns (rowWidths: seq<real>)
      ensures rowWidths == RowCellWidths(cols, cells)
    {
      rowWidths := [];
      var c := 0;
      var cr := 0;
      while cr < |cells|
        invariant 0 <= cr <= |cells|
        invariant c == SpanSum(cells[..cr])
        invariant rowWidths == RowCellWidths(cols, cells[..cr])
      {
        var width := 0.0;
        var i := 0;
        while i < cells[cr].colspan
          invariant 0 <= i <= cells[cr].colspan
          invariant c == SpanSum(cells[..cr]) + i
          invariant width == SpanWidth(cols, SpanSum(cells[..cr]), i)
        {
          // an unset column reads as 0
          width := width + At(cols, c);
          c := c + 1;
          i := i + 1;
        }
        assert cells[..cr + 1][..cr] == cells[..cr];
        rowWidths := rowWidths + [width];
        cr := cr + 1;
      }
      assert cells[..|cells|] == cells;
    }

    /** The cell widths, computed once: a stored grid is returned as it is;
        otherwise the widths the table calls for are computed and stored when
        the table has a cell. */
    method GetCellWidths() returns (result: Result<seq<seq<real>>>)
      modifies this`cellWidths
      ensures old(cellWidths).Some? ==> result == Ok(old(cellWidths).value) && cellWidths == old(cellWidths)
      ensures old(cellWidths).None? ==> result == WidthsFor(content, table)
      ensures old(cellWidths).None? ==>
                cellWidths == if result.Ok? && HasCells(content) then Some(result.value) else None
    {
      if cellWidths.Some? {
        return Ok(cellWidths.value);
      }
      var maxWidth, definedWidth := ContentWidth(table.pdf), table.GetWidth();
      var raw := GetRawCellWidths();
      var anyCell;
      result, anyCell := ResolveWidths(raw, content, maxWidth, definedWidth);
      if result.Ok? && anyCell {
        cellWidths := Some(result.value);
      }
    }

    /** Scales the raw widths, then spreads the columns over the cells. */
    static method ResolveWidths(raw: seq<real>, rows: seq<seq<CellSpec>>, maxWidth: real, definedWidth: Option<real>)
      returns (result: Result<seq<seq<real>>>, anyCell: bool)
      ensures var cols := ColumnWidths(raw, maxWidth, definedWidth);
        result == if cols.Err? then Err(cols.error) else Ok(CellWidthGrid(cols.value, rows))
      ensures result.Ok? ==> (anyCell <==> HasCells(rows))
    {
      var scaled := ScaleColumns(raw, maxWidth, definedWidth);
      if scaled.Err? {
        return Err(scaled.error), false;
      }
      var grid;
      grid, anyCell := SpreadColumns(scaled.value, rows);
      return Ok(grid), anyCell;
    }

    method SaveFontSettings()
      modifies this`fontSettings
      ensures fontSettings == Some(table.pdf.font)
    {
      fontSettings := Some(table.pdf.font);
    }

    /** Puts the saved font back. With nothing saved, the exception class is
        written without its namespace prefix, so PHP raises a class-not-found
        Error. */
    method RestoreFontSettings() returns (outcome: Outcome)
      modifies table.pdf`font
      ensures fontSettings.None? ==>
                outcome == Fail(ClassNotFound("Tcpdf\\Extension\\Table\\RuntimeException")) &&
                table.pdf.font == old(table.pdf.font)
      ensures fontSettings.Some? ==> outcome == Pass && table.pdf.font == fontSettings.value
    {
      if fontSettings.None? {
        return Fail(ClassNotFound("Tcpdf\\Extension\\Table\\RuntimeException"));
      }
      var saved := fontSettings.value;
      table.pdf.SetFont(saved.family, saved.style, saved.sizePt);
      table.pdf.SetCellHeightRatio(saved.cellHeightRatio);
      return Pass;
    }

    /** The row heights, computed once: stored non-empty heights are returned
        as they are; otherwise each row is measured cell by cell in the cell's
        font and the surface's font is restored afterwards. */
    method GetRowHeights() returns (result: Result<seq<real>>)
      requires MemoIsCurrent()
      modifies this`fontSettings, this`cellWidths, this`rowHeights, table.pdf`font
      ensures old(rowHeights).Some? && old(rowHeights).value != [] ==>
                result == Ok(old(rowHeights).value) && fontSettings == old(fontSettings) &&
                cellWidths == old(cellWidths) && rowHeights == old(rowHeights)
      ensures !(old(rowHeights).Some? && old(rowHeights).value != []) ==>
                result == old(HeightsFor(content, table)) && fontSettings == Some(old(table.pdf.font))
      ensures !(old(rowHeights).Some? && old(rowHeights).value != []) && result.Ok? ==> rowHeights == Some(result.value)
      ensures table.pdf.font == old(table.pdf.font)
      ensures MemoIsCurrent()
    {
      if rowHeights.Some? && rowHeights.value != [] {
        return Ok(rowHeights.value);
      }
      var pdf := table.pdf;
      ghost var f0 := pdf.font;
      SaveFontSettings();
      var widths := GetCellWidths();
      if widths.Err? {
        return Err(widths.error);
      }
      var ws := widths.value;
      ghost var widthsAtStart := WidthsFor(content, table);
      assert widthsAtStart == Ok(ws);
      var heights := MeasureRows(content, ws, f0);
      var _ := RestoreFontSettings();
      assert WidthsFor(content, table) == widthsAtStart;
      rowHeights := Some(heights);
      return Ok(heights);
    }

    /** The height pass: one height per row. */
    method MeasureRows(rows: seq<seq<CellSpec>>, ws: seq<seq<real>>, ghost base: FontSettings)
      returns (heights: seq<real>)
      requires GridFits(rows, ws)
      requires table.pdf.font.family == base.family && table.pdf.font.cellHeightRatio == base.cellHeightRatio
      modifies table.pdf`font
      ensures heights == RowHeights(rows, ws, base, table.pdf.stringHeight)
      ensures table.pdf.font.family == base.family && table.pdf.font.cellHeightRatio == base.cellHeightRatio
    {
      var pdf := table.pdf;
      heights := [];
      var r := 0;
      while r < |rows|
        invariant 0 <= r <= |rows|
        invariant heights == RowHeights(rows[..r], ws[..r], base, pdf.stringHeight)
        invariant pdf.font.family == base.family && pdf.font.cellHeightRatio == base.cellHeightRatio
      {
        var rowHeight := MeasureRow(rows[r], ws[r], base);
        assert rows[..r + 1][..r] == rows[..r];
        assert ws[..r + 1][..r] == ws[..r];
        heights := heights + [rowHeight];
        r := r + 1;
      }
      assert rows[..|rows|] == rows;
      assert ws[..|ws|] == ws;
    }

    /** One row of the height pass: each cell is measured at its width in its
        own font, and the row keeps the largest height, starting from 0. */
    method MeasureRow(cells: seq<CellSpec>, rowWidths: seq<real>, ghost base: FontSettings) returns (rowHeight: real)
      requires |rowWidths| == |cells|
      requires table.pdf.font.family == base.family && table.pdf.font.cellHeightRatio == base.cellHeightRatio
      modifies table.pdf`font
      ensures rowHeight == RowHeight(cells, rowWidths, base, table.pdf.stringHeight)
      ensures table.pdf.font.family == base.family && table.pdf.font.cellHeightRatio == base.cellHeightRatio
    {
      var pdf := table.pdf;
      rowHeight := 0.0;
      var c := 0;
      while c < |cells|
        invariant 0 <= c <= |cells|
        invariant rowHeight == RowHeight(cells[..c], rowWidths[..c], base, pdf.stringHeight)
        invariant pdf.font.family == base.family && pdf.font.cellHeightRatio == base.cellHeightRatio
      {
        // the cell's font, so that the height is measured correctly
        pdf.SetFont(pdf.font.family, if cells[c].bold then "B" else "", cells[c].fontSize);
        var height := pdf.GetStringHeight(rowWidths[c], cells[c].text, cells[c].border);
        assert cells[..c + 1][..c] == cells[..c];
        assert rowWidths[..c + 1][..c] == rowWidths[..c];
        if height > rowHeight {
          rowHeight := height;
        }
        c := c + 1;
      }
      assert cells[..|cells|] == cells;
      assert rowWidths[..|rowWidths|] == rowWidths;
    }

    /** Draws the table: one box per cell, row after row, each row starting at
        the cursor's x and below the previous row. */
    method Convert() returns (outcome: Outcome)
      requires cellWidths.None? && rowHeights.None?
      modifies this, table.pdf
      ensures old(RenderFor(content, table)).Err? ==>
                outcome == Fail(old(RenderFor(content, table)).error) && table.pdf.drawn == old(table.pdf.drawn) &&
                table.pdf.x == old(table.pdf.x) && table.pdf.y == old(table.pdf.y)
      ensures old(RenderFor(content, table)).Ok? ==>
                outcome == Pass && table.pdf.drawn == old(table.pdf.drawn) + old(RenderFor(content, table)).value &&
                table.pdf.x == old(table.pdf.x) && table.pdf.y == old(table.pdf.y) + old(RenderedHeight(content, table))
      ensures table.pdf.font == old(table.pdf.font)
    {
      var pdf := table.pdf;
      ghost var f0 := pdf.font;
      ghost var y0 := pdf.y;
      ghost var drawn0 := pdf.drawn;
      var widths := GetCellWidths();
      if widths.Err? {
        return Fail(widths.error);
      }
      var heights := GetRowHeights();
      var ws := widths.value;
      var hs := heights.value;
      assert ws == old(WidthsFor(content, table)).value;
      assert hs == RowHeights(content, ws, f0, pdf.stringHeight);
      DrawRows(content, ws, hs);
      return Pass;
    }

    /** The drawing pass: the rows one below the other, each starting at the
        cursor's x. */
    method DrawRows(rows: seq<seq<CellSpec>>, ws: seq<seq<real>>, hs: seq<real>)
      requires GridFits(rows, ws) && |hs| == |rows|
      modifies this`fontSettings, table.pdf`font, table.pdf`x, table.pdf`y, table.pdf`drawn
      ensures table.pdf.drawn == old(table.pdf.drawn) + Placement(rows, ws, hs, old(table.pdf.x), old(table.pdf.y), old(table.pdf.font))
      ensures table.pdf.y == old(table.pdf.y) + TableHeight(rows, hs)
      ensures table.pdf.x == old(table.pdf.x) && table.pdf.font == old(table.pdf.font)
    {
      var pdf := table.pdf;
      ghost var f0 := pdf.font;
      ghost var y0 := pdf.y;
      ghost var drawn0 := pdf.drawn;
      var x := pdf.x;
      var r := 0;
      while r < |rows|
        invariant 0 <= r <= |rows|
        invariant pdf.font == f0 && pdf.x == x
        invariant drawn0 + Placement(rows, ws, hs, x, y0, f0) ==
                  pdf.drawn + Placement(rows[r..], ws[r..], hs[r..], x, pdf.y, f0)
        invariant y0 + TableHeight(rows, hs) == pdf.y + TableHeight(rows[r..], hs[r..])
      {
        PlacementFrom(rows, ws, hs, x, pdf.y, f0, r);
        DrawRow(rows[r], ws[r], hs[r], x);
        pdf.SetX(x);
        r := r + 1;
      }
    }

    /** One row of the drawing pass: every cell is drawn at the row's y, the
        cursor moving right by each cell's width, in the cell's font, which is
        saved before and restored after each cell. */
    method DrawRow(cells: seq<CellSpec>, rowWidths: seq<real>, rowHeight: real, x: real)
      requires |rowWidths| == |cells|
      modifies this`fontSettings, table.pdf`font, table.pdf`x, table.pdf`y, table.pdf`drawn
      ensures table.pdf.drawn == old(table.pdf.drawn) + RowDraws(cells, rowWidths, rowHeight, x, old(table.pdf.y), old(table.pdf.font))
      ensures table.pdf.y == old(table.pdf.y) + RowAdvance(cells, rowHeight)
      ensures table.pdf.font == old(table.pdf.font)
      ensures cells == [] ==> table.pdf.x == old(table.pdf.x)
    {
      var pdf := table.pdf;
      ghost var base := pdf.font;
      ghost var rowStart := pdf.drawn;
      var y2 := pdf.y;
      var x2 := x;
      var c := 0;
      while c < |cells|
        invariant 0 <= c <= |cells|
        invariant pdf.font == base
        invariant rowStart + RowDraws(cells, rowWidths, rowHeight, x, y2, base) ==
                  pdf.drawn + RowDraws(cells[c..], rowWidths[c..], rowHeight, x2, y2, base)
        invariant pdf.y == if c == 0 then y2 else y2 + rowHeight
        invariant c == 0 ==> pdf.x == old(pdf.x)
      {
        var width := rowWidths[c];
        pdf.SetXY(x2, y2);
        x2 := x2 + width;
        SaveFontSettings();
        pdf.SetFont(pdf.font.family, if cells[c].bold then "B" else "", cells[c].fontSize);
        pdf.MultiCell(width, rowHeight, cells[c].text, cells[c].border, cells[c].align, cells[c].fill);
        var _ := RestoreFontSettings();
        assert cells[c..][1..] == cells[c + 1..];
        assert rowWidths[c..][1..] == rowWidths[c + 1..];
        c := c + 1;
      }
    }
  }
}
