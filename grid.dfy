/** The table's object model: a Table owns its Rows, a Row owns its Cells,
    and every Cell and Row keeps a reference back to its owner. Setters change
    fields in place; the validating ones return the exception they throw. */
module Grid {
  import opened Values
  import opened Surface
  import opened Layout

  /** The two font weights a table or a cell accepts. */
  type FontWeight = s: string | s == "normal" || s == "bold" witness "normal"

  /** Bold exactly when the surface's font style contains 'B'. */
  function WeightOfStyle(style: string): (w: FontWeight)
    ensures w == "bold" <==> 'B' in style
  {
    if 'B' in style then "bold" else "normal"
  }

  class Table {
    const pdf: Pdf
    /** Stored, never read by the layout. */
    const cacheDir: Option<string>
    /** The surface's x when the table was created. */
    const xPosition: real
    var rows: seq<Row>
    var borderWidth: real
    var lineHeight: Value
    var fontFamily: string
    var fontSize: real
    var fontWeight: FontWeight
    var width: Option<real>
    var widthPercentage: bool

    constructor (pdf: Pdf, cacheDir: Option<string> := None)
      ensures this.pdf == pdf && this.cacheDir == cacheDir && xPosition == pdf.x
      ensures rows == [] && lineHeight == Num(1.0) && width == None && !widthPercentage
      ensures borderWidth == pdf.lineWidth && fontFamily == pdf.font.family && fontSize == pdf.font.sizePt
      ensures fontWeight == "bold" <==> 'B' in pdf.font.style
    {
      this.pdf := pdf;
      this.cacheDir := cacheDir;
      xPosition := pdf.x;
      rows := [];
      lineHeight := Num(1.0);
      width := None;
      widthPercentage := false;
      borderWidth := pdf.lineWidth;
      fontFamily := pdf.font.family;
      fontSize := pdf.font.sizePt;
      fontWeight := WeightOfStyle(pdf.font.style);
    }

    /** Appends a new, empty row owned by this table. */
    method NewRow() returns (row: Row)
      modifies this`rows
      ensures fresh(row) && row.table == this && row.cells == None
      ensures rows == old(rows) + [row]
    {
      row := new Row(this);
      rows := rows + [row];
    }

    function GetRows(): seq<Row>
      reads this
    {
      rows
    }

    method SetRows(rows: seq<Row>)
      modifies this`rows
      ensures GetRows() == rows
    {
      this.rows := rows;
    }

    method SetBorderWidth(borderWidth: real)
      modifies this`borderWidth
      ensures this.borderWidth == borderWidth
    {
      this.borderWidth := borderWidth;
    }

    method SetLineHeight(lineHeight: Value)
      modifies this`lineHeight
      ensures this.lineHeight == lineHeight
    {
      this.lineHeight := lineHeight;
    }

    method SetFontFamily(fontFamily: string)
      modifies this`fontFamily
      ensures this.fontFamily == fontFamily
    {
      this.fontFamily := fontFamily;
    }

    /** The width from the table's x position to the right margin. */
    function AvailableWidth(): real
    {
      pdf.pageWidth - pdf.margins.right - xPosition
    }

    /** The table's width in user units: absent, as stored, or a percentage of
        the available width. */
    function GetWidth(): (r: Option<real>)
      reads this
      ensures r.None? <==> width.None?
      ensures width.Some? && !widthPercentage ==> r == width
    {
      if width.None? then None
      else if widthPercentage then Some(width.value / 100.0 * AvailableWidth())
      else width
    }

    /** Rejects a non-numeric width and keeps the old one; otherwise stores
        the width and the percentage flag as a boolean. */
    method SetWidth(width: Value, percentage: Value := Bool(false)) returns (outcome: Outcome)
      modifies this`width, this`widthPercentage
      ensures !IsNumeric(width) ==>
                outcome == Fail(InvalidArgument("The width must be numeric.")) &&
                this.width == old(this.width) && widthPercentage == old(widthPercentage)
      ensures IsNumeric(width) ==>
                outcome == Pass && this.width == Some(width.n) && widthPercentage == Truthy(percentage)
    {
      if !IsNumeric(width) {
        return Fail(InvalidArgument("The width must be numeric."));
      }
      this.width := Some(width.n);
      widthPercentage := Truthy(percentage);
      return Pass;
    }

    method SetFontSize(fontSize: Value) returns (outcome: Outcome)
      modifies this`fontSize
      ensures !IsNumeric(fontSize) ==>
                outcome == Fail(InvalidArgument("The font size must be numeric.")) && this.fontSize == old(this.fontSize)
      ensures IsNumeric(fontSize) ==> outcome == Pass && this.fontSize == fontSize.n
    {
      if !IsNumeric(fontSize) {
        return Fail(InvalidArgument("The font size must be numeric."));
      }
      this.fontSize := fontSize.n;
      return Pass;
    }

    method SetFontWeight(fontWeight: string) returns (outcome: Outcome)
      modifies this`fontWeight
      ensures fontWeight != "normal" && fontWeight != "bold" ==>
                outcome == Fail(InvalidArgument("The font weight '" + fontWeight + "' is not supported.")) &&
                this.fontWeight == old(this.fontWeight)
      ensures fontWeight == "normal" || fontWeight == "bold" ==> outcome == Pass && this.fontWeight == fontWeight
    {
      if fontWeight != "normal" && fontWeight != "bold" {
        return Fail(InvalidArgument("The font weight '" + fontWeight + "' is not supported."));
      }
      this.fontWeight := fontWeight;
      return Pass;
    }
  }

  /** A percentage of at most 100 keeps the table inside the right margin,
      and 100 percent reaches it exactly. */
  lemma PercentageWidthFits(table: Table)
    requires table.width.Some? && table.widthPercentage
    requires 0.0 <= table.width.value <= 100.0 && table.AvailableWidth() >= 0.0
    ensures 0.0 <= table.GetWidth().value <= table.AvailableWidth()
    ensures table.width.value == 100.0 ==> table.xPosition + table.GetWidth().value == table.pdf.pageWidth - table.pdf.margins.right
  {
    var p := table.width.value;
    var a := table.AvailableWidth();
    assert p / 100.0 * a == (p / 100.0) * a;
    assert 0.0 <= p / 100.0 <= 1.0;
    assert (p / 100.0) * a <= 1.0 * a;
  }

  class Row {
    const table: Table
    /** None until the first cell is added, as PHP's unset array. */
    var cells: Option<seq<Cell>>

    constructor (table: Table)
      ensures this.table == table && cells == None
    {
      this.table := table;
      cells := None;
    }

    /** Appends a new cell owned by this row. */
    method NewCell(text: string := "") returns (cell: Cell)
      modifies this`cells
      ensures fresh(cell) && cell.row == this && cell.text == text && cell.colspan == 1
      ensures cells == Some(old(CellsOf(this)) + [cell])
    {
      cell := new Cell(this, text);
      var current := if cells.Some? then cells.value else [];
      cells := Some(current + [cell]);
    }

    /** The cells added so far, or null while none has been added. */
    function GetCells(): (r: Option<seq<Cell>>)
      reads this
      ensures r.Some? ==> r.value == CellsOf(this)
      ensures r.None? ==> CellsOf(this) == []
    {
      cells
    }

    function GetTable(): (t: Table)
      ensures t == table
    {
      table
    }

    /** Ends the row: the owning table. */
    function End(): (t: Table)
      ensures t == GetTable()
    {
      table
    }
  }

  /** A row's cells, reading an unset list as empty as PHP's foreach does. */
  function CellsOf(row: Row): seq<Cell>
    reads row
  {
    if row.cells.Some? then row.cells.value else []
  }

  class Cell {
    const row: Row
    var text: string
    var colspan: Span
    var width: Option<real>
    var minHeight: Option<real>
    var lineHeight: Value
    var border: Value
    var align: string
    var fill: Value
    /** A cached line count, cleared whenever the width changes. */
    var lineNumber: Option<int>
    var fontSize: real
    var fontWeight: FontWeight

    constructor (row: Row, text: string := "")
      ensures this.row == row && this.text == text && colspan == 1
      ensures width == None && minHeight == None && lineHeight == Null && lineNumber == None
      ensures border == Num(0.0) && align == "L" && fill == Num(0.0)
      ensures fontSize == row.table.pdf.font.sizePt
      ensures fontWeight == "bold" <==> 'B' in row.table.pdf.font.style
    {
      this.row := row;
      this.text := text;
      colspan := 1;
      width := None;
      minHeight := None;
      lineHeight := Null;
      border := Num(0.0);
      align := "L";
      fill := Num(0.0);
      lineNumber := None;
      fontSize := row.table.pdf.font.sizePt;
      fontWeight := WeightOfStyle(row.table.pdf.font.style);
    }

    method SetColspan(colspan: int := 1) returns (outcome: Outcome)
      modifies this`colspan
      ensures colspan < 1 ==>
                outcome == Fail(InvalidArgument("The colspan must not be lower than \"1\".")) &&
                this.colspan == old(this.colspan)
      ensures colspan >= 1 ==> outcome == Pass && this.colspan == colspan
    {
      if colspan < 1 {
        return Fail(InvalidArgument("The colspan must not be lower than \"1\"."));
      }
      this.colspan := colspan;
      return Pass;
    }

    /** Stores a width that differs, under PHP's loose comparison, from the
        current one and clears the cached line count; an equal width changes
        nothing. */
    method SetWidth(width: Option<real>)
      modifies this`width, this`lineNumber
      ensures LooselyEqual(old(this.width), width) ==> this.width == old(this.width) && lineNumber == old(lineNumber)
      ensures !LooselyEqual(old(this.width), width) ==> this.width == width && lineNumber == None
    {
      if !LooselyEqual(this.width, width) {
        this.width := width;
        lineNumber := None;
      }
    }

    method SetMinHeight(minHeight: Option<real>)
      modifies this`minHeight
      ensures this.minHeight == minHeight
    {
      this.minHeight := minHeight;
    }

    method SetLineHeight(lineHeight: Value)
      modifies this`lineHeight
      ensures this.lineHeight == lineHeight
    {
      this.lineHeight := lineHeight;
    }

    method SetText(text: string)
      modifies this`text
      ensures this.text == text
    {
      this.text := text;
    }

    method SetBorder(border: Value)
      modifies this`border
      ensures this.border == border
    {
      this.border := border;
    }

    method SetAlign(align: string)
      modifies this`align
      ensures this.align == align
    {
      this.align := align;
    }

    method SetFill(fill: Value)
      modifies this`fill
      ensures this.fill == fill
    {
      this.fill := fill;
    }

    method SetFontSize(fontSize: real)
      modifies this`fontSize
      ensures this.fontSize == fontSize
    {
      this.fontSize := fontSize;
    }

    /** Accepts only the two weights. The exception class is written without
        its namespace prefix, so PHP raises a class-not-found Error instead. */
    method SetFontWeight(fontWeight: string) returns (outcome: Outcome)
      modifies this`fontWeight
      ensures fontWeight != "normal" && fontWeight != "bold" ==>
                outcome == Fail(ClassNotFound("Tcpdf\\Extension\\Table\\InvalidArgumentException")) &&
                this.fontWeight == old(this.fontWeight)
      ensures fontWeight == "normal" || fontWeight == "bold" ==> outcome == Pass && this.fontWeight == fontWeight
    {
      if fontWeight != "normal" && fontWeight != "bold" {
        return Fail(ClassNotFound("Tcpdf\\Extension\\Table\\InvalidArgumentException"));
      }
      this.fontWeight := fontWeight;
      return Pass;
    }

    /** The cell's own line height when truthy, else the table's. */
    function GetLineHeight(): (h: Value)
      reads this, row.table
      ensures Truthy(lineHeight) ==> h == lineHeight
      ensures !Truthy(lineHeight) ==> h == row.table.lineHeight
      ensures Truthy(h) <==> Truthy(lineHeight) || Truthy(row.table.lineHeight)
    {
      if !Truthy(lineHeight) then row.table.lineHeight else lineHeight
    }

    /** Ends the cell: the owning row, or an error when no line height is
        in effect. */
    function End(): (r: Result<Row>)
      reads this, row.table
      ensures r.Ok? <==> Truthy(lineHeight) || Truthy(row.table.lineHeight)
      ensures r.Ok? ==> r.value == row
      ensures r.Err? ==> r.error == Runtime("Every table cell needs a specified line height.")
    {
      if !Truthy(GetLineHeight()) then Err(Runtime("Every table cell needs a specified line height."))
      else Ok(row)
    }

    /** What the layout reads from this cell. */
    function Spec(): (c: CellSpec)
      reads this
      ensures c.text == text && c.colspan == colspan && c.width == width
      ensures c.bold <==> fontWeight == "bold"
    {
      CellSpec(text, colspan, width, fontWeight == "bold", fontSize, border, align, fill)
    }
  }

  /** PHP's loose comparison of two optional numbers: null equals 0. */
  predicate LooselyEqual(a: Option<real>, b: Option<real>)
  {
    match (a, b)
    case (None, None) => true
    case (None, Some(y)) => y == 0.0
    case (Some(x), None) => x == 0.0
    case (Some(x), Some(y)) => x == y
  }

  /** Every cell object of the given rows. */
  function CellObjects(rows: seq<Row>): set<Cell>
    reads rows
  {
    set r, c | r in rows && c in CellsOf(r) :: c
  }

  function RowContent(cells: seq<Cell>): (r: seq<CellSpec>)
    reads cells
    ensures |r| == |cells|
    ensures forall k :: 0 <= k < |cells| ==> r[k] == cells[k].Spec()
  {
    if cells == [] then [] else RowContent(cells[..|cells| - 1]) + [cells[|cells| - 1].Spec()]
  }

  /** The table's content as the layout reads it: one row of cell
      descriptions per row object. */
  function Content(rows: seq<Row>): (r: seq<seq<CellSpec>>)
    reads rows, CellObjects(rows)
    ensures |r| == |rows|
    ensures forall i :: 0 <= i < |rows| ==> r[i] == RowContent(CellsOf(rows[i]))
  {
    if rows == [] then []
    else
      var n := |rows| - 1;
      CellObjectsSplit(rows);
      Content(rows[..n]) + [RowContent(CellsOf(rows[n]))]
  }

  /** The cells of a row list are those of all rows but the last, and
      those of the last. */
  lemma CellObjectsSplit(rows: seq<Row>)
    requires rows != []
    ensures CellObjects(rows[..|rows| - 1]) <= CellObjects(rows)
    ensures forall c :: c in CellsOf(rows[|rows| - 1]) ==> c in CellObjects(rows)
  {
    assert rows[|rows| - 1] in rows;
  }
}
