/** The layout the table converter computes, stated as functions of the table's
    content: raw column widths, the proportional rescaling, the width of every
    cell, the height of every row and the boxes drawn for the cells. The
    converter's loops are proved to compute exactly these. */
module Layout {
  import opened Values
  import opened Surface

  type Span = n: int | n >= 1 witness 1

  /** What the converter reads from one cell. */
  datatype CellSpec = CellSpec(
    text: string, colspan: Span, width: Option<real>,
    bold: bool, fontSize: real,
    border: Value, align: string, fill: Value)

  // ---------------------------------------------------------------------
  // Sums and column indices
  // ---------------------------------------------------------------------

  function Sum(xs: seq<real>): real
  {
    if xs == [] then 0.0 else xs[0] + Sum(xs[1..])
  }

  lemma {:induction false} SumSnoc(xs: seq<real>, a: real)
    ensures Sum(xs + [a]) == Sum(xs) + a
  {
    if xs != [] {
      assert (xs + [a])[1..] == xs[1..] + [a];
      SumSnoc(xs[1..], a);
    }
  }

  /** A column width as PHP reads it: an unset column reads as 0. */
  function At(cols: seq<real>, c: int): real
  {
    if 0 <= c < |cols| then cols[c] else 0.0
  }

  function Zeros(n: nat): (r: seq<real>)
    ensures |r| == n
    ensures forall i :: 0 <= i < n ==> r[i] == 0.0
  {
    if n == 0 then [] else Zeros(n - 1) + [0.0]
  }

  /** The number of columns the cells span; for a prefix of a row, the column
      at which the next cell starts. */
  function SpanSum(cells: seq<CellSpec>): nat
  {
    if cells == [] then 0 else SpanSum(cells[..|cells| - 1]) + cells[|cells| - 1].colspan
  }

  // ---------------------------------------------------------------------
  // Raw column widths
  // ---------------------------------------------------------------------

  /** A cell's explicit width when it is set and non-zero, else the width of
      its text in the surface's current font. */
  function MeasuredWidth(cell: CellSpec, font: FontSettings, stringWidth: (FontSettings, string) -> real): real
  {
    if IsSetNonZero(cell.width) then cell.width.value else stringWidth(font, cell.text)
  }

  /** The update of one column: a missing or zero width is replaced, and so is
      a smaller one. */
  function Keep(current: real, w: real): real
  {
    if current == 0.0 || w > current then w else current
  }

  /** Records the width of a single-column cell that starts in column col. */
  function Feed(acc: seq<real>, col: nat, w: real): (r: seq<real>)
    ensures |r| == if col < |acc| then |acc| else col + 1
    ensures At(r, col) == Keep(At(acc, col), w)
    ensures forall j :: j != col ==> At(r, j) == At(acc, j)
  {
    if col < |acc| then
      if acc[col] == 0.0 || w > acc[col] then acc[col := w] else acc
    else
      acc + Zeros(col - |acc|) + [w]
  }

  /** The raw widths after the cells of one row, in order. Cells spanning
      several columns contribute nothing but move the next cell's column. */
  function RawRow(acc: seq<real>, cells: seq<CellSpec>, font: FontSettings,
                  stringWidth: (FontSettings, string) -> real): seq<real>
  {
    if cells == [] then acc
    else
      var init := cells[..|cells| - 1];
      var cell := cells[|cells| - 1];
      var prev := RawRow(acc, init, font, stringWidth);
      if cell.colspan == 1 then Feed(prev, SpanSum(init), MeasuredWidth(cell, font, stringWidth)) else prev
  }

  /** The raw column widths of a table, row after row. */
  function RawWidths(rows: seq<seq<CellSpec>>, font: FontSettings,
                     stringWidth: (FontSettings, string) -> real): seq<real>
  {
    if rows == [] then []
    else RawRow(RawWidths(rows[..|rows| - 1], font, stringWidth), rows[|rows| - 1], font, stringWidth)
  }

  /** Cell k of row r spans one column and starts in column c. */
  predicate StartsSingleColumn(rows: seq<seq<CellSpec>>, r: int, k: int, c: int)
  {
    0 <= r < |rows| && 0 <= k < |rows[r]| && rows[r][k].colspan == 1 && SpanSum(rows[r][..k]) == c
  }

  predicate HasSingleColumnCell(rows: seq<seq<CellSpec>>)
  {
    exists r, k :: 0 <= r < |rows| && 0 <= k < |rows[r]| && rows[r][k].colspan == 1
  }

  predicate NonNegativeWidths(rows: seq<seq<CellSpec>>, font: FontSettings, stringWidth: (FontSettings, string) -> real)
  {
    forall r, k :: 0 <= r < |rows| && 0 <= k < |rows[r]| ==> MeasuredWidth(rows[r][k], font, stringWidth) >= 0.0
  }

  lemma {:induction false} RawRowAttained(acc: seq<real>, cells: seq<CellSpec>, font: FontSettings,
                                          sw: (FontSettings, string) -> real, j: int)
    ensures var out := RawRow(acc, cells, font, sw);
      At(out, j) == At(acc, j) ||
      exists k :: 0 <= k < |cells| && cells[k].colspan == 1 && SpanSum(cells[..k]) == j &&
                  At(out, j) == MeasuredWidth(cells[k], font, sw)
  {
    if cells != [] {
      var n := |cells| - 1;
      var init := cells[..n];
      RawRowAttained(acc, init, font, sw, j);
      var prev := RawRow(acc, init, font, sw);
      var out := RawRow(acc, cells, font, sw);
      if At(out, j) != At(prev, j) {
        assert cells[..n] == init;
        assert cells[n].colspan == 1 && SpanSum(cells[..n]) == j && At(out, j) == MeasuredWidth(cells[n], font, sw);
      } else if At(prev, j) != At(acc, j) {
        var k :| 0 <= k < |init| && init[k].colspan == 1 && SpanSum(init[..k]) == j &&
                 At(prev, j) == MeasuredWidth(init[k], font, sw);
        assert cells[..k] == init[..k];
        assert cells[k] == init[k];
      }
    }
  }

  lemma {:induction false} RawRowBound(acc: seq<real>, cells: seq<CellSpec>, font: FontSettings,
                                       sw: (FontSettings, string) -> real, j: int)
    requires forall k :: 0 <= k < |cells| ==> MeasuredWidth(cells[k], font, sw) >= 0.0
    ensures At(RawRow(acc, cells, font, sw), j) >= At(acc, j)
    ensures forall k :: 0 <= k < |cells| && cells[k].colspan == 1 && SpanSum(cells[..k]) == j ==>
              At(RawRow(acc, cells, font, sw), j) >= MeasuredWidth(cells[k], font, sw)
  {
    if cells != [] {
      var n := |cells| - 1;
      var init := cells[..n];
      RawRowBound(acc, init, font, sw, j);
      forall k | 0 <= k < |cells| && cells[k].colspan == 1 && SpanSum(cells[..k]) == j
        ensures At(RawRow(acc, cells, font, sw), j) >= MeasuredWidth(cells[k], font, sw)
      {
        if k < n {
          assert cells[..k] == init[..k];
          assert cells[k] == init[k];
        } else {
          assert cells[..k] == init;
        }
      }
    }
  }

  /** A column's raw width is 0 or the width of a single-column cell that
      starts in it. */
  lemma {:induction false} RawWidthIsAttained(rows: seq<seq<CellSpec>>, font: FontSettings,
                                              sw: (FontSettings, string) -> real, c: int)
    ensures At(RawWidths(rows, font, sw), c) == 0.0 ||
            exists r, k :: StartsSingleColumn(rows, r, k, c) &&
                           At(RawWidths(rows, font, sw), c) == MeasuredWidth(rows[r][k], font, sw)
  {
    if rows != [] {
      var n := |rows| - 1;
      var init := rows[..n];
      var prev := RawWidths(init, font, sw);
      RawWidthIsAttained(init, font, sw, c);
      RawRowAttained(prev, rows[n], font, sw, c);
      var out := RawWidths(rows, font, sw);
      if At(out, c) != At(prev, c) {
        var k :| 0 <= k < |rows[n]| && rows[n][k].colspan == 1 && SpanSum(rows[n][..k]) == c &&
                 At(out, c) == MeasuredWidth(rows[n][k], font, sw);
        assert StartsSingleColumn(rows, n, k, c);
      } else if At(prev, c) != 0.0 {
        var r, k :| StartsSingleColumn(init, r, k, c) && At(prev, c) == MeasuredWidth(init[r][k], font, sw);
        assert rows[r] == init[r];
        assert StartsSingleColumn(rows, r, k, c);
      }
    }
  }

  /** With no negative widths, a column's raw width is at least the width of
      every single-column cell that starts in it. */
  lemma {:induction false} RawWidthIsUpperBound(rows: seq<seq<CellSpec>>, font: FontSettings,
                                                sw: (FontSettings, string) -> real, c: int)
    requires NonNegativeWidths(rows, font, sw)
    ensures At(RawWidths(rows, font, sw), c) >= 0.0
    ensures forall r, k :: StartsSingleColumn(rows, r, k, c) ==>
              At(RawWidths(rows, font, sw), c) >= MeasuredWidth(rows[r][k], font, sw)
  {
    if rows != [] {
      var n := |rows| - 1;
      var init := rows[..n];
      assert NonNegativeWidths(init, font, sw) by {
        forall r, k | 0 <= r < |init| && 0 <= k < |init[r]|
          ensures MeasuredWidth(init[r][k], font, sw) >= 0.0
        {
          assert init[r] == rows[r];
        }
      }
      RawWidthIsUpperBound(init, font, sw, c);
      var prev := RawWidths(init, font, sw);
      RawRowBound(prev, rows[n], font, sw, c);
      forall r, k | StartsSingleColumn(rows, r, k, c)
        ensures At(RawWidths(rows, font, sw), c) >= MeasuredWidth(rows[r][k], font, sw)
      {
        if r < n {
          assert init[r] == rows[r];
          assert StartsSingleColumn(init, r, k, c);
        }
      }
    }
  }

  /** Some column is set exactly when some cell spans a single column. */
  lemma {:induction false} RawRowLength(acc: seq<real>, cells: seq<CellSpec>, font: FontSettings,
                                        sw: (FontSettings, string) -> real)
    ensures |RawRow(acc, cells, font, sw)| >= |acc|
    ensures |RawRow(acc, cells, font, sw)| > 0 <==>
              |acc| > 0 || exists k :: 0 <= k < |cells| && cells[k].colspan == 1
  {
    if cells != [] {
      var n := |cells| - 1;
      RawRowLength(acc, cells[..n], font, sw);
      if exists k :: 0 <= k < n && cells[..n][k].colspan == 1 {
        var k :| 0 <= k < n && cells[..n][k].colspan == 1;
        assert cells[k].colspan == 1;
      }
      if exists k :: 0 <= k < |cells| && cells[k].colspan == 1 {
        var k :| 0 <= k < |cells| && cells[k].colspan == 1;
        if k < n {
          assert cells[..n][k].colspan == 1;
        }
      }
    }
  }

  lemma {:induction false} RawWidthsLength(rows: seq<seq<CellSpec>>, font: FontSettings,
                                           sw: (FontSettings, string) -> real)
    ensures |RawWidths(rows, font, sw)| > 0 <==> HasSingleColumnCell(rows)
  {
    if rows != [] {
      var n := |rows| - 1;
      var init := rows[..n];
      RawWidthsLength(init, font, sw);
      RawRowLength(RawWidths(init, font, sw), rows[n], font, sw);
      if HasSingleColumnCell(init) {
        var r, k :| 0 <= r < |init| && 0 <= k < |init[r]| && init[r][k].colspan == 1;
        assert rows[r] == init[r];
      }
      if HasSingleColumnCell(rows) {
        var r, k :| 0 <= r < |rows| && 0 <= k < |rows[r]| && rows[r][k].colspan == 1;
        if r < n {
          assert rows[r] == init[r];
        }
      }
    }
  }

  // ---------------------------------------------------------------------
  // Rescaling
  // ---------------------------------------------------------------------

  /** Every column scaled by target / sum, in PHP's order of operations. */
  function Rescale(raw: seq<real>, sum: real, target: real): (r: seq<real>)
    requires sum != 0.0
    ensures |r| == |raw|
  {
    seq(|raw|, i requires 0 <= i < |raw| => raw[i] / sum * target)
  }

  /** Rescaling multiplies every column by the same factor. */
  lemma RescaleIsUniform(raw: seq<real>, sum: real, target: real)
    requires sum != 0.0
    ensures forall i :: 0 <= i < |raw| ==> Rescale(raw, sum, target)[i] == raw[i] * (target / sum)
  {
    forall i | 0 <= i < |raw|
      ensures Rescale(raw, sum, target)[i] == raw[i] * (target / sum)
    {
      assert raw[i] / sum == raw[i] * (1.0 / sum);
      assert target / sum == target * (1.0 / sum);
    }
  }

  lemma {:induction false} SumScaled(xs: seq<real>, ys: seq<real>, f: real)
    requires |ys| == |xs|
    requires forall i :: 0 <= i < |xs| ==> ys[i] == xs[i] * f
    ensures Sum(ys) == Sum(xs) * f
  {
    if xs != [] {
      SumScaled(xs[1..], ys[1..], f);
      assert xs[0] * f + Sum(xs[1..]) * f == (xs[0] + Sum(xs[1..])) * f;
    }
  }

  lemma RescaleSum(raw: seq<real>, sum: real, target: real)
    requires sum != 0.0
    ensures Sum(Rescale(raw, sum, target)) == Sum(raw) * (target / sum)
  {
    RescaleIsUniform(raw, sum, target);
    SumScaled(raw, Rescale(raw, sum, target), target / sum);
  }

  /** Scaling by target / Sum(raw) makes the columns add up to the target. */
  lemma RescaleHitsTarget(raw: seq<real>, target: real)
    requires Sum(raw) != 0.0
    ensures Sum(Rescale(raw, Sum(raw), target)) == target
  {
    var s := Sum(raw);
    RescaleSum(raw, s, target);
    assert s * (target / s) == target;
  }

  predicate NeedsRescale(sum: real, maxWidth: real, definedWidth: Option<real>)
  {
    sum > maxWidth || IsSetNonZero(definedWidth)
  }

  /** The table's own width when it has one, else the page content width. */
  function RescaleTarget(maxWidth: real, definedWidth: Option<real>): real
  {
    if IsSetNonZero(definedWidth) then definedWidth.value else maxWidth
  }

  /** The final column widths: the raw widths, rescaled when they exceed the
      page content width or when the table has a width of its own. Rescaling
      columns that add up to zero divides by zero. */
  function ColumnWidths(raw: seq<real>, maxWidth: real, definedWidth: Option<real>): (r: Result<seq<real>>)
    ensures !NeedsRescale(Sum(raw), maxWidth, definedWidth) ==> r == Ok(raw)
    ensures r.Err? <==> NeedsRescale(Sum(raw), maxWidth, definedWidth) && Sum(raw) == 0.0 && |raw| > 0
    ensures r.Ok? ==> |r.value| == |raw|
    ensures r.Ok? && NeedsRescale(Sum(raw), maxWidth, definedWidth) && |raw| > 0 ==>
              Sum(r.value) == RescaleTarget(maxWidth, definedWidth) &&
              forall i :: 0 <= i < |raw| ==> r.value[i] == raw[i] * (RescaleTarget(maxWidth, definedWidth) / Sum(raw))
  {
    var sum := Sum(raw);
    if !NeedsRescale(sum, maxWidth, definedWidth) then Ok(raw)
    else if sum == 0.0 then (if |raw| == 0 then Ok(raw) else Err(DivisionByZero))
    else
      RescaleHitsTarget(raw, RescaleTarget(maxWidth, definedWidth));
      RescaleIsUniform(raw, sum, RescaleTarget(maxWidth, definedWidth));
      Ok(Rescale(raw, sum, RescaleTarget(maxWidth, definedWidth)))
  }

  // ---------------------------------------------------------------------
  // Cell widths
  // ---------------------------------------------------------------------

  /** The width of n consecutive columns from column start. */
  function SpanWidth(cols: seq<real>, start: nat, n: nat): real
  {
    if n == 0 then 0.0 else SpanWidth(cols, start, n - 1) + At(cols, start + n - 1)
  }

  /** The widths of the cells of one row. */
  function RowCellWidths(cols: seq<real>, cells: seq<CellSpec>): (r: seq<real>)
    ensures |r| == |cells|
  {
    if cells == [] then []
    else
      var init := cells[..|cells| - 1];
      RowCellWidths(cols, init) + [SpanWidth(cols, SpanSum(init), cells[|cells| - 1].colspan)]
  }

  /** The grid of cell widths, indexed by row and by position in the row. */
  function CellWidthGrid(cols: seq<real>, rows: seq<seq<CellSpec>>): (g: seq<seq<real>>)
    ensures |g| == |rows|
    ensures forall r :: 0 <= r < |rows| ==> g[r] == RowCellWidths(cols, rows[r])
  {
    if rows == [] then [] else CellWidthGrid(cols, rows[..|rows| - 1]) + [RowCellWidths(cols, rows[|rows| - 1])]
  }

  predicate GridFits(rows: seq<seq<CellSpec>>, grid: seq<seq<real>>)
  {
    |grid| == |rows| && forall r :: 0 <= r < |rows| ==> |grid[r]| == |rows[r]|
  }

  /** The cell widths, or the exception raised while rescaling. */
  function CellWidths(rows: seq<seq<CellSpec>>, font: FontSettings, sw: (FontSettings, string) -> real,
                      maxWidth: real, definedWidth: Option<real>): (r: Result<seq<seq<real>>>)
    ensures r.Ok? ==> GridFits(rows, r.value)
  {
    match ColumnWidths(RawWidths(rows, font, sw), maxWidth, definedWidth)
    case Err(e) => Err(e)
    case Ok(cols) => Ok(CellWidthGrid(cols, rows))
  }

  /** Each cell is as wide as the colspan columns from its start column, the
      start column being the sum of the colspans before it. */
  lemma {:induction false} CellWidthIsSpannedColumns(cols: seq<real>, cells: seq<CellSpec>, k: int)
    requires 0 <= k < |cells|
    ensures RowCellWidths(cols, cells)[k] == SpanWidth(cols, SpanSum(cells[..k]), cells[k].colspan)
  {
    var n := |cells| - 1;
    if k < n {
      CellWidthIsSpannedColumns(cols, cells[..n], k);
      assert cells[..n][..k] == cells[..k];
    } else {
      assert cells[..k] == cells[..n];
    }
  }

  lemma {:induction false} SpanWidthSplit(cols: seq<real>, start: nat, m: nat, n: nat)
    ensures SpanWidth(cols, start, m + n) == SpanWidth(cols, start, m) + SpanWidth(cols, start + m, n)
  {
    if n > 0 {
      SpanWidthSplit(cols, start, m, n - 1);
    }
  }

  /** The cells of a row together are as wide as the columns they span. */
  lemma {:induction false} RowWidthIsSpannedWidth(cols: seq<real>, cells: seq<CellSpec>)
    ensures Sum(RowCellWidths(cols, cells)) == SpanWidth(cols, 0, SpanSum(cells))
  {
    if cells != [] {
      var n := |cells| - 1;
      var init := cells[..n];
      RowWidthIsSpannedWidth(cols, init);
      SumSnoc(RowCellWidths(cols, init), SpanWidth(cols, SpanSum(init), cells[n].colspan));
      SpanWidthSplit(cols, 0, SpanSum(init), cells[n].colspan);
    }
  }

  lemma {:induction false} SpanWidthOfAll(cols: seq<real>, n: nat)
    requires n >= |cols|
    ensures SpanWidth(cols, 0, n) == Sum(cols)
  {
    if n > |cols| {
      SpanWidthOfAll(cols, n - 1);
    } else {
      SpanWidthIsSum(cols, n);
      assert cols[..n] == cols;
    }
  }

  lemma {:induction false} SpanWidthIsSum(cols: seq<real>, n: nat)
    requires n <= |cols|
    ensures SpanWidth(cols, 0, n) == Sum(cols[..n])
  {
    if n > 0 {
      SpanWidthIsSum(cols, n - 1);
      assert cols[..n] == cols[..n - 1] + [cols[n - 1]];
      SumSnoc(cols[..n - 1], cols[n - 1]);
    }
  }

  /** A row whose cells span every column is drawn exactly as wide as all the
      columns together, which after rescaling is the target width. */
  lemma FullRowHasTableWidth(cols: seq<real>, cells: seq<CellSpec>)
    requires SpanSum(cells) >= |cols|
    ensures Sum(RowCellWidths(cols, cells)) == Sum(cols)
  {
    RowWidthIsSpannedWidth(cols, cells);
    SpanWidthOfAll(cols, SpanSum(cells));
  }

  // ---------------------------------------------------------------------
  // Row heights
  // ---------------------------------------------------------------------

  /** The font a cell is measured and drawn in: the surface's family and
      cell-height ratio, the cell's weight and size. */
  function CellFont(base: FontSettings, cell: CellSpec): FontSettings
  {
    base.(style := if cell.bold then "B" else "", sizePt := cell.fontSize)
  }

  function CellHeight(cell: CellSpec, w: real, base: FontSettings,
                      sh: (FontSettings, real, string, Value) -> real): real
  {
    sh(CellFont(base, cell), w, cell.text, cell.border)
  }

  /** The height of a row: the largest height of its cells, starting from 0. */
  function RowHeight(cells: seq<CellSpec>, ws: seq<real>, base: FontSettings,
                     sh: (FontSettings, real, string, Value) -> real): real
    requires |ws| == |cells|
  {
    if cells == [] then 0.0
    else
      var n := |cells| - 1;
      var prev := RowHeight(cells[..n], ws[..n], base, sh);
      var h := CellHeight(cells[n], ws[n], base, sh);
      if h > prev then h else prev
  }

  function RowHeights(rows: seq<seq<CellSpec>>, grid: seq<seq<real>>, base: FontSettings,
                      sh: (FontSettings, real, string, Value) -> real): (r: seq<real>)
    requires GridFits(rows, grid)
    ensures |r| == |rows|
    ensures forall i :: 0 <= i < |rows| ==> r[i] == RowHeight(rows[i], grid[i], base, sh)
  {
    if rows == [] then []
    else
      var n := |rows| - 1;
      RowHeights(rows[..n], grid[..n], base, sh) + [RowHeight(rows[n], grid[n], base, sh)]
  }

  /** A row is as high as its highest cell, and never below 0. */
  lemma {:induction false} RowHeightIsMax(cells: seq<CellSpec>, ws: seq<real>, base: FontSettings,
                                          sh: (FontSettings, real, string, Value) -> real)
    requires |ws| == |cells|
    ensures RowHeight(cells, ws, base, sh) >= 0.0
    ensures forall k :: 0 <= k < |cells| ==> RowHeight(cells, ws, base, sh) >= CellHeight(cells[k], ws[k], base, sh)
    ensures RowHeight(cells, ws, base, sh) == 0.0 ||
            exists k :: 0 <= k < |cells| && RowHeight(cells, ws, base, sh) == CellHeight(cells[k], ws[k], base, sh)
  {
    if cells != [] {
      var n := |cells| - 1;
      RowHeightIsMax(cells[..n], ws[..n], base, sh);
      forall k | 0 <= k < n
        ensures cells[..n][k] == cells[k] && ws[..n][k] == ws[k]
      {
      }
    }
  }

  // ---------------------------------------------------------------------
  // Placement
  // ---------------------------------------------------------------------

  /** The boxes drawn for one row: the cursor starts at x and moves right by
      each cell's width; every box is at the row's y and has the row's height. */
  function RowDraws(cells: seq<CellSpec>, ws: seq<real>, h: real, x: real, y: real, base: FontSettings): (r: seq<DrawCall>)
    requires |ws| == |cells|
    ensures |r| == |cells|
  {
    if cells == [] then []
    else
      [DrawCall(x, y, ws[0], h, cells[0].text, cells[0].border, cells[0].align, cells[0].fill, CellFont(base, cells[0]))]
      + RowDraws(cells[1..], ws[1..], h, x + ws[0], y, base)
  }

  /** How far a row moves the cursor down: its height, or nothing when it has
      no cells. */
  function RowAdvance(cells: seq<CellSpec>, h: real): real
  {
    if cells == [] then 0.0 else h
  }

  function TableHeight(rows: seq<seq<CellSpec>>, hs: seq<real>): real
    requires |hs| == |rows|
  {
    if rows == [] then 0.0 else RowAdvance(rows[0], hs[0]) + TableHeight(rows[1..], hs[1..])
  }

  function CellCount(rows: seq<seq<CellSpec>>): nat
  {
    if rows == [] then 0 else |rows[0]| + CellCount(rows[1..])
  }

  /** The boxes drawn for the whole table, row after row; each row starts at
      x and below the rows before it. */
  function Placement(rows: seq<seq<CellSpec>>, grid: seq<seq<real>>, hs: seq<real>,
                     x: real, y: real, base: FontSettings): (r: seq<DrawCall>)
    requires GridFits(rows, grid) && |hs| == |rows|
    ensures |r| == CellCount(rows)
  {
    if rows == [] then []
    else
      RowDraws(rows[0], grid[0], hs[0], x, y, base)
      + Placement(rows[1..], grid[1..], hs[1..], x, y + RowAdvance(rows[0], hs[0]), base)
  }

  /** The placement of the rows from r on is row r's boxes followed by the
      placement of the rows after it, one row height further down. */
  lemma PlacementFrom(rows: seq<seq<CellSpec>>, grid: seq<seq<real>>, hs: seq<real>,
                      x: real, y: real, base: FontSettings, r: int)
    requires GridFits(rows, grid) && |hs| == |rows| && 0 <= r < |rows|
    ensures GridFits(rows[r..], grid[r..]) && GridFits(rows[r + 1..], grid[r + 1..])
    ensures Placement(rows[r..], grid[r..], hs[r..], x, y, base) ==
            RowDraws(rows[r], grid[r], hs[r], x, y, base) +
            Placement(rows[r + 1..], grid[r + 1..], hs[r + 1..], x, y + RowAdvance(rows[r], hs[r]), base)
    ensures TableHeight(rows[r..], hs[r..]) == RowAdvance(rows[r], hs[r]) + TableHeight(rows[r + 1..], hs[r + 1..])
  {
    assert rows[r..][1..] == rows[r + 1..];
    assert grid[r..][1..] == grid[r + 1..];
    assert hs[r..][1..] == hs[r + 1..];
  }

  /** Cell k of a row is drawn at the row's x plus the widths of the cells
      before it, at the row's y, as wide as its cell width and as high as the
      row. */
  lemma {:induction false} RowDrawAt(cells: seq<CellSpec>, ws: seq<real>, h: real, x: real, y: real,
                                     base: FontSettings, k: int)
    requires |ws| == |cells| && 0 <= k < |cells|
    ensures RowDraws(cells, ws, h, x, y, base)[k] ==
            DrawCall(x + Sum(ws[..k]), y, ws[k], h, cells[k].text, cells[k].border, cells[k].align,
                     cells[k].fill, CellFont(base, cells[k]))
  {
    if k > 0 {
      RowDrawAt(cells[1..], ws[1..], h, x + ws[0], y, base, k - 1);
      assert ws[..k][1..] == ws[1..][..k - 1];
    } else {
      assert ws[..0] == [];
    }
  }

  /** Neighbouring cells of a row abut: each box starts where the previous one
      ends. */
  lemma CellsAbut(cells: seq<CellSpec>, ws: seq<real>, h: real, x: real, y: real, base: FontSettings, k: int)
    requires |ws| == |cells| && 0 <= k && k + 1 < |cells|
    ensures RowDraws(cells, ws, h, x, y, base)[k + 1].x ==
            RowDraws(cells, ws, h, x, y, base)[k].x + RowDraws(cells, ws, h, x, y, base)[k].w
  {
    RowDrawAt(cells, ws, h, x, y, base, k);
    RowDrawAt(cells, ws, h, x, y, base, k + 1);
    assert ws[..k + 1] == ws[..k] + [ws[k]];
    SumSnoc(ws[..k], ws[k]);
  }

  /** The box of cell k of row r: at x plus the widths before it in its row,
      at y plus the heights of the rows above, with the cell's width and the
      row's height. */
  lemma {:induction false} DrawOfCell(rows: seq<seq<CellSpec>>, grid: seq<seq<real>>, hs: seq<real>,
                                      x: real, y: real, base: FontSettings, r: int, k: int)
    requires GridFits(rows, grid) && |hs| == |rows|
    requires 0 <= r < |rows| && 0 <= k < |rows[r]|
    ensures CellCount(rows[..r]) + k < CellCount(rows)
    ensures Placement(rows, grid, hs, x, y, base)[CellCount(rows[..r]) + k] ==
            DrawCall(x + Sum(grid[r][..k]), y + TableHeight(rows[..r], hs[..r]), grid[r][k], hs[r],
                     rows[r][k].text, rows[r][k].border, rows[r][k].align, rows[r][k].fill,
                     CellFont(base, rows[r][k]))
  {
    var first := RowDraws(rows[0], grid[0], hs[0], x, y, base);
    var y' := y + RowAdvance(rows[0], hs[0]);
    if r == 0 {
      assert rows[..0] == [] && hs[..0] == [];
      RowDrawAt(rows[0], grid[0], hs[0], x, y, base, k);
    } else {
      DrawOfCell(rows[1..], grid[1..], hs[1..], x, y', base, r - 1, k);
      assert rows[..r][1..] == rows[1..][..r - 1];
      assert hs[..r][1..] == hs[1..][..r - 1];
    }
  }
}
