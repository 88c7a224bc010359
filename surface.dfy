/** The part of the TCPDF drawing surface that the table extension uses. TCPDF
    itself is not modelled: text measurement is given as functions fixed when
    the surface is created, and drawing a cell appends a record of the call to
    a log. */
module Surface {
  import opened Values

  type Positive = r: real | r > 0.0 witness 1.0

  datatype Margins = Margins(left: real, top: real, right: real, bottom: real)

  /** The font state the extension saves and restores: family, style
      ("B" for bold), size in points and the cell-height ratio. TCPDF's size in
      user units is derived from the size in points. */
  datatype FontSettings = FontSettings(family: string, style: string, sizePt: real, cellHeightRatio: real)

  /** One call of MultiCell: position, size, content and the font in effect. */
  datatype DrawCall = DrawCall(
    x: real, y: real, w: real, h: real,
    text: string, border: Value, align: string, fill: Value,
    font: FontSettings)

  class Pdf {
    const pageWidth: real
    const pageHeightOf: int -> real
    const scaleFactor: Positive
    const margins: Margins
    const lineWidth: real
    /** Width of a text run in the given font. */
    const stringWidth: (FontSettings, string) -> real
    /** Height of a text wrapped at the given width, with the cell's border. */
    const stringHeight: (FontSettings, real, string, Value) -> real

    var x: real
    var y: real
    var font: FontSettings
    var drawn: seq<DrawCall>

    constructor (pageWidth: real, pageHeightOf: int -> real, scaleFactor: Positive, margins: Margins,
                 lineWidth: real, stringWidth: (FontSettings, string) -> real,
                 stringHeight: (FontSettings, real, string, Value) -> real,
                 x: real, y: real, font: FontSettings)
      ensures this.pageWidth == pageWidth && this.pageHeightOf == pageHeightOf
      ensures this.scaleFactor == scaleFactor && this.margins == margins && this.lineWidth == lineWidth
      ensures this.stringWidth == stringWidth && this.stringHeight == stringHeight
      ensures this.x == x && this.y == y && this.font == font && drawn == []
    {
      this.pageWidth := pageWidth;
      this.pageHeightOf := pageHeightOf;
      this.scaleFactor := scaleFactor;
      this.margins := margins;
      this.lineWidth := lineWidth;
      this.stringWidth := stringWidth;
      this.stringHeight := stringHeight;
      this.x := x;
      this.y := y;
      this.font := font;
      drawn := [];
    }

    function GetStringWidth(text: string): real
      reads this
    {
      stringWidth(font, text)
    }

    function GetStringHeight(w: real, text: string, border: Value): real
      reads this
    {
      stringHeight(font, w, text, border)
    }

    /** SetFont keeps the cell-height ratio. */
    method SetFont(family: string, style: string, sizePt: real)
      modifies this`font
      ensures font == old(font).(family := family, style := style, sizePt := sizePt)
    {
      font := font.(family := family, style := style, sizePt := sizePt);
    }

    method SetCellHeightRatio(ratio: real)
      modifies this`font
      ensures font == old(font).(cellHeightRatio := ratio)
    {
      font := font.(cellHeightRatio := ratio);
    }

    method SetXY(x: real, y: real)
      modifies this`x, this`y
      ensures this.x == x && this.y == y
    {
      this.x, this.y := x, y;
    }

    method SetX(x: real)
      modifies this`x
      ensures this.x == x
    {
      this.x := x;
    }

    /** MultiCell with its default line advance: the box is drawn at the
        cursor, then the cursor moves to the start of the line below it. */
    method MultiCell(w: real, h: real, text: string, border: Value, align: string, fill: Value)
      modifies this`drawn, this`x, this`y
      ensures drawn == old(drawn) + [DrawCall(old(x), old(y), w, h, text, border, align, fill, font)]
      ensures x == margins.left && y == old(y) + h
    {
      drawn := drawn + [DrawCall(x, y, w, h, text, border, align, fill, font)];
      x, y := margins.left, y + h;
    }
  }
}
