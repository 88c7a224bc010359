/** Static helpers of the extension: colour parsing, unit conversion and page
    space arithmetic. */
module Helper {
  import opened Values
  import opened Surface

  // ---------------------------------------------------------------------
  // Colours
  // ---------------------------------------------------------------------

  /** A colour as convertColor receives it: nothing (null or false), an RGB
      array, or a string. */
  datatype ColorValue = NoColor | Rgb(components: seq<int>) | Text(s: string)

  /** PHP's empty() on a colour value. */
  predicate IsEmpty(v: ColorValue)
  {
    match v
    case NoColor => true
    case Rgb(c) => c == []
    case Text(s) => s == "" || s == "0"
  }

  predicate IsNullColor(v: ColorValue)
  {
    IsEmpty(v) || v == Text("transparent")
  }

  function Repeat(ch: char, n: nat): (r: string)
    ensures |r| == n
    ensures forall i :: 0 <= i < n ==> r[i] == ch
  {
    if n == 0 then [] else Repeat(ch, n - 1) + [ch]
  }

  /** ltrim($s, '#'): the string without its leading '#' characters. */
  function StripHashes(s: string): (r: string)
    ensures |r| <= |s| && s[|s| - |r|..] == r
    ensures forall i :: 0 <= i < |s| - |r| ==> s[i] == '#'
    ensures r == [] || r[0] != '#'
  {
    if s != [] && s[0] == '#' then StripHashes(s[1..]) else s
  }

  /** A string padded by repeating its last character until it has six. */
  function PadToSix(s: string): (r: string)
    requires s != []
    ensures |r| == if |s| >= 6 then |s| else 6
    ensures r[..|s|] == s
    ensures forall i :: |s| <= i < |r| ==> r[i] == s[|s| - 1]
  {
    if |s| >= 6 then s else s + Repeat(s[|s| - 1], 6 - |s|)
  }

  function HexDigit(ch: char): Option<nat>
  {
    if '0' <= ch <= '9' then Some(ch as nat - '0' as nat)
    else if 'a' <= ch <= 'f' then Some(ch as nat - 'a' as nat + 10)
    else if 'A' <= ch <= 'F' then Some(ch as nat - 'A' as nat + 10)
    else None
  }

  /** PHP's hexdec: the hexadecimal digits of the string, the others skipped. */
  function HexDec(s: string): nat
  {
    if s == [] then 0
    else
      var d := HexDigit(s[|s| - 1]);
      if d.Some? then 16 * HexDec(s[..|s| - 1]) + d.value else HexDec(s[..|s| - 1])
  }

  function Pow16(n: nat): nat
  {
    if n == 0 then 1 else 16 * Pow16(n - 1)
  }

  lemma {:induction false} HexDecBound(s: string)
    ensures HexDec(s) < Pow16(|s|)
  {
    if s != [] {
      HexDecBound(s[..|s| - 1]);
    }
  }

  /** str_split($s, 2): chunks of two characters, the last one possibly shorter. */
  function Chunks(s: string): (r: seq<string>)
    requires s != []
    ensures |r| == (|s| + 1) / 2
    ensures forall i :: 0 <= i < |r| ==> 1 <= |r[i]| <= 2
  {
    if |s| <= 2 then [s] else [s[..2]] + Chunks(s[2..])
  }

  /** Chunk i holds the characters 2i and 2i + 1, the last chunk of an odd
      length only the final character. */
  lemma {:induction false} ChunkAt(s: string, i: nat)
    requires s != [] && i < |Chunks(s)|
    ensures Chunks(s)[i] == s[2 * i .. if 2 * i + 2 <= |s| then 2 * i + 2 else |s|]
  {
    if i > 0 {
      assert |s| > 2;
      assert Chunks(s)[i] == Chunks(s[2..])[i - 1];
      ChunkAt(s[2..], i - 1);
      var end := if 2 * i + 2 <= |s| then 2 * i + 2 else |s|;
      assert s[2..][2 * (i - 1) .. end - 2] == s[2 * i .. end];
    }
  }

  lemma ChunksOfSix(s: string)
    requires |s| == 6
    ensures Chunks(s) == [s[..2], s[2..4], s[4..]]
  {
    assert Chunks(s[4..]) == [s[4..]];
    assert s[2..][..2] == s[2..4];
    assert s[2..][2..] == s[4..];
    assert Chunks(s[2..]) == [s[2..4]] + Chunks(s[4..]);
  }

  /** convertColor for strings, arrays and nothing. A string that is neither
      empty nor 'transparent' must keep a character after its leading '#'s are
      removed; otherwise the PHP padding loop never ends. */
  predicate Convertible(v: ColorValue)
  {
    v.Text? && !IsNullColor(v) ==> StripHashes(v.s) != []
  }

  /** array_map('hexdec', $chunks). */
  function HexComponents(chunks: seq<string>): (r: seq<int>)
    ensures |r| == |chunks|
    ensures forall i :: 0 <= i < |chunks| ==> r[i] == HexDec(chunks[i])
  {
    if chunks == [] then [] else [HexDec(chunks[0])] + HexComponents(chunks[1..])
  }

  function ColorOf(v: ColorValue): (r: Option<seq<int>>)
    requires Convertible(v)
    ensures r.None? <==> IsNullColor(v)
    ensures v.Rgb? && r.Some? ==> r.value == v.components
    ensures v.Text? && r.Some? ==> |r.value| == (|PadToSix(StripHashes(v.s))| + 1) / 2
  {
    if IsNullColor(v) then None
    else
      match v
      case Rgb(c) => Some(c)
      case Text(s) => Some(HexComponents(Chunks(PadToSix(StripHashes(s)))))
  }

  /** convertColor: the padding is a loop that appends the last character. */
  method ConvertColor(color: ColorValue) returns (rgb: Option<seq<int>>)
    requires Convertible(color)
    ensures rgb == ColorOf(color)
  {
    if IsNullColor(color) {
      return None;
    }
    match color {
      case NoColor =>
        return None;
      case Rgb(c) =>
        return Some(c);
      case Text(s) =>
        var padded := PadWithLastChar(StripHashes(s));
        return Some(HexComponents(Chunks(padded)));
    }
  }

  /** The padding loop of convertColor: appends the last character until the
      string has six. */
  method PadWithLastChar(s: string) returns (padded: string)
    requires s != []
    ensures padded == PadToSix(s)
  {
    padded := s;
    while |padded| < 6
      invariant |s| <= |padded|
      invariant |s| < 6 ==> |padded| <= 6
      invariant |s| >= 6 ==> padded == s
      invariant padded == s + Repeat(s[|s| - 1], |padded| - |s|)
      decreases 6 - |padded|
    {
      padded := padded + [padded[|padded| - 1]];
    }
  }

  /** One to six characters after the '#'s give exactly three components,
      each a byte. */
  lemma ShortColorIsByteTriple(s: string)
    requires !IsNullColor(Text(s)) && 1 <= |StripHashes(s)| <= 6
    ensures ColorOf(Text(s)).Some?
    ensures |ColorOf(Text(s)).value| == 3
    ensures forall i :: 0 <= i < 3 ==> 0 <= ColorOf(Text(s)).value[i] <= 255
  {
    var chunks := Chunks(PadToSix(StripHashes(s)));
    var hs := HexComponents(chunks);
    assert ColorOf(Text(s)) == Some(hs);
    forall i | 0 <= i < 3
      ensures hs[i] <= 255
    {
      ChunkIsByte(chunks[i]);
    }
  }

  /** One or two characters read as hexadecimal fit in a byte. */
  lemma ChunkIsByte(c: string)
    requires 1 <= |c| <= 2
    ensures HexDec(c) <= 255
  {
    HexDecBound(c);
    assert Pow16(1) == 16;
    assert Pow16(2) == 256;
  }

  lemma HexPair(hi: char, lo: char)
    requires HexDigit(hi).Some? && HexDigit(lo).Some?
    ensures HexDec([hi, lo]) == 16 * HexDigit(hi).value + HexDigit(lo).value
  {
    var s := [hi, lo];
    assert s[..|s| - 1] == [hi];
    assert HexDec([hi]) == HexDigit(hi).value by {
      assert [hi][..0] == [];
    }
  }

  /** A colour string with one to six characters after its '#'s is padded to
      six and converted pair by pair. */
  lemma PaddedColor(s: string, t: string)
    requires !IsNullColor(Text(s)) && StripHashes(s) == t && 1 <= |t| <= 6
    ensures var p := PadToSix(t);
      ColorOf(Text(s)) == Some([HexDec(p[..2]), HexDec(p[2..4]), HexDec(p[4..])])
  {
    var p := PadToSix(t);
    ChunksOfSix(p);
    var chunks := [p[..2], p[2..4], p[4..]];
    assert ColorOf(Text(s)) == Some(HexComponents(chunks));
    var hs := HexComponents(chunks);
    assert hs[0] == HexDec(p[..2]) && hs[1] == HexDec(p[2..4]) && hs[2] == HexDec(p[4..]);
    assert hs == [HexDec(p[..2]), HexDec(p[2..4]), HexDec(p[4..])];
  }

  predicate IsHexDigit(ch: char)
  {
    HexDigit(ch).Some?
  }

  /** Two hex digits at position i read as one byte. */
  lemma PairAt(t: string, i: nat)
    requires i + 2 <= |t| && IsHexDigit(t[i]) && IsHexDigit(t[i + 1])
    ensures HexDec(t[i..i + 2]) == 16 * HexDigit(t[i]).value + HexDigit(t[i + 1]).value
  {
    assert t[i..i + 2] == [t[i], t[i + 1]];
    HexPair(t[i], t[i + 1]);
  }

  /** A single leading '#' is all that ltrim removes. */
  lemma StripOneHash(s: string)
    requires |s| >= 2 && s[0] == '#' && s[1] != '#'
    ensures StripHashes(s) == s[1..]
  {
    assert StripHashes(s[1..]) == s[1..];
  }

  /** The three pairs after the '#' of a seven-character colour. */
  lemma SixDigitPairs(s: string)
    requires |s| == 7
    requires IsHexDigit(s[1]) && IsHexDigit(s[2]) && IsHexDigit(s[3])
    requires IsHexDigit(s[4]) && IsHexDigit(s[5]) && IsHexDigit(s[6])
    ensures HexDec(s[1..][..2]) == 16 * HexDigit(s[1]).value + HexDigit(s[2]).value
    ensures HexDec(s[1..][2..4]) == 16 * HexDigit(s[3]).value + HexDigit(s[4]).value
    ensures HexDec(s[1..][4..]) == 16 * HexDigit(s[5]).value + HexDigit(s[6]).value
  {
    var t := s[1..];
    PairAt(t, 0);
    PairAt(t, 2);
    PairAt(t, 4);
    assert t[4..] == t[4..6];
  }

  /** A '#' and six hex digits give the three pairs read as hexadecimal. */
  lemma SixDigitColor(s: string)
    requires |s| == 7 && s[0] == '#'
    requires IsHexDigit(s[1]) && IsHexDigit(s[2]) && IsHexDigit(s[3])
    requires IsHexDigit(s[4]) && IsHexDigit(s[5]) && IsHexDigit(s[6])
    ensures Convertible(Text(s)) && ColorOf(Text(s)) ==
            Some([16 * HexDigit(s[1]).value + HexDigit(s[2]).value,
                  16 * HexDigit(s[3]).value + HexDigit(s[4]).value,
                  16 * HexDigit(s[5]).value + HexDigit(s[6]).value])
  {
    var t := s[1..];
    StripOneHash(s);
    assert PadToSix(t) == t;
    SixDigitPairs(s);
    PaddedColor(s, t);
  }

  /** A '#' and three hex digits: the last digit is repeated up to six. */
  lemma ThreeDigitColor(s: string)
    requires |s| == 4 && s[0] == '#'
    requires IsHexDigit(s[1]) && IsHexDigit(s[2]) && IsHexDigit(s[3])
    ensures Convertible(Text(s)) && ColorOf(Text(s)) ==
            Some([16 * HexDigit(s[1]).value + HexDigit(s[2]).value,
                  16 * HexDigit(s[3]).value + HexDigit(s[3]).value,
                  16 * HexDigit(s[3]).value + HexDigit(s[3]).value])
  {
    var t, c := s[1..], s[3];
    var p := [s[1], s[2], c, c, c, c];
    StripOneHash(s);
    assert PadToSix(t) == p;
    PaddedColor(s, t);
    PairAt(p, 0);
    PairAt(p, 2);
    PairAt(p, 4);
    assert p[4..] == p[4..6];
  }

  /** The documented examples. */
  lemma MagentaExample()
    ensures ColorOf(Text("#ff00ff")) == Some([255, 0, 255])
  {
    var s := "#ff00ff";
    assert s[1] == s[2] == s[5] == s[6] == 'f' && s[3] == s[4] == '0';
    SixDigitColor(s);
  }

  lemma ShortGreyExample()
    ensures ColorOf(Text("#aaa")) == Some([170, 170, 170])
  {
    ThreeDigitColor("#aaa");
  }

  lemma ArrayAndTransparentExamples()
    ensures ColorOf(Rgb([120, 50, 20])) == Some([120, 50, 20])
    ensures ColorOf(Text("transparent")) == None
  {
  }

  /** A three-digit colour is not expanded as in CSS ("#abc" would be
      (170, 187, 204)): its last digit is repeated instead. */
  lemma ShortColorRepeatsLastDigit()
    ensures ColorOf(Text("#abc")) == Some([171, 204, 204])
  {
    ThreeDigitColor("#abc");
  }

  // ---------------------------------------------------------------------
  // Units
  // ---------------------------------------------------------------------

  function LowerChar(ch: char): char
  {
    if 'A' <= ch <= 'Z' then (ch as int - 'A' as int + 'a' as int) as char else ch
  }

  /** strtolower on ASCII letters. */
  function Lower(s: string): (r: string)
    ensures |r| == |s|
    ensures forall i :: 0 <= i < |s| ==> r[i] == LowerChar(s[i])
  {
    if s == [] then [] else [LowerChar(s[0])] + Lower(s[1..])
  }

  predicate IsKnownUnit(u: string)
  {
    u == "px" || u == "pt" || u == "mm" || u == "cm" || u == "in"
  }

  /** getSizeInPixel as written: the 'in' case converts one inch, whatever the
      width. */
  function SizeInPixelAsWritten(widthInUserUnit: real, unit: string, dpi: real): (r: Result<real>)
    ensures r.Ok? <==> IsKnownUnit(Lower(unit))
    ensures Lower(unit) == "in" ==> r == Ok(dpi)
  {
    var u := Lower(unit);
    if u == "px" || u == "pt" then Ok(widthInUserUnit)
    else if u == "mm" then Ok(widthInUserUnit / 25.4 * dpi)
    else if u == "cm" then Ok(widthInUserUnit / 2.54 * dpi)
    else if u == "in" then Ok(1.0 * dpi)
    else Err(InvalidArgument("Invalid unit \"" + u + "\"."))
  }

  /** With 'in', two inches at 72 dpi come out as 72 pixels, while the same
      length given in centimetres comes out as 144. */
  lemma InchIgnoresWidth()
    ensures SizeInPixelAsWritten(2.0, "in", 72.0) == Ok(72.0)
    ensures SizeInPixelAsWritten(5.08, "cm", 72.0) == Ok(144.0)
  {
    assert Lower("in") == "in";
    assert Lower("cm") == "cm";
  }

  /** getSizeInPixel with the width converted in every metric unit. */
  function SizeInPixel(widthInUserUnit: real, unit: string, dpi: real): (r: Result<real>)
    ensures r.Ok? <==> IsKnownUnit(Lower(unit))
    ensures r.Err? ==> r.error == InvalidArgument("Invalid unit \"" + Lower(unit) + "\".")
    ensures Lower(unit) == "px" || Lower(unit) == "pt" ==> r == Ok(widthInUserUnit)
  {
    var u := Lower(unit);
    if u == "px" || u == "pt" then Ok(widthInUserUnit)
    else if u == "mm" then Ok(widthInUserUnit / 25.4 * dpi)
    else if u == "cm" then Ok(widthInUserUnit / 2.54 * dpi)
    else if u == "in" then Ok(widthInUserUnit * dpi)
    else Err(InvalidArgument("Invalid unit \"" + u + "\"."))
  }

  /** The same length gives the same number of pixels in every metric unit. */
  lemma SizeInPixelAgreesAcrossUnits(inches: real, dpi: real)
    ensures SizeInPixel(inches, "in", dpi) == SizeInPixel(inches * 2.54, "cm", dpi)
    ensures SizeInPixel(inches, "in", dpi) == SizeInPixel(inches * 25.4, "mm", dpi)
  {
    assert Lower("in") == "in";
    assert Lower("cm") == "cm";
    assert Lower("mm") == "mm";
  }

  lemma {:induction false} LowerIdempotent(s: string)
    ensures Lower(Lower(s)) == Lower(s)
  {
    if s != [] {
      LowerIdempotent(s[1..]);
    }
  }

  /** The unit is matched without regard to case. */
  lemma SizeInPixelIgnoresCase(w: real, unit: string, dpi: real)
    ensures SizeInPixel(w, unit, dpi) == SizeInPixel(w, Lower(unit), dpi)
  {
    LowerIdempotent(unit);
  }

  /** Scaling the width scales the size in pixels. */
  lemma SizeInPixelIsLinear(k: real, w: real, unit: string, dpi: real)
    requires IsKnownUnit(Lower(unit))
    ensures SizeInPixel(k * w, unit, dpi).value == k * SizeInPixel(w, unit, dpi).value
  {
  }

  // ---------------------------------------------------------------------
  // Page space
  // ---------------------------------------------------------------------

  /** The space left on a page below y, in user units. */
  function RemainingYPageSpace(pdf: Pdf, page: int, y: real): real
  {
    pdf.pageHeightOf(page) / pdf.scaleFactor - pdf.margins.bottom - y
  }

  /** The page height without the top and bottom margins. */
  function PageContentHeight(pdf: Pdf, page: int): real
  {
    pdf.pageHeightOf(page) / pdf.scaleFactor - pdf.margins.bottom - pdf.margins.top
  }

  lemma RemainingSpaceDecreases(pdf: Pdf, page: int, y1: real, y2: real)
    requires y1 < y2
    ensures RemainingYPageSpace(pdf, page, y2) < RemainingYPageSpace(pdf, page, y1)
    ensures RemainingYPageSpace(pdf, page, y1) - RemainingYPageSpace(pdf, page, y2) == y2 - y1
  {
  }

  lemma ContentHeightIsSpaceBelowTopMargin(pdf: Pdf, page: int)
    ensures PageContentHeight(pdf, page) == RemainingYPageSpace(pdf, page, pdf.margins.top)
  {
  }
}
