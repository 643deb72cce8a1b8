/** Saving a document with its layers (src/utils/export.py): which layers
    are written and by which renderer, the font and colour conversions the
    renderers apply, the line segments of a freehand drawing, and the layer
    store saved into, and read back from, the document's "keywords"
    metadata entry. The PDF drawing calls themselves are PyMuPDF's and are
    not modelled; the JSON text, base64 text and PNG bytes are codecs passed
    in as functions. */
module Export {
  import opened Common
  import opened Values
  import opened Layers

  // ---------------------------------------------------------------------
  // Fonts

  /** `font_map.get(font_name, 'helv')`. */
  function BaseFont(name: string): (r: string)
    ensures r == "helv" || r == "times" || r == "cour"
  {
    if name == "Arial" || name == "Helvetica" then "helv"
    else if name == "Times New Roman" || name == "Times" then "times"
    else if name == "Courier New" || name == "Courier" then "cour"
    else "helv"
  }

  function StyleSuffix(bold: bool, italic: bool): string
  {
    if bold && italic then "bi" else if bold then "b" else if italic then "i" else ""
  }

  /** The font name passed to `insert_text` for a text layer: a base font
      code followed by the style suffix. */
  function PdfFont(name: string, bold: bool, italic: bool): string
  {
    BaseFont(name) + StyleSuffix(bold, italic)
  }

  /** The six known family names and the fallback, with each style. */
  lemma PdfFontTable(name: string, bold: bool, italic: bool)
    ensures name in {"Arial", "Helvetica"} ==> PdfFont(name, bold, italic)[..4] == "helv"
    ensures name in {"Times New Roman", "Times"} ==> PdfFont(name, bold, italic)[..5] == "times"
    ensures name in {"Courier New", "Courier"} ==> PdfFont(name, bold, italic)[..4] == "cour"
    ensures name !in {"Arial", "Helvetica", "Times New Roman", "Times", "Courier New", "Courier"} ==>
      PdfFont(name, bold, italic)[..4] == "helv"
    ensures PdfFont(name, true, true)[|BaseFont(name)|..] == "bi"
    ensures PdfFont(name, true, false)[|BaseFont(name)|..] == "b"
    ensures PdfFont(name, false, true)[|BaseFont(name)|..] == "i"
    ensures PdfFont(name, false, false) == BaseFont(name)
  {
  }

  /** The font name tells the family and the style apart: two layers get
      the same font exactly when their families map alike and their bold
      and italic flags agree. */
  lemma PdfFontInjective(n1: string, b1: bool, i1: bool, n2: string, b2: bool, i2: bool)
    ensures PdfFont(n1, b1, i1) == PdfFont(n2, b2, i2) <==>
      BaseFont(n1) == BaseFont(n2) && b1 == b2 && i1 == i2
  {
    var f1, f2 := PdfFont(n1, b1, i1), PdfFont(n2, b2, i2);
    if f1 == f2 {
      var s1, s2 := StyleSuffix(b1, i1), StyleSuffix(b2, i2);
      var base1, base2 := BaseFont(n1), BaseFont(n2);
      assert f1 == base1 + s1 && f2 == base2 + s2;
      // The three bases differ in their first letter.
      assert base1[0] == f1[0] && base2[0] == f2[0];
      assert base1 == base2;
      assert s1 == f1[|base1|..] && s2 == f2[|base2|..];
    }
  }

  // ---------------------------------------------------------------------
  // Colours

  /** `s.lstrip(c)`: every leading copy of `c` removed. */
  function LStripChar(s: string, c: char): (r: string)
    ensures |r| <= |s| && r == s[|s| - |r|..]
    ensures r == [] || r[0] != c
  {
    if s != [] && s[0] == c then LStripChar(s[1..], c) else s
  }

  /** `s[i:j]` for `0 <= i <= j`: bounds past the end are clamped. */
  function Slice(s: string, i: nat, j: nat): (r: string)
    requires i <= j
    ensures |r| <= j - i
  {
    if i >= |s| then [] else if j >= |s| then s[i..] else s[i..j]
  }

  predicate AllHex(s: string)
  {
    forall k :: 0 <= k < |s| ==> HexValue(s[k]).Some?
  }

  function HexDigitsValue(s: string): (n: nat)
    requires AllHex(s)
  {
    if s == [] then 0 else HexDigitsValue(s[..|s| - 1]) * 16 + HexValue(s[|s| - 1]).value
  }

  /** `int(piece, 16)` for a piece of at most two characters: surrounding
      whitespace, an optional sign, then hexadecimal digits. (The `0x`
      prefix and digit-separating underscores need three characters or
      more, so they cannot occur here.) */
  function ParseHexPiece(piece: string): (r: Result<int>)
    requires |piece| <= 2
    ensures r.Err? ==> r.error == ValueError
  {
    var t := Strip(piece);
    if t == [] then Err(ValueError)
    else if t[0] == '-' || t[0] == '+' then
      if t[1..] != [] && AllHex(t[1..]) then
        Ok(if t[0] == '-' then 0 - HexDigitsValue(t[1..]) else HexDigitsValue(t[1..]))
      else Err(ValueError)
    else if AllHex(t) then Ok(HexDigitsValue(t))
    else Err(ValueError)
  }

  /** `_hex_to_rgb`: leading '#' characters dropped, then the pieces at
      offsets 0, 2 and 4 read as base-16 numbers and divided by 255. */
  function HexToRgb(hex: string): (r: Result<(real, real, real)>)
    ensures r.Err? ==> r.error == ValueError
  {
    RgbOfDigits(LStripChar(hex, '#'))
  }

  /** A component read from the string, `n / 255.0`. */
  function OverMax(n: int): (r: real)
    ensures 0 <= n <= 255 ==> 0.0 <= r <= 1.0
  {
    n as real / 255.0
  }

  /** The three pieces of the colour once the '#' characters are gone. */
  function RgbOfDigits(h: string): (r: Result<(real, real, real)>)
    ensures r.Err? ==> r.error == ValueError
  {
    match (ParseHexPiece(Slice(h, 0, 2)), ParseHexPiece(Slice(h, 2, 4)), ParseHexPiece(Slice(h, 4, 6)))
    case (Ok(red), Ok(green), Ok(blue)) => Ok((OverMax(red), OverMax(green), OverMax(blue)))
    case _ => Err(ValueError)
  }

  lemma StripPlain(s: string)
    requires |s| <= 2 && s != [] && !IsSpace(s[0]) && !IsSpace(s[|s| - 1])
    ensures Strip(s) == s
  {
    StripUnchanged(s);
  }

  /** The byte written as two hexadecimal digits. */
  function PairValue(s: string): (n: nat)
    requires |s| == 2 && AllHex(s)
    ensures n < 256
  {
    HexValue(s[0]).value * 16 + HexValue(s[1]).value
  }

  lemma HexPairValue(s: string)
    requires |s| == 2 && AllHex(s)
    ensures ParseHexPiece(s) == Ok(PairValue(s))
  {
    assert !IsSpace(s[0]) && !IsSpace(s[1]) && s[0] != '-' && s[0] != '+';
    StripPlain(s);
    assert s[..1][..0] == [] && s[..1][0] == s[0];
    assert HexDigitsValue(s[..1]) == HexValue(s[0]).value;
  }

  lemma LStripHash(s: string)
    requires s == [] || s[0] != '#'
    ensures LStripChar("#" + s, '#') == s
  {
    assert ("#" + s)[1..] == s;
  }

  /** Once the '#' characters are gone, six hexadecimal digits give their
      three byte values over 255. */
  lemma SlicesOfSix(h: string)
    requires |h| == 6
    ensures Slice(h, 0, 2) == h[0..2] && Slice(h, 2, 4) == h[2..4] && Slice(h, 4, 6) == h[4..6]
  {
  }

  lemma AllHexPiece(h: string, i: nat)
    requires AllHex(h) && i + 2 <= |h|
    ensures AllHex(h[i..i + 2])
  {
    assert h[i..i + 2][0] == h[i] && h[i..i + 2][1] == h[i + 1];
  }

  lemma RgbOfPieces(h: string, red: int, green: int, blue: int)
    requires ParseHexPiece(Slice(h, 0, 2)) == Ok(red)
    requires ParseHexPiece(Slice(h, 2, 4)) == Ok(green)
    requires ParseHexPiece(Slice(h, 4, 6)) == Ok(blue)
    ensures RgbOfDigits(h) == Ok((OverMax(red), OverMax(green), OverMax(blue)))
  {
  }

  lemma HexToRgbOfPairs(hex: string, h: string)
    requires LStripChar(hex, '#') == h && |h| == 6 && AllHex(h)
    ensures AllHex(h[0..2]) && AllHex(h[2..4]) && AllHex(h[4..6])
    ensures HexToRgb(hex) == Ok((OverMax(PairValue(h[0..2])), OverMax(PairValue(h[2..4])), OverMax(PairValue(h[4..6]))))
  {
    SlicesOfSix(h);
    AllHexPiece(h, 0);
    AllHexPiece(h, 2);
    AllHexPiece(h, 4);
    HexPairValue(h[0..2]);
    HexPairValue(h[2..4]);
    HexPairValue(h[4..6]);
    RgbOfPieces(h, PairValue(h[0..2]), PairValue(h[2..4]), PairValue(h[4..6]));
  }

  /** Six hexadecimal digits after a '#' give three components in [0, 1],
      and leaving out the '#' changes nothing. */
  lemma HexToRgbOfDigits(s: string)
    requires |s| == 6 && AllHex(s)
    ensures HexToRgb("#" + s).Ok? && HexToRgb("#" + s) == HexToRgb(s)
    ensures var (r, g, b) := HexToRgb("#" + s).value;
      0.0 <= r <= 1.0 && 0.0 <= g <= 1.0 && 0.0 <= b <= 1.0
  {
    assert HexValue('#').None?;
    LStripHash(s);
    HexToRgbOfPairs("#" + s, s);
    HexToRgbOfPairs(s, s);
  }

  /** The colour strings the editor writes, `#rrggbb` from byte values,
      convert back to those values over 255. */
  lemma HexToRgbOfBytes(red: nat, green: nat, blue: nat)
    requires red < 256 && green < 256 && blue < 256
    ensures HexToRgb("#" + Hex2(red) + Hex2(green) + Hex2(blue)) ==
      Ok((OverMax(red), OverMax(green), OverMax(blue)))
  {
    var s := Hex2(red) + Hex2(green) + Hex2(blue);
    assert "#" + Hex2(red) + Hex2(green) + Hex2(blue) == "#" + s;
    assert s[0..2] == Hex2(red) && s[2..4] == Hex2(green) && s[4..6] == Hex2(blue);
    forall k | 0 <= k < 6 ensures HexValue(s[k]).Some? {
      if k < 2 { assert s[k] == Hex2(red)[k]; }
      else if k < 4 { assert s[k] == Hex2(green)[k - 2]; }
      else { assert s[k] == Hex2(blue)[k - 4]; }
    }
    assert HexValue('#').None?;
    LStripHash(s);
    HexToRgbOfPairs("#" + s, s);
    Hex2Pair(red);
    Hex2Pair(green);
    Hex2Pair(blue);
  }

  lemma Hex2Pair(b: nat)
    requires b < 256
    ensures AllHex(Hex2(b)) && PairValue(Hex2(b)) == b
  {
    var s := Hex2(b);
    assert HexValue(s[0]) == Some(b / 16) && HexValue(s[1]) == Some(b % 16);
  }

  /** Fewer than five characters after the '#' leave the blue piece empty,
      which is a ValueError. */
  lemma ShortHexFails(hex: string)
    requires |LStripChar(hex, '#')| <= 4
    ensures HexToRgb(hex) == Err(ValueError)
  {
    var h := LStripChar(hex, '#');
    assert Slice(h, 4, 6) == [];
    assert Strip([]) == [];
  }

  // ---------------------------------------------------------------------
  // Freehand drawings

  /** A stored point `(x, y)`: its first two entries must be numbers for
      `fitz.Point` to accept them. */
  function PointOf(v: Value): Option<(real, real)>
  {
    if v.VList? && |v.items| >= 2 && IsNumber(v.items[0]) && IsNumber(v.items[1])
    then Some((AsReal(v.items[0]), AsReal(v.items[1])))
    else None
  }

  /** Every stored point converted, or None when one of them cannot be. */
  function PointsOf(items: seq<Value>): (r: Option<seq<(real, real)>>)
    ensures r.Some? ==> |r.value| == |items|
    ensures r.Some? <==> forall k :: 0 <= k < |items| ==> PointOf(items[k]).Some?
    ensures r.Some? ==> forall k :: 0 <= k < |items| ==> r.value[k] == PointOf(items[k]).value
  {
    if items == [] then Some([])
    else
      match (PointOf(items[|items| - 1]), PointsOf(items[..|items| - 1]))
      case (Some(p), Some(ps)) => Some(ps + [p])
      case (None, _) => None
      case (_, None) =>
        assert forall k :: 0 <= k < |items| - 1 ==> items[..|items| - 1][k] == items[k];
        None
  }

  /** The points a drawing layer's stroke passes through, when the stroke
      is drawn at all: there must be a list of at least two points, a
      readable colour, and every point must convert. Any failure is caught
      and leaves the page without the stroke. */
  function DrawnPoints(d: Dict): (r: Option<seq<(real, real)>>)
    ensures r.Some? ==> |r.value| >= 2
  {
    match GetOr(d, "points", VList([]))
    case VList(items) =>
      if |items| < 2 then None
      else
        var color := GetOr(d, "color", VStr("#000000"));
        if !color.VStr? || HexToRgb(color.s).Err? then None
        else PointsOf(items)
    case _ => None
  }

  /** `_add_drawing_to_pdf`: the line segments added to the page, first
      from point 0 to point 1 and then one per following point. */
  method DrawingSegments(d: Dict) returns (segments: seq<((real, real), (real, real))>)
    ensures DrawnPoints(d).None? ==> segments == []
    ensures DrawnPoints(d).Some? ==>
      var ps := DrawnPoints(d).value;
      |segments| == |ps| - 1 && forall k :: 0 <= k < |segments| ==> segments[k] == (ps[k], ps[k + 1])
  {
    var points := GetOr(d, "points", VList([]));
    if !points.VList? || |points.items| < 2 {
      assert DrawnPoints(d).None?;
      return [];
    }
    var color := GetOr(d, "color", VStr("#000000"));
    var readable := color.VStr? && HexToRgb(color.s).Ok?;
    if !readable {
      assert DrawnPoints(d).None?;
      return [];
    }
    assert DrawnPoints(d) == PointsOf(points.items);
    var stroke := StrokeSegments(points.items);
    segments := if stroke.Some? then stroke.value else [];
  }

  /** The segment loop over the stored points; a point that does not
      convert abandons the whole stroke. */
  method StrokeSegments(items: seq<Value>) returns (r: Option<seq<((real, real), (real, real))>>)
    requires |items| >= 2
    ensures r.Some? <==> PointsOf(items).Some?
    ensures r.Some? ==>
      var ps := PointsOf(items).value;
      |r.value| == |ps| - 1 && forall k :: 0 <= k < |r.value| ==> r.value[k] == (ps[k], ps[k + 1])
  {
    var first, second := PointOf(items[0]), PointOf(items[1]);
    if first.None? || second.None? {
      return None;
    }
    var drawn := [(first.value, second.value)];
    var i := 1;
    while i < |items| - 1
      invariant 1 <= i <= |items| - 1
      invariant forall k :: 0 <= k <= i ==> PointOf(items[k]).Some?
      invariant |drawn| == i
      invariant forall k :: 0 <= k < i ==> drawn[k] == (PointOf(items[k]).value, PointOf(items[k + 1]).value)
    {
      var next := PointOf(items[i + 1]);
      if next.None? {
        return None;
      }
      drawn := drawn + [(PointOf(items[i]).value, next.value)];
      i := i + 1;
    }
    return Some(drawn);
  }

  /** Drawing the segments walks the whole stroke: they join up end to end,
      starting at the first point and finishing at the last. */
  lemma SegmentsJoinUp(segments: seq<((real, real), (real, real))>, ps: seq<(real, real)>)
    requires |ps| >= 2 && |segments| == |ps| - 1
    requires forall k :: 0 <= k < |segments| ==> segments[k] == (ps[k], ps[k + 1])
    ensures segments[0].0 == ps[0] && segments[|segments| - 1].1 == ps[|ps| - 1]
    ensures forall k :: 0 <= k < |segments| - 1 ==> segments[k].1 == segments[k + 1].0
  {
    var last := |segments| - 1;
    assert segments[0] == (ps[0], ps[1]);
    assert segments[last] == (ps[last], ps[last + 1]);
    forall k | 0 <= k < |segments| - 1
      ensures segments[k].1 == segments[k + 1].0
    {
      assert segments[k] == (ps[k], ps[k + 1]) && segments[k + 1] == (ps[k + 1], ps[k + 2]);
    }
  }

  // ---------------------------------------------------------------------
  // Shapes

  /** `_add_shape_to_pdf` converts the outline colour, and the fill colour
      when one is set, before drawing; one that does not convert abandons
      the shape. */
  predicate ColorsRead(color: Value, fill: Value)
  {
    color.VStr? && HexToRgb(color.s).Ok? && (!Truthy(fill) || (fill.VStr? && HexToRgb(fill.s).Ok?))
  }

  predicate ShapeColorsRead(d: Dict)
  {
    ColorsRead(GetOr(d, "color", VStr("#000000")), GetOr(d, "fill_color", VNone))
  }

  /** The kind of shape drawn; an unknown kind draws nothing. */
  function ShapeTypeOf(d: Dict): Value
  {
    GetOr(d, "shape_type", VStr("rectangle"))
  }

  /** The box a rectangle or an ellipse is drawn in, as its corners
      (x, y) and (x + w, y + h): `rect` must unpack into four numbers. */
  function BoxOf(rect: Value): (r: Option<(real, real, real, real)>)
  {
    if rect.VList? && |rect.items| == 4
       && IsNumber(rect.items[0]) && IsNumber(rect.items[1]) && IsNumber(rect.items[2]) && IsNumber(rect.items[3])
    then
      var (x, y) := (AsReal(rect.items[0]), AsReal(rect.items[1]));
      Some((x, y, x + AsReal(rect.items[2]), y + AsReal(rect.items[3])))
    else None
  }

  function ShapeBox(d: Dict): (r: Option<(real, real, real, real)>)
    ensures r.Some? ==> ShapeColorsRead(d)
  {
    if ShapeColorsRead(d) then BoxOf(GetOr(d, "rect", VList([VInt(0), VInt(0), VInt(100), VInt(100)]))) else None
  }

  /** The ends of a line or an arrow, each coordinate a number. */
  function EndsOf(x1: Value, y1: Value, x2: Value, y2: Value): Option<((real, real), (real, real))>
  {
    if IsNumber(x1) && IsNumber(y1) && IsNumber(x2) && IsNumber(y2)
    then Some(((AsReal(x1), AsReal(y1)), (AsReal(x2), AsReal(y2))))
    else None
  }

  /** `x1` and `y1` default to 0, `x2` and `y2` to 100. */
  function ShapeEnds(d: Dict): (r: Option<((real, real), (real, real))>)
    ensures r.Some? ==> ShapeColorsRead(d)
  {
    if ShapeColorsRead(d)
    then EndsOf(GetOr(d, "x1", VInt(0)), GetOr(d, "y1", VInt(0)), GetOr(d, "x2", VInt(100)), GetOr(d, "y2", VInt(100)))
    else None
  }

  // ---------------------------------------------------------------------
  // Which layers are written

  /** The `_add_*_to_pdf` routine a layer is handed to. */
  datatype Renderer = TextRenderer | ImageRenderer | SymbolRenderer | DrawingRenderer | ShapeRenderer

  /** The subclass is tested first, then the plain layer's type; any other
      layer is not written. */
  function RendererFor(l: Layer): (r: Option<Renderer>)
    ensures r == Some(TextRenderer) <==> l.kind.Interactive? && l.kind.shape == TextBox
    ensures r == Some(ImageRenderer) <==> l.kind.Interactive? && l.kind.shape == Picture
    ensures r == Some(SymbolRenderer) <==> l.kind.Interactive? && l.kind.shape == Glyph
    ensures r == Some(DrawingRenderer) <==> l.kind.Plain? && l.ltype == Drawing
    ensures r == Some(ShapeRenderer) <==> l.kind.Plain? && l.ltype == Shape
  {
    match l.kind
    case Interactive(TextBox, _, _, _, _, _) => Some(TextRenderer)
    case Interactive(Picture, _, _, _, _, _) => Some(ImageRenderer)
    case Interactive(Glyph, _, _, _, _, _) => Some(SymbolRenderer)
    case Plain =>
      if l.ltype == Drawing then Some(DrawingRenderer)
      else if l.ltype == Shape then Some(ShapeRenderer)
      else None
  }

  /** One layer written on a page by one renderer. */
  datatype Placement = Placement(page: nat, layer: Layer, renderer: Renderer)

  /** The placements for one page's layers, taken in the order given. */
  function PagePlacements(ls: seq<Layer>, p: nat): (r: seq<Placement>)
    ensures |r| <= |ls|
    ensures forall x :: x in r ==> x.page == p
  {
    if ls == [] then []
    else
      var l := ls[|ls| - 1];
      PagePlacements(ls[..|ls| - 1], p) +
        (if l.visible && RendererFor(l).Some? then [Placement(p, l, RendererFor(l).value)] else [])
  }

  /** The placements for page `p`: its layers in z order. */
  function PageOf(layers: seq<Layer>, p: nat): (r: seq<Placement>)
    ensures forall x :: x in r ==> x.page == p
  {
    PagePlacements(SortByZ(OnPage(layers, p)), p)
  }

  /** The pages `0 .. n-1` one after the other. */
  function Concat(pages: nat -> seq<Placement>, n: nat): seq<Placement>
  {
    if n == 0 then [] else Concat(pages, n - 1) + pages(n - 1)
  }

  /** The placements for pages `0 .. n-1`. */
  function Placements(layers: seq<Layer>, n: nat): seq<Placement>
  {
    Concat((p: nat) => PageOf(layers, p), n)
  }

  /** `save_with_layers`: without an open document nothing is saved;
      otherwise every page of the copy is visited and each of its visible
      layers is handed to its renderer in z order. */
  method SaveWithLayers(hasDocument: bool, pageCount: nat, layers: seq<Layer>) returns (saved: bool, placed: seq<Placement>)
    ensures saved == hasDocument
    ensures placed == if hasDocument then Placements(layers, pageCount) else []
  {
    if !hasDocument {
      return false, [];
    }
    placed := [];
    var p := 0;
    while p < pageCount
      invariant 0 <= p <= pageCount
      invariant placed == Placements(layers, p)
    {
      var onPage := PlacePage(SortByZ(OnPage(layers, p)), p);
      PlacementsNext(layers, p);
      placed := placed + onPage;
      p := p + 1;
    }
    saved := true;
  }

  lemma PlacementsNext(layers: seq<Layer>, p: nat)
    ensures Placements(layers, p + 1) == Placements(layers, p) + PagePlacements(SortByZ(OnPage(layers, p)), p)
  {
  }

  /** The loop over one page's layers. */
  method PlacePage(onPage: seq<Layer>, p: nat) returns (placed: seq<Placement>)
    ensures placed == PagePlacements(onPage, p)
  {
    placed := [];
    var j := 0;
    while j < |onPage|
      invariant 0 <= j <= |onPage|
      invariant placed == PagePlacements(onPage[..j], p)
    {
      var l := onPage[j];
      assert onPage[..j + 1][..j] == onPage[..j];
      if l.visible {
        match RendererFor(l)
        case Some(r) => placed := placed + [Placement(p, l, r)];
        case None =>
      }
      j := j + 1;
    }
    assert onPage[..j] == onPage;
  }

  /** The layers of one page in z order are exactly those on the page. */
  lemma PageLayersMembers(layers: seq<Layer>, p: int, l: Layer)
    ensures l in SortByZ(OnPage(layers, p)) <==> l in layers && l.pageNum == p
  {
    var onPage := SortByZ(OnPage(layers, p));
    assert l in onPage <==> l in multiset(onPage);
    assert l in OnPage(layers, p) <==> l in multiset(OnPage(layers, p));
  }

  /** What lands on page `p`: its visible, renderable layers. */
  lemma PageMembers(layers: seq<Layer>, p: nat, x: Placement)
    ensures x in PageOf(layers, p) <==>
      x.page == p && x.layer in layers && x.layer.pageNum == p && x.layer.visible
      && RendererFor(x.layer) == Some(x.renderer)
  {
    var onPage := SortByZ(OnPage(layers, p));
    PagePlacementsMembers(onPage, p, x);
    PageLayersMembers(layers, p, x.layer);
  }

  lemma {:induction false} PagePlacementsMembers(ls: seq<Layer>, p: nat, x: Placement)
    ensures x in PagePlacements(ls, p) <==>
      x.page == p && x.layer in ls && x.layer.visible && RendererFor(x.layer) == Some(x.renderer)
  {
    if ls != [] {
      PagePlacementsMembers(ls[..|ls| - 1], p, x);
      assert ls == ls[..|ls| - 1] + [ls[|ls| - 1]];
    }
  }

  /** Exactly the visible, renderable layers on the document's pages are
      written, each on its own page; layers on pages past the end are not. */
  lemma {:induction false} PlacementsMembers(layers: seq<Layer>, n: nat, x: Placement)
    ensures x in Placements(layers, n) <==>
      x.page < n && x.layer in layers && x.layer.pageNum == x.page && x.layer.visible
      && RendererFor(x.layer) == Some(x.renderer)
  {
    ConcatMembers((p: nat) => PageOf(layers, p), n, x);
    PageMembers(layers, x.page, x);
  }

  /** When each page holds only its own placements, a placement is in the
      concatenation exactly when it is in its own page, and that page is
      one of those visited. */
  lemma {:induction false} ConcatMembers(pages: nat -> seq<Placement>, n: nat, x: Placement)
    requires forall p: nat, y :: y in pages(p) ==> y.page == p
    ensures x in Concat(pages, n) <==> x.page < n && x in pages(x.page)
  {
    if n > 0 {
      ConcatMembers(pages, n - 1, x);
      assert x in Concat(pages, n) <==> x in Concat(pages, n - 1) || x in pages(n - 1);
    }
  }

  /** Within a page the layers are written in ascending z order, so later
      ones land on top. */
  lemma {:induction false} PagePlacementsInZOrder(ls: seq<Layer>, p: nat)
    requires SortedByZ(ls)
    ensures forall i, j :: 0 <= i < j < |PagePlacements(ls, p)| ==>
      PagePlacements(ls, p)[i].layer.zIndex <= PagePlacements(ls, p)[j].layer.zIndex
  {
    if ls != [] {
      var init := ls[..|ls| - 1];
      assert SortedByZ(init);
      PagePlacementsInZOrder(init, p);
      var r := PagePlacements(ls, p);
      var q := PagePlacements(init, p);
      forall i | 0 <= i < |q|
        ensures q[i].layer.zIndex <= ls[|ls| - 1].zIndex
      {
        PagePlacementsMembers(init, p, q[i]);
        var k :| 0 <= k < |init| && init[k] == q[i].layer;
      }
    }
  }

  // ---------------------------------------------------------------------
  // Layer metadata in the document's keywords

  const KEYWORDS := "keywords"
  const LAYERS_PREFIX := "PDFEDITOR_LAYERS:"
  const PIXMAP_B64_KEY := "_pixmap_base64"
  /** The record the corrected serialiser writes for raw bytes. */
  const BYTES_B64_KEY := "_bytes_base64"

  /** The `default=` hook `json.dumps` calls for a value it cannot write:
      as written it only handles pixmaps; the corrected one also handles
      the PNG bytes `LayerManager.to_dict` leaves in layer data. */
  datatype Hook = PixmapOnly | PixmapAndBytes

  /** The keywords entry: the prefix followed by the encoded JSON. */
  function Frame(payload: string): (r: string)
    ensures StartsWith(r, LAYERS_PREFIX)
  {
    LAYERS_PREFIX + payload
  }

  /** `load_layer_metadata`'s test of the keywords entry: a string that
      starts with the prefix yields what follows it; an empty, missing or
      non-string entry yields nothing. */
  function Unframe(keywords: Value): (r: Option<string>)
    ensures r.Some? ==> keywords.VStr? && StartsWith(keywords.s, LAYERS_PREFIX)
  {
    if keywords.VStr? && StartsWith(keywords.s, LAYERS_PREFIX) then Some(keywords.s[|LAYERS_PREFIX|..]) else None
  }

  lemma FrameRoundTrip(payload: string)
    ensures Unframe(VStr(Frame(payload))) == Some(payload)
  {
    assert Frame(payload)[|LAYERS_PREFIX|..] == payload;
  }

  /** Only a framed entry is accepted, and it is the frame of what it yields. */
  lemma UnframeExact(keywords: Value, payload: string)
    ensures Unframe(keywords) == Some(payload) <==> keywords == VStr(Frame(payload))
  {
    if Unframe(keywords) == Some(payload) {
      assert keywords.s == keywords.s[..|LAYERS_PREFIX|] + keywords.s[|LAYERS_PREFIX|..];
    }
    if keywords == VStr(Frame(payload)) {
      FrameRoundTrip(payload);
    }
  }

  /** A value with raw bytes somewhere inside it. */
  predicate HasBytes(v: Value)
  {
    match v
    case VBytes(_) => true
    case VList(items) => exists i :: 0 <= i < |items| && HasBytes(items[i])
    case VDict(entries) => exists i :: 0 <= i < |entries| && HasBytes(entries[i].1)
    case _ => false
  }

  /** A value `json.dumps` writes without calling its hook. */
  predicate Plain(v: Value)
  {
    match v
    case VBytes(_) => false
    case VPixmap(_) => false
    case VList(items) => forall i :: 0 <= i < |items| ==> Plain(items[i])
    case VDict(entries) => forall i :: 0 <= i < |entries| ==> Plain(entries[i].1)
    case _ => true
  }

  /** No dictionary anywhere in the value uses a key the serialiser reserves
      for its records. */
  predicate Clean(v: Value)
  {
    match v
    case VList(items) => forall i :: 0 <= i < |items| ==> Clean(items[i])
    case VDict(entries) =>
      !HasKey(entries, PIXMAP_B64_KEY) && !HasKey(entries, BYTES_B64_KEY)
      && forall i :: 0 <= i < |entries| ==> Clean(entries[i].1)
    case _ => true
  }

  /** `json.dumps(v, default=hook)` up to the text: the value actually
      written, with each pixmap replaced by `{'_pixmap_base64': <base64 PNG>}`;
      bytes are a TypeError unless the hook handles them. `b64` is base64
      encoding. */
  function Ready(v: Value, hook: Hook, b64: seq<int> -> string): (r: Result<Value>)
    decreases v, 1
  {
    match v
    case VPixmap(p) => Ok(VDict([(PIXMAP_B64_KEY, VStr(b64(PngEncode(p))))]))
    case VBytes(b) => if hook == PixmapAndBytes then Ok(VDict([(BYTES_B64_KEY, VStr(b64(b)))])) else Err(TypeError)
    case VList(items) =>
      var r :- ReadyItems(v, 0, hook, b64);
      Ok(VList(r))
    case VDict(entries) =>
      var r :- ReadyEntries(v, 0, hook, b64);
      Ok(VDict(r))
    case _ => Ok(v)
  }

  function ReadyItems(v: Value, i: nat, hook: Hook, b64: seq<int> -> string): (r: Result<seq<Value>>)
    requires v.VList? && i <= |v.items|
    ensures r.Ok? ==> |r.value| == |v.items| - i
    decreases v, 0, |v.items| - i
  {
    if i == |v.items| then Ok([])
    else
      var h :- Ready(v.items[i], hook, b64);
      var t :- ReadyItems(v, i + 1, hook, b64);
      Ok([h] + t)
  }

  function ReadyEntries(v: Value, i: nat, hook: Hook, b64: seq<int> -> string): (r: Result<Dict>)
    requires v.VDict? && i <= |v.entries|
    ensures r.Ok? ==> |r.value| == |v.entries| - i
    decreases v, 0, |v.entries| - i
  {
    if i == |v.entries| then Ok([])
    else
      var h :- Ready(v.entries[i].1, hook, b64);
      var t :- ReadyEntries(v, i + 1, hook, b64);
      Ok([(v.entries[i].0, h)] + t)
  }

  /** `_restore_pixmaps` on a nested value, returning the value that ends up
      in its place: a pixmap record becomes the pixmap decoded from its
      base64 text (a TypeError if that is not a string, a ValueError if it
      is not base64); other dictionaries and lists have their members
      restored. `unb64` is base64 decoding. */
  function Restore(v: Value, hook: Hook, unb64: string -> Option<seq<int>>): (r: Result<Value>)
    decreases v, 1
  {
    match v
    case VDict(entries) =>
      if HasKey(entries, PIXMAP_B64_KEY) then
        var b :- Unbase64(Get(entries, PIXMAP_B64_KEY).value, unb64);
        Ok(VPixmap(PngDecode(b)))
      else if hook == PixmapAndBytes && HasKey(entries, BYTES_B64_KEY) then
        var b :- Unbase64(Get(entries, BYTES_B64_KEY).value, unb64);
        Ok(VBytes(b))
      else
        var r :- RestoreEntries(v, 0, hook, unb64);
        Ok(VDict(r))
    case VList(items) =>
      var r :- RestoreItems(v, 0, hook, unb64);
      Ok(VList(r))
    case _ => Ok(v)
  }

  /** `base64.b64decode` of a record's field. */
  function Unbase64(field: Value, unb64: string -> Option<seq<int>>): (r: Result<seq<int>>)
    ensures r.Ok? <==> field.VStr? && unb64(field.s).Some?
  {
    if !field.VStr? then Err(TypeError)
    else match unb64(field.s)
      case Some(b) => Ok(b)
      case None => Err(ValueError)
  }

  function RestoreItems(v: Value, i: nat, hook: Hook, unb64: string -> Option<seq<int>>): (r: Result<seq<Value>>)
    requires v.VList? && i <= |v.items|
    ensures r.Ok? ==> |r.value| == |v.items| - i
    decreases v, 0, |v.items| - i
  {
    if i == |v.items| then Ok([])
    else
      var h :- Restore(v.items[i], hook, unb64);
      var t :- RestoreItems(v, i + 1, hook, unb64);
      Ok([h] + t)
  }

  function RestoreEntries(v: Value, i: nat, hook: Hook, unb64: string -> Option<seq<int>>): (r: Result<Dict>)
    requires v.VDict? && i <= |v.entries|
    ensures r.Ok? ==> |r.value| == |v.entries| - i
    decreases v, 0, |v.entries| - i
  {
    if i == |v.entries| then Ok([])
    else
      var h :- Restore(v.entries[i].1, hook, unb64);
      var t :- RestoreEntries(v, i + 1, hook, unb64);
      Ok([(v.entries[i].0, h)] + t)
  }

  /** The top-level call in `load_layer_metadata`, whose result is dropped:
      a record at the root is decoded (and may fail) but stays in place. */
  function RestoreRoot(v: Value, hook: Hook, unb64: string -> Option<seq<int>>): (r: Result<Value>)
    ensures r.Ok? ==> r == Restore(v, hook, unb64) || r == Ok(v)
  {
    var restored :- Restore(v, hook, unb64);
    if restored.VPixmap? || restored.VBytes? then Ok(v) else Ok(restored)
  }

  /** `_save_layer_metadata`: the document's metadata with the keywords
      entry set to the framed, serialised layer data; when serialising
      raises, the metadata is left as it was. `serialize` stands for
      `json.dumps` followed by base64 encoding of its UTF-8 text. */
  function SaveMetadata(metadata: Dict, layerData: Value, hook: Hook, serialize: Value -> string, b64: seq<int> -> string): (r: Dict)
  {
    match Ready(layerData, hook, b64)
    case Err(_) => metadata
    case Ok(ready) => Put(metadata, KEYWORDS, VStr(Frame(serialize(ready))))
  }

  /** `load_layer_metadata`: nothing for empty metadata or a keywords entry
      without the prefix, and nothing when any decoding step raises.
      `deserialize` stands for base64 decoding followed by `json.loads`. */
  function LoadMetadata(metadata: Dict, hook: Hook, deserialize: string -> Option<Value>, unb64: string -> Option<seq<int>>): (r: Option<Value>)
  {
    if metadata == [] then None
    else match Unframe(GetOr(metadata, KEYWORDS, VStr("")))
      case None => None
      case Some(payload) =>
        match deserialize(payload)
        case None => None
        case Some(data) =>
          match RestoreRoot(data, hook, unb64)
          case Ok(restored) => Some(restored)
          case Err(_) => None
  }

  /** Serialising only ever fails on raw bytes, and only with the
      as-written hook. */
  lemma {:induction false} ReadyFailsOnBytes(v: Value, hook: Hook, b64: seq<int> -> string)
    ensures Ready(v, hook, b64).Err? <==> hook == PixmapOnly && HasBytes(v)
    decreases v, 1
  {
    match v
    case VList(items) => ReadyItemsFailOnBytes(v, 0, hook, b64);
    case VDict(entries) => ReadyEntriesFailOnBytes(v, 0, hook, b64);
    case _ =>
  }

  lemma {:induction false} ReadyItemsFailOnBytes(v: Value, i: nat, hook: Hook, b64: seq<int> -> string)
    requires v.VList? && i <= |v.items|
    ensures ReadyItems(v, i, hook, b64).Err? <==>
      hook == PixmapOnly && exists j :: i <= j < |v.items| && HasBytes(v.items[j])
    decreases v, 0, |v.items| - i
  {
    if i < |v.items| {
      ReadyFailsOnBytes(v.items[i], hook, b64);
      ReadyItemsFailOnBytes(v, i + 1, hook, b64);
      if hook == PixmapOnly && exists j :: i <= j < |v.items| && HasBytes(v.items[j]) {
        var j :| i <= j < |v.items| && HasBytes(v.items[j]);
        assert j == i || (i + 1 <= j < |v.items| && HasBytes(v.items[j]));
      }
    }
  }

  lemma {:induction false} ReadyEntriesFailOnBytes(v: Value, i: nat, hook: Hook, b64: seq<int> -> string)
    requires v.VDict? && i <= |v.entries|
    ensures ReadyEntries(v, i, hook, b64).Err? <==>
      hook == PixmapOnly && exists j :: i <= j < |v.entries| && HasBytes(v.entries[j].1)
    decreases v, 0, |v.entries| - i
  {
    if i < |v.entries| {
      ReadyFailsOnBytes(v.entries[i].1, hook, b64);
      ReadyEntriesFailOnBytes(v, i + 1, hook, b64);
      if hook == PixmapOnly && exists j :: i <= j < |v.entries| && HasBytes(v.entries[j].1) {
        var j :| i <= j < |v.entries| && HasBytes(v.entries[j].1);
        assert j == i || (i + 1 <= j < |v.entries| && HasBytes(v.entries[j].1));
      }
    }
  }

  /** What is written is plain JSON: no pixmap and no bytes are left, and
      every dictionary keeps its keys. */
  lemma {:induction false} ReadyIsPlain(v: Value, hook: Hook, b64: seq<int> -> string)
    requires Ready(v, hook, b64).Ok?
    ensures Plain(Ready(v, hook, b64).value)
    ensures v.VDict? ==> Ready(v, hook, b64).value.VDict? && Keys(Ready(v, hook, b64).value.entries) == Keys(v.entries)
    decreases v, 1
  {
    match v
    case VList(items) => ReadyItemsPlain(v, 0, hook, b64);
    case VDict(entries) =>
      ReadyEntriesPlain(v, 0, hook, b64);
      assert entries[0..] == entries;
    case _ =>
  }

  lemma {:induction false} ReadyItemsPlain(v: Value, i: nat, hook: Hook, b64: seq<int> -> string)
    requires v.VList? && i <= |v.items| && ReadyItems(v, i, hook, b64).Ok?
    ensures forall j :: 0 <= j < |ReadyItems(v, i, hook, b64).value| ==> Plain(ReadyItems(v, i, hook, b64).value[j])
    decreases v, 0, |v.items| - i
  {
    if i < |v.items| {
      ReadyIsPlain(v.items[i], hook, b64);
      ReadyItemsPlain(v, i + 1, hook, b64);
    }
  }

  lemma {:induction false} ReadyEntriesPlain(v: Value, i: nat, hook: Hook, b64: seq<int> -> string)
    requires v.VDict? && i <= |v.entries| && ReadyEntries(v, i, hook, b64).Ok?
    ensures forall j :: 0 <= j < |ReadyEntries(v, i, hook, b64).value| ==> Plain(ReadyEntries(v, i, hook, b64).value[j].1)
    ensures Keys(ReadyEntries(v, i, hook, b64).value) == Keys(v.entries[i..])
    decreases v, 0, |v.entries| - i
  {
    if i < |v.entries| {
      ReadyIsPlain(v.entries[i].1, hook, b64);
      ReadyEntriesPlain(v, i + 1, hook, b64);
      assert v.entries[i..] == [v.entries[i]] + v.entries[i + 1..];
    }
  }

  /** Restoring undoes serialising: each pixmap (and, with the corrected
      hook, each byte string) comes back, provided base64 decoding inverts
      the encoding and no dictionary already used a reserved key. */
  lemma {:induction false} RestoreReady(v: Value, hook: Hook, b64: seq<int> -> string, unb64: string -> Option<seq<int>>)
    requires Clean(v) && Ready(v, hook, b64).Ok?
    requires forall b :: unb64(b64(b)) == Some(b)
    ensures Restore(Ready(v, hook, b64).value, hook, unb64) == Ok(v)
    decreases v, 1
  {
    match v
    case VPixmap(p) =>
      var rec := [(PIXMAP_B64_KEY, VStr(b64(PngEncode(p))))];
      assert Get(rec, PIXMAP_B64_KEY) == Some(VStr(b64(PngEncode(p))));
      PngRoundTrip(p);
    case VBytes(b) =>
      var rec := [(BYTES_B64_KEY, VStr(b64(b)))];
      assert !HasKey(rec, PIXMAP_B64_KEY) by {
        assert rec[1..] == [];
      }
      assert Get(rec, BYTES_B64_KEY) == Some(VStr(b64(b)));
    case VList(items) =>
      RestoreReadyItems(v, 0, hook, b64, unb64);
      assert items[0..] == items;
    case VDict(entries) =>
      var r := Ready(v, hook, b64).value;
      ReadyIsPlain(v, hook, b64);
      HasKeyKeys(entries, PIXMAP_B64_KEY);
      HasKeyKeys(r.entries, PIXMAP_B64_KEY);
      HasKeyKeys(entries, BYTES_B64_KEY);
      HasKeyKeys(r.entries, BYTES_B64_KEY);
      RestoreReadyEntries(v, 0, hook, b64, unb64);
      assert entries[0..] == entries;
    case _ =>
  }

  lemma {:induction false} RestoreReadyItems(v: Value, i: nat, hook: Hook, b64: seq<int> -> string, unb64: string -> Option<seq<int>>)
    requires v.VList? && i <= |v.items| && Clean(v) && ReadyItems(v, i, hook, b64).Ok?
    requires forall b :: unb64(b64(b)) == Some(b)
    ensures RestoreItems(VList(ReadyItems(v, i, hook, b64).value), 0, hook, unb64) == Ok(v.items[i..])
    decreases v, 0, |v.items| - i
  {
    var r := ReadyItems(v, i, hook, b64).value;
    if i == |v.items| {
      assert r == [];
    } else {
      var h := Ready(v.items[i], hook, b64).value;
      var t := ReadyItems(v, i + 1, hook, b64).value;
      assert r == [h] + t;
      RestoreReady(v.items[i], hook, b64, unb64);
      RestoreReadyItems(v, i + 1, hook, b64, unb64);
      RestoreItemsShift(h, t, hook, unb64);
      assert v.items[i..] == [v.items[i]] + v.items[i + 1..];
    }
  }

  /** Restoring the members after a first one. */
  lemma {:induction false} RestoreItemsShift(h: Value, t: seq<Value>, hook: Hook, unb64: string -> Option<seq<int>>)
    requires Restore(h, hook, unb64).Ok? && RestoreItems(VList(t), 0, hook, unb64).Ok?
    ensures RestoreItems(VList([h] + t), 0, hook, unb64) ==
      Ok([Restore(h, hook, unb64).value] + RestoreItems(VList(t), 0, hook, unb64).value)
  {
    RestoreItemsFrom(VList([h] + t), 1, VList(t), 0, hook, unb64);
  }

  /** Restoring the members from `i` on depends only on those members. */
  lemma {:induction false} RestoreItemsFrom(v: Value, i: nat, w: Value, j: nat, hook: Hook, unb64: string -> Option<seq<int>>)
    requires v.VList? && w.VList? && i <= |v.items| && j <= |w.items| && v.items[i..] == w.items[j..]
    ensures RestoreItems(v, i, hook, unb64) == RestoreItems(w, j, hook, unb64)
    decreases |v.items| - i
  {
    if i < |v.items| {
      assert v.items[i] == w.items[j];
      assert v.items[i + 1..] == w.items[j + 1..];
      RestoreItemsFrom(v, i + 1, w, j + 1, hook, unb64);
    }
  }


  lemma {:induction false} RestoreReadyEntries(v: Value, i: nat, hook: Hook, b64: seq<int> -> string, unb64: string -> Option<seq<int>>)
    requires v.VDict? && i <= |v.entries| && Clean(v) && ReadyEntries(v, i, hook, b64).Ok?
    requires forall b :: unb64(b64(b)) == Some(b)
    ensures RestoreEntries(VDict(ReadyEntries(v, i, hook, b64).value), 0, hook, unb64) == Ok(v.entries[i..])
    decreases v, 0, |v.entries| - i
  {
    var r := ReadyEntries(v, i, hook, b64).value;
    if i == |v.entries| {
      assert r == [];
    } else {
      var k := v.entries[i].0;
      var h := Ready(v.entries[i].1, hook, b64).value;
      var t := ReadyEntries(v, i + 1, hook, b64).value;
      assert r == [(k, h)] + t;
      RestoreReady(v.entries[i].1, hook, b64, unb64);
      RestoreReadyEntries(v, i + 1, hook, b64, unb64);
      RestoreEntriesFrom(VDict(r), 1, VDict(t), 0, hook, unb64);
      assert v.entries[i..] == [v.entries[i]] + v.entries[i + 1..];
    }
  }

  lemma {:induction false} RestoreEntriesFrom(v: Value, i: nat, w: Value, j: nat, hook: Hook, unb64: string -> Option<seq<int>>)
    requires v.VDict? && w.VDict? && i <= |v.entries| && j <= |w.entries| && v.entries[i..] == w.entries[j..]
    ensures RestoreEntries(v, i, hook, unb64) == RestoreEntries(w, j, hook, unb64)
    decreases |v.entries| - i
  {
    if i < |v.entries| {
      assert v.entries[i] == w.entries[j];
      assert v.entries[i + 1..] == w.entries[j + 1..];
      RestoreEntriesFrom(v, i + 1, w, j + 1, hook, unb64);
    }
  }

  /** Saving and then loading the metadata gives back the layer data,
      provided the JSON text codec round-trips plain values, base64 decoding
      inverts the encoding, no dictionary uses a reserved key and
      serialising does not raise. */
  lemma MetadataRoundTrip(metadata: Dict, data: Value, hook: Hook,
                          serialize: Value -> string, deserialize: string -> Option<Value>,
                          b64: seq<int> -> string, unb64: string -> Option<seq<int>>)
    requires data.VDict? && Clean(data) && Ready(data, hook, b64).Ok?
    requires forall x :: Plain(x) ==> deserialize(serialize(x)) == Some(x)
    requires forall b :: unb64(b64(b)) == Some(b)
    ensures LoadMetadata(SaveMetadata(metadata, data, hook, serialize, b64), hook, deserialize, unb64) == Some(data)
  {
    var ready := Ready(data, hook, b64).value;
    ReadyIsPlain(data, hook, b64);
    var saved := Put(metadata, KEYWORDS, VStr(Frame(serialize(ready))));
    GetPutSame(metadata, KEYWORDS, VStr(Frame(serialize(ready))));
    FrameRoundTrip(serialize(ready));
    RestoreReady(data, hook, b64, unb64);
  }

  /** A layer whose data holds an image at its top level is saved with the
      image's PNG bytes in its record, so the layer data holds raw bytes. */
  lemma {:induction false} ImageLayerHasBytes(s: Snapshot, i: nat, k: nat)
    requires i < |s.layers| && k < |s.layers[i].data| && s.layers[i].data[k].1.VPixmap?
    ensures HasBytes(VDict(ManagerToDict(s)))
  {
    var l := s.layers[i];
    EncodeDataAt(l.data, k);
    var data := VDict(EncodeData(l.data));
    var pixmapRecord := data.entries[k].1;
    assert HasBytes(pixmapRecord.entries[0].1);
    assert HasBytes(pixmapRecord);
    assert HasBytes(data);
    var layer := VDict(ToDict(l));
    assert layer.entries[8].1 == data;
    assert HasBytes(layer);
    var layers := VList(EncodeLayers(s.layers));
    assert layers.items[i] == layer;
    assert HasBytes(layers);
    assert VDict(ManagerToDict(s)).entries[0].1 == layers;
  }

  /** As written: once any layer holds an image, `json.dumps` raises on the
      bytes `LayerManager.to_dict` produced for it, the handler swallows the
      error and the document is saved without its layer metadata. */
  lemma ImageLayerLosesMetadata(metadata: Dict, s: Snapshot, i: nat, k: nat,
                                serialize: Value -> string, b64: seq<int> -> string)
    requires i < |s.layers| && k < |s.layers[i].data| && s.layers[i].data[k].1.VPixmap?
    ensures SaveMetadata(metadata, VDict(ManagerToDict(s)), PixmapOnly, serialize, b64) == metadata
  {
    ImageLayerHasBytes(s, i, k);
    ReadyFailsOnBytes(VDict(ManagerToDict(s)), PixmapOnly, b64);
  }

  /** Corrected: with a hook that also writes bytes, every layer saved in
      the metadata, images included, is restored on load. */
  lemma LayersSurviveMetadata(metadata: Dict, s: Snapshot, uuids: nat -> string,
                              serialize: Value -> string, deserialize: string -> Option<Value>,
                              b64: seq<int> -> string, unb64: string -> Option<seq<int>>)
    requires Clean(VDict(ManagerToDict(s))) && Restorable(s.layers)
    requires forall x :: Plain(x) ==> deserialize(serialize(x)) == Some(x)
    requires forall b :: unb64(b64(b)) == Some(b)
    ensures
      var loaded := LoadMetadata(SaveMetadata(metadata, VDict(ManagerToDict(s)), PixmapAndBytes, serialize, b64),
                                 PixmapAndBytes, deserialize, unb64);
      loaded.Some? && loaded.value.VDict?
      && ManagerFromDict(loaded.value.entries, uuids) == Ok(Snapshot(RestoredAll(s.layers), s.nextZ))
  {
    ReadyFailsOnBytes(VDict(ManagerToDict(s)), PixmapAndBytes, b64);
    MetadataRoundTrip(metadata, VDict(ManagerToDict(s)), PixmapAndBytes, serialize, deserialize, b64, unb64);
    ManagerRoundTrip(s, uuids);
  }
}
