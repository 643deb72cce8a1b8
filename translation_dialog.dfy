/** The style bookkeeping of the document translator
    (src/ui/translation_dialog.py): how a font name is read as a base-14
    family with bold and italic, the memo that keeps one style record per
    font name, how a text span's flag bits and colour are decoded, how a
    span is classed by its size, and how the font of a translated span is
    shrunk so that the longer text still fits its box. */
module TranslationDialog {
  import opened Common
  import opened Values

  // ---------------------------------------------------------------------
  // Font names

  /** The separators dropped from a font name before matching. */
  predicate IsSeparator(c: char) { c == '-' || c == '_' || c == ' ' }

  /** A font name lower-cased with '-', '_' and ' ' removed. Lower-casing
      never produces nor changes a separator, so doing both in one pass
      gives what lowering first and removing afterwards gives. */
  function Normalized(name: string): (r: string)
    ensures |r| <= |name|
    ensures forall i :: 0 <= i < |r| ==> !IsSeparator(r[i]) && !IsUpperAscii(r[i])
  {
    if name == [] then []
    else (if IsSeparator(name[0]) then [] else [LowerChar(name[0])]) + Normalized(name[1..])
  }

  /** Normalising a normalised name changes nothing. */
  lemma {:induction false} NormalizedIdempotent(name: string)
    ensures Normalized(Normalized(name)) == Normalized(name)
  {
    NormalFixed(Normalized(name));
  }

  lemma {:induction false} NormalFixed(s: string)
    requires forall i :: 0 <= i < |s| ==> !IsSeparator(s[i]) && !IsUpperAscii(s[i])
    ensures Normalized(s) == s
  {
    if s != [] {
      NormalFixed(s[1..]);
      assert [s[0]] + s[1..] == s;
    }
  }

  const BOLD_INDICATORS: seq<string> := ["bold", "black", "heavy", "demi", "semibold", "medium"]
  const ITALIC_INDICATORS: seq<string> := ["italic", "oblique", "inclined", "slanted"]

  predicate ContainsAny(s: string, words: seq<string>)
  {
    exists k :: 0 <= k < |words| && Contains(s, words[k])
  }

  /** `BASE_FONT_MAP` in declaration order: a name fragment and the
      base-14 family it stands for. */
  const BASE_FONT_MAP: seq<(string, string)> := [
    ("helv", "helv"), ("helvetica", "helv"), ("arial", "helv"),
    ("tiro", "tiro"), ("times", "tiro"), ("timesnewroman", "tiro"),
    ("cour", "cour"), ("courier", "cour"), ("couriernew", "cour"),
    ("symbol", "symb"), ("zapfdingbats", "zadb")]

  /** Index of the first entry from `from` on whose fragment occurs in
      `s`, or the number of entries when none does. */
  function FirstFragment(s: string, entries: seq<(string, string)>, from: nat): (k: nat)
    requires from <= |entries|
    decreases |entries| - from
    ensures from <= k <= |entries|
    ensures k < |entries| ==> Contains(s, entries[k].0)
    ensures forall j :: from <= j < k ==> !Contains(s, entries[j].0)
  {
    if from == |entries| then from
    else if Contains(s, entries[from].0) then from
    else FirstFragment(s, entries, from + 1)
  }

  /** The base family of a normalised name: the family of the first
      fragment in map order that occurs in it, and Helvetica when none
      does. */
  function BaseFont(norm: string): (base: string)
    ensures base in {"helv", "tiro", "cour", "symb", "zadb"}
    ensures var k := FirstFragment(norm, BASE_FONT_MAP, 0);
      (k == |BASE_FONT_MAP| ==> base == "helv")
      && (k < |BASE_FONT_MAP| ==> base == BASE_FONT_MAP[k].1)
  {
    var k := FirstFragment(norm, BASE_FONT_MAP, 0);
    if k < |BASE_FONT_MAP| then BASE_FONT_MAP[k].1 else "helv"
  }

  /** The three families that have bold and italic faces. */
  predicate Styled(base: string) { base == "helv" || base == "tiro" || base == "cour" }

  /** The family table as written: bold Helvetica is "hebo" whether or not
      the font is also italic, although the bold-italic branch means
      Helvetica Bold Oblique, whose base-14 name is "hebi". */
  function MappedFontAsWritten(base: string, bold: bool, italic: bool): string
  {
    if base == "helv" then
      (if bold && italic then "hebo" else if bold then "hebo" else if italic then "heit" else "helv")
    else MappedFont(base, bold, italic)
  }

  /** As written, a bold italic Helvetica comes out upright: the same face
      as a plain bold one. */
  lemma BoldItalicHelveticaLosesItalic()
    ensures MappedFontAsWritten("helv", true, true) == MappedFontAsWritten("helv", true, false) == "hebo"
  {
  }

  /** The family table with Helvetica Bold Oblique as "hebi": each styled
      family has a face for each of plain, bold, italic and bold italic;
      other families are used as they are. */
  function MappedFont(base: string, bold: bool, italic: bool): string
  {
    if base == "helv" then
      (if bold && italic then "hebi" else if bold then "hebo" else if italic then "heit" else "helv")
    else if base == "tiro" then
      (if bold && italic then "tibi" else if bold then "tibo" else if italic then "tiit" else "tiro")
    else if base == "cour" then
      (if bold && italic then "cobi" else if bold then "cobo" else if italic then "coit" else "cour")
    else base
  }

  /** For the styled families the face gives back the family, the weight
      and the slant: no two of the twelve combinations share a face. */
  lemma MappedFontDecodes(base1: string, bold1: bool, italic1: bool, base2: string, bold2: bool, italic2: bool)
    requires Styled(base1) && Styled(base2)
    requires MappedFont(base1, bold1, italic1) == MappedFont(base2, bold2, italic2)
    ensures base1 == base2 && bold1 == bold2 && italic1 == italic2
  {
    var f := MappedFont(base1, bold1, italic1);
    assert f[0] == MappedFont(base2, bold2, italic2)[0];
    assert f[2..] == MappedFont(base2, bold2, italic2)[2..];
  }

  /** The record `detect_font_style` returns. */
  datatype FontStyle = FontStyle(original: string, baseFont: string, mappedFont: string,
                                 isBold: bool, isItalic: bool)

  /** The style read off a font name. */
  function DetectStyle(name: string): FontStyle
  {
    var norm := Normalized(name);
    var bold := ContainsAny(norm, BOLD_INDICATORS);
    var italic := ContainsAny(norm, ITALIC_INDICATORS);
    var base := BaseFont(norm);
    FontStyle(name, base, MappedFont(base, bold, italic), bold, italic)
  }

  /** Names that differ only in case and separators have the same style,
      and the face is the family table applied to the detected weight and
      slant. */
  lemma DetectStyleBySpelling(a: string, b: string)
    requires Normalized(a) == Normalized(b)
    ensures DetectStyle(a) == DetectStyle(b).(original := a)
    ensures DetectStyle(a).mappedFont == MappedFont(DetectStyle(a).baseFont, DetectStyle(a).isBold, DetectStyle(a).isItalic)
  {
  }

  /** `FontStyleMapper`: a memo from font names to their style records. */
  class FontStyleMapper {
    var styleCache: map<string, FontStyle>

    /** Every remembered record is the one the name's own detection
        gives. */
    predicate Valid()
      reads this
    {
      forall n :: n in styleCache ==> styleCache[n] == DetectStyle(n)
    }

    constructor()
      ensures styleCache == map[] && Valid()
    {
      styleCache := map[];
    }

    /** `detect_font_style`: the remembered record when there is one,
        otherwise the detected one, remembered from now on. Either way the
        result is the name's own style, so repeated calls agree. */
    method DetectFontStyle(name: string) returns (style: FontStyle)
      requires Valid()
      modifies this
      ensures Valid()
      ensures style == DetectStyle(name)
      ensures styleCache == old(styleCache)[name := style]
    {
      if name in styleCache {
        style := styleCache[name];
        return;
      }
      style := DetectStyle(name);
      styleCache := styleCache[name := style];
    }

    /** `get_pymupdf_font`: the face of the name's style. */
    method GetPyMuPdfFont(name: string) returns (font: string)
      requires Valid()
      modifies this
      ensures Valid()
      ensures font == MappedFont(BaseFont(Normalized(name)), ContainsAny(Normalized(name), BOLD_INDICATORS),
                                 ContainsAny(Normalized(name), ITALIC_INDICATORS))
      ensures styleCache == old(styleCache)[name := DetectStyle(name)]
    {
      var style := DetectFontStyle(name);
      font := style.mappedFont;
    }
  }

  // ---------------------------------------------------------------------
  // Text spans

  /** The style bits of a span's `flags`. */
  datatype SpanStyle = SpanStyle(superscript: bool, italic: bool, serif: bool, monospace: bool, bold: bool)

  /** `flags & (1 << k)` is non-zero. Division by a power of two rounds
      down, so this is the two's-complement bit for negative flags too. */
  predicate Bit(flags: int, weight: nat)
    requires weight > 0
  {
    (flags / weight) % 2 == 1
  }

  /** Bit 0 superscript, bit 1 italic, bit 2 serif, bit 3 monospace, bit 4
      bold. */
  function DecodeFlags(flags: int): SpanStyle
  {
    SpanStyle(Bit(flags, 1), Bit(flags, 2), Bit(flags, 4), Bit(flags, 8), Bit(flags, 16))
  }

  /** The flags word that carries exactly the given style bits. */
  function EncodeFlags(s: SpanStyle): (flags: nat)
    ensures flags < 32
  {
    (if s.superscript then 1 else 0) + (if s.italic then 2 else 0) + (if s.serif then 4 else 0)
    + (if s.monospace then 8 else 0) + (if s.bold then 16 else 0)
  }

  /** Decoding reads back every bit that was set, and no other. */
  lemma DecodeEncode(s: SpanStyle)
    ensures DecodeFlags(EncodeFlags(s)) == s
  {
  }

  /** Bits above the fifth do not change the style. */
  lemma DecodeLowBits(flags: int, high: int)
    ensures DecodeFlags(flags + 32 * high) == DecodeFlags(flags)
  {
    BitShift(flags, 1, 16 * high);
    BitShift(flags, 2, 8 * high);
    BitShift(flags, 4, 4 * high);
    BitShift(flags, 8, 2 * high);
    BitShift(flags, 16, high);
  }

  /** Adding an even multiple of the weight leaves that bit alone. */
  lemma BitShift(flags: int, weight: nat, m: int)
    requires weight > 0
    ensures Bit(flags + weight * (2 * m), weight) == Bit(flags, weight)
  {
    DivAdd(flags, weight, 2 * m);
    DivAdd(flags / weight, 2, m);
  }

  lemma DivAdd(x: int, d: nat, k: int)
    requires d > 0
    ensures (x + d * k) / d == x / d + k && (x + d * k) % d == x % d
  {
    var q, r := x / d, x % d;
    assert x == d * q + r;
    assert x + d * k == d * (q + k) + r;
    assert 0 <= r < d;
    DivUnique(x + d * k, d, q + k, r);
  }
  lemma DivUnique(y: int, d: nat, q: int, r: int)
    requires d > 0 && 0 <= r < d && y == d * q + r
    ensures y / d == q && y % d == r
  {
    var q', r' := y / d, y % d;
    assert y == d * q' + r';
    if q' > q {
      assert d * q' >= d * (q + 1) by { MulMono(d, q + 1, q'); }
    } else if q' < q {
      assert d * q >= d * (q' + 1) by { MulMono(d, q' + 1, q); }
    }
  }
  lemma MulMono(d: nat, a: int, b: int)
    requires a <= b
    ensures d * a <= d * b
  {
    assert d * b - d * a == d * (b - a);
  }

  /** The style bits of a span, from its "flags" entry (0 when missing). A
      bool is an int in Python; anything else cannot be masked. */
  function SpanFlags(span: Dict): (r: Result<SpanStyle>)
    ensures r.Err? ==> r.error == TypeError
  {
    match GetOr(span, "flags", VInt(0))
    case VInt(f) => Ok(DecodeFlags(f))
    case VBool(b) => Ok(DecodeFlags(if b then 1 else 0))
    case _ => Err(TypeError)
  }

  /** One colour channel: a byte of the packed colour, as a fraction of
      255. */
  function Channel(c: int): real
  {
    ((c % 256) as real) / 255.0
  }

  /** The span's colour as an RGB triple: an integer (a bool included) is
      unpacked as 0xRRGGBB, anything else is black. */
  function ColorTuple(color: Value): (real, real, real)
  {
    match color
    case VInt(c) => (Channel(c / 65536), Channel(c / 256), Channel(c))
    case VBool(b) => (0.0, 0.0, Channel(if b then 1 else 0))
    case _ => (0.0, 0.0, 0.0)
  }

  /** The span's colour from its "color" entry, 0 when missing. */
  function SpanColor(span: Dict): (real, real, real)
  {
    ColorTuple(GetOr(span, "color", VInt(0)))
  }

  /** A packed colour unpacks to its three bytes, each over 255. */
  lemma ColorRoundTrip(r: nat, g: nat, b: nat)
    requires r < 256 && g < 256 && b < 256
    ensures ColorTuple(VInt(r * 65536 + g * 256 + b)) == (r as real / 255.0, g as real / 255.0, b as real / 255.0)
  {
    SplitAt65536(r, g * 256 + b);
    SplitAt256(r * 256 + g, b);
    SplitAt256(r, g);
    SplitAt256(0, r);
  }

  /** Every channel of every colour lies between 0 and 1. */
  lemma ColorInUnitCube(color: Value)
    ensures var t := ColorTuple(color);
      0.0 <= t.0 <= 1.0 && 0.0 <= t.1 <= 1.0 && 0.0 <= t.2 <= 1.0
  {
  }

  // ---------------------------------------------------------------------
  // Section classes

  datatype SectionType = Title | Heading | Subheading | Body | Caption

  /** `classify_section_type`: by the ratio of the span's size to the
      page's average size, 1 when the average is not positive. The page
      height is not used. */
  function ClassifySection(fontSize: real, avgFontSize: real): SectionType
  {
    var ratio := if avgFontSize > 0.0 then fontSize / avgFontSize else 1.0;
    if ratio >= 1.8 then Title
    else if ratio >= 1.4 then Heading
    else if ratio >= 1.15 then Subheading
    else if ratio <= 0.85 then Caption
    else Body
  }

  /** The classes in order of size. */
  function Rank(t: SectionType): nat
  {
    match t
    case Caption => 0
    case Body => 1
    case Subheading => 2
    case Heading => 3
    case Title => 4
  }

  /** On one page a larger span never gets a smaller class, and without a
      positive average every span is body text. */
  lemma ClassifyMonotone(size1: real, size2: real, avgFontSize: real)
    requires size1 <= size2
    ensures Rank(ClassifySection(size1, avgFontSize)) <= Rank(ClassifySection(size2, avgFontSize))
    ensures avgFontSize <= 0.0 ==> ClassifySection(size1, avgFontSize) == Body
  {
    if avgFontSize > 0.0 {
      assert size1 / avgFontSize <= size2 / avgFontSize;
    }
  }

  // ---------------------------------------------------------------------
  // Replacement font

  /** The face a translated span is written in. When the span's own flags
      say bold or italic, the weight and slant are those of the flags or
      of the name, and a styled family takes the face for them; otherwise
      the name's own face is used. */
  function ReplacementFont(name: string, span: SpanStyle): (r: (string, bool, bool))
  {
    var style := DetectStyle(name);
    if span.bold || span.italic then
      var bold := span.bold || style.isBold;
      var italic := span.italic || style.isItalic;
      (if Styled(style.baseFont) then MappedFont(style.baseFont, bold, italic) else style.mappedFont, bold, italic)
    else (style.mappedFont, span.bold, span.italic)
  }

  /** Whichever way it is reached, the face is the family table applied
      to the weight and slant of the flags or the name. */
  lemma ReplacementFontIsTable(name: string, span: SpanStyle)
    ensures var style := DetectStyle(name);
      ReplacementFont(name, span).0
      == MappedFont(style.baseFont, span.bold || style.isBold, span.italic || style.isItalic)
  {
  }

  // ---------------------------------------------------------------------
  // Font size of the translation

  /** `_calculate_text_width`: half the font size per character. */
  function EstimatedWidth(text: string, fontSize: real): real
  {
    |text| as real * fontSize * 0.5
  }

  /** The shrink rule: when the estimated width of the translation exceeds
      the span's box by more than 10%, the size is scaled by box over
      estimate, but by no less than 0.6. A zero estimate can only exceed a
      negative width, and then the division raises. */
  function AdjustedSize(text: string, fontSize: real, boxWidth: real): (r: Result<real>)
    ensures r.Err? ==> r.error == ZeroDivisionError
  {
    var estimate := EstimatedWidth(text, fontSize);
    if estimate > boxWidth * 1.1 then
      if estimate == 0.0 then Err(ZeroDivisionError)
      else Ok(fontSize * MaxR(boxWidth / estimate, 0.6))
    else Ok(fontSize)
  }

  /** With a positive size and a box of non-negative width the rule never
      fails, never grows the font and never shrinks it below 0.6 of its
      size; and the translation then fits the box within the 10% tolerance
      unless the 0.6 floor stopped the shrinking. */
  lemma AdjustedSizeFits(text: string, fontSize: real, boxWidth: real)
    requires fontSize > 0.0 && boxWidth >= 0.0
    ensures AdjustedSize(text, fontSize, boxWidth).Ok?
    ensures var size := AdjustedSize(text, fontSize, boxWidth).value;
      0.6 * fontSize <= size <= fontSize
      && (EstimatedWidth(text, size) <= boxWidth * 1.1 || size == 0.6 * fontSize)
  {
    var estimate := EstimatedWidth(text, fontSize);
    if estimate > boxWidth * 1.1 {
      var f := boxWidth / estimate;
      assert f * estimate == boxWidth;
      assert 0.0 <= boxWidth < estimate;
      if f >= 1.0 {
        assert f * estimate >= 1.0 * estimate;
      }
      if f >= 0.6 {
        var size := fontSize * f;
        assert EstimatedWidth(text, size) == f * estimate;
      }
    }
  }
}
