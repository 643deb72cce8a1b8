/** The text selection tool (src/tools/text_selection_tool.py): a drag over
    a page selects the text spans that meet the dragged box, keeping each
    span's rectangle and the spans' text, from which a highlight, underline
    or strikethrough annotation can then be made.

    The page's text is PyMuPDF's `get_text("dict", clip=…)` result; here it
    arrives as a parameter, already cut down to the blocks, lines and spans
    that call reports, or None when there is no document or no such page. */
module TextSelection {
  import opened Common
  import opened Values
  import opened InteractiveLayers
  import opened BaseTools

  datatype AnnotationKind = Highlight | Underline | Strikethrough

  function KindValue(k: AnnotationKind): string
  {
    match k
    case Highlight => "highlight"
    case Underline => "underline"
    case Strikethrough => "strikethrough"
  }

  // ---------------------------------------------------------------------
  // The page's text

  /** A `fitz.Rect`, given by its corners. */
  datatype Box = Box(x0: real, y0: real, x1: real, y1: real)

  /** `Rect.is_empty`: no area. */
  predicate IsEmpty(b: Box) { b.x0 >= b.x1 || b.y0 >= b.y1 }

  /** `Rect.intersects`: both boxes have area and so does their overlap. */
  predicate Intersects(a: Box, b: Box)
  {
    !IsEmpty(a) && !IsEmpty(b)
    && MaxR(a.x0, b.x0) < MinR(a.x1, b.x1) && MaxR(a.y0, b.y0) < MinR(a.y1, b.y1)
  }

  datatype Span = Span(bbox: Box, text: string)
  datatype TextLine = TextLine(spans: seq<Span>)
  /** A block of type 0 holds text; other types (images) hold no lines the
      tool reads. */
  datatype Block = Block(btype: int, lines: seq<TextLine>)

  /** The dragged box, normalised: smaller corner first. */
  function SelectionBox(a: Point, b: Point): (r: Box)
    ensures r.x0 <= r.x1 && r.y0 <= r.y1
    ensures !IsEmpty(r) <==> a.x != b.x && a.y != b.y
  {
    Box(MinR(a.x, b.x), MinR(a.y, b.y), MaxR(a.x, b.x), MaxR(a.y, b.y))
  }

  /** The `QRectF` kept for a span: its corner and size. */
  function SpanRect(s: Span): Rect
  {
    Rect(s.bbox.x0, s.bbox.y0, s.bbox.x1 - s.bbox.x0, s.bbox.y1 - s.bbox.y0)
  }

  /** The spans of one line that meet the selection, in order. */
  function PickedInLine(sel: Box, spans: seq<Span>): (r: seq<Span>)
    ensures |r| <= |spans|
  {
    if spans == [] then []
    else
      var rest := PickedInLine(sel, spans[..|spans| - 1]);
      if Intersects(sel, spans[|spans| - 1].bbox) then rest + [spans[|spans| - 1]] else rest
  }

  function PickedInLines(sel: Box, lines: seq<TextLine>): seq<Span>
  {
    if lines == [] then []
    else PickedInLines(sel, lines[..|lines| - 1]) + PickedInLine(sel, lines[|lines| - 1].spans)
  }

  /** Every span of every text block that meets the selection, in reading
      order. */
  function Picked(sel: Box, blocks: seq<Block>): seq<Span>
  {
    if blocks == [] then []
    else
      var rest := Picked(sel, blocks[..|blocks| - 1]);
      var b := blocks[|blocks| - 1];
      if b.btype == 0 then rest + PickedInLines(sel, b.lines) else rest
  }

  function RectsOf(spans: seq<Span>): (r: seq<Rect>)
    ensures |r| == |spans|
  {
    if spans == [] then [] else RectsOf(spans[..|spans| - 1]) + [SpanRect(spans[|spans| - 1])]
  }

  /** Each span's text followed by a space. */
  function TextOf(spans: seq<Span>): string
  {
    if spans == [] then [] else TextOf(spans[..|spans| - 1]) + spans[|spans| - 1].text + " "
  }

  lemma {:induction false} RectsOfAppend(a: seq<Span>, b: seq<Span>)
    ensures RectsOf(a + b) == RectsOf(a) + RectsOf(b)
  {
    if b != [] {
      assert (a + b)[..|a + b| - 1] == a + b[..|b| - 1];
      assert (a + b)[|a + b| - 1] == b[|b| - 1];
      RectsOfAppend(a, b[..|b| - 1]);
    } else {
      assert a + b == a;
    }
  }

  lemma {:induction false} TextOfAppend(a: seq<Span>, b: seq<Span>)
    ensures TextOf(a + b) == TextOf(a) + TextOf(b)
  {
    if b != [] {
      var init, last := b[..|b| - 1], b[|b| - 1];
      assert (a + b)[..|a + b| - 1] == a + init;
      assert (a + b)[|a + b| - 1] == last;
      TextOfAppend(a, init);
      calc {
        TextOf(a + b);
        TextOf(a + init) + last.text + " ";
        TextOf(a) + TextOf(init) + last.text + " ";
        TextOf(a) + (TextOf(init) + last.text + " ");
      }
    } else {
      assert a + b == a;
    }
  }

  /** The rectangle kept for span k is that span's. */
  lemma {:induction false} RectsOfAt(spans: seq<Span>, k: nat)
    requires k < |spans|
    ensures RectsOf(spans)[k] == SpanRect(spans[k])
  {
    if k < |spans| - 1 {
      RectsOfAt(spans[..|spans| - 1], k);
    }
  }

  lemma {:induction false} PickedInLineMeans(sel: Box, spans: seq<Span>, s: Span)
    ensures s in PickedInLine(sel, spans) <==> s in spans && Intersects(sel, s.bbox)
  {
    if spans != [] {
      PickedInLineMeans(sel, spans[..|spans| - 1], s);
      assert spans == spans[..|spans| - 1] + [spans[|spans| - 1]];
    }
  }

  lemma {:induction false} PickedInLinesMeans(sel: Box, lines: seq<TextLine>, s: Span)
    ensures s in PickedInLines(sel, lines) <==>
      Intersects(sel, s.bbox) && exists j :: 0 <= j < |lines| && s in lines[j].spans
  {
    if lines != [] {
      var init := lines[..|lines| - 1];
      PickedInLinesMeans(sel, init, s);
      PickedInLineMeans(sel, lines[|lines| - 1].spans, s);
      if s in PickedInLines(sel, lines) && s !in PickedInLine(sel, lines[|lines| - 1].spans) {
        var j :| 0 <= j < |init| && s in init[j].spans;
        assert lines[j] == init[j];
      }
      if Intersects(sel, s.bbox) && exists j :: 0 <= j < |lines| && s in lines[j].spans {
        var j :| 0 <= j < |lines| && s in lines[j].spans;
        if j < |init| {
          assert init[j] == lines[j];
        }
      }
    }
  }

  /** A span is selected exactly when it lies in a text block of the page
      and meets the dragged box. */
  lemma {:induction false} PickedMeans(sel: Box, blocks: seq<Block>, s: Span)
    ensures s in Picked(sel, blocks) <==>
      Intersects(sel, s.bbox)
      && exists i, j :: 0 <= i < |blocks| && blocks[i].btype == 0 && 0 <= j < |blocks[i].lines|
                        && s in blocks[i].lines[j].spans
  {
    if blocks != [] {
      var init := blocks[..|blocks| - 1];
      var b := blocks[|blocks| - 1];
      PickedMeans(sel, init, s);
      PickedInLinesMeans(sel, b.lines, s);
      if s in Picked(sel, blocks) && !(b.btype == 0 && s in PickedInLines(sel, b.lines)) {
        var i, j :| 0 <= i < |init| && init[i].btype == 0 && 0 <= j < |init[i].lines| && s in init[i].lines[j].spans;
        assert blocks[i] == init[i];
      }
      if Intersects(sel, s.bbox)
         && exists i, j :: 0 <= i < |blocks| && blocks[i].btype == 0 && 0 <= j < |blocks[i].lines|
                           && s in blocks[i].lines[j].spans {
        var i, j :| 0 <= i < |blocks| && blocks[i].btype == 0 && 0 <= j < |blocks[i].lines|
                    && s in blocks[i].lines[j].spans;
        if i < |init| {
          assert init[i] == blocks[i];
        }
      }
    }
  }

  /** Every kept rectangle has area: a span with none meets nothing. */
  lemma SelectedRectsHaveArea(sel: Box, blocks: seq<Block>)
    ensures forall r :: r in RectsOf(Picked(sel, blocks)) ==> r.w > 0.0 && r.h > 0.0
  {
    var p := Picked(sel, blocks);
    forall r | r in RectsOf(p)
      ensures r.w > 0.0 && r.h > 0.0
    {
      var k :| 0 <= k < |RectsOf(p)| && RectsOf(p)[k] == r;
      RectsOfAt(p, k);
      PickedMeans(sel, blocks, p[k]);
    }
  }

  // ---------------------------------------------------------------------
  // The collecting loops of `_update_selection`

  method CollectLine(sel: Box, spans: seq<Span>, rects0: seq<Rect>, text0: string)
    returns (rects: seq<Rect>, text: string)
    ensures rects == rects0 + RectsOf(PickedInLine(sel, spans))
    ensures text == text0 + TextOf(PickedInLine(sel, spans))
  {
    rects, text := rects0, text0;
    var k := 0;
    while k < |spans|
      invariant 0 <= k <= |spans|
      invariant rects == rects0 + RectsOf(PickedInLine(sel, spans[..k]))
      invariant text == text0 + TextOf(PickedInLine(sel, spans[..k]))
    {
      assert spans[..k + 1][..k] == spans[..k];
      var s := spans[k];
      if Intersects(sel, s.bbox) {
        RectsOfAppend(PickedInLine(sel, spans[..k]), [s]);
        TextOfAppend(PickedInLine(sel, spans[..k]), [s]);
        rects := rects + [SpanRect(s)];
        text := text + s.text + " ";
      }
      k := k + 1;
    }
    assert spans[..k] == spans;
  }

  /** One more line extends what the line loop has collected by that
      line's spans. */
  lemma LinesStep(sel: Box, lines: seq<TextLine>, j: nat, rects0: seq<Rect>, text0: string)
    requires j < |lines|
    ensures rects0 + RectsOf(PickedInLines(sel, lines[..j])) + RectsOf(PickedInLine(sel, lines[j].spans))
            == rects0 + RectsOf(PickedInLines(sel, lines[..j + 1]))
    ensures text0 + TextOf(PickedInLines(sel, lines[..j])) + TextOf(PickedInLine(sel, lines[j].spans))
            == text0 + TextOf(PickedInLines(sel, lines[..j + 1]))
  {
    var before, here := PickedInLines(sel, lines[..j]), PickedInLine(sel, lines[j].spans);
    assert PickedInLines(sel, lines[..j + 1]) == before + here by {
      assert lines[..j + 1][..j] == lines[..j];
    }
    RectsOfAppend(before, here);
    TextOfAppend(before, here);
  }

  method CollectLines(sel: Box, lines: seq<TextLine>, rects0: seq<Rect>, text0: string)
    returns (rects: seq<Rect>, text: string)
    ensures rects == rects0 + RectsOf(PickedInLines(sel, lines))
    ensures text == text0 + TextOf(PickedInLines(sel, lines))
  {
    rects, text := rects0, text0;
    var j := 0;
    while j < |lines|
      invariant 0 <= j <= |lines|
      invariant rects == rects0 + RectsOf(PickedInLines(sel, lines[..j]))
      invariant text == text0 + TextOf(PickedInLines(sel, lines[..j]))
    {
      LinesStep(sel, lines, j, rects0, text0);
      rects, text := CollectLine(sel, lines[j].spans, rects, text);
      j := j + 1;
    }
    assert lines[..j] == lines;
  }

  /** The loop over the page's blocks: text blocks only. */
  method CollectBlocks(sel: Box, blocks: seq<Block>) returns (rects: seq<Rect>, text: string)
    ensures rects == RectsOf(Picked(sel, blocks))
    ensures text == TextOf(Picked(sel, blocks))
  {
    rects, text := [], "";
    var i := 0;
    while i < |blocks|
      invariant 0 <= i <= |blocks|
      invariant rects == RectsOf(Picked(sel, blocks[..i]))
      invariant text == TextOf(Picked(sel, blocks[..i]))
    {
      assert blocks[..i + 1][..i] == blocks[..i];
      if blocks[i].btype == 0 {
        assert Picked(sel, blocks[..i + 1]) == Picked(sel, blocks[..i]) + PickedInLines(sel, blocks[i].lines);
        RectsOfAppend(Picked(sel, blocks[..i]), PickedInLines(sel, blocks[i].lines));
        TextOfAppend(Picked(sel, blocks[..i]), PickedInLines(sel, blocks[i].lines));
        rects, text := CollectLines(sel, blocks[i].lines, rects, text);
      }
      i := i + 1;
    }
    assert blocks[..i] == blocks;
  }

  // ---------------------------------------------------------------------
  // The tool

  const HIGHLIGHT_COLOR: string := "#FFFF00"
  const UNDERLINE_COLOR: string := "#000000"
  const STRIKETHROUGH_COLOR: string := "#FF0000"

  class TextSelectionTool {
    const base: BaseTool
    var isSelecting: bool
    var start: Option<Point>
    var current: Option<Point>
    var selectedRects: seq<Rect>
    var selectedText: string
    var hasSelection: bool
    var annotationKind: AnnotationKind
    var highlightColor: string
    var underlineColor: string
    var strikethroughColor: string
    var currentPage: int

    /** A finished selection holds rectangles, and no drag is under way
        while one stands. */
    predicate Valid()
      reads this
    {
      hasSelection ==> selectedRects != [] && !isSelecting
    }

    constructor()
      ensures fresh(base) && base.toolType == Select && base.Settings() == DEFAULT_SETTINGS
      ensures !isSelecting && start == None && current == None
      ensures selectedRects == [] && selectedText == "" && !hasSelection
      ensures annotationKind == Highlight && highlightColor == HIGHLIGHT_COLOR
      ensures underlineColor == UNDERLINE_COLOR && strikethroughColor == STRIKETHROUGH_COLOR
      ensures currentPage == 0
      ensures Valid()
    {
      base := new BaseTool(Select);
      isSelecting := false;
      start, current := None, None;
      selectedRects, selectedText := [], "";
      hasSelection := false;
      annotationKind := Highlight;
      highlightColor, underlineColor, strikethroughColor := HIGHLIGHT_COLOR, UNDERLINE_COLOR, STRIKETHROUGH_COLOR;
      currentPage := 0;
    }

    method SetAnnotationKind(k: AnnotationKind)
      modifies this
      ensures annotationKind == k
      ensures isSelecting == old(isSelecting) && start == old(start) && current == old(current)
      ensures selectedRects == old(selectedRects) && selectedText == old(selectedText)
      ensures hasSelection == old(hasSelection) && highlightColor == old(highlightColor)
      ensures underlineColor == old(underlineColor) && strikethroughColor == old(strikethroughColor)
      ensures currentPage == old(currentPage)
    {
      annotationKind := k;
    }

    method SetHighlightColor(c: string)
      modifies this
      ensures highlightColor == c
      ensures isSelecting == old(isSelecting) && start == old(start) && current == old(current)
      ensures selectedRects == old(selectedRects) && selectedText == old(selectedText)
      ensures hasSelection == old(hasSelection) && annotationKind == old(annotationKind)
      ensures underlineColor == old(underlineColor) && strikethroughColor == old(strikethroughColor)
      ensures currentPage == old(currentPage)
    {
      highlightColor := c;
    }

    /** A left press starts a new selection on the page, dropping the old
        one. */
    method MousePress(button: MouseButton, page: int, pos: Point) returns (handled: bool)
      requires Valid()
      modifies this
      ensures Valid()
      ensures handled <==> button == LeftButton
      ensures handled ==>
        isSelecting && start == Some(pos) && current == Some(pos) && currentPage == page
        && selectedRects == [] && selectedText == "" && !hasSelection
      ensures !handled ==>
        isSelecting == old(isSelecting) && start == old(start) && current == old(current)
        && currentPage == old(currentPage) && selectedRects == old(selectedRects)
        && selectedText == old(selectedText) && hasSelection == old(hasSelection)
      ensures annotationKind == old(annotationKind) && highlightColor == old(highlightColor)
      ensures underlineColor == old(underlineColor) && strikethroughColor == old(strikethroughColor)
    {
      if button == LeftButton {
        isSelecting := true;
        start, current := Some(pos), Some(pos);
        currentPage := page;
        selectedRects, selectedText := [], "";
        hasSelection := false;
        return true;
      }
      return false;
    }

    /** `_update_selection`: with a page and both corners set, the selection
        becomes the spans meeting the dragged box; otherwise it stays. */
    method UpdateSelection(pageText: Option<seq<Block>>)
      modifies this
      ensures pageText.Some? && IsSet(start) && IsSet(current) ==>
        var p := Picked(SelectionBox(start.value, current.value), pageText.value);
        selectedRects == RectsOf(p) && selectedText == TextOf(p)
      ensures !(pageText.Some? && IsSet(start) && IsSet(current)) ==>
        selectedRects == old(selectedRects) && selectedText == old(selectedText)
      ensures isSelecting == old(isSelecting) && start == old(start) && current == old(current)
      ensures hasSelection == old(hasSelection) && currentPage == old(currentPage)
      ensures annotationKind == old(annotationKind) && highlightColor == old(highlightColor)
      ensures underlineColor == old(underlineColor) && strikethroughColor == old(strikethroughColor)
    {
      if pageText.None? || !IsSet(start) || !IsSet(current) {
        return;
      }
      selectedRects, selectedText := CollectBlocks(SelectionBox(start.value, current.value), pageText.value);
    }

    /** While selecting, a move drags the free corner and reselects. */
    method MouseMove(page: int, pos: Point, pageText: Option<seq<Block>>) returns (handled: bool)
      requires Valid()
      modifies this
      ensures Valid()
      ensures isSelecting == old(isSelecting) && start == old(start) && hasSelection == old(hasSelection)
      ensures handled == (isSelecting && IsSet(start))
      ensures handled ==> current == Some(pos)
      ensures handled && pageText.Some? && IsSet(current) ==> (
        var p := Picked(SelectionBox(start.value, pos), pageText.value);
        selectedRects == RectsOf(p) && selectedText == TextOf(p))
      ensures !handled || pageText.None? ==> selectedRects == old(selectedRects) && selectedText == old(selectedText)
      ensures !handled ==> current == old(current)
      ensures currentPage == old(currentPage) && annotationKind == old(annotationKind)
      ensures highlightColor == old(highlightColor)
      ensures underlineColor == old(underlineColor) && strikethroughColor == old(strikethroughColor)
    {
      if isSelecting && IsSet(start) {
        current := Some(pos);
        UpdateSelection(pageText);
        return true;
      }
      return false;
    }

    /** A left release ends the drag at the release point and reselects;
        the selection stands when it holds any rectangle. The release is
        handled whether or not anything was selected. */
    method MouseRelease(button: MouseButton, page: int, pos: Point, pageText: Option<seq<Block>>)
      returns (handled: bool)
      requires Valid()
      modifies this
      ensures Valid()
      ensures handled <==> button == LeftButton && old(isSelecting)
      ensures handled ==>
        !isSelecting && current == Some(pos)
        && hasSelection == (selectedRects != [])
      ensures handled && pageText.Some? && IsSet(start) && pos != Point(0.0, 0.0) ==>
        var p := Picked(SelectionBox(start.value, pos), pageText.value);
        selectedRects == RectsOf(p) && selectedText == TextOf(p)
      ensures !handled ==>
        isSelecting == old(isSelecting) && current == old(current) && hasSelection == old(hasSelection)
        && selectedRects == old(selectedRects) && selectedText == old(selectedText)
      ensures start == old(start) && currentPage == old(currentPage) && annotationKind == old(annotationKind)
      ensures highlightColor == old(highlightColor)
      ensures underlineColor == old(underlineColor) && strikethroughColor == old(strikethroughColor)
    {
      if button == LeftButton && isSelecting {
        isSelecting := false;
        current := Some(pos);
        UpdateSelection(pageText);
        if selectedRects != [] {
          hasSelection := true;
        }
        return true;
      }
      return false;
    }

    /** `has_active_selection`: under the invariant the length test adds
        nothing to the flag. */
    function HasActiveSelection(): (r: bool)
      reads this
      ensures r ==> selectedRects != []
      ensures Valid() ==> (r <==> hasSelection)
    {
      hasSelection && |selectedRects| > 0
    }

    /** `get_selected_text`: the collected text without its surrounding
        whitespace. */
    function SelectedText(): string
      reads this
    {
      Strip(selectedText)
    }

    /** `_get_annotation_color`. */
    function AnnotationColor(): (c: string)
      reads this
      ensures annotationKind == Highlight ==> c == highlightColor
      ensures annotationKind == Underline ==> c == underlineColor
      ensures annotationKind == Strikethrough ==> c == strikethroughColor
    {
      match annotationKind
      case Highlight => highlightColor
      case Underline => underlineColor
      case Strikethrough => strikethroughColor
    }

    /** `create_annotation_layer`: nothing without rectangles; otherwise
        the kind, one `(x, y, w, h)` per rectangle, the kind's colour and
        the stripped text. */
    function CreateAnnotation(): (r: Option<Dict>)
      reads this
      ensures r.None? <==> selectedRects == []
      ensures r.Some? ==> r.value == AnnotationData(annotationKind, selectedRects, AnnotationColor(), SelectedText())
    {
      if selectedRects == [] then None
      else Some(AnnotationData(annotationKind, selectedRects, AnnotationColor(), SelectedText()))
    }

    /** `clear_selection`. */
    method ClearSelection()
      modifies this
      ensures selectedRects == [] && selectedText == "" && start == None && current == None
      ensures !isSelecting && !hasSelection
      ensures annotationKind == old(annotationKind) && highlightColor == old(highlightColor)
      ensures underlineColor == old(underlineColor) && strikethroughColor == old(strikethroughColor)
      ensures currentPage == old(currentPage)
      ensures Valid()
    {
      selectedRects, selectedText := [], "";
      start, current := None, None;
      isSelecting, hasSelection := false, false;
    }
  }

  /** The annotation record: its keys in order, each holding what was
      given. */
  function AnnotationData(k: AnnotationKind, rs: seq<Rect>, color: string, text: string): (d: Dict)
    ensures Keys(d) == ["type", "rects", "color", "text"]
  {
    [("type", VStr(KindValue(k))), ("rects", VList(RectValues(rs))), ("color", VStr(color)), ("text", VStr(text))]
  }

  lemma AnnotationDataGet(k: AnnotationKind, rs: seq<Rect>, color: string, text: string)
    ensures var d := AnnotationData(k, rs, color, text);
      GetOr(d, "type", VNone) == VStr(KindValue(k)) && GetOr(d, "rects", VNone) == VList(RectValues(rs))
      && GetOr(d, "color", VNone) == VStr(color) && GetOr(d, "text", VNone) == VStr(text)
  {
    var d := AnnotationData(k, rs, color, text);
    assert Get(d[3..], "text") == Some(VStr(text));
    assert Get(d[2..], "text") == Some(VStr(text));
    assert Get(d[1..], "text") == Some(VStr(text));
    assert Get(d[2..], "color") == Some(VStr(color));
    assert Get(d[1..], "color") == Some(VStr(color));
    assert Get(d[1..], "rects") == Some(VList(RectValues(rs)));
  }

  /** Each kept rectangle as the tuple `(x, y, w, h)`. */
  function RectValues(rs: seq<Rect>): (r: seq<Value>)
    ensures |r| == |rs|
    ensures forall k :: 0 <= k < |rs| ==>
      r[k] == VList([VReal(rs[k].x), VReal(rs[k].y), VReal(rs[k].w), VReal(rs[k].h)])
  {
    seq(|rs|, k requires 0 <= k < |rs| => VList([VReal(rs[k].x), VReal(rs[k].y), VReal(rs[k].w), VReal(rs[k].h)]))
  }

  /** An annotation made right after a selection holds one entry per
      selected span, each meeting the dragged box. */
  lemma AnnotationCoversSelection(t: TextSelectionTool, sel: Box, blocks: seq<Block>)
    requires t.selectedRects == RectsOf(Picked(sel, blocks)) && t.selectedRects != []
    ensures t.CreateAnnotation().Some?
    ensures var d := t.CreateAnnotation().value;
      GetOr(d, "rects", VNone) == VList(RectValues(RectsOf(Picked(sel, blocks))))
      && GetOr(d, "type", VNone) == VStr(KindValue(t.annotationKind))
      && GetOr(d, "color", VNone) == VStr(t.AnnotationColor())
      && GetOr(d, "text", VNone) == VStr(t.SelectedText())
    ensures forall r :: r in t.selectedRects ==> r.w > 0.0 && r.h > 0.0
  {
    SelectedRectsHaveArea(sel, blocks);
    AnnotationDataGet(t.annotationKind, t.selectedRects, t.AnnotationColor(), t.SelectedText());
  }
}
