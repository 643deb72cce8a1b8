/** The annotation tools (src/tools/annotation_tools.py): sticky notes,
    signatures placed as a picture or drawn by hand, and form fields. */
module Annotations {
  import opened Common
  import opened Values
  import opened Layers
  import opened InteractiveLayers
  import opened BaseTools
  import DrawingTools

  // ---------------------------------------------------------------------
  // Sticky notes

  const NOTE_COLOR: string := "#FFFF00"
  const NOTE_SIZE: int := 20

  class StickyNoteTool {
    const base: BaseTool
    var clickPos: Option<Point>
    var noteSize: int
    var currentLayer: Option<Layer>

    /** The tool replaces the inherited black with yellow. */
    constructor()
      ensures fresh(base) && base.toolType == ToolType.StickyNote
      ensures base.Settings() == DEFAULT_SETTINGS.(color := NOTE_COLOR)
      ensures clickPos == None && noteSize == NOTE_SIZE && currentLayer == None
    {
      var b := new BaseTool(ToolType.StickyNote);
      b.SetColor(NOTE_COLOR);
      base := b;
      clickPos := None;
      noteSize := NOTE_SIZE;
      currentLayer := None;
    }

    /** A left press records where the note goes. */
    method MousePress(button: MouseButton, page: int, pos: Point) returns (handled: bool)
      modifies this
      ensures handled <==> button == LeftButton
      ensures clickPos == if handled then Some(pos) else old(clickPos)
      ensures noteSize == old(noteSize) && currentLayer == old(currentLayer)
    {
      if button == LeftButton {
        clickPos := Some(pos);
        return true;
      }
      return false;
    }

    /** `create_note_layer`: a STICKY_NOTE layer holding where the note is,
        its size and colour, and its text; the opacity stays 1.0. */
    function CreateNoteLayer(page: int, pos: Point, noteText: string, freshId: string): (l: Layer)
      reads this, base
      ensures l.ltype == LayerType.StickyNote && l.pageNum == page && l.id == freshId
      ensures l.name == "Sticky Note" && l.opacity == 1.0 && l.kind == Plain
      ensures l.data == [("x", VReal(pos.x)), ("y", VReal(pos.y)), ("size", VInt(noteSize)),
                         ("color", VStr(base.color)), ("text", VStr(noteText))]
    {
      NewLayer(LayerType.StickyNote, page, "Sticky Note", freshId).(
        data := [("x", VReal(pos.x)), ("y", VReal(pos.y)), ("size", VInt(noteSize)),
                 ("color", VStr(base.color)), ("text", VStr(noteText))])
    }

    method GetCompletedLayer() returns (l: Option<Layer>)
      modifies this
      ensures l == old(currentLayer) && currentLayer == None
      ensures clickPos == old(clickPos) && noteSize == old(noteSize)
    {
      l := currentLayer;
      currentLayer := None;
    }
  }

  /** A note made with an untouched tool is a yellow note of size 20. */
  lemma DefaultNote(t: StickyNoteTool, page: int, pos: Point, noteText: string, freshId: string)
    requires t.noteSize == NOTE_SIZE && t.base.Settings() == DEFAULT_SETTINGS.(color := NOTE_COLOR)
    ensures var d := t.CreateNoteLayer(page, pos, noteText, freshId).data;
      Get(d, "color") == Some(VStr("#FFFF00")) && Get(d, "size") == Some(VInt(20))
      && Get(d, "text") == Some(VStr(noteText))
  {
    var d := t.CreateNoteLayer(page, pos, noteText, freshId).data;
    assert t.base.color == t.base.Settings().color == NOTE_COLOR;
    assert Get(d[4..], "text") == Some(VStr(noteText));
    assert Get(d[3..], "text") == Some(VStr(noteText));
    assert Get(d[2..], "text") == Some(VStr(noteText));
    assert Get(d[3..], "color") == Some(VStr(NOTE_COLOR));
    assert Get(d[2..], "color") == Some(VStr(NOTE_COLOR));
    assert Get(d[1..], "color") == Some(VStr(NOTE_COLOR));
    assert Get(d[2..], "size") == Some(VInt(NOTE_SIZE));
  }

  // ---------------------------------------------------------------------
  // Signatures

  datatype SignatureMode = ImageMode | DrawMode

  /** The smallest side a placed signature keeps; a smaller drag falls back
      to the picture's own size. */
  const SIGNATURE_MIN: real := 10.0

  /** A hand-drawn signature is stored as a black stroke 2 wide. */
  const SIGNATURE_COLOR: string := "#000000"
  const SIGNATURE_WIDTH: int := 2

  /** The layer a placed signature picture becomes. */
  function PlacedSignature(p: Pixmap, a: Point, b: Point, page: int, freshId: string): (l: Layer)
    ensures l.ltype == LayerType.Signature && l.pageNum == page && l.id == freshId
    ensures l.name == "Signature" && l.opacity == 1.0 && l.kind == Plain
    ensures l.data == PictureData(p, OrNaturalSize(Spanned(a, b), SIGNATURE_MIN, p.Width() as real, p.Height() as real))
  {
    NewLayer(LayerType.Signature, page, "Signature", freshId).(
      data := PictureData(p, OrNaturalSize(Spanned(a, b), SIGNATURE_MIN, p.Width() as real, p.Height() as real)))
  }

  /** The layer a drawn signature becomes: the pen's stroke record. */
  function DrawnSignature(points: seq<(real, real)>, page: int, freshId: string): (l: Layer)
    ensures l.ltype == LayerType.Signature && l.pageNum == page && l.id == freshId
    ensures l.name == "Signature" && l.opacity == 1.0 && l.kind == Plain
    ensures l.data == DrawingTools.StrokeData(points, SIGNATURE_COLOR, SIGNATURE_WIDTH)
  {
    NewLayer(LayerType.Signature, page, "Signature", freshId).(
      data := DrawingTools.StrokeData(points, SIGNATURE_COLOR, SIGNATURE_WIDTH))
  }

  /** A placed signature is never smaller than 10 by 10 unless the picture
      itself is, and a large enough drag is kept as dragged. */
  lemma PlacedSignatureSize(p: Pixmap, a: Point, b: Point, page: int, freshId: string)
    ensures var f := OrNaturalSize(Spanned(a, b), SIGNATURE_MIN, p.Width() as real, p.Height() as real);
      (f.w >= SIGNATURE_MIN && f.h >= SIGNATURE_MIN) || (f.w == p.Width() as real && f.h == p.Height() as real)
    ensures var r := Spanned(a, b);
      r.w >= SIGNATURE_MIN && r.h >= SIGNATURE_MIN ==>
        OrNaturalSize(r, SIGNATURE_MIN, p.Width() as real, p.Height() as real) == r
  {
  }

  class SignatureTool {
    const base: BaseTool
    var pixmap: Option<Pixmap>
    var points: seq<(real, real)>
    var start: Option<Point>
    var current: Option<Point>
    var isPlacing: bool
    var mode: SignatureMode
    var currentLayer: Option<Layer>

    /** A placement in progress has both of its points. */
    predicate Valid()
      reads this
    {
      isPlacing ==> start.Some? && current.Some?
    }

    constructor()
      ensures fresh(base) && base.toolType == ToolType.Signature && base.Settings() == DEFAULT_SETTINGS
      ensures pixmap == None && points == [] && start == None && current == None
      ensures !isPlacing && mode == ImageMode && currentLayer == None
      ensures Valid()
    {
      base := new BaseTool(ToolType.Signature);
      pixmap := None;
      points := [];
      start, current := None, None;
      isPlacing := false;
      mode := ImageMode;
      currentLayer := None;
    }

    /** `set_signature_image`: the picture to place, in image mode. */
    method SetSignatureImage(p: Pixmap)
      modifies this
      ensures pixmap == Some(p) && mode == ImageMode
      ensures points == old(points) && start == old(start) && current == old(current)
      ensures isPlacing == old(isPlacing) && currentLayer == old(currentLayer)
    {
      pixmap := Some(p);
      mode := ImageMode;
    }

    /** `set_draw_mode`: draw mode with no points yet. */
    method SetDrawMode()
      modifies this
      ensures mode == DrawMode && points == []
      ensures pixmap == old(pixmap) && start == old(start) && current == old(current)
      ensures isPlacing == old(isPlacing) && currentLayer == old(currentLayer)
    {
      mode := DrawMode;
      points := [];
    }

    /** A left press starts placing the picture when there is one, or
        starts a drawn signature at the press point in draw mode. */
    method MousePress(button: MouseButton, page: int, pos: Point) returns (handled: bool)
      requires Valid()
      modifies this
      ensures Valid()
      ensures var placing := button == LeftButton && mode == ImageMode && HasPicture(pixmap);
        var drawing := button == LeftButton && mode == DrawMode;
        (handled <==> placing || drawing)
        && (placing ==> isPlacing && start == Some(pos) && current == Some(pos))
        && (!placing ==> isPlacing == old(isPlacing) && start == old(start) && current == old(current))
        && points == (if drawing then [(pos.x, pos.y)] else old(points))
      ensures pixmap == old(pixmap) && mode == old(mode) && currentLayer == old(currentLayer)
    {
      if button == LeftButton {
        if mode == ImageMode && HasPicture(pixmap) {
          isPlacing := true;
          start, current := Some(pos), Some(pos);
          return true;
        } else if mode == DrawMode {
          points := [(pos.x, pos.y)];
          return true;
        }
      }
      return false;
    }

    /** A move follows the pointer while placing, or extends a drawn
        signature that has begun. */
    method MouseMove(page: int, pos: Point) returns (handled: bool)
      requires Valid()
      modifies this
      ensures Valid()
      ensures var placing := mode == ImageMode && isPlacing;
        var drawing := old(mode == DrawMode && points != []);
        (handled <==> placing || drawing)
        && current == (if placing then Some(pos) else old(current))
        && points == (if drawing then old(points) + [(pos.x, pos.y)] else old(points))
      ensures pixmap == old(pixmap) && mode == old(mode) && start == old(start)
      ensures isPlacing == old(isPlacing) && currentLayer == old(currentLayer)
    {
      if mode == ImageMode && isPlacing {
        current := Some(pos);
        return true;
      } else if mode == DrawMode && points != [] {
        points := points + [(pos.x, pos.y)];
        return true;
      }
      return false;
    }

    /** A left release finishes a placement (both points and a picture
        needed) or a drawn signature of more than one point; either becomes
        the pending layer. */
    method MouseRelease(button: MouseButton, page: int, pos: Point, freshId: string) returns (handled: bool)
      requires Valid()
      modifies this
      ensures Valid()
      ensures var placing := button == LeftButton && old(mode) == ImageMode && old(isPlacing);
        var placed := placing && IsSet(old(start)) && IsSet(old(current)) && HasPicture(old(pixmap));
        var drawn := button == LeftButton && !placing && old(mode) == DrawMode && |old(points)| > 1;
        (handled <==> placed || drawn)
        && isPlacing == (old(isPlacing) && !placing)
        && (placed ==>
              currentLayer == Some(PlacedSignature(old(pixmap).value, old(start).value, old(current).value, page, freshId)))
        && (drawn ==> currentLayer == Some(DrawnSignature(old(points), page, freshId)))
        && (!handled ==> currentLayer == old(currentLayer))
        && (start, current) == (if placed then (None, None) else (old(start), old(current)))
        && points == (if drawn then [] else old(points))
      ensures pixmap == old(pixmap) && mode == old(mode)
    {
      if button == LeftButton {
        if mode == ImageMode && isPlacing {
          isPlacing := false;
          if IsSet(start) && IsSet(current) && HasPicture(pixmap) {
            currentLayer := Some(PlacedSignature(pixmap.value, start.value, current.value, page, freshId));
            start, current := None, None;
            return true;
          }
        } else if mode == DrawMode && |points| > 1 {
          currentLayer := Some(DrawnSignature(points, page, freshId));
          points := [];
          return true;
        }
      }
      return false;
    }

    method GetCompletedLayer() returns (l: Option<Layer>)
      modifies this
      ensures l == old(currentLayer) && currentLayer == None
      ensures pixmap == old(pixmap) && points == old(points) && start == old(start)
      ensures current == old(current) && isPlacing == old(isPlacing) && mode == old(mode)
    {
      l := currentLayer;
      currentLayer := None;
    }
  }

  // ---------------------------------------------------------------------
  // Form fields

  /** A field narrower than 20 becomes 100 wide; one lower than 10 becomes
      30 high. */
  function FieldRect(a: Point, b: Point): Rect
  {
    WithDefaults(Spanned(a, b), 20.0, 100.0, 10.0, 30.0)
  }

  /** The form field layer: named "<Type> Field", holding the field type,
      its box, an empty value and the name "<type>_field". */
  function FieldLayer(fieldType: string, a: Point, b: Point, page: int, freshId: string): (l: Layer)
    ensures l.ltype == LayerType.FormField && l.pageNum == page && l.id == freshId
    ensures l.name == Title(fieldType) + " Field" && l.opacity == 1.0 && l.kind == Plain
    ensures var f := FieldRect(a, b);
      l.data == [("field_type", VStr(fieldType)),
                 ("rect", VList([VReal(f.x), VReal(f.y), VReal(f.w), VReal(f.h)])),
                 ("value", VStr("")),
                 ("name", VStr(fieldType + "_field"))]
  {
    var f := FieldRect(a, b);
    NewLayer(LayerType.FormField, page, Title(fieldType) + " Field", freshId).(
      data := [("field_type", VStr(fieldType)),
               ("rect", VList([VReal(f.x), VReal(f.y), VReal(f.w), VReal(f.h)])),
               ("value", VStr("")),
               ("name", VStr(fieldType + "_field"))])
  }

  /** A form field is at least 20 wide and 10 high, sits at the drag's
      smaller corner, and keeps a drag that is large enough. */
  lemma FieldRectBounds(a: Point, b: Point)
    ensures var f := FieldRect(a, b);
      f.w >= 20.0 && f.h >= 10.0
      && f.x == MinR(a.x, b.x) && f.y == MinR(a.y, b.y)
      && (Spanned(a, b).w >= 20.0 && Spanned(a, b).h >= 10.0 ==> f == Spanned(a, b))
  {
    WithDefaultsFloor(Spanned(a, b), 20.0, 100.0, 10.0, 30.0);
  }

  class FormFieldTool {
    const base: BaseTool
    var fieldType: string
    var start: Option<Point>
    var current: Option<Point>
    var isDrawing: bool
    var currentLayer: Option<Layer>

    predicate Valid()
      reads this
    {
      isDrawing ==> start.Some? && current.Some?
    }

    constructor()
      ensures fresh(base) && base.toolType == ToolType.FormField && base.Settings() == DEFAULT_SETTINGS
      ensures fieldType == "text" && start == None && current == None && !isDrawing && currentLayer == None
      ensures Valid()
    {
      base := new BaseTool(ToolType.FormField);
      fieldType := "text";
      start, current := None, None;
      isDrawing := false;
      currentLayer := None;
    }

    method SetFieldType(t: string)
      modifies this
      ensures fieldType == t
      ensures start == old(start) && current == old(current) && isDrawing == old(isDrawing)
      ensures currentLayer == old(currentLayer)
    {
      fieldType := t;
    }

    method MousePress(button: MouseButton, page: int, pos: Point) returns (handled: bool)
      requires Valid()
      modifies this
      ensures Valid()
      ensures handled <==> button == LeftButton
      ensures handled ==> isDrawing && start == Some(pos) && current == Some(pos)
      ensures !handled ==> isDrawing == old(isDrawing) && start == old(start) && current == old(current)
      ensures fieldType == old(fieldType) && currentLayer == old(currentLayer)
    {
      if button == LeftButton {
        isDrawing := true;
        start, current := Some(pos), Some(pos);
        return true;
      }
      return false;
    }

    method MouseMove(page: int, pos: Point) returns (handled: bool)
      requires Valid()
      modifies this
      ensures Valid()
      ensures handled == old(isDrawing)
      ensures current == if handled then Some(pos) else old(current)
      ensures isDrawing == old(isDrawing) && start == old(start)
      ensures fieldType == old(fieldType) && currentLayer == old(currentLayer)
    {
      if isDrawing {
        current := Some(pos);
        return true;
      }
      return false;
    }

    /** A left release ends the drag; with both points set the field
        becomes the pending layer and the points are cleared. */
    method MouseRelease(button: MouseButton, page: int, pos: Point, freshId: string) returns (handled: bool)
      requires Valid()
      modifies this
      ensures Valid()
      ensures var ending := button == LeftButton && old(isDrawing);
        isDrawing == (old(isDrawing) && !ending)
        && (handled <==> ending && IsSet(old(start)) && IsSet(old(current)))
        && (handled ==>
              start == None && current == None &&
              currentLayer == Some(FieldLayer(fieldType, old(start).value, old(current).value, page, freshId)))
        && (!handled ==> start == old(start) && current == old(current) && currentLayer == old(currentLayer))
      ensures fieldType == old(fieldType)
    {
      if button == LeftButton && isDrawing {
        isDrawing := false;
        if IsSet(start) && IsSet(current) {
          currentLayer := Some(FieldLayer(fieldType, start.value, current.value, page, freshId));
          start, current := None, None;
          return true;
        }
      }
      return false;
    }

    method GetCompletedLayer() returns (l: Option<Layer>)
      modifies this
      ensures l == old(currentLayer) && currentLayer == None
      ensures fieldType == old(fieldType) && start == old(start) && current == old(current)
      ensures isDrawing == old(isDrawing)
    {
      l := currentLayer;
      currentLayer := None;
    }
  }
}
