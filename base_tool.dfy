/** The editing tools' common ground (src/tools/base_tool.py): the tool
    types, the settings every tool carries, and the geometry the tools share
    when they turn a drag into a rectangle.

    Dafny classes do not inherit, so a concrete tool holds its `BaseTool`
    part as the constant field `base`: what a subclass inherits without
    overriding (the setters, `activate`, the handlers it leaves alone) is
    reached through that field, and what it overrides is a method of the
    tool's own class. */
module BaseTools {
  import opened Common
  import opened InteractiveLayers
  import Values

  /** `ToolType`, with its string values. */
  datatype ToolType =
    | Select | Pen | Text | Image
    | ShapeRectangle | ShapeEllipse | ShapeLine | ShapeArrow
    | StickyNote | Signature | FormField

  function ToolTypeValue(t: ToolType): string
  {
    match t
    case Select => "select"
    case Pen => "pen"
    case Text => "text"
    case Image => "image"
    case ShapeRectangle => "rectangle"
    case ShapeEllipse => "ellipse"
    case ShapeLine => "line"
    case ShapeArrow => "arrow"
    case StickyNote => "sticky_note"
    case Signature => "signature"
    case FormField => "form_field"
  }

  /** Distinct tool types carry distinct values, so `ToolType(value)` finds
      the member back. */
  lemma ToolTypeValueInjective(a: ToolType, b: ToolType)
    ensures ToolTypeValue(a) == ToolTypeValue(b) ==> a == b
  {
  }

  /** The button of a mouse event. */
  datatype MouseButton = LeftButton | RightButton | MiddleButton

  // ---------------------------------------------------------------------
  // Points and rectangles

  /** `bool(pos)` for an `Optional[QPointF]`: None is falsy, and so is a
      point whose coordinates are both zero (`QPointF.isNull`). A drag that
      starts exactly at the page origin therefore counts as having no start. */
  predicate IsSet(p: Option<Point>)
  {
    p.Some? && !(p.value.x == 0.0 && p.value.y == 0.0)
  }

  /** `bool(pixmap)` for an `Optional[QPixmap]`: None and a null pixmap
      are falsy. */
  predicate HasPicture(p: Option<Values.Pixmap>)
  {
    p.Some? && !p.value.IsNull()
  }

  /** The rectangle the tools derive from two drag corners: the smaller
      coordinates as its corner and the absolute differences as its size. */
  function Spanned(a: Point, b: Point): (r: Rect)
    ensures r.w >= 0.0 && r.h >= 0.0
  {
    Rect(MinR(a.x, b.x), MinR(a.y, b.y), AbsR(b.x - a.x), AbsR(b.y - a.y))
  }

  /** Dragging in either direction gives the same rectangle, and that
      rectangle is the smallest one holding both corners: each corner lies
      on its edges. */
  lemma SpannedBoth(a: Point, b: Point)
    ensures Spanned(a, b) == Spanned(b, a)
    ensures var r := Spanned(a, b);
      r.x <= a.x <= r.Right() && r.x <= b.x <= r.Right()
      && r.y <= a.y <= r.Bottom() && r.y <= b.y <= r.Bottom()
      && (a.x == r.x || a.x == r.Right()) && (b.x == r.x || b.x == r.Right())
      && (a.y == r.y || a.y == r.Bottom()) && (b.y == r.y || b.y == r.Bottom())
  {
  }

  /** The far corner of the spanned rectangle holds the larger
      coordinates. */
  lemma SpannedFarCorner(a: Point, b: Point)
    ensures Spanned(a, b).Right() == MaxR(a.x, b.x) && Spanned(a, b).Bottom() == MaxR(a.y, b.y)
  {
  }

  /** The minimum-size rule of the frame-drawing tools: a side shorter than
      its minimum takes its default length; the corner stays. */
  function WithDefaults(r: Rect, minW: real, defaultW: real, minH: real, defaultH: real): (f: Rect)
    ensures f.x == r.x && f.y == r.y
    ensures r.w >= minW ==> f.w == r.w
    ensures r.h >= minH ==> f.h == r.h
  {
    Rect(r.x, r.y, if r.w < minW then defaultW else r.w, if r.h < minH then defaultH else r.h)
  }

  /** With defaults at least as large as the minimums the result is never
      below the minimum, and applying the rule again changes nothing. */
  lemma WithDefaultsFloor(r: Rect, minW: real, defaultW: real, minH: real, defaultH: real)
    requires defaultW >= minW && defaultH >= minH
    ensures var f := WithDefaults(r, minW, defaultW, minH, defaultH);
      f.w >= minW && f.h >= minH && WithDefaults(f, minW, defaultW, minH, defaultH) == f
  {
  }

  /** The rule of the image and signature tools: when either side is below
      the minimum, both sides become the picture's own size. */
  function OrNaturalSize(r: Rect, minSide: real, width: real, height: real): (f: Rect)
    ensures f.x == r.x && f.y == r.y
    ensures r.w >= minSide && r.h >= minSide ==> f == r
    ensures !(r.w >= minSide && r.h >= minSide) ==> f.w == width && f.h == height
  {
    if r.w < minSide || r.h < minSide then Rect(r.x, r.y, width, height) else r
  }

  /** `get_selection_box` of the box-drawing tools: once both corners are
      set, the rectangle they span, which has both of them on its edges. */
  function DragBox(a: Option<Point>, b: Option<Point>): (r: Option<Rect>)
    ensures r.Some? <==> IsSet(a) && IsSet(b)
    ensures r.Some? ==>
      r.value == Spanned(b.value, a.value)
      && r.value.x <= a.value.x <= r.value.Right() && r.value.y <= a.value.y <= r.value.Bottom()
      && r.value.x <= b.value.x <= r.value.Right() && r.value.y <= b.value.y <= r.value.Bottom()
  {
    if IsSet(a) && IsSet(b) then
      SpannedBoth(a.value, b.value);
      Some(Spanned(a.value, b.value))
    else None
  }

  /** The frame of the interactive text and image tools: the dragged
      rectangle, where a side shorter than 20 takes its default length. */
  function FrameOf(a: Point, b: Point, defaultW: real, defaultH: real): Rect
  {
    WithDefaults(Spanned(a, b), 20.0, defaultW, 20.0, defaultH)
  }

  /** With defaults of at least 20 a frame is never smaller than 20 by 20;
      it sits at the drag's smaller corner and keeps a large enough drag. */
  lemma FrameAtLeast(a: Point, b: Point, defaultW: real, defaultH: real)
    requires defaultW >= 20.0 && defaultH >= 20.0
    ensures var f := FrameOf(a, b, defaultW, defaultH);
      f.w >= 20.0 && f.h >= 20.0 && f.x == MinR(a.x, b.x) && f.y == MinR(a.y, b.y)
      && (Spanned(a, b).w >= 20.0 && Spanned(a, b).h >= 20.0 ==> f == Spanned(a, b))
  {
    WithDefaultsFloor(Spanned(a, b), 20.0, defaultW, 20.0, defaultH);
  }

  /** The `data` of a placed picture: the pixmap and the frame it fills. */
  function PictureData(p: Values.Pixmap, f: Rect): (d: Values.Dict)
    ensures Values.Keys(d) == ["pixmap", "x", "y", "width", "height"]
  {
    [("pixmap", Values.VPixmap(p)), ("x", Values.VReal(f.x)), ("y", Values.VReal(f.y)),
     ("width", Values.VReal(f.w)), ("height", Values.VReal(f.h))]
  }

  /** The frame reads back from a placed picture's data as numbers. */
  lemma PictureDataGet(p: Values.Pixmap, f: Rect)
    ensures var d := PictureData(p, f);
      Values.NumOr(d, "x", 0.0) == Ok(f.x) && Values.NumOr(d, "y", 0.0) == Ok(f.y)
      && Values.NumOr(d, "width", 0.0) == Ok(f.w) && Values.NumOr(d, "height", 0.0) == Ok(f.h)
      && Values.Get(d, "pixmap") == Some(Values.VPixmap(p))
  {
    var d := PictureData(p, f);
    assert Values.Get(d[4..], "height") == Some(Values.VReal(f.h));
    assert Values.Get(d[3..], "height") == Some(Values.VReal(f.h));
    assert Values.Get(d[2..], "height") == Some(Values.VReal(f.h));
    assert Values.Get(d[1..], "height") == Some(Values.VReal(f.h));
    assert Values.Get(d[3..], "width") == Some(Values.VReal(f.w));
    assert Values.Get(d[2..], "width") == Some(Values.VReal(f.w));
    assert Values.Get(d[1..], "width") == Some(Values.VReal(f.w));
    assert Values.Get(d[2..], "y") == Some(Values.VReal(f.y));
    assert Values.Get(d[1..], "y") == Some(Values.VReal(f.y));
    assert Values.Get(d[1..], "x") == Some(Values.VReal(f.x));
  }

  // ---------------------------------------------------------------------
  // The base tool

  /** Everything `BaseTool` keeps besides its type and cursor. */
  datatype ToolSettings = ToolSettings(
    active: bool, color: string, width: int, opacity: real, fontSize: int, fontName: string)

  const DEFAULT_COLOR: string := "#000000"

  /** A new tool is inactive, black, 2 wide, opaque, with 12-point Arial. */
  const DEFAULT_SETTINGS: ToolSettings := ToolSettings(false, DEFAULT_COLOR, 2, 1.0, 12, "Arial")

  class BaseTool {
    const toolType: ToolType
    var isActive: bool
    var color: string
    var width: int
    var opacity: real
    var fontSize: int
    var fontName: string

    function Settings(): ToolSettings
      reads this
    {
      ToolSettings(isActive, color, width, opacity, fontSize, fontName)
    }

    constructor(t: ToolType)
      ensures toolType == t && Settings() == DEFAULT_SETTINGS
    {
      toolType := t;
      isActive := false;
      color := DEFAULT_COLOR;
      width := 2;
      opacity := 1.0;
      fontSize := 12;
      fontName := "Arial";
    }

    method Activate()
      modifies this
      ensures Settings() == old(Settings()).(active := true)
    {
      isActive := true;
    }

    method Deactivate()
      modifies this
      ensures Settings() == old(Settings()).(active := false)
    {
      isActive := false;
    }

    /** The default handlers: nothing is handled and nothing changes. */
    method MousePress(button: MouseButton, page: int, pos: Point) returns (handled: bool)
      ensures !handled
    {
      handled := false;
    }

    method MouseMove(page: int, pos: Point) returns (handled: bool)
      ensures !handled
    {
      handled := false;
    }

    method MouseRelease(button: MouseButton, page: int, pos: Point) returns (handled: bool)
      ensures !handled
    {
      handled := false;
    }

    method KeyPress(key: int) returns (handled: bool)
      ensures !handled
    {
      handled := false;
    }

    /** Each setter changes its own setting and no other. */
    method SetColor(c: string)
      modifies this
      ensures Settings() == old(Settings()).(color := c)
    {
      color := c;
    }

    method SetWidth(w: int)
      modifies this
      ensures Settings() == old(Settings()).(width := w)
    {
      width := w;
    }

    method SetOpacity(o: real)
      modifies this
      ensures Settings() == old(Settings()).(opacity := o)
    {
      opacity := o;
    }

    method SetFontSize(size: int)
      modifies this
      ensures Settings() == old(Settings()).(fontSize := size)
    {
      fontSize := size;
    }

    method SetFontName(name: string)
      modifies this
      ensures Settings() == old(Settings()).(fontName := name)
    {
      fontName := name;
    }
  }
}
