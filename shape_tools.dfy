/** The shape tools (src/tools/shape_tools.py): rectangle, ellipse, line
    and arrow. A left press anchors the shape, moves follow the pointer, and
    a left release turns the drag into a SHAPE layer.

    The four tools differ only in their release and in whether a move is
    constrained, so one class models them, told apart by its `shape`. */
module ShapeTools {
  import opened Common
  import opened Values
  import opened Layers
  import opened InteractiveLayers
  import opened BaseTools
  import Export

  datatype ShapeKind = Rectangle | Ellipse | Line | Arrow

  /** Rectangles and ellipses store a box; lines and arrows their ends. */
  predicate IsBox(k: ShapeKind) { k == Rectangle || k == Ellipse }

  function ShapeToolType(k: ShapeKind): ToolType
  {
    match k
    case Rectangle => ShapeRectangle
    case Ellipse => ShapeEllipse
    case Line => ShapeLine
    case Arrow => ShapeArrow
  }

  /** The layer name. */
  function ShapeName(k: ShapeKind): string
  {
    match k
    case Rectangle => "Rectangle"
    case Ellipse => "Ellipse"
    case Line => "Line"
    case Arrow => "Arrow"
  }

  /** The stored `shape_type`, which is also the tool type's value. */
  function ShapeValue(k: ShapeKind): (s: string)
    ensures s == ToolTypeValue(ShapeToolType(k))
  {
    match k
    case Rectangle => "rectangle"
    case Ellipse => "ellipse"
    case Line => "line"
    case Arrow => "arrow"
  }

  // ---------------------------------------------------------------------
  // The Shift constraint of lines and arrows

  /** `_constrain_to_straight_line`: with Shift held and a start point the
      pointer is pulled onto the horizontal through the start when it is
      further away sideways, and onto the vertical otherwise (ties
      included). Without Shift, or without a start, it is left alone. */
  function Constrain(shift: bool, start: Option<Point>, current: Point): (r: Point)
    ensures !shift || !IsSet(start) ==> r == current
    ensures shift && IsSet(start) ==> r.x == start.value.x || r.y == start.value.y
  {
    if !shift || !IsSet(start) then current
    else
      var s := start.value;
      if AbsR(current.x - s.x) > AbsR(current.y - s.y) then Point(current.x, s.y)
      else Point(s.x, current.y)
  }

  /** The constrained point keeps the pointer's coordinate along the axis
      of the larger movement and the start's across it. */
  lemma ConstrainFollowsLargerMove(start: Point, current: Point)
    requires IsSet(Some(start))
    ensures AbsR(current.x - start.x) > AbsR(current.y - start.y) ==>
      Constrain(true, Some(start), current) == Point(current.x, start.y)
    ensures AbsR(current.x - start.x) <= AbsR(current.y - start.y) ==>
      Constrain(true, Some(start), current) == Point(start.x, current.y)
  {
  }

  /** A constrained point is constrained already. */
  lemma ConstrainIdempotent(shift: bool, start: Option<Point>, current: Point)
    ensures Constrain(shift, start, Constrain(shift, start, current)) == Constrain(shift, start, current)
  {
  }

  // ---------------------------------------------------------------------
  // The layers

  /** `None` stores as None, a colour as its string. */
  function FillValue(fill: Option<string>): Value
  {
    match fill
    case None => VNone
    case Some(c) => VStr(c)
  }

  /** A rectangle's or an ellipse's data: kind, box, outline colour, fill
      and width. */
  function BoxData(k: ShapeKind, r: Rect, color: string, fill: Option<string>, width: int): (d: Dict)
    ensures Keys(d) == ["shape_type", "rect", "color", "fill_color", "width"]
  {
    [("shape_type", VStr(ShapeValue(k))),
     ("rect", VList([VReal(r.x), VReal(r.y), VReal(r.w), VReal(r.h)])),
     ("color", VStr(color)),
     ("fill_color", FillValue(fill)),
     ("width", VInt(width))]
  }

  /** A line's or an arrow's data: kind, both ends, colour and width. */
  function EndsData(k: ShapeKind, a: Point, b: Point, color: string, width: int): (d: Dict)
    ensures Keys(d) == ["shape_type", "x1", "y1", "x2", "y2", "color", "width"]
  {
    [("shape_type", VStr(ShapeValue(k))),
     ("x1", VReal(a.x)), ("y1", VReal(a.y)), ("x2", VReal(b.x)), ("y2", VReal(b.y)),
     ("color", VStr(color)),
     ("width", VInt(width))]
  }

  /** The layer a finished drag becomes: a SHAPE layer named after the
      shape, with the tool's opacity. Rectangles and ellipses store the
      spanned box; lines and arrows the start and the current point. */
  function ShapeLayer(k: ShapeKind, start: Point, current: Point, page: int, freshId: string,
                      color: string, fill: Option<string>, width: int, opacity: real): (l: Layer)
    ensures l.ltype == LayerType.Shape && l.pageNum == page && l.id == freshId
    ensures l.name == ShapeName(k) && l.opacity == opacity
    ensures l.visible && !l.locked && l.zIndex == 0 && l.kind == Plain
    ensures IsBox(k) ==> l.data == BoxData(k, Spanned(start, current), color, fill, width)
    ensures !IsBox(k) ==> l.data == EndsData(k, start, current, color, width)
  {
    var data := if IsBox(k) then BoxData(k, Spanned(start, current), color, fill, width)
                else EndsData(k, start, current, color, width);
    NewLayer(LayerType.Shape, page, ShapeName(k), freshId).(data := data, opacity := opacity)
  }

  lemma BoxDataGet(k: ShapeKind, r: Rect, color: string, fill: Option<string>, width: int)
    ensures var d := BoxData(k, r, color, fill, width);
      GetOr(d, "color", VStr("#000000")) == VStr(color)
      && GetOr(d, "fill_color", VNone) == FillValue(fill)
      && GetOr(d, "rect", VList([VInt(0), VInt(0), VInt(100), VInt(100)]))
         == VList([VReal(r.x), VReal(r.y), VReal(r.w), VReal(r.h)])
      && Export.ShapeTypeOf(d) == VStr(ShapeValue(k))
  {
    var d := BoxData(k, r, color, fill, width);
    assert Get(d[1..], "rect") == Some(d[1].1);
    assert Get(d[2..], "color") == Some(d[2].1);
    assert Get(d[3..], "fill_color") == Some(d[3].1);
    assert Get(d[1..], "color") == Get(d[2..], "color");
    assert Get(d[1..], "fill_color") == Get(d[2..], "fill_color") == Get(d[3..], "fill_color");
  }

  /** A rectangle or an ellipse is exported in the box its drag spanned:
      from the smaller to the larger corner coordinates, whichever way the
      drag went, provided its colours convert. */
  lemma BoxExported(k: ShapeKind, a: Point, b: Point, color: string, fill: Option<string>, width: int)
    requires IsBox(k)
    requires Export.HexToRgb(color).Ok? && (fill.Some? ==> fill.value == [] || Export.HexToRgb(fill.value).Ok?)
    ensures Export.ShapeBox(BoxData(k, Spanned(a, b), color, fill, width))
      == Some((MinR(a.x, b.x), MinR(a.y, b.y), MaxR(a.x, b.x), MaxR(a.y, b.y)))
  {
    var r := Spanned(a, b);
    BoxDataGet(k, r, color, fill, width);
    assert Export.ColorsRead(VStr(color), FillValue(fill));
    SpannedFarCorner(a, b);
    BoxOfReals(r);
  }

  lemma BoxOfReals(r: Rect)
    ensures Export.BoxOf(VList([VReal(r.x), VReal(r.y), VReal(r.w), VReal(r.h)]))
      == Some((r.x, r.y, r.Right(), r.Bottom()))
  {
  }

  lemma EndsDataGet(k: ShapeKind, a: Point, b: Point, color: string, width: int)
    ensures var d := EndsData(k, a, b, color, width);
      GetOr(d, "color", VStr("#000000")) == VStr(color)
      && GetOr(d, "fill_color", VNone) == VNone
      && GetOr(d, "x1", VInt(0)) == VReal(a.x) && GetOr(d, "y1", VInt(0)) == VReal(a.y)
      && GetOr(d, "x2", VInt(100)) == VReal(b.x) && GetOr(d, "y2", VInt(100)) == VReal(b.y)
      && Export.ShapeTypeOf(d) == VStr(ShapeValue(k))
  {
    var d := EndsData(k, a, b, color, width);
    assert Get(d[5..], "color") == Some(d[5].1);
    assert Get(d[4..], "y2") == Some(d[4].1);
    assert Get(d[3..], "x2") == Some(d[3].1);
    assert Get(d[2..], "y1") == Some(d[2].1);
    assert Get(d[1..], "x1") == Some(d[1].1);
    assert Get(d[1..], "color") == Get(d[2..], "color") == Get(d[3..], "color")
      == Get(d[4..], "color") == Get(d[5..], "color");
    assert Get(d[1..], "y2") == Get(d[2..], "y2") == Get(d[3..], "y2") == Get(d[4..], "y2");
    assert Get(d[1..], "x2") == Get(d[2..], "x2") == Get(d[3..], "x2");
    assert Get(d[1..], "y1") == Get(d[2..], "y1");
    assert !HasKey(d, "fill_color") by {
      assert Keys(d) == ["shape_type", "x1", "y1", "x2", "y2", "color", "width"];
      HasKeyKeys(d, "fill_color");
    }
  }

  /** A line or an arrow is exported between the points it was drawn
      between, provided its colour converts. */
  lemma EndsExported(k: ShapeKind, a: Point, b: Point, color: string, width: int)
    requires !IsBox(k) && Export.HexToRgb(color).Ok?
    ensures Export.ShapeEnds(EndsData(k, a, b, color, width)) == Some(((a.x, a.y), (b.x, b.y)))
  {
    EndsDataGet(k, a, b, color, width);
    assert Export.ColorsRead(VStr(color), VNone);
  }

  // ---------------------------------------------------------------------
  // The tool

  class ShapeTool {
    const base: BaseTool
    const shape: ShapeKind
    var start: Option<Point>
    var current: Option<Point>
    var isDrawing: bool
    var fillColor: Option<string>
    var shiftHeld: bool
    var currentLayer: Option<Layer>

    /** A drag in progress has both of its points. */
    predicate Valid()
      reads this
    {
      isDrawing ==> start.Some? && current.Some?
    }

    constructor(k: ShapeKind)
      ensures fresh(base) && base.toolType == ShapeToolType(k) && base.Settings() == DEFAULT_SETTINGS
      ensures shape == k && start == None && current == None && !isDrawing
      ensures fillColor == None && !shiftHeld && currentLayer == None
      ensures Valid()
    {
      base := new BaseTool(ShapeToolType(k));
      shape := k;
      start, current := None, None;
      isDrawing := false;
      fillColor := None;
      shiftHeld := false;
      currentLayer := None;
    }

    /** `set_fill_color`: None for no fill. */
    method SetFillColor(c: Option<string>)
      modifies this
      ensures fillColor == c
      ensures start == old(start) && current == old(current) && isDrawing == old(isDrawing)
      ensures shiftHeld == old(shiftHeld) && currentLayer == old(currentLayer)
    {
      fillColor := c;
    }

    /** A left press anchors the drag at the press point. */
    method MousePress(button: MouseButton, page: int, pos: Point) returns (handled: bool)
      requires Valid()
      modifies this
      ensures Valid()
      ensures handled <==> button == LeftButton
      ensures handled ==> isDrawing && start == Some(pos) && current == Some(pos)
      ensures !handled ==> isDrawing == old(isDrawing) && start == old(start) && current == old(current)
      ensures fillColor == old(fillColor) && shiftHeld == old(shiftHeld) && currentLayer == old(currentLayer)
    {
      if button == LeftButton {
        isDrawing := true;
        start, current := Some(pos), Some(pos);
        return true;
      }
      return false;
    }

    /** While drawing, a move records whether Shift is held and moves the
        current point: to the pointer for a rectangle or an ellipse, and to
        the pointer constrained for a line or an arrow. */
    method MouseMove(page: int, pos: Point, mods: Modifiers) returns (handled: bool)
      requires Valid()
      modifies this
      ensures Valid()
      ensures handled == old(isDrawing)
      ensures handled ==> shiftHeld == mods.shift
      ensures handled ==> current == Some(if IsBox(shape) then pos else Constrain(mods.shift, start, pos))
      ensures !handled ==> shiftHeld == old(shiftHeld) && current == old(current)
      ensures isDrawing == old(isDrawing) && start == old(start)
      ensures fillColor == old(fillColor) && currentLayer == old(currentLayer)
    {
      if isDrawing {
        shiftHeld := mods.shift;
        current := Some(if IsBox(shape) then pos else Constrain(shiftHeld, start, pos));
        return true;
      }
      return false;
    }

    /** A left release ends the drag. When both of its points are set the
        shape becomes the pending layer and the points are cleared;
        otherwise nothing is produced and the points stay. The release
        position itself is not used. */
    method MouseRelease(button: MouseButton, page: int, pos: Point, freshId: string) returns (handled: bool)
      requires Valid()
      modifies this
      ensures Valid()
      ensures var ending := button == LeftButton && old(isDrawing);
        isDrawing == (old(isDrawing) && !ending)
        && (handled <==> ending && IsSet(old(start)) && IsSet(old(current)))
        && (handled ==>
              start == None && current == None &&
              currentLayer == Some(ShapeLayer(shape, old(start).value, old(current).value, page, freshId,
                                              base.color, fillColor, base.width, base.opacity)))
        && (!handled ==> start == old(start) && current == old(current) && currentLayer == old(currentLayer))
      ensures fillColor == old(fillColor) && shiftHeld == old(shiftHeld)
    {
      if button == LeftButton && isDrawing {
        isDrawing := false;
        if IsSet(start) && IsSet(current) {
          currentLayer := Some(ShapeLayer(shape, start.value, current.value, page, freshId,
                                          base.color, fillColor, base.width, base.opacity));
          start, current := None, None;
          return true;
        }
      }
      return false;
    }

    /** Hands out the pending layer and forgets it. */
    method GetCompletedLayer() returns (l: Option<Layer>)
      modifies this
      ensures l == old(currentLayer) && currentLayer == None
      ensures start == old(start) && current == old(current) && isDrawing == old(isDrawing)
      ensures fillColor == old(fillColor) && shiftHeld == old(shiftHeld)
    {
      l := currentLayer;
      currentLayer := None;
    }
  }
}
