/** The freehand pen (src/tools/drawing_tools.py). A left press starts a
    stroke at the press point, moves extend it while the stroke lasts, and
    a left release turns a stroke of two or more points into a drawing
    layer that the canvas collects once. */
module DrawingTools {
  import opened Common
  import opened Values
  import opened Layers
  import opened InteractiveLayers
  import opened BaseTools
  import Export

  /** A stored stroke point, the tuple `(x, y)`. */
  function PointValue(p: (real, real)): Value
  {
    VList([VReal(p.0), VReal(p.1)])
  }

  function PointValues(ps: seq<(real, real)>): (r: seq<Value>)
    ensures |r| == |ps|
    ensures forall k :: 0 <= k < |ps| ==> r[k] == PointValue(ps[k])
  {
    seq(|ps|, k requires 0 <= k < |ps| => PointValue(ps[k]))
  }

  /** The layer a finished stroke becomes: a DRAWING layer on the page with
      the default name, holding a copy of the points, the pen's colour and
      width, and the pen's opacity. */
  function StrokeLayer(points: seq<(real, real)>, page: int, freshId: string,
                       color: string, width: int, opacity: real): (l: Layer)
    ensures l.ltype == Drawing && l.pageNum == page && l.id == freshId
    ensures l.name == DefaultName(Drawing, "", freshId)
    ensures l.visible && !l.locked && l.zIndex == 0 && l.kind == Plain
    ensures l.opacity == opacity
    ensures Keys(l.data) == ["points", "color", "width"]
  {
    NewLayer(Drawing, page, "", freshId).(data := StrokeData(points, color, width), opacity := opacity)
  }

  /** The stroke's `data`: points, colour and width, in that order. */
  function StrokeData(points: seq<(real, real)>, color: string, width: int): (d: Dict)
    ensures Keys(d) == ["points", "color", "width"]
  {
    [("points", VList(PointValues(points))), ("color", VStr(color)), ("width", VInt(width))]
  }

  /** Stored points read back as the points that were stored. */
  lemma PointsOfValues(ps: seq<(real, real)>)
    ensures Export.PointsOf(PointValues(ps)) == Some(ps)
  {
    var items := PointValues(ps);
    forall k | 0 <= k < |items|
      ensures Export.PointOf(items[k]) == Some(ps[k])
    {
      assert items[k] == VList([VReal(ps[k].0), VReal(ps[k].1)]);
    }
    assert Export.PointsOf(items).value == ps;
  }

  /** A pen stroke is exported exactly as it was drawn: whenever its colour
      is one the exporter reads, the exporter finds every point back, in
      order. */
  lemma StrokeExported(points: seq<(real, real)>, page: int, freshId: string,
                       color: string, width: int, opacity: real)
    requires |points| > 1 && Export.HexToRgb(color).Ok?
    ensures Export.DrawnPoints(StrokeLayer(points, page, freshId, color, width, opacity).data) == Some(points)
  {
    StrokeDataExported(points, color, width);
  }

  lemma StrokeDataExported(points: seq<(real, real)>, color: string, width: int)
    requires |points| > 1 && Export.HexToRgb(color).Ok?
    ensures Export.DrawnPoints(StrokeData(points, color, width)) == Some(points)
  {
    StrokeDataGet(points, color, width);
    PointsOfValues(points);
  }

  lemma StrokeDataGet(points: seq<(real, real)>, color: string, width: int)
    ensures GetOr(StrokeData(points, color, width), "points", VList([])) == VList(PointValues(points))
    ensures GetOr(StrokeData(points, color, width), "color", VStr("#000000")) == VStr(color)
  {
    var d := StrokeData(points, color, width);
    assert Get(d[1..], "color") == Some(VStr(color));
  }

  class PenTool {
    const base: BaseTool
    var points: seq<(real, real)>
    var isDrawing: bool
    var currentLayer: Option<Layer>

    /** A stroke in progress holds at least its first point. */
    predicate Valid()
      reads this
    {
      isDrawing ==> points != []
    }

    constructor()
      ensures fresh(base) && base.toolType == Pen && base.Settings() == DEFAULT_SETTINGS
      ensures points == [] && !isDrawing && currentLayer == None
      ensures Valid()
    {
      base := new BaseTool(Pen);
      points := [];
      isDrawing := false;
      currentLayer := None;
    }

    /** A left press starts a stroke holding exactly the press point; any
        other button is not handled and changes nothing. */
    method MousePress(button: MouseButton, page: int, pos: Point) returns (handled: bool)
      requires Valid()
      modifies this
      ensures Valid()
      ensures handled <==> button == LeftButton
      ensures handled ==> isDrawing && points == [(pos.x, pos.y)]
      ensures !handled ==> isDrawing == old(isDrawing) && points == old(points)
      ensures currentLayer == old(currentLayer)
    {
      if button == LeftButton {
        isDrawing := true;
        points := [(pos.x, pos.y)];
        return true;
      }
      return false;
    }

    /** Moves extend the stroke only while one is being drawn. */
    method MouseMove(page: int, pos: Point) returns (handled: bool)
      requires Valid()
      modifies this
      ensures Valid()
      ensures handled == old(isDrawing)
      ensures points == if old(isDrawing) then old(points) + [(pos.x, pos.y)] else old(points)
      ensures isDrawing == old(isDrawing) && currentLayer == old(currentLayer)
    {
      if isDrawing {
        points := points + [(pos.x, pos.y)];
        return true;
      }
      return false;
    }

    /** A left release ends the stroke. With more than one point the stroke
        becomes the pending layer and the points are cleared; a single
        point yields nothing and stays, as it does when the release is not
        the end of a stroke. */
    method MouseRelease(button: MouseButton, page: int, pos: Point, freshId: string) returns (handled: bool)
      requires Valid()
      modifies this
      ensures Valid()
      ensures var ending := button == LeftButton && old(isDrawing);
        isDrawing == (old(isDrawing) && !ending)
        && (handled <==> ending && |old(points)| > 1)
        && (handled ==>
              points == [] &&
              currentLayer == Some(StrokeLayer(old(points), page, freshId, base.color, base.width, base.opacity)))
        && (!handled ==> points == old(points) && currentLayer == old(currentLayer))
    {
      if button == LeftButton && isDrawing {
        isDrawing := false;
        if |points| > 1 {
          currentLayer := Some(StrokeLayer(points, page, freshId, base.color, base.width, base.opacity));
          points := [];
          return true;
        }
      }
      return false;
    }

    /** Hands out the pending layer and forgets it, so a second call yields
        None. */
    method GetCompletedLayer() returns (l: Option<Layer>)
      modifies this
      ensures l == old(currentLayer) && currentLayer == None
      ensures points == old(points) && isDrawing == old(isDrawing)
    {
      l := currentLayer;
      currentLayer := None;
    }
  }
}
