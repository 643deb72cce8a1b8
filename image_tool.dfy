/** The image tool (src/tools/image_tool.py): with a picture chosen, a
    left drag places it. A drag smaller than 10 on either side places the
    picture at its own size; the placed picture becomes an IMAGE layer the
    canvas collects once, and the tool forgets the picture. */
module ImageTools {
  import opened Common
  import opened Values
  import opened Layers
  import opened InteractiveLayers
  import opened BaseTools

  /** The smallest side a placed image keeps from the drag. */
  const IMAGE_MIN: real := 10.0

  /** The layer a placed picture becomes: named "Image", with the tool's
      opacity. */
  function PlacedImage(p: Pixmap, a: Point, b: Point, page: int, freshId: string, opacity: real): (l: Layer)
    ensures l.ltype == ImageType && l.pageNum == page && l.id == freshId
    ensures l.name == "Image" && l.opacity == opacity && l.kind == Plain
    ensures l.data == PictureData(p, OrNaturalSize(Spanned(a, b), IMAGE_MIN, p.Width() as real, p.Height() as real))
  {
    NewLayer(ImageType, page, "Image", freshId).(
      data := PictureData(p, OrNaturalSize(Spanned(a, b), IMAGE_MIN, p.Width() as real, p.Height() as real)),
      opacity := opacity)
  }

  /** A placed image sits at the drag's smaller corner and is either the
      dragged size, when both sides reach 10, or the picture's own size. */
  lemma PlacedImageFrame(p: Pixmap, a: Point, b: Point, page: int, freshId: string, opacity: real)
    ensures var d := PlacedImage(p, a, b, page, freshId, opacity).data;
      var r := Spanned(a, b);
      NumOr(d, "x", 0.0) == Ok(MinR(a.x, b.x)) && NumOr(d, "y", 0.0) == Ok(MinR(a.y, b.y))
      && Get(d, "pixmap") == Some(VPixmap(p))
      && (r.w >= IMAGE_MIN && r.h >= IMAGE_MIN ==>
            NumOr(d, "width", 0.0) == Ok(AbsR(b.x - a.x)) && NumOr(d, "height", 0.0) == Ok(AbsR(b.y - a.y)))
      && (!(r.w >= IMAGE_MIN && r.h >= IMAGE_MIN) ==>
            NumOr(d, "width", 0.0) == Ok(p.Width() as real) && NumOr(d, "height", 0.0) == Ok(p.Height() as real))
  {
    PictureDataGet(p, OrNaturalSize(Spanned(a, b), IMAGE_MIN, p.Width() as real, p.Height() as real));
  }

  class ImageTool {
    const base: BaseTool
    var pixmap: Option<Pixmap>
    var start: Option<Point>
    var current: Option<Point>
    var isPlacing: bool
    var currentLayer: Option<Layer>

    /** A placement under way has its points. */
    predicate Valid()
      reads this
    {
      isPlacing ==> start.Some? && current.Some?
    }

    constructor()
      ensures fresh(base) && base.toolType == ToolType.Image && base.Settings() == DEFAULT_SETTINGS
      ensures pixmap == None && start == None && current == None && !isPlacing && currentLayer == None
      ensures Valid()
    {
      base := new BaseTool(ToolType.Image);
      pixmap := None;
      start, current := None, None;
      isPlacing := false;
      currentLayer := None;
    }

    method SetImage(p: Pixmap)
      modifies this
      ensures pixmap == Some(p)
      ensures start == old(start) && current == old(current) && isPlacing == old(isPlacing)
      ensures currentLayer == old(currentLayer)
    {
      pixmap := Some(p);
    }

    /** A left press starts placing, provided there is a picture. */
    method MousePress(button: MouseButton, page: int, pos: Point) returns (handled: bool)
      requires Valid()
      modifies this
      ensures Valid()
      ensures handled <==> button == LeftButton && HasPicture(pixmap)
      ensures handled ==> isPlacing && start == Some(pos) && current == Some(pos)
      ensures !handled ==> isPlacing == old(isPlacing) && start == old(start) && current == old(current)
      ensures pixmap == old(pixmap) && currentLayer == old(currentLayer)
    {
      if button == LeftButton && HasPicture(pixmap) {
        isPlacing := true;
        start, current := Some(pos), Some(pos);
        return true;
      }
      return false;
    }

    method MouseMove(page: int, pos: Point) returns (handled: bool)
      requires Valid()
      modifies this
      ensures Valid()
      ensures handled == old(isPlacing)
      ensures current == if handled then Some(pos) else old(current)
      ensures isPlacing == old(isPlacing) && start == old(start)
      ensures pixmap == old(pixmap) && currentLayer == old(currentLayer)
    {
      if isPlacing {
        current := Some(pos);
        return true;
      }
      return false;
    }

    /** A left release ends the placement; with both points and a picture
        the image becomes the pending layer and the points and the picture
        are cleared. */
    method MouseRelease(button: MouseButton, page: int, pos: Point, freshId: string) returns (handled: bool)
      requires Valid()
      modifies this
      ensures Valid()
      ensures var ending := button == LeftButton && old(isPlacing);
        isPlacing == (old(isPlacing) && !ending)
        && (handled <==> ending && IsSet(old(start)) && IsSet(old(current)) && HasPicture(old(pixmap)))
      ensures handled ==>
        currentLayer == Some(PlacedImage(old(pixmap).value, old(start).value, old(current).value,
                                         page, freshId, base.opacity))
        && start == None && current == None && pixmap == None
      ensures !handled ==>
        currentLayer == old(currentLayer) && start == old(start) && current == old(current) && pixmap == old(pixmap)
    {
      if button == LeftButton && isPlacing {
        isPlacing := false;
        if IsSet(start) && IsSet(current) && HasPicture(pixmap) {
          currentLayer := Some(PlacedImage(pixmap.value, start.value, current.value, page, freshId, base.opacity));
          start, current := None, None;
          pixmap := None;
          return true;
        }
      }
      return false;
    }

    method GetCompletedLayer() returns (l: Option<Layer>)
      modifies this
      ensures l == old(currentLayer) && currentLayer == None
      ensures pixmap == old(pixmap) && start == old(start) && current == old(current)
      ensures isPlacing == old(isPlacing)
    {
      l := currentLayer;
      currentLayer := None;
    }
  }
}
