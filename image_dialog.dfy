/** The crop preview of the image insertion dialog (`CropPreviewWidget`) and
    the values the dialog hands back (`ImageDialog`). Rectangles follow Qt 6's
    `QRect`: the corners are inclusive, so a rectangle spanning columns
    `x1..x2` is `x2 - x1 + 1` wide. */
module Crop {
  import opened Common
  import opened Values

  datatype Point = Point(x: int, y: int)

  /** A `QRect` as Qt stores it: its top-left and bottom-right corners. */
  datatype Rect = Rect(x1: int, y1: int, x2: int, y2: int) {
    function Width(): int { x2 - x1 + 1 }
    function Height(): int { y2 - y1 + 1 }
    predicate IsNull() { Width() == 0 && Height() == 0 }
    predicate IsValid() { x1 <= x2 && y1 <= y2 }

    /** `contains(p)`, edges included. */
    predicate Contains(p: Point) {
      var (l, r) := if x2 < x1 - 1 then (x2 + 1, x1 - 1) else (x1, x2);
      var (t, b) := if y2 < y1 - 1 then (y2 + 1, y1 - 1) else (y1, y2);
      l <= p.x <= r && t <= p.y <= b
    }

    /** `center()`: C++ integer division, truncating toward zero. */
    function Center(): Point { Point(HalfTowardZero(x1 + x2), HalfTowardZero(y1 + y2)) }

    function Translated(dx: int, dy: int): Rect { Rect(x1 + dx, y1 + dy, x2 + dx, y2 + dy) }
    function MoveLeft(x: int): Rect { Rect(x, y1, x2 + x - x1, y2) }
    function MoveTop(y: int): Rect { Rect(x1, y, x2, y2 + y - y1) }
    function MoveRight(x: int): Rect { Rect(x1 + x - x2, y1, x, y2) }
    function MoveBottom(y: int): Rect { Rect(x1, y1 + y - y2, x2, y) }
  }

  /** `QRect::normalized()`: a rectangle with a negative width or height is
      flipped so that it covers the same pixels; a valid one stays as it is. */
  function Normalized(q: Rect): (r: Rect)
    ensures r.Width() >= 0 && r.Height() >= 0
    ensures q.IsValid() ==> r == q
  {
    var (l, rt) := if q.x2 < q.x1 then (q.x2 + 1, q.x1 - 1) else (q.x1, q.x2);
    var (t, b) := if q.y2 < q.y1 then (q.y2 + 1, q.y1 - 1) else (q.y1, q.y2);
    Rect(l, t, rt, b)
  }

  /** `QRect()`: the null rectangle. */
  const NULL_RECT := Rect(0, 0, -1, -1)

  /** `QRect(x, y, w, h)`. */
  function RectAt(x: int, y: int, w: int, h: int): (r: Rect)
    ensures r.Width() == w && r.Height() == h && r.x1 == x && r.y1 == y
  {
    Rect(x, y, x + w - 1, y + h - 1)
  }

  function HalfTowardZero(n: int): int { if n >= 0 then n / 2 else -((-n) / 2) }

  function AbsInt(n: int): nat { if n >= 0 then n else -n }

  /** The rectangle lies within a `w` by `h` image. */
  predicate Inside(r: Rect, w: int, h: int) {
    0 <= r.x1 <= r.x2 < w && 0 <= r.y1 <= r.y2 < h
  }

  /** The crop of a freshly shown image: all of it. */
  function FullRect(w: int, h: int): (r: Rect)
    ensures r.Width() == w && r.Height() == h
  {
    RectAt(0, 0, w, h)
  }

  // ---------------------------------------------------------------------
  // Coordinate conversion (the preview shows the image scaled and centred)

  /** `_display_to_image_coords`. */
  function ToImage(p: Point, offset: Point, scale: real): (r: Point)
    ensures scale == 0.0 ==> r == Point(0, 0)
  {
    if scale == 0.0 then Point(0, 0)
    else Point(Trunc((p.x - offset.x) as real / scale), Trunc((p.y - offset.y) as real / scale))
  }

  /** `_image_to_display_coords`. */
  function ToDisplay(p: Point, offset: Point, scale: real): Point {
    Point(Trunc(p.x as real * scale + offset.x as real), Trunc(p.y as real * scale + offset.y as real))
  }

  lemma TruncOfInt(n: int)
    ensures Trunc(n as real) == n
  {
  }

  lemma TruncMonotone(a: real, b: real)
    requires a <= b
    ensures Trunc(a) <= Trunc(b)
  {
  }

  /** Display points further right or down never map to image points
      further left or up. */
  lemma ToImageMonotone(a: Point, b: Point, offset: Point, scale: real)
    requires scale > 0.0 && a.x <= b.x && a.y <= b.y
    ensures ToImage(a, offset, scale).x <= ToImage(b, offset, scale).x
    ensures ToImage(a, offset, scale).y <= ToImage(b, offset, scale).y
  {
    var s := scale;
    assert (a.x - offset.x) as real / s <= (b.x - offset.x) as real / s;
    assert (a.y - offset.y) as real / s <= (b.y - offset.y) as real / s;
    TruncMonotone((a.x - offset.x) as real / s, (b.x - offset.x) as real / s);
    TruncMonotone((a.y - offset.y) as real / s, (b.y - offset.y) as real / s);
  }

  /** At a whole-number magnification an image point survives the trip to
      the display and back. */
  lemma DisplayRoundTrip(p: Point, offset: Point, k: nat)
    requires k >= 1
    ensures ToImage(ToDisplay(p, offset, k as real), offset, k as real) == p
  {
    var s := k as real;
    assert p.x as real * s + offset.x as real == (p.x * k + offset.x) as real;
    assert p.y as real * s + offset.y as real == (p.y * k + offset.y) as real;
    TruncOfInt(p.x * k + offset.x);
    TruncOfInt(p.y * k + offset.y);
    var d := ToDisplay(p, offset, s);
    assert d == Point(p.x * k + offset.x, p.y * k + offset.y);
    assert (d.x - offset.x) as real / s == p.x as real;
    assert (d.y - offset.y) as real / s == p.y as real;
    TruncOfInt(p.x);
    TruncOfInt(p.y);
  }

  /** `_get_display_crop_rect`. */
  function DisplayCrop(crop: Rect, offset: Point, scale: real): (r: Rect)
    ensures crop.IsNull() ==> r == NULL_RECT
  {
    if crop.IsNull() then NULL_RECT
    else
      var tl := ToDisplay(Point(crop.x1, crop.y1), offset, scale);
      var br := ToDisplay(Point(crop.x2, crop.y2), offset, scale);
      Rect(tl.x, tl.y, br.x, br.y)
  }

  // ---------------------------------------------------------------------
  // Handles

  const HANDLE_SIZE := 10

  datatype Handle = TopLeft | TopRight | BottomLeft | BottomRight | Top | Bottom | Left | Right | Move

  /** `QRect(c.x - 5, c.y - 5, 10, 10)`: the square handle drawn around a
      point. */
  function HandleBox(c: Point): Rect {
    RectAt(c.x - HANDLE_SIZE / 2, c.y - HANDLE_SIZE / 2, HANDLE_SIZE, HANDLE_SIZE)
  }

  /** The point lies in the handle box around `c`. */
  predicate Hit(c: Point, p: Point) {
    c.x - HANDLE_SIZE / 2 <= p.x < c.x + HANDLE_SIZE / 2 && c.y - HANDLE_SIZE / 2 <= p.y < c.y + HANDLE_SIZE / 2
  }

  /** The handle box reaches five pixels before the point and four after it
      on each axis, since both of its edges are part of it. */
  lemma HandleBoxHit(c: Point, p: Point)
    ensures HandleBox(c).Contains(p) <==> Hit(c, p)
  {
    var b := HandleBox(c);
    assert b.x2 == c.x + 4 && b.y2 == c.y + 4;
  }

  /** Where each resize handle sits on a rectangle: the corners, then the
      midpoints of the edges (the midpoints round down). */
  function Anchor(rect: Rect, h: Handle): Point {
    var midX := (rect.x1 + rect.x2) / 2;
    var midY := (rect.y1 + rect.y2) / 2;
    match h
    case TopLeft => Point(rect.x1, rect.y1)
    case TopRight => Point(rect.x2, rect.y1)
    case BottomLeft => Point(rect.x1, rect.y2)
    case BottomRight => Point(rect.x2, rect.y2)
    case Top => Point(midX, rect.y1)
    case Bottom => Point(midX, rect.y2)
    case Left => Point(rect.x1, midY)
    case Right => Point(rect.x2, midY)
    case Move => rect.Center()
  }

  /** The order in which overlapping handles are tried. */
  const HANDLE_ORDER: seq<Handle> := [TopLeft, TopRight, BottomLeft, BottomRight, Top, Bottom, Left, Right]

  /** The first handle of `order` whose box holds `p`. */
  function FirstHit(rect: Rect, p: Point, order: seq<Handle>): (r: Option<Handle>)
    ensures r.Some? ==> r.value in order && Hit(Anchor(rect, r.value), p)
    ensures r.None? <==> forall i :: 0 <= i < |order| ==> !Hit(Anchor(rect, order[i]), p)
  {
    if order == [] then None
    else if Hit(Anchor(rect, order[0]), p) then Some(order[0])
    else
      var r := FirstHit(rect, p, order[1..]);
      assert forall i :: 1 <= i < |order| ==> order[i] == order[1..][i - 1];
      r
  }

  /** `_get_handle_at` on the crop rectangle in display coordinates: the
      first handle hit, else a drag of the whole rectangle if the point is
      inside it. */
  function HandleAt(rect: Rect, p: Point): Option<Handle> {
    match FirstHit(rect, p, HANDLE_ORDER)
    case Some(h) => Some(h)
    case None => if rect.Contains(p) then Some(Move) else None
  }

  /** The hit test is the chain of box tests of `_get_handle_at`, taken in
      order: the four corners, the four edge midpoints, then the inside. */
  lemma HandleAtChain(rect: Rect, p: Point)
    ensures HandleAt(rect, p) ==
      var midX := (rect.x1 + rect.x2) / 2;
      var midY := (rect.y1 + rect.y2) / 2;
      if Hit(Point(rect.x1, rect.y1), p) then Some(TopLeft)
      else if Hit(Point(rect.x2, rect.y1), p) then Some(TopRight)
      else if Hit(Point(rect.x1, rect.y2), p) then Some(BottomLeft)
      else if Hit(Point(rect.x2, rect.y2), p) then Some(BottomRight)
      else if Hit(Point(midX, rect.y1), p) then Some(Top)
      else if Hit(Point(midX, rect.y2), p) then Some(Bottom)
      else if Hit(Point(rect.x1, midY), p) then Some(Left)
      else if Hit(Point(rect.x2, midY), p) then Some(Right)
      else if rect.Contains(p) then Some(Move)
      else None
  {
    HandleOrderChain(rect, p);
    var midX := (rect.x1 + rect.x2) / 2;
    var midY := (rect.y1 + rect.y2) / 2;
    assert Anchor(rect, Top) == Point(midX, rect.y1) && Anchor(rect, Bottom) == Point(midX, rect.y2);
    assert Anchor(rect, Left) == Point(rect.x1, midY) && Anchor(rect, Right) == Point(rect.x2, midY);
    assert HandleAt(rect, p) == match FirstHit(rect, p, HANDLE_ORDER)
      case Some(h) => Some(h)
      case None => if rect.Contains(p) then Some(Move) else None;
  }

  /** `FirstHit` over the handle order, unrolled. */
  lemma {:induction false} HandleOrderChain(rect: Rect, p: Point)
    ensures FirstHit(rect, p, HANDLE_ORDER) ==
      if Hit(Anchor(rect, TopLeft), p) then Some(TopLeft)
      else if Hit(Anchor(rect, TopRight), p) then Some(TopRight)
      else if Hit(Anchor(rect, BottomLeft), p) then Some(BottomLeft)
      else if Hit(Anchor(rect, BottomRight), p) then Some(BottomRight)
      else FirstHit(rect, p, HANDLE_ORDER[4..])
    ensures FirstHit(rect, p, HANDLE_ORDER[4..]) ==
      if Hit(Anchor(rect, Top), p) then Some(Top)
      else if Hit(Anchor(rect, Bottom), p) then Some(Bottom)
      else if Hit(Anchor(rect, Left), p) then Some(Left)
      else if Hit(Anchor(rect, Right), p) then Some(Right)
      else None
  {
    var o := HANDLE_ORDER;
    assert o[0..] == o;
    FirstHitFrom(rect, p, o, 0);
    FirstHitFrom(rect, p, o, 1);
    FirstHitFrom(rect, p, o, 2);
    FirstHitFrom(rect, p, o, 3);
    FirstHitFrom(rect, p, o, 4);
    FirstHitFrom(rect, p, o, 5);
    FirstHitFrom(rect, p, o, 6);
    FirstHitFrom(rect, p, o, 7);
  }

  lemma FirstHitFrom(rect: Rect, p: Point, order: seq<Handle>, k: nat)
    requires k < |order|
    ensures FirstHit(rect, p, order[k..]) ==
      if Hit(Anchor(rect, order[k]), p) then Some(order[k]) else FirstHit(rect, p, order[k + 1..])
  {
    assert order[k..][1..] == order[k + 1..];
  }

  // ---------------------------------------------------------------------
  // Dragging

  /** The drag in image pixels: the display delta over the scale, truncated. */
  function Delta(d: int, scale: real): int
    requires scale != 0.0
  {
    Trunc(d as real / scale)
  }

  /** `_adjust_aspect_ratio`: after a corner drag, the side that moved less is
      recomputed from the other and the ratio. */
  function AdjustAspect(r: Rect, h: Handle, start: Rect, ratio: real): (a: Rect)
    requires ratio > 0.0
  {
    var expectedHeight := Trunc(r.Width() as real / ratio);
    var expectedWidth := Trunc(r.Height() as real * ratio);
    var widthLed := AbsInt(r.Width() - start.Width()) > AbsInt(r.Height() - start.Height());
    if h == TopLeft || h == BottomLeft then
      if widthLed then
        if h == TopLeft then r.(y1 := r.y2 - expectedHeight) else r.(y2 := r.y1 + expectedHeight)
      else r.(x1 := r.x2 - expectedWidth)
    else
      if widthLed then
        if h == TopRight then r.(y1 := r.y2 - expectedHeight) else r.(y2 := r.y1 + expectedHeight)
      else r.(x2 := r.x1 + expectedWidth)
  }

  /** The corner opposite the dragged one stays where it is. */
  lemma AdjustAspectAnchored(r: Rect, h: Handle, start: Rect, ratio: real)
    requires ratio > 0.0
    ensures var a := AdjustAspect(r, h, start, ratio);
      match h
      case TopLeft => a.x2 == r.x2 && a.y2 == r.y2
      case TopRight => a.x1 == r.x1 && a.y2 == r.y2
      case BottomLeft => a.x2 == r.x2 && a.y1 == r.y1
      case _ => a.x1 == r.x1 && a.y1 == r.y1
  {
  }

  /** The side that moved less is recomputed from the other: it spans the
      expected length plus one, because Qt counts both edges, and the other
      side keeps the length the drag gave it. */
  lemma AdjustAspectSpan(r: Rect, h: Handle, start: Rect, ratio: real)
    requires ratio > 0.0
    ensures var a := AdjustAspect(r, h, start, ratio);
      AbsInt(r.Width() - start.Width()) > AbsInt(r.Height() - start.Height()) ==>
        a.Width() == r.Width() && a.Height() == Trunc(r.Width() as real / ratio) + 1
    ensures var a := AdjustAspect(r, h, start, ratio);
      AbsInt(r.Width() - start.Width()) <= AbsInt(r.Height() - start.Height()) ==>
        a.Height() == r.Height() && a.Width() == Trunc(r.Height() as real * ratio) + 1
  {
    var eh := Trunc(r.Width() as real / ratio);
    var ew := Trunc(r.Height() as real * ratio);
    var a := AdjustAspect(r, h, start, ratio);
    if AbsInt(r.Width() - start.Width()) > AbsInt(r.Height() - start.Height()) {
      assert a == r.(y1 := r.y2 - eh) || a == r.(y2 := r.y1 + eh);
    } else {
      assert a == r.(x1 := r.x2 - ew) || a == r.(x2 := r.x1 + ew);
    }
  }

  /** An edge drag with the ratio locked: the width is recomputed from the
      new height and spread evenly about the centre. */
  function WidenAround(r: Rect, ratio: real): Rect {
    var w := Trunc(r.Height() as real * ratio);
    var cx := r.Center().x;
    r.(x1 := cx - w / 2, x2 := cx + w / 2)
  }

  function HeightenAround(r: Rect, ratio: real): Rect
    requires ratio > 0.0
  {
    var h := Trunc(r.Width() as real / ratio);
    var cy := r.Center().y;
    r.(y1 := cy - h / 2, y2 := cy + h / 2)
  }

  /** A 'move' drag: shift the rectangle back inside the image, edge by
      edge, without resizing it. */
  function ShiftInside(r: Rect, w: int, h: int): Rect {
    var a := if r.x1 < 0 then r.MoveLeft(0) else r;
    var b := if a.y1 < 0 then a.MoveTop(0) else a;
    var c := if b.x2 >= w then b.MoveRight(w - 1) else b;
    if c.y2 >= h then c.MoveBottom(h - 1) else c
  }

  /** A rectangle no larger than the image is shifted inside it keeping its
      size, and one already inside is left alone. */
  lemma ShiftInsideKeepsSize(r: Rect, w: int, h: int)
    requires 1 <= r.Width() <= w && 1 <= r.Height() <= h
    ensures var s := ShiftInside(r, w, h);
      s.Width() == r.Width() && s.Height() == r.Height() && Inside(s, w, h)
    ensures Inside(r, w, h) ==> ShiftInside(r, w, h) == r
  {
  }

  /** The rectangle a drag of handle `h` by (dx, dy) proposes, before it is
      normalised and clamped. */
  function Dragged(start: Rect, h: Handle, dx: int, dy: int, w: int, ht: int, lock: bool, ratio: real): Rect
    requires ratio > 0.0
  {
    match h
    case Move => ShiftInside(start.Translated(dx, dy), w, ht)
    case TopLeft =>
      var r := start.(x1 := start.x1 + dx, y1 := start.y1 + dy);
      if lock then AdjustAspect(r, h, start, ratio) else r
    case TopRight =>
      var r := start.(x2 := start.x2 + dx, y1 := start.y1 + dy);
      if lock then AdjustAspect(r, h, start, ratio) else r
    case BottomLeft =>
      var r := start.(x1 := start.x1 + dx, y2 := start.y2 + dy);
      if lock then AdjustAspect(r, h, start, ratio) else r
    case BottomRight =>
      var r := start.(x2 := start.x2 + dx, y2 := start.y2 + dy);
      if lock then AdjustAspect(r, h, start, ratio) else r
    case Top =>
      var r := start.(y1 := start.y1 + dy);
      if lock then WidenAround(r, ratio) else r
    case Bottom =>
      var r := start.(y2 := start.y2 + dy);
      if lock then WidenAround(r, ratio) else r
    case Left =>
      var r := start.(x1 := start.x1 + dx);
      if lock then HeightenAround(r, ratio) else r
    case Right =>
      var r := start.(x2 := start.x2 + dx);
      if lock then HeightenAround(r, ratio) else r
  }

  /** Normalise, then cut each edge back to the image. */
  function Clamped(r: Rect, w: int, h: int): Rect {
    var n := Normalized(r);
    Rect(MaxI(0, n.x1), MaxI(0, n.y1), MinI(w - 1, n.x2), MinI(h - 1, n.y2))
  }

  const MIN_CROP := 10

  /** A candidate is taken only if it is at least 10 by 10 pixels. */
  predicate Fits(r: Rect) { r.Width() >= MIN_CROP && r.Height() >= MIN_CROP }

  /** Whatever the drag, a candidate large enough to be taken lies within
      the image. */
  lemma AcceptedInside(r: Rect, w: int, h: int)
    requires Fits(Clamped(r, w, h))
    ensures Inside(Clamped(r, w, h), w, h)
  {
  }

  /** Clamping leaves a rectangle that is already inside the image alone. */
  lemma ClampedKeepsInside(r: Rect, w: int, h: int)
    requires Inside(r, w, h)
    ensures Clamped(r, w, h) == r
  {
  }

  /** A 'move' drag of a crop inside the image keeps its size, and it is
      taken whenever the crop was large enough to begin with. */
  lemma MoveDragKeepsSize(start: Rect, dx: int, dy: int, w: int, h: int, lock: bool, ratio: real)
    requires ratio > 0.0 && Inside(start, w, h)
    ensures var c := Clamped(Dragged(start, Move, dx, dy, w, h, lock, ratio), w, h);
      c.Width() == start.Width() && c.Height() == start.Height() && Inside(c, w, h)
    ensures Fits(start) ==> Fits(Clamped(Dragged(start, Move, dx, dy, w, h, lock, ratio), w, h))
  {
    var s := start.Translated(dx, dy);
    ShiftInsideKeepsSize(s, w, h);
    ClampedKeepsInside(ShiftInside(s, w, h), w, h);
  }

  /** A drag that lands inside the image without the lock moves the dragged
      corner and nothing else. */
  lemma CornerDragFree(start: Rect, dx: int, dy: int, w: int, h: int, ratio: real)
    requires ratio > 0.0
    requires Inside(start.(x2 := start.x2 + dx, y2 := start.y2 + dy), w, h)
    ensures Clamped(Dragged(start, BottomRight, dx, dy, w, h, false, ratio), w, h)
      == Rect(start.x1, start.y1, start.x2 + dx, start.y2 + dy)
  {
  }

  // ---------------------------------------------------------------------
  // The preview widget

  class CropPreview {
    var original: Option<Pixmap>
    /** The size of the scaled pixmap on screen, when one is shown. */
    var shown: Option<(Pos, Pos)>
    var scale: real
    var crop: Rect
    var offset: Point
    var dragging: bool
    var handle: Option<Handle>
    var dragStart: Point
    var cropStart: Rect
    var lockAspect: bool
    var aspect: real

    predicate HasImage()
      reads this
    {
      original.Some? && !original.value.IsNull()
    }

    /** What the mouse handlers rely on: a picture is shown exactly when the
        image is a real one, and the crop is null or within that image. */
    predicate Valid()
      reads this
    {
      && aspect > 0.0
      && (shown.Some? <==> HasImage())
      && (shown.Some? ==> scale > 0.0)
      && (dragging ==> handle.Some?)
      && (HasImage() ==> Inside(crop, original.value.w, original.value.h))
      && (!HasImage() ==> crop == NULL_RECT)
    }

    constructor()
      ensures Valid() && original.None? && crop == NULL_RECT && !dragging && !lockAspect
    {
      original := None;
      shown := None;
      scale := 1.0;
      crop := NULL_RECT;
      offset := Point(0, 0);
      dragging := false;
      handle := None;
      dragStart := Point(0, 0);
      cropStart := NULL_RECT;
      lockAspect := false;
      aspect := 1.0;
    }

    /** `set_image`: a real image is centred in the widget at the scale Qt
        chose (`shownW` by `shownH`) and the crop covers all of it; anything
        else clears the picture and the crop. */
    method SetImage(p: Option<Pixmap>, widgetW: int, widgetH: int, shownW: Pos, shownH: Pos)
      requires Valid()
      modifies this
      ensures Valid()
      ensures original == p
      ensures p.Some? && !p.value.IsNull() ==>
        && shown == Some((shownW, shownH))
        && scale == shownW as real / p.value.w as real
        && offset == Point((widgetW - shownW) / 2, (widgetH - shownH) / 2)
        && crop == FullRect(p.value.w, p.value.h)
        && aspect == p.value.w as real / p.value.h as real
      ensures !(p.Some? && !p.value.IsNull()) ==>
        shown.None? && crop == NULL_RECT && aspect == 1.0 && scale == old(scale) && offset == old(offset)
      ensures dragging == old(dragging) && handle == old(handle) && dragStart == old(dragStart)
      ensures cropStart == old(cropStart) && lockAspect == old(lockAspect)
    {
      original := p;
      if p.Some? && !p.value.IsNull() {
        shown := Some((shownW, shownH));
        scale := shownW as real / p.value.w as real;
        offset := Point((widgetW - shownW) / 2, (widgetH - shownH) / 2);
        crop := FullRect(p.value.w, p.value.h);
        aspect := if p.value.h > 0 then p.value.w as real / p.value.h as real else 1.0;
      } else {
        shown := None;
        crop := NULL_RECT;
        aspect := 1.0;
      }
    }

    method SetLockAspectRatio(locked: bool)
      requires Valid()
      modifies this
      ensures Valid() && lockAspect == locked
      ensures original == old(original) && shown == old(shown) && crop == old(crop)
      ensures dragging == old(dragging) && handle == old(handle) && aspect == old(aspect)
    {
      lockAspect := locked;
    }

    /** The handle under a display point, if a picture is shown. A null
        crop goes with no picture (see `HandleUnderShown`). */
    function HandleUnder(p: Point): Option<Handle>
      reads this
    {
      if shown.None? || crop.IsNull() then None else HandleAt(DisplayCrop(crop, offset, scale), p)
    }

    /** `mousePressEvent`: a left press on a handle starts a drag from the
        current crop. */
    method MousePress(left: bool, pos: Point)
      requires Valid()
      modifies this
      ensures Valid()
      ensures left && old(shown.Some? && HandleUnder(pos).Some?) ==>
        dragging && handle == old(HandleUnder(pos)) && dragStart == pos && cropStart == crop
      ensures !(left && old(shown.Some? && HandleUnder(pos).Some?)) ==>
        dragging == old(dragging) && handle == old(handle) && dragStart == old(dragStart) && cropStart == old(cropStart)
      ensures crop == old(crop) && original == old(original) && shown == old(shown)
      ensures scale == old(scale) && offset == old(offset)
      ensures lockAspect == old(lockAspect) && aspect == old(aspect)
    {
      if left && shown.Some? {
        var h := HandleUnder(pos);
        if h.Some? {
          dragging := true;
          handle := h;
          dragStart := pos;
          cropStart := crop;
        }
      }
    }

    /** The crop a drag to `pos` proposes. */
    function Candidate(pos: Point): Rect
      reads this
      requires Valid() && shown.Some? && dragging
    {
      var w := original.value.w;
      var h := original.value.h;
      var dx := Delta(pos.x - dragStart.x, scale);
      var dy := Delta(pos.y - dragStart.y, scale);
      Clamped(Dragged(cropStart, handle.value, dx, dy, w, h, lockAspect, aspect), w, h)
    }

    /** `mouseMoveEvent`: while dragging, the candidate replaces the crop
        only if it is at least 10 by 10; hovering changes no state. */
    method MouseMove(pos: Point)
      requires Valid()
      modifies this
      ensures Valid()
      ensures old(shown.Some? && dragging) && Fits(old(Candidate(pos))) ==> crop == old(Candidate(pos))
      ensures !(old(shown.Some? && dragging) && Fits(old(Candidate(pos)))) ==> crop == old(crop)
      ensures original == old(original) && shown == old(shown) && scale == old(scale)
      ensures offset == old(offset) && dragging == old(dragging) && handle == old(handle)
      ensures dragStart == old(dragStart) && cropStart == old(cropStart)
      ensures lockAspect == old(lockAspect) && aspect == old(aspect)
    {
      if shown.None? {
        return;
      }
      if dragging {
        var c := Candidate(pos);
        if Fits(c) {
          var w := original.value.w;
          var h := original.value.h;
          var dx := Delta(pos.x - dragStart.x, scale);
          var dy := Delta(pos.y - dragStart.y, scale);
          AcceptedInside(Dragged(cropStart, handle.value, dx, dy, w, h, lockAspect, aspect), w, h);
          crop := c;
        }
      }
    }

    /** `mouseReleaseEvent`: a left release ends any drag. */
    method MouseRelease(left: bool)
      requires Valid()
      modifies this
      ensures Valid()
      ensures left ==> !dragging && handle.None?
      ensures !left ==> dragging == old(dragging) && handle == old(handle)
      ensures crop == old(crop) && original == old(original) && shown == old(shown)
      ensures cropStart == old(cropStart) && dragStart == old(dragStart)
      ensures scale == old(scale) && offset == old(offset)
      ensures lockAspect == old(lockAspect) && aspect == old(aspect)
    {
      if left {
        dragging := false;
        handle := None;
      }
    }
  }

  /** While a picture is shown the crop is never null, so the handle under
      a point is the hit test on the crop in display coordinates. */
  lemma HandleUnderShown(c: CropPreview, p: Point)
    requires c.Valid() && c.shown.Some?
    ensures c.HandleUnder(p) == HandleAt(DisplayCrop(c.crop, c.offset, c.scale), p)
  {
  }

  // ---------------------------------------------------------------------
  // The dialog

  /** The pixmap the dialog returns: the selection as it is, or a copy of the
      cropped part of it. */
  datatype Chosen = Unchanged(pixmap: Option<Pixmap>) | Cropped(source: Pixmap, area: Rect)

  datatype ImageValues = ImageValues(chosen: Chosen, imagePath: Option<string>, scaleMode: string)

  /** `get_values`: the crop is applied only to a real image, and only when
      it is a proper rectangle other than the whole image. */
  function ValuesFor(selected: Option<Pixmap>, crop: Rect, path: Option<string>, mode: string): (v: ImageValues)
    ensures v.imagePath == path && v.scaleMode == mode
    ensures v.chosen.Cropped? <==>
      selected.Some? && !selected.value.IsNull() && !crop.IsNull() && crop.IsValid()
      && crop != FullRect(selected.value.w, selected.value.h)
    ensures v.chosen.Cropped? ==> v.chosen.source == selected.value && v.chosen.area == crop
    ensures v.chosen.Unchanged? ==> v.chosen.pixmap == selected
  {
    var chosen :=
      if selected.Some? && !selected.value.IsNull() && !crop.IsNull() && crop.IsValid()
         && crop != FullRect(selected.value.w, selected.value.h)
      then Cropped(selected.value, crop)
      else Unchanged(selected);
    ImageValues(chosen, path, mode)
  }

  /** A crop inside the image that is returned is strictly narrower or
      strictly shorter than the image. */
  lemma CroppedIsSmaller(p: Pixmap, crop: Rect, path: Option<string>, mode: string)
    requires !p.IsNull() && Inside(crop, p.w, p.h)
    ensures ValuesFor(Some(p), crop, path, mode).chosen.Cropped? <==> crop.Width() < p.w || crop.Height() < p.h
  {
  }

  /** After the crop is reset, the dialog hands back the image untouched. */
  lemma FullCropReturnsImage(p: Pixmap, path: Option<string>, mode: string)
    requires !p.IsNull()
    ensures ValuesFor(Some(p), FullRect(p.w, p.h), path, mode).chosen == Unchanged(Some(p))
  {
  }

  const FIT_MODE := "fit"

  class ImageDialog {
    const preview: CropPreview
    var selected: Option<Pixmap>
    var imagePath: Option<string>
    var scaleMode: string

    predicate Valid()
      reads this, preview
    {
      preview.Valid()
    }

    /** `__init__`: an initial path is loaded (`loaded` is what Qt read from
        it) and shown in the preview; the scale mode defaults to fit. */
    constructor(initialPath: Option<string>, loaded: Pixmap, initialMode: Option<string>,
                widgetW: int, widgetH: int, shownW: Pos, shownH: Pos)
      ensures Valid() && fresh(preview)
      ensures imagePath == initialPath
      ensures selected == (if initialPath.Some? && initialPath.value != "" then Some(loaded) else None)
      ensures scaleMode == (if initialMode.Some? && initialMode.value != "" then initialMode.value else FIT_MODE)
      ensures selected.Some? ==> preview.original == selected
      ensures selected.Some? && !loaded.IsNull() ==> preview.crop == FullRect(loaded.w, loaded.h)
    {
      var p := new CropPreview();
      preview := p;
      imagePath := initialPath;
      scaleMode := if initialMode.Some? && initialMode.value != "" then initialMode.value else FIT_MODE;
      selected := if initialPath.Some? && initialPath.value != "" then Some(loaded) else None;
      new;
      if selected.Some? {
        p.SetImage(selected, widgetW, widgetH, shownW, shownH);
      }
    }

    /** `select_image`: a chosen file that loads replaces the selection and
        resets the preview; a cancelled dialog or an unreadable file changes
        nothing. */
    method SelectImage(filePath: string, loaded: Pixmap, widgetW: int, widgetH: int, shownW: Pos, shownH: Pos)
      requires Valid()
      modifies this, preview
      ensures Valid()
      ensures filePath != "" && !loaded.IsNull() ==>
        selected == Some(loaded) && imagePath == Some(filePath)
        && preview.original == Some(loaded) && preview.crop == FullRect(loaded.w, loaded.h)
      ensures !(filePath != "" && !loaded.IsNull()) ==>
        selected == old(selected) && imagePath == old(imagePath) && unchanged(preview)
      ensures scaleMode == old(scaleMode)
    {
      if filePath != "" && !loaded.IsNull() {
        selected := Some(loaded);
        imagePath := Some(filePath);
        preview.SetImage(Some(loaded), widgetW, widgetH, shownW, shownH);
      }
    }

    /** `reset_crop`: show the selection again, which resets the crop. */
    method ResetCrop(widgetW: int, widgetH: int, shownW: Pos, shownH: Pos)
      requires Valid()
      modifies preview
      ensures Valid()
      ensures selected.Some? && !selected.value.IsNull() ==>
        preview.crop == FullRect(selected.value.w, selected.value.h)
      ensures selected.None? ==> unchanged(preview)
    {
      if selected.Some? {
        preview.SetImage(selected, widgetW, widgetH, shownW, shownH);
      }
    }

    method ScaleModeChanged(mode: string)
      requires Valid()
      modifies this
      ensures Valid() && scaleMode == mode && selected == old(selected) && imagePath == old(imagePath)
    {
      scaleMode := mode;
    }

    function GetValues(): (v: ImageValues)
      reads this, preview
    {
      ValuesFor(selected, preview.crop, imagePath, scaleMode)
    }

    /** `accept`: the dialog closes only with a real image selected. */
    method Accept() returns (accepted: bool)
      ensures accepted <==> selected.Some? && !selected.value.IsNull()
    {
      accepted := selected.Some? && !selected.value.IsNull();
    }
  }
}
