/** Interactive layers (src/core/interactive_layer.py): the text box, image
    frame and symbol layers that can be selected, moved and resized on the
    canvas.

    A layer is a value, so each operation that writes into `self.data` in
    the source returns the updated layer. Geometry is read from the layer's
    data dictionary; a value there that is not a number makes the
    arithmetic raise a TypeError. */
module InteractiveLayers {
  import opened Common
  import opened Values
  import opened Layers

  datatype ResizeHandle = NoHandle | TopLeft | TopRight | BottomLeft | BottomRight

  /** A `QRectF`: its right edge is `x + w` and its bottom edge `y + h`. */
  datatype Rect = Rect(x: real, y: real, w: real, h: real)
  {
    function Right(): real { x + w }
    function Bottom(): real { y + h }
  }

  datatype Point = Point(x: real, y: real)

  /** The smallest width and height a resize commits. */
  const MIN_SIZE: real := 20.0

  /** Hit radius of a corner handle. */
  const HANDLE_SIZE: real := 12.0

  // ---------------------------------------------------------------------
  // Resizing by a corner handle

  /** The width-to-height ratio kept by an aspect-locked resize; 1.0 for a
      box without positive height. */
  function Aspect(w: real, h: real): real
  {
    if h > 0.0 then w / h else 1.0
  }

  /** The box a corner drag proposes, before the minimum-size check. With the
      aspect lock the larger of the two deltas drives the size; dividing by a
      zero aspect ratio raises. */
  function Proposed(handle: ResizeHandle, b: Rect, dx: real, dy: real, keep: bool): (r: Result<Rect>)
    requires handle != NoHandle
  {
    var a := Aspect(b.w, b.h);
    var wide := AbsR(dx) > AbsR(dy);
    if keep && wide && a == 0.0 then Err(ZeroDivisionError)
    else
      match handle
      case TopLeft =>
        var nw := b.w - dx;
        var nh := b.h - dy;
        if !keep then Ok(Rect(b.x + dx, b.y + dy, nw, nh))
        else if wide then Ok(Rect(b.x + dx, b.y + b.h - nw / a, nw, nw / a))
        else Ok(Rect(b.x + b.w - nh * a, b.y + dy, nh * a, nh))
      case TopRight =>
        var nw := b.w + dx;
        var nh := b.h - dy;
        if !keep then Ok(Rect(b.x, b.y + dy, nw, nh))
        else if wide then Ok(Rect(b.x, b.y + b.h - nw / a, nw, nw / a))
        else Ok(Rect(b.x, b.y + dy, nh * a, nh))
      case BottomLeft =>
        var nw := b.w - dx;
        var nh := b.h + dy;
        if !keep then Ok(Rect(b.x + dx, b.y, nw, nh))
        else if wide then Ok(Rect(b.x + dx, b.y, nw, nw / a))
        else Ok(Rect(b.x + b.w - nh * a, b.y, nh * a, nh))
      case BottomRight =>
        var nw := b.w + dx;
        var nh := b.h + dy;
        if !keep then Ok(Rect(b.x, b.y, nw, nh))
        else if wide then Ok(Rect(b.x, b.y, nw, nw / a))
        else Ok(Rect(b.x, b.y, nh * a, nh))
  }

  /** The box after the drag: the proposal when both sides reach the minimum,
      the old box otherwise. */
  function Resized(handle: ResizeHandle, b: Rect, dx: real, dy: real, keep: bool): (r: Result<Rect>)
    ensures handle == NoHandle ==> r == Ok(b)
    ensures r.Ok? ==> r.value == b || (r.value.w >= MIN_SIZE && r.value.h >= MIN_SIZE)
    ensures r.Err? <==> handle != NoHandle && keep && AbsR(dx) > AbsR(dy) && b.h > 0.0 && b.w == 0.0
  {
    if handle == NoHandle then Ok(b)
    else
      var c :- Proposed(handle, b, dx, dy, keep);
      Ok(if c.w >= MIN_SIZE && c.h >= MIN_SIZE then c else b)
  }

  /** The corner opposite the dragged one stays where it was, with or without
      the aspect lock. */
  lemma ResizeKeepsAnchor(handle: ResizeHandle, b: Rect, dx: real, dy: real, keep: bool)
    requires Resized(handle, b, dx, dy, keep).Ok?
    ensures var r := Resized(handle, b, dx, dy, keep).value;
      && (handle == TopLeft ==> r.Right() == b.Right() && r.Bottom() == b.Bottom())
      && (handle == TopRight ==> r.x == b.x && r.Bottom() == b.Bottom())
      && (handle == BottomLeft ==> r.Right() == b.Right() && r.y == b.y)
      && (handle == BottomRight ==> r.x == b.x && r.y == b.y)
  {
  }

  /** Without the aspect lock a committed drag moves the dragged corner by
      exactly the deltas. */
  lemma ResizeFollowsDrag(handle: ResizeHandle, b: Rect, dx: real, dy: real)
    requires handle != NoHandle
    requires Resized(handle, b, dx, dy, false).value != b
    ensures var r := Resized(handle, b, dx, dy, false).value;
      && (handle == TopLeft ==> r.x == b.x + dx && r.y == b.y + dy)
      && (handle == TopRight ==> r.Right() == b.Right() + dx && r.y == b.y + dy)
      && (handle == BottomLeft ==> r.x == b.x + dx && r.Bottom() == b.Bottom() + dy)
      && (handle == BottomRight ==> r.Right() == b.Right() + dx && r.Bottom() == b.Bottom() + dy)
  {
  }

  /** With the aspect lock the larger delta drives. A wider drag moves the
      dragged side horizontally and derives the height from the width. */
  lemma ResizeKeepsAspectWide(handle: ResizeHandle, b: Rect, dx: real, dy: real)
    requires handle != NoHandle && AbsR(dx) > AbsR(dy)
    requires Resized(handle, b, dx, dy, true).Ok?
    requires Resized(handle, b, dx, dy, true).value != b
    ensures var r := Resized(handle, b, dx, dy, true).value;
      r.h * Aspect(b.w, b.h) == r.w
      && r.w == (if handle == TopLeft || handle == BottomLeft then b.w - dx else b.w + dx)
  {
    var a := Aspect(b.w, b.h);
    var r := Resized(handle, b, dx, dy, true).value;
    assert r == Proposed(handle, b, dx, dy, true).value;
    assert a != 0.0;
    var nw := if handle == TopLeft || handle == BottomLeft then b.w - dx else b.w + dx;
    assert r.w == nw && r.h == nw / a;
    assert (nw / a) * a == nw;
  }

  /** Any other aspect-locked drag moves the dragged side vertically and
      derives the width from the height. */
  lemma ResizeKeepsAspectTall(handle: ResizeHandle, b: Rect, dx: real, dy: real)
    requires handle != NoHandle && AbsR(dx) <= AbsR(dy)
    requires Resized(handle, b, dx, dy, true).value != b
    ensures var r := Resized(handle, b, dx, dy, true).value;
      r.w == r.h * Aspect(b.w, b.h)
      && r.h == (if handle == TopLeft || handle == TopRight then b.h - dy else b.h + dy)
  {
    var r := Resized(handle, b, dx, dy, true).value;
    assert r == Proposed(handle, b, dx, dy, true).value;
  }

  /** The box `resize` reads: missing fields default to (0, 0, 100, 100). */
  function ResizeBox(d: Dict): Result<Rect>
  {
    var x :- NumOr(d, "x", 0.0);
    var y :- NumOr(d, "y", 0.0);
    var w :- NumOr(d, "width", 100.0);
    var h :- NumOr(d, "height", 100.0);
    Ok(Rect(x, y, w, h))
  }

  /** The keys a committed drag writes: only the edges that move. */
  function Commit(d: Dict, handle: ResizeHandle, c: Rect): Dict
  {
    match handle
    case TopLeft =>
      Put(Put(Put(Put(d, "x", VReal(c.x)), "y", VReal(c.y)), "width", VReal(c.w)), "height", VReal(c.h))
    case TopRight => Put(Put(Put(d, "y", VReal(c.y)), "width", VReal(c.w)), "height", VReal(c.h))
    case BottomLeft => Put(Put(Put(d, "x", VReal(c.x)), "width", VReal(c.w)), "height", VReal(c.h))
    case BottomRight => Put(Put(d, "width", VReal(c.w)), "height", VReal(c.h))
    case NoHandle => d
  }

  /** `InteractiveLayer.resize`. Fields the dragged corner does not use are
      not read, so only the used ones must be numbers. */
  function Resize(l: Layer, handle: ResizeHandle, dx: real, dy: real, keep: bool): (r: Result<Layer>)
    requires l.kind.Interactive?
    ensures !l.kind.resizable || handle == NoHandle ==> r == Ok(l)
    ensures r.Ok? ==> r.value.(data := l.data) == l
    ensures r.Err? ==> r.error == TypeError || r.error == ZeroDivisionError
  {
    if !l.kind.resizable || handle == NoHandle then Ok(l)
    else
      var w :- NumOr(l.data, "width", 100.0);
      var h :- NumOr(l.data, "height", 100.0);
      var x :- if handle == TopLeft || handle == BottomLeft then NumOr(l.data, "x", 0.0) else Ok(0.0);
      var y :- if handle == TopLeft || handle == TopRight then NumOr(l.data, "y", 0.0) else Ok(0.0);
      var c :- Proposed(handle, Rect(x, y, w, h), dx, dy, keep);
      if c.w >= MIN_SIZE && c.h >= MIN_SIZE then Ok(l.(data := Commit(l.data, handle, c)))
      else Ok(l)
  }

  /** The box with the field stored under `k` replaced by `v`. */
  function WithField(b: Rect, k: string, v: real): Rect
  {
    if k == "x" then b.(x := v)
    else if k == "y" then b.(y := v)
    else if k == "width" then b.(w := v)
    else if k == "height" then b.(h := v)
    else b
  }

  lemma ResizeBoxPut(d: Dict, k: string, v: real, b: Rect)
    requires ResizeBox(d) == Ok(b)
    requires k == "x" || k == "y" || k == "width" || k == "height"
    ensures ResizeBox(Put(d, k, VReal(v))) == Ok(WithField(b, k, v))
  {
    var d' := Put(d, k, VReal(v));
    NumOrPut(d, k, v, if k == "x" || k == "y" then 0.0 else 100.0);
    if k != "x" { NumOrPutOther(d, k, VReal(v), "x", 0.0); }
    if k != "y" { NumOrPutOther(d, k, VReal(v), "y", 0.0); }
    if k != "width" { NumOrPutOther(d, k, VReal(v), "width", 100.0); }
    if k != "height" { NumOrPutOther(d, k, VReal(v), "height", 100.0); }
  }

  /** Which box a committed drag leaves: the written edges come from the
      proposal, the others stay as they were. */
  function Committed(handle: ResizeHandle, b: Rect, c: Rect): Rect
  {
    Rect(if handle == TopLeft || handle == BottomLeft then c.x else b.x,
         if handle == TopLeft || handle == TopRight then c.y else b.y,
         if handle == NoHandle then b.w else c.w,
         if handle == NoHandle then b.h else c.h)
  }

  lemma CommitReadsBack(d: Dict, handle: ResizeHandle, c: Rect, b: Rect)
    requires ResizeBox(d) == Ok(b)
    ensures ResizeBox(Commit(d, handle, c)) == Ok(Committed(handle, b, c))
  {
    match handle
    case TopLeft =>
      var d1 := Put(d, "x", VReal(c.x));
      var d2 := Put(d1, "y", VReal(c.y));
      var d3 := Put(d2, "width", VReal(c.w));
      ResizeBoxPut(d, "x", c.x, b);
      ResizeBoxPut(d1, "y", c.y, b.(x := c.x));
      ResizeBoxPut(d2, "width", c.w, b.(x := c.x, y := c.y));
      ResizeBoxPut(d3, "height", c.h, b.(x := c.x, y := c.y, w := c.w));
    case TopRight =>
      var d1 := Put(d, "y", VReal(c.y));
      var d2 := Put(d1, "width", VReal(c.w));
      ResizeBoxPut(d, "y", c.y, b);
      ResizeBoxPut(d1, "width", c.w, b.(y := c.y));
      ResizeBoxPut(d2, "height", c.h, b.(y := c.y, w := c.w));
    case BottomLeft =>
      var d1 := Put(d, "x", VReal(c.x));
      var d2 := Put(d1, "width", VReal(c.w));
      ResizeBoxPut(d, "x", c.x, b);
      ResizeBoxPut(d1, "width", c.w, b.(x := c.x));
      ResizeBoxPut(d2, "height", c.h, b.(x := c.x, w := c.w));
    case BottomRight =>
      var d1 := Put(d, "width", VReal(c.w));
      ResizeBoxPut(d, "width", c.w, b);
      ResizeBoxPut(d1, "height", c.h, b.(w := c.w));
    case NoHandle =>
  }

  /** The box `resize` actually reads: the edges a corner does not move are
      not looked up and stand at zero. */
  function ReadBox(handle: ResizeHandle, b: Rect): Rect
  {
    Rect(if handle == TopLeft || handle == BottomLeft then b.x else 0.0,
         if handle == TopLeft || handle == TopRight then b.y else 0.0,
         b.w, b.h)
  }

  /** Reading only the moved edges loses nothing: the written edges of the
      proposal agree with the proposal on the full box. */
  lemma ProposedOnReadBox(handle: ResizeHandle, b: Rect, dx: real, dy: real, keep: bool)
    requires handle != NoHandle
    ensures Proposed(handle, ReadBox(handle, b), dx, dy, keep).Ok? <==> Proposed(handle, b, dx, dy, keep).Ok?
    ensures Proposed(handle, b, dx, dy, keep).Ok? ==>
      Committed(handle, b, Proposed(handle, ReadBox(handle, b), dx, dy, keep).value) == Proposed(handle, b, dx, dy, keep).value
  {
    match handle
    case TopLeft =>
    case TopRight =>
    case BottomLeft =>
    case BottomRight =>
  }

  /** On a layer whose box reads cleanly, `resize` leaves exactly the box
      `Resized` describes in the layer's data. */
  lemma ResizeMatchesGeometry(l: Layer, handle: ResizeHandle, dx: real, dy: real, keep: bool, b: Rect)
    requires l.kind.Interactive? && l.kind.resizable
    requires ResizeBox(l.data) == Ok(b)
    ensures Resize(l, handle, dx, dy, keep).Ok? <==> Resized(handle, b, dx, dy, keep).Ok?
    ensures Resize(l, handle, dx, dy, keep).Ok? ==>
      ResizeBox(Resize(l, handle, dx, dy, keep).value.data) == Resized(handle, b, dx, dy, keep)
  {
    if handle != NoHandle {
      var p := Proposed(handle, ReadBox(handle, b), dx, dy, keep);
      assert Resize(l, handle, dx, dy, keep) ==
        if p.Err? then Err(p.error)
        else if p.value.w >= MIN_SIZE && p.value.h >= MIN_SIZE then Ok(l.(data := Commit(l.data, handle, p.value)))
        else Ok(l);
      ProposedOnReadBox(handle, b, dx, dy, keep);
      if p.Ok? {
        CommitReadsBack(l.data, handle, p.value, b);
      }
    }
  }

  // ---------------------------------------------------------------------
  // Bounds and handle hit testing

  /** `get_bounds` of each interactive kind: the frame scaled by `zoom`.
      A symbol's default size is computed from its font size even when the
      size is present. */
  function Bounds(l: Layer, zoom: real): (r: Result<Rect>)
    requires l.kind.Interactive?
    ensures r.Err? ==> r.error == TypeError
  {
    var x :- NumOr(l.data, "x", 0.0);
    var y :- NumOr(l.data, "y", 0.0);
    match l.kind.shape
    case TextBox =>
      var w :- NumOr(l.data, "width", 150.0);
      var h :- NumOr(l.data, "height", 40.0);
      Ok(Rect(x * zoom, y * zoom, w * zoom, h * zoom))
    case Picture =>
      var w :- NumOr(l.data, "width", 100.0);
      var h :- NumOr(l.data, "height", 100.0);
      Ok(Rect(x * zoom, y * zoom, w * zoom, h * zoom))
    case Glyph =>
      var f :- NumOr(l.data, "font_size", 24.0);
      var w :- NumOr(l.data, "width", f * 1.2);
      var h :- NumOr(l.data, "height", f * 1.2);
      Ok(Rect(x * zoom, y * zoom, w * zoom, h * zoom))
  }

  /** A `QRectF` is falsy exactly when it is null: zero width and height. */
  predicate IsNullRect(r: Rect) { r.w == 0.0 && r.h == 0.0 }

  function Corner(b: Rect, h: ResizeHandle): Point
    requires h != NoHandle
  {
    match h
    case TopLeft => Point(b.x, b.y)
    case TopRight => Point(b.Right(), b.y)
    case BottomLeft => Point(b.x, b.Bottom())
    case BottomRight => Point(b.Right(), b.Bottom())
  }

  /** Within `HANDLE_SIZE` of a corner, compared on squared distances. */
  predicate Near(p: Point, c: Point)
  {
    (p.x - c.x) * (p.x - c.x) + (p.y - c.y) * (p.y - c.y) <= HANDLE_SIZE * HANDLE_SIZE
  }

  /** The order in which corners are tried. */
  function Rank(h: ResizeHandle): nat
  {
    match h
    case TopLeft => 0
    case TopRight => 1
    case BottomLeft => 2
    case BottomRight => 3
    case NoHandle => 4
  }

  /** The first corner of `b` near `p`, in the order TL, TR, BL, BR. */
  function HandleAtRect(b: Rect, p: Point): (r: ResizeHandle)
    ensures r != NoHandle ==> Near(p, Corner(b, r))
    ensures forall h :: h != NoHandle && Rank(h) < Rank(r) ==> !Near(p, Corner(b, h))
  {
    if Near(p, Corner(b, TopLeft)) then TopLeft
    else if Near(p, Corner(b, TopRight)) then TopRight
    else if Near(p, Corner(b, BottomLeft)) then BottomLeft
    else if Near(p, Corner(b, BottomRight)) then BottomRight
    else NoHandle
  }

  /** `get_resize_handle_at`. */
  function HandleAt(l: Layer, p: Point, zoom: real): (r: Result<ResizeHandle>)
    requires l.kind.Interactive?
    ensures !l.kind.resizable ==> r == Ok(NoHandle)
    ensures l.kind.resizable && Bounds(l, zoom).Ok? && !IsNullRect(Bounds(l, zoom).value) ==>
      r == Ok(HandleAtRect(Bounds(l, zoom).value, p))
    ensures l.kind.resizable && Bounds(l, zoom).Ok? && IsNullRect(Bounds(l, zoom).value) ==> r == Ok(NoHandle)
  {
    if !l.kind.resizable then Ok(NoHandle)
    else
      var b :- Bounds(l, zoom);
      if IsNullRect(b) then Ok(NoHandle) else Ok(HandleAtRect(b, p))
  }

  /** A corner-handle hit followed by a drag of that corner moves that very
      corner: the handle reported is one whose corner is near the point. */
  lemma HandleHitIsNear(l: Layer, p: Point, zoom: real)
    requires l.kind.Interactive? && l.kind.resizable
    requires HandleAt(l, p, zoom).Ok? && HandleAt(l, p, zoom).value != NoHandle
    ensures Bounds(l, zoom).Ok? && Near(p, Corner(Bounds(l, zoom).value, HandleAt(l, p, zoom).value))
  {
  }

  // ---------------------------------------------------------------------
  // Moving

  /** `move_to`: only text-type layers (text boxes and symbols) move. */
  function MoveTo(l: Layer, x: real, y: real): (r: Layer)
    ensures l.ltype != Text ==> r == l
    ensures r.(data := l.data) == l
  {
    if l.ltype == Text then l.(data := Put(Put(l.data, "x", VReal(x)), "y", VReal(y))) else l
  }

  /** `move_by`: only text-type layers move; an image frame stays put. */
  function MoveBy(l: Layer, dx: real, dy: real): (r: Result<Layer>)
    ensures l.ltype != Text ==> r == Ok(l)
    ensures r.Ok? ==> r.value.(data := l.data) == l
  {
    if l.ltype != Text then Ok(l)
    else
      var x :- NumOr(l.data, "x", 0.0);
      var y :- NumOr(l.data, "y", 0.0);
      Ok(MoveTo(l, x + dx, y + dy))
  }

  /** A text layer at (x, y) moved by the deltas lands at (tx, ty) =
      (x + dx, y + dy). */
  lemma MoveByPosition(l: Layer, dx: real, dy: real, x: real, y: real, tx: real, ty: real)
    requires l.ltype == Text
    requires NumOr(l.data, "x", 0.0) == Ok(x) && NumOr(l.data, "y", 0.0) == Ok(y)
    requires tx == x + dx && ty == y + dy
    ensures MoveBy(l, dx, dy) == Ok(MoveTo(l, tx, ty))
    ensures NumOr(MoveTo(l, tx, ty).data, "x", 0.0) == Ok(tx)
    ensures NumOr(MoveTo(l, tx, ty).data, "y", 0.0) == Ok(ty)
  {
    var d1 := Put(l.data, "x", VReal(tx));
    var d2 := Put(d1, "y", VReal(ty));
    assert MoveBy(l, dx, dy) == Ok(l.(data := d2));
    NumOrPut(l.data, "x", tx, 0.0);
    NumOrPutOther(d1, "y", VReal(ty), "x", 0.0);
    NumOrPut(d1, "y", ty, 0.0);
    assert NumOr(d2, "x", 0.0) == Ok(tx);
  }

  /** Moving back by deltas that cancel the first move restores the layer
      exactly when its position is stored as reals. */
  lemma MoveByInverse(l: Layer, dx: real, dy: real, backX: real, backY: real, x: real, y: real)
    requires l.ltype == Text
    requires Get(l.data, "x") == Some(VReal(x)) && Get(l.data, "y") == Some(VReal(y))
    requires dx + backX == 0.0 && dy + backY == 0.0
    ensures MoveBy(l, dx, dy).Ok?
    ensures MoveBy(MoveBy(l, dx, dy).value, backX, backY) == Ok(l)
  {
    var d := l.data;
    var xd, yd := x + dx, y + dy;
    var d1 := Put(d, "x", VReal(xd));
    var d2 := Put(d1, "y", VReal(yd));
    MoveByPosition(l, dx, dy, x, y, xd, yd);
    var m := MoveTo(l, xd, yd);
    assert m == l.(data := d2);
    MoveByPosition(m, backX, backY, xd, yd, x, y);
    var d3 := Put(d2, "x", VReal(x));
    assert MoveTo(m, x, y) == l.(data := Put(d3, "y", VReal(y)));
    PutCommute(d1, "x", VReal(x), "y", VReal(yd));
    PutPutSame(d, "x", VReal(xd), VReal(x));
    PutGetSame(d, "x", VReal(x));
    assert d3 == Put(d, "y", VReal(yd));
    PutPutSame(d, "y", VReal(yd), VReal(y));
    PutGetSame(d, "y", VReal(y));
  }

  /** The four geometry entries every interactive layer's data starts its
      frame with, in the order the constructors write them. */
  function Geometry(x: real, y: real, w: Value, h: Value): Dict
  {
    [("x", VReal(x)), ("y", VReal(y)), ("width", w), ("height", h)]
  }

  lemma GeometryGet(x: real, y: real, w: Value, h: Value)
    ensures Get(Geometry(x, y, w, h), "x") == Some(VReal(x))
    ensures Get(Geometry(x, y, w, h), "y") == Some(VReal(y))
    ensures Get(Geometry(x, y, w, h), "width") == Some(w)
    ensures Get(Geometry(x, y, w, h), "height") == Some(h)
  {
    var g := Geometry(x, y, w, h);
    var g1: Dict := [("y", VReal(y)), ("width", w), ("height", h)];
    var g2: Dict := [("width", w), ("height", h)];
    var g3: Dict := [("height", h)];
    assert g[1..] == g1 && g1[1..] == g2 && g2[1..] == g3;
    assert Get(g3, "height") == Some(h);
    assert Get(g2, "height") == Get(g3, "height");
    assert Get(g1, "height") == Get(g2, "height");
    assert Get(g2, "width") == Some(w);
    assert Get(g1, "width") == Get(g2, "width");
  }

  lemma GeometryGetOther(x: real, y: real, w: Value, h: Value, k: string)
    requires k != "x" && k != "y" && k != "width" && k != "height"
    ensures !HasKey(Geometry(x, y, w, h), k)
  {
    var g := Geometry(x, y, w, h);
    var g1: Dict := [("y", VReal(y)), ("width", w), ("height", h)];
    var g2: Dict := [("width", w), ("height", h)];
    var g3: Dict := [("height", h)];
    assert g[1..] == g1 && g1[1..] == g2 && g2[1..] == g3 && g3[1..] == [];
    assert !HasKey(g3, k);
    assert !HasKey(g2, k);
    assert !HasKey(g1, k);
  }

  /** A box whose four fields are stored as numbers reads back as is. */
  lemma ResizeBoxOf(d: Dict, x: real, y: real, w: Value, h: Value)
    requires Get(d, "x") == Some(VReal(x)) && Get(d, "y") == Some(VReal(y))
    requires Get(d, "width") == Some(w) && Get(d, "height") == Some(h)
    requires IsNumber(w) && IsNumber(h)
    ensures ResizeBox(d) == Ok(Rect(x, y, AsReal(w), AsReal(h)))
  {
  }

  /** The geometry entries of a data dictionary built as `pre + Geometry +
      post`, where `pre` holds no geometry key. */
  lemma GeometryIn(pre: Dict, x: real, y: real, w: Value, h: Value, post: Dict)
    requires !HasKey(pre, "x") && !HasKey(pre, "y") && !HasKey(pre, "width") && !HasKey(pre, "height")
    ensures var d := pre + Geometry(x, y, w, h) + post;
      Get(d, "x") == Some(VReal(x)) && Get(d, "y") == Some(VReal(y))
      && Get(d, "width") == Some(w) && Get(d, "height") == Some(h)
  {
    var g := Geometry(x, y, w, h);
    GeometryGet(x, y, w, h);
    GetAppend(pre + g, post, "x");
    GetAppend(pre + g, post, "y");
    GetAppend(pre + g, post, "width");
    GetAppend(pre + g, post, "height");
    GetAppend(pre, g, "x");
    GetAppend(pre, g, "y");
    GetAppend(pre, g, "width");
    GetAppend(pre, g, "height");
  }

  /** A data dictionary holding the four geometry entries after keys that
      are not geometry reads back the stored position and size. */
  lemma GeometryBox(pre: Dict, x: real, y: real, w: Value, h: Value, post: Dict)
    requires !HasKey(pre, "x") && !HasKey(pre, "y") && !HasKey(pre, "width") && !HasKey(pre, "height")
    requires IsNumber(w) && IsNumber(h)
    ensures ResizeBox(pre + Geometry(x, y, w, h) + post) == Ok(Rect(x, y, AsReal(w), AsReal(h)))
  {
    GeometryIn(pre, x, y, w, h, post);
    ResizeBoxOf(pre + Geometry(x, y, w, h) + post, x, y, w, h);
  }

  // ---------------------------------------------------------------------
  // Text boxes

  /** The flags of a freshly built interactive layer of the three kinds. */
  function FreshKind(shape: Shape): (k: Kind)
    ensures k.Interactive? && k.shape == shape && !k.selected && k.rotation == 0.0
  {
    Interactive(shape, false, true, true, true, 0.0)
  }

  /** `TextFieldLayer(page_num, x, y, text, width, height)`: the values
      passed are stored as they are. */
  function NewTextField(page: int, x: real, y: real, text: Value, width: Value, height: Value, freshId: string): (l: Layer)
    ensures l.ltype == Text && l.pageNum == page && l.id == freshId && l.name == "Text Box"
    ensures l.kind == FreshKind(TextBox) && l.kind.resizable && !l.kind.selected
    ensures Get(l.data, "text") == Some(text)
    ensures Get(l.data, "x") == Some(VReal(x)) && Get(l.data, "y") == Some(VReal(y))
    ensures Get(l.data, "width") == Some(width) && Get(l.data, "height") == Some(height)
    ensures IsNumber(width) && IsNumber(height) ==>
      ResizeBox(l.data) == Ok(Rect(x, y, AsReal(width), AsReal(height)))
  {
    var pre := [("text", text)];
    var d := pre + Geometry(x, y, width, height) +
             [("font", VStr("Arial")), ("font_size", VInt(12)), ("color", VStr("#000000")),
              ("bold", VBool(false)), ("italic", VBool(false)), ("underline", VBool(false)),
              ("show_border", VBool(true)), ("border_color", VStr("#CCCCCC")),
              ("background_color", VNone)];
    assert d[0].0 == "text";
    var post := d[|pre| + 4..];
    assert pre + Geometry(x, y, width, height) + post == d;
    GeometryIn(pre, x, y, width, height, post);
    assert IsNumber(width) && IsNumber(height) ==>
      ResizeBox(d) == Ok(Rect(x, y, AsReal(width), AsReal(height))) by {
      if IsNumber(width) && IsNumber(height) {
        ResizeBoxOf(d, x, y, width, height);
      }
    }
    Layer(freshId, Text, page, DefaultName(Text, "Text Box", freshId), true, false, 1.0, d, 0, FreshKind(TextBox))
  }

  /** The name a text box shows for non-blank text: its first line, cut to
      25 characters followed by "..." when longer; never the base name. */
  lemma TextBoxNameOfText(d: Dict, baseName: string)
    requires !IsBlank(GetStr(d, "text"))
    ensures var first := Strip(SplitFirst(Strip(GetStr(d, "text")), "\n"));
      first != []
      && TextBoxName(d, baseName) == (if |first| > MAX_NAME_LENGTH then first[..MAX_NAME_LENGTH] + "..." else first)
  {
    var text := Strip(GetStr(d, "text"));
    StripNoSpaceEnds(GetStr(d, "text"));
    var line := SplitFirst(text, "\n");
    if line == [] {
      assert text[..1] == "\n"[..1];
      assert OccursAt(text, "\n", 0);
      assert IsSpace(text[0]);
      assert false;
    }
    assert !IsSpace(line[0]) by { assert line[0] == text[0]; }
    assert LStrip(line) == line;
    var first := RStrip(line);
    if first == [] {
      StripEmptyIffAllSpace(line);
      assert false;
    }
  }

  function SetText(l: Layer, text: string): (r: Layer)
    ensures Get(r.data, "text") == Some(VStr(text))
    ensures forall k :: k != "text" ==> Get(r.data, k) == Get(l.data, k)
    ensures r.(data := l.data) == l
  {
    GetPutSame(l.data, "text", VStr(text));
    forall k | k != "text" ensures Get(Put(l.data, "text", VStr(text)), k) == Get(l.data, k) {
      GetPutOther(l.data, "text", VStr(text), k);
    }
    l.(data := Put(l.data, "text", VStr(text)))
  }

  /** `get_text`: whatever is stored under "text", or "". */
  function GetText(l: Layer): (r: Value)
    ensures !HasKey(l.data, "text") ==> r == VStr("")
    ensures HasKey(l.data, "text") ==> Get(l.data, "text") == Some(r)
  {
    GetOr(l.data, "text", VStr(""))
  }

  lemma GetSetText(l: Layer, text: string)
    ensures GetText(SetText(l, text)) == VStr(text)
  {
  }

  function SetFont(l: Layer, family: string, size: Value): (r: Layer)
    ensures Get(r.data, "font") == Some(VStr(family)) && Get(r.data, "font_size") == Some(size)
    ensures forall k :: k != "font" && k != "font_size" ==> Get(r.data, k) == Get(l.data, k)
    ensures r.(data := l.data) == l
  {
    var d1 := Put(l.data, "font", VStr(family));
    var d2 := Put(d1, "font_size", size);
    GetPutSame(d1, "font_size", size);
    GetPutSame(l.data, "font", VStr(family));
    GetPutOther(d1, "font_size", size, "font");
    forall k | k != "font" && k != "font_size" ensures Get(d2, k) == Get(l.data, k) {
      GetPutOther(l.data, "font", VStr(family), k);
      GetPutOther(d1, "font_size", size, k);
    }
    l.(data := d2)
  }

  lemma SetFontKeeps(l: Layer, family: string, size: Value, k: string)
    requires k != "font" && k != "font_size"
    ensures Get(SetFont(l, family, size).data, k) == Get(l.data, k)
  {
  }

  /** `set_color` of a text box or a symbol. */
  function SetColor(l: Layer, color: Value): (r: Layer)
    ensures Get(r.data, "color") == Some(color)
    ensures forall k :: k != "color" ==> Get(r.data, k) == Get(l.data, k)
    ensures r.(data := l.data) == l
  {
    GetPutSame(l.data, "color", color);
    forall k | k != "color" ensures Get(Put(l.data, "color", color), k) == Get(l.data, k) {
      GetPutOther(l.data, "color", color, k);
    }
    l.(data := Put(l.data, "color", color))
  }

  lemma SetColorKeeps(l: Layer, color: Value, k: string)
    requires k != "color"
    ensures Get(SetColor(l, color).data, k) == Get(l.data, k)
  {
  }

  /** Writes `flag` under `k` when it is given. */
  function PutFlag(d: Dict, k: string, flag: Option<bool>): (r: Dict)
    ensures flag.Some? ==> Get(r, k) == Some(VBool(flag.value))
    ensures flag.None? ==> r == d
    ensures forall k' :: k' != k ==> Get(r, k') == Get(d, k')
  {
    if flag.Some? then
      GetPutSame(d, k, VBool(flag.value));
      forall k' | k' != k ensures Get(Put(d, k, VBool(flag.value)), k') == Get(d, k') {
        GetPutOther(d, k, VBool(flag.value), k');
      }
      Put(d, k, VBool(flag.value))
    else d
  }

  lemma PutFlagKeeps(d: Dict, k: string, flag: Option<bool>, k': string)
    requires k' != k
    ensures Get(PutFlag(d, k, flag), k') == Get(d, k')
  {
  }

  /** `set_style`: only the flags passed (not None) change. */
  function SetStyle(l: Layer, bold: Option<bool>, italic: Option<bool>, underline: Option<bool>): (r: Layer)
    ensures bold.Some? ==> Get(r.data, "bold") == Some(VBool(bold.value))
    ensures italic.Some? ==> Get(r.data, "italic") == Some(VBool(italic.value))
    ensures underline.Some? ==> Get(r.data, "underline") == Some(VBool(underline.value))
    ensures bold.None? ==> Get(r.data, "bold") == Get(l.data, "bold")
    ensures italic.None? ==> Get(r.data, "italic") == Get(l.data, "italic")
    ensures underline.None? ==> Get(r.data, "underline") == Get(l.data, "underline")
    ensures forall k :: k != "bold" && k != "italic" && k != "underline" ==> Get(r.data, k) == Get(l.data, k)
    ensures r.(data := l.data) == l
  {
    var d1 := PutFlag(l.data, "bold", bold);
    var d2 := PutFlag(d1, "italic", italic);
    var d3 := PutFlag(d2, "underline", underline);
    PutFlagKeeps(d1, "italic", italic, "bold");
    PutFlagKeeps(d2, "underline", underline, "bold");
    PutFlagKeeps(d2, "underline", underline, "italic");
    PutFlagKeeps(l.data, "bold", bold, "italic");
    PutFlagKeeps(l.data, "bold", bold, "underline");
    PutFlagKeeps(d1, "italic", italic, "underline");
    forall k | k != "bold" && k != "italic" && k != "underline" ensures Get(d3, k) == Get(l.data, k) {
      PutFlagKeeps(l.data, "bold", bold, k);
      PutFlagKeeps(d1, "italic", italic, k);
      PutFlagKeeps(d2, "underline", underline, k);
    }
    l.(data := d3)
  }

  lemma SetStyleKeeps(l: Layer, bold: Option<bool>, italic: Option<bool>, underline: Option<bool>, k: string)
    requires k != "bold" && k != "italic" && k != "underline"
    ensures Get(SetStyle(l, bold, italic, underline).data, k) == Get(l.data, k)
  {
  }

  // ---------------------------------------------------------------------
  // Image frames

  datatype ScaleMode = Fit | Fill | Stretch | Actual

  function ScaleModeValue(m: ScaleMode): string
  {
    match m
    case Fit => "fit"
    case Fill => "fill"
    case Stretch => "stretch"
    case Actual => "actual"
  }

  /** `ImageScaleMode(v)`: anything but a member's value is a ValueError. */
  function ScaleModeFromValue(v: Value): (r: Result<ScaleMode>)
    ensures r.Ok? ==> v == VStr(ScaleModeValue(r.value))
    ensures r.Err? ==> r.error == ValueError
  {
    if v == VStr("fit") then Ok(Fit)
    else if v == VStr("fill") then Ok(Fill)
    else if v == VStr("stretch") then Ok(Stretch)
    else if v == VStr("actual") then Ok(Actual)
    else Err(ValueError)
  }

  /** A size passed to `ImageLayer`: None asks the pixmap for its size, and
      anything but a pixmap has no such method. */
  function SizeOr(size: Value, pixmap: Value, fromWidth: bool): (r: Result<Value>)
    ensures size != VNone ==> r == Ok(size)
    ensures size == VNone && pixmap.VPixmap? ==>
      r == Ok(VInt(if fromWidth then pixmap.pixmap.Width() else pixmap.pixmap.Height()))
    ensures r.Err? <==> size == VNone && !pixmap.VPixmap?
    ensures r.Err? ==> r.error == AttributeError
  {
    if size != VNone then Ok(size)
    else if pixmap.VPixmap? then Ok(VInt(if fromWidth then pixmap.pixmap.Width() else pixmap.pixmap.Height()))
    else Err(AttributeError)
  }

  /** `ImageLayer(page_num, x, y, pixmap, width, height, image_path)`: a
      size given as None is taken from the pixmap. */
  function NewImageLayer(page: int, x: real, y: real, pixmap: Value, width: Value,
                         height: Value, imagePath: Value, freshId: string): (r: Result<Layer>)
    ensures r.Err? <==> SizeOr(width, pixmap, true).Err? || SizeOr(height, pixmap, false).Err?
    ensures r.Ok? ==>
      var l := r.value;
      l.ltype == ImageType && l.pageNum == page && l.id == freshId && l.name == "Image"
      && l.kind == FreshKind(Picture)
      && Get(l.data, "x") == Some(VReal(x)) && Get(l.data, "y") == Some(VReal(y))
      && Get(l.data, "width") == Some(SizeOr(width, pixmap, true).value)
      && Get(l.data, "height") == Some(SizeOr(height, pixmap, false).value)
      && Get(l.data, "pixmap") == Some(pixmap)
      && Get(l.data, "scale_mode") == Some(VStr("fit"))
    ensures r.Ok? && IsNumber(SizeOr(width, pixmap, true).value) && IsNumber(SizeOr(height, pixmap, false).value) ==>
      ResizeBox(r.value.data)
        == Ok(Rect(x, y, AsReal(SizeOr(width, pixmap, true).value), AsReal(SizeOr(height, pixmap, false).value)))
  {
    var w :- SizeOr(width, pixmap, true);
    var h :- SizeOr(height, pixmap, false);
    var post := [("pixmap", pixmap), ("image_path", imagePath),
              ("scale_mode", VStr("fit")), ("show_border", VBool(true)),
              ("border_color", VStr("#CCCCCC")), ("rotation", VInt(0))];
    var d := Geometry(x, y, w, h) + post;
    assert [] + Geometry(x, y, w, h) + post == d;
    GeometryIn([], x, y, w, h, post);
    assert IsNumber(w) && IsNumber(h) ==> ResizeBox(d) == Ok(Rect(x, y, AsReal(w), AsReal(h))) by {
      if IsNumber(w) && IsNumber(h) {
        ResizeBoxOf(d, x, y, w, h);
      }
    }
    assert Get(post, "pixmap") == Some(pixmap);
    assert Get(post, "scale_mode") == Some(VStr("fit")) by {
      assert post[1..][1..][0] == post[2];
      assert Get(post[1..][1..], "scale_mode") == Some(VStr("fit"));
      assert Get(post[1..], "scale_mode") == Get(post[1..][1..], "scale_mode");
    }
    GeometryGetOther(x, y, w, h, "pixmap");
    GeometryGetOther(x, y, w, h, "scale_mode");
    GetAppend(Geometry(x, y, w, h), post, "pixmap");
    GetAppend(Geometry(x, y, w, h), post, "scale_mode");
    Ok(Layer(freshId, ImageType, page, DefaultName(ImageType, "Image", freshId), true, false, 1.0, d, 0, FreshKind(Picture)))
  }

  function SetScaleMode(l: Layer, m: ScaleMode): (r: Layer)
    ensures r.(data := l.data) == l
  {
    l.(data := Put(l.data, "scale_mode", VStr(ScaleModeValue(m))))
  }

  /** `get_scale_mode`: a missing entry reads as FIT. */
  function GetScaleMode(l: Layer): (r: Result<ScaleMode>)
    ensures !HasKey(l.data, "scale_mode") ==> r == Ok(Fit)
  {
    ScaleModeFromValue(GetOr(l.data, "scale_mode", VStr("fit")))
  }

  lemma ScaleModeRoundTrip(l: Layer, m: ScaleMode)
    ensures GetScaleMode(SetScaleMode(l, m)) == Ok(m)
  {
    GetPutSame(l.data, "scale_mode", VStr(ScaleModeValue(m)));
  }

  /** `set_image`: the pixmap always changes; the path only when a
      non-empty one is given. */
  function SetImage(l: Layer, pixmap: Pixmap, imagePath: Option<string>): (r: Layer)
    ensures Get(r.data, "pixmap") == Some(VPixmap(pixmap))
    ensures imagePath.Some? && imagePath.value != [] ==> Get(r.data, "image_path") == Some(VStr(imagePath.value))
    ensures !(imagePath.Some? && imagePath.value != []) ==> Get(r.data, "image_path") == Get(l.data, "image_path")
    ensures forall k :: k != "pixmap" && k != "image_path" ==> Get(r.data, k) == Get(l.data, k)
    ensures r.(data := l.data) == l
  {
    var d1 := Put(l.data, "pixmap", VPixmap(pixmap));
    GetPutSame(l.data, "pixmap", VPixmap(pixmap));
    GetPutOther(l.data, "pixmap", VPixmap(pixmap), "image_path");
    forall k | k != "pixmap" ensures Get(d1, k) == Get(l.data, k) {
      GetPutOther(l.data, "pixmap", VPixmap(pixmap), k);
    }
    if imagePath.Some? && imagePath.value != [] then
      var d2 := Put(d1, "image_path", VStr(imagePath.value));
      GetPutSame(d1, "image_path", VStr(imagePath.value));
      GetPutOther(d1, "image_path", VStr(imagePath.value), "pixmap");
      forall k | k != "image_path" ensures Get(d2, k) == Get(d1, k) {
        GetPutOther(d1, "image_path", VStr(imagePath.value), k);
      }
      l.(data := d2)
    else l.(data := d1)
  }

  /** `_calculate_image_rect`: where the picture is drawn inside its frame.
      FIT and FILL divide by the picture's size, so a null picture raises. */
  function ImageRect(img: Pixmap, frame: Rect, mode: ScaleMode): (r: Result<Rect>)
    ensures mode == Stretch ==> r == Ok(frame)
    ensures r.Err? <==> (mode == Fit || mode == Fill) && img.IsNull()
  {
    var iw := img.Width() as real;
    var ih := img.Height() as real;
    match mode
    case Stretch => Ok(frame)
    case Actual => Ok(Rect(frame.x + (frame.w - iw) / 2.0, frame.y + (frame.h - ih) / 2.0, iw, ih))
    case Fill =>
      if iw == 0.0 then Err(ZeroDivisionError)
      else
        var scale := MaxR(frame.w / iw, frame.h / ih);
        Ok(Rect(frame.x + (frame.w - iw * scale) / 2.0, frame.y + (frame.h - ih * scale) / 2.0, iw * scale, ih * scale))
    case Fit =>
      if iw == 0.0 then Err(ZeroDivisionError)
      else
        var scale := MinR(frame.w / iw, frame.h / ih);
        Ok(Rect(frame.x + (frame.w - iw * scale) / 2.0, frame.y + (frame.h - ih * scale) / 2.0, iw * scale, ih * scale))
  }

  /** Every mode centres the picture in the frame; FIT keeps it inside the
      frame and FILL covers the frame, both at the picture's proportions. */
  lemma ImageRectPlacement(img: Pixmap, frame: Rect, mode: ScaleMode)
    requires !img.IsNull()
    ensures var r := ImageRect(img, frame, mode).value;
      r.x - frame.x == frame.Right() - r.Right() && r.y - frame.y == frame.Bottom() - r.Bottom()
    ensures mode == Fit || mode == Fill ==>
      var r := ImageRect(img, frame, mode).value;
      r.w * (img.Height() as real) == r.h * (img.Width() as real)
    ensures mode == Fit ==> var r := ImageRect(img, frame, mode).value; r.w <= frame.w && r.h <= frame.h
    ensures mode == Fill ==> var r := ImageRect(img, frame, mode).value; r.w >= frame.w && r.h >= frame.h
  {
    var iw := img.Width() as real;
    var ih := img.Height() as real;
    var sx := frame.w / iw;
    var sy := frame.h / ih;
    assert iw * sx == frame.w;
    assert ih * sy == frame.h;
    if mode == Fit || mode == Fill {
      var scale := if mode == Fit then MinR(sx, sy) else MaxR(sx, sy);
      assert (iw * scale) * ih == (ih * scale) * iw;
      if mode == Fit {
        assert scale <= sx && scale <= sy;
        assert iw * scale <= iw * sx;
        assert ih * scale <= ih * sy;
      } else {
        assert scale >= sx && scale >= sy;
        assert iw * scale >= iw * sx;
        assert ih * scale >= ih * sy;
      }
    }
  }

  // ---------------------------------------------------------------------
  // Symbols

  /** The data dictionary a symbol layer starts with, for a box of the
      given side. */
  function SymbolData(x: real, y: real, symbol: Value, fontSize: Value, side: real): (d: Dict)
    ensures ResizeBox(d) == Ok(Rect(x, y, side, side))
    ensures Get(d, "x") == Some(VReal(x)) && Get(d, "y") == Some(VReal(y))
    ensures Get(d, "symbol") == Some(symbol)
    ensures Get(d, "font_size") == Some(fontSize)
  {
    var size := VReal(side);
    var pre := [("symbol", symbol)];
    var g := Geometry(x, y, size, size);
    var post := [("font_size", fontSize), ("color", VStr("#000000")),
                 ("background_color", VNone), ("show_border", VBool(false))];
    assert Get(pre, "symbol") == Some(symbol);
    GetAppend(pre, g, "symbol");
    GetAppend(pre + g, post, "symbol");
    GeometryIn(pre, x, y, size, size, post);
    ResizeBoxOf(pre + g + post, x, y, size, size);
    GeometryGetOther(x, y, size, size, "font_size");
    GetAppend(pre, g, "font_size");
    GetAppend(pre + g, post, "font_size");
    pre + g + post
  }

  /** `SymbolLayer(page_num, x, y, symbol, font_size)`: a square box of side
      1.2 times the font size, which must therefore be a number. */
  function NewSymbolLayer(page: int, x: real, y: real, symbol: Value, fontSize: Value, freshId: string): (r: Result<Layer>)
    ensures r.Err? <==> !IsNumber(fontSize)
    ensures r.Err? ==> r.error == TypeError
    ensures r.Ok? ==>
      var l := r.value;
      l.ltype == Text && l.pageNum == page && l.id == freshId && l.name == "Symbol"
      && l.kind == FreshKind(Glyph)
      && ResizeBox(l.data) == Ok(Rect(x, y, AsReal(fontSize) * 1.2, AsReal(fontSize) * 1.2))
      && Get(l.data, "x") == Some(VReal(x)) && Get(l.data, "y") == Some(VReal(y))
      && Get(l.data, "symbol") == Some(symbol)
      && Get(l.data, "font_size") == Some(fontSize)
  {
    if !IsNumber(fontSize) then Err(TypeError)
    else
      var d := SymbolData(x, y, symbol, fontSize, AsReal(fontSize) * 1.2);
      Ok(Layer(freshId, Text, page, DefaultName(Text, "Symbol", freshId), true, false, 1.0, d, 0, FreshKind(Glyph)))
  }

  function SetSymbol(l: Layer, symbol: string): (r: Layer)
    ensures GetStr(r.data, "symbol") == symbol
    ensures forall k :: k != "symbol" ==> Get(r.data, k) == Get(l.data, k)
    ensures r.(data := l.data) == l
  {
    GetPutSame(l.data, "symbol", VStr(symbol));
    forall k | k != "symbol" ensures Get(Put(l.data, "symbol", VStr(symbol)), k) == Get(l.data, k) {
      GetPutOther(l.data, "symbol", VStr(symbol), k);
    }
    l.(data := Put(l.data, "symbol", VStr(symbol)))
  }

  function SetFontSize(l: Layer, size: int): (r: Layer)
    ensures Get(r.data, "font_size") == Some(VInt(size))
    ensures forall k :: k != "font_size" ==> Get(r.data, k) == Get(l.data, k)
    ensures r.(data := l.data) == l
  {
    GetPutSame(l.data, "font_size", VInt(size));
    forall k | k != "font_size" ensures Get(Put(l.data, "font_size", VInt(size)), k) == Get(l.data, k) {
      GetPutOther(l.data, "font_size", VInt(size), k);
    }
    l.(data := Put(l.data, "font_size", VInt(size)))
  }

  /** A symbol layer shows "Symbol: s" after `set_symbol(s)` with non-empty
      `s`, and its base name after setting the empty symbol. */
  lemma SymbolNameAfterSet(l: Layer, symbol: string)
    requires l.kind.Interactive? && l.kind.shape == Glyph
    ensures symbol != [] ==> DisplayName(SetSymbol(l, symbol)) == "Symbol: " + symbol
    ensures symbol == [] ==> DisplayName(SetSymbol(l, symbol)) == l.name
  {
  }
}
