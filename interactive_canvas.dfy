/** The interactive canvas: the PDF canvas extended with hit testing,
    selection, stacking order, alignment, copy and paste of interactive
    layers, and the conversion of a PDF text span into an editable text box.

    Layers are values in the store; the object the canvas keeps as
    `selected_layer` is identified by its id and stands for the first layer
    in the store that carries it. */
module InteractiveCanvas {
  import opened Common
  import opened Values
  import opened Layers
  import opened History
  import opened PdfCanvas
  import opened InteractiveLayers

  // ---------------------------------------------------------------------
  // Hit testing

  /** `QRectF.contains(QPointF)`: the rectangle is normalised first, a
      rectangle of zero width or height contains nothing, and the edges
      belong to it. */
  predicate Contains(r: Rect, p: Point)
  {
    r.w != 0.0 && r.h != 0.0
    && MinR(r.x, r.Right()) <= p.x <= MaxR(r.x, r.Right())
    && MinR(r.y, r.Bottom()) <= p.y <= MaxR(r.y, r.Bottom())
  }

  /** The same rectangle with its size made non-negative. */
  function Normalised(r: Rect): (n: Rect)
    ensures n.w >= 0.0 && n.h >= 0.0
  {
    Rect(MinR(r.x, r.Right()), MinR(r.y, r.Bottom()), AbsR(r.w), AbsR(r.h))
  }

  /** Containment does not depend on the corner a rectangle is given by,
      and for a normalised rectangle it is the closed box. */
  lemma ContainsNormalised(r: Rect, p: Point)
    ensures Contains(r, p) == Contains(Normalised(r), p)
    ensures r.w > 0.0 && r.h > 0.0 ==>
      (Contains(r, p) <==> r.x <= p.x <= r.x + r.w && r.y <= p.y <= r.y + r.h)
  {
  }

  /** `layer.contains_point(point, zoom=1.0)` as `find_layer_at_point` uses
      it: only visible text boxes, images and symbols are candidates, and a
      null frame contains nothing. */
  function HitLayer(l: Layer, p: Point): (r: Result<bool>)
    ensures !(l.kind.Interactive? && l.visible) ==> r == Ok(false)
    ensures r == Ok(true) ==>
      l.kind.Interactive? && l.visible && Bounds(l, 1.0).Ok? && Contains(Bounds(l, 1.0).value, p)
    ensures l.kind.Interactive? && l.visible && Bounds(l, 1.0).Ok? ==>
      r == Ok(Contains(Bounds(l, 1.0).value, p))
    ensures r.Err? ==> r.error == TypeError
  {
    if l.kind.Interactive? && l.visible then
      var b :- Bounds(l, 1.0);
      Ok(!IsNullRect(b) && Contains(b, p))
    else Ok(false)
  }

  /** The hit test of every layer of `ls`, in drawing order. */
  function Hits(ls: seq<Layer>, p: Point): (hs: seq<Result<bool>>)
    ensures |hs| == |ls|
  {
    if |ls| == 0 then [] else [HitLayer(ls[0], p)] + Hits(ls[1..], p)
  }

  lemma {:induction false} HitsAt(ls: seq<Layer>, p: Point, i: nat)
    requires i < |ls|
    ensures Hits(ls, p)[i] == HitLayer(ls[i], p)
  {
    if i > 0 {
      HitsAt(ls[1..], p, i - 1);
    }
  }

  /** The index of the last of `hs[..k]` that is a hit, scanning from the
      top: the first test that raises stops the scan. */
  function TopBelow(hs: seq<Result<bool>>, k: nat): (r: Result<Option<nat>>)
    requires k <= |hs|
    ensures r.Ok? && r.value.Some? ==>
      r.value.value < k && hs[r.value.value] == Ok(true)
      && forall j :: r.value.value < j < k ==> hs[j] == Ok(false)
    ensures r == Ok(None) ==> forall j :: 0 <= j < k ==> hs[j] == Ok(false)
    ensures r.Err? ==> exists i :: 0 <= i < k && hs[i] == Err(r.error)
                          && (forall j :: i < j < k ==> hs[j] == Ok(false))
    decreases k
  {
    if k == 0 then Ok(None)
    else
      match hs[k - 1]
      case Err(e) => Err(e)
      case Ok(hit) => if hit then Ok(Some(k - 1)) else TopBelow(hs, k - 1)
  }

  /** The layer `find_layer_at_point` returns for the page's layers in
      drawing order. */
  function Topmost(ls: seq<Layer>, p: Point): Result<Option<Layer>>
  {
    var i :- TopBelow(Hits(ls, p), |ls|);
    Ok(if i.Some? then Some(ls[i.value]) else None)
  }

  /** The scan of `find_layer_at_point` over the page's layers `ls`, from
      the top of the drawing order down. */
  method TopmostScan(ls: seq<Layer>, p: Point) returns (r: Result<Option<Layer>>)
    ensures r == Topmost(ls, p)
  {
    ghost var hs := Hits(ls, p);
    var k := |ls|;
    r := Ok(None);
    while k > 0
      invariant 0 <= k <= |ls|
      invariant TopBelow(hs, |ls|) == TopBelow(hs, k)
    {
      var hit := HitLayer(ls[k - 1], p);
      HitsAt(ls, p, k - 1);
      if hit.Err? || hit.value {
        r := if hit.Err? then Err(hit.error) else Ok(Some(ls[k - 1]));
        break;
      }
      TopBelowMiss(hs, k);
      k := k - 1;
    }
  }

  /** A miss at the top of `hs[..k]` passes the scan on to the layer below. */
  lemma TopBelowMiss(hs: seq<Result<bool>>, k: nat)
    requires 0 < k <= |hs| && hs[k - 1] == Ok(false)
    ensures TopBelow(hs, k) == TopBelow(hs, k - 1)
  {
  }

  /** What `Topmost` finds is hit, and every layer drawn above it is not; no
      layer is hit when it finds none. */
  lemma TopmostIsTopHit(ls: seq<Layer>, p: Point)
    ensures Topmost(ls, p).Ok? && Topmost(ls, p).value.Some? ==>
      exists i :: 0 <= i < |ls| && ls[i] == Topmost(ls, p).value.value
        && HitLayer(ls[i], p) == Ok(true)
        && forall j :: i < j < |ls| ==> HitLayer(ls[j], p) == Ok(false)
    ensures Topmost(ls, p) == Ok(None) ==> forall j :: 0 <= j < |ls| ==> HitLayer(ls[j], p) == Ok(false)
  {
    var hs := Hits(ls, p);
    var t := TopBelow(hs, |ls|);
    forall j | 0 <= j < |ls| ensures hs[j] == HitLayer(ls[j], p) {
      HitsAt(ls, p, j);
    }
    if t.Ok? && t.value.Some? {
      var i := t.value.value;
      assert ls[i] == Topmost(ls, p).value.value;
    }
  }

  // ---------------------------------------------------------------------
  // Selection flags

  /** Sets the `selected` flag of an interactive layer; a plain layer has
      no such flag. */
  function WithSelected(l: Layer, on: bool): (r: Layer)
    ensures r.kind.Interactive? <==> l.kind.Interactive?
    ensures r.kind.Interactive? ==> r.kind.selected == on
  {
    if l.kind.Interactive? then l.(kind := l.kind.(selected := on)) else l
  }

  /** The layer with the id carries a raised `selected` flag. */
  predicate IsSelected(ls: seq<Layer>, id: string)
  {
    match IndexOf(ls, id)
    case None => false
    case Some(i) => ls[i].kind.Interactive? && ls[i].kind.selected
  }

  /** Two lists equal up to the `selected` flags. */
  predicate SameButFlags(a: seq<Layer>, b: seq<Layer>)
  {
    |a| == |b| && forall i :: 0 <= i < |a| ==> WithSelected(a[i], false) == WithSelected(b[i], false)
  }

  /** `layer.selected = on` on the layer object the id stands for. */
  function Flagged(ls: seq<Layer>, id: string, on: bool): (r: seq<Layer>)
    ensures SameButFlags(r, ls)
    ensures IndexOf(r, id) == IndexOf(ls, id)
    ensures IndexOf(ls, id).Some? && ls[IndexOf(ls, id).value].kind.Interactive? ==> (IsSelected(r, id) <==> on)
    ensures IndexOf(ls, id).None? ==> r == ls
    ensures forall i :: 0 <= i < |ls| && Some(i) != IndexOf(ls, id) ==> r[i] == ls[i]
  {
    match IndexOf(ls, id)
    case None => ls
    case Some(i) =>
      var r := ls[i := WithSelected(ls[i], on)];
      assert forall j :: 0 <= j < |r| ==> r[j].id == ls[j].id;
      IndexOfSameIds(ls, r, id);
      r
  }

  lemma {:induction false} IndexOfSameIds(a: seq<Layer>, b: seq<Layer>, id: string)
    requires |a| == |b| && forall j :: 0 <= j < |a| ==> a[j].id == b[j].id
    ensures IndexOf(a, id) == IndexOf(b, id)
  {
    if |a| > 0 {
      IndexOfSameIds(a[1..], b[1..], id);
    }
  }

  /** Clearing one layer's flag leaves every other id's flag as it was. */
  lemma FlaggedOther(ls: seq<Layer>, id: string, on: bool, other: string)
    requires other != id
    ensures IsSelected(Flagged(ls, id, on), other) == IsSelected(ls, other)
  {
    var r := Flagged(ls, id, on);
    match IndexOf(ls, other)
    case None =>
    case Some(j) =>
      assert IndexOf(r, other) == Some(j) by {
        assert forall k :: 0 <= k < |r| ==> r[k].id == ls[k].id;
        IndexOfSameIds(ls, r, other);
      }
  }

  /** The layers of page `p` with their flags cleared, as
      `deselect_all_layers` leaves them. */
  function ClearedOnPage(ls: seq<Layer>, p: int): (r: seq<Layer>)
    ensures SameButFlags(r, ls)
    ensures forall i :: 0 <= i < |r| && r[i].pageNum == p ==> !(r[i].kind.Interactive? && r[i].kind.selected)
    ensures forall i :: 0 <= i < |r| && ls[i].pageNum != p ==> r[i] == ls[i]
  {
    seq(|ls|, i requires 0 <= i < |ls| => if ls[i].pageNum == p then WithSelected(ls[i], false) else ls[i])
  }

  // ---------------------------------------------------------------------
  // Stacking order

  /** `layers.remove(layer); layers.append(layer)`. */
  function ToFront(ls: seq<Layer>, i: nat): (r: seq<Layer>)
    requires i < |ls|
    ensures |r| == |ls| && r[|r| - 1] == ls[i]
    ensures multiset(r) == multiset(ls)
  {
    RemoveAt(ls, i) + [ls[i]]
  }

  /** `layers.remove(layer); layers.insert(0, layer)`. */
  function ToBack(ls: seq<Layer>, i: nat): (r: seq<Layer>)
    requires i < |ls|
    ensures |r| == |ls| && r[0] == ls[i]
    ensures multiset(r) == multiset(ls)
  {
    [ls[i]] + RemoveAt(ls, i)
  }

  /** Bringing to front is `move_layer` to the end of the list. */
  lemma FrontIsMove(ls: seq<Layer>, i: nat)
    requires i < |ls|
    ensures ToFront(ls, i) == InsertAt(RemoveAt(ls, i), |ls|, ls[i])
  {
    var rest := RemoveAt(ls, i);
    var k := InsertPosition(|ls|, |rest|);
    assert k == |rest|;
    assert rest[..k] == rest && rest[k..] == [];
    assert InsertAt(rest, |ls|, ls[i]) == rest[..k] + [ls[i]] + rest[k..];
  }

  /** Sending to back is `move_layer` to index 0. */
  lemma BackIsMove(ls: seq<Layer>, i: nat)
    requires i < |ls|
    ensures ToBack(ls, i) == InsertAt(RemoveAt(ls, i), 0, ls[i])
  {
    var rest := RemoveAt(ls, i);
    assert InsertPosition(0, |rest|) == 0;
    assert rest[..0] == [] && rest[0..] == rest;
    assert InsertAt(rest, 0, ls[i]) == rest[..0] + [ls[i]] + rest[0..];
  }

  /** After bringing a layer to front it is last, with the highest z-index,
      and the other layers keep their order. */
  lemma FrontIsLast(ls: seq<Layer>, i: nat)
    requires i < |ls|
    ensures var r := Renumbered(ToFront(ls, i));
      r[|r| - 1] == ls[i].(zIndex := |ls| - 1)
      && forall j :: 0 <= j < |r| - 1 ==> r[j] == RemoveAt(ls, i)[j].(zIndex := j)
  {
  }

  /** A layer brought to front is drawn above every other layer of its
      page. */
  lemma FrontOnTop(ls: seq<Layer>, i: nat)
    requires i < |ls|
    ensures var r := Renumbered(ToFront(ls, i));
      var page := SortByZ(OnPage(r, ls[i].pageNum));
      |page| > 0 && page[|page| - 1] == ls[i].(zIndex := |ls| - 1)
  {
    var moved := ToFront(ls, i);
    var r := Renumbered(moved);
    var n := |ls| - 1;
    var top := ls[i].(zIndex := n);
    var rest := r[..n];
    assert r[n] == top;
    assert r == rest + [top];
    forall j | 0 <= j < |rest| ensures rest[j].zIndex < n {
      assert rest[j] == moved[j].(zIndex := j);
    }
    AddedLayerOnTop(rest, n, ls[i]);
  }

  /** After sending a layer to back it is first, with z-index 0, below every
      other layer; the other layers keep their order. */
  lemma BackAtBottom(ls: seq<Layer>, i: nat)
    requires i < |ls|
    ensures var r := Renumbered(ToBack(ls, i));
      r[0] == ls[i].(zIndex := 0)
      && forall j :: 1 <= j < |r| ==> r[j] == RemoveAt(ls, i)[j - 1].(zIndex := j) && r[j].zIndex > 0
  {
  }

  // ---------------------------------------------------------------------
  // Alignment and distribution

  datatype AlignType = AlignLeft | AlignRight | AlignTop | AlignBottom | HCenter | VCenter | VSpacing

  /** The `align_type` strings; any other string aligns nothing. */
  function AlignTypeOf(s: string): (r: Option<AlignType>)
    ensures r.Some? ==> s == AlignTypeName(r.value)
  {
    if s == "left" then Some(AlignLeft)
    else if s == "right" then Some(AlignRight)
    else if s == "top" then Some(AlignTop)
    else if s == "bottom" then Some(AlignBottom)
    else if s == "h-center" then Some(HCenter)
    else if s == "v-center" then Some(VCenter)
    else if s == "v-spacing" then Some(VSpacing)
    else None
  }

  function AlignTypeName(t: AlignType): string
  {
    match t
    case AlignLeft => "left"
    case AlignRight => "right"
    case AlignTop => "top"
    case AlignBottom => "bottom"
    case HCenter => "h-center"
    case VCenter => "v-center"
    case VSpacing => "v-spacing"
  }

  lemma AlignTypeRoundTrip(t: AlignType)
    ensures AlignTypeOf(AlignTypeName(t)) == Some(t)
  {
  }

  /** The bounds `align_selected_layers` reads: every field defaults to 0,
      and the sums it forms fail on anything that is not a number. */
  function AlignBox(l: Layer): (r: Result<Rect>)
    ensures r.Err? ==> r.error == TypeError
    ensures r.Ok? ==>
      NumOr(l.data, "x", 0.0) == Ok(r.value.x) && NumOr(l.data, "y", 0.0) == Ok(r.value.y)
      && NumOr(l.data, "width", 0.0) == Ok(r.value.w) && NumOr(l.data, "height", 0.0) == Ok(r.value.h)
  {
    var x :- NumOr(l.data, "x", 0.0);
    var y :- NumOr(l.data, "y", 0.0);
    var w :- NumOr(l.data, "width", 0.0);
    var h :- NumOr(l.data, "height", 0.0);
    Ok(Rect(x, y, w, h))
  }

  /** The bounds of every selected layer, or the error of the first that
      cannot be read; all are read before anything is written. */
  function Boxes(ls: seq<Layer>): (r: Result<seq<Rect>>)
    ensures r.Ok? ==> |r.value| == |ls| && forall i :: 0 <= i < |ls| ==> AlignBox(ls[i]) == Ok(r.value[i])
    ensures r.Err? ==> exists i :: 0 <= i < |ls| && AlignBox(ls[i]) == Err(r.error)
  {
    if |ls| == 0 then Ok([])
    else
      var b :- AlignBox(ls[0]);
      var rest :- Boxes(ls[1..]);
      assert forall i :: 1 <= i < |ls| ==> ls[i] == ls[1..][i - 1];
      Ok([b] + rest)
  }

  function MinOf(s: seq<real>): (r: real)
    requires |s| > 0
    ensures forall i :: 0 <= i < |s| ==> r <= s[i]
    ensures exists i :: 0 <= i < |s| && r == s[i]
  {
    if |s| == 1 then s[0]
    else
      var m := MinOf(s[1..]);
      assert forall i :: 1 <= i < |s| ==> s[i] == s[1..][i - 1];
      MinR(s[0], m)
  }

  function MaxOf(s: seq<real>): (r: real)
    requires |s| > 0
    ensures forall i :: 0 <= i < |s| ==> s[i] <= r
    ensures exists i :: 0 <= i < |s| && r == s[i]
  {
    if |s| == 1 then s[0]
    else
      var m := MaxOf(s[1..]);
      assert forall i :: 1 <= i < |s| ==> s[i] == s[1..][i - 1];
      MaxR(s[0], m)
  }

  function SumOf(s: seq<real>): real
  {
    if |s| == 0 then 0.0 else s[0] + SumOf(s[1..])
  }

  lemma {:induction false} SumOfAppend(s: seq<real>, x: real)
    ensures SumOf(s + [x]) == SumOf(s) + x
  {
    if |s| > 0 {
      assert (s + [x])[1..] == s[1..] + [x];
      SumOfAppend(s[1..], x);
    }
  }

  /** `b['x']`, `b['right']`, `b['center_x']` and their vertical partners
      over all the bounds. */
  function Lefts(bs: seq<Rect>): (r: seq<real>)
    ensures |r| == |bs| && forall i :: 0 <= i < |bs| ==> r[i] == bs[i].x
  { seq(|bs|, i requires 0 <= i < |bs| => bs[i].x) }

  function Rights(bs: seq<Rect>): (r: seq<real>)
    ensures |r| == |bs| && forall i :: 0 <= i < |bs| ==> r[i] == bs[i].Right()
  { seq(|bs|, i requires 0 <= i < |bs| => bs[i].Right()) }

  function Tops(bs: seq<Rect>): (r: seq<real>)
    ensures |r| == |bs| && forall i :: 0 <= i < |bs| ==> r[i] == bs[i].y
  { seq(|bs|, i requires 0 <= i < |bs| => bs[i].y) }

  function Bottoms(bs: seq<Rect>): (r: seq<real>)
    ensures |r| == |bs| && forall i :: 0 <= i < |bs| ==> r[i] == bs[i].Bottom()
  { seq(|bs|, i requires 0 <= i < |bs| => bs[i].Bottom()) }

  function CentersX(bs: seq<Rect>): (r: seq<real>)
    ensures |r| == |bs| && forall i :: 0 <= i < |bs| ==> r[i] == bs[i].x + bs[i].w / 2.0
  { seq(|bs|, i requires 0 <= i < |bs| => bs[i].x + bs[i].w / 2.0) }

  function CentersY(bs: seq<Rect>): (r: seq<real>)
    ensures |r| == |bs| && forall i :: 0 <= i < |bs| ==> r[i] == bs[i].y + bs[i].h / 2.0
  { seq(|bs|, i requires 0 <= i < |bs| => bs[i].y + bs[i].h / 2.0) }

  /** Indices `a` before `b` in Python's stable sort by `y`: a smaller `y`,
      or the same `y` and an earlier position in the selection. */
  predicate YBefore(bs: seq<Rect>, a: nat, b: nat)
    requires a < |bs| && b < |bs|
  {
    bs[a].y < bs[b].y || (bs[a].y == bs[b].y && a < b)
  }

  predicate SortedByY(bs: seq<Rect>, o: seq<nat>)
  {
    (forall k :: 0 <= k < |o| ==> o[k] < |bs|)
    && forall k, m :: 0 <= k < m < |o| ==> YBefore(bs, o[k], o[m])
  }

  /** Inserts index `m`, later than every index in `o`, after every index
      whose `y` is not above its own. */
  function InsertByY(bs: seq<Rect>, m: nat, o: seq<nat>): (r: seq<nat>)
    requires m < |bs| && forall k :: 0 <= k < |o| ==> o[k] < m
    ensures |r| == |o| + 1
    ensures forall x :: x in r <==> x == m || x in o
  {
    if |o| == 0 then [m]
    else if bs[m].y < bs[o[0]].y then [m] + o
    else
      var rest := InsertByY(bs, m, o[1..]);
      assert o == [o[0]] + o[1..];
      [o[0]] + rest
  }

  /** Inserting into an order sorted by `y` keeps it sorted. */
  lemma {:induction false} InsertByYSorted(bs: seq<Rect>, m: nat, o: seq<nat>)
    requires m < |bs| && forall k :: 0 <= k < |o| ==> o[k] < m
    requires SortedByY(bs, o)
    ensures SortedByY(bs, InsertByY(bs, m, o))
  {
    if |o| > 0 && bs[m].y >= bs[o[0]].y {
      var rest := InsertByY(bs, m, o[1..]);
      InsertByYSorted(bs, m, o[1..]);
      forall k | 0 <= k < |rest| ensures YBefore(bs, o[0], rest[k]) {
        assert rest[k] in rest;
        if rest[k] != m {
          var j :| 0 <= j < |o[1..]| && o[1..][j] == rest[k];
          assert o[j + 1] == rest[k];
        }
      }
      assert InsertByY(bs, m, o) == [o[0]] + rest;
    }
  }

  /** The first `n` selection positions in the order `layer_bounds.sort(key
      = lambda b: b['y'])` leaves them. */
  function SortByY(bs: seq<Rect>, n: nat): (r: seq<nat>)
    requires n <= |bs|
    ensures SortedByY(bs, r) && |r| == n
    ensures forall x: int :: x in r <==> 0 <= x < n
  {
    if n == 0 then []
    else
      var o := SortByY(bs, n - 1);
      assert forall k :: 0 <= k < |o| ==> o[k] in o;
      InsertByYSorted(bs, n - 1, o);
      InsertByY(bs, n - 1, o)
  }

  /** `current_y` before each layer of the loop that distributes them: it
      starts at `top` and advances by each height and the spacing. */
  function Stacked(hs: seq<real>, top: real, spacing: real): (r: seq<real>)
    ensures |r| == |hs|
    ensures |hs| > 0 ==> r[0] == top
    decreases |hs|
  {
    if |hs| == 0 then [] else [top] + Stacked(hs[1..], top + hs[0] + spacing, spacing)
  }

  /** Each layer starts `spacing` below the bottom of the one before it. */
  lemma {:induction false} StackedSteps(hs: seq<real>, top: real, spacing: real)
    ensures forall k :: 1 <= k < |hs| ==>
      Stacked(hs, top, spacing)[k] == Stacked(hs, top, spacing)[k - 1] + hs[k - 1] + spacing
    decreases |hs|
  {
    if |hs| > 1 {
      var rest := Stacked(hs[1..], top + hs[0] + spacing, spacing);
      StackedSteps(hs[1..], top + hs[0] + spacing, spacing);
      var r := Stacked(hs, top, spacing);
      assert r == [top] + rest;
      forall k | 2 <= k < |hs|
        ensures r[k] == r[k - 1] + hs[k - 1] + spacing
      {
        var j := k - 1;
        assert rest[j] == rest[j - 1] + hs[1..][j - 1] + spacing;
        assert r[k] == rest[j] && r[k - 1] == rest[j - 1] && hs[k - 1] == hs[1..][j - 1];
      }
    }
  }

  /** The last layer ends at `top` plus all the heights and one spacing
      per gap. */
  lemma {:induction false} StackedEnd(hs: seq<real>, top: real, spacing: real)
    requires |hs| > 0
    ensures var r := Stacked(hs, top, spacing);
      r[|hs| - 1] + hs[|hs| - 1] == top + SumOf(hs) + (|hs| - 1) as real * spacing
    decreases |hs|
  {
    var n := |hs|;
    if n > 1 {
      var top' := top + hs[0] + spacing;
      var rest := Stacked(hs[1..], top', spacing);
      StackedEnd(hs[1..], top', spacing);
      assert Stacked(hs, top, spacing)[n - 1] == rest[n - 2];
      assert hs[1..][n - 2] == hs[n - 1];
      assert (n - 2) as real * spacing + spacing == (n - 1) as real * spacing;
    }
  }

  /** What the alignment writes: `vals[k]` under `key` in the layer at
      selection position `order[k]`, in that order. */
  datatype Plan = Plan(key: string, order: seq<nat>, vals: seq<real>)

  function Range(n: nat): (r: seq<nat>)
    ensures |r| == n && forall i :: 0 <= i < n ==> r[i] == i
  {
    seq(n, i requires 0 <= i < n => i)
  }

  /** The spacing `v-spacing` leaves between consecutive layers. */
  function Spacing(bs: seq<Rect>, order: seq<nat>): real
    requires |order| >= 2 && forall k :: 0 <= k < |order| ==> order[k] < |bs|
  {
    var hs := Heights(bs, order);
    var top := bs[order[0]].y;
    var bottom := bs[order[|order| - 1]].Bottom();
    ((bottom - top) - SumOf(hs)) / ((|order| - 1) as real)
  }

  function Heights(bs: seq<Rect>, order: seq<nat>): (hs: seq<real>)
    requires forall k :: 0 <= k < |order| ==> order[k] < |bs|
    ensures |hs| == |order| && forall k :: 0 <= k < |order| ==> hs[k] == bs[order[k]].h
  {
    seq(|order|, k requires 0 <= k < |order| => bs[order[k]].h)
  }

  /** The writes of each alignment type over the bounds of at least one
      layer. */
  function AlignPlan(bs: seq<Rect>, t: AlignType): (p: Plan)
    requires |bs| > 0
    ensures |p.vals| == |p.order|
    ensures forall k :: 0 <= k < |p.order| ==> p.order[k] < |bs|
    ensures t != VSpacing ==> p.order == Range(|bs|)
    ensures t == VSpacing && |bs| < 2 ==> p.order == []
    ensures p.key == (if t in {AlignLeft, AlignRight, HCenter} then "x" else "y")
  {
    var n := |bs|;
    match t
    case AlignLeft => Plan("x", Range(n), seq(n, _ => MinOf(Lefts(bs))))
    case AlignTop => Plan("y", Range(n), seq(n, _ => MinOf(Tops(bs))))
    case AlignRight =>
      var m := MaxOf(Rights(bs));
      Plan("x", Range(n), seq(n, i requires 0 <= i < n => m - bs[i].w))
    case AlignBottom =>
      var m := MaxOf(Bottoms(bs));
      Plan("y", Range(n), seq(n, i requires 0 <= i < n => m - bs[i].h))
    case HCenter =>
      var avg := SumOf(CentersX(bs)) / (n as real);
      Plan("x", Range(n), seq(n, i requires 0 <= i < n => avg - bs[i].w / 2.0))
    case VCenter =>
      var avg := SumOf(CentersY(bs)) / (n as real);
      Plan("y", Range(n), seq(n, i requires 0 <= i < n => avg - bs[i].h / 2.0))
    case VSpacing =>
      if n < 2 then Plan("y", [], [])
      else
        var o := SortByY(bs, n);
        Plan("y", o, Stacked(Heights(bs, o), bs[o[0]].y, Spacing(bs, o)))
  }

  /** Left and top move every layer to the smallest edge among them. */
  lemma AlignToSmallestEdge(bs: seq<Rect>, t: AlignType)
    requires |bs| > 0 && t in {AlignLeft, AlignTop}
    ensures var p := AlignPlan(bs, t);
      var edges := if t == AlignLeft then Lefts(bs) else Tops(bs);
      (forall k, j :: 0 <= k < |bs| && 0 <= j < |bs| ==> p.vals[k] <= edges[j])
      && (forall k :: 0 <= k < |bs| ==> p.vals[k] in edges)
  {
  }

  /** Right and bottom line up every far edge on the largest one. */
  lemma AlignToLargestEdge(bs: seq<Rect>, t: AlignType)
    requires |bs| > 0 && t in {AlignRight, AlignBottom}
    ensures var p := AlignPlan(bs, t);
      var ends := if t == AlignRight then Rights(bs) else Bottoms(bs);
      var size := (i: nat) requires i < |bs| => if t == AlignRight then bs[i].w else bs[i].h;
      (forall k, j :: 0 <= k < |bs| && 0 <= j < |bs| ==> p.vals[k] + size(k) >= ends[j])
      && (forall k :: 0 <= k < |bs| ==> p.vals[k] + size(k) in ends)
  {
    var p := AlignPlan(bs, t);
    if t == AlignRight {
      var m := MaxOf(Rights(bs));
      assert forall k :: 0 <= k < |bs| ==> p.vals[k] + bs[k].w == m;
    } else {
      var m := MaxOf(Bottoms(bs));
      assert forall k :: 0 <= k < |bs| ==> p.vals[k] + bs[k].h == m;
    }
  }

  /** The centre types put every layer's centre on the average centre. */
  lemma AlignToAverageCentre(bs: seq<Rect>, t: AlignType)
    requires |bs| > 0 && t in {HCenter, VCenter}
    ensures var p := AlignPlan(bs, t);
      forall k :: 0 <= k < |bs| ==>
        if t == HCenter then p.vals[k] + bs[k].w / 2.0 == SumOf(CentersX(bs)) / (|bs| as real)
        else p.vals[k] + bs[k].h / 2.0 == SumOf(CentersY(bs)) / (|bs| as real)
  {
  }

  /** v-spacing visits the layers sorted by `y`, keeps the first one's top
      and the last one's bottom, and leaves the same gap between every two
      consecutive layers. */
  lemma DistributeVertically(bs: seq<Rect>)
    requires |bs| >= 2
    ensures var p := AlignPlan(bs, VSpacing);
      var o := p.order;
      var n := |o|;
      SortedByY(bs, o) && n == |bs| && (forall j: int :: j in o <==> 0 <= j < |bs|)
      && p.vals[0] == bs[o[0]].y
      && p.vals[n - 1] + bs[o[n - 1]].h == bs[o[n - 1]].Bottom()
      && forall k :: 0 <= k < n - 1 ==> p.vals[k + 1] - (p.vals[k] + bs[o[k]].h) == Spacing(bs, o)
  {
    var o := SortByY(bs, |bs|);
    VSpacingPlan(bs);
    EvenlyStacked(bs, o, AlignPlan(bs, VSpacing).vals);
  }

  /** The stack `v-spacing` writes for a visiting order `o`: first top
      kept, last bottom kept, equal gaps. */
  lemma EvenlyStacked(bs: seq<Rect>, o: seq<nat>, vals: seq<real>)
    requires |o| >= 2 && forall k :: 0 <= k < |o| ==> o[k] < |bs|
    requires vals == Stacked(Heights(bs, o), bs[o[0]].y, Spacing(bs, o))
    ensures var n := |o|;
      |vals| == n && vals[0] == bs[o[0]].y
      && vals[n - 1] + bs[o[n - 1]].h == bs[o[n - 1]].Bottom()
      && forall k :: 0 <= k < n - 1 ==> vals[k + 1] - (vals[k] + bs[o[k]].h) == Spacing(bs, o)
  {
    var top, gap := bs[o[0]].y, Spacing(bs, o);
    var hs := Heights(bs, o);
    StackedSteps(hs, top, gap);
    StackedEnd(hs, top, gap);
    SpacingCloses(bs, o);
  }

  lemma VSpacingPlan(bs: seq<Rect>)
    requires |bs| >= 2
    ensures var o := SortByY(bs, |bs|);
      AlignPlan(bs, VSpacing) == Plan("y", o, Stacked(Heights(bs, o), bs[o[0]].y, Spacing(bs, o)))
  {
  }

  /** With the spacing `v-spacing` computes, the stack of layers ends exactly
      at the last layer's bottom. */
  lemma SpacingCloses(bs: seq<Rect>, o: seq<nat>)
    requires |o| >= 2 && forall k :: 0 <= k < |o| ==> o[k] < |bs|
    ensures var hs := Heights(bs, o);
      bs[o[0]].y + SumOf(hs) + (|o| - 1) as real * Spacing(bs, o) == bs[o[|o| - 1]].Bottom()
  {
    var hs := Heights(bs, o);
    var m := (|o| - 1) as real;
    var gap := (bs[o[|o| - 1]].Bottom() - bs[o[0]].y) - SumOf(hs);
    assert Spacing(bs, o) == gap / m;
    assert m * (gap / m) == gap;
  }

  // ---------------------------------------------------------------------
  // Writing the alignment back

  /** The store positions of the selected layers, one per id still in the
      store, in selection order. The selection is kept as ids and read
      against the store, so a selected layer that has left the store takes
      no part in the alignment, and a layer re-created under the same id is
      the one aligned. */
  function Resolve(ls: seq<Layer>, ids: seq<string>): (at: seq<nat>)
    ensures |at| <= |ids|
    ensures forall k :: 0 <= k < |at| ==> at[k] < |ls| && ls[at[k]].id in ids
    ensures forall k :: 0 <= k < |at| ==> IndexOf(ls, ls[at[k]].id) == Some(at[k])
    ensures forall id :: id in ids && IndexOf(ls, id).Some? ==> IndexOf(ls, id).value in at
  {
    if |ids| == 0 then []
    else
      var rest := Resolve(ls, ids[1..]);
      assert forall id :: id in ids[1..] ==> id in ids;
      assert forall id :: id in ids ==> id == ids[0] || id in ids[1..];
      match IndexOf(ls, ids[0])
      case None => rest
      case Some(i) => [i] + rest
  }

  /** Different ids select different layers. */
  lemma {:induction false} ResolveDistinct(ls: seq<Layer>, ids: seq<string>)
    requires Distinct(ids)
    ensures Distinct(Resolve(ls, ids))
  {
    if |ids| > 0 {
      var rest := Resolve(ls, ids[1..]);
      ResolveDistinct(ls, ids[1..]);
      assert ids[0] !in ids[1..] by {
        forall j | 0 <= j < |ids[1..]| ensures ids[1..][j] != ids[0] {
          assert ids[1..][j] == ids[j + 1];
        }
      }
      match IndexOf(ls, ids[0])
      case None =>
        assert Resolve(ls, ids) == rest;
      case Some(i) =>
        assert Resolve(ls, ids) == [i] + rest;
        forall k | 0 <= k < |rest| ensures rest[k] != i {
          assert ls[rest[k]].id in ids[1..];
        }
    }
  }

  /** The selected layers, in selection order. */
  function Picked(ls: seq<Layer>, at: seq<nat>): (r: seq<Layer>)
    requires forall k :: 0 <= k < |at| ==> at[k] < |ls|
    ensures |r| == |at| && forall k :: 0 <= k < |at| ==> r[k] == ls[at[k]]
  {
    seq(|at|, k requires 0 <= k < |at| => ls[at[k]])
  }

  /** `layer.data[key] = v`. */
  function SetKey(l: Layer, key: string, v: real): (r: Layer)
    ensures Get(r.data, key) == Some(VReal(v))
    ensures forall k :: k != key ==> Get(r.data, k) == Get(l.data, k)
    ensures r.(data := l.data) == l
  {
    GetPutSame(l.data, key, VReal(v));
    forall k | k != key ensures Get(Put(l.data, key, VReal(v)), k) == Get(l.data, k) {
      GetPutOther(l.data, key, VReal(v), k);
    }
    l.(data := Put(l.data, key, VReal(v)))
  }

  /** A plan over the selection positions `at` into a store of `n` layers. */
  predicate PlanFits(at: seq<nat>, n: nat, p: Plan)
  {
    |p.vals| == |p.order|
    && (forall k :: 0 <= k < |p.order| ==> p.order[k] < |at|)
    && forall k :: 0 <= k < |at| ==> at[k] < n
  }

  /** The store after the first `k` writes of the plan. */
  function Written(ls: seq<Layer>, at: seq<nat>, p: Plan, k: nat): (r: seq<Layer>)
    requires PlanFits(at, |ls|, p) && k <= |p.order|
    ensures |r| == |ls|
    decreases k
  {
    if k == 0 then ls
    else
      var prev := Written(ls, at, p, k - 1);
      var i := at[p.order[k - 1]];
      prev[i := SetKey(prev[i], p.key, p.vals[k - 1])]
  }

  /** The writes change nothing but the planned key of the planned
      layers. */
  lemma {:induction false} WrittenKeeps(ls: seq<Layer>, at: seq<nat>, p: Plan, k: nat)
    requires PlanFits(at, |ls|, p) && k <= |p.order|
    ensures var r := Written(ls, at, p, k);
      (forall i :: 0 <= i < |ls| ==> r[i].(data := ls[i].data) == ls[i])
      && (forall i, key :: 0 <= i < |ls| && key != p.key ==> Get(r[i].data, key) == Get(ls[i].data, key))
      && forall i :: 0 <= i < |ls| && (forall j :: 0 <= j < k ==> at[p.order[j]] != i) ==> r[i] == ls[i]
  {
    if k > 0 {
      WrittenKeeps(ls, at, p, k - 1);
    }
  }

  /** With every planned layer distinct, each ends up holding its planned
      value. */
  lemma {:induction false} WrittenReads(ls: seq<Layer>, at: seq<nat>, p: Plan, k: nat)
    requires PlanFits(at, |ls|, p) && k <= |p.order|
    requires Distinct(at) && Distinct(p.order)
    ensures var r := Written(ls, at, p, k);
      forall j :: 0 <= j < k ==> Get(r[at[p.order[j]]].data, p.key) == Some(VReal(p.vals[j]))
  {
    if k > 0 {
      WrittenReads(ls, at, p, k - 1);
      var prev := Written(ls, at, p, k - 1);
      var r := Written(ls, at, p, k);
      var i := at[p.order[k - 1]];
      assert r == prev[i := SetKey(prev[i], p.key, p.vals[k - 1])];
      forall j | 0 <= j < k ensures Get(r[at[p.order[j]]].data, p.key) == Some(VReal(p.vals[j])) {
        if j < k - 1 {
          assert p.order[j] != p.order[k - 1];
          assert at[p.order[j]] != i;
          assert r[at[p.order[j]]] == prev[at[p.order[j]]];
        }
      }
    }
  }

  /** The plan visits every selection position at most once. */
  lemma PlanOrderDistinct(bs: seq<Rect>, t: AlignType)
    requires |bs| > 0
    ensures Distinct(AlignPlan(bs, t).order)
  {
    var o := AlignPlan(bs, t).order;
    if t == VSpacing && |bs| >= 2 {
      assert SortedByY(bs, o);
    }
  }

  /** `align_selected_layers` on the store: nothing happens unless at least
      two layers are selected; every bound is read before anything is
      written, so a value that is not a number raises before any change.
      The bounds are those of the selected layers found in the store (see
      `Resolve`). */
  function AlignedStore(ls: seq<Layer>, alignType: string, selection: Option<seq<string>>): (r: Result<seq<Layer>>)
    ensures selection.None? || |selection.value| < 2 ==> r == Ok(ls)
    ensures AlignTypeOf(alignType).None? && r.Ok? ==> r.value == ls
    ensures r.Ok? ==> |r.value| == |ls|
    ensures r.Err? ==> r.error == TypeError
  {
    if selection.None? || |selection.value| < 2 then Ok(ls)
    else
      var at := Resolve(ls, selection.value);
      var bs :- Boxes(Picked(ls, at));
      if |bs| == 0 then Ok(ls)
      else match AlignTypeOf(alignType)
        case None => Ok(ls)
        case Some(t) => Ok(Aligned(ls, at, bs, t))
  }

  /** The layers after the planned writes of one alignment. */
  function Aligned(ls: seq<Layer>, at: seq<nat>, bs: seq<Rect>, t: AlignType): (r: seq<Layer>)
    requires |bs| > 0 && |bs| == |at| && forall k :: 0 <= k < |at| ==> at[k] < |ls|
    ensures |r| == |ls|
  {
    var p := AlignPlan(bs, t);
    Written(ls, at, p, |p.order|)
  }

  /** The writing loop of `align_selected_layers`: the planned value goes
      to the planned key of each planned layer, in plan order. */
  method WritePlan(lm: LayerManager, at: seq<nat>, p: Plan)
    requires lm.Valid() && PlanFits(at, |lm.layers|, p)
    modifies lm
    ensures lm.layers == Written(old(lm.layers), at, p, |p.order|)
    ensures lm.nextZ == old(lm.nextZ)
    ensures lm.Valid()
  {
    var ls := lm.layers;
    var cur := ls;
    for k := 0 to |p.order|
      invariant cur == Written(ls, at, p, k)
    {
      var i := at[p.order[k]];
      cur := cur[i := SetKey(cur[i], p.key, p.vals[k])];
    }
    WrittenZ(ls, at, p, |p.order|);
    lm.layers := cur;
  }

  /** The writes leave every z-index where it was. */
  lemma WrittenZ(ls: seq<Layer>, at: seq<nat>, p: Plan, k: nat)
    requires PlanFits(at, |ls|, p) && k <= |p.order|
    ensures forall i :: 0 <= i < |ls| ==> Written(ls, at, p, k)[i].zIndex == ls[i].zIndex
  {
    WrittenKeeps(ls, at, p, k);
    var r := Written(ls, at, p, k);
    forall i | 0 <= i < |ls| ensures r[i].zIndex == ls[i].zIndex {
      assert r[i].(data := ls[i].data) == ls[i];
    }
  }

  /** The reading-then-writing body of `align_selected_layers` for at
      least two selected ids: a bound that cannot be read raises before
      anything is written. */
  method AlignLayers(lm: LayerManager, alignType: string, ids: seq<string>) returns (raised: Option<Error>)
    requires lm.Valid() && |ids| >= 2
    modifies lm
    ensures match AlignedStore(old(lm.layers), alignType, Some(ids))
      case Ok(ls) => lm.layers == ls && raised == None
      case Err(x) => lm.layers == old(lm.layers) && raised == Some(x)
    ensures lm.nextZ == old(lm.nextZ)
    ensures lm.Valid()
  {
    var ls := lm.layers;
    var at := Resolve(ls, ids);
    var bs := Boxes(Picked(ls, at));
    AlignedStoreIsWritten(ls, alignType, ids);
    if bs.Err? {
      return Some(bs.error);
    }
    var t := AlignTypeOf(alignType);
    if |bs.value| == 0 || t.None? {
      return None;
    }
    var p := AlignPlan(bs.value, t.value);
    WritePlan(lm, at, p);
    assert lm.layers == Aligned(ls, at, bs.value, t.value);
    raised := None;
  }

  /** A successful alignment over a readable, non-empty selection is the
      planned writes. */
  lemma AlignedStoreIsWritten(ls: seq<Layer>, alignType: string, ids: seq<string>)
    requires |ids| >= 2
    ensures var at := Resolve(ls, ids);
      var bs := Boxes(Picked(ls, at));
      var r := AlignedStore(ls, alignType, Some(ids));
      (bs.Err? ==> r == Err(bs.error))
      && (bs.Ok? && (|bs.value| == 0 || AlignTypeOf(alignType).None?) ==> r == Ok(ls))
      && (bs.Ok? && |bs.value| > 0 && AlignTypeOf(alignType).Some? ==>
        r == Ok(Aligned(ls, at, bs.value, AlignTypeOf(alignType).value)))
  {
    var at := Resolve(ls, ids);
    var bs := Boxes(Picked(ls, at));
    if bs.Ok? && |bs.value| > 0 && AlignTypeOf(alignType).Some? {
      assert AlignedStore(ls, alignType, Some(ids)) == Ok(Aligned(ls, at, bs.value, AlignTypeOf(alignType).value));
    }
  }

  /** A successful alignment of distinct selected layers is the planned
      writes to distinct layers, so `WrittenReads` and `WrittenKeeps` apply:
      each layer ends up holding its planned value under the plan's key, and
      every other entry and field of every layer is as before. */
  lemma AlignWrites(ls: seq<Layer>, alignType: string, ids: seq<string>)
    requires |ids| >= 2 && Distinct(ids) && AlignTypeOf(alignType).Some?
    requires Boxes(Picked(ls, Resolve(ls, ids))).Ok? && |Resolve(ls, ids)| > 0
    ensures var at := Resolve(ls, ids);
      var p := AlignPlan(Boxes(Picked(ls, at)).value, AlignTypeOf(alignType).value);
      PlanFits(at, |ls|, p) && Distinct(at) && Distinct(p.order)
      && AlignedStore(ls, alignType, Some(ids)) == Ok(Written(ls, at, p, |p.order|))
  {
    var at := Resolve(ls, ids);
    var bs := Boxes(Picked(ls, at)).value;
    var t := AlignTypeOf(alignType).value;
    AlignedStoreIsWritten(ls, alignType, ids);
    assert Aligned(ls, at, bs, t) == Written(ls, at, AlignPlan(bs, t), |AlignPlan(bs, t).order|);
    ResolveDistinct(ls, ids);
    PlanOrderDistinct(bs, t);
  }

  // ---------------------------------------------------------------------
  // Pasting copied layers

  /** How far a pasted layer is moved from its original. */
  const PASTE_OFFSET: real := 20.0

  /** The styling a pasted text box copies, each with the default taken
      when the original has no such entry. */
  const TEXT_STYLE: seq<(string, Value)> :=
    [("font", VStr("Arial")), ("font_size", VInt(12)), ("color", VStr("#000000")),
     ("bold", VBool(false)), ("italic", VBool(false)), ("underline", VBool(false)),
     ("show_border", VBool(true)), ("border_color", VStr("#CCCCCC")),
     ("background_color", VNone)]

  /** The style keys are distinct and none of them is a geometry or text
      key. */
  lemma TextStyleKeys()
    ensures NoKey(TEXT_STYLE, "x") && NoKey(TEXT_STYLE, "y") && NoKey(TEXT_STYLE, "text")
    ensures NoKey(TEXT_STYLE, "width") && NoKey(TEXT_STYLE, "height")
    ensures forall j :: 0 <= j < |TEXT_STYLE| ==> LastKey(TEXT_STYLE, j)
  {
    var keys := seq(|TEXT_STYLE|, j requires 0 <= j < |TEXT_STYLE| => TEXT_STYLE[j].0);
    assert keys == ["font", "font_size", "color", "bold", "italic", "underline",
                    "show_border", "border_color", "background_color"];
  }

  /** No entry of `keys` has the key `k`. */
  predicate NoKey(keys: seq<(string, Value)>, k: string)
  {
    forall j :: 0 <= j < |keys| ==> keys[j].0 != k
  }

  /** The `j`-th entry's key does not come again later. */
  predicate LastKey(keys: seq<(string, Value)>, j: nat)
    requires j < |keys|
  {
    forall m :: j < m < |keys| ==> keys[m].0 != keys[j].0
  }

  /** `d.update({k: src.get(k, default) for each entry})`, in order. */
  function CopyStyle(d: Dict, src: Dict, keys: seq<(string, Value)>): (r: Dict)
    ensures forall k :: NoKey(keys, k) ==> Get(r, k) == Get(d, k)
    ensures forall j :: 0 <= j < |keys| && LastKey(keys, j) ==>
      Get(r, keys[j].0) == Some(GetOr(src, keys[j].0, keys[j].1))
    decreases |keys|
  {
    if |keys| == 0 then d
    else
      var k0 := keys[0].0;
      var d1 := Put(d, k0, GetOr(src, k0, keys[0].1));
      var r := CopyStyle(d1, src, keys[1..]);
      GetPutSame(d, k0, GetOr(src, k0, keys[0].1));
      forall k | k != k0 ensures Get(d1, k) == Get(d, k) {
        GetPutOther(d, k0, GetOr(src, k0, keys[0].1), k);
      }
      assert forall j :: 1 <= j < |keys| ==> keys[j] == keys[1..][j - 1];
      assert forall k :: NoKey(keys, k) ==> NoKey(keys[1..], k) && k != k0;
      assert forall j :: 1 <= j < |keys| && LastKey(keys, j) ==> LastKey(keys[1..], j - 1);
      assert LastKey(keys, 0) ==> NoKey(keys[1..], k0);
      r
  }

  /** `new_layer.rotation = original_layer.rotation`. */
  function Rotated(l: Layer, rotation: real): (r: Layer)
    requires l.kind.Interactive?
    ensures r.kind.Interactive? && r.kind.rotation == rotation
    ensures r.(kind := l.kind) == l
  {
    l.(kind := l.kind.(rotation := rotation))
  }

  /** The text box pasted at (`nx`, `ny`): a fresh text box carrying the
      original's text and size, then the original's style entries. */
  function PastedText(orig: Layer, page: int, nx: real, ny: real, freshId: string): (l: Layer)
    requires orig.kind.Interactive?
    ensures l.id == freshId && l.pageNum == page
    ensures l.kind == Interactive(TextBox, false, true, true, true, orig.kind.rotation)
    ensures Get(l.data, "x") == Some(VReal(nx)) && Get(l.data, "y") == Some(VReal(ny))
  {
    var t := TextBase(orig, page, nx, ny, freshId);
    var cd := CopyStyle(t.data, orig.data, TEXT_STYLE);
    TextStyleKeys();
    Rotated(t.(data := cd), orig.kind.rotation)
  }

  /** The unstyled text box `paste_layers` first builds. */
  function TextBase(orig: Layer, page: int, nx: real, ny: real, freshId: string): (t: Layer)
    ensures t.id == freshId && t.pageNum == page && t.kind == FreshKind(TextBox)
    ensures Get(t.data, "x") == Some(VReal(nx)) && Get(t.data, "y") == Some(VReal(ny))
    ensures Get(t.data, "text") == Some(GetText(orig))
    ensures Get(t.data, "width") == Some(GetOr(orig.data, "width", VInt(150)))
    ensures Get(t.data, "height") == Some(GetOr(orig.data, "height", VInt(40)))
  {
    var d := orig.data;
    NewTextField(page, nx, ny, GetText(orig), GetOr(d, "width", VInt(150)), GetOr(d, "height", VInt(40)), freshId)
  }

  /** The image pasted at (`nx`, `ny`). */
  function PastedImage(orig: Layer, page: int, nx: real, ny: real, freshId: string): (r: Result<Layer>)
    requires orig.kind.Interactive?
    ensures r.Err? ==> r.error in {AttributeError, ValueError}
    ensures r.Ok? ==> var l := r.value;
      l.id == freshId && l.pageNum == page
      && l.kind == Interactive(Picture, false, true, true, true, orig.kind.rotation)
      && Get(l.data, "x") == Some(VReal(nx)) && Get(l.data, "y") == Some(VReal(ny))
      && Get(l.data, "pixmap") == Some(GetOr(orig.data, "pixmap", VNone))
      && GetScaleMode(orig).Ok? && GetScaleMode(l) == GetScaleMode(orig)
  {
    var d := orig.data;
    var im :- NewImageLayer(page, nx, ny, GetOr(d, "pixmap", VNone), GetOr(d, "width", VInt(100)),
                            GetOr(d, "height", VInt(100)), GetOr(d, "image_path", VNone), freshId);
    var m :- GetScaleMode(orig);
    var mode := VStr(ScaleModeValue(m));
    GetPutOther(im.data, "scale_mode", mode, "x");
    GetPutOther(im.data, "scale_mode", mode, "y");
    GetPutOther(im.data, "scale_mode", mode, "pixmap");
    ScaleModeRoundTrip(im, m);
    Ok(Rotated(SetScaleMode(im, m), orig.kind.rotation))
  }

  /** The symbol pasted at (`nx`, `ny`). */
  function PastedSymbol(orig: Layer, page: int, nx: real, ny: real, freshId: string): (r: Result<Layer>)
    requires orig.kind.Interactive?
    ensures r.Err? ==> r.error == TypeError
    ensures r.Ok? ==> var l := r.value;
      l.id == freshId && l.pageNum == page
      && l.kind == Interactive(Glyph, false, true, true, true, orig.kind.rotation)
      && Get(l.data, "x") == Some(VReal(nx)) && Get(l.data, "y") == Some(VReal(ny))
      && Get(l.data, "symbol") == Some(GetOr(orig.data, "symbol", VStr("")))
      && Get(l.data, "font_size") == Some(GetOr(orig.data, "font_size", VInt(24)))
      && Get(l.data, "color") == Some(GetOr(orig.data, "color", VStr("#000000")))
  {
    var d := orig.data;
    var sy :- NewSymbolLayer(page, nx, ny, GetOr(d, "symbol", VStr("")), GetOr(d, "font_size", VInt(24)), freshId);
    var color := GetOr(d, "color", VStr("#000000"));
    SetColorKeeps(sy, color, "x");
    SetColorKeeps(sy, color, "y");
    SetColorKeeps(sy, color, "symbol");
    SetColorKeeps(sy, color, "font_size");
    Ok(Rotated(SetColor(sy, color), orig.kind.rotation))
  }

  /** The layer `paste_layers` builds from one copied layer on `page`, or
      None for a layer of another kind. Reading the position, building the
      new layer and reading the scale mode can each raise. */
  function PastedLayer(orig: Layer, page: int, freshId: string): (r: Result<Option<Layer>>)
    ensures !orig.kind.Interactive? ==> r == Ok(None)
    ensures orig.kind.Interactive? && r.Ok? ==>
      r.value.Some? && NumOr(orig.data, "x", 0.0).Ok? && NumOr(orig.data, "y", 0.0).Ok?
    ensures r.Err? ==> r.error in {TypeError, AttributeError, ValueError}
  {
    if !orig.kind.Interactive? then Ok(None)
    else PastedFrom(orig, page, NumOr(orig.data, "x", 0.0), NumOr(orig.data, "y", 0.0), freshId)
  }

  /** The copy of `orig` built from its position reads `x` and `y`. */
  function PastedFrom(orig: Layer, page: int, x: Result<real>, y: Result<real>, freshId: string): (r: Result<Option<Layer>>)
    requires orig.kind.Interactive?
    requires x.Err? ==> x.error == TypeError
    requires y.Err? ==> y.error == TypeError
    ensures r.Ok? ==> r.value.Some? && x.Ok? && y.Ok?
    ensures r.Err? ==> r.error in {TypeError, AttributeError, ValueError}
  {
    if x.Err? then Err(x.error)
    else if y.Err? then Err(y.error)
    else Lifted(PastedAt(orig, page, x.value + PASTE_OFFSET, y.value + PASTE_OFFSET, freshId))
  }

  /** A built layer, or the error that stopped it. */
  function Lifted(r: Result<Layer>): Result<Option<Layer>>
  {
    if r.Ok? then Ok(Some(r.value)) else Err(r.error)
  }

  /** The layer of the original's kind pasted at (`nx`, `ny`). */
  function PastedAt(orig: Layer, page: int, nx: real, ny: real, freshId: string): (r: Result<Layer>)
    requires orig.kind.Interactive?
    ensures r.Err? ==> r.error in {TypeError, AttributeError, ValueError}
    ensures r.Ok? ==> var l := r.value;
      l.id == freshId && l.pageNum == page
      && l.kind.Interactive? && l.kind.shape == orig.kind.shape && !l.kind.selected
      && l.kind.rotation == orig.kind.rotation
      && Get(l.data, "x") == Some(VReal(nx)) && Get(l.data, "y") == Some(VReal(ny))
  {
    match orig.kind.shape
    case TextBox => Ok(PastedText(orig, page, nx, ny, freshId))
    case Picture => PastedImage(orig, page, nx, ny, freshId)
    case Glyph => PastedSymbol(orig, page, nx, ny, freshId)
  }

  /** `l` is a new, unselected layer of `orig`'s kind on `page`, 20 units
      right of and below `orig`, with `orig`'s rotation. */
  predicate PlacedCopy(l: Layer, orig: Layer, page: int, freshId: string)
  {
    && l.id == freshId && l.pageNum == page
    && orig.kind.Interactive? && l.kind.Interactive?
    && l.kind.shape == orig.kind.shape && !l.kind.selected
    && l.kind.rotation == orig.kind.rotation
    && NumOr(orig.data, "x", 0.0).Ok? && NumOr(orig.data, "y", 0.0).Ok?
    && Get(l.data, "x") == Some(VReal(NumOr(orig.data, "x", 0.0).value + PASTE_OFFSET))
    && Get(l.data, "y") == Some(VReal(NumOr(orig.data, "y", 0.0).value + PASTE_OFFSET))
  }

  /** Every layer `paste_layers` builds is a placed copy of its original. */
  lemma PastedPlacement(orig: Layer, page: int, freshId: string)
    requires PastedLayer(orig, page, freshId).Ok? && PastedLayer(orig, page, freshId).value.Some?
    ensures PlacedCopy(PastedLayer(orig, page, freshId).value.value, orig, page, freshId)
  {
    assert orig.kind.Interactive?;
    assert NumOr(orig.data, "x", 0.0).Ok? && NumOr(orig.data, "y", 0.0).Ok?;
  }

  /** A pasted text box carries the original's text, size and every style
      entry, each defaulted as the original's getters default it. */
  lemma PastedTextCopiesStyle(orig: Layer, page: int, freshId: string)
    requires orig.kind.Interactive? && orig.kind.shape == TextBox
    requires PastedLayer(orig, page, freshId).Ok?
    ensures var l := PastedLayer(orig, page, freshId).value.value;
      Get(l.data, "text") == Some(GetText(orig))
      && Get(l.data, "width") == Some(GetOr(orig.data, "width", VInt(150)))
      && Get(l.data, "height") == Some(GetOr(orig.data, "height", VInt(40)))
      && forall j :: 0 <= j < |TEXT_STYLE| ==>
        Get(l.data, TEXT_STYLE[j].0) == Some(GetOr(orig.data, TEXT_STYLE[j].0, TEXT_STYLE[j].1))
  {
    var nx := NumOr(orig.data, "x", 0.0).value + PASTE_OFFSET;
    var ny := NumOr(orig.data, "y", 0.0).value + PASTE_OFFSET;
    PastedTextIs(orig, page, freshId);
    PastedTextStyle(orig, page, nx, ny, freshId);
  }

  /** A pasted text box is the text box built at the original's position
      moved by the paste offset. */
  lemma {:induction false} PastedTextIs(orig: Layer, page: int, freshId: string)
    requires orig.kind.Interactive? && orig.kind.shape == TextBox
    requires PastedLayer(orig, page, freshId).Ok?
    ensures var nx := NumOr(orig.data, "x", 0.0).value + PASTE_OFFSET;
      var ny := NumOr(orig.data, "y", 0.0).value + PASTE_OFFSET;
      PastedLayer(orig, page, freshId).value.value == PastedText(orig, page, nx, ny, freshId)
  {
    PastedLayerAt(orig, page, freshId);
    var nx := NumOr(orig.data, "x", 0.0).value + PASTE_OFFSET;
    var ny := NumOr(orig.data, "y", 0.0).value + PASTE_OFFSET;
    PastedAtText(orig, page, nx, ny, freshId);
  }

  lemma PastedLayerAt(orig: Layer, page: int, freshId: string)
    requires orig.kind.Interactive?
    requires NumOr(orig.data, "x", 0.0).Ok? && NumOr(orig.data, "y", 0.0).Ok?
    ensures PastedLayer(orig, page, freshId)
      == Lifted(PastedAt(orig, page, NumOr(orig.data, "x", 0.0).value + PASTE_OFFSET,
                         NumOr(orig.data, "y", 0.0).value + PASTE_OFFSET, freshId))
  {
    PastedFromAt(orig, page, NumOr(orig.data, "x", 0.0), NumOr(orig.data, "y", 0.0), freshId);
  }

  lemma PastedFromAt(orig: Layer, page: int, x: Result<real>, y: Result<real>, freshId: string)
    requires orig.kind.Interactive? && x.Ok? && y.Ok?
    ensures PastedFrom(orig, page, x, y, freshId)
      == Lifted(PastedAt(orig, page, x.value + PASTE_OFFSET, y.value + PASTE_OFFSET, freshId))
  {
  }

  lemma PastedAtText(orig: Layer, page: int, nx: real, ny: real, freshId: string)
    requires orig.kind.Interactive? && orig.kind.shape == TextBox
    ensures PastedAt(orig, page, nx, ny, freshId) == Ok(PastedText(orig, page, nx, ny, freshId))
  {
  }

  lemma PastedTextStyle(orig: Layer, page: int, nx: real, ny: real, freshId: string)
    requires orig.kind.Interactive?
    ensures var l := PastedText(orig, page, nx, ny, freshId);
      Get(l.data, "text") == Some(GetText(orig))
      && Get(l.data, "width") == Some(GetOr(orig.data, "width", VInt(150)))
      && Get(l.data, "height") == Some(GetOr(orig.data, "height", VInt(40)))
      && forall j :: 0 <= j < |TEXT_STYLE| ==>
        Get(l.data, TEXT_STYLE[j].0) == Some(GetOr(orig.data, TEXT_STYLE[j].0, TEXT_STYLE[j].1))
  {
    var t := TextBase(orig, page, nx, ny, freshId);
    assert PastedText(orig, page, nx, ny, freshId).data == CopyStyle(t.data, orig.data, TEXT_STYLE);
    CopiedStyle(t.data, orig.data);
  }

  /** Copying the style writes every style entry and keeps the text and the
      geometry. */
  lemma CopiedStyle(d: Dict, src: Dict)
    ensures var cd := CopyStyle(d, src, TEXT_STYLE);
      Get(cd, "text") == Get(d, "text") && Get(cd, "width") == Get(d, "width")
      && Get(cd, "height") == Get(d, "height")
      && forall j :: 0 <= j < |TEXT_STYLE| ==>
        Get(cd, TEXT_STYLE[j].0) == Some(GetOr(src, TEXT_STYLE[j].0, TEXT_STYLE[j].1))
  {
    CopiedStyleKeeps(d, src);
    CopiedStyleWrites(d, src);
  }

  lemma CopiedStyleKeeps(d: Dict, src: Dict)
    ensures var cd := CopyStyle(d, src, TEXT_STYLE);
      Get(cd, "text") == Get(d, "text") && Get(cd, "width") == Get(d, "width")
      && Get(cd, "height") == Get(d, "height")
  {
    StyleKeysOmit("text");
    StyleKeysOmit("width");
    StyleKeysOmit("height");
    CopyStyleKeeps(d, src, TEXT_STYLE, "text");
    CopyStyleKeeps(d, src, TEXT_STYLE, "width");
    CopyStyleKeeps(d, src, TEXT_STYLE, "height");
  }

  /** Copying style entries keeps every key none of them has. */
  lemma CopyStyleKeeps(d: Dict, src: Dict, keys: seq<(string, Value)>, k: string)
    requires NoKey(keys, k)
    ensures Get(CopyStyle(d, src, keys), k) == Get(d, k)
  {
  }

  lemma StyleKeysOmit(k: string)
    requires k in {"text", "width", "height"}
    ensures NoKey(TEXT_STYLE, k)
  {
  }

  lemma CopiedStyleWrites(d: Dict, src: Dict)
    ensures var cd := CopyStyle(d, src, TEXT_STYLE);
      forall j :: 0 <= j < |TEXT_STYLE| ==>
        Get(cd, TEXT_STYLE[j].0) == Some(GetOr(src, TEXT_STYLE[j].0, TEXT_STYLE[j].1))
  {
    TextStyleKeys();
  }

  /** A pasted image carries the original's pixmap and scale mode. */
  lemma PastedImageCopiesMode(orig: Layer, page: int, freshId: string)
    requires orig.kind.Interactive? && orig.kind.shape == Picture
    requires PastedLayer(orig, page, freshId).Ok?
    ensures var l := PastedLayer(orig, page, freshId).value.value;
      Get(l.data, "pixmap") == Some(GetOr(orig.data, "pixmap", VNone))
      && GetScaleMode(orig).Ok? && GetScaleMode(l) == GetScaleMode(orig)
  {
  }

  /** A pasted symbol carries the original's symbol, size and colour. */
  lemma PastedSymbolCopiesColour(orig: Layer, page: int, freshId: string)
    requires orig.kind.Interactive? && orig.kind.shape == Glyph
    requires PastedLayer(orig, page, freshId).Ok?
    ensures var l := PastedLayer(orig, page, freshId).value.value;
      Get(l.data, "symbol") == Some(GetOr(orig.data, "symbol", VStr("")))
      && Get(l.data, "font_size") == Some(GetOr(orig.data, "font_size", VInt(24)))
      && Get(l.data, "color") == Some(GetOr(orig.data, "color", VStr("#000000")))
  {
  }

  // ---------------------------------------------------------------------
  // Selecting and deselecting one layer

  /** Lowering a layer's flag leaves it unselected. */
  lemma FlaggedOff(ls: seq<Layer>, id: string)
    ensures !IsSelected(Flagged(ls, id, false), id)
  {
    var r := Flagged(ls, id, false);
    match IndexOf(ls, id)
    case None =>
    case Some(i) =>
      assert WithSelected(r[i], false) == WithSelected(ls[i], false);
  }

  /** `select_layer`: the previously selected layer's flag is lowered, then
      the new layer's flag is raised. */
  function Selected(ls: seq<Layer>, prev: Option<string>, id: string): (r: seq<Layer>)
    ensures SameButFlags(r, ls)
    ensures IndexOf(r, id) == IndexOf(ls, id)
    ensures IndexOf(ls, id).Some? && ls[IndexOf(ls, id).value].kind.Interactive? ==> IsSelected(r, id)
    ensures prev.Some? && prev.value != id ==> !IsSelected(r, prev.value)
    ensures forall other :: other != id && prev != Some(other) ==> IsSelected(r, other) == IsSelected(ls, other)
  {
    var lowered := if prev.Some? then Flagged(ls, prev.value, false) else ls;
    var r := Flagged(lowered, id, true);
    assert IndexOf(lowered, id) == IndexOf(ls, id);
    assert SameButFlags(lowered, ls);
    assert IndexOf(ls, id).Some? ==> lowered[IndexOf(ls, id).value].kind.Interactive? == ls[IndexOf(ls, id).value].kind.Interactive? by {
      if IndexOf(ls, id).Some? {
        var i := IndexOf(ls, id).value;
        assert WithSelected(lowered[i], false) == WithSelected(ls[i], false);
      }
    }
    assert prev.Some? && prev.value != id ==> !IsSelected(r, prev.value) by {
      if prev.Some? && prev.value != id {
        FlaggedOff(ls, prev.value);
        FlaggedOther(lowered, id, true, prev.value);
      }
    }
    forall other | other != id && prev != Some(other)
      ensures IsSelected(r, other) == IsSelected(ls, other)
    {
      FlaggedOther(lowered, id, true, other);
      if prev.Some? {
        FlaggedOther(ls, prev.value, false, other);
      }
    }
    r
  }

  /** `deselect_layer`: the selected layer's flag is lowered. */
  function Deselected(ls: seq<Layer>, prev: Option<string>): (r: seq<Layer>)
    ensures SameButFlags(r, ls)
    ensures prev.Some? ==> !IsSelected(r, prev.value)
    ensures forall other :: prev != Some(other) ==> IsSelected(r, other) == IsSelected(ls, other)
    ensures prev.None? ==> r == ls
  {
    if prev.None? then ls
    else
      var r := Flagged(ls, prev.value, false);
      FlaggedOff(ls, prev.value);
      forall other | prev != Some(other) ensures IsSelected(r, other) == IsSelected(ls, other) {
        FlaggedOther(ls, prev.value, false, other);
      }
      r
  }

  /** Changing flags changes no z-index, so the store stays valid. */
  lemma SameButFlagsKeepsZ(a: seq<Layer>, b: seq<Layer>)
    requires SameButFlags(a, b)
    ensures forall i :: 0 <= i < |a| ==> a[i].zIndex == b[i].zIndex && a[i].id == b[i].id
  {
    forall i | 0 <= i < |a| ensures a[i].zIndex == b[i].zIndex && a[i].id == b[i].id {
      assert WithSelected(a[i], false) == WithSelected(b[i], false);
    }
  }

  // ---------------------------------------------------------------------
  // Copying the selection

  /** The interactive layers of `ls`, in order. */
  function Interactives(ls: seq<Layer>): (r: seq<Layer>)
    ensures |r| <= |ls|
  {
    if |ls| == 0 then []
    else (if ls[0].kind.Interactive? then [ls[0]] else []) + Interactives(ls[1..])
  }

  /** The filter keeps exactly the interactive layers. */
  lemma {:induction false} InteractivesMembers(ls: seq<Layer>)
    ensures forall l :: l in Interactives(ls) <==> l in ls && l.kind.Interactive?
  {
    if |ls| > 0 {
      InteractivesMembers(ls[1..]);
      assert ls == [ls[0]] + ls[1..];
    }
  }

  lemma {:induction false} InteractivesAppend(ls: seq<Layer>, l: Layer)
    ensures Interactives(ls + [l]) == Interactives(ls) + (if l.kind.Interactive? then [l] else [])
  {
    if |ls| > 0 {
      assert (ls + [l])[1..] == ls[1..] + [l];
      InteractivesAppend(ls[1..], l);
    } else {
      assert ls + [l] == [l];
    }
  }

  /** The copying loop of `copy_selected_layers` over the picked layers. */
  method CollectInteractives(picked: seq<Layer>) returns (cs: seq<Layer>)
    ensures cs == Interactives(picked)
  {
    cs := [];
    var k := 0;
    while k < |picked|
      invariant 0 <= k <= |picked|
      invariant cs == Interactives(picked[..k])
    {
      assert picked[..k + 1] == picked[..k] + [picked[k]];
      InteractivesAppend(picked[..k], picked[k]);
      if picked[k].kind.Interactive? {
        cs := cs + [picked[k]];
      }
      k := k + 1;
    }
    assert picked[..k] == picked;
  }

  /** `copy_selected_layers`: with a non-empty selection of the selection
      tool (`selection`, None when another tool is active), its interactive
      layers; otherwise the selected layer when it is interactive. */
  function CopiedLayers(ls: seq<Layer>, selection: Option<seq<string>>, selectedId: Option<string>): (r: seq<Layer>)
    ensures forall l :: l in r ==> l in ls && l.kind.Interactive?
    ensures selection.Some? && |selection.value| > 0 ==>
      forall id :: id in selection.value && IndexOf(ls, id).Some? && ls[IndexOf(ls, id).value].kind.Interactive? ==>
        ls[IndexOf(ls, id).value] in r
    ensures (selection.None? || |selection.value| == 0) && selectedId.Some? ==>
      match IndexOf(ls, selectedId.value)
      case Some(i) => r == if ls[i].kind.Interactive? then [ls[i]] else []
      case None => r == []
    ensures (selection.None? || |selection.value| == 0) && selectedId.None? ==> r == []
  {
    if selection.Some? && |selection.value| > 0 then
      var at := Resolve(ls, selection.value);
      var picked := Picked(ls, at);
      forall id | id in selection.value && IndexOf(ls, id).Some?
        ensures ls[IndexOf(ls, id).value] in picked
      {
        var i := IndexOf(ls, id).value;
        assert i in at;
        var k :| 0 <= k < |at| && at[k] == i;
        assert picked[k] == ls[i];
      }
      InteractivesMembers(picked);
      Interactives(picked)
    else if selectedId.Some? then
      match IndexOf(ls, selectedId.value)
      case None => []
      case Some(i) => if ls[i].kind.Interactive? then [ls[i]] else []
    else []
  }

  // ---------------------------------------------------------------------
  // Pasting into the editor

  /** The editor after a paste, the exception that stopped it, and the ids
      of the layers pasted before it stopped. */
  datatype Pasting = Pasting(editor: Editor, raised: Option<Error>, pasted: seq<string>)

  /** `new_layer.selected = True` on the layer just added, the last in the
      store. */
  function MarkLast(e: Editor): (r: Editor)
    ensures r.stacks == e.stacks && r.store.nextZ == e.store.nextZ
    ensures |r.store.layers| == |e.store.layers|
    ensures |e.store.layers| > 0 ==>
      var n := |e.store.layers|;
      r.store.layers == e.store.layers[..n - 1] + [WithSelected(e.store.layers[n - 1], true)]
  {
    var ls := e.store.layers;
    if |ls| == 0 then e
    else Editor(e.store.(layers := ls[|ls| - 1 := WithSelected(ls[|ls| - 1], true)]), e.stacks)
  }

  /** What `paste_layers` builds from each copied layer of `src`, the i-th
      with the i-th fresh id. */
  function Made(src: seq<Layer>, page: int, freshIds: seq<string>): (ms: seq<Result<Option<Layer>>>)
    requires |freshIds| >= |src|
    ensures |ms| == |src|
    decreases |src|
  {
    if |src| == 0 then [] else [PastedLayer(src[0], page, freshIds[0])] + Made(src[1..], page, freshIds[1..])
  }

  lemma {:induction false} MadeAt(src: seq<Layer>, page: int, freshIds: seq<string>, k: nat)
    requires |freshIds| >= |src| && k < |src|
    ensures Made(src, page, freshIds)[k] == PastedLayer(src[k], page, freshIds[k])
    decreases k
  {
    if k > 0 {
      MadeAt(src[1..], page, freshIds[1..], k - 1);
    }
  }

  /** The loop of `paste_layers` over what it builds, `ms`: each layer built
      is added through `add_layer` (one history record) and then marked
      selected; the first exception stops the loop with everything added so
      far kept. */
  function PasteFrom(e: Editor, ms: seq<Result<Option<Layer>>>, maxHistory: int): (r: Pasting)
    ensures |r.pasted| <= |ms|
    decreases |ms|
  {
    if |ms| == 0 then Pasting(e, None, [])
    else
      match ms[0]
      case Err(x) => Pasting(e, Some(x), [])
      case Ok(None) => PasteFrom(e, ms[1..], maxHistory)
      case Ok(Some(l)) => Prefixed([l.id], PasteFrom(MarkLast(AddStep(e, l, maxHistory)), ms[1..], maxHistory))
  }

  /** `paste_layers`: nothing happens without copied layers; otherwise the
      current page's layers are deselected and the copies pasted. */
  function PasteAll(e: Editor, src: seq<Layer>, page: int, freshIds: seq<string>, maxHistory: int): (r: Pasting)
    requires |freshIds| >= |src|
    ensures |src| == 0 ==> r == Pasting(e, None, [])
  {
    if |src| == 0 then Pasting(e, None, [])
    else PasteFrom(Editor(e.store.(layers := ClearedOnPage(e.store.layers, page)), e.stacks), Made(src, page, freshIds), maxHistory)
  }

  /** The layer a built copy `l` becomes in the store: drawn at z-index `z`
      and selected. */
  function Installed(l: Layer, z: int): Layer
  {
    WithSelected(l.(zIndex := z), true)
  }

  /** One turn of the paste loop: an exception stops it, nothing built
      skips, and a built layer is installed on top. */
  lemma PasteFromUnroll(e: Editor, ms: seq<Result<Option<Layer>>>, maxHistory: int)
    requires |ms| > 0
    ensures ms[0].Err? ==> PasteFrom(e, ms, maxHistory) == Pasting(e, Some(ms[0].error), [])
    ensures ms[0] == Ok(None) ==> PasteFrom(e, ms, maxHistory) == PasteFrom(e, ms[1..], maxHistory)
    ensures ms[0].Ok? && ms[0].value.Some? ==>
      var l := ms[0].value.value;
      var e1 := MarkLast(AddStep(e, l, maxHistory));
      e1.store.layers == e.store.layers + [Installed(l, e.store.nextZ)]
      && e1.store.nextZ == e.store.nextZ + 1
      && PasteFrom(e, ms, maxHistory) == Prefixed([l.id], PasteFrom(e1, ms[1..], maxHistory))
  {
  }

  /** The editor `e1`, the exception `err` and the ids `id` after one
      turn of the paste loop from `e` on the build `m`. */
  predicate Turned(e: Editor, e1: Editor, m: Result<Option<Layer>>, maxHistory: int, err: Option<Error>, id: seq<string>)
  {
    match m
    case Err(x) => err == Some(x) && id == [] && e1 == e
    case Ok(None) => err == None && id == [] && e1 == e
    case Ok(Some(l)) => err == None && id == [l.id] && e1 == MarkLast(AddStep(e, l, maxHistory))
  }

  lemma PrefixedTwice(a: seq<string>, b: seq<string>, r: Pasting)
    ensures Prefixed(a, Prefixed(b, r)) == Prefixed(a + b, r)
  {
    assert a + (b + r.pasted) == (a + b) + r.pasted;
  }

  /** One turn of the paste loop, stated over its outcome. */
  lemma PasteFromTurn(e: Editor, e1: Editor, ms: seq<Result<Option<Layer>>>, maxHistory: int, err: Option<Error>, id: seq<string>)
    requires |ms| > 0 && Turned(e, e1, ms[0], maxHistory, err, id)
    ensures err.Some? ==> PasteFrom(e, ms, maxHistory) == Pasting(e1, err, id)
    ensures err.None? ==> PasteFrom(e, ms, maxHistory) == Prefixed(id, PasteFrom(e1, ms[1..], maxHistory))
  {
  }

  /** Pasting only appends to the store, one layer per id reported. */
  lemma {:induction false} PasteFromAppends(e: Editor, ms: seq<Result<Option<Layer>>>, maxHistory: int)
    ensures var r := PasteFrom(e, ms, maxHistory);
      var n := |e.store.layers|;
      |r.editor.store.layers| == n + |r.pasted|
      && r.editor.store.layers[..n] == e.store.layers
      && r.editor.store.nextZ == e.store.nextZ + |r.pasted|
    decreases |ms|
  {
    if |ms| > 0 {
      PasteFromUnroll(e, ms, maxHistory);
      var n := |e.store.layers|;
      if ms[0].Ok? && ms[0].value.Some? {
        var e1 := MarkLast(AddStep(e, ms[0].value.value, maxHistory));
        PasteFromAppends(e1, ms[1..], maxHistory);
        var rest := PasteFrom(e1, ms[1..], maxHistory);
        assert rest.editor.store.layers[..n + 1] == e1.store.layers;
        assert rest.editor.store.layers[..n] == rest.editor.store.layers[..n + 1][..n];
      } else if ms[0].Ok? {
        PasteFromAppends(e, ms[1..], maxHistory);
      }
    }
  }

  /** `ls[n..]` holds, in order, the installed layers of `ms`, which all
      built one, the first at z-index `z`. */
  predicate InstalledFrom(ls: seq<Layer>, n: nat, ms: seq<Result<Option<Layer>>>, z: int)
  {
    |ls| == n + |ms|
    && forall j :: 0 <= j < |ms| ==>
      ms[j].Ok? && ms[j].value.Some? && ls[n + j] == Installed(ms[j].value.value, z + j)
  }

  /** The ids of the layers built, in order. */
  function BuiltIds(ms: seq<Result<Option<Layer>>>): (ids: seq<string>)
    requires forall j :: 0 <= j < |ms| ==> ms[j].Ok? && ms[j].value.Some?
    ensures |ids| == |ms| && forall j :: 0 <= j < |ms| ==> ids[j] == ms[j].value.value.id
  {
    seq(|ms|, j requires 0 <= j < |ms| => ms[j].value.value.id)
  }

  /** Installing the first build in front of the installed rest. */
  lemma InstalledCons(ls: seq<Layer>, n: nat, ms: seq<Result<Option<Layer>>>, z: int, ids: seq<string>)
    requires |ms| > 0 && |ls| > n
    requires ms[0].Ok? && ms[0].value.Some? && ls[n] == Installed(ms[0].value.value, z)
    requires InstalledFrom(ls, n + 1, ms[1..], z + 1) && ids == BuiltIds(ms[1..])
    ensures InstalledFrom(ls, n, ms, z)
    ensures [ms[0].value.value.id] + ids == BuiltIds(ms)
  {
    forall j | 0 < j < |ms|
      ensures ms[j].Ok? && ms[j].value.Some? && ls[n + j] == Installed(ms[j].value.value, z + j)
    {
      assert ms[j] == ms[1..][j - 1];
      assert ls[(n + 1) + (j - 1)] == Installed(ms[1..][j - 1].value.value, z + 1 + (j - 1));
    }
  }

  /** A paste that skips no copy and raises nothing built every one. */
  lemma {:induction false} PasteFromBuildsAll(e: Editor, ms: seq<Result<Option<Layer>>>, maxHistory: int)
    requires forall j :: 0 <= j < |ms| ==> ms[j] != Ok(None)
    requires PasteFrom(e, ms, maxHistory).raised.None?
    ensures forall j :: 0 <= j < |ms| ==> ms[j].Ok? && ms[j].value.Some?
    decreases |ms|
  {
    if |ms| > 0 {
      PasteFromUnroll(e, ms, maxHistory);
      var e1 := MarkLast(AddStep(e, ms[0].value.value, maxHistory));
      assert forall j :: 1 <= j < |ms| ==> ms[j] == ms[1..][j - 1];
      PasteFromBuildsAll(e1, ms[1..], maxHistory);
    }
  }

  /** When every copy builds, nothing raises, every build is installed in
      order above the layers before it, each with the next z-index, and the
      ids reported are theirs. */
  lemma {:induction false} PasteFromInstalls(e: Editor, ms: seq<Result<Option<Layer>>>, maxHistory: int)
    requires forall j :: 0 <= j < |ms| ==> ms[j].Ok? && ms[j].value.Some?
    ensures var r := PasteFrom(e, ms, maxHistory);
      r.raised.None?
      && InstalledFrom(r.editor.store.layers, |e.store.layers|, ms, e.store.nextZ)
      && r.pasted == BuiltIds(ms)
    decreases |ms|
  {
    if |ms| > 0 {
      var e1 := MarkLast(AddStep(e, ms[0].value.value, maxHistory));
      assert forall j :: 1 <= j < |ms| ==> ms[j] == ms[1..][j - 1];
      PasteFromInstalls(e1, ms[1..], maxHistory);
      PasteFromInstallsStep(e, ms, maxHistory);
    }
  }

  /** The inductive step of `PasteFromInstalls`. */
  lemma PasteFromInstallsStep(e: Editor, ms: seq<Result<Option<Layer>>>, maxHistory: int)
    requires |ms| > 0 && forall j :: 0 <= j < |ms| ==> ms[j].Ok? && ms[j].value.Some?
    requires var e1 := MarkLast(AddStep(e, ms[0].value.value, maxHistory));
      var rest := PasteFrom(e1, ms[1..], maxHistory);
      rest.raised.None?
      && InstalledFrom(rest.editor.store.layers, |e1.store.layers|, ms[1..], e1.store.nextZ)
      && rest.pasted == BuiltIds(ms[1..])
    ensures var r := PasteFrom(e, ms, maxHistory);
      r.raised.None?
      && InstalledFrom(r.editor.store.layers, |e.store.layers|, ms, e.store.nextZ)
      && r.pasted == BuiltIds(ms)
  {
    PasteFromUnroll(e, ms, maxHistory);
    var l := ms[0].value.value;
    var e1 := MarkLast(AddStep(e, l, maxHistory));
    var n := |e.store.layers|;
    PasteFromAppends(e1, ms[1..], maxHistory);
    var rest := PasteFrom(e1, ms[1..], maxHistory);
    var ls := rest.editor.store.layers;
    assert ls[n] == Installed(l, e.store.nextZ) by {
      assert ls[..n + 1] == e1.store.layers;
      assert ls[n] == ls[..n + 1][n];
    }
    InstalledCons(ls, n, ms, e.store.nextZ, rest.pasted);
  }

  /** Pasting copies of interactive layers that all succeed appends, in
      order, one selected copy of each, drawn above every layer before it;
      each is the placed copy of its original with the id drawn for it, and
      the ids reported are those ids. */
  lemma PasteCopiesInstalls(e: Editor, src: seq<Layer>, page: int, freshIds: seq<string>, maxHistory: int)
    requires |freshIds| >= |src|
    requires forall j :: 0 <= j < |src| ==> src[j].kind.Interactive?
    requires PasteFrom(e, Made(src, page, freshIds), maxHistory).raised.None?
    ensures var ms := Made(src, page, freshIds);
      var r := PasteFrom(e, ms, maxHistory);
      InstalledFrom(r.editor.store.layers, |e.store.layers|, ms, e.store.nextZ)
      && r.pasted == freshIds[..|src|]
      && forall j :: 0 <= j < |src| ==> PlacedCopy(ms[j].value.value, src[j], page, freshIds[j])
  {
    var ms := Made(src, page, freshIds);
    MadeSkipsNone(src, page, freshIds);
    PasteFromBuildsAll(e, ms, maxHistory);
    PasteFromInstalls(e, ms, maxHistory);
    MadePlaced(src, page, freshIds);
  }

  /** Copies of interactive layers are never skipped. */
  lemma MadeSkipsNone(src: seq<Layer>, page: int, freshIds: seq<string>)
    requires |freshIds| >= |src|
    requires forall j :: 0 <= j < |src| ==> src[j].kind.Interactive?
    ensures forall j :: 0 <= j < |src| ==> Made(src, page, freshIds)[j] != Ok(None)
  {
    forall j | 0 <= j < |src| ensures Made(src, page, freshIds)[j] != Ok(None) {
      MadeAt(src, page, freshIds, j);
    }
  }

  /** Every build is the placed copy of its original, with its fresh id. */
  lemma MadePlaced(src: seq<Layer>, page: int, freshIds: seq<string>)
    requires |freshIds| >= |src|
    requires forall j :: 0 <= j < |src| ==> Made(src, page, freshIds)[j].Ok? && Made(src, page, freshIds)[j].value.Some?
    ensures var ms := Made(src, page, freshIds);
      (forall j :: 0 <= j < |src| ==> PlacedCopy(ms[j].value.value, src[j], page, freshIds[j]))
      && BuiltIds(ms) == freshIds[..|src|]
  {
    var ms := Made(src, page, freshIds);
    forall j | 0 <= j < |src| ensures PlacedCopy(ms[j].value.value, src[j], page, freshIds[j]) {
      MadeAt(src, page, freshIds, j);
      PastedPlacement(src[j], page, freshIds[j]);
    }
  }

  // ---------------------------------------------------------------------
  // Reading a PDF text span

  /** The colour of a span as `"#rrggbb"` in lower-case hexadecimal, from the
      bytes `(c >> 16) & 0xFF`, `(c >> 8) & 0xFF` and `c & 0xFF`. Python
      shifts a negative integer arithmetically, which is floor division, as
      Dafny's `/` by a positive divisor is. */
  function SpanColorHex(c: int): (s: string)
    ensures |s| == 7 && s[0] == '#'
    ensures ParseHex2(s[1..3]) == Some((c / 65536) % 256)
    ensures ParseHex2(s[3..5]) == Some((c / 256) % 256)
    ensures ParseHex2(s[5..7]) == Some(c % 256)
  {
    var r := Hex2((c / 65536) % 256);
    var g := Hex2((c / 256) % 256);
    var b := Hex2(c % 256);
    var s := "#" + r + g + b;
    assert s[1..3] == r && s[3..5] == g && s[5..7] == b;
    s
  }

  /** A colour packed from three bytes reads back as those bytes. */
  lemma SpanColorBytes(r: nat, g: nat, b: nat)
    requires r < 256 && g < 256 && b < 256
    ensures var s := SpanColorHex(r * 65536 + g * 256 + b);
      ParseHex2(s[1..3]) == Some(r) && ParseHex2(s[3..5]) == Some(g) && ParseHex2(s[5..7]) == Some(b)
  {
    SplitAt65536(r, g * 256 + b);
    SplitAt256(r * 256 + g, b);
    SplitAt256(r, g);
    SplitAt256(0, r);
  }

  /** `bool(flags & 16)`: bit 4 of the span flags. */
  predicate SpanBold(flags: int)
  {
    (flags / 16) % 2 == 1
  }

  /** `bool(flags & 2)`: bit 1 of the span flags. */
  predicate SpanItalic(flags: int)
  {
    (flags / 2) % 2 == 1
  }

  /** The two flags read back the bits a flags word is built from, whatever
      its other bits are. */
  lemma SpanFlagBits(high: int, bold: bool, mid: nat, italic: bool, low: nat)
    requires mid < 4 && low < 2
    ensures var flags := high * 32 + (if bold then 16 else 0) + mid * 4 + (if italic then 2 else 0) + low;
      SpanBold(flags) == bold && SpanItalic(flags) == italic
  {
    var bb := if bold then 1 else 0;
    var ii := if italic then 1 else 0;
    var upper := high * 2 + bb;
    var half := (high * 8 + bb * 4 + mid) * 2 + ii;
    SplitAt16(upper, mid * 4 + ii * 2 + low);
    SplitAt2(high, bb);
    SplitAt2(half, low);
    SplitAt2(high * 8 + bb * 4 + mid, ii);
  }

  /** The family `convert_pdf_text_to_layer` uses for a PDF font name. */
  function MapPdfFont(font: string): (name: string)
    ensures name == "Arial" || name == "Times New Roman" || name == "Courier New"
  {
    FamilyOf(Lower(font))
  }

  /** The family chosen for an already lower-cased font name. */
  function FamilyOf(f: string): string
  {
    if Common.Contains(f, "arial") || Common.Contains(f, "helv") then "Arial"
    else if Common.Contains(f, "times") then "Times New Roman"
    else if Common.Contains(f, "courier") then "Courier New"
    else "Arial"
  }

  /** Arial and Helvetica come first; otherwise the first of "times" and
      "courier" found in the lower-cased name picks its family. */
  lemma MapPdfFontMatches(font: string)
    ensures MapPdfFont(font) == "Times New Roman" ==> Common.Contains(Lower(font), "times")
    ensures MapPdfFont(font) == "Courier New" ==> Common.Contains(Lower(font), "courier")
    ensures Common.Contains(Lower(font), "arial") || Common.Contains(Lower(font), "helv") ==> MapPdfFont(font) == "Arial"
  {
  }

  /** The mapping ignores ASCII case. */
  lemma MapPdfFontIgnoresCase(font: string)
    ensures MapPdfFont(Upper(font)) == MapPdfFont(font)
  {
    LowerUpper(font);
  }

  // ---------------------------------------------------------------------
  // Converting a PDF text span into a text box

  /** The span `convert_pdf_text_to_layer` receives: its text, its box
      (`rect`), font, size, colour and style. */
  datatype TextInfo = TextInfo(text: string, x0: real, y0: real, x1: real, y1: real,
                               font: string, size: Value, color: string, bold: bool, italic: bool)

  /** `set_font`, `set_color` and `set_style(bold, italic, False)` in turn:
      only the six style entries change. */
  function Styled(l: Layer, family: string, size: Value, color: string, bold: bool, italic: bool): (r: Layer)
    ensures r.(data := l.data) == l
    ensures Get(r.data, "font") == Some(VStr(family)) && Get(r.data, "font_size") == Some(size)
    ensures Get(r.data, "color") == Some(VStr(color))
    ensures Get(r.data, "bold") == Some(VBool(bold)) && Get(r.data, "italic") == Some(VBool(italic))
    ensures Get(r.data, "underline") == Some(VBool(false))
    ensures forall k :: StyleFree(k) ==> Get(r.data, k) == Get(l.data, k)
  {
    var f := SetFont(l, family, size);
    var c := SetColor(f, VStr(color));
    var r := SetStyle(c, Some(bold), Some(italic), Some(false));
    SetColorKeeps(f, VStr(color), "font");
    SetColorKeeps(f, VStr(color), "font_size");
    SetStyleKeeps(c, Some(bold), Some(italic), Some(false), "font");
    SetStyleKeeps(c, Some(bold), Some(italic), Some(false), "font_size");
    SetStyleKeeps(c, Some(bold), Some(italic), Some(false), "color");
    r
  }

  lemma StyledKeeps(l: Layer, family: string, size: Value, color: string, bold: bool, italic: bool, k: string)
    requires StyleFree(k)
    ensures Get(Styled(l, family, size, color, bold, italic).data, k) == Get(l.data, k)
  {
  }

  /** `k` is none of the six style keys. */
  predicate StyleFree(k: string)
  {
    k != "font" && k != "font_size" && k != "color" && k != "bold" && k != "italic" && k != "underline"
  }

  /** The text box that replaces the span: placed at the span's corner,
      4 units larger than it, in the mapped font and the span's colour and
      style, not underlined. */
  function ConvertedLayer(info: TextInfo, page: int, freshId: string): (l: Layer)
    ensures l.id == freshId && l.pageNum == page && l.kind == FreshKind(TextBox)
    ensures Get(l.data, "text") == Some(VStr(info.text))
    ensures Get(l.data, "x") == Some(VReal(info.x0)) && Get(l.data, "y") == Some(VReal(info.y0))
    ensures Get(l.data, "width") == Some(VReal(info.x1 - info.x0 + 4.0))
    ensures Get(l.data, "height") == Some(VReal(info.y1 - info.y0 + 4.0))
    ensures Get(l.data, "font") == Some(VStr(MapPdfFont(info.font))) && Get(l.data, "font_size") == Some(info.size)
    ensures Get(l.data, "color") == Some(VStr(info.color))
    ensures Get(l.data, "bold") == Some(VBool(info.bold)) && Get(l.data, "italic") == Some(VBool(info.italic))
    ensures Get(l.data, "underline") == Some(VBool(false))
  {
    var t := NewTextField(page, info.x0, info.y0, VStr(info.text),
                          VReal(info.x1 - info.x0 + 4.0), VReal(info.y1 - info.y0 + 4.0), freshId);
    var r := Styled(t, MapPdfFont(info.font), info.size, info.color, info.bold, info.italic);
    StyledKeeps(t, MapPdfFont(info.font), info.size, info.color, info.bold, info.italic, "text");
    StyledKeeps(t, MapPdfFont(info.font), info.size, info.color, info.bold, info.italic, "x");
    StyledKeeps(t, MapPdfFont(info.font), info.size, info.color, info.bold, info.italic, "y");
    StyledKeeps(t, MapPdfFont(info.font), info.size, info.color, info.bold, info.italic, "width");
    StyledKeeps(t, MapPdfFont(info.font), info.size, info.color, info.bold, info.italic, "height");
    r
  }

  /** The extra record `convert_pdf_text_to_layer` pushes: an ADD_LAYER
      action whose payload names the layer only by `layer_id`. */
  function LayerIdRecord(id: string): (a: Action)
    ensures a.atype == AddLayer && !HasKey(a.data, "layer")
  {
    var d := [("layer_id", VStr(id))];
    assert d[0].0 != "layer";
    NewAction(AddLayer, d, "Convert text to layer")
  }

  /** `add_layer(l)` followed by `select_layer(l)`. */
  function AddSelected(e: Editor, l: Layer, selected: Option<string>, maxHistory: int): (r: Editor)
    ensures r.store.layers == Selected(AddStep(e, l, maxHistory).store.layers, selected, l.id)
    ensures r.store.nextZ == e.store.nextZ + 1 && r.stacks == AddStep(e, l, maxHistory).stacks
    ensures l.kind.Interactive? && (forall i :: 0 <= i < |e.store.layers| ==> e.store.layers[i].id != l.id) ==>
      IsSelected(r.store.layers, l.id)
  {
    var e1 := AddStep(e, l, maxHistory);
    var ls := e1.store.layers;
    var x := l.(zIndex := e.store.nextZ);
    assert ls == e.store.layers + [x];
    assert (forall i :: 0 <= i < |e.store.layers| ==> e.store.layers[i].id != l.id) ==> IndexOf(ls, l.id) == Some(|e.store.layers|) by {
      if forall i :: 0 <= i < |e.store.layers| ==> e.store.layers[i].id != l.id {
        IndexOfAppended(e.store.layers, x);
      }
    }
    Editor(e1.store.(layers := Selected(ls, selected, l.id)), e1.stacks)
  }

  /** A layer appended with an id no earlier layer has is found last. */
  lemma IndexOfAppended(ls: seq<Layer>, x: Layer)
    requires forall i :: 0 <= i < |ls| ==> ls[i].id != x.id
    ensures IndexOf(ls + [x], x.id) == Some(|ls|)
  {
    var r := IndexOf(ls + [x], x.id);
    assert (ls + [x])[|ls|].id == x.id;
  }

  /** The layer is added through `add_layer` and selected. */
  function ConvertCorrected(e: Editor, selected: Option<string>, info: TextInfo, page: int, freshId: string, maxHistory: int): (r: Editor)
    ensures r.store.layers ==
      Selected(e.store.layers + [ConvertedLayer(info, page, freshId).(zIndex := e.store.nextZ)], selected, freshId)
    ensures r.store.nextZ == e.store.nextZ + 1
    ensures (forall i :: 0 <= i < |e.store.layers| ==> e.store.layers[i].id != freshId) ==> IsSelected(r.store.layers, freshId)
  {
    AddSelected(e, ConvertedLayer(info, page, freshId), selected, maxHistory)
  }

  /** Undoing `AddSelected` removes the layer it added. */
  lemma AddSelectedUndo(e: Editor, l: Layer, selected: Option<string>, maxHistory: int, undoId: string)
    requires maxHistory >= 1
    ensures var c := AddSelected(e, l, selected, maxHistory);
      var u := UndoStep(c, undoId);
      u.raised == None && u.editor.store == RemoveFromStore(c.store, l.id)
      && forall i :: 0 <= i < |u.editor.store.layers| ==> u.editor.store.layers[i].id != l.id
  {
    var placed := l.(zIndex := e.store.nextZ);
    var c := AddSelected(e, l, selected, maxHistory);
    assert c.stacks == Added(e.stacks, AddRecord(placed), maxHistory);
    AddedOnTop(e.stacks, AddRecord(placed), maxHistory);
    ReverseAddRecord(c.store, placed, undoId);
    UndoOf(c, AddRecord(placed), RemoveFromStore(c.store, l.id), undoId);
  }

  /** `convert_pdf_text_to_layer` as written: after `add_layer` has
      recorded the layer, a second ADD_LAYER record naming it only by id is
      pushed. */
  function ConvertAsWritten(e: Editor, selected: Option<string>, info: TextInfo, page: int, freshId: string, maxHistory: int): (r: Editor)
    ensures r.store == ConvertCorrected(e, selected, info, page, freshId, maxHistory).store
    ensures r.stacks == Added(ConvertCorrected(e, selected, info, page, freshId, maxHistory).stacks, LayerIdRecord(freshId), maxHistory)
  {
    var c := ConvertCorrected(e, selected, info, page, freshId, maxHistory);
    Editor(c.store, Added(c.stacks, LayerIdRecord(freshId), maxHistory))
  }

  /** With a positive history limit the action just added is the top of the
      undo stack. */
  lemma AddedOnTop(s: Stacks, a: Action, maxHistory: int)
    requires maxHistory >= 1
    ensures var u := Added(s, a, maxHistory).undo; |u| > 0 && u[|u| - 1] == a
  {
  }

  /** As written, the first undo after a conversion raises `KeyError` on the
      missing `'layer'` key: the converted layer stays in the store and only
      the extra record moves to the redo stack. */
  lemma ConvertUndoRaises(e: Editor, selected: Option<string>, info: TextInfo, page: int, freshId: string, maxHistory: int, undoId: string)
    requires maxHistory >= 1
    ensures var r := ConvertAsWritten(e, selected, info, page, freshId, maxHistory);
      UndoStep(r, undoId) == Step(Editor(r.store, Undone(r.stacks)), Some(KeyError("layer")))
      && IndexOf(r.store.layers, freshId).Some?
  {
    var c := ConvertCorrected(e, selected, info, page, freshId, maxHistory);
    var r := ConvertAsWritten(e, selected, info, page, freshId, maxHistory);
    AddedOnTop(c.stacks, LayerIdRecord(freshId), maxHistory);
    UndoWithoutLayerPayload(r, undoId);
    var ls := AddStep(e, ConvertedLayer(info, page, freshId), maxHistory).store.layers;
    assert ls[|ls| - 1].id == freshId;
  }

  /** Without the extra record the first undo after a conversion removes the
      converted layer and raises nothing. */
  lemma ConvertUndoRemoves(e: Editor, selected: Option<string>, info: TextInfo, page: int, freshId: string, maxHistory: int, undoId: string)
    requires maxHistory >= 1
    ensures var c := ConvertCorrected(e, selected, info, page, freshId, maxHistory);
      var u := UndoStep(c, undoId);
      u.raised == None && u.editor.store == RemoveFromStore(c.store, freshId)
      && forall i :: 0 <= i < |u.editor.store.layers| ==> u.editor.store.layers[i].id != freshId
  {
    AddSelectedUndo(e, ConvertedLayer(info, page, freshId), selected, maxHistory, undoId);
  }

  // ---------------------------------------------------------------------
  // The widget

  /** The steps of a paste, with the ids pasted before `r` prepended. */
  function Prefixed(ids: seq<string>, r: Pasting): Pasting
  {
    r.(pasted := ids + r.pasted)
  }

  /** `InteractiveCanvasWidget`: the canvas `base`, the layer it keeps as
      `selected_layer` (by id) and the layers copied for pasting. */
  class InteractiveCanvas {
    const base: Canvas
    var selectedId: Option<string>
    var copied: seq<Layer>

    ghost predicate Valid()
      reads this, base, base.layerManager, base.history
    {
      base.Valid()
    }

    function Layers(): seq<Layer>
      reads base, base.layerManager
    {
      base.layerManager.layers
    }

    constructor(c: Canvas)
      requires c.Valid()
      ensures base == c && selectedId == None && copied == []
      ensures Valid()
    {
      base := c;
      selectedId := None;
      copied := [];
    }

    /** `find_layer_at_point`: the current page's layers are scanned from
        the top of the drawing order down. */
    method FindLayerAtPoint(p: Point) returns (r: Result<Option<Layer>>)
      ensures r == Topmost(base.layerManager.LayersForPage(base.currentPage), p)
    {
      r := TopmostScan(base.layerManager.LayersForPage(base.currentPage), p);
    }

    /** `select_layer`. */
    method SelectLayer(id: string)
      requires Valid()
      modifies this, base.layerManager
      ensures Layers() == Selected(old(Layers()), old(selectedId), id)
      ensures selectedId == Some(id) && copied == old(copied)
      ensures base.layerManager.nextZ == old(base.layerManager.nextZ)
      ensures Valid()
    {
      var lm := base.layerManager;
      if selectedId.Some? {
        lm.layers := Flagged(lm.layers, selectedId.value, false);
      }
      lm.layers := Flagged(lm.layers, id, true);
      SameButFlagsKeepsZ(lm.layers, old(lm.layers));
      selectedId := Some(id);
    }

    /** `deselect_layer`. */
    method DeselectLayer()
      requires Valid()
      modifies this, base.layerManager
      ensures Layers() == Deselected(old(Layers()), old(selectedId))
      ensures selectedId == None && copied == old(copied)
      ensures base.layerManager.nextZ == old(base.layerManager.nextZ)
      ensures Valid()
    {
      if selectedId.Some? {
        var lm := base.layerManager;
        lm.layers := Flagged(lm.layers, selectedId.value, false);
        SameButFlagsKeepsZ(lm.layers, old(lm.layers));
        selectedId := None;
      }
    }

    /** `deselect_all_layers`: every layer of the current page is
        unflagged and nothing is kept as selected. */
    method DeselectAllLayers()
      requires Valid()
      modifies this, base.layerManager
      ensures Layers() == ClearedOnPage(old(Layers()), base.currentPage)
      ensures selectedId == None && copied == old(copied)
      ensures base.layerManager.nextZ == old(base.layerManager.nextZ)
      ensures Valid()
    {
      var lm := base.layerManager;
      var page := base.currentPage;
      ghost var ls0 := lm.layers;
      var k := 0;
      while k < |lm.layers|
        invariant 0 <= k <= |lm.layers| == |ls0|
        invariant forall i :: 0 <= i < k ==> lm.layers[i] == ClearedOnPage(ls0, page)[i]
        invariant forall i :: k <= i < |ls0| ==> lm.layers[i] == ls0[i]
        invariant lm.nextZ == old(lm.nextZ)
        modifies lm
      {
        if lm.layers[k].pageNum == page {
          lm.layers := lm.layers[k := WithSelected(lm.layers[k], false)];
        }
        k := k + 1;
      }
      assert lm.layers == ClearedOnPage(ls0, page);
      SameButFlagsKeepsZ(lm.layers, ls0);
      selectedId := None;
    }

    /** `bring_layer_to_front`: a layer in the store moves to the end of the
        list and every z-index is renumbered. */
    method BringLayerToFront(id: string)
      requires Valid()
      modifies base.layerManager
      ensures IndexOf(old(Layers()), id).None? ==> Layers() == old(Layers())
      ensures IndexOf(old(Layers()), id).Some? ==>
        Layers() == Renumbered(ToFront(old(Layers()), IndexOf(old(Layers()), id).value))
      ensures base.layerManager.nextZ == old(base.layerManager.nextZ)
      ensures Valid()
    {
      var lm := base.layerManager;
      match IndexOf(lm.layers, id)
      case None =>
      case Some(i) =>
        lm.layers := ToFront(lm.layers, i);
        lm.ReindexLayers();
    }

    /** `send_layer_to_back`: a layer in the store moves to the start of the
        list and every z-index is renumbered. */
    method SendLayerToBack(id: string)
      requires Valid()
      modifies base.layerManager
      ensures IndexOf(old(Layers()), id).None? ==> Layers() == old(Layers())
      ensures IndexOf(old(Layers()), id).Some? ==>
        Layers() == Renumbered(ToBack(old(Layers()), IndexOf(old(Layers()), id).value))
      ensures base.layerManager.nextZ == old(base.layerManager.nextZ)
      ensures Valid()
    {
      var lm := base.layerManager;
      match IndexOf(lm.layers, id)
      case None =>
      case Some(i) =>
        lm.layers := ToBack(lm.layers, i);
        lm.ReindexLayers();
    }

    /** `align_selected_layers` for the selection tool's layers
        (`selection`, None when another tool is active): every bound is
        read, then the planned coordinate is written to each layer. */
    method AlignSelectedLayers(alignType: string, selection: Option<seq<string>>) returns (raised: Option<Error>)
      requires Valid()
      modifies base.layerManager
      ensures match AlignedStore(old(Layers()), alignType, selection)
        case Ok(ls) => Layers() == ls && raised == None
        case Err(x) => Layers() == old(Layers()) && raised == Some(x)
      ensures base.layerManager.nextZ == old(base.layerManager.nextZ)
      ensures Valid()
    {
      raised := None;
      if selection.None? || |selection.value| < 2 {
        return;
      }
      raised := AlignLayers(base.layerManager, alignType, selection.value);
    }

    /** `copy_selected_layers`. */
    method CopySelectedLayers(selection: Option<seq<string>>)
      modifies this
      ensures copied == CopiedLayers(Layers(), selection, selectedId)
      ensures selectedId == old(selectedId)
    {
      var ls := base.layerManager.layers;
      var cs := [];
      if selection.Some? && |selection.value| > 0 {
        cs := CollectInteractives(Picked(ls, Resolve(ls, selection.value)));
      } else if selectedId.Some? {
        match IndexOf(ls, selectedId.value)
        case None =>
        case Some(i) =>
          if ls[i].kind.Interactive? {
            cs := [ls[i]];
          }
      }
      copied := cs;
    }

    /** `paste_layers`, one fresh id per copied layer; `pasted` are the ids
        handed to the selection tool. */
    method PasteLayers(freshIds: seq<string>) returns (raised: Option<Error>, pasted: seq<string>)
      requires Valid() && |freshIds| >= |copied|
      modifies this, base.layerManager, base.history
      ensures Pasting(base.State(), raised, pasted) ==
        PasteAll(old(base.State()), old(copied), base.currentPage, freshIds, base.history.maxHistory)
      ensures copied == old(copied)
      ensures old(copied) != [] ==> selectedId == None
      ensures Valid()
    {
      raised, pasted := None, [];
      if |copied| == 0 {
        return;
      }
      DeselectAllLayers();
      raised, pasted := PasteLoop(freshIds);
    }

    /** The loop of `paste_layers` after the deselection. */
    method PasteLoop(freshIds: seq<string>) returns (raised: Option<Error>, pasted: seq<string>)
      requires Valid() && |freshIds| >= |copied|
      modifies base.layerManager, base.history
      ensures Pasting(base.State(), raised, pasted) ==
        PasteFrom(old(base.State()), Made(copied, base.currentPage, freshIds), base.history.maxHistory)
      ensures Valid()
    {
      raised, pasted := None, [];
      var page := base.currentPage;
      var maxH := base.history.maxHistory;
      ghost var e0 := base.State();
      ghost var ms := Made(copied, page, freshIds);
      var k := 0;
      while k < |copied|
        invariant 0 <= k <= |copied|
        invariant Valid()
        invariant PasteFrom(e0, ms, maxH) == Prefixed(pasted, PasteFrom(base.State(), ms[k..], maxH))
        modifies base.layerManager, base.history
      {
        var made := PastedLayer(copied[k], page, freshIds[k]);
        MadeAt(copied, page, freshIds, k);
        assert ms[k..][0] == made && ms[k..][1..] == ms[k + 1..];
        ghost var before := base.State();
        var err, id := PasteTurn(made);
        PasteFromTurn(before, base.State(), ms[k..], maxH, err, id);
        if err.None? {
          PrefixedTwice(pasted, id, PasteFrom(base.State(), ms[k + 1..], maxH));
        }
        pasted := pasted + id;
        if err.Some? {
          raised := err;
          return;
        }
        k := k + 1;
      }
    }

    /** One turn of the paste loop on what it built: an exception is
        handed back, nothing built does nothing, and a built layer is added
        and selected. */
    method PasteTurn(made: Result<Option<Layer>>) returns (err: Option<Error>, id: seq<string>)
      requires Valid()
      modifies base.layerManager, base.history
      ensures Turned(old(base.State()), base.State(), made, base.history.maxHistory, err, id)
      ensures Valid()
    {
      err, id := None, [];
      match made
      case Err(x) =>
        err := Some(x);
      case Ok(None) =>
      case Ok(Some(l)) =>
        AddMarked(l);
        id := [l.id];
    }

    /** One pasted layer: `add_layer(new_layer)`, then
        `new_layer.selected = True`. */
    method AddMarked(l: Layer)
      requires Valid()
      modifies base.layerManager, base.history
      ensures base.State() == MarkLast(AddStep(old(base.State()), l, base.history.maxHistory))
      ensures Valid()
    {
      base.AddLayer(l);
      var lm := base.layerManager;
      var n := |lm.layers|;
      lm.layers := lm.layers[n - 1 := WithSelected(lm.layers[n - 1], true)];
    }

    /** The widget once `l` has been added through `add_layer` and then
        selected, starting from the editor `e`, the selection `sel` and
        the copies `c`. */
    ghost predicate AddedAndSelected(e: Editor, sel: Option<string>, c: seq<Layer>, l: Layer)
      reads this, base, base.layerManager, base.history
    {
      Valid() && base.State() == AddSelected(e, l, sel, base.history.maxHistory)
      && selectedId == Some(l.id) && copied == c
    }

    /** `convert_pdf_text_to_layer` without the extra history record: the
        text box built from the span is added through `add_layer` and
        selected (the state `ConvertCorrected` describes). */
    method ConvertPdfTextToLayer(info: TextInfo, freshId: string)
      requires Valid()
      modifies this, base.layerManager, base.history
      ensures AddedAndSelected(old(base.State()), old(selectedId), old(copied), ConvertedLayer(info, old(base.currentPage), freshId))
    {
      AddAndSelect(ConvertedLayer(info, base.currentPage, freshId));
    }

    /** `add_layer(l)` followed by `select_layer(l)`. */
    method AddAndSelect(l: Layer)
      requires Valid()
      modifies this, base.layerManager, base.history
      ensures AddedAndSelected(old(base.State()), old(selectedId), old(copied), l)
    {
      base.AddLayer(l);
      SelectLayer(l.id);
    }
  }
}
