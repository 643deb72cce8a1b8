/** The selection tool (src/tools/selection_tool.py): a drag on empty
    ground draws a selection box for the canvas to resolve, and a drag that
    starts on a selected interactive layer moves every selected layer by the
    pointer's offset from the press. */
module SelectionTools {
  import opened Common
  import opened Values
  import opened Layers
  import opened InteractiveLayers
  import opened BaseTools
  import InteractiveCanvas

  // ---------------------------------------------------------------------
  // Hitting the selection

  /** `_is_point_in_selection`: the first selected interactive layer whose
      bounds at zoom 1 are a non-null rectangle containing the point makes
      the answer True; bounds that cannot be computed raise. Plain layers
      have no bounds and are passed over. */
  function HitsSelection(ls: seq<Layer>, p: Point): (r: Result<bool>)
    ensures r.Err? ==> r.error == TypeError
  {
    if ls == [] then Ok(false)
    else if ls[0].kind.Interactive? then
      match Bounds(ls[0], 1.0)
      case Err(e) => Err(e)
      case Ok(b) =>
        if !IsNullRect(b) && InteractiveCanvas.Contains(b, p) then Ok(true) else HitsSelection(ls[1..], p)
    else HitsSelection(ls[1..], p)
  }

  /** Some selected interactive layer's bounds hold the point. */
  predicate HitBy(l: Layer, p: Point)
  {
    l.kind.Interactive? && Bounds(l, 1.0).Ok?
    && !IsNullRect(Bounds(l, 1.0).value) && InteractiveCanvas.Contains(Bounds(l, 1.0).value, p)
  }

  /** A hit names a layer that holds the point; a miss means every
      interactive layer's bounds were computed and none holds it. */
  lemma {:induction false} HitsSelectionMeans(ls: seq<Layer>, p: Point)
    ensures HitsSelection(ls, p) == Ok(true) ==> exists i :: 0 <= i < |ls| && HitBy(ls[i], p)
    ensures HitsSelection(ls, p) == Ok(false) ==>
      forall i :: 0 <= i < |ls| && ls[i].kind.Interactive? ==> Bounds(ls[i], 1.0).Ok? && !HitBy(ls[i], p)
  {
    if ls != [] {
      HitsSelectionMeans(ls[1..], p);
      if HitsSelection(ls, p) == Ok(true) && !HitBy(ls[0], p) {
        var i :| 0 <= i < |ls[1..]| && HitBy(ls[1..][i], p);
        assert HitBy(ls[i + 1], p);
      }
      if HitsSelection(ls, p) == Ok(false) {
        forall i | 0 <= i < |ls| && ls[i].kind.Interactive?
          ensures Bounds(ls[i], 1.0).Ok? && !HitBy(ls[i], p)
        {
          if i > 0 {
            assert ls[i] == ls[1..][i - 1];
          }
        }
      }
    }
  }

  // ---------------------------------------------------------------------
  // Moving the selection

  /** Where a selected layer was when the move began: its stored `x` and
      `y`, or 0 for a key it lacks. */
  function StartPosition(l: Layer): (Value, Value)
  {
    (GetOr(l.data, "x", VInt(0)), GetOr(l.data, "y", VInt(0)))
  }

  function StartPositions(ls: seq<Layer>): (r: seq<(Value, Value)>)
    ensures |r| == |ls| && forall i :: 0 <= i < |ls| ==> r[i] == StartPosition(ls[i])
  {
    seq(|ls|, i requires 0 <= i < |ls| => StartPosition(ls[i]))
  }

  /** Moving one layer: `x` becomes its start plus dx, then `y` its start
      plus dy. A start that is not a number makes the addition raise, so a
      bad `y` leaves the new `x` written. The flag says whether both writes
      happened. */
  function MoveLayer(l: Layer, s: (Value, Value), dx: real, dy: real): (r: (Layer, bool))
    ensures r.0 == l.(data := r.0.data)
    ensures r.1 <==> IsNumber(s.0) && IsNumber(s.1)
  {
    if !IsNumber(s.0) then (l, false)
    else
      var l1 := l.(data := Put(l.data, "x", VReal(AsReal(s.0) + dx)));
      if !IsNumber(s.1) then (l1, false)
      else (l1.(data := Put(l1.data, "y", VReal(AsReal(s.1) + dy))), true)
  }

  /** The layers after moving each one that has a start position, front to
      back, stopping at the first that raises; the flag says whether all
      succeeded. */
  function Moved(ls: seq<Layer>, ss: seq<(Value, Value)>, dx: real, dy: real): (r: (seq<Layer>, bool))
    ensures |r.0| == |ls|
  {
    if ls == [] || ss == [] then (ls, true)
    else
      var step := MoveLayer(ls[0], ss[0], dx, dy);
      if !step.1 then ([step.0] + ls[1..], false)
      else
        var rest := Moved(ls[1..], ss[1..], dx, dy);
        ([step.0] + rest.0, rest.1)
  }

  /** After a move that succeeds every layer with a start position holds
      its start plus the offset, keeps every other field, and layers beyond
      the start positions are untouched. */
  lemma MovedPlaces(ls: seq<Layer>, ss: seq<(Value, Value)>, dx: real, dy: real, i: nat)
    requires Moved(ls, ss, dx, dy).1 && i < |ls|
    ensures var r := Moved(ls, ss, dx, dy).0;
      r[i] == ls[i].(data := r[i].data)
      && (i < |ss| ==>
            IsNumber(ss[i].0) && IsNumber(ss[i].1)
            && Get(r[i].data, "x") == Some(VReal(AsReal(ss[i].0) + dx))
            && Get(r[i].data, "y") == Some(VReal(AsReal(ss[i].1) + dy)))
      && (i >= |ss| ==> r[i] == ls[i])
  {
    MovedAt(ls, ss, dx, dy, i);
    if i < |ss| {
      var m := MoveLayer(ls[i], ss[i], dx, dy).0;
      assert Moved(ls, ss, dx, dy).0[i].data == m.data;
      MoveLayerPlaces(ls[i], ss[i], dx, dy);
    }
  }

  /** Where the move loop stands at index i: the layer there is the step's
      result, and the flag agrees with that step. */
  lemma {:induction false} MovedAt(ls: seq<Layer>, ss: seq<(Value, Value)>, dx: real, dy: real, i: nat)
    requires Moved(ls, ss, dx, dy).1 && i < |ls|
    ensures var r := Moved(ls, ss, dx, dy).0;
      r[i] == ls[i].(data := r[i].data)
      && (i < |ss| ==> MoveLayer(ls[i], ss[i], dx, dy).1 && r[i] == MoveLayer(ls[i], ss[i], dx, dy).0)
      && (i >= |ss| ==> r[i] == ls[i])
  {
    if ss != [] {
      var step := MoveLayer(ls[0], ss[0], dx, dy);
      var rest := Moved(ls[1..], ss[1..], dx, dy);
      assert step.1 && Moved(ls, ss, dx, dy).0 == [step.0] + rest.0 && rest.1;
      if i > 0 {
        MovedAt(ls[1..], ss[1..], dx, dy, i - 1);
        assert ls[1..][i - 1] == ls[i];
        assert Moved(ls, ss, dx, dy).0[i] == rest.0[i - 1];
      }
    }
  }

  lemma MoveLayerPlaces(l: Layer, s: (Value, Value), dx: real, dy: real)
    requires MoveLayer(l, s, dx, dy).1
    ensures Get(MoveLayer(l, s, dx, dy).0.data, "x") == Some(VReal(AsReal(s.0) + dx))
    ensures Get(MoveLayer(l, s, dx, dy).0.data, "y") == Some(VReal(AsReal(s.1) + dy))
  {
    var d1 := Put(l.data, "x", VReal(AsReal(s.0) + dx));
    GetPutSame(d1, "y", VReal(AsReal(s.1) + dy));
    GetPutOther(d1, "y", VReal(AsReal(s.1) + dy), "x");
    GetPutSame(l.data, "x", VReal(AsReal(s.0) + dx));
  }

  /** Each move is measured from where the drag began, so moves do not
      add up: moving again from the same start positions gives exactly
      what the second move alone gives, even after a move that raised. */
  lemma {:induction false} MovesDoNotAccumulate(ls: seq<Layer>, ss: seq<(Value, Value)>,
                                                dx1: real, dy1: real, dx2: real, dy2: real)
    ensures Moved(Moved(ls, ss, dx1, dy1).0, ss, dx2, dy2) == Moved(ls, ss, dx2, dy2)
  {
    if ls != [] && ss != [] {
      var first := Moved(ls, ss, dx1, dy1).0;
      MoveLayerTwice(ls[0], ss[0], dx1, dy1, dx2, dy2);
      assert first[1..] == (if MoveLayer(ls[0], ss[0], dx1, dy1).1 then Moved(ls[1..], ss[1..], dx1, dy1).0 else ls[1..]);
      if MoveLayer(ls[0], ss[0], dx1, dy1).1 {
        MovesDoNotAccumulate(ls[1..], ss[1..], dx1, dy1, dx2, dy2);
      }
    }
  }

  lemma MoveLayerTwice(l: Layer, s: (Value, Value), dx1: real, dy1: real, dx2: real, dy2: real)
    ensures MoveLayer(MoveLayer(l, s, dx1, dy1).0, s, dx2, dy2) == MoveLayer(l, s, dx2, dy2)
  {
    var a := MoveLayer(l, s, dx1, dy1).0;
    MovedDataIs(l, s, dx1, dy1);
    MovedDataIs(a, s, dx2, dy2);
    MovedDataIs(l, s, dx2, dy2);
    MovedDataTwice(l.data, s, dx1, dy1, dx2, dy2);
    assert MoveLayer(a, s, dx2, dy2).0 == MoveLayer(l, s, dx2, dy2).0;
  }

  /** Moving the data twice from the same start keeps only the second move. */
  lemma MovedDataTwice(d: Dict, s: (Value, Value), dx1: real, dy1: real, dx2: real, dy2: real)
    ensures MovedData(MovedData(d, s, dx1, dy1), s, dx2, dy2) == MovedData(d, s, dx2, dy2)
  {
    if IsNumber(s.0) {
      var x1, x2 := VReal(AsReal(s.0) + dx1), VReal(AsReal(s.0) + dx2);
      if IsNumber(s.1) {
        PositionTwice(d, x1, VReal(AsReal(s.1) + dy1), x2, VReal(AsReal(s.1) + dy2));
      } else {
        PutPutSame(d, "x", x1, x2);
      }
    }
  }

  /** The data a move leaves: `x` and then `y` written as far as the
      additions get. */
  function MovedData(d: Dict, s: (Value, Value), dx: real, dy: real): Dict
  {
    if !IsNumber(s.0) then d
    else
      var d1 := Put(d, "x", VReal(AsReal(s.0) + dx));
      if !IsNumber(s.1) then d1 else Put(d1, "y", VReal(AsReal(s.1) + dy))
  }

  lemma MovedDataIs(l: Layer, s: (Value, Value), dx: real, dy: real)
    ensures MoveLayer(l, s, dx, dy).0 == l.(data := MovedData(l.data, s, dx, dy))
  {
  }

  /** Writing `x` and `y` twice keeps only the second pair. */
  lemma PositionTwice(d: Dict, x1: Value, y1: Value, x2: Value, y2: Value)
    ensures Put(Put(Put(Put(d, "x", x1), "y", y1), "x", x2), "y", y2) == Put(Put(d, "x", x2), "y", y2)
  {
    var d1 := Put(d, "x", x1);
    GetPutSame(d, "x", x1);
    PutCommute(d1, "x", x2, "y", y1);
    PutPutSame(d, "x", x1, x2);
    PutPutSame(Put(d, "x", x2), "y", y1, y2);
  }

  /** One step of the move loop, seen from the position it has reached. */
  lemma MovedStep(ls: seq<Layer>, ss: seq<(Value, Value)>, i: nat, dx: real, dy: real)
    requires i < |ls| && i < |ss|
    ensures var step := MoveLayer(ls[i], ss[i], dx, dy);
      Moved(ls[i..], ss[i..], dx, dy) ==
        if !step.1 then ([step.0] + ls[i + 1..], false)
        else ([step.0] + Moved(ls[i + 1..], ss[i + 1..], dx, dy).0, Moved(ls[i + 1..], ss[i + 1..], dx, dy).1)
  {
    assert ls[i..][1..] == ls[i + 1..];
    assert ss[i..][1..] == ss[i + 1..];
  }

  /** Writing x at position i of a sequence whose tail from i is that of
      ls. */
  lemma Splice<T>(layers: seq<T>, ls: seq<T>, i: nat, x: T)
    requires i < |layers| == |ls| && layers[i..] == ls[i..]
    ensures layers[i := x] == layers[..i] + ([x] + ls[i + 1..])
    ensures layers[i := x][..i + 1] == layers[..i] + [x]
    ensures layers[i := x][i + 1..] == ls[i + 1..]
  {
    assert ls[i + 1..] == layers[i + 1..];
  }

  /** The state of the move loop before index i: the layers from i on are
      as they were, and what is left to do finishes the whole move. */
  predicate MovedUpTo(ls: seq<Layer>, ss: seq<(Value, Value)>, dx: real, dy: real, i: nat, layers: seq<Layer>)
    requires i <= |ls| && i <= |ss| && |layers| == |ls|
  {
    layers[i..] == ls[i..]
    && layers[..i] + Moved(ls[i..], ss[i..], dx, dy).0 == Moved(ls, ss, dx, dy).0
    && Moved(ls[i..], ss[i..], dx, dy).1 == Moved(ls, ss, dx, dy).1
  }

  lemma MovedUpToStep(ls: seq<Layer>, ss: seq<(Value, Value)>, dx: real, dy: real, i: nat, layers: seq<Layer>)
    requires i < |ls| && i < |ss| && |layers| == |ls| && MovedUpTo(ls, ss, dx, dy, i, layers)
    ensures var step := MoveLayer(layers[i], ss[i], dx, dy);
      (step.1 ==> MovedUpTo(ls, ss, dx, dy, i + 1, layers[i := step.0]))
      && (!step.1 ==> (layers[i := step.0], false) == Moved(ls, ss, dx, dy))
  {
    assert layers[i] == layers[i..][0] == ls[i];
    var step := MoveLayer(ls[i], ss[i], dx, dy);
    MovedStep(ls, ss, i, dx, dy);
    Splice(layers, ls, i, step.0);
    if step.1 {
      StepContinues(ls, ss, dx, dy, i, layers, step.0);
    } else {
      StepStops(ls, ss, dx, dy, i, layers, step.0);
    }
  }

  lemma StepContinues(ls: seq<Layer>, ss: seq<(Value, Value)>, dx: real, dy: real, i: nat,
                      layers: seq<Layer>, l: Layer)
    requires i < |ls| && i < |ss| && |layers| == |ls| && MovedUpTo(ls, ss, dx, dy, i, layers)
    requires Moved(ls[i..], ss[i..], dx, dy).0 == [l] + Moved(ls[i + 1..], ss[i + 1..], dx, dy).0
    requires Moved(ls[i..], ss[i..], dx, dy).1 == Moved(ls[i + 1..], ss[i + 1..], dx, dy).1
    requires layers[i := l][..i + 1] == layers[..i] + [l] && layers[i := l][i + 1..] == ls[i + 1..]
    ensures MovedUpTo(ls, ss, dx, dy, i + 1, layers[i := l])
  {
    var rest := Moved(ls[i + 1..], ss[i + 1..], dx, dy).0;
    assert (layers[..i] + [l]) + rest == layers[..i] + ([l] + rest);
  }

  lemma StepStops(ls: seq<Layer>, ss: seq<(Value, Value)>, dx: real, dy: real, i: nat,
                  layers: seq<Layer>, l: Layer)
    requires i < |ls| && i < |ss| && |layers| == |ls| && MovedUpTo(ls, ss, dx, dy, i, layers)
    requires Moved(ls[i..], ss[i..], dx, dy) == ([l] + ls[i + 1..], false)
    requires layers[i := l] == layers[..i] + ([l] + ls[i + 1..])
    ensures (layers[i := l], false) == Moved(ls, ss, dx, dy)
  {
  }

  lemma MovedUpToEnd(ls: seq<Layer>, ss: seq<(Value, Value)>, dx: real, dy: real, i: nat, layers: seq<Layer>)
    requires i <= |ls| && i <= |ss| && (i == |ls| || i == |ss|) && |layers| == |ls|
    requires MovedUpTo(ls, ss, dx, dy, i, layers)
    ensures (layers, true) == Moved(ls, ss, dx, dy)
  {
    assert layers[..i] + layers[i..] == layers;
  }

  /** The move loop of `mouse_move`: each layer that has a start position
      is moved in turn, and the first start that raises ends the loop with
      the layers before it, and possibly that layer's `x`, written. */
  method MoveAll(ls: seq<Layer>, ss: seq<(Value, Value)>, dx: real, dy: real)
    returns (layers: seq<Layer>, ok: bool)
    ensures layers == Moved(ls, ss, dx, dy).0 && ok == Moved(ls, ss, dx, dy).1
  {
    layers := ls;
    // Layers past the recorded start positions are left alone.
    var n := if |ls| < |ss| then |ls| else |ss|;
    var i := 0;
    while i < n
      invariant 0 <= i <= n && |layers| == |ls| && n <= |ls| && n <= |ss|
      invariant MovedUpTo(ls, ss, dx, dy, i, layers)
    {
      var step := MoveLayer(layers[i], ss[i], dx, dy);
      MovedUpToStep(ls, ss, dx, dy, i, layers);
      layers := layers[i := step.0];
      if !step.1 {
        return layers, false;
      }
      i := i + 1;
    }
    MovedUpToEnd(ls, ss, dx, dy, i, layers);
    return layers, true;
  }

  // ---------------------------------------------------------------------
  // The tool

  class SelectionTool {
    const base: BaseTool
    var isDrawingBox: bool
    var boxStart: Option<Point>
    var boxCurrent: Option<Point>
    var isMoving: bool
    /** The selected layers, as the tool holds them. */
    var selectedLayers: seq<Layer>
    var moveStart: Option<Point>
    var startPositions: seq<(Value, Value)>

    /** A move in progress knows where it started. */
    predicate Valid()
      reads this
    {
      isMoving ==> moveStart.Some?
    }

    constructor()
      ensures fresh(base) && base.toolType == Select && base.Settings() == DEFAULT_SETTINGS
      ensures !isDrawingBox && boxStart == None && boxCurrent == None
      ensures !isMoving && selectedLayers == [] && moveStart == None && startPositions == []
      ensures Valid()
    {
      base := new BaseTool(Select);
      isDrawingBox := false;
      boxStart, boxCurrent := None, None;
      isMoving := false;
      selectedLayers := [];
      moveStart := None;
      startPositions := [];
    }

    /** `_is_point_in_selection`. */
    method IsPointInSelection(p: Point) returns (r: Result<bool>)
      ensures r == HitsSelection(selectedLayers, p)
    {
      var i := 0;
      while i < |selectedLayers|
        invariant 0 <= i <= |selectedLayers|
        invariant HitsSelection(selectedLayers, p) == HitsSelection(selectedLayers[i..], p)
      {
        var l := selectedLayers[i];
        assert selectedLayers[i..][1..] == selectedLayers[i + 1..];
        if l.kind.Interactive? {
          var b := Bounds(l, 1.0);
          if b.Err? {
            return Err(b.error);
          }
          if !IsNullRect(b.value) && InteractiveCanvas.Contains(b.value, p) {
            return Ok(true);
          }
        }
        i := i + 1;
      }
      return Ok(false);
    }

    /** A left press on a selected layer starts moving the selection and
        records each selected layer's start position; any other left press
        starts a selection box at the press point. Working out the bounds
        may raise, and then nothing changes. */
    method MousePress(button: MouseButton, page: int, pos: Point) returns (r: Result<bool>)
      requires Valid()
      modifies this
      ensures Valid()
      ensures selectedLayers == old(selectedLayers)
      ensures var hit := if selectedLayers == [] then Ok(false) else HitsSelection(selectedLayers, pos);
        var moving := button == LeftButton && hit == Ok(true);
        var boxing := button == LeftButton && hit == Ok(false);
        r == (if button != LeftButton then Ok(false) else if hit.Err? then Err(TypeError) else Ok(true))
        && isMoving == (moving || old(isMoving))
        && moveStart == (if moving then Some(pos) else old(moveStart))
        && startPositions == (if moving then StartPositions(selectedLayers) else old(startPositions))
        && isDrawingBox == (boxing || old(isDrawingBox))
        && boxStart == (if boxing then Some(pos) else old(boxStart))
        && boxCurrent == (if boxing then Some(pos) else old(boxCurrent))
    {
      if button != LeftButton {
        return Ok(false);
      }
      var hit := Ok(false);
      if selectedLayers != [] {
        hit := IsPointInSelection(pos);
      }
      if hit.Err? {
        return Err(hit.error);
      }
      if hit.value {
        isMoving := true;
        moveStart := Some(pos);
        var starts := [];
        var i := 0;
        while i < |selectedLayers|
          invariant 0 <= i <= |selectedLayers|
          invariant starts == StartPositions(selectedLayers[..i])
        {
          starts := starts + [StartPosition(selectedLayers[i])];
          i := i + 1;
        }
        assert selectedLayers[..i] == selectedLayers;
        startPositions := starts;
        return Ok(true);
      }
      isDrawingBox := true;
      boxStart, boxCurrent := Some(pos), Some(pos);
      return Ok(true);
    }

    /** A move stretches the selection box while one is being drawn, or
        else moves the selected layers to their start positions plus the
        pointer's offset from the press. A start position that is not a
        number raises, leaving the layers before it moved. */
    method MouseMove(page: int, pos: Point) returns (r: Result<bool>)
      requires Valid()
      modifies this
      ensures Valid()
      ensures var boxing := old(isDrawingBox && IsSet(boxStart));
        var moving := !boxing && old(isMoving && IsSet(moveStart));
        (boxing ==> r == Ok(true) && boxCurrent == Some(pos) && selectedLayers == old(selectedLayers))
        && (moving ==>
              var m := Moved(old(selectedLayers), startPositions,
                             pos.x - old(moveStart).value.x, pos.y - old(moveStart).value.y);
              selectedLayers == m.0 && r == (if m.1 then Ok(true) else Err(TypeError))
              && boxCurrent == old(boxCurrent))
        && (!boxing && !moving ==> r == Ok(false) && boxCurrent == old(boxCurrent)
                                   && selectedLayers == old(selectedLayers))
      ensures isDrawingBox == old(isDrawingBox) && boxStart == old(boxStart) && isMoving == old(isMoving)
      ensures moveStart == old(moveStart) && startPositions == old(startPositions)
    {
      if isDrawingBox && IsSet(boxStart) {
        boxCurrent := Some(pos);
        return Ok(true);
      } else if isMoving && IsSet(moveStart) {
        var layers, ok := MoveAll(selectedLayers, startPositions,
                                  pos.x - moveStart.value.x, pos.y - moveStart.value.y);
        selectedLayers := layers;
        return if ok then Ok(true) else Err(TypeError);
      }
      return Ok(false);
    }

    /** A left release ends the box, whose corners stay for the canvas to
        read, or ends the move and forgets its start. */
    method MouseRelease(button: MouseButton, page: int, pos: Point) returns (handled: bool)
      requires Valid()
      modifies this
      ensures Valid()
      ensures var endBox := button == LeftButton && old(isDrawingBox);
        var endMove := button == LeftButton && !old(isDrawingBox) && old(isMoving);
        (handled <==> endBox || endMove)
        && isDrawingBox == (old(isDrawingBox) && !endBox)
        && isMoving == (old(isMoving) && !endMove)
        && moveStart == (if endMove then None else old(moveStart))
        && startPositions == (if endMove then [] else old(startPositions))
      ensures boxStart == old(boxStart) && boxCurrent == old(boxCurrent) && selectedLayers == old(selectedLayers)
    {
      if button == LeftButton {
        if isDrawingBox {
          isDrawingBox := false;
          return true;
        } else if isMoving {
          isMoving := false;
          moveStart := None;
          startPositions := [];
          return true;
        }
      }
      return false;
    }

    /** `get_selection_box`. */
    function SelectionBox(): Option<Rect>
      reads this
    {
      DragBox(boxStart, boxCurrent)
    }

    method ClearBoxSelection()
      modifies this
      ensures boxStart == None && boxCurrent == None
      ensures isDrawingBox == old(isDrawingBox) && isMoving == old(isMoving) && selectedLayers == old(selectedLayers)
      ensures moveStart == old(moveStart) && startPositions == old(startPositions)
    {
      boxStart, boxCurrent := None, None;
    }

    method SetSelectedLayers(layers: seq<Layer>)
      modifies this
      ensures selectedLayers == layers
      ensures isDrawingBox == old(isDrawingBox) && boxStart == old(boxStart) && boxCurrent == old(boxCurrent)
      ensures isMoving == old(isMoving) && moveStart == old(moveStart) && startPositions == old(startPositions)
    {
      selectedLayers := layers;
    }

    method ClearSelectedLayers()
      modifies this
      ensures selectedLayers == []
      ensures isDrawingBox == old(isDrawingBox) && boxStart == old(boxStart) && boxCurrent == old(boxCurrent)
      ensures isMoving == old(isMoving) && moveStart == old(moveStart) && startPositions == old(startPositions)
    {
      selectedLayers := [];
    }

    /** `reset`: back to the state of a new tool. */
    method Reset()
      modifies this
      ensures !isDrawingBox && boxStart == None && boxCurrent == None
      ensures !isMoving && selectedLayers == [] && moveStart == None && startPositions == []
      ensures Valid()
    {
      isDrawingBox, isMoving := false, false;
      boxStart, boxCurrent, moveStart := None, None, None;
      selectedLayers := [];
      startPositions := [];
    }
  }
}
