/** The interactive text tool (src/tools/interactive_text_tool.py): a left drag marks
    a text box; on release the frame is kept, pending, for the canvas to turn
    into an interactive layer at its top-left corner. */
module InteractiveTextTools {
  import opened Common
  import opened InteractiveLayers
  import opened BaseTools

  /** The lengths a side shorter than 20 is given. */
  const DEFAULT_WIDTH: real := 150.0
  const DEFAULT_HEIGHT: real := 40.0

  class InteractiveTextTool {
    const base: BaseTool
    var start: Option<Point>
    var current: Option<Point>
    var isDrawing: bool
    var pendingCreation: bool
    var textBoxRect: Option<Rect>

    /** A frame is pending exactly when one is kept, and a kept frame is at
        least 20 by 20. */
    predicate Valid()
      reads this
    {
      (pendingCreation <==> textBoxRect.Some?)
      && (textBoxRect.Some? ==> textBoxRect.value.w >= 20.0 && textBoxRect.value.h >= 20.0)
    }

    constructor()
      ensures fresh(base) && base.toolType == ToolType.Text && base.Settings() == DEFAULT_SETTINGS
      ensures start == None && current == None && !isDrawing && !pendingCreation && textBoxRect == None
      ensures Valid()
    {
      base := new BaseTool(ToolType.Text);
      start, current := None, None;
      isDrawing, pendingCreation := false, false;
      textBoxRect := None;
    }

    /** A left press starts a new drag and drops any pending frame. */
    method MousePress(button: MouseButton, page: int, pos: Point) returns (handled: bool)
      requires Valid()
      modifies this
      ensures Valid()
      ensures handled <==> button == LeftButton
      ensures handled ==>
        start == Some(pos) && current == Some(pos) && isDrawing && !pendingCreation && textBoxRect == None
      ensures !handled ==>
        start == old(start) && current == old(current) && isDrawing == old(isDrawing)
        && pendingCreation == old(pendingCreation) && textBoxRect == old(textBoxRect)
    {
      if button == LeftButton {
        start, current := Some(pos), Some(pos);
        isDrawing := true;
        pendingCreation := false;
        textBoxRect := None;
        return true;
      }
      return false;
    }

    method MouseMove(page: int, pos: Point) returns (handled: bool)
      requires Valid()
      modifies this
      ensures Valid()
      ensures handled == old(isDrawing && IsSet(start))
      ensures current == if handled then Some(pos) else old(current)
      ensures start == old(start) && isDrawing == old(isDrawing)
      ensures pendingCreation == old(pendingCreation) && textBoxRect == old(textBoxRect)
    {
      if isDrawing && IsSet(start) {
        current := Some(pos);
        return true;
      }
      return false;
    }

    /** A left release ends the drag; with a start and a release point set,
        the frame they span, sides below 20 given their defaults, becomes
        pending. The release point is used, not the last move. */
    method MouseRelease(button: MouseButton, page: int, pos: Point) returns (handled: bool)
      requires Valid()
      modifies this
      ensures Valid()
      ensures var ending := button == LeftButton && old(isDrawing);
        isDrawing == (old(isDrawing) && !ending)
        && (handled <==> ending && IsSet(old(start)) && IsSet(Some(pos)))
      ensures start == old(start) && current == old(current)
      ensures handled ==>
        pendingCreation && textBoxRect == Some(FrameOf(start.value, pos, DEFAULT_WIDTH, DEFAULT_HEIGHT))
      ensures !handled ==> pendingCreation == old(pendingCreation) && textBoxRect == old(textBoxRect)
    {
      if button == LeftButton && isDrawing {
        isDrawing := false;
        if IsSet(start) && IsSet(Some(pos)) {
          FrameAtLeast(start.value, pos, DEFAULT_WIDTH, DEFAULT_HEIGHT);
          textBoxRect := Some(FrameOf(start.value, pos, DEFAULT_WIDTH, DEFAULT_HEIGHT));
          pendingCreation := true;
          return true;
        }
      }
      return false;
    }

    /** `get_pending_position`: the kept frame's top-left corner while a
        frame is pending. */
    function PendingPosition(): (r: Option<Point>)
      reads this
      ensures Valid() ==> (r.Some? <==> pendingCreation)
      ensures r.Some? ==> textBoxRect.Some? && r.value == Point(textBoxRect.value.x, textBoxRect.value.y)
    {
      if pendingCreation && textBoxRect.Some? then Some(Point(textBoxRect.value.x, textBoxRect.value.y)) else None
    }

    /** `clear_pending`: back to no drag and no frame. */
    method ClearPending()
      modifies this
      ensures !pendingCreation && !isDrawing && start == None && current == None && textBoxRect == None
      ensures Valid()
    {
      pendingCreation, isDrawing := false, false;
      start, current := None, None;
      textBoxRect := None;
    }
  }

  /** A pending frame sits at the smaller corner of the drag, whichever
      way it went, and is at least 20 by 20. */
  lemma PendingAtDragCorner(t: InteractiveTextTool, a: Point, b: Point)
    requires t.pendingCreation && t.textBoxRect == Some(FrameOf(a, b, DEFAULT_WIDTH, DEFAULT_HEIGHT))
    ensures t.PendingPosition() == Some(Point(MinR(a.x, b.x), MinR(a.y, b.y)))
    ensures t.textBoxRect.value.w >= 20.0 && t.textBoxRect.value.h >= 20.0
  {
    FrameAtLeast(a, b, DEFAULT_WIDTH, DEFAULT_HEIGHT);
  }
}
