/** The cut tool (src/tools/cut_tool.py): a left drag marks a region of
    the page, which on release is handed to the canvas's capture callback
    when it is larger than 5 by 5; a right click asks the canvas to open
    the image dialog at the click.

    The callbacks are the canvas's; here the tool knows only whether each
    is set, and a method reports the call it makes through its results. */
module CutTools {
  import opened Common
  import opened InteractiveLayers
  import opened BaseTools
  import Layers

  /** The smallest capture, exclusive, on either side. */
  const MIN_CAPTURE: real := 5.0

  class CutTool {
    const base: BaseTool
    var isDrawingBox: bool
    var boxStart: Option<Point>
    var boxCurrent: Option<Point>
    var lastCapture: Option<Rect>
    var hasCaptureCallback: bool
    var hasDialogCallback: bool

    /** Only a region larger than 5 by 5 is ever remembered as captured. */
    predicate Valid()
      reads this
    {
      lastCapture.Some? ==> lastCapture.value.w > MIN_CAPTURE && lastCapture.value.h > MIN_CAPTURE
    }

    constructor()
      ensures fresh(base) && base.toolType == Select && base.Settings() == DEFAULT_SETTINGS
      ensures !isDrawingBox && boxStart == None && boxCurrent == None && lastCapture == None
      ensures !hasCaptureCallback && !hasDialogCallback
      ensures Valid()
    {
      base := new BaseTool(Select);
      isDrawingBox := false;
      boxStart, boxCurrent := None, None;
      lastCapture := None;
      hasCaptureCallback, hasDialogCallback := false, false;
    }

    /** A left press starts a box at the press point; a right press is
        handled and calls the dialog callback, when there is one, with the
        press point. */
    method MousePress(button: MouseButton, page: int, pos: Point) returns (handled: bool, dialogAt: Option<Point>)
      requires Valid()
      modifies this
      ensures Valid()
      ensures handled <==> button == LeftButton || button == RightButton
      ensures dialogAt == if button == RightButton && hasDialogCallback then Some(pos) else None
      ensures button == LeftButton ==> isDrawingBox && boxStart == Some(pos) && boxCurrent == Some(pos)
      ensures button != LeftButton ==>
        isDrawingBox == old(isDrawingBox) && boxStart == old(boxStart) && boxCurrent == old(boxCurrent)
      ensures lastCapture == old(lastCapture)
      ensures hasCaptureCallback == old(hasCaptureCallback) && hasDialogCallback == old(hasDialogCallback)
    {
      dialogAt := None;
      if button == LeftButton {
        isDrawingBox := true;
        boxStart, boxCurrent := Some(pos), Some(pos);
        return true, dialogAt;
      } else if button == RightButton {
        if hasDialogCallback {
          dialogAt := Some(pos);
        }
        return true, dialogAt;
      }
      return false, dialogAt;
    }

    method MouseMove(page: int, pos: Point) returns (handled: bool)
      requires Valid()
      modifies this
      ensures Valid()
      ensures handled == old(isDrawingBox && IsSet(boxStart))
      ensures boxCurrent == if handled then Some(pos) else old(boxCurrent)
      ensures isDrawingBox == old(isDrawingBox) && boxStart == old(boxStart) && lastCapture == old(lastCapture)
      ensures hasCaptureCallback == old(hasCaptureCallback) && hasDialogCallback == old(hasDialogCallback)
    {
      if isDrawingBox && IsSet(boxStart) {
        boxCurrent := Some(pos);
        return true;
      }
      return false;
    }

    /** A left release ends the box: a spanned region larger than 5 by 5
        becomes the last capture and goes to the capture callback, if set,
        with the page; the corners are cleared either way. */
    method MouseRelease(button: MouseButton, page: int, pos: Point)
      returns (handled: bool, captured: Option<(Rect, int)>)
      requires Valid()
      modifies this
      ensures Valid()
      ensures handled <==> button == LeftButton && old(isDrawingBox)
      ensures var box := DragBox(old(boxStart), old(boxCurrent));
        var taken := handled && box.Some? && box.value.w > MIN_CAPTURE && box.value.h > MIN_CAPTURE;
        lastCapture == (if taken then box else old(lastCapture))
        && captured == (if taken && hasCaptureCallback then Some((box.value, page)) else None)
      ensures handled ==> !isDrawingBox && boxStart == None && boxCurrent == None
      ensures !handled ==>
        isDrawingBox == old(isDrawingBox) && boxStart == old(boxStart) && boxCurrent == old(boxCurrent)
      ensures hasCaptureCallback == old(hasCaptureCallback) && hasDialogCallback == old(hasDialogCallback)
    {
      captured := None;
      if button == LeftButton && isDrawingBox {
        isDrawingBox := false;
        var box := DragBox(boxStart, boxCurrent);
        if box.Some? && box.value.w > MIN_CAPTURE && box.value.h > MIN_CAPTURE {
          lastCapture := box;
          if hasCaptureCallback {
            captured := Some((box.value, page));
          }
        }
        boxStart, boxCurrent := None, None;
        return true, captured;
      }
      return false, captured;
    }

    /** `get_selection_box`. */
    function SelectionBox(): Option<Rect>
      reads this
    {
      DragBox(boxStart, boxCurrent)
    }

    method SetCaptureCallback(present: bool)
      modifies this
      ensures hasCaptureCallback == present && hasDialogCallback == old(hasDialogCallback)
      ensures isDrawingBox == old(isDrawingBox) && boxStart == old(boxStart) && boxCurrent == old(boxCurrent)
      ensures lastCapture == old(lastCapture)
    {
      hasCaptureCallback := present;
    }

    method SetDialogCallback(present: bool)
      modifies this
      ensures hasDialogCallback == present && hasCaptureCallback == old(hasCaptureCallback)
      ensures isDrawingBox == old(isDrawingBox) && boxStart == old(boxStart) && boxCurrent == old(boxCurrent)
      ensures lastCapture == old(lastCapture)
    {
      hasDialogCallback := present;
    }

    /** The cut tool never yields a layer of its own. */
    method GetCompletedLayer() returns (l: Option<Layers.Layer>)
      ensures l == None
    {
      l := None;
    }

    /** `reset`: the box goes; the last capture and the callbacks stay. */
    method Reset()
      modifies this
      ensures !isDrawingBox && boxStart == None && boxCurrent == None
      ensures lastCapture == old(lastCapture)
      ensures hasCaptureCallback == old(hasCaptureCallback) && hasDialogCallback == old(hasDialogCallback)
    {
      isDrawingBox := false;
      boxStart, boxCurrent := None, None;
    }
  }
}
