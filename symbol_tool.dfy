/** The symbol tool (src/tools/symbol_tool.py): a left click asks for the
    current symbol to be stamped at the click, a right click asks for the
    symbol dialog first. The canvas reads the request and clears it. */
module SymbolTools {
  import opened Common
  import opened InteractiveLayers
  import opened BaseTools

  /** The symbols offered by default: star, check, cross, circle, square,
      triangle, the four card suits and four arrows. */
  const DEFAULT_SYMBOLS: seq<string> := [
    "\U{2605}", "\U{2713}", "\U{2717}", "\U{25CF}", "\U{25A0}", "\U{25B2}", "\U{2665}",
    "\U{2666}", "\U{2660}", "\U{2663}", "\U{2192}", "\U{2190}", "\U{2191}", "\U{2193}"]

  const DEFAULT_SYMBOL_SIZE: int := 24

  class SymbolTool {
    const base: BaseTool
    var currentSymbol: string
    var symbolSize: int
    var symbolColor: string
    var pendingCreation: bool
    var clickPos: Option<Point>
    var showDialog: bool

    /** A request always knows where it was made; the dialog is only ever
        asked for as part of a request. */
    predicate Valid()
      reads this
    {
      (pendingCreation ==> clickPos.Some?) && (showDialog ==> pendingCreation)
    }

    /** A new tool stamps a black star of size 24; it counts as a text
        tool. */
    constructor()
      ensures fresh(base) && base.toolType == ToolType.Text && base.Settings() == DEFAULT_SETTINGS
      ensures currentSymbol == DEFAULT_SYMBOLS[0] && symbolSize == DEFAULT_SYMBOL_SIZE
      ensures symbolColor == DEFAULT_COLOR
      ensures !pendingCreation && clickPos == None && !showDialog
      ensures Valid()
    {
      base := new BaseTool(ToolType.Text);
      currentSymbol := DEFAULT_SYMBOLS[0];
      symbolSize := DEFAULT_SYMBOL_SIZE;
      symbolColor := DEFAULT_COLOR;
      pendingCreation := false;
      clickPos := None;
      showDialog := false;
    }

    method SetSymbol(symbol: string)
      modifies this
      ensures currentSymbol == symbol
      ensures symbolSize == old(symbolSize) && symbolColor == old(symbolColor)
      ensures pendingCreation == old(pendingCreation) && clickPos == old(clickPos) && showDialog == old(showDialog)
    {
      currentSymbol := symbol;
    }

    method SetSymbolSize(size: int)
      modifies this
      ensures symbolSize == size
      ensures currentSymbol == old(currentSymbol) && symbolColor == old(symbolColor)
      ensures pendingCreation == old(pendingCreation) && clickPos == old(clickPos) && showDialog == old(showDialog)
    {
      symbolSize := size;
    }

    method SetSymbolColor(color: string)
      modifies this
      ensures symbolColor == color
      ensures currentSymbol == old(currentSymbol) && symbolSize == old(symbolSize)
      ensures pendingCreation == old(pendingCreation) && clickPos == old(clickPos) && showDialog == old(showDialog)
    {
      symbolColor := color;
    }

    /** `set_color` keeps the tool colour and the symbol colour together. */
    method SetColor(color: string)
      modifies this, base
      ensures base.Settings() == old(base.Settings()).(color := color)
      ensures symbolColor == color
      ensures currentSymbol == old(currentSymbol) && symbolSize == old(symbolSize)
      ensures pendingCreation == old(pendingCreation) && clickPos == old(clickPos) && showDialog == old(showDialog)
    {
      base.SetColor(color);
      SetSymbolColor(color);
    }

    /** A left or right press makes a request at the press point; only a
        right press asks for the dialog. */
    method MousePress(button: MouseButton, page: int, pos: Point) returns (handled: bool)
      requires Valid()
      modifies this
      ensures Valid()
      ensures handled <==> button == LeftButton || button == RightButton
      ensures handled ==> pendingCreation && clickPos == Some(pos) && (showDialog <==> button == RightButton)
      ensures !handled ==>
        pendingCreation == old(pendingCreation) && clickPos == old(clickPos) && showDialog == old(showDialog)
      ensures currentSymbol == old(currentSymbol) && symbolSize == old(symbolSize) && symbolColor == old(symbolColor)
    {
      if button == LeftButton {
        clickPos := Some(pos);
        pendingCreation := true;
        showDialog := false;
        return true;
      } else if button == RightButton {
        clickPos := Some(pos);
        pendingCreation := true;
        showDialog := true;
        return true;
      }
      return false;
    }

    /** Moving the mouse is never handled: no preview follows it. */
    method MouseMove(page: int, pos: Point) returns (handled: bool)
      ensures !handled
    {
      handled := false;
    }

    /** Releasing the button is never handled: the canvas acts on the
        request the press left. */
    method MouseRelease(button: MouseButton, page: int, pos: Point) returns (handled: bool)
      ensures !handled
    {
      handled := false;
    }

    /** `reset`: the request is withdrawn; the symbol settings stay. */
    method Reset()
      modifies this
      ensures !pendingCreation && clickPos == None && !showDialog
      ensures currentSymbol == old(currentSymbol) && symbolSize == old(symbolSize) && symbolColor == old(symbolColor)
      ensures Valid()
    {
      pendingCreation := false;
      clickPos := None;
      showDialog := false;
    }
  }
}
