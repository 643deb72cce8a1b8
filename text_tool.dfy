/** The click-to-type text tool (src/tools/text_tool.py). A left click only
    records where to type; the application then asks for the text and has
    the tool build the layer. */
module TextTools {
  import opened Common
  import opened Values
  import opened Layers
  import opened InteractiveLayers
  import opened BaseTools
  import Export

  /** The text layer's `data`: the text, where it goes, and the tool's
      font, size and colour. */
  function TextData(text: string, pos: Point, fontName: string, fontSize: int, color: string): (d: Dict)
    ensures Keys(d) == ["text", "x", "y", "font", "font_size", "color"]
  {
    [("text", VStr(text)), ("x", VReal(pos.x)), ("y", VReal(pos.y)),
     ("font", VStr(fontName)), ("font_size", VInt(fontSize)), ("color", VStr(color))]
  }

  class TextTool {
    const base: BaseTool
    var clickPos: Option<Point>
    var currentLayer: Option<Layer>

    constructor()
      ensures fresh(base) && base.toolType == ToolType.Text && base.Settings() == DEFAULT_SETTINGS
      ensures clickPos == None && currentLayer == None
    {
      base := new BaseTool(ToolType.Text);
      clickPos := None;
      currentLayer := None;
    }

    /** A left press records the click position; other buttons are not
        handled and change nothing. */
    method MousePress(button: MouseButton, page: int, pos: Point) returns (handled: bool)
      modifies this
      ensures handled <==> button == LeftButton
      ensures clickPos == if handled then Some(pos) else old(clickPos)
      ensures currentLayer == old(currentLayer)
    {
      if button == LeftButton {
        clickPos := Some(pos);
        return true;
      }
      return false;
    }

    /** `create_text_layer`: a TEXT layer named "Text" on the page, with the
        tool's opacity. Building it changes nothing in the tool. */
    function CreateTextLayer(page: int, pos: Point, text: string, freshId: string): (l: Layer)
      reads base
      ensures l.ltype == LayerType.Text && l.pageNum == page && l.id == freshId
      ensures l.name == "Text" && l.opacity == base.opacity
      ensures l.visible && !l.locked && l.zIndex == 0 && l.kind == Plain
      ensures l.data == TextData(text, pos, base.fontName, base.fontSize, base.color)
    {
      NewLayer(LayerType.Text, page, "Text", freshId).(
        data := TextData(text, pos, base.fontName, base.fontSize, base.color),
        opacity := base.opacity)
    }

    /** Hands out the pending layer and forgets it. Nothing in this tool
        sets one, so it is always None for a tool left to itself. */
    method GetCompletedLayer() returns (l: Option<Layer>)
      modifies this
      ensures l == old(currentLayer) && currentLayer == None && clickPos == old(clickPos)
    {
      l := currentLayer;
      currentLayer := None;
    }
  }

  /** A layer from this tool is a plain layer and not a text box, so it is
      shown by the name it was given and the PDF export has no routine for
      it: saving with layers leaves it out. */
  lemma TextLayerIsPlain(t: TextTool, page: int, pos: Point, text: string, freshId: string)
    ensures var l := t.CreateTextLayer(page, pos, text, freshId);
      DisplayName(l) == "Text" && Export.RendererFor(l) == None
  {
  }
}
