/** The page canvas (src/ui/pdf_canvas.py): the glue that records layer
    additions and removals in the history and replays them on undo and redo,
    plus the zoom, page navigation and continuous-view page offsets.

    The layer store and the history are the objects the canvas shares with
    the rest of the editor. Their joint state is the `Editor` value, and each
    canvas operation is specified by a step function on it. */
module PdfCanvas {
  import opened Common
  import opened Values
  import opened Layers
  import opened History

  /** Gap between pages in continuous view, in pixels. */
  const PAGE_GAP: int := 20
  const MIN_ZOOM: real := 0.1
  const MAX_ZOOM: real := 5.0
  const ZOOM_STEP: real := 1.25

  // ---------------------------------------------------------------------
  // Replaying actions on the layer store

  /** `layer_manager.add_layer(l)` on a store value. */
  function AddToStore(s: Snapshot, l: Layer): Snapshot
  {
    Snapshot(s.layers + [l.(zIndex := s.nextZ)], s.nextZ + 1)
  }

  /** `layer_manager.remove_layer(id)` on a store value. */
  function RemoveFromStore(s: Snapshot, id: string): Snapshot
  {
    Snapshot(Without(s.layers, id), s.nextZ)
  }

  /** `action.data['layer']`, which must be a dict to be read further. */
  function LayerPayload(a: Action): (r: Result<Dict>)
    ensures r.Ok? ==> Field(a.data, "layer") == Ok(VDict(r.value))
    ensures r == Err(KeyError("layer")) <==> !HasKey(a.data, "layer")
  {
    var v :- Field(a.data, "layer");
    if v.VDict? then Ok(v.entries) else Err(TypeError)
  }

  /** `remove_layer(action.data['layer']['id'])`: an id that is not a string
      matches no layer, so nothing is removed. */
  function RemovePayloadLayer(a: Action, s: Snapshot): (r: Result<Snapshot>)
    ensures r.Ok? ==> r.value.nextZ == s.nextZ && |r.value.layers| <= |s.layers|
    ensures r.Ok? ==> LayerPayload(a).Ok?
    ensures r.Ok? ==> forall l :: l in s.layers && Field(LayerPayload(a).value, "id") != Ok(VStr(l.id)) ==> l in r.value.layers
  {
    var d :- LayerPayload(a);
    var idv :- Field(d, "id");
    if idv.VStr? then
      WithoutMembers(s.layers, idv.s);
      Ok(RemoveFromStore(s, idv.s))
    else Ok(s)
  }

  /** `add_layer(Layer.from_dict(action.data['layer']))`. */
  function AddPayloadLayer(a: Action, s: Snapshot, freshId: string): (r: Result<Snapshot>)
    ensures r.Ok? ==> r.value.nextZ == s.nextZ + 1 && |r.value.layers| == |s.layers| + 1
    ensures r.Ok? ==> r.value.layers[..|s.layers|] == s.layers
    ensures r.Ok? ==> var l := r.value.layers[|s.layers|];
      l.kind == Plain && l.zIndex == s.nextZ
      && LayerPayload(a).Ok? && Field(LayerPayload(a).value, "id") == Ok(VStr(l.id))
  {
    var d :- LayerPayload(a);
    var l :- FromDict(d, freshId);
    assert (s.layers + [l.(zIndex := s.nextZ)])[..|s.layers|] == s.layers;
    Ok(AddToStore(s, l))
  }

  /** `apply_action`: the redo direction. Action types other than adding and
      removing a layer leave the store alone. */
  function Apply(a: Action, s: Snapshot, freshId: string): (r: Result<Snapshot>)
    ensures a.atype == AddLayer ==> r == AddPayloadLayer(a, s, freshId)
    ensures a.atype == RemoveLayer ==> r == RemovePayloadLayer(a, s)
    ensures a.atype != AddLayer && a.atype != RemoveLayer ==> r == Ok(s)
    ensures (a.atype == AddLayer || a.atype == RemoveLayer) && !HasKey(a.data, "layer") ==>
      r == Err(KeyError("layer"))
  {
    match a.atype
    case AddLayer => AddPayloadLayer(a, s, freshId)
    case RemoveLayer => RemovePayloadLayer(a, s)
    case _ => Ok(s)
  }

  /** `apply_action_reverse`: the undo direction, with the roles of adding
      and removing exchanged. */
  function ApplyReverse(a: Action, s: Snapshot, freshId: string): (r: Result<Snapshot>)
    ensures a.atype == AddLayer ==> r == RemovePayloadLayer(a, s)
    ensures a.atype == RemoveLayer ==> r == AddPayloadLayer(a, s, freshId)
    ensures a.atype != AddLayer && a.atype != RemoveLayer ==> r == Ok(s)
    ensures (a.atype == AddLayer || a.atype == RemoveLayer) && !HasKey(a.data, "layer") ==>
      r == Err(KeyError("layer"))
  {
    match a.atype
    case AddLayer => RemovePayloadLayer(a, s)
    case RemoveLayer => AddPayloadLayer(a, s, freshId)
    case _ => Ok(s)
  }

  // ---------------------------------------------------------------------
  // The canvas operations as steps on the shared state

  /** The layer store and the history the canvas works on. */
  datatype Editor = Editor(store: Snapshot, stacks: Stacks)

  /** The state after an operation, and the exception it raised, if any. */
  datatype Step = Step(editor: Editor, raised: Option<Error>)

  /** The record `add_layer` pushes. The layer has already been given its
      z-index when it is serialised. */
  function AddRecord(placed: Layer): Action
  {
    NewAction(AddLayer, [("layer", VDict(ToDict(placed)))], "Add " + DisplayName(placed))
  }

  function RemoveRecord(l: Layer): Action
  {
    NewAction(RemoveLayer, [("layer", VDict(ToDict(l)))], "Remove " + DisplayName(l))
  }

  /** `add_layer`: add to the store, then record exactly one ADD_LAYER
      action carrying the serialised layer. */
  function AddStep(e: Editor, l: Layer, maxHistory: int): (r: Editor)
    ensures r.store.layers == e.store.layers + [l.(zIndex := e.store.nextZ)]
    ensures r.store.nextZ == e.store.nextZ + 1
    ensures maxHistory >= 1 ==> |r.stacks.undo| > 0 && r.stacks.undo[|r.stacks.undo| - 1].atype == AddLayer
    ensures r.stacks.redo == [] && r.stacks.actionCount == e.stacks.actionCount + 1
  {
    var placed := l.(zIndex := e.store.nextZ);
    Editor(AddToStore(e.store, l), Added(e.stacks, AddRecord(placed), maxHistory))
  }

  /** `remove_layer`: an unknown id changes nothing; otherwise the first
      layer with the id is recorded and every layer with the id removed. */
  function RemoveStep(e: Editor, id: string, maxHistory: int): (r: Editor)
    ensures IndexOf(e.store.layers, id).None? ==> r == e
    ensures IndexOf(e.store.layers, id).Some? ==>
      r.store == RemoveFromStore(e.store, id) && r.stacks.redo == []
      && r.stacks.actionCount == e.stacks.actionCount + 1
    ensures forall i :: 0 <= i < |r.store.layers| ==> r.store.layers[i].id != id
  {
    match IndexOf(e.store.layers, id)
    case None =>
      assert forall i :: 0 <= i < |e.store.layers| ==> e.store.layers[i].id != id;
      e
    case Some(i) =>
      var l := e.store.layers[i];
      Editor(RemoveFromStore(e.store, id), Added(e.stacks, RemoveRecord(l), maxHistory))
  }

  /** `undo`: pop the history first, then reverse the popped action. An
      exception while reversing leaves the store as it was but the history
      already moved. */
  function UndoStep(e: Editor, freshId: string): (r: Step)
    ensures r.editor.stacks == Undone(e.stacks)
    ensures |e.stacks.undo| == 0 ==> r == Step(e, None)
    ensures r.raised.Some? ==> r.editor.store == e.store
  {
    if |e.stacks.undo| == 0 then Step(e, None)
    else
      var a := e.stacks.undo[|e.stacks.undo| - 1];
      match ApplyReverse(a, e.store, freshId)
      case Ok(s) => Step(Editor(s, Undone(e.stacks)), None)
      case Err(x) => Step(Editor(e.store, Undone(e.stacks)), Some(x))
  }

  /** `redo`: pop the redo stack, then apply the popped action. */
  function RedoStep(e: Editor, freshId: string): (r: Step)
    ensures r.editor.stacks == Redone(e.stacks)
    ensures |e.stacks.redo| == 0 ==> r == Step(e, None)
    ensures r.raised.Some? ==> r.editor.store == e.store
  {
    if |e.stacks.redo| == 0 then Step(e, None)
    else
      var a := e.stacks.redo[|e.stacks.redo| - 1];
      match Apply(a, e.store, freshId)
      case Ok(s) => Step(Editor(s, Redone(e.stacks)), None)
      case Err(x) => Step(Editor(e.store, Redone(e.stacks)), Some(x))
  }

  /** The store's own invariant, on a store value. */
  predicate StoreValid(s: Snapshot)
  {
    |s.layers| <= s.nextZ && forall i :: 0 <= i < |s.layers| ==> s.layers[i].zIndex < s.nextZ
  }

  /** Removing by the payload's id keeps the store's invariant: the layers
      left are among the old ones and the counter is unchanged. */
  lemma RemovePayloadKeepsValid(a: Action, s: Snapshot)
    requires StoreValid(s)
    ensures RemovePayloadLayer(a, s).Ok? ==> StoreValid(RemovePayloadLayer(a, s).value)
  {
    var d := LayerPayload(a);
    if d.Ok? && Field(d.value, "id").Ok? && Field(d.value, "id").value.VStr? {
      var id := Field(d.value, "id").value.s;
      var kept := Without(s.layers, id);
      assert RemovePayloadLayer(a, s) == Ok(Snapshot(kept, s.nextZ));
      WithoutMembers(s.layers, id);
      forall i | 0 <= i < |kept|
        ensures kept[i].zIndex < s.nextZ
      {
        assert kept[i] in kept;
      }
    }
  }

  /** Re-adding the payload layer keeps the store's invariant: the counter
      goes up past the z-index the new layer receives. */
  lemma AddPayloadKeepsValid(a: Action, s: Snapshot, freshId: string)
    requires StoreValid(s)
    ensures AddPayloadLayer(a, s, freshId).Ok? ==> StoreValid(AddPayloadLayer(a, s, freshId).value)
  {
    var r := AddPayloadLayer(a, s, freshId);
    if r.Ok? {
      forall i | 0 <= i < |r.value.layers|
        ensures r.value.layers[i].zIndex < r.value.nextZ
      {
        if i < |s.layers| {
          assert r.value.layers[i] == r.value.layers[..|s.layers|][i];
        }
      }
    }
  }

  /** Replaying an action in either direction keeps the store's invariant,
      whatever the action type. */
  lemma ApplyKeepsValid(a: Action, s: Snapshot, freshId: string)
    requires StoreValid(s)
    ensures Apply(a, s, freshId).Ok? ==> StoreValid(Apply(a, s, freshId).value)
    ensures ApplyReverse(a, s, freshId).Ok? ==> StoreValid(ApplyReverse(a, s, freshId).value)
  {
    AddPayloadKeepsValid(a, s, freshId);
    RemovePayloadKeepsValid(a, s);
  }

  /** Undo and redo keep the store's invariant, so any sequence of them can
      follow, whether or not the replay raised. */
  lemma UndoRedoKeepValid(e: Editor, freshId: string)
    requires StoreValid(e.store)
    ensures StoreValid(UndoStep(e, freshId).editor.store)
    ensures StoreValid(RedoStep(e, freshId).editor.store)
  {
    if |e.stacks.undo| > 0 {
      ApplyKeepsValid(e.stacks.undo[|e.stacks.undo| - 1], e.store, freshId);
    }
    if |e.stacks.redo| > 0 {
      ApplyKeepsValid(e.stacks.redo[|e.stacks.redo| - 1], e.store, freshId);
    }
  }

  /** The layer as it is brought back from its saved form with z-index `z`. */
  function Brought(l: Layer, z: int): (r: Layer)
    ensures r.id == l.id && r.pageNum == l.pageNum && r.zIndex == z
  {
    Restored(l).(zIndex := z)
  }

  // ---------------------------------------------------------------------
  // The inverse laws

  /** The payload of a recorded layer reads back as that layer's id. */
  lemma RecordId(l: Layer)
    ensures LayerPayload(AddRecord(l)) == Ok(ToDict(l))
    ensures LayerPayload(RemoveRecord(l)) == Ok(ToDict(l))
    ensures Field(ToDict(l), "id") == Ok(VStr(l.id))
  {
    var d := [("layer", VDict(ToDict(l)))];
    assert Get(d, "layer") == Some(VDict(ToDict(l)));
    ToDictIdType(l);
  }

  /** Reversing an add record removes the recorded id. */
  lemma ReverseAddRecord(s: Snapshot, placed: Layer, freshId: string)
    ensures ApplyReverse(AddRecord(placed), s, freshId) == Ok(RemoveFromStore(s, placed.id))
  {
    RecordId(placed);
  }

  /** Replaying an add record re-adds the recorded layer in its restored form. */
  lemma ApplyAddRecord(s: Snapshot, placed: Layer, freshId: string)
    requires NoPixmapRecords(placed.data) && DisplayName(placed) != []
    ensures Apply(AddRecord(placed), s, freshId) == Ok(AddToStore(s, Restored(placed)))
  {
    RecordId(placed);
    FromDictToDict(placed, freshId);
  }

  /** Reversing a remove record re-adds the recorded layer in its restored form. */
  lemma ReverseRemoveRecord(s: Snapshot, l: Layer, freshId: string)
    requires NoPixmapRecords(l.data) && DisplayName(l) != []
    ensures ApplyReverse(RemoveRecord(l), s, freshId) == Ok(AddToStore(s, Restored(l)))
  {
    RecordId(l);
    FromDictToDict(l, freshId);
  }

  /** Replaying a remove record removes the recorded id. */
  lemma ApplyRemoveRecord(s: Snapshot, l: Layer, freshId: string)
    ensures Apply(RemoveRecord(l), s, freshId) == Ok(RemoveFromStore(s, l.id))
  {
    RecordId(l);
  }

  /** An undo whose reversal succeeds installs the reversed store. */
  lemma UndoOf(e: Editor, a: Action, s: Snapshot, freshId: string)
    requires |e.stacks.undo| > 0 && e.stacks.undo[|e.stacks.undo| - 1] == a
    requires ApplyReverse(a, e.store, freshId) == Ok(s)
    ensures UndoStep(e, freshId) == Step(Editor(s, Undone(e.stacks)), None)
  {
  }

  /** A redo whose replay succeeds installs the replayed store. */
  lemma RedoOf(e: Editor, a: Action, s: Snapshot, freshId: string)
    requires |e.stacks.redo| > 0 && e.stacks.redo[|e.stacks.redo| - 1] == a
    requires Apply(a, e.store, freshId) == Ok(s)
    ensures RedoStep(e, freshId) == Step(Editor(s, Redone(e.stacks)), None)
  {
  }

  /** Undoing an add removes every layer with the added id, so a layer whose
      id was new leaves the layer list exactly as before the add. */
  lemma UndoAdd(e: Editor, l: Layer, maxHistory: int, freshId: string)
    requires maxHistory >= 1
    ensures var r := UndoStep(AddStep(e, l, maxHistory), freshId);
      r.raised == None
      && r.editor.store == Snapshot(Without(e.store.layers, l.id), e.store.nextZ + 1)
      && (forall i :: 0 <= i < |r.editor.store.layers| ==> r.editor.store.layers[i].id != l.id)
      && ((forall i :: 0 <= i < |e.store.layers| ==> e.store.layers[i].id != l.id) ==>
            r.editor.store.layers == e.store.layers)
      && r.editor.stacks.redo == [AddRecord(l.(zIndex := e.store.nextZ))]
  {
    var placed := l.(zIndex := e.store.nextZ);
    var e1 := AddStep(e, l, maxHistory);
    assert e1.stacks.undo[|e1.stacks.undo| - 1] == AddRecord(placed);
    ReverseAddRecord(e1.store, placed, freshId);
    WithoutAppend(e.store.layers, placed, l.id);
    if forall i :: 0 <= i < |e.store.layers| ==> e.store.layers[i].id != l.id {
      WithoutUnknown(e.store.layers, l.id);
    }
  }

  /** Undo then redo of an add record on any state: the recorded id is
      removed, then the recorded layer comes back in restored form. */
  lemma RedoUndoAddRecord(e: Editor, placed: Layer, freshId1: string, freshId2: string)
    requires |e.stacks.undo| > 0 && e.stacks.undo[|e.stacks.undo| - 1] == AddRecord(placed)
    requires NoPixmapRecords(placed.data) && DisplayName(placed) != []
    ensures RedoStep(UndoStep(e, freshId1).editor, freshId2)
      == Step(Editor(AddToStore(RemoveFromStore(e.store, placed.id), Restored(placed)), e.stacks), None)
  {
    var s1 := RemoveFromStore(e.store, placed.id);
    ReverseAddRecord(e.store, placed, freshId1);
    UndoOf(e, AddRecord(placed), s1, freshId1);
    var e2 := Editor(s1, Undone(e.stacks));
    RedoUndo(e.stacks);
    ApplyAddRecord(s1, placed, freshId2);
    RedoOf(e2, AddRecord(placed), AddToStore(s1, Restored(placed)), freshId2);
  }

  /** Redoing an undone add brings back the layer in its saved, plain form,
      with a fresh z-index, and restores the history exactly as it was after
      the add. */
  lemma RedoUndoAdd(e: Editor, l: Layer, maxHistory: int, freshId1: string, freshId2: string)
    requires maxHistory >= 1
    requires NoPixmapRecords(l.data) && DisplayName(l) != []
    ensures var e1 := AddStep(e, l, maxHistory);
      var r := RedoStep(UndoStep(e1, freshId1).editor, freshId2);
      r.raised == None
      && r.editor.stacks == e1.stacks
      && r.editor.store == Snapshot(Without(e.store.layers, l.id) + [Brought(l, e.store.nextZ + 1)], e.store.nextZ + 2)
  {
    var placed := l.(zIndex := e.store.nextZ);
    var e1 := AddStep(e, l, maxHistory);
    assert e1.stacks.undo[|e1.stacks.undo| - 1] == AddRecord(placed);
    RedoUndoAddRecord(e1, placed, freshId1, freshId2);
    var s1 := RemoveFromStore(e1.store, l.id);
    WithoutAppend(e.store.layers, placed, l.id);
    assert s1 == Snapshot(Without(e.store.layers, l.id), e.store.nextZ + 1);
    BroughtIgnoresZ(l, e.store.nextZ, e.store.nextZ + 1);
    assert AddToStore(s1, Restored(placed))
      == Snapshot(Without(e.store.layers, l.id) + [Brought(l, e.store.nextZ + 1)], e.store.nextZ + 2);
  }

  /** The layer an add brings back after undo and redo carries the added id
      and page, and is drawn above every other layer of its page. */
  lemma RedoUndoAddOnTop(e: Editor, l: Layer, maxHistory: int, freshId1: string, freshId2: string)
    requires maxHistory >= 1
    requires StoreValid(e.store)
    requires NoPixmapRecords(l.data) && DisplayName(l) != []
    ensures var r := RedoStep(UndoStep(AddStep(e, l, maxHistory), freshId1).editor, freshId2);
      var back := Brought(l, e.store.nextZ + 1);
      var page := SortByZ(OnPage(r.editor.store.layers, l.pageNum));
      back.id == l.id && back.pageNum == l.pageNum
      && |page| > 0 && page[|page| - 1] == back
  {
    RedoUndoAdd(e, l, maxHistory, freshId1, freshId2);
    BroughtOnTop(e.store.layers, l.id, e.store.nextZ + 1, l);
  }

  /** The form a layer comes back in does not depend on its old z-index. */
  lemma BroughtIgnoresZ(l: Layer, z: int, z': int)
    ensures Restored(l.(zIndex := z)).(zIndex := z') == Brought(l, z')
  {
    assert DisplayName(l.(zIndex := z)) == DisplayName(l);
  }

  /** A layer brought back with a z-index above all others tops its page. */
  lemma BroughtOnTop(ls: seq<Layer>, id: string, z: int, l: Layer)
    requires forall i :: 0 <= i < |ls| ==> ls[i].zIndex < z
    ensures var page := SortByZ(OnPage(Without(ls, id) + [Brought(l, z)], l.pageNum));
      |page| > 0 && page[|page| - 1] == Brought(l, z)
  {
    var b := Brought(l, z);
    var kept := Without(ls, id);
    WithoutBelow(ls, id, z);
    assert b.pageNum == l.pageNum && b.zIndex == z;
    LastOnPage(kept, b, l.pageNum, z);
  }

  /** `PlacedOnTop` for a page number given apart from the layer. */
  lemma LastOnPage(kept: seq<Layer>, b: Layer, page: int, z: int)
    requires b.pageNum == page && b.zIndex == z
    requires forall i :: 0 <= i < |kept| ==> kept[i].zIndex < z
    ensures var r := SortByZ(OnPage(kept + [b], page));
      |r| > 0 && r[|r| - 1] == b
  {
    PlacedOnTop(kept, b, z);
  }

  lemma WithoutBelow(ls: seq<Layer>, id: string, z: int)
    requires forall i :: 0 <= i < |ls| ==> ls[i].zIndex < z
    ensures forall i :: 0 <= i < |Without(ls, id)| ==> Without(ls, id)[i].zIndex < z
  {
    var kept := Without(ls, id);
    WithoutMembers(ls, id);
    forall i | 0 <= i < |kept| ensures kept[i].zIndex < z {
      assert kept[i] in ls;
    }
  }

  /** Undoing a removal brings the first removed layer back in its saved,
      plain form, under a fresh z-index. */
  lemma UndoRemove(e: Editor, id: string, maxHistory: int, freshId: string)
    requires maxHistory >= 1
    requires IndexOf(e.store.layers, id).Some?
    requires var l := e.store.layers[IndexOf(e.store.layers, id).value];
      NoPixmapRecords(l.data) && DisplayName(l) != []
    ensures var l := e.store.layers[IndexOf(e.store.layers, id).value];
      var r := UndoStep(RemoveStep(e, id, maxHistory), freshId);
      r.raised == None
      && r.editor.store == Snapshot(Without(e.store.layers, id) + [Brought(l, e.store.nextZ)], e.store.nextZ + 1)
      && Brought(l, e.store.nextZ).id == id
  {
    var l := e.store.layers[IndexOf(e.store.layers, id).value];
    var e1 := RemoveStep(e, id, maxHistory);
    RemoveStepTop(e, id, maxHistory);
    ReverseRemoveRecord(e1.store, l, freshId);
    UndoOf(e1, RemoveRecord(l), AddToStore(e1.store, Restored(l)), freshId);
  }

  /** A removal of a present id records the removed layer on top of the
      undo stack. */
  lemma RemoveStepTop(e: Editor, id: string, maxHistory: int)
    requires maxHistory >= 1
    requires IndexOf(e.store.layers, id).Some?
    ensures var r := RemoveStep(e, id, maxHistory);
      r.store == RemoveFromStore(e.store, id)
      && |r.stacks.undo| > 0
      && r.stacks.undo[|r.stacks.undo| - 1] == RemoveRecord(e.store.layers[IndexOf(e.store.layers, id).value])
  {
    var a := RemoveRecord(e.store.layers[IndexOf(e.store.layers, id).value]);
    var u := Added(e.stacks, a, maxHistory).undo;
    assert u[|u| - 1] == (e.stacks.undo + [a])[|e.stacks.undo|];
  }

  /** The layer an undone removal brings back is drawn above every other
      layer of its page. */
  lemma UndoRemoveOnTop(e: Editor, id: string, maxHistory: int, freshId: string)
    requires maxHistory >= 1
    requires StoreValid(e.store)
    requires IndexOf(e.store.layers, id).Some?
    requires var l := e.store.layers[IndexOf(e.store.layers, id).value];
      NoPixmapRecords(l.data) && DisplayName(l) != []
    ensures var l := e.store.layers[IndexOf(e.store.layers, id).value];
      var r := UndoStep(RemoveStep(e, id, maxHistory), freshId);
      var page := SortByZ(OnPage(r.editor.store.layers, l.pageNum));
      |page| > 0 && page[|page| - 1] == Brought(l, e.store.nextZ)
  {
    var l := e.store.layers[IndexOf(e.store.layers, id).value];
    UndoRemove(e, id, maxHistory, freshId);
    BroughtOnTop(e.store.layers, id, e.store.nextZ, l);
  }

  /** Redoing an undone removal removes the layer again: the layer list is
      the one the removal produced, and the history is back as well. */
  lemma RedoUndoRemove(e: Editor, id: string, maxHistory: int, freshId1: string, freshId2: string)
    requires maxHistory >= 1
    requires IndexOf(e.store.layers, id).Some?
    requires var l := e.store.layers[IndexOf(e.store.layers, id).value];
      NoPixmapRecords(l.data) && DisplayName(l) != []
    ensures var e1 := RemoveStep(e, id, maxHistory);
      var r := RedoStep(UndoStep(e1, freshId1).editor, freshId2);
      r.raised == None && r.editor.stacks == e1.stacks
      && r.editor.store.layers == e1.store.layers
  {
    var l := e.store.layers[IndexOf(e.store.layers, id).value];
    var e1 := RemoveStep(e, id, maxHistory);
    UndoRemove(e, id, maxHistory, freshId1);
    var e2 := UndoStep(e1, freshId1).editor;
    RedoUndo(e1.stacks);
    assert e1.stacks.undo[|e1.stacks.undo| - 1] == RemoveRecord(l);
    assert e2.stacks.redo[|e2.stacks.redo| - 1] == RemoveRecord(l);
    ApplyRemoveRecord(e2.store, l, freshId2);
    WithoutAppend(Without(e.store.layers, id), Brought(l, e.store.nextZ), id);
    WithoutTwice(e.store.layers, id);
  }

  /** Undoing or redoing any action other than a layer addition or removal
      moves the history but leaves the layers alone. */
  lemma OtherActionsKeepLayers(e: Editor, freshId: string)
    ensures |e.stacks.undo| > 0 && e.stacks.undo[|e.stacks.undo| - 1].atype !in {AddLayer, RemoveLayer} ==>
      UndoStep(e, freshId) == Step(Editor(e.store, Undone(e.stacks)), None)
    ensures |e.stacks.redo| > 0 && e.stacks.redo[|e.stacks.redo| - 1].atype !in {AddLayer, RemoveLayer} ==>
      RedoStep(e, freshId) == Step(Editor(e.store, Redone(e.stacks)), None)
  {
  }

  /** An ADD_LAYER or REMOVE_LAYER record without a `'layer'` entry cannot be
      undone: the history still moves, the layers stay, and a KeyError is
      raised. */
  lemma UndoWithoutLayerPayload(e: Editor, freshId: string)
    requires |e.stacks.undo| > 0
    requires var a := e.stacks.undo[|e.stacks.undo| - 1];
      (a.atype == AddLayer || a.atype == RemoveLayer) && !HasKey(a.data, "layer")
    ensures UndoStep(e, freshId) == Step(Editor(e.store, Undone(e.stacks)), Some(KeyError("layer")))
  {
  }

  // ---------------------------------------------------------------------
  // Zoom, pages and offsets

  /** `max(min_zoom, min(max_zoom, zoom))`. */
  function ClampZoom(z: real): (r: real)
    ensures MIN_ZOOM <= r <= MAX_ZOOM
    ensures MIN_ZOOM <= z <= MAX_ZOOM ==> r == z
    ensures z < MIN_ZOOM ==> r == MIN_ZOOM
    ensures z > MAX_ZOOM ==> r == MAX_ZOOM
  {
    MaxR(MIN_ZOOM, MinR(MAX_ZOOM, z))
  }

  /** Zooming out undoes zooming in unless the zoom-in hit the upper bound,
      and the other way round. */
  lemma ZoomInOut(z: real)
    requires MIN_ZOOM <= z <= MAX_ZOOM
    ensures z * ZOOM_STEP <= MAX_ZOOM ==> ClampZoom(ClampZoom(z * ZOOM_STEP) / ZOOM_STEP) == z
    ensures z / ZOOM_STEP >= MIN_ZOOM ==> ClampZoom(ClampZoom(z / ZOOM_STEP) * ZOOM_STEP) == z
  {
  }

  /** The page `next_page` moves to among `n` pages. */
  function NextIndex(cur: int, n: int): (r: int)
    ensures cur < n - 1 ==> r == cur + 1
    ensures cur >= n - 1 ==> r == cur
  {
    if cur < n - 1 then cur + 1 else cur
  }

  function PrevIndex(cur: int): (r: int)
    ensures cur > 0 ==> r == cur - 1
    ensures cur <= 0 ==> r == cur
  {
    if cur > 0 then cur - 1 else cur
  }

  /** Stepping forward then back (or back then forward) returns to the
      same page unless the first step was at the end. */
  lemma NextPrevInverse(cur: int, n: int)
    requires 0 <= cur < n
    ensures cur < n - 1 ==> PrevIndex(NextIndex(cur, n)) == cur
    ensures cur > 0 ==> NextIndex(PrevIndex(cur), n) == cur
    ensures 0 <= NextIndex(cur, n) < n && 0 <= PrevIndex(cur) < n
  {
  }

  /** How far a page pushes the next one down: `int(height * zoom)` plus the
      gap, or nothing for a page whose size is unknown. */
  function Advance(h: Option<real>, zoom: real): int
  {
    if h.Some? then Trunc(h.value * zoom) + PAGE_GAP else 0
  }

  /** The offset after the pages `hs`. */
  function OffsetAfter(hs: seq<Option<real>>, zoom: real): int
  {
    if hs == [] then 0 else OffsetAfter(hs[..|hs| - 1], zoom) + Advance(hs[|hs| - 1], zoom)
  }

  /** The page offsets of continuous view: each page starts where the pages
      before it end. */
  function Offsets(hs: seq<Option<real>>, zoom: real): (r: seq<int>)
    ensures |r| == |hs|
    ensures forall i :: 0 <= i < |hs| ==> r[i] == OffsetAfter(hs[..i], zoom)
  {
    if hs == [] then []
    else
      var r := Offsets(hs[..|hs| - 1], zoom) + [OffsetAfter(hs[..|hs| - 1], zoom)];
      assert forall i :: 0 <= i < |hs| - 1 ==> hs[..|hs| - 1][..i] == hs[..i];
      r
  }

  /** The first page starts at 0 and each page starts `Advance` below the
      one before. */
  lemma OffsetsStep(hs: seq<Option<real>>, zoom: real)
    ensures |hs| > 0 ==> Offsets(hs, zoom)[0] == 0
    ensures forall i :: 0 <= i < |hs| - 1 ==>
      Offsets(hs, zoom)[i + 1] == Offsets(hs, zoom)[i] + Advance(hs[i], zoom)
  {
    forall i | 0 <= i < |hs| - 1
      ensures Offsets(hs, zoom)[i + 1] == Offsets(hs, zoom)[i] + Advance(hs[i], zoom)
    {
      assert hs[..i + 1][..i] == hs[..i];
    }
  }

  predicate NonNegativeHeights(hs: seq<Option<real>>)
  {
    forall i :: 0 <= i < |hs| ==> hs[i].Some? ==> hs[i].value >= 0.0
  }

  lemma OffsetStepAt(hs: seq<Option<real>>, zoom: real, i: nat)
    requires i + 1 < |hs|
    ensures Offsets(hs, zoom)[i + 1] == Offsets(hs, zoom)[i] + Advance(hs[i], zoom)
  {
    assert hs[..i + 1][..i] == hs[..i];
  }

  lemma AdvanceNonNegative(h: Option<real>, zoom: real)
    requires zoom >= 0.0 && (h.Some? ==> h.value >= 0.0)
    ensures Advance(h, zoom) >= PAGE_GAP || Advance(h, zoom) == 0
  {
    if h.Some? {
      assert h.value * zoom >= 0.0;
    }
  }

  /** With real page sizes the offsets never decrease. */
  lemma {:induction false} OffsetsAscending(hs: seq<Option<real>>, zoom: real, i: nat, j: nat)
    requires zoom >= 0.0 && NonNegativeHeights(hs)
    requires i <= j < |hs|
    ensures Offsets(hs, zoom)[i] <= Offsets(hs, zoom)[j]
    decreases j - i
  {
    if i < j {
      OffsetsAscending(hs, zoom, i, j - 1);
      OffsetStepAt(hs, zoom, j - 1);
      AdvanceNonNegative(hs[j - 1], zoom);
    }
  }

  /** `PDFCanvasWidget`: the canvas over a document whose page heights are
      `pageHeights` (`None` where the size is unknown). */
  class Canvas {
    const layerManager: LayerManager
    const history: HistoryManager
    const docOpen: bool
    const pageHeights: seq<Option<real>>
    var currentPage: int
    var zoom: real
    var continuousView: bool
    var pageOffsets: seq<int>

    function PageCount(): nat
    {
      if docOpen then |pageHeights| else 0
    }

    function State(): Editor
      reads layerManager, history
    {
      Editor(layerManager.State(), history.State())
    }

    ghost predicate Valid()
      reads this, layerManager, history
    {
      layerManager.Valid() && history.Valid()
      && 0 <= currentPage && (currentPage < PageCount() || currentPage == 0)
      && MIN_ZOOM <= zoom <= MAX_ZOOM
    }

    /** The continuous-view offsets `update_size` computes for the current
        zoom, or the previous ones when it computes none. */
    function SizedOffsets(previous: seq<int>): seq<int>
      reads this
    {
      if docOpen && continuousView then Offsets(pageHeights, zoom) else previous
    }

    constructor(lm: LayerManager, hm: HistoryManager, docOpen: bool, pageHeights: seq<Option<real>>)
      requires lm.Valid() && hm.Valid()
      ensures layerManager == lm && history == hm
      ensures this.docOpen == docOpen && this.pageHeights == pageHeights
      ensures currentPage == 0 && zoom == 1.0 && continuousView
      ensures pageOffsets == (if docOpen then Offsets(pageHeights, 1.0) else [])
      ensures Valid()
    {
      layerManager := lm;
      history := hm;
      this.docOpen := docOpen;
      this.pageHeights := pageHeights;
      currentPage := 0;
      zoom := 1.0;
      continuousView := true;
      var offsets := [];
      if docOpen {
        offsets := ComputeOffsets(pageHeights, 1.0);
      }
      pageOffsets := offsets;
    }

    // -- history glue --------------------------------------------------

    method AddLayer(l: Layer)
      requires Valid()
      modifies layerManager, history
      ensures State() == AddStep(old(State()), l, history.maxHistory)
      ensures Valid()
    {
      var z := layerManager.nextZ;
      layerManager.AddLayer(l);
      history.AddAction(AddRecord(l.(zIndex := z)));
    }

    method RemoveLayer(id: string)
      requires Valid()
      modifies layerManager, history
      ensures State() == RemoveStep(old(State()), id, history.maxHistory)
      ensures Valid()
    {
      var found := layerManager.GetLayer(id);
      if found.Some? {
        history.AddAction(RemoveRecord(found.value));
        layerManager.RemoveLayer(id);
      }
    }

    method Undo(freshId: string) returns (raised: Option<Error>)
      requires Valid()
      modifies layerManager, history
      ensures Step(State(), raised) == UndoStep(old(State()), freshId)
      ensures Valid()
    {
      ghost var e := State();
      var a := history.Undo();
      raised := None;
      if a.Some? {
        assert a.value == e.stacks.undo[|e.stacks.undo| - 1];
        raised := ApplyActionReverse(a.value, freshId);
      }
    }

    method Redo(freshId: string) returns (raised: Option<Error>)
      requires Valid()
      modifies layerManager, history
      ensures Step(State(), raised) == RedoStep(old(State()), freshId)
      ensures Valid()
    {
      ghost var e := State();
      var a := history.Redo();
      raised := None;
      if a.Some? {
        assert a.value == e.stacks.redo[|e.stacks.redo| - 1];
        raised := ApplyAction(a.value, freshId);
      }
    }

    method ApplyAction(a: Action, freshId: string) returns (raised: Option<Error>)
      modifies layerManager
      ensures match Apply(a, old(layerManager.State()), freshId)
        case Ok(s) => layerManager.State() == s && raised == None
        case Err(x) => layerManager.State() == old(layerManager.State()) && raised == Some(x)
      ensures old(layerManager.Valid()) ==> layerManager.Valid()
    {
      raised := None;
      if a.atype.AddLayer? {
        raised := AddFromPayload(a, freshId);
      } else if a.atype.RemoveLayer? {
        raised := RemoveFromPayload(a);
      }
    }

    method ApplyActionReverse(a: Action, freshId: string) returns (raised: Option<Error>)
      modifies layerManager
      ensures match ApplyReverse(a, old(layerManager.State()), freshId)
        case Ok(s) => layerManager.State() == s && raised == None
        case Err(x) => layerManager.State() == old(layerManager.State()) && raised == Some(x)
      ensures old(layerManager.Valid()) ==> layerManager.Valid()
    {
      raised := None;
      if a.atype.AddLayer? {
        raised := RemoveFromPayload(a);
      } else if a.atype.RemoveLayer? {
        raised := AddFromPayload(a, freshId);
      }
    }

    method AddFromPayload(a: Action, freshId: string) returns (raised: Option<Error>)
      modifies layerManager
      ensures match AddPayloadLayer(a, old(layerManager.State()), freshId)
        case Ok(s) => layerManager.State() == s && raised == None
        case Err(x) => layerManager.State() == old(layerManager.State()) && raised == Some(x)
      ensures old(layerManager.Valid()) ==> layerManager.Valid()
    {
      var d := LayerPayload(a);
      if d.Err? {
        return Some(d.error);
      }
      var l := FromDict(d.value, freshId);
      if l.Err? {
        return Some(l.error);
      }
      layerManager.AddLayer(l.value);
      raised := None;
    }

    method RemoveFromPayload(a: Action) returns (raised: Option<Error>)
      modifies layerManager
      ensures match RemovePayloadLayer(a, old(layerManager.State()))
        case Ok(s) => layerManager.State() == s && raised == None
        case Err(x) => layerManager.State() == old(layerManager.State()) && raised == Some(x)
      ensures old(layerManager.Valid()) ==> layerManager.Valid()
    {
      var d := LayerPayload(a);
      if d.Err? {
        return Some(d.error);
      }
      var idv := Field(d.value, "id");
      if idv.Err? {
        return Some(idv.error);
      }
      if idv.value.VStr? {
        layerManager.RemoveLayer(idv.value.s);
      }
      raised := None;
    }

    // -- zoom and pages ------------------------------------------------

    /** `update_size`, reduced to the page offsets it recomputes. */
    method UpdateSize()
      modifies this
      ensures pageOffsets == SizedOffsets(old(pageOffsets))
      ensures currentPage == old(currentPage) && zoom == old(zoom) && continuousView == old(continuousView)
    {
      if docOpen && continuousView {
        pageOffsets := ComputeOffsets(pageHeights, zoom);
      }
    }

    method SetZoom(z: real)
      modifies this
      ensures zoom == ClampZoom(z)
      ensures pageOffsets == SizedOffsets(old(pageOffsets))
      ensures currentPage == old(currentPage) && continuousView == old(continuousView)
      ensures old(Valid()) ==> Valid()
    {
      zoom := ClampZoom(z);
      UpdateSize();
    }

    method ZoomIn()
      modifies this
      ensures zoom == ClampZoom(old(zoom) * ZOOM_STEP)
      ensures pageOffsets == SizedOffsets(old(pageOffsets))
      ensures currentPage == old(currentPage) && continuousView == old(continuousView)
      ensures old(Valid()) ==> Valid()
    {
      SetZoom(zoom * ZOOM_STEP);
    }

    method ZoomOut()
      modifies this
      ensures zoom == ClampZoom(old(zoom) / ZOOM_STEP)
      ensures pageOffsets == SizedOffsets(old(pageOffsets))
      ensures currentPage == old(currentPage) && continuousView == old(continuousView)
      ensures old(Valid()) ==> Valid()
    {
      SetZoom(zoom / ZOOM_STEP);
    }

    /** `set_page`: a page outside the document is ignored. */
    method SetPage(p: int)
      modifies this
      ensures 0 <= p < PageCount() ==> currentPage == p && pageOffsets == SizedOffsets(old(pageOffsets))
      ensures !(0 <= p < PageCount()) ==> currentPage == old(currentPage) && pageOffsets == old(pageOffsets)
      ensures zoom == old(zoom) && continuousView == old(continuousView)
      ensures old(Valid()) ==> Valid()
    {
      if 0 <= p < PageCount() {
        currentPage := p;
        UpdateSize();
      }
    }

    method NextPage()
      modifies this
      ensures old(Valid()) ==> currentPage == NextIndex(old(currentPage), PageCount())
      ensures old(Valid()) ==> Valid()
    {
      if currentPage < PageCount() - 1 {
        SetPage(currentPage + 1);
      }
    }

    method PreviousPage()
      modifies this
      ensures old(Valid()) ==> currentPage == PrevIndex(old(currentPage))
      ensures old(Valid()) ==> Valid()
    {
      if currentPage > 0 {
        SetPage(currentPage - 1);
      }
    }

    /** `get_page_at_position`: the last page whose offset is at or above
        `y`, searching from the bottom; 0 when there is none. */
    method PageAtPosition(y: real) returns (r: int)
      ensures !continuousView || pageOffsets == [] ==> r == currentPage
      ensures continuousView && pageOffsets != [] ==>
        if exists i :: 0 <= i < |pageOffsets| && pageOffsets[i] as real <= y then
          0 <= r < |pageOffsets| && pageOffsets[r] as real <= y
          && forall j :: r < j < |pageOffsets| ==> pageOffsets[j] as real > y
        else r == 0
    {
      if !continuousView || pageOffsets == [] {
        return currentPage;
      }
      var k := |pageOffsets|;
      while k > 0
        invariant 0 <= k <= |pageOffsets|
        invariant forall j :: k <= j < |pageOffsets| ==> pageOffsets[j] as real > y
      {
        k := k - 1;
        if y >= pageOffsets[k] as real {
          return k;
        }
      }
      return 0;
    }

    /** `get_page_y_offset`: Python indexing, so a negative page counts
        from the end and one below `-len` raises. */
    function PageYOffset(p: int): (r: Result<int>)
      reads this
      ensures !continuousView || p >= |pageOffsets| ==> r == Ok(0)
      ensures continuousView && 0 <= p < |pageOffsets| ==> r == Ok(pageOffsets[p])
      ensures r.Err? <==> continuousView && p < -(|pageOffsets| as int)
    {
      if !continuousView || p >= |pageOffsets| then Ok(0)
      else if PyIndexOk(|pageOffsets|, p) then Ok(pageOffsets[PyIndex(|pageOffsets|, p)])
      else Err(IndexError)
    }
  }

  /** `_calculate_page_offsets` for an open document. */
  method ComputeOffsets(hs: seq<Option<real>>, zoom: real) returns (offsets: seq<int>)
    ensures offsets == Offsets(hs, zoom)
  {
    offsets := [];
    var current := 0;
    var k := 0;
    while k < |hs|
      invariant 0 <= k <= |hs|
      invariant offsets == Offsets(hs[..k], zoom) && current == OffsetAfter(hs[..k], zoom)
    {
      assert hs[..k + 1][..k] == hs[..k];
      offsets := offsets + [current];
      if hs[k].Some? {
        current := current + Trunc(hs[k].value * zoom) + PAGE_GAP;
      }
      k := k + 1;
    }
    assert hs[..k] == hs;
  }

  /** With real page sizes, the page found for `y` is the one whose band
      `[offsets[r], offsets[r + 1])` holds it. */
  lemma PageBand(hs: seq<Option<real>>, zoom: real, y: real, r: int)
    requires zoom >= 0.0 && NonNegativeHeights(hs)
    requires 0 <= r < |hs|
    requires var o := Offsets(hs, zoom); o[r] as real <= y && forall j :: r < j < |o| ==> o[j] as real > y
    ensures var o := Offsets(hs, zoom);
      (forall i :: 0 <= i <= r ==> o[i] as real <= y)
      && (r + 1 < |o| ==> y < o[r + 1] as real)
  {
    forall i | 0 <= i <= r ensures Offsets(hs, zoom)[i] as real <= y {
      OffsetsAscending(hs, zoom, i, r);
    }
  }
}
