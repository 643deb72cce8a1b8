# A verified model of a layered PDF editor

The editor opens PDF documents in tabs and lets the user draw on them in
layers: freehand strokes, shapes, text boxes, images, symbols, sticky
notes, signatures and form fields. Each layer belongs to one page and has a
z-index that orders it among the layers on that page. Every add and remove
is recorded in an undo/redo history. Around this core sit:

- page thumbnails with multi-page drag reordering;
- a headings outline;
- rulers with guides;
- a properties panel with recent colours and layer copies;
- dialogs that merge files, crop images and pick symbols;
- dotted-key settings;
- export that writes the layers into the PDF together with their metadata;
- a local-model translator and a document chat;
- twelve mouse tools, each a small state machine from press to finished layer.

This project restates that editing model in Dafny and proves what it
promises. There is one module per source file:

- `Layers`, `History` and `PdfCanvas` model the layer store, the undo/redo
  history and the canvas that ties them together.
- `InteractiveLayers` and `InteractiveCanvas` model the movable text,
  image and symbol layers and the canvas operations on them.
- `MainWindow`, `Thumbnails` and `Guides` model the page-level state
  machines: page moves and labels, thumbnail selection and drag, headings
  and guides.
- `Properties`, `Merge`, `Crop`, `Symbols` and `Settings` model the
  recent-item lists, the dialogs and the settings store.
- `Export` models the export of layers into the PDF and the layer
  metadata.
- `Translation`, `TranslationDialog` and `AIChat` model the text
  pipelines of the translator and the document chat.
- One module per tool models the tools.
- `Common` (Python string and list built-ins) and `Values` (Python
  dictionaries and values) are shared by the others.

How the model is written:

- An object whose fields the source updates becomes a class whose methods
  state its whole new state.
- Pure computations become functions.
- A loop that builds or updates state becomes a method with a `while`
  loop, proved equal to the function that specifies it. A short search
  loop that only returns what it finds, such as `get_layer`'s, is a
  recursive function.
- Geometry uses `real`. Where the source truncates with `int()`, the model
  says so.
- A dictionary is an association list in insertion order.
- A Qt pixmap is an opaque token with a byte encoding that decodes back.
- A PyMuPDF page list is an abstract sequence with insert-before moves.
- A language model is a function parameter.
- Exceptions the source can raise (`TypeError`, `IndexError`,
  `ValueError`) are `Result` errors, not preconditions.

## Model

| member | source | states |
|---|---|---|
| `Layers.TypeFromValue` | src/core/layer.py:12-19 | `LayerType(s)` succeeds only with a string that is some type's value, and a string no type carries is a ValueError |
| `Layers.TypeValueRoundTrip` | src/core/layer.py:12-19 | every layer type is recovered from its value string |
| `Layers.DefaultName` | src/core/layer.py:31 | a given non-empty name is kept; otherwise the name is the title-cased type value, a space and the first 8 characters of the id, never empty |
| `Layers.NewLayer` | src/core/layer.py:27-36 | a new layer has the fresh id, the type and page asked for, is visible, unlocked, fully opaque, at z-index 0 and has no data |
| `Layers.DisplayName` | src/core/layer.py:31 | the name of a plain layer is its stored name (interactive kinds compute theirs) |
| `Layers.TextBoxName` | src/core/interactive_layer.py:312-322 | a blank text shows the base name; otherwise the name is the base name or at most 25 characters plus "..." |
| `Layers.SymbolName` | src/core/interactive_layer.py:694-700 | an empty symbol shows the base name; otherwise "Symbol: " followed by the symbol |
| `Layers.EncodeData` | src/core/layer.py:239-250 | serialising the data keeps every key, in order |
| `Layers.EncodeDataAt` | src/core/layer.py:239-250 | each pixmap value becomes a `{'_pixmap_bytes': PNG}` record under the same key; every other value is copied unchanged |
| `Layers.DecodeData` | src/core/layer.py:275-281 | restoring the data keeps every key, in order |
| `Layers.DecodeEncodeData` | src/core/layer.py:239-250 | decoding encoded data gives the data back whenever no genuine value already looks like a pixmap record (also src/core/layer.py:275-281) |
| `Layers.ToDict` | src/core/layer.py:252-262 | the record has exactly the keys id, type, page_num, name, visible, locked, opacity, z_index, data, in that order |
| `Layers.Field` | src/core/layer.py:267-277 | reading `data[k]` succeeds iff the key is present, otherwise a KeyError naming it |
| `Layers.FromDict` | src/core/layer.py:265-283 | a restored layer is plain and carries the saved id and type |
| `Layers.Restored` | src/core/layer.py:237-283 | the round-trip image of a layer differs from it only in kind (plain) and name (the displayed one) |
| `Layers.FromDictToDict` | src/core/layer.py:237-283 | `from_dict(to_dict(l))` succeeds and gives back every field of `l`, with the displayed name and a plain kind |
| `Layers.ToDictFields` | src/core/layer.py:252-262 | every field `to_dict` writes reads back, with its type, through `from_dict`'s lookups |
| `Layers.PlainRoundTrip` | src/core/layer.py:237-283 | a plain named layer without pixmap look-alikes survives `from_dict(to_dict(l))` unchanged |
| `Layers.Without` | src/core/layer.py:299-301 | the comprehension keeps no layer with the removed id and never grows the list |
| `Layers.WithoutMembers` | src/core/layer.py:299-301 | a layer is kept iff it was present and has another id |
| `Layers.WithoutUnknown` | src/core/layer.py:299-301 | removing an id no layer carries changes nothing |
| `Layers.WithoutTwice` | src/core/layer.py:299-301 | removing the same id twice is removing it once |
| `Layers.OnPage` | src/core/layer.py:312-313 | the page filter keeps exactly the layers on that page |
| `Layers.OffPage` | src/core/layer.py:330-332 | the `clear_page` filter keeps exactly the layers on other pages |
| `Layers.InsertByZ` | src/core/layer.py:310-315 | one insertion step of the sort adds exactly the one layer |
| `Layers.InsertByZSorted` | src/core/layer.py:310-315 | inserting into a list sorted by z-index keeps it sorted |
| `Layers.InsertByZKeepsOrder` | src/core/layer.py:310-315 | insertion keeps the relative order of layers sharing a z-index and puts the new one first among its equals |
| `Layers.SortByZ` | src/core/layer.py:312-315 | `sorted(..., key=z_index)` is sorted ascending and a permutation of its input |
| `Layers.SortByZStable` | src/core/layer.py:312-315 | the sort is stable: layers sharing a z-index keep their relative order |
| `Layers.IndexOf` | src/core/layer.py:303-308 | the index found holds the first layer with the id; none is found iff no layer has it |
| `Layers.InsertPosition` | src/core/layer.py:322 | Python's `list.insert` position: in range as given, past the end appends, negative counts from the end, far negative prepends |
| `Layers.InsertAt` | src/core/layer.py:322 | `list.insert` puts the layer at the clamped position and adds exactly that layer |
| `Layers.RemoveAt` | src/core/layer.py:321 | `list.remove` of the found layer takes exactly that one layer out |
| `Layers.Renumbered` | src/core/layer.py:325-328 | after `_reindex_layers` each layer is unchanged except that its z-index equals its position |
| `Layers.ManagerToDict` | src/core/layer.py:339-344 | the saved store has the keys layers and next_z_index |
| `Layers.EncodeLayers` | src/core/layer.py:342 | the i-th saved entry is the i-th layer's `to_dict` |
| `Layers.DecodeLayers` | src/core/layer.py:350 | decoding keeps the number of layers and restores each as a plain layer |
| `Layers.ManagerFromDict` | src/core/layer.py:346-352 | a restored store takes its counter from next_z_index |
| `Layers.RestoredAll` | src/core/layer.py:350 | restoring maps each layer to its round-trip image, position by position |
| `Layers.DecodeSavedLayers` | src/core/layer.py:342-350 | decoding the saved list restores every layer in order |
| `Layers.ManagerRoundTrip` | src/core/layer.py:339-352 | a store round trip keeps the list order and the z counter and restores each layer's fields |
| `Layers.LayerManager.constructor` | src/core/layer.py:289-291 | a new store is empty with counter 0 |
| `Layers.LayerManager.FromSnapshot` | src/core/layer.py:346-352 | a store built from a snapshot holds exactly that list and counter |
| `Layers.LayerManager.AddLayer` | src/core/layer.py:293-297 | the layer is appended with z-index equal to the old counter and the counter goes up by one |
| `Layers.LayerManager.RemoveLayer` | src/core/layer.py:299-301 | every layer with the id is dropped, the others keep their order, the counter is unchanged |
| `Layers.LayerManager.GetLayer` | src/core/layer.py:303-308 | the result is the first layer with the id, present iff some layer has it |
| `Layers.LayerManager.LayersForPage` | src/core/layer.py:310-315 | contains a layer iff it is on the page, sorted ascending by z-index, as a permutation of the page's layers |
| `Layers.LayerManager.MoveLayer` | src/core/layer.py:317-323 | an unknown id changes nothing; otherwise the layer is taken out, reinserted at the `list.insert` position and all layers renumbered |
| `Layers.LayerManager.ReindexLayers` | src/core/layer.py:325-328 | every z-index becomes its list position |
| `Layers.LayerManager.ClearPage` | src/core/layer.py:330-332 | only that page's layers go; the others keep order, z-indices and the counter |
| `Layers.LayerManager.ClearAll` | src/core/layer.py:334-337 | the list is emptied and the counter reset to 0 |
| `Layers.SuccessiveAdds` | src/core/layer.py:293-297 | from a fresh store the k-th added layer gets z-index k and the counter ends at the number of adds |
| `Layers.AddAllShape` | src/core/layer.py:293-297 | adds keep the earlier layers and give the added ones consecutive z-indices from the counter |
| `Layers.AddedLayerOnTop` | src/core/layer.py:293-315 | after an add to a valid store the new layer is listed last for its page, above every other layer there |
| `Layers.MovedLayerPosition` | src/core/layer.py:317-328 | after a move the layer sits at the clamped insert position and every z-index equals its position |
| `Layers.ClearPageKeepsOthers` | src/core/layer.py:330-332 | clearing one page leaves every other page's layers exactly as they were |
| `History.ActionFromValue` | src/core/history.py:11-21 | `ActionType(s)` succeeds only with some type's value string; any other string is a ValueError |
| `History.ActionValueRoundTrip` | src/core/history.py:11-21 | every action type is recovered from its value string |
| `History.NewAction` | src/core/history.py:27-30 | an action keeps its type and data; an empty description is replaced by the type's value, so the description is never empty |
| `History.ActionToDict` | src/core/history.py:32-38 | the record has exactly the keys type, data, description |
| `History.Lookup` | src/core/history.py:43-47 | `data[k]` succeeds iff the key is present, otherwise a KeyError naming it |
| `History.ActionFromDict` | src/core/history.py:40-47 | a restored action always has a non-empty description |
| `History.ActionRoundTrip` | src/core/history.py:32-47 | `Action.from_dict(to_dict(a))` gives back the type, data and description |
| `History.Added` | src/core/history.py:60-69 | pushing empties the redo stack, bumps the counter and appends to the undo stack, dropping index 0 when the bound is exceeded |
| `History.AddedBounded` | src/core/history.py:60-69 | pushing keeps the undo stack within `max_history` |
| `History.UndoRedoBounded` | src/core/history.py:79-95 | undo and redo keep the undo stack within its bound |
| `History.RedoUndo` | src/core/history.py:79-95 | on a non-empty undo stack, undo followed by redo restores both stacks and the counter exactly |
| `History.UndoRedo` | src/core/history.py:79-95 | on a non-empty redo stack, redo followed by undo restores both stacks and the counter exactly |
| `History.UndoRedoKeepEntries` | src/core/history.py:79-95 | undo and redo never change the action counter and only move actions between the stacks |
| `History.HistoryManager.constructor` | src/core/history.py:53-58 | a new history has both stacks empty, counter 0, the given bound and snapshot interval 10 |
| `History.HistoryManager.AddAction` | src/core/history.py:60-69 | the new state is the push described by `Added`, and the bound is kept |
| `History.HistoryManager.CanUndo` | src/core/history.py:71-73 | true iff the undo stack is non-empty |
| `History.HistoryManager.CanRedo` | src/core/history.py:75-77 | true iff the redo stack is non-empty |
| `History.HistoryManager.Undo` | src/core/history.py:79-86 | an empty undo stack gives None and changes nothing; otherwise the top action moves to the redo stack and is returned |
| `History.HistoryManager.Redo` | src/core/history.py:88-95 | an empty redo stack gives None and changes nothing; otherwise the top action moves back to the undo stack and is returned |
| `History.HistoryManager.UndoDescription` | src/core/history.py:97-101 | the top undo action's description, or "" when there is none |
| `History.HistoryManager.RedoDescription` | src/core/history.py:103-107 | the top redo action's description, or "" when there is none |
| `History.HistoryManager.Clear` | src/core/history.py:109-113 | both stacks emptied and the counter reset to 0 |
| `History.HistoryManager.Info` | src/core/history.py:115-123 | the counts are the stack lengths, the total is the counter, and each can-flag means its count is positive |
| `History.StateToDict` | src/core/history.py:133-138 | a snapshot's record has exactly the keys layers_data and metadata |
| `History.StateFromDict` | src/core/history.py:140-143 | restoring fails only by a missing key or a value of the wrong type |
| `History.StateRoundTrip` | src/core/history.py:129-143 | `DocumentState.from_dict(to_dict(s))` gives back the snapshot |
| `History.SnapshotManager.constructor` | src/core/history.py:149-151 | a new snapshot list is empty with the given bound |
| `History.SnapshotManager.TakeSnapshot` | src/core/history.py:153-160 | the snapshot is appended and the oldest dropped when the bound is exceeded, so the list holds the newest min(n, max) snapshots in order |
| `History.SnapshotManager.LatestSnapshot` | src/core/history.py:162-166 | the last snapshot, or None iff there is none |
| `History.SnapshotManager.RestoreSnapshot` | src/core/history.py:168-172 | an entry iff -n <= index < n, with Python's negative indexing; None otherwise |
| `History.SnapshotManager.Clear` | src/core/history.py:174-176 | the list is emptied |
| `History.SnapshotManager.SnapshotCount` | src/core/history.py:178-180 | the number of snapshots held |
| `PdfCanvas.LayerPayload` | src/ui/pdf_canvas.py:536-548 | `action.data['layer']` is found iff the payload has a layer entry, else a KeyError for 'layer' |
| `PdfCanvas.RemovePayloadLayer` | src/ui/pdf_canvas.py:539-546 | removing by the payload's id keeps the counter, never grows the list and keeps every layer with another id |
| `PdfCanvas.AddPayloadLayer` | src/ui/pdf_canvas.py:536-549 | re-adding a deserialised payload appends one plain layer with the payload's id and a fresh z-index equal to the counter, keeping the others |
| `PdfCanvas.Apply` | src/ui/pdf_canvas.py:533-540 | ADD_LAYER re-adds the payload, REMOVE_LAYER removes its id, every other type changes nothing; a payload without 'layer' raises KeyError |
| `PdfCanvas.ApplyReverse` | src/ui/pdf_canvas.py:542-549 | ADD_LAYER removes the payload id, REMOVE_LAYER re-adds the payload, every other type changes nothing; a payload without 'layer' raises KeyError |
| `PdfCanvas.AddStep` | src/ui/pdf_canvas.py:502-508 | adding appends the layer with the next z-index and records one ADD_LAYER action on top of the undo stack, clearing redo |
| `PdfCanvas.RemoveStep` | src/ui/pdf_canvas.py:510-517 | an unknown id changes neither store nor history; otherwise the layer is gone and one action is recorded, clearing redo |
| `PdfCanvas.UndoStep` | src/ui/pdf_canvas.py:519-524 | undo moves the stacks as `HistoryManager.undo` does; an empty stack changes nothing; a raised error leaves the layers as they were |
| `PdfCanvas.RedoStep` | src/ui/pdf_canvas.py:526-531 | redo moves the stacks as `HistoryManager.redo` does; an empty stack changes nothing; a raised error leaves the layers as they were |
| `PdfCanvas.RecordId` | src/ui/pdf_canvas.py:504-514 | both recorded payloads are the layer's serialised form, which carries its id |
| `PdfCanvas.ReverseAddRecord` | src/ui/pdf_canvas.py:504 | reversing a recorded add removes exactly that layer's id (also src/ui/pdf_canvas.py:542-546) |
| `PdfCanvas.ApplyAddRecord` | src/ui/pdf_canvas.py:504-537 | re-applying a recorded add adds the layer's restored form through the store |
| `PdfCanvas.ReverseRemoveRecord` | src/ui/pdf_canvas.py:514-549 | reversing a recorded remove adds the layer's restored form through the store |
| `PdfCanvas.ApplyRemoveRecord` | src/ui/pdf_canvas.py:514-540 | re-applying a recorded remove removes exactly that layer's id |
| `PdfCanvas.UndoOf` | src/ui/pdf_canvas.py:519-524 | undo with a reversible top action gives the reversed store and the undone stacks, raising nothing |
| `PdfCanvas.RedoOf` | src/ui/pdf_canvas.py:526-531 | redo with an applicable top action gives the re-applied store and the redone stacks, raising nothing |
| `PdfCanvas.UndoAdd` | src/ui/pdf_canvas.py:502-508 | after add then undo no layer with that id remains (a fresh id gives back the old list), the counter stays advanced and the add sits on the redo stack (also src/ui/pdf_canvas.py:519-524, src/ui/pdf_canvas.py:542-546) |
| `PdfCanvas.RedoUndoAddRecord` | src/ui/pdf_canvas.py:519-540 | undoing a recorded add and redoing it restores the stacks exactly and re-adds the restored layer |
| `PdfCanvas.RedoUndoAdd` | src/ui/pdf_canvas.py:502-540 | add, undo, redo: the history is as after the add, and the layer is back with its id and page at a z-index one above the counter before the add, the counter ending two above |
| `PdfCanvas.RedoUndoAddOnTop` | src/ui/pdf_canvas.py:536-537 | the layer brought back by redo keeps its id and page and is drawn above every other layer of its page (also src/core/layer.py:293-297) |
| `PdfCanvas.BroughtIgnoresZ` | src/core/layer.py:293-297 | the re-added layer's fields do not depend on the z-index it was saved with |
| `PdfCanvas.BroughtOnTop` | src/core/layer.py:293-315 | a layer re-added with a z-index above all others is listed last for its page |
| `PdfCanvas.UndoRemove` | src/ui/pdf_canvas.py:510-549 | remove then undo brings the layer back with the same id and a fresh z-index equal to the counter |
| `PdfCanvas.UndoRemoveOnTop` | src/ui/pdf_canvas.py:547-549 | the layer restored by undoing a remove paints above every other layer of its page (also src/core/layer.py:293-297) |
| `PdfCanvas.RedoUndoRemove` | src/ui/pdf_canvas.py:510-540 | remove, undo, redo leaves the layers and the history as right after the remove |
| `PdfCanvas.OtherActionsKeepLayers` | src/ui/pdf_canvas.py:533-549 | undo or redo of an action that is neither add nor remove only moves the stacks |
| `PdfCanvas.UndoWithoutLayerPayload` | src/ui/pdf_canvas.py:519-546 | undoing an add or remove whose payload has no 'layer' still moves the stacks, leaves the layers and raises KeyError |
| `PdfCanvas.ClampZoom` | src/ui/pdf_canvas.py:33-34 | the zoom is clamped to [0.1, 5.0] and kept when already inside (also src/ui/pdf_canvas.py:105) |
| `PdfCanvas.ZoomInOut` | src/ui/pdf_canvas.py:110-116 | zooming in then out (or out then in) returns to the starting zoom when the first step did not hit a bound |
| `PdfCanvas.NextIndex` | src/ui/pdf_canvas.py:93-96 | next page advances by one except on the last page |
| `PdfCanvas.PrevIndex` | src/ui/pdf_canvas.py:98-101 | previous page goes back by one except on page 0 |
| `PdfCanvas.NextPrevInverse` | src/ui/pdf_canvas.py:93-101 | next and previous undo each other away from the ends and stay within [0, page_count - 1] |
| `PdfCanvas.Offsets` | src/ui/pdf_canvas.py:184-196 | one offset per page, each the accumulated advance of the pages before it |
| `PdfCanvas.OffsetsStep` | src/ui/pdf_canvas.py:184-196 | offsets[0] = 0 and offsets[i+1] = offsets[i] + int(height_i * zoom) + 20 (no advance for a page without a size) |
| `PdfCanvas.OffsetsAscending` | src/ui/pdf_canvas.py:184-196 | with non-negative heights and zoom the offsets never decrease |
| `PdfCanvas.Canvas.constructor` | src/ui/pdf_canvas.py:24-52 | a new canvas shows page 0 at zoom 1.0 in continuous view, with offsets computed for an open document |
| `PdfCanvas.Canvas.AddLayer` | src/ui/pdf_canvas.py:502-508 | the store and history become `AddStep` of the old ones |
| `PdfCanvas.Canvas.RemoveLayer` | src/ui/pdf_canvas.py:510-517 | the store and history become `RemoveStep` of the old ones |
| `PdfCanvas.Canvas.Undo` | src/ui/pdf_canvas.py:519-524 | the new store, history and raised error are those of `UndoStep`, and the canvas stays valid, so any further undo or redo may follow |
| `PdfCanvas.Canvas.Redo` | src/ui/pdf_canvas.py:526-531 | the new store, history and raised error are those of `RedoStep`, and the canvas stays valid, so any further undo or redo may follow |
| `PdfCanvas.RemovePayloadKeepsValid` | src/ui/pdf_canvas.py:539-540 | removing by the payload's id keeps every remaining z-index below the unchanged counter |
| `PdfCanvas.AddPayloadKeepsValid` | src/ui/pdf_canvas.py:536-537 | re-adding the payload layer through `add_layer` raises the counter past the z-index it hands out, so the store stays valid (also src/core/layer.py:293-297) |
| `PdfCanvas.ApplyKeepsValid` | src/ui/pdf_canvas.py:533-549 | replaying an action forward or in reverse keeps the store valid, whatever the action type |
| `PdfCanvas.UndoRedoKeepValid` | src/ui/pdf_canvas.py:519-531 | undo and redo keep the store valid, whether or not the replay raised |
| `PdfCanvas.Canvas.ApplyAction` | src/ui/pdf_canvas.py:533-540 | the store becomes `Apply`'s result, or is unchanged with the error raised |
| `PdfCanvas.Canvas.ApplyActionReverse` | src/ui/pdf_canvas.py:542-549 | the store becomes `ApplyReverse`'s result, or is unchanged with the error raised |
| `PdfCanvas.Canvas.AddFromPayload` | src/ui/pdf_canvas.py:536-549 | the store becomes `AddPayloadLayer`'s result, or is unchanged with the error raised |
| `PdfCanvas.Canvas.RemoveFromPayload` | src/ui/pdf_canvas.py:539-546 | the store becomes `RemovePayloadLayer`'s result, or is unchanged with the error raised |
| `PdfCanvas.Canvas.UpdateSize` | src/ui/pdf_canvas.py:152-182 | only the page offsets are recomputed (for an open document in continuous view) |
| `PdfCanvas.Canvas.SetZoom` | src/ui/pdf_canvas.py:103-108 | the zoom becomes the clamped value, offsets are recomputed, page and view mode unchanged |
| `PdfCanvas.Canvas.ZoomIn` | src/ui/pdf_canvas.py:110-112 | the zoom becomes clamp(zoom * 1.25), offsets recomputed, page and view mode unchanged |
| `PdfCanvas.Canvas.ZoomOut` | src/ui/pdf_canvas.py:114-116 | the zoom becomes clamp(zoom / 1.25), offsets recomputed, page and view mode unchanged |
| `PdfCanvas.Canvas.SetPage` | src/ui/pdf_canvas.py:67-77 | a page in range becomes current; an out-of-range page changes nothing |
| `PdfCanvas.Canvas.NextPage` | src/ui/pdf_canvas.py:93-96 | the current page becomes `NextIndex` and stays in range |
| `PdfCanvas.Canvas.PreviousPage` | src/ui/pdf_canvas.py:98-101 | the current page becomes `PrevIndex` and stays in range |
| `PdfCanvas.Canvas.PageAtPosition` | src/ui/pdf_canvas.py:198-207 | outside continuous view the current page; otherwise the largest page whose offset is <= y, else 0 |
| `PdfCanvas.Canvas.PageYOffset` | src/ui/pdf_canvas.py:209-213 | 0 outside continuous view or past the last page, the page's offset in range, and an IndexError for a too-negative page |
| `PdfCanvas.ComputeOffsets` | src/ui/pdf_canvas.py:184-196 | the loop produces exactly `Offsets` |
| `PdfCanvas.PageBand` | src/ui/pdf_canvas.py:198-207 | the page found by position starts at or above y and the next page starts below y |
| `InteractiveLayers.Resized` | src/core/interactive_layer.py:126-208 | NONE keeps the box; a result is either the old box or one at least 20 by 20; the only failure is the aspect-locked width-driven case with width 0 and positive height (division by zero) |
| `InteractiveLayers.ResizeKeepsAnchor` | src/core/interactive_layer.py:141-208 | the corner opposite the dragged handle stays fixed: TOP_LEFT keeps right and bottom, TOP_RIGHT keeps x and bottom, BOTTOM_LEFT keeps right and y, BOTTOM_RIGHT keeps x and y |
| `InteractiveLayers.ResizeFollowsDrag` | src/core/interactive_layer.py:141-208 | without aspect lock a committed resize moves the dragged corner by exactly (dx, dy) |
| `InteractiveLayers.ResizeKeepsAspectWide` | src/core/interactive_layer.py:136-150 | with aspect lock and abs(dx) > abs(dy) the width follows dx and the height is width / aspect |
| `InteractiveLayers.ResizeKeepsAspectTall` | src/core/interactive_layer.py:136-154 | with aspect lock and abs(dx) <= abs(dy) the height follows dy and the width is height * aspect |
| `InteractiveLayers.Resize` | src/core/interactive_layer.py:115-208 | a non-resizable layer or handle NONE is unchanged; resizing only touches the data, and fails only with a TypeError or ZeroDivisionError |
| `InteractiveLayers.ResizeBoxPut` | src/core/interactive_layer.py:130-133 | writing one geometry entry changes only that field of the box read back |
| `InteractiveLayers.CommitReadsBack` | src/core/interactive_layer.py:156-208 | the entries written on commit read back as the committed box |
| `InteractiveLayers.ProposedOnReadBox` | src/core/interactive_layer.py:130-208 | the geometry each branch reads is enough: the committed box equals the proposal on the full box |
| `InteractiveLayers.ResizeMatchesGeometry` | src/core/interactive_layer.py:115-208 | resizing a layer stores exactly the box `Resized` computes, and fails exactly when it fails |
| `InteractiveLayers.Bounds` | src/core/interactive_layer.py:32-47 | computing the bounds fails only with a TypeError |
| `InteractiveLayers.HandleAtRect` | src/core/interactive_layer.py:91-113 | a handle returned is within 12 units of its corner and no corner earlier in the order TL, TR, BL, BR is |
| `InteractiveLayers.HandleAt` | src/core/interactive_layer.py:78-113 | a non-resizable layer or a null bounds rect gives NONE; otherwise the first corner hit |
| `InteractiveLayers.HandleHitIsNear` | src/core/interactive_layer.py:78-113 | a handle reported is within the hit distance of that corner of the bounds |
| `InteractiveLayers.MoveTo` | src/core/interactive_layer.py:210-214 | only text-type layers move, and only their data changes |
| `InteractiveLayers.MoveBy` | src/core/interactive_layer.py:216-220 | only text-type layers move, and only their data changes |
| `InteractiveLayers.MoveByPosition` | src/core/interactive_layer.py:216-220 | moving by (dx, dy) is moving to (x + dx, y + dy), and the new position reads back |
| `InteractiveLayers.MoveByInverse` | src/core/interactive_layer.py:216-220 | moving by (dx, dy) and then by (-dx, -dy) gives back the same layer |
| `InteractiveLayers.FreshKind` | src/core/interactive_layer.py:24-30 | a new interactive layer is unselected with rotation 0 |
| `InteractiveLayers.NewTextField` | src/core/interactive_layer.py:289-310 | a text box named "Text Box" on the page with the given text, position and size, resizable and unselected |
| `InteractiveLayers.TextBoxNameOfText` | src/core/interactive_layer.py:312-322 | for non-blank text the name is the stripped first line of the stripped text, cut to 25 characters plus "..." when longer |
| `InteractiveLayers.SetText` | src/core/interactive_layer.py:329-331 | the text entry is set and every other entry kept |
| `InteractiveLayers.GetText` | src/core/interactive_layer.py:333-335 | the stored text, or "" when there is none |
| `InteractiveLayers.GetSetText` | src/core/interactive_layer.py:329-335 | the text set is the text read back |
| `InteractiveLayers.SetFont` | src/core/interactive_layer.py:337-340 | family and size are set and every other entry kept |
| `InteractiveLayers.SetColor` | src/core/interactive_layer.py:342-344 | the colour is set and every other entry kept (also src/core/interactive_layer.py:719-721) |
| `InteractiveLayers.PutFlag` | src/core/interactive_layer.py:348-353 | a flag passed is written, a None leaves the data alone |
| `InteractiveLayers.SetStyle` | src/core/interactive_layer.py:346-353 | only the flags passed as non-None change; everything else is kept |
| `InteractiveLayers.ScaleModeFromValue` | src/core/interactive_layer.py:472-477 | a stored value is read back as the mode whose value it is; anything else is a ValueError (also src/core/interactive_layer.py:514-516) |
| `InteractiveLayers.SizeOr` | src/core/interactive_layer.py:489-492 | a given size is kept; a missing one defaults to the pixmap's width or height, and without a pixmap is an AttributeError |
| `InteractiveLayers.NewImageLayer` | src/core/interactive_layer.py:483-508 | an "Image" layer with the position, the pixmap, scale mode fit and the size defaulted from the pixmap |
| `InteractiveLayers.SetScaleMode` | src/core/interactive_layer.py:510-512 | only the data changes |
| `InteractiveLayers.GetScaleMode` | src/core/interactive_layer.py:514-516 | a layer without a stored mode is in fit mode |
| `InteractiveLayers.ScaleModeRoundTrip` | src/core/interactive_layer.py:510-516 | the mode set is the mode read back |
| `InteractiveLayers.SetImage` | src/core/interactive_layer.py:518-522 | the pixmap is always replaced, the path only when a non-empty one is given, every other entry kept |
| `InteractiveLayers.ImageRect` | src/core/interactive_layer.py:634-669 | stretch fills the frame; fit and fill fail only on a null pixmap |
| `InteractiveLayers.ImageRectPlacement` | src/core/interactive_layer.py:634-669 | the image is centred in the frame; fit and fill keep the pixmap's aspect, fit inside the frame, fill covering it |
| `InteractiveLayers.SymbolData` | src/core/interactive_layer.py:678-684 | the symbol's data holds its position, symbol, font size and a square box |
| `InteractiveLayers.NewSymbolLayer` | src/core/interactive_layer.py:674-692 | a "Symbol" layer whose box is 1.2 * font_size square; a non-numeric size is a TypeError |
| `InteractiveLayers.SetSymbol` | src/core/interactive_layer.py:707-709 | the symbol is set and every other entry kept |
| `InteractiveLayers.SetFontSize` | src/core/interactive_layer.py:715-717 | the font size is set and every other entry kept |
| `InteractiveLayers.SymbolNameAfterSet` | src/core/interactive_layer.py:694-709 | after setting a non-empty symbol the name is "Symbol: " + symbol; after an empty one it is the base name |
| `InteractiveCanvas.ContainsNormalised` | src/ui/interactive_canvas.py:509 | the containment test `contains_point` relies on does not depend on the corner a rectangle is given by, and for a positive-size rectangle it is the closed box |
| `InteractiveCanvas.HitLayer` | src/ui/interactive_canvas.py:508-511 | only visible text boxes, images and symbols can be hit; for them the result is containment of the point in the bounds at zoom 1; reading the bounds fails only with a TypeError |
| `InteractiveCanvas.TopBelow` | src/ui/interactive_canvas.py:506-513 | scanning from the top, the index found is a hit with only misses above it; no index means every layer missed; an error is the first raising test above which all missed |
| `InteractiveCanvas.TopmostScan` | src/ui/interactive_canvas.py:502-513 | the reverse loop of `find_layer_at_point` returns the layer the top-down scan finds |
| `InteractiveCanvas.TopmostIsTopHit` | src/ui/interactive_canvas.py:502-513 | the layer found is hit and every layer drawn above it is missed; None means every layer of the page missed |
| `InteractiveCanvas.Flagged` | src/ui/interactive_canvas.py:654-658 | setting one layer's `selected` flag changes only that layer's flag, and only for an interactive layer; an unknown id changes nothing |
| `InteractiveCanvas.FlaggedOther` | src/ui/interactive_canvas.py:654 | every other id keeps its selection state |
| `InteractiveCanvas.Selected` | src/ui/interactive_canvas.py:650-661 | `select_layer` lowers the previous selection's flag and raises the new one's; every other layer keeps its flag and nothing but flags changes |
| `InteractiveCanvas.Deselected` | src/ui/interactive_canvas.py:663-668 | `deselect_layer` lowers the selected layer's flag, keeps every other flag, and with no selection changes nothing |
| `InteractiveCanvas.ClearedOnPage` | src/ui/interactive_canvas.py:670-679 | every layer of the current page ends unselected, layers of other pages are untouched, and only flags change |
| `InteractiveCanvas.InteractiveCanvas.FindLayerAtPoint` | src/ui/interactive_canvas.py:502-513 | the canvas answers the top-down scan over the current page's layers |
| `InteractiveCanvas.InteractiveCanvas.SelectLayer` | src/ui/interactive_canvas.py:650-661 | the store becomes `Selected` of the old store and the canvas remembers the new id |
| `InteractiveCanvas.InteractiveCanvas.DeselectLayer` | src/ui/interactive_canvas.py:663-668 | the store becomes `Deselected` of the old store and the selection reference is cleared |
| `InteractiveCanvas.InteractiveCanvas.DeselectAllLayers` | src/ui/interactive_canvas.py:670-682 | the current page's flags are all cleared and the selection reference is cleared |
| `InteractiveCanvas.ToFront` | src/ui/interactive_canvas.py:1497-1498 | the layer ends last and the list is a permutation of the old one |
| `InteractiveCanvas.ToBack` | src/ui/interactive_canvas.py:1506-1507 | the layer ends first and the list is a permutation of the old one |
| `InteractiveCanvas.FrontIsMove` | src/ui/interactive_canvas.py:1493-1500 | bringing to front is the layer store's move to the end of the list |
| `InteractiveCanvas.BackIsMove` | src/ui/interactive_canvas.py:1502-1509 | sending to back is the layer store's move to index 0 |
| `InteractiveCanvas.FrontIsLast` | src/ui/interactive_canvas.py:1493-1500 | after renumbering the layer is last with the highest z-index and the others keep their relative order with dense z-indices |
| `InteractiveCanvas.FrontOnTop` | src/ui/interactive_canvas.py:1493-1500 | a layer brought to front is drawn last among the layers of its page |
| `InteractiveCanvas.BackAtBottom` | src/ui/interactive_canvas.py:1502-1509 | after renumbering the layer is first with z-index 0, every other layer keeps its order and lies above it |
| `InteractiveCanvas.InteractiveCanvas.BringLayerToFront` | src/ui/interactive_canvas.py:1493-1500 | an absent layer changes nothing; otherwise the store is the renumbered front move |
| `InteractiveCanvas.InteractiveCanvas.SendLayerToBack` | src/ui/interactive_canvas.py:1502-1509 | an absent layer changes nothing; otherwise the store is the renumbered back move |
| `InteractiveCanvas.AlignTypeRoundTrip` | src/ui/interactive_canvas.py:1095-1131 | each of the seven `align_type` strings is recognised as its own type, and only those strings are |
| `InteractiveCanvas.AlignBox` | src/ui/interactive_canvas.py:1075-1090 | the bounds read each geometry key with default 0; the sums fail only with a TypeError |
| `InteractiveCanvas.Boxes` | src/ui/interactive_canvas.py:1073-1090 | either every selected layer's bounds, in order, or the error of one that could not be read |
| `InteractiveCanvas.MinOf` | src/ui/interactive_canvas.py:1097 | `min` is a lower bound that is one of the values |
| `InteractiveCanvas.MaxOf` | src/ui/interactive_canvas.py:1103 | `max` is an upper bound that is one of the values |
| `InteractiveCanvas.SortByY` | src/ui/interactive_canvas.py:1137 | the stable sort by `y` is a permutation of the positions, ordered by `y` with ties kept in selection order |
| `InteractiveCanvas.InsertByYSorted` | src/ui/interactive_canvas.py:1137 | inserting a later position into a `y`-sorted order keeps it sorted |
| `InteractiveCanvas.StackedSteps` | src/ui/interactive_canvas.py:1151-1154 | each layer distributed starts `spacing` below the bottom of the one before |
| `InteractiveCanvas.StackedEnd` | src/ui/interactive_canvas.py:1151-1154 | the last layer ends at the top plus all heights plus one spacing per gap |
| `InteractiveCanvas.SpacingCloses` | src/ui/interactive_canvas.py:1140-1148 | with the computed spacing the stack ends exactly at the last layer's bottom |
| `InteractiveCanvas.AlignPlan` | src/ui/interactive_canvas.py:1095-1154 | every alignment writes `x` (left, right, h-center) or `y` (the rest) of each selected layer once, in selection order except v-spacing |
| `InteractiveCanvas.AlignToSmallestEdge` | src/ui/interactive_canvas.py:1095-1111 | left and top move every layer to the smallest edge among them, which is one of their edges |
| `InteractiveCanvas.AlignToLargestEdge` | src/ui/interactive_canvas.py:1101-1117 | right and bottom line every far edge up on the largest one, which is one of their far edges |
| `InteractiveCanvas.AlignToAverageCentre` | src/ui/interactive_canvas.py:1119-1129 | h-center and v-center put every layer's centre on the average centre |
| `InteractiveCanvas.DistributeVertically` | src/ui/interactive_canvas.py:1131-1154 | v-spacing visits the layers sorted by `y`, keeps the first top and the last layer's bottom, and leaves equal gaps between consecutive layers |
| `InteractiveCanvas.EvenlyStacked` | src/ui/interactive_canvas.py:1140-1154 | the stack written for any visiting order keeps the first top, the last bottom and equal gaps |
| `InteractiveCanvas.Resolve` | src/ui/interactive_canvas.py:1070-1074 | each selected id still in the store resolves to its first position, and every such id is resolved |
| `InteractiveCanvas.ResolveDistinct` | src/ui/interactive_canvas.py:1070-1074 | distinct ids resolve to distinct layers |
| `InteractiveCanvas.SetKey` | src/ui/interactive_canvas.py:1099 | `layer.data[key] = v` changes that key only |
| `InteractiveCanvas.WrittenKeeps` | src/ui/interactive_canvas.py:1098-1154 | the writes change only the planned key, and only of the planned layers; sizes are unchanged |
| `InteractiveCanvas.WrittenReads` | src/ui/interactive_canvas.py:1098-1154 | with distinct planned layers each ends holding its planned value |
| `InteractiveCanvas.PlanOrderDistinct` | src/ui/interactive_canvas.py:1098-1154 | every alignment writes each selected layer at most once |
| `InteractiveCanvas.AlignedStore` | src/ui/interactive_canvas.py:1058-1156 | fewer than two selected layers or an unknown type change nothing; the store keeps its length; the only failure is a TypeError (the selection is resolved by id against the store, see "## Left out" under `InteractiveCanvas.Resolve`) |
| `InteractiveCanvas.AlignedStoreIsWritten` | src/ui/interactive_canvas.py:1058-1156 | a bounds error is raised before any write; an empty or unrecognised alignment keeps the store; otherwise the store is the planned writes |
| `InteractiveCanvas.AlignWrites` | src/ui/interactive_canvas.py:1058-1156 | a successful alignment of distinct ids is the planned writes to distinct layers, so each ends holding its planned value |
| `InteractiveCanvas.WritePlan` | src/ui/interactive_canvas.py:1098-1154 | the writing loop leaves the store as the planned writes prescribe and keeps it valid |
| `InteractiveCanvas.AlignLayers` | src/ui/interactive_canvas.py:1058-1156 | reading then writing yields `AlignedStore`'s store or its error with the store unchanged |
| `InteractiveCanvas.InteractiveCanvas.AlignSelectedLayers` | src/ui/interactive_canvas.py:1058-1156 | the canvas store becomes `AlignedStore` of the old store, or is unchanged with the error raised |
| `InteractiveCanvas.InteractivesMembers` | src/ui/interactive_canvas.py:1164-1170 | the filter keeps exactly the interactive layers |
| `InteractiveCanvas.CollectInteractives` | src/ui/interactive_canvas.py:1163-1170 | the copying loop collects the interactive layers of the selection in order |
| `InteractiveCanvas.CopiedLayers` | src/ui/interactive_canvas.py:1158-1176 | with a multi-selection exactly its interactive layers are copied; otherwise the single selected layer if interactive; otherwise nothing |
| `InteractiveCanvas.InteractiveCanvas.CopySelectedLayers` | src/ui/interactive_canvas.py:1158-1176 | the clipboard becomes `CopiedLayers` of the store and selection |
| `InteractiveCanvas.CopyStyle` | src/ui/interactive_canvas.py:1210-1220 | `data.update` writes each style key with the original's value or its default, and keeps every other key |
| `InteractiveCanvas.CopiedStyle` | src/ui/interactive_canvas.py:1210-1220 | copying the text style writes every style entry and keeps text and size |
| `InteractiveCanvas.Rotated` | src/ui/interactive_canvas.py:1222 | only the rotation changes |
| `InteractiveCanvas.TextBase` | src/ui/interactive_canvas.py:1201-1208 | the new text box carries the original's text and size with defaults 150 by 40, at the new position |
| `InteractiveCanvas.PastedText` | src/ui/interactive_canvas.py:1199-1222 | a fresh unselected text box at the new position with the original's rotation |
| `InteractiveCanvas.PastedImage` | src/ui/interactive_canvas.py:1224-1238 | a fresh image at the new position with the original's pixmap, scale mode and rotation; reading the scale mode fails only with AttributeError or ValueError |
| `InteractiveCanvas.PastedSymbol` | src/ui/interactive_canvas.py:1240-1252 | a fresh symbol at the new position with the original's symbol, size (default 24), colour and rotation |
| `InteractiveCanvas.PastedLayer` | src/ui/interactive_canvas.py:1195-1254 | a plain layer builds nothing; an interactive one builds a layer unless reading its position fails with a TypeError or its kind's reads fail |
| `InteractiveCanvas.PastedAt` | src/ui/interactive_canvas.py:1199-1252 | the copy has the fresh id, the current page, the original's shape and rotation, is unselected and stands at the given position |
| `InteractiveCanvas.PastedPlacement` | src/ui/interactive_canvas.py:1190-1252 | every pasted layer is a new unselected copy of the original's kind, 20 units right of and below it, with its rotation |
| `InteractiveCanvas.PastedTextCopiesStyle` | src/ui/interactive_canvas.py:1199-1222 | a pasted text box carries the original's text, size and every style entry |
| `InteractiveCanvas.PastedTextIs` | src/ui/interactive_canvas.py:1199-1222 | a pasted text box is the text box built at the original's position moved by the paste offset |
| `InteractiveCanvas.PastedImageCopiesMode` | src/ui/interactive_canvas.py:1224-1238 | a pasted image carries the original's pixmap and scale mode |
| `InteractiveCanvas.PastedSymbolCopiesColour` | src/ui/interactive_canvas.py:1240-1252 | a pasted symbol carries the original's symbol, size and colour |
| `InteractiveCanvas.MarkLast` | src/ui/interactive_canvas.py:1257 | only the last layer of the store, the one just added, is marked selected |
| `InteractiveCanvas.PasteFromUnroll` | src/ui/interactive_canvas.py:1195-1258 | one turn of the paste loop: an exception stops it, a skipped kind adds nothing, a built layer is added on top and selected |
| `InteractiveCanvas.PasteFromAppends` | src/ui/interactive_canvas.py:1195-1258 | pasting only appends to the store, one layer per id reported |
| `InteractiveCanvas.PasteFromInstalls` | src/ui/interactive_canvas.py:1195-1258 | when every copy builds, nothing raises and each build is installed in order with increasing z-indices |
| `InteractiveCanvas.PasteCopiesInstalls` | src/ui/interactive_canvas.py:1178-1258 | pasting copies of interactive layers that all build appends one selected placed copy of each, in order, reporting the fresh ids |
| `InteractiveCanvas.PasteAll` | src/ui/interactive_canvas.py:1182-1184 | with nothing copied, nothing changes |
| `InteractiveCanvas.InteractiveCanvas.PasteLayers` | src/ui/interactive_canvas.py:1178-1266 | the canvas state, error and pasted ids are `PasteAll` of the old state; the clipboard is kept and the selection reference cleared |
| `InteractiveCanvas.InteractiveCanvas.PasteLoop` | src/ui/interactive_canvas.py:1195-1258 | the loop's outcome is what pasting each built layer in turn gives |
| `InteractiveCanvas.SpanColorHex` | src/ui/interactive_canvas.py:555-559 | the colour is `#` and six hex digits that read back as the three bytes of the integer |
| `InteractiveCanvas.SpanColorBytes` | src/ui/interactive_canvas.py:555-559 | a colour packed from three bytes reads back as those bytes |
| `InteractiveCanvas.SpanFlagBits` | src/ui/interactive_canvas.py:561-563 | bold and italic read back bits 4 and 1 of the flags, whatever the other bits are |
| `InteractiveCanvas.MapPdfFont` | src/ui/interactive_canvas.py:1363-1371 | the family is one of Arial, Times New Roman and Courier New |
| `InteractiveCanvas.MapPdfFontMatches` | src/ui/interactive_canvas.py:1363-1371 | arial or helv gives Arial; Times New Roman only for names containing "times" and Courier New only for "courier" |
| `InteractiveCanvas.MapPdfFontIgnoresCase` | src/ui/interactive_canvas.py:1363 | the mapping ignores ASCII case |
| `InteractiveCanvas.Styled` | src/ui/interactive_canvas.py:1384-1390 | `set_font`, `set_color` and `set_style` write the six style entries, underline off, and keep everything else |
| `InteractiveCanvas.ConvertedLayer` | src/ui/interactive_canvas.py:1344-1390 | the text box stands at the span's corner, 4 units larger than it, with its text, mapped font, size, colour, bold and italic |
| `InteractiveCanvas.AddSelected` | src/ui/interactive_canvas.py:1393-1396 | adding then selecting leaves the new layer selected when its id is fresh |
| `InteractiveCanvas.AddSelectedUndo` | src/ui/interactive_canvas.py:1393-1396 | undoing the add removes the added layer (also src/ui/pdf_canvas.py:544-546) |
| `InteractiveCanvas.ConvertCorrected` | src/ui/interactive_canvas.py:1393-1396 | the corrected conversion appends the converted layer on top and selects it |
| `InteractiveCanvas.ConvertUndoRemoves` | src/ui/interactive_canvas.py:1393-1396 | undoing the corrected conversion removes the converted layer (also src/ui/pdf_canvas.py:544-546) |
| `InteractiveCanvas.ConvertAsWritten` | src/ui/interactive_canvas.py:1393-1404 | as written, the corrected store plus a second ADD_LAYER record on the undo stack |
| `InteractiveCanvas.ConvertUndoRaises` | src/ui/interactive_canvas.py:1399-1404 | undoing the conversion as written pops the extra record and raises KeyError, leaving the converted layer in place (also src/ui/pdf_canvas.py:544-546) |
| `InteractiveCanvas.InteractiveCanvas.ConvertPdfTextToLayer` | src/ui/interactive_canvas.py:1337-1406 | the canvas adds and selects the converted layer through the corrected path |
| `InteractiveCanvas.InteractiveCanvas.constructor` | src/ui/interactive_canvas.py:29-39 | a new interactive canvas selects nothing and holds no copied layers |
| `Guides.IndexOf` | src/core/guide_manager.py:87-88 | `list.index` finds the first guide equal to the one given, and nothing exactly when none is equal |
| `Guides.RemoveFirstDropsOne` | src/core/guide_manager.py:85 | removing a present guide drops exactly one copy of it and nothing else |
| `Guides.ForPageMembers` | src/core/guide_manager.py:128-137 | a guide is shown on a page exactly when it is in the list and is global or on that page |
| `Guides.OfOrientationMembers` | src/core/guide_manager.py:139-147 | the orientation filter keeps exactly the guides of that orientation |
| `Guides.NotOnPageMembers` | src/core/guide_manager.py:155-158 | clearing a page keeps exactly the guides not on that page |
| `Guides.ClearPageKeepsOtherPages` | src/core/guide_manager.py:155-160 | clearing one page leaves what every other page shows unchanged, global guides included |
| `Guides.ClearPageLeavesGlobal` | src/core/guide_manager.py:155-160 | after clearing a page it shows exactly the global guides |
| `Guides.FirstNear` | src/core/guide_manager.py:174-179 | the guide found is within the tolerance with the right orientation, and none before it is; none found means none is |
| `Guides.FindAtSound` | src/core/guide_manager.py:162-179 | a guide found is in the list, visible on the page, of the orientation asked for and within the tolerance; none found means no visible guide is |
| `Guides.MovedKeepsShape` | src/core/guide_manager.py:106-111 | moving a guide changes only a position, and the moved guide is present at its new position |
| `Guides.ToggledTwice` | src/core/guide_manager.py:113-126 | toggling a guide's lock twice restores the list |
| `Guides.GuideManager.constructor` | src/core/guide_manager.py:33-38 | a new manager has no guides, is unlocked and has no selection |
| `Guides.GuideManager.SetAllLocked` | src/core/guide_manager.py:47-50 | the setter changes only the global lock |
| `Guides.GuideManager.SetSelected` | src/core/guide_manager.py:56-59 | the setter changes only the selection |
| `Guides.GuideManager.AddGuide` | src/core/guide_manager.py:61-75 | an unlocked guide with the given orientation, position and page is appended and returned |
| `Guides.GuideManager.RemoveGuide` | src/core/guide_manager.py:77-92 | reports whether an equal guide was present, removes the first one, and clears the selection if it was that guide |
| `Guides.GuideManager.MoveGuide` | src/core/guide_manager.py:94-111 | moves exactly when neither the global lock nor the guide's lock is set and the guide is present; otherwise nothing changes |
| `Guides.GuideManager.ToggleGuideLock` | src/core/guide_manager.py:113-126 | a present guide's lock is flipped and the new state returned; an absent guide gives false with nothing changed |
| `Guides.GuideManager.GuidesForPage` | src/core/guide_manager.py:128-137 | every guide returned is in the list and visible on the page |
| `Guides.GuideManager.GuidesOf` | src/core/guide_manager.py:139-147 | the horizontal and vertical getters return guides of that orientation, visible on the page unless the page is -1 |
| `Guides.GuideManager.ClearAllGuides` | src/core/guide_manager.py:149-153 | the list is emptied and the selection cleared |
| `Guides.GuideManager.ClearPageGuides` | src/core/guide_manager.py:155-160 | only guides of that page go, and a selection on that page is cleared |
| `Guides.GuideManager.FindGuideAtPosition` | src/core/guide_manager.py:162-179 | a guide found is present, visible and within the tolerance; none found means no visible guide is |
| `Guides.GuideManager.IsGuideLocked` | src/core/guide_manager.py:181-183 | a guide is locked when it or all guides are |
| `MainWindow.MoveBefore` | src/ui/main_window.py:1984 | the library's `move_page` keeps the page count |
| `MainWindow.MoveBeforePermutes` | src/ui/main_window.py:1974-1984 | `move_page` only reorders: no page is lost or duplicated |
| `MainWindow.MoveBeforeLands` | src/ui/main_window.py:1984 | the moved page lands in front of the page that was at the target, pages outside the crossed range keep their places and those inside shift by one |
| `MainWindow.RemovePageIndex` | src/ui/main_window.py:1869 | after deleting a page, pages in front keep their index and those behind move up by one |
| `MainWindow.MovedUp` | src/ui/main_window.py:1969-1974 | page 0 stays; any other page swaps with the one above and nothing else moves |
| `MainWindow.MovedDown` | src/ui/main_window.py:1979-1984 | the last page stays; any other page swaps with the one below and nothing else moves |
| `MainWindow.MovedUpThenDown` | src/ui/main_window.py:1969-1984 | moving a page up and then back down restores the list |
| `MainWindow.Block` | src/ui/main_window.py:2013-2028 | the gathered block holds the dragged pages in order |
| `MainWindow.RestAtOther` | src/ui/main_window.py:2043-2045 | a page that is not dragged sits as many places earlier as there are dragged pages in front of it |
| `MainWindow.GatherStepCorrect` | src/ui/main_window.py:2013-2028 | each corrected `move_page` call is in range and appends the next dragged page to the block at the adjusted target |
| `MainWindow.ReorderPages` | src/ui/main_window.py:1989-2028 | the corrected loop of `move_page` calls yields the intended reorder |
| `MainWindow.ReorderedBlock` | src/ui/main_window.py:2006-2024 | the dragged pages end consecutive, in their order, from the adjusted target |
| `MainWindow.ReorderedTracks` | src/ui/main_window.py:2036-2048 | every page, dragged or not, is found at its tracked new position |
| `MainWindow.ReorderedKeepsOrder` | src/ui/main_window.py:1989-2048 | pages that are not dragged keep their relative order |
| `MainWindow.IndexIn` | src/ui/main_window.py:2040 | `list.index` finds the page, and nothing exactly when it is absent |
| `MainWindow.AsWrittenStep` | src/ui/main_window.py:2013-2028 | one iteration as written is one `move_page` with in-range arguments, skipped when source and destination agree |
| `MainWindow.PositionAsWritten` | src/ui/main_window.py:2016-2021 | the inner loop lowers the page's position once per earlier dragged page in front of it |
| `MainWindow.ReorderPagesAsWritten` | src/ui/main_window.py:1989-2028 | the loop as written computes the as-written reordering and loses no page |
| `MainWindow.AsWrittenPermutes` | src/ui/main_window.py:2013-2028 | the handler as written loses no page, whatever it does to the order |
| `MainWindow.ForwardDropOneShort` | src/ui/main_window.py:2013-2028 | dragging A to index 3 of [A,B,C,D] gives [B,A,C,D], not the intended order |
| `MainWindow.ForwardDropIntended` | src/ui/main_window.py:2006-2012 | the same drop gathered correctly gives [B,C,A,D] |
| `MainWindow.BackwardMovesWrongPage` | src/ui/main_window.py:2013-2028 | dragging C and D to the front of [A,B,C,D] gives [C,B,A,D]: the second move takes B instead of D |
| `MainWindow.BackwardPairIntended` | src/ui/main_window.py:2006-2012 | the same drop gathered correctly gives [C,D,A,B] |
| `MainWindow.CurrentPageLeftBehind` | src/ui/main_window.py:2036-2048 | with pages 0 and 5 dragged to 2, current page 3 is left at 3 though it ends at 4 |
| `MainWindow.NewRotation` | src/ui/main_window.py:1886 | the new rotation is in [0, 360) and differs from rotation plus delta by a multiple of 360 (also src/ui/main_window.py:1960) |
| `MainWindow.RotationUndone` | src/ui/main_window.py:1886 | rotating back by the same amount restores a normalised rotation |
| `MainWindow.FourQuarterTurns` | src/ui/main_window.py:1886 | four quarter turns restore a page |
| `MainWindow.RotatedAt` | src/ui/main_window.py:1956-1962 | only the chosen page's rotation changes; an index with no page changes nothing |
| `MainWindow.PageView.constructor` | src/ui/main_window.py:1350-1365 | a view opens on page 0 of a non-empty document |
| `MainWindow.PageView.SetPage` | src/ui/pdf_canvas.py:67-70 | an out-of-range page is ignored; documents and layers are unchanged |
| `MainWindow.PageView.DeletePage` | src/ui/main_window.py:1856-1876 | the only page is never deleted; a confirmed delete removes the current page and its layers and keeps the view on a valid page |
| `MainWindow.PageView.RotatePage` | src/ui/main_window.py:1878-1890 | the current page is rotated and nothing else changes |
| `MainWindow.PageView.RotatePageAt` | src/ui/main_window.py:1956-1962 | the chosen page is rotated and nothing else changes |
| `MainWindow.PageView.MovePageUp` | src/ui/main_window.py:1969-1977 | the pages become `MovedUp` and the canvas page stays |
| `MainWindow.PageView.MovePageDown` | src/ui/main_window.py:1979-1987 | the pages become `MovedDown` and the canvas page stays |
| `MainWindow.PageView.PagesReordered` | src/ui/main_window.py:1989-2050 | the pages are reordered as intended and the view still shows the page it showed |
| `MainWindow.RequestedPage` | src/ui/main_window.py:746-754 | a non-number requests nothing; a number is clamped to [1, total] and made 0-based |
| `MainWindow.PageTextRoundTrip` | src/ui/main_window.py:705-715 | `setText` reads back the page number and count the window writes (also src/ui/main_window.py:2054) |
| `MainWindow.BadCountMovesCurrent` | src/ui/main_window.py:710-715 | a count that does not parse keeps the old count but the current page has already changed |
| `MainWindow.ParsedFromParts` | src/ui/main_window.py:709-715 | the first piece is assigned before the second is parsed |
| `MainWindow.RequestedShownPage` | src/ui/main_window.py:739-754 | typing back the page the label shows requests that page |
| `MainWindow.PageLabel.constructor` | src/ui/main_window.py:690-694 | a new label is not editing and knows no pages |
| `MainWindow.PageLabel.SetText` | src/ui/main_window.py:705-715 | the label stores the text and the parsed page info |
| `MainWindow.PageLabel.MousePress` | src/ui/main_window.py:717-737 | editing starts, showing the current page, only when there are pages and no edit is under way |
| `MainWindow.PageLabel.Type` | src/ui/main_window.py:734 | typing changes only the entry |
| `MainWindow.PageLabel.EditFinished` | src/ui/main_window.py:739-754 | outside an edit nothing is requested; otherwise the edit ends and the clamped page is requested |
| `MainWindow.MajorTickSpacing` | src/ui/main_window.py:324-330 | the first nice interval at least 40 pixels wide at this zoom, or 50 when none is |
| `MainWindow.MinorTickSpacing` | src/ui/main_window.py:332-333 | five minor ticks to a major one |
| `MainWindow.ShapeToolButton.constructor` | src/ui/main_window.py:125-140 | the button starts on the rectangle tool |
| `MainWindow.ShapeToolButton.SetToolExternally` | src/ui/main_window.py:227-232 | only the four shape tool names are accepted; any other is ignored |
| `MainWindow.TabList.constructor` | src/ui/main_window.py:767-768 | a new window has no tabs and no current tab |
| `MainWindow.TabList.CurrentTab` | src/ui/main_window.py:794-798 | the current tab exactly when the index is in range |
| `MainWindow.TabList.OpenTab` | src/ui/main_window.py:1350-1355 | the new tab is appended and becomes current |
| `MainWindow.TabList.CloseTab` | src/ui/main_window.py:1457-1500 | a bad index or a Cancel to the save question closes nothing; otherwise the tab is removed and the index follows the widget, or -1 when none remain |
| `Thumbnails.PageRange` | src/ui/thumbnail_panel.py:680-683 | the range holds exactly the pages from the lower to the higher end |
| `Thumbnails.DropIndexMeaning` | src/ui/thumbnail_panel.py:787-800 | the drop index is the first card not being dragged whose centre lies below the pointer, or the card count when none does |
| `Thumbnails.ValidDrop` | src/ui/thumbnail_panel.py:857-867 | an empty drag accepts any drop; otherwise a drop is refused exactly when it falls after the first dragged page and no further than one past the last |
| `Thumbnails.RunCountBelow` | src/ui/thumbnail_panel.py:857-867 | a run of consecutive dragged pages has as many pages below a drop index as the part of the run it passes |
| `Thumbnails.RefusedDropsLandInPlace` | src/ui/thumbnail_panel.py:857-867 | for consecutive dragged pages a drop is refused exactly when, after taking the dragged pages out, it would put them back where they were |
| `Thumbnails.ThumbnailContainer.constructor` | src/ui/thumbnail_panel.py:544-573 | a new container has no cards, no selection, page 0 current and no drag |
| `Thumbnails.ThumbnailContainer.AddCard` | src/ui/thumbnail_panel.py:575-585 | one more card and nothing else changes |
| `Thumbnails.ThumbnailContainer.ClearCards` | src/ui/thumbnail_panel.py:592-597 | the cards and the selection are cleared and nothing else changes |
| `Thumbnails.ThumbnailContainer.SetCurrentPage` | src/ui/thumbnail_panel.py:691-698 | only the current page changes |
| `Thumbnails.ThumbnailContainer.CardClicked` | src/ui/thumbnail_panel.py:646-689 | Ctrl toggles the page, Shift adds the range from the last click (or the page alone), a plain click selects only that page, makes it current and emits it; the click is remembered |
| `Thumbnails.ThumbnailContainer.DragStarted` | src/ui/thumbnail_panel.py:700-714 | a drag under way is kept; otherwise the drag takes the sorted selection when the page is selected and the page alone when not |
| `Thumbnails.ThumbnailContainer.IsValidDrop` | src/ui/thumbnail_panel.py:857-867 | the container asks `ValidDrop` of its dragged pages |
| `Thumbnails.ThumbnailContainer.CalculateDropIndex` | src/ui/thumbnail_panel.py:787-800 | the scan over the cards returns the first card not being dragged whose centre lies below the pointer, or the card count |
| `Thumbnails.ThumbnailContainer.MouseMove` | src/ui/thumbnail_panel.py:767-785 | outside a drag nothing changes; during one the preview moves only when the drop index changes |
| `Thumbnails.ThumbnailContainer.MouseRelease` | src/ui/thumbnail_panel.py:869-890 | a drag ends and emits its sorted, non-empty pages and the drop index exactly when the index is set and valid |
| `Thumbnails.ThumbnailContainer.GetSelectedPages` | src/ui/thumbnail_panel.py:932-935 | with no selection the current page alone; otherwise the selected pages, sorted |
| `Thumbnails.StackShape` | src/ui/thumbnail_panel.py:991-1014 | the parent stack after each entry holds, per depth, the nearest earlier item of that depth with nothing shallower since |
| `Thumbnails.ParentIsNearestAbove` | src/ui/thumbnail_panel.py:1003-1008 | a heading's parent is the nearest earlier heading one level shallower, or the root for a top-level one |
| `Thumbnails.DepthFollowsLevel` | src/ui/thumbnail_panel.py:1003-1014 | a heading's depth is its level capped at one more than the previous heading's depth |
| `Thumbnails.PopTo` | src/ui/thumbnail_panel.py:1004-1005 | popping to a level keeps the prefix of that length; a negative level empties the stack and then fails with IndexError |
| `Thumbnails.LoadHeadings` | src/ui/thumbnail_panel.py:974-1016 | an empty table of contents shows no headings; a level below 1 raises IndexError; otherwise one item per entry under its computed parent |
| `Properties.OtherColorsMembers` | src/ui/properties_panel.py:229 | the filter keeps exactly the recent colours that do not match the new one ignoring case |
| `Properties.OtherColorsKeepOrder` | src/ui/properties_panel.py:229 | the colours kept stay in their order |
| `Properties.OtherColorsNoDuplicates` | src/ui/properties_panel.py:229 | filtering a list without duplicates leaves none |
| `Properties.WithRecentColor` | src/ui/properties_panel.py:220-235 | a colour already first is ignored; otherwise the upper-cased colour goes in front of the other colours and the list is cut to 8 |
| `Properties.DefaultRecentValid` | src/ui/properties_panel.py:115-119 | the default white and black form a valid list: upper case, distinct, at most 8 |
| `Properties.RecentColorAdded` | src/ui/properties_panel.py:220-235 | adding keeps the list valid, puts the colour first and leaves no other copy of it |
| `Properties.RecentColorKeepsOrder` | src/ui/properties_panel.py:229-235 | after the new colour come the other colours in their old order, up to 7 of them |
| `Properties.ColorSwatchPanel.constructor` | src/ui/properties_panel.py:117-122 | the panel starts with white and black |
| `Properties.ColorSwatchPanel.AddRecentColor` | src/ui/properties_panel.py:220-238 | the recent colours become `WithRecentColor` of the old list, valid and headed by the colour |
| `Properties.ColorSwatchPanel.UpdateSwatches` | src/ui/properties_panel.py:240-247 | swatch `i` shows the `i`-th recent colour when there is one and is hidden otherwise |
| `Properties.Rows` | src/ui/properties_panel.py:539-547 | one row per layer of the page, topmost first |
| `Properties.ListRows` | src/ui/properties_panel.py:541-547 | the loop over the reversed layers builds `Rows` |
| `Properties.PropertiesPanel.constructor` | src/ui/properties_panel.py:265-276 | the panel starts on page 0 with an empty list |
| `Properties.PropertiesPanel.RefreshLayers` | src/ui/properties_panel.py:534-547 | without a layer manager the list is empty; otherwise it shows the current page's rows |
| `Properties.PropertiesPanel.SetCurrentPage` | src/ui/properties_panel.py:549-552 | the page is set and the list shows its rows |
| `Properties.PropertiesPanel.LayerItemChanged` | src/ui/properties_panel.py:554-571 | an unknown layer changes nothing; otherwise visibility follows the check box and a non-blank different name is taken, each reported exactly when it changed |
| `Properties.Edited` | src/ui/properties_panel.py:562-571 | only visibility and, for a non-blank different name, the name change |
| `Properties.RenamedPlainShowsText` | src/ui/properties_panel.py:567-571 | a renamed plain layer shows the new name |
| `Properties.CopyEntriesGet` | src/ui/properties_panel.py:656-658 | copying data entries writes every key not skipped and keeps every other key |
| `Properties.CopyBase` | src/ui/properties_panel.py:646-691 | the constructor call builds a fresh layer of the original's shape on its page; it fails only with TypeError or AttributeError |
| `Properties.CopiedDataGet` | src/ui/properties_panel.py:655-697 | the copy's position is the offset position and every other entry not skipped is the original's |
| `Properties.LayerCopy` | src/ui/properties_panel.py:636-714 | only copying an interactive layer can fail, with TypeError or AttributeError |
| `Properties.MovedCopy` | src/ui/properties_panel.py:645-697 | an interactive copy is a fresh layer of the same shape on the same page |
| `Properties.MovedCopyData` | src/ui/properties_panel.py:645-697 | a successful interactive copy's data is the base data overwritten by the original's entries and the offset position |
| `Properties.CopyKeepsState` | src/ui/properties_panel.py:701-712 | the copy has a fresh id, the original's page, visibility, lock, opacity, kind and rotation, and is not selected |
| `Properties.PlainCopy` | src/ui/properties_panel.py:699-702 | a plain layer always copies, with " (copy)" appended to the name and the same data |
| `Properties.InteractiveCopyData` | src/ui/properties_panel.py:645-697 | an interactive copy stands 20 units right of and below the original and keeps every data entry its constructor does not set |
| `Properties.SliderOpacity` | src/ui/properties_panel.py:507-511 | the slider value over 100 |
| `Properties.OpacitySlider` | src/ui/properties_panel.py:530-532 | `int(opacity * 100)` truncates toward zero |
| `Properties.SliderRoundTrip` | src/ui/properties_panel.py:507-532 | in exact arithmetic the slider position comes back from the opacity it emits |
| `Properties.NoFillChanged` | src/ui/properties_panel.py:513-520 | checking "no fill" disables the button and emits the empty colour; unchecking enables it and emits the button's colour |
| `Properties.NoFillUndone` | src/ui/properties_panel.py:513-520 | ticking "no fill" and clearing it again signals no fill and then the colour the button held, with the button usable again |
| `Merge.RFind` | src/ui/merge_dialog.py:23 | the last position of the character, or -1 when it does not occur |
| `Merge.Extension` | src/ui/merge_dialog.py:23 | `os.path.splitext` gives either nothing or a dot-led suffix of the path with no slash and no further dot |
| `Merge.ExtensionOfName` | src/ui/merge_dialog.py:21-30 | a file name `stem.ext` has the extension `.ext` |
| `Merge.ClassifiedByExtension` | src/ui/merge_dialog.py:21-30 | a file is a PDF or an image exactly when its lower-cased extension is in the corresponding list |
| `Merge.HiddenFileHasNoExtension` | src/ui/merge_dialog.py:21-30 | a dot file such as `.pdf` has no extension and is neither a PDF nor an image |
| `Merge.TruncateNameFits` | src/ui/merge_dialog.py:85-89 | a name within the limit is kept; a longer one is cut to exactly the limit and ends in "..." |
| `Merge.SelectionSplits` | src/ui/merge_dialog.py:299-318 | the selected and unselected cards together are exactly the cards |
| `Merge.Paths` | src/ui/merge_dialog.py:320-322 | the file paths of the cards, in order |
| `Merge.Clicked` | src/ui/merge_dialog.py:324-339 | Ctrl toggles the card, Shift adds it, a plain click selects it alone; paths are unchanged |
| `Merge.PlainClickSelectsOne` | src/ui/merge_dialog.py:335-337 | after a plain click exactly the clicked card is selected |
| `Merge.Columns` | src/ui/merge_dialog.py:351 | the grid has at least one column |
| `Merge.CellsDistinct` | src/ui/merge_dialog.py:358-361 | each card gets its own cell, in row-major order |
| `Merge.DropIndex` | src/ui/merge_dialog.py:410-425 | the drop index is at most the card count |
| `Merge.DropOnCell` | src/ui/merge_dialog.py:410-425 | dropping anywhere inside a card's cell gives that card's index |
| `Merge.IndexOfPath` | src/ui/merge_dialog.py:384-390 | the first card with the path, or none exactly when no card has it |
| `Merge.FindCard` | src/ui/merge_dialog.py:384-390 | the search loop finds `IndexOfPath` |
| `Merge.MoveCardOrder` | src/ui/merge_dialog.py:401-404 | the card lands at the target, one less when it came from before it, and the other cards keep their order |
| `Merge.MoveCardPermutes` | src/ui/merge_dialog.py:401-404 | moving a card loses and duplicates nothing |
| `Merge.DropAfterSelfIsNoop` | src/ui/merge_dialog.py:401-404 | dropping a card just after itself changes nothing |
| `Merge.Dropped` | src/ui/merge_dialog.py:378-408 | a drop only reorders the cards |
| `Merge.KeepUnselected` | src/ui/merge_dialog.py:299-305 | the removal loop leaves exactly the unselected cards in order |
| `Merge.MergeGrid.constructor` | src/ui/merge_dialog.py:212-218 | a new grid has no cards |
| `Merge.MergeGrid.AddCard` | src/ui/merge_dialog.py:290-297 | the card is appended |
| `Merge.MergeGrid.RemoveSelected` | src/ui/merge_dialog.py:299-306 | only unselected cards remain |
| `Merge.MergeGrid.ClearAll` | src/ui/merge_dialog.py:308-314 | no cards remain |
| `Merge.MergeGrid.CardClicked` | src/ui/merge_dialog.py:324-339 | the cards become `Clicked` of the old cards |
| `Merge.MergeGrid.RefreshGrid` | src/ui/merge_dialog.py:341-361 | card `k` is placed in cell `Cell(k, cols)` |
| `Merge.MergeGrid.DropEvent` | src/ui/merge_dialog.py:378-408 | the cards become `Dropped`, and a move is reported exactly when the text names a card and the index differs from its own |
| `Merge.StatusFor` | src/ui/merge_dialog.py:784-799 | merging is enabled from two files on, clearing from one |
| `Merge.StartMerge` | src/ui/merge_dialog.py:801-821 | fewer than two files refuse; an empty choice cancels; otherwise the output ends in ".pdf" and starts with the chosen name |
| `Merge.MergeKinds` | src/ui/merge_dialog.py:829 | a file is merged as an image exactly when it was recorded as one, and as a PDF otherwise |
| `Merge.NewPathsMembers` | src/ui/merge_dialog.py:706-717 | a chosen path is added exactly when it is not already in the grid and exists |
| `Merge.NewPathsDistinct` | src/ui/merge_dialog.py:706-717 | distinct choices add distinct paths |
| `Merge.CardsFor` | src/ui/merge_dialog.py:727-728 | one unselected card per path, in order |
| `Merge.MergeDialog.constructor` | src/ui/merge_dialog.py:431-443 | a new dialog has no files, no thumbnails and merging disabled |
| `Merge.MergeDialog.UpdateStatus` | src/ui/merge_dialog.py:784-799 | the status follows the card count and nothing else changes |
| `Merge.MergeDialog.OnSelectionChanged` | src/ui/merge_dialog.py:778-782 | removal is enabled exactly when a card is selected |
| `Merge.MergeDialog.AddFiles` | src/ui/merge_dialog.py:696-728 | each new existing path gets a card, a thumbnail and a file type by extension, in order |
| `Merge.MergeDialog.RemoveSelected` | src/ui/merge_dialog.py:759-769 | the selected cards go together with their thumbnails and file types |
| `Merge.MergeDialog.ClearAll` | src/ui/merge_dialog.py:771-776 | cards, thumbnails and file types are all cleared |
| `Merge.MergeDialog.ClickCard` | src/ui/merge_dialog.py:324-339 | the click updates the selection and the remove button follows it (also src/ui/merge_dialog.py:778-782) |
| `Merge.MergeDialog.Drop` | src/ui/merge_dialog.py:378-408 | the grid is reordered by the drop |
| `Crop.Normalized` | src/ui/image_dialog.py:250 | a normalized crop rectangle never has a negative width or height, and a valid one is left as it is |
| `Crop.RectAt` | src/ui/image_dialog.py:64-70 | a rectangle built from a corner and a size has exactly that corner, width and height |
| `Crop.FullRect` | src/ui/image_dialog.py:70 | the initial crop covers the whole image: its width and height are the image's |
| `Crop.ToImage` | src/ui/image_dialog.py:89-95 | with no display pixmap (scale 0) the image point is the origin |
| `Crop.TruncMonotone` | src/ui/image_dialog.py:93-94 | Python's `int()` on a float is monotone |
| `Crop.ToImageMonotone` | src/ui/image_dialog.py:89-95 | mapping display points to image points keeps their order on both axes |
| `Crop.DisplayRoundTrip` | src/ui/image_dialog.py:89-101 | with a whole-number scale, mapping an image point to the display and back gives the same point |
| `Crop.DisplayCrop` | src/ui/image_dialog.py:103-109 | a null crop shows as the null rectangle on the display |
| `Crop.HandleBoxHit` | src/ui/image_dialog.py:118-128 | a point lies in the 8-pixel box around a handle exactly when it is within half a handle of its centre on both axes |
| `Crop.FirstHit` | src/ui/image_dialog.py:111-140 | the handle found is one of those tried and its box holds the point; none is found exactly when no tried handle's box holds it |
| `Crop.HandleAtChain` | src/ui/image_dialog.py:111-146 | the handle under the cursor is tried in the order top-left, top-right, bottom-left, bottom-right, top, bottom, left, right; otherwise the crop interior means move, and outside there is no handle |
| `Crop.AdjustAspectAnchored` | src/ui/image_dialog.py:265-300 | keeping the aspect ratio while dragging a corner leaves the opposite corner where it was |
| `Crop.AdjustAspectSpan` | src/ui/image_dialog.py:265-300 | the side that changed more is kept and the other side is recomputed from the original aspect ratio |
| `Crop.ShiftInsideKeepsSize` | src/ui/image_dialog.py:186-196 | a moved crop that fits in the image is shifted back inside without changing its size, and one already inside is left alone |
| `Crop.AcceptedInside` | src/ui/image_dialog.py:250-258 | a dragged rectangle that is accepted (at least 10 pixels each way after clamping) lies inside the image |
| `Crop.ClampedKeepsInside` | src/ui/image_dialog.py:250-254 | clamping leaves a rectangle that is already inside the image unchanged |
| `Crop.MoveDragKeepsSize` | src/ui/image_dialog.py:172-258 | moving the crop keeps its size and keeps it inside the image, so a crop of acceptable size stays acceptable |
| `Crop.CornerDragFree` | src/ui/image_dialog.py:172-258 | without the aspect lock, dragging the bottom-right corner to a point inside the image moves just that corner by the drag |
| `Crop.CropPreview.constructor` | src/ui/image_dialog.py:20-46 | a new preview has no image, a null crop, no drag under way and the aspect lock off |
| `Crop.CropPreview.SetImage` | src/ui/image_dialog.py:48-80 | a real image resets the crop to the full image and sets the scale, centring offset and aspect ratio; no image or a null one clears the crop and resets the ratio to 1; drag state is untouched |
| `Crop.CropPreview.SetLockAspectRatio` | src/ui/image_dialog.py:81-83 | sets the aspect lock and changes nothing else (also src/ui/image_dialog.py:582-586) |
| `Crop.CropPreview.MousePress` | src/ui/image_dialog.py:163-170 | a left press on a handle of a shown image starts a drag with that handle, remembering the cursor and the crop; any other press changes nothing |
| `Crop.CropPreview.MouseMove` | src/ui/image_dialog.py:172-264 | during a drag the crop becomes the dragged, normalized and clamped rectangle when it is at least 10 pixels each way, and stays as it was otherwise; drag state is untouched |
| `Crop.CropPreview.MouseRelease` | src/ui/image_dialog.py:302-305 | a left release ends the drag and forgets the handle; the crop is kept |
| `Crop.HandleUnderShown` | src/ui/image_dialog.py:111-146 | with an image shown, the handle under the cursor is found on the crop as mapped to the display |
| `Crop.ValuesFor` | src/ui/image_dialog.py:631-647 | the dialog returns a cropped copy exactly when a real image is selected and the crop is a proper rectangle other than the full image; otherwise the selected pixmap itself; the path and scale mode are passed through |
| `Crop.CroppedIsSmaller` | src/ui/image_dialog.py:631-647 | for a crop inside the image, a copy is made exactly when the crop is narrower or shorter than the image |
| `Crop.FullCropReturnsImage` | src/ui/image_dialog.py:631-647 | an untouched full-image crop returns the selected image unchanged |
| `Crop.ImageDialog.constructor` | src/ui/image_dialog.py:393-408 | the initial path is kept, its image is loaded only when a non-empty path is given, the scale mode defaults to fit, and a loaded image is shown with a full crop (also src/ui/image_dialog.py:552-555) |
| `Crop.ImageDialog.SelectImage` | src/ui/image_dialog.py:557-575 | a chosen file that loads replaces the image and path and resets the crop to the full image; a cancelled choice or a failed load changes nothing |
| `Crop.ImageDialog.ResetCrop` | src/ui/image_dialog.py:577-580 | with an image selected the crop goes back to the full image; without one nothing changes |
| `Crop.ImageDialog.ScaleModeChanged` | src/ui/image_dialog.py:613-615 | records the chosen scale mode and keeps the image and path |
| `Crop.ImageDialog.Accept` | src/ui/image_dialog.py:649-655 | the dialog is accepted exactly when a real image is selected |
| `Symbols.Names` | src/ui/symbol_dialog.py:107-108 | the category names in table order, one per category |
| `Symbols.CategoryListOrder` | src/ui/symbol_dialog.py:97-108 | the category box lists "All" first, then "Recent" only when there are recent symbols, then every category in table order |
| `Symbols.Dedup` | src/ui/symbol_dialog.py:202-210 | removing duplicates never lengthens the list |
| `Symbols.DedupMembers` | src/ui/symbol_dialog.py:202-210 | removing duplicates keeps exactly the symbols of the input |
| `Symbols.DedupDistinct` | src/ui/symbol_dialog.py:202-210 | after removing duplicates no symbol appears twice |
| `Symbols.DedupFirstOrder` | src/ui/symbol_dialog.py:202-210 | the kept symbols appear in the order of their first occurrence |
| `Symbols.DedupOfDistinct` | src/ui/symbol_dialog.py:202-210 | a list without duplicates is left as it is |
| `Symbols.CollectAll` | src/ui/symbol_dialog.py:202-210 | the "All" loop with its seen-set yields every category's symbols once each, first occurrence first |
| `Symbols.AddUnseen` | src/ui/symbol_dialog.py:206-210 | appending one category's unseen symbols extends the de-duplicated list of everything so far, and the seen-set stays the set of listed symbols |
| `Symbols.Lookup` | src/ui/symbol_dialog.py:213-214 | an unknown category has no symbols |
| `Symbols.AllShowsEverySymbolOnce` | src/ui/symbol_dialog.py:193-214 | the "All" category shows every symbol of every category, and each only once |
| `Symbols.Placed` | src/ui/symbol_dialog.py:216-232 | one button per symbol |
| `Symbols.PlaceSymbols` | src/ui/symbol_dialog.py:216-232 | the button loop places symbols in reading order on a grid ten columns wide |
| `Symbols.PlacedCells` | src/ui/symbol_dialog.py:216-232 | no two buttons share a cell, every column is below ten, and each button follows the previous one in its row or starts the next row at column 0 |
| `Symbols.RecentSymbolFirst` | src/ui/symbol_dialog.py:271-280 | saving a symbol puts it first, drops its earlier occurrence, keeps the rest in order and keeps at most 30; a duplicate-free list stays duplicate-free |
| `Symbols.SpinValue` | src/ui/symbol_dialog.py:146-148 | the size box holds a value between 8 and 200, and a value already in that range is kept |
| `Symbols.SymbolDialog.constructor` | src/ui/symbol_dialog.py:74-110 | keeps the initial symbol and colour, clamps the size to the spin box range, loads the stored recent symbols, disables OK and shows the "All" category (also src/ui/symbol_dialog.py:186-187) |
| `Symbols.SymbolDialog.CategoryChanged` | src/ui/symbol_dialog.py:193-232 | the grid is rebuilt with the chosen category's symbols; nothing else changes |
| `Symbols.SymbolDialog.SelectSymbol` | src/ui/symbol_dialog.py:234-238 | records the clicked symbol and enables OK |
| `Symbols.SymbolDialog.SizeChanged` | src/ui/symbol_dialog.py:146-150 | the size becomes the value the spin box accepts |
| `Symbols.SymbolDialog.ChooseColor` | src/ui/symbol_dialog.py:248-254 | a chosen colour replaces the current one; a cancelled dialog keeps it |
| `Symbols.SymbolDialog.Accept` | src/ui/symbol_dialog.py:292-296 | accepting with a symbol selected moves it to the front of the recent list; the choices are kept |
| `Symbols.SymbolDialog.GetValues` | src/ui/symbol_dialog.py:298-304 | returns the selected symbol, the spin box size and the colour |
| `Settings.SetPath` | src/utils/settings.py:82-92 | a write either fails with a TypeError or leaves the first key of the path present |
| `Settings.Within` | src/utils/settings.py:87-92 | storing a lower level back succeeds exactly when the write below succeeded |
| `Settings.SetThenLookup` | src/utils/settings.py:69-92 | after a successful `set`, `get` of the same dotted key returns the value written |
| `Settings.SetLeavesOthers` | src/utils/settings.py:69-92 | a `set` leaves the value under every path that parts ways with the written one unchanged |
| `Settings.SetFailsOnlyWhenBlocked` | src/utils/settings.py:87-92 | a `set` fails only when a level above the last key holds something other than a dictionary |
| `Settings.SetSucceedsUnlessBlocked` | src/utils/settings.py:87-92 | a `set` succeeds whenever no level above the last key holds a non-dictionary, creating the missing levels |
| `Settings.CreatedLevelsAccept` | src/utils/settings.py:87-92 | writing any path into an empty tree succeeds, all levels being created |
| `Settings.RecentList` | src/utils/settings.py:104-106 | with no `recent_files` entry the list is empty; otherwise it is the stored list |
| `Settings.OneLevel` | src/utils/settings.py:69-92 | an undotted key reads and writes the top-level entry directly |
| `Settings.SplitPlain` | src/utils/settings.py:71-84 | a key without a dot is a path of one key |
| `Settings.Store.constructor` | src/utils/settings.py:13-33 | the settings are the loaded tree, or the defaults when there is none or it cannot be read |
| `Settings.Store.Get` | src/utils/settings.py:69-80 | the loop returns the value at the dotted path, or the default as soon as a level is missing or not a dictionary |
| `Settings.Store.Set` | src/utils/settings.py:82-93 | succeeds exactly when the path can be written, and the settings become the tree with the value written; a failed write leaves them as they were |
| `Settings.Store.GetAll` | src/utils/settings.py:95-97 | returns the whole settings tree |
| `Settings.Store.ResetToDefaults` | src/utils/settings.py:99-102 | the settings become the defaults |
| `Settings.Store.AddRecentFile` | src/utils/settings.py:104-118 | the file moves to the front of the recent list, its earlier entry removed, keeping at most 10, and the list is stored back; a recent-files entry that is not a list is an error and changes nothing |
| `Settings.Store.GetRecentFiles` | src/utils/settings.py:120-122 | returns the stored recent list, or an empty list when there is none |
| `Settings.Descend` | src/utils/settings.py:84-90 | walking down all but the last key, creating missing levels, succeeds exactly when the write can succeed, and the levels passed rebuild the written tree |
| `Settings.Rebuild` | src/utils/settings.py:87-92 | storing each changed level back into its parent gives the nested tree |
| `Settings.WrapStep` | src/utils/settings.py:87-92 | descending one more level is the same as wrapping one more parent around the result |
| `Settings.RecentFileFirst` | src/utils/settings.py:104-118 | the added file is first, at most 10 files are kept, the others keep their order without the earlier entry, and a duplicate-free list stays duplicate-free |
| `Settings.DefaultValues` | src/utils/settings.py:43-67 | the defaults give black, width 2, opacity 1.0, zoom from 0.1 to 5.0 and no recent files |
| `Export.BaseFont` | src/utils/export.py:110-119 | a font name always maps to one of the three built-in PDF fonts |
| `Export.PdfFontTable` | src/utils/export.py:110-127 | Arial and Helvetica map to `helv`, the Times names to `times`, the Courier names to `cour`, anything else to `helv`; bold and italic append `b` or `i` |
| `Export.PdfFontInjective` | src/utils/export.py:110-127 | two text layers get the same PDF font exactly when their fonts map to the same base font and their bold and italic flags agree |
| `Export.LStripChar` | src/utils/export.py:526 | `lstrip('#')` returns a suffix of the string that does not start with `#` |
| `Export.Slice` | src/utils/export.py:527 | a Python slice is never longer than the range asked for |
| `Export.ParseHexPiece` | src/utils/export.py:527 | `int(piece, 16)` fails only with a ValueError |
| `Export.HexToRgb` | src/utils/export.py:524-527 | converting a colour fails only with a ValueError |
| `Export.OverMax` | src/utils/export.py:527 | a byte divided by 255 lies between 0 and 1 |
| `Export.RgbOfDigits` | src/utils/export.py:527 | reading the three channel pairs fails only with a ValueError |
| `Export.PairValue` | src/utils/export.py:527 | two hexadecimal digits give a value below 256 |
| `Export.HexPairValue` | src/utils/export.py:527 | `int` in base 16 reads two hexadecimal digits as their value |
| `Export.HexToRgbOfPairs` | src/utils/export.py:524-527 | a colour whose digits after the `#` are six hexadecimal digits converts to its three pairs, each divided by 255 |
| `Export.HexToRgbOfDigits` | src/utils/export.py:524-527 | six hexadecimal digits convert with or without the leading `#`, and every channel lies between 0 and 1 |
| `Export.HexToRgbOfBytes` | src/utils/export.py:524-527 | the colour written as `#rrggbb` from three bytes converts back to those bytes divided by 255 |
| `Export.ShortHexFails` | src/utils/export.py:524-527 | a colour with fewer than five digits after the `#` raises a ValueError |
| `Export.PointsOf` | src/utils/export.py:302-312 | the points are read exactly when every entry is a pair of numbers, one point per entry in order |
| `Export.DrawnPoints` | src/utils/export.py:288-296 | a drawing is drawn only when it has at least two points |
| `Export.DrawingSegments` | src/utils/export.py:285-319 | a drawing is written as one line from each point to the next, and as nothing when it has too few points or a bad colour or point |
| `Export.StrokeSegments` | src/utils/export.py:301-312 | the stroke loop draws the segments between consecutive points exactly when every point reads as a pair of numbers |
| `Export.SegmentsJoinUp` | src/utils/export.py:301-312 | the segments start at the first point, end at the last, and each starts where the previous one ended |
| `Export.ShapeBox` | src/utils/export.py:321-345 | a rectangle or ellipse is drawn only after its colours convert |
| `Export.ShapeEnds` | src/utils/export.py:321-360 | a line or arrow is drawn only after its colours convert |
| `Export.RendererFor` | src/utils/export.py:44-68 | text, image and symbol layers go to their own writers, plain drawing and shape layers to the drawing and shape writers, and any other layer is not written |
| `Export.PagePlacements` | src/utils/export.py:40-68 | the layers written for a page are at most the page's layers, all on that page |
| `Export.PageOf` | src/utils/export.py:40-68 | every layer written for a page is placed on that page |
| `Export.SaveWithLayers` | src/utils/export.py:24-85 | without a document nothing is saved; otherwise every page is visited in order and its visible layers are written in z order |
| `Export.PlacementsNext` | src/utils/export.py:40-68 | the writes for one more page are those so far followed by that page's |
| `Export.PlacePage` | src/utils/export.py:42-68 | the inner loop writes a page's layers in the order given, skipping hidden layers and layers no writer handles |
| `Export.PageLayersMembers` | src/utils/export.py:42 | the layers of a page are exactly the layers whose page number is that page |
| `Export.PageMembers` | src/utils/export.py:40-68 | a layer is written on a page exactly when it belongs to that page, is visible, and a writer handles it |
| `Export.PagePlacementsMembers` | src/utils/export.py:44-68 | a layer of the list is written exactly when it is visible and a writer handles it |
| `Export.PlacementsMembers` | src/utils/export.py:40-68 | over the whole document a layer is written exactly when its page exists, it is visible, and a writer handles it, on its own page and by its own writer |
| `Export.PagePlacementsInZOrder` | src/utils/export.py:42-68 | layers sorted by z are written in z order, so a later write lies above an earlier one |
| `Export.Frame` | src/utils/export.py:540 | the keywords entry starts with `PDFEDITOR_LAYERS:` |
| `Export.Unframe` | src/utils/export.py:568-573 | a payload is read only from a string entry that starts with the prefix |
| `Export.FrameRoundTrip` | src/utils/export.py:540-573 | reading back a framed payload gives the payload |
| `Export.UnframeExact` | src/utils/export.py:540-573 | an entry yields a payload exactly when it is that payload framed |
| `Export.ReadyItems` | src/utils/export.py:536-558 | a serialised list keeps its length |
| `Export.ReadyEntries` | src/utils/export.py:536-558 | a serialised dictionary keeps its number of entries |
| `Export.Unbase64` | src/utils/export.py:594 | a pixmap field decodes exactly when it is a string of valid base64 |
| `Export.RestoreItems` | src/utils/export.py:602-606 | restoring a list keeps its length |
| `Export.RestoreEntries` | src/utils/export.py:596-600 | restoring a dictionary keeps its number of entries |
| `Export.RestoreRoot` | src/utils/export.py:578-608 | the top-level call either restores the data in place or, when the root itself is an encoded pixmap, leaves it as it was |
| `Export.ReadyFailsOnBytes` | src/utils/export.py:536-558 | serialising fails exactly when the data holds raw bytes and the hook only handles pixmaps |
| `Export.ReadyIsPlain` | src/utils/export.py:536-558 | serialised data holds no pixmaps or bytes, and a dictionary keeps its keys |
| `Export.RestoreReady` | src/utils/export.py:547-558 | restoring serialised data gives back the data, given base64 decoding inverts encoding (also src/utils/export.py:586-608) |
| `Export.MetadataRoundTrip` | src/utils/export.py:529-583 | layer data saved into the metadata loads back unchanged, given JSON and base64 round-trip |
| `Export.ImageLayerHasBytes` | src/core/layer.py:248 | the layer manager's dictionary holds raw bytes as soon as one layer holds an image (also src/utils/export.py:533) |
| `Export.ImageLayerLosesMetadata` | src/core/layer.py:248 | as written, once one layer holds an image the layer metadata is left out of the saved document (also src/utils/export.py:544, src/utils/export.py:558) |
| `Export.LayersSurviveMetadata` | src/utils/export.py:529-608 | with a hook that also encodes bytes, the layer manager saved into the metadata loads back as the same layers and next z index (also src/core/layer.py:248) |
| `Translation.SupportedLanguages` | src/core/translation_service.py:14-46 | the table of 30 language codes; a known code is shown by its name in the prompt and an unknown code by itself (also src/core/translation_service.py:345, src/core/translation_service.py:411-414) |
| `Translation.LetterCount` | src/core/translation_service.py:249-250 | the number of letters in a text is at most its length |
| `Translation.LetterCountPositive` | src/core/translation_service.py:245-250 | a text has letters exactly when one of its characters is a letter |
| `Translation.ShouldSkipIffFewLetters` | src/core/translation_service.py:220-254 | text is left untranslated exactly when its stripped form has fewer than two letters; the earlier empty, short, digit-only and letterless tests are all covered by that |
| `Translation.PrintableCount` | src/core/translation_service.py:289 | the number of printable characters is at most the length |
| `Translation.StripTrimmed` | src/core/translation_service.py:270-309 | stripping leaves no surrounding space and stripping again changes nothing |
| `Translation.ValidIgnoresSurroundingSpace` | src/core/translation_service.py:256-293 | whether a translation is accepted does not depend on surrounding whitespace |
| `Translation.KeptAnswerBounded` | src/core/translation_service.py:256-293 | an accepted translation is non-empty once stripped and at most four times as long as a non-empty original |
| `Translation.RepeatedCharRejected` | src/core/translation_service.py:276-279 | an answer made of one repeated non-space character is rejected |
| `Translation.UnquotedShape` | src/core/translation_service.py:311-314 | removing wrapping quotes leaves a stripped piece of the text |
| `Translation.LabelCutShape` | src/core/translation_service.py:317-322 | cutting one label leaves a stripped piece of the text |
| `Translation.WithoutLabelsShape` | src/core/translation_service.py:316-322 | cutting the labels in turn leaves a stripped piece of the text |
| `Translation.CleanOutputShape` | src/core/translation_service.py:295-324 | the cleaned answer is a contiguous piece of the raw answer with no surrounding whitespace |
| `Translation.Translate` | src/core/translation_service.py:326-373 | without a loaded model a RuntimeError; text with too few letters comes back unchanged; a changed result is the cleaned model answer to the prompt, and an accepted one; every other outcome returns the original text |
| `Translation.TranslationFromAnswer` | src/core/translation_service.py:326-373 | a changed result is a stripped, non-empty piece of the model's raw answer, at most four times as long as the text |
| `Translation.TranslateBlock` | src/core/translation_service.py:397-401 | a block keeps its keys; a block without text or with blank text is copied as it is; a non-string text or an unloaded model with real text is an error; otherwise the text is replaced by its translation |
| `Translation.TranslatedBlocksPointwise` | src/core/translation_service.py:375-403 | the blocks come back one for one, each the translation of the block at the same position |
| `Translation.LoadedBlocksSucceed` | src/core/translation_service.py:375-403 | with the model loaded, blocks whose texts are strings always translate |
| `Translation.FailureSticks` | src/core/translation_service.py:375-403 | once a block raises, the whole call raises with that error |
| `Translation.TranslationService.constructor` | src/core/translation_service.py:52-58 | a new service has no model, is not loading, has no load error and no document context |
| `Translation.TranslationService.LoadModel` | src/core/translation_service.py:119-183 | a loaded model returns True at once; a load under way returns False; otherwise the outcome decides: loaded, or not loaded with the download, missing-library or load-failure message |
| `Translation.TranslationService.UnloadModel` | src/core/translation_service.py:405-409 | after unloading no translation can succeed: every one raises a RuntimeError |
| `Translation.TranslationService.SetDocumentContext` | src/core/translation_service.py:203-210 | sets the context and leaves the model state alone |
| `Translation.TranslationService.ClearDocumentContext` | src/core/translation_service.py:216-218 | clears the context and leaves the model state alone |
| `Translation.TranslationService.TranslateTextBlocks` | src/core/translation_service.py:375-403 | the loop produces exactly the block-by-block translation, or its first error |
| `Translation.ContextLifecycle` | src/core/translation_service.py:203-218 | a fresh service has no context, has the one set after setting it, and none after clearing it |
| `TranslationDialog.Normalized` | src/ui/translation_dialog.py:74 | the normalised font name is no longer than the name and holds no upper-case letter, dash, underscore or space |
| `TranslationDialog.NormalizedIdempotent` | src/ui/translation_dialog.py:74 | normalising twice is normalising once |
| `TranslationDialog.NormalFixed` | src/ui/translation_dialog.py:74 | a name already in normal form is left as it is |
| `TranslationDialog.FirstFragment` | src/ui/translation_dialog.py:84-87 | the search stops at the first table entry whose key occurs in the name, having passed only keys that do not |
| `TranslationDialog.BaseFont` | src/ui/translation_dialog.py:42-55 | the family is that of the first matching key in table order, `helv` when none matches, and always one of the five base families (also src/ui/translation_dialog.py:83-87) |
| `TranslationDialog.BoldItalicHelveticaLosesItalic` | src/ui/translation_dialog.py:90-94 | as written, bold italic Helvetica gets the same upright bold face `hebo` as bold Helvetica (also src/ui/translation_dialog.py:318-321) |
| `TranslationDialog.MappedFontDecodes` | src/ui/translation_dialog.py:89-118 | with `hebi` for bold italic Helvetica, the face of a styled family gives back the family, the weight and the slant |
| `TranslationDialog.DetectStyleBySpelling` | src/ui/translation_dialog.py:65-129 | names that differ only in case and separators get the same style, and the face is the family table applied to the detected weight and slant (corrected mapping, with `hebi` for bold italic Helvetica) |
| `TranslationDialog.FontStyleMapper.constructor` | src/ui/translation_dialog.py:61-63 | a new mapper remembers no styles |
| `TranslationDialog.FontStyleMapper.DetectFontStyle` | src/ui/translation_dialog.py:65-129 | the result is the name's own style whether it was remembered or detected now, and it is remembered from now on (corrected mapping, with `hebi` for bold italic Helvetica) |
| `TranslationDialog.FontStyleMapper.GetPyMuPdfFont` | src/ui/translation_dialog.py:131-134 | the face for the name's normalised family, weight and slant (corrected mapping, with `hebi` for bold italic Helvetica) |
| `TranslationDialog.EncodeFlags` | src/ui/translation_dialog.py:155-162 | the style bits fit in the five low bits of the flags word |
| `TranslationDialog.DecodeEncode` | src/ui/translation_dialog.py:155-162 | reading the flags word built from a set of style bits gives back exactly those bits |
| `TranslationDialog.DecodeLowBits` | src/ui/translation_dialog.py:155-162 | only the five low bits of the flags matter |
| `TranslationDialog.SpanFlags` | src/ui/translation_dialog.py:145-162 | reading the style bits fails only with a TypeError, for flags that are not an integer |
| `TranslationDialog.ColorRoundTrip` | src/ui/translation_dialog.py:164-171 | a packed 0xRRGGBB colour unpacks to its three bytes, each over 255 |
| `TranslationDialog.ColorInUnitCube` | src/ui/translation_dialog.py:164-171 | every channel of a span colour lies between 0 and 1 |
| `TranslationDialog.ClassifyMonotone` | src/ui/translation_dialog.py:173-187 | on one page a larger span never gets a smaller section class, and without a positive average every span is body text |
| `TranslationDialog.ReplacementFontIsTable` | src/ui/translation_dialog.py:306-345 | the face a translated span is written in is the family table applied to the weight and slant of its flags or its font name (corrected mapping, with `hebi` for bold italic Helvetica) |
| `TranslationDialog.AdjustedSize` | src/ui/translation_dialog.py:368-377 | the shrink rule fails only by division by zero |
| `TranslationDialog.AdjustedSizeFits` | src/ui/translation_dialog.py:267-271 | with a positive size and a box of non-negative width the size never grows, never drops below 0.6 of the original, and the estimated width fits the box within 10% unless the 0.6 floor stopped the shrinking (also src/ui/translation_dialog.py:368-377) |
| `AIChat.PartsMeaning` | src/ui/ai_chat_widget.py:273-279 | the context holds one `[Page n]` entry for each page of the range whose text is not blank, and nothing else |
| `AIChat.PartsMember` | src/ui/ai_chat_widget.py:273-279 | an entry is in the context exactly when it is the entry of a non-blank page of the range |
| `AIChat.Truncated` | src/ui/ai_chat_widget.py:281-285 | a context of at most 4000 characters is kept whole; a longer one keeps its first 4000 characters followed by the truncation mark |
| `AIChat.TruncatedIdempotent` | src/ui/ai_chat_widget.py:281-285 | the context is never longer than 4000 characters plus the mark, and truncating again changes nothing |
| `AIChat.JoinEmpty` | src/ui/ai_chat_widget.py:282 | joining with a non-empty separator gives the empty string exactly when there are no parts or a single empty one |
| `AIChat.ContextEmptyIff` | src/ui/ai_chat_widget.py:258-287 | the context is empty exactly when there is no document or every page of the chosen range is blank; a range whose start lies after its end gives no context |
| `AIChat.CutAtShape` | src/ui/ai_chat_widget.py:102-105 | cutting at a marker leaves a piece of the answer without the marker, stripped when the answer was |
| `AIChat.CleanAnswerShape` | src/ui/ai_chat_widget.py:99-105 | the cleaned answer is a stripped piece of the raw answer that holds neither "[End" nor "[end" |
| `AIChat.ChatThreadRun` | src/ui/ai_chat_widget.py:76-110 | the thread reports an error exactly when the model call raises, with the model's message |
| `AIChat.ChatResponseShape` | src/ui/ai_chat_widget.py:76-110 | an answer the thread reports is the cleaned model answer: a stripped piece of it without an end marker |
| `AIChat.Sent` | src/ui/ai_chat_widget.py:317-357 | a question goes to the model exactly when it is not blank, a document is open, the model is ready and the range has text, and then with that context; the input is cleared exactly when the question is not blank and a document is open; a blank question says nothing |
| `AIChat.Clamp` | src/ui/ai_chat_widget.py:151-165 | a spin box value stays between its minimum and maximum, and a value in range is kept (also src/ui/ai_chat_widget.py:249-255) |
| `AIChat.AIChatWidget.constructor` | src/ui/ai_chat_widget.py:116-175 | a new panel has no document, all pages chosen, both spin boxes at 1 and disabled, nothing typed and nothing said |
| `AIChat.AIChatWidget.UpdateRangeState` | src/ui/ai_chat_widget.py:238-242 | the spin boxes are enabled exactly when a page range is chosen |
| `AIChat.AIChatWidget.ChooseAllPages` | src/ui/ai_chat_widget.py:238-242 | choosing all pages or a range sets the choice and enables the spin boxes only for a range |
| `AIChat.AIChatWidget.SetDocument` | src/ui/ai_chat_widget.py:244-256 | a document with pages sets both maxima to its page count, clamps the start and moves the end to the last page; no document brings both back to 1 |
| `AIChat.AIChatWidget.SetFromPage` | src/ui/ai_chat_widget.py:151-156 | the start page becomes the typed value clamped to the page range |
| `AIChat.AIChatWidget.SetToPage` | src/ui/ai_chat_widget.py:160-165 | the end page becomes the typed value clamped to the page range |
| `AIChat.AIChatWidget.SetInput` | src/ui/ai_chat_widget.py:317-319 | records what is typed and changes nothing else |
| `AIChat.AIChatWidget.GetPdfContext` | src/ui/ai_chat_widget.py:258-287 | the loop builds exactly the context of the chosen range |
| `AIChat.AIChatWidget.SendMessage` | src/ui/ai_chat_widget.py:317-357 | sending follows the guards: the request, the cleared input, the messages added and the busy state are those of the stripped question, the document, the model state and the context |
| `AIChat.AIChatWidget.OnResponse` | src/ui/ai_chat_widget.py:359-365 | the answer is added as a model message and input is enabled again |
| `AIChat.AIChatWidget.OnError` | src/ui/ai_chat_widget.py:367-372 | the error is added as a model message prefixed "Error: " and input is enabled again |
| `AIChat.AIChatWidget.ClearChat` | src/ui/ai_chat_widget.py:397-403 | every message is removed and nothing else changes |
| `BaseTools.ToolTypeValueInjective` | src/tools/base_tool.py:11-23 | no two tool types share a value |
| `BaseTools.Spanned` | src/tools/shape_tools.py:66-72 | the rectangle spanned by two drag corners has a non-negative width and height (also src/tools/image_tool.py:48-52) |
| `BaseTools.SpannedBoth` | src/tools/shape_tools.py:66-72 | dragging either way spans the same rectangle, the smallest one holding both corners, each corner on its edges (also src/tools/image_tool.py:48-52) |
| `BaseTools.SpannedFarCorner` | src/tools/shape_tools.py:66-72 | the far corner of the spanned rectangle holds the larger coordinates |
| `BaseTools.WithDefaults` | src/tools/interactive_text_tool.py:55-58 | the minimum-size rule keeps the corner and keeps a side that is long enough (also src/tools/annotation_tools.py:216-219) |
| `BaseTools.WithDefaultsFloor` | src/tools/interactive_text_tool.py:55-58 | with defaults at least the minimums no side ends up too short, and the rule changes nothing the second time (also src/tools/annotation_tools.py:216-219) |
| `BaseTools.OrNaturalSize` | src/tools/image_tool.py:54-56 | a drag of at least 10 by 10 is kept; a smaller one takes the picture's own size at the same corner (also src/tools/annotation_tools.py:106-108) |
| `BaseTools.DragBox` | src/tools/selection_tool.py:118-129 | a selection box exists exactly when both corners are set, and it is the spanned rectangle with both corners on its edges (also src/tools/cut_tool.py:125-136) |
| `BaseTools.FrameAtLeast` | src/tools/interactive_text_tool.py:50-62 | a frame is never smaller than 20 by 20, sits at the drag's smaller corner and keeps a drag that is large enough (also src/tools/interactive_image_tool.py:50-62) |
| `BaseTools.PictureData` | src/tools/image_tool.py:59-65 | the data of a placed picture has the keys pixmap, x, y, width and height, in that order (also src/tools/annotation_tools.py:111-117) |
| `BaseTools.PictureDataGet` | src/tools/image_tool.py:59-65 | the pixmap and the frame read back from a placed picture's data (also src/tools/annotation_tools.py:111-117) |
| `BaseTools.BaseTool.constructor` | src/tools/base_tool.py:29-39 | a new tool has its type and the default settings: inactive, black, width 2, opacity 1, Arial 12 |
| `BaseTools.BaseTool.Activate` | src/tools/base_tool.py:41-43 | the tool becomes active and no other setting changes |
| `BaseTools.BaseTool.Deactivate` | src/tools/base_tool.py:45-47 | the tool becomes inactive and no other setting changes |
| `BaseTools.BaseTool.MousePress` | src/tools/base_tool.py:49-54 | the base tool handles no press |
| `BaseTools.BaseTool.MouseMove` | src/tools/base_tool.py:56-61 | the base tool handles no move |
| `BaseTools.BaseTool.MouseRelease` | src/tools/base_tool.py:63-68 | the base tool handles no release |
| `BaseTools.BaseTool.KeyPress` | src/tools/base_tool.py:70-75 | the base tool handles no key |
| `BaseTools.BaseTool.SetColor` | src/tools/base_tool.py:85-87 | only the colour changes |
| `BaseTools.BaseTool.SetWidth` | src/tools/base_tool.py:89-91 | only the width changes |
| `BaseTools.BaseTool.SetOpacity` | src/tools/base_tool.py:93-95 | only the opacity changes |
| `BaseTools.BaseTool.SetFontSize` | src/tools/base_tool.py:97-99 | only the font size changes |
| `BaseTools.BaseTool.SetFontName` | src/tools/base_tool.py:101-103 | only the font name changes |
| `DrawingTools.PointValues` | src/tools/drawing_tools.py:40-41 | one stored point per stroke point, in order |
| `DrawingTools.StrokeLayer` | src/tools/drawing_tools.py:38-45 | the finished stroke is a visible, unlocked drawing layer on the page with the fresh id, the default name, the tool's opacity, and data keys points, color and width |
| `DrawingTools.StrokeData` | src/tools/drawing_tools.py:40-44 | the stroke data has the keys points, color and width, in that order |
| `DrawingTools.PointsOfValues` | src/tools/drawing_tools.py:40-41 | the stored points read back as the stroke points (also src/utils/export.py:302-312) |
| `DrawingTools.StrokeExported` | src/tools/drawing_tools.py:34-48 | a finished stroke with a valid colour is written to the PDF through exactly its points (also src/utils/export.py:285-296) |
| `DrawingTools.StrokeDataExported` | src/tools/drawing_tools.py:40-44 | stroke data with at least two points and a valid colour is drawn through exactly those points (also src/utils/export.py:285-296) |
| `DrawingTools.StrokeDataGet` | src/tools/drawing_tools.py:40-44 | the points and the colour read back from the stroke data |
| `DrawingTools.PenTool.constructor` | src/tools/drawing_tools.py:14-19 | a new pen has the pen type, default settings, no points, no stroke under way and no finished layer |
| `DrawingTools.PenTool.MousePress` | src/tools/drawing_tools.py:21-26 | a left press starts a stroke at the cursor; any other press is not handled and changes nothing |
| `DrawingTools.PenTool.MouseMove` | src/tools/drawing_tools.py:28-32 | during a stroke the cursor is appended to the points and the move is handled; otherwise nothing changes |
| `DrawingTools.PenTool.MouseRelease` | src/tools/drawing_tools.py:34-48 | a left release ends the stroke; with more than one point it becomes the finished layer and the points are cleared; a one-point stroke is dropped unhandled with its point kept |
| `DrawingTools.PenTool.GetCompletedLayer` | src/tools/drawing_tools.py:65-69 | hands over the finished layer and forgets it |
| `ShapeTools.ShapeValue` | src/tools/shape_tools.py:76 | the shape type stored in the data is the value of the tool's own tool type (also src/tools/shape_tools.py:132, src/tools/shape_tools.py:209, src/tools/shape_tools.py:281) |
| `ShapeTools.Constrain` | src/tools/shape_tools.py:175-189 | without shift or without a start the cursor is used as it is; with both the end shares the start's row or column |
| `ShapeTools.ConstrainFollowsLargerMove` | src/tools/shape_tools.py:175-189 | with shift the line keeps the axis of the larger move: horizontal when the x move is larger, vertical otherwise |
| `ShapeTools.ConstrainIdempotent` | src/tools/shape_tools.py:175-189 | constraining an already constrained end changes nothing |
| `ShapeTools.BoxData` | src/tools/shape_tools.py:75-81 | rectangle and ellipse data have the keys shape_type, rect, color, fill_color and width, in that order (also src/tools/shape_tools.py:131-137) |
| `ShapeTools.EndsData` | src/tools/shape_tools.py:208-216 | line and arrow data have the keys shape_type, x1, y1, x2, y2, color and width, in that order (also src/tools/shape_tools.py:280-288) |
| `ShapeTools.ShapeLayer` | src/tools/shape_tools.py:62-88 | the finished shape is a visible, unlocked shape layer named after its kind with the tool's opacity; boxes store the spanned rectangle, lines and arrows their two ends (also src/tools/shape_tools.py:203-223) |
| `ShapeTools.BoxDataGet` | src/tools/shape_tools.py:75-81 | the colour, fill, rectangle and shape type read back from box data |
| `ShapeTools.BoxExported` | src/tools/shape_tools.py:62-88 | a drawn rectangle or ellipse with valid colours is written to the PDF in the box from the smaller to the larger drag corner (also src/utils/export.py:321-345) |
| `ShapeTools.BoxOfReals` | src/tools/shape_tools.py:77 | a stored `[x, y, w, h]` reads back as the box from (x, y) to (x + w, y + h) (also src/utils/export.py:335-337) |
| `ShapeTools.EndsDataGet` | src/tools/shape_tools.py:208-216 | the colour, the absent fill, both ends and the shape type read back from line data |
| `ShapeTools.EndsExported` | src/tools/shape_tools.py:203-223 | a drawn line or arrow with a valid colour is written to the PDF between its two ends (also src/utils/export.py:346-360) |
| `ShapeTools.ShapeTool.constructor` | src/tools/shape_tools.py:15-22 | a new shape tool has its kind's tool type, default settings, no corners, no fill, shift not held and no finished layer (also src/tools/shape_tools.py:171-173) |
| `ShapeTools.ShapeTool.SetFillColor` | src/tools/shape_tools.py:24-26 | only the fill colour changes |
| `ShapeTools.ShapeTool.MousePress` | src/tools/shape_tools.py:28-34 | a left press starts a drag with both corners at the cursor; any other press changes nothing |
| `ShapeTools.ShapeTool.MouseMove` | src/tools/shape_tools.py:36-47 | during a drag the shift state is recorded and the current corner follows the cursor, constrained to a straight line for lines and arrows (also src/tools/shape_tools.py:191-201) |
| `ShapeTools.ShapeTool.MouseRelease` | src/tools/shape_tools.py:62-88 | a left release ends the drag; with both corners set the shape becomes the finished layer and the corners are forgotten (also src/tools/shape_tools.py:203-223) |
| `ShapeTools.ShapeTool.GetCompletedLayer` | src/tools/shape_tools.py:49-53 | hands over the finished layer and forgets it |
| `TextTools.TextData` | src/tools/text_tool.py:31-38 | text layer data has the keys text, x, y, font, font_size and color, in that order |
| `TextTools.TextTool.constructor` | src/tools/text_tool.py:15-19 | a new text tool has the text type, default settings, no click and no finished layer |
| `TextTools.TextTool.MousePress` | src/tools/text_tool.py:21-26 | a left press records the click position and is handled; any other press changes nothing |
| `TextTools.TextTool.CreateTextLayer` | src/tools/text_tool.py:28-40 | the new layer is a visible, unlocked plain text layer named "Text" on the page, with the tool's font, size, colour and opacity and the text at the position |
| `TextTools.TextTool.GetCompletedLayer` | src/tools/text_tool.py:42-46 | hands over the finished layer and forgets it |
| `TextTools.TextLayerIsPlain` | src/tools/text_tool.py:28-40 | a text tool layer shows as "Text" and is not one of the layer kinds written into a saved PDF (also src/utils/export.py:44-68) |
| `Annotations.StickyNoteTool.constructor` | src/tools/annotation_tools.py:14-20 | a new note tool has yellow as its colour, note size 20, no click and no finished layer |
| `Annotations.StickyNoteTool.MousePress` | src/tools/annotation_tools.py:22-27 | a left press records the click position and is handled; any other press changes nothing |
| `Annotations.StickyNoteTool.CreateNoteLayer` | src/tools/annotation_tools.py:29-39 | the note layer is a plain sticky-note layer on the page holding the position, size, colour and text, at full opacity |
| `Annotations.StickyNoteTool.GetCompletedLayer` | src/tools/annotation_tools.py:41-45 | hands over the finished layer and forgets it |
| `Annotations.DefaultNote` | src/tools/annotation_tools.py:14-39 | a note from a fresh tool is yellow, of size 20, and holds its text |
| `Annotations.PlacedSignature` | src/tools/annotation_tools.py:97-122 | a placed signature image is a signature layer holding the pixmap in the dragged frame, or at the image's own size when the drag is under 10 either way |
| `Annotations.DrawnSignature` | src/tools/annotation_tools.py:124-133 | a drawn signature is a signature layer holding the stroke points in black at width 2 |
| `Annotations.PlacedSignatureSize` | src/tools/annotation_tools.py:101-108 | a placed signature is at least 10 by 10 or exactly the image's size, and a large enough drag is kept as it is |
| `Annotations.SignatureTool.constructor` | src/tools/annotation_tools.py:51-60 | a new signature tool has no image, no points, no drag, image mode and no finished layer |
| `Annotations.SignatureTool.SetSignatureImage` | src/tools/annotation_tools.py:62-65 | sets the image and switches to image mode |
| `Annotations.SignatureTool.SetDrawMode` | src/tools/annotation_tools.py:67-70 | switches to draw mode and clears the points |
| `Annotations.SignatureTool.MousePress` | src/tools/annotation_tools.py:72-82 | in image mode with an image a left press starts placing at the cursor; in draw mode it starts a stroke; otherwise nothing is handled |
| `Annotations.SignatureTool.MouseMove` | src/tools/annotation_tools.py:84-91 | while placing the current corner follows the cursor; while drawing the cursor is appended; otherwise nothing changes |
| `Annotations.SignatureTool.MouseRelease` | src/tools/annotation_tools.py:93-134 | a left release ends placing and, with both corners and an image, finishes a placed signature; in draw mode a stroke of more than one point finishes a drawn one and the points are cleared |
| `Annotations.SignatureTool.GetCompletedLayer` | src/tools/annotation_tools.py:166-170 | hands over the finished layer and forgets it |
| `Annotations.FieldLayer` | src/tools/annotation_tools.py:206-232 | the field layer is named after its capitalised type and holds the type, the frame, an empty value and the name `type_field` |
| `Annotations.FieldRectBounds` | src/tools/annotation_tools.py:210-219 | a form field is at least 20 wide and 10 high, sits at the drag's smaller corner, and keeps a drag that is large enough |
| `Annotations.FormFieldTool.constructor` | src/tools/annotation_tools.py:176-183 | a new field tool makes text fields and has no drag and no finished layer |
| `Annotations.FormFieldTool.SetFieldType` | src/tools/annotation_tools.py:185-187 | only the field type changes |
| `Annotations.FormFieldTool.MousePress` | src/tools/annotation_tools.py:189-195 | a left press starts a drag with both corners at the cursor; any other press changes nothing |
| `Annotations.FormFieldTool.MouseMove` | src/tools/annotation_tools.py:197-201 | during a drag the current corner follows the cursor |
| `Annotations.FormFieldTool.MouseRelease` | src/tools/annotation_tools.py:203-233 | a left release ends the drag and, with both corners set, the field becomes the finished layer and the corners are forgotten |
| `Annotations.FormFieldTool.GetCompletedLayer` | src/tools/annotation_tools.py:251-255 | hands over the finished layer and forgets it |
| `SelectionTools.HitsSelectionMeans` | src/tools/selection_tool.py:147-154 | a hit names a selected layer whose bounds hold the point; a miss means every selected interactive layer had bounds and none held it; a layer whose bounds cannot be computed raises |
| `SelectionTools.StartPositions` | src/tools/selection_tool.py:38-44 | one start position per selected layer, its stored `x` and `y` (0 for a key it lacks) |
| `SelectionTools.MoveLayer` | src/tools/selection_tool.py:65-70 | moving a layer changes only its data, and succeeds exactly when both start coordinates are numbers |
| `SelectionTools.MoveLayerPlaces` | src/tools/selection_tool.py:65-70 | a moved layer stands at its start position plus the drag offset |
| `SelectionTools.Moved` | src/tools/selection_tool.py:65-70 | the move keeps the number of selected layers |
| `SelectionTools.MovedPlaces` | src/tools/selection_tool.py:62-70 | after a move that succeeds every layer with a start position stands at its start plus the offset, changes nothing but its data, and a layer without one is untouched |
| `SelectionTools.MovedAt` | src/tools/selection_tool.py:65-70 | the layer at each index after a successful move is the one-layer move of that index |
| `SelectionTools.MovesDoNotAccumulate` | src/tools/selection_tool.py:54-72 | moves are measured from where the drag began: a second move from the same start positions gives what that move alone gives |
| `SelectionTools.MoveLayerTwice` | src/tools/selection_tool.py:65-70 | moving one layer twice from the same start equals moving it once by the second offset |
| `SelectionTools.MoveAll` | src/tools/selection_tool.py:65-70 | the move loop yields exactly the specified move, stopping at the first start that is not a number |
| `SelectionTools.SelectionTool.constructor` | src/tools/selection_tool.py:14-27 | a new tool draws no box, moves nothing and has no selection |
| `SelectionTools.SelectionTool.IsPointInSelection` | src/tools/selection_tool.py:147-154 | the hit test answers as the specified hit test does |
| `SelectionTools.SelectionTool.MousePress` | src/tools/selection_tool.py:29-52 | a left press on the selection starts a move and records the start positions; a left press elsewhere starts a box at the press point; other buttons are not handled |
| `SelectionTools.SelectionTool.MouseMove` | src/tools/selection_tool.py:54-72 | while drawing a box its free corner follows the mouse; while moving, the selected layers go to their start positions plus the offset from the press point; otherwise nothing changes |
| `SelectionTools.SelectionTool.MouseRelease` | src/tools/selection_tool.py:74-88 | a left release ends the box (its corners stay) or ends the move and forgets the start positions |
| `SelectionTools.SelectionTool.ClearBoxSelection` | src/tools/selection_tool.py:134-137 | both box corners are forgotten and nothing else changes |
| `SelectionTools.SelectionTool.SetSelectedLayers` | src/tools/selection_tool.py:139-141 | the selection becomes the given layers and nothing else changes |
| `SelectionTools.SelectionTool.ClearSelectedLayers` | src/tools/selection_tool.py:143-145 | the selection becomes empty and nothing else changes |
| `SelectionTools.SelectionTool.Reset` | src/tools/selection_tool.py:156-164 | the tool is back in the state of a new one |
| `TextSelection.SelectionBox` | src/tools/text_selection_tool.py:106-110 | the dragged box has its smaller corner first, and has area exactly when the two corners differ in both coordinates |
| `TextSelection.PickedInLineMeans` | src/tools/text_selection_tool.py:122-124 | a span of a line is picked exactly when it meets the dragged box |
| `TextSelection.PickedInLinesMeans` | src/tools/text_selection_tool.py:121-124 | a span is picked from a block's lines exactly when it lies in one of them and meets the box |
| `TextSelection.PickedMeans` | src/tools/text_selection_tool.py:119-124 | a span is selected exactly when it lies in a text block of the page and meets the dragged box; image blocks contribute nothing |
| `TextSelection.SelectedRectsHaveArea` | src/tools/text_selection_tool.py:123-129 | every kept rectangle has positive width and height, since a span without area meets nothing |
| `TextSelection.RectsOfAppend` | src/tools/text_selection_tool.py:126-129 | the rectangles of two runs of spans are those of the first followed by those of the second |
| `TextSelection.TextOfAppend` | src/tools/text_selection_tool.py:130 | the text of two runs of spans is that of the first followed by that of the second |
| `TextSelection.RectsOfAt` | src/tools/text_selection_tool.py:126-129 | the rectangle kept for span k is that span's corner and size |
| `TextSelection.CollectLine` | src/tools/text_selection_tool.py:122-130 | the span loop appends the rectangles and the text of exactly the spans meeting the box |
| `TextSelection.LinesStep` | src/tools/text_selection_tool.py:121-130 | one more line extends what the line loop has collected by that line's picked spans |
| `TextSelection.CollectLines` | src/tools/text_selection_tool.py:121-130 | the line loop appends the rectangles and the text of the picked spans of every line |
| `TextSelection.CollectBlocks` | src/tools/text_selection_tool.py:116-130 | the block loop collects exactly the rectangles and the text of the selected spans, in reading order |
| `TextSelection.TextSelectionTool.constructor` | src/tools/text_selection_tool.py:23-45 | a new tool selects nothing, highlights, and holds the yellow, black and red default colours |
| `TextSelection.TextSelectionTool.SetAnnotationKind` | src/tools/text_selection_tool.py:47-49 | the annotation kind is set and nothing else changes |
| `TextSelection.TextSelectionTool.SetHighlightColor` | src/tools/text_selection_tool.py:51-53 | the highlight colour is set and nothing else changes |
| `TextSelection.TextSelectionTool.MousePress` | src/tools/text_selection_tool.py:55-66 | a left press starts a new selection at the press point on that page and drops the old one; other buttons change nothing |
| `TextSelection.TextSelectionTool.UpdateSelection` | src/tools/text_selection_tool.py:96-132 | with a page and both corners set, the selection becomes the rectangles and text of the spans meeting the dragged box; otherwise it is kept |
| `TextSelection.TextSelectionTool.MouseMove` | src/tools/text_selection_tool.py:68-75 | while selecting, the free corner follows the mouse and the selection is recomputed; otherwise nothing changes |
| `TextSelection.TextSelectionTool.MouseRelease` | src/tools/text_selection_tool.py:77-90 | a left release during a selection ends it at the release point, recomputes it, and the selection stands exactly when it holds a rectangle |
| `TextSelection.TextSelectionTool.HasActiveSelection` | src/tools/text_selection_tool.py:92-94 | an active selection holds rectangles, and under the tool's invariant it is the selection flag |
| `TextSelection.TextSelectionTool.AnnotationColor` | src/tools/text_selection_tool.py:154-161 | each annotation kind takes its own colour |
| `TextSelection.TextSelectionTool.CreateAnnotation` | src/tools/text_selection_tool.py:142-152 | no annotation without rectangles; otherwise the record of the kind, the rectangles, the colour and the stripped text |
| `TextSelection.TextSelectionTool.ClearSelection` | src/tools/text_selection_tool.py:202-209 | the selection, both corners and both flags are cleared; kind and colours stay |
| `TextSelection.AnnotationData` | src/tools/text_selection_tool.py:147-152 | the annotation record has the keys type, rects, color and text, in that order |
| `TextSelection.AnnotationDataGet` | src/tools/text_selection_tool.py:147-152 | each key of the annotation record holds what was given for it |
| `TextSelection.RectValues` | src/tools/text_selection_tool.py:149 | each kept rectangle becomes the tuple of its corner, width and height |
| `TextSelection.AnnotationCoversSelection` | src/tools/text_selection_tool.py:119-152 | an annotation made right after a selection holds one rectangle per selected span, each with area, with the tool's kind, colour and text |
| `SymbolTools.SymbolTool.constructor` | src/tools/symbol_tool.py:17-26 | a new tool is a text-type tool holding the star, size 24 and black, with nothing pending |
| `SymbolTools.SymbolTool.SetSymbol` | src/tools/symbol_tool.py:60-63 | the symbol is set and nothing else changes |
| `SymbolTools.SymbolTool.SetSymbolSize` | src/tools/symbol_tool.py:69-71 | the size is set and nothing else changes |
| `SymbolTools.SymbolTool.SetSymbolColor` | src/tools/symbol_tool.py:77-80 | the symbol colour is set and nothing else changes |
| `SymbolTools.SymbolTool.SetColor` | src/tools/symbol_tool.py:86-89 | setting the tool colour sets both the shared setting and the symbol colour |
| `SymbolTools.SymbolTool.MousePress` | src/tools/symbol_tool.py:91-105 | a left or right press records the point and a pending placement, and asks for the dialog exactly on a right press; other buttons change nothing |
| `SymbolTools.SymbolTool.MouseMove` | src/tools/symbol_tool.py:107-109 | a mouse move is never handled and changes nothing |
| `SymbolTools.SymbolTool.MouseRelease` | src/tools/symbol_tool.py:111-113 | a release is never handled and changes nothing |
| `SymbolTools.SymbolTool.Reset` | src/tools/symbol_tool.py:119-123 | nothing is pending and no point or dialog request remains; the symbol, size and colour stay |
| `CutTools.CutTool.constructor` | src/tools/cut_tool.py:15-31 | a new tool draws no box, has captured nothing and has neither callback |
| `CutTools.CutTool.MousePress` | src/tools/cut_tool.py:33-46 | a left press starts a box at the press point; a right press is handled and asks for the image dialog at that point exactly when the dialog callback is set; other buttons are not handled |
| `CutTools.CutTool.MouseMove` | src/tools/cut_tool.py:48-53 | while a box is drawn its free corner follows the mouse; otherwise nothing changes |
| `CutTools.CutTool.MouseRelease` | src/tools/cut_tool.py:55-75 | a left release ends the box and forgets its corners; a box wider and taller than 5 becomes the last capture and goes, with the page, to the capture callback when one is set; a smaller box captures nothing |
| `CutTools.CutTool.SetCaptureCallback` | src/tools/cut_tool.py:141-143 | only the capture callback changes |
| `CutTools.CutTool.SetDialogCallback` | src/tools/cut_tool.py:145-147 | only the dialog callback changes |
| `CutTools.CutTool.GetCompletedLayer` | src/tools/cut_tool.py:149-151 | the cut tool never yields a layer |
| `CutTools.CutTool.Reset` | src/tools/cut_tool.py:153-157 | the box goes; the last capture and the callbacks stay |
| `InteractiveTextTools.InteractiveTextTool.constructor` | src/tools/interactive_text_tool.py:14-21 | a new tool is a text-type tool with no drag and no pending frame |
| `InteractiveTextTools.InteractiveTextTool.MousePress` | src/tools/interactive_text_tool.py:23-32 | a left press starts a new drag at the press point and drops any pending frame; other buttons change nothing |
| `InteractiveTextTools.InteractiveTextTool.MouseMove` | src/tools/interactive_text_tool.py:34-39 | while dragging the free corner follows the mouse; otherwise nothing changes |
| `InteractiveTextTools.InteractiveTextTool.MouseRelease` | src/tools/interactive_text_tool.py:41-74 | a left release ends the drag; when the start and the release point are set, the pending frame becomes the spanned box with a side under 20 replaced by 150 wide or 40 high |
| `InteractiveTextTools.InteractiveTextTool.PendingPosition` | src/tools/interactive_text_tool.py:107-111 | a position exists exactly while a frame is pending, and it is the frame's top-left corner |
| `InteractiveTextTools.InteractiveTextTool.ClearPending` | src/tools/interactive_text_tool.py:113-119 | no drag, no corners and no pending frame remain |
| `InteractiveTextTools.PendingAtDragCorner` | src/tools/interactive_text_tool.py:48-71 | a pending frame sits at the smaller corner of the drag whichever way it went, and is at least 20 by 20 (also src/tools/interactive_text_tool.py:107-111) |
| `InteractiveImageTools.InteractiveImageTool.constructor` | src/tools/interactive_image_tool.py:14-21 | a new tool is an image-type tool with no drag and no pending frame |
| `InteractiveImageTools.InteractiveImageTool.MousePress` | src/tools/interactive_image_tool.py:23-32 | a left press starts a new drag at the press point and drops any pending frame; other buttons change nothing |
| `InteractiveImageTools.InteractiveImageTool.MouseMove` | src/tools/interactive_image_tool.py:34-39 | while dragging the free corner follows the mouse; otherwise nothing changes |
| `InteractiveImageTools.InteractiveImageTool.MouseRelease` | src/tools/interactive_image_tool.py:41-74 | a left release ends the drag; when the start and the release point are set, the pending frame becomes the spanned box with a side under 20 replaced by 200 |
| `InteractiveImageTools.InteractiveImageTool.PendingPosition` | src/tools/interactive_image_tool.py:110-114 | a position exists exactly while a frame is pending, and it is the frame's top-left corner |
| `InteractiveImageTools.InteractiveImageTool.ClearPending` | src/tools/interactive_image_tool.py:116-122 | no drag, no corners and no pending frame remain |
| `InteractiveImageTools.PendingAtDragCorner` | src/tools/interactive_image_tool.py:48-71 | a pending frame sits at the smaller corner of the drag whichever way it went, and is at least 20 by 20 (also src/tools/interactive_image_tool.py:110-114) |
| `ImageTools.PlacedImage` | src/tools/image_tool.py:58-66 | a placed picture becomes an image layer named "Image" on the page, with the tool's opacity, holding the picture in the spanned frame or at its natural size |
| `ImageTools.PlacedImageFrame` | src/tools/image_tool.py:45-65 | a placed image sits at the drag's smaller corner and holds the picture; it has the dragged size when both sides reach 10 and the picture's own size otherwise |
| `ImageTools.ImageTool.constructor` | src/tools/image_tool.py:14-21 | a new tool is an image-type tool with no picture, no placement and no finished layer |
| `ImageTools.ImageTool.SetImage` | src/tools/image_tool.py:23-25 | only the picture changes |
| `ImageTools.ImageTool.MousePress` | src/tools/image_tool.py:27-33 | a left press starts a placement at the press point exactly when there is a picture; otherwise nothing changes |
| `ImageTools.ImageTool.MouseMove` | src/tools/image_tool.py:35-39 | while placing the free corner follows the mouse; otherwise nothing changes |
| `ImageTools.ImageTool.MouseRelease` | src/tools/image_tool.py:41-73 | a left release ends the placement; with both points and a picture the placed image becomes the finished layer and the points and the picture are cleared; otherwise the rest stays |
| `ImageTools.ImageTool.GetCompletedLayer` | src/tools/image_tool.py:92-96 | the finished layer is handed out once and then forgotten |
| `Common.ParseIntOfIntToString` | src/ui/main_window.py:712-748 | reading back a page number the label wrote gives that number |
| `Common.SortedSet` | src/ui/thumbnail_panel.py:935 | the selected pages come out in increasing order, each selected page once and nothing else |
| `Common.RemoveOneDistinct` | src/utils/settings.py:109-110 | removing an entry from a list without repeats leaves exactly the other entries, still without repeats (also src/ui/symbol_dialog.py:275-276) |
| `Common.PushFrontFirst` | src/utils/settings.py:109-116 | the pushed entry comes first, the others follow in their old order up to the cap, and a list without repeats keeps none (also src/ui/symbol_dialog.py:275-280) |
| `Values.PngRoundTrip` | src/core/layer.py:244-279 | a pixmap saved to bytes and loaded back is the same pixmap |

## Left out

- Rendering and painting are not modelled: every `render` and `draw_preview`, shadows, animations, stylesheets, layout and cursors, including `get_resize_cursor`. They make Qt drawing calls and have no result to state.
- Qt signals are no-ops. A signal's payload is returned as a value (an emitted page list, a drop index, a dialog request). Signal delivery, threads and timers are not modelled: `ModelLoaderThread`, `ChatThread`, `load_model_async` and `QTimer.singleShot`.
- PyMuPDF calls are not modelled.
  - src/core/pdf_document.py is not part of this model. Its page list is an abstract sequence, and `move_page` is an insert-before move.
  - Text extraction reaches the model as a parameter: the blocks `get_text("dict")` returns, and the page's spans.
  - Not modelled: redaction, `insert_textbox`, `insert_image`, shape drawing, saving, merging, and `_add_image_as_page`.
- Language-model inference is a function parameter. Not modelled: the `Llama` construction, `download_model`, `is_model_downloaded`, `_ensure_model_loaded`'s dialogs, and the singletons `get_translation_service` and `get_guide_manager`. The model uses explicit instances in their place.
- File I/O, JSON and base64 are opaque encode/decode pairs passed as parameters. The settings file, the recent-symbols file, temporary PNG files and file dialogs are not modelled.
- src/ui/image_edit_dialog.py, src/utils/icon_helper.py, src/ui/text_edit_dialog.py, `open_image_editor`, src/main.py and the package `__init__` files are not part of this model. They hold PIL filters, SVG rendering and theme detection, widget copying, and wiring.
- Interactive canvas UI is not part of this model: the mouse and key event handlers and the creation/edit dialogs. Not modelled:
  - `find_pdf_text_at_point`, `find_pdf_text_in_rect` and `convert_pdf_text_box_to_layers` (PyMuPDF text access);
  - `stamp_symbol_at_position`, `delete_selected_layer(s)`, `find_layers_in_box`, `show_context_menu`, `create_text_annotation_layer` and `apply_text_annotation`.
- Rotation is not modelled: `is_rotation_handle` and rotation dragging.
- Export is not modelled beyond font mapping, colour parsing, layer placement and metadata framing. `export_flattened`, `export_with_layers`, `_add_layer_as_annotation`, `export_page_range` and `export_current_page_as_image` write files through PyMuPDF. The point-by-point placement in `_add_text_to_pdf`, `_add_symbol_to_pdf` and `_add_image_to_pdf` is also left out.
- TranslationDialog: only the font mapping, span flags, colour decoding, section classification and the width-and-size rule are modelled. The page rewriting in `TranslationThread.run` and the dialog's widget methods are not.
- Floating point is modelled as `real`. Rounding of IEEE doubles is not captured. Where the source applies `int()`, the model truncates toward zero explicitly.
- Properties.SliderRoundTrip: holds in exact arithmetic only. In IEEE doubles, `int((v / 100.0) * 100)` gives back one less for slider positions 29, 57 and 58.
- MainWindow.MoveBefore: a destination equal to the page count (after the last page) is admitted by precondition. Whether PyMuPDF's `move_page` accepts it is outside this model. `move_page_down` on the second-to-last page passes exactly that destination.
- Guides.GuideManager.MoveGuide: the source finds the guide with `==` but changes the object it was handed. The model changes the first equal entry in the list. With two equal guides, or with a copy handed in, the source changes a different object.
- Guides.GuideManager.ToggleGuideLock: the same identity difference as `MoveGuide`.
- InteractiveCanvas.Resolve: the selection is resolved by id against the store, where `align_selected_layers` in the source aligns the selection tool's own layer objects. Three behaviours of the source are therefore not captured: (1) a selected layer no longer in the store (its add undone) is dropped, where the source still writes to that detached object; (2) such a detached layer still enters the source's `min`, `max`, average and `spacing`, so the values written to the layers that are in the store can differ (select L1 and L2, undo L2's add, align left: the source sets L1.x to min(L1.x, L2.x), `InteractiveCanvas.AlignedStore` leaves L1.x as it is); (3) after an undo and redo the store holds a layer re-created from its dictionary with the same id, and the source aligns the stale selected object and leaves the store layer alone, where the model writes the store layer.
- SelectionTools.SelectionTool.MouseMove: the source writes `x` and `y` into layer objects it shares with the canvas. The model moves the tool's own list of layers, so aliasing with the layer store is not captured.
- Layers.FromDict: stricter than Python. A `visible` or `locked` that is not a bool raises `TypeError`, as does a `name` or `id` that is not a string and a `page_num` or `z_index` that is not an integer. The source stores any of these unchecked.
- History.StateFromDict: stricter than Python. A `layers_data` or `metadata` that is not a dictionary is a `TypeError`. The source stores any value there unchecked.
- History.ActionFromDict: stricter than Python. It rejects a `data` that is not a dictionary, and a `description` that is neither a string nor absent. The source accepts both.
- InteractiveLayers.MoveBy: when `y` is not a number, the error leaves the layer unchanged. The source has already written the new `x` before raising.
- Thumbnails.LoadHeadings: an entry with a level below 1 makes the whole load an `IndexError`. The items the source added before the failing entry are not kept.
- Settings.Store.Set: a failed write leaves the settings unchanged. The source keeps the intermediate levels it created before the `TypeError`.
- InteractiveLayers.Resize: the resize, `move_by` and the `set_*` setters are pure functions from layer to layer. The in-place update of the shared `data` dictionary, and its aliasing, are not captured. The same holds for InteractiveLayers.SetText, InteractiveLayers.SetScaleMode and InteractiveLayers.SetImage.
- Settings.Store.GetAll: a copy of the whole tree is returned. The nested dictionaries that the source's shallow copy shares with the store are not captured.
- Translation.IsLetter: approximates `str.isalpha`, and Translation.IsPrintable approximates `str.isprintable`; the digit rule of Translation.ShouldSkip takes ASCII digits only, where `str.isdigit` takes every script's digits. Unicode general categories are not modelled. So non-ASCII punctuation, symbols and digits from U+00C0 on (such as U+3002, U+2192, U+0661) count as letters, and format characters (such as U+200B) and unassigned code points count as printable. A text such as "你。" or "١٢" is skipped by the source and translated by the model, and an answer padded with U+200B can pass the printable check in the model alone. Every member below rests on these classes: IsPrintable, ShouldSkip, IsValidTranslation, LetterCount, LetterCountPositive, ShouldSkipIffFewLetters, PrintableCount, ValidIgnoresSurroundingSpace, KeptAnswerBounded, Translate, TranslateBlock, TranslatedBlocksPointwise and TranslationService.TranslateTextBlocks.
- Translation.LetterCount: counts Translation.IsLetter's letters, not `str.isalpha`'s; see Translation.IsLetter.
- Translation.LetterCountPositive: its letters are Translation.IsLetter's, not `str.isalpha`'s; see Translation.IsLetter.
- Translation.ShouldSkipIffFewLetters: the skip test uses Translation.IsLetter and ASCII digits, not `str.isalpha` and `str.isdigit`; see Translation.IsLetter.
- Translation.PrintableCount: counts Translation.IsPrintable's characters, not `str.isprintable`'s; see Translation.IsLetter.
- Translation.ValidIgnoresSurroundingSpace: acceptance uses Translation.IsPrintable and Translation.IsLetter, not Python's classes; see Translation.IsLetter.
- Translation.KeptAnswerBounded: acceptance uses Translation.IsPrintable and Translation.IsLetter, not Python's classes; see Translation.IsLetter.
- Translation.Translate: the skip test and the acceptance test use the approximate character classes; see Translation.IsLetter.
- Translation.TranslateBlock: inherits Translation.Translate's approximate character classes; see Translation.IsLetter.
- Translation.TranslatedBlocksPointwise: each block's translation rests on the approximate character classes; see Translation.IsLetter.
- Translation.TranslationService.TranslateTextBlocks: the per-block translation rests on the approximate character classes; see Translation.IsLetter.
- Python's `int()` in the model accepts ASCII digits only. Underscores and non-ASCII digits are not modelled.
- String case mapping covers ASCII only.

## Findings

| source | as written | input that shows it | evidently intended | confidence | as-written member | corrected member |
|---|---|---|---|---|---|---|
| src/ui/interactive_canvas.py:1393-1404 | converting PDF text records a second ADD_LAYER action whose data holds only `layer_id`; undoing it reads `data['layer']['id']` and raises `KeyError` after the action has already moved to the redo stack (also src/ui/pdf_canvas.py:544-546) | convert one span, then undo | undo removes the converted text box | high, not executed | `InteractiveCanvas.ConvertUndoRaises` | `InteractiveCanvas.ConvertUndoRemoves` |
| src/ui/main_window.py:2013-2028 | a forward drop passes the target straight to the insert-before `move_page` and lands one page short | pages [A,B,C,D], drag [0] to target 3: [B,A,C,D] | [B,C,A,D], the dragged page just before the drop point | high, not executed | `MainWindow.ForwardDropOneShort` | `MainWindow.ForwardDropIntended` |
| src/ui/main_window.py:2013-2028 | each earlier dragged page is assumed to have shifted a later one down by one, which holds only for forward moves; after a backward move the later page has not shifted, so the next move takes the wrong page | pages [A,B,C,D], drag [2,3] to target 0: [C,B,A,D] | [C,D,A,B] | high, not executed | `MainWindow.BackwardMovesWrongPage` | `MainWindow.BackwardPairIntended` |
| src/ui/main_window.py:2036-2048 | the view is adjusted only for pages below the drop point or above it but before every dragged page; a page after the drop point that a dragged page passes keeps its old index | drag [0,5] to target 2 with page 3 current: the view stays on 3 | the view follows the current page to 4 | medium, not executed | `MainWindow.CurrentPageLeftBehind` | `MainWindow.ReorderedTracks` |
| src/core/layer.py:248 | `to_dict` has already turned an image layer's pixmap into raw bytes, which the JSON hook does not handle; the `TypeError` is swallowed, so no metadata is saved while the save still reports success (also src/utils/export.py:544, src/utils/export.py:558) | any document with one image layer | every layer's metadata is saved and loads back | high, not executed | `Export.ImageLayerLosesMetadata` | `Export.LayersSurviveMetadata` |
| src/ui/translation_dialog.py:90-94 | the bold-italic branch for Helvetica names `hebo`, the plain bold face, in both places, so bold italic Helvetica comes out upright; Times and Courier get their bold-italic faces (also src/ui/translation_dialog.py:318-321) | the font name "Helvetica-BoldOblique" | `hebi`, Helvetica Bold Oblique | medium, not executed | `TranslationDialog.BoldItalicHelveticaLosesItalic` | `TranslationDialog.MappedFontDecodes` |
