/** Undo/redo history and document snapshots (src/core/history.py). */
module History {
  import opened Common
  import opened Values

  datatype ActionType =
    | AddLayer | RemoveLayer | ModifyLayer | MoveLayer
    | AddPage | RemovePage | RotatePage | MovePage | ModifyPage

  /** `ActionType.value`. */
  function ActionValue(t: ActionType): string
  {
    match t
    case AddLayer => "add_layer"
    case RemoveLayer => "remove_layer"
    case ModifyLayer => "modify_layer"
    case MoveLayer => "move_layer"
    case AddPage => "add_page"
    case RemovePage => "remove_page"
    case RotatePage => "rotate_page"
    case MovePage => "move_page"
    case ModifyPage => "modify_page"
  }

  /** `ActionType(s)`: a string that is no member's value is a ValueError. */
  function ActionFromValue(s: string): (r: Result<ActionType>)
    ensures r.Ok? ==> ActionValue(r.value) == s
    ensures r.Err? ==> r.error == ValueError && forall t :: ActionValue(t) != s
  {
    if s == "add_layer" then Ok(AddLayer)
    else if s == "remove_layer" then Ok(RemoveLayer)
    else if s == "modify_layer" then Ok(ModifyLayer)
    else if s == "move_layer" then Ok(MoveLayer)
    else if s == "add_page" then Ok(AddPage)
    else if s == "remove_page" then Ok(RemovePage)
    else if s == "rotate_page" then Ok(RotatePage)
    else if s == "move_page" then Ok(MovePage)
    else if s == "modify_page" then Ok(ModifyPage)
    else Err(ValueError)
  }

  lemma ActionValueRoundTrip(t: ActionType)
    ensures ActionFromValue(ActionValue(t)) == Ok(t)
  {
  }

  datatype Action = Action(atype: ActionType, data: Dict, description: string)

  /** `Action(type, data, description)`: an empty description becomes the
      type's value. */
  function NewAction(t: ActionType, data: Dict, description: string): (a: Action)
    ensures a.atype == t && a.data == data
    ensures description != [] ==> a.description == description
    ensures description == [] ==> a.description == ActionValue(t)
    ensures a.description != []
  {
    Action(t, data, if description != [] then description else ActionValue(t))
  }

  /** `Action.to_dict`. */
  function ActionToDict(a: Action): (r: Dict)
    ensures Keys(r) == ["type", "data", "description"]
  {
    [("type", VStr(ActionValue(a.atype))), ("data", VDict(a.data)), ("description", VStr(a.description))]
  }

  /** `Action.from_dict`. A missing key is a KeyError and an unknown type a
      ValueError; a saved description of `None` counts as empty. */
  function ActionFromDict(d: Dict): (r: Result<Action>)
    ensures r.Ok? ==> r.value.description != []
  {
    var tv :- Lookup(d, "type");
    var ts :- if tv.VStr? then Ok(tv.s) else Err(ValueError);
    var t :- ActionFromValue(ts);
    var dv :- Lookup(d, "data");
    var data :- if dv.VDict? then Ok(dv.entries) else Err(TypeError);
    var descv :- Lookup(d, "description");
    var desc :- if descv.VStr? then Ok(descv.s) else if descv.VNone? then Ok("") else Err(TypeError);
    Ok(NewAction(t, data, desc))
  }

  function Lookup(d: Dict, k: string): (r: Result<Value>)
    ensures r.Ok? <==> HasKey(d, k)
    ensures r.Err? ==> r.error == KeyError(k)
  {
    match Get(d, k)
    case Some(v) => Ok(v)
    case None => Err(KeyError(k))
  }

  /** Every action the constructor builds survives serialisation. */
  lemma ActionRoundTrip(a: Action)
    requires a.description != []
    ensures ActionFromDict(ActionToDict(a)) == Ok(a)
  {
    var d := ActionToDict(a);
    assert Get(d, "type") == Some(VStr(ActionValue(a.atype)));
    assert Get(d, "data") == Some(VDict(a.data)) by {
      assert d[1..][0] == ("data", VDict(a.data));
    }
    assert Get(d, "description") == Some(VStr(a.description)) by {
      assert d[1..][1..][0] == ("description", VStr(a.description));
      assert Get(d[1..][1..], "description") == Some(VStr(a.description));
      assert Get(d[1..], "description") == Get(d[1..][1..], "description");
    }
    ActionValueRoundTrip(a.atype);
  }

  // ---------------------------------------------------------------------
  // The undo/redo stacks

  /** What `HistoryManager` holds; the stacks have their top at the end. */
  datatype Stacks = Stacks(undo: seq<Action>, redo: seq<Action>, actionCount: int)

  /** `add_action`: push, drop the redo stack, evict the oldest entry when
      over the limit, count the action. */
  function Added(s: Stacks, a: Action, maxHistory: int): (r: Stacks)
    ensures r.redo == [] && r.actionCount == s.actionCount + 1
    ensures |s.undo| + 1 > maxHistory ==> r.undo == (s.undo + [a])[1..]
    ensures |s.undo| + 1 <= maxHistory ==> r.undo == s.undo + [a]
  {
    var u := s.undo + [a];
    Stacks(if |u| > maxHistory then u[1..] else u, [], s.actionCount + 1)
  }

  /** `undo`: move the top undo entry onto the redo stack. */
  function Undone(s: Stacks): Stacks
  {
    if |s.undo| == 0 then s
    else Stacks(s.undo[..|s.undo| - 1], s.redo + [s.undo[|s.undo| - 1]], s.actionCount)
  }

  /** `redo`: move the top redo entry back onto the undo stack. */
  function Redone(s: Stacks): Stacks
  {
    if |s.redo| == 0 then s
    else Stacks(s.undo + [s.redo[|s.redo| - 1]], s.redo[..|s.redo| - 1], s.actionCount)
  }

  /** The two stacks together never hold more than the limit allows. */
  predicate Bounded(s: Stacks, maxHistory: int)
  {
    |s.undo| + |s.redo| <= MaxI(maxHistory, 0)
  }

  lemma AddedBounded(s: Stacks, a: Action, maxHistory: int)
    requires |s.undo| <= MaxI(maxHistory, 0)
    ensures Bounded(Added(s, a, maxHistory), maxHistory)
    ensures |Added(s, a, maxHistory).undo| <= MaxI(maxHistory, 0)
  {
  }

  lemma UndoRedoBounded(s: Stacks, maxHistory: int)
    requires Bounded(s, maxHistory)
    ensures Bounded(Undone(s), maxHistory) && Bounded(Redone(s), maxHistory)
  {
  }

  /** `redo` right after a successful `undo` restores both stacks exactly. */
  lemma RedoUndo(s: Stacks)
    requires |s.undo| > 0
    ensures Redone(Undone(s)) == s
  {
    assert s.undo[..|s.undo| - 1] + [s.undo[|s.undo| - 1]] == s.undo;
    assert (s.redo + [s.undo[|s.undo| - 1]])[..|s.redo|] == s.redo;
  }

  /** `undo` right after a successful `redo` restores both stacks exactly. */
  lemma UndoRedo(s: Stacks)
    requires |s.redo| > 0
    ensures Undone(Redone(s)) == s
  {
    assert s.redo[..|s.redo| - 1] + [s.redo[|s.redo| - 1]] == s.redo;
    assert (s.undo + [s.redo[|s.redo| - 1]])[..|s.undo|] == s.undo;
  }

  /** `undo` and `redo` only move entries between the stacks: they keep the
      action count and the combined contents. */
  lemma UndoRedoKeepEntries(s: Stacks)
    ensures Undone(s).actionCount == s.actionCount && Redone(s).actionCount == s.actionCount
    ensures multiset(Undone(s).undo) + multiset(Undone(s).redo) == multiset(s.undo) + multiset(s.redo)
    ensures multiset(Redone(s).redo) + multiset(Redone(s).undo) == multiset(s.redo) + multiset(s.undo)
  {
    UndoKeepsEntries(s);
    RedoKeepsEntries(s);
  }

  lemma UndoKeepsEntries(s: Stacks)
    ensures multiset(Undone(s).undo) + multiset(Undone(s).redo) == multiset(s.undo) + multiset(s.redo)
  {
    if |s.undo| > 0 {
      MoveTop(s.undo, s.redo);
    }
  }

  lemma RedoKeepsEntries(s: Stacks)
    ensures multiset(Redone(s).redo) + multiset(Redone(s).undo) == multiset(s.redo) + multiset(s.undo)
  {
    if |s.redo| > 0 {
      MoveTop(s.redo, s.undo);
    }
  }

  /** Moving the top of one stack onto another keeps their entries. */
  lemma MoveTop(a: seq<Action>, b: seq<Action>)
    requires |a| > 0
    ensures multiset(a[..|a| - 1]) + multiset(b + [a[|a| - 1]]) == multiset(a) + multiset(b)
  {
    assert a == a[..|a| - 1] + [a[|a| - 1]];
  }

  /** The information `get_history_info` reports. */
  datatype HistoryInfo = HistoryInfo(undoCount: nat, redoCount: nat, totalActions: int,
                                     canUndo: bool, canRedo: bool)

  class HistoryManager {
    const maxHistory: int
    const snapshotInterval: int
    var undoStack: seq<Action>
    var redoStack: seq<Action>
    var actionCount: int

    function State(): Stacks
      reads this
    {
      Stacks(undoStack, redoStack, actionCount)
    }

    ghost predicate Valid()
      reads this
    {
      Bounded(State(), maxHistory)
    }

    /** `HistoryManager(max_history)`; the editor uses the default of 100. */
    constructor(maxHistory: int)
      ensures this.maxHistory == maxHistory && snapshotInterval == 10
      ensures undoStack == [] && redoStack == [] && actionCount == 0
      ensures Valid()
    {
      this.maxHistory := maxHistory;
      snapshotInterval := 10;
      undoStack := [];
      redoStack := [];
      actionCount := 0;
    }

    method AddAction(a: Action)
      modifies this
      ensures State() == Added(old(State()), a, maxHistory)
      ensures old(|undoStack| <= MaxI(maxHistory, 0)) ==> Valid()
    {
      undoStack := undoStack + [a];
      redoStack := [];
      if |undoStack| > maxHistory {
        undoStack := undoStack[1..];
      }
      actionCount := actionCount + 1;
    }

    function CanUndo(): (r: bool)
      reads this
      ensures r <==> |undoStack| > 0
    {
      |undoStack| > 0
    }

    function CanRedo(): (r: bool)
      reads this
      ensures r <==> |redoStack| > 0
    {
      |redoStack| > 0
    }

    method Undo() returns (r: Option<Action>)
      modifies this
      ensures old(|undoStack|) == 0 ==> r == None
      ensures old(|undoStack|) > 0 ==> r == Some(old(undoStack[|undoStack| - 1]))
      ensures State() == Undone(old(State()))
      ensures old(Valid()) ==> Valid()
    {
      if !CanUndo() {
        return None;
      }
      var a := undoStack[|undoStack| - 1];
      undoStack := undoStack[..|undoStack| - 1];
      redoStack := redoStack + [a];
      r := Some(a);
    }

    method Redo() returns (r: Option<Action>)
      modifies this
      ensures old(|redoStack|) == 0 ==> r == None
      ensures old(|redoStack|) > 0 ==> r == Some(old(redoStack[|redoStack| - 1]))
      ensures State() == Redone(old(State()))
      ensures old(Valid()) ==> Valid()
    {
      if !CanRedo() {
        return None;
      }
      var a := redoStack[|redoStack| - 1];
      redoStack := redoStack[..|redoStack| - 1];
      undoStack := undoStack + [a];
      r := Some(a);
    }

    function UndoDescription(): (r: string)
      reads this
      ensures |undoStack| == 0 ==> r == ""
      ensures |undoStack| > 0 ==> r == undoStack[|undoStack| - 1].description
    {
      if CanUndo() then undoStack[|undoStack| - 1].description else ""
    }

    function RedoDescription(): (r: string)
      reads this
      ensures |redoStack| == 0 ==> r == ""
      ensures |redoStack| > 0 ==> r == redoStack[|redoStack| - 1].description
    {
      if CanRedo() then redoStack[|redoStack| - 1].description else ""
    }

    method Clear()
      modifies this
      ensures State() == Stacks([], [], 0)
      ensures Valid()
    {
      undoStack := [];
      redoStack := [];
      actionCount := 0;
    }

    function Info(): (r: HistoryInfo)
      reads this
      ensures r.undoCount == |undoStack| && r.redoCount == |redoStack|
      ensures r.totalActions == actionCount
      ensures r.canUndo == (r.undoCount > 0) && r.canRedo == (r.redoCount > 0)
    {
      HistoryInfo(|undoStack|, |redoStack|, actionCount, CanUndo(), CanRedo())
    }
  }

  // ---------------------------------------------------------------------
  // Snapshots

  /** `DocumentState`: the deep copies are plain values here. */
  datatype DocumentState = DocumentState(layersData: Dict, metadata: Dict)

  function StateToDict(s: DocumentState): (r: Dict)
    ensures Keys(r) == ["layers_data", "metadata"]
  {
    [("layers_data", VDict(s.layersData)), ("metadata", VDict(s.metadata))]
  }

  function StateFromDict(d: Dict): (r: Result<DocumentState>)
    ensures r.Err? ==> r.error.KeyError? || r.error == TypeError
  {
    var lv :- Lookup(d, "layers_data");
    var mv :- Lookup(d, "metadata");
    if lv.VDict? && mv.VDict? then Ok(DocumentState(lv.entries, mv.entries)) else Err(TypeError)
  }

  lemma StateRoundTrip(s: DocumentState)
    ensures StateFromDict(StateToDict(s)) == Ok(s)
  {
    var d := StateToDict(s);
    assert Get(d, "metadata") == Some(VDict(s.metadata)) by {
      assert d[1..][0] == ("metadata", VDict(s.metadata));
    }
  }

  class SnapshotManager {
    const maxSnapshots: int
    var snapshots: seq<DocumentState>

    ghost predicate Valid()
      reads this
    {
      |snapshots| <= MaxI(maxSnapshots, 0)
    }

    /** `SnapshotManager(max_snapshots)`; the default is 20. */
    constructor(maxSnapshots: int)
      ensures this.maxSnapshots == maxSnapshots && snapshots == []
      ensures Valid()
    {
      this.maxSnapshots := maxSnapshots;
      snapshots := [];
    }

    /** Appends, then evicts the oldest snapshot when over the limit. */
    method TakeSnapshot(layersData: Dict, metadata: Dict)
      modifies this
      ensures var s := old(snapshots) + [DocumentState(layersData, metadata)];
        snapshots == if |s| > maxSnapshots then s[1..] else s
      ensures old(Valid()) ==> Valid()
      ensures old(Valid()) ==> var s := old(snapshots) + [DocumentState(layersData, metadata)];
        |snapshots| == MinI(|s|, MaxI(maxSnapshots, 0)) && snapshots == s[|s| - |snapshots|..]
      ensures maxSnapshots > 0 ==> snapshots[|snapshots| - 1] == DocumentState(layersData, metadata)
    {
      snapshots := snapshots + [DocumentState(layersData, metadata)];
      if |snapshots| > maxSnapshots {
        snapshots := snapshots[1..];
      }
    }

    function LatestSnapshot(): (r: Option<DocumentState>)
      reads this
      ensures r.None? <==> |snapshots| == 0
      ensures r.Some? ==> r.value == snapshots[|snapshots| - 1]
    {
      if |snapshots| > 0 then Some(snapshots[|snapshots| - 1]) else None
    }

    function RestoreSnapshot(index: int): (r: Option<DocumentState>)
      reads this
      ensures r.Some? <==> -|snapshots| <= index < |snapshots|
      ensures r.Some? && index >= 0 ==> r.value == snapshots[index]
      ensures r.Some? && index < 0 ==> r.value == snapshots[|snapshots| + index]
    {
      if PyIndexOk(|snapshots|, index) then Some(snapshots[PyIndex(|snapshots|, index)]) else None
    }

    method Clear()
      modifies this
      ensures snapshots == []
      ensures Valid()
    {
      snapshots := [];
    }

    function SnapshotCount(): (r: nat)
      reads this
      ensures r == |snapshots|
    {
      |snapshots|
    }
  }
}
