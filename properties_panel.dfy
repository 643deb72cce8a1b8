/** The properties side panel (src/ui/properties_panel.py): the recent
    colour swatches, the layer list of the current page, edits made in that
    list, the copy of a layer and the opacity and fill controls. Widgets
    are reduced to the values they show. */
module Properties {
  import opened Common
  import opened Values
  import opened Layers
  import opened InteractiveLayers

  // ---------------------------------------------------------------------
  // Recent colours

  const MAX_RECENT_COLORS: nat := 8
  const DEFAULT_RECENT_COLORS: seq<string> := ["#FFFFFF", "#000000"]
  /** The colour a swatch shows before it has a recent colour. */
  const EMPTY_SWATCH := "#CCCCCC"

  lemma UpperIdempotent(s: string)
    ensures Upper(Upper(s)) == Upper(s)
  {
  }

  /** `s[:n]`. */
  function Take(s: seq<string>, n: nat): (r: seq<string>)
    ensures |r| == MinI(n, |s|) && r == s[..|r|]
  {
    if |s| <= n then s else s[..n]
  }

  /** The recent colours other than `c`, ignoring case, in their order. */
  function OtherColors(recent: seq<string>, c: string): (r: seq<string>)
    ensures |r| <= |recent|
  {
    if recent == [] then []
    else if Upper(recent[0]) != c then [recent[0]] + OtherColors(recent[1..], c)
    else OtherColors(recent[1..], c)
  }

  /** The filter keeps exactly the colours that differ from `c`. */
  lemma {:induction false} OtherColorsMembers(recent: seq<string>, c: string)
    ensures forall x :: x in OtherColors(recent, c) <==> x in recent && Upper(x) != c
  {
    if recent != [] {
      OtherColorsMembers(recent[1..], c);
      assert recent == [recent[0]] + recent[1..];
    }
  }

  /** A colour the filter keeps has a place in its result. */
  lemma {:induction false} KeptAt(recent: seq<string>, c: string, j: nat) returns (k: nat)
    requires j < |recent| && Upper(recent[j]) != c
    ensures k < |OtherColors(recent, c)| && OtherColors(recent, c)[k] == recent[j]
    ensures k <= j
  {
    var rest := OtherColors(recent[1..], c);
    if j == 0 {
      k := 0;
    } else {
      assert recent[1..][j - 1] == recent[j];
      var k0 := KeptAt(recent[1..], c, j - 1);
      k := if Upper(recent[0]) != c then k0 + 1 else k0;
    }
  }

  /** Filtering keeps the relative order of the colours it keeps. */
  lemma {:induction false} OtherColorsKeepOrder(recent: seq<string>, c: string, i: nat, j: nat)
    returns (i': nat, j': nat)
    requires i < j < |recent| && Upper(recent[i]) != c && Upper(recent[j]) != c
    ensures i' < j' < |OtherColors(recent, c)|
    ensures OtherColors(recent, c)[i'] == recent[i] && OtherColors(recent, c)[j'] == recent[j]
  {
    assert recent[1..][j - 1] == recent[j];
    if i == 0 {
      j' := FirstKeptBefore(recent, c, j);
      i' := 0;
    } else {
      assert recent[1..][i - 1] == recent[i];
      var a, b := OtherColorsKeepOrder(recent[1..], c, i - 1, j - 1);
      i', j' := KeptShift(recent, c, a, b);
    }
  }

  /** A kept first colour comes before every other kept colour. */
  lemma FirstKeptBefore(recent: seq<string>, c: string, j: nat) returns (j': nat)
    requires 0 < j < |recent| && Upper(recent[0]) != c && Upper(recent[j]) != c
    ensures 0 < j' < |OtherColors(recent, c)|
    ensures OtherColors(recent, c)[0] == recent[0] && OtherColors(recent, c)[j'] == recent[j]
  {
    var rest := OtherColors(recent[1..], c);
    assert OtherColors(recent, c) == [recent[0]] + rest;
    assert recent[1..][j - 1] == recent[j];
    var k := KeptAt(recent[1..], c, j - 1);
    j' := k + 1;
  }

  /** Positions in the filtered tail move up by one when the first colour
      is kept, and stay put otherwise. */
  lemma KeptShift(recent: seq<string>, c: string, a: nat, b: nat) returns (i': nat, j': nat)
    requires recent != [] && a < b < |OtherColors(recent[1..], c)|
    ensures i' < j' < |OtherColors(recent, c)|
    ensures OtherColors(recent, c)[i'] == OtherColors(recent[1..], c)[a]
    ensures OtherColors(recent, c)[j'] == OtherColors(recent[1..], c)[b]
  {
    var rest := OtherColors(recent[1..], c);
    if Upper(recent[0]) != c {
      assert OtherColors(recent, c) == [recent[0]] + rest;
      i', j' := a + 1, b + 1;
    } else {
      i', j' := a, b;
    }
  }

  predicate NoDuplicates(s: seq<string>)
  {
    forall i, j :: 0 <= i < j < |s| ==> s[i] != s[j]
  }

  lemma {:induction false} OtherColorsNoDuplicates(recent: seq<string>, c: string)
    requires NoDuplicates(recent)
    ensures NoDuplicates(OtherColors(recent, c))
  {
    if recent != [] {
      assert NoDuplicates(recent[1..]) by {
        forall i, j | 0 <= i < j < |recent[1..]| ensures recent[1..][i] != recent[1..][j] {
          assert recent[1..][i] == recent[i + 1] && recent[1..][j] == recent[j + 1];
        }
      }
      OtherColorsNoDuplicates(recent[1..], c);
      OtherColorsMembers(recent[1..], c);
      var rest := OtherColors(recent[1..], c);
      if Upper(recent[0]) != c {
        assert recent[0] !in recent[1..] by {
          forall k | 0 <= k < |recent[1..]| ensures recent[1..][k] != recent[0] {
            assert recent[1..][k] == recent[k + 1];
          }
        }
        assert recent[0] !in rest;
        var r := [recent[0]] + rest;
        forall i, j | 0 <= i < j < |r| ensures r[i] != r[j] {
          if i > 0 {
            assert r[i] == rest[i - 1] && r[j] == rest[j - 1];
          } else {
            assert r[j] == rest[j - 1];
          }
        }
      }
    }
  }

  /** The list `add_recent_color` leaves: the colour upper-cased at the
      front, no other copy of it, at most 8 entries; nothing changes when
      the colour is already first. */
  function WithRecentColor(recent: seq<string>, color: string): (r: seq<string>)
    ensures |recent| > 0 && Upper(recent[0]) == Upper(color) ==> r == recent
    ensures !(|recent| > 0 && Upper(recent[0]) == Upper(color)) ==>
      r == Take([Upper(color)] + OtherColors(recent, Upper(color)), MAX_RECENT_COLORS)
  {
    var c := Upper(color);
    if |recent| > 0 && Upper(recent[0]) == c then recent
    else
      Take([c] + OtherColors(recent, c), MAX_RECENT_COLORS)
  }

  /** The recent colours are upper case, distinct and at most 8. */
  predicate RecentValid(recent: seq<string>)
  {
    |recent| <= MAX_RECENT_COLORS
    && (forall i :: 0 <= i < |recent| ==> Upper(recent[i]) == recent[i])
    && NoDuplicates(recent)
  }

  lemma DefaultRecentValid()
    ensures RecentValid(DEFAULT_RECENT_COLORS)
  {
    var d := DEFAULT_RECENT_COLORS;
    assert d[0] == "#FFFFFF" && d[1] == "#000000";
    UpperUnchanged(d[0]);
    UpperUnchanged(d[1]);
    assert d[0][1] != d[1][1];
  }

  /** A string without lower-case letters is its own upper case. */
  lemma UpperUnchanged(s: string)
    requires forall i :: 0 <= i < |s| ==> !IsLowerAscii(s[i])
    ensures Upper(s) == s
  {
  }

  /** Adding a colour keeps the list valid, puts the colour first and
      leaves no other copy of it. */
  lemma RecentColorAdded(recent: seq<string>, color: string)
    requires RecentValid(recent)
    ensures var r := WithRecentColor(recent, color);
      RecentValid(r) && |r| > 0 && r[0] == Upper(color)
      && forall i :: 1 <= i < |r| ==> Upper(r[i]) != Upper(color)
  {
    var c := Upper(color);
    UpperIdempotent(color);
    if !(|recent| > 0 && Upper(recent[0]) == c) {
      var others := OtherColors(recent, c);
      OtherColorsNoDuplicates(recent, c);
      OtherColorsMembers(recent, c);
      var full := [c] + others;
      assert forall i :: 1 <= i < |full| ==> full[i] == others[i - 1];
      assert forall x :: x in others ==> Upper(x) == x by {
        forall x | x in others ensures Upper(x) == x {
          var k :| 0 <= k < |recent| && recent[k] == x;
        }
      }
      assert forall i :: 1 <= i < |full| ==> Upper(full[i]) != c;
      assert NoDuplicates(full) by {
        forall i, j | 0 <= i < j < |full| ensures full[i] != full[j] {
          if i == 0 {
            assert Upper(full[j]) == full[j];
          }
        }
      }
    } else {
      assert forall i :: 1 <= i < |recent| ==> recent[i] != recent[0];
    }
  }

  /** The colours that stay behind the new one keep their relative order. */
  lemma RecentColorKeepsOrder(recent: seq<string>, color: string)
    requires !(|recent| > 0 && Upper(recent[0]) == Upper(color))
    ensures var r := WithRecentColor(recent, color);
      r[1..] == Take(OtherColors(recent, Upper(color)), MAX_RECENT_COLORS - 1)
  {
  }

  /** A swatch button: its colour and whether it is shown. */
  datatype Swatch = Swatch(color: string, shown: bool)

  /** `ColorSwatchPanel`: the recent colours and the eight swatches. */
  class ColorSwatchPanel {
    var recentColors: seq<string>
    var swatches: seq<Swatch>

    /** One swatch per slot; swatch i shows recent colour i exactly when
        there is one. */
    predicate Valid()
      reads this
    {
      RecentValid(recentColors)
      && |swatches| == MAX_RECENT_COLORS
      && forall i :: 0 <= i < |swatches| ==>
        (swatches[i].shown <==> i < |recentColors|)
        && (i < |recentColors| ==> swatches[i].color == recentColors[i])
    }

    constructor()
      ensures recentColors == DEFAULT_RECENT_COLORS
      ensures Valid()
    {
      recentColors := DEFAULT_RECENT_COLORS;
      DefaultRecentValid();
      var s := [];
      var i := 0;
      while i < MAX_RECENT_COLORS
        invariant 0 <= i <= MAX_RECENT_COLORS && |s| == i
        invariant forall k :: 0 <= k < i ==>
          s[k] == if k < |DEFAULT_RECENT_COLORS| then Swatch(DEFAULT_RECENT_COLORS[k], true)
                  else Swatch(EMPTY_SWATCH, false)
      {
        var color := if i < |DEFAULT_RECENT_COLORS| then DEFAULT_RECENT_COLORS[i] else EMPTY_SWATCH;
        s := s + [Swatch(color, i < |DEFAULT_RECENT_COLORS|)];
        i := i + 1;
      }
      swatches := s;
    }

    /** `add_recent_color`, followed by `_update_swatches` when the list
        changed. */
    method AddRecentColor(color: string)
      requires Valid()
      modifies this
      ensures recentColors == WithRecentColor(old(recentColors), color)
      ensures Valid()
      ensures recentColors[0] == Upper(color)
    {
      RecentColorAdded(recentColors, color);
      var c := Upper(color);
      if |recentColors| > 0 && Upper(recentColors[0]) == c {
        return;
      }
      recentColors := OtherColors(recentColors, c);
      recentColors := [c] + recentColors;
      if |recentColors| > MAX_RECENT_COLORS {
        recentColors := recentColors[..MAX_RECENT_COLORS];
      }
      UpdateSwatches();
    }

    /** `_update_swatches`: swatch i takes recent colour i and is shown, or
        is hidden keeping its colour. */
    method UpdateSwatches()
      requires |swatches| == MAX_RECENT_COLORS
      modifies this
      ensures recentColors == old(recentColors) && |swatches| == MAX_RECENT_COLORS
      ensures forall i :: 0 <= i < |swatches| ==>
        swatches[i] == if i < |recentColors| then Swatch(recentColors[i], true)
                       else old(swatches)[i].(shown := false)
    {
      var s := swatches;
      var i := 0;
      while i < |s|
        invariant 0 <= i <= |s| == MAX_RECENT_COLORS
        invariant forall k :: 0 <= k < i ==>
          s[k] == if k < |recentColors| then Swatch(recentColors[k], true)
                  else old(swatches)[k].(shown := false)
        invariant forall k :: i <= k < |s| ==> s[k] == old(swatches)[k]
      {
        if i < |recentColors| {
          s := s[i := Swatch(recentColors[i], true)];
        } else {
          s := s[i := s[i].(shown := false)];
        }
        i := i + 1;
      }
      swatches := s;
    }
  }

  // ---------------------------------------------------------------------
  // Layer list

  /** A row of the layer list: the name shown, the check box and the
      layer id kept as item data. */
  datatype Item = Item(text: string, checked: bool, layerId: string)

  function ItemOf(l: Layer): Item
  {
    Item(DisplayName(l), l.visible, l.id)
  }

  /** The rows listing `ls` from its last layer to its first; with `ls`
      in ascending z order, the topmost layer comes first. */
  function Rows(ls: seq<Layer>): (r: seq<Item>)
    ensures |r| == |ls|
    ensures forall i :: 0 <= i < |ls| ==> r[i] == ItemOf(ls[|ls| - 1 - i])
  {
    if ls == [] then [] else [ItemOf(ls[|ls| - 1])] + Rows(ls[..|ls| - 1])
  }

  /** The loop of `refresh_layers`: walks `page` from its last layer down,
      adding one row per layer. */
  method ListRows(page: seq<Layer>) returns (rows: seq<Item>)
    ensures rows == Rows(page)
  {
    rows := [];
    var i := |page|;
    while i > 0
      invariant 0 <= i <= |page| && |rows| == |page| - i
      invariant forall k :: 0 <= k < |rows| ==> rows[k] == ItemOf(page[|page| - 1 - k])
    {
      i := i - 1;
      rows := rows + [ItemOf(page[i])];
    }
  }

  /** `PropertiesPanel`: the layer store it shows (possibly none), the
      current page and the rows of its layer list. */
  class PropertiesPanel {
    var manager: LayerManager?
    var currentPage: int
    var items: seq<Item>

    constructor(m: LayerManager?)
      ensures manager == m && currentPage == 0 && items == []
    {
      manager := m;
      currentPage := 0;
      items := [];
    }

    /** `refresh_layers`: no rows without a store; otherwise the current
        page's layers, highest z-index first. */
    method RefreshLayers()
      modifies this
      ensures manager == old(manager) && currentPage == old(currentPage)
      ensures manager == null ==> items == []
      ensures manager != null ==> items == Rows(manager.LayersForPage(currentPage))
    {
      var rows := [];
      if manager == null {
        items := rows;
        return;
      }
      var page := manager.LayersForPage(currentPage);
      rows := ListRows(page);
      items := rows;
    }

    /** `set_current_page`. */
    method SetCurrentPage(p: int)
      modifies this
      ensures currentPage == p && manager == old(manager)
      ensures manager == null ==> items == []
      ensures manager != null ==> items == Rows(manager.LayersForPage(p))
    {
      currentPage := p;
      RefreshLayers();
    }

    /** `_on_layer_item_changed` for the row of `layerId` now checked as
        `checked` and reading `text`: the layer's visibility follows the
        check box, and a text that differs from the shown name and is not
        blank becomes its name. Returns the visibility and the name
        signalled, if any. */
    method LayerItemChanged(layerId: string, checked: bool, text: string)
      returns (visibility: Option<bool>, renamed: Option<string>)
      modifies manager
      ensures manager == old(manager)
      ensures manager == null || IndexOf(old(manager.layers), layerId).None? ==>
        visibility == None && renamed == None
        && (manager != null ==> manager.layers == old(manager.layers))
      ensures manager != null && IndexOf(old(manager.layers), layerId).Some? ==>
        var i := IndexOf(old(manager.layers), layerId).value;
        var l := old(manager.layers)[i];
        manager.layers == old(manager.layers)[i := Edited(l, checked, text)]
        && (visibility.Some? <==> l.visible != checked)
        && (visibility.Some? ==> visibility.value == checked)
        && (renamed.Some? <==> DisplayName(l) != text && !IsBlank(text))
        && (renamed.Some? ==> renamed.value == text)
      ensures manager != null ==> manager.nextZ == old(manager.nextZ)
    {
      visibility, renamed := None, None;
      if manager == null {
        return;
      }
      match IndexOf(manager.layers, layerId)
      case None =>
      case Some(i) =>
        var l := manager.layers[i];
        if l.visible != checked {
          visibility := Some(checked);
        }
        if DisplayName(l) != text && !IsBlank(text) {
          renamed := Some(text);
        }
        manager.layers := manager.layers[i := Edited(l, checked, text)];
    }
  }

  /** The layer after an edit of its row. */
  function Edited(l: Layer, checked: bool, text: string): (r: Layer)
    ensures r.visible == checked
    ensures r.id == l.id && r.pageNum == l.pageNum && r.data == l.data && r.kind == l.kind
    ensures r.zIndex == l.zIndex && r.locked == l.locked && r.opacity == l.opacity
    ensures DisplayName(l) != text && !IsBlank(text) ==> r.name == text
    ensures !(DisplayName(l) != text && !IsBlank(text)) ==> r.name == l.name
  {
    var l1 := l.(visible := checked);
    if DisplayName(l) != text && !IsBlank(text) then l1.(name := text) else l1
  }

  /** A plain layer renamed from its row shows the new name. */
  lemma RenamedPlainShowsText(l: Layer, checked: bool, text: string)
    requires l.kind.Plain? && !IsBlank(text)
    ensures DisplayName(Edited(l, checked, text)) == text
  {
  }

  // ---------------------------------------------------------------------
  // Copying a layer

  const COPY_OFFSET: real := 20.0

  /** `copied.data[key] = deepcopy(value)` for every entry of `src` whose
      key is not in `skip`, in `src`'s order. */
  function CopyEntries(d: Dict, src: Dict, skip: seq<string>): (r: Dict)
    decreases |src|
  {
    if src == [] then d
    else
      var d1 := if src[0].0 in skip then d else Put(d, src[0].0, src[0].1);
      CopyEntries(d1, src[1..], skip)
  }

  predicate UniqueKeys(d: Dict)
  {
    forall i, j :: 0 <= i < j < |d| ==> d[i].0 != d[j].0
  }

  /** After the copying loop a skipped key or one `src` lacks reads as
      before, and any other key reads as in `src`. */
  lemma {:induction false} CopyEntriesGet(d: Dict, src: Dict, skip: seq<string>, k: string)
    requires UniqueKeys(src)
    ensures k in skip || !HasKey(src, k) ==> Get(CopyEntries(d, src, skip), k) == Get(d, k)
    ensures k !in skip && HasKey(src, k) ==> Get(CopyEntries(d, src, skip), k) == Get(src, k)
    decreases |src|
  {
    if src != [] {
      var d1 := if src[0].0 in skip then d else Put(d, src[0].0, src[0].1);
      assert UniqueKeys(src[1..]) by {
        forall i, j | 0 <= i < j < |src[1..]| ensures src[1..][i].0 != src[1..][j].0 {
          assert src[1..][i] == src[i + 1] && src[1..][j] == src[j + 1];
        }
      }
      CopyEntriesGet(d1, src[1..], skip, k);
      if src[0].0 == k {
        forall j | 0 <= j < |src[1..]| ensures src[1..][j].0 != k {
          assert src[1..][j] == src[j + 1];
        }
        NotHasKey(src[1..], k);
        if k !in skip {
          GetPutSame(d, k, src[0].1);
        }
      } else {
        if src[0].0 !in skip {
          GetPutOther(d, src[0].0, src[0].1, k);
        }
      }
    }
  }

  /** A key no entry carries is not in the dictionary. */
  lemma {:induction false} NotHasKey(d: Dict, k: string)
    requires forall j :: 0 <= j < |d| ==> d[j].0 != k
    ensures !HasKey(d, k)
  {
    if d != [] {
      assert forall j :: 0 <= j < |d[1..]| ==> d[1..][j] == d[j + 1];
      NotHasKey(d[1..], k);
    }
  }

  /** The new layer of an interactive kind, built at (`nx`, `ny`) as the
      constructor call in `_create_layer_copy` builds it. */
  function CopyBase(orig: Layer, nx: real, ny: real, freshId: string): (r: Result<Layer>)
    requires orig.kind.Interactive?
    ensures r.Err? ==> r.error in {TypeError, AttributeError}
    ensures r.Ok? ==> r.value.kind == FreshKind(orig.kind.shape) && r.value.pageNum == orig.pageNum
  {
    var d := orig.data;
    match orig.kind.shape
    case TextBox =>
      Ok(NewTextField(orig.pageNum, nx, ny, GetOr(d, "text", VStr("")),
                      GetOr(d, "width", VInt(150)), GetOr(d, "height", VInt(40)), freshId))
    case Picture =>
      NewImageLayer(orig.pageNum, nx, ny, GetOr(d, "pixmap", VNone), GetOr(d, "width", VNone),
                    GetOr(d, "height", VNone), GetOr(d, "image_path", VNone), freshId)
    case Glyph =>
      NewSymbolLayer(orig.pageNum, nx, ny, GetOr(d, "symbol", VStr("")),
                     GetOr(d, "font_size", VInt(24)), freshId)
  }

  /** The keys the constructor of each interactive kind already set from
      the original, which the copying loop skips. */
  function SkippedKeys(shape: Shape): seq<string>
  {
    match shape
    case TextBox => ["x", "y"]
    case Picture => ["x", "y", "pixmap", "width", "height", "image_path"]
    case Glyph => ["x", "y", "symbol", "font_size"]
  }

  /** The copy's data: the constructor's entries, then the original's
      entries it did not set, then the moved position. */
  function CopiedData(base: Dict, src: Dict, skip: seq<string>, nx: real, ny: real): Dict
  {
    Put(Put(CopyEntries(base, src, skip), "x", VReal(nx)), "y", VReal(ny))
  }

  /** The copy's data holds the moved position and every entry of the
      original that is not skipped. */
  lemma CopiedDataGet(base: Dict, src: Dict, skip: seq<string>, nx: real, ny: real, k: string)
    requires UniqueKeys(src)
    ensures var d := CopiedData(base, src, skip, nx, ny);
      Get(d, "x") == Some(VReal(nx)) && Get(d, "y") == Some(VReal(ny))
      && (k !in skip && k != "x" && k != "y" && HasKey(src, k) ==> Get(d, k) == Get(src, k))
  {
    var d := CopyEntries(base, src, skip);
    var dx := Put(d, "x", VReal(nx));
    GetPutSame(d, "x", VReal(nx));
    GetPutSame(dx, "y", VReal(ny));
    GetPutOther(dx, "y", VReal(ny), "x");
    if k !in skip && k != "x" && k != "y" && HasKey(src, k) {
      CopyEntriesGet(base, src, skip, k);
      GetPutOther(d, "x", VReal(nx), k);
      GetPutOther(dx, "y", VReal(ny), k);
    }
  }

  /** `_create_layer_copy`: an interactive layer is rebuilt 20 units right
      of and below the original with the rest of its data copied; a plain
      layer is copied whole under the name "<name> (copy)". Either way the
      copy gets the fresh id and the original's visibility, lock, opacity
      and (for interactive kinds) rotation. */
  function LayerCopy(orig: Layer, freshId: string): (r: Result<Layer>)
    ensures r.Err? ==> orig.kind.Interactive? && r.error in {TypeError, AttributeError}
  {
    var copied :-
      if orig.kind.Plain? then Ok(NewLayer(orig.ltype, orig.pageNum, orig.name + " (copy)", freshId).(data := orig.data))
      else MovedCopy(orig, freshId);
    Ok(Finished(copied, orig, freshId))
  }

  /** The interactive copy before its id and flags are set. */
  function MovedCopy(orig: Layer, freshId: string): (r: Result<Layer>)
    requires orig.kind.Interactive?
    ensures r.Err? ==> r.error in {TypeError, AttributeError}
    ensures r.Ok? ==> r.value.kind == FreshKind(orig.kind.shape) && r.value.pageNum == orig.pageNum
  {
    MovedFrom(orig, NumOr(orig.data, "x", 0.0), NumOr(orig.data, "y", 0.0), freshId)
  }

  /** The interactive copy moved from the original's position as read
      (`rx`, `ry`), failing when either could not be read. */
  function MovedFrom(orig: Layer, rx: Result<real>, ry: Result<real>, freshId: string): (r: Result<Layer>)
    requires orig.kind.Interactive?
    requires rx.Err? ==> rx.error == TypeError
    requires ry.Err? ==> ry.error == TypeError
    ensures r.Err? ==> r.error in {TypeError, AttributeError}
    ensures r.Ok? ==> r.value.kind == FreshKind(orig.kind.shape) && r.value.pageNum == orig.pageNum
    ensures r.Ok? ==> rx.Ok? && ry.Ok?
    ensures r.Ok? ==> r == MovedCopyAt(orig, rx.value + COPY_OFFSET, ry.value + COPY_OFFSET, freshId)
  {
    var x :- rx;
    var y :- ry;
    MovedCopyAt(orig, x + COPY_OFFSET, y + COPY_OFFSET, freshId)
  }

  /** The interactive copy built at (`nx`, `ny`). */
  function MovedCopyAt(orig: Layer, nx: real, ny: real, freshId: string): (r: Result<Layer>)
    requires orig.kind.Interactive?
    ensures r.Err? ==> r.error in {TypeError, AttributeError}
    ensures r.Ok? ==> r.value.kind == FreshKind(orig.kind.shape) && r.value.pageNum == orig.pageNum
  {
    var base :- CopyBase(orig, nx, ny, freshId);
    Ok(base.(data := CopiedData(base.data, orig.data, SkippedKeys(orig.kind.shape), nx, ny)))
  }

  /** A moved copy's data is the constructor's data completed from the
      original's entries, at the original's position plus the offset. */
  lemma MovedCopyData(orig: Layer, freshId: string)
    requires orig.kind.Interactive? && MovedCopy(orig, freshId).Ok?
    ensures NumOr(orig.data, "x", 0.0).Ok? && NumOr(orig.data, "y", 0.0).Ok?
    ensures var nx := NumOr(orig.data, "x", 0.0).value + COPY_OFFSET;
      var ny := NumOr(orig.data, "y", 0.0).value + COPY_OFFSET;
      CopyBase(orig, nx, ny, freshId).Ok?
      && MovedCopy(orig, freshId).value.data
         == CopiedData(CopyBase(orig, nx, ny, freshId).value.data, orig.data,
                       SkippedKeys(orig.kind.shape), nx, ny)
  {
    var rx := NumOr(orig.data, "x", 0.0);
    var ry := NumOr(orig.data, "y", 0.0);
    assert MovedCopy(orig, freshId) == MovedFrom(orig, rx, ry, freshId);
    MovedCopyAtData(orig, rx.value + COPY_OFFSET, ry.value + COPY_OFFSET, freshId);
  }

  /** The copy built at (`nx`, `ny`) has the constructor's data completed
      from the original's entries. */
  lemma MovedCopyAtData(orig: Layer, nx: real, ny: real, freshId: string)
    requires orig.kind.Interactive? && MovedCopyAt(orig, nx, ny, freshId).Ok?
    ensures CopyBase(orig, nx, ny, freshId).Ok?
    ensures MovedCopyAt(orig, nx, ny, freshId).value.data
         == CopiedData(CopyBase(orig, nx, ny, freshId).value.data, orig.data,
                       SkippedKeys(orig.kind.shape), nx, ny)
  {
  }

  /** The last step of the copy: the fresh id, the original's flags and,
      between interactive layers, its rotation. */
  function Finished(copied: Layer, orig: Layer, freshId: string): Layer
  {
    var k := if orig.kind.Interactive? && copied.kind.Interactive?
             then copied.kind.(rotation := orig.kind.rotation) else copied.kind;
    copied.(id := freshId, visible := orig.visible, locked := orig.locked,
            opacity := orig.opacity, kind := k)
  }

  /** Every copy is a new layer on the original's page, with the fresh id
      and the original's visibility, lock, opacity and kind. */
  lemma CopyKeepsState(orig: Layer, freshId: string)
    requires LayerCopy(orig, freshId).Ok?
    ensures var c := LayerCopy(orig, freshId).value;
      c.id == freshId && c.pageNum == orig.pageNum
      && (orig.kind.Plain? ==> c.ltype == orig.ltype)
      && c.visible == orig.visible && c.locked == orig.locked && c.opacity == orig.opacity
      && c.kind.Plain? == orig.kind.Plain?
      && (orig.kind.Interactive? ==>
            c.kind.shape == orig.kind.shape && c.kind.rotation == orig.kind.rotation
            && !c.kind.selected)
  {
    if orig.kind.Interactive? {
      assert LayerCopy(orig, freshId).value == Finished(MovedCopy(orig, freshId).value, orig, freshId);
    }
  }

  /** A plain layer's copy carries its whole data under "<name> (copy)". */
  lemma PlainCopy(orig: Layer, freshId: string)
    requires orig.kind.Plain?
    ensures LayerCopy(orig, freshId).Ok?
    ensures var c := LayerCopy(orig, freshId).value;
      c.name == orig.name + " (copy)" && c.data == orig.data && c.zIndex == 0
  {
  }

  /** An interactive layer's copy sits 20 units right of and below the
      original and carries every other data entry of the original. */
  lemma InteractiveCopyData(orig: Layer, freshId: string, k: string)
    requires orig.kind.Interactive? && UniqueKeys(orig.data)
    requires LayerCopy(orig, freshId).Ok?
    ensures var c := LayerCopy(orig, freshId).value;
      Get(c.data, "x") == Some(VReal(NumOr(orig.data, "x", 0.0).value + COPY_OFFSET))
      && Get(c.data, "y") == Some(VReal(NumOr(orig.data, "y", 0.0).value + COPY_OFFSET))
      && (k !in SkippedKeys(orig.kind.shape) && HasKey(orig.data, k) ==> Get(c.data, k) == Get(orig.data, k))
  {
    var c := LayerCopy(orig, freshId).value;
    var m := MovedCopy(orig, freshId).value;
    assert c == Finished(m, orig, freshId);
    MovedCopyData(orig, freshId);
    var nx := NumOr(orig.data, "x", 0.0).value + COPY_OFFSET;
    var ny := NumOr(orig.data, "y", 0.0).value + COPY_OFFSET;
    var base := CopyBase(orig, nx, ny, freshId).value;
    var skip := SkippedKeys(orig.kind.shape);
    assert c.data == CopiedData(base.data, orig.data, skip, nx, ny);
    assert "x" in skip && "y" in skip;
    CopiedDataGet(base.data, orig.data, skip, nx, ny, k);
  }

  // ---------------------------------------------------------------------
  // Opacity and fill

  /** `_on_opacity_changed`: slider value `v` in percent. */
  function SliderOpacity(v: int): (r: real)
    ensures r * 100.0 == v as real
  {
    v as real / 100.0
  }

  /** `set_opacity`: the slider position for an opacity, `int()` truncating
      the percentage towards zero. */
  function OpacitySlider(opacity: real): (r: int)
    ensures opacity >= 0.0 ==> 0 <= r && r as real <= opacity * 100.0 < r as real + 1.0
    ensures opacity < 0.0 ==> r <= 0 && r as real - 1.0 < opacity * 100.0 <= r as real
  {
    Trunc(opacity * 100.0)
  }

  /** Setting the slider from an opacity it produced gives the same
      position back (in exact arithmetic). */
  lemma SliderRoundTrip(v: int)
    ensures OpacitySlider(SliderOpacity(v)) == v
  {
    assert SliderOpacity(v) * 100.0 == v as real;
  }

  /** `_on_no_fill_changed`: the fill button's enabled state and the fill
      colour signalled. */
  function NoFillChanged(checked: bool, buttonColor: string): (r: (string, bool))
    ensures r.1 <==> !checked
    ensures checked ==> r.0 == ""
    ensures !checked ==> r.0 == buttonColor
  {
    if checked then ("", false) else (buttonColor, true)
  }

  /** Ticking "None" and then clearing it again signals "no fill" and then
      the colour the button held all along, with the button usable again:
      "None" never loses the chosen fill. */
  lemma NoFillUndone(buttonColor: string)
    ensures NoFillChanged(true, buttonColor).0 == ""
    ensures NoFillChanged(false, buttonColor) == (buttonColor, true)
  {
  }
}
