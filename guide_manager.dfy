/** Non-printing guides (src/core/guide_manager.py). A guide is a value; the
    manager's list, global lock and selection are fields its methods update. */
module Guides {
  import opened Common

  datatype Orientation = Horizontal | Vertical

  /** `Guide` is a dataclass, so `==` (and with it `in` and `list.remove`)
      compares all four fields. */
  datatype Guide = Guide(orientation: Orientation, position: real, pageNum: int, locked: bool)

  /** The position of the first guide equal to `g`, as `list.index` finds it. */
  function IndexOf(gs: seq<Guide>, g: Guide): (r: Option<nat>)
    ensures r.None? <==> g !in gs
    ensures r.Some? ==> r.value < |gs| && gs[r.value] == g && g !in gs[..r.value]
  {
    if gs == [] then None
    else if gs[0] == g then Some(0)
    else match IndexOf(gs[1..], g)
      case None => None
      case Some(i) =>
        assert gs[1..][..i] == gs[1..i + 1];
        assert gs[..i + 1] == [gs[0]] + gs[1..i + 1];
        Some(i + 1)
  }

  /** `list.remove(g)` on a list that holds `g`: the first equal entry goes. */
  function RemoveFirst(gs: seq<Guide>, g: Guide): (r: seq<Guide>)
  {
    match IndexOf(gs, g)
    case None => gs
    case Some(i) => gs[..i] + gs[i + 1..]
  }

  /** Removing a present guide drops exactly one copy of it. */
  lemma RemoveFirstDropsOne(gs: seq<Guide>, g: Guide)
    requires g in gs
    ensures |RemoveFirst(gs, g)| == |gs| - 1
    ensures multiset(RemoveFirst(gs, g)) == multiset(gs) - multiset{g}
  {
    var i := IndexOf(gs, g).value;
    assert gs == gs[..i] + [gs[i]] + gs[i + 1..];
  }

  /** The guide visible on page `p`: global (page -1) or on that page. */
  predicate VisibleOn(g: Guide, p: int) { g.pageNum == -1 || g.pageNum == p }

  /** `get_guides_for_page`. */
  function ForPage(gs: seq<Guide>, p: int): (r: seq<Guide>)
    ensures |r| <= |gs|
  {
    if gs == [] then []
    else (if VisibleOn(gs[0], p) then [gs[0]] else []) + ForPage(gs[1..], p)
  }

  lemma {:induction false} ForPageMembers(gs: seq<Guide>, p: int, g: Guide)
    ensures g in ForPage(gs, p) <==> g in gs && VisibleOn(g, p)
  {
    if gs != [] {
      ForPageMembers(gs[1..], p, g);
      assert gs == [gs[0]] + gs[1..];
    }
  }

  /** Keeps the guides of one orientation, in order. */
  function OfOrientation(gs: seq<Guide>, o: Orientation): (r: seq<Guide>)
    ensures |r| <= |gs|
  {
    if gs == [] then []
    else (if gs[0].orientation == o then [gs[0]] else []) + OfOrientation(gs[1..], o)
  }

  lemma {:induction false} OfOrientationMembers(gs: seq<Guide>, o: Orientation, g: Guide)
    ensures g in OfOrientation(gs, o) <==> g in gs && g.orientation == o
  {
    if gs != [] {
      OfOrientationMembers(gs[1..], o, g);
      assert gs == [gs[0]] + gs[1..];
    }
  }

  /** The list comprehension of `clear_page_guides`: the guides not on `p`. */
  function NotOnPage(gs: seq<Guide>, p: int): (r: seq<Guide>)
    ensures |r| <= |gs|
  {
    if gs == [] then []
    else (if gs[0].pageNum != p then [gs[0]] else []) + NotOnPage(gs[1..], p)
  }

  lemma {:induction false} NotOnPageMembers(gs: seq<Guide>, p: int, g: Guide)
    ensures g in NotOnPage(gs, p) <==> g in gs && g.pageNum != p
  {
    if gs != [] {
      NotOnPageMembers(gs[1..], p, g);
      assert gs == [gs[0]] + gs[1..];
    }
  }

  /** Clearing one page's guides leaves what every other page shows
      untouched, global guides included, as long as the cleared page is a
      real page and not the "all pages" marker. */
  lemma {:induction false} ClearPageKeepsOtherPages(gs: seq<Guide>, p: int, q: int)
    requires p != -1 && q != p
    ensures ForPage(NotOnPage(gs, p), q) == ForPage(gs, q)
  {
    if gs != [] {
      ClearPageKeepsOtherPages(gs[1..], p, q);
      if gs[0].pageNum != p {
        assert NotOnPage(gs, p) == [gs[0]] + NotOnPage(gs[1..], p);
        assert ([gs[0]] + NotOnPage(gs[1..], p))[1..] == NotOnPage(gs[1..], p);
      } else {
        assert NotOnPage(gs, p) == NotOnPage(gs[1..], p);
        assert ForPage(gs, q) == ForPage(gs[1..], q);
      }
    }
  }

  /** After clearing page `p`, that page shows only the global guides. */
  lemma ClearPageLeavesGlobal(gs: seq<Guide>, p: int, g: Guide)
    ensures g in ForPage(NotOnPage(gs, p), p) <==> g in gs && g.pageNum == -1 && p != -1
  {
    ForPageMembers(NotOnPage(gs, p), p, g);
    NotOnPageMembers(gs, p, g);
  }

  /** Whether `g` is a hit for `find_guide_at_position`. */
  predicate Near(g: Guide, o: Orientation, position: real, tolerance: real)
  {
    g.orientation == o && AbsR(g.position - position) <= tolerance
  }

  /** The first guide of the list that is a hit. */
  function FirstNear(gs: seq<Guide>, o: Orientation, position: real, tolerance: real): (r: Option<nat>)
    ensures r.Some? ==> r.value < |gs| && Near(gs[r.value], o, position, tolerance)
    ensures r.Some? ==> forall j :: 0 <= j < r.value ==> !Near(gs[j], o, position, tolerance)
    ensures r.None? ==> forall j :: 0 <= j < |gs| ==> !Near(gs[j], o, position, tolerance)
  {
    if gs == [] then None
    else if Near(gs[0], o, position, tolerance) then Some(0)
    else match FirstNear(gs[1..], o, position, tolerance)
      case None => None
      case Some(i) => Some(i + 1)
  }

  /** `find_guide_at_position`: the first guide visible on the page with the
      right orientation within `tolerance` of the position. */
  function FindAt(gs: seq<Guide>, o: Orientation, position: real, p: int, tolerance: real): (r: Option<Guide>)
  {
    var vs := ForPage(gs, p);
    match FirstNear(vs, o, position, tolerance)
    case None => None
    case Some(i) => Some(vs[i])
  }

  /** A guide found is visible on the page, has the orientation asked for
      and lies within the tolerance; none is found only when no guide of the
      page qualifies. */
  lemma FindAtSound(gs: seq<Guide>, o: Orientation, position: real, p: int, tolerance: real)
    ensures FindAt(gs, o, position, p, tolerance).Some? ==>
      var g := FindAt(gs, o, position, p, tolerance).value;
      g in gs && VisibleOn(g, p) && Near(g, o, position, tolerance)
    ensures FindAt(gs, o, position, p, tolerance).None? ==>
      forall g :: g in gs && VisibleOn(g, p) ==> !Near(g, o, position, tolerance)
  {
    var vs := ForPage(gs, p);
    forall g | g in gs && VisibleOn(g, p)
      ensures g in vs
    {
      ForPageMembers(gs, p, g);
    }
    match FirstNear(vs, o, position, tolerance)
    case None =>
    case Some(i) => ForPageMembers(gs, p, vs[i]);
  }

  /** The list after `move_guide` moves a present guide. */
  function Moved(gs: seq<Guide>, g: Guide, newPosition: real): (r: seq<Guide>)
  {
    match IndexOf(gs, g)
    case None => gs
    case Some(i) => gs[i := g.(position := newPosition)]
  }

  /** The list after `toggle_guide_lock` flips a present guide. */
  function Toggled(gs: seq<Guide>, g: Guide): (r: seq<Guide>)
  {
    match IndexOf(gs, g)
    case None => gs
    case Some(i) => gs[i := g.(locked := !g.locked)]
  }

  /** Moving a guide changes only its position: every guide keeps its
      orientation, page and lock, and the others are untouched. */
  lemma MovedKeepsShape(gs: seq<Guide>, g: Guide, newPosition: real)
    ensures |Moved(gs, g, newPosition)| == |gs|
    ensures forall i :: 0 <= i < |gs| ==>
      Moved(gs, g, newPosition)[i] == gs[i].(position := Moved(gs, g, newPosition)[i].position)
    ensures g in gs ==> g.(position := newPosition) in Moved(gs, g, newPosition)
  {
  }

  /** Toggling a guide's lock twice gives back the original list, provided
      no guide equal to the flipped one was there already (otherwise the
      second toggle finds that earlier guide first). */
  lemma ToggledTwice(gs: seq<Guide>, g: Guide)
    requires g in gs && g.(locked := !g.locked) !in gs
    ensures Toggled(Toggled(gs, g), g.(locked := !g.locked)) == gs
  {
    var i := IndexOf(gs, g).value;
    var h := g.(locked := !g.locked);
    var t := gs[i := h];
    assert t[i] == h;
    assert forall j :: 0 <= j < |t| && j != i ==> t[j] == gs[j];
    assert IndexOf(t, h).value == i;
    assert h.(locked := !h.locked) == g;
  }

  class GuideManager {
    var guides: seq<Guide>
    var allLocked: bool
    var selected: Option<Guide>

    constructor()
      ensures guides == [] && !allLocked && selected == None
    {
      guides := [];
      allLocked := false;
      selected := None;
    }

    /** The `all_locked` setter. */
    method SetAllLocked(value: bool)
      modifies this
      ensures allLocked == value && guides == old(guides) && selected == old(selected)
    {
      allLocked := value;
    }

    /** The `selected_guide` setter. */
    method SetSelected(g: Option<Guide>)
      modifies this
      ensures selected == g && guides == old(guides) && allLocked == old(allLocked)
    {
      selected := g;
    }

    /** `add_guide`: appends an unlocked guide and returns it; the page
        defaults to -1, every page. */
    method AddGuide(o: Orientation, position: real, pageNum: int) returns (g: Guide)
      modifies this
      ensures g == Guide(o, position, pageNum, false)
      ensures guides == old(guides) + [g]
      ensures allLocked == old(allLocked) && selected == old(selected)
    {
      g := Guide(o, position, pageNum, false);
      guides := guides + [g];
    }

    /** `remove_guide`: reports whether an equal guide was present, removes
        the first one and clears the selection when it was that guide. */
    method RemoveGuide(g: Guide) returns (removed: bool)
      modifies this
      ensures removed <==> g in old(guides)
      ensures guides == RemoveFirst(old(guides), g)
      ensures selected == if removed && old(selected) == Some(g) then None else old(selected)
      ensures allLocked == old(allLocked)
    {
      match IndexOf(guides, g)
      case None =>
        removed := false;
      case Some(i) =>
        guides := guides[..i] + guides[i + 1..];
        if selected == Some(g) {
          selected := None;
        }
        removed := true;
    }

    /** `move_guide`: refused while the guide or all guides are locked, and
        for a guide that is not in the list. The selection follows the
        guide it names. */
    method MoveGuide(g: Guide, newPosition: real) returns (moved: bool)
      modifies this
      ensures moved <==> !old(allLocked) && !g.locked && g in old(guides)
      ensures guides == if moved then Moved(old(guides), g, newPosition) else old(guides)
      ensures selected == if moved && old(selected) == Some(g)
        then Some(g.(position := newPosition)) else old(selected)
      ensures allLocked == old(allLocked)
    {
      if allLocked || g.locked {
        return false;
      }
      match IndexOf(guides, g)
      case None =>
        moved := false;
      case Some(i) =>
        guides := guides[i := g.(position := newPosition)];
        if selected == Some(g) {
          selected := Some(g.(position := newPosition));
        }
        moved := true;
    }

    /** `toggle_guide_lock`: the new lock state of a present guide, false
        with nothing changed for an absent one. */
    method ToggleGuideLock(g: Guide) returns (locked: bool)
      modifies this
      ensures g in old(guides) ==> locked == !g.locked
      ensures g !in old(guides) ==> !locked
      ensures guides == Toggled(old(guides), g)
      ensures selected == if g in old(guides) && old(selected) == Some(g)
        then Some(g.(locked := !g.locked)) else old(selected)
      ensures allLocked == old(allLocked)
    {
      match IndexOf(guides, g)
      case None =>
        locked := false;
      case Some(i) =>
        guides := guides[i := g.(locked := !g.locked)];
        if selected == Some(g) {
          selected := Some(g.(locked := !g.locked));
        }
        locked := !g.locked;
    }

    function GuidesForPage(p: int): (r: seq<Guide>)
      reads this
      ensures forall g :: g in r ==> g in guides && VisibleOn(g, p)
    {
      var r := ForPage(guides, p);
      assert forall g :: g in r ==> g in guides && VisibleOn(g, p) by {
        forall g | g in r
          ensures g in guides && VisibleOn(g, p)
        {
          ForPageMembers(guides, p, g);
        }
      }
      r
    }

    /** `get_horizontal_guides` / `get_vertical_guides`: page -1 means every
        guide, any other page the guides visible on it. */
    function GuidesOf(o: Orientation, p: int): (r: seq<Guide>)
      reads this
      ensures forall g :: g in r ==> g in guides && g.orientation == o
      ensures p != -1 ==> forall g :: g in r ==> VisibleOn(g, p)
    {
      var base := if p == -1 then guides else GuidesForPage(p);
      var r := OfOrientation(base, o);
      assert forall g :: g in r ==> g in base && g.orientation == o by {
        forall g | g in r
          ensures g in base && g.orientation == o
        {
          OfOrientationMembers(base, o, g);
        }
      }
      r
    }

    method ClearAllGuides()
      modifies this
      ensures guides == [] && selected == None && allLocked == old(allLocked)
    {
      guides := [];
      selected := None;
    }

    /** `clear_page_guides`: drops the guides of page `p` and a selection on
        that page. */
    method ClearPageGuides(p: int)
      modifies this
      ensures guides == NotOnPage(old(guides), p)
      ensures selected == if old(selected).Some? && old(selected).value.pageNum == p
        then None else old(selected)
      ensures allLocked == old(allLocked)
    {
      guides := NotOnPage(guides, p);
      if selected.Some? && selected.value.pageNum == p {
        selected := None;
      }
    }

    function FindGuideAtPosition(o: Orientation, position: real, p: int, tolerance: real): (r: Option<Guide>)
      reads this
      ensures r.Some? ==> r.value in guides && VisibleOn(r.value, p) && Near(r.value, o, position, tolerance)
      ensures r.None? ==> forall g :: g in guides && VisibleOn(g, p) ==> !Near(g, o, position, tolerance)
    {
      FindAtSound(guides, o, position, p, tolerance);
      FindAt(guides, o, position, p, tolerance)
    }

    function IsGuideLocked(g: Guide): (r: bool)
      reads this
      ensures r <==> allLocked || g.locked
    {
      allLocked || g.locked
    }
  }
}
