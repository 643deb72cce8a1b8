/** The page sidebar (src/ui/thumbnail_panel.py): the thumbnail container's
    selection, its drag-and-drop state machine and drop index, and the
    headings tree built from the document's table of contents. Card
    geometry enters as the vertical centres of the cards; painting and
    animation are not modelled. */
module Thumbnails {
  import opened Common

  // ---------------------------------------------------------------------
  // Selection and drag and drop

  /** The pages from `lo` to `hi`, both included, as `_select_range`
      adds them. */
  function PageRange(lo: int, hi: int): (r: set<int>)
    ensures forall x :: x in r <==> lo <= x <= hi
    decreases hi - lo
  {
    if lo > hi then {} else {lo} + PageRange(lo + 1, hi)
  }

  /** `_calculate_drop_index` from card `i` on: the first card that is not
      dragged and whose centre lies below `y`, or the number of cards. */
  function DropIndexFrom(centres: seq<real>, drag: seq<int>, y: real, i: nat): (r: int)
    requires i <= |centres|
    decreases |centres| - i
  {
    if i == |centres| then |centres|
    else if i !in drag && y < centres[i] then i
    else DropIndexFrom(centres, drag, y, i + 1)
  }

  /** The drop index lands in front of a card that stays, one whose centre
      is below the pointer, and every card in front of it that stays has
      its centre at or above the pointer; or it is the end of the list. */
  lemma {:induction false} DropIndexMeaning(centres: seq<real>, drag: seq<int>, y: real, i: nat)
    requires i <= |centres|
    ensures i <= DropIndexFrom(centres, drag, y, i) <= |centres|
    ensures var r := DropIndexFrom(centres, drag, y, i);
      r < |centres| ==> r !in drag && y < centres[r]
    ensures forall j :: i <= j < DropIndexFrom(centres, drag, y, i) && j < |centres| && j !in drag ==>
      y >= centres[j]
    decreases |centres| - i
  {
    if i < |centres| && !(i !in drag && y < centres[i]) {
      DropIndexMeaning(centres, drag, y, i + 1);
    }
  }

  /** `_is_valid_drop`: a drop strictly inside the dragged range, or just
      behind its last page, is refused. */
  function ValidDrop(drag: seq<int>, d: int): (r: bool)
    ensures drag != [] && !r ==> SeqMin(drag) < d <= SeqMax(drag) + 1
    ensures drag != [] && r ==> d <= SeqMin(drag) || d > SeqMax(drag) + 1
    ensures drag == [] ==> r
  {
    if drag == [] then true
    else d <= SeqMin(drag) || d > SeqMax(drag) + 1
  }

  /** The pages `start`, `start + 1`, ..., `start + k - 1`. */
  function Run(start: int, k: nat): (r: seq<int>)
    ensures |r| == k && forall i :: 0 <= i < k ==> r[i] == start + i
    decreases k
  {
    if k == 0 then [] else [start] + Run(start + 1, k - 1)
  }

  /** How many pages of a run lie in front of slot `d`. */
  lemma {:induction false} RunCountBelow(start: int, k: nat, d: int)
    ensures CountBelow(Run(start, k), d) == if d <= start then 0 else if d >= start + k then k else d - start
    decreases k
  {
    if k > 0 {
      RunCountBelow(start + 1, k - 1, d);
      assert Run(start, k)[1..] == Run(start + 1, k - 1);
    }
  }

  lemma RunBounds(start: int, k: nat)
    requires k > 0
    ensures SeqMin(Run(start, k)) == start && SeqMax(Run(start, k)) == start + k - 1
  {
    var r := Run(start, k);
    assert r[0] == start && r[k - 1] == start + k - 1;
  }

  /** What the refusal is for: dragging a run of pages, the slot the
      reorder gathers them at is the target less the dragged pages in front
      of it. Apart from a drop on the run's own first page (accepted, and
      also putting the run back where it is), a drop is refused exactly when
      that slot is where the run already starts. */
  lemma RefusedDropsLandInPlace(start: int, k: nat, d: int)
    requires k > 0 && d != start
    ensures !ValidDrop(Run(start, k), d) <==> d - CountBelow(Run(start, k), d) == start
  {
    RunCountBelow(start, k, d);
    RunBounds(start, k);
  }

  /** `ThumbnailContainer`: the cards (counted), the selected pages, the
      current page, the last clicked page and the drag state. */
  class ThumbnailContainer {
    var cardCount: nat
    var selected: set<int>
    var current: int
    var lastClicked: int
    var dragging: bool
    var dragPages: seq<int>
    var dropIndex: int
    var lastDropIndex: int

    /** A drag carries a sorted, non-empty list of pages; outside a drag
        there are no drag pages and both drop indices are -1. */
    predicate Valid()
      reads this
    {
      Increasing(dragPages)
      && (dragging <==> dragPages != [])
      && (!dragging ==> dropIndex == -1 && lastDropIndex == -1)
    }

    constructor()
      ensures cardCount == 0 && selected == {} && current == 0 && lastClicked == -1
      ensures !dragging && dragPages == [] && dropIndex == -1 && lastDropIndex == -1
      ensures Valid()
    {
      cardCount := 0;
      selected := {};
      current := 0;
      lastClicked := -1;
      dragging := false;
      dragPages := [];
      dropIndex := -1;
      lastDropIndex := -1;
    }

    /** `add_card`. */
    method AddCard()
      modifies this
      ensures cardCount == old(cardCount) + 1
      ensures selected == old(selected) && current == old(current) && lastClicked == old(lastClicked)
      ensures dragging == old(dragging) && dragPages == old(dragPages)
      ensures dropIndex == old(dropIndex) && lastDropIndex == old(lastDropIndex)
    {
      cardCount := cardCount + 1;
    }

    /** `clear_cards`: the cards and the selection go; the last clicked
        page is kept. */
    method ClearCards()
      modifies this
      ensures cardCount == 0 && selected == {}
      ensures current == old(current) && lastClicked == old(lastClicked)
      ensures dragging == old(dragging) && dragPages == old(dragPages)
      ensures dropIndex == old(dropIndex) && lastDropIndex == old(lastDropIndex)
    {
      cardCount := 0;
      selected := {};
    }

    /** `set_current_page`. */
    method SetCurrentPage(p: int)
      modifies this
      ensures current == p
      ensures cardCount == old(cardCount) && selected == old(selected) && lastClicked == old(lastClicked)
      ensures dragging == old(dragging) && dragPages == old(dragPages)
      ensures dropIndex == old(dropIndex) && lastDropIndex == old(lastDropIndex)
    {
      current := p;
    }

    /** `_on_card_clicked`: control toggles the page, shift adds the range
        from the last clicked page (or just the page when there is none),
        and a plain click selects only the page, makes it current and
        emits it. Returns the page emitted by `page_selected`. */
    method CardClicked(p: int, mods: Modifiers) returns (emitted: Option<int>)
      modifies this
      ensures mods.control ==>
        selected == (if p in old(selected) then old(selected) - {p} else old(selected) + {p})
        && current == old(current) && emitted == None
      ensures !mods.control && mods.shift ==>
        selected == old(selected) + (if old(lastClicked) < 0 then {p}
          else PageRange(MinI(old(lastClicked), p), MaxI(old(lastClicked), p)))
        && current == old(current) && emitted == None
      ensures !mods.control && !mods.shift ==>
        selected == {p} && current == p && emitted == Some(p)
      ensures lastClicked == p
      ensures cardCount == old(cardCount) && dragging == old(dragging) && dragPages == old(dragPages)
      ensures dropIndex == old(dropIndex) && lastDropIndex == old(lastDropIndex)
    {
      emitted := None;
      if mods.control {
        if p in selected {
          selected := selected - {p};
        } else {
          selected := selected + {p};
        }
      } else if mods.shift {
        if lastClicked < 0 {
          selected := selected + {p};
        } else {
          var start := MinI(lastClicked, p);
          var end := MaxI(lastClicked, p);
          var added := selected;
          var q := start;
          while q <= end
            invariant start <= q <= end + 1
            invariant added == selected + PageRange(start, q - 1)
          {
            assert PageRange(start, q) == PageRange(start, q - 1) + {q};
            added := added + {q};
            q := q + 1;
          }
          selected := added;
        }
      } else {
        selected := {p};
        current := p;
        emitted := Some(p);
      }
      lastClicked := p;
    }

    /** `_on_drag_started`: ignored during a drag; otherwise the whole
        selection is dragged, sorted, when the page is selected, else the
        page alone. */
    method DragStarted(p: int)
      requires Valid()
      modifies this
      ensures Valid()
      ensures old(dragging) ==> dragPages == old(dragPages) && dragging
      ensures !old(dragging) ==> dragging
      ensures !old(dragging) && p in selected ==> forall x :: x in dragPages <==> x in selected
      ensures !old(dragging) && p !in selected ==> dragPages == [p]
      ensures cardCount == old(cardCount) && selected == old(selected) && current == old(current)
      ensures lastClicked == old(lastClicked)
      ensures dropIndex == old(dropIndex) && lastDropIndex == old(lastDropIndex)
    {
      if dragging {
        return;
      }
      if p in selected {
        dragPages := SortedSet(selected);
      } else {
        dragPages := [p];
      }
      dragging := true;
    }

    /** `_is_valid_drop` on the pages being dragged. */
    function IsValidDrop(d: int): (r: bool)
      reads this
      ensures r == ValidDrop(dragPages, d)
    {
      ValidDrop(dragPages, d)
    }

    /** `_calculate_drop_index` with the cards' centres as they are laid
        out. */
    method CalculateDropIndex(centres: seq<real>, y: real) returns (idx: int)
      requires |centres| == cardCount
      ensures idx == DropIndexFrom(centres, dragPages, y, 0)
    {
      var i := 0;
      while i < |centres|
        invariant 0 <= i <= |centres|
        invariant DropIndexFrom(centres, dragPages, y, i) == DropIndexFrom(centres, dragPages, y, 0)
      {
        if i !in dragPages && y < centres[i] {
          return i;
        }
        i := i + 1;
      }
      idx := |centres|;
    }

    /** `mouseMoveEvent` during a drag: when the drop index changes the
        preview takes it, valid or not. */
    method MouseMove(centres: seq<real>, y: real)
      requires |centres| == cardCount && Valid()
      modifies this
      ensures Valid()
      ensures !old(dragging) ==> dropIndex == old(dropIndex) && lastDropIndex == old(lastDropIndex)
      ensures old(dragging) ==>
        var n := DropIndexFrom(centres, old(dragPages), y, 0);
        lastDropIndex == n && dropIndex == (if n != old(lastDropIndex) then n else old(dropIndex))
      ensures cardCount == old(cardCount) && selected == old(selected) && current == old(current)
      ensures lastClicked == old(lastClicked) && dragging == old(dragging) && dragPages == old(dragPages)
    {
      if !dragging {
        return;
      }
      var n := CalculateDropIndex(centres, y);
      DropIndexMeaning(centres, dragPages, y, 0);
      if n != lastDropIndex {
        if n >= 0 {
          dropIndex := n;
        }
        lastDropIndex := n;
      }
    }

    /** `mouseReleaseEvent`: a drag with a valid drop index emits the
        dragged pages and the index (`sorted` leaves the already sorted
        list as it is); either way the drag state is reset. */
    method MouseRelease() returns (emitted: Option<(seq<int>, int)>)
      requires Valid()
      modifies this
      ensures Valid()
      ensures !old(dragging) ==> emitted == None && dragPages == old(dragPages) && dropIndex == old(dropIndex)
      ensures old(dragging) ==> !dragging && dragPages == [] && dropIndex == -1 && lastDropIndex == -1
      ensures emitted.Some? <==> old(dragging) && old(dropIndex) >= 0 && old(IsValidDrop(dropIndex))
      ensures emitted.Some? ==> emitted.value == (old(dragPages), old(dropIndex))
      ensures emitted.Some? ==> emitted.value.0 != [] && Increasing(emitted.value.0)
      ensures cardCount == old(cardCount) && selected == old(selected) && current == old(current)
      ensures lastClicked == old(lastClicked)
    {
      emitted := None;
      if !dragging {
        return;
      }
      dragging := false;
      if dropIndex >= 0 && IsValidDrop(dropIndex) {
        emitted := Some((dragPages, dropIndex));
      }
      dragPages := [];
      dropIndex := -1;
      lastDropIndex := -1;
    }

    /** `get_selected_pages`: the sorted selection, or the current page
        when nothing is selected. */
    method GetSelectedPages() returns (r: seq<int>)
      ensures r != [] || selected == {}
      ensures selected == {} ==> r == [current]
      ensures selected != {} ==> Increasing(r) && forall x :: x in r <==> x in selected
    {
      if selected == {} {
        return [current];
      }
      r := SortedSet(selected);
      ghost var least := SetLeast(selected);
      assert least in r;
    }
  }

  // ---------------------------------------------------------------------
  // Headings

  /** An entry of `get_toc()`: level, title, 1-based page and, when the
      entry carries a destination, its `to` value. */
  datatype TocEntry = TocEntry(level: int, title: string, page: int, to: Option<real>)

  /** A tree item: title, 0-based page, vertical position and the index of
      its parent item (-1 for the invisible root). */
  datatype Heading = Heading(title: string, page: int, yPos: real, parent: int)

  /** What `load_headings` shows. */
  datatype Outline = NoHeadings | Tree(items: seq<Heading>)

  predicate LevelsPositive(toc: seq<TocEntry>, i: nat)
    requires i <= |toc|
  {
    forall k :: 0 <= k < i ==> toc[k].level >= 1
  }

  /** The parent stack after the first `i` entries, as item indices, -1
      standing for the root: popped to the entry's level, then the entry
      pushed. */
  function StackAfter(toc: seq<TocEntry>, i: nat): (st: seq<int>)
    requires i <= |toc| && LevelsPositive(toc, i)
    ensures |st| >= 1 && st[0] == -1
  {
    if i == 0 then [-1]
    else
      var prev := StackAfter(toc, i - 1);
      prev[..MinI(|prev|, toc[i - 1].level)] + [i - 1]
  }

  /** The depth at which entry `i` is attached (1 for a top-level item). */
  function Depth(toc: seq<TocEntry>, i: nat): (d: nat)
    requires i < |toc| && LevelsPositive(toc, i + 1)
    ensures 1 <= d <= toc[i].level
  {
    MinI(|StackAfter(toc, i)|, toc[i].level)
  }

  /** The item entry `i` is attached under. */
  function ParentOf(toc: seq<TocEntry>, i: nat): int
    requires i < |toc| && LevelsPositive(toc, i + 1)
  {
    StackAfter(toc, i)[Depth(toc, i) - 1]
  }

  function ItemOf(toc: seq<TocEntry>, i: nat): Heading
    requires i < |toc| && LevelsPositive(toc, i + 1)
  {
    var e := toc[i];
    Heading(e.title, e.page - 1, e.to.GetOr(0.0), ParentOf(toc, i))
  }

  /** The stack holds the root and then, at each depth, the latest item of
      that depth; every item after it has a greater depth. */
  lemma {:induction false} StackShape(toc: seq<TocEntry>, i: nat)
    requires i <= |toc| && LevelsPositive(toc, i)
    ensures i > 0 ==> |StackAfter(toc, i)| == Depth(toc, i - 1) + 1
    ensures forall d :: 1 <= d < |StackAfter(toc, i)| ==>
      var p := StackAfter(toc, i)[d];
      0 <= p < i && Depth(toc, p) == d
      && forall j :: p < j < i ==> Depth(toc, j) > d
  {
    if i > 0 {
      StackShape(toc, i - 1);
      var prev := StackAfter(toc, i - 1);
      var m := Depth(toc, i - 1);
      var st := StackAfter(toc, i);
      assert st == prev[..m] + [i - 1];
      forall d | 1 <= d < |st|
        ensures 0 <= st[d] < i && Depth(toc, st[d]) == d
        ensures forall j :: st[d] < j < i ==> Depth(toc, j) > d
      {
        if d < m {
          assert st[d] == prev[d];
        }
      }
    }
  }

  /** The tree `load_headings` builds: an item's parent is the nearest
      earlier item one level up (or the root for depth 1), and every item
      in between lies deeper, inside that parent's subtree. */
  lemma ParentIsNearestAbove(toc: seq<TocEntry>, i: nat)
    requires i < |toc| && LevelsPositive(toc, i + 1)
    ensures Depth(toc, i) == 1 ==> ParentOf(toc, i) == -1
    ensures Depth(toc, i) > 1 ==>
      var p := ParentOf(toc, i);
      0 <= p < i && Depth(toc, p) == Depth(toc, i) - 1
      && forall j :: p < j < i ==> Depth(toc, j) >= Depth(toc, i)
  {
    StackShape(toc, i);
  }

  /** An item sits at its own level unless that skips levels, and then one
      below the previous item. */
  lemma DepthFollowsLevel(toc: seq<TocEntry>, i: nat)
    requires i < |toc| && LevelsPositive(toc, i + 1)
    ensures i == 0 ==> Depth(toc, i) == 1
    ensures i > 0 ==> Depth(toc, i) == MinI(toc[i].level, Depth(toc, i - 1) + 1)
  {
    StackShape(toc, i);
  }

  /** The `while len(parent_stack) > level: pop()` loop; popping the
      empty stack, which a negative level reaches, raises IndexError. */
  method PopTo(stack: seq<int>, level: int) returns (r: Result<seq<int>>)
    ensures r.Err? <==> level < 0
    ensures r.Err? ==> r.error == IndexError
    ensures r.Ok? ==> |r.value| == (if level <= 0 then 0 else MinI(|stack|, level))
    ensures r.Ok? ==> r.value == stack[..|r.value|]
  {
    var st := stack;
    while |st| > level
      invariant |st| <= |stack| && st == stack[..|st|]
      invariant |st| >= MinI(|stack|, MaxI(level, 0))
    {
      if |st| == 0 {
        return Err(IndexError);
      }
      st := st[..|st| - 1];
    }
    return Ok(st);
  }

  /** One entry of `load_headings`: the popped stack is the one the
      entry's depth describes, its top is the entry's parent, and pushing
      the entry gives the next stack. */
  lemma StackStep(toc: seq<TocEntry>, i: nat, st: seq<int>)
    requires i < |toc| && LevelsPositive(toc, i) && toc[i].level >= 1
    requires st == StackAfter(toc, i)[..MinI(|StackAfter(toc, i)|, toc[i].level)]
    ensures LevelsPositive(toc, i + 1) && |st| >= 1
    ensures st[|st| - 1] == ParentOf(toc, i)
    ensures StackAfter(toc, i + 1) == st + [i]
  {
  }

  /** `load_headings`. A level below 1 empties the stack and the lookup of
      its top raises IndexError. */
  method LoadHeadings(toc: seq<TocEntry>) returns (r: Result<Outline>)
    ensures r.Err? <==> !LevelsPositive(toc, |toc|)
    ensures r.Err? ==> r.error == IndexError
    ensures r.Ok? && toc == [] ==> r.value == NoHeadings
    ensures r.Ok? && toc != [] ==>
      r.value.Tree? && |r.value.items| == |toc|
      && forall k :: 0 <= k < |toc| ==> r.value.items[k] == ItemOf(toc, k)
  {
    if toc == [] {
      return Ok(NoHeadings);
    }
    var stack := [-1];
    var items := [];
    var i := 0;
    while i < |toc|
      invariant 0 <= i <= |toc| && LevelsPositive(toc, i)
      invariant stack == StackAfter(toc, i)
      invariant |items| == i && forall k :: 0 <= k < i ==> items[k] == ItemOf(toc, k)
    {
      var e := toc[i];
      var popped := PopTo(stack, e.level);
      if popped.Err? {
        return Err(IndexError);
      }
      stack := popped.value;
      if |stack| == 0 {
        return Err(IndexError);
      }
      StackStep(toc, i, stack);
      items := items + [Heading(e.title, e.page - 1, e.to.GetOr(0.0), stack[|stack| - 1])];
      stack := stack + [i];
      i := i + 1;
    }
    return Ok(Tree(items));
  }
}
