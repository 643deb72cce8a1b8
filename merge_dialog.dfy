/** The merge dialog (src/ui/merge_dialog.py): file classification by
    extension, the card grid with its selection, placement, drop index and
    drag-and-drop reordering, and the dialog's status and merge guards. */
module Merge {
  import opened Common
  import opened Values

  // ---------------------------------------------------------------------
  // File classification

  const IMAGE_EXTENSIONS: set<string> := {".png", ".jpg", ".jpeg", ".bmp", ".gif", ".tiff", ".tif", ".webp"}
  const PDF_EXTENSIONS: set<string> := {".pdf"}

  /** `str.rfind` for one character: the last index of `c` in `s`, or -1. */
  function RFind(s: string, c: char): (r: int)
    ensures -1 <= r < |s|
    ensures r >= 0 ==> s[r] == c
    ensures forall i :: r < i < |s| ==> s[i] != c
  {
    if s == [] then -1
    else if s[|s| - 1] == c then |s| - 1
    else RFind(s[..|s| - 1], c)
  }

  /** `os.path.splitext(p)[1]`: the text from the last dot of the last
      path component, unless only dots precede that dot in the component
      (a hidden file such as ".pdf" has no extension). */
  function Extension(p: string): (r: string)
    ensures r == [] || (r[0] == '.' && EndsWith(p, r) && Lacks(r, '/') && Lacks(r[1..], '.'))
  {
    var sep := RFind(p, '/');
    var dot := RFind(p, '.');
    if dot > sep && exists k :: sep < k < dot && p[k] != '.' then
      assert forall i :: 0 <= i < |p[dot..]| ==> p[dot..][i] == p[dot + i];
      p[dot..]
    else ""
  }

  /** `is_image_file`: the lower-cased extension is an image extension. */
  predicate IsImageFile(p: string) { Lower(Extension(p)) in IMAGE_EXTENSIONS }

  /** `is_pdf_file`: the lower-cased extension is ".pdf". */
  predicate IsPdfFile(p: string) { Lower(Extension(p)) in PDF_EXTENSIONS }

  /** The last `c` is at `d` when `c` is there and nowhere after. */
  lemma RFindAt(s: string, c: char, d: nat)
    requires d < |s| && s[d] == c
    requires forall i :: d < i < |s| ==> s[i] != c
    ensures RFind(s, c) == d
  {
  }

  /** No `c` from `b` on puts the last `c` before `b`. */
  lemma RFindBefore(s: string, c: char, b: nat)
    requires forall i :: b <= i < |s| ==> s[i] != c
    ensures RFind(s, c) < b
  {
  }

  /** A file named `stem` + "." + `ext` in any directory has the extension
      "." + `ext`. */
  lemma ExtensionOfName(dir: string, stem: string, ext: string)
    requires |stem| > 0 && stem[0] != '.' && Lacks(stem, '/')
    requires Lacks(ext, '/') && Lacks(ext, '.')
    ensures Extension(dir + stem + "." + ext) == "." + ext
  {
    var p := dir + stem + "." + ext;
    var d := |dir| + |stem|;
    assert p[d] == '.';
    forall i | d < i < |p| ensures p[i] != '.' && p[i] != '/' {
      assert p[i] == ext[i - d - 1];
    }
    forall i | |dir| <= i < d ensures p[i] != '/' {
      assert p[i] == stem[i - |dir|];
    }
    RFindAt(p, '.', d);
    RFindBefore(p, '/', |dir|);
    assert p[|dir|] == stem[0];
    assert p[d..] == "." + ext;
  }

  /** Such a file is classified by that extension alone. */
  lemma ClassifiedByExtension(dir: string, stem: string, ext: string)
    requires |stem| > 0 && stem[0] != '.' && Lacks(stem, '/')
    requires Lacks(ext, '/') && Lacks(ext, '.')
    ensures IsPdfFile(dir + stem + "." + ext) <==> Lower("." + ext) == ".pdf"
    ensures IsImageFile(dir + stem + "." + ext) <==> Lower("." + ext) in IMAGE_EXTENSIONS
  {
    ExtensionOfName(dir, stem, ext);
  }

  /** A hidden file — a name made of one dot and an extension — has no
      extension, so it is neither a PDF nor an image. */
  lemma HiddenFileHasNoExtension(dir: string, ext: string)
    requires dir == [] || dir[|dir| - 1] == '/'
    requires Lacks(ext, '/') && Lacks(ext, '.')
    ensures Extension(dir + "." + ext) == ""
    ensures !IsPdfFile(dir + "." + ext) && !IsImageFile(dir + "." + ext)
  {
    var p := dir + "." + ext;
    var d := |dir|;
    assert p[d] == '.';
    forall i | d < i < |p| ensures p[i] != '.' && p[i] != '/' {
      assert p[i] == ext[i - d - 1];
    }
    RFindAt(p, '.', d);
    if dir != [] {
      assert p[d - 1] == '/';
      RFindAt(p, '/', d - 1);
    } else {
      RFindBefore(p, '/', 0);
    }
    assert Lower("") == "";
  }

  // ---------------------------------------------------------------------
  // Card names

  /** `s[:n]` with Python's meaning of a negative `n`. */
  function SliceTo(s: string, n: int): string
  {
    if n >= 0 then s[..MinI(n, |s|)] else s[..MaxI(0, |s| + n)]
  }

  /** `_truncate_name`: a name longer than `maxLen` keeps its first
      `maxLen - 3` characters followed by "...". */
  function TruncateName(name: string, maxLen: int): string
  {
    if |name| <= maxLen then name else SliceTo(name, maxLen - 3) + "..."
  }

  /** For `maxLen` of at least 3, a short name is kept and a long one is cut
      to exactly `maxLen` characters ending in "...". */
  lemma TruncateNameFits(name: string, maxLen: int)
    requires maxLen >= 3
    ensures var r := TruncateName(name, maxLen);
      |r| <= maxLen
      && (|name| <= maxLen ==> r == name)
      && (|name| > maxLen ==> |r| == maxLen && r == name[..maxLen - 3] + "..." && EndsWith(r, "..."))
  {
    if |name| > maxLen {
      var r := TruncateName(name, maxLen);
      assert r[|r| - 3..] == "...";
    }
  }

  /** The file name part of a path, `os.path.basename`. */
  function BaseName(p: string): string
  {
    p[RFind(p, '/') + 1..]
  }

  // ---------------------------------------------------------------------
  // Cards

  /** A thumbnail card: its file, whether it is an image and whether it is
      selected. Cards are told apart by their position in the grid. */
  datatype Card = Card(path: string, isImage: bool, selected: bool)

  /** The label under a card: the file name cut to 16 characters. */
  function CardLabel(c: Card): string { TruncateName(BaseName(c.path), 16) }

  /** `get_selected_cards`. */
  function Selected(cards: seq<Card>): (r: seq<Card>)
    ensures |r| <= |cards|
    ensures forall k :: 0 <= k < |r| ==> r[k].selected
  {
    if cards == [] then []
    else (if cards[0].selected then [cards[0]] else []) + Selected(cards[1..])
  }

  /** The cards `remove_selected` keeps, in their order. */
  function Unselected(cards: seq<Card>): (r: seq<Card>)
    ensures |r| <= |cards|
    ensures forall k :: 0 <= k < |r| ==> !r[k].selected
  {
    if cards == [] then []
    else (if cards[0].selected then [] else [cards[0]]) + Unselected(cards[1..])
  }

  /** Removing the selected cards drops exactly them: every card is kept
      or removed, and none is lost or invented. */
  lemma {:induction false} SelectionSplits(cards: seq<Card>)
    ensures multiset(Selected(cards)) + multiset(Unselected(cards)) == multiset(cards)
    ensures |Selected(cards)| + |Unselected(cards)| == |cards|
  {
    if cards != [] {
      SelectionSplits(cards[1..]);
      assert cards == [cards[0]] + cards[1..];
    }
  }

  /** `get_ordered_file_paths`. */
  function Paths(cards: seq<Card>): (r: seq<string>)
    ensures |r| == |cards|
    ensures forall k :: 0 <= k < |r| ==> r[k] == cards[k].path
  {
    if cards == [] then [] else [cards[0].path] + Paths(cards[1..])
  }

  /** A plain click: the clicked card is selected and no other. */
  function SelectOnly(cards: seq<Card>, i: nat): (r: seq<Card>)
    requires i < |cards|
    ensures |r| == |cards|
    ensures forall k :: 0 <= k < |r| ==> r[k] == cards[k].(selected := k == i)
  {
    seq(|cards|, k requires 0 <= k < |cards| => cards[k].(selected := k == i))
  }

  /** The only selected card of a list in which exactly card `i` is
      selected is that card. */
  lemma {:induction false} SelectedSingle(cards: seq<Card>, i: nat)
    requires i < |cards| && cards[i].selected
    requires forall k :: 0 <= k < |cards| && k != i ==> !cards[k].selected
    ensures Selected(cards) == [cards[i]]
  {
    if i == 0 {
      NoneSelected(cards[1..]);
    } else {
      SelectedSingle(cards[1..], i - 1);
    }
  }

  lemma {:induction false} NoneSelected(cards: seq<Card>)
    requires forall k :: 0 <= k < |cards| ==> !cards[k].selected
    ensures Selected(cards) == []
  {
    if cards != [] {
      NoneSelected(cards[1..]);
    }
  }

  /** `_on_card_clicked` on card `i`: control toggles it, shift selects it
      and leaves the others, a plain click selects it alone. */
  function Clicked(cards: seq<Card>, i: nat, mods: Modifiers): (r: seq<Card>)
    requires i < |cards|
    ensures |r| == |cards|
    ensures forall k :: 0 <= k < |r| ==> r[k].path == cards[k].path && r[k].isImage == cards[k].isImage
    ensures r[i].selected == (if mods.control then !cards[i].selected else true)
    ensures forall k :: 0 <= k < |r| && k != i ==>
      r[k].selected == ((mods.control || mods.shift) && cards[k].selected)
  {
    if mods.control then cards[i := cards[i].(selected := !cards[i].selected)]
    else if mods.shift then cards[i := cards[i].(selected := true)]
    else SelectOnly(cards, i)
  }

  /** After a plain click the selection is exactly the clicked card. */
  lemma PlainClickSelectsOne(cards: seq<Card>, i: nat)
    requires i < |cards|
    ensures Selected(Clicked(cards, i, Modifiers(false, false))) == [cards[i].(selected := true)]
  {
    SelectedSingle(Clicked(cards, i, Modifiers(false, false)), i);
  }

  // ---------------------------------------------------------------------
  // Grid placement and drop index

  /** The number of grid columns for a panel `width` pixels wide. */
  function Columns(width: int): (r: int)
    ensures r >= 1
  {
    MaxI(1, (width - 30) / 145)
  }

  /** The (row, column) of card `k` in a grid of `cols` columns. */
  function Cell(k: nat, cols: int): (nat, nat)
    requires cols >= 1
  {
    (k / cols, k % cols)
  }

  /** Cells are inside the grid, different cards get different cells, and
      a cell gives back its card's position. */
  lemma CellsDistinct(j: nat, k: nat, cols: int)
    requires cols >= 1
    ensures Cell(k, cols).1 < cols
    ensures Cell(k, cols).0 * cols + Cell(k, cols).1 == k
    ensures j != k ==> Cell(j, cols) != Cell(k, cols)
  {
    assert j == (j / cols) * cols + j % cols;
    assert k == (k / cols) * cols + k % cols;
  }

  /** `_get_drop_index`: 0 for an empty grid, otherwise the index of the
      cell under the point, with the column clamped into the grid and the
      result clamped to the number of cards. */
  function DropIndex(cards: seq<Card>, width: int, x: int, y: int): (r: nat)
    ensures r <= |cards|
  {
    if cards == [] then 0
    else
      var cols := Columns(width);
      var col := MaxI(0, MinI(cols - 1, (x - 12) / 145));
      var row := MaxI(0, (y - 12) / 185);
      MinI(row * cols + col, |cards|)
  }

  /** Dropping anywhere inside the cell where card `k` is placed gives
      index `k`: placement and drop index agree. */
  lemma DropOnCell(cards: seq<Card>, width: int, k: nat, dx: int, dy: int)
    requires k < |cards| && 0 <= dx < 145 && 0 <= dy < 185
    ensures var c := Cell(k, Columns(width));
      DropIndex(cards, width, 12 + c.1 * 145 + dx, 12 + c.0 * 185 + dy) == k
  {
    var cols := Columns(width);
    var c := Cell(k, cols);
    CellsDistinct(k, k, cols);
    assert (12 + c.1 * 145 + dx - 12) / 145 == c.1;
    assert (12 + c.0 * 185 + dy - 12) / 185 == c.0;
  }

  // ---------------------------------------------------------------------
  // Drag and drop reordering

  /** The position of the first card showing `path`. */
  function IndexOfPath(cards: seq<Card>, path: string): (r: Option<nat>)
    ensures r.None? <==> forall k :: 0 <= k < |cards| ==> cards[k].path != path
    ensures r.Some? ==> r.value < |cards| && cards[r.value].path == path
    ensures r.Some? ==> forall k :: 0 <= k < r.value ==> cards[k].path != path
  {
    if cards == [] then None
    else if cards[0].path == path then Some(0)
    else match IndexOfPath(cards[1..], path)
      case None => None
      case Some(i) => Some(i + 1)
  }

  /** The search loop of `dropEvent`. */
  method FindCard(cards: seq<Card>, path: string) returns (r: Option<nat>)
    ensures r == IndexOfPath(cards, path)
  {
    var i := 0;
    while i < |cards|
      invariant 0 <= i <= |cards|
      invariant forall k :: 0 <= k < i ==> cards[k].path != path
    {
      if cards[i].path == path {
        r := Some(i);
        assert IndexOfPath(cards, path) == Some(i) by {
          var o := IndexOfPath(cards, path);
          assert o.Some? && o.value <= i;
        }
        return;
      }
      i := i + 1;
    }
    r := None;
  }

  /** Where the card lands: after `pop(s)` a later target moves down one. */
  function Landing(s: nat, t: nat): nat
  {
    if t > s then t - 1 else t
  }

  /** `cards.pop(s)` followed by `cards.insert(Landing(s, t), card)`. */
  function MoveCard(cards: seq<Card>, s: nat, t: nat): (r: seq<Card>)
    requires s < |cards| && t <= |cards|
    ensures |r| == |cards|
  {
    var rest := cards[..s] + cards[s + 1..];
    var l := Landing(s, t);
    rest[..l] + [cards[s]] + rest[l..]
  }

  /** Reordering puts the card at its landing place and keeps the other
      cards in their order. */
  lemma MoveCardOrder(cards: seq<Card>, s: nat, t: nat)
    requires s < |cards| && t <= |cards|
    ensures var r := MoveCard(cards, s, t);
      var l := Landing(s, t);
      l < |r| && r[l] == cards[s]
      && r[..l] + r[l + 1..] == cards[..s] + cards[s + 1..]
  {
    var rest := cards[..s] + cards[s + 1..];
    var l := Landing(s, t);
    var r := MoveCard(cards, s, t);
    assert r == rest[..l] + [cards[s]] + rest[l..];
    assert r[..l] == rest[..l];
    assert |rest[..l]| == l && r[l] == cards[s];
    assert r[l + 1..] == rest[l..];
    assert r[..l] + r[l + 1..] == rest[..l] + rest[l..];
    assert rest[..l] + rest[l..] == rest;
  }

  /** Reordering is a permutation. */
  lemma MoveCardPermutes(cards: seq<Card>, s: nat, t: nat)
    requires s < |cards| && t <= |cards|
    ensures multiset(MoveCard(cards, s, t)) == multiset(cards)
  {
    var rest := cards[..s] + cards[s + 1..];
    var l := Landing(s, t);
    var r := MoveCard(cards, s, t);
    assert r == rest[..l] + [cards[s]] + rest[l..];
    assert multiset(r) == multiset(rest[..l]) + multiset{cards[s]} + multiset(rest[l..]);
    assert rest[..l] + rest[l..] == rest;
    assert multiset(rest) == multiset(rest[..l]) + multiset(rest[l..]);
    assert multiset(rest) == multiset(cards[..s]) + multiset(cards[s + 1..]);
    assert cards == cards[..s] + [cards[s]] + cards[s + 1..];
    assert multiset(cards) == multiset(cards[..s]) + multiset{cards[s]} + multiset(cards[s + 1..]);
    assert multiset(r) == multiset(rest) + multiset{cards[s]};
    assert multiset(cards) == multiset(rest) + multiset{cards[s]};
  }

  /** Dropping a card just after itself leaves the order unchanged. */
  lemma DropAfterSelfIsNoop(cards: seq<Card>, s: nat)
    requires s < |cards|
    ensures MoveCard(cards, s, s + 1) == cards
  {
    assert cards == cards[..s] + [cards[s]] + cards[s + 1..];
  }

  /** The order `dropEvent` leaves: the dragged card moved to the drop
      index, unless the text names no card or the index is the card's own. */
  function Dropped(cards: seq<Card>, width: int, text: Option<string>, x: int, y: int): (r: seq<Card>)
    ensures multiset(r) == multiset(cards)
  {
    if text.None? then cards
    else match IndexOfPath(cards, text.value)
      case None => cards
      case Some(s) =>
        var t := DropIndex(cards, width, x, y);
        if t != s then
          MoveCardPermutes(cards, s, t);
          MoveCard(cards, s, t)
        else cards
  }

  /** The removal loop of `remove_selected`, on the list of cards. */
  method KeepUnselected(cards: seq<Card>) returns (kept: seq<Card>)
    ensures kept == Unselected(cards)
  {
    kept := [];
    var i := 0;
    while i < |cards|
      invariant 0 <= i <= |cards|
      invariant kept + Unselected(cards[i..]) == Unselected(cards)
    {
      assert cards[i..][1..] == cards[i + 1..];
      if !cards[i].selected {
        kept := kept + [cards[i]];
      }
      i := i + 1;
    }
  }

  // ---------------------------------------------------------------------
  // The grid panel

  /** `ThumbnailGridPanel`: the cards in order and the panel's width. */
  class MergeGrid {
    var cards: seq<Card>
    var width: int

    constructor(w: int)
      ensures cards == [] && width == w
    {
      cards := [];
      width := w;
    }

    /** `add_card`. */
    method AddCard(c: Card)
      modifies this
      ensures cards == old(cards) + [c] && width == old(width)
    {
      cards := cards + [c];
    }

    /** `remove_selected`: the unselected cards stay, in order. */
    method RemoveSelected()
      modifies this
      ensures cards == Unselected(old(cards)) && width == old(width)
    {
      cards := KeepUnselected(cards);
    }

    /** `add_card` once per card of `cs`, in order. */
    method AppendCards(cs: seq<Card>)
      modifies this
      ensures cards == old(cards) + cs && width == old(width)
    {
      cards := cards + cs;
    }

    /** `clear_all`. */
    method ClearAll()
      modifies this
      ensures cards == [] && width == old(width)
    {
      cards := [];
    }

    /** `_on_card_clicked` for the card at position `i`. */
    method CardClicked(i: nat, mods: Modifiers)
      requires i < |cards|
      modifies this
      ensures cards == Clicked(old(cards), i, mods) && width == old(width)
    {
      if mods.control {
        cards := cards[i := cards[i].(selected := !cards[i].selected)];
      } else if mods.shift {
        cards := cards[i := cards[i].(selected := true)];
      } else {
        var cs := cards;
        var k := 0;
        while k < |cs|
          invariant 0 <= k <= |cs| && |cs| == |cards|
          invariant forall j :: 0 <= j < k ==> cs[j] == cards[j].(selected := j == i)
          invariant forall j :: k <= j < |cs| ==> cs[j] == cards[j]
        {
          cs := cs[k := cs[k].(selected := k == i)];
          k := k + 1;
        }
        cards := cs;
      }
    }

    /** `_refresh_grid`: the cell each card is placed in, in card order. */
    method RefreshGrid() returns (cells: seq<(nat, nat)>)
      ensures |cells| == |cards|
      ensures forall k :: 0 <= k < |cells| ==> cells[k] == Cell(k, Columns(width))
    {
      var cols := MaxI(1, (width - 30) / 145);
      cells := [];
      var i := 0;
      while i < |cards|
        invariant 0 <= i <= |cards| && |cells| == i
        invariant forall k :: 0 <= k < i ==> cells[k] == Cell(k, cols)
      {
        cells := cells + [(i / cols, i % cols)];
        i := i + 1;
      }
    }

    /** `dropEvent`: `text` is the dragged card's path when the drag
        carries text. Answers whether a reorder took place (and with it
        `order_changed`). */
    method DropEvent(text: Option<string>, x: int, y: int) returns (moved: bool)
      modifies this
      ensures cards == Dropped(old(cards), old(width), text, x, y) && width == old(width)
      ensures moved <==> text.Some? && IndexOfPath(old(cards), text.value).Some?
                         && DropIndex(old(cards), old(width), x, y) != IndexOfPath(old(cards), text.value).value
    {
      moved := false;
      if text.None? {
        return;
      }
      var found := FindCard(cards, text.value);
      if found.None? {
        return;
      }
      var s := found.value;
      var target := DropIndex(cards, width, x, y);
      if target != s {
        cards := MoveCard(cards, s, target);
        moved := true;
      }
    }
  }

  // ---------------------------------------------------------------------
  // The dialog

  /** The kind recorded for each added file. */
  datatype FileKind = ImageKind | PdfKind

  /** The status line and the enabled state of the merge and clear buttons
      for `count` files. */
  datatype Status = Status(text: string, mergeEnabled: bool, clearEnabled: bool)

  /** `_update_status`. */
  function StatusFor(count: nat): (r: Status)
    ensures r.mergeEnabled <==> count >= 2
    ensures r.clearEnabled <==> count >= 1
  {
    if count == 0 then Status("No files added", false, false)
    else if count == 1 then Status("1 file added — add more to merge", false, true)
    else Status(NatToString(count) + " files ready to merge", true, true)
  }

  /** The outcome of `merge_files` before any file is read. */
  datatype MergeStart = NotEnoughFiles | Cancelled | WriteTo(outputPath: string)

  /** `merge_files` guards: fewer than two files are refused, an empty
      choice of output cancels, and ".pdf" is appended when the chosen
      name does not end with it in any case. */
  function StartMerge(ordered: seq<string>, chosen: string): (r: MergeStart)
    ensures r == NotEnoughFiles <==> |ordered| < 2
    ensures r == Cancelled <==> |ordered| >= 2 && chosen == ""
    ensures r.WriteTo? ==> EndsWith(Lower(r.outputPath), ".pdf") && StartsWith(r.outputPath, chosen)
  {
    if |ordered| < 2 then NotEnoughFiles
    else if chosen == "" then Cancelled
    else if EndsWith(Lower(chosen), ".pdf") then WriteTo(chosen)
    else
      LowerAppendsPdf(chosen);
      WriteTo(chosen + ".pdf")
  }

  lemma LowerAppendsPdf(s: string)
    ensures EndsWith(Lower(s + ".pdf"), ".pdf") && StartsWith(s + ".pdf", s)
  {
    var t := Lower(s + ".pdf");
    forall k | 0 <= k < 4 ensures t[|s| + k] == ".pdf"[k] {
      assert (s + ".pdf")[|s| + k] == ".pdf"[k];
    }
    assert t[|t| - 4..] == ".pdf";
    assert (s + ".pdf")[..|s|] == s;
  }

  /** How `merge_files` adds each file: as an image page when recorded as
      an image, as PDF pages otherwise (also for a path with no record). */
  function MergeKinds(ordered: seq<string>, types: map<string, FileKind>): (r: seq<FileKind>)
    ensures |r| == |ordered|
    ensures forall k :: 0 <= k < |r| ==>
      (r[k] == ImageKind <==> ordered[k] in types && types[ordered[k]] == ImageKind)
  {
    seq(|ordered|, k requires 0 <= k < |ordered| =>
      if ordered[k] in types then types[ordered[k]] else PdfKind)
  }

  /** The paths of the cards in a grid. */
  function PathSet(cards: seq<Card>): set<string>
  {
    set c | c in cards :: c.path
  }

  /** The paths `add_files` adds: each chosen path not in the grid before
      the call and present on disk, in the chosen order. */
  function NewPaths(chosen: seq<string>, existing: set<string>, onDisk: set<string>): (r: seq<string>)
    ensures |r| <= |chosen|
  {
    if chosen == [] then []
    else
      (if chosen[0] !in existing && chosen[0] in onDisk then [chosen[0]] else [])
      + NewPaths(chosen[1..], existing, onDisk)
  }

  /** A path is added exactly when it was chosen, is on disk and was not in
      the grid before. */
  lemma {:induction false} NewPathsMembers(chosen: seq<string>, existing: set<string>, onDisk: set<string>, p: string)
    ensures p in NewPaths(chosen, existing, onDisk) <==> p in chosen && p !in existing && p in onDisk
  {
    if chosen != [] {
      NewPathsMembers(chosen[1..], existing, onDisk, p);
      assert chosen == [chosen[0]] + chosen[1..];
    }
  }

  /** Chosen paths without repeats are added without repeats. */
  lemma {:induction false} NewPathsDistinct(chosen: seq<string>, existing: set<string>, onDisk: set<string>)
    requires Distinct(chosen)
    ensures Distinct(NewPaths(chosen, existing, onDisk))
  {
    if chosen != [] {
      var rest := NewPaths(chosen[1..], existing, onDisk);
      assert Distinct(chosen[1..]) by {
        forall a, b | 0 <= a < b < |chosen[1..]| ensures chosen[1..][a] != chosen[1..][b] {
          assert chosen[1..][a] == chosen[a + 1] && chosen[1..][b] == chosen[b + 1];
        }
      }
      NewPathsDistinct(chosen[1..], existing, onDisk);
      if chosen[0] !in existing && chosen[0] in onDisk {
        NewPathsMembers(chosen[1..], existing, onDisk, chosen[0]);
        assert chosen[0] !in chosen[1..] by {
          forall k | 0 <= k < |chosen[1..]| ensures chosen[1..][k] != chosen[0] {
            assert chosen[1..][k] == chosen[k + 1];
          }
        }
        var r := [chosen[0]] + rest;
        forall a, b | 0 <= a < b < |r| ensures r[a] != r[b] {
          assert r[b] == rest[b - 1];
          if a > 0 {
            assert r[a] == rest[a - 1];
          }
        }
      }
    }
  }

  /** One more chosen path extends the added paths by at most that path. */
  lemma {:induction false} NewPathsSnoc(chosen: seq<string>, p: string, existing: set<string>, onDisk: set<string>)
    ensures NewPaths(chosen + [p], existing, onDisk)
         == NewPaths(chosen, existing, onDisk) + (if p !in existing && p in onDisk then [p] else [])
  {
    if chosen != [] {
      assert (chosen + [p])[1..] == chosen[1..] + [p];
      NewPathsSnoc(chosen[1..], p, existing, onDisk);
    } else {
      assert [p][1..] == [];
    }
  }

  /** `NewPaths` over one more prefix of the chosen paths. */
  lemma NewPathsPrefix(chosen: seq<string>, i: nat, existing: set<string>, onDisk: set<string>)
    requires i < |chosen|
    ensures NewPaths(chosen[..i + 1], existing, onDisk)
         == NewPaths(chosen[..i], existing, onDisk) + (if chosen[i] !in existing && chosen[i] in onDisk then [chosen[i]] else [])
  {
    assert chosen[..i + 1] == chosen[..i] + [chosen[i]];
    NewPathsSnoc(chosen[..i], chosen[i], existing, onDisk);
  }

  /** The new card for each added path: unselected, its kind taken from the
      extension. */
  function CardsFor(paths: seq<string>): (r: seq<Card>)
    ensures |r| == |paths|
    ensures forall k :: 0 <= k < |r| ==> r[k].path == paths[k] && !r[k].selected
  {
    seq(|paths|, k requires 0 <= k < |paths| => Card(paths[k], IsImageFile(paths[k]), false))
  }

  /** The loop of `add_files` over the chosen paths: `_add_file` caches a
      thumbnail and a file kind for each path it accepts. */
  method CollectNew(chosen: seq<string>, existing: set<string>, onDisk: set<string>, rendered: map<string, Pixmap>,
                    thumbs0: map<string, Pixmap>, types0: map<string, FileKind>)
    returns (added: seq<string>, thumbs: map<string, Pixmap>, types: map<string, FileKind>)
    ensures added == NewPaths(chosen, existing, onDisk)
    ensures forall p :: p in thumbs <==> p in thumbs0 || p in added
    ensures forall p :: p in types <==> p in types0 || p in added
    ensures forall p :: p in added ==> types[p] == (if IsImageFile(p) then ImageKind else PdfKind)
  {
    added, thumbs, types := [], thumbs0, types0;
    for i := 0 to |chosen|
      invariant added == NewPaths(chosen[..i], existing, onDisk)
      invariant forall p :: p in thumbs <==> p in thumbs0 || p in added
      invariant forall p :: p in types <==> p in types0 || p in added
      invariant forall p :: p in added ==> types[p] == (if IsImageFile(p) then ImageKind else PdfKind)
    {
      var p := chosen[i];
      NewPathsPrefix(chosen, i, existing, onDisk);
      if p !in existing && p in onDisk {
        thumbs := thumbs[p := if p in rendered then rendered[p] else NullPixmap];
        types := types[p := if IsImageFile(p) then ImageKind else PdfKind];
        added := added + [p];
      }
    }
    assert chosen[..|chosen|] == chosen;
  }

  /** The loop of `remove_selected` over the selected cards: each card's
      path leaves both caches. */
  method Forget(selected: seq<Card>, thumbs0: map<string, Pixmap>, types0: map<string, FileKind>)
    returns (thumbs: map<string, Pixmap>, types: map<string, FileKind>)
    ensures thumbs == thumbs0 - set c | c in selected :: c.path
    ensures types == types0 - set c | c in selected :: c.path
  {
    thumbs, types := thumbs0, types0;
    var i := 0;
    while i < |selected|
      invariant 0 <= i <= |selected|
      invariant thumbs == thumbs0 - set c | c in selected[..i] :: c.path
      invariant types == types0 - set c | c in selected[..i] :: c.path
    {
      assert selected[..i + 1] == selected[..i] + [selected[i]];
      thumbs := thumbs - {selected[i].path};
      types := types - {selected[i].path};
      i := i + 1;
    }
    assert selected[..|selected|] == selected;
  }

  /** `MergePDFDialog`: the grid, the thumbnail and file-kind caches, the
      status line and the button states. */
  class MergeDialog {
    const grid: MergeGrid
    var thumbnails: map<string, Pixmap>
    var fileTypes: map<string, FileKind>
    var status: Status
    var removeEnabled: bool

    constructor(width: int)
      ensures fresh(grid) && grid.cards == [] && grid.width == width
      ensures thumbnails == map[] && fileTypes == map[]
      ensures status == StatusFor(0) && !removeEnabled
    {
      grid := new MergeGrid(width);
      thumbnails := map[];
      fileTypes := map[];
      status := Status("No files added", false, false);
      removeEnabled := false;
    }

    /** `_update_status`. */
    method UpdateStatus()
      modifies this
      ensures status == StatusFor(|grid.cards|)
      ensures thumbnails == old(thumbnails) && fileTypes == old(fileTypes) && removeEnabled == old(removeEnabled)
    {
      var count := |grid.cards|;
      if count == 0 {
        status := Status("No files added", false, false);
      } else if count == 1 {
        status := Status("1 file added — add more to merge", false, true);
      } else {
        status := Status(NatToString(count) + " files ready to merge", true, true);
      }
    }

    /** `_on_selection_changed`: Remove is enabled iff a card is selected. */
    method OnSelectionChanged()
      modifies this
      ensures removeEnabled <==> |Selected(grid.cards)| > 0
      ensures thumbnails == old(thumbnails) && fileTypes == old(fileTypes) && status == old(status)
    {
      removeEnabled := |Selected(grid.cards)| > 0;
    }

    /** `add_files` with the paths the file dialog returned: paths already
        in the grid are skipped, and so (by `_add_file`) are paths not on
        disk; `rendered` holds the thumbnails that could be drawn. */
    method AddFiles(chosen: seq<string>, onDisk: set<string>, rendered: map<string, Pixmap>)
      modifies this, grid
      ensures var added := NewPaths(chosen, PathSet(old(grid.cards)), onDisk);
        grid.cards == old(grid.cards) + CardsFor(added)
        && (forall p :: p in thumbnails <==> p in old(thumbnails) || p in added)
        && (forall p :: p in fileTypes <==> p in old(fileTypes) || p in added)
        && (forall p :: p in added ==> fileTypes[p] == (if IsImageFile(p) then ImageKind else PdfKind))
      ensures grid.width == old(grid.width)
      ensures status == StatusFor(|grid.cards|) && removeEnabled == old(removeEnabled)
    {
      var added, thumbs, types := CollectNew(chosen, PathSet(grid.cards), onDisk, rendered, thumbnails, fileTypes);
      thumbnails, fileTypes := thumbs, types;
      grid.AppendCards(CardsFor(added));
      UpdateStatus();
    }

    /** `remove_selected`: the selected files leave the caches and the grid. */
    method RemoveSelected()
      modifies this, grid
      ensures grid.cards == Unselected(old(grid.cards)) && grid.width == old(grid.width)
      ensures thumbnails == old(thumbnails) - set c | c in Selected(old(grid.cards)) :: c.path
      ensures fileTypes == old(fileTypes) - set c | c in Selected(old(grid.cards)) :: c.path
      ensures status == StatusFor(|grid.cards|) && !removeEnabled
    {
      var thumbs, types := Forget(Selected(grid.cards), thumbnails, fileTypes);
      thumbnails, fileTypes := thumbs, types;
      grid.RemoveSelected();
      NoneSelected(grid.cards);
      OnSelectionChanged();
      UpdateStatus();
    }

    /** `clear_all`. */
    method ClearAll()
      modifies this, grid
      ensures grid.cards == [] && grid.width == old(grid.width)
      ensures thumbnails == map[] && fileTypes == map[]
      ensures status == StatusFor(0) && !removeEnabled
    {
      grid.ClearAll();
      thumbnails, fileTypes := map[], map[];
      NoneSelected(grid.cards);
      OnSelectionChanged();
      UpdateStatus();
    }

    /** A click on card `i`, then `_on_selection_changed`. */
    method ClickCard(i: nat, mods: Modifiers)
      requires i < |grid.cards|
      modifies this, grid
      ensures grid.cards == Clicked(old(grid.cards), i, mods) && grid.width == old(grid.width)
      ensures removeEnabled <==> |Selected(grid.cards)| > 0
      ensures thumbnails == old(thumbnails) && fileTypes == old(fileTypes) && status == old(status)
    {
      grid.CardClicked(i, mods);
      OnSelectionChanged();
    }

    /** A drop on the grid; a reorder refreshes the status. */
    method Drop(text: Option<string>, x: int, y: int) returns (moved: bool)
      modifies this, grid
      ensures grid.cards == Dropped(old(grid.cards), old(grid.width), text, x, y)
      ensures grid.width == old(grid.width)
      ensures status == (if moved then StatusFor(|grid.cards|) else old(status))
      ensures thumbnails == old(thumbnails) && fileTypes == old(fileTypes) && removeEnabled == old(removeEnabled)
    {
      moved := grid.DropEvent(text, x, y);
      if moved {
        UpdateStatus();
      }
    }
  }

}
