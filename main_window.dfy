/** The page-level operations of the main window (src/ui/main_window.py):
    the page label, rotation, deleting and moving pages, the drag-and-drop
    reorder handler, the ruler's tick spacing, the shape-tool button and the
    tab list. The document's page list is an abstract sequence with
    PyMuPDF's insert-before `move_page`. */
module MainWindow {
  import opened Common
  import opened Layers

  // ---------------------------------------------------------------------
  // The page list

  /** A page of the open document: an identity and its rotation. */
  datatype Page = Page(id: nat, rotation: int)

  /** Where `move_page(from, to)` puts the moved page: in front of the page
      that was at `to`, so one place earlier when moving forward. */
  function Landing(from: nat, to: nat): nat
  {
    if to > from then to - 1 else to
  }

  /** PyMuPDF's `Document.move_page(from, to)`: the page at `from` is put in
      front of the page at `to`; `to == |s|` means after the last page. The
      library's handling of other targets is not part of this model, so the
      target range is a precondition. */
  function MoveBefore(s: seq<Page>, from: nat, to: nat): (r: seq<Page>)
    requires from < |s| && to <= |s|
    ensures |r| == |s|
  {
    if to > from then s[..from] + s[from + 1..to] + [s[from]] + s[to..]
    else s[..to] + [s[from]] + s[to..from] + s[from + 1..]
  }

  /** `move_page` only reorders: no page is lost or duplicated. */
  lemma MoveBeforePermutes(s: seq<Page>, from: nat, to: nat)
    requires from < |s| && to <= |s|
    ensures multiset(MoveBefore(s, from, to)) == multiset(s)
  {
    if to > from {
      SwapPiecesPermutes(s[..from], [s[from]], s[from + 1..to], s[to..]);
      assert s == s[..from] + [s[from]] + s[from + 1..to] + s[to..];
    } else {
      SwapPiecesPermutes(s[..to], s[to..from], [s[from]], s[from + 1..]);
      assert s == s[..to] + s[to..from] + [s[from]] + s[from + 1..];
    }
  }

  /** The moved page lands where `Landing` says, the pages outside the
      range it crosses keep their places, and those inside shift by one
      towards where it came from. */
  lemma MoveBeforeLands(s: seq<Page>, from: nat, to: nat, j: nat)
    requires from < |s| && to <= |s| && j < |s|
    ensures MoveBefore(s, from, to)[Landing(from, to)] == s[from]
    ensures j < MinI(from, Landing(from, to)) || j > MaxI(from, Landing(from, to))
            ==> MoveBefore(s, from, to)[j] == s[j]
    ensures from < j <= Landing(from, to) ==> MoveBefore(s, from, to)[j - 1] == s[j]
    ensures Landing(from, to) <= j < from ==> MoveBefore(s, from, to)[j + 1] == s[j]
  {
  }

  /** Exchanging two adjacent pieces of a list keeps its pages. */
  lemma SwapPiecesPermutes(a: seq<Page>, b: seq<Page>, c: seq<Page>, d: seq<Page>)
    ensures multiset(a + c + b + d) == multiset(a + b + c + d)
  {
    calc {
      multiset(a + c + b + d);
      multiset(a) + multiset(c) + multiset(b) + multiset(d);
      multiset(a) + multiset(b) + multiset(c) + multiset(d);
      multiset(a + b + c + d);
    }
  }

  function RemovePage(s: seq<Page>, k: nat): (r: seq<Page>)
    requires k < |s|
    ensures |r| == |s| - 1
  {
    s[..k] + s[k + 1..]
  }

  /** The pages in front of the removed one keep their index; those behind
      it move up by one. */
  lemma RemovePageIndex(s: seq<Page>, k: nat, j: nat)
    requires k < |s| && j < |s| - 1
    ensures RemovePage(s, k)[j] == if j < k then s[j] else s[j + 1]
  {
  }

  /** `move_page_up`: page 0 stays, any other page swaps with the one above. */
  function MovedUp(s: seq<Page>, p: int): (r: seq<Page>)
    requires p < |s|
    ensures |r| == |s|
    ensures p <= 0 ==> r == s
    ensures p > 0 ==> r == s[p - 1 := s[p]][p := s[p - 1]]
  {
    if p <= 0 then s else MoveBefore(s, p, p - 1)
  }

  /** `move_page_down`: the last page stays; any other page swaps with the
      one below. The target `p + 2` is `|s|` for the second-to-last page. */
  function MovedDown(s: seq<Page>, p: nat): (r: seq<Page>)
    ensures |r| == |s|
    ensures p >= |s| - 1 ==> r == s
    ensures p < |s| - 1 ==> r == s[p := s[p + 1]][p + 1 := s[p]]
  {
    if p >= |s| - 1 then s else MoveBefore(s, p, p + 2)
  }

  /** Moving a page up and then moving it back down restores the list. */
  lemma MovedUpThenDown(s: seq<Page>, p: nat)
    requires 0 < p < |s|
    ensures MovedDown(MovedUp(s, p), p - 1) == s
  {
    var u := s[p - 1 := s[p]][p := s[p - 1]];
    assert MovedUp(s, p) == u;
    assert u[p - 1 := u[p]][p := u[p - 1]] == s;
  }

  // ---------------------------------------------------------------------
  // Reordering by drag and drop

  predicate InRange(xs: seq<int>, n: nat)
  {
    forall i :: 0 <= i < |xs| ==> 0 <= xs[i] < n
  }

  /** In an increasing list the entries below `c` are exactly a prefix. */
  lemma {:induction false} CountBelowSplit(xs: seq<int>, c: int)
    requires Increasing(xs)
    ensures forall j :: 0 <= j < CountBelow(xs, c) ==> xs[j] < c
    ensures forall j :: CountBelow(xs, c) <= j < |xs| ==> xs[j] >= c
  {
    if xs != [] {
      CountBelowSplit(xs[1..], c);
    }
  }

  /** A strictly increasing list of page numbers below `n` has at least
      `k` entries below its `k`-th one and room for the rest above it. */
  lemma IncreasingBounds(xs: seq<int>, n: nat)
    requires Increasing(xs) && InRange(xs, n)
    ensures forall k :: 0 <= k < |xs| ==> k <= xs[k] <= n - |xs| + k
  {
    forall k | 0 <= k < |xs|
      ensures k <= xs[k] <= n - |xs| + k
    {
      IncreasingFrom(xs, 0, k);
      IncreasingFrom(xs, k, |xs| - 1);
    }
  }

  lemma {:induction false} IncreasingFrom(xs: seq<int>, i: nat, j: nat)
    requires Increasing(xs) && i <= j < |xs|
    ensures xs[j] >= xs[i] + (j - i)
    decreases j - i
  {
    if i < j {
      IncreasingFrom(xs, i + 1, j);
    }
  }

  /** What the handler's arithmetic needs about its arguments: the dragged
      pages are distinct, sorted, on the document, and at least one. */
  predicate ReorderArgs(n: nat, sources: seq<int>, target: int)
  {
    0 < |sources| && Increasing(sources) && InRange(sources, n) && 0 <= target <= n
  }

  /** `adjusted_target`: the target less the dragged pages in front of it. */
  function AdjustedTarget(sources: seq<int>, target: int): int
  {
    target - CountBelow(sources, target)
  }

  /** The dragged pages in order, as far as the `i`-th. */
  function Block(s: seq<Page>, sources: seq<int>, i: nat): (r: seq<Page>)
    requires i <= |sources| && InRange(sources, |s|)
    ensures |r| == i && forall k :: 0 <= k < i ==> r[k] == s[sources[k]]
  {
    seq(i, k requires 0 <= k < i => s[sources[k]])
  }

  /** The pages that are not among the first `i` dragged ones, in order. */
  function Rest(s: seq<Page>, sources: seq<int>, i: nat): (r: seq<Page>)
    requires Increasing(sources) && InRange(sources, |s|) && i <= |sources|
    ensures |r| == |s| - i
  {
    if i == 0 then s
    else
      IncreasingBounds(sources, |s|);
      RemovePage(Rest(s, sources, i - 1), sources[i - 1] - (i - 1))
  }

  /** A dragged page not yet taken out of `Rest` sits `i` places earlier. */
  lemma {:induction false} RestAtSource(s: seq<Page>, sources: seq<int>, i: nat, j: nat)
    requires Increasing(sources) && InRange(sources, |s|) && i <= j < |sources|
    ensures 0 <= sources[j] - i < |Rest(s, sources, i)|
    ensures Rest(s, sources, i)[sources[j] - i] == s[sources[j]]
  {
    IncreasingBounds(sources, |s|);
    if i > 0 {
      RestAtSource(s, sources, i - 1, j);
      IncreasingFrom(sources, i - 1, j);
      RemovePageIndex(Rest(s, sources, i - 1), sources[i - 1] - (i - 1), sources[j] - i);
    }
  }

  /** A page that is not dragged sits as many places earlier in `Rest` as
      there are dragged pages in front of it among the first `i`. */
  lemma {:induction false} RestAtOther(s: seq<Page>, sources: seq<int>, i: nat, c: nat)
    requires Increasing(sources) && InRange(sources, |s|) && i <= |sources|
    requires c < |s| && c !in sources
    ensures 0 <= c - CountBelow(sources[..i], c) < |Rest(s, sources, i)|
    ensures Rest(s, sources, i)[c - CountBelow(sources[..i], c)] == s[c]
  {
    if i > 0 {
      RestAtOther(s, sources, i - 1, c);
      var prev := Rest(s, sources, i - 1);
      var k := sources[i - 1] - (i - 1);
      var q0 := c - CountBelow(sources[..i - 1], c);
      var q := c - CountBelow(sources[..i], c);
      OtherShift(sources, i, c, k, q0, q);
      IncreasingFrom(sources, 0, i - 1);
      assert Rest(s, sources, i) == RemovePage(prev, k);
      RemovePageIndex(prev, k, q);
    }
  }

  /** Taking out the `i`-th dragged page moves a page that is not dragged
      one place forward exactly when the taken page lay in front of it. */
  lemma OtherShift(sources: seq<int>, i: nat, c: int, k: int, q0: int, q: int)
    requires Increasing(sources) && 0 < i <= |sources| && c !in sources
    requires k == sources[i - 1] - (i - 1)
    requires q0 == c - CountBelow(sources[..i - 1], c) && q == c - CountBelow(sources[..i], c)
    ensures (q < k && q0 == q) || (k <= q && q0 == q + 1)
  {
    assert sources[..i] == sources[..i - 1] + [sources[i - 1]];
    CountBelowAppend(sources[..i - 1], sources[i - 1], c);
    CountBelowSplit(sources, c);
    CountBelowPrefix(sources, c, i - 1);
    var b := CountBelow(sources, c);
    if sources[i - 1] > c {
      IncreasingFrom(sources, b, i - 1);
      assert sources[b] >= c && sources[b] != c;
    }
  }

  lemma {:induction false} CountBelowAppend(xs: seq<int>, x: int, c: int)
    ensures CountBelow(xs + [x], c) == CountBelow(xs, c) + (if x < c then 1 else 0)
  {
    if xs == [] {
      assert [x][1..] == [];
    } else {
      assert (xs + [x])[1..] == xs[1..] + [x];
      CountBelowAppend(xs[1..], x, c);
    }
  }

  /** In an increasing list, a prefix of length `i` counts `min(i, k)`
      entries below `c`, where `k` counts them in the whole list. */
  lemma CountBelowPrefix(xs: seq<int>, c: int, i: nat)
    requires Increasing(xs) && i <= |xs|
    ensures CountBelow(xs[..i], c) == MinI(i, CountBelow(xs, c))
  {
    CountBelowSplit(xs, c);
    CountBelowOfSplit(xs[..i], c, MinI(i, CountBelow(xs, c)));
  }

  /** Counting over a list whose entries below `c` are a known prefix. */
  lemma {:induction false} CountBelowOfSplit(xs: seq<int>, c: int, k: nat)
    requires k <= |xs|
    requires forall j :: 0 <= j < k ==> xs[j] < c
    requires forall j :: k <= j < |xs| ==> xs[j] >= c
    ensures CountBelow(xs, c) == k
  {
    if xs != [] {
      CountBelowOfSplit(xs[1..], c, if k > 0 then k - 1 else 0);
    }
  }

  /** Where the block of dragged pages sits in the list after `i` of them
      have been moved: in front of the target page while the pages come from
      in front of it, at the adjusted target afterwards. */
  function Slot(sources: seq<int>, target: int, i: nat): int
  {
    target - MinI(i, CountBelow(sources, target))
  }

  /** The list after the first `i` dragged pages have been gathered. */
  function Gathered(s: seq<Page>, sources: seq<int>, target: int, i: nat): (r: seq<Page>)
    requires ReorderArgs(|s|, sources, target) && i <= |sources|
    ensures |r| == |s|
  {
    SlotFits(s, sources, target, i);
    var rest := Rest(s, sources, i);
    var p := Slot(sources, target, i);
    rest[..p] + Block(s, sources, i) + rest[p..]
  }

  lemma SlotFits(s: seq<Page>, sources: seq<int>, target: int, i: nat)
    requires ReorderArgs(|s|, sources, target) && i <= |sources|
    ensures 0 <= Slot(sources, target, i) <= |s| - i
  {
    var b := CountBelow(sources, target);
    CountBelowSplit(sources, target);
    IncreasingBounds(sources, |s|);
    if b > 0 {
      assert sources[b - 1] < target;
    }
    if i > b {
      IncreasingFrom(sources, b, i - 1);
      assert sources[b] >= target;
      assert sources[i - 1] < |s|;
    }
  }

  /** The evidently intended outcome of a drag and drop: the other pages in
      their order, with the dragged pages as one block, in their order, at
      the adjusted target. */
  function Reordered(s: seq<Page>, sources: seq<int>, target: int): (r: seq<Page>)
    requires ReorderArgs(|s|, sources, target)
    ensures |r| == |s|
  {
    Gathered(s, sources, target, |sources|)
  }

  /** Moving a page that lies in front of the target to the target appends
      it to the block. */
  lemma ForwardStep(rest: seq<Page>, block: seq<Page>, k: nat, p: nat, p': nat, from: nat, to: nat)
    requires k < p <= |rest| && p' == p - 1 && from == k && to == p + |block|
    ensures MoveBefore(rest[..p] + block + rest[p..], from, to)
         == RemovePage(rest, k)[..p'] + (block + [rest[k]]) + RemovePage(rest, k)[p'..]
  {
    var cur := rest[..p] + block + rest[p..];
    var r := RemovePage(rest, k);
    assert MoveBefore(cur, from, to) == cur[..from] + cur[from + 1..to] + [cur[from]] + cur[to..];
    assert r == rest[..k] + rest[k + 1..];
    assert cur[..k] == rest[..k];
    assert cur[k] == rest[k];
    assert cur[k + 1..p + |block|] == rest[k + 1..p] + block;
    assert cur[p + |block|..] == rest[p..];
    assert r[..p - 1] == rest[..k] + rest[k + 1..p];
    assert r[p - 1..] == rest[p..];
  }

  /** Moving a page that lies behind the block to just after it appends it
      to the block. */
  lemma BackwardStep(rest: seq<Page>, block: seq<Page>, k: nat, p: nat, p': nat, from: nat, to: nat)
    requires p <= k < |rest| && p' == p && from == k + |block| && to == p + |block|
    ensures MoveBefore(rest[..p] + block + rest[p..], from, to)
         == RemovePage(rest, k)[..p'] + (block + [rest[k]]) + RemovePage(rest, k)[p'..]
  {
    var cur := rest[..p] + block + rest[p..];
    var r := RemovePage(rest, k);
    assert MoveBefore(cur, from, to) == cur[..to] + [cur[from]] + cur[to..from] + cur[from + 1..];
    assert r == rest[..k] + rest[k + 1..];
    assert cur[..p + |block|] == rest[..p] + block;
    assert cur[k + |block|] == rest[k];
    assert cur[p + |block|..k + |block|] == rest[p..k];
    assert cur[k + |block| + 1..] == rest[k + 1..];
    assert r[..p] == rest[..p];
    assert r[p..] == rest[p..k] + rest[k + 1..];
  }

  /** One iteration of the corrected handler, moving the `i`-th dragged page
      with the insert-before compensation `move_page_down` uses. */
  function GatherStep(sources: seq<int>, target: int, i: nat): (r: (int, int))
    requires i < |sources|
  {
    var page := sources[i];
    if page < target then (page - i, target)
    else (page, AdjustedTarget(sources, target) + i)
  }

  lemma GatherStepCorrect(s: seq<Page>, sources: seq<int>, target: int, i: nat)
    requires ReorderArgs(|s|, sources, target) && i < |sources|
    ensures var (from, to) := GatherStep(sources, target, i);
      0 <= from < |s| && 0 <= to <= |s|
      && MoveBefore(Gathered(s, sources, target, i), from, to) == Gathered(s, sources, target, i + 1)
  {
    var b := CountBelow(sources, target);
    var rest := Rest(s, sources, i);
    var block := Block(s, sources, i);
    var p := Slot(sources, target, i);
    var p' := Slot(sources, target, i + 1);
    var k := sources[i] - i;
    assert 0 <= k < |rest| && 0 <= p <= |rest| && 0 <= p' <= |s| - i - 1 by {
      IncreasingBounds(sources, |s|);
      SlotFits(s, sources, target, i);
      SlotFits(s, sources, target, i + 1);
    }
    var rest' := RemovePage(rest, k);
    var block' := block + [rest[k]];
    assert Block(s, sources, i + 1) == block' by {
      RestAtSource(s, sources, i, i);
    }
    assert Gathered(s, sources, target, i) == rest[..p] + block + rest[p..];
    assert Gathered(s, sources, target, i + 1) == rest'[..p'] + block' + rest'[p'..];
    var (from, to) := GatherStep(sources, target, i);
    if sources[i] < target {
      assert i < b && p == target - i && p' == p - 1 && k < p by {
        CountBelowSplit(sources, target);
      }
      assert from == k && to == p + |block|;
      ForwardStep(rest, block, k, p, p', from, to);
      assert MoveBefore(rest[..p] + block + rest[p..], from, to) == rest'[..p'] + block' + rest'[p'..];
    } else {
      assert p == p' && p <= k by {
        CountBelowSplit(sources, target);
        if i > b {
          IncreasingFrom(sources, b, i);
        }
      }
      assert from == k + |block| && to == p + |block|;
      BackwardStep(rest, block, k, p, p', from, to);
      assert MoveBefore(rest[..p] + block + rest[p..], from, to) == rest'[..p'] + block' + rest'[p'..];
    }
    assert MoveBefore(Gathered(s, sources, target, i), from, to) == Gathered(s, sources, target, i + 1);
  }

  /** The corrected reorder handler: each dragged page is moved, in order,
      either to the front of the target page or to the end of the block. */
  method ReorderPages(pages: seq<Page>, sources: seq<int>, target: int) returns (r: seq<Page>)
    requires ReorderArgs(|pages|, sources, target)
    ensures r == Reordered(pages, sources, target)
  {
    r := pages;
    var i := 0;
    assert Gathered(pages, sources, target, 0) == pages by {
      assert Rest(pages, sources, 0) == pages;
      SlotFits(pages, sources, target, 0);
      var p := Slot(sources, target, 0);
      assert pages[..p] + [] + pages[p..] == pages;
    }
    while i < |sources|
      invariant 0 <= i <= |sources|
      invariant r == Gathered(pages, sources, target, i)
    {
      GatherStepCorrect(pages, sources, target, i);
      var (from, to) := GatherStep(sources, target, i);
      r := MoveBefore(r, from, to);
      i := i + 1;
    }
  }

  /** The dragged pages end up consecutive, in their order, starting at the
      adjusted target. */
  lemma ReorderedBlock(s: seq<Page>, sources: seq<int>, target: int, k: nat)
    requires ReorderArgs(|s|, sources, target) && k < |sources|
    ensures 0 <= AdjustedTarget(sources, target) <= |s| - |sources|
    ensures Reordered(s, sources, target)[AdjustedTarget(sources, target) + k] == s[sources[k]]
  {
    SlotFits(s, sources, target, |sources|);
    assert Slot(sources, target, |sources|) == AdjustedTarget(sources, target);
  }

  /** The corrected current-page tracking: where page `c` ends up. */
  function NewPosition(sources: seq<int>, target: int, c: int): int
  {
    var adjusted := AdjustedTarget(sources, target);
    match IndexIn(sources, c)
    case Some(k) => adjusted + k
    case None =>
      var q := c - CountBelow(sources, c);
      if q < adjusted then q else q + |sources|
  }

  /** `list.index`, or None when absent. */
  function IndexIn(xs: seq<int>, c: int): (r: Option<nat>)
    ensures r.Some? ==> r.value < |xs| && xs[r.value] == c
    ensures r.None? <==> c !in xs
  {
    if xs == [] then None
    else if xs[0] == c then Some(0)
    else match IndexIn(xs[1..], c)
      case None => None
      case Some(k) => Some(k + 1)
  }

  /** Every page, dragged or not, is found at its new position afterwards:
      the dragged pages form the block and the others keep their order
      around it. */
  lemma ReorderedTracks(s: seq<Page>, sources: seq<int>, target: int, c: nat)
    requires ReorderArgs(|s|, sources, target) && c < |s|
    ensures 0 <= NewPosition(sources, target, c) < |s|
    ensures Reordered(s, sources, target)[NewPosition(sources, target, c)] == s[c]
  {
    match IndexIn(sources, c)
    case Some(k) =>
      ReorderedBlock(s, sources, target, k);
    case None =>
      var m := |sources|;
      var adjusted := AdjustedTarget(sources, target);
      var rest := Rest(s, sources, m);
      var q := c - CountBelow(sources, c);
      assert 0 <= q < |rest| && rest[q] == s[c] by {
        assert sources[..m] == sources;
        RestAtOther(s, sources, m, c);
      }
      assert 0 <= adjusted <= |rest| by {
        SlotFits(s, sources, target, m);
        assert Slot(sources, target, m) == adjusted;
      }
      OtherPageAround(rest, Block(s, sources, m), adjusted, q);
      assert Reordered(s, sources, target) == rest[..adjusted] + Block(s, sources, m) + rest[adjusted..];
  }

  /** A page of `rest` keeps its index when the block goes in behind it and
      moves back by the block's length otherwise. */
  lemma OtherPageAround(rest: seq<Page>, block: seq<Page>, p: nat, q: nat)
    requires p <= |rest| && q < |rest|
    ensures q < p ==> (rest[..p] + block + rest[p..])[q] == rest[q]
    ensures p <= q ==> (rest[..p] + block + rest[p..])[q + |block|] == rest[q]
  {
  }

  /** Pages that are not dragged keep their relative order. */
  lemma ReorderedKeepsOrder(s: seq<Page>, sources: seq<int>, target: int, c: nat, d: nat)
    requires ReorderArgs(|s|, sources, target) && c < d < |s|
    requires c !in sources && d !in sources
    ensures NewPosition(sources, target, c) < NewPosition(sources, target, d)
  {
    var bc := CountBelow(sources, c);
    var bd := CountBelow(sources, d);
    CountBelowMono(sources, c, d);
    CountBelowSplit(sources, c);
    CountBelowSplit(sources, d);
    if bd > bc {
      IncreasingFrom(sources, bc, bd - 1);
      assert sources[bc] >= c && sources[bc] != c;
      assert sources[bd - 1] < d;
    }
  }

  lemma {:induction false} CountBelowMono(xs: seq<int>, c: int, d: int)
    requires c <= d
    ensures CountBelow(xs, c) <= CountBelow(xs, d)
  {
    if xs != [] {
      CountBelowMono(xs[1..], c, d);
    }
  }

  /** The reorder handler as written: each page goes to `adjusted + i`
      without the compensation for forward moves, and its current position
      is taken to drop once per earlier dragged page whatever direction
      that page moved in. */
  function StepAsWritten(sources: seq<int>, target: int, i: nat): (r: (int, int))
    requires i < |sources|
  {
    (sources[i] - CountBelow(sources[..i], sources[i]), AdjustedTarget(sources, target) + i)
  }

  /** The list after the first `i` iterations of the handler as written. */
  function ReorderedAsWrittenUpTo(s: seq<Page>, sources: seq<int>, target: int, i: nat): (r: seq<Page>)
    requires ReorderArgs(|s|, sources, target) && i <= |sources|
    ensures |r| == |s|
  {
    if i == 0 then s
    else
      var cur := ReorderedAsWrittenUpTo(s, sources, target, i - 1);
      AsWrittenStepFits(s, sources, target, i - 1);
      var (from, to) := StepAsWritten(sources, target, i - 1);
      if from != to then MoveBefore(cur, from, to) else cur
  }

  /** Both arguments the handler passes stay in the library's range. */
  lemma AsWrittenStepFits(s: seq<Page>, sources: seq<int>, target: int, i: nat)
    requires ReorderArgs(|s|, sources, target) && i < |sources|
    ensures 0 <= StepAsWritten(sources, target, i).0 < |s|
    ensures 0 <= StepAsWritten(sources, target, i).1 <= |s|
  {
    IncreasingBounds(sources, |s|);
    CountBelowSplit(sources[..i], sources[i]);
    CountBelowPrefix(sources, sources[i], i);
    CountBelowSplit(sources, sources[i]);
    SlotFits(s, sources, target, |sources|);
    assert Slot(sources, target, |sources|) == AdjustedTarget(sources, target);
  }

  /** One more iteration of the handler as written: `move_page` with the
      step's two arguments, skipped when they are equal. */
  lemma AsWrittenStep(s: seq<Page>, sources: seq<int>, target: int, i: nat, from: int, to: int)
    requires ReorderArgs(|s|, sources, target) && i < |sources|
    requires from == StepAsWritten(sources, target, i).0 && to == StepAsWritten(sources, target, i).1
    ensures 0 <= from < |s| && 0 <= to <= |s|
    ensures ReorderedAsWrittenUpTo(s, sources, target, i + 1)
         == if from != to then MoveBefore(ReorderedAsWrittenUpTo(s, sources, target, i), from, to)
            else ReorderedAsWrittenUpTo(s, sources, target, i)
  {
    AsWrittenStepFits(s, sources, target, i);
  }

  /** `_on_pages_reordered` as written: the loop of `move_page` calls. */
  method ReorderPagesAsWritten(pages: seq<Page>, sources: seq<int>, target: int) returns (r: seq<Page>)
    requires ReorderArgs(|pages|, sources, target)
    ensures r == ReorderedAsWrittenUpTo(pages, sources, target, |sources|)
    ensures multiset(r) == multiset(pages)
  {
    r := pages;
    var adjusted := target - CountBelow(sources, target);
    var i := 0;
    while i < |sources|
      invariant 0 <= i <= |sources|
      invariant r == ReorderedAsWrittenUpTo(pages, sources, target, i)
    {
      var current := PositionAsWritten(sources, i);
      var dest := adjusted + i;
      AsWrittenStep(pages, sources, target, i, current, dest);
      if current != dest {
        r := MoveBefore(r, current, dest);
      }
      i := i + 1;
    }
    AsWrittenPermutes(pages, sources, target, |sources|);
  }

  /** The handler's inner loop: the `i`-th dragged page's position, lowered
      once for every earlier dragged page in front of it. */
  method PositionAsWritten(sources: seq<int>, i: nat) returns (current: int)
    requires i < |sources|
    ensures current == sources[i] - CountBelow(sources[..i], sources[i])
  {
    var page := sources[i];
    current := page;
    var j := 0;
    while j < i
      invariant 0 <= j <= i
      invariant current == page - CountBelow(sources[..j], page)
    {
      assert sources[..j + 1] == sources[..j] + [sources[j]];
      CountBelowAppend(sources[..j], sources[j], page);
      if sources[j] < page {
        current := current - 1;
      }
      j := j + 1;
    }
  }

  /** The handler as written loses no page, whatever it does to the order. */
  lemma {:induction false} AsWrittenPermutes(s: seq<Page>, sources: seq<int>, target: int, i: nat)
    requires ReorderArgs(|s|, sources, target) && i <= |sources|
    ensures multiset(ReorderedAsWrittenUpTo(s, sources, target, i)) == multiset(s)
  {
    if i > 0 {
      AsWrittenPermutes(s, sources, target, i - 1);
      AsWrittenStepFits(s, sources, target, i - 1);
      var (from, to) := StepAsWritten(sources, target, i - 1);
      if from != to {
        MoveBeforePermutes(ReorderedAsWrittenUpTo(s, sources, target, i - 1), from, to);
      }
    }
  }

  // Four pages A, B, C, D for the examples below.
  const A := Page(0, 0)
  const B := Page(1, 0)
  const C := Page(2, 0)
  const D := Page(3, 0)

  /** Dragging the first page in front of the last one leaves it one place
      short: the handler asks `move_page(0, 2)`, which lands in front of C,
      where the drop asked for it to land in front of D. */
  lemma ForwardDropOneShort()
    ensures ReorderedAsWrittenUpTo([A, B, C, D], [0], 3, 1) == [B, A, C, D]
    ensures ReorderedAsWrittenUpTo([A, B, C, D], [0], 3, 1) != Reordered([A, B, C, D], [0], 3)
  {
    ForwardDropAsWritten([A, B, C, D], [0]);
    ForwardDropGathered([A, B, C, D], [0]);
  }

  lemma ForwardDropAsWritten(s: seq<Page>, xs: seq<int>)
    requires s == [A, B, C, D] && xs == [0]
    ensures ReorderedAsWrittenUpTo(s, xs, 3, 1) == [B, A, C, D]
  {
    assert ReorderArgs(4, xs, 3);
    assert CountBelow(xs, 3) == 1;
    assert xs[..0] == [];
    AsWrittenStep(s, xs, 3, 0, 0, 2);
    assert MoveBefore(s, 0, 2) == [B, A, C, D];
  }

  /** The same drop, gathered correctly. */
  lemma ForwardDropIntended()
    ensures Reordered([A, B, C, D], [0], 3) == [B, C, A, D]
  {
    ForwardDropGathered([A, B, C, D], [0]);
  }

  lemma ForwardDropGathered(s: seq<Page>, xs: seq<int>)
    requires s == [A, B, C, D] && xs == [0]
    ensures Reordered(s, xs, 3) == [B, C, A, D]
  {
    assert Rest(s, xs, 1) == [B, C, D] by {
      assert Rest(s, xs, 0) == s;
    }
    assert CountBelow(xs, 3) == 1;
    assert Slot(xs, 3, 1) == 2;
    assert Block(s, xs, 1) == [A];
  }

  /** Dragging the last two pages to the front moves the wrong page second:
      after C has gone to the front, D is still at index 3, but the handler
      lowers its position to 2 (C was in front of it) and so moves B
      instead, giving [C, B, A, D] rather than [C, D, A, B]. */
  lemma BackwardMovesWrongPage()
    ensures ReorderedAsWrittenUpTo([A, B, C, D], [2, 3], 0, 2) == [C, B, A, D]
    ensures ReorderedAsWrittenUpTo([A, B, C, D], [2, 3], 0, 2) != Reordered([A, B, C, D], [2, 3], 0)
  {
    BackwardPairSecond([A, B, C, D], [2, 3]);
    BackwardPairGathered([A, B, C, D], [2, 3]);
  }

  lemma BackwardPairFirst(s: seq<Page>, xs: seq<int>)
    requires s == [A, B, C, D] && xs == [2, 3]
    ensures ReorderedAsWrittenUpTo(s, xs, 0, 1) == [C, A, B, D]
  {
    assert ReorderArgs(4, xs, 0);
    assert CountBelow(xs, 0) == 0;
    assert xs[..0] == [];
    AsWrittenStep(s, xs, 0, 0, 2, 0);
    assert MoveBefore(s, 2, 0) == [C, A, B, D];
  }

  lemma BackwardPairSecond(s: seq<Page>, xs: seq<int>)
    requires s == [A, B, C, D] && xs == [2, 3]
    ensures ReorderedAsWrittenUpTo(s, xs, 0, 2) == [C, B, A, D]
  {
    assert ReorderArgs(4, xs, 0);
    assert CountBelow(xs, 0) == 0;
    assert xs[..1] == [2];
    assert CountBelow([2], 3) == 1;
    AsWrittenStep(s, xs, 0, 1, 2, 1);
    BackwardPairFirst(s, xs);
    assert MoveBefore([C, A, B, D], 2, 1) == [C, B, A, D];
  }

  /** The same drop, gathered correctly. */
  lemma BackwardPairIntended()
    ensures Reordered([A, B, C, D], [2, 3], 0) == [C, D, A, B]
  {
    BackwardPairGathered([A, B, C, D], [2, 3]);
  }

  lemma BackwardPairGathered(s: seq<Page>, xs: seq<int>)
    requires s == [A, B, C, D] && xs == [2, 3]
    ensures Reordered(s, xs, 0) == [C, D, A, B]
  {
    assert Rest(s, xs, 1) == [A, B, D] by {
      assert Rest(s, xs, 0) == s;
    }
    assert Rest(s, xs, 2) == [A, B];
    assert CountBelow(xs, 0) == 0;
    assert Slot(xs, 0, 2) == 0;
    assert Block(s, xs, 2) == [C, D];
  }

  /** The handler's current-page update as written (no `set_page` call
      leaves the view where it was). */
  function CurrentAfterAsWritten(sources: seq<int>, target: int, current: int): (r: int)
    requires |sources| > 0
  {
    var adjusted := AdjustedTarget(sources, target);
    var low := SeqMin(sources);
    match IndexIn(sources, current)
    case Some(k) => adjusted + k
    case None =>
      if current >= low && current < target then current - CountBelow(sources, current)
      else if current < low && current >= adjusted then current + |sources|
      else current
  }

  /** A current page behind the target, with a dragged page on either side
      of it, stays where it was although a page in front of it left and two
      arrived: pages 0 and 5 dropped at 2 move page 3 to index 4. */
  lemma CurrentPageLeftBehind()
    ensures CurrentAfterAsWritten([0, 5], 2, 3) == 3
    ensures NewPosition([0, 5], 2, 3) == 4
  {
    assert CountBelow([0, 5], 2) == 1;
    assert CountBelow([0, 5], 3) == 1;
    assert SeqMin([0, 5]) == 0;
  }

  // ---------------------------------------------------------------------
  // The page list of the open tab and its current page

  /** The rotation `rotate_page` sets: Python's `%` with a positive modulus
      never gives a negative result. */
  function NewRotation(rotation: int, delta: int): (r: int)
    ensures 0 <= r < 360
    ensures (r - rotation - delta) % 360 == 0
  {
    (rotation + delta) % 360
  }

  /** Rotating back by the same amount restores a normalised rotation. */
  lemma RotationUndone(rotation: int, delta: int)
    requires 0 <= rotation < 360
    ensures NewRotation(NewRotation(rotation, delta), -delta) == rotation
  {
    var r := NewRotation(rotation, delta);
    assert (r - delta - rotation) % 360 == 0;
  }

  /** Four quarter turns bring a page back to where it was. */
  lemma FourQuarterTurns(rotation: int)
    requires 0 <= rotation < 360
    ensures NewRotation(NewRotation(NewRotation(NewRotation(rotation, 90), 90), 90), 90) == rotation
  {
  }

  /** `rotate_page_at`: `get_page` gives no page for an index out of range,
      and then nothing changes. */
  function RotatedAt(s: seq<Page>, p: int, delta: int): (r: seq<Page>)
    ensures |r| == |s|
    ensures forall j :: 0 <= j < |s| && j != p ==> r[j] == s[j]
    ensures 0 <= p < |s| ==> r[p].id == s[p].id && r[p].rotation == NewRotation(s[p].rotation, delta)
  {
    if 0 <= p < |s| then s[p := s[p].(rotation := NewRotation(s[p].rotation, delta))] else s
  }

  /** The open document's pages, the page the canvas shows and the layer
      list of the tab's `LayerManager`. */
  class PageView {
    var pages: seq<Page>
    var current: int
    var layers: seq<Layer>

    /** The canvas shows one of the document's pages. */
    predicate Valid()
      reads this
    {
      0 <= current < |pages|
    }

    constructor(pages0: seq<Page>, layers0: seq<Layer>)
      requires |pages0| > 0
      ensures pages == pages0 && current == 0 && layers == layers0
      ensures Valid()
    {
      pages := pages0;
      current := 0;
      layers := layers0;
    }

    /** `set_page`: a page out of range is ignored. */
    method SetPage(p: int)
      modifies this
      ensures current == (if 0 <= p < |pages| then p else old(current))
      ensures pages == old(pages) && layers == old(layers)
      ensures old(Valid()) ==> Valid()
    {
      if 0 <= p < |pages| {
        current := p;
      }
    }

    /** `delete_page`: the only page is never deleted; otherwise, once the
        user confirms, the current page and its layers go and the view
        falls back to the new last page when it was on the old last one.
        The layers of later pages keep their page numbers. */
    method DeletePage(confirmed: bool) returns (deleted: bool)
      modifies this
      ensures deleted <==> |old(pages)| > 1 && confirmed
      ensures !deleted ==> pages == old(pages) && current == old(current) && layers == old(layers)
      ensures deleted ==> layers == OffPage(old(layers), old(current))
      ensures deleted && 0 <= old(current) < |old(pages)| ==>
        pages == RemovePage(old(pages), old(current))
        && current == (if old(current) == |pages| then |pages| - 1 else old(current))
      ensures old(Valid()) ==> Valid()
    {
      deleted := false;
      if |pages| <= 1 || !confirmed {
        return;
      }
      var p := current;
      if 0 <= p < |pages| {
        pages := RemovePage(pages, p);
      }
      layers := OffPage(layers, p);
      if p >= |pages| {
        SetPage(|pages| - 1);
      }
      deleted := true;
    }

    /** `rotate_page`: the current page. */
    method RotatePage(delta: int)
      modifies this
      ensures pages == RotatedAt(old(pages), old(current), delta)
      ensures current == old(current) && layers == old(layers)
      ensures old(Valid()) ==> Valid()
    {
      pages := RotatedAt(pages, current, delta);
    }

    /** `rotate_page_at`: a page chosen from a thumbnail's menu. */
    method RotatePageAt(p: int, delta: int)
      modifies this
      ensures pages == RotatedAt(old(pages), p, delta)
      ensures current == old(current) && layers == old(layers)
      ensures old(Valid()) ==> Valid()
    {
      pages := RotatedAt(pages, p, delta);
    }

    /** `move_page_up`. The canvas page is left alone. */
    method MovePageUp(p: int)
      requires p < |pages|
      modifies this
      ensures pages == MovedUp(old(pages), p)
      ensures current == old(current) && layers == old(layers)
      ensures old(Valid()) ==> Valid()
    {
      if p <= 0 {
        return;
      }
      pages := MoveBefore(pages, p, p - 1);
    }

    /** `move_page_down`. The canvas page is left alone. */
    method MovePageDown(p: nat)
      modifies this
      ensures p < |old(pages)| ==> pages == MovedDown(old(pages), p)
      ensures p >= |old(pages)| ==> pages == old(pages)
      ensures current == old(current) && layers == old(layers)
      ensures old(Valid()) ==> Valid()
    {
      if p >= |pages| - 1 {
        return;
      }
      pages := MoveBefore(pages, p, p + 2);
    }

    /** The drag-and-drop reorder with the corrected gathering: the dragged
        pages end up consecutive at the adjusted target, and the canvas
        keeps showing the page it showed. */
    method PagesReordered(sources: seq<int>, target: int)
      requires ReorderArgs(|pages|, sources, target)
      modifies this
      ensures pages == Reordered(old(pages), sources, target)
      ensures layers == old(layers)
      ensures old(Valid()) ==> Valid() && current == NewPosition(sources, target, old(current))
      ensures old(Valid()) ==> pages[current] == old(pages)[old(current)]
    {
      var old0 := pages;
      var c := current;
      pages := ReorderPages(pages, sources, target);
      if 0 <= c < |old0| {
        ReorderedTracks(old0, sources, target, c);
      }
      SetPage(NewPosition(sources, target, c));
    }
  }

  // ---------------------------------------------------------------------
  // The clickable page label

  /** The label's text, as `on_page_changed` writes it. */
  function PageText(current: nat, total: nat): string
  {
    "Page: " + NatToString(current) + " / " + NatToString(total)
  }

  /** The pieces `setText` parses: "Page:" removed, stripped, split at "/". */
  function PageTextParts(text: string): (r: seq<string>)
    ensures |r| >= 1
  {
    Split(Strip(ReplaceAll(text, "Page:", "")), "/")
  }

  /** The current page and the page count after `setText(text)`. The
      current page is assigned before the count is parsed, so a text whose
      count does not parse still moves the current page. */
  function ParsedPageInfo(text: string, current: int, total: int): (r: (int, int))
  {
    var parts := PageTextParts(text);
    if |parts| != 2 then (current, total)
    else match ParseInt(Strip(parts[0]))
      case Err(_) => (current, total)
      case Ok(c) =>
        match ParseInt(Strip(parts[1]))
        case Err(_) => (c, total)
        case Ok(n) => (c, n)
  }

  /** The page `_on_edit_finished` asks for: the entry clamped to
      `[1, total]`, made 0-based; nothing for text that is not an integer. */
  function RequestedPage(entry: string, total: int): (r: Option<int>)
    ensures r.None? <==> ParseInt(entry).Err?
    ensures r.Some? && total >= 1 ==> 0 <= r.value < total
    ensures r.Some? && 1 <= ParseInt(entry).value <= total ==> r.value == ParseInt(entry).value - 1
    ensures r.Some? && total >= 1 && ParseInt(entry).value > total ==> r.value == total - 1
    ensures r.Some? && ParseInt(entry).value < 1 ==> r.value == 0
  {
    match ParseInt(entry)
    case Err(_) => None
    case Ok(n) => Some(MaxI(1, MinI(n, total)) - 1)
  }

  /** The label text with a count field `y` that holds neither a slash nor
      a `P` and has no whitespace at its ends falls apart into the page
      number and the count, each with one space still attached. */
  lemma PageTextPieces(c: nat, y: string)
    requires y != [] && !IsSpace(y[0]) && !IsSpace(y[|y| - 1])
    requires Lacks(y, '/') && Lacks(y, 'P')
    ensures PageTextParts("Page: " + NatToString(c) + " / " + y) == [NatToString(c) + " ", " " + y]
  {
    var d := NatToString(c);
    PageTextReplaced(d, y);
    PageTextStripped(d, y);
    PageTextSplit(d, y);
  }

  lemma PageTextReplaced(d: string, y: string)
    requires AllDigits(d) && Lacks(y, 'P')
    ensures ReplaceAll("Page: " + d + " / " + y, "Page:", "") == " " + d + " / " + y
  {
    var x := [' '] + (d + " " + ['/'] + (" " + y));
    PageTextShape(d, y);
    assert ReplaceAll("Page:" + x, "Page:", "") == x by {
      DigitsLack(d, 'P');
      LacksAll(d, y, 'P');
      ReplaceLeading("Page:" + x, "Page:", x);
    }
    PageTextTail(d, y);
  }

  lemma PageTextTail(d: string, y: string)
    ensures [' '] + (d + " " + ['/'] + (" " + y)) == " " + d + " / " + y
  {
  }

  lemma PageTextStripped(d: string, y: string)
    requires AllDigits(d) && y != [] && !IsSpace(y[|y| - 1])
    ensures Strip(" " + d + " / " + y) == d + " / " + y
  {
    var x := " " + d + " / " + y;
    var z := d + " / " + y;
    DigitsLack(d, '/');
    assert x[1..] == z;
    assert LStrip(x) == LStrip(z);
    assert z[0] == d[0] && z[|z| - 1] == y[|y| - 1];
    StripUnchanged(z);
  }

  lemma PageTextSplit(d: string, y: string)
    requires AllDigits(d) && Lacks(y, '/')
    ensures Split(d + " / " + y, "/") == [d + " ", " " + y]
  {
    DigitsLack(d, '/');
    LacksConcat(d, " ", '/');
    LacksConcat(" ", y, '/');
    assert d + " / " + y == (d + " ") + ['/'] + (" " + y);
    SplitOnce(d + " / " + y, d + " ", '/', " " + y);
  }

  lemma PageTextShape(d: string, y: string)
    ensures "Page: " + d + " / " + y == "Page:" + ([' '] + (d + " " + ['/'] + (" " + y)))
  {
    var l := "Page: " + d + " / " + y;
    var r := "Page:" + ([' '] + (d + " " + ['/'] + (" " + y)));
    assert |l| == |r|;
    forall i | 0 <= i < |l| ensures l[i] == r[i] {
      if i < 6 {
      } else if i < 6 + |d| {
        assert l[i] == d[i - 6] && r[i] == d[i - 6];
      } else if i < 9 + |d| {
      } else {
        assert l[i] == y[i - 9 - |d|] && r[i] == y[i - 9 - |d|];
      }
    }
  }

  /** A character missing from the page number and the count is missing
      from the label text after "Page:". */
  lemma LacksAll(d: string, y: string, ch: char)
    requires Lacks(d, ch) && Lacks(y, ch) && ch != ' ' && ch != '/'
    ensures Lacks([' '] + (d + " " + ['/'] + (" " + y)), ch)
  {
    LacksConcat(d, " ", ch);
    LacksConcat(" ", y, ch);
    LacksConcat(d + " ", ['/'], ch);
    LacksConcat(d + " " + ['/'], " " + y, ch);
    LacksConcat([' '], d + " " + ['/'] + (" " + y), ch);
  }

  /** `setText` reads back the page number and count `on_page_changed`
      writes. */
  lemma PageTextRoundTrip(c: nat, n: nat, current: int, total: int)
    ensures ParsedPageInfo(PageText(c, n), current, total) == (c, n)
  {
    var d := NatToString(c);
    var e := NatToString(n);
    DigitsFit(e);
    PageTextPieces(c, e);
    PaddedNumber(c);
    PaddedNumber(n);
    ParsedFromParts(PageText(c, n), d + " ", " " + e, current, total);
  }

  /** Decimal text may stand for the count in `PageTextPieces`. */
  lemma DigitsFit(d: string)
    requires AllDigits(d)
    ensures d != [] && !IsSpace(d[0]) && !IsSpace(d[|d| - 1])
    ensures Lacks(d, '/') && Lacks(d, 'P')
  {
    DigitsLack(d, '/');
    DigitsLack(d, 'P');
  }

  /** `int(...strip())` reads a page number back through one space of
      padding on either side. */
  lemma PaddedNumber(c: nat)
    ensures ParseInt(Strip(NatToString(c) + " ")) == Ok(c)
    ensures ParseInt(Strip(" " + NatToString(c))) == Ok(c)
  {
    DigitsFit(NatToString(c));
    StripPadded(NatToString(c));
    ParseIntOfIntToString(c);
  }

  /** `setText` on text whose two pieces are known. */
  lemma ParsedFromParts(text: string, p0: string, p1: string, current: int, total: int)
    requires PageTextParts(text) == [p0, p1]
    ensures ParseInt(Strip(p0)).Err? ==> ParsedPageInfo(text, current, total) == (current, total)
    ensures ParseInt(Strip(p0)).Ok? && ParseInt(Strip(p1)).Err? ==>
      ParsedPageInfo(text, current, total) == (ParseInt(Strip(p0)).value, total)
    ensures ParseInt(Strip(p0)).Ok? && ParseInt(Strip(p1)).Ok? ==>
      ParsedPageInfo(text, current, total) == (ParseInt(Strip(p0)).value, ParseInt(Strip(p1)).value)
  {
  }

  /** Text without whitespace at its ends, with one space of padding on
      either side, strips to itself. */
  lemma StripPadded(d: string)
    requires d != [] && !IsSpace(d[0]) && !IsSpace(d[|d| - 1])
    ensures Strip(d + " ") == d && Strip(" " + d) == d
  {
    assert LStrip(d + " ") == d + " ";
    assert RStrip(d + " ") == d by {
      assert (d + " ")[..|d|] == d;
    }
    assert (" " + d)[1..] == d;
    StripUnchanged(d);
  }

  /** A count that does not parse, such as "x" in "Page: 3 / x", leaves the
      old count but still moves the current page. */
  lemma BadCountMovesCurrent(c: nat, y: string, current: int, total: int)
    requires y != [] && !IsSpace(y[0]) && !IsSpace(y[|y| - 1])
    requires Lacks(y, '/') && Lacks(y, 'P') && ParseInt(y).Err?
    ensures ParsedPageInfo("Page: " + NatToString(c) + " / " + y, current, total) == (c, total)
  {
    var d := NatToString(c);
    PageTextPieces(c, y);
    PaddedNumber(c);
    assert ParseInt(Strip(" " + y)).Err? by {
      StripPadded(y);
    }
    ParsedFromParts("Page: " + d + " / " + y, d + " ", " " + y, current, total);
  }

  /** Typing back the page the label shows asks for that page. */
  lemma RequestedShownPage(c: nat, total: int)
    requires 1 <= c <= total
    ensures RequestedPage(IntToString(c), total) == Some(c - 1)
  {
    ParseIntOfIntToString(c);
  }

  class PageLabel {
    var text: string
    var currentPage: int
    var totalPages: int
    var editing: bool
    /** The text of the overlaid line edit. */
    var entry: string

    /** The constructor hands its text to `QLabel` without parsing it. */
    constructor(text0: string)
      ensures text == text0 && currentPage == 0 && totalPages == 0
      ensures !editing && entry == ""
    {
      text := text0;
      currentPage := 0;
      totalPages := 0;
      editing := false;
      entry := "";
    }

    /** `setText`. */
    method SetText(t: string)
      modifies this
      ensures text == t && editing == old(editing) && entry == old(entry)
      ensures (currentPage, totalPages) == ParsedPageInfo(t, old(currentPage), old(totalPages))
    {
      text := t;
      var info := ParsedPageInfo(t, currentPage, totalPages);
      currentPage, totalPages := info.0, info.1;
    }

    /** `mousePressEvent`: editing starts, showing the current page, only
        when there are pages and no edit is under way. */
    method MousePress()
      modifies this
      ensures old(totalPages) <= 0 || old(editing) ==>
        editing == old(editing) && entry == old(entry)
      ensures old(totalPages) > 0 && !old(editing) ==>
        editing && entry == IntToString(currentPage)
      ensures text == old(text) && currentPage == old(currentPage) && totalPages == old(totalPages)
    {
      if totalPages <= 0 || editing {
        return;
      }
      editing := true;
      entry := IntToString(currentPage);
    }

    /** The user types into the line edit. */
    method Type(t: string)
      modifies this
      ensures entry == t
      ensures text == old(text) && currentPage == old(currentPage)
      ensures totalPages == old(totalPages) && editing == old(editing)
    {
      entry := t;
    }

    /** `_on_edit_finished`: returns the page it emits. It is wired to both
        `returnPressed` and `editingFinished`, and only the first of the
        two calls emits. */
    method EditFinished() returns (requested: Option<int>)
      modifies this
      ensures !old(editing) ==> requested == None && !editing
      ensures old(editing) ==> requested == RequestedPage(entry, totalPages) && !editing
      ensures text == old(text) && currentPage == old(currentPage)
      ensures totalPages == old(totalPages) && entry == old(entry)
    {
      requested := None;
      if !editing {
        return;
      }
      editing := false;
      requested := RequestedPage(entry, totalPages);
    }
  }

  // ---------------------------------------------------------------------
  // The ruler

  const NiceIntervals: seq<int> := [10, 25, 50, 100, 200, 500, 1000]

  /** The major tick spacing: the first nice interval that is at least 40
      pixels wide at this zoom, or 50 when none is. */
  method MajorTickSpacing(zoom: real) returns (major: int)
    ensures (exists k :: 0 <= k < |NiceIntervals| && NiceIntervals[k] as real * zoom >= 40.0) ==>
      exists i :: 0 <= i < |NiceIntervals| && major == NiceIntervals[i]
        && major as real * zoom >= 40.0
        && forall k :: 0 <= k < i ==> NiceIntervals[k] as real * zoom < 40.0
    ensures (forall k :: 0 <= k < |NiceIntervals| ==> NiceIntervals[k] as real * zoom < 40.0) ==>
      major == 50
  {
    major := 50;
    var i := 0;
    while i < |NiceIntervals|
      invariant 0 <= i <= |NiceIntervals|
      invariant forall k :: 0 <= k < i ==> NiceIntervals[k] as real * zoom < 40.0
    {
      if NiceIntervals[i] as real * zoom >= 40.0 {
        major := NiceIntervals[i];
        return;
      }
      i := i + 1;
    }
  }

  /** Five minor ticks to a major one. */
  function MinorTickSpacing(major: int): (r: real)
    ensures 5.0 * r == major as real
  {
    major as real / 5.0
  }

  // ---------------------------------------------------------------------
  // The shape-tool button

  const ShapeTools: seq<string> := ["rectangle", "ellipse", "line", "arrow"]

  class ShapeToolButton {
    var currentTool: string
    var currentIcon: string

    /** The button always stands for one of the four shape tools. */
    predicate Valid()
      reads this
    {
      currentTool in ShapeTools
    }

    constructor()
      ensures currentTool == "rectangle" && currentIcon == "rectangle"
      ensures Valid()
    {
      currentTool := "rectangle";
      currentIcon := "rectangle";
    }

    /** `set_tool_externally`: any other tool name is ignored. */
    method SetToolExternally(tool: string, icon: string)
      modifies this
      ensures tool in ShapeTools ==> currentTool == tool && currentIcon == icon
      ensures tool !in ShapeTools ==> currentTool == old(currentTool) && currentIcon == old(currentIcon)
      ensures old(Valid()) ==> Valid()
    {
      if tool in ShapeTools {
        currentTool := tool;
        currentIcon := icon;
      }
    }
  }

  // ---------------------------------------------------------------------
  // Tabs

  /** A tab: its identity and whether a document is open in it. */
  datatype Tab = Tab(id: nat, hasDocument: bool)

  /** The answer to "save before closing?". Saving itself is not part of
      this model. */
  datatype Reply = Yes | No | Cancel

  class TabList {
    var tabs: seq<Tab>
    var currentIndex: int

    /** Either no tab is current or the index names a tab. */
    predicate Valid()
      reads this
    {
      currentIndex == -1 || 0 <= currentIndex < |tabs|
    }

    constructor()
      ensures tabs == [] && currentIndex == -1
      ensures Valid()
    {
      tabs := [];
      currentIndex := -1;
    }

    /** `current_tab`: None for an index out of range. */
    function CurrentTab(): (r: Option<Tab>)
      reads this
      ensures r.Some? <==> 0 <= currentIndex < |tabs|
      ensures r.Some? ==> r.value == tabs[currentIndex]
    {
      if 0 <= currentIndex < |tabs| then Some(tabs[currentIndex]) else None
    }

    /** `create_new_tab`: the new tab is appended and becomes current. */
    method OpenTab(t: Tab)
      modifies this
      ensures tabs == old(tabs) + [t] && currentIndex == |old(tabs)|
      ensures CurrentTab() == Some(t)
    {
      tabs := tabs + [t];
      currentIndex := |tabs| - 1;
    }

    /** `close_tab`: a bad index is ignored, as is a Cancel to the save
        question (asked only when a document is open). Otherwise the tab
        goes and the tab widget's own current index, `widgetIndex`, is
        taken over, or -1 when no tab is left. */
    method CloseTab(index: int, reply: Reply, widgetIndex: int) returns (closed: bool)
      requires 0 <= index < |tabs| && |tabs| > 1 ==> 0 <= widgetIndex < |tabs| - 1
      modifies this
      ensures closed <==> 0 <= index < |old(tabs)| && !(old(tabs)[index].hasDocument && reply == Cancel)
      ensures !closed ==> tabs == old(tabs) && currentIndex == old(currentIndex)
      ensures closed ==> tabs == old(tabs)[..index] + old(tabs)[index + 1..]
      ensures closed ==> currentIndex == (if tabs == [] then -1 else widgetIndex)
      ensures closed ==> Valid() && (CurrentTab().None? <==> tabs == [])
      ensures old(Valid()) ==> Valid()
    {
      closed := false;
      if index < 0 || index >= |tabs| {
        return;
      }
      if tabs[index].hasDocument && reply == Cancel {
        return;
      }
      tabs := tabs[..index] + tabs[index + 1..];
      if |tabs| == 0 {
        currentIndex := -1;
      } else {
        currentIndex := widgetIndex;
      }
      closed := true;
    }
  }
}
