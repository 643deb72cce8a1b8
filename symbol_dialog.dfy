/** The symbol picker (`SymbolDialog`): the category list, the symbols a
    category shows and where their buttons go, the recent-symbol list and
    the values the dialog hands back. */
module Symbols {
  import opened Common

  /** One entry of `SYMBOL_CATEGORIES`: a name and its symbols, in order. */
  datatype Category = Category(name: string, symbols: seq<string>)

  const MAX_COLS := 10
  const MAX_RECENT_SYMBOLS := 30
  const MIN_SIZE := 8
  const MAX_SIZE := 200

  function Names(table: seq<Category>): (r: seq<string>)
    ensures |r| == |table| && forall k :: 0 <= k < |table| ==> r[k] == table[k].name
  {
    if table == [] then [] else [table[0].name] + Names(table[1..])
  }

  /** The category box: "All", then "Recent" when there are recent symbols,
      then every category of the table. */
  function CategoryList(table: seq<Category>, hasRecent: bool): (r: seq<string>)
  {
    ["All"] + (if hasRecent then ["Recent"] else []) + Names(table)
  }

  /** Where each entry of the category box comes from. */
  lemma CategoryListOrder(table: seq<Category>, hasRecent: bool)
    ensures var r := CategoryList(table, hasRecent);
      var skip := if hasRecent then 2 else 1;
      && |r| == |table| + skip
      && r[0] == "All"
      && (hasRecent ==> r[1] == "Recent")
      && forall k :: 0 <= k < |table| ==> r[k + skip] == table[k].name
  {
  }

  // ---------------------------------------------------------------------
  // The "All" category

  /** Every symbol of every category, in table order. */
  function Flatten(table: seq<Category>): seq<string>
  {
    if table == [] then [] else Flatten(table[..|table| - 1]) + table[|table| - 1].symbols
  }

  /** The list with later copies of a symbol dropped. */
  function Dedup(xs: seq<string>): (r: seq<string>)
    ensures |r| <= |xs|
  {
    if xs == [] then []
    else
      var d := Dedup(xs[..|xs| - 1]);
      if xs[|xs| - 1] in d then d else d + [xs[|xs| - 1]]
  }

  lemma {:induction false} DedupMembers(xs: seq<string>)
    ensures forall x :: x in Dedup(xs) <==> x in xs
  {
    if xs != [] {
      var p := xs[..|xs| - 1];
      DedupMembers(p);
      assert xs == p + [xs[|xs| - 1]];
    }
  }

  lemma {:induction false} DedupDistinct(xs: seq<string>)
    ensures Distinct(Dedup(xs))
  {
    if xs != [] {
      var p := xs[..|xs| - 1];
      DedupDistinct(p);
      var d := Dedup(p);
      var x := xs[|xs| - 1];
      if x !in d {
        var r := d + [x];
        forall a, b | 0 <= a < b < |r|
          ensures r[a] != r[b]
        {
          assert r[a] == d[a];
          if b < |d| {
            assert r[b] == d[b];
          }
        }
      }
    }
  }

  lemma {:induction false} FirstIndexSnocOld(p: seq<string>, z: string, y: string)
    requires y in p
    ensures FirstIndex(p + [z], y) == FirstIndex(p, y)
  {
    if p[0] != y {
      assert (p + [z])[1..] == p[1..] + [z];
      FirstIndexSnocOld(p[1..], z, y);
    }
  }

  lemma FirstIndexSnocNew(p: seq<string>, y: string)
    requires y !in p
    ensures FirstIndex(p + [y], y) == |p|
  {
    var k := FirstIndex(p + [y], y);
    assert (p + [y])[|p|] == y;
    assert forall j :: 0 <= j < |p| ==> (p + [y])[j] == p[j];
  }

  /** Appending a symbol to the input appends it to the result unless it was
      already there. */
  lemma DedupSnoc(ys: seq<string>, s: string)
    ensures Dedup(ys + [s]) == if s in Dedup(ys) then Dedup(ys) else Dedup(ys) + [s]
  {
    assert (ys + [s])[..|ys + [s]| - 1] == ys;
  }

  lemma FlattenSnoc(table: seq<Category>, c: nat)
    requires c < |table|
    ensures Flatten(table[..c + 1]) == Flatten(table[..c]) + table[c].symbols
  {
    assert table[..c + 1][..c] == table[..c];
  }

  /** The entries of `r` come in the order of their first copies in `xs`. */
  predicate FirstOrdered(r: seq<string>, xs: seq<string>)
  {
    forall i, j :: 0 <= i < j < |r| ==> r[i] in xs && r[j] in xs && FirstIndex(xs, r[i]) < FirstIndex(xs, r[j])
  }

  /** The symbols of "All" come in the order of their first appearance in
      the table. */
  lemma {:induction false} DedupFirstOrder(xs: seq<string>)
    ensures FirstOrdered(Dedup(xs), xs)
  {
    if xs != [] {
      var p := xs[..|xs| - 1];
      var x := xs[|xs| - 1];
      assert xs == p + [x];
      DedupFirstOrder(p);
      DedupMembers(p);
      var d := Dedup(p);
      forall y | y in d
        ensures y in p && FirstIndex(p + [x], y) == FirstIndex(p, y)
      {
        FirstIndexSnocOld(p, x, y);
      }
      if x in d {
        OrderedSnocOld(d, p, x);
      } else {
        FirstIndexSnocNew(p, x);
        OrderedSnocNew(d, p, x);
      }
    }
  }

  lemma OrderedSnocOld(d: seq<string>, p: seq<string>, x: string)
    requires FirstOrdered(d, p)
    requires forall y :: y in d ==> y in p && FirstIndex(p + [x], y) == FirstIndex(p, y)
    ensures FirstOrdered(d, p + [x])
  {
    forall i, j | 0 <= i < j < |d|
      ensures d[i] in p + [x] && d[j] in p + [x] && FirstIndex(p + [x], d[i]) < FirstIndex(p + [x], d[j])
    {
      assert d[i] in d && d[j] in d;
    }
  }

  lemma OrderedSnocNew(d: seq<string>, p: seq<string>, x: string)
    requires FirstOrdered(d, p) && x !in p
    requires forall y :: y in d ==> y in p && FirstIndex(p + [x], y) == FirstIndex(p, y)
    requires FirstIndex(p + [x], x) == |p|
    ensures FirstOrdered(d + [x], p + [x])
  {
    var r := d + [x];
    forall i, j | 0 <= i < j < |r|
      ensures r[i] in p + [x] && r[j] in p + [x] && FirstIndex(p + [x], r[i]) < FirstIndex(p + [x], r[j])
    {
      assert r[i] == d[i] && d[i] in d;
      if j < |d| {
        assert r[j] == d[j] && d[j] in d;
      } else {
        assert r[j] == x;
      }
    }
  }

  /** A list without repeats is shown as it is. */
  lemma {:induction false} DedupOfDistinct(xs: seq<string>)
    requires Distinct(xs)
    ensures Dedup(xs) == xs
  {
    if xs != [] {
      var p := xs[..|xs| - 1];
      DedupOfDistinct(p);
      DedupMembers(p);
      assert xs[|xs| - 1] !in p;
      assert xs == p + [xs[|xs| - 1]];
    }
  }

  /** The loop of `_on_category_changed` for "All": walk every category and
      keep each symbol not seen before. */
  method CollectAll(table: seq<Category>) returns (symbols: seq<string>)
    ensures symbols == Dedup(Flatten(table))
  {
    symbols := [];
    var seen: set<string> := {};
    var c := 0;
    while c < |table|
      invariant 0 <= c <= |table|
      invariant symbols == Dedup(Flatten(table[..c]))
      invariant forall x :: x in seen <==> x in symbols
    {
      symbols, seen := AddUnseen(symbols, seen, Flatten(table[..c]), table[c].symbols);
      FlattenSnoc(table, c);
      c := c + 1;
    }
    assert table[..c] == table;
  }

  /** The inner loop of "All": each symbol of one category not seen yet is
      appended, and recorded as seen. */
  method AddUnseen(symbols: seq<string>, seen: set<string>, ghost before: seq<string>, syms: seq<string>)
    returns (symbols': seq<string>, seen': set<string>)
    requires symbols == Dedup(before)
    requires forall x :: x in seen <==> x in symbols
    ensures symbols' == Dedup(before + syms)
    ensures forall x :: x in seen' <==> x in symbols'
  {
    symbols', seen' := symbols, seen;
    var j := 0;
    assert before + syms[..0] == before;
    while j < |syms|
      invariant 0 <= j <= |syms|
      invariant symbols' == Dedup(before + syms[..j])
      invariant forall x :: x in seen' <==> x in symbols'
    {
      var s := syms[j];
      assert before + syms[..j + 1] == (before + syms[..j]) + [s];
      DedupSnoc(before + syms[..j], s);
      if s !in seen' {
        symbols' := symbols' + [s];
        seen' := seen' + {s};
      }
      j := j + 1;
    }
    assert syms[..j] == syms;
  }

  /** `SYMBOL_CATEGORIES.get(name, [])`. */
  function Lookup(table: seq<Category>, name: string): (r: seq<string>)
    ensures (forall k :: 0 <= k < |table| ==> table[k].name != name) ==> r == []
  {
    if table == [] then []
    else if table[0].name == name then table[0].symbols
    else Lookup(table[1..], name)
  }

  /** The symbols a category shows. */
  function SymbolsFor(table: seq<Category>, recent: seq<string>, category: string): seq<string>
  {
    if category == "All" then Dedup(Flatten(table))
    else if category == "Recent" then recent
    else Lookup(table, category)
  }

  /** "All" shows every symbol of the table exactly once. */
  lemma AllShowsEverySymbolOnce(table: seq<Category>, recent: seq<string>)
    ensures var r := SymbolsFor(table, recent, "All");
      Distinct(r) && forall x :: x in r <==> x in Flatten(table)
  {
    DedupMembers(Flatten(table));
    DedupDistinct(Flatten(table));
  }

  // ---------------------------------------------------------------------
  // The button grid

  datatype Button = Button(symbol: string, row: nat, col: nat)

  /** The k-th symbol's button sits in row k div 10, column k mod 10. */
  function Placed(symbols: seq<string>): (r: seq<Button>)
    ensures |r| == |symbols|
  {
    seq(|symbols|, k requires 0 <= k < |symbols| => Button(symbols[k], k / MAX_COLS, k % MAX_COLS))
  }

  /** The grid loop: the column counter wraps after ten buttons and the row
      counter advances. */
  method PlaceSymbols(symbols: seq<string>) returns (buttons: seq<Button>)
    ensures buttons == Placed(symbols)
  {
    buttons := [];
    var row := 0;
    var col := 0;
    var i := 0;
    while i < |symbols|
      invariant 0 <= i <= |symbols| && |buttons| == i
      invariant row == i / MAX_COLS && col == i % MAX_COLS
      invariant forall k :: 0 <= k < i ==> buttons[k] == Placed(symbols)[k]
    {
      buttons := buttons + [Button(symbols[i], row, col)];
      col := col + 1;
      if col >= MAX_COLS {
        col := 0;
        row := row + 1;
      }
      i := i + 1;
    }
  }

  /** No two buttons share a cell, and each row fills left to right before
      the next one starts. */
  lemma PlacedCells(symbols: seq<string>, j: nat, k: nat)
    requires j < k < |symbols|
    ensures var r := Placed(symbols);
      (r[j].row, r[j].col) != (r[k].row, r[k].col) && r[j].col < MAX_COLS
    ensures var r := Placed(symbols);
      k == j + 1 ==>
        if r[j].col + 1 < MAX_COLS then r[k].row == r[j].row && r[k].col == r[j].col + 1
        else r[k].row == r[j].row + 1 && r[k].col == 0
  {
    assert j == MAX_COLS * (j / MAX_COLS) + j % MAX_COLS;
    assert k == MAX_COLS * (k / MAX_COLS) + k % MAX_COLS;
  }

  // ---------------------------------------------------------------------
  // Recent symbols and the dialog

  /** `_save_recent_symbol`'s list update (the file write is not modelled). */
  function RecentAfter(recent: seq<string>, symbol: string): (r: seq<string>)
  {
    PushFront(recent, symbol, MAX_RECENT_SYMBOLS)
  }

  /** The recorded symbol is first, the list holds at most 30, the others
      keep their order, and a list without repeats stays without repeats. */
  lemma RecentSymbolFirst(recent: seq<string>, symbol: string)
    ensures var r := RecentAfter(recent, symbol);
      |r| >= 1 && r[0] == symbol && |r| <= MAX_RECENT_SYMBOLS
      && r[1..] == RemoveOne(recent, symbol)[..|r| - 1]
    ensures Distinct(recent) ==> Distinct(RecentAfter(recent, symbol)) && symbol !in RecentAfter(recent, symbol)[1..]
  {
    PushFrontFirst(recent, symbol, MAX_RECENT_SYMBOLS);
    if Distinct(recent) {
      RemoveOneDistinct(recent, symbol);
      var r := RecentAfter(recent, symbol);
      assert forall i :: 0 <= i < |r| - 1 ==> r[1..][i] == RemoveOne(recent, symbol)[i];
    }
  }

  /** The size box accepts 8 to 200 points and pulls other values in. */
  function SpinValue(v: int): (r: int)
    ensures MIN_SIZE <= r <= MAX_SIZE
    ensures MIN_SIZE <= v <= MAX_SIZE ==> r == v
  {
    if v < MIN_SIZE then MIN_SIZE else if v > MAX_SIZE then MAX_SIZE else v
  }

  datatype SymbolValues = SymbolValues(symbol: string, fontSize: int, color: string)

  class SymbolDialog {
    const table: seq<Category>
    var selected: string
    var size: int
    var color: string
    var recent: seq<string>
    var categories: seq<string>
    var category: string
    var buttons: seq<Button>
    var okEnabled: bool

    /** `__init__` and `_init_ui`: the recent list is what the file held
        (`stored`), the category box is filled, "All" is shown and OK is
        off until a symbol is picked. */
    constructor(t: seq<Category>, initialSymbol: string, initialSize: int, initialColor: string, stored: seq<string>)
      ensures table == t && selected == initialSymbol && size == SpinValue(initialSize)
      ensures color == initialColor && recent == stored && !okEnabled
      ensures categories == CategoryList(t, stored != [])
      ensures category == "All" && buttons == Placed(SymbolsFor(t, stored, "All"))
    {
      table := t;
      selected := initialSymbol;
      size := SpinValue(initialSize);
      color := initialColor;
      recent := stored;
      categories := CategoryList(t, stored != []);
      okEnabled := false;
      category := "All";
      buttons := [];
      new;
      CategoryChanged("All");
    }

    /** `_on_category_changed`: the grid is rebuilt for the category. */
    method CategoryChanged(cat: string)
      modifies this
      ensures category == cat && buttons == Placed(SymbolsFor(table, recent, cat))
      ensures selected == old(selected) && size == old(size) && color == old(color)
      ensures recent == old(recent) && categories == old(categories) && okEnabled == old(okEnabled)
    {
      var shown;
      if cat == "All" {
        shown := CollectAll(table);
      } else if cat == "Recent" {
        shown := recent;
      } else {
        shown := Lookup(table, cat);
      }
      buttons := PlaceSymbols(shown);
      category := cat;
    }

    /** `_select_symbol`: the symbol is taken and OK comes on. */
    method SelectSymbol(symbol: string)
      modifies this
      ensures selected == symbol && okEnabled
      ensures size == old(size) && color == old(color) && recent == old(recent)
      ensures buttons == old(buttons) && category == old(category)
    {
      selected := symbol;
      okEnabled := true;
    }

    method SizeChanged(v: int)
      modifies this
      ensures size == SpinValue(v)
      ensures selected == old(selected) && color == old(color) && recent == old(recent) && okEnabled == old(okEnabled)
    {
      size := SpinValue(v);
    }

    /** `_choose_color`: `chosen` is the colour dialog's answer, `None`
        when it was cancelled. */
    method ChooseColor(chosen: Option<string>)
      modifies this
      ensures color == if chosen.Some? then chosen.value else old(color)
      ensures selected == old(selected) && size == old(size) && recent == old(recent) && okEnabled == old(okEnabled)
    {
      if chosen.Some? {
        color := chosen.value;
      }
    }

    /** `accept`: a chosen symbol is recorded as recent. */
    method Accept()
      modifies this
      ensures recent == if selected != "" then RecentAfter(old(recent), selected) else old(recent)
      ensures selected == old(selected) && size == old(size) && color == old(color)
    {
      if selected != "" {
        recent := RecentAfter(recent, selected);
      }
    }

    function GetValues(): (v: SymbolValues)
      reads this
      ensures v.symbol == selected && v.fontSize == size && v.color == color
    {
      SymbolValues(selected, size, color)
    }
  }
}
