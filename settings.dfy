/** User preferences: a tree of nested dictionaries addressed by dotted
    keys ("tool_defaults.color"), the factory defaults, and the list of
    recently opened files. Reading and writing the JSON file is left to the
    caller: a loaded tree comes in as a parameter and saving is not
    modelled. */
module Settings {
  import opened Common
  import opened Values

  /** At most this many recent files are remembered. */
  const MAX_RECENT_FILES := 10

  const RECENT_FILES := "recent_files"

  /** `get_defaults()`. */
  function Defaults(): Dict
  {
    [ ("tool_defaults", VDict([ ("color", VStr("#000000")),
                                ("width", VInt(2)),
                                ("opacity", VReal(1.0)),
                                ("font_size", VInt(12)),
                                ("font_family", VStr("Arial")) ])),
      ("highlighter_defaults", VDict([ ("color", VStr("#FFFF00")),
                                       ("opacity", VReal(0.4)) ])),
      (RECENT_FILES, VList([])),
      ("window", VDict([ ("width", VInt(1400)), ("height", VInt(900)) ])),
      ("zoom", VDict([ ("default", VReal(1.0)), ("min", VReal(0.1)), ("max", VReal(5.0)) ])) ]
  }

  // ---------------------------------------------------------------------
  // Dotted paths

  /** The value reached by following `keys` from `v`, one dictionary level
      per key; None as soon as a level is not a dictionary or lacks the
      key. */
  function Lookup(v: Value, keys: seq<string>): Option<Value>
    decreases |keys|
  {
    if keys == [] then Some(v)
    else if v.VDict? && HasKey(v.entries, keys[0]) then Lookup(Values.Get(v.entries, keys[0]).value, keys[1..])
    else None
  }

  /** Writing `v` at the end of the path `keys` in the tree `d`: every
      missing level on the way is created as an empty dictionary (appended
      after the keys already there), and an existing level that is not a
      dictionary makes the write raise a TypeError. */
  function SetPath(d: Dict, keys: seq<string>, v: Value): (r: Result<Dict>)
    requires |keys| >= 1
    ensures r.Err? ==> r.error == TypeError
    ensures r.Ok? ==> HasKey(r.value, keys[0])
    decreases |keys|
  {
    if |keys| == 1 then Ok(Put(d, keys[0], v))
    else
      var child := if HasKey(d, keys[0]) then Values.Get(d, keys[0]).value else VDict([]);
      if !child.VDict? then Err(TypeError)
      else Within(d, keys[0], SetPath(child.entries, keys[1..], v))
  }

  /** A successful write one level down, stored back under `k`. */
  function Within(d: Dict, k: string, below: Result<Dict>): (r: Result<Dict>)
    ensures r.Ok? <==> below.Ok?
  {
    match below
    case Ok(sub) => Ok(Put(d, k, VDict(sub)))
    case Err(e) => Err(e)
  }

  /** The two paths part ways at some level: neither is a prefix of the
      other. */
  predicate Diverge(a: seq<string>, b: seq<string>)
    decreases |a|
  {
    |a| > 0 && |b| > 0 && (a[0] != b[0] || Diverge(a[1..], b[1..]))
  }

  /** Some level strictly above the end of the path holds something that
      is not a dictionary. */
  predicate Blocked(d: Dict, keys: seq<string>)
  {
    exists i :: 1 <= i < |keys| && Lookup(VDict(d), keys[..i]).Some? && !Lookup(VDict(d), keys[..i]).value.VDict?
  }

  /** After a successful write, reading the same path gives the value
      written. */
  lemma {:induction false} SetThenLookup(d: Dict, keys: seq<string>, v: Value)
    requires |keys| >= 1 && SetPath(d, keys, v).Ok?
    ensures Lookup(VDict(SetPath(d, keys, v).value), keys) == Some(v)
    decreases |keys|
  {
    var k := keys[0];
    GetPutSame(d, k, if |keys| == 1 then v else VDict(SetPath(if HasKey(d, k) then Values.Get(d, k).value.entries else [], keys[1..], v).value));
    if |keys| > 1 {
      var child := if HasKey(d, k) then Values.Get(d, k).value else VDict([]);
      SetThenLookup(child.entries, keys[1..], v);
    } else {
      assert keys[1..] == [];
    }
  }

  /** A write leaves every path that parts ways with it as it was. */
  lemma {:induction false} SetLeavesOthers(d: Dict, keys: seq<string>, v: Value, other: seq<string>)
    requires |keys| >= 1 && SetPath(d, keys, v).Ok? && Diverge(keys, other)
    ensures Lookup(VDict(SetPath(d, keys, v).value), other) == Lookup(VDict(d), other)
    decreases |keys|
  {
    var k := keys[0];
    var d' := SetPath(d, keys, v).value;
    if other[0] != k {
      if |keys| == 1 {
        GetPutOther(d, k, v, other[0]);
      } else {
        var child := if HasKey(d, k) then Values.Get(d, k).value else VDict([]);
        GetPutOther(d, k, VDict(SetPath(child.entries, keys[1..], v).value), other[0]);
      }
    } else {
      assert |keys| > 1 && |other| > 1;
      var child := if HasKey(d, k) then Values.Get(d, k).value else VDict([]);
      var sub := SetPath(child.entries, keys[1..], v).value;
      GetPutSame(d, k, VDict(sub));
      SetLeavesOthers(child.entries, keys[1..], v, other[1..]);
      assert Lookup(VDict(d'), other) == Lookup(VDict(sub), other[1..]);
      if !HasKey(d, k) {
        assert Lookup(VDict([]), other[1..]) == None;
      }
    }
  }

  /** Looking up a path one level deeper than a prefix. */
  lemma LookupPrefix(d: Dict, keys: seq<string>, i: nat)
    requires 1 <= i <= |keys|
    ensures Lookup(VDict(d), keys[..i]) ==
      if HasKey(d, keys[0]) then Lookup(Values.Get(d, keys[0]).value, keys[1..][..i - 1]) else None
  {
    assert keys[..i][0] == keys[0];
    assert keys[..i][1..] == keys[1..][..i - 1];
  }

  /** A write fails only where a level on the way is not a dictionary. */
  lemma {:induction false} SetFailsOnlyWhenBlocked(d: Dict, keys: seq<string>, v: Value)
    requires |keys| >= 1 && SetPath(d, keys, v).Err?
    ensures Blocked(d, keys)
    decreases |keys|
  {
    var k := keys[0];
    var child := if HasKey(d, k) then Values.Get(d, k).value else VDict([]);
    if !child.VDict? {
      LookupPrefix(d, keys, 1);
      assert keys[1..][..0] == [];
      assert Lookup(VDict(d), keys[..1]).Some? && !Lookup(VDict(d), keys[..1]).value.VDict?;
    } else if !HasKey(d, k) {
      CreatedLevelsAccept([], keys[1..], v);
      assert false;
    } else {
      SetFailsOnlyWhenBlocked(child.entries, keys[1..], v);
      var i :| 1 <= i < |keys[1..]| && Lookup(VDict(child.entries), keys[1..][..i]).Some? && !Lookup(VDict(child.entries), keys[1..][..i]).value.VDict?;
      LookupPrefix(d, keys, i + 1);
      assert Lookup(VDict(d), keys[..i + 1]) == Lookup(VDict(child.entries), keys[1..][..i]);
    }
  }

  /** Below a level the write has just created, nothing can fail. */
  lemma {:induction false} CreatedLevelsAccept(d: Dict, keys: seq<string>, v: Value)
    requires |keys| >= 1 && d == []
    ensures SetPath(d, keys, v).Ok?
    decreases |keys|
  {
    if |keys| > 1 {
      CreatedLevelsAccept([], keys[1..], v);
    }
  }

  /** A write succeeds whenever no level on the way holds a non-dictionary. */
  lemma {:induction false} SetSucceedsUnlessBlocked(d: Dict, keys: seq<string>, v: Value)
    requires |keys| >= 1 && !Blocked(d, keys)
    ensures SetPath(d, keys, v).Ok?
    decreases |keys|
  {
    if |keys| > 1 {
      var k := keys[0];
      var child := if HasKey(d, k) then Values.Get(d, k).value else VDict([]);
      LookupPrefix(d, keys, 1);
      assert keys[1..][..0] == [];
      if HasKey(d, k) {
        assert Lookup(VDict(d), keys[..1]) == Some(child);
      }
      assert child.VDict?;
      if HasKey(d, k) {
        forall i | 1 <= i < |keys[1..]|
          ensures !(Lookup(VDict(child.entries), keys[1..][..i]).Some? && !Lookup(VDict(child.entries), keys[1..][..i]).value.VDict?)
        {
          LookupPrefix(d, keys, i + 1);
          assert Lookup(VDict(d), keys[..i + 1]) == Lookup(VDict(child.entries), keys[1..][..i]);
        }
      } else {
        forall i | 1 <= i < |keys[1..]|
          ensures Lookup(VDict(child.entries), keys[1..][..i]) == None
        {
        }
      }
      SetSucceedsUnlessBlocked(child.entries, keys[1..], v);
    }
  }

  /** The recent-files entry as `add_recent_file` sees it through
      `get('recent_files', [])`: a missing entry reads as an empty list, and
      anything but a list makes the list operations raise. */
  function RecentList(d: Dict): (r: Result<seq<Value>>)
    ensures !HasKey(d, RECENT_FILES) ==> r == Ok([])
    ensures r.Ok? && HasKey(d, RECENT_FILES) ==> Values.Get(d, RECENT_FILES) == Some(VList(r.value))
  {
    match GetOr(d, RECENT_FILES, VList([]))
    case VList(items) => Ok(items)
    case VStr(_) => Err(AttributeError)
    case VDict(_) => Err(AttributeError)
    case _ => Err(TypeError)
  }

  /** A path of one level reads and writes the top-level entry. */
  lemma OneLevel(d: Dict, k: string, v: Value, default: Value)
    ensures Lookup(VDict(d), [k]).GetOr(default) == GetOr(d, k, default)
    ensures SetPath(d, [k], v) == Ok(Put(d, k, v))
  {
    assert [k][1..] == [];
  }

  /** Keys without a dot are a path of one level. */
  lemma SplitPlain(key: string)
    requires Lacks(key, '.')
    ensures Split(key, ".") == [key]
  {
    FindMissing(key, ".");
  }

  /** The settings object: the tree it holds. */
  class Store {
    var settings: Dict

    /** `Settings(config_file)`: the tree read from the file, or the
        defaults when there is no readable file. */
    constructor(loaded: Option<Dict>)
      ensures settings == if loaded.Some? then loaded.value else Defaults()
    {
      settings := if loaded.Some? then loaded.value else Defaults();
    }

    /** `get(key, default)`. */
    method Get(key: string, default: Value) returns (r: Value)
      ensures r == Lookup(VDict(settings), Split(key, ".")).GetOr(default)
    {
      var keys := Split(key, ".");
      var value := VDict(settings);
      var i := 0;
      while i < |keys|
        invariant 0 <= i <= |keys|
        invariant Lookup(VDict(settings), keys) == Lookup(value, keys[i..])
      {
        assert keys[i..][1..] == keys[i + 1..];
        if value.VDict? && HasKey(value.entries, keys[i]) {
          value := Values.Get(value.entries, keys[i]).value;
        } else {
          return default;
        }
        i := i + 1;
      }
      assert keys[i..] == [];
      return value;
    }

    /** `set(key, value)`: walks down the path creating missing levels, then
        writes the last key. The levels are collected on the way down and
        the tree is rebuilt on the way up. */
    method Set(key: string, value: Value) returns (r: Result<()>)
      modifies this
      ensures var w := SetPath(old(settings), Split(key, "."), value);
        (r.Ok? <==> w.Ok?) && settings == (if w.Ok? then w.value else old(settings))
    {
      var keys := Split(key, ".");
      var levels, current, ok := Descend(settings, keys, value);
      if !ok {
        return Err(TypeError);
      }
      settings := Rebuild(levels, keys[..|levels|], Put(current, keys[|levels|], value));
      return Ok(());
    }

    /** `get_all()`: a copy of the top level. */
    method GetAll() returns (r: Dict)
      ensures r == settings
    {
      r := settings;
    }

    /** `reset_to_defaults()`. */
    method ResetToDefaults()
      modifies this
      ensures settings == Defaults()
    {
      settings := Defaults();
    }

    /** `add_recent_file(path)`: the path moves to the front, any earlier
        copy is dropped and only the first ten are kept. A stored entry that
        is not a list makes the list operations raise and nothing changes. */
    method AddRecentFile(path: string) returns (r: Result<seq<Value>>)
      modifies this
      ensures RecentList(old(settings)).Ok? <==> r.Ok?
      ensures r.Ok? ==> (r.value == PushFront(RecentList(old(settings)).value, VStr(path), MAX_RECENT_FILES)
        && settings == Put(old(settings), RECENT_FILES, VList(r.value)))
      ensures r.Err? ==> settings == old(settings)
    {
      SplitPlain(RECENT_FILES);
      var stored := Get(RECENT_FILES, VList([]));
      OneLevel(settings, RECENT_FILES, VList([]), VList([]));
      match stored
      case VList(recent) =>
        var updated := PushFront(recent, VStr(path), MAX_RECENT_FILES);
        OneLevel(settings, RECENT_FILES, VList(updated), VList([]));
        var w := Set(RECENT_FILES, VList(updated));
        return Ok(updated);
      case VStr(_) => return Err(AttributeError);
      case VDict(_) => return Err(AttributeError);
      case _ => return Err(TypeError);
    }

    /** `get_recent_files()`. */
    method GetRecentFiles() returns (r: Value)
      ensures r == GetOr(settings, RECENT_FILES, VList([]))
    {
      SplitPlain(RECENT_FILES);
      OneLevel(settings, RECENT_FILES, VNone, VList([]));
      r := Get(RECENT_FILES, VList([]));
    }
  }

  /** The walk down of `set`: each level on the path is collected, a
      missing one is created empty, and a level that is not a dictionary
      stops the walk. */
  method Descend(d: Dict, keys: seq<string>, value: Value) returns (levels: seq<Dict>, current: Dict, ok: bool)
    requires |keys| >= 1
    ensures ok <==> SetPath(d, keys, value).Ok?
    ensures ok ==> (|levels| == |keys| - 1
      && SetPath(d, keys, value) == Wrapped(levels, keys[..|levels|], Ok(Put(current, keys[|levels|], value))))
  {
    levels, current := [], d;
    var i := 0;
    while i < |keys| - 1
      invariant 0 <= i <= |keys| - 1 && |levels| == i
      invariant SetPath(d, keys, value) == Wrapped(levels, keys[..i], SetPath(current, keys[i..], value))
    {
      var k := keys[i];
      var child := if HasKey(current, k) then Values.Get(current, k).value else VDict([]);
      assert keys[i..][0] == k && keys[i..][1..] == keys[i + 1..];
      if !child.VDict? {
        return levels, current, false;
      }
      WrapStep(levels, keys, i, current, SetPath(child.entries, keys[i + 1..], value));
      levels := levels + [current];
      current := child.entries;
      i := i + 1;
    }
    assert keys[i..] == [keys[i]];
    return levels, current, true;
  }

  /** The way back up: `d` written into each collected level in turn. */
  method Rebuild(levels: seq<Dict>, keys: seq<string>, d: Dict) returns (r: Dict)
    requires |keys| == |levels|
    ensures r == Wrap(levels, keys, d)
  {
    r := d;
    var j := |levels|;
    assert levels[..j] == levels && keys[..j] == keys;
    while j > 0
      invariant 0 <= j <= |levels|
      invariant Wrap(levels, keys, d) == Wrap(levels[..j], keys[..j], r)
    {
      assert levels[..j][..j - 1] == levels[..j - 1];
      assert keys[..j][..j - 1] == keys[..j - 1];
      r := Put(levels[j - 1], keys[j - 1], VDict(r));
      j := j - 1;
    }
  }

  /** The tree rebuilt upwards: `d` written back into the collected levels,
      innermost last. */
  function Wrap(levels: seq<Dict>, keys: seq<string>, d: Dict): Dict
    requires |keys| == |levels|
  {
    if levels == [] then d
    else Wrap(levels[..|levels| - 1], keys[..|keys| - 1], Put(levels[|levels| - 1], keys[|keys| - 1], VDict(d)))
  }

  function Wrapped(levels: seq<Dict>, keys: seq<string>, r: Result<Dict>): Result<Dict>
    requires |keys| == |levels|
  {
    match r
    case Ok(d) => Ok(Wrap(levels, keys, d))
    case Err(e) => Err(e)
  }

  lemma WrapStep(levels: seq<Dict>, keys: seq<string>, i: nat, current: Dict, below: Result<Dict>)
    requires |levels| == i < |keys|
    ensures Wrapped(levels, keys[..i], Within(current, keys[i], below)) == Wrapped(levels + [current], keys[..i + 1], below)
  {
    assert (levels + [current])[..i] == levels;
    assert keys[..i + 1][..i] == keys[..i];
  }

  /** After `add_recent_file`, the recent files read back with the new path
      first, no more than ten of them, and the others in their old order
      after it; a list without repeats stays without repeats. */
  lemma RecentFileFirst(d: Dict, path: string)
    requires RecentList(d).Ok?
    ensures var updated := PushFront(RecentList(d).value, VStr(path), MAX_RECENT_FILES);
      RecentList(Put(d, RECENT_FILES, VList(updated))) == Ok(updated)
      && |updated| <= MAX_RECENT_FILES && updated[0] == VStr(path)
      && (Distinct(RecentList(d).value) ==> Distinct(updated))
      && updated[1..] == RemoveOne(RecentList(d).value, VStr(path))[..|updated| - 1]
  {
    var updated := PushFront(RecentList(d).value, VStr(path), MAX_RECENT_FILES);
    GetPutSame(d, RECENT_FILES, VList(updated));
    PushFrontFirst(RecentList(d).value, VStr(path), MAX_RECENT_FILES);
  }

  /** The defaults hold the documented tool, highlighter, window and zoom
      values and an empty recent-files list. */
  lemma DefaultValues()
    ensures Lookup(VDict(Defaults()), ["tool_defaults", "color"]) == Some(VStr("#000000"))
    ensures Lookup(VDict(Defaults()), ["tool_defaults", "width"]) == Some(VInt(2))
    ensures Lookup(VDict(Defaults()), ["tool_defaults", "opacity"]) == Some(VReal(1.0))
    ensures Lookup(VDict(Defaults()), ["zoom", "min"]) == Some(VReal(0.1))
    ensures Lookup(VDict(Defaults()), ["zoom", "max"]) == Some(VReal(5.0))
    ensures RecentList(Defaults()) == Ok([])
  {
  }
}
