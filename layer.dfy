/** Layers and the layer store (src/core/layer.py).

    A layer is a value here: the editor identifies layers by their `id`, and
    the store keeps them in an ordered list next to a counter that hands out
    z-indices. The interactive subclasses of src/core/interactive_layer.py
    (text box, image frame, symbol) are the `Interactive` kind; a plain
    `Layer` has none of their attributes. */
module Layers {
  import opened Common
  import opened Values

  datatype LayerType =
    | Drawing | Text | ImageType | Annotation | Shape | Signature | FormField | StickyNote

  /** `LayerType.value`. */
  function TypeValue(t: LayerType): string
  {
    match t
    case Drawing => "drawing"
    case Text => "text"
    case ImageType => "image"
    case Annotation => "annotation"
    case Shape => "shape"
    case Signature => "signature"
    case FormField => "form_field"
    case StickyNote => "sticky_note"
  }

  /** `LayerType(s)`: a string that is no member's value is a ValueError. */
  function TypeFromValue(s: string): (r: Result<LayerType>)
    ensures r.Ok? ==> TypeValue(r.value) == s
    ensures r.Err? ==> r.error == ValueError && forall t :: TypeValue(t) != s
  {
    if s == "drawing" then Ok(Drawing)
    else if s == "text" then Ok(Text)
    else if s == "image" then Ok(ImageType)
    else if s == "annotation" then Ok(Annotation)
    else if s == "shape" then Ok(Shape)
    else if s == "signature" then Ok(Signature)
    else if s == "form_field" then Ok(FormField)
    else if s == "sticky_note" then Ok(StickyNote)
    else Err(ValueError)
  }

  lemma TypeValueRoundTrip(t: LayerType)
    ensures TypeFromValue(TypeValue(t)) == Ok(t)
  {
  }

  /** The interactive subclasses: `TextFieldLayer`, `ImageLayer`, `SymbolLayer`. */
  datatype Shape = TextBox | Picture | Glyph

  /** A plain `Layer`, or an `InteractiveLayer` subclass with its selection,
      drag, edit and resize flags and its rotation. */
  datatype Kind =
    | Plain
    | Interactive(shape: Shape, selected: bool, draggable: bool, editable: bool,
                  resizable: bool, rotation: real)

  /** A layer. For a text box and a symbol `name` is the stored base name
      (`_base_name`); the name shown to the user is `DisplayName`. */
  datatype Layer = Layer(
    id: string,
    ltype: LayerType,
    pageNum: int,
    name: string,
    visible: bool,
    locked: bool,
    opacity: real,
    data: Dict,
    zIndex: int,
    kind: Kind)

  /** `s[:n]` for a non-negative `n`. */
  function Prefix(s: string, n: nat): (r: string)
    ensures |r| == MinI(n, |s|) && StartsWith(s, r)
  {
    if n <= |s| then s[..n] else s
  }

  /** The name `Layer.__init__` chooses: the given one, or the type's value
      in title case followed by the first 8 characters of the id. */
  function DefaultName(t: LayerType, name: string, id: string): (r: string)
    ensures r != []
    ensures name != [] ==> r == name
    ensures name == [] ==> StartsWith(r, Title(TypeValue(t)) + " ") && EndsWith(r, Prefix(id, 8))
  {
    if name != [] then name
    else
      var r := Title(TypeValue(t)) + " " + Prefix(id, 8);
      assert r[..|Title(TypeValue(t)) + " "|] == Title(TypeValue(t)) + " ";
      assert r[|r| - |Prefix(id, 8)|..] == Prefix(id, 8);
      assert |TitleFrom(TypeValue(t), false)| > 0;
      r
  }

  /** `Layer(layer_type, page_num, name)` with `id` the fresh UUID string. */
  function NewLayer(t: LayerType, page: int, name: string, id: string): (l: Layer)
    ensures l.id == id && l.ltype == t && l.pageNum == page
    ensures l.name == DefaultName(t, name, id) && l.name != []
    ensures l.visible && !l.locked && l.opacity == 1.0
    ensures l.data == [] && l.zIndex == 0 && l.kind == Plain
  {
    Layer(id, t, page, DefaultName(t, name, id), true, false, 1.0, [], 0, Plain)
  }

  /** The `name` property: a text box shows the first line of its stripped
      text (cut to 25 characters plus "..."), a symbol shows "Symbol: s";
      both fall back to the base name. */
  function DisplayName(l: Layer): (r: string)
    ensures l.kind.Plain? ==> r == l.name
  {
    match l.kind
    case Plain => l.name
    case Interactive(shape, _, _, _, _, _) =>
      match shape
      case TextBox => TextBoxName(l.data, l.name)
      case Glyph => SymbolName(l.data, l.name)
      case Picture => l.name
  }

  const MAX_NAME_LENGTH: nat := 25

  /** `self.data.get(k, '')` read as a string. */
  function GetStr(d: Dict, k: string): string
  {
    match Get(d, k)
    case Some(VStr(s)) => s
    case _ => ""
  }

  function TextBoxName(d: Dict, baseName: string): (r: string)
    ensures IsBlank(GetStr(d, "text")) ==> r == baseName
    ensures !IsBlank(GetStr(d, "text")) ==> r == baseName || |r| <= MAX_NAME_LENGTH + 3
  {
    var text := Strip(GetStr(d, "text"));
    if text == [] then baseName
    else
      var firstLine := Strip(SplitFirst(text, "\n"));
      if |firstLine| > MAX_NAME_LENGTH then firstLine[..MAX_NAME_LENGTH] + "..."
      else if firstLine != [] then firstLine
      else baseName
  }

  function SymbolName(d: Dict, baseName: string): (r: string)
    ensures GetStr(d, "symbol") == [] ==> r == baseName
    ensures GetStr(d, "symbol") != [] ==> r == "Symbol: " + GetStr(d, "symbol")
  {
    var s := GetStr(d, "symbol");
    if s != [] then "Symbol: " + s else baseName
  }

  // ---------------------------------------------------------------------
  // Serialisation

  const PIXMAP_BYTES_KEY := "_pixmap_bytes"

  /** A data value whose serialised form `from_dict` would turn into a pixmap. */
  predicate IsPixmapRecord(v: Value)
  {
    v.VDict? && HasKey(v.entries, PIXMAP_BYTES_KEY)
  }

  /** Each top-level pixmap becomes `{'_pixmap_bytes': <PNG bytes>}`. */
  function EncodeData(d: Dict): (r: Dict)
    ensures Keys(r) == Keys(d)
  {
    if |d| == 0 then []
    else
      var (k, v) := d[0];
      var v' := if v.VPixmap? then VDict([(PIXMAP_BYTES_KEY, VBytes(PngEncode(v.pixmap)))]) else v;
      [(k, v')] + EncodeData(d[1..])
  }

  /** Entry `k` of the encoded data: the same key, and the pixmap record in
      place of a pixmap. */
  lemma {:induction false} EncodeDataAt(d: Dict, k: nat)
    requires k < |d|
    ensures |EncodeData(d)| == |d|
    ensures EncodeData(d)[k] ==
      (d[k].0, if d[k].1.VPixmap? then VDict([(PIXMAP_BYTES_KEY, VBytes(PngEncode(d[k].1.pixmap)))]) else d[k].1)
  {
    assert |Keys(EncodeData(d))| == |Keys(d)|;
    if k > 0 {
      EncodeDataAt(d[1..], k - 1);
    }
  }

  /** Each top-level dict holding `_pixmap_bytes` becomes the pixmap decoded
      from those bytes; `bytes(...)` of anything but bytes is a TypeError. */
  function DecodeData(d: Dict): (r: Result<Dict>)
    ensures r.Ok? ==> Keys(r.value) == Keys(d)
  {
    if |d| == 0 then Ok([])
    else
      var (k, v) := d[0];
      var rest :- DecodeData(d[1..]);
      if IsPixmapRecord(v) then
        match Get(v.entries, PIXMAP_BYTES_KEY).value
        case VBytes(b) => Ok([(k, VPixmap(PngDecode(b)))] + rest)
        case _ => Err(TypeError)
      else Ok([(k, v)] + rest)
  }

  /** No genuine data value looks like a serialised pixmap. */
  predicate NoPixmapRecords(d: Dict)
  {
    forall i :: 0 <= i < |d| ==> !IsPixmapRecord(d[i].1)
  }

  lemma {:induction false} DecodeEncodeData(d: Dict)
    requires NoPixmapRecords(d)
    ensures DecodeData(EncodeData(d)) == Ok(d)
  {
    if |d| > 0 {
      DecodeEncodeData(d[1..]);
      var (k, v) := d[0];
      var e := EncodeData(d);
      assert e[1..] == EncodeData(d[1..]);
      if v.VPixmap? {
        var rec := [(PIXMAP_BYTES_KEY, VBytes(PngEncode(v.pixmap)))];
        assert rec[0].0 == PIXMAP_BYTES_KEY;
        assert e[0] == (k, VDict(rec));
        assert Get(rec, PIXMAP_BYTES_KEY) == Some(VBytes(PngEncode(v.pixmap)));
        PngRoundTrip(v.pixmap);
        assert d == [(k, v)] + d[1..];
      } else {
        assert e[0] == (k, v);
        assert !IsPixmapRecord(d[0].1);
        assert d == [(k, v)] + d[1..];
      }
    }
  }

  /** `Layer.to_dict`: the name saved is the displayed one. */
  function ToDict(l: Layer): (r: Dict)
    ensures Keys(r) == ["id", "type", "page_num", "name", "visible", "locked", "opacity", "z_index", "data"]
  {
    [("id", VStr(l.id)),
     ("type", VStr(TypeValue(l.ltype))),
     ("page_num", VInt(l.pageNum)),
     ("name", VStr(DisplayName(l))),
     ("visible", VBool(l.visible)),
     ("locked", VBool(l.locked)),
     ("opacity", VReal(l.opacity)),
     ("z_index", VInt(l.zIndex)),
     ("data", VDict(EncodeData(l.data)))]
  }

  /** `data[k]`: a missing key is a KeyError. */
  function Field(d: Dict, k: string): (r: Result<Value>)
    ensures r.Ok? <==> HasKey(d, k)
    ensures r.Err? ==> r.error == KeyError(k)
  {
    match Get(d, k)
    case Some(v) => Ok(v)
    case None => Err(KeyError(k))
  }

  function StrField(d: Dict, k: string): Result<string>
  {
    var v :- Field(d, k);
    if v.VStr? then Ok(v.s) else Err(TypeError)
  }

  function IntField(d: Dict, k: string): Result<int>
  {
    var v :- Field(d, k);
    if v.VInt? then Ok(v.i) else Err(TypeError)
  }

  function BoolField(d: Dict, k: string): Result<bool>
  {
    var v :- Field(d, k);
    if v.VBool? then Ok(v.b) else Err(TypeError)
  }

  function RealField(d: Dict, k: string): Result<real>
  {
    var v :- Field(d, k);
    if IsNumber(v) then Ok(AsReal(v)) else Err(TypeError)
  }

  /** `Layer.from_dict`: builds a plain `Layer` whatever the saved layer was.
      `freshId` is the UUID drawn by the constructor; it only shows through
      when the saved name is empty. */
  function FromDict(d: Dict, freshId: string): (r: Result<Layer>)
    ensures r.Ok? ==> r.value.kind == Plain
    ensures r.Ok? ==> Field(d, "id") == Ok(VStr(r.value.id))
    ensures r.Ok? ==> Field(d, "type") == Ok(VStr(TypeValue(r.value.ltype)))
  {
    var tv :- StrField(d, "type");
    var t :- TypeFromValue(tv);
    var page :- IntField(d, "page_num");
    var name :- StrField(d, "name");
    var id :- StrField(d, "id");
    var visible :- BoolField(d, "visible");
    var locked :- BoolField(d, "locked");
    var opacity :- RealField(d, "opacity");
    var z :- IntField(d, "z_index");
    var dv :- Field(d, "data");
    var saved :- if dv.VDict? then Ok(dv.entries) else Err(TypeError);
    var data :- DecodeData(saved);
    Ok(Layer(id, t, page, DefaultName(t, name, freshId), visible, locked, opacity, data, z, Plain))
  }

  /** What `from_dict(to_dict(l))` gives back: a plain layer carrying the
      displayed name and every other saved field. */
  function Restored(l: Layer): (r: Layer)
    ensures r.kind == Plain && r.name == DisplayName(l)
    ensures r.(name := l.name, kind := l.kind) == l
  {
    l.(name := DisplayName(l), kind := Plain)
  }

  lemma FromDictToDict(l: Layer, freshId: string)
    requires NoPixmapRecords(l.data) && DisplayName(l) != []
    ensures FromDict(ToDict(l), freshId) == Ok(Restored(l))
  {
    DecodeEncodeData(l.data);
    TypeValueRoundTrip(l.ltype);
    ToDictFields(l);
  }

  /** Every field `to_dict` writes reads back through `from_dict`'s lookups. */
  lemma ToDictFields(l: Layer)
    ensures var d := ToDict(l);
      StrField(d, "type") == Ok(TypeValue(l.ltype)) && IntField(d, "page_num") == Ok(l.pageNum)
      && StrField(d, "name") == Ok(DisplayName(l)) && StrField(d, "id") == Ok(l.id)
      && BoolField(d, "visible") == Ok(l.visible) && BoolField(d, "locked") == Ok(l.locked)
      && RealField(d, "opacity") == Ok(l.opacity) && IntField(d, "z_index") == Ok(l.zIndex)
      && Field(d, "data") == Ok(VDict(EncodeData(l.data)))
  {
    ToDictIdType(l);
    ToDictPageName(l);
    ToDictFlags(l);
    ToDictOpacity(l);
    ToDictZ(l);
    ToDictData(l);
  }

  lemma ToDictIdType(l: Layer)
    ensures var d := ToDict(l); StrField(d, "id") == Ok(l.id) && StrField(d, "type") == Ok(TypeValue(l.ltype))
  {
    var d := ToDict(l);
    FieldAt(d, 0, "id");
    FieldAt(d, 1, "type");
  }

  lemma ToDictPageName(l: Layer)
    ensures var d := ToDict(l); IntField(d, "page_num") == Ok(l.pageNum) && StrField(d, "name") == Ok(DisplayName(l))
  {
    var d := ToDict(l);
    FieldAt(d, 2, "page_num");
    FieldAt(d, 3, "name");
  }

  lemma ToDictFlags(l: Layer)
    ensures var d := ToDict(l); BoolField(d, "visible") == Ok(l.visible) && BoolField(d, "locked") == Ok(l.locked)
  {
    var d := ToDict(l);
    FieldAt(d, 4, "visible");
    FieldAt(d, 5, "locked");
  }

  lemma ToDictOpacity(l: Layer)
    ensures var d := ToDict(l); RealField(d, "opacity") == Ok(l.opacity)
  {
    var d := ToDict(l);
    FieldAt(d, 6, "opacity");
  }

  lemma ToDictZ(l: Layer)
    ensures var d := ToDict(l); IntField(d, "z_index") == Ok(l.zIndex)
  {
    var d := ToDict(l);
    FieldAt(d, 7, "z_index");
  }

  lemma ToDictData(l: Layer)
    ensures var d := ToDict(l); Field(d, "data") == Ok(VDict(EncodeData(l.data)))
  {
    var d := ToDict(l);
    FieldAt(d, 8, "data");
  }

  /** A key listed once in `Keys(d)` is found at its position. */
  lemma FieldAt(d: Dict, i: nat, k: string)
    requires i < |d| && Keys(d)[i] == k && k !in Keys(d)[..i]
    ensures Field(d, k) == Ok(d[i].1)
  {
    forall j | 0 <= j < i ensures d[j].0 != k {
      assert Keys(d)[..i][j] == d[j].0;
    }
    GetAt(d, i, k);
  }

  /** The first entry with key `k` is at index `i`. */
  lemma {:induction false} GetAt(d: Dict, i: nat, k: string)
    requires i < |d| && d[i].0 == k
    requires forall j :: 0 <= j < i ==> d[j].0 != k
    ensures Get(d, k) == Some(d[i].1)
  {
    if i > 0 {
      GetAt(d[1..], i - 1, k);
    }
  }

  /** A plain layer survives the round trip unchanged. */
  lemma PlainRoundTrip(l: Layer, freshId: string)
    requires l.kind == Plain && l.name != [] && NoPixmapRecords(l.data)
    ensures FromDict(ToDict(l), freshId) == Ok(l)
  {
    FromDictToDict(l, freshId);
  }

  // ---------------------------------------------------------------------
  // Pure views of a layer list

  /** The layers without `id`, in order. */
  function Without(ls: seq<Layer>, id: string): (r: seq<Layer>)
    ensures |r| <= |ls|
    ensures forall i :: 0 <= i < |r| ==> r[i].id != id
  {
    if |ls| == 0 then []
    else (if ls[0].id == id then [] else [ls[0]]) + Without(ls[1..], id)
  }

  /** Removing keeps exactly the layers with another id. */
  lemma {:induction false} WithoutMembers(ls: seq<Layer>, id: string)
    ensures forall l :: l in Without(ls, id) <==> l in ls && l.id != id
  {
    if |ls| > 0 {
      WithoutMembers(ls[1..], id);
      assert ls == [ls[0]] + ls[1..];
    }
  }

  /** Removing an id no layer carries changes nothing. */
  lemma {:induction false} WithoutUnknown(ls: seq<Layer>, id: string)
    requires forall i :: 0 <= i < |ls| ==> ls[i].id != id
    ensures Without(ls, id) == ls
  {
    if |ls| > 0 {
      WithoutUnknown(ls[1..], id);
      assert ls == [ls[0]] + ls[1..];
    }
  }

  lemma {:induction false} WithoutAppend(ls: seq<Layer>, l: Layer, id: string)
    ensures Without(ls + [l], id) == Without(ls, id) + (if l.id == id then [] else [l])
  {
    if |ls| == 0 {
      assert Without([l], id) == (if l.id == id then [] else [l]) + Without([], id);
    } else {
      assert (ls + [l])[1..] == ls[1..] + [l];
      WithoutAppend(ls[1..], l, id);
    }
  }

  /** Removing twice is removing once. */
  lemma {:induction false} WithoutTwice(ls: seq<Layer>, id: string)
    ensures Without(Without(ls, id), id) == Without(ls, id)
  {
    WithoutUnknown(Without(ls, id), id);
  }

  function OnPage(ls: seq<Layer>, p: int): (r: seq<Layer>)
    ensures |r| <= |ls|
    ensures forall l :: l in r <==> l in ls && l.pageNum == p
  {
    if |ls| == 0 then []
    else (if ls[0].pageNum == p then [ls[0]] else []) + OnPage(ls[1..], p)
  }

  function OffPage(ls: seq<Layer>, p: int): (r: seq<Layer>)
    ensures |r| <= |ls|
    ensures forall l :: l in r <==> l in ls && l.pageNum != p
  {
    if |ls| == 0 then []
    else (if ls[0].pageNum != p then [ls[0]] else []) + OffPage(ls[1..], p)
  }

  /** The layers whose z-index is `z`, in order. */
  function WithZ(ls: seq<Layer>, z: int): seq<Layer>
  {
    if |ls| == 0 then []
    else (if ls[0].zIndex == z then [ls[0]] else []) + WithZ(ls[1..], z)
  }

  predicate SortedByZ(ls: seq<Layer>)
  {
    forall i, j :: 0 <= i < j < |ls| ==> ls[i].zIndex <= ls[j].zIndex
  }

  lemma WithZCons(x: Layer, ls: seq<Layer>, z: int)
    ensures WithZ([x] + ls, z) == (if x.zIndex == z then [x] else []) + WithZ(ls, z)
  {
    assert ([x] + ls)[1..] == ls;
  }

  /** Inserts `l` before the first layer whose z-index is not below its own. */
  function InsertByZ(l: Layer, ls: seq<Layer>): (r: seq<Layer>)
    ensures multiset(r) == multiset(ls) + multiset{l}
  {
    if |ls| == 0 then [l]
    else if l.zIndex <= ls[0].zIndex then [l] + ls
    else
      assert ls == [ls[0]] + ls[1..];
      [ls[0]] + InsertByZ(l, ls[1..])
  }

  /** Inserting into a sorted list keeps it sorted. */
  lemma {:induction false} InsertByZSorted(l: Layer, ls: seq<Layer>)
    requires SortedByZ(ls)
    ensures SortedByZ(InsertByZ(l, ls))
  {
    if |ls| > 0 && l.zIndex > ls[0].zIndex {
      var rest := InsertByZ(l, ls[1..]);
      InsertByZSorted(l, ls[1..]);
      forall j | 0 <= j < |rest| ensures ls[0].zIndex <= rest[j].zIndex {
        assert rest[j] in multiset(rest);
        assert rest[j] == l || rest[j] in multiset(ls[1..]);
      }
      assert InsertByZ(l, ls) == [ls[0]] + rest;
    }
  }

  /** The insertion keeps the order among the layers of each z-index, and
      puts `l` first among those sharing its own. */
  lemma {:induction false} InsertByZKeepsOrder(l: Layer, ls: seq<Layer>, z: int)
    ensures WithZ(InsertByZ(l, ls), z) == (if l.zIndex == z then [l] else []) + WithZ(ls, z)
  {
    if |ls| == 0 {
      WithZCons(l, [], z);
    } else if l.zIndex <= ls[0].zIndex {
      WithZCons(l, ls, z);
    } else {
      InsertByZKeepsOrder(l, ls[1..], z);
      InsertPastFirst(l, ls, z);
    }
  }

  /** The step of `InsertByZKeepsOrder` where `l` goes past the first layer. */
  lemma InsertPastFirst(l: Layer, ls: seq<Layer>, z: int)
    requires |ls| > 0 && l.zIndex > ls[0].zIndex
    requires WithZ(InsertByZ(l, ls[1..]), z) == (if l.zIndex == z then [l] else []) + WithZ(ls[1..], z)
    ensures WithZ(InsertByZ(l, ls), z) == (if l.zIndex == z then [l] else []) + WithZ(ls, z)
  {
    var rest := InsertByZ(l, ls[1..]);
    var first := if ls[0].zIndex == z then [ls[0]] else [];
    var mine := if l.zIndex == z then [l] else [];
    assert InsertByZ(l, ls) == [ls[0]] + rest;
    WithZCons(ls[0], rest, z);
    assert WithZ(ls, z) == first + WithZ(ls[1..], z);
    SwapEmpty(first, mine, WithZ(ls[1..], z));
  }

  lemma SwapEmpty(f: seq<Layer>, m: seq<Layer>, t: seq<Layer>)
    requires f == [] || m == []
    ensures f + (m + t) == m + (f + t)
  {
    if f == [] {
      assert f + (m + t) == m + t;
    } else {
      assert m + (f + t) == f + t;
    }
  }

  /** Python's `sorted(ls, key=lambda x: x.z_index)`: sorted, and a
      permutation of the input. */
  function SortByZ(ls: seq<Layer>): (r: seq<Layer>)
    ensures SortedByZ(r)
    ensures multiset(r) == multiset(ls)
  {
    if |ls| == 0 then []
    else
      InsertByZSorted(ls[0], SortByZ(ls[1..]));
      assert ls == [ls[0]] + ls[1..];
      InsertByZ(ls[0], SortByZ(ls[1..]))
  }

  /** The sort is stable: the layers sharing a z-index keep their relative
      order. With sortedness this determines the result. */
  lemma {:induction false} SortByZStable(ls: seq<Layer>, z: int)
    ensures WithZ(SortByZ(ls), z) == WithZ(ls, z)
  {
    if |ls| > 0 {
      SortByZStable(ls[1..], z);
      InsertByZKeepsOrder(ls[0], SortByZ(ls[1..]), z);
      WithZCons(ls[0], ls[1..], z);
      assert ls == [ls[0]] + ls[1..];
    }
  }

  /** The index of the first layer with `id`. */
  function IndexOf(ls: seq<Layer>, id: string): (r: Option<nat>)
    ensures r.Some? ==> r.value < |ls| && ls[r.value].id == id
    ensures r.Some? ==> forall j :: 0 <= j < r.value ==> ls[j].id != id
    ensures r.None? ==> forall j :: 0 <= j < |ls| ==> ls[j].id != id
  {
    if |ls| == 0 then None
    else if ls[0].id == id then Some(0)
    else match IndexOf(ls[1..], id)
      case None => None
      case Some(i) => Some(i + 1)
  }

  /** Python's `list.insert(i, x)` position for a list of length `n`:
      negative indices count from the end and both ends clamp. */
  function InsertPosition(i: int, n: nat): (r: nat)
    ensures r <= n
    ensures 0 <= i <= n ==> r == i
    ensures i > n ==> r == n
    ensures -(n as int) <= i < 0 ==> r == n + i
    ensures i < -(n as int) ==> r == 0
  {
    if i < 0 then (if n + i < 0 then 0 else n + i) else if i > n then n else i
  }

  function InsertAt(ls: seq<Layer>, i: int, l: Layer): (r: seq<Layer>)
    ensures |r| == |ls| + 1
    ensures r[InsertPosition(i, |ls|)] == l
    ensures multiset(r) == multiset(ls) + multiset{l}
  {
    var k := InsertPosition(i, |ls|);
    assert ls == ls[..k] + ls[k..];
    ls[..k] + [l] + ls[k..]
  }

  function RemoveAt(ls: seq<Layer>, i: nat): (r: seq<Layer>)
    requires i < |ls|
    ensures |r| == |ls| - 1
    ensures multiset(r) == multiset(ls) - multiset{ls[i]}
  {
    assert ls == ls[..i] + [ls[i]] + ls[i + 1..];
    ls[..i] + ls[i + 1..]
  }

  /** The list after `_reindex_layers`: every z-index equals its position. */
  function Renumbered(ls: seq<Layer>): (r: seq<Layer>)
    ensures |r| == |ls|
    ensures forall i :: 0 <= i < |ls| ==> r[i] == ls[i].(zIndex := i)
  {
    seq(|ls|, i requires 0 <= i < |ls| => ls[i].(zIndex := i))
  }

  // ---------------------------------------------------------------------
  // The store

  /** The state `LayerManager.to_dict` saves. */
  datatype Snapshot = Snapshot(layers: seq<Layer>, nextZ: int)

  /** `LayerManager.to_dict`. */
  function ManagerToDict(s: Snapshot): (r: Dict)
    ensures Keys(r) == ["layers", "next_z_index"]
  {
    [("layers", VList(EncodeLayers(s.layers))),
     ("next_z_index", VInt(s.nextZ))]
  }

  /** `[layer.to_dict() for layer in self.layers]`. */
  function EncodeLayers(ls: seq<Layer>): (r: seq<Value>)
    ensures |r| == |ls|
    ensures forall i :: 0 <= i < |ls| ==> r[i] == VDict(ToDict(ls[i]))
  {
    if |ls| == 0 then [] else [VDict(ToDict(ls[0]))] + EncodeLayers(ls[1..])
  }

  /** Decodes saved layers; the i-th uses `uuids(i)` as its fresh UUID. */
  function DecodeLayers(items: seq<Value>, uuids: nat -> string, from: nat): (r: Result<seq<Layer>>)
    ensures r.Ok? ==> |r.value| == |items|
    ensures r.Ok? ==> forall i :: 0 <= i < |items| ==> r.value[i].kind == Plain
  {
    if |items| == 0 then Ok([])
    else
      var first :- if items[0].VDict? then FromDict(items[0].entries, uuids(from)) else Err(TypeError);
      var rest :- DecodeLayers(items[1..], uuids, from + 1);
      Ok([first] + rest)
  }

  /** `LayerManager.from_dict`. */
  function ManagerFromDict(d: Dict, uuids: nat -> string): (r: Result<Snapshot>)
    ensures r.Ok? ==> Field(d, "next_z_index") == Ok(VInt(r.value.nextZ))
  {
    var lv :- Field(d, "layers");
    var items :- if lv.VList? then Ok(lv.items) else Err(TypeError);
    var layers :- DecodeLayers(items, uuids, 0);
    var z :- IntField(d, "next_z_index");
    Ok(Snapshot(layers, z))
  }

  /** Every saved layer can be restored by `Layer.from_dict`. */
  predicate Restorable(ls: seq<Layer>)
  {
    forall i :: 0 <= i < |ls| ==> NoPixmapRecords(ls[i].data) && DisplayName(ls[i]) != []
  }

  function RestoredAll(ls: seq<Layer>): (r: seq<Layer>)
    ensures |r| == |ls|
    ensures forall i :: 0 <= i < |ls| ==> r[i] == Restored(ls[i])
  {
    if |ls| == 0 then []
    else
      var rest := RestoredAll(ls[1..]);
      assert forall i :: 1 <= i < |ls| ==> ([Restored(ls[0])] + rest)[i] == rest[i - 1];
      [Restored(ls[0])] + rest
  }

  /** One step of `DecodeLayers`, over an already decoded first layer and
      tail. */
  lemma DecodeStep(items: seq<Value>, uuids: nat -> string, from: nat, first: Layer, rest: seq<Layer>)
    requires |items| > 0 && items[0].VDict?
    requires FromDict(items[0].entries, uuids(from)) == Ok(first)
    requires DecodeLayers(items[1..], uuids, from + 1) == Ok(rest)
    ensures DecodeLayers(items, uuids, from) == Ok([first] + rest)
  {
  }

  lemma {:induction false} DecodeSavedLayers(ls: seq<Layer>, uuids: nat -> string, from: nat)
    requires Restorable(ls)
    ensures DecodeLayers(EncodeLayers(ls), uuids, from) == Ok(RestoredAll(ls))
  {
    if |ls| > 0 {
      var items := EncodeLayers(ls);
      assert items[0] == VDict(ToDict(ls[0]));
      assert items[1..] == EncodeLayers(ls[1..]);
      assert Restorable(ls[1..]) by {
        assert forall i :: 0 <= i < |ls| - 1 ==> ls[1..][i] == ls[i + 1];
      }
      FromDictToDict(ls[0], uuids(from));
      DecodeSavedLayers(ls[1..], uuids, from + 1);
      DecodeStep(items, uuids, from, Restored(ls[0]), RestoredAll(ls[1..]));
    }
  }

  /** A store round trip keeps the list order and the z counter, and turns
      each layer into its restored plain form. */
  lemma ManagerRoundTrip(s: Snapshot, uuids: nat -> string)
    requires Restorable(s.layers)
    ensures ManagerFromDict(ManagerToDict(s), uuids) == Ok(Snapshot(RestoredAll(s.layers), s.nextZ))
  {
    var d := ManagerToDict(s);
    assert Field(d, "layers") == Ok(VList(EncodeLayers(s.layers)));
    DecodeSavedLayers(s.layers, uuids, 0);
    assert Get(d, "next_z_index") == Some(VInt(s.nextZ)) by {
      assert d[1] == ("next_z_index", VInt(s.nextZ));
      assert d[0].0 != "next_z_index";
    }
  }

  /** `LayerManager`: the ordered layer list and the next z-index to hand out. */
  class LayerManager {
    var layers: seq<Layer>
    var nextZ: int

    /** The counter is ahead of every z-index in use and of the list length,
        so the next layer added is drawn above all others. */
    ghost predicate Valid()
      reads this
    {
      |layers| <= nextZ && forall i :: 0 <= i < |layers| ==> layers[i].zIndex < nextZ
    }

    function State(): Snapshot
      reads this
    {
      Snapshot(layers, nextZ)
    }

    constructor()
      ensures layers == [] && nextZ == 0
      ensures Valid()
    {
      layers := [];
      nextZ := 0;
    }

    /** `LayerManager.from_dict` onto a fresh store. */
    constructor FromSnapshot(s: Snapshot)
      ensures State() == s
    {
      layers := s.layers;
      nextZ := s.nextZ;
    }

    method AddLayer(l: Layer)
      modifies this
      ensures layers == old(layers) + [l.(zIndex := old(nextZ))]
      ensures nextZ == old(nextZ) + 1
      ensures old(Valid()) ==> Valid()
    {
      layers := layers + [l.(zIndex := nextZ)];
      nextZ := nextZ + 1;
    }

    method RemoveLayer(id: string)
      modifies this
      ensures layers == Without(old(layers), id)
      ensures nextZ == old(nextZ)
      ensures old(Valid()) ==> Valid()
    {
      WithoutMembers(layers, id);
      layers := Without(layers, id);
    }

    function GetLayer(id: string): (r: Option<Layer>)
      reads this
      ensures r.Some? <==> exists i :: 0 <= i < |layers| && layers[i].id == id
      ensures r.Some? ==> r.value.id == id && r.value in layers
      ensures r.Some? ==> r == Some(layers[IndexOf(layers, id).value])
    {
      match IndexOf(layers, id)
      case None => None
      case Some(i) => Some(layers[i])
    }

    function LayersForPage(p: int): (r: seq<Layer>)
      reads this
      ensures SortedByZ(r)
      ensures multiset(r) == multiset(OnPage(layers, p))
      ensures forall l :: l in r <==> l in layers && l.pageNum == p
    {
      var r := SortByZ(OnPage(layers, p));
      assert forall l :: l in r <==> l in multiset(r);
      r
    }

    /** `move_layer`: take the first layer with `id` out and reinsert it at
        `newIndex` with Python's `list.insert` clamping, then renumber every
        z-index to its list position. */
    method MoveLayer(id: string, newIndex: int)
      modifies this
      ensures IndexOf(old(layers), id).None? ==> layers == old(layers)
      ensures IndexOf(old(layers), id).Some? ==>
        var i := IndexOf(old(layers), id).value;
        layers == Renumbered(InsertAt(RemoveAt(old(layers), i), newIndex, old(layers)[i]))
      ensures nextZ == old(nextZ)
      ensures old(Valid()) ==> Valid()
    {
      match IndexOf(layers, id)
      case None =>
      case Some(i) =>
        var l := layers[i];
        layers := InsertAt(RemoveAt(layers, i), newIndex, l);
        ReindexLayers();
    }

    /** `_reindex_layers`. */
    method ReindexLayers()
      modifies this
      ensures layers == Renumbered(old(layers))
      ensures nextZ == old(nextZ)
      ensures |layers| <= nextZ ==> Valid()
    {
      var k := 0;
      while k < |layers|
        invariant 0 <= k <= |layers| == |old(layers)|
        invariant forall i :: 0 <= i < k ==> layers[i] == old(layers)[i].(zIndex := i)
        invariant forall i :: k <= i < |layers| ==> layers[i] == old(layers)[i]
        invariant nextZ == old(nextZ)
      {
        layers := layers[k := layers[k].(zIndex := k)];
        k := k + 1;
      }
    }

    method ClearPage(p: int)
      modifies this
      ensures layers == OffPage(old(layers), p)
      ensures nextZ == old(nextZ)
      ensures old(Valid()) ==> Valid()
    {
      layers := OffPage(layers, p);
    }

    method ClearAll()
      modifies this
      ensures layers == [] && nextZ == 0
      ensures Valid()
    {
      layers := [];
      nextZ := 0;
    }
  }

  // ---------------------------------------------------------------------
  // Properties of the store operations

  /** From a fresh store, the k-th layer added gets z-index k. */
  lemma SuccessiveAdds(ls: seq<Layer>)
    ensures AddAll(Snapshot([], 0), ls).nextZ == |ls|
    ensures |AddAll(Snapshot([], 0), ls).layers| == |ls|
    ensures forall i :: 0 <= i < |ls| ==> AddAll(Snapshot([], 0), ls).layers[i] == ls[i].(zIndex := i)
  {
    AddAllShape(Snapshot([], 0), ls);
  }

  /** `add_layer` on a snapshot, applied to each layer in turn. */
  function AddAll(s: Snapshot, ls: seq<Layer>): Snapshot
    decreases |ls|
  {
    if |ls| == 0 then s
    else AddAll(Snapshot(s.layers + [ls[0].(zIndex := s.nextZ)], s.nextZ + 1), ls[1..])
  }

  lemma {:induction false} AddAllShape(s: Snapshot, ls: seq<Layer>)
    ensures AddAll(s, ls).nextZ == s.nextZ + |ls|
    ensures |AddAll(s, ls).layers| == |s.layers| + |ls|
    ensures AddAll(s, ls).layers[..|s.layers|] == s.layers
    ensures forall i :: 0 <= i < |ls| ==> AddAll(s, ls).layers[|s.layers| + i] == ls[i].(zIndex := s.nextZ + i)
    decreases |ls|
  {
    if |ls| > 0 {
      var s' := Snapshot(s.layers + [ls[0].(zIndex := s.nextZ)], s.nextZ + 1);
      AddAllShape(s', ls[1..]);
      var r := AddAll(s, ls).layers;
      assert r[..|s'.layers|] == s'.layers;
      assert r[..|s.layers|] == s'.layers[..|s.layers|];
      forall i | 0 <= i < |ls|
        ensures r[|s.layers| + i] == ls[i].(zIndex := s.nextZ + i)
      {
        if i == 0 {
          assert r[|s.layers|] == r[..|s'.layers|][|s.layers|];
        } else {
          assert r[|s'.layers| + (i - 1)] == ls[1..][i - 1].(zIndex := s'.nextZ + (i - 1));
        }
      }
    }
  }

  /** After an add to a valid store, the new layer is the last one listed
      for its page, above every other layer there. */
  lemma AddedLayerOnTop(ls: seq<Layer>, nextZ: int, l: Layer)
    requires forall i :: 0 <= i < |ls| ==> ls[i].zIndex < nextZ
    ensures var r := SortByZ(OnPage(ls + [l.(zIndex := nextZ)], l.pageNum));
      |r| > 0 && r[|r| - 1] == l.(zIndex := nextZ)
      && forall i :: 0 <= i < |r| - 1 ==> r[i].zIndex < nextZ
  {
    PlacedOnTop(ls, l.(zIndex := nextZ), nextZ);
  }

  /** A layer placed above every layer of a list tops its page. */
  lemma PlacedOnTop(ls: seq<Layer>, x: Layer, top: int)
    requires x.zIndex == top && forall i :: 0 <= i < |ls| ==> ls[i].zIndex < top
    ensures var r := SortByZ(OnPage(ls + [x], x.pageNum));
      |r| > 0 && r[|r| - 1] == x
      && forall i :: 0 <= i < |r| - 1 ==> r[i].zIndex < top
  {
    var before := OnPage(ls, x.pageNum);
    OnPageAppend(ls, x);
    forall y | y in before ensures y.zIndex < top {
      assert y in ls;
    }
    TopOfPage(before, x, top);
  }

  /** Sorting a page whose layers are all below `x` puts `x` last. */
  lemma TopOfPage(before: seq<Layer>, x: Layer, top: int)
    requires x.zIndex == top && forall y :: y in before ==> y.zIndex < top
    ensures var r := SortByZ(before + [x]);
      |r| > 0 && r[|r| - 1] == x
      && forall i :: 0 <= i < |r| - 1 ==> r[i].zIndex < top
  {
    var page := before + [x];
    assert x !in before;
    assert multiset(page)[x] == 1;
    var r := SortByZ(page);
    forall i | 0 <= i < |r| ensures r[i] == x || r[i].zIndex < top {
      assert r[i] in multiset(page);
      assert r[i] in page;
    }
    TopOfSorted(r, x, top);
  }

  /** In a sorted list where `x` occurs once and everything else is below
      `top`, `x` comes last. */
  lemma TopOfSorted(r: seq<Layer>, x: Layer, top: int)
    requires SortedByZ(r) && multiset(r)[x] == 1 && x.zIndex == top
    requires forall i :: 0 <= i < |r| ==> r[i] == x || r[i].zIndex < top
    ensures |r| > 0 && r[|r| - 1] == x
    ensures forall i :: 0 <= i < |r| - 1 ==> r[i].zIndex < top
  {
    assert x in multiset(r);
    var j :| 0 <= j < |r| && r[j] == x;
    var last := |r| - 1;
    assert r[last] == x;
    forall i | 0 <= i < last ensures r[i].zIndex < top {
      if r[i] == x {
        TwiceInMultiset(r, i, last);
      }
    }
  }

  lemma {:induction false} OnPageAppend(ls: seq<Layer>, l: Layer)
    ensures OnPage(ls + [l], l.pageNum) == OnPage(ls, l.pageNum) + [l]
  {
    if |ls| == 0 {
      assert OnPage([l], l.pageNum) == [l] + OnPage([], l.pageNum);
    } else {
      assert (ls + [l])[1..] == ls[1..] + [l];
      OnPageAppend(ls[1..], l);
    }
  }

  lemma TwiceInMultiset(r: seq<Layer>, i: nat, j: nat)
    requires i < j < |r| && r[i] == r[j]
    ensures multiset(r)[r[i]] >= 2
  {
    assert r == r[..j] + [r[j]] + r[j + 1..];
    assert r[..j][i] == r[i];
    assert r[i] in multiset(r[..j]);
  }

  /** After `move_layer` on a present id, the layer sits at the clamped
      insert position and every z-index equals its position. */
  lemma MovedLayerPosition(ls: seq<Layer>, id: string, newIndex: int)
    requires IndexOf(ls, id).Some?
    ensures var i := IndexOf(ls, id).value;
      var r := Renumbered(InsertAt(RemoveAt(ls, i), newIndex, ls[i]));
      var k := InsertPosition(newIndex, |ls| - 1);
      |r| == |ls| && r[k] == ls[i].(zIndex := k)
      && forall j :: 0 <= j < |r| ==> r[j].zIndex == j
  {
  }

  /** `clear_page` keeps every other page's layers, with their z-indices. */
  lemma ClearPageKeepsOthers(ls: seq<Layer>, p: int, q: int)
    requires q != p
    ensures OnPage(OffPage(ls, p), q) == OnPage(ls, q)
  {
    if |ls| > 0 {
      ClearPageKeepsOthers(ls[1..], p, q);
      if ls[0].pageNum != p {
        var off := [ls[0]] + OffPage(ls[1..], p);
        assert off[0] == ls[0] && off[1..] == OffPage(ls[1..], p);
        assert OnPage(off, q) == (if ls[0].pageNum == q then [ls[0]] else []) + OnPage(off[1..], q);
      } else {
        assert OffPage(ls, p) == OffPage(ls[1..], p);
        assert OnPage(ls, q) == OnPage(ls[1..], q);
      }
    }
  }
}
