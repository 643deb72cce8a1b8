/** Dynamic values as the editor stores them in a layer's `data` dictionary,
    in the settings tree and in serialised layer records: the JSON-like
    Python values plus the two Qt payloads that travel through them, an image
    (`QPixmap`) and the raw bytes of its PNG encoding. */
module Values {
  import opened Common

  type Pos = n: int | n > 0 witness 1

  /** A `QPixmap`, reduced to what the editor observes of it: whether it is
      null, its size, and an opaque token for its pixels. */
  datatype Pixmap = NullPixmap | Image(w: Pos, h: Pos, pixels: int)
  {
    predicate IsNull() { NullPixmap? }
    function Width(): nat { if NullPixmap? then 0 else w }
    function Height(): nat { if NullPixmap? then 0 else h }
  }

  /** `QPixmap.save(buffer, "PNG")`: a null pixmap writes nothing. The byte
      layout is a stand-in for PNG that keeps exactly the information a
      decoder recovers. */
  function PngEncode(p: Pixmap): (b: seq<int>)
    ensures b == [] <==> p.IsNull()
  {
    match p
    case NullPixmap => []
    case Image(w, h, c) => [w, h, c]
  }

  /** `QPixmap.loadFromData(bytes)`: bytes that do not decode leave the
      pixmap null. */
  function PngDecode(b: seq<int>): (p: Pixmap)
    ensures b == [] ==> p.IsNull()
  {
    if |b| == 3 && b[0] > 0 && b[1] > 0 then Image(b[0], b[1], b[2]) else NullPixmap
  }

  lemma PngRoundTrip(p: Pixmap)
    ensures PngDecode(PngEncode(p)) == p
  {
  }

  datatype Value =
    | VNone
    | VBool(b: bool)
    | VInt(i: int)
    | VReal(r: real)
    | VStr(s: string)
    | VList(items: seq<Value>)
    | VDict(entries: Dict)
    | VPixmap(pixmap: Pixmap)
    | VBytes(bytes: seq<int>)

  /** A Python `dict` with string keys, as an association list in insertion
      order. Lookup takes the first entry with the key; `Put` overwrites that
      entry in place or appends a new one, as `d[k] = v` does. */
  type Dict = seq<(string, Value)>

  predicate HasKey(d: Dict, k: string)
  {
    |d| > 0 && (d[0].0 == k || HasKey(d[1..], k))
  }

  function Get(d: Dict, k: string): (r: Option<Value>)
    ensures r.Some? <==> HasKey(d, k)
  {
    if |d| == 0 then None
    else if d[0].0 == k then Some(d[0].1)
    else Get(d[1..], k)
  }

  /** `d.get(k, default)`. */
  function GetOr(d: Dict, k: string, default: Value): (r: Value)
    ensures HasKey(d, k) ==> Some(r) == Get(d, k)
    ensures !HasKey(d, k) ==> r == default
  {
    match Get(d, k)
    case Some(v) => v
    case None => default
  }

  function Put(d: Dict, k: string, v: Value): (r: Dict)
    ensures |r| == |d| || |r| == |d| + 1
    ensures HasKey(r, k)
  {
    if |d| == 0 then [(k, v)]
    else if d[0].0 == k then [(k, v)] + d[1..]
    else
      var rest := Put(d[1..], k, v);
      assert ([d[0]] + rest)[1..] == rest;
      [d[0]] + rest
  }

  function Keys(d: Dict): (r: seq<string>)
    ensures |r| == |d|
    ensures forall i :: 0 <= i < |d| ==> r[i] == d[i].0
  {
    if |d| == 0 then [] else [d[0].0] + Keys(d[1..])
  }

  lemma {:induction false} GetPutSame(d: Dict, k: string, v: Value)
    ensures Get(Put(d, k, v), k) == Some(v)
  {
    if |d| > 0 && d[0].0 != k {
      GetPutSame(d[1..], k, v);
    }
  }

  lemma {:induction false} GetPutOther(d: Dict, k: string, v: Value, k': string)
    requires k' != k
    ensures Get(Put(d, k, v), k') == Get(d, k')
  {
    if |d| > 0 && d[0].0 != k {
      GetPutOther(d[1..], k, v, k');
    }
  }

  /** A key is present exactly when it is among the keys. */
  lemma {:induction false} HasKeyKeys(d: Dict, k: string)
    ensures HasKey(d, k) <==> k in Keys(d)
  {
    if |d| > 0 {
      HasKeyKeys(d[1..], k);
      assert Keys(d) == [d[0].0] + Keys(d[1..]);
    }
  }

  /** Overwriting an existing key keeps every key in its place. */
  lemma {:induction false} KeysPutExisting(d: Dict, k: string, v: Value)
    requires HasKey(d, k)
    ensures Keys(Put(d, k, v)) == Keys(d)
  {
    if d[0].0 != k {
      KeysPutExisting(d[1..], k, v);
    }
  }

  /** Adding a new key appends it after all the existing keys. */
  lemma {:induction false} KeysPutFresh(d: Dict, k: string, v: Value)
    requires !HasKey(d, k)
    ensures Keys(Put(d, k, v)) == Keys(d) + [k]
  {
    if |d| > 0 {
      KeysPutFresh(d[1..], k, v);
    }
  }

  /** Writing a key twice keeps only the second write. */
  lemma {:induction false} PutPutSame(d: Dict, k: string, v1: Value, v2: Value)
    ensures Put(Put(d, k, v1), k, v2) == Put(d, k, v2)
  {
    if |d| > 0 && d[0].0 != k {
      PutPutSame(d[1..], k, v1, v2);
    }
  }

  /** Writes to two different keys commute once one of them is present. */
  lemma {:induction false} PutCommute(d: Dict, a: string, v: Value, b: string, w: Value)
    requires a != b && HasKey(d, a)
    ensures Put(Put(d, a, v), b, w) == Put(Put(d, b, w), a, v)
  {
    if d[0].0 != a && d[0].0 != b {
      PutCommute(d[1..], a, v, b, w);
    }
  }

  /** Writing back the value a key already holds changes nothing. */
  lemma {:induction false} PutGetSame(d: Dict, k: string, v: Value)
    requires Get(d, k) == Some(v)
    ensures Put(d, k, v) == d
  {
    if d[0].0 != k {
      PutGetSame(d[1..], k, v);
    }
  }

  /** Lookup in a literal built from parts: the first part that holds the
      key answers. */
  lemma {:induction false} GetAppend(a: Dict, b: Dict, k: string)
    ensures Get(a + b, k) == if HasKey(a, k) then Get(a, k) else Get(b, k)
  {
    if |a| > 0 {
      assert (a + b)[1..] == a[1..] + b;
      GetAppend(a[1..], b, k);
    } else {
      assert a + b == b;
    }
  }

  /** `bool(v)`: None, zero, empty containers and a null pixmap are false. */
  predicate Truthy(v: Value)
  {
    match v
    case VNone => false
    case VBool(b) => b
    case VInt(i) => i != 0
    case VReal(r) => r != 0.0
    case VStr(s) => s != []
    case VList(items) => items != []
    case VDict(entries) => entries != []
    case VPixmap(p) => !p.IsNull()
    case VBytes(b) => b != []
  }

  // ---------------------------------------------------------------------
  // Numbers stored in dictionaries

  /** Python numbers: `bool` is a subclass of `int`. */
  predicate IsNumber(v: Value) { v.VInt? || v.VReal? || v.VBool? }

  function AsReal(v: Value): real
    requires IsNumber(v)
  {
    match v
    case VInt(i) => i as real
    case VReal(r) => r
    case VBool(b) => if b then 1.0 else 0.0
  }

  /** `d.get(k, default)` taking part in arithmetic: anything stored that
      is not a number makes the arithmetic raise a TypeError. */
  function NumOr(d: Dict, k: string, default: real): (r: Result<real>)
    ensures !HasKey(d, k) ==> r == Ok(default)
    ensures r.Err? ==> r.error == TypeError
    ensures r.Ok? && HasKey(d, k) ==> IsNumber(Get(d, k).value) && r.value == AsReal(Get(d, k).value)
  {
    match Get(d, k)
    case None => Ok(default)
    case Some(v) => if IsNumber(v) then Ok(AsReal(v)) else Err(TypeError)
  }

  lemma NumOrPut(d: Dict, k: string, x: real, default: real)
    ensures NumOr(Put(d, k, VReal(x)), k, default) == Ok(x)
  {
    GetPutSame(d, k, VReal(x));
  }

  lemma NumOrPutOther(d: Dict, k: string, v: Value, k': string, default: real)
    requires k' != k
    ensures NumOr(Put(d, k, v), k', default) == NumOr(d, k', default)
  {
    GetPutOther(d, k, v, k');
  }
}
