/** Shared vocabulary of the editor model: optional values, the Python
    exceptions the modelled code can raise, and the handful of `str`
    operations the editor relies on (strip, split, lower/upper case, prefix
    and substring tests, `int()` parsing and decimal formatting). */
module Common {

  datatype Option<+T> = None | Some(value: T) {
    predicate IsFailure() { None? }
    function PropagateFailure<U>(): Option<U> requires None? { None }
    function Extract(): T requires Some? { value }
    function GetOr(default: T): T { if Some? then value else default }
  }

  /** The Python exceptions that the modelled operations can raise. */
  datatype Error =
    | KeyError(key: string)
    | ValueError
    | TypeError
    | IndexError
    | ZeroDivisionError
    | AttributeError
    | RuntimeError

  datatype Result<+T> = Ok(value: T) | Err(error: Error) {
    predicate IsFailure() { Err? }
    function PropagateFailure<U>(): Result<U> requires Err? { Err(error) }
    function Extract(): T requires Ok? { value }
  }

  /** The keyboard modifiers held during a click. */
  datatype Modifiers = Modifiers(control: bool, shift: bool)

  // ---------------------------------------------------------------------
  // Reals

  function MinR(a: real, b: real): real { if a <= b then a else b }
  function MaxR(a: real, b: real): real { if a >= b then a else b }
  function AbsR(a: real): real { if a >= 0.0 then a else -a }
  function MinI(a: int, b: int): int { if a <= b then a else b }
  function MaxI(a: int, b: int): int { if a >= b then a else b }

  /** Python's `int(x)` on a float: truncation toward zero. */
  function Trunc(x: real): int { if x >= 0.0 then x.Floor else -((-x).Floor) }

  // ---------------------------------------------------------------------
  // Sequence indexing

  /** Python's `xs[i]` is defined for `-n <= i < n`. */
  predicate PyIndexOk(n: nat, i: int) { 0 <= i < n || -(n as int) <= i < 0 }

  function PyIndex(n: nat, i: int): (k: nat)
    requires PyIndexOk(n, i)
    ensures k < n
    ensures i >= 0 ==> k == i
    ensures i < 0 ==> k == n + i
  {
    if i >= 0 then i else n + i
  }

  // ---------------------------------------------------------------------
  // Characters

  /** `str.isspace` for the characters Python strips by default. */
  predicate IsSpace(c: char)
  {
    var k := c as int;
    k == 0x20 || (0x09 <= k <= 0x0d) || (0x1c <= k <= 0x1f) || k == 0x85 || k == 0xa0
    || k == 0x1680 || (0x2000 <= k <= 0x200a) || k == 0x2028 || k == 0x2029
    || k == 0x202f || k == 0x205f || k == 0x3000
  }

  predicate IsDigit(c: char) { '0' <= c <= '9' }
  predicate IsUpperAscii(c: char) { 'A' <= c <= 'Z' }
  predicate IsLowerAscii(c: char) { 'a' <= c <= 'z' }
  predicate IsAlpha(c: char) { IsUpperAscii(c) || IsLowerAscii(c) }

  function LowerChar(c: char): char { if IsUpperAscii(c) then (c as int + 32) as char else c }
  function UpperChar(c: char): char { if IsLowerAscii(c) then (c as int - 32) as char else c }

  function Lower(s: string): (r: string)
    ensures |r| == |s|
    ensures forall i :: 0 <= i < |s| ==> r[i] == LowerChar(s[i])
  {
    if s == [] then [] else [LowerChar(s[0])] + Lower(s[1..])
  }

  function Upper(s: string): (r: string)
    ensures |r| == |s|
    ensures forall i :: 0 <= i < |s| ==> r[i] == UpperChar(s[i])
  {
    if s == [] then [] else [UpperChar(s[0])] + Upper(s[1..])
  }

  /** Lower-casing forgets an earlier upper-casing. */
  lemma LowerUpperChar(c: char)
    ensures LowerChar(UpperChar(c)) == LowerChar(c)
  {
  }

  lemma LowerUpper(s: string)
    ensures Lower(Upper(s)) == Lower(s)
  {
    var a, b := Lower(Upper(s)), Lower(s);
    forall i | 0 <= i < |s| ensures a[i] == b[i] {
      LowerUpperChar(s[i]);
    }
  }

  /** `str.title`: the first letter of each run of letters is upper-cased and
      the rest of the run lower-cased. */
  function Title(s: string): string
  {
    TitleFrom(s, false)
  }

  function TitleFrom(s: string, inWord: bool): string
  {
    if s == [] then []
    else if IsAlpha(s[0]) then
      [if inWord then LowerChar(s[0]) else UpperChar(s[0])] + TitleFrom(s[1..], true)
    else [s[0]] + TitleFrom(s[1..], false)
  }

  // ---------------------------------------------------------------------
  // Whitespace stripping

  function LStrip(s: string): (r: string)
    ensures |r| <= |s| && r == s[|s| - |r|..]
    ensures r == [] || !IsSpace(r[0])
    ensures forall i :: 0 <= i < |s| - |r| ==> IsSpace(s[i])
  {
    if s == [] then [] else if IsSpace(s[0]) then LStrip(s[1..]) else s
  }

  function RStrip(s: string): (r: string)
    ensures |r| <= |s| && r == s[..|r|]
    ensures r == [] || !IsSpace(r[|r| - 1])
    ensures forall i :: |r| <= i < |s| ==> IsSpace(s[i])
  {
    if s == [] then [] else if IsSpace(s[|s| - 1]) then RStrip(s[..|s| - 1]) else s
  }

  /** `str.strip()` with no argument. */
  function Strip(s: string): string
  {
    RStrip(LStrip(s))
  }

  predicate IsBlank(s: string) { Strip(s) == [] }

  lemma StripEmptyIffAllSpace(s: string)
    ensures Strip(s) == [] <==> forall i :: 0 <= i < |s| ==> IsSpace(s[i])
  {
    var l := LStrip(s);
    if l != [] {
      assert !IsSpace(l[0]);
      assert RStrip(l) != [] by { assert l[..1] == [l[0]]; }
      assert s[|s| - |l|] == l[0];
    }
  }

  lemma StripNoSpaceEnds(s: string)
    ensures var t := Strip(s); t == [] || (!IsSpace(t[0]) && !IsSpace(t[|t| - 1]))
  {
    var l := LStrip(s);
    var t := RStrip(l);
    if t != [] {
      assert t == l[..|t|];
      assert t[0] == l[0];
    }
  }

  /** Text that neither starts nor ends with whitespace strips to itself. */
  lemma StripUnchanged(s: string)
    requires s == [] || (!IsSpace(s[0]) && !IsSpace(s[|s| - 1]))
    ensures Strip(s) == s
  {
  }

  // ---------------------------------------------------------------------
  // Prefixes, substrings, splitting

  /** `r` is a contiguous piece of `s`. */
  predicate IsInfix(r: string, s: string)
  {
    exists i, j :: 0 <= i <= j <= |s| && r == s[i..j]
  }

  lemma InfixTrans(a: string, b: string, c: string)
    requires IsInfix(a, b) && IsInfix(b, c)
    ensures IsInfix(a, c)
  {
    var i, j :| 0 <= i <= j <= |c| && b == c[i..j];
    var i', j' :| 0 <= i' <= j' <= |b| && a == b[i'..j'];
    assert forall k :: 0 <= k < |a| ==> a[k] == c[i + i' + k];
    assert a == c[i + i'..i + j'];
  }

  lemma StripInfix(s: string)
    ensures IsInfix(Strip(s), s)
  {
    var i, j := StripBounds(s);
  }

  /** Where the stripped text sits inside the text. */
  lemma StripBounds(s: string) returns (i: nat, j: nat)
    ensures i <= j <= |s| && Strip(s) == s[i..j]
  {
    var l := LStrip(s);
    var r := RStrip(l);
    i := |s| - |l|;
    j := i + |r|;
    assert l == s[i..];
    assert r == l[..|r|];
  }

  /** A piece of a text that lacks a pattern lacks it too. */
  lemma InfixLacks(r: string, s: string, p: string)
    requires IsInfix(r, s) && !Contains(s, p)
    ensures !Contains(r, p)
  {
    var i, j :| 0 <= i <= j <= |s| && r == s[i..j];
    forall k | 0 <= k <= |r|
      ensures !OccursAt(r, p, k)
    {
      OccursInPiece(r, s, p, i, j, k);
    }
  }

  /** An occurrence in the piece `s[i..j]` is an occurrence in `s`. */
  lemma OccursInPiece(r: string, s: string, p: string, i: nat, j: nat, k: int)
    requires i <= j <= |s| && r == s[i..j]
    ensures OccursAt(r, p, k) ==> OccursAt(s, p, i + k)
  {
    if OccursAt(r, p, k) {
      forall t | 0 <= t < |p|
        ensures s[i + k..i + k + |p|][t] == p[t]
      {
        assert s[i + k + t] == r[k + t] == r[k..k + |p|][t];
      }
      assert s[i + k..i + k + |p|] == p;
    }
  }


  predicate StartsWith(s: string, p: string) { |p| <= |s| && s[..|p|] == p }

  predicate EndsWith(s: string, p: string) { |p| <= |s| && s[|s| - |p|..] == p }

  /** `p` occurs in `s` starting at index `i`. */
  predicate OccursAt(s: string, p: string, i: int)
  {
    0 <= i && i + |p| <= |s| && s[i..i + |p|] == p
  }

  /** `p in s` for strings. */
  predicate Contains(s: string, p: string)
  {
    exists i :: 0 <= i <= |s| && OccursAt(s, p, i)
  }

  /** Index of the first occurrence of `p` in `s` at or after `from`. */
  function FindFrom(s: string, p: string, from: nat): (r: Option<nat>)
    requires from <= |s|
    decreases |s| - from
    ensures r.Some? ==> from <= r.value && OccursAt(s, p, r.value)
    ensures r.Some? ==> forall j :: from <= j < r.value ==> !OccursAt(s, p, j)
    ensures r.None? ==> forall j :: from <= j ==> !OccursAt(s, p, j)
  {
    if from + |p| > |s| then None
    else if s[from..from + |p|] == p then Some(from)
    else if from == |s| then None
    else FindFrom(s, p, from + 1)
  }

  function Find(s: string, p: string): (r: Option<nat>)
    ensures r.Some? <==> Contains(s, p)
    ensures r.Some? ==> OccursAt(s, p, r.value)
    ensures r.Some? ==> forall j :: 0 <= j < r.value ==> !OccursAt(s, p, j)
  {
    FindFrom(s, p, 0)
  }

  /** `s.split(sep)` for a non-empty separator. */
  function Split(s: string, sep: string): (r: seq<string>)
    requires sep != []
    ensures |r| >= 1
    decreases |s|
  {
    match Find(s, sep)
    case None => [s]
    case Some(i) => [s[..i]] + Split(s[i + |sep|..], sep)
  }

  /** The first piece of `s.split(sep)`: everything before the first separator. */
  function SplitFirst(s: string, sep: string): (r: string)
    requires sep != []
    ensures r == Split(s, sep)[0]
    ensures StartsWith(s, r) && !Contains(r, sep)
  {
    match Find(s, sep)
    case None => s
    case Some(i) =>
      assert !Contains(s[..i], sep) by {
        forall j | 0 <= j <= i ensures !OccursAt(s[..i], sep, j) {
          OccursInPiece(s[..i], s, sep, 0, i, j);
        }
      }
      s[..i]
  }

  /** The character `c` does not occur in `s`. */
  predicate Lacks(s: string, c: char)
  {
    forall i :: 0 <= i < |s| ==> s[i] != c
  }

  lemma LacksConcat(a: string, b: string, c: char)
    ensures Lacks(a + b, c) <==> Lacks(a, c) && Lacks(b, c)
  {
    if Lacks(a, c) && Lacks(b, c) {
      forall i | 0 <= i < |a + b| ensures (a + b)[i] != c {
        if i >= |a| {
          assert (a + b)[i] == b[i - |a|];
        }
      }
    }
    if Lacks(a + b, c) {
      forall i | 0 <= i < |a| ensures a[i] != c {
        assert (a + b)[i] == a[i];
      }
      forall i | 0 <= i < |b| ensures b[i] != c {
        assert (a + b)[|a| + i] == b[i];
      }
    }
  }

  /** Decimal digits are not whitespace and hold no other character. */
  lemma DigitsLack(d: string, c: char)
    requires AllDigits(d) && !IsDigit(c)
    ensures Lacks(d, c) && !IsSpace(d[0]) && !IsSpace(d[|d| - 1])
  {
  }

  /** A pattern whose first character does not occur in `a` is found first
      right after `a`. */
  lemma FindAfter(a: string, p: string, b: string)
    requires p != [] && Lacks(a, p[0])
    ensures Find(a + p + b, p) == Some(|a|)
  {
    var s := a + p + b;
    assert OccursAt(s, p, |a|) by {
      assert s[|a|..|a| + |p|] == p;
    }
    forall k | 0 <= k < |a|
      ensures !OccursAt(s, p, k)
    {
      assert s[k..k + |p|][0] == a[k];
    }
  }

  /** A pattern whose first character does not occur in `s` is not found. */
  lemma FindMissing(s: string, p: string)
    requires p != [] && Lacks(s, p[0])
    ensures Find(s, p) == None
  {
    forall k | 0 <= k && k + |p| <= |s|
      ensures !OccursAt(s, p, k)
    {
      assert s[k..k + |p|][0] == s[k];
    }
  }

  /** Replacing a pattern that occurs once, at the very start, by nothing
      leaves what follows it. */
  lemma ReplaceLeading(t: string, pat: string, x: string)
    requires pat != [] && t == pat + x
    requires Lacks(x, pat[0])
    ensures ReplaceAll(t, pat, []) == x
  {
    assert t == [] + pat + x;
    FindAfter([], pat, x);
    FindMissing(x, pat);
    assert t[|pat|..] == x;
  }

  /** Splitting at a character that occurs exactly once gives two pieces. */
  lemma SplitOnce(z: string, a: string, sep: char, b: string)
    requires z == a + [sep] + b
    requires Lacks(a, sep) && Lacks(b, sep)
    ensures Split(z, [sep]) == [a, b]
  {
    FindAfter(a, [sep], b);
    FindMissing(b, [sep]);
    assert z[..|a|] == a && z[|a| + 1..] == b;
  }

  function Join(parts: seq<string>, sep: string): string
  {
    if |parts| == 0 then []
    else if |parts| == 1 then parts[0]
    else parts[0] + sep + Join(parts[1..], sep)
  }

  /** `s.replace(pat, rep)` for a non-empty `pat`. */
  function ReplaceAll(s: string, pat: string, rep: string): string
    requires pat != []
    decreases |s|
  {
    match Find(s, pat)
    case None => s
    case Some(i) => s[..i] + rep + ReplaceAll(s[i + |pat|..], pat, rep)
  }

  /** Drops every occurrence of the character `c`. */
  function RemoveChar(s: string, c: char): (r: string)
    ensures forall i :: 0 <= i < |r| ==> r[i] != c
    ensures |r| <= |s|
  {
    if s == [] then [] else (if s[0] == c then [] else [s[0]]) + RemoveChar(s[1..], c)
  }

  // ---------------------------------------------------------------------
  // Integers and their decimal text

  function DigitValue(c: char): nat requires IsDigit(c) { c as int - '0' as int }

  function DigitsValue(s: string): nat
    requires forall i :: 0 <= i < |s| ==> IsDigit(s[i])
  {
    if s == [] then 0 else 10 * DigitsValue(s[..|s| - 1]) + DigitValue(s[|s| - 1])
  }

  predicate AllDigits(s: string) { s != [] && forall i :: 0 <= i < |s| ==> IsDigit(s[i]) }

  /** Python's `int(text)` for base-10 text: surrounding whitespace, an
      optional sign, then ASCII digits; anything else is a ValueError. */
  function ParseInt(text: string): (r: Result<int>)
    ensures r.Err? ==> r.error == ValueError
  {
    var t := Strip(text);
    if t == [] then Err(ValueError)
    else if t[0] == '-' || t[0] == '+' then
      if AllDigits(t[1..]) then
        Ok(if t[0] == '-' then 0 - DigitsValue(t[1..]) else DigitsValue(t[1..]))
      else Err(ValueError)
    else if AllDigits(t) then Ok(DigitsValue(t))
    else Err(ValueError)
  }

  function NatToString(n: nat): (r: string)
    ensures AllDigits(r)
    decreases n
  {
    if n < 10 then [(n + '0' as int) as char]
    else NatToString(n / 10) + [(n % 10 + '0' as int) as char]
  }

  function IntToString(n: int): string
  {
    if n < 0 then "-" + NatToString(-n) else NatToString(n)
  }

  lemma {:induction false} DigitsOfNatToString(n: nat)
    ensures DigitsValue(NatToString(n)) == n
    decreases n
  {
    var s := NatToString(n);
    if n >= 10 {
      DigitsOfNatToString(n / 10);
      assert s[..|s| - 1] == NatToString(n / 10);
    }
  }

  /** `int(str(n))` gives back `n`. */
  lemma ParseIntOfIntToString(n: int)
    ensures ParseInt(IntToString(n)) == Ok(n)
  {
    var s := IntToString(n);
    var m: nat := if n < 0 then -n else n;
    var digits := NatToString(m);
    DigitsOfNatToString(m);
    DigitsLack(digits, '-');
    if n < 0 {
      assert s == "-" + digits;
      assert s[0] == '-' && s[|s| - 1] == digits[|digits| - 1];
      StripUnchanged(s);
      assert s[1..] == digits;
    } else {
      StripUnchanged(digits);
    }
  }

  /** Sorted with no repeats: what `sorted()` gives for a set of integers. */
  predicate Increasing(xs: seq<int>)
  {
    forall i, j :: 0 <= i < j < |xs| ==> xs[i] < xs[j]
  }

  /** `min(xs)` on a non-empty list. */
  function SeqMin(xs: seq<int>): (r: int)
    requires |xs| > 0
    ensures r in xs && forall i :: 0 <= i < |xs| ==> r <= xs[i]
  {
    if |xs| == 1 then xs[0] else MinI(xs[0], SeqMin(xs[1..]))
  }

  /** `sum(1 for p in xs if p < c)`. */
  function CountBelow(xs: seq<int>, c: int): (r: nat)
    ensures r <= |xs|
  {
    if xs == [] then 0 else (if xs[0] < c then 1 else 0) + CountBelow(xs[1..], c)
  }

  /** `max(xs)` on a non-empty list. */
  function SeqMax(xs: seq<int>): (r: int)
    requires |xs| > 0
    ensures r in xs && forall i :: 0 <= i < |xs| ==> xs[i] <= r
  {
    if |xs| == 1 then xs[0] else MaxI(xs[0], SeqMax(xs[1..]))
  }

  /** A set without members is the empty set. */
  lemma NoneEmpty(s: set<int>)
    requires forall y :: y !in s
    ensures s == {}
  {
    var empty: set<int> := {};
    assert forall y :: y in s <==> y in empty;
  }

  /** Some element of a non-empty set. */
  lemma Pick(s: set<int>) returns (y: int)
    requires s != {}
    ensures y in s
  {
    if forall e :: e !in s {
      NoneEmpty(s);
    }
    var e :| e in s;
    y := e;
  }

  /** A non-empty finite set of integers has a least element. */
  lemma {:induction false} SetLeast(s: set<int>) returns (m: int)
    requires s != {}
    ensures m in s && forall x :: x in s ==> m <= x
    decreases |s|
  {
    var y := Pick(s);
    if s == {y} {
      m := y;
    } else {
      var rest := SetLeast(s - {y});
      m := MinI(y, rest);
      forall x | x in s
        ensures m <= x
      {
        if x != y {
          assert x in s - {y};
        }
      }
    }
  }

  /** `sorted(s)` for a set of integers: the loop takes the least element
      left each time. */
  method SortedSet(s: set<int>) returns (r: seq<int>)
    ensures Increasing(r)
    ensures forall x :: x in r <==> x in s
  {
    r := [];
    var rest := s;
    while rest != {}
      invariant rest <= s
      invariant Increasing(r)
      invariant forall x :: x in r <==> x in s && x !in rest
      invariant forall i, x :: 0 <= i < |r| && x in rest ==> r[i] < x
      decreases |rest|
    {
      ghost var least := SetLeast(rest);
      var m :| m in rest && forall x :: x in rest ==> m <= x;
      r := r + [m];
      rest := rest - {m};
    }
  }

  /** No element occurs twice. */
  predicate Distinct<T(==)>(s: seq<T>)
  {
    forall a, b :: 0 <= a < b < |s| ==> s[a] != s[b]
  }

  // ---------------------------------------------------------------------
  // Recent lists

  /** The position of the first copy of `x`. */
  function FirstIndex<T(==)>(xs: seq<T>, x: T): (k: nat)
    requires x in xs
    ensures k < |xs| && xs[k] == x
    ensures forall j :: 0 <= j < k ==> xs[j] != x
  {
    if xs[0] == x then 0 else 1 + FirstIndex(xs[1..], x)
  }

  /** `xs.remove(x)` behind an `x in xs` test: the first copy of `x` goes,
      and a list without `x` comes back as it is. */
  function RemoveOne<T(==)>(xs: seq<T>, x: T): (r: seq<T>)
    ensures x !in xs ==> r == xs
  {
    if xs == [] then []
    else if xs[0] == x then xs[1..]
    else [xs[0]] + RemoveOne(xs[1..], x)
  }

  /** Removing cuts the list at the first copy of `x` and closes the gap. */
  lemma {:induction false} RemoveOneSplit<T>(xs: seq<T>, x: T)
    requires x in xs
    ensures var k := FirstIndex(xs, x);
      RemoveOne(xs, x) == xs[..k] + xs[k + 1..]
  {
    if xs[0] != x {
      assert x in xs[1..] by { assert xs == [xs[0]] + xs[1..]; }
      RemoveOneSplit(xs[1..], x);
      ConsGap(xs, FirstIndex(xs[1..], x));
    }
  }

  /** Closing the gap at `k` in the tail of `xs` closes the gap at `k + 1`
      in `xs`. */
  lemma ConsGap<T>(xs: seq<T>, k: nat)
    requires k + 1 < |xs|
    ensures [xs[0]] + (xs[1..][..k] + xs[1..][k + 1..]) == xs[..k + 1] + xs[k + 2..]
  {
    assert [xs[0]] + xs[1..][..k] == xs[..k + 1];
    assert xs[1..][k + 1..] == xs[k + 2..];
  }

  /** From a list without repeats, removing `x` leaves exactly the other
      entries, still without repeats. */
  lemma RemoveOneDistinct<T>(xs: seq<T>, x: T)
    requires Distinct(xs)
    ensures var r := RemoveOne(xs, x);
      Distinct(r) && x !in r && forall y :: y in r <==> y in xs && y != x
  {
    if x in xs {
      RemoveOneSplit(xs, x);
      var k := FirstIndex(xs, x);
      var r := RemoveOne(xs, x);
      assert |r| == |xs| - 1;
      assert forall i :: 0 <= i < k ==> r[i] == xs[i];
      assert forall i :: k <= i < |r| ==> r[i] == xs[i + 1];
      forall y | y in xs && y != x
        ensures y in r
      {
        var j :| 0 <= j < |xs| && xs[j] == y;
        if j < k {
          assert r[j] == y;
        } else {
          assert r[j - 1] == y;
        }
      }
    }
  }

  /** `if x in xs: xs.remove(x)`, `xs.insert(0, x)`, `xs = xs[:cap]`. */
  function PushFront<T(==)>(xs: seq<T>, x: T, cap: nat): (r: seq<T>)
    ensures |r| <= cap
  {
    var moved := [x] + RemoveOne(xs, x);
    if |moved| <= cap then moved else moved[..cap]
  }

  /** The pushed entry comes first, the others follow in their old order
      without it, and a list without repeats keeps none. */
  lemma PushFrontFirst<T>(xs: seq<T>, x: T, cap: nat)
    requires cap >= 1
    ensures var r := PushFront(xs, x, cap);
      |r| == MinI(cap, |RemoveOne(xs, x)| + 1) && r[0] == x
      && r[1..] == RemoveOne(xs, x)[..|r| - 1]
    ensures Distinct(xs) ==> Distinct(PushFront(xs, x, cap))
  {
    var rest := RemoveOne(xs, x);
    var moved := [x] + rest;
    var r := PushFront(xs, x, cap);
    if |moved| <= cap {
      assert r == moved && r[1..] == rest[..|r| - 1];
    } else {
      assert r == moved[..cap] && |r| == cap;
      assert r[1..] == rest[..cap - 1];
    }
    if Distinct(xs) {
      RemoveOneDistinct(xs, x);
      assert Distinct(moved) by {
        forall a, b | 0 <= a < b < |moved|
          ensures moved[a] != moved[b]
        {
          assert moved[b] == rest[b - 1];
          if a > 0 {
            assert moved[a] == rest[a - 1];
          }
        }
      }
    }
  }

  // ---------------------------------------------------------------------
  // Hexadecimal digits

  /** The value of one hexadecimal digit of either case. */
  function HexValue(c: char): (r: Option<nat>)
    ensures r.Some? ==> r.value < 16
  {
    if '0' <= c <= '9' then Some(c as int - '0' as int)
    else if 'a' <= c <= 'f' then Some(c as int - 'a' as int + 10)
    else if 'A' <= c <= 'F' then Some(c as int - 'A' as int + 10)
    else None
  }

  /** The lower-case digit `format(n, 'x')` writes for `n < 16`. */
  function HexDigit(n: nat): (c: char)
    requires n < 16
    ensures HexValue(c) == Some(n)
  {
    if n < 10 then ('0' as int + n) as char else ('a' as int + n - 10) as char
  }

  /** `int(s, 16)` for a two-character string of hexadecimal digits. */
  function ParseHex2(s: string): (r: Option<nat>)
    ensures r.Some? ==> r.value < 256
  {
    if |s| != 2 then None
    else match (HexValue(s[0]), HexValue(s[1]))
      case (Some(hi), Some(lo)) => Some(hi * 16 + lo)
      case _ => None
  }

  /** `f"{b:02x}"`: two lower-case digits, read back by `ParseHex2`. */
  function Hex2(b: nat): (s: string)
    requires b < 256
    ensures |s| == 2 && ParseHex2(s) == Some(b)
  {
    [HexDigit(b / 16), HexDigit(b % 16)]
  }

  // ---------------------------------------------------------------------
  // Splitting numbers at a power of two

  /** Dividing `q * 65536 + r` by 65536 leaves `q` when `r` is a low part. */
  lemma SplitAt65536(q: int, r: int)
    requires 0 <= r < 65536
    ensures (q * 65536 + r) / 65536 == q
  {
  }

  /** Dividing `q * 256 + r` by 256 leaves `q` and remainder `r` when `r`
      is one byte. */
  lemma SplitAt256(q: int, r: int)
    requires 0 <= r < 256
    ensures (q * 256 + r) / 256 == q && (q * 256 + r) % 256 == r
  {
  }

  /** Dividing `q * 16 + r` by 16 leaves `q` when `r` is a low part. */
  lemma SplitAt16(q: int, r: int)
    requires 0 <= r < 16
    ensures (q * 16 + r) / 16 == q
  {
  }

  /** Dividing `q * 2 + r` by 2 leaves `q` and remainder `r` when `r` is one bit. */
  lemma SplitAt2(q: int, r: int)
    requires 0 <= r < 2
    ensures (q * 2 + r) / 2 == q && (q * 2 + r) % 2 == r
  {
  }
}
