/** Shared vocabulary: optional values, the scalar values that fill test-case
    maps, and the handful of Python/JavaScript string operations the core uses
    (lower-casing, substring tests, joining, splitting, trimming, decimal
    rendering of counters). */
module Common {

  datatype Option<+T> = None | Some(value: T)

  /** A scalar as it appears in a test case's `inputs` or `expected_output`
      map: Python `None`, a bool, a number or a string. */
  datatype Value = VNull | VBool(b: bool) | VNum(n: real) | VStr(s: string)

  /** Python's `isinstance(v, (int, float))` and the number it stands for:
      `bool` is a subclass of `int`, so True and False count as 1 and 0. */
  function NumericOf(v: Value): (r: Option<real>)
    ensures r.Some? <==> (v.VNum? || v.VBool?)
  {
    match v
    case VNum(n) => Some(n)
    case VBool(b) => Some(if b then 1.0 else 0.0)
    case _ => None
  }

  /** Python `int(x)` on a float: truncation toward zero. */
  function Trunc(x: real): (r: int)
    ensures x >= 0.0 ==> r as real <= x < r as real + 1.0
    ensures x < 0.0 ==> r as real - 1.0 < x <= r as real
  {
    if x >= 0.0 then x.Floor else -((-x).Floor)
  }

  function LowerChar(c: char): char
  {
    if 'A' <= c <= 'Z' then (c as int + 32) as char else c
  }

  /** `str.lower()` / `toLowerCase()` restricted to ASCII letters. */
  function Lower(s: string): (r: string)
    ensures |r| == |s|
  {
    if s == [] then [] else [LowerChar(s[0])] + Lower(s[1..])
  }

  /** Python's `sub in s`: `sub` occurs as a contiguous block of `s`. */
  predicate Contains(s: string, sub: string)
    decreases |s|
  {
    sub <= s || (s != [] && Contains(s[1..], sub))
  }

  /** `any(kw in s for kw in kws)` */
  predicate ContainsAny(s: string, kws: seq<string>)
  {
    exists i :: 0 <= i < |kws| && Contains(s, kws[i])
  }

  /** Python's `x in [..]` on a list of strings. */
  predicate OneOf(s: string, options: seq<string>)
  {
    s in options
  }

  /** `sep.join(parts)` / `parts.join(sep)`. */
  function Join(parts: seq<string>, sep: string): string
  {
    if |parts| == 0 then ""
    else if |parts| == 1 then parts[0]
    else parts[0] + sep + Join(parts[1..], sep)
  }

  function DigitChar(d: nat): char
    requires d < 10
  {
    ('0' as int + d) as char
  }

  /** Python `str(n)` / JS template rendering of a non-negative integer. */
  function NatToString(n: nat): (r: string)
    ensures |r| >= 1
    ensures (n < 10) <==> (|r| == 1)
  {
    if n < 10 then [DigitChar(n)] else NatToString(n / 10) + [DigitChar(n % 10)]
  }

  /** Decimal rendering is injective: two counters with the same text are equal. */
  lemma {:induction false} NatToStringInjective(a: nat, b: nat)
    requires NatToString(a) == NatToString(b)
    ensures a == b
  {
    if a >= 10 && b >= 10 {
      var sa, sb := NatToString(a), NatToString(b);
      assert sa[|sa| - 1] == DigitChar(a % 10) && sb[|sb| - 1] == DigitChar(b % 10);
      assert a % 10 == b % 10;
      assert sa[..|sa| - 1] == NatToString(a / 10);
      assert sb[..|sb| - 1] == NatToString(b / 10);
      NatToStringInjective(a / 10, b / 10);
    } else {
      assert NatToString(a)[0] == DigitChar(a) && NatToString(b)[0] == DigitChar(b);
    }
  }

  predicate IsDigit(c: char)
  {
    '0' <= c <= '9'
  }

  predicate AllDigits(d: string)
  {
    forall i :: 0 <= i < |d| ==> IsDigit(d[i])
  }

  /** The value of a run of decimal digits. */
  function DigitsValue(d: string): nat
    requires AllDigits(d)
  {
    if d == [] then 0
    else DigitsValue(d[..|d| - 1]) * 10 + (d[|d| - 1] as int - '0' as int)
  }

  /** No element occurs twice. */
  predicate NoDuplicates<T(==)>(s: seq<T>)
  {
    forall i, j :: 0 <= i < j < |s| ==> s[i] != s[j]
  }

  /** JavaScript `s.split(d)` for a one-character separator. */
  function Split(s: string, d: char): (r: seq<string>)
    ensures |r| >= 1
    decreases |s|
  {
    if s == [] then [""]
    else if s[0] == d then [""] + Split(s[1..], d)
    else
      var rest := Split(s[1..], d);
      [[s[0]] + rest[0]] + rest[1..]
  }

  /** Splitting and joining back with the same separator gives the text back. */
  lemma {:induction false} SplitJoin(s: string, d: char)
    ensures Join(Split(s, d), [d]) == s
    decreases |s|
  {
    if s != [] {
      var rest := Split(s[1..], d);
      SplitJoin(s[1..], d);
      if s[0] != d {
        var r := Split(s, d);
        assert r == [[s[0]] + rest[0]] + rest[1..];
        if |rest| == 1 {
          assert Join(r, [d]) == [s[0]] + rest[0];
        } else {
          assert r[1..] == rest[1..];
          assert Join(r, [d]) == [s[0]] + rest[0] + [d] + Join(rest[1..], [d]);
          assert Join(rest, [d]) == rest[0] + [d] + Join(rest[1..], [d]);
        }
      } else {
        assert Split(s, d) == [""] + rest;
        assert Split(s, d)[1..] == rest;
      }
    }
  }

  /** No piece of a split contains the separator. */
  lemma {:induction false} SplitPiecesFree(s: string, d: char)
    ensures forall i :: 0 <= i < |Split(s, d)| ==> d !in Split(s, d)[i]
    decreases |s|
  {
    if s != [] {
      SplitPiecesFree(s[1..], d);
    }
  }

  /** The whitespace JavaScript's `trim()` removes, restricted to ASCII. */
  predicate IsSpace(c: char)
  {
    c == ' ' || c == '\t' || c == '\n' || c == '\r' || c == '\U{B}' || c == '\U{C}'
  }

  function TrimStart(s: string): (r: string)
    ensures |r| <= |s| && r == s[|s| - |r|..]
    ensures r == [] || !IsSpace(r[0])
  {
    if s != [] && IsSpace(s[0]) then TrimStart(s[1..]) else s
  }

  function TrimEnd(s: string): (r: string)
    ensures |r| <= |s| && r == s[..|r|]
    ensures r == [] || !IsSpace(r[|r| - 1])
  {
    if s != [] && IsSpace(s[|s| - 1]) then TrimEnd(s[..|s| - 1]) else s
  }

  /** JavaScript `s.trim()`. */
  function Trim(s: string): (r: string)
  {
    TrimEnd(TrimStart(s))
  }

  lemma TrimTrimmed(s: string)
    ensures Trim(s) == [] || (!IsSpace(Trim(s)[0]) && !IsSpace(Trim(s)[|Trim(s)| - 1]))
    ensures forall c :: c in Trim(s) ==> c in s
  {
    TrimEnds(s);
    var t := TrimStart(s);
    var r := TrimEnd(t);
    forall c | c in r
      ensures c in s
    {
      var i :| 0 <= i < |r| && r[i] == c;
      assert t[i] == c;
      assert s[|s| - |t| + i] == c;
    }
  }

  /** Neither end of a trimmed text is a space. */
  lemma TrimEnds(s: string)
    ensures Trim(s) == [] || (!IsSpace(Trim(s)[0]) && !IsSpace(Trim(s)[|Trim(s)| - 1]))
  {
    var t := TrimStart(s);
    var r := TrimEnd(t);
    if r != [] {
      assert r[0] == t[0];
    }
  }

  /** A block found in a suffix of `s` is found in `s`. */
  lemma {:induction false} ContainsDrop(s: string, k: nat, sub: string)
    requires k <= |s| && Contains(s[k..], sub)
    ensures Contains(s, sub)
    decreases k
  {
    if k > 0 {
      assert s[1..][k - 1..] == s[k..];
      ContainsDrop(s[1..], k - 1, sub);
    }
  }

  /** Whoever contains `a + b` contains `b`. */
  lemma {:induction false} ContainsSuffix(s: string, a: string, b: string)
    requires Contains(s, a + b)
    ensures Contains(s, b)
    decreases |s|
  {
    if a + b <= s {
      assert b <= s[|a|..] by {
        assert s[|a|..][..|b|] == (a + b)[|a|..];
      }
      ContainsDrop(s, |a|, b);
    } else {
      ContainsSuffix(s[1..], a, b);
    }
  }

  /** A Python dict from names to scalars, in insertion order. */
  type Entries = seq<(string, Value)>

  /** `d.get(k)`: the value of the first entry with key `k`. */
  function Lookup(e: Entries, k: string): (r: Option<Value>)
    ensures r.Some? <==> exists i :: 0 <= i < |e| && e[i].0 == k
  {
    if e == [] then None
    else if e[0].0 == k then Some(e[0].1)
    else
      assert forall i :: 1 <= i < |e| ==> e[i] == e[1..][i - 1];
      Lookup(e[1..], k)
  }

  /** `d[k] = v`: an existing key keeps its place and takes the new value,
      a new key goes to the end. */
  function Put(e: Entries, k: string, v: Value): Entries
  {
    if e == [] then [(k, v)]
    else if e[0].0 == k then [(k, v)] + e[1..]
    else [e[0]] + Put(e[1..], k, v)
  }

  /** After `d[k] = v`, `k` reads `v`, every other key reads as before, and
      the dict grows only when `k` is new. */
  lemma {:induction false} PutLookup(e: Entries, k: string, v: Value)
    ensures Lookup(Put(e, k, v), k) == Some(v)
    ensures forall j :: j != k ==> Lookup(Put(e, k, v), j) == Lookup(e, j)
    ensures |Put(e, k, v)| == if Lookup(e, k).Some? then |e| else |e| + 1
  {
    if e != [] && e[0].0 != k {
      PutLookup(e[1..], k, v);
    }
  }

  /** The dict as an unordered map. */
  function ToMap(e: Entries): map<string, Value>
  {
    if e == [] then map[] else ToMap(e[1..])[e[0].0 := e[0].1]
  }

  /** The map has the dict's keys, each with the value the dict gives it. */
  lemma {:induction false} ToMapLookup(e: Entries)
    ensures forall k :: k in ToMap(e) <==> Lookup(e, k).Some?
    ensures forall k :: k in ToMap(e) ==> Lookup(e, k) == Some(ToMap(e)[k])
  {
    if e != [] {
      ToMapLookup(e[1..]);
    }
  }

  // ---------------------------------------------------------------------
  // Form idioms of the frontend
  // ---------------------------------------------------------------------

  /** What a form's submit or "continue" handler does: call its `onNext`
      callback, or show an alert and stay. */
  datatype Guard = Proceed | Alert(message: string)

  /** Nothing for `trim()` to remove. */
  predicate Trimmed(t: string)
  {
    t == [] || (!IsSpace(t[0]) && !IsSpace(t[|t| - 1]))
  }

  lemma TrimIdentity(t: string)
    requires Trimmed(t)
    ensures Trim(t) == t
  {
  }

  /** `.map(v => v.trim()).filter(v => v)`: the trimmed pieces that are not empty. */
  function NonBlank(parts: seq<string>): seq<string>
  {
    if parts == [] then []
    else
      var t := Trim(parts[0]);
      if t == "" then NonBlank(parts[1..]) else [t] + NonBlank(parts[1..])
  }

  /** The kept items are trimmed and non-empty, and no more than the pieces. */
  lemma {:induction false} NonBlankItems(parts: seq<string>)
    ensures |NonBlank(parts)| <= |parts|
    ensures forall i :: 0 <= i < |NonBlank(parts)| ==> NonBlank(parts)[i] != "" && Trimmed(NonBlank(parts)[i])
  {
    if parts != [] {
      var t := Trim(parts[0]);
      var rest := NonBlank(parts[1..]);
      NonBlankItems(parts[1..]);
      TrimEnds(parts[0]);
      if t != "" {
        var r := [t] + rest;
        assert NonBlank(parts) == r;
        forall i | 0 <= i < |r|
          ensures r[i] != "" && Trimmed(r[i])
        {
          if i > 0 {
            assert r[i] == rest[i - 1];
          }
        }
      }
    }
  }

  /** `s ? s.split(',').map(v => v.trim()).filter(v => v) : null`, the list
      fields of the input and output forms. A non-empty text of blanks and
      commas gives the empty list, not null. */
  function CommaList(s: string): (r: Option<seq<string>>)
    ensures r.None? <==> s == ""
    ensures r.Some? ==> forall i :: 0 <= i < |r.value| ==> r.value[i] != "" && Trimmed(r.value[i])
  {
    if s == "" then None
    else
      NonBlankItems(Split(s, ','));
      Some(NonBlank(Split(s, ',')))
  }

  /** No list item produced from a text contains a comma. */
  lemma {:induction false} NonBlankKeepsOut(parts: seq<string>, d: char)
    requires forall i :: 0 <= i < |parts| ==> d !in parts[i]
    ensures forall i :: 0 <= i < |NonBlank(parts)| ==> d !in NonBlank(parts)[i]
  {
    if parts != [] {
      TrimTrimmed(parts[0]);
      NonBlankKeepsOut(parts[1..], d);
      var t := Trim(parts[0]);
      var r := NonBlank(parts);
      var rest := NonBlank(parts[1..]);
      assert r == (if t == "" then [] else [t]) + rest;
    }
  }

  lemma CommaListItemsCommaFree(s: string)
    requires s != ""
    ensures forall i :: 0 <= i < |CommaList(s).value| ==> ',' !in CommaList(s).value[i]
  {
    SplitPiecesFree(s, ',');
    NonBlankKeepsOut(Split(s, ','), ',');
  }

  lemma {:induction false} SplitWithout(s: string, d: char)
    requires d !in s
    ensures Split(s, d) == [s]
    decreases |s|
  {
    if s != [] {
      SplitWithout(s[1..], d);
      assert [s[0]] + s[1..] == s;
    }
  }

  /** A piece free of the separator, then the separator, splits off as one piece. */
  lemma {:induction false} SplitFirst(a: string, rest: string, d: char)
    requires d !in a
    ensures Split(a + [d] + rest, d) == [a] + Split(rest, d)
    decreases |a|
  {
    if a == [] {
      assert a + [d] + rest == [d] + rest;
      assert ([d] + rest)[1..] == rest;
    } else {
      var s := a + [d] + rest;
      assert s[1..] == a[1..] + [d] + rest;
      SplitFirst(a[1..], rest, d);
      assert [a[0]] + a[1..] == a;
    }
  }

  /** Joining separator-free pieces and splitting again gives the pieces back. */
  lemma {:induction false} SplitJoinInverse(items: seq<string>, d: char)
    requires |items| > 0
    requires forall i :: 0 <= i < |items| ==> d !in items[i]
    ensures Split(Join(items, [d]), d) == items
  {
    if |items| == 1 {
      SplitWithout(items[0], d);
    } else {
      SplitJoinInverse(items[1..], d);
      SplitFirst(items[0], Join(items[1..], [d]), d);
      assert [items[0]] + items[1..] == items;
    }
  }

  lemma NonBlankCons(x: string, rest: seq<string>)
    requires x != "" && Trimmed(x)
    ensures NonBlank([x] + rest) == [x] + NonBlank(rest)
  {
    TrimIdentity(x);
    assert ([x] + rest)[1..] == rest;
  }

  lemma {:induction false} NonBlankIdentity(items: seq<string>)
    requires forall i :: 0 <= i < |items| ==> items[i] != "" && Trimmed(items[i])
    ensures NonBlank(items) == items
  {
    if items != [] {
      assert [items[0]] + items[1..] == items;
      NonBlankCons(items[0], items[1..]);
      NonBlankIdentity(items[1..]);
    }
  }

  /** The list fields read back what a comma-joined list of clean items
      says: `CommaList` inverts `Join(items, ",")`. */
  lemma CommaListJoin(items: seq<string>)
    requires |items| > 0
    requires forall i :: 0 <= i < |items| ==> items[i] != "" && Trimmed(items[i]) && ',' !in items[i]
    ensures CommaList(Join(items, ",")) == Some(items)
  {
    SplitJoinInverse(items, ',');
    NonBlankIdentity(items);
    assert |Join(items, ",")| >= |items[0]| > 0;
  }

  /** The elements of `xs` whose position, counted from `from`, is not `index`. */
  function DropPosition<T>(xs: seq<T>, index: int, from: int): seq<T>
  {
    if xs == [] then []
    else (if from == index then [] else [xs[0]]) + DropPosition(xs[1..], index, from + 1)
  }

  /** `list.filter((_, i) => i !== index)`. */
  function RemoveAt<T>(xs: seq<T>, index: int): seq<T>
  {
    DropPosition(xs, index, 0)
  }

  lemma {:induction false} DropPositionSpec<T>(xs: seq<T>, index: int, from: int)
    ensures from <= index < from + |xs| ==>
      DropPosition(xs, index, from) == xs[..index - from] + xs[index - from + 1..]
    ensures !(from <= index < from + |xs|) ==> DropPosition(xs, index, from) == xs
  {
    if xs != [] {
      DropPositionSpec(xs[1..], index, from + 1);
      if from == index {
        assert xs[..0] + xs[1..] == xs[1..];
      } else if from < index < from + |xs| {
        assert xs[..index - from] == [xs[0]] + xs[1..][..index - from - 1];
        assert xs[index - from + 1..] == xs[1..][index - from..];
      } else {
        assert [xs[0]] + xs[1..] == xs;
      }
    }
  }

  /** Removing position `index` drops exactly that element and keeps the
      others in order; a position outside the list changes nothing. */
  lemma RemoveAtSpec<T>(xs: seq<T>, index: int)
    ensures 0 <= index < |xs| ==> RemoveAt(xs, index) == xs[..index] + xs[index + 1..]
    ensures 0 <= index < |xs| ==> |RemoveAt(xs, index)| == |xs| - 1
    ensures !(0 <= index < |xs|) ==> RemoveAt(xs, index) == xs
  {
    DropPositionSpec(xs, index, 0);
  }
}
