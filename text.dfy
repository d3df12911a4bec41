/** Strings, characters, searches and list helpers shared by the whole model.
    Strings are sequences of Unicode scalar values; letter case is folded for
    ASCII letters only. */
module Text {

  datatype Option<+T> = None | Some(value: T)

  // ---------------------------------------------------------------- characters

  predicate IsDigit(c: char) { '0' <= c <= '9' }

  predicate IsAsciiLetter(c: char) { 'a' <= c <= 'z' || 'A' <= c <= 'Z' }

  /** A "word" character for the regular-expression anchor `\b`. */
  predicate IsWordChar(c: char) { IsAsciiLetter(c) || IsDigit(c) || c == '_' }

  /** The characters a browser's `\s` and `String.prototype.trim` treat as white space. */
  predicate IsJsSpace(c: char)
  {
    c == ' ' || c == '\t' || c == '\n' || c == '\r' || c == '\U{000B}' || c == '\U{000C}'
    || c == '\U{00A0}' || c == '\U{1680}' || ('\U{2000}' <= c <= '\U{200A}')
    || c == '\U{2028}' || c == '\U{2029}' || c == '\U{202F}' || c == '\U{205F}'
    || c == '\U{3000}' || c == '\U{FEFF}'
  }

  /** The characters Python's `str.strip()` removes. */
  predicate IsPySpace(c: char)
  {
    c == ' ' || c == '\t' || c == '\n' || c == '\r' || c == '\U{000B}' || c == '\U{000C}'
    || ('\U{001C}' <= c <= '\U{001F}') || c == '\U{0085}' || c == '\U{00A0}' || c == '\U{1680}'
    || ('\U{2000}' <= c <= '\U{200A}') || c == '\U{2028}' || c == '\U{2029}'
    || c == '\U{202F}' || c == '\U{205F}' || c == '\U{3000}'
  }

  /** Which runtime's notion of white space a trim uses. */
  datatype SpaceSet = JsSpace | PySpace

  predicate IsSpace(ws: SpaceSet, c: char)
  {
    match ws
    case JsSpace => IsJsSpace(c)
    case PySpace => IsPySpace(c)
  }

  /** The characters a regular-expression `.` refuses to match. */
  predicate IsLineTerminator(c: char)
  {
    c == '\n' || c == '\r' || c == '\U{2028}' || c == '\U{2029}'
  }

  function LowerChar(c: char): char
  {
    if 'A' <= c <= 'Z' then (c as int + 32) as char else c
  }

  function UpperChar(c: char): char
  {
    if 'a' <= c <= 'z' then (c as int - 32) as char else c
  }

  function Lower(s: string): (r: string)
    ensures |r| == |s|
    ensures forall i :: 0 <= i < |s| ==> r[i] == LowerChar(s[i])
  {
    seq(|s|, i requires 0 <= i < |s| => LowerChar(s[i]))
  }

  function Upper(s: string): (r: string)
    ensures |r| == |s|
    ensures forall i :: 0 <= i < |s| ==> r[i] == UpperChar(s[i])
  {
    seq(|s|, i requires 0 <= i < |s| => UpperChar(s[i]))
  }

  lemma LowerSlice(s: string, i: nat, j: nat)
    requires i <= j <= |s|
    ensures Lower(s)[i..j] == Lower(s[i..j])
  {
  }

  // ---------------------------------------------------------------- trimming

  /** Drops the leading white space. */
  function TrimStart(ws: SpaceSet, s: string): (r: string)
    ensures |r| <= |s| && r == s[|s| - |r|..]
    ensures forall k :: 0 <= k < |s| - |r| ==> IsSpace(ws, s[k])
    ensures r != [] ==> !IsSpace(ws, r[0])
  {
    if |s| > 0 && IsSpace(ws, s[0]) then TrimStart(ws, s[1..]) else s
  }

  /** Drops the trailing white space. */
  function TrimEnd(ws: SpaceSet, s: string): (r: string)
    ensures |r| <= |s| && r == s[..|r|]
    ensures forall k :: |r| <= k < |s| ==> IsSpace(ws, s[k])
    ensures r != [] ==> !IsSpace(ws, r[|r| - 1])
  {
    if |s| > 0 && IsSpace(ws, s[|s| - 1]) then TrimEnd(ws, s[..|s| - 1]) else s
  }

  /** `trim()` / `strip()`: the slice of `s` between its leading and trailing white space. */
  function TrimBy(ws: SpaceSet, s: string): string
  {
    TrimEnd(ws, TrimStart(ws, s))
  }

  /** JavaScript's `String.prototype.trim`. */
  function Trim(s: string): string { TrimBy(JsSpace, s) }

  /** The result of a trim is a slice of the input, cut only at white space, and
      neither starts nor ends with white space. */
  lemma TrimShape(ws: SpaceSet, s: string)
    ensures var i, r := |s| - |TrimStart(ws, s)|, TrimBy(ws, s);
      i + |r| <= |s| && r == s[i..i + |r|]
      && (forall k :: 0 <= k < i ==> IsSpace(ws, s[k]))
      && (forall k :: i + |r| <= k < |s| ==> IsSpace(ws, s[k]))
    ensures var r := TrimBy(ws, s); r != [] ==> !IsSpace(ws, r[0]) && !IsSpace(ws, r[|r| - 1])
  {
    TrimSlice(ws, s);
    TrimTrailing(ws, s);
    TrimEnds(ws, s);
  }

  lemma TrimSlice(ws: SpaceSet, s: string)
    ensures var i, r := |s| - |TrimStart(ws, s)|, TrimBy(ws, s);
      i + |r| <= |s| && r == s[i..i + |r|]
  {
    var t := TrimStart(ws, s);
    var r := TrimEnd(ws, t);
    var i := |s| - |t|;
    SliceOfSuffix(s, i, |r|);
  }

  lemma SliceOfSuffix<T>(s: seq<T>, i: nat, n: nat)
    requires i + n <= |s|
    ensures s[i..][..n] == s[i..i + n]
  {
  }

  lemma TrimTrailing(ws: SpaceSet, s: string)
    ensures var i, r := |s| - |TrimStart(ws, s)|, TrimBy(ws, s);
      forall k :: i + |r| <= k < |s| ==> IsSpace(ws, s[k])
  {
    var t := TrimStart(ws, s);
    var r := TrimEnd(ws, t);
    var i := |s| - |t|;
    assert t == s[i..];
    forall k | i + |r| <= k < |s|
      ensures IsSpace(ws, s[k])
    {
      assert s[k] == t[k - i];
    }
  }

  lemma TrimEnds(ws: SpaceSet, s: string)
    ensures var r := TrimBy(ws, s); r != [] ==> !IsSpace(ws, r[0]) && !IsSpace(ws, r[|r| - 1])
  {
    var t := TrimStart(ws, s);
    var r := TrimEnd(ws, t);
    if r != [] {
      assert r[0] == t[0];
    }
  }

  /** Trimming twice is trimming once. */
  lemma TrimIdempotent(ws: SpaceSet, s: string)
    ensures TrimBy(ws, TrimBy(ws, s)) == TrimBy(ws, s)
  {
    var r := TrimBy(ws, s);
    TrimShape(ws, s);
    if r != [] {
      assert TrimStart(ws, r) == r;
      assert TrimEnd(ws, r) == r;
    }
  }

  // ---------------------------------------------------------------- substrings

  predicate OccursAt(s: string, w: string, i: nat)
  {
    i + |w| <= |s| && s[i..i + |w|] == w
  }

  /** `s.includes(w)`. */
  predicate Contains(s: string, w: string)
  {
    exists i: nat :: i <= |s| && OccursAt(s, w, i)
  }

  /** A word can only occur in a string that holds each of its characters. */
  lemma NotContainsMissing(s: string, w: string, k: nat)
    requires k < |w| && w[k] !in s
    ensures !Contains(s, w)
  {
    forall i: nat | i <= |s|
      ensures !OccursAt(s, w, i)
    {
      if i + |w| <= |s| {
        assert s[i + k] in s;
        assert s[i..i + |w|][k] == s[i + k];
      }
    }
  }

  lemma ContainsAt(s: string, w: string, i: nat)
    requires OccursAt(s, w, i)
    ensures Contains(s, w)
  {
  }

  /** `s.endsWith(w)`. */
  predicate EndsWith(s: string, w: string)
  {
    |w| <= |s| && s[|s| - |w|..] == w
  }

  /** The index of the first `c` in `s`. */
  function FirstIndexOf(s: string, c: char): (i: nat)
    requires c in s
    ensures i < |s| && s[i] == c && c !in s[..i]
  {
    if s[0] == c then 0 else FirstIndexOf(s[1..], c) + 1
  }

  /** `s.split(sep)` for a one-character separator. */
  function Split(s: string, sep: char): (parts: seq<string>)
    ensures |parts| >= 1
    ensures forall k :: 0 <= k < |parts| ==> sep !in parts[k]
    decreases |s|
  {
    if sep !in s then [s]
    else
      var i := FirstIndexOf(s, sep);
      [s[..i]] + Split(s[i + 1..], sep)
  }

  /** `parts.join(sep)`. */
  function Join(parts: seq<string>, sep: string): string
  {
    if |parts| == 0 then ""
    else if |parts| == 1 then parts[0]
    else parts[0] + sep + Join(parts[1..], sep)
  }

  /** Splitting and re-joining with the same separator gives the string back. */
  lemma {:induction false} JoinSplit(s: string, sep: char)
    ensures Join(Split(s, sep), [sep]) == s
    decreases |s|
  {
    if sep in s {
      var i := FirstIndexOf(s, sep);
      var rest := Split(s[i + 1..], sep);
      JoinSplit(s[i + 1..], sep);
      assert Split(s, sep) == [s[..i]] + rest;
      assert Join(Split(s, sep), [sep]) == s[..i] + [sep] + Join(rest, [sep]);
      assert s == s[..i] + [sep] + s[i + 1..];
    }
  }

  /** The first part of a split is everything before the first separator. */
  lemma SplitFirst(s: string, sep: char)
    ensures sep in s ==> Split(s, sep)[0] == s[..FirstIndexOf(s, sep)]
    ensures sep !in s ==> Split(s, sep) == [s]
  {
  }

  // ---------------------------------------------------------------- numbers

  function DigitChar(d: nat): (c: char)
    requires d < 10
    ensures IsDigit(c)
  {
    ('0' as int + d) as char
  }

  function DigitValue(c: char): (d: nat)
    requires IsDigit(c)
    ensures d < 10
  {
    c as int - '0' as int
  }

  predicate AllDigits(s: string)
  {
    forall i :: 0 <= i < |s| ==> IsDigit(s[i])
  }

  /** Decimal text of a natural number, as `n.toString()` and Python's `str(n)` give it. */
  function NatToString(n: nat): (r: string)
    ensures |r| >= 1 && AllDigits(r)
    ensures r[0] == '0' ==> n == 0
  {
    if n < 10 then [DigitChar(n)] else NatToString(n / 10) + [DigitChar(n % 10)]
  }

  function IntToString(i: int): (r: string)
  {
    if i < 0 then "-" + NatToString(-i) else NatToString(i)
  }

  /** The value of a string of decimal digits, as `parseInt` reads it. */
  function ParseDigits(s: string): nat
    requires AllDigits(s)
  {
    if s == [] then 0 else ParseDigits(s[..|s| - 1]) * 10 + DigitValue(s[|s| - 1])
  }

  /** Reading back the decimal text of a number gives the number. */
  lemma {:induction false} ParseNatToString(n: nat)
    ensures ParseDigits(NatToString(n)) == n
  {
    if n >= 10 {
      var r := NatToString(n);
      ParseNatToString(n / 10);
      assert r[..|r| - 1] == NatToString(n / 10);
    }
  }

  /** Keeps only the decimal digits: `s.replace(/[^\d]/g, '')`. */
  function DigitsOf(s: string): (r: string)
    ensures AllDigits(r) && |r| <= |s|
  {
    if s == [] then []
    else if IsDigit(s[0]) then [s[0]] + DigitsOf(s[1..])
    else DigitsOf(s[1..])
  }

  lemma DigitsOfDigits(s: string)
    requires AllDigits(s)
    ensures DigitsOf(s) == s
  {
  }

  function Min(a: int, b: int): int { if a <= b then a else b }

  // ---------------------------------------------------------------- searching

  /** The first position `k` in `[lo, hi)` at which `f` succeeds, with its value:
      the leftmost-first order in which a backtracking matcher tries start
      positions and lazy quantifiers try lengths. */
  function FirstSome<T>(lo: nat, hi: nat, f: nat -> Option<T>): (r: Option<(nat, T)>)
    ensures r.Some? ==> lo <= r.value.0 < hi && f(r.value.0) == Some(r.value.1)
    ensures r.Some? ==> forall k :: lo <= k < r.value.0 ==> f(k).None?
    ensures r.None? ==> forall k :: lo <= k < hi ==> f(k).None?
    decreases hi - lo
  {
    if lo >= hi then None
    else match f(lo)
      case Some(v) => Some((lo, v))
      case None => FirstSome(lo + 1, hi, f)
  }

  /** The value of a search, without its position. */
  function Found<T>(r: Option<(nat, T)>): Option<T>
  {
    match r
    case Some((_, v)) => Some(v)
    case None => None
  }

  /** The last position in `[lo, hi)` at which `f` succeeds: the order in which a
      greedy quantifier gives back characters. */
  function LastSome<T>(lo: nat, hi: nat, f: nat -> Option<T>): (r: Option<(nat, T)>)
    ensures r.Some? ==> lo <= r.value.0 < hi && f(r.value.0) == Some(r.value.1)
    ensures r.Some? ==> forall k :: r.value.0 < k < hi ==> f(k).None?
    ensures r.None? ==> forall k :: lo <= k < hi ==> f(k).None?
    decreases hi - lo
  {
    if lo >= hi then None
    else match f(hi - 1)
      case Some(v) => Some((hi - 1, v))
      case None => LastSome(lo, hi - 1, f)
  }

  // ---------------------------------------------------------------- lists

  predicate Distinct<T(==)>(xs: seq<T>)
  {
    forall i, j :: 0 <= i < j < |xs| ==> xs[i] != xs[j]
  }

  /** `xs` is `ys` with some elements left out, in the same order. */
  ghost predicate IsSubsequence<T>(xs: seq<T>, ys: seq<T>)
    decreases |ys|
  {
    if xs == [] then true
    else if ys == [] then false
    else (xs[0] == ys[0] && IsSubsequence(xs[1..], ys[1..])) || IsSubsequence(xs, ys[1..])
  }

  /** `xs.filter(keep)`. */
  function Filter<T(==,!new)>(xs: seq<T>, keep: T -> bool): (r: seq<T>)
    ensures |r| <= |xs|
    ensures forall x :: x in r <==> x in xs && keep(x)
  {
    if xs == [] then [] else (if keep(xs[0]) then [xs[0]] else []) + Filter(xs[1..], keep)
  }

  /** A filter keeps the surviving elements in their original order. */
  lemma {:induction false} FilterIsSubsequence<T(!new)>(xs: seq<T>, keep: T -> bool)
    ensures IsSubsequence(Filter(xs, keep), xs)
  {
    if xs != [] {
      FilterIsSubsequence(xs[1..], keep);
      if keep(xs[0]) {
        assert Filter(xs, keep) == [xs[0]] + Filter(xs[1..], keep);
      } else {
        assert Filter(xs, keep) == Filter(xs[1..], keep);
        SubsequenceOfTail(Filter(xs[1..], keep), xs);
      }
    }
  }

  lemma {:induction false} SubsequenceOfTail<T>(xs: seq<T>, ys: seq<T>)
    requires ys != [] && IsSubsequence(xs, ys[1..])
    ensures IsSubsequence(xs, ys)
  {
  }

  /** Filtering a list without repeats gives a list without repeats. */
  lemma {:induction false} FilterDistinct<T(!new)>(xs: seq<T>, keep: T -> bool)
    requires Distinct(xs)
    ensures Distinct(Filter(xs, keep))
  {
    if xs != [] {
      FilterDistinct(xs[1..], keep);
      assert xs[0] !in xs[1..];
      assert xs[0] !in Filter(xs[1..], keep);
    }
  }

  /** Filtering a concatenation filters each part. */
  lemma {:induction false} FilterAppend<T(!new)>(xs: seq<T>, ys: seq<T>, keep: T -> bool)
    ensures Filter(xs + ys, keep) == Filter(xs, keep) + Filter(ys, keep)
  {
    if xs != [] {
      FilterAppend(xs[1..], ys, keep);
      assert (xs + ys)[1..] == xs[1..] + ys;
    } else {
      assert xs + ys == ys;
    }
  }

  /** A filter that keeps every element returns the list unchanged. */
  lemma {:induction false} FilterKeepAll<T(!new)>(xs: seq<T>, keep: T -> bool)
    requires forall x :: x in xs ==> keep(x)
    ensures Filter(xs, keep) == xs
  {
    if xs != [] {
      FilterKeepAll(xs[1..], keep);
    }
  }
}
