/** Optional values: a missing dictionary key, a file that does not exist or
    could not be read, a regular-expression search that found nothing. */
module Wrappers {
  datatype Option<T> = None | Some(value: T)
}

/** Generic sequence helpers shared by the scanner, the file selector and the
    report layer. */
module Seqs {

  /** The elements of `xs` that satisfy `keep`, in their original order
      (a filtering generator loop, consumed into a list). */
  function Filter<T>(xs: seq<T>, keep: T -> bool): (r: seq<T>)
    ensures |r| <= |xs|
    ensures forall x :: x in r ==> x in xs && keep(x)
    decreases |xs|
  {
    if xs == [] then []
    else if keep(xs[|xs| - 1]) then Filter(xs[..|xs| - 1], keep) + [xs[|xs| - 1]]
    else Filter(xs[..|xs| - 1], keep)
  }

  /** Filtering distributes over concatenation: order is kept block by block. */
  lemma {:induction false} FilterAppend<T>(xs: seq<T>, ys: seq<T>, keep: T -> bool)
    ensures Filter(xs + ys, keep) == Filter(xs, keep) + Filter(ys, keep)
    decreases |ys|
  {
    if ys == [] {
      assert xs + ys == xs;
    } else {
      var n := |ys|;
      assert (xs + ys)[..|xs + ys| - 1] == xs + ys[..n - 1];
      assert (xs + ys)[|xs + ys| - 1] == ys[n - 1];
      FilterAppend(xs, ys[..n - 1], keep);
    }
  }

  /** Every element of `xs` is `lt`-below every later one. */
  predicate Ascending<T>(xs: seq<T>, lt: (T, T) -> bool) {
    forall a, b :: 0 <= a < b < |xs| ==> lt(xs[a], xs[b])
  }

  /** Two ascending sequences, the first wholly below the second, make an
      ascending concatenation. */
  lemma AscendingAppend<T>(xs: seq<T>, ys: seq<T>, lt: (T, T) -> bool)
    requires Ascending(xs, lt) && Ascending(ys, lt)
    requires forall a, b :: 0 <= a < |xs| && 0 <= b < |ys| ==> lt(xs[a], ys[b])
    ensures Ascending(xs + ys, lt)
  {
    var r := xs + ys;
    forall a, b | 0 <= a < b < |r| ensures lt(r[a], r[b]) {
      if b < |xs| {
        assert r[a] == xs[a] && r[b] == xs[b];
      } else if a < |xs| {
        assert r[a] == xs[a] && r[b] == ys[b - |xs|];
      } else {
        assert r[a] == ys[a - |xs|] && r[b] == ys[b - |xs|];
      }
    }
  }

  /** Concatenation regroups freely. */
  lemma ConcatAssoc<T>(a: seq<T>, b: seq<T>, c: seq<T>)
    ensures (a + b) + c == a + (b + c)
  {
  }

  /** Filtering six consecutive parts filters each part. */
  lemma FilterSixParts<T>(p0: seq<T>, p1: seq<T>, p2: seq<T>, p3: seq<T>, p4: seq<T>, p5: seq<T>, keep: T -> bool)
    ensures Filter(p0 + p1 + p2 + p3 + p4 + p5, keep) ==
      Filter(p0, keep) + Filter(p1, keep) + Filter(p2, keep) + Filter(p3, keep) + Filter(p4, keep) + Filter(p5, keep)
  {
    FilterAppend(p0, p1, keep);
    FilterAppend(p0 + p1, p2, keep);
    FilterAppend(p0 + p1 + p2, p3, keep);
    FilterAppend(p0 + p1 + p2 + p3, p4, keep);
    FilterAppend(p0 + p1 + p2 + p3 + p4, p5, keep);
  }

  /** When only the part `p1` of six keeps anything, the filter of the
      whole is the filter of `p1`. */
  lemma FilterOnlyPart<T>(p0: seq<T>, p1: seq<T>, p2: seq<T>, p3: seq<T>, p4: seq<T>, p5: seq<T>, keep: T -> bool)
    requires Filter(p0, keep) == [] && Filter(p2, keep) == [] && Filter(p3, keep) == []
    requires Filter(p4, keep) == [] && Filter(p5, keep) == []
    ensures Filter(p0 + p1 + p2 + p3 + p4 + p5, keep) == Filter(p1, keep)
  {
    FilterSixParts(p0, p1, p2, p3, p4, p5, keep);
    assert [] + Filter(p1, keep) + [] + [] + [] + [] == Filter(p1, keep);
  }

  /** A sequence with no element to keep filters to nothing. */
  lemma {:induction false} FilterNone<T>(xs: seq<T>, keep: T -> bool)
    requires forall k :: 0 <= k < |xs| ==> !keep(xs[k])
    ensures Filter(xs, keep) == []
    decreases |xs|
  {
    if xs != [] {
      FilterNone(xs[..|xs| - 1], keep);
    }
  }

  /** A one-element sequence filters to itself or to nothing. */
  lemma FilterSingleton<T>(x: T, keep: T -> bool)
    ensures Filter([x], keep) == if keep(x) then [x] else []
  {
    assert [x][..0] == [];
  }

  /** A sequence whose only kept element is its first filters to that
      element. */
  lemma {:induction false} FilterFirstOnly<T>(xs: seq<T>, keep: T -> bool)
    requires xs != [] && keep(xs[0])
    requires forall k :: 1 <= k < |xs| ==> !keep(xs[k])
    ensures Filter(xs, keep) == [xs[0]]
    decreases |xs|
  {
    if |xs| > 1 {
      FilterFirstOnly(xs[..|xs| - 1], keep);
    } else {
      assert xs[..0] == [];
    }
  }

  /** Every element of `xs` that satisfies `keep` survives the filter. */
  lemma {:induction false} FilterKeeps<T>(xs: seq<T>, keep: T -> bool, x: T)
    requires x in xs && keep(x)
    ensures x in Filter(xs, keep)
    decreases |xs|
  {
    if xs[|xs| - 1] != x {
      assert x in xs[..|xs| - 1] by {
        var k :| 0 <= k < |xs| && xs[k] == x;
        assert k < |xs| - 1 && xs[..|xs| - 1][k] == x;
      }
      FilterKeeps(xs[..|xs| - 1], keep, x);
    }
  }

  /** `[y for x in xs for y in f(x)]`: the images of `xs`, one after the other. */
  function Flatten<T, U>(xs: seq<T>, f: T -> seq<U>): seq<U>
    decreases |xs|
  {
    if xs == [] then [] else Flatten(xs[..|xs| - 1], f) + f(xs[|xs| - 1])
  }

  /** An element of the flattening comes from the image of some element. */
  lemma {:induction false} FlattenMembers<T, U>(xs: seq<T>, f: T -> seq<U>, y: U)
    ensures y in Flatten(xs, f) <==> exists x :: x in xs && y in f(x)
    decreases |xs|
  {
    if xs != [] {
      var init, last := xs[..|xs| - 1], xs[|xs| - 1];
      FlattenMembers(init, f, y);
      assert xs == init + [last];
      if y in Flatten(xs, f) && y !in f(last) {
        var x :| x in init && y in f(x);
        assert x in xs;
      }
      if x :| x in xs && y in f(x) {
        if x != last {
          assert x in init;
        }
      }
    }
  }

  /** Flattening distributes over concatenation. */
  lemma {:induction false} FlattenAppend<T, U>(xs: seq<T>, ys: seq<T>, f: T -> seq<U>)
    ensures Flatten(xs + ys, f) == Flatten(xs, f) + Flatten(ys, f)
    decreases |ys|
  {
    if ys == [] {
      assert xs + ys == xs;
    } else {
      var init := ys[..|ys| - 1];
      assert (xs + ys)[..|xs + ys| - 1] == xs + init;
      assert (xs + ys)[|xs + ys| - 1] == ys[|ys| - 1];
      FlattenAppend(xs, init, f);
      ConcatAssoc(Flatten(xs, f), Flatten(init, f), f(ys[|ys| - 1]));
    }
  }

  /** `[f(x) for x in xs]`. */
  function MapSeq<T, U>(xs: seq<T>, f: T -> U): (r: seq<U>)
    ensures |r| == |xs| && forall i :: 0 <= i < |xs| ==> r[i] == f(xs[i])
  {
    seq(|xs|, i requires 0 <= i < |xs| => f(xs[i]))
  }

  /** Mapping one more element appends its image. */
  lemma MapSeqSnoc<T, U>(xs: seq<T>, i: nat, f: T -> U)
    requires i < |xs|
    ensures MapSeq(xs[..i + 1], f) == MapSeq(xs[..i], f) + [f(xs[i])]
  {
  }

  /** Appending five elements one at a time builds their display. */
  lemma AppendFive<T>(a: T, b: T, c: T, d: T, e: T)
    ensures [a] + [b] + [c] + [d] + [e] == [a, b, c, d, e]
  {
  }

  /** Number of occurrences of `x` in `xs`. */
  function Occurrences<T(==)>(xs: seq<T>, x: T): (n: nat)
    ensures n <= |xs|
    ensures n > 0 <==> x in xs
    decreases |xs|
  {
    if xs == [] then 0
    else Occurrences(xs[..|xs| - 1], x) + (if xs[|xs| - 1] == x then 1 else 0)
  }

  /** Appending one element adds one occurrence of that element only. */
  lemma OccurrencesSnoc<T>(xs: seq<T>, y: T, x: T)
    ensures Occurrences(xs + [y], x) == Occurrences(xs, x) + (if y == x then 1 else 0)
  {
    assert (xs + [y])[..|xs|] == xs;
  }

  /** The sum of the values of `m` over the keys `ks`. */
  ghost function SumOver<K>(m: map<K, nat>, ks: set<K>): nat
    requires ks <= m.Keys
    decreases ks
  {
    if ks == {} then 0
    else
      var k :| k in ks;
      m[k] + SumOver(m, ks - {k})
  }

  /** The sum of the values of a map (the total of a tally). */
  ghost function MapSum<K>(m: map<K, nat>): nat {
    SumOver(m, m.Keys)
  }

  /** Any key can be taken out first: the sum does not depend on the order. */
  lemma {:induction false} SumOverRemove<K>(m: map<K, nat>, ks: set<K>, k: K)
    requires ks <= m.Keys && k in ks
    ensures SumOver(m, ks) == m[k] + SumOver(m, ks - {k})
    decreases ks
  {
    var j :| j in ks && SumOver(m, ks) == m[j] + SumOver(m, ks - {j});
    if j != k {
      var kj, kk := ks - {j}, ks - {k};
      SumOverRemove(m, kj, k);
      SumOverRemove(m, kk, j);
      assert kj - {k} == kk - {j};
    }
  }

  /** The sum over `ks` only reads the values at `ks`. */
  lemma {:induction false} SumOverAgree<K>(m: map<K, nat>, m': map<K, nat>, ks: set<K>)
    requires ks <= m.Keys && ks <= m'.Keys
    requires forall k :: k in ks ==> m[k] == m'[k]
    ensures SumOver(m, ks) == SumOver(m', ks)
    decreases ks
  {
    if ks != {} {
      var k :| k in ks && SumOver(m, ks) == m[k] + SumOver(m, ks - {k});
      SumOverRemove(m', ks, k);
      SumOverAgree(m, m', ks - {k});
    }
  }

  /** Incrementing one entry of a tally (or adding a new key with count 1)
      raises the sum by one. */
  lemma MapSumIncrement<K>(m: map<K, nat>, k: K)
    ensures MapSum(m[k := (if k in m then m[k] else 0) + 1]) == MapSum(m) + 1
  {
    var m' := m[k := (if k in m then m[k] else 0) + 1];
    SumOverRemove(m', m'.Keys, k);
    assert m'.Keys - {k} == m.Keys - {k};
    SumOverAgree(m', m, m.Keys - {k});
    if k in m {
      SumOverRemove(m, m.Keys, k);
    } else {
      assert m.Keys - {k} == m.Keys;
    }
  }
}

/** Character and string utilities that stand in for Python's `str` methods.
    Letters, digits and the word-character class are ASCII only. */
module Strings {
  import opened Wrappers

  /** `\w` restricted to ASCII: `[A-Za-z0-9_]`. */
  predicate IsWordChar(c: char) {
    ('a' <= c <= 'z') || ('A' <= c <= 'Z') || ('0' <= c <= '9') || c == '_'
  }

  /** Whether position `k` of `s` holds a word character; positions outside
      the string count as non-word, as at the edges of a regex subject. */
  predicate WordAt(s: string, k: int) {
    0 <= k < |s| && IsWordChar(s[k])
  }

  /** Regex `\b` at position `k`: the characters on either side differ in wordness. */
  predicate WordBoundary(s: string, k: int) {
    WordAt(s, k - 1) != WordAt(s, k)
  }

  /** The character classes used by the secret signatures and the token pattern. */
  datatype CharClass =
    | UpperDigit   // [0-9A-Z]
    | Word         // [A-Za-z0-9_]
    | Base64Url    // [0-9A-Za-z\-_], the same set as [a-zA-Z0-9_-]
    | AlnumDash    // [0-9A-Za-z-]
    | TokenChar    // [A-Za-z0-9_\-\/\+=]

  predicate InClass(c: char, k: CharClass) {
    match k
    case UpperDigit => ('0' <= c <= '9') || ('A' <= c <= 'Z')
    case Word => IsWordChar(c)
    case Base64Url => IsWordChar(c) || c == '-'
    case AlnumDash => ('0' <= c <= '9') || ('A' <= c <= 'Z') || ('a' <= c <= 'z') || c == '-'
    case TokenChar => IsWordChar(c) || c == '-' || c == '/' || c == '+' || c == '='
  }

  /** Length of the longest run of `k` characters starting at position `i`:
      what a greedy `k+` consumes there. */
  function Run(s: string, i: nat, k: CharClass): (n: nat)
    requires i <= |s|
    ensures i + n <= |s|
    decreases |s| - i
  {
    if i < |s| && InClass(s[i], k) then 1 + Run(s, i + 1, k) else 0
  }

  /** The run is made of `k` characters and stops at the end of `s` or at
      a character outside `k`: it is the longest such run. */
  lemma {:induction false} RunIsMaximal(s: string, i: nat, k: CharClass)
    requires i <= |s|
    ensures forall j :: i <= j < i + Run(s, i, k) ==> InClass(s[j], k)
    ensures i + Run(s, i, k) == |s| || !InClass(s[i + Run(s, i, k)], k)
    decreases |s| - i
  {
    if i < |s| && InClass(s[i], k) {
      RunIsMaximal(s, i + 1, k);
    }
  }

  /** A stretch of `n` characters of `k` at `i` is covered by the run there. */
  lemma RunAtLeast(s: string, i: nat, k: CharClass, n: nat)
    requires i + n <= |s|
    requires forall j :: i <= j < i + n ==> InClass(s[j], k)
    ensures Run(s, i, k) >= n
  {
    RunIsMaximal(s, i, k);
  }

  /** A stretch of `n` characters of `k` at `i` that stops at the end of `s`
      or at a character outside `k` is the run there. */
  lemma RunExact(s: string, i: nat, k: CharClass, n: nat)
    requires i + n <= |s|
    requires forall j :: i <= j < i + n ==> InClass(s[j], k)
    requires i + n == |s| || !InClass(s[i + n], k)
    ensures Run(s, i, k) == n
  {
    RunAtLeast(s, i, k, n);
    RunIsMaximal(s, i, k);
  }

  /** `s` holds the literal `lit` at position `i`. */
  predicate HasAt(s: string, i: nat, lit: string) {
    i + |lit| <= |s| && s[i..i + |lit|] == lit
  }

  function LowerChar(c: char): char {
    if 'A' <= c <= 'Z' then (c as int + 32) as char else c
  }

  function UpperChar(c: char): char {
    if 'a' <= c <= 'z' then (c as int - 32) as char else c
  }

  /** `str.lower()` on ASCII letters. */
  function Lower(s: string): (r: string)
    ensures |r| == |s|
    ensures forall i :: 0 <= i < |r| ==> !('A' <= r[i] <= 'Z')
    ensures forall i :: 0 <= i < |s| ==>
      r[i] == s[i] || ('A' <= s[i] <= 'Z' && r[i] as int == s[i] as int + 32)
  {
    seq(|s|, i requires 0 <= i < |s| => LowerChar(s[i]))
  }

  /** A string without upper-case letters is its own lower-case form. */
  lemma LowerUnchanged(s: string)
    requires forall i :: 0 <= i < |s| ==> !('A' <= s[i] <= 'Z')
    ensures Lower(s) == s
  {
  }

  /** Lower-casing twice is lower-casing once. */
  lemma LowerIdempotent(s: string)
    ensures Lower(Lower(s)) == Lower(s)
  {
    LowerUnchanged(Lower(s));
  }

  /** `str.upper()` on ASCII letters. */
  function Upper(s: string): (r: string)
    ensures |r| == |s|
    ensures forall i :: 0 <= i < |r| ==> !('a' <= r[i] <= 'z')
    ensures forall i :: 0 <= i < |s| ==>
      r[i] == s[i] || ('a' <= s[i] <= 'z' && r[i] as int == s[i] as int - 32)
  {
    seq(|s|, i requires 0 <= i < |s| => UpperChar(s[i]))
  }

  /** The characters Python's `str.isspace` accepts, which `str.strip()` removes. */
  predicate IsSpace(c: char) {
    c == ' ' || ('\t' <= c <= '\r') || ('\U{1C}' <= c <= '\U{1F}') || c == '\U{85}' ||
    c == '\U{A0}' || c == '\U{1680}' || ('\U{2000}' <= c <= '\U{200A}') ||
    c == '\U{2028}' || c == '\U{2029}' || c == '\U{202F}' || c == '\U{205F}' || c == '\U{3000}'
  }

  function TrimLeft(s: string): (r: string)
    ensures |r| <= |s| && r == s[|s| - |r|..]
    ensures r != [] ==> !IsSpace(r[0])
    ensures forall i :: 0 <= i < |s| - |r| ==> IsSpace(s[i])
    decreases |s|
  {
    if s != [] && IsSpace(s[0]) then TrimLeft(s[1..]) else s
  }

  function TrimRight(s: string): (r: string)
    ensures |r| <= |s| && r == s[..|r|]
    ensures r != [] ==> !IsSpace(r[|r| - 1])
    ensures forall i :: |r| <= i < |s| ==> IsSpace(s[i])
    decreases |s|
  {
    if s != [] && IsSpace(s[|s| - 1]) then TrimRight(s[..|s| - 1]) else s
  }

  /** `str.strip()`: drop leading and trailing whitespace. */
  function Strip(s: string): (r: string)
    ensures |r| <= |s|
    ensures r != [] ==> !IsSpace(r[0]) && !IsSpace(r[|r| - 1])
    ensures exists a: nat :: StrippedAt(s, r, a)
  {
    var l := TrimLeft(s);
    TrimmedBothEnds(s, l, TrimRight(l));
    TrimRight(l)
  }

  /** `r` is the part of `s` from `a` on, with only whitespace of `s` before
      and after it. */
  predicate StrippedAt(s: string, r: string, a: nat) {
    a + |r| <= |s| && r == s[a..a + |r|]
    && (forall i :: 0 <= i < a ==> IsSpace(s[i]))
    && (forall i :: a + |r| <= i < |s| ==> IsSpace(s[i]))
  }

  /** Trimming the left end and then the right end leaves the part of `s`
      between whitespace only. */
  lemma TrimmedBothEnds(s: string, l: string, r: string)
    requires |l| <= |s| && l == s[|s| - |l|..] && forall i :: 0 <= i < |s| - |l| ==> IsSpace(s[i])
    requires |r| <= |l| && r == l[..|r|] && forall i :: |r| <= i < |l| ==> IsSpace(l[i])
    ensures StrippedAt(s, r, |s| - |l|)
  {
    var a := |s| - |l|;
    forall i | a + |r| <= i < |s| ensures IsSpace(s[i]) {
      assert s[i] == l[i - a];
    }
  }

  /** A string with no whitespace at either end is its own strip. */
  lemma StripUnchanged(s: string)
    requires s != [] ==> !IsSpace(s[0]) && !IsSpace(s[|s| - 1])
    ensures Strip(s) == s
  {
  }

  /** Stripping twice is stripping once. */
  lemma StripIdempotent(s: string)
    ensures Strip(Strip(s)) == Strip(s)
  {
    StripUnchanged(Strip(s));
  }

  /** The line boundaries of Python's `str.splitlines()`; `\r\n` counts as one. */
  predicate IsLineBreak(c: char) {
    ('\n' <= c <= '\r') || ('\U{1C}' <= c <= '\U{1E}') || c == '\U{85}' ||
    c == '\U{2028}' || c == '\U{2029}'
  }

  function FirstBreak(s: string, k: nat): (r: nat)
    requires k <= |s|
    ensures k <= r <= |s|
    ensures r < |s| ==> IsLineBreak(s[r])
    ensures forall j :: k <= j < r ==> !IsLineBreak(s[j])
    decreases |s| - k
  {
    if k == |s| || IsLineBreak(s[k]) then k else FirstBreak(s, k + 1)
  }

  /** `str.splitlines()`: the lines of `s` without their terminators; a final
      terminator does not start an extra empty line and `""` has no lines. */
  function SplitLines(s: string): (r: seq<string>)
    ensures forall i, j :: 0 <= i < |r| && 0 <= j < |r[i]| ==> !IsLineBreak(r[i][j])
    ensures r == [] <==> s == []
    decreases |s|
  {
    if s == [] then []
    else
      var k := FirstBreak(s, 0);
      if k == |s| then [s]
      else
        var skip := if s[k] == '\r' && k + 1 < |s| && s[k + 1] == '\n' then 2 else 1;
        [s[..k]] + SplitLines(s[k + skip..])
  }

  /** A text without line breaks is one line. */
  lemma SplitLinesNoBreak(x: string)
    requires x != [] && forall j :: 0 <= j < |x| ==> !IsLineBreak(x[j])
    ensures SplitLines(x) == [x]
  {
  }

  /** A line ended by a break that is not the `\r` of a `\r\n` pair is the
      first line, and the lines of the rest follow. */
  lemma SplitLinesBreak(x: string, c: char, t: string)
    requires forall j :: 0 <= j < |x| ==> !IsLineBreak(x[j])
    requires IsLineBreak(c) && (c != '\r' || t == [] || t[0] != '\n')
    ensures SplitLines(x + [c] + t) == [x] + SplitLines(t)
  {
    var s := x + [c] + t;
    assert s[|x|] == c;
    var k := FirstBreak(s, 0);
    assert k == |x|;
    assert s[..k] == x;
    assert s[k + 1..] == t;
  }

  /** A line ended by `\r\n` is the first line, and the lines of the rest
      follow. */
  lemma SplitLinesCrLf(x: string, t: string)
    requires forall j :: 0 <= j < |x| ==> !IsLineBreak(x[j])
    ensures SplitLines(x + "\r\n" + t) == [x] + SplitLines(t)
  {
    var s := x + "\r\n" + t;
    assert s[|x|] == '\r' && s[|x| + 1] == '\n';
    var k := FirstBreak(s, 0);
    assert k == |x|;
    assert s[..k] == x;
    assert s[k + 2..] == t;
  }

  /** `sep.join(lines)`. */
  function Join(lines: seq<string>, sep: string): string
    decreases |lines|
  {
    if lines == [] then ""
    else if |lines| == 1 then lines[0]
    else Join(lines[..|lines| - 1], sep) + sep + lines[|lines| - 1]
  }

  /** `s.split(sep)[0]`: the text before the first `sep`, or all of `s`. */
  function BeforeFirst(s: string, sep: char): (r: string)
    ensures |r| <= |s| && r == s[..|r|]
    ensures sep !in r
    ensures |r| < |s| ==> s[|r|] == sep
    decreases |s|
  {
    if s == [] || s[0] == sep then [] else [s[0]] + BeforeFirst(s[1..], sep)
  }

  /** Python's `x or default` on an optional string: a missing or empty value
      falls back to `default`. */
  function OrDefault(v: Option<string>, default: string): string {
    if v.Some? && v.value != "" then v.value else default
  }

  /** `str(n)` for a natural number. */
  function NatToString(n: nat): (r: string)
    ensures r != []
    decreases n
  {
    if n < 10 then ["0123456789"[n]] else NatToString(n / 10) + ["0123456789"[n % 10]]
  }

  /** The value of a string of decimal digits. */
  function DigitsValue(d: string): nat
    decreases |d|
  {
    if d == [] then 0
    else
      var c := d[|d| - 1];
      DigitsValue(d[..|d| - 1]) * 10 + (if '0' <= c <= '9' then c as int - '0' as int else 0)
  }

  /** `str(n)` is a string of decimal digits without a leading zero (except
      for 0 itself) whose value is `n`. */
  lemma {:induction false} NatToStringDigits(n: nat)
    ensures forall j :: 0 <= j < |NatToString(n)| ==> '0' <= NatToString(n)[j] <= '9'
    ensures NatToString(n)[0] == '0' ==> n == 0
    ensures DigitsValue(NatToString(n)) == n
    decreases n
  {
    if n >= 10 {
      NatToStringDigits(n / 10);
      var p := NatToString(n / 10);
      var r := NatToString(n);
      assert r == p + ["0123456789"[n % 10]];
      assert r[..|r| - 1] == p;
      assert r[0] == p[0];
    }
  }

  /** `str(i)` for an integer. */
  function IntToString(i: int): string {
    if i < 0 then "-" + NatToString(-i) else NatToString(i)
  }

  /** `str(i)` is a `-` sign exactly for negative `i`, then the digits of its
      magnitude. */
  lemma IntToStringShape(i: int)
    ensures (IntToString(i)[0] == '-') <==> i < 0
    ensures i < 0 ==> IntToString(i)[1..] == NatToString(-i)
    ensures i >= 0 ==> IntToString(i) == NatToString(i)
  {
    if i >= 0 {
      NatToStringDigits(i);
    }
  }

  /** `sub in s`. */
  ghost predicate Contains(s: string, sub: string) {
    exists i: nat :: HasAt(s, i, sub)
  }

  /** The middle part of a three-part concatenation occurs after the first. */
  lemma HasAtMiddle(a: string, b: string, c: string)
    ensures HasAt(a + b + c, |a|, b)
  {
    assert (a + b + c)[|a|..|a| + |b|] == b;
  }

  /** An occurrence in `a` is an occurrence in `a + b`. */
  lemma HasAtExtend(a: string, b: string, i: nat, lit: string)
    requires HasAt(a, i, lit)
    ensures HasAt(a + b, i, lit)
  {
    assert (a + b)[i..i + |lit|] == a[i..i + |lit|];
  }

  /** An occurrence in `s` moves right by `|p|` in `p + s`. */
  lemma HasAtShift(p: string, s: string, i: nat, lit: string)
    requires HasAt(s, i, lit)
    ensures HasAt(p + s, |p| + i, lit)
  {
    assert (p + s)[|p| + i..|p| + i + |lit|] == s[i..i + |lit|];
  }

  /** An occurrence inside an occurrence: `b` at `j` in `a`, and `a` at `i`
      in `s`, put `b` at `i + j` in `s`. */
  lemma HasAtWithin(s: string, i: nat, a: string, j: nat, b: string)
    requires HasAt(s, i, a) && HasAt(a, j, b)
    ensures HasAt(s, i + j, b)
  {
    assert a == s[i..i + |a|];
    forall t | 0 <= t < |b| ensures s[i + j + t] == b[t] {
      assert b[t] == a[j + t];
    }
    assert s[i + j..i + j + |b|] == b;
  }

  /** Every line of `lines` occurs in `sep.join(lines)`; `p` is where. */
  lemma {:induction false} JoinHasLine(lines: seq<string>, sep: string, k: nat) returns (p: nat)
    requires k < |lines|
    ensures HasAt(Join(lines, sep), p, lines[k])
    decreases |lines|
  {
    var last := lines[|lines| - 1];
    assert HasAt(last, 0, last) by {
      assert last[0..|last|] == last;
    }
    if |lines| == 1 {
      p := 0;
    } else {
      var init := lines[..|lines| - 1];
      var j := Join(init, sep);
      assert Join(lines, sep) == j + sep + last;
      if k == |lines| - 1 {
        HasAtShift(j + sep, last, 0, last);
        p := |j + sep|;
      } else {
        var q := JoinHasLine(init, sep, k);
        assert init[k] == lines[k];
        HasAtExtend(j, sep + last, q, lines[k]);
        assert j + (sep + last) == j + sep + last;
        p := q;
      }
    }
  }

  /** A prefix of `a` is a prefix of `a + b`. */
  lemma PrefixOfConcat(a: string, b: string, lit: string)
    requires HasAt(a, 0, lit)
    ensures HasAt(a + b, 0, lit)
  {
    assert (a + b)[..|lit|] == a[..|lit|];
  }

  /** Prefixing both a string and its prefix keeps the prefix. */
  lemma PrefixPrepend(p: string, s: string, lit: string)
    requires HasAt(s, 0, lit)
    ensures HasAt(p + s, 0, p + lit)
  {
    assert (p + s)[..|p| + |lit|] == p + s[..|lit|];
  }

  /** A string does not start with `lit` when it differs from `lit` at
      some index of `lit`. */
  lemma NotPrefixAt(s: string, lit: string, k: nat)
    requires k < |lit| && (k >= |s| || s[k] != lit[k])
    ensures !HasAt(s, 0, lit)
  {
  }

  /** A string lacking one character of `sub` does not contain `sub`. */
  lemma MissingCharNotContained(s: string, sub: string, c: char)
    requires c in sub && c !in s
    ensures !Contains(s, sub)
  {
  }
}

/** The directory walk, supplied as data: one entry per path `rglob("*")`
    yields, with what `Path` and the file system would report about it. */
module FileSystem {
  import opened Wrappers

  datatype FileEntry = FileEntry(
    path: string,          // the path as the scanner reports it (`str(fp)`)
    relPath: string,       // the path relative to the base, in POSIX form
    name: string,          // `Path.name`
    suffix: string,        // `Path.suffix`, e.g. ".py" or ""
    isFile: bool,          // `Path.is_file()`
    size: nat,             // `stat().st_size`
    text: Option<string>)  // the decoded contents, or None when the read raises
}
