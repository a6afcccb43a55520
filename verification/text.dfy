/** String operations of Python's `str` that the backend relies on, stated over
    `seq<char>`: whitespace, case folding, stripping, searching, splitting and
    ordering. */
module Text {
  import opened Wrappers

  /** The characters for which Python's `str.isspace()` holds; these are the
      separators of `str.split()` and what `str.strip()` removes. */
  const Whitespace: set<char> := {
    '\t', '\n', '\U{0B}', '\U{0C}', '\r', '\U{1C}', '\U{1D}', '\U{1E}', '\U{1F}', ' ',
    '\U{85}', '\U{A0}', '\U{1680}', '\U{2000}', '\U{2001}', '\U{2002}', '\U{2003}',
    '\U{2004}', '\U{2005}', '\U{2006}', '\U{2007}', '\U{2008}', '\U{2009}', '\U{200A}',
    '\U{2028}', '\U{2029}', '\U{202F}', '\U{205F}', '\U{3000}'
  }

  // ---------------------------------------------------------------------------
  // Case folding

  /** Lower-casing of one character (ASCII letters only). */
  function LowerChar(c: char): (r: char)
    ensures 'A' <= c <= 'Z' ==> r as int == c as int + 32
    ensures !('A' <= c <= 'Z') ==> r == c
  {
    if 'A' <= c <= 'Z' then (c as int + 32) as char else c
  }

  /** `s.lower()`, position by position. */
  function Lower(s: string): (r: string)
    ensures |r| == |s|
    ensures forall i :: 0 <= i < |s| ==> r[i] == LowerChar(s[i])
  {
    seq(|s|, i requires 0 <= i < |s| => LowerChar(s[i]))
  }

  lemma LowerIdempotent(s: string)
    ensures Lower(Lower(s)) == Lower(s)
  {
  }

  lemma LowerAppend(a: string, b: string)
    ensures Lower(a + b) == Lower(a) + Lower(b)
  {
  }

  lemma LowerPrefix(s: string, n: nat)
    requires n <= |s|
    ensures Lower(s)[..n] == Lower(s[..n])
  {
  }

  // ---------------------------------------------------------------------------
  // Stripping

  /** Length of the longest prefix of `s` made of characters in `drop`. */
  function LeadingRun(s: string, drop: set<char>): (n: nat)
    ensures n <= |s|
    ensures forall k :: 0 <= k < n ==> s[k] in drop
    ensures n < |s| ==> s[n] !in drop
  {
    if |s| > 0 && s[0] in drop then 1 + LeadingRun(s[1..], drop) else 0
  }

  /** Length of the longest suffix of `s` made of characters in `drop`. */
  function TrailingRun(s: string, drop: set<char>): (n: nat)
    ensures n <= |s|
    ensures forall k :: |s| - n <= k < |s| ==> s[k] in drop
    ensures n < |s| ==> s[|s| - n - 1] !in drop
  {
    if |s| > 0 && s[|s| - 1] in drop then 1 + TrailingRun(s[..|s| - 1], drop) else 0
  }

  /** `s.strip(chars)`: drops every leading and trailing character that is in
      `drop`, and keeps the slice in between. */
  function StripSet(s: string, drop: set<char>): (r: string)
    ensures LeadingRun(s, drop) + |r| <= |s|
    ensures r == s[LeadingRun(s, drop)..LeadingRun(s, drop) + |r|]
    ensures forall k :: LeadingRun(s, drop) + |r| <= k < |s| ==> s[k] in drop
    ensures |r| > 0 ==> r[0] !in drop && r[|r| - 1] !in drop
  {
    var rest := s[LeadingRun(s, drop)..];
    rest[..|rest| - TrailingRun(rest, drop)]
  }

  /** `s.strip()` */
  function Strip(s: string): string {
    StripSet(s, Whitespace)
  }

  /** `s.strip(c)` for a single character `c`. */
  function StripChar(s: string, c: char): string {
    StripSet(s, {c})
  }

  /** A string whose ends are not in `drop` is its own strip. */
  lemma StripSetOfStable(s: string, drop: set<char>)
    requires |s| > 0 ==> s[0] !in drop && s[|s| - 1] !in drop
    ensures StripSet(s, drop) == s
  {
    if |s| > 0 {
      assert LeadingRun(s, drop) == 0;
      assert TrailingRun(s, drop) == 0;
    }
  }

  lemma StripSetIdempotent(s: string, drop: set<char>)
    ensures StripSet(StripSet(s, drop), drop) == StripSet(s, drop)
  {
    StripSetOfStable(StripSet(s, drop), drop);
  }

  /** A stripped lower-cased text is already lower-case. */
  lemma LowerOfStrippedLower(raw: string, drop: set<char>)
    ensures Lower(StripSet(Lower(raw), drop)) == StripSet(Lower(raw), drop)
  {
    var l := Lower(raw);
    var c := StripSet(l, drop);
    var n := LeadingRun(l, drop);
    forall i | 0 <= i < |c|
      ensures Lower(c)[i] == c[i]
    {
      assert c[i] == l[n + i];
    }
  }

  // ---------------------------------------------------------------------------
  // Prefixes, suffixes, occurrences

  predicate StartsWith(s: string, p: string) {
    |p| <= |s| && s[..|p|] == p
  }

  lemma StartsWithAppend(p: string, rest: string)
    ensures StartsWith(p + rest, p)
  {
    assert (p + rest)[..|p|] == p;
  }

  lemma StartsWithTransitive(s: string, p: string, q: string)
    requires StartsWith(s, p) && StartsWith(p, q)
    ensures StartsWith(s, q)
  {
    assert s[..|q|] == s[..|p|][..|q|];
  }

  predicate EndsWith(s: string, p: string) {
    |p| <= |s| && s[|s| - |p|..] == p
  }

  lemma EndsWithAppend(pre: string, p: string)
    ensures EndsWith(pre + p, p)
  {
    assert (pre + p)[|pre|..] == p;
  }

  lemma AppendAssociative<T>(a: seq<T>, b: seq<T>, c: seq<T>)
    ensures a + (b + c) == (a + b) + c
  {
  }

  /** `p` occurs in `s` starting at index `i`. */
  predicate OccursAt(s: string, p: string, i: nat) {
    i + |p| <= |s| && s[i..i + |p|] == p
  }

  /** The first index at or after `from` where `p` occurs in `s`. */
  function IndexFrom(s: string, p: string, from: nat): (r: Option<nat>)
    ensures r.Some? ==> from <= r.value && OccursAt(s, p, r.value)
    ensures r.Some? ==> forall j :: from <= j < r.value ==> !OccursAt(s, p, j)
    ensures r.None? ==> forall j :: from <= j ==> !OccursAt(s, p, j)
    decreases |s| - from
  {
    if from + |p| > |s| then None
    else if s[from..from + |p|] == p then Some(from)
    else IndexFrom(s, p, from + 1)
  }

  /** `s.find(p)`, with `None` for Python's -1. */
  function IndexOf(s: string, p: string): Option<nat> {
    IndexFrom(s, p, 0)
  }

  /** Python's `p in s`. */
  predicate Contains(s: string, p: string) {
    IndexOf(s, p).Some?
  }

  /** `p` is a substring of `s` exactly when it occurs at some index. */
  lemma ContainsIff(s: string, p: string)
    ensures Contains(s, p) <==> exists i: nat :: OccursAt(s, p, i)
  {
    if !Contains(s, p) {
      forall i: nat ensures !OccursAt(s, p, i) {
      }
    }
  }

  /** A prefix of `s` that ends before the first occurrence of `p` does not
      contain `p`. */
  lemma PrefixBeforeFirstOccurrence(s: string, p: string, i: nat)
    requires |p| > 0 && i <= |s|
    requires forall j :: 0 <= j < i ==> !OccursAt(s, p, j)
    ensures !Contains(s[..i], p)
  {
    if Contains(s[..i], p) {
      var j := IndexOf(s[..i], p).value;
      assert s[..i][j..j + |p|] == s[j..j + |p|];
      assert OccursAt(s, p, j) && j < i;
    }
  }

  /** Case-insensitive containment, as pandas `str.contains(p, case=False)`
      and the benchmark's `p.lower() in out.lower()` use it. */
  predicate ContainsIgnoringCase(s: string, p: string) {
    Contains(Lower(s), Lower(p))
  }

  // ---------------------------------------------------------------------------
  // Splitting and joining

  /** `sep.join(parts)` */
  function Join(parts: seq<string>, sep: string): string {
    if |parts| == 0 then ""
    else if |parts| == 1 then parts[0]
    else parts[0] + sep + Join(parts[1..], sep)
  }

  /** `s.split(sep)` for a non-empty separator. */
  function Split(s: string, sep: string): (parts: seq<string>)
    requires |sep| > 0
    ensures |parts| >= 1
    ensures |parts| >= 2 <==> Contains(s, sep)
    ensures Join(parts, sep) == s
    ensures forall i :: 0 <= i < |parts| ==> !Contains(parts[i], sep)
    decreases |s|
  {
    match IndexOf(s, sep)
    case None => [s]
    case Some(i) =>
      PrefixBeforeFirstOccurrence(s, sep, i);
      var tail := Split(s[i + |sep|..], sep);
      assert s == s[..i] + sep + s[i + |sep|..];
      [s[..i]] + tail
  }

  /** `s.replace(c, "")` for a single character `c`. */
  function RemoveChar(s: string, c: char): (r: string)
    ensures |r| <= |s|
    ensures c !in r
    ensures forall x :: x != c ==> (x in r <==> x in s)
  {
    if |s| == 0 then ""
    else if s[0] == c then RemoveChar(s[1..], c)
    else [s[0]] + RemoveChar(s[1..], c)
  }

  lemma {:induction false} RemoveAbsentChar(s: string, c: char)
    requires c !in s
    ensures RemoveChar(s, c) == s
  {
    if |s| > 0 {
      assert s == [s[0]] + s[1..];
      RemoveAbsentChar(s[1..], c);
    }
  }

  /** `s.split()[0]`: the first maximal run of non-whitespace characters, or
      `None` where Python raises `IndexError` because there is no token. */
  function FirstToken(s: string): (r: Option<string>)
    ensures r.None? <==> forall i :: 0 <= i < |s| ==> s[i] in Whitespace
    ensures r.Some? ==> |r.value| > 0 && forall i :: 0 <= i < |r.value| ==> r.value[i] !in Whitespace
    ensures r.Some? ==> var n := LeadingRun(s, Whitespace);
      && n + |r.value| <= |s|
      && r.value == s[n..n + |r.value|]
      && (n + |r.value| == |s| || s[n + |r.value|] in Whitespace)
  {
    var n := LeadingRun(s, Whitespace);
    if n == |s| then None
    else
      var rest := s[n..];
      var m := TokenLength(rest);
      Some(rest[..m])
  }

  /** The first word of a text that is blank up to `word` and blank or over
      right after it is `word`. */
  lemma FirstTokenOf(pre: string, word: string, post: string)
    requires forall i :: 0 <= i < |pre| ==> pre[i] in Whitespace
    requires |word| > 0 && forall i :: 0 <= i < |word| ==> word[i] !in Whitespace
    requires |post| == 0 || post[0] in Whitespace
    ensures FirstToken(pre + word + post) == Some(word)
  {
    var s := pre + (word + post);
    assert s == pre + word + post;
    LeadingRunOf(pre, word + post, Whitespace);
    var n := |pre|;
    assert s[n..n + |word|] == word;
    assert n + |word| < |s| ==> s[n + |word|] == post[0];
    FirstTokenAt(s, n, word);
  }

  /** A word that starts where the leading blanks end and is followed by a
      blank or the end is the first token. */
  lemma FirstTokenAt(s: string, n: nat, word: string)
    requires LeadingRun(s, Whitespace) == n && n + |word| <= |s|
    requires |word| > 0 && forall i :: 0 <= i < |word| ==> word[i] !in Whitespace
    requires s[n..n + |word|] == word
    requires n + |word| == |s| || s[n + |word|] in Whitespace
    ensures FirstToken(s) == Some(word)
  {
    var rest := s[n..];
    forall k | 0 <= k < |word| ensures rest[k] !in Whitespace {
      assert rest[k] == s[n..n + |word|][k];
    }
    TokenLengthIs(rest, |word|);
    assert n != |s|;
    assert FirstToken(s) == Some(rest[..|word|]);
    assert rest[..|word|] == s[n..n + |word|];
  }

  /** A run of `m` non-blank characters followed by a blank or the end is the
      whole leading token. */
  lemma {:induction false} TokenLengthIs(s: string, m: nat)
    requires m <= |s| && forall k :: 0 <= k < m ==> s[k] !in Whitespace
    requires m == |s| || s[m] in Whitespace
    ensures TokenLength(s) == m
  {
    if m > 0 {
      TokenLengthIs(s[1..], m - 1);
    }
  }

  /** Length of the leading run of non-whitespace characters. */
  function TokenLength(s: string): (m: nat)
    ensures m <= |s|
    ensures forall k :: 0 <= k < m ==> s[k] !in Whitespace
    ensures m < |s| ==> s[m] in Whitespace
    ensures |s| > 0 && s[0] !in Whitespace ==> m > 0
  {
    if |s| > 0 && s[0] !in Whitespace then 1 + TokenLength(s[1..]) else 0
  }

  /** Stripping keeps a string free of `p`: the result is a slice. */
  lemma StripSetKeepsAbsence(s: string, drop: set<char>, p: string)
    requires !Contains(s, p)
    ensures !Contains(StripSet(s, drop), p)
  {
    var n := LeadingRun(s, drop);
    SliceKeepsAbsence(s, p, n, n + |StripSet(s, drop)|);
  }

  /** A string without `p` has no slice containing `p`. */
  lemma SliceKeepsAbsence(s: string, p: string, i: nat, j: nat)
    requires i <= j <= |s| && !Contains(s, p)
    ensures !Contains(s[i..j], p)
  {
    if Contains(s[i..j], p) {
      var t := s[i..j];
      var k := IndexOf(t, p).value;
      assert OccursAt(t, p, k);
      forall m | 0 <= m < |p| ensures s[i + k + m] == p[m] {
        assert t[k..k + |p|][m] == p[m];
      }
      assert s[i + k..i + k + |p|] == p;
      assert OccursAt(s, p, i + k);
      ContainsIff(s, p);
    }
  }

  /** Putting a prefix in front that lacks the first character of `p`
      creates no occurrence of `p`. */
  lemma PrefixKeepsAbsence(pre: string, s: string, p: string)
    requires |p| > 0 && p[0] !in pre && !Contains(s, p)
    ensures !Contains(pre + s, p)
  {
    var t := pre + s;
    ContainsIff(s, p);
    forall j: nat
      ensures !OccursAt(t, p, j)
    {
      if j < |pre| {
        assert t[j] == pre[j];
        assert j + |p| <= |t| ==> t[j..j + |p|][0] == t[j];
      } else if j + |p| <= |t| {
        assert t[j..j + |p|] == s[j - |pre|..j - |pre| + |p|];
        assert !OccursAt(s, p, j - |pre|);
      }
    }
    ContainsIff(t, p);
  }

  /** Where `p` first occurs at `k`, the first part of the split is what
      comes before it. */
  lemma SplitFirstAt(s: string, sep: string, k: nat)
    requires |sep| > 0 && OccursAt(s, sep, k)
    requires forall j :: 0 <= j < k ==> !OccursAt(s, sep, j)
    ensures Split(s, sep)[0] == s[..k]
  {
    var r := IndexOf(s, sep);
    assert r.Some?;
    assert r.value == k;
  }

  /** Where `p` does not occur, the split has one part, the whole string. */
  lemma SplitWithout(s: string, sep: string)
    requires |sep| > 0 && !Contains(s, sep)
    ensures Split(s, sep) == [s]
  {
  }

  /** Where the separator first occurs right after `a`, the split starts with
      `a` and continues with the split of what follows. */
  lemma SplitAfter(a: string, sep: string, b: string)
    requires |sep| > 0
    requires forall j :: 0 <= j < |a| ==> !OccursAt(a + sep + b, sep, j)
    ensures Split(a + sep + b, sep) == [a] + Split(b, sep)
  {
    var s := a + sep + b;
    assert s[|a|..|a| + |sep|] == sep;
    assert OccursAt(s, sep, |a|);
    var r := IndexOf(s, sep);
    assert r.Some? && r.value == |a|;
    assert s[..|a|] == a && s[|a| + |sep|..] == b;
  }

  /** `LeadingRun` skips exactly a prefix of dropped characters that ends
      before a kept one. */
  lemma {:induction false} LeadingRunOf(pre: string, rest: string, drop: set<char>)
    requires forall i :: 0 <= i < |pre| ==> pre[i] in drop
    requires |rest| > 0 && rest[0] !in drop
    ensures LeadingRun(pre + rest, drop) == |pre|
  {
    if |pre| > 0 {
      assert (pre + rest)[1..] == pre[1..] + rest;
      LeadingRunOf(pre[1..], rest, drop);
    } else {
      assert pre + rest == rest;
    }
  }

  // ---------------------------------------------------------------------------
  // Code-point order of strings (Python's `<` on `str`)

  predicate StrLess(a: string, b: string) {
    if |a| == 0 then |b| > 0
    else if |b| == 0 then false
    else if a[0] != b[0] then a[0] < b[0]
    else StrLess(a[1..], b[1..])
  }

  lemma {:induction false} StrLessIrreflexive(a: string)
    ensures !StrLess(a, a)
  {
    if |a| > 0 {
      StrLessIrreflexive(a[1..]);
    }
  }

  lemma {:induction false} StrLessTransitive(a: string, b: string, c: string)
    requires StrLess(a, b) && StrLess(b, c)
    ensures StrLess(a, c)
  {
    if |a| > 0 && |b| > 0 && |c| > 0 && a[0] == b[0] && b[0] == c[0] {
      StrLessTransitive(a[1..], b[1..], c[1..]);
    }
  }

  lemma {:induction false} StrLessTotal(a: string, b: string)
    ensures a == b || StrLess(a, b) || StrLess(b, a)
  {
    if |a| > 0 && |b| > 0 && a[0] == b[0] {
      StrLessTotal(a[1..], b[1..]);
      if a[1..] == b[1..] {
        assert a == [a[0]] + a[1..] && b == [b[0]] + b[1..];
      }
    }
  }
}
