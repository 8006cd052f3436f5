/**
  String helpers with Python's meaning: `str.isspace`, `str.strip`,
  `str.upper` (ASCII letters), `startswith`/`endswith`, `",".join`, splitting
  at a separator, and the code-point order `sorted()` uses on strings.
 */
module Text {

  /** The characters Python's `str.isspace()` (and the regex class `\s`) accept. */
  predicate IsSpace(c: char) {
    || '\U{9}' <= c <= '\U{D}'
    || '\U{1C}' <= c <= '\U{20}'
    || c == '\U{85}' || c == '\U{A0}' || c == '\U{1680}'
    || '\U{2000}' <= c <= '\U{200A}'
    || c == '\U{2028}' || c == '\U{2029}' || c == '\U{202F}' || c == '\U{205F}'
    || c == '\U{3000}'
  }

  predicate AllSpace(s: string) {
    forall i :: 0 <= i < |s| ==> IsSpace(s[i])
  }

  /** `s.lstrip()`: the longest suffix of `s` that does not start with whitespace. */
  function TrimStart(s: string): (r: string)
    ensures |r| <= |s| && r == s[|s| - |r|..]
    ensures AllSpace(s[..|s| - |r|])
    ensures r == [] || !IsSpace(r[0])
  {
    if s != [] && IsSpace(s[0]) then
      var t := s[1..];
      var r := TrimStart(t);
      PeelFront(s, |s| - |r|);
      r
    else s
  }

  /** Cutting at `m` in `s[1..]` is cutting at `m + 1` in `s`, with `s[0]` in front. */
  lemma PeelFront(s: string, m: nat)
    requires 1 <= m <= |s|
    ensures s[1..][m - 1..] == s[m..]
    ensures IsSpace(s[0]) && AllSpace(s[1..][..m - 1]) ==> AllSpace(s[..m])
  {
    if IsSpace(s[0]) && AllSpace(s[1..][..m - 1]) {
      forall i | 0 <= i < m ensures IsSpace(s[..m][i]) {
        if i > 0 { assert s[..m][i] == s[1..][..m - 1][i - 1]; }
      }
    }
  }

  /** `s.rstrip()`: the longest prefix of `s` that does not end with whitespace. */
  function TrimEnd(s: string): (r: string)
    ensures |r| <= |s| && r == s[..|r|]
    ensures AllSpace(s[|r|..])
    ensures r == [] || !IsSpace(r[|r| - 1])
  {
    if s != [] && IsSpace(s[|s| - 1]) then
      var r := TrimEnd(s[..|s| - 1]);
      PeelBack(s, |r|);
      r
    else s
  }

  /** Cutting at `m` in `s` without its last character is cutting at `m` in `s`, with that character behind. */
  lemma PeelBack(s: string, m: nat)
    requires m < |s|
    ensures s[..|s| - 1][..m] == s[..m]
    ensures IsSpace(s[|s| - 1]) && AllSpace(s[..|s| - 1][m..]) ==> AllSpace(s[m..])
  {
    if IsSpace(s[|s| - 1]) && AllSpace(s[..|s| - 1][m..]) {
      forall i | 0 <= i < |s| - m ensures IsSpace(s[m..][i]) {
        if i < |s| - 1 - m { assert s[m..][i] == s[..|s| - 1][m..][i]; }
      }
    }
  }

  /** `s.strip()`: whitespace is peeled off either end until neither end is whitespace. */
  function Strip(s: string): string
    decreases |s|
  {
    if s != [] && IsSpace(s[0]) then Strip(s[1..])
    else if s != [] && IsSpace(s[|s| - 1]) then Strip(s[..|s| - 1])
    else s
  }

  /** Peeling both ends is `lstrip` followed by `rstrip`. */
  lemma {:induction false} StripIsTrims(s: string)
    ensures Strip(s) == TrimEnd(TrimStart(s))
    decreases |s|
  {
    if s != [] && IsSpace(s[0]) {
      StripIsTrims(s[1..]);
      assert TrimStart(s) == TrimStart(s[1..]);
    } else if s != [] && IsSpace(s[|s| - 1]) {
      StripIsTrims(s[..|s| - 1]);
      TrimsOfTrailingSpace(s);
    } else {
      assert TrimStart(s) == s;
      assert TrimEnd(s) == s;
    }
  }

  /** Text that starts with a non-space and ends with whitespace: only `rstrip` changes it. */
  lemma TrimsOfTrailingSpace(s: string)
    requires s != [] && !IsSpace(s[0]) && IsSpace(s[|s| - 1])
    ensures var init := s[..|s| - 1];
      TrimStart(s) == s && TrimStart(init) == init && TrimEnd(s) == TrimEnd(init)
  {
    var init := s[..|s| - 1];
    assert init[0] == s[0];
  }

  /** What is left after stripping neither starts nor ends with whitespace. */
  lemma {:induction false} StripEnds(s: string)
    ensures var r := Strip(s); r == [] || (!IsSpace(r[0]) && !IsSpace(r[|r| - 1]))
    decreases |s|
  {
    if s != [] && IsSpace(s[0]) {
      StripEnds(s[1..]);
    } else if s != [] && IsSpace(s[|s| - 1]) {
      StripEnds(s[..|s| - 1]);
    }
  }

  /** Stripping leaves nothing exactly when the text is all whitespace. */
  lemma {:induction false} StripEmpty(s: string)
    ensures Strip(s) == [] <==> AllSpace(s)
    decreases |s|
  {
    if s != [] && IsSpace(s[0]) {
      StripEmpty(s[1..]);
      assert AllSpace(s) <==> AllSpace(s[1..]) by {
        if AllSpace(s[1..]) {
          forall i | 0 <= i < |s| ensures IsSpace(s[i]) {
            if i > 0 { assert s[i] == s[1..][i - 1]; }
          }
        }
      }
    } else if s != [] && IsSpace(s[|s| - 1]) {
      var init := s[..|s| - 1];
      StripEmpty(init);
      assert init[0] == s[0];
    }
  }

  /** Stripping twice strips nothing more. */
  lemma StripIdempotent(s: string)
    ensures Strip(Strip(s)) == Strip(s)
  {
    StripEnds(s);
    StripOfTrimmed(Strip(s));
  }

  /** Text without surrounding whitespace is its own strip. */
  lemma StripOfTrimmed(s: string)
    requires s == [] || (!IsSpace(s[0]) && !IsSpace(s[|s| - 1]))
    ensures Strip(s) == s
  {
  }

  /** One whitespace character on each side of a trimmed string is stripped away. */
  lemma StripOfPadded(c: char, t: string)
    requires IsSpace(c) && t != [] && !IsSpace(t[0]) && !IsSpace(t[|t| - 1])
    ensures Strip([c] + t + [c]) == t
  {
    var s := [c] + t + [c];
    assert s[1..] == t + [c];
    assert (t + [c])[..|t|] == t;
    StripOfTrimmed(t);
  }

  /** Whitespace-only text strips to nothing. */
  lemma StripAllSpace(s: string)
    requires AllSpace(s)
    ensures Strip(s) == []
  {
    StripEmpty(s);
  }

  /** `c.upper()` for ASCII letters; every other character is left as it is. */
  function UpperChar(c: char): char {
    if 'a' <= c <= 'z' then (c as int - 32) as char else c
  }

  /** `s.upper()`, character by character. */
  function Upper(s: string): (r: string)
    ensures |r| == |s|
    ensures forall i :: 0 <= i < |s| ==> r[i] == UpperChar(s[i])
  {
    if s == [] then [] else [UpperChar(s[0])] + Upper(s[1..])
  }

  lemma UpperIdempotent(s: string)
    ensures Upper(Upper(s)) == Upper(s)
  {
  }

  /** Text without lower-case ASCII letters is its own upper case. */
  lemma UpperKeeps(s: string)
    requires forall i :: 0 <= i < |s| ==> !('a' <= s[i] <= 'z')
    ensures Upper(s) == s
  {
    var u := Upper(s);
    assert forall i :: 0 <= i < |s| ==> u[i] == s[i];
  }

  /** Upper-casing neither creates nor removes whitespace. */
  lemma UpperKeepsSpace(c: char)
    ensures IsSpace(UpperChar(c)) <==> IsSpace(c)
  {
  }

  predicate StartsWith(s: string, prefix: string) {
    |prefix| <= |s| && s[..|prefix|] == prefix
  }

  predicate EndsWith(s: string, suffix: string) {
    |suffix| <= |s| && s[|s| - |suffix|..] == suffix
  }

  /** Position of the first `c` in `s`. */
  function IndexOf(s: string, c: char): (i: nat)
    requires c in s
    ensures i < |s| && s[i] == c && c !in s[..i]
  {
    if s[0] == c then 0 else 1 + IndexOf(s[1..], c)
  }

  /** The first `c` of `a + b` is the first of `a` when `a` holds one. */
  lemma IndexOfAppend(a: string, b: string, c: char)
    requires c in a
    ensures c in a + b && IndexOf(a + b, c) == IndexOf(a, c)
  {
    var i := IndexOf(a, c);
    assert (a + b)[..i] == a[..i];
    assert (a + b)[i] == c;
  }

  /** `sep.join(xs)` for a one-character separator. */
  function Join(xs: seq<string>, sep: char): (r: string)
    ensures |xs| == 1 ==> r == xs[0]
  {
    if xs == [] then ""
    else if |xs| == 1 then xs[0]
    else xs[0] + [sep] + Join(xs[1..], sep)
  }

  /** `s.split(sep)` for a one-character separator. */
  function Split(s: string, sep: char): (r: seq<string>)
    ensures |r| >= 1
    decreases |s|
  {
    if sep !in s then [s]
    else
      var i := IndexOf(s, sep);
      [s[..i]] + Split(s[i + 1..], sep)
  }

  /** Text around the first occurrence of `c`: what comes before, `c`, and what comes after. */
  lemma AroundFirst(s: string, c: char)
    requires c in s
    ensures var i := IndexOf(s, c); s == s[..i] + [c] + s[i + 1..]
  {
    var i := IndexOf(s, c);
    var t := s[..i] + [c] + s[i + 1..];
    assert |t| == |s|;
    forall k | 0 <= k < |s|
      ensures t[k] == s[k]
    {
      if k > i {
        assert t[k] == s[i + 1..][k - i - 1];
      }
    }
  }

  /** Splitting text that starts with a separator-free piece and a separator peels that piece off. */
  lemma SplitCons(a: string, rest: string, sep: char)
    requires sep !in a
    ensures Split(a + [sep] + rest, sep) == [a] + Split(rest, sep)
  {
    var s := a + [sep] + rest;
    assert s == (a + [sep]) + rest;
    assert s[|a|] == sep;
    IndexOfAppend(a + [sep], rest, sep);
    assert (a + [sep])[..|a|] == a;
    assert s[..|a|] == a;
    assert s[|a| + 1..] == rest;
  }

  /**
    Joining is undone by splitting when no element holds the separator:
    every list of at least one separator-free string round-trips.
   */
  lemma {:induction false} SplitJoin(xs: seq<string>, sep: char)
    requires |xs| >= 1
    requires forall k :: 0 <= k < |xs| ==> sep !in xs[k]
    ensures Split(Join(xs, sep), sep) == xs
  {
    if |xs| > 1 {
      var rest := Join(xs[1..], sep);
      assert Join(xs, sep) == xs[0] + [sep] + rest;
      assert sep !in xs[0];
      SplitCons(xs[0], rest, sep);
      SplitJoin(xs[1..], sep);
      assert [xs[0]] + xs[1..] == xs;
    }
  }

  /** Python's `a <= b` on strings: lexicographic by code point. */
  predicate LexLe(a: string, b: string)
    decreases |a|
  {
    if a == [] then true
    else if b == [] then false
    else if a[0] != b[0] then a[0] < b[0]
    else LexLe(a[1..], b[1..])
  }

  lemma {:induction false} LexLeTotal(a: string, b: string)
    ensures LexLe(a, b) || LexLe(b, a)
    decreases |a|
  {
    if a != [] && b != [] && a[0] == b[0] {
      LexLeTotal(a[1..], b[1..]);
    }
  }

  lemma {:induction false} LexLeTransitive(a: string, b: string, c: string)
    requires LexLe(a, b) && LexLe(b, c)
    ensures LexLe(a, c)
    decreases |a|
  {
    if a != [] && b != [] && c != [] && a[0] == b[0] && b[0] == c[0] {
      LexLeTransitive(a[1..], b[1..], c[1..]);
    }
  }

  lemma {:induction false} LexLeAntisymmetric(a: string, b: string)
    requires LexLe(a, b) && LexLe(b, a)
    ensures a == b
    decreases |a|
  {
    if a != [] && b != [] {
      LexLeAntisymmetric(a[1..], b[1..]);
      assert a == [a[0]] + a[1..];
      assert b == [b[0]] + b[1..];
    }
  }
}
