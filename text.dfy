/** Kotlin's `String.trim()`, `String.uppercase()` and `String.take(n)`. */
module Text {
  /** The characters Kotlin's `Char.isWhitespace()` accepts, as inclusive ranges: the ASCII controls
      tab, line feed, vertical tab, form feed and carriage return, U+001C..U+001F, the space, and the
      Unicode space, line and paragraph separators. */
  const WhitespaceRanges: seq<(char, char)> := [
    ('\t', '\r'), ('\U{1C}', '\U{1F}'), (' ', ' '), ('\U{A0}', '\U{A0}'), ('\U{1680}', '\U{1680}'),
    ('\U{2000}', '\U{200A}'), ('\U{2028}', '\U{2029}'), ('\U{202F}', '\U{202F}'), ('\U{205F}', '\U{205F}'),
    ('\U{3000}', '\U{3000}')
  ]

  /** `c` lies in one of the ranges. */
  predicate InRanges(c: char, ranges: seq<(char, char)>) {
    ranges != [] && (ranges[0].0 <= c <= ranges[0].1 || InRanges(c, ranges[1..]))
  }

  /** Kotlin's `Char.isWhitespace()`. */
  predicate IsWhitespace(c: char) {
    InRanges(c, WhitespaceRanges)
  }

  /** Every character of `s` is whitespace (so `s.trim()` is empty). */
  predicate AllWhitespace(s: string) {
    forall i :: 0 <= i < |s| ==> IsWhitespace(s[i])
  }

  /** Drops the leading whitespace: what is dropped is all whitespace, what is kept is a suffix that
      does not start with whitespace. */
  function TrimStart(s: string): (r: string)
    ensures |r| <= |s| && r == s[|s| - |r|..]
    ensures AllWhitespace(s[..|s| - |r|])
    ensures r == [] || !IsWhitespace(r[0])
  {
    if s != [] && IsWhitespace(s[0]) then
      var tail := s[1..];
      var r := TrimStart(tail);
      assert tail[|tail| - |r|..] == s[|s| - |r|..];
      assert s[..|s| - |r|] == [s[0]] + tail[..|tail| - |r|];
      r
    else s
  }

  /** Drops the trailing whitespace: what is dropped is all whitespace, what is kept is a prefix that
      does not end with whitespace. */
  function TrimEnd(s: string): (r: string)
    ensures |r| <= |s| && r == s[..|r|]
    ensures AllWhitespace(s[|r|..])
    ensures r == [] || !IsWhitespace(r[|r| - 1])
  {
    if s != [] && IsWhitespace(s[|s| - 1]) then
      var init := s[..|s| - 1];
      var r := TrimEnd(init);
      assert init[..|r|] == s[..|r|];
      assert s[|r|..] == init[|r|..] + [s[|s| - 1]];
      r
    else s
  }

  /** `s.trim()`: the slice of `s` between its first and its last non-whitespace character. */
  function Trim(s: string): (r: string)
    ensures |r| <= |s|
    ensures exists a, b :: 0 <= a <= b <= |s| && r == s[a..b] && AllWhitespace(s[..a]) && AllWhitespace(s[b..])
    ensures r == [] || (!IsWhitespace(r[0]) && !IsWhitespace(r[|r| - 1]))
    ensures r == [] <==> AllWhitespace(s)
  {
    var t := TrimStart(s);
    var r := TrimEnd(t);
    TrimIsSlice(s, t, r);
    r
  }

  /** What TrimStart drops is a whitespace prefix and what TrimEnd then drops a whitespace suffix,
      so the trim is a whitespace-bounded slice of the input, empty only when the input is all
      whitespace. */
  lemma TrimIsSlice(s: string, t: string, r: string)
    requires |t| <= |s| && t == s[|s| - |t|..] && AllWhitespace(s[..|s| - |t|])
    requires t == [] || !IsWhitespace(t[0])
    requires |r| <= |t| && r == t[..|r|] && AllWhitespace(t[|r|..])
    requires r == [] || !IsWhitespace(r[|r| - 1])
    ensures r == s[|s| - |t|..|s| - |t| + |r|]
    ensures TrimBounds(s, |s| - |t|, |s| - |t| + |r|)
    ensures r == [] <==> AllWhitespace(s)
  {
    var a := |s| - |t|;
    SliceOfSuffix(s, a, |r|);
    if r == [] {
      assert s == s[..a] + s[a..];
      AllWhitespaceConcat(s[..a], s[a..]);
    } else {
      assert s[a] == t[0] && s[a + |r| - 1] == r[|r| - 1];
    }
  }

  /** Slicing a suffix of `s` is slicing `s` itself. */
  lemma SliceOfSuffix(s: string, a: nat, k: nat)
    requires a + k <= |s|
    ensures s[a..][k..] == s[a + k..]
    ensures s[a..][..k] == s[a..a + k]
  {
  }

  lemma AllWhitespaceConcat(x: string, y: string)
    requires AllWhitespace(x) && AllWhitespace(y)
    ensures AllWhitespace(x + y)
  {
  }

  /** `s.trim().isEmpty()`: the input the screens reject as empty. */
  predicate Blank(s: string) {
    Trim(s) == []
  }

  /** A string with no whitespace at either end is its own trim. */
  lemma {:induction false} TrimOfTrimmed(s: string)
    requires s == [] || (!IsWhitespace(s[0]) && !IsWhitespace(s[|s| - 1]))
    ensures Trim(s) == s
  {
    TrimUnique(s, 0, |s|);
  }

  /** Trimming twice is trimming once. */
  lemma TrimIdempotent(s: string)
    ensures Trim(Trim(s)) == Trim(s)
  {
    TrimOfTrimmed(Trim(s));
  }

  /** Upper case of one character: ASCII letters only (see README, "Left out"). */
  function UpperChar(c: char): char {
    if 'a' <= c <= 'z' then (c as int - 'a' as int + 'A' as int) as char else c
  }

  predicate IsLowerAscii(c: char) {
    'a' <= c <= 'z'
  }

  /** `s.uppercase()`: same length, each character upper-cased in place, so no lower-case ASCII
      letter is left and other characters are kept. */
  function Upper(s: string): (r: string)
    ensures |r| == |s|
    ensures forall i :: 0 <= i < |s| ==> r[i] == UpperChar(s[i])
    ensures forall i :: 0 <= i < |s| ==> !IsLowerAscii(r[i])
    ensures forall i :: 0 <= i < |s| && !IsLowerAscii(s[i]) ==> r[i] == s[i]
  {
    seq(|s|, i requires 0 <= i < |s| => UpperChar(s[i]))
  }

  /** Upper-casing twice is upper-casing once. */
  lemma UpperIdempotent(s: string)
    ensures Upper(Upper(s)) == Upper(s)
  {
  }

  /** Upper-casing does not create or remove whitespace. */
  lemma UpperKeepsWhitespace(s: string)
    ensures forall i :: 0 <= i < |s| ==> (IsWhitespace(Upper(s)[i]) <==> IsWhitespace(s[i]))
  {
    forall i | 0 <= i < |s|
      ensures IsWhitespace(Upper(s)[i]) <==> IsWhitespace(s[i])
    {
      UpperCharKeepsWhitespace(s[i]);
    }
  }

  /** `s.take(n)`: the first `min(n, |s|)` characters. */
  function Take(s: string, n: nat): (r: string)
    ensures |r| == if n < |s| then n else |s|
    ensures r <= s
  {
    if n < |s| then s[..n] else s
  }

  /** Kotlin's `String.length`: UTF-16 code units, two for a character above U+FFFF. */
  function Utf16Length(s: string): (n: nat)
    ensures |s| <= n <= 2 * |s|
  {
    if s == [] then 0
    else Utf16Length(s[..|s| - 1]) + (if s[|s| - 1] as int > 0xFFFF then 2 else 1)
  }

  /** Text of the Basic Multilingual Plane only: one code unit per character. */
  lemma {:induction false} Utf16LengthOfBmp(s: string)
    requires forall i :: 0 <= i < |s| ==> s[i] as int <= 0xFFFF
    ensures Utf16Length(s) == |s|
  {
    if s != [] {
      Utf16LengthOfBmp(s[..|s| - 1]);
    }
  }

  /** Upper-casing changes only ASCII letters, so the UTF-16 length is kept. */
  lemma {:induction false} Utf16LengthOfUpper(s: string)
    ensures Utf16Length(Upper(s)) == Utf16Length(s)
  {
    if s != [] {
      var n := |s| - 1;
      assert Upper(s)[..n] == Upper(s[..n]);
      Utf16LengthOfUpper(s[..n]);
    }
  }

  /** `s[a..b]` is bounded by whitespace on both sides and by non-whitespace characters at its ends. */
  predicate TrimBounds(s: string, a: int, b: int) {
    && 0 <= a <= b <= |s|
    && AllWhitespace(s[..a]) && AllWhitespace(s[b..])
    && (a == b || (!IsWhitespace(s[a]) && !IsWhitespace(s[b - 1])))
  }

  /** The bounds of the trim within its input. */
  lemma TrimBoundsOf(s: string) returns (a: int, b: int)
    ensures TrimBounds(s, a, b) && Trim(s) == s[a..b]
  {
    var t := TrimStart(s);
    var r := TrimEnd(t);
    TrimIsSlice(s, t, r);
    a, b := |s| - |t|, |s| - |t| + |r|;
  }

  /** Two whitespace-bounded slices of the same text are the same slice. */
  lemma TrimBoundsUnique(s: string, a: int, b: int, c: int, d: int)
    requires TrimBounds(s, a, b) && TrimBounds(s, c, d)
    ensures s[a..b] == s[c..d]
  {
    if a < b && c < d {
      NotInWhitespacePrefix(s, c, a);
      NotInWhitespacePrefix(s, a, c);
      NotInWhitespaceSuffix(s, d, b - 1);
      NotInWhitespaceSuffix(s, b, d - 1);
    } else if a < b {
      WhitespaceBetween(s, c, d, a);
    } else if c < d {
      WhitespaceBetween(s, a, b, c);
    }
  }

  /** A non-whitespace character lies after a whitespace prefix. */
  lemma NotInWhitespacePrefix(s: string, k: int, i: int)
    requires 0 <= k <= |s| && AllWhitespace(s[..k])
    requires 0 <= i < |s| && !IsWhitespace(s[i])
    ensures k <= i
  {
  }

  /** A non-whitespace character lies before a whitespace suffix. */
  lemma NotInWhitespaceSuffix(s: string, k: int, i: int)
    requires 0 <= k <= |s| && AllWhitespace(s[k..])
    requires 0 <= i < |s| && !IsWhitespace(s[i])
    ensures i < k
  {
  }

  /** With an empty middle, every character lies in one of the two whitespace ends. */
  lemma WhitespaceBetween(s: string, a: int, b: int, i: int)
    requires 0 <= a == b <= |s| && AllWhitespace(s[..a]) && AllWhitespace(s[b..])
    requires 0 <= i < |s|
    ensures IsWhitespace(s[i])
  {
    if i < a {
      assert s[i] == s[..a][i];
    } else {
      assert s[i] == s[b..][i - b];
    }
  }

  /** The trim is the only whitespace-bounded slice. */
  lemma TrimUnique(s: string, a: int, b: int)
    requires TrimBounds(s, a, b)
    ensures Trim(s) == s[a..b]
  {
    var c, d := TrimBoundsOf(s);
    TrimBoundsUnique(s, a, b, c, d);
  }

  /** Whitespace added around a text does not change its trim. */
  lemma TrimIgnoresPadding(w1: string, s: string, w2: string)
    requires AllWhitespace(w1) && AllWhitespace(w2)
    ensures Trim(w1 + s + w2) == Trim(s)
  {
    var a, b := TrimBoundsOf(s);
    PaddedTrim(w1, s, w2, a, b);
  }

  /** The padded text trims to the same slice. */
  lemma PaddedTrim(w1: string, s: string, w2: string, a: int, b: int)
    requires AllWhitespace(w1) && AllWhitespace(w2) && TrimBounds(s, a, b)
    ensures Trim(w1 + s + w2) == s[a..b]
  {
    PaddedBounds(w1, s, w2, a, b);
    TrimUnique(w1 + s + w2, |w1| + a, |w1| + b);
  }

  /** Bounds within `s` shift by the length of the leading padding. */
  lemma PaddedBounds(w1: string, s: string, w2: string, a: int, b: int)
    requires AllWhitespace(w1) && AllWhitespace(w2) && TrimBounds(s, a, b)
    ensures TrimBounds(w1 + s + w2, |w1| + a, |w1| + b)
    ensures (w1 + s + w2)[|w1| + a..|w1| + b] == s[a..b]
  {
    var x := w1 + s + w2;
    var n := |w1|;
    PaddedHead(w1, s, w2, a);
    PaddedTail(w1, s, w2, b);
    if a < b {
      assert x[n + a] == s[a] && x[n + b - 1] == s[b - 1];
    }
    assert x[n + a..n + b] == s[a..b];
  }

  lemma PaddedHead(w1: string, s: string, w2: string, a: int)
    requires AllWhitespace(w1) && 0 <= a <= |s| && AllWhitespace(s[..a])
    ensures AllWhitespace((w1 + s + w2)[..|w1| + a])
  {
    var head := (w1 + s + w2)[..|w1| + a];
    forall i | 0 <= i < |head|
      ensures IsWhitespace(head[i])
    {
      if i < |w1| {
        assert head[i] == w1[i];
      } else {
        assert head[i] == s[..a][i - |w1|];
      }
    }
  }

  lemma PaddedTail(w1: string, s: string, w2: string, b: int)
    requires AllWhitespace(w2) && 0 <= b <= |s| && AllWhitespace(s[b..])
    ensures AllWhitespace((w1 + s + w2)[|w1| + b..])
  {
    var tail := (w1 + s + w2)[|w1| + b..];
    forall i | 0 <= i < |tail|
      ensures IsWhitespace(tail[i])
    {
      if b + i < |s| {
        assert tail[i] == s[b..][i];
      } else {
        assert tail[i] == w2[b + i - |s|];
      }
    }
  }

  /** Upper-casing keeps whitespace and non-whitespace apart. */
  lemma UpperCharKeepsWhitespace(c: char)
    ensures IsWhitespace(UpperChar(c)) <==> IsWhitespace(c)
  {
    if 'a' <= c <= 'z' {
      NoLetterIsWhitespace(c);
      NoLetterIsWhitespace(UpperChar(c));
    }
  }

  /** Every whitespace range lies below the letters or above ASCII. */
  lemma NoLetterIsWhitespace(c: char)
    requires 'A' <= c <= 'Z' || 'a' <= c <= 'z'
    ensures !IsWhitespace(c)
  {
    NotInRanges(c, WhitespaceRanges);
  }

  lemma {:induction false} NotInRanges(c: char, ranges: seq<(char, char)>)
    requires ' ' < c < '\U{A0}'
    requires forall k :: 0 <= k < |ranges| ==> ranges[k].1 <= ' ' || '\U{A0}' <= ranges[k].0
    ensures !InRanges(c, ranges)
  {
    if ranges != [] {
      assert ranges[0].1 <= ' ' || '\U{A0}' <= ranges[0].0;
      NotInRanges(c, ranges[1..]);
    }
  }

  /** Bounds within `s` are bounds within its upper-casing, so the upper-cased text trims to the
      upper-cased slice. */
  lemma UpperBounds(s: string, a: int, b: int)
    requires TrimBounds(s, a, b)
    ensures Trim(Upper(s)) == Upper(s[a..b])
  {
    var u := Upper(s);
    var head := u[..a];
    forall i | 0 <= i < |head|
      ensures IsWhitespace(head[i])
    {
      assert head[i] == UpperChar(s[..a][i]);
      UpperCharKeepsWhitespace(s[..a][i]);
    }
    var tail := u[b..];
    forall i | 0 <= i < |tail|
      ensures IsWhitespace(tail[i])
    {
      assert tail[i] == UpperChar(s[b..][i]);
      UpperCharKeepsWhitespace(s[b..][i]);
    }
    if a < b {
      UpperCharKeepsWhitespace(s[a]);
      UpperCharKeepsWhitespace(s[b - 1]);
    }
    assert u[a..b] == Upper(s[a..b]);
    TrimUnique(u, a, b);
  }

  /** Trimming and upper-casing commute. */
  lemma TrimOfUpper(s: string)
    ensures Trim(Upper(s)) == Upper(Trim(s))
  {
    var a, b := TrimBoundsOf(s);
    UpperBounds(s, a, b);
  }
}
