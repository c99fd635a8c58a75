/**
 * String helpers with JavaScript semantics: `String.prototype.trim`, the
 * relational `<` on strings, the default comparator of `Array.prototype.sort`
 * and the conversation key `[a, b].sort().join('_')` built from them.
 */
module Text {

  /** The characters `trim` removes: ECMAScript WhiteSpace and LineTerminator. */
  predicate IsJsSpace(c: char)
  {
    c == ' ' || c == '\t' || c == '\n' || c == '\r' || c == '\U{B}' || c == '\U{C}'
    || c == '\U{A0}' || c == '\U{1680}' || ('\U{2000}' <= c <= '\U{200A}')
    || c == '\U{2028}' || c == '\U{2029}' || c == '\U{202F}' || c == '\U{205F}'
    || c == '\U{3000}' || c == '\U{FEFF}'
  }

  predicate AllSpace(s: string)
  {
    forall k :: 0 <= k < |s| ==> IsJsSpace(s[k])
  }

  /** Number of leading space characters of `s`. */
  function LeadingSpace(s: string): (n: nat)
    ensures n <= |s|
    ensures AllSpace(s[..n])
    ensures n < |s| ==> !IsJsSpace(s[n])
  {
    if s == [] || !IsJsSpace(s[0]) then 0
    else
      var m := LeadingSpace(s[1..]);
      assert forall k :: 1 <= k < m + 1 ==> s[k] == s[1..][k - 1];
      1 + m
  }

  /** Number of trailing space characters of `s`. */
  function TrailingSpace(s: string): (n: nat)
    ensures n <= |s|
    ensures AllSpace(s[|s| - n..])
    ensures n < |s| ==> !IsJsSpace(s[|s| - n - 1])
  {
    if s == [] || !IsJsSpace(s[|s| - 1]) then 0
    else
      var m := TrailingSpace(s[..|s| - 1]);
      assert forall k :: |s| - 1 - m <= k < |s| - 1 ==> s[k] == s[..|s| - 1][k];
      1 + m
  }

  /**
   * `r` is `s[i..j]`, everything outside it is space, and (unless `r` is
   * empty) it neither starts nor ends with a space.
   */
  predicate IsTrimmedSlice(s: string, r: string, i: int, j: int)
  {
    && 0 <= i <= j <= |s|
    && r == s[i..j]
    && AllSpace(s[..i]) && AllSpace(s[j..])
    && (r == [] || (!IsJsSpace(r[0]) && !IsJsSpace(r[|r| - 1])))
  }

  /** `s.trim()`: the slice of `s` between its leading and its trailing spaces. */
  function Trim(s: string): (r: string)
    ensures |r| <= |s|
    ensures r == [] || (!IsJsSpace(r[0]) && !IsJsSpace(r[|r| - 1]))
  {
    var a := LeadingSpace(s);
    var rest := s[a..];
    var b := TrailingSpace(rest);
    assert rest[..|rest| - b] == s[a..|s| - b];
    s[a..|s| - b]
  }

  /** `Trim(s)` is the slice after the leading spaces, and only spaces follow it. */
  lemma TrimIsTrimmedSlice(s: string)
    ensures IsTrimmedSlice(s, Trim(s), LeadingSpace(s), LeadingSpace(s) + |Trim(s)|)
  {
    var a := LeadingSpace(s);
    var rest := s[a..];
    var b := TrailingSpace(rest);
    var e := |s| - b;
    assert rest[..|rest| - b] == s[a..e] == Trim(s);
    assert rest[|rest| - b..] == s[e..];
  }

  /** Every character of an all-space slice `s[lo..hi]` is a space. */
  lemma AllSpaceAt(s: string, lo: int, hi: int)
    requires 0 <= lo <= hi <= |s| && AllSpace(s[lo..hi])
    ensures forall k :: lo <= k < hi ==> IsJsSpace(s[k])
  {
    forall k | lo <= k < hi ensures IsJsSpace(s[k]) {
      assert s[k] == s[lo..hi][k - lo];
    }
  }

  /** Two positions that both end an all-space prefix on a non-space character are the same. */
  lemma FirstNonSpaceUnique(s: string, x: int, y: int)
    requires 0 <= x < |s| && 0 <= y < |s|
    requires AllSpace(s[..x]) && AllSpace(s[..y]) && !IsJsSpace(s[x]) && !IsJsSpace(s[y])
    ensures x == y
  {
    assert s[..x] == s[0..x] && s[..y] == s[0..y];
    AllSpaceAt(s, 0, x);
    AllSpaceAt(s, 0, y);
  }

  /** Two positions that both start an all-space suffix after a non-space character are the same. */
  lemma LastNonSpaceUnique(s: string, x: int, y: int)
    requires 0 < x <= |s| && 0 < y <= |s|
    requires AllSpace(s[x..]) && AllSpace(s[y..]) && !IsJsSpace(s[x - 1]) && !IsJsSpace(s[y - 1])
    ensures x == y
  {
    AllSpaceAt(s, x, |s|);
    AllSpaceAt(s, y, |s|);
  }

  /** A trimmed slice is unique: whatever slice meets the description of `Trim`, it is `Trim(s)`. */
  lemma TrimUnique(s: string, r: string, i: int, j: int)
    requires IsTrimmedSlice(s, r, i, j)
    ensures r == Trim(s)
  {
    TrimEmptyIff(s);
    if r == [] {
      assert j == i;
      AllSpaceConcat(s[..i], s[i..]);
      assert s[..i] + s[i..] == s;
    } else {
      var t := Trim(s);
      var a := LeadingSpace(s);
      TrimIsTrimmedSlice(s);
      assert s[i] == r[0];
      assert t != [];
      assert s[a] == t[0];
      FirstNonSpaceUnique(s, i, a);
      assert s[j - 1] == r[|r| - 1];
      assert s[a + |t| - 1] == t[|t| - 1];
      LastNonSpaceUnique(s, j, a + |t|);
    }
  }

  lemma AllSpaceConcat(x: string, y: string)
    requires AllSpace(x) && AllSpace(y)
    ensures AllSpace(x + y)
  {
    forall k | 0 <= k < |x + y| ensures IsJsSpace((x + y)[k]) {
      if k < |x| { assert (x + y)[k] == x[k]; } else { assert (x + y)[k] == y[k - |x|]; }
    }
  }

  /** A trimmed string is empty exactly when the original holds only spaces. */
  lemma TrimEmptyIff(s: string)
    ensures Trim(s) == [] <==> AllSpace(s)
  {
    var a := LeadingSpace(s);
    var rest := s[a..];
    var b := TrailingSpace(rest);
    if Trim(s) == [] {
      assert |rest| == b;
      assert rest[|rest| - b..] == rest;
      AllSpaceConcat(s[..a], rest);
      assert s[..a] + rest == s;
    }
  }

  /** Trimming is idempotent. */
  lemma TrimIdempotent(s: string)
    ensures Trim(Trim(s)) == Trim(s)
  {
    var r := Trim(s);
    if r != [] {
      assert LeadingSpace(r) == 0;
      assert TrailingSpace(r[0..]) == 0 by { assert r[0..] == r; }
      assert r[0..|r|] == r;
    }
  }

  // ---------------------------------------------------------------------------
  // UTF-16: JavaScript strings are sequences of 16-bit code units

  /** The UTF-16 encoding of one character: one unit below U+10000, otherwise a surrogate pair. */
  function CodeUnits(c: char): (r: seq<int>)
    ensures |r| == (if c as int < 0x10000 then 1 else 2)
    ensures forall k :: 0 <= k < |r| ==> 0 <= r[k] < 0x10000
    ensures 0xD800 <= r[0] < 0xDC00 <==> |r| == 2
  {
    var n := c as int;
    if n < 0x10000 then [n]
    else [0xD800 + (n - 0x10000) / 0x400, 0xDC00 + (n - 0x10000) % 0x400]
  }

  /** Distinct characters have distinct encodings. */
  lemma CodeUnitsInjective(c: char, d: char)
    requires CodeUnits(c) == CodeUnits(d)
    ensures c == d
  {
    var n, m := c as int, d as int;
    if n >= 0x10000 {
      assert n - 0x10000 == 0x400 * ((n - 0x10000) / 0x400) + (n - 0x10000) % 0x400;
      assert m - 0x10000 == 0x400 * ((m - 0x10000) / 0x400) + (m - 0x10000) % 0x400;
    }
    assert n == m;
  }

  /** The code units of `s`, in order; `s.length` is the length of this sequence. */
  function Utf16(s: string): (r: seq<int>)
    ensures |r| >= |s|
  {
    if s == [] then [] else CodeUnits(s[0]) + Utf16(s[1..])
  }

  /** The encoding loses nothing: equal code units mean equal strings. */
  lemma {:induction false} Utf16Injective(a: string, b: string)
    requires Utf16(a) == Utf16(b)
    ensures a == b
  {
    if a != [] && b != [] {
      var ca, cb := CodeUnits(a[0]), CodeUnits(b[0]);
      assert Utf16(a)[0] == ca[0] && Utf16(b)[0] == cb[0];
      assert |ca| == |cb|;
      assert ca == Utf16(a)[..|ca|] && cb == Utf16(b)[..|cb|];
      CodeUnitsInjective(a[0], b[0]);
      assert Utf16(a[1..]) == Utf16(a)[|ca|..] && Utf16(b[1..]) == Utf16(b)[|cb|..];
      Utf16Injective(a[1..], b[1..]);
      assert a == [a[0]] + a[1..] && b == [b[0]] + b[1..];
    }
  }

  /** Lexicographic order of code-unit sequences; a proper prefix comes first. */
  predicate UnitsLess(a: seq<int>, b: seq<int>)
  {
    if a == [] then b != []
    else if b == [] then false
    else if a[0] != b[0] then a[0] < b[0]
    else UnitsLess(a[1..], b[1..])
  }

  /** Exactly one of `a < b`, `a == b`, `b < a` holds for code-unit sequences. */
  lemma {:induction false} UnitsTrichotomy(a: seq<int>, b: seq<int>)
    ensures a == b ==> !UnitsLess(a, b) && !UnitsLess(b, a)
    ensures a != b ==> UnitsLess(a, b) != UnitsLess(b, a)
  {
    if a != [] && b != [] && a[0] == b[0] {
      UnitsTrichotomy(a[1..], b[1..]);
      if a != b {
        assert a == [a[0]] + a[1..] && b == [b[0]] + b[1..];
      }
    }
  }

  /**
   * JavaScript `a < b` on strings, which is also how the default comparator of
   * `sort` orders them: lexicographic order of the UTF-16 code units.
   */
  predicate LexLess(a: string, b: string)
  {
    UnitsLess(Utf16(a), Utf16(b))
  }

  /** Exactly one of `a < b`, `a == b`, `b < a` holds. */
  lemma LexTrichotomy(a: string, b: string)
    ensures a == b ==> !LexLess(a, b) && !LexLess(b, a)
    ensures a != b ==> LexLess(a, b) != LexLess(b, a)
  {
    UnitsTrichotomy(Utf16(a), Utf16(b));
    if Utf16(a) == Utf16(b) {
      Utf16Injective(a, b);
    }
  }

  /**
   * Code units, not code points: U+10000 (a surrogate pair starting 0xD800)
   * sorts before U+E000, although its code point is larger.
   */
  lemma LexLessByCodeUnits()
    ensures LexLess("\U{10000}", "\U{E000}")
    ensures !LexLess("\U{E000}", "\U{10000}")
  {
    assert Utf16("\U{10000}") == [0xD800, 0xDC00];
    assert Utf16("\U{E000}") == [0xE000];
  }

  /** `[a, b].sort()` with the default comparator, which moves `b` in front only when `b < a`. */
  function SortPair(a: string, b: string): (r: seq<string>)
    ensures multiset(r) == multiset{a, b}
    ensures !LexLess(r[1], r[0])
  {
    if LexLess(b, a) then
      LexTrichotomy(a, b);
      [b, a]
    else [a, b]
  }

  /** `parts.join(sep)`. */
  function Join(parts: seq<string>, sep: string): string
  {
    if parts == [] then ""
    else if |parts| == 1 then parts[0]
    else parts[0] + sep + Join(parts[1..], sep)
  }

  /** The conversation key both participants compute: `[a, b].sort().join('_')`. */
  function ChatKey(a: string, b: string): string
  {
    Join(SortPair(a, b), "_")
  }

  /** The key does not depend on which participant computes it. */
  lemma ChatKeySymmetric(a: string, b: string)
    ensures ChatKey(a, b) == ChatKey(b, a)
  {
    LexTrichotomy(a, b);
  }

  /** For identities without an underscore, the key names exactly one unordered pair. */
  lemma ChatKeyDeterminesPair(a: string, b: string, c: string, d: string)
    requires '_' !in a && '_' !in b && '_' !in c && '_' !in d
    requires ChatKey(a, b) == ChatKey(c, d)
    ensures (a == c && b == d) || (a == d && b == c)
  {
    var p, q := SortPair(a, b), SortPair(c, d);
    assert Join(p[1..], "_") == p[1];
    assert Join(q[1..], "_") == q[1];
    assert ChatKey(a, b) == p[0] + "_" + p[1];
    assert ChatKey(c, d) == q[0] + "_" + q[1];
    SplitAtFirstUnderscore(p[0], p[1], q[0], q[1]);
  }

  /** Index of the first `'_'` in `t`, or `|t|` when there is none. */
  function FirstUnderscore(t: string): (i: nat)
    ensures i <= |t|
    ensures '_' !in t[..i]
    ensures i < |t| ==> t[i] == '_'
  {
    if t == [] || t[0] == '_' then 0
    else
      var j := FirstUnderscore(t[1..]);
      assert t[..j + 1] == [t[0]] + t[1..][..j];
      1 + j
  }

  lemma FirstUnderscoreOfKey(x: string, y: string)
    requires '_' !in x
    ensures FirstUnderscore(x + "_" + y) == |x|
  {
    var t := x + "_" + y;
    var i := FirstUnderscore(t);
    assert t[..|x|] == x;
    assert t[|x|] == '_';
  }

  lemma SplitAtFirstUnderscore(x: string, y: string, u: string, v: string)
    requires '_' !in x && '_' !in u
    requires x + "_" + y == u + "_" + v
    ensures x == u && y == v
  {
    var s := x + "_" + y;
    FirstUnderscoreOfKey(x, y);
    FirstUnderscoreOfKey(u, v);
    assert x == s[..|x|] == u;
    assert y == s[|x| + 1..] == v;
  }
}
