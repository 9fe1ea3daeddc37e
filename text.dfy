/**
 * Character classes and string shapes of ECMAScript that the source relies on: the
 * white space removed by `String.prototype.trim` and matched by `\s`, the line
 * terminators that `.` does not match, the ASCII word characters of `\b` and `\w`,
 * and the handful of fixed regular-expression shapes the screening code uses, all
 * matched ignoring ASCII case (the `/i` flag).
 *
 * A Dafny `char` is a Unicode scalar value. Outside the `u` flag, `/i` folds a
 * character by upper-casing it unless that maps a non-ASCII character to an ASCII
 * one, so for patterns made of ASCII characters, ASCII case folding is exact.
 */
module Text {

  /** WhiteSpace and LineTerminator of ECMA-262: what `\s` matches and `trim` removes. */
  predicate IsSpace(c: char) {
    c == '\t' || c == '\n' || c == '\U{B}' || c == '\U{C}' || c == '\r' || c == ' '
    || c == '\U{A0}' || c == '\U{1680}' || ('\U{2000}' <= c <= '\U{200A}')
    || c == '\U{2028}' || c == '\U{2029}' || c == '\U{202F}' || c == '\U{205F}'
    || c == '\U{3000}' || c == '\U{FEFF}'
  }

  /** The characters that `.` in a regular expression does not match. */
  predicate IsLineTerminator(c: char) {
    c == '\n' || c == '\r' || c == '\U{2028}' || c == '\U{2029}'
  }

  /** `\w` without the `u` flag. */
  predicate IsWordChar(c: char) {
    ('a' <= c <= 'z') || ('A' <= c <= 'Z') || ('0' <= c <= '9') || c == '_'
  }

  predicate IsDigit(c: char) {
    '0' <= c <= '9'
  }

  function AsciiLower(c: char): char {
    if 'A' <= c <= 'Z' then (c as int + 32) as char else c
  }

  function AsciiUpper(c: char): char {
    if 'a' <= c <= 'z' then (c as int - 32) as char else c
  }

  function LowerString(s: string): (r: string)
    ensures |r| == |s| && forall i :: 0 <= i < |s| ==> r[i] == AsciiLower(s[i])
  {
    seq(|s|, i requires 0 <= i < |s| => AsciiLower(s[i]))
  }

  function UpperString(s: string): (r: string)
    ensures |r| == |s| && forall i :: 0 <= i < |s| ==> r[i] == AsciiUpper(s[i])
  {
    seq(|s|, i requires 0 <= i < |s| => AsciiUpper(s[i]))
  }

  predicate IsBlank(s: string) {
    forall i :: 0 <= i < |s| ==> IsSpace(s[i])
  }

  /** Drops the leading white space. */
  function TrimStart(s: string): (r: string)
    ensures |r| <= |s| && r == s[|s| - |r|..]
    ensures forall i :: 0 <= i < |s| - |r| ==> IsSpace(s[i])
    ensures r == [] || !IsSpace(r[0])
  {
    if s != [] && IsSpace(s[0]) then TrimStart(s[1..]) else s
  }

  /** Drops the trailing white space. */
  function TrimEnd(s: string): (r: string)
    ensures |r| <= |s| && r == s[..|r|]
    ensures forall i :: |r| <= i < |s| ==> IsSpace(s[i])
    ensures r == [] || !IsSpace(r[|r| - 1])
  {
    if s != [] && IsSpace(s[|s| - 1]) then TrimEnd(s[..|s| - 1]) else s
  }

  /** `String.prototype.trim`: the longest infix with no white space at either end. */
  function Trim(s: string): (r: string)
    ensures r == [] || (!IsSpace(r[0]) && !IsSpace(r[|r| - 1]))
    ensures r == [] <==> IsBlank(s)
    ensures |r| <= |s|
  {
    var t := TrimStart(s);
    var r := TrimEnd(t);
    r
  }

  /** The `length` of a JavaScript string: code points above U+FFFF take two UTF-16 units. */
  function Utf16Length(s: string): (n: nat)
    ensures |s| <= n <= 2 * |s|
    ensures (forall i :: 0 <= i < |s| ==> s[i] <= '\U{FFFF}') ==> n == |s|
  {
    if s == [] then 0 else (if s[0] <= '\U{FFFF}' then 1 else 2) + Utf16Length(s[1..])
  }

  /* ----- Fixed pattern shapes, matched ignoring ASCII case. Every pattern is lower case. ----- */

  /** The characters `pat[j..]` occur in `s` from position `i + j` on. */
  predicate MatchAt(s: string, i: nat, pat: string, j: nat)
    decreases |pat| - j
  {
    j >= |pat| || (i + j < |s| && AsciiLower(s[i + j]) == pat[j] && MatchAt(s, i, pat, j + 1))
  }

  /** `pat` occurs in `s` at some position at or after `i`. */
  predicate ContainsFrom(s: string, pat: string, i: nat)
    decreases |s| - i
  {
    i + |pat| <= |s| && (MatchAt(s, i, pat, 0) || ContainsFrom(s, pat, i + 1))
  }

  /** `/pat/i` */
  predicate ContainsCI(s: string, pat: string) {
    ContainsFrom(s, pat, 0)
  }

  /** The first position at or after `k` that does not hold white space. */
  function SkipSpaces(s: string, k: nat): (r: nat)
    requires k <= |s|
    ensures k <= r <= |s| && (r == |s| || !IsSpace(s[r]))
    ensures forall m :: k <= m < r ==> IsSpace(s[m])
    decreases |s| - k
  {
    if k < |s| && IsSpace(s[k]) then SkipSpaces(s, k + 1) else k
  }

  /** `/kw\s*\(/i` at position `i`. */
  predicate CallAt(s: string, i: nat, kw: string) {
    i + |kw| <= |s| && MatchAt(s, i, kw, 0)
    && var k := SkipSpaces(s, i + |kw|); k < |s| && s[k] == '('
  }

  predicate CallFrom(s: string, kw: string, i: nat)
    decreases |s| - i
  {
    i + |kw| <= |s| && (CallAt(s, i, kw) || CallFrom(s, kw, i + 1))
  }

  /** `/kw\s*\(/i` */
  predicate ContainsCall(s: string, kw: string) {
    CallFrom(s, kw, 0)
  }

  /** `/a\s*b/i` at position `i`. */
  predicate SpacedPairAt(s: string, i: nat, a: string, b: string) {
    i + |a| <= |s| && MatchAt(s, i, a, 0) && MatchAt(s, SkipSpaces(s, i + |a|), b, 0)
  }

  predicate SpacedPairFrom(s: string, a: string, b: string, i: nat)
    decreases |s| - i
  {
    i + |a| <= |s| && (SpacedPairAt(s, i, a, b) || SpacedPairFrom(s, a, b, i + 1))
  }

  /** `/a\s*b/i` */
  predicate ContainsSpacedPair(s: string, a: string, b: string) {
    SpacedPairFrom(s, a, b, 0)
  }

  /** `b` starts at `k` or later, with no line terminator between `k` and its start. */
  predicate OnLineFrom(s: string, k: nat, b: string)
    decreases |s| - k
  {
    k + |b| <= |s| && (MatchAt(s, k, b, 0) || (k < |s| && !IsLineTerminator(s[k]) && OnLineFrom(s, k + 1, b)))
  }

  predicate SameLineFrom(s: string, a: string, b: string, i: nat)
    decreases |s| - i
  {
    i + |a| <= |s| && ((MatchAt(s, i, a, 0) && OnLineFrom(s, i + |a|, b)) || SameLineFrom(s, a, b, i + 1))
  }

  /** `/a.*?b/i` */
  predicate ContainsSameLine(s: string, a: string, b: string) {
    SameLineFrom(s, a, b, 0)
  }

  /** `/a\s*$/i` at position `i`. */
  predicate EndsAfterSpacesFrom(s: string, a: string, i: nat)
    decreases |s| - i
  {
    i + |a| <= |s| && ((MatchAt(s, i, a, 0) && SkipSpaces(s, i + |a|) == |s|) || EndsAfterSpacesFrom(s, a, i + 1))
  }

  /** `/a\s*$/i` */
  predicate EndsAfterSpaces(s: string, a: string) {
    EndsAfterSpacesFrom(s, a, 0)
  }

  predicate BlockCommentFrom(s: string, i: nat)
    decreases |s| - i
  {
    i + 2 <= |s| && ((MatchAt(s, i, "/*", 0) && ContainsFrom(s, "*/", i + 2)) || BlockCommentFrom(s, i + 1))
  }

  /** `/\/\*[\w\W]*?\*\//i`: an opening and a later closing comment marker. */
  predicate ContainsBlockComment(s: string) {
    BlockCommentFrom(s, 0)
  }

  /** `/\bw\b/i` at position `i`. */
  predicate WordAt(s: string, i: nat, w: string) {
    i + |w| <= |s| && (i == 0 || !IsWordChar(s[i - 1])) && MatchAt(s, i, w, 0)
    && (i + |w| == |s| || !IsWordChar(s[i + |w|]))
  }

  predicate WordOnLineFrom(s: string, k: nat, w: string)
    decreases |s| - k
  {
    k + |w| <= |s| && (WordAt(s, k, w) || (k < |s| && !IsLineTerminator(s[k]) && WordOnLineFrom(s, k + 1, w)))
  }

  predicate WordThenWordFrom(s: string, a: string, b: string, i: nat)
    decreases |s| - i
  {
    i + |a| <= |s| && ((WordAt(s, i, a) && WordOnLineFrom(s, i + |a|, b)) || WordThenWordFrom(s, a, b, i + 1))
  }

  /** `/\ba\b.*?\bb\b/i` */
  predicate ContainsWordThenWord(s: string, a: string, b: string) {
    WordThenWordFrom(s, a, b, 0)
  }

  predicate CharOnLineFrom(s: string, k: nat, c1: char, c2: char)
    decreases |s| - k
  {
    k < |s| && (s[k] == c1 || s[k] == c2 || (!IsLineTerminator(s[k]) && CharOnLineFrom(s, k + 1, c1, c2)))
  }

  predicate WordThenCharFrom(s: string, w: string, c1: char, c2: char, i: nat)
    decreases |s| - i
  {
    i + |w| <= |s| && ((WordAt(s, i, w) && CharOnLineFrom(s, i + |w|, c1, c2)) || WordThenCharFrom(s, w, c1, c2, i + 1))
  }

  /** `/\bw\b.*?[c1c2]/i` */
  predicate ContainsWordThenChar(s: string, w: string, c1: char, c2: char) {
    WordThenCharFrom(s, w, c1, c2, 0)
  }
}

/** Lemmas about the pattern shapes: witnesses, anchors, and splitting at a separator. */
module TextLemmas {
  import opened Text

  /** A match is the same thing as agreement, ignoring case, with every pattern character. */
  lemma {:induction false} MatchAtIff(s: string, i: nat, pat: string, j: nat)
    requires j <= |pat|
    ensures MatchAt(s, i, pat, j) <==>
      (j < |pat| ==> i + |pat| <= |s|) && forall m :: j <= m < |pat| ==> AsciiLower(s[i + m]) == pat[m]
    decreases |pat| - j
  {
    if j < |pat| {
      MatchAtIff(s, i, pat, j + 1);
    }
  }

  /** A pattern found at `k` is found searching from any `i <= k`. */
  lemma {:induction false} ContainsFromWitness(s: string, pat: string, i: nat, k: nat)
    requires i <= k && k + |pat| <= |s| && MatchAt(s, k, pat, 0)
    ensures ContainsFrom(s, pat, i)
    decreases k - i
  {
    if i < k {
      ContainsFromWitness(s, pat, i + 1, k);
    }
  }

  /** The position a successful search stops at. */
  lemma {:induction false} ContainsFromPosition(s: string, pat: string, i: nat) returns (k: nat)
    requires ContainsFrom(s, pat, i)
    ensures i <= k && k + |pat| <= |s| && MatchAt(s, k, pat, 0)
    decreases |s| - i
  {
    if MatchAt(s, i, pat, 0) {
      k := i;
    } else {
      k := ContainsFromPosition(s, pat, i + 1);
    }
  }

  /** A literal occurrence of `pat`, up to case, is found. */
  lemma OccurrenceFound(s: string, pat: string, k: nat)
    requires k + |pat| <= |s| && forall m :: 0 <= m < |pat| ==> AsciiLower(s[k + m]) == pat[m]
    ensures ContainsCI(s, pat)
  {
    MatchAtIff(s, k, pat, 0);
    ContainsFromWitness(s, pat, 0, k);
  }

  /* Every shape starts with its first pattern: it is an anchor of the shape. */

  lemma {:induction false} CallHasAnchor(s: string, kw: string, i: nat)
    requires CallFrom(s, kw, i)
    ensures ContainsFrom(s, kw, i)
    decreases |s| - i
  {
    if !CallAt(s, i, kw) {
      CallHasAnchor(s, kw, i + 1);
    }
  }

  lemma {:induction false} SpacedPairHasAnchor(s: string, a: string, b: string, i: nat)
    requires SpacedPairFrom(s, a, b, i)
    ensures ContainsFrom(s, a, i)
    decreases |s| - i
  {
    if !SpacedPairAt(s, i, a, b) {
      SpacedPairHasAnchor(s, a, b, i + 1);
    }
  }

  lemma {:induction false} SameLineHasAnchor(s: string, a: string, b: string, i: nat)
    requires SameLineFrom(s, a, b, i)
    ensures ContainsFrom(s, a, i)
    decreases |s| - i
  {
    if !MatchAt(s, i, a, 0) {
      SameLineHasAnchor(s, a, b, i + 1);
    }
  }

  lemma {:induction false} EndsAfterSpacesHasAnchor(s: string, a: string, i: nat)
    requires EndsAfterSpacesFrom(s, a, i)
    ensures ContainsFrom(s, a, i)
    decreases |s| - i
  {
    if !MatchAt(s, i, a, 0) {
      EndsAfterSpacesHasAnchor(s, a, i + 1);
    }
  }

  lemma {:induction false} BlockCommentHasAnchor(s: string, i: nat)
    requires BlockCommentFrom(s, i)
    ensures ContainsFrom(s, "/*", i)
    decreases |s| - i
  {
    if !MatchAt(s, i, "/*", 0) {
      BlockCommentHasAnchor(s, i + 1);
    }
  }

  lemma {:induction false} WordThenWordHasAnchor(s: string, a: string, b: string, i: nat)
    requires WordThenWordFrom(s, a, b, i)
    ensures ContainsFrom(s, a, i)
    decreases |s| - i
  {
    if !WordAt(s, i, a) {
      WordThenWordHasAnchor(s, a, b, i + 1);
    }
  }

  lemma {:induction false} WordThenCharHasAnchor(s: string, w: string, c1: char, c2: char, i: nat)
    requires WordThenCharFrom(s, w, c1, c2, i)
    ensures ContainsFrom(s, w, i)
    decreases |s| - i
  {
    if !WordAt(s, i, w) {
      WordThenCharHasAnchor(s, w, c1, c2, i + 1);
    }
  }

  /** An occurrence in `a + [c] + b` of a pattern that does not hold `c` lies in `a` or in `b`. */
  lemma ContainsSplit(a: string, c: char, b: string, pat: string)
    requires |pat| > 0 && AsciiLower(c) !in pat
    requires ContainsCI(a + [c] + b, pat)
    ensures ContainsCI(a, pat) || ContainsCI(b, pat)
  {
    var s := a + [c] + b;
    var k := ContainsFromPosition(s, pat, 0);
    MatchAtIff(s, k, pat, 0);
    if k + |pat| <= |a| {
      forall m | 0 <= m < |pat| ensures AsciiLower(a[k + m]) == pat[m] {
        assert s[k + m] == a[k + m];
      }
      OccurrenceFound(a, pat, k);
    } else {
      // The occurrence cannot cover the separator, so it lies in `b`.
      var m := if k <= |a| then |a| - k else 0;
      assert AsciiLower(s[k + m]) == pat[m] && pat[m] in pat;
      assert s[k + m] == c || k > |a|;
      forall m | 0 <= m < |pat| ensures AsciiLower(b[k - |a| - 1 + m]) == pat[m] {
        assert s[k + m] == b[k - |a| - 1 + m];
      }
      OccurrenceFound(b, pat, k - |a| - 1);
    }
  }

  /** Some pattern of `anchors` occurs in `s`, ignoring case. */
  predicate ContainsAny(s: string, anchors: seq<string>) {
    exists k :: 0 <= k < |anchors| && ContainsCI(s, anchors[k])
  }

  /** Every pattern of `anchors` is non-empty and free of `c`, in either case. */
  predicate SeparatorFree(anchors: seq<string>, c: char) {
    forall k :: 0 <= k < |anchors| ==> |anchors[k]| > 0 && AsciiLower(c) !in anchors[k]
  }

  /** A separator that no anchor contains splits an occurrence of an anchor to one side. */
  lemma ContainsAnySplit(a: string, c: char, b: string, anchors: seq<string>)
    requires SeparatorFree(anchors, c)
    requires ContainsAny(a + [c] + b, anchors)
    ensures ContainsAny(a, anchors) || ContainsAny(b, anchors)
  {
    var k :| 0 <= k < |anchors| && ContainsCI(a + [c] + b, anchors[k]);
    ContainsSplit(a, c, b, anchors[k]);
  }

  /** A string contains, ignoring case, each of its slices. */
  lemma SliceFound(s: string, w: string, k: nat)
    requires k + |w| <= |s| && s[k..k + |w|] == w
    ensures ContainsCI(s, LowerString(w))
  {
    var lw := LowerString(w);
    forall m | 0 <= m < |lw| ensures AsciiLower(s[k + m]) == lw[m] {
      assert s[k + m] == s[k..k + |w|][m];
    }
    OccurrenceFound(s, lw, k);
  }

  /** A string contains, ignoring case, every string it has as an infix. */
  lemma InfixFound(x: string, w: string, y: string)
    ensures ContainsCI(x + w + y, LowerString(w))
  {
    var s := x + w + y;
    assert s[|x|..|x| + |w|] == w;
    SliceFound(s, w, |x|);
  }

  /** One alternative that occurs is enough. */
  lemma AlternativeMatches(s: string, alternatives: seq<string>, k: nat)
    requires k < |alternatives| && ContainsCI(s, alternatives[k])
    ensures ContainsAny(s, alternatives)
  {
  }
}
