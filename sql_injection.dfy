/**
 * The SQL-injection screen: the fixed signature list, and the two Express middlewares
 * that apply it to the query string and to the request body.
 */
module SqlInjection {
  import opened Wrappers
  import opened Text
  import opened TextLemmas
  import opened JsValues
  import Errors
  import Middleware

  /* ----- The ten signatures of SQL_INJECTION_PATTERNS, in order ----- */

  /** `%27`, a quote, `--`, `%23` or `#` (`%27` and `%23` are the percent-encoded quote and hash). */
  predicate QuoteOrCommentMarker(s: string) {
    ContainsAny(s, QuoteOrCommentMarkers)
  }

  const QuoteOrCommentMarkers: seq<string> := ["%27", "'", "--", "%23", "#"]

  /** `%3B` or `;` (`%3B` is the percent-encoded semicolon). */
  predicate StatementSeparator(s: string) {
    ContainsAny(s, SeparatorMarkers)
  }

  const SeparatorMarkers: seq<string> := ["%3b", ";"]

  /** `union`, then `select` or `all` later on the same line. */
  predicate UnionQuery(s: string) {
    ContainsSameLine(s, "union", "select") || ContainsSameLine(s, "union", "all")
  }

  /** A data-manipulation or data-definition keyword anywhere, even inside a word. */
  predicate StatementKeyword(s: string) {
    ContainsAny(s, StatementKeywords)
  }

  const StatementKeywords: seq<string> := ["select", "update", "insert", "delete", "drop", "alter", "create", "truncate"]

  /** `exec`, `char`, `cast`, `convert` or `concat` applied to an argument list. */
  predicate DangerousCall(s: string) {
    ContainsCall(s, "exec") || ContainsCall(s, "char") || ContainsCall(s, "cast")
    || ContainsCall(s, "convert") || ContainsCall(s, "concat")
  }

  /** `waitfor delay`, `sleep(` or `benchmark(`. */
  predicate TimingAttack(s: string) {
    ContainsSpacedPair(s, "waitfor", "delay") || ContainsCall(s, "sleep") || ContainsCall(s, "benchmark")
  }

  /** `load_file`, `outfile` or `dumpfile`. */
  predicate FileOperation(s: string) {
    ContainsAny(s, FileOperationKeywords)
  }

  const FileOperationKeywords: seq<string> := ["load_file", "outfile", "dumpfile"]

  /** `%u0027`, `%u02b9`, `%u02bc` or `%u02c8`: escaped quote look-alikes. */
  predicate EncodedQuote(s: string) {
    ContainsAny(s, EncodedQuoteMarkers)
  }

  const EncodedQuoteMarkers: seq<string> := ["%u0027", "%u02b9", "%u02bc", "%u02c8"]

  /** An encoded semicolon followed by a statement keyword. */
  predicate EncodedSeparatorStatement(s: string) {
    ContainsSpacedPair(s, "%3b", "select") || ContainsSpacedPair(s, "%3b", "insert")
    || ContainsSpacedPair(s, "%3b", "update") || ContainsSpacedPair(s, "%3b", "delete")
    || ContainsSpacedPair(s, "%3b", "drop")
  }

  /** `--` followed only by white space up to the end, or a block comment. */
  predicate TrailingOrBlockComment(s: string) {
    EndsAfterSpaces(s, "--") || ContainsBlockComment(s)
  }

  /** The number of entries of SQL_INJECTION_PATTERNS. */
  const SignatureCount: nat := 10

  /** `SQL_INJECTION_PATTERNS[k].test(s)` */
  predicate Signature(k: nat, s: string)
    requires k < SignatureCount
  {
    match k
    case 0 => QuoteOrCommentMarker(s)
    case 1 => StatementSeparator(s)
    case 2 => UnionQuery(s)
    case 3 => StatementKeyword(s)
    case 4 => DangerousCall(s)
    case 5 => TimingAttack(s)
    case 6 => FileOperation(s)
    case 7 => EncodedQuote(s)
    case 8 => EncodedSeparatorStatement(s)
    case _ => TrailingOrBlockComment(s)
  }

  /** `Array.prototype.some` over the patterns from index `k` on, in list order. */
  predicate SomeSignatureFrom(s: string, k: nat)
    requires k <= SignatureCount
    decreases SignatureCount - k
  {
    k < SignatureCount && (Signature(k, s) || SomeSignatureFrom(s, k + 1))
  }

  /** `SQL_INJECTION_PATTERNS.some(pattern => pattern.test(s))` */
  predicate MatchesSqlSignature(s: string) {
    SomeSignatureFrom(s, 0)
  }

  /** `containsSqlInjection(v)`: a falsy or non-string value is rejected before any pattern is tried. */
  predicate ContainsSqlInjection(v: JsValue) {
    if Falsy(v) || !v.Str? then false else MatchesSqlSignature(v.s)
  }

  /* ----- What the screen flags ----- */

  /** The scan over the list is true exactly when one of the ten patterns matches. */
  lemma {:induction false} SomeSignatureFromIff(s: string, k: nat)
    requires k <= SignatureCount
    ensures SomeSignatureFrom(s, k) <==> exists j :: k <= j < SignatureCount && Signature(j, s)
    decreases SignatureCount - k
  {
    if k < SignatureCount {
      SomeSignatureFromIff(s, k + 1);
    }
  }

  /** `containsSqlInjection` holds iff the value is a non-empty string and some pattern matches it. */
  lemma FlaggedIffSomeSignature(v: JsValue)
    ensures ContainsSqlInjection(v) <==> v.Str? && v.s != "" && exists j :: 0 <= j < SignatureCount && Signature(j, v.s)
  {
    if v.Str? {
      SomeSignatureFromIff(v.s, 0);
    }
  }

  /** Any one matching pattern is enough for a non-empty string to be flagged. */
  lemma SignatureFlags(s: string, j: nat)
    requires j < SignatureCount && Signature(j, s)
    ensures ContainsSqlInjection(Str(s))
  {
    SomeSignatureFromIff(s, 0);
    if s == [] {
      // Every pattern needs at least one character.
      assert false;
    }
  }

  /** A quote, a double dash, a hash or a semicolon anywhere is flagged. */
  lemma MarkerFlagged(x: string, marker: string, y: string)
    requires marker in ["'", "--", "#", ";"]
    ensures ContainsSqlInjection(Str(x + marker + y))
  {
    var s := x + marker + y;
    assert LowerString(marker) == marker;
    InfixFound(x, marker, y);
    if marker == ";" {
      AlternativeMatches(s, SeparatorMarkers, 1);
      SignatureFlags(s, 1);
    } else {
      AlternativeMatches(s, QuoteOrCommentMarkers, if marker == "'" then 1 else if marker == "--" then 2 else 4);
      SignatureFlags(s, 0);
    }
  }

  /** A statement keyword anywhere, in any mix of case and even inside a longer word, is flagged. */
  lemma KeywordFlagged(x: string, word: string, y: string)
    requires LowerString(word) in StatementKeywords
    ensures ContainsSqlInjection(Str(x + word + y))
  {
    var s := x + word + y;
    InfixFound(x, word, y);
    var k :| 0 <= k < |StatementKeywords| && StatementKeywords[k] == LowerString(word);
    AlternativeMatches(s, StatementKeywords, k);
    SignatureFlags(s, 3);
  }

  /** The ordinary word "Created" is rejected, because it contains "create". */
  lemma CreatedIsFlagged()
    ensures ContainsSqlInjection(Str("Created"))
  {
    assert LowerString("Create") == "create";
    KeywordFlagged("", "Create", "d");
    assert "" + "Create" + "d" == "Created";
  }

  /** A value that is not a string, or is the empty string, is never flagged. */
  lemma NonStringsNotFlagged(v: JsValue)
    requires !v.Str? || v.s == ""
    ensures !ContainsSqlInjection(v)
  {
  }

  /* ----- Anchors: a fixed text every match of a pattern contains ----- */

  /** The keywords of the call patterns (pattern 5) and of the timing patterns (pattern 6). */
  const CallKeywords: seq<string> := ["exec", "char", "cast", "convert", "concat"]
  const TimingKeywords: seq<string> := ["waitfor", "sleep", "benchmark"]

  /** `s` holds, ignoring case, a text that every match of some pattern contains. */
  predicate HasSqlAnchor(s: string) {
    ContainsAny(s, QuoteOrCommentMarkers) || ContainsAny(s, SeparatorMarkers) || ContainsCI(s, "union")
    || ContainsAny(s, StatementKeywords) || ContainsAny(s, CallKeywords) || ContainsAny(s, TimingKeywords)
    || ContainsAny(s, FileOperationKeywords) || ContainsAny(s, EncodedQuoteMarkers) || ContainsCI(s, "/*")
  }

  lemma UnionQueryAnchor(s: string)
    requires UnionQuery(s)
    ensures ContainsCI(s, "union")
  {
    if ContainsSameLine(s, "union", "select") {
      SameLineHasAnchor(s, "union", "select", 0);
    } else {
      SameLineHasAnchor(s, "union", "all", 0);
    }
  }

  lemma DangerousCallAnchor(s: string)
    requires DangerousCall(s)
    ensures ContainsAny(s, CallKeywords)
  {
    var k := if ContainsCall(s, "exec") then 0 else if ContainsCall(s, "char") then 1
             else if ContainsCall(s, "cast") then 2 else if ContainsCall(s, "convert") then 3 else 4;
    CallHasAnchor(s, CallKeywords[k], 0);
    AlternativeMatches(s, CallKeywords, k);
  }

  lemma TimingAttackAnchor(s: string)
    requires TimingAttack(s)
    ensures ContainsAny(s, TimingKeywords)
  {
    if ContainsSpacedPair(s, "waitfor", "delay") {
      SpacedPairHasAnchor(s, "waitfor", "delay", 0);
      AlternativeMatches(s, TimingKeywords, 0);
    } else if ContainsCall(s, "sleep") {
      CallHasAnchor(s, "sleep", 0);
      AlternativeMatches(s, TimingKeywords, 1);
    } else {
      CallHasAnchor(s, "benchmark", 0);
      AlternativeMatches(s, TimingKeywords, 2);
    }
  }

  lemma EncodedSeparatorAnchor(s: string)
    requires EncodedSeparatorStatement(s)
    ensures ContainsAny(s, SeparatorMarkers)
  {
    var keywords := ["select", "insert", "update", "delete", "drop"];
    var k := if ContainsSpacedPair(s, "%3b", "select") then 0 else if ContainsSpacedPair(s, "%3b", "insert") then 1
             else if ContainsSpacedPair(s, "%3b", "update") then 2 else if ContainsSpacedPair(s, "%3b", "delete") then 3 else 4;
    SpacedPairHasAnchor(s, "%3b", keywords[k], 0);
    AlternativeMatches(s, SeparatorMarkers, 0);
  }

  lemma TrailingOrBlockCommentAnchor(s: string)
    requires TrailingOrBlockComment(s)
    ensures ContainsAny(s, QuoteOrCommentMarkers) || ContainsCI(s, "/*")
  {
    if EndsAfterSpaces(s, "--") {
      EndsAfterSpacesHasAnchor(s, "--", 0);
      AlternativeMatches(s, QuoteOrCommentMarkers, 2);
    } else {
      BlockCommentHasAnchor(s, 0);
    }
  }

  /** A string that some pattern matches contains one of the anchors. */
  lemma SignatureHasAnchor(s: string)
    requires MatchesSqlSignature(s)
    ensures HasSqlAnchor(s)
  {
    SomeSignatureFromIff(s, 0);
    var j :| 0 <= j < SignatureCount && Signature(j, s);
    match j
    case 2 => UnionQueryAnchor(s);
    case 4 => DangerousCallAnchor(s);
    case 5 => TimingAttackAnchor(s);
    case 8 => EncodedSeparatorAnchor(s);
    case 9 => TrailingOrBlockCommentAnchor(s);
    case _ =>
  }

  /** No anchor holds a space: the markers, */
  lemma MarkersSpaceFree()
    ensures SeparatorFree(QuoteOrCommentMarkers, ' ') && SeparatorFree(SeparatorMarkers, ' ')
    ensures SeparatorFree(EncodedQuoteMarkers, ' ') && SeparatorFree(["union", "/*"], ' ')
  {
  }

  /** and the keywords. */
  lemma KeywordsSpaceFree()
    ensures SeparatorFree(StatementKeywords, ' ') && SeparatorFree(CallKeywords, ' ')
    ensures SeparatorFree(TimingKeywords, ' ') && SeparatorFree(FileOperationKeywords, ' ')
  {
  }

  /** So an anchor in `a + " " + b` lies within `a` or within `b`. */
  lemma SqlAnchorSplitAtSpace(a: string, b: string)
    requires HasSqlAnchor(a + " " + b)
    ensures HasSqlAnchor(a) || HasSqlAnchor(b)
  {
    var s := a + " " + b;
    assert s == a + [' '] + b;
    MarkersSpaceFree();
    KeywordsSpaceFree();
    if ContainsAny(s, QuoteOrCommentMarkers) { ContainsAnySplit(a, ' ', b, QuoteOrCommentMarkers); }
    else if ContainsAny(s, SeparatorMarkers) { ContainsAnySplit(a, ' ', b, SeparatorMarkers); }
    else if ContainsCI(s, "union") {
      AlternativeMatches(s, ["union", "/*"], 0);
      ContainsAnySplit(a, ' ', b, ["union", "/*"]);
    }
    else if ContainsAny(s, StatementKeywords) { ContainsAnySplit(a, ' ', b, StatementKeywords); }
    else if ContainsAny(s, CallKeywords) { ContainsAnySplit(a, ' ', b, CallKeywords); }
    else if ContainsAny(s, TimingKeywords) { ContainsAnySplit(a, ' ', b, TimingKeywords); }
    else if ContainsAny(s, FileOperationKeywords) { ContainsAnySplit(a, ' ', b, FileOperationKeywords); }
    else if ContainsAny(s, EncodedQuoteMarkers) { ContainsAnySplit(a, ' ', b, EncodedQuoteMarkers); }
    else {
      AlternativeMatches(s, ["union", "/*"], 1);
      ContainsAnySplit(a, ' ', b, ["union", "/*"]);
    }
  }

  /** A string without an anchor is not flagged. */
  lemma UnanchoredNotFlagged(s: string)
    requires !HasSqlAnchor(s)
    ensures !ContainsSqlInjection(Str(s))
  {
    if MatchesSqlSignature(s) {
      SignatureHasAnchor(s);
    }
  }

  /** The words of the sample records and coordinates, and `<script>`, which the address screen therefore lets through. */
  const UnanchoredWords: seq<string> := ["Test", "School", "123", "Street", "not", "a", "number", "<script>", "2"]

  /** None of those words holds an anchor. */
  lemma WordUnanchored(w: string)
    requires w in UnanchoredWords
    ensures !HasSqlAnchor(w)
  {
    WordsFreeOfMarkers();
    WordsFreeOfEncodedQuotes();
    WordsFreeOfStatements();
    WordsFreeOfTimingAndFiles();
    var i :| 0 <= i < |UnanchoredWords| && UnanchoredWords[i] == w;
    if ContainsAny(w, QuoteOrCommentMarkers) || ContainsAny(w, SeparatorMarkers) || ContainsAny(w, EncodedQuoteMarkers) {
      assert false;
    }
    if ContainsAny(w, StatementKeywords) || ContainsAny(w, CallKeywords) || ContainsAny(w, TimingKeywords)
       || ContainsAny(w, FileOperationKeywords) {
      assert false;
    }
  }

  lemma WordsFreeOfMarkers()
    ensures forall i, k | 0 <= i < |UnanchoredWords| && 0 <= k < |QuoteOrCommentMarkers| :: !ContainsCI(UnanchoredWords[i], QuoteOrCommentMarkers[k])
    ensures forall i, k | 0 <= i < |UnanchoredWords| && 0 <= k < |SeparatorMarkers| :: !ContainsCI(UnanchoredWords[i], SeparatorMarkers[k])
  {
    forall i, k | 0 <= i < |UnanchoredWords| && 0 <= k < |QuoteOrCommentMarkers| ensures !ContainsCI(UnanchoredWords[i], QuoteOrCommentMarkers[k]) {}
    forall i, k | 0 <= i < |UnanchoredWords| && 0 <= k < |SeparatorMarkers| ensures !ContainsCI(UnanchoredWords[i], SeparatorMarkers[k]) {}
  }

  lemma WordsFreeOfEncodedQuotes()
    ensures forall i, k | 0 <= i < |UnanchoredWords| && 0 <= k < |EncodedQuoteMarkers| :: !ContainsCI(UnanchoredWords[i], EncodedQuoteMarkers[k])
  {
    forall i, k | 0 <= i < |UnanchoredWords| && 0 <= k < |EncodedQuoteMarkers| ensures !ContainsCI(UnanchoredWords[i], EncodedQuoteMarkers[k]) {}
  }

  lemma WordsFreeOfStatements()
    ensures forall i, k | 0 <= i < |UnanchoredWords| && 0 <= k < |StatementKeywords| :: !ContainsCI(UnanchoredWords[i], StatementKeywords[k])
    ensures forall i, k | 0 <= i < |UnanchoredWords| && 0 <= k < |CallKeywords| :: !ContainsCI(UnanchoredWords[i], CallKeywords[k])
  {
    forall i, k | 0 <= i < |UnanchoredWords| && 0 <= k < |StatementKeywords| ensures !ContainsCI(UnanchoredWords[i], StatementKeywords[k]) {}
    forall i, k | 0 <= i < |UnanchoredWords| && 0 <= k < |CallKeywords| ensures !ContainsCI(UnanchoredWords[i], CallKeywords[k]) {}
  }

  lemma WordsFreeOfTimingAndFiles()
    ensures forall i, k | 0 <= i < |UnanchoredWords| && 0 <= k < |TimingKeywords| :: !ContainsCI(UnanchoredWords[i], TimingKeywords[k])
    ensures forall i, k | 0 <= i < |UnanchoredWords| && 0 <= k < |FileOperationKeywords| :: !ContainsCI(UnanchoredWords[i], FileOperationKeywords[k])
  {
    forall i, k | 0 <= i < |UnanchoredWords| && 0 <= k < |TimingKeywords| ensures !ContainsCI(UnanchoredWords[i], TimingKeywords[k]) {}
    forall i, k | 0 <= i < |UnanchoredWords| && 0 <= k < |FileOperationKeywords| ensures !ContainsCI(UnanchoredWords[i], FileOperationKeywords[k]) {}
  }

  /* "Test School", "123 Test Street" and "not a number" pass the screen. */

  lemma SampleNameNotFlagged(s: string)
    requires s == "Test School"
    ensures !ContainsSqlInjection(Str(s))
  {
    PairUnanchored("Test", "School");
    assert s == "Test" + " " + "School";
    UnanchoredNotFlagged(s);
  }

  lemma SampleAddressNotFlagged(s: string)
    requires s == "123 Test Street"
    ensures !ContainsSqlInjection(Str(s))
  {
    var rest := "Test" + " " + "Street";
    PairUnanchored("Test", "Street");
    WordBeforeUnanchored("123", rest);
    assert s == "123" + " " + rest;
    UnanchoredNotFlagged(s);
  }

  /** Two listed words joined by a space carry no anchor either. */
  lemma PairUnanchored(first: string, second: string)
    requires first in UnanchoredWords && second in UnanchoredWords
    ensures !HasSqlAnchor(first + " " + second)
  {
    WordUnanchored(first); WordUnanchored(second);
    if HasSqlAnchor(first + " " + second) { SqlAnchorSplitAtSpace(first, second); }
  }

  /** A listed word, a space and a phrase without an anchor carry no anchor. */
  lemma WordBeforeUnanchored(word: string, rest: string)
    requires word in UnanchoredWords && !HasSqlAnchor(rest)
    ensures !HasSqlAnchor(word + " " + rest)
  {
    WordUnanchored(word);
    if HasSqlAnchor(word + " " + rest) { SqlAnchorSplitAtSpace(word, rest); }
  }

  lemma NotANumberNotFlagged(s: string)
    requires s == "not a number"
    ensures !ContainsSqlInjection(Str(s))
  {
    var rest := "a" + " " + "number";
    PairUnanchored("a", "number");
    WordBeforeUnanchored("not", rest);
    assert s == "not" + " " + rest;
    UnanchoredNotFlagged(s);
  }

  /* ----- checkObjectForSqlInjection: the walk over a nested request body ----- */

  /** `path ? `${path}.${key}` : key` */
  function ChildPath(path: string, key: string): string {
    if path == "" then key else path + "." + key
  }

  /** The dotted paths of the flagged string leaves under `v`, in the order the walk visits them. */
  function FlaggedPaths(v: JsValue, path: string): seq<string>
    decreases v
  {
    if v.Obj? then FlaggedPathsIn(v.props, path) else []
  }

  function FlaggedPathsIn(props: seq<Property>, path: string): seq<string>
    decreases props
  {
    if props == [] then []
    else
      var p := props[0];
      var here := ChildPath(path, p.key);
      (if p.value.Str? && ContainsSqlInjection(p.value) then [here]
       else if p.value.Obj? then FlaggedPaths(p.value, here)
       else [])
      + FlaggedPathsIn(props[1..], path)
  }

  /**
   * Following property `steps[0]` of `props`, then property `steps[1]` of the object found there,
   * and so on, ends at a flagged string whose dotted path is `leaf`.
   */
  ghost predicate FlaggedLeafIn(props: seq<Property>, path: string, steps: seq<nat>, leaf: string)
    decreases steps
  {
    |steps| > 0 && steps[0] < |props|
    && var p := props[steps[0]];
    var here := ChildPath(path, p.key);
    if |steps| == 1 then p.value.Str? && ContainsSqlInjection(p.value) && leaf == here
    else p.value.Obj? && FlaggedLeafIn(p.value.props, here, steps[1..], leaf)
  }

  /** Dropping the first property moves every route one place down. */
  lemma FlaggedLeafInTail(props: seq<Property>, path: string, steps: seq<nat>, leaf: string)
    requires |props| > 0 && |steps| > 0
    ensures FlaggedLeafIn(props[1..], path, steps, leaf) <==> FlaggedLeafIn(props, path, [steps[0] + 1] + steps[1..], leaf)
  {
    var steps' := [steps[0] + 1] + steps[1..];
    assert steps'[1..] == steps[1..];
    if steps[0] < |props| - 1 {
      assert props[1..][steps[0]] == props[steps'[0]];
    }
  }

  /** Every path the walk lists leads, through objects, to a flagged string. */
  lemma {:induction false} RouteOfFlaggedPath(props: seq<Property>, path: string, leaf: string) returns (steps: seq<nat>)
    requires leaf in FlaggedPathsIn(props, path)
    ensures FlaggedLeafIn(props, path, steps, leaf)
    decreases props
  {
    var p := props[0];
    var here := ChildPath(path, p.key);
    var head := if p.value.Str? && ContainsSqlInjection(p.value) then [here]
                else if p.value.Obj? then FlaggedPaths(p.value, here) else [];
    assert FlaggedPathsIn(props, path) == head + FlaggedPathsIn(props[1..], path);
    if leaf in head {
      if p.value.Str? && ContainsSqlInjection(p.value) {
        steps := [0];
      } else {
        var st := RouteOfFlaggedPath(p.value.props, here, leaf);
        steps := [0] + st;
        assert steps[1..] == st;
      }
    } else {
      var st := RouteOfFlaggedPath(props[1..], path, leaf);
      FlaggedLeafInTail(props, path, st, leaf);
      steps := [st[0] + 1] + st[1..];
    }
  }

  /** Every flagged string reachable through objects is listed by the walk. */
  lemma {:induction false} FlaggedPathOfRoute(props: seq<Property>, path: string, steps: seq<nat>, leaf: string)
    requires FlaggedLeafIn(props, path, steps, leaf)
    ensures leaf in FlaggedPathsIn(props, path)
    decreases props
  {
    var p := props[0];
    var here := ChildPath(path, p.key);
    var head := if p.value.Str? && ContainsSqlInjection(p.value) then [here]
                else if p.value.Obj? then FlaggedPaths(p.value, here) else [];
    assert FlaggedPathsIn(props, path) == head + FlaggedPathsIn(props[1..], path);
    if steps[0] == 0 {
      if |steps| > 1 {
        FlaggedPathOfRoute(p.value.props, here, steps[1..], leaf);
      }
      assert leaf in head;
    } else {
      var st := [steps[0] - 1] + steps[1..];
      assert [st[0] + 1] + st[1..] == steps;
      FlaggedLeafInTail(props, path, st, leaf);
      FlaggedPathOfRoute(props[1..], path, st, leaf);
    }
  }

  /** The walk lists exactly the paths of the flagged string leaves that can be reached through objects. */
  lemma FlaggedPathsInAreReachableLeaves(props: seq<Property>, path: string, leaf: string)
    ensures leaf in FlaggedPathsIn(props, path) <==> exists steps :: FlaggedLeafIn(props, path, steps, leaf)
  {
    if leaf in FlaggedPathsIn(props, path) {
      var steps := RouteOfFlaggedPath(props, path, leaf);
      assert exists st :: FlaggedLeafIn(props, path, st, leaf);
    }
    forall steps | FlaggedLeafIn(props, path, steps, leaf) ensures leaf in FlaggedPathsIn(props, path) {
      FlaggedPathOfRoute(props, path, steps, leaf);
    }
  }

  /** On a whole value: nothing under a non-object, the reachable flagged leaves under an object. */
  lemma FlaggedPathsAreReachableLeaves(v: JsValue, path: string, leaf: string)
    ensures leaf in FlaggedPaths(v, path) <==> v.Obj? && exists steps :: FlaggedLeafIn(v.props, path, steps, leaf)
  {
    if v.Obj? {
      FlaggedPathsInAreReachableLeaves(v.props, path, leaf);
    }
  }

  /** `new ValidationError([`Potential SQL injection detected in field: ${currentPath}`])` */
  function FieldError(path: string): (e: Errors.AppError)
    ensures e.ValidationError? && e.errors == ["Potential SQL injection detected in field: " + path]
  {
    Errors.ValidationError(["Potential SQL injection detected in field: " + path])
  }

  /**
   * `checkObjectForSqlInjection(obj, path)`: returns normally (None) or throws (Some) the error that
   * names the first flagged string leaf in for-in order, depth first.
   */
  method CheckObjectForSqlInjection(obj: JsValue, path: string) returns (thrown: Option<Errors.AppError>)
    ensures thrown == if FlaggedPaths(obj, path) == [] then None else Some(FieldError(FlaggedPaths(obj, path)[0]))
    decreases obj
  {
    if Falsy(obj) || !obj.Obj? {
      return None;
    }
    var props := obj.props;
    var i := 0;
    while i < |props|
      invariant i <= |props|
      invariant FlaggedPathsIn(props, path) == FlaggedPathsIn(props[i..], path)
    {
      var key, value := props[i].key, props[i].value;
      var currentPath := ChildPath(path, key);
      assert props[i..][1..] == props[i + 1..];
      if value.Str? && ContainsSqlInjection(value) {
        return Some(FieldError(currentPath));
      } else if value.Obj? {
        assert props[i] in props;
        var inner := CheckObjectForSqlInjection(value, currentPath);
        if inner.Some? {
          return inner;
        }
      }
      i := i + 1;
    }
    return None;
  }

  /** `new ValidationError([`Potential SQL injection detected in parameter: ${key}`])` */
  function ParameterError(key: string): (e: Errors.AppError)
    ensures e.ValidationError? && e.errors == ["Potential SQL injection detected in parameter: " + key]
  {
    Errors.ValidationError(["Potential SQL injection detected in parameter: " + key])
  }

  /**
   * `sqlInjectionQueryProtection`: only the top-level values of the query are screened; the
   * first flagged one, in for-in order, is reported by its key.
   */
  method SqlInjectionQueryProtection(query: seq<Property>) returns (next: Middleware.NextCall)
    ensures next.Continue? <==> forall i :: 0 <= i < |query| ==> !ContainsSqlInjection(query[i].value)
    ensures next.Forward? ==>
              exists i :: 0 <= i < |query| && ContainsSqlInjection(query[i].value)
                          && (forall j :: 0 <= j < i ==> !ContainsSqlInjection(query[j].value))
                          && next.error == ParameterError(query[i].key)
  {
    var i := 0;
    while i < |query|
      invariant i <= |query|
      invariant forall j :: 0 <= j < i ==> !ContainsSqlInjection(query[j].value)
    {
      if ContainsSqlInjection(query[i].value) {
        return Middleware.Forward(ParameterError(query[i].key));
      }
      i := i + 1;
    }
    return Middleware.Continue;
  }

  /** `sqlInjectionBodyProtection`: the walk over the whole body, with the thrown error forwarded. */
  method SqlInjectionBodyProtection(body: JsValue) returns (next: Middleware.NextCall)
    ensures next.Continue? <==> FlaggedPaths(body, "") == []
    ensures next.Forward? ==> next.error == FieldError(FlaggedPaths(body, "")[0])
  {
    var thrown := CheckObjectForSqlInjection(body, "");
    if thrown.Some? {
      return Middleware.Forward(thrown.value);
    }
    return Middleware.Continue;
  }
}
