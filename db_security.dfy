/**
 * The parameter sanitisers placed between request values and the database: an
 * identifier filter, the page/limit/offset arithmetic of paginated reads, and the
 * clamping of numeric parameters such as coordinates.
 */
module DbSecurity {
  import opened Wrappers
  import opened Text
  import opened JsValues
  import opened Errors

  /* ----- escapeIdentifier ----- */

  /** `s.replace(/[^a-zA-Z0-9_]/g, '')`: the characters of `s` that `\w` matches, in order. */
  function KeepWordChars(s: string): (r: string)
    ensures |r| <= |s|
    ensures forall i :: 0 <= i < |r| ==> IsWordChar(r[i])
  {
    if s == [] then [] else (if IsWordChar(s[0]) then [s[0]] else []) + KeepWordChars(s[1..])
  }

  /** The filter distributes over concatenation: what it keeps of `a` precedes what it keeps of `b`. */
  lemma {:induction false} KeepWordCharsAppend(a: string, b: string)
    ensures KeepWordChars(a + b) == KeepWordChars(a) + KeepWordChars(b)
  {
    if a != [] {
      assert (a + b)[1..] == a[1..] + b;
      KeepWordCharsAppend(a[1..], b);
    } else {
      assert a + b == b;
    }
  }

  /** A string made only of word characters passes the filter unchanged. */
  lemma {:induction false} KeepWordCharsOfWord(s: string)
    requires forall i :: 0 <= i < |s| ==> IsWordChar(s[i])
    ensures KeepWordChars(s) == s
  {
    if s != [] {
      KeepWordCharsOfWord(s[1..]);
    }
  }

  /** Every word character of `s` is kept as often as it occurs, every other character is dropped. */
  lemma {:induction false} KeepWordCharsCounts(s: string, c: char)
    ensures multiset(KeepWordChars(s))[c] == if IsWordChar(c) then multiset(s)[c] else 0
  {
    if s != [] {
      KeepWordCharsCounts(s[1..], c);
      var head := if IsWordChar(s[0]) then [s[0]] else [];
      assert KeepWordChars(s) == head + KeepWordChars(s[1..]);
      assert multiset(KeepWordChars(s)) == multiset(head) + multiset(KeepWordChars(s[1..]));
      assert s == [s[0]] + s[1..];
      assert multiset(s) == multiset([s[0]]) + multiset(s[1..]);
    }
  }

  /** `escapeIdentifier(identifier)`; a truthy non-string has no `replace` method. */
  function EscapeIdentifier(identifier: JsValue): (r: Result<string, AppError>)
    ensures Falsy(identifier) ==> r.Ok? && r.value == ""
    ensures r.Ok? <==> Falsy(identifier) || identifier.Str?
    ensures identifier.Str? ==> r.Ok? && r.value == KeepWordChars(identifier.s)
    ensures r.Err? ==> r.error.OtherError? && r.error.errorName == "TypeError"
  {
    if Falsy(identifier) then Ok("")
    else if identifier.Str? then Ok(KeepWordChars(identifier.s))
    else Err(OtherError("TypeError", "identifier.replace is not a function"))
  }

  /** Escaping an escaped identifier changes nothing. */
  lemma EscapeIdentifierIdempotent(identifier: JsValue)
    requires EscapeIdentifier(identifier).Ok?
    ensures EscapeIdentifier(Str(EscapeIdentifier(identifier).value)).Ok?
    ensures EscapeIdentifier(Str(EscapeIdentifier(identifier).value)).value == EscapeIdentifier(identifier).value
  {
    var e := EscapeIdentifier(identifier).value;
    if e != "" {
      KeepWordCharsOfWord(e);
    }
  }

  /* ----- sanitizePaginationParams ----- */

  /** `n || d` for the result `n` of `parseInt`: NaN and 0 are falsy. */
  function OrDefault(n: Option<int>, d: int): int {
    if n.None? || n.value == 0 then d else n.value
  }

  function Max(a: int, b: int): int {
    if a >= b then a else b
  }

  function Min(a: int, b: int): int {
    if a <= b then a else b
  }

  datatype Pagination = Pagination(page: int, limit: int, offset: int)

  /** `offset` as written, for a page and a limit that are both at least 1. */
  function Offset(page: int, limit: int): (offset: int)
    requires page >= 1 && limit >= 1
    ensures offset >= 0 && offset + limit == page * limit
  {
    (page - 1) * limit
  }

  /** `sanitizePaginationParams(page, limit)` */
  function SanitizePaginationParams(page: JsValue, limit: JsValue): (r: Pagination)
    ensures r.page >= 1
    ensures 1 <= r.limit <= 100
    ensures r.offset >= 0 && r.offset == (r.page - 1) * r.limit
    ensures ParseInt(page).Some? && ParseInt(page).value >= 1 ==> r.page == ParseInt(page).value
    ensures ParseInt(page).None? || ParseInt(page).value <= 0 ==> r.page == 1
    ensures ParseInt(limit).Some? && 1 <= ParseInt(limit).value <= 100 ==> r.limit == ParseInt(limit).value
    ensures ParseInt(limit).None? || ParseInt(limit).value == 0 ==> r.limit == 10
    ensures ParseInt(limit).Some? && ParseInt(limit).value < 0 ==> r.limit == 1
    ensures ParseInt(limit).Some? && ParseInt(limit).value > 100 ==> r.limit == 100
  {
    var sanitizedPage := Max(1, OrDefault(ParseInt(page), 1));
    var sanitizedLimit := Min(Max(1, OrDefault(ParseInt(limit), 10)), 100);
    Pagination(sanitizedPage, sanitizedLimit, Offset(sanitizedPage, sanitizedLimit))
  }

  /** Sanitising the page and limit it produced gives the same pagination back. */
  lemma PaginationIdempotent(page: JsValue, limit: JsValue)
    ensures var p := SanitizePaginationParams(page, limit);
            SanitizePaginationParams(Num(p.page as real), Num(p.limit as real)) == p
  {
    var p := SanitizePaginationParams(page, limit);
    assert Truncate(p.page as real) == p.page;
    assert Truncate(p.limit as real) == p.limit;
  }

  /** Consecutive pages tile the rows: page `n + 1` starts where page `n` ends. */
  lemma PagesAdjacent(n: nat, limit: JsValue)
    requires n >= 1
    ensures var p := SanitizePaginationParams(Num(n as real), limit);
            var q := SanitizePaginationParams(Num((n + 1) as real), limit);
            q.offset == p.offset + p.limit && q.limit == p.limit
  {
    assert Truncate(n as real) == n;
    assert Truncate((n + 1) as real) == n + 1;
  }

  /* ----- sanitizeNumericParam ----- */

  /** `sanitizeNumericParam(value, defaultValue, min, max)`; `None` stands for an omitted bound. */
  function SanitizeNumericParam(value: JsValue, defaultValue: real, min: Option<real>, max: Option<real>): (r: real)
    ensures ParseFloat(value).None? ==> r == defaultValue
    ensures ParseFloat(value).Some? && min.Some? && ParseFloat(value).value < min.value ==> r == min.value
    ensures (ParseFloat(value).Some? && (min.None? || ParseFloat(value).value >= min.value)
             && max.Some? && ParseFloat(value).value > max.value) ==> r == max.value
    ensures (ParseFloat(value).Some? && (min.None? || ParseFloat(value).value >= min.value)
             && (max.None? || ParseFloat(value).value <= max.value)) ==> r == ParseFloat(value).value
  {
    var parsed := ParseFloat(value);
    if parsed.None? then defaultValue
    else if min.Some? && parsed.value < min.value then min.value
    else if max.Some? && parsed.value > max.value then max.value
    else parsed.value
  }

  /** With `min <= max`, a parsed value is clamped into `[min, max]`; the default is not checked. */
  lemma NumericParamWithinBounds(value: JsValue, defaultValue: real, lo: real, hi: real)
    requires lo <= hi
    ensures var r := SanitizeNumericParam(value, defaultValue, Some(lo), Some(hi));
            ParseFloat(value).Some? ==> lo <= r <= hi
    ensures lo <= defaultValue <= hi ==> lo <= SanitizeNumericParam(value, defaultValue, Some(lo), Some(hi)) <= hi
  {
  }

  /** With `min <= max`, clamping a clamped value changes nothing. */
  lemma NumericParamIdempotent(value: JsValue, defaultValue: real, min: Option<real>, max: Option<real>)
    requires min.Some? && max.Some? ==> min.value <= max.value
    requires ParseFloat(value).Some?
    ensures var r := SanitizeNumericParam(value, defaultValue, min, max);
            SanitizeNumericParam(Num(r), defaultValue, min, max) == r
  {
  }

  /**
   * The bounds the controller passes for coordinates lie strictly inside the ranges the field
   * validator accepts, so a sanitised coordinate is always a valid one.
   */
  lemma ControllerCoordinatesValid(latitude: JsValue, longitude: JsValue)
    ensures -90.0 < SanitizeNumericParam(latitude, 0.0, Some(-89.999999), Some(89.999999)) < 90.0
    ensures -180.0 < SanitizeNumericParam(longitude, 0.0, Some(-179.999999), Some(179.999999)) < 180.0
  {
  }
}
