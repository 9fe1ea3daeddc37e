/**
 * The school repository: the HTML-style escaping applied to stored text, and the
 * store of school rows behind `create`, `findAll` and `findAllPaginated`.
 *
 * The MySQL pool is modelled as a store object holding the `schools` table as a
 * sequence of rows in insertion order and the next auto-increment id. A failing
 * query is given to each operation as the message of the error the pool would throw.
 */
module SchoolRepository {
  import opened Wrappers
  import opened Text
  import opened JsValues
  import opened Errors
  import Validator
  import SqlInjection
  import DbSecurity

  /* ----- sanitizeInput ----- */

  /** `s.replace(new RegExp(c, 'g'), rep)` for a single character `c`. */
  function ReplaceAll(s: string, c: char, rep: string): (r: string)
    ensures c !in s ==> r == s
  {
    if s == [] then [] else (if s[0] == c then rep else [s[0]]) + ReplaceAll(s[1..], c, rep)
  }

  lemma {:induction false} ReplaceAllAppend(a: string, b: string, c: char, rep: string)
    ensures ReplaceAll(a + b, c, rep) == ReplaceAll(a, c, rep) + ReplaceAll(b, c, rep)
  {
    if a == [] {
      assert a + b == b;
    } else {
      assert (a + b)[1..] == a[1..] + b;
      ReplaceAllAppend(a[1..], b, c, rep);
    }
  }

  /** The seven replaces of `sanitizeInput`, in the order written; `&` goes first. */
  function ReplaceChain(s: string): string {
    var s1 := ReplaceAll(s, '&', "&amp;");
    var s2 := ReplaceAll(s1, '<', "&lt;");
    var s3 := ReplaceAll(s2, '>', "&gt;");
    var s4 := ReplaceAll(s3, '"', "&quot;");
    var s5 := ReplaceAll(s4, '\'', "&#39;");
    var s6 := ReplaceAll(s5, '\\', "&#92;");
    ReplaceAll(s6, '`', "&#96;")
  }

  /** `sanitizeInput(str)` for the strings `create` receives: '' for '', else the replaces, then trim. */
  function SanitizeInput(str: string): string {
    if str == "" then "" else Trim(ReplaceChain(str))
  }

  /** The characters the escaper rewrites. */
  predicate IsEscaped(c: char) {
    c == '&' || c == '<' || c == '>' || c == '"' || c == '\'' || c == '\\' || c == '`'
  }

  /** The single per-character map the replace chain amounts to. */
  function EscapeChar(c: char): (e: string)
    ensures |e| >= 1 && !IsSpace(e[0]) == !IsSpace(c) && !IsSpace(e[|e| - 1]) == !IsSpace(c)
    ensures !IsEscaped(c) <==> e == [c]
    ensures forall i :: 0 <= i < |e| ==> !IsEscaped(e[i]) || e[i] == '&'
  {
    match c
    case '&' => "&amp;"
    case '<' => "&lt;"
    case '>' => "&gt;"
    case '"' => "&quot;"
    case '\'' => "&#39;"
    case '\\' => "&#92;"
    case '`' => "&#96;"
    case _ => [c]
  }

  /** Every character of `s` replaced by its escape. */
  function EscapeMap(s: string): (r: string)
    ensures forall i :: 0 <= i < |r| ==> !IsEscaped(r[i]) || r[i] == '&'
  {
    if s == [] then [] else EscapeChar(s[0]) + EscapeMap(s[1..])
  }

  lemma {:induction false} EscapeMapAppend(a: string, b: string)
    ensures EscapeMap(a + b) == EscapeMap(a) + EscapeMap(b)
  {
    if a == [] {
      assert a + b == b;
    } else {
      assert (a + b)[1..] == a[1..] + b;
      EscapeMapAppend(a[1..], b);
    }
  }

  /** One replace after the first, applied to a character or to the entity it became earlier. */
  lemma ReplaceStep(s: string, c: char, d: char, rep: string)
    requires IsEscaped(d) && d != '&' && rep == EscapeChar(d)
    requires s == [c] || (s == EscapeChar(c) && c != d)
    ensures ReplaceAll(s, d, rep) == if s == [c] && c == d then EscapeChar(c) else s
  {
    if s == [c] && c == d {
      assert ReplaceAll(s, d, rep) == rep + ReplaceAll([], d, rep);
    }
  }

  /**
   * On one character the chain produces that character's escape: once a replace has
   * produced an entity, no later replace finds its own character in it.
   */
  lemma ReplaceChainOfChar(c: char)
    ensures ReplaceChain([c]) == EscapeChar(c)
  {
    var e := EscapeChar(c);
    var s1 := ReplaceAll([c], '&', "&amp;");
    assert s1 == if c == '&' then e else [c] by {
      if c == '&' {
        assert s1 == "&amp;" + ReplaceAll([], '&', "&amp;");
      }
    }
    var s2 := ReplaceAll(s1, '<', "&lt;");
    ReplaceStep(s1, c, '<', "&lt;");
    var s3 := ReplaceAll(s2, '>', "&gt;");
    ReplaceStep(s2, c, '>', "&gt;");
    var s4 := ReplaceAll(s3, '"', "&quot;");
    ReplaceStep(s3, c, '"', "&quot;");
    var s5 := ReplaceAll(s4, '\'', "&#39;");
    ReplaceStep(s4, c, '\'', "&#39;");
    var s6 := ReplaceAll(s5, '\\', "&#92;");
    ReplaceStep(s5, c, '\\', "&#92;");
    ReplaceStep(s6, c, '`', "&#96;");
  }

  lemma {:induction false} ReplaceChainAppend(a: string, b: string)
    ensures ReplaceChain(a + b) == ReplaceChain(a) + ReplaceChain(b)
  {
    var a1, b1 := ReplaceAll(a, '&', "&amp;"), ReplaceAll(b, '&', "&amp;");
    ReplaceAllAppend(a, b, '&', "&amp;");
    var a2, b2 := ReplaceAll(a1, '<', "&lt;"), ReplaceAll(b1, '<', "&lt;");
    ReplaceAllAppend(a1, b1, '<', "&lt;");
    var a3, b3 := ReplaceAll(a2, '>', "&gt;"), ReplaceAll(b2, '>', "&gt;");
    ReplaceAllAppend(a2, b2, '>', "&gt;");
    var a4, b4 := ReplaceAll(a3, '"', "&quot;"), ReplaceAll(b3, '"', "&quot;");
    ReplaceAllAppend(a3, b3, '"', "&quot;");
    var a5, b5 := ReplaceAll(a4, '\'', "&#39;"), ReplaceAll(b4, '\'', "&#39;");
    ReplaceAllAppend(a4, b4, '\'', "&#39;");
    var a6, b6 := ReplaceAll(a5, '\\', "&#92;"), ReplaceAll(b5, '\\', "&#92;");
    ReplaceAllAppend(a5, b5, '\\', "&#92;");
    ReplaceAllAppend(a6, b6, '`', "&#96;");
  }

  /** The seven chained replaces equal the single per-character escape map. */
  lemma {:induction false} ReplaceChainIsEscapeMap(s: string)
    ensures ReplaceChain(s) == EscapeMap(s)
  {
    if s != [] {
      assert s == [s[0]] + s[1..];
      ReplaceChainAppend([s[0]], s[1..]);
      ReplaceChainOfChar(s[0]);
      ReplaceChainIsEscapeMap(s[1..]);
    }
  }

  lemma {:induction false} TrimStartEscapeMap(s: string)
    ensures TrimStart(EscapeMap(s)) == EscapeMap(TrimStart(s))
  {
    if s != [] {
      var e, rest := EscapeChar(s[0]), EscapeMap(s[1..]);
      assert EscapeMap(s) == e + rest;
      if IsSpace(s[0]) {
        assert (e + rest)[1..] == rest;
        TrimStartEscapeMap(s[1..]);
      } else {
        assert (e + rest)[0] == e[0];
      }
    }
  }

  lemma {:induction false} TrimEndEscapeMap(s: string)
    ensures TrimEnd(EscapeMap(s)) == EscapeMap(TrimEnd(s))
  {
    if s != [] {
      var init, last := s[..|s| - 1], s[|s| - 1];
      assert s == init + [last];
      EscapeMapAppend(init, [last]);
      assert EscapeMap([last]) == EscapeChar(last);
      if IsSpace(last) {
        TrimEndSpaceStep(init, last);
        TrimEndEscapeMap(init);
      } else {
        TrimEndNonSpaceStep(init, last);
      }
    }
  }

  /** A trailing space, escaped or not, is trimmed away. */
  lemma TrimEndSpaceStep(init: string, last: char)
    requires IsSpace(last)
    ensures TrimEnd(EscapeMap(init) + EscapeChar(last)) == TrimEnd(EscapeMap(init))
    ensures TrimEnd(init + [last]) == TrimEnd(init)
  {
    assert !IsEscaped(last);
    assert EscapeChar(last) == [last];
    SpaceTrimmed(EscapeMap(init), last);
    SpaceTrimmed(init, last);
  }

  /** `TrimEnd` drops a trailing white-space character. */
  lemma SpaceTrimmed(t: string, last: char)
    requires IsSpace(last)
    ensures TrimEnd(t + [last]) == TrimEnd(t)
  {
    var e := t + [last];
    assert e[|e| - 1] == last;
    assert e[..|e| - 1] == t;
  }

  /** A trailing character that is not white space, escaped or not, stops the trim. */
  lemma TrimEndNonSpaceStep(init: string, last: char)
    requires !IsSpace(last)
    ensures TrimEnd(EscapeMap(init) + EscapeChar(last)) == EscapeMap(init) + EscapeChar(last)
    ensures TrimEnd(init + [last]) == init + [last]
  {
    var e, l := EscapeMap(init) + EscapeChar(last), EscapeChar(last);
    assert e[|e| - 1] == l[|l| - 1];
  }

  /** Escaping never creates or removes white space at either end, so trimming commutes with it. */
  lemma TrimEscapeMap(s: string)
    ensures Trim(EscapeMap(s)) == EscapeMap(Trim(s))
  {
    TrimStartEscapeMap(s);
    TrimEndEscapeMap(TrimStart(s));
  }

  /** `sanitizeInput` is the per-character escape of the trimmed input. */
  lemma SanitizeInputIsEscapedTrim(str: string)
    ensures SanitizeInput(str) == EscapeMap(Trim(str))
  {
    ReplaceChainIsEscapeMap(str);
    TrimEscapeMap(str);
  }

  /** The output holds none of `<`, `>`, `"`, `'`, `\`, backtick, and no white space at either end. */
  lemma SanitizeInputSafe(str: string)
    ensures var r := SanitizeInput(str);
            (forall i :: 0 <= i < |r| ==> !IsEscaped(r[i]) || r[i] == '&')
            && (r == [] || (!IsSpace(r[0]) && !IsSpace(r[|r| - 1])))
  {
    var r := SanitizeInput(str);
    SanitizeInputIsEscapedTrim(str);
    assert r == EscapeMap(Trim(str));
    if str != "" {
      assert r == Trim(ReplaceChain(str));
    }
  }

  /* ----- Decoding, the inverse the escaper is checked against ----- */

  /** Replaces each of the seven entities by its character, reading left to right; any other `&` stays. */
  function Unescape(t: string): string
    decreases |t|
  {
    if t == [] then []
    else if t[0] != '&' then [t[0]] + Unescape(t[1..])
    else if |t| >= 5 && t[..5] == "&amp;" then "&" + Unescape(t[5..])
    else if |t| >= 4 && t[..4] == "&lt;" then "<" + Unescape(t[4..])
    else if |t| >= 4 && t[..4] == "&gt;" then ">" + Unescape(t[4..])
    else if |t| >= 6 && t[..6] == "&quot;" then "\"" + Unescape(t[6..])
    else if |t| >= 5 && t[..5] == "&#39;" then "'" + Unescape(t[5..])
    else if |t| >= 5 && t[..5] == "&#92;" then "\\" + Unescape(t[5..])
    else if |t| >= 5 && t[..5] == "&#96;" then "`" + Unescape(t[5..])
    else [t[0]] + Unescape(t[1..])
  }

  lemma UnescapeStep(c: char, rest: string)
    ensures Unescape(EscapeChar(c) + rest) == [c] + Unescape(rest)
  {
    var t := EscapeChar(c) + rest;
    if !IsEscaped(c) {
      assert t[0] == c && t[1..] == rest;
    } else {
      UnescapeEntity(c, rest);
    }
  }

  lemma UnescapeEntity(c: char, rest: string)
    requires IsEscaped(c)
    ensures Unescape(EscapeChar(c) + rest) == [c] + Unescape(rest)
  {
    if c == '\'' {
      UnescapeQuoteEntity(rest);
    } else if c == '\\' {
      UnescapeBackslashEntity(rest);
    } else if c == '`' {
      UnescapeBacktickEntity(rest);
    } else {
      UnescapeNamedEntity(c, rest);
    }
  }

  /** The entities with a name, */
  lemma UnescapeNamedEntity(c: char, rest: string)
    requires c == '&' || c == '<' || c == '>' || c == '"'
    ensures Unescape(EscapeChar(c) + rest) == [c] + Unescape(rest)
  {
    var t := EscapeChar(c) + rest;
    match c
    case '&' =>
      assert t[..5] == "&amp;" && t[5..] == rest;
    case '<' =>
      assert t[1] == 'l' && t[..4] == "&lt;" && t[4..] == rest;
    case '>' =>
      assert t[1] == 'g' && t[..4] == "&gt;" && t[4..] == rest;
    case '"' =>
      assert t[1] == 'q' && t[..6] == "&quot;" && t[6..] == rest;
  }

  /** and the numeric ones: `&#39;`, */
  lemma UnescapeQuoteEntity(rest: string)
    ensures Unescape(EscapeChar('\'') + rest) == ['\''] + Unescape(rest)
  {
    var t := EscapeChar('\'') + rest;
    assert t[1] == '#' && t[2] == '3';
    assert t[..5] == "&#39;" && t[5..] == rest;
  }

  /** `&#92;`, */
  lemma UnescapeBackslashEntity(rest: string)
    ensures Unescape(EscapeChar('\\') + rest) == ['\\'] + Unescape(rest)
  {
    var t := EscapeChar('\\') + rest;
    assert t[1] == '#' && t[2] == '9' && t[3] == '2';
    assert t[..5] == "&#92;" && t[5..] == rest;
  }

  /** and `&#96;`. */
  lemma UnescapeBacktickEntity(rest: string)
    ensures Unescape(EscapeChar('`') + rest) == ['`'] + Unescape(rest)
  {
    var t := EscapeChar('`') + rest;
    assert t[1] == '#' && t[2] == '9' && t[3] == '6';
    assert t[..5] == "&#96;" && t[5..] == rest;
  }

  /** Because `&` is escaped too, no entity is escaped twice and decoding restores the input. */
  lemma {:induction false} UnescapeEscapeMap(s: string)
    ensures Unescape(EscapeMap(s)) == s
  {
    if s != [] {
      UnescapeStep(s[0], EscapeMap(s[1..]));
      UnescapeEscapeMap(s[1..]);
    }
  }

  /** Decoding what `sanitizeInput` produced gives back the trimmed input. */
  lemma SanitizeInputRoundTrip(str: string)
    ensures Unescape(SanitizeInput(str)) == Trim(str)
  {
    SanitizeInputIsEscapedTrim(str);
    UnescapeEscapeMap(Trim(str));
  }

  /* ----- The store ----- */

  /** A row of the `schools` table, and the object `create` returns. */
  datatype School = School(id: nat, name: string, address: string, latitude: real, longitude: real)

  /** The `schoolData` handed to `create`: the request's name and address, the sanitised coordinates. */
  datatype NewSchool = NewSchool(name: string, address: string, latitude: real, longitude: real)

  datatype PageInfo = PageInfo(page: int, limit: int, total: nat, totalPages: nat)

  /** The object `findAllPaginated` resolves to. */
  datatype SchoolPage = SchoolPage(schools: seq<School>, pagination: PageInfo)

  /** The guard of `create`: either screen flags the name or the address. */
  predicate HarmfulInput(data: NewSchool) {
    Validator.ContainsInvalidCharacters(data.name)
    || Validator.ContainsInvalidCharacters(data.address)
    || SqlInjection.ContainsSqlInjection(Str(data.name))
    || SqlInjection.ContainsSqlInjection(Str(data.address))
  }

  /**
   * `<script>`, which `validateSchool` lets through as an address, is refused here: the guard
   * screens the address for markup as well.
   */
  lemma MarkupAddressHarmful(data: NewSchool)
    requires data.address == "<script>"
    ensures HarmfulInput(data)
  {
    Validator.MarkupNameRefused(data.address);
  }

  const HarmfulContent: string := "Potentially harmful content detected in input"
  const CreateFailure: string := "Error creating school: "
  const RetrieveFailure: string := "Error retrieving schools: "

  /** `Math.ceil(total / limit)` */
  function TotalPages(total: nat, limit: int): (pages: nat)
    requires limit >= 1
    ensures total == 0 <==> pages == 0
    ensures total > 0 ==> (pages - 1) * limit < total <= pages * limit
  {
    var q := (total + limit - 1) / limit;
    var m := (total + limit - 1) % limit;
    assert q * limit + m == total + limit - 1;
    assert (q - 1) * limit == q * limit - limit;
    q
  }

  /** `LIMIT limit OFFSET offset` over the rows in table order. */
  function Window(rows: seq<School>, offset: nat, limit: nat): (w: seq<School>)
    ensures |w| <= limit
    ensures offset + |w| <= |rows| || w == []
    ensures forall i :: 0 <= i < |w| ==> w[i] == rows[offset + i]
    ensures offset + limit <= |rows| ==> |w| == limit
  {
    if offset >= |rows| then [] else rows[offset..if offset + limit <= |rows| then offset + limit else |rows|]
  }

  class SchoolStore {
    /** The `schools` table in insertion order. */
    var rows: seq<School>
    /** The auto-increment id the next insert receives. */
    var nextId: nat

    /** Ids are assigned by the auto-increment counter, so they increase along the table. */
    ghost predicate Valid()
      reads this
    {
      nextId >= 1
      && (forall i :: 0 <= i < |rows| ==> 1 <= rows[i].id < nextId)
      && (forall i, j :: 0 <= i < j < |rows| ==> rows[i].id < rows[j].id)
    }

    constructor()
      ensures Valid() && rows == [] && nextId == 1
    {
      rows := [];
      nextId := 1;
    }

    /**
     * `create(schoolData)`. `fault` is the message of the error the INSERT would throw.
     * Harmful input is refused before the insert; every failure is rethrown as a
     * DatabaseError prefixed "Error creating school: "; the result carries the caller's
     * unescaped name and address, while the row stores their escaped form.
     */
    method Create(data: NewSchool, fault: Option<string>) returns (r: Result<School, AppError>)
      requires Valid()
      modifies this
      ensures Valid()
      ensures r.Err? ==> r.error.DatabaseError? && |r.error.dbMessage| >= |CreateFailure|
                         && r.error.dbMessage[..|CreateFailure|] == CreateFailure
      ensures HarmfulInput(data) ==> r.Err? && r.error == DatabaseError(CreateFailure + HarmfulContent)
      ensures !HarmfulInput(data) && fault.Some? ==> r.Err? && r.error == DatabaseError(CreateFailure + fault.value)
      ensures r.Err? ==> rows == old(rows) && nextId == old(nextId)
      ensures !HarmfulInput(data) && fault.None? ==>
                r == Ok(School(old(nextId), data.name, data.address, data.latitude, data.longitude))
                && rows == old(rows) + [School(old(nextId), SanitizeInput(data.name), SanitizeInput(data.address),
                                               data.latitude, data.longitude)]
                && nextId == old(nextId) + 1
    {
      var message: string;
      if HarmfulInput(data) {
        message := HarmfulContent;
      } else if fault.Some? {
        message := fault.value;
      } else {
        var id := nextId;
        rows := rows + [School(id, SanitizeInput(data.name), SanitizeInput(data.address), data.latitude, data.longitude)];
        nextId := nextId + 1;
        return Ok(School(id, data.name, data.address, data.latitude, data.longitude));
      }
      r := Err(DatabaseError(CreateFailure + message));
    }

    /** `findAll()`: every row, or the pool's error prefixed "Error retrieving schools: ". */
    method FindAll(fault: Option<string>) returns (r: Result<seq<School>, AppError>)
      ensures fault.None? ==> r.Ok? && r.value == rows
      ensures fault.None? && Valid() ==> forall i, j :: 0 <= i < j < |r.value| ==> r.value[i].id < r.value[j].id
      ensures fault.Some? ==> r.Err? && r.error == DatabaseError(RetrieveFailure + fault.value)
    {
      if fault.Some? {
        return Err(DatabaseError(RetrieveFailure + fault.value));
      }
      return Ok(rows);
    }

    /**
     * `findAllPaginated(page, limit)`: the window of the sanitised page, and its pagination.
     * `fault` is the message of the error either query would throw. An omitted page or
     * limit takes its default 1 or 10, which is what sanitising `undefined` gives too.
     */
    method FindAllPaginated(page: JsValue, limit: JsValue, fault: Option<string>) returns (r: Result<SchoolPage, AppError>)
      ensures fault.Some? ==> r.Err? && r.error == DatabaseError(RetrieveFailure + fault.value)
      ensures fault.None? ==>
                var p := DbSecurity.SanitizePaginationParams(page, limit);
                r.Ok? && r.value.schools == Window(rows, p.offset, p.limit)
                && r.value.pagination == PageInfo(p.page, p.limit, |rows|, TotalPages(|rows|, p.limit))
    {
      var p := DbSecurity.SanitizePaginationParams(page, limit);
      if fault.Some? {
        return Err(DatabaseError(RetrieveFailure + fault.value));
      }
      var schools := Window(rows, p.offset, p.limit);
      var total := |rows|;
      return Ok(SchoolPage(schools, PageInfo(p.page, p.limit, total, TotalPages(total, p.limit))));
    }
  }

  /** Within the reported page count, every page but the last is full and the last is not empty. */
  lemma PagesWithinCount(rows: seq<School>, page: nat, limit: nat)
    requires 1 <= limit && 1 <= page
    requires page <= TotalPages(|rows|, limit)
    ensures |Window(rows, (page - 1) * limit, limit)| >= 1
    ensures page < TotalPages(|rows|, limit) ==> |Window(rows, (page - 1) * limit, limit)| == limit
  {
    var pages := TotalPages(|rows|, limit);
    assert (pages - 1) * limit < |rows|;
    if page < pages {
      assert page * limit <= (pages - 1) * limit;
      assert (page - 1) * limit + limit == page * limit;
    }
    assert (page - 1) * limit <= (pages - 1) * limit;
  }

  /** A page past the reported count is empty. */
  lemma PagesBeyondCount(rows: seq<School>, page: nat, limit: nat)
    requires 1 <= limit && page > TotalPages(|rows|, limit)
    ensures Window(rows, (page - 1) * limit, limit) == []
  {
    var pages := TotalPages(|rows|, limit);
    assert |rows| <= pages * limit;
    assert pages * limit <= (page - 1) * limit;
  }
}
