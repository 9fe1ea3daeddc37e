/**
 * The field validator: the markup and SQL screen of school names, and the two functions that
 * turn a school record or a coordinate pair into an ordered list of error messages.
 *
 * Both validators build their list by pushing messages onto a local array, one `if` chain per
 * field, with early returns in `validateCoordinates`; they are modelled as methods, each proved
 * equal to a specification function assembled from one function per field.
 */
module Validator {
  import opened Wrappers
  import opened Text
  import opened TextLemmas
  import opened JsValues
  import opened Errors
  import SqlInjection

  /* ----- isValidLatitude, isValidLongitude ----- */

  /** `isValidLatitude(lat)` for a number that is not NaN: the open interval (-90, 90). */
  predicate IsValidLatitude(lat: real) {
    -90.0 < lat < 90.0
  }

  /** `isValidLongitude(lng)` for a number that is not NaN: the open interval (-180, 180). */
  predicate IsValidLongitude(lng: real) {
    -180.0 < lng < 180.0
  }

  function Abs(x: real): real {
    if x < 0.0 then -x else x
  }

  /* ----- containsInvalidCharacters ----- */

  /** The four markup openers of `suspiciousPatterns`. */
  const MarkupMarkers: seq<string> := ["<script", "<iframe", "<img", "javascript:"]

  /**
   * `containsInvalidCharacters(str)`: a markup opener anywhere, or one of the whole words OR,
   * UNION, DROP, ALTER, DELETE followed later on the same line by `=` or `;`, SELECT, TABLE,
   * TABLE or FROM, ignoring case.
   */
  predicate ContainsInvalidCharacters(s: string) {
    ContainsAny(s, MarkupMarkers)
    || ContainsWordThenChar(s, "or", '=', ';')
    || ContainsWordThenWord(s, "union", "select")
    || ContainsWordThenWord(s, "drop", "table")
    || ContainsWordThenWord(s, "alter", "table")
    || ContainsWordThenWord(s, "delete", "from")
  }

  /** The first words of the five word patterns. */
  const LeadingWords: seq<string> := ["or", "union", "drop", "alter", "delete"]

  /** Every string the name screen rejects holds a markup opener or one of the leading words. */
  lemma InvalidCharactersHaveAnchor(s: string)
    requires ContainsInvalidCharacters(s)
    ensures ContainsAny(s, MarkupMarkers) || ContainsAny(s, LeadingWords)
  {
    if ContainsWordThenChar(s, "or", '=', ';') {
      WordThenCharHasAnchor(s, "or", '=', ';', 0);
      AlternativeMatches(s, LeadingWords, 0);
    } else if ContainsWordThenWord(s, "union", "select") {
      WordThenWordHasAnchor(s, "union", "select", 0);
      AlternativeMatches(s, LeadingWords, 1);
    } else if ContainsWordThenWord(s, "drop", "table") {
      WordThenWordHasAnchor(s, "drop", "table", 0);
      AlternativeMatches(s, LeadingWords, 2);
    } else if ContainsWordThenWord(s, "alter", "table") {
      WordThenWordHasAnchor(s, "alter", "table", 0);
      AlternativeMatches(s, LeadingWords, 3);
    } else if ContainsWordThenWord(s, "delete", "from") {
      WordThenWordHasAnchor(s, "delete", "from", 0);
      AlternativeMatches(s, LeadingWords, 4);
    }
  }

  /* ----- The messages ----- */

  /** The messages the two validators push. */
  datatype Message =
    | NameRequired | NameTooLong | NameHarmful
    | AddressRequired | AddressTooLong | AddressHarmful
    | LatitudeRequired | LatitudeAtPole | LatitudeRange
    | LongitudeRequired | LongitudeAtDateLine | LongitudeRange
    | LatitudeHarmful | LongitudeHarmful | SearchLatitudeAtPole | SearchLongitudeAtDateLine
  {
    /** The sentence pushed onto the error list. */
    function Text(): string {
      match this
      case NameRequired => "Name is required and must be a non-empty string"
      case NameTooLong => "Name must be less than 255 characters"
      case NameHarmful => "School name contains invalid characters or potentially harmful content"
      case AddressRequired => "Address is required and must be a non-empty string"
      case AddressTooLong => "Address must be less than 255 characters"
      case AddressHarmful => "Address contains potentially harmful content"
      case LatitudeRequired => "Latitude is required and must be a valid number"
      case LatitudeAtPole => "Exact pole coordinates (±90°) are generally not valid school locations"
      case LatitudeRange => "Latitude must be between -90 and 90"
      case LongitudeRequired => "Longitude is required and must be a valid number"
      case LongitudeAtDateLine => "Exact international date line coordinates (±180°) are generally not valid school locations"
      case LongitudeRange => "Longitude must be between -180 and 180"
      case LatitudeHarmful => "Latitude contains potentially harmful content"
      case LongitudeHarmful => "Longitude contains potentially harmful content"
      case SearchLatitudeAtPole => "Exact pole coordinates (±90°) are generally not useful for school searches"
      case SearchLongitudeAtDateLine => "Exact international date line coordinates (±180°) are generally not useful for school searches"
    }

    /** The field the message is about: 0 name, 1 address, 2 latitude, 3 longitude. */
    function Field(): nat {
      match this
      case NameRequired | NameTooLong | NameHarmful => 0
      case AddressRequired | AddressTooLong | AddressHarmful => 1
      case LatitudeRequired | LatitudeAtPole | LatitudeRange | LatitudeHarmful | SearchLatitudeAtPole => 2
      case LongitudeRequired | LongitudeAtDateLine | LongitudeRange | LongitudeHarmful | SearchLongitudeAtDateLine => 3
    }
  }

  /** The list of sentences a list of messages is returned as. */
  function Texts(messages: seq<Message>): (texts: seq<string>)
    ensures |texts| == |messages|
    ensures forall k :: 0 <= k < |messages| ==> texts[k] == messages[k].Text()
  {
    if messages == [] then [] else [messages[0].Text()] + Texts(messages[1..])
  }

  /** A pushed message's sentence is in the returned list. */
  lemma TextOfPushed(messages: seq<Message>, m: Message)
    requires m in messages
    ensures m.Text() in Texts(messages)
  {
    var k :| 0 <= k < |messages| && messages[k] == m;
    assert Texts(messages)[k] == m.Text();
  }

  /** The TypeError of calling `trim` on a value that is truthy but not a string. */
  function TrimTypeError(field: string): AppError {
    OtherError("TypeError", "school." + field + ".trim is not a function")
  }

  /* ----- validateSchool, field by field ----- */

  /** The fields of the record `validateSchool` reads; a missing field is `Undefined`. */
  datatype SchoolInput = SchoolInput(name: JsValue, address: JsValue, latitude: JsValue, longitude: JsValue)

  /** Lines 8-14: the name, or the TypeError its `trim` throws. */
  function NameErrors(name: JsValue): Result<seq<Message>, AppError> {
    if Falsy(name) then Ok([NameRequired])
    else if !name.Str? then Err(TrimTypeError("name"))
    else if Trim(name.s) == "" then Ok([NameRequired])
    else if Utf16Length(name.s) > 255 then Ok([NameTooLong])
    else if ContainsInvalidCharacters(name.s) || SqlInjection.ContainsSqlInjection(name) then Ok([NameHarmful])
    else Ok([])
  }

  /** Lines 16-22: the address, screened for SQL only. */
  function AddressErrors(address: JsValue): Result<seq<Message>, AppError> {
    if Falsy(address) then Ok([AddressRequired])
    else if !address.Str? then Err(TrimTypeError("address"))
    else if Trim(address.s) == "" then Ok([AddressRequired])
    else if Utf16Length(address.s) > 255 then Ok([AddressTooLong])
    else if SqlInjection.ContainsSqlInjection(address) then Ok([AddressHarmful])
    else Ok([])
  }

  /** `v === undefined || v === null || isNaN(parseFloat(v))` */
  predicate NotANumber(v: JsValue) {
    v.Undefined? || v.Null? || ParseFloat(v).None?
  }

  /** Lines 29-33: the messages of a latitude that parsed. */
  function LatitudeRangeErrors(lat: real): seq<Message> {
    if Abs(lat) == 90.0 then [LatitudeAtPole]
    else if !IsValidLatitude(lat) then [LatitudeRange]
    else []
  }

  /** Lines 24-34. */
  function LatitudeErrors(v: JsValue): seq<Message> {
    if NotANumber(v) then [LatitudeRequired] else LatitudeRangeErrors(ParseFloat(v).value)
  }

  /** Lines 40-44: the messages of a longitude that parsed. */
  function LongitudeRangeErrors(lng: real): seq<Message> {
    if Abs(lng) == 180.0 then [LongitudeAtDateLine]
    else if !IsValidLongitude(lng) then [LongitudeRange]
    else []
  }

  /** Lines 36-45. */
  function LongitudeErrors(v: JsValue): seq<Message> {
    if NotANumber(v) then [LongitudeRequired] else LongitudeRangeErrors(ParseFloat(v).value)
  }

  /** The messages `validateSchool(school)` pushes, or the error it throws. */
  function SchoolErrors(school: SchoolInput): Result<seq<Message>, AppError> {
    match NameErrors(school.name)
    case Err(e) => Err(e)
    case Ok(n) =>
      match AddressErrors(school.address)
      case Err(e) => Err(e)
      case Ok(a) => Ok(n + a + LatitudeErrors(school.latitude) + LongitudeErrors(school.longitude))
  }

  /** Lines 8-14: push the name's message onto `errors`, or throw the TypeError of `trim`. */
  method PushNameErrors(errors: seq<Message>, name: JsValue) returns (r: Result<seq<Message>, AppError>)
    ensures r.Ok? <==> NameErrors(name).Ok?
    ensures r.Ok? ==> r.value == errors + NameErrors(name).value
    ensures r.Err? ==> r.error == NameErrors(name).error
  {
    if Falsy(name) {
      return Ok(errors + [NameRequired]);
    } else if !name.Str? {
      return Err(TrimTypeError("name"));
    } else if Trim(name.s) == "" {
      return Ok(errors + [NameRequired]);
    } else if Utf16Length(name.s) > 255 {
      return Ok(errors + [NameTooLong]);
    } else if ContainsInvalidCharacters(name.s) || SqlInjection.ContainsSqlInjection(name) {
      return Ok(errors + [NameHarmful]);
    }
    return Ok(errors);
  }

  /** Lines 16-22: push the address's message onto `errors`, or throw the TypeError of `trim`. */
  method PushAddressErrors(errors: seq<Message>, address: JsValue) returns (r: Result<seq<Message>, AppError>)
    ensures r.Ok? <==> AddressErrors(address).Ok?
    ensures r.Ok? ==> r.value == errors + AddressErrors(address).value
    ensures r.Err? ==> r.error == AddressErrors(address).error
  {
    if Falsy(address) {
      return Ok(errors + [AddressRequired]);
    } else if !address.Str? {
      return Err(TrimTypeError("address"));
    } else if Trim(address.s) == "" {
      return Ok(errors + [AddressRequired]);
    } else if Utf16Length(address.s) > 255 {
      return Ok(errors + [AddressTooLong]);
    } else if SqlInjection.ContainsSqlInjection(address) {
      return Ok(errors + [AddressHarmful]);
    }
    return Ok(errors);
  }

  /** How `SchoolErrors` composes the fields: the first thrown error, else the four lists in order. */
  lemma SchoolErrorsSteps(school: SchoolInput)
    ensures NameErrors(school.name).Err? ==> SchoolErrors(school).Err? && SchoolErrors(school).error == NameErrors(school.name).error
    ensures NameErrors(school.name).Ok? && AddressErrors(school.address).Err?
            ==> SchoolErrors(school).Err? && SchoolErrors(school).error == AddressErrors(school.address).error
    ensures NameErrors(school.name).Ok? && AddressErrors(school.address).Ok?
            ==> SchoolErrors(school).Ok?
                && SchoolErrors(school).value
                   == NameErrors(school.name).value + AddressErrors(school.address).value
                      + LatitudeErrors(school.latitude) + LongitudeErrors(school.longitude)
  {
  }

  /** `validateSchool(school)`: the sentences of the pushed messages, or the thrown TypeError. */
  method ValidateSchool(school: SchoolInput) returns (r: Result<seq<string>, AppError>)
    ensures r.Ok? <==> SchoolErrors(school).Ok?
    ensures r.Ok? ==> r.value == Texts(SchoolErrors(school).value)
    ensures r.Err? ==> r.error == SchoolErrors(school).error
  {
    SchoolErrorsSteps(school);
    var pushed := PushNameErrors([], school.name);
    if pushed.Err? {
      return Err(pushed.error);
    }
    var n := pushed.value;
    assert [] + NameErrors(school.name).value == NameErrors(school.name).value;
    pushed := PushAddressErrors(n, school.address);
    if pushed.Err? {
      return Err(pushed.error);
    }
    var errors := pushed.value;

    if NotANumber(school.latitude) {
      errors := errors + [LatitudeRequired];
    } else {
      var lat := ParseFloat(school.latitude).value;
      if Abs(lat) == 90.0 {
        errors := errors + [LatitudeAtPole];
      } else if !IsValidLatitude(lat) {
        errors := errors + [LatitudeRange];
      }
    }
    assert errors == n + AddressErrors(school.address).value + LatitudeErrors(school.latitude);

    if NotANumber(school.longitude) {
      errors := errors + [LongitudeRequired];
    } else {
      var lng := ParseFloat(school.longitude).value;
      if Abs(lng) == 180.0 {
        errors := errors + [LongitudeAtDateLine];
      } else if !IsValidLongitude(lng) {
        errors := errors + [LongitudeRange];
      }
    }
    assert errors == SchoolErrors(school).value;

    return Ok(Texts(errors));
  }

  /* ----- validateCoordinates ----- */

  /** Lines 79-83: the messages of a search latitude that parsed. */
  function SearchLatitudeErrors(lat: real): seq<Message> {
    if Abs(lat) == 90.0 then [SearchLatitudeAtPole]
    else if !IsValidLatitude(lat) then [LatitudeRange]
    else []
  }

  /** Lines 85-89: the messages of a search longitude that parsed. */
  function SearchLongitudeErrors(lng: real): seq<Message> {
    if Abs(lng) == 180.0 then [SearchLongitudeAtDateLine]
    else if !IsValidLongitude(lng) then [LongitudeRange]
    else []
  }

  /** Each range check pushes at most one message, and only its own range or extreme-value message. */
  lemma SearchRangeErrorsShape(lat: real, lng: real)
    ensures |SearchLatitudeErrors(lat)| <= 1 && |SearchLongitudeErrors(lng)| <= 1
    ensures |SearchLatitudeErrors(lat)| == 1 ==> SearchLatitudeErrors(lat)[0] in {SearchLatitudeAtPole, LatitudeRange}
    ensures |SearchLongitudeErrors(lng)| == 1 ==> SearchLongitudeErrors(lng)[0] in {SearchLongitudeAtDateLine, LongitudeRange}
  {
  }

  /** A range check pushes nothing exactly inside its open interval. */
  lemma SearchRangeErrorsEmpty(lat: real, lng: real)
    ensures SearchLatitudeErrors(lat) == [] <==> -90.0 < lat < 90.0
    ensures SearchLongitudeErrors(lng) == [] <==> -180.0 < lng < 180.0
  {
  }

  /** The messages `validateCoordinates(latitude, longitude)` pushes. */
  function CoordinateErrors(latitude: JsValue, longitude: JsValue): seq<Message> {
    if latitude.Str? && SqlInjection.ContainsSqlInjection(latitude) then [LatitudeHarmful]
    else if longitude.Str? && SqlInjection.ContainsSqlInjection(longitude) then [LongitudeHarmful]
    else if NotANumber(latitude) then [LatitudeRequired]
    else if NotANumber(longitude) then [LongitudeRequired]
    else SearchLatitudeErrors(ParseFloat(latitude).value) + SearchLongitudeErrors(ParseFloat(longitude).value)
  }

  /** `validateCoordinates(latitude, longitude)`: the sentences of the pushed messages. */
  method ValidateCoordinates(latitude: JsValue, longitude: JsValue) returns (errors: seq<string>)
    ensures errors == Texts(CoordinateErrors(latitude, longitude))
  {
    var messages: seq<Message> := [];

    if latitude.Str? && SqlInjection.ContainsSqlInjection(latitude) {
      messages := messages + [LatitudeHarmful];
      return Texts(messages);
    }
    if longitude.Str? && SqlInjection.ContainsSqlInjection(longitude) {
      messages := messages + [LongitudeHarmful];
      return Texts(messages);
    }
    if NotANumber(latitude) {
      messages := messages + [LatitudeRequired];
      return Texts(messages);
    }
    if NotANumber(longitude) {
      messages := messages + [LongitudeRequired];
      return Texts(messages);
    }

    var lat := ParseFloat(latitude).value;
    var lng := ParseFloat(longitude).value;
    if Abs(lat) == 90.0 {
      messages := messages + [SearchLatitudeAtPole];
    } else if !IsValidLatitude(lat) {
      messages := messages + [LatitudeRange];
    }
    ghost var latitudeErrors := messages;
    if Abs(lng) == 180.0 {
      messages := messages + [SearchLongitudeAtDateLine];
    } else if !IsValidLongitude(lng) {
      messages := messages + [LongitudeRange];
    }
    assert messages == latitudeErrors + messages[|latitudeErrors|..];
    return Texts(messages);
  }

  /* ----- What validateSchool promises ----- */

  /** At most one message, and about the given field. */
  predicate OneMessagePerField(messages: seq<Message>, field: nat) {
    |messages| <= 1 && forall k :: 0 <= k < |messages| ==> messages[k].Field() == field
  }

  lemma NameErrorsField(v: JsValue)
    requires NameErrors(v).Ok?
    ensures OneMessagePerField(NameErrors(v).value, 0)
  {
  }

  lemma AddressErrorsField(v: JsValue)
    requires AddressErrors(v).Ok?
    ensures OneMessagePerField(AddressErrors(v).value, 1)
  {
  }

  lemma LatitudeRangeErrorsField(lat: real)
    ensures OneMessagePerField(LatitudeRangeErrors(lat), 2)
  {
  }

  lemma LatitudeErrorsField(v: JsValue)
    ensures OneMessagePerField(LatitudeErrors(v), 2)
  {
    if !NotANumber(v) {
      LatitudeRangeErrorsField(ParseFloat(v).value);
    }
  }

  lemma LongitudeRangeErrorsField(lng: real)
    ensures OneMessagePerField(LongitudeRangeErrors(lng), 3)
  {
  }

  lemma LongitudeErrorsField(v: JsValue)
    ensures OneMessagePerField(LongitudeErrors(v), 3)
  {
    if !NotANumber(v) {
      LongitudeRangeErrorsField(ParseFloat(v).value);
    }
  }

  /** The fields strictly increase along the list. */
  predicate FieldsAscending(messages: seq<Message>) {
    forall j, k :: 0 <= j < k < |messages| ==> messages[j].Field() < messages[k].Field()
  }

  lemma AppendLaterField(messages: seq<Message>, more: seq<Message>, field: nat)
    requires FieldsAscending(messages) && OneMessagePerField(more, field)
    requires forall k :: 0 <= k < |messages| ==> messages[k].Field() < field
    ensures FieldsAscending(messages + more)
    ensures forall k :: 0 <= k < |messages + more| ==> (messages + more)[k].Field() <= field
  {
    var all := messages + more;
    forall k | 0 <= k < |all| ensures all[k].Field() == if k < |messages| then messages[k].Field() else field {
      if k >= |messages| { assert all[k] == more[k - |messages|]; }
    }
  }

  /**
   * `validateSchool` reports at most one message per field, in the order name, address,
   * latitude, longitude, so at most four.
   */
  lemma SchoolErrorsOrdered(school: SchoolInput)
    requires SchoolErrors(school).Ok?
    ensures |SchoolErrors(school).value| <= 4
    ensures FieldsAscending(SchoolErrors(school).value)
  {
    var n, a := NameErrors(school.name).value, AddressErrors(school.address).value;
    var la, lo := LatitudeErrors(school.latitude), LongitudeErrors(school.longitude);
    NameErrorsField(school.name);
    AddressErrorsField(school.address);
    LatitudeErrorsField(school.latitude);
    LongitudeErrorsField(school.longitude);
    AppendLaterField([], n, 0);
    assert [] + n == n;
    AppendLaterField(n, a, 1);
    AppendLaterField(n + a, la, 2);
    AppendLaterField(n + a + la, lo, 3);
    assert SchoolErrors(school).value == n + a + la + lo;
  }

  /** A present, non-blank string of at most 255 UTF-16 units. */
  predicate PresentText(v: JsValue) {
    v.Str? && !IsBlank(v.s) && Utf16Length(v.s) <= 255
  }

  /** A number, a string with a decimal prefix, or an array whose first element is one, strictly inside `(lo, hi)`. */
  predicate NumberWithin(v: JsValue, lo: real, hi: real) {
    ParseFloat(v).Some? && lo < ParseFloat(v).value < hi
  }

  /** The name draws no message exactly when it is present text that neither screen rejects. */
  lemma NameAccepted(v: JsValue)
    ensures NameErrors(v).Ok? && NameErrors(v).value == []
            <==> PresentText(v) && !ContainsInvalidCharacters(v.s) && !SqlInjection.ContainsSqlInjection(v)
  {
    if !v.Str? {
      assert !PresentText(v);
    } else if v.s == "" {
      assert NameErrors(v) == Ok([NameRequired]);
    } else {
      assert !Falsy(v);
      assert Trim(v.s) == "" <==> IsBlank(v.s);
    }
  }

  /** The address draws no message exactly when it is present text that the SQL screen passes. */
  lemma AddressAccepted(v: JsValue)
    ensures AddressErrors(v).Ok? && AddressErrors(v).value == []
            <==> PresentText(v) && !SqlInjection.ContainsSqlInjection(v)
  {
    if !v.Str? {
      assert !PresentText(v);
    } else if v.s == "" {
      assert AddressErrors(v) == Ok([AddressRequired]);
    } else {
      assert !Falsy(v);
      assert Trim(v.s) == "" <==> IsBlank(v.s);
    }
  }

  /** The latitude draws no message exactly inside the open interval (-90, 90). */
  lemma LatitudeAccepted(v: JsValue)
    ensures LatitudeErrors(v) == [] <==> NumberWithin(v, -90.0, 90.0)
  {
  }

  /** The longitude draws no message exactly inside the open interval (-180, 180). */
  lemma LongitudeAccepted(v: JsValue)
    ensures LongitudeErrors(v) == [] <==> NumberWithin(v, -180.0, 180.0)
  {
  }

  /** The record `validateSchool` accepts, stated field by field. */
  predicate AcceptableSchool(school: SchoolInput) {
    PresentText(school.name) && !ContainsInvalidCharacters(school.name.s) && !SqlInjection.ContainsSqlInjection(school.name)
    && PresentText(school.address) && !SqlInjection.ContainsSqlInjection(school.address)
    && NumberWithin(school.latitude, -90.0, 90.0) && NumberWithin(school.longitude, -180.0, 180.0)
  }

  /** `validateSchool` returns an empty list exactly for an acceptable record; ±90 and ±180 are outside. */
  lemma NoSchoolErrorsIffAcceptable(school: SchoolInput)
    ensures SchoolErrors(school).Ok? && SchoolErrors(school).value == [] <==> AcceptableSchool(school)
  {
    NameAccepted(school.name);
    AddressAccepted(school.address);
    LatitudeAccepted(school.latitude);
    LongitudeAccepted(school.longitude);
    if SchoolErrors(school).Ok? {
      var n, a := NameErrors(school.name).value, AddressErrors(school.address).value;
      var la, lo := LatitudeErrors(school.latitude), LongitudeErrors(school.longitude);
      assert SchoolErrors(school).value == n + a + la + lo;
      assert |n + a + la + lo| == |n| + |a| + |la| + |lo|;
    }
  }

  /** The latitude messages of the result are exactly those of the latitude field. */
  lemma LatitudeMessagesOfSchool(school: SchoolInput, m: Message)
    requires SchoolErrors(school).Ok?
    ensures m in SchoolErrors(school).value && m.Field() == 2 <==> m in LatitudeErrors(school.latitude)
  {
    var n, a := NameErrors(school.name).value, AddressErrors(school.address).value;
    var la, lo := LatitudeErrors(school.latitude), LongitudeErrors(school.longitude);
    assert SchoolErrors(school).value == n + a + la + lo;
    NameErrorsField(school.name);
    AddressErrorsField(school.address);
    LatitudeErrorsField(school.latitude);
    LongitudeErrorsField(school.longitude);
  }

  /** The longitude messages of the result are exactly those of the longitude field. */
  lemma LongitudeMessagesOfSchool(school: SchoolInput, m: Message)
    requires SchoolErrors(school).Ok?
    ensures m in SchoolErrors(school).value && m.Field() == 3 <==> m in LongitudeErrors(school.longitude)
  {
    var n, a := NameErrors(school.name).value, AddressErrors(school.address).value;
    var la, lo := LatitudeErrors(school.latitude), LongitudeErrors(school.longitude);
    assert SchoolErrors(school).value == n + a + la + lo;
    NameErrorsField(school.name);
    AddressErrorsField(school.address);
    LatitudeErrorsField(school.latitude);
    LongitudeErrorsField(school.longitude);
  }

  /** A latitude of exactly ±90 draws the pole message alone. */
  lemma PoleLatitudeField(v: JsValue)
    requires ParseFloat(v).Some? && Abs(ParseFloat(v).value) == 90.0
    ensures LatitudeErrors(v) == [LatitudeAtPole]
  {
    assert !NotANumber(v);
  }

  /** A longitude of exactly ±180 draws the date-line message alone. */
  lemma DateLineLongitudeField(v: JsValue)
    requires ParseFloat(v).Some? && Abs(ParseFloat(v).value) == 180.0
    ensures LongitudeErrors(v) == [LongitudeAtDateLine]
  {
    assert !NotANumber(v);
  }

  /** The length check: a non-blank name draws the length message iff it is longer than 255 UTF-16 units. */
  lemma NameLengthLimit(name: string)
    requires !IsBlank(name)
    ensures NameErrors(Str(name)).Ok? && NameErrors(Str(name)).value == [NameTooLong] <==> Utf16Length(name) > 255
  {
    assert name != "";
  }

  /** The address is screened for SQL only: markup in a valid address draws no message. */
  lemma AddressNotScreenedForMarkup(address: string)
    requires !IsBlank(address) && Utf16Length(address) <= 255 && !SqlInjection.ContainsSqlInjection(Str(address))
    ensures AddressErrors(Str(address)).Ok? && AddressErrors(Str(address)).value == []
  {
    assert address != "";
  }

  /* ----- What validateCoordinates promises ----- */

  /**
   * At most two messages; two messages are the range or extreme-value message of the latitude
   * followed by that of the longitude, both values parsed as numbers. A harmful or missing value
   * is reported alone, checked in the order: harmful latitude, harmful longitude, unparseable
   * latitude, unparseable longitude.
   */
  lemma CoordinateErrorsShape(latitude: JsValue, longitude: JsValue)
    ensures |CoordinateErrors(latitude, longitude)| <= 2
    ensures |CoordinateErrors(latitude, longitude)| == 2
            ==> ParseFloat(latitude).Some? && ParseFloat(longitude).Some?
                && CoordinateErrors(latitude, longitude)[0] in {SearchLatitudeAtPole, LatitudeRange}
                && CoordinateErrors(latitude, longitude)[1] in {SearchLongitudeAtDateLine, LongitudeRange}
    ensures !SqlInjection.ContainsSqlInjection(latitude) && SqlInjection.ContainsSqlInjection(longitude)
            ==> CoordinateErrors(latitude, longitude) == [LongitudeHarmful]
    ensures !SqlInjection.ContainsSqlInjection(latitude) && !SqlInjection.ContainsSqlInjection(longitude)
            && NotANumber(latitude)
            ==> CoordinateErrors(latitude, longitude) == [LatitudeRequired]
    ensures !SqlInjection.ContainsSqlInjection(latitude) && !SqlInjection.ContainsSqlInjection(longitude)
            && !NotANumber(latitude) && NotANumber(longitude)
            ==> CoordinateErrors(latitude, longitude) == [LongitudeRequired]
  {
    if !latitude.Str? { SqlInjection.NonStringsNotFlagged(latitude); }
    if !longitude.Str? { SqlInjection.NonStringsNotFlagged(longitude); }
    CoordinateErrorsOfRanges(latitude, longitude);
  }

  /** When both values are unflagged and parse, the messages are the two range checks'. */
  lemma CoordinateErrorsOfRanges(latitude: JsValue, longitude: JsValue)
    ensures |CoordinateErrors(latitude, longitude)| <= 2
    ensures |CoordinateErrors(latitude, longitude)| == 2
            ==> ParseFloat(latitude).Some? && ParseFloat(longitude).Some?
                && CoordinateErrors(latitude, longitude)[0] in {SearchLatitudeAtPole, LatitudeRange}
                && CoordinateErrors(latitude, longitude)[1] in {SearchLongitudeAtDateLine, LongitudeRange}
  {
    var errs := CoordinateErrors(latitude, longitude);
    if !(latitude.Str? && SqlInjection.ContainsSqlInjection(latitude))
       && !(longitude.Str? && SqlInjection.ContainsSqlInjection(longitude))
       && !NotANumber(latitude) && !NotANumber(longitude) {
      var lat, lng := ParseFloat(latitude).value, ParseFloat(longitude).value;
      var la, lo := SearchLatitudeErrors(lat), SearchLongitudeErrors(lng);
      SearchRangeErrorsShape(lat, lng);
      assert errs == la + lo;
      if |errs| == 2 {
        assert errs[0] == la[0] && errs[1] == lo[0];
      }
    }
  }

  /** `validateCoordinates` returns no message exactly for two unflagged numbers strictly inside the ranges. */
  lemma NoCoordinateErrorsIffInRange(latitude: JsValue, longitude: JsValue)
    ensures CoordinateErrors(latitude, longitude) == []
            <==> !SqlInjection.ContainsSqlInjection(latitude) && !SqlInjection.ContainsSqlInjection(longitude)
                 && NumberWithin(latitude, -90.0, 90.0) && NumberWithin(longitude, -180.0, 180.0)
  {
    var errs := CoordinateErrors(latitude, longitude);
    if !latitude.Str? { SqlInjection.NonStringsNotFlagged(latitude); }
    if !longitude.Str? { SqlInjection.NonStringsNotFlagged(longitude); }
    if SqlInjection.ContainsSqlInjection(latitude) {
      assert errs == [LatitudeHarmful];
    } else if SqlInjection.ContainsSqlInjection(longitude) {
      assert errs == [LongitudeHarmful];
    } else if NotANumber(latitude) {
      assert errs == [LatitudeRequired];
    } else if NotANumber(longitude) {
      assert errs == [LongitudeRequired];
    } else {
      var lat, lng := ParseFloat(latitude).value, ParseFloat(longitude).value;
      var la, lo := SearchLatitudeErrors(lat), SearchLongitudeErrors(lng);
      SearchRangeErrorsEmpty(lat, lng);
      assert errs == la + lo;
      assert errs == [] <==> la == [] && lo == [];
    }
  }

  /**
   * Only strings are screened: an array coordinate, as a repeated query parameter gives, never
   * draws a harmful-content message, whatever its elements hold.
   */
  lemma ArrayCoordinatesUnscreened(latitude: JsValue, longitude: JsValue)
    requires latitude.Obj? && latitude.isArray
    ensures LatitudeHarmful !in CoordinateErrors(latitude, longitude)
    ensures longitude.Obj? && longitude.isArray ==> LongitudeHarmful !in CoordinateErrors(latitude, longitude)
  {
    SearchRangeErrorsShape(0.0, 0.0);
    if !NotANumber(latitude) && !NotANumber(longitude) {
      SearchRangeErrorsShape(ParseFloat(latitude).value, ParseFloat(longitude).value);
    }
  }

  /**
   * `?latitude=1;drop&latitude=2&longitude=2`: the latitude is the array ["1;drop", "2"]. Its first
   * element would be flagged on its own, but the array is not screened and parses as 1, so the
   * pair is accepted.
   */
  lemma RepeatedLatitudeExample(first: string, second: string, latitude: JsValue, longitude: JsValue)
    requires first == "1;drop" && second == "2"
    requires latitude == Obj([Property("0", Str(first)), Property("1", Str(second))], true)
    requires longitude == Str(second)
    ensures CoordinateErrors(latitude, longitude) == []
  {
    FirstElementReadsOne(first);
    SecondElement(second);
    SecondElementNotFlagged(second);
    ArrayLatitudeAccepted(first, latitude, longitude, 1.0, 2.0);
  }

  /**
   * A latitude array whose first element reads as a number inside the range, beside an unflagged
   * longitude inside its range, is accepted whatever text follows that number.
   */
  lemma ArrayLatitudeAccepted(first: string, latitude: JsValue, longitude: JsValue, lat: real, lng: real)
    requires latitude.Obj? && latitude.isArray && latitude.props != [] && latitude.props[0].value == Str(first)
    requires ParseDecimal(first) == Some(lat) && -90.0 < lat < 90.0
    requires ParseFloat(longitude) == Some(lng) && -180.0 < lng < 180.0
    requires !SqlInjection.ContainsSqlInjection(longitude)
    ensures ParseFloat(latitude) == Some(lat)
    ensures CoordinateErrors(latitude, longitude) == []
  {
    assert ParseFloat(latitude) == ParseFloat(Str(first));
    assert !NotANumber(latitude) && !NotANumber(longitude);
    assert CoordinateErrors(latitude, longitude) == SearchLatitudeErrors(lat) + SearchLongitudeErrors(lng);
    SearchRangeErrorsEmpty(lat, lng);
  }

  /**
   * The text "1;drop" reads as the number 1, but on its own, as `?latitude=1;drop` gives it, it is
   * flagged and refused.
   */
  lemma FlaggedFirstElement(first: string, longitude: JsValue)
    requires first == "1;drop"
    ensures ParseDecimal(first) == Some(1.0)
    ensures SqlInjection.ContainsSqlInjection(Str(first))
    ensures CoordinateErrors(Str(first), longitude) == [LatitudeHarmful]
  {
    FirstElementReadsOne(first);
    FirstElementFlagged(first);
  }

  lemma FirstElementReadsOne(first: string)
    requires first == "1;drop"
    ensures ParseDecimal(first) == Some(1.0)
  {
    assert first == ['1'] + ";drop";
    SingleDigitParses('1', ";drop");
  }

  lemma FirstElementFlagged(first: string)
    requires first == "1;drop"
    ensures SqlInjection.ContainsSqlInjection(Str(first))
  {
    assert first == "1" + ";" + "drop";
    SqlInjection.MarkerFlagged("1", ";", "drop");
  }

  /** The text "2" reads as the number 2. */
  lemma SecondElement(second: string)
    requires second == "2"
    ensures ParseDecimal(second) == Some(2.0)
  {
    assert second == ['2'] + "";
    SingleDigitParses('2', "");
  }

  lemma SecondElementNotFlagged(second: string)
    requires second == "2"
    ensures !SqlInjection.ContainsSqlInjection(Str(second))
  {
    SqlInjection.WordUnanchored(second);
    SqlInjection.UnanchoredNotFlagged(second);
  }

  /** A flagged latitude string is reported before anything about the longitude, even a flagged one. */
  lemma HarmfulLatitudeFirst(latitude: JsValue, longitude: JsValue)
    requires SqlInjection.ContainsSqlInjection(latitude)
    ensures CoordinateErrors(latitude, longitude) == [LatitudeHarmful]
  {
  }

  /* ----- The unit examples ----- */

  /** The words of the sample name hold no markup opener and no leading word of the name screen. */
  lemma SampleNameWordsUnanchored()
    ensures !ContainsAny("Test", MarkupMarkers) && !ContainsAny("Test", LeadingWords)
    ensures !ContainsAny("School", MarkupMarkers) && !ContainsAny("School", LeadingWords)
  {
    forall k | 0 <= k < |MarkupMarkers| ensures !ContainsCI("Test", MarkupMarkers[k]) {}
    forall k | 0 <= k < |LeadingWords| ensures !ContainsCI("Test", LeadingWords[k]) {}
    forall k | 0 <= k < |MarkupMarkers| ensures !ContainsCI("School", MarkupMarkers[k]) {}
    forall k | 0 <= k < |LeadingWords| ensures !ContainsCI("School", LeadingWords[k]) {}
  }

  /** "Test School" passes the name screen: an anchor would lie in one of its two words. */
  lemma SampleNameValid(s: string)
    requires s == "Test School"
    ensures !ContainsInvalidCharacters(s)
  {
    assert s == "Test" + [' '] + "School";
    SampleNameWordsUnanchored();
    if ContainsAny(s, MarkupMarkers) {
      ContainsAnySplit("Test", ' ', "School", MarkupMarkers);
    }
    if ContainsAny(s, LeadingWords) {
      ContainsAnySplit("Test", ' ', "School", LeadingWords);
    }
    if ContainsInvalidCharacters(s) {
      InvalidCharactersHaveAnchor(s);
    }
  }

  /** The name and the address of the first unit example draw no message. */
  lemma SampleNameAccepted(s: string)
    requires s == "Test School"
    ensures NameErrors(Str(s)).Ok? && NameErrors(Str(s)).value == []
  {
    SampleNameValid(s);
    SqlInjection.SampleNameNotFlagged(s);
    assert !IsSpace(s[0]) && !IsBlank(s);
    NameAccepted(Str(s));
  }

  lemma SampleAddressAccepted(s: string)
    requires s == "123 Test Street"
    ensures AddressErrors(Str(s)).Ok? && AddressErrors(Str(s)).value == []
  {
    SqlInjection.SampleAddressNotFlagged(s);
    assert !IsSpace(s[0]) && !IsBlank(s);
    AddressAccepted(Str(s));
  }

  /** The coordinates of the unit examples draw no message. */
  lemma SampleCoordinatesAccepted()
    ensures LatitudeErrors(Num(40.7128)) == [] && LongitudeErrors(Num(-74.0060)) == []
  {
  }

  /** The record of the unit examples, with the name and the latitude they vary. */
  function SampleSchool(name: JsValue, latitude: real): SchoolInput {
    SchoolInput(name, Str("123 Test Street"), Num(latitude), Num(-74.0060))
  }

  /** The unit examples of `validateSchool`: the valid record, */
  lemma ValidSchoolExample(school: SchoolInput)
    requires school == SampleSchool(Str("Test School"), 40.7128)
    ensures SchoolErrors(school).Ok? && SchoolErrors(school).value == []
  {
    SampleCoordinatesAccepted();
    SampleNameAccepted(school.name.s);
    SampleAddressAccepted(school.address.s);
    SchoolErrorsSteps(school);
  }

  /** an empty name, */
  lemma EmptyNameExample(school: SchoolInput)
    requires school == SampleSchool(Str(""), 40.7128)
    ensures SchoolErrors(school).Ok? && NameRequired in SchoolErrors(school).value
  {
    SampleAddressAccepted(school.address.s);
    SchoolErrorsSteps(school);
    assert NameErrors(Str("")).value == [NameRequired];
  }

  /** and a latitude of 100. */
  lemma LatitudeOutOfRangeExample(school: SchoolInput)
    requires school == SampleSchool(Str("Test School"), 100.0)
    ensures SchoolErrors(school).Ok? && LatitudeRange in SchoolErrors(school).value
  {
    assert LatitudeErrors(Num(100.0)) == [LatitudeRange];
    SampleNameAccepted(school.name.s);
    SampleAddressAccepted(school.address.s);
    SchoolErrorsSteps(school);
    LatitudeMessagesOfSchool(school, LatitudeRange);
  }

  /** The unit examples of `validateCoordinates`: a valid pair, */
  lemma ValidCoordinatesExample(latitude: JsValue, longitude: JsValue)
    requires latitude == Num(40.7128) && longitude == Num(-74.0060)
    ensures CoordinateErrors(latitude, longitude) == []
  {
    assert NumberWithin(latitude, -90.0, 90.0) && NumberWithin(longitude, -180.0, 180.0);
    NoCoordinateErrorsIffInRange(latitude, longitude);
  }

  /** a latitude that is not a number, */
  lemma LatitudeNotANumberExample(latitude: JsValue, longitude: JsValue)
    requires latitude == Str("not a number") && longitude == Num(-74.0060)
    ensures CoordinateErrors(latitude, longitude) == [LatitudeRequired]
  {
    NotANumberText(latitude.s);
    SqlInjection.NotANumberNotFlagged(latitude.s);
    assert NotANumber(latitude) && !longitude.Str?;
  }

  /** The text "not a number" holds no leading number. */
  lemma NotANumberText(s: string)
    requires s == "not a number"
    ensures ParseDecimal(s) == None
  {
    assert s[0] == 'n';
    NoLeadingNumber(s);
  }

  /** and a pair out of both ranges, which draws both range messages. */
  lemma BothOutOfRangeExample(latitude: JsValue, longitude: JsValue)
    requires latitude == Num(100.0) && longitude == Num(200.0)
    ensures CoordinateErrors(latitude, longitude) == [LatitudeRange, LongitudeRange]
  {
    assert CoordinateErrors(latitude, longitude) == [LatitudeRange] + [LongitudeRange];
  }

  /** `<script>` is rejected as a name, */
  lemma MarkupNameRefused(s: string)
    requires s == "<script>"
    ensures NameErrors(Str(s)) == Ok([NameHarmful])
  {
    assert !IsSpace(s[0]);
    assert s == "" + "<script" + ">";
    InfixFound("", "<script", ">");
    AlternativeMatches(s, MarkupMarkers, 0);
  }

  /** and accepted as an address, which is screened for SQL only. */
  lemma MarkupAddressAccepted(s: string)
    requires s == "<script>"
    ensures AddressErrors(Str(s)) == Ok([])
  {
    assert !IsSpace(s[0]) && !IsBlank(s);
    SqlInjection.WordUnanchored("<script>");
    SqlInjection.UnanchoredNotFlagged(s);
    AddressAccepted(Str(s));
  }
}
