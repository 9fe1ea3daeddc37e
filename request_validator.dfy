/**
 * The request-level validators: the two functions that turn a list of validation messages into
 * `true` or a thrown ValidationError, and the two Express middlewares that pick the fields out of
 * the request and hand the outcome to `next`.
 */
module RequestValidator {
  import opened Wrappers
  import opened JsValues
  import opened Errors
  import opened Middleware
  import opened Validator

  /** `validateSchool(school)`: `true`, or the thrown error, a ValidationError carrying the list. */
  function CheckSchool(school: SchoolInput): (r: Result<bool, AppError>)
    ensures r.Ok? ==> r.value
    ensures r.Ok? <==> SchoolErrors(school).Ok? && SchoolErrors(school).value == []
    ensures SchoolErrors(school).Err? ==> r.Err? && r.error == SchoolErrors(school).error
    ensures SchoolErrors(school).Ok? && SchoolErrors(school).value != []
            ==> r.Err? && r.error == ValidationError(Texts(SchoolErrors(school).value))
  {
    match SchoolErrors(school)
    case Err(e) => Err(e)
    case Ok(messages) => if |messages| > 0 then Err(ValidationError(Texts(messages))) else Ok(true)
  }

  /** So the record passes exactly when every field is acceptable. */
  lemma CheckSchoolIffAcceptable(school: SchoolInput)
    ensures CheckSchool(school).Ok? <==> AcceptableSchool(school)
  {
    NoSchoolErrorsIffAcceptable(school);
  }

  /** `validateCoordinates(latitude, longitude)`: `true`, or a thrown ValidationError carrying the list. */
  function CheckCoordinates(latitude: JsValue, longitude: JsValue): (r: Result<bool, AppError>)
    ensures r.Ok? ==> r.value
    ensures r.Ok? <==> CoordinateErrors(latitude, longitude) == []
    ensures r.Err? ==> r.error == ValidationError(Texts(CoordinateErrors(latitude, longitude)))
  {
    var messages := CoordinateErrors(latitude, longitude);
    if |messages| > 0 then Err(ValidationError(Texts(messages))) else Ok(true)
  }

  /** So the pair passes exactly when neither value is flagged and both lie strictly inside the ranges. */
  lemma CheckCoordinatesIffInRange(latitude: JsValue, longitude: JsValue)
    ensures CheckCoordinates(latitude, longitude).Ok?
            <==> !SqlInjection.ContainsSqlInjection(latitude) && !SqlInjection.ContainsSqlInjection(longitude)
                 && NumberWithin(latitude, -90.0, 90.0) && NumberWithin(longitude, -180.0, 180.0)
  {
    NoCoordinateErrorsIffInRange(latitude, longitude);
  }

  /** The TypeError of reading `req.body.name` when the body is `undefined` or `null`. */
  function BodyTypeError(body: JsValue): AppError
    requires body.Undefined? || body.Null?
  {
    OtherError("TypeError", "Cannot read properties of " + (if body.Undefined? then "undefined" else "null") + " (reading 'name')")
  }

  /** The record `validateAddSchoolRequest` builds from the four fields of the body. */
  function SchoolOf(body: JsValue): SchoolInput {
    SchoolInput(Get(body, "name"), Get(body, "address"), Get(body, "latitude"), Get(body, "longitude"))
  }

  /** `validateAddSchoolRequest(req, res, next)`: what it passes to `next`. */
  function ValidateAddSchoolRequest(body: JsValue): (next: NextCall)
    ensures (body.Undefined? || body.Null?) ==> next == Forward(BodyTypeError(body))
    ensures !(body.Undefined? || body.Null?)
            ==> (next.Continue? <==> CheckSchool(SchoolOf(body)).Ok?)
                && (next.Forward? ==> next.error == CheckSchool(SchoolOf(body)).error)
  {
    if body.Undefined? || body.Null? then Forward(BodyTypeError(body))
    else
      match CheckSchool(SchoolOf(body))
      case Ok(_) => Continue
      case Err(e) => Forward(e)
  }

  /** A body is let through exactly when its four fields form an acceptable record. */
  lemma AddSchoolRequestPasses(body: JsValue)
    ensures ValidateAddSchoolRequest(body).Continue?
            <==> !(body.Undefined? || body.Null?) && AcceptableSchool(SchoolOf(body))
  {
    if !(body.Undefined? || body.Null?) {
      CheckSchoolIffAcceptable(SchoolOf(body));
    }
  }

  /** Only the four fields are read: bodies that agree on them are treated alike. */
  lemma AddSchoolRequestReadsFourFields(body1: JsValue, body2: JsValue)
    requires body1.Obj? && body2.Obj?
    requires Get(body1, "name") == Get(body2, "name") && Get(body1, "address") == Get(body2, "address")
    requires Get(body1, "latitude") == Get(body2, "latitude") && Get(body1, "longitude") == Get(body2, "longitude")
    ensures ValidateAddSchoolRequest(body1) == ValidateAddSchoolRequest(body2)
  {
    assert SchoolOf(body1) == SchoolOf(body2);
  }

  /** `validateListSchoolsRequest(req, res, next)`: what it passes to `next`, for the query `req.query`. */
  function ValidateListSchoolsRequest(query: seq<Property>): (next: NextCall)
    ensures next.Continue? <==> CheckCoordinates(GetIn(query, "latitude"), GetIn(query, "longitude")).Ok?
    ensures next.Forward? ==> next.error == CheckCoordinates(GetIn(query, "latitude"), GetIn(query, "longitude")).error
  {
    match CheckCoordinates(GetIn(query, "latitude"), GetIn(query, "longitude"))
    case Ok(_) => Continue
    case Err(e) => Forward(e)
  }

  /** A query is let through exactly when its two coordinates are unflagged and strictly inside the ranges. */
  lemma ListSchoolsRequestPasses(query: seq<Property>)
    ensures ValidateListSchoolsRequest(query).Continue?
            <==> var latitude, longitude := GetIn(query, "latitude"), GetIn(query, "longitude");
                 !SqlInjection.ContainsSqlInjection(latitude) && !SqlInjection.ContainsSqlInjection(longitude)
                 && NumberWithin(latitude, -90.0, 90.0) && NumberWithin(longitude, -180.0, 180.0)
  {
    CheckCoordinatesIffInRange(GetIn(query, "latitude"), GetIn(query, "longitude"));
  }

  /** A query without coordinates is refused with the latitude message alone. */
  lemma MissingCoordinatesRefused(query: seq<Property>)
    requires forall i :: 0 <= i < |query| ==> query[i].key != "latitude" && query[i].key != "longitude"
    ensures ValidateListSchoolsRequest(query) == Forward(ValidationError([LatitudeRequired.Text()]))
  {
    assert GetIn(query, "latitude") == Undefined && GetIn(query, "longitude") == Undefined;
    assert CoordinateErrors(Undefined, Undefined) == [LatitudeRequired];
    assert Texts([LatitudeRequired]) == [LatitudeRequired.Text()];
  }
}
