/** The Express error handler: the ordered dispatch from the kind of error to a status and an envelope. */
module ErrorHandler {
  import opened Wrappers
  import opened Errors
  import opened ResponseFormatter

  /** `res.status(status).json(body)` */
  datatype Response = Response(status: nat, body: FailureBody)

  /** `errorHandler(err, req, res, next)`: the one response it sends. */
  function HandleError(err: AppError): (r: Response)
    ensures !r.body.success
    ensures err.ValidationError? ==> r.status == 400 && r.body.message == err.Message() && r.body.errors == Some(err.errors)
    ensures err.DatabaseError? ==> r.status == 500 && r.body.message == "Database error" && r.body.errors == Some([err.Message()])
    ensures err.NotFoundError? ==> r.status == 404 && r.body.message == err.Message() && r.body.errors == None
    ensures err.OtherError? ==> r.status == 500 && r.body.message == "Internal server error" && r.body.errors == None
  {
    match err
    case ValidationError(errors) => Response(400, Failure("Validation failed", Some(errors)))
    case DatabaseError(message) => Response(500, Failure("Database error", Some([message])))
    case NotFoundError(_) => Response(404, Failure(err.Message(), None))
    case OtherError(_, _) => Response(500, Failure("Internal server error", None))
  }

  /** The status tells the kinds apart, except that a DatabaseError and any other error both give 500. */
  lemma StatusIdentifiesKind(err: AppError)
    ensures HandleError(err).status == 400 <==> err.ValidationError?
    ensures HandleError(err).status == 404 <==> err.NotFoundError?
    ensures HandleError(err).status == 500 <==> err.DatabaseError? || err.OtherError?
  {
  }

  /** Nothing of an unrecognised error reaches the client: all of them get the same response. */
  lemma OtherErrorsConcealed(err1: AppError, err2: AppError)
    requires err1.OtherError? && err2.OtherError?
    ensures HandleError(err1) == HandleError(err2)
  {
  }

  /** The message of a ValidationError or a NotFoundError is sent as the envelope's message. */
  lemma MessageForwarded(err: AppError)
    requires err.ValidationError? || err.NotFoundError?
    ensures HandleError(err).body.message == err.Message()
  {
  }
}
