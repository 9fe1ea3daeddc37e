/** The error classes of the service, and what any other thrown error looks like. */
module Errors {

  datatype AppError =
    /** `new ValidationError(errors)` */
    | ValidationError(errors: seq<string>)
    /** `new DatabaseError(message)` */
    | DatabaseError(dbMessage: string)
    /** `new NotFoundError(resource)` */
    | NotFoundError(resource: string)
    /** Any other `Error`, for instance the TypeError of calling a method on a non-string. */
    | OtherError(errorName: string, errorMessage: string)
  {
    /** The `message` property. */
    function Message(): (m: string)
      ensures ValidationError? ==> m == "Validation failed"
      ensures DatabaseError? ==> m == dbMessage
      ensures NotFoundError? ==> |m| >= |resource| && m[..|resource|] == resource && m[|resource|..] == " not found"
    {
      match this
      case ValidationError(_) => "Validation failed"
      case DatabaseError(msg) => msg
      case NotFoundError(res) => res + " not found"
      case OtherError(_, msg) => msg
    }

    /** The `name` property: each class of the service sets it to its own name. */
    function Name(): (n: string)
      ensures ValidationError? ==> n == "ValidationError"
      ensures DatabaseError? ==> n == "DatabaseError"
      ensures NotFoundError? ==> n == "NotFoundError"
    {
      match this
      case ValidationError(_) => "ValidationError"
      case DatabaseError(_) => "DatabaseError"
      case NotFoundError(_) => "NotFoundError"
      case OtherError(name, _) => name
    }
  }

  /** The resource a NotFoundError names can be read back from its message. */
  lemma NotFoundMessageNamesResource(a: string, b: string)
    requires NotFoundError(a).Message() == NotFoundError(b).Message()
    ensures a == b
  {
    var m := NotFoundError(a).Message();
    assert |a| == |m| - 10 == |b|;
    assert a == m[..|a|] == b;
  }
}
