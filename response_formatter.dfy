/** The uniform response envelopes. */
module ResponseFormatter {
  import opened Wrappers

  /** `{ success, data, message }`; an absent message is `undefined` and is left out of the JSON. */
  datatype SuccessBody<T> = SuccessBody(success: bool, data: T, message: Option<string>)

  /** `{ success, message, errors }`; absent errors are left out of the JSON. */
  datatype FailureBody = FailureBody(success: bool, message: string, errors: Option<seq<string>>)

  /** `success(data, message)` */
  function Success<T>(data: T, message: Option<string>): (r: SuccessBody<T>)
    ensures r.success
    ensures r.data == data && r.message == message
  {
    SuccessBody(true, data, message)
  }

  /** `failure(message, errors)` */
  function Failure(message: string, errors: Option<seq<string>>): (r: FailureBody)
    ensures !r.success
    ensures r.message == message && r.errors == errors
  {
    FailureBody(false, message, errors)
  }
}
