/** How an Express middleware hands a request on: `next()` or `next(error)`. */
module Middleware {
  import Errors

  datatype NextCall =
    /** `next()` */
    | Continue
    /** `next(error)` */
    | Forward(error: Errors.AppError)
}
