/** The error classes of the application's `expressError` module that the
    modelled code throws. */
module ExpressError {

  datatype Error =
    | BadRequestError(message: string)   // HTTP 400
    | UnauthorizedError                  // HTTP 401
}
