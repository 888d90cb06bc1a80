/** The application's own error class and the HTTP status codes the core uses. */
module Errors {

  const BadRequest: nat := 400
  const Unauthorized: nat := 401
  const NotFound: nat := 404
  const Gone: nat := 410
  const InternalServerError: nat := 500

  /** A `ServerError`: a message and the HTTP status code to answer with. */
  datatype ServerError = ServerError(message: string, statusCode: nat) {
    /** The constructor of the class always sets `name` to "ServerError". */
    function Name(): string {
      "ServerError"
    }
  }
}
