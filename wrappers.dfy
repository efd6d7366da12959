/** Option and Result, used for the error paths of the views and the client. */
module Wrappers {

  datatype Option<+T> = None | Some(value: T)

  datatype Result<+T, +E> = Ok(value: T) | Err(error: E)

  /** An HTTP error response of the backend: a status code and its message. */
  datatype ApiError = ApiError(status: nat, message: string)

  const NotAuthenticated := ApiError(401, "Authentication credentials were not provided.")
  const PermissionDenied := ApiError(403, "You do not have permission to perform this action.")
}
