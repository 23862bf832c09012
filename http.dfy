/** The failures an endpoint reports, each carried by an HTTP status code. */
module Http {

  /** Which condition raised the `HTTPException`; the detail text itself is not modelled. */
  datatype ErrorKind =
    | CodeNotRequested     // verify_code before send_code
    | NotAuthorized        // get_chats / parse before send_code
    | InvalidCode          // PhoneCodeInvalidError
    | PasswordRequired     // SessionPasswordNeededError
    | AdminRightsRequired  // ChatAdminRequiredError
    | InvalidMethod        // parse with an unknown method name
    | PlatformFailure      // any other exception raised by the client library

  datatype Error = Error(status: int, kind: ErrorKind)

  datatype Result<T> = Ok(value: T) | Err(error: Error)

  /** The status code every endpoint uses for its failures. */
  const BadRequest: int := 400

  /** The status code `parse_by_members` gives a missing admin right. */
  const Forbidden: int := 403
}
