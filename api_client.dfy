/** The shared HTTP client of apiClient.ts: the response interceptor that
    ends a lost session, and the status-to-message helper. */
module ApiClient {
  import opened Common
  import opened Routes

  /** A failed request: its response (status and the `message` of the body),
      or None when no response arrived. */
  datatype Failure = Failure(response: Option<ErrorResponse>)
  datatype ErrorResponse = ErrorResponse(status: int, serverMessage: Option<string>)

  const NetworkError: string := "Network error. Please check your connection."
  const InvalidRequest: string := "Invalid request."
  const UnauthorizedMessage: string := "Unauthorized. Please check your login details."
  const ForbiddenMessage: string := "You do not have permission to perform this action."
  const NotFoundMessage: string := "Requested resource not found."
  const ServerErrorMessage: string := "Internal server error. Please try again later."
  const UnexpectedError: string := "An unexpected error occurred."

  /** handleApiError. */
  function HandleApiError(f: Failure): (msg: string)
    ensures f.response.None? ==> msg == NetworkError
    ensures f.response.Some? && f.response.value.status == 400 ==>
              msg == (if f.response.value.serverMessage.Some? && f.response.value.serverMessage.value != ""
                      then f.response.value.serverMessage.value else InvalidRequest)
    ensures f.response.Some? && f.response.value.status !in {400, 401, 403, 404, 500} ==> msg == UnexpectedError
  {
    if f.response.None? then NetworkError
    else
      var r := f.response.value;
      if r.status == 400 then
        (if r.serverMessage.Some? && r.serverMessage.value != "" then r.serverMessage.value else InvalidRequest)
      else if r.status == 401 then UnauthorizedMessage
      else if r.status == 403 then ForbiddenMessage
      else if r.status == 404 then NotFoundMessage
      else if r.status == 500 then ServerErrorMessage
      else UnexpectedError
  }

  /** 401, 403, 404 and 500 each have a message of their own, distinct from
      the network and the fallback messages. */
  lemma FixedMessagesDistinct(a: int, b: int)
    requires a in {401, 403, 404, 500} && b in {401, 403, 404, 500} && a != b
    ensures HandleApiError(Failure(Some(ErrorResponse(a, None)))) != HandleApiError(Failure(Some(ErrorResponse(b, None))))
    ensures HandleApiError(Failure(Some(ErrorResponse(a, None)))) != NetworkError
    ensures HandleApiError(Failure(Some(ErrorResponse(a, None)))) != UnexpectedError
  {
    // The messages differ in length, except two pairs that differ near the end.
    assert UnauthorizedMessage[|UnauthorizedMessage| - 2] == 's';
    assert ServerErrorMessage[|ServerErrorMessage| - 2] == 'r';
    assert NotFoundMessage[|NotFoundMessage| - 3] == 'n';
    assert UnexpectedError[|UnexpectedError| - 3] == 'e';
  }

  /** The page state the interceptor touches: local storage and the path. */
  class Page {
    var storage: map<string, string>
    var path: string

    constructor (storage: map<string, string>, path: string)
      ensures this.storage == storage && this.path == path
    {
      this.storage := storage;
      this.path := path;
    }

    /** The interceptor's error handler: a 401 away from the login and
        sign-up pages drops the stored token and role and goes to the login
        page; the error is rejected again either way. */
    method OnRejected(error: Failure) returns (rejected: Failure)
      modifies this
      ensures rejected == error
      ensures var lost := error.response.Some? && error.response.value.status == 401
                          && old(path) != LoginRoute && old(path) != SignUpRoute;
              && (lost ==> storage == old(storage) - {"token", "role"} && path == LoginRoute)
              && (!lost ==> storage == old(storage) && path == old(path))
    {
      if error.response.Some? && error.response.value.status == 401 && path != LoginRoute && path != SignUpRoute {
        storage := storage - {"token", "role"};
        path := LoginRoute;
      }
      rejected := error;
    }
  }
}
