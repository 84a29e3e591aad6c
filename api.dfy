/**
 * The HTTP client's two interceptors (src/services/api.ts): the request
 * interceptor attaches the stored token as a bearer credential, and the
 * response interceptor turns every failure into an `ApiError`, clearing the
 * session keys on a 401.
 */
module Api {
  import opened Wrappers
  import opened Config
  import opened Storage

  type FieldErrors = map<string, seq<string>>

  /** What the interceptor reads of a response body: `data?.message` and `data?.errors`. */
  datatype ResponseData = ResponseData(message: Option<string>, errors: Option<FieldErrors>)

  datatype HttpResponse = HttpResponse(status: int, data: ResponseData)

  /**
   * The shape of an axios failure: its own message, the response if one
   * arrived, and whether the request was sent at all.
   */
  datatype HttpFailure = HttpFailure(message: string, response: Option<HttpResponse>, requestSent: bool)

  /** A server call as the client sees it: the response body, or a failure. */
  datatype HttpOutcome<T> = Received(body: T) | Failed(failure: HttpFailure)

  /** `ApiError` of src/types/api.ts. */
  datatype ApiError = ApiError(message: string, errors: Option<FieldErrors>, status: Option<int>)

  const UnexpectedErrorMessage: string := "An unexpected error occurred"
  const NoResponseMessage: string := "No response from server. Please check your connection."
  const AuthorizationHeader: string := "Authorization"
  const UnauthorizedStatus: int := 401

  predicate IsUnauthorized(f: HttpFailure) {
    f.response.Some? && f.response.value.status == UnauthorizedStatus
  }

  /** The error every failing call rejects with. */
  function Normalize(f: HttpFailure): (e: ApiError)
    ensures e.status.Some? <==> f.response.Some?
    ensures f.response.Some? ==> e.status.value == f.response.value.status
    ensures f.response.Some? ==> e.errors == f.response.value.data.errors
    ensures f.response.Some? ==>
      var m := f.response.value.data.message;
      e.message == if m.Some? && m.value != "" then m.value else f.message
    ensures f.response.None? ==> e.errors.None?
    ensures f.response.None? && f.requestSent ==> e.message == NoResponseMessage
    ensures f.response.None? && !f.requestSent ==> e.message == UnexpectedErrorMessage
  {
    match f.response
    case Some(r) =>
      var m := r.data.message;
      ApiError(if m.Some? && m.value != "" then m.value else f.message, r.data.errors, Some(r.status))
    case None =>
      ApiError(if f.requestSent then NoResponseMessage else UnexpectedErrorMessage, None, None)
  }

  /** A failure always yields a message unless both the server's and axios's own are empty. */
  lemma NormalizedMessageNonEmpty(f: HttpFailure)
    requires f.message != ""
    ensures Normalize(f).message != ""
  {
  }

  /** How a call settles: the body passes through unchanged, a failure rejects with its `ApiError`. */
  function Settle<T>(outcome: HttpOutcome<T>): Result<T, ApiError> {
    match outcome
    case Received(body) => Success(body)
    case Failed(f) => Failure(Normalize(f))
  }

  /** The rejection of a call, if it failed. */
  function Rejection<T>(outcome: HttpOutcome<T>): (e: Option<ApiError>)
    ensures e.Some? <==> outcome.Failed?
    ensures outcome.Failed? ==> e.value == Normalize(outcome.failure)
  {
    match outcome
    case Received(_) => None
    case Failed(f) => Some(Normalize(f))
  }

  /** The store after a failure passed through the response interceptor. */
  function AfterFailure(items: map<string, string>, f: HttpFailure): map<string, string> {
    if IsUnauthorized(f) then items - SessionKeys else items
  }

  /** The store after any outcome passed through the response interceptor. */
  function AfterResponse<T>(items: map<string, string>, outcome: HttpOutcome<T>): map<string, string> {
    match outcome
    case Received(_) => items
    case Failed(f) => AfterFailure(items, f)
  }

  /**
   * A 401 removes exactly the token and the user record; every other key,
   * and every other failure, leaves the store as it was; clearing twice is
   * clearing once.
   */
  lemma UnauthorizedClearsSessionOnly(items: map<string, string>, f: HttpFailure)
    ensures IsUnauthorized(f) ==> AuthTokenKey !in AfterFailure(items, f) && UserDataKey !in AfterFailure(items, f)
    ensures !IsUnauthorized(f) ==> AfterFailure(items, f) == items
    ensures forall k :: k !in SessionKeys ==>
      (k in AfterFailure(items, f) <==> k in items)
      && (k in items ==> AfterFailure(items, f)[k] == items[k])
    ensures AfterFailure(AfterFailure(items, f), f) == AfterFailure(items, f)
  {
  }

  /** The headers of an outgoing request given the stored token. */
  function WithAuthorization(headers: map<string, string>, token: Option<string>): (h: map<string, string>)
    ensures token.Some? && token.value != "" ==>
      AuthorizationHeader in h && h[AuthorizationHeader] == "Bearer " + token.value
    ensures !(token.Some? && token.value != "") ==> h == headers
    ensures forall k :: k != AuthorizationHeader ==>
      (k in h <==> k in headers) && (k in h ==> h[k] == headers[k])
  {
    if token.Some? && token.value != "" then headers[AuthorizationHeader := "Bearer " + token.value]
    else headers
  }

  /** The configured axios instance, sharing the device store with the session. */
  class ApiClient {
    const store: KeyValueStore

    constructor (store: KeyValueStore)
      ensures this.store == store
    {
      this.store := store;
    }

    /** The request interceptor: reads the token afresh for every request. */
    method InterceptRequest(headers: map<string, string>) returns (out: map<string, string>)
      ensures out == WithAuthorization(headers, Lookup(store.items, AuthTokenKey))
    {
      var token := store.GetItem(AuthTokenKey);
      out := headers;
      if token.Some? && token.value != "" {
        out := out[AuthorizationHeader := "Bearer " + token.value];
      }
    }

    /** The response interceptor. */
    method InterceptResponse<T>(outcome: HttpOutcome<T>) returns (r: Result<T, ApiError>)
      modifies store
      ensures r == Settle(outcome)
      ensures store.items == AfterResponse(old(store.items), outcome)
    {
      match outcome
      case Received(body) =>
        r := Success(body);
      case Failed(f) =>
        var apiError := ApiError(UnexpectedErrorMessage, None, if f.response.Some? then Some(f.response.value.status) else None);
        if f.response.Some? {
          var data := f.response.value.data;
          apiError := apiError.(message := if data.message.Some? && data.message.value != "" then data.message.value else f.message);
          apiError := apiError.(errors := data.errors);
          if f.response.value.status == UnauthorizedStatus {
            store.RemoveItem(AuthTokenKey);
            store.RemoveItem(UserDataKey);
          }
        } else if f.requestSent {
          apiError := apiError.(message := NoResponseMessage);
        }
        r := Failure(apiError);
    }
  }
}
