/** The two interceptors of the shared HTTP client
    (src/services/api.service.ts). Outbound, a stored token becomes a bearer
    credential; inbound, a 401 or 403 clears part of the stored session and
    sends the browser to the login page. Every outcome reaches the caller as
    it arrived: successes pass through, errors are rejected again,
    unchanged and once. */
module ApiService {
  import opened Types
  import opened Browser

  /** The storage keys the response interceptor removes, written out as
      literals in the interceptor. The second is NOT the session store's
      user key ("auth_user"). */
  const TokenStorageKey: string := "auth_token"
  const UserStorageKey: string := "user"

  const LoginPath: string := "/login"
  const AuthorizationHeader: string := "Authorization"

  /** The parts of an outgoing request the interceptor can see. */
  datatype RequestConfig = RequestConfig(url: string, headers: map<string, string>)

  /** The request interceptor's decision: a non-empty stored token is sent
      as "Bearer <token>"; otherwise the request goes out as it was. */
  function Authorize(storage: map<string, string>, config: RequestConfig): (out: RequestConfig)
    ensures out.url == config.url
    ensures forall h :: h != AuthorizationHeader ==>
              (h in out.headers <==> h in config.headers) &&
              (h in config.headers ==> out.headers[h] == config.headers[h])
    ensures TokenStorageKey in storage && storage[TokenStorageKey] != "" ==>
              AuthorizationHeader in out.headers &&
              out.headers[AuthorizationHeader] == "Bearer " + storage[TokenStorageKey]
    ensures !(TokenStorageKey in storage && storage[TokenStorageKey] != "") ==> out == config
  {
    if TokenStorageKey in storage && storage[TokenStorageKey] != "" then
      config.(headers := config.headers[AuthorizationHeader := "Bearer " + storage[TokenStorageKey]])
    else config
  }

  /** 401 (unauthorized) and 403 (forbidden) responses end the session. */
  predicate IsAuthFailure(error: HttpError)
  {
    error.ErrorResponse? && (error.status == 401 || error.status == 403)
  }

  /** Storage after the response interceptor has seen `error`. */
  function StorageAfterError(storage: map<string, string>, error: HttpError): map<string, string>
  {
    if IsAuthFailure(error) then storage - {TokenStorageKey, UserStorageKey} else storage
  }

  /** The page location after the response interceptor has seen `error`. */
  function LocationAfterError(location: string, error: HttpError): string
  {
    if IsAuthFailure(error) then LoginPath else location
  }

  /** A 401/403 removes the token and redirects to the login page; every
      other key, among them "auth_user", keeps its value. */
  lemma AuthFailureEffect(storage: map<string, string>, location: string, error: HttpError)
    requires IsAuthFailure(error)
    ensures TokenStorageKey !in StorageAfterError(storage, error)
    ensures UserStorageKey !in StorageAfterError(storage, error)
    ensures LocationAfterError(location, error) == LoginPath
    ensures forall k :: k in storage && k != TokenStorageKey && k != UserStorageKey ==>
              k in StorageAfterError(storage, error) && StorageAfterError(storage, error)[k] == storage[k]
  {
  }

  /** Any other error status, and an error with no response at all, leaves
      storage and location untouched. */
  lemma OtherErrorsChangeNothing(storage: map<string, string>, location: string, error: HttpError)
    requires !IsAuthFailure(error)
    ensures StorageAfterError(storage, error) == storage
    ensures LocationAfterError(location, error) == location
  {
  }

  class ApiClient {
    const window: BrowserWindow

    constructor (window: BrowserWindow)
      ensures this.window == window
    {
      this.window := window;
    }

    /** The request interceptor, reading the token from storage. */
    method InterceptRequest(config: RequestConfig) returns (out: RequestConfig)
      ensures out == Authorize(window.storage, config)
    {
      var token := window.GetItem(TokenStorageKey);
      out := config;
      if token.Some? && token.value != "" {
        out := config.(headers := config.headers[AuthorizationHeader := "Bearer " + token.value]);
      }
    }

    /** The response interceptor: a success passes through unchanged; an
        error is rejected again, the same error, after the 401/403 clean-up
        when it applies. */
    method InterceptResponse<T>(response: Result<T, HttpError>) returns (delivered: Result<T, HttpError>)
      modifies window
      ensures delivered == response
      ensures window.storage
           == (if response.Err? then StorageAfterError(old(window.storage), response.error) else old(window.storage))
      ensures window.location
           == (if response.Err? then LocationAfterError(old(window.location), response.error) else old(window.location))
    {
      delivered := response;
      if response.Err? && response.error.ErrorResponse? {
        var status := response.error.status;
        if status == 401 || status == 403 {
          window.RemoveItem(TokenStorageKey);
          window.RemoveItem(UserStorageKey);
          window.Assign(LoginPath);
        }
      }
    }
  }
}
