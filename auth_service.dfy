/** The session store (src/services/auth.service.ts): a token and a user
    snapshot kept in `localStorage` under two keys, written after a login or
    registration whose response carries a token, removed on logout. */
module SessionStore {
  import opened Types
  import opened Browser
  import opened UserCodec
  import opened ApiService

  const TokenKey: string := "auth_token"
  const UserKey: string := "auth_user"

  /** `getToken`: the stored token, or None. */
  function StoredToken(storage: map<string, string>): Option<string>
  {
    Lookup(storage, TokenKey)
  }

  /** `isAuthenticated`: a token is stored and it is not "". */
  predicate IsAuthenticatedIn(storage: map<string, string>)
  {
    TokenKey in storage && storage[TokenKey] != ""
  }

  /** `getCurrentUser`: the stored snapshot, or None when the key is absent,
      holds "", or does not decode. */
  function StoredUser(storage: map<string, string>): Option<User>
  {
    if UserKey in storage && storage[UserKey] != "" then DecodeUser(storage[UserKey]) else None
  }

  /** What a successful login or registration leaves in storage: token and
      snapshot when the response carries a token, otherwise the old storage. */
  function StoreSession(storage: map<string, string>, response: AuthResponse): map<string, string>
  {
    if response.token != "" then storage[TokenKey := response.token][UserKey := EncodeUser(UserOf(response))]
    else storage
  }

  /** What a login or registration call leaves in storage, the response
      interceptor included. */
  function SessionAfter(storage: map<string, string>, response: Result<AuthResponse, HttpError>): map<string, string>
  {
    if response.Ok? then StoreSession(storage, response.value) else StorageAfterError(storage, response.error)
  }

  /** What `logout` leaves in storage. */
  function ClearSession(storage: map<string, string>): map<string, string>
  {
    storage - {TokenKey, UserKey}
  }

  /** After a login with a token, the token and exactly the response's
      identity read back, and the store is authenticated. */
  lemma LoginStartsSession(storage: map<string, string>, response: AuthResponse)
    requires response.token != ""
    ensures StoredToken(StoreSession(storage, response)) == Some(response.token)
    ensures IsAuthenticatedIn(StoreSession(storage, response))
    ensures StoredUser(StoreSession(storage, response)) == Some(UserOf(response))
  {
    UserRoundTrip(UserOf(response));
  }

  /** A response without a token leaves storage exactly as it was. */
  lemma LoginWithoutTokenKeepsStorage(storage: map<string, string>, response: AuthResponse)
    requires response.token == ""
    ensures StoreSession(storage, response) == storage
  {
  }

  /** After logout nothing of the session can be read back. */
  lemma LogoutEndsSession(storage: map<string, string>)
    ensures StoredToken(ClearSession(storage)) == None
    ensures StoredUser(ClearSession(storage)) == None
    ensures !IsAuthenticatedIn(ClearSession(storage))
  {
  }

  /** Logging out twice is logging out once, and logout touches only the two
      session keys. */
  lemma LogoutIdempotentAndLocal(storage: map<string, string>)
    ensures ClearSession(ClearSession(storage)) == ClearSession(storage)
    ensures forall k :: k != TokenKey && k != UserKey ==>
              (k in ClearSession(storage) <==> k in storage) &&
              (k in storage ==> ClearSession(storage)[k] == storage[k])
  {
  }

  /** A stored empty token does not authenticate. */
  lemma EmptyTokenIsNotAuthenticated(storage: map<string, string>)
    requires StoredToken(storage) == Some("")
    ensures !IsAuthenticatedIn(storage)
  {
  }

  /** The request interceptor reads the key `setToken` writes, so the first
      request after a login with a token carries that token. */
  lemma RequestAfterLoginCarriesToken(storage: map<string, string>, response: AuthResponse, config: RequestConfig)
    requires response.token != ""
    ensures TokenKey == TokenStorageKey
    ensures AuthorizationHeader in Authorize(StoreSession(storage, response), config).headers
    ensures Authorize(StoreSession(storage, response), config).headers[AuthorizationHeader] == "Bearer " + response.token
  {
  }

  /** A 401/403 removes the token but not the snapshot under "auth_user":
      the store is no longer authenticated, yet the old user still reads
      back. */
  lemma AuthFailureKeepsUserSnapshot(storage: map<string, string>, error: HttpError)
    requires IsAuthFailure(error)
    ensures StoredToken(StorageAfterError(storage, error)) == None
    ensures !IsAuthenticatedIn(StorageAfterError(storage, error))
    ensures StoredUser(StorageAfterError(storage, error)) == StoredUser(storage)
  {
    assert UserKey != UserStorageKey;
  }

  class AuthService {
    const window: BrowserWindow
    const api: ApiClient

    /** The service writes the storage its HTTP client's interceptors read. */
    constructor (api: ApiClient)
      ensures this.api == api && window == api.window
    {
      this.api := api;
      this.window := api.window;
    }

    /** `login`: the response goes through the response interceptor; a
        success is stored when it carries a token and returned verbatim; an
        error propagates unchanged. */
    method Login(request: LoginRequest, response: Result<AuthResponse, HttpError>)
      returns (result: Result<AuthResponse, HttpError>)
      requires api.window == window
      modifies window
      ensures result == response
      ensures window.storage == SessionAfter(old(window.storage), response)
      ensures window.location
           == (if response.Err? then LocationAfterError(old(window.location), response.error) else old(window.location))
    {
      result := api.InterceptResponse(response);
      if result.Ok? {
        StoreResponse(result.value);
      }
    }

    /** `register`: a different endpoint, the same effect as `login`. */
    method Register(request: RegisterRequest, response: Result<AuthResponse, HttpError>)
      returns (result: Result<AuthResponse, HttpError>)
      requires api.window == window
      modifies window
      ensures result == response
      ensures window.storage == SessionAfter(old(window.storage), response)
      ensures window.location
           == (if response.Err? then LocationAfterError(old(window.location), response.error) else old(window.location))
    {
      result := api.InterceptResponse(response);
      if result.Ok? {
        StoreResponse(result.value);
      }
    }

    /** The `if (response.data.token)` block shared by login and register. */
    method StoreResponse(data: AuthResponse)
      modifies window
      ensures window.storage == StoreSession(old(window.storage), data)
      ensures window.location == old(window.location)
    {
      if data.token != "" {
        SetToken(data.token);
        SetUser(UserOf(data));
      }
    }

    method Logout()
      modifies window
      ensures window.storage == ClearSession(old(window.storage))
      ensures window.location == old(window.location)
    {
      window.RemoveItem(TokenKey);
      window.RemoveItem(UserKey);
    }

    method GetToken() returns (token: Option<string>)
      ensures token == StoredToken(window.storage)
    {
      token := window.GetItem(TokenKey);
    }

    method SetToken(token: string)
      modifies window
      ensures window.storage == old(window.storage)[TokenKey := token]
      ensures window.location == old(window.location)
    {
      window.SetItem(TokenKey, token);
    }

    method GetCurrentUser() returns (user: Option<User>)
      ensures user == StoredUser(window.storage)
    {
      var text := window.GetItem(UserKey);
      if text.Some? && text.value != "" {
        user := DecodeUser(text.value);
      } else {
        user := None;
      }
    }

    method SetUser(user: User)
      modifies window
      ensures window.storage == old(window.storage)[UserKey := EncodeUser(user)]
      ensures window.location == old(window.location)
    {
      window.SetItem(UserKey, EncodeUser(user));
    }

    method IsAuthenticated() returns (authenticated: bool)
      ensures authenticated == IsAuthenticatedIn(window.storage)
    {
      var token := GetToken();
      authenticated := token.Some? && token.value != "";
    }
  }
}
