/** The authentication context (src/context/AuthContext.tsx): the signed-in
    user held in memory, a loading flag for the start-up restore, the
    login/register/logout actions built on the session store, and the
    derived `isAuthenticated`. */
module AuthContext {
  import opened Types
  import opened Browser
  import opened ApiService
  import opened SessionStore

  const MissingProviderMessage: string := "useAuth must be used within an AuthProvider"

  /** `useAuth`: the context value, or the error thrown outside a provider. */
  function UseAuth<T>(context: Option<T>): (r: Result<T, string>)
    ensures context.Some? <==> r.Ok?
    ensures context.Some? ==> r.value == context.value
    ensures context.None? ==> r.error == MissingProviderMessage
  {
    if context.Some? then Ok(context.value) else Err(MissingProviderMessage)
  }

  /** The value the provider exposes as `isAuthenticated`: a user in
      memory and a token `getToken` returns that is not "". */
  predicate SignedIn(user: Option<User>, storage: map<string, string>): (signedIn: bool)
    ensures signedIn <==> user.Some? && StoredToken(storage).Some? && StoredToken(storage).value != ""
  {
    user.Some? && IsAuthenticatedIn(storage)
  }

  /** What start-up restores: the stored snapshot, when it decodes and a
      non-empty token is stored as well. */
  function Restored(storage: map<string, string>, user: Option<User>): Option<User>
  {
    if StoredUser(storage).Some? && IsAuthenticatedIn(storage) then StoredUser(storage) else user
  }

  /** A login or registration with a token signs in as exactly the
      response's identity, and the restore after a reload yields that same
      identity. */
  lemma LoginSignsIn(storage: map<string, string>, response: AuthResponse, user: Option<User>)
    requires response.token != ""
    ensures SignedIn(Some(UserOf(response)), StoreSession(storage, response))
    ensures Restored(StoreSession(storage, response), user) == Some(UserOf(response))
  {
    LoginStartsSession(storage, response);
  }

  /** A response without a token still sets the in-memory user, so whether
      the context reports a session depends only on a token stored earlier. */
  lemma LoginWithoutTokenSignedInOnlyByOldToken(storage: map<string, string>, response: AuthResponse)
    requires response.token == ""
    ensures SignedIn(Some(UserOf(response)), StoreSession(storage, response)) <==> IsAuthenticatedIn(storage)
  {
  }

  /** After a 401/403 the context no longer reports a session, whatever user
      it still holds. */
  lemma AuthFailureSignsOut(storage: map<string, string>, user: Option<User>, error: HttpError)
    requires IsAuthFailure(error)
    ensures !SignedIn(user, StorageAfterError(storage, error))
  {
    AuthFailureKeepsUserSnapshot(storage, error);
  }

  class AuthProvider {
    var user: Option<User>
    var loading: bool
    const auth: AuthService

    /** Before start-up has run: no user, loading. */
    constructor (auth: AuthService)
      ensures this.auth == auth
      ensures user == None && loading
    {
      this.auth := auth;
      user := None;
      loading := true;
    }

    /** The derived `isAuthenticated`: neither the user alone nor the token
        alone is enough. */
    predicate IsAuthenticated(): (authenticated: bool)
      reads this, auth.window
      ensures authenticated ==> user.Some?
      ensures authenticated <==> user.Some? && StoredToken(auth.window.storage).Some? && StoredToken(auth.window.storage).value != ""
    {
      SignedIn(user, auth.window.storage)
    }

    /** The start-up effect: restore the user if a snapshot and a token are
        stored, then stop loading. Storage is only read. */
    method Init()
      modifies this
      ensures user == Restored(auth.window.storage, old(user))
      ensures !loading
    {
      var currentUser := auth.GetCurrentUser();
      var authenticated := auth.IsAuthenticated();
      if currentUser.Some? && authenticated {
        user := currentUser;
      }
      loading := false;
    }

    /** `login`: on success the user becomes the response's identity, even
        without a token; on failure the same error is thrown again and the
        user is unchanged. */
    method Login(request: LoginRequest, response: Result<AuthResponse, HttpError>)
      returns (outcome: Result<(), HttpError>)
      requires auth.api.window == auth.window
      modifies this, auth.window
      ensures outcome == (if response.Ok? then Ok(()) else Err(response.error))
      ensures user == (if response.Ok? then Some(UserOf(response.value)) else old(user))
      ensures loading == old(loading)
      ensures auth.window.storage == SessionAfter(old(auth.window.storage), response)
      ensures auth.window.location
           == (if response.Err? then LocationAfterError(old(auth.window.location), response.error) else old(auth.window.location))
    {
      var result := auth.Login(request, response);
      if result.Ok? {
        user := Some(UserOf(result.value));
        outcome := Ok(());
      } else {
        outcome := Err(result.error);
      }
    }

    /** `register`: the same contract as `login`. */
    method Register(request: RegisterRequest, response: Result<AuthResponse, HttpError>)
      returns (outcome: Result<(), HttpError>)
      requires auth.api.window == auth.window
      modifies this, auth.window
      ensures outcome == (if response.Ok? then Ok(()) else Err(response.error))
      ensures user == (if response.Ok? then Some(UserOf(response.value)) else old(user))
      ensures loading == old(loading)
      ensures auth.window.storage == SessionAfter(old(auth.window.storage), response)
      ensures auth.window.location
           == (if response.Err? then LocationAfterError(old(auth.window.location), response.error) else old(auth.window.location))
    {
      var result := auth.Register(request, response);
      if result.Ok? {
        user := Some(UserOf(result.value));
        outcome := Ok(());
      } else {
        outcome := Err(result.error);
      }
    }

    /** `logout`: clear the store, forget the user. */
    method Logout()
      modifies this, auth.window
      ensures user == None && !IsAuthenticated()
      ensures auth.window.storage == ClearSession(old(auth.window.storage))
      ensures auth.window.location == old(auth.window.location)
      ensures loading == old(loading)
    {
      auth.Logout();
      user := None;
    }
  }
}
