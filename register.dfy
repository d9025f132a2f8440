/** The registration page (src/pages/auth/Register.tsx): its field rules,
    the confirm-password check, and the submit handler around the auth
    context's `register`. */
module Register {
  import opened Types
  import opened ApiService
  import opened SessionStore
  import opened AuthContext

  const UsernameRequired: string := "Please enter your username"
  const UsernameLength: string := "Username must be between 3 and 50 characters"
  const EmailRequired: string := "Please enter your email"
  const EmailInvalid: string := "Please enter a valid email"
  const PasswordRequired: string := "Please enter your password"
  const PasswordTooShort: string := "Password must be at least 6 characters"
  const ConfirmRequired: string := "Please confirm your password"
  const PasswordMismatch: string := "Passwords do not match"
  const RegistrationSucceeded: string := "Registration successful! Welcome to Link Hub!"
  const RegistrationFailed: string := "Registration failed. Please try again."
  const HomePath: string := "/"

  /** The four fields of the form; "" stands for a field left empty. */
  datatype RegisterForm = RegisterForm(username: string, email: string, password: string, confirmPassword: string)

  /* As in the link form, every rule but `required` is skipped for an empty
     value, so an empty field reports only its "required" message. */

  /** Username: required, 3 to 50 characters. */
  function UsernameErrors(username: string): (errors: seq<string>)
    ensures errors == [] <==> 3 <= |username| <= 50
    ensures username == "" ==> errors == [UsernameRequired]
  {
    if username == "" then [UsernameRequired]
    else if |username| < 3 || |username| > 50 then [UsernameLength]
    else []
  }

  /** Email: required and well-formed by the library's email check. */
  function EmailErrors(email: string, isEmail: string -> bool): (errors: seq<string>)
    ensures errors == [] <==> email != "" && isEmail(email)
    ensures email == "" ==> errors == [EmailRequired]
  {
    if email == "" then [EmailRequired]
    else if isEmail(email) then []
    else [EmailInvalid]
  }

  /** Password: required, at least 6 characters. */
  function PasswordErrors(password: string): (errors: seq<string>)
    ensures errors == [] <==> |password| >= 6
    ensures password == "" ==> errors == [PasswordRequired]
  {
    if password == "" then [PasswordRequired]
    else if |password| < 6 then [PasswordTooShort]
    else []
  }

  /** The custom confirm validator on its own: it passes an empty value and
      a value equal to the password. */
  predicate ConfirmValidatorPasses(password: string, confirm: string)
  {
    confirm == "" || password == confirm
  }

  /** Confirm: the required rule, then the custom validator. Together they
      accept exactly a non-empty copy of the password. */
  function ConfirmErrors(password: string, confirm: string): (errors: seq<string>)
    ensures errors == [] <==> confirm != "" && confirm == password
    ensures confirm == "" ==> errors == [ConfirmRequired]
    ensures confirm != "" ==> (errors == [] <==> ConfirmValidatorPasses(password, confirm))
  {
    (if confirm == "" then [ConfirmRequired] else [])
      + (if ConfirmValidatorPasses(password, confirm) then [] else [PasswordMismatch])
  }

  /** A form the page lets through. */
  predicate ValidForm(form: RegisterForm, isEmail: string -> bool)
  {
    && 3 <= |form.username| <= 50
    && form.email != "" && isEmail(form.email)
    && |form.password| >= 6
    && form.confirmPassword == form.password
  }

  /** Every message of every field, in form order. */
  function FormErrors(form: RegisterForm, isEmail: string -> bool): (errors: seq<string>)
    ensures errors == [] <==> ValidForm(form, isEmail)
  {
    UsernameErrors(form.username) + EmailErrors(form.email, isEmail)
      + PasswordErrors(form.password) + ConfirmErrors(form.password, form.confirmPassword)
  }

  /** The error toast's text: the server's message when it is present and
      not empty, the generic text otherwise. */
  function FailureMessage(error: HttpError): (text: string)
    ensures text != ""
    ensures ServerMessage(error).Some? && ServerMessage(error).value != "" ==> text == ServerMessage(error).value
    ensures ServerMessage(error).None? || ServerMessage(error).value == "" ==> text == RegistrationFailed
  {
    var m := ServerMessage(error);
    if m.Some? && m.value != "" then m.value else RegistrationFailed
  }

  class RegisterPage {
    const provider: AuthProvider
    var loading: bool
    /** The last `navigate` target, if any. */
    var route: Option<string>
    var toast: Option<Toast>

    constructor (provider: AuthProvider)
      ensures this.provider == provider
      ensures !loading && route == None && toast == None
    {
      this.provider := provider;
      loading := false;
      route := None;
      toast := None;
    }

    /** `handleSubmit`: register through the auth context; navigate home
        only on success; report the failure otherwise. `loading` is false
        afterwards either way. */
    method HandleSubmit(values: RegisterRequest, response: Result<AuthResponse, HttpError>)
      requires provider.auth.api.window == provider.auth.window
      modifies this, provider, provider.auth.window
      ensures !loading
      ensures route == (if response.Ok? then Some(HomePath) else old(route))
      ensures toast == Some(if response.Ok? then SuccessToast(RegistrationSucceeded)
                            else ErrorToast(Some(FailureMessage(response.error))))
      ensures provider.user == (if response.Ok? then Some(UserOf(response.value)) else old(provider.user))
      ensures provider.loading == old(provider.loading)
      ensures provider.auth.window.storage == SessionAfter(old(provider.auth.window.storage), response)
      ensures provider.auth.window.location
           == (if response.Err? then LocationAfterError(old(provider.auth.window.location), response.error)
               else old(provider.auth.window.location))
    {
      loading := true;
      var outcome := provider.Register(values, response);
      if outcome.Ok? {
        toast := Some(SuccessToast(RegistrationSucceeded));
        route := Some(HomePath);
      } else {
        toast := Some(ErrorToast(Some(FailureMessage(outcome.error))));
      }
      loading := false;
    }

    /** Pressing "register": the form runs its rules and calls
        `handleSubmit` only when none fails. */
    method Submit(form: RegisterForm, isEmail: string -> bool, response: Result<AuthResponse, HttpError>)
      requires provider.auth.api.window == provider.auth.window
      modifies this, provider, provider.auth.window
      ensures !ValidForm(form, isEmail) ==>
                loading == old(loading) && route == old(route) && toast == old(toast) &&
                provider.user == old(provider.user) && provider.loading == old(provider.loading) &&
                provider.auth.window.storage == old(provider.auth.window.storage) &&
                provider.auth.window.location == old(provider.auth.window.location)
      ensures ValidForm(form, isEmail) ==>
                && !loading
                && route == (if response.Ok? then Some(HomePath) else old(route))
                && toast == Some(if response.Ok? then SuccessToast(RegistrationSucceeded)
                                 else ErrorToast(Some(FailureMessage(response.error))))
                && provider.user == (if response.Ok? then Some(UserOf(response.value)) else old(provider.user))
                && provider.loading == old(provider.loading)
                && provider.auth.window.storage == SessionAfter(old(provider.auth.window.storage), response)
                && provider.auth.window.location
                   == (if response.Err? then LocationAfterError(old(provider.auth.window.location), response.error)
                       else old(provider.auth.window.location))
    {
      if FormErrors(form, isEmail) == [] {
        HandleSubmit(RegisterRequest(form.username, form.email, form.password), response);
      }
    }
  }
}
