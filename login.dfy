/** The sign-in page: the same email and password rules as registration, then the post-sign-in navigation. */
module Login {
  import opened Common
  import opened Register
  import PrivateRoute

  datatype Credentials = Credentials(email: string, password: string)

  /** The form's field errors, keyed by field name. */
  function LoginErrors(email: string, password: string): (errors: map<string, FieldError>)
    ensures errors.Keys <= {"email", "password"}
    ensures "email" in errors <==> !MatchesEmail(email)
    ensures "password" in errors <==> CheckPassword(password) != Valid
  {
    var e0: map<string, FieldError> := map[];
    var e1 := if CheckEmail(email).Invalid? then e0["email" := CheckEmail(email).error] else e0;
    if CheckPassword(password).Invalid? then e1["password" := CheckPassword(password).error] else e1
  }

  /** `handleSubmit`: sign-in is attempted only with an address matching the pattern and a password meeting all four rules. */
  function SubmitLogin(email: string, password: string): (data: Option<Credentials>)
    ensures data.Some? <==> MatchesEmail(email) && |password| >= 6
                            && HasUpper(password) && HasLower(password) && HasSpecial(password)
    ensures data.Some? ==> data.value == Credentials(email, password)
  {
    if LoginErrors(email, password) == map[] then Some(Credentials(email, password)) else None
  }

  /** `location.state || '/'`: where a successful sign-in goes. */
  function RedirectTarget(state: Option<string>): (to: string)
    ensures Truthy(state) ==> to == state.value
    ensures !Truthy(state) ==> to == "/"
  {
    if Truthy(state) then state.value else "/"
  }

  datatype SignInResult = SignedIn | SignInError(message: Option<string>)

  /** The page's reaction to the identity provider's answer. */
  datatype Effect = Navigate(to: string, replace: bool) | ErrorToast(message: Option<string>)

  /**
    A successful sign-in replaces the current history entry with the redirect target;
    a failed one does not navigate and only shows the error's message.
  */
  function AfterSignIn(result: SignInResult, state: Option<string>): (e: Effect)
    ensures e.Navigate? <==> result.SignedIn?
    ensures e.Navigate? ==> e.to == RedirectTarget(state) && e.replace
    ensures result.SignInError? ==> e == ErrorToast(result.message)
  {
    match result
    case SignedIn => Navigate(RedirectTarget(state), true)
    case SignInError(message) => ErrorToast(message)
  }

  /**
    The guard's redirect carries no location state, so a visitor it turns away and who
    then signs in lands on "/", not on the page they first asked for.
  */
  lemma GuardRedirectLandsHome(user: Option<PrivateRoute.User>)
    requires PrivateRoute.Decide(false, user).Redirect?
    ensures AfterSignIn(SignedIn, PrivateRoute.Decide(false, user).state) == Navigate("/", true)
  {
  }
}
