/** The guard in front of every signed-in page. */
module PrivateRoute {
  import opened Common

  /** The signed-in user object of the identity provider (only its presence matters here). */
  datatype User = User(email: string)

  /** What the guard renders: the loading page, a `<Navigate>` redirect, or the guarded children. */
  datatype Outcome = LoadingPage | Redirect(to: string, state: Option<string>) | Children

  /**
    While the auth state is loading the guard shows the loading page whatever the user;
    afterwards a missing user is sent to "/register" with no location state, and a present
    user sees the children.
  */
  function Decide(loading: bool, user: Option<User>): (r: Outcome)
    ensures loading ==> r == LoadingPage
    ensures r == Children <==> !loading && user.Some?
    ensures r.Redirect? <==> !loading && user.None?
    ensures r.Redirect? ==> r.to == "/register" && r.state == None
  {
    if loading then LoadingPage
    else if user.None? then Redirect("/register", None)
    else Children
  }
}
