/** The guard in front of the employee-only pages. */
module EmployRoute {
  import opened Common

  /** What the guard renders. It never redirects. */
  datatype Outcome = LoadingPage | Forbidden | Children

  /**
    While either the auth state or the role is loading the guard shows the loading page;
    afterwards only the role "employee" sees the children, and every other role
    ("hr", an unknown role or none at all) sees the forbidden page.
  */
  function Decide(loading: bool, roleLoading: bool, role: Option<string>): (r: Outcome)
    ensures r == LoadingPage <==> loading || roleLoading
    ensures r == Children <==> !loading && !roleLoading && role == Some("employee")
    ensures r == Forbidden <==> !loading && !roleLoading && role != Some("employee")
  {
    if loading || roleLoading then LoadingPage
    else if role != Some("employee") then Forbidden
    else Children
  }
}
