/**
  The HR's request list: a status badge per request, Approve and Reject controls on
  pending requests only, an approval that first compares the HR's current employee
  count with the package limit, and the classification of a failed update.
*/
module AllRequests {
  import opened Common

  /** An asset request as the list shows it. */
  datatype AssetRequest = AssetRequest(id: string, requesterName: string, assetName: string, hrEmail: string, requestStatus: string)

  datatype Badge = Warning | Success | Error

  /** The status badge: pending is a warning, approved a success, every other status an error. */
  function BadgeFor(status: string): (b: Badge)
    ensures b == Warning <==> status == "pending"
    ensures b == Success <==> status == "approved"
    ensures b == Error <==> status != "pending" && status != "approved"
  {
    if status == "pending" then Warning else if status == "approved" then Success else Error
  }

  datatype Control = ApproveButton | RejectButton | DetailsButton

  /** A row's buttons: details always, approve and reject only while the request is pending. */
  function Controls(req: AssetRequest): (cs: set<Control>)
    ensures DetailsButton in cs
    ensures ApproveButton in cs <==> req.requestStatus == "pending"
    ensures RejectButton in cs <==> req.requestStatus == "pending"
  {
    {DetailsButton} + (if req.requestStatus == "pending" then {ApproveButton, RejectButton} else {})
  }

  /** The update sent to `/requests/:id`. */
  datatype Mutation = Mutation(id: string, action: string)

  /** The Reject button issues its update directly, with no check. */
  function RejectMutation(req: AssetRequest): (m: Mutation)
    ensures m.id == req.id && m.action == "rejected"
  {
    Mutation(req.id, "rejected")
  }

  /** The `employeesLimit` field of the HR's package, which the page reads without checking it. */
  datatype LimitField = Undefined | Null | Limit(n: int)

  /** The HR's package, as the profile returns it; the profile may carry none. */
  datatype HrPackage = HrPackage(employeesLimit: LimitField)

  /**
    JavaScript's `currentCount >= hrPackage.employeesLimit`: a missing field compares as
    `NaN` (never reached), `null` as 0 (always reached), a number as itself.
  */
  predicate LimitReached(count: nat, limit: LimitField)
  {
    match limit
    case Undefined => false
    case Null => true
    case Limit(n) => count >= n
  }

  datatype ApproveOutcome =
    | Approve(mutation: Mutation)                 // the update is issued
    | LimitBlocked(navigateTo: Option<string>)    // the upgrade dialog, and where its answer leads
    | CheckFailed                                 // a pre-check fetch threw: "Check failed"

  /**
    `handleApprove`: fetch the HR's profile (`hrProfile`, whose `package` may be missing)
    and the current employee count (`employeeCount`). If either fetch fails, or there is
    no package to read the limit from, the check fails. If the limit is reached the upgrade
    dialog is shown and nothing is issued; only a confirmation leads to the packages page.
    Otherwise the request is approved.
  */
  method HandleApprove(req: AssetRequest, hrProfile: Fetch<Option<HrPackage>>, employeeCount: Fetch<nat>, upgradeConfirmed: bool)
    returns (out: ApproveOutcome)
    ensures out.CheckFailed? <==> hrProfile.FetchFailed? || employeeCount.FetchFailed? || hrProfile.data.None?
    ensures out.Approve? <==> hrProfile.Fetched? && employeeCount.Fetched? && hrProfile.data.Some?
                              && !LimitReached(employeeCount.data, hrProfile.data.value.employeesLimit)
    ensures out.Approve? ==> out.mutation == Mutation(req.id, "approved")
    ensures hrProfile.Fetched? && employeeCount.Fetched? && hrProfile.data.Some? ==>
              match hrProfile.data.value.employeesLimit
              case Limit(n) => out.Approve? <==> employeeCount.data < n
              case Undefined => out.Approve?
              case Null => out.LimitBlocked?
    ensures out.LimitBlocked? ==> out.navigateTo == if upgradeConfirmed then Some("/dashboard/myPackages") else None
  {
    if hrProfile.FetchFailed? {
      return CheckFailed;
    }
    var hrPackage := hrProfile.data;
    if employeeCount.FetchFailed? {
      return CheckFailed;
    }
    var currentCount := employeeCount.data;
    if hrPackage.None? {
      return CheckFailed;
    }
    if LimitReached(currentCount, hrPackage.value.employeesLimit) {
      var target := if upgradeConfirmed then Some("/dashboard/myPackages") else None;
      return LimitBlocked(target);
    }
    out := Approve(Mutation(req.id, "approved"));
  }

  /** How an update (approve or reject) settled: success, or an error with its HTTP status if any. */
  datatype UpdateResult = Updated | UpdateError(status: Option<int>)

  datatype Notice = UpdatedToast | LimitDialog | UpdateFailedToast

  /** The update's error handler: a 403 opens the limit dialog, every other failure a toast. */
  function NoticeFor(r: UpdateResult): (n: Notice)
    ensures n == UpdatedToast <==> r.Updated?
    ensures n == LimitDialog <==> r.UpdateError? && r.status == Some(403)
    ensures n == UpdateFailedToast <==> r.UpdateError? && r.status != Some(403)
  {
    match r
    case Updated => UpdatedToast
    case UpdateError(status) => if status == Some(403) then LimitDialog else UpdateFailedToast
  }

  /** The page's only state cell: the request shown in the details dialog. */
  class RequestsView {
    var selected: Option<AssetRequest>

    constructor ()
      ensures selected == None
    {
      selected := None;
    }

    /** The details button opens the dialog on its request. */
    method ShowDetails(req: AssetRequest)
      modifies this
      ensures selected == Some(req)
    {
      selected := Some(req);
    }

    /** The dialog's Close button. */
    method Close()
      modifies this
      ensures selected == None
    {
      selected := None;
    }

    /** An update settles: success clears the dialog, a failure leaves it as it was. */
    method OnUpdateSettled(r: UpdateResult) returns (n: Notice)
      modifies this
      ensures n == NoticeFor(r)
      ensures selected == if r.Updated? then None else old(selected)
    {
      n := NoticeFor(r);
      if r.Updated? {
        selected := None;
      }
    }
  }
}
