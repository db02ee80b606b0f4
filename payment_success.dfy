/**
  The page the checkout returns to: it records the payment only when the URL carries all
  four of `pkg`, `limit`, `price` and `trackingId`, and shows the tracking id the backend
  answers with.
*/
module PaymentSuccess {
  import opened Common
  import opened Records

  /** The query parameters the checkout appends; `None` is a missing parameter. */
  datatype ReturnParams = ReturnParams(pkg: Option<string>, limit: Option<string>, price: Option<string>, trackingId: Option<string>)

  /** The body posted to `/payments`. */
  datatype PaymentBody = PaymentBody(packageName: string, employeeLimit: JsNumber, amount: JsNumber, trackingId: string)

  /**
    The effect's guard and body: nothing unless all four parameters are present and
    non-empty; then the package name and tracking id as given, and `Number()` of the
    limit and of the price.
  */
  function PaymentBodyFor(params: ReturnParams): (body: Option<PaymentBody>)
    ensures body.Some? <==> Truthy(params.pkg) && Truthy(params.limit) && Truthy(params.price) && Truthy(params.trackingId)
    ensures body.Some? ==> body.value.packageName == params.pkg.value
                           && body.value.employeeLimit == NumberOf(params.limit.value)
                           && body.value.amount == NumberOf(params.price.value)
                           && body.value.trackingId == params.trackingId.value
  {
    if Truthy(params.pkg) && Truthy(params.limit) && Truthy(params.price) && Truthy(params.trackingId) then
      Some(PaymentBody(params.pkg.value, NumberOf(params.limit.value), NumberOf(params.price.value), params.trackingId.value))
    else None
  }

  class PaymentSuccessView {
    /** The tracking id shown on the page; `None` until the backend answers. */
    var trackingId: Option<string>

    constructor ()
      ensures trackingId == None
    {
      trackingId := None;
    }

    /** The tracking-id line is shown only for a non-empty id. */
    predicate ShowsTrackingId()
      reads this
    {
      Truthy(trackingId)
    }

    /**
      `savePayment`: when the guard passes, post the body; `response` is the backend's answer
      (its `trackingId`, which may be missing) or the failure. Only an answer changes what the
      page shows.
    */
    method SavePayment(params: ReturnParams, response: Fetch<Option<string>>) returns (posted: Option<PaymentBody>)
      modifies this
      ensures posted == PaymentBodyFor(params)
      ensures trackingId == if posted.Some? && response.Fetched? then response.data else old(trackingId)
    {
      posted := PaymentBodyFor(params);
      if posted.Some? && response.Fetched? {
        trackingId := response.data;
      }
    }
  }

  /** A page whose save failed, or whose URL lacks a parameter, never shows a tracking id. */
  method NothingShownWithoutAnswer(params: ReturnParams, response: Fetch<Option<string>>) returns (shown: bool)
    requires response.FetchFailed? || PaymentBodyFor(params).None?
    ensures !shown
  {
    var view := new PaymentSuccessView();
    var _ := view.SavePayment(params, response);
    shown := view.ShowsTrackingId();
  }
}
