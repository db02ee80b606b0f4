/**
  The HR's add-asset form: five required fields, an image upload, and the asset record
  posted to the backend. The form is cleared only when the backend answers with an
  inserted id; every other outcome leaves what the HR typed in place.
*/
module AddAssets {
  import opened Common
  import opened Records

  /** A file chosen in the image input; only its presence matters here. */
  datatype ImageFile = ImageFile(name: string)

  /** What the form holds when it is submitted. */
  datatype AssetForm = AssetForm(
    productName: string,
    productImage: seq<ImageFile>,
    productType: string,
    productDetails: string,
    productQuantity: string)

  /** The form after `reset()`: every field empty, the select back on its disabled placeholder. */
  const EmptyForm: AssetForm := AssetForm("", [], "", "", "")

  /** The values the product-type select offers besides its empty placeholder. */
  const TypeOptions: seq<string> := ["returnable", "non-returnable"]

  /** A value the select can hold: its placeholder or one of its options. */
  predicate SelectValue(v: string)
  {
    v == "" || v in TypeOptions
  }

  /** The fields whose `required` rule fails: an empty text or select, or no chosen file. */
  function MissingFields(f: AssetForm): (missing: set<string>)
    ensures missing <= {"productName", "productImage", "productReturnable", "productDetails", "productQuantity"}
    ensures "productName" in missing <==> f.productName == ""
    ensures "productImage" in missing <==> f.productImage == []
    ensures "productReturnable" in missing <==> f.productType == ""
    ensures "productDetails" in missing <==> f.productDetails == ""
    ensures "productQuantity" in missing <==> f.productQuantity == ""
  {
    (if f.productName == "" then {"productName"} else {})
    + (if f.productImage == [] then {"productImage"} else {})
    + (if f.productType == "" then {"productReturnable"} else {})
    + (if f.productDetails == "" then {"productDetails"} else {})
    + (if f.productQuantity == "" then {"productQuantity"} else {})
  }

  /** The record posted to `/assets`. */
  datatype AssetRecord = AssetRecord(
    productName: string,
    productImage: string,
    productType: string,
    productQuantity: JsNumber,
    availableQuantity: JsNumber,
    hrEmail: Option<string>,
    companyName: Option<string>,
    productDetails: string,
    createdAt: int)

  /**
    `assetData`: the uploaded image's URL in place of the file, the select's value as the
    type, the same `Number(productQuantity)` as both the total and the available quantity,
    and the HR's email and company from the profile; `now` is the clock reading.
  */
  function AssetData(f: AssetForm, imageUrl: string, user: UserInfo, now: int): (r: AssetRecord)
    ensures r.availableQuantity == r.productQuantity == NumberOf(f.productQuantity)
    ensures r.productName == f.productName && r.productType == f.productType && r.productDetails == f.productDetails
    ensures r.productImage == imageUrl && r.createdAt == now
    ensures r.hrEmail == user.email && r.companyName == user.companyName
  {
    var quantity := NumberOf(f.productQuantity);
    AssetRecord(f.productName, imageUrl, f.productType, quantity, quantity,
                user.email, user.companyName, f.productDetails, now)
  }

  /** A posted record's type is one of the select's two options. */
  lemma PostedTypeIsAnOption(f: AssetForm, imageUrl: string, user: UserInfo, now: int)
    requires SelectValue(f.productType) && MissingFields(f) == {}
    ensures AssetData(f, imageUrl, user, now).productType in TypeOptions
  {
    assert "productReturnable" !in MissingFields(f);
  }

  /** How a submission ended, as the page reports it. */
  datatype AddOutcome =
    | Invalid(missing: set<string>)   // field errors shown, the handler is not called
    | Failed                          // upload, profile or post threw: an error toast
    | NotInserted                     // the backend answered without an inserted id: no feedback
    | Added                           // success toast and reset

  class AddAssetPage {
    var form: AssetForm

    /** The type field holds what the select can hold: its placeholder or one of its options. */
    predicate Valid()
      reads this
    {
      SelectValue(form.productType)
    }

    constructor ()
      ensures form == EmptyForm && Valid()
    {
      form := EmptyForm;
    }

    /** The HR edits the form; the type can only be chosen among the select's values. */
    method Edit(f: AssetForm)
      requires SelectValue(f.productType)
      modifies this
      ensures form == f && Valid()
    {
      form := f;
    }

    /**
      Submitting the form. With a field missing nothing is uploaded or posted. Otherwise the
      first chosen image is uploaded (`upload`), the record is built from the profile
      (`user`; `None` is a `null` profile, on which the handler throws, while a profile that
      has not loaded is the empty record `{}`) and posted (`inserted` is the
      response's `insertedId`, or the failure). The form is reset exactly when the post
      answered with an inserted id.
    */
    method HandleAddAsset(upload: Fetch<string>, user: Option<UserInfo>, now: int, inserted: Fetch<Option<string>>)
      returns (posted: Option<AssetRecord>, outcome: AddOutcome)
      requires Valid()
      modifies this
      ensures Valid()
      ensures posted.Some? ==> posted.value.productType in TypeOptions
      ensures MissingFields(old(form)) != {} ==> posted == None && outcome == Invalid(MissingFields(old(form)))
      ensures MissingFields(old(form)) == {} ==>
                posted == (if upload.Fetched? && user.Some? then Some(AssetData(old(form), upload.data, user.value, now)) else None)
      ensures MissingFields(old(form)) == {} && posted.None? ==> outcome == Failed
      ensures posted.Some? ==> outcome == (if inserted.FetchFailed? then Failed
                                          else if Truthy(inserted.data) then Added
                                          else NotInserted)
      ensures form == if outcome == Added then EmptyForm else old(form)
    {
      var missing := MissingFields(form);
      if missing != {} {
        return None, Invalid(missing);
      }
      if upload.FetchFailed? || user.None? {
        return None, Failed;
      }
      var record := AssetData(form, upload.data, user.value, now);
      PostedTypeIsAnOption(form, upload.data, user.value, now);
      posted := Some(record);
      if inserted.FetchFailed? {
        outcome := Failed;
      } else if Truthy(inserted.data) {
        outcome := Added;
        form := EmptyForm;
      } else {
        outcome := NotInserted;
      }
    }
  }

  /**
    A profile that has not loaded, or whose fetch failed, is the empty record `{}`, not `null`:
    the asset is still posted, with neither an HR email nor a company.
  */
  method UnloadedProfilePostsOwnerless(f: AssetForm, imageUrl: string, now: int, inserted: Fetch<Option<string>>)
    returns (posted: Option<AssetRecord>)
    requires MissingFields(f) == {} && SelectValue(f.productType)
    ensures posted.Some? && posted.value.hrEmail == None && posted.value.companyName == None
  {
    var page := new AddAssetPage();
    page.Edit(f);
    var outcome;
    posted, outcome := page.HandleAddAsset(Fetched(imageUrl), Some(UserInfo(None, None, None)), now, inserted);
  }
}
