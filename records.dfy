/** Backend records that several pages read or build. */
module Records {
  import opened Common

  /** An asset as the backend lists it (the fields the pages read). */
  datatype Asset = Asset(
    id: string,
    productName: string,
    productType: string,
    productQuantity: int,
    availableQuantity: int,
    hrEmail: string,
    companyName: string)

  /** The signed-in user's profile record; any field may be missing. */
  datatype UserInfo = UserInfo(name: Option<string>, email: Option<string>, companyName: Option<string>)

  /**
    A value the page passes through `Number()` before sending it. The conversion
    itself is not modelled: the record keeps the text it was applied to.
  */
  datatype JsNumber = NumberOf(text: string)

  /** The body posted to `/requests`; `note` is `None` when the page sends no note. */
  datatype RequestBody = RequestBody(
    assetId: string,
    assetName: string,
    assetType: string,
    requesterName: Option<string>,
    requesterEmail: Option<string>,
    hrEmail: string,
    companyName: string,
    note: Option<string>)

  /**
    The request for `asset` on behalf of the requester: the asset's identity and
    owner come from the asset, the requester's identity from the user.
  */
  function RequestBodyFor(asset: Asset, requesterName: Option<string>, requesterEmail: Option<string>, note: Option<string>): (b: RequestBody)
    ensures b.assetId == asset.id && b.assetName == asset.productName && b.assetType == asset.productType
    ensures b.hrEmail == asset.hrEmail && b.companyName == asset.companyName
    ensures b.requesterName == requesterName && b.requesterEmail == requesterEmail && b.note == note
  {
    RequestBody(asset.id, asset.productName, asset.productType, requesterName, requesterEmail,
                asset.hrEmail, asset.companyName, note)
  }
}
