/**
  The package cards: which card is the HR's active package (Basic when the HR has none),
  which action each card offers, its price label and badge colour, and the checkout
  request for an upgrade.
*/
module Packages {
  import opened Common
  import opened Text

  /** A package as the backend lists it. */
  datatype PackageCard = PackageCard(name: string, price: int, employeeLimit: int)

  predicate IsBasic(card: PackageCard)
  {
    card.name == "Basic"
  }

  /**
    `userInfo?.package?.name === pkg.name || (isBasic && !userInfo?.package?.name)`:
    the card named like the HR's package, or Basic when the HR's package has no name.
  */
  predicate IsActive(userPackageName: Option<string>, card: PackageCard)
  {
    userPackageName == Some(card.name) || (IsBasic(card) && !Truthy(userPackageName))
  }

  /** Two cards with different non-empty names are never both active. */
  lemma AtMostOneActive(userPackageName: Option<string>, a: PackageCard, b: PackageCard)
    requires a.name != b.name && a.name != "" && b.name != ""
    ensures !(IsActive(userPackageName, a) && IsActive(userPackageName, b))
  {
  }

  /**
    Without a package name exactly the Basic card is active; with one, exactly the cards
    carrying that name are, so a name no card carries leaves every card inactive.
  */
  lemma ActiveCardIsTheUsersPackage(userPackageName: Option<string>, card: PackageCard)
    ensures !Truthy(userPackageName) ==> (IsActive(userPackageName, card) <==> IsBasic(card) || userPackageName == Some(card.name))
    ensures Truthy(userPackageName) ==> (IsActive(userPackageName, card) <==> card.name == userPackageName.value)
  {
  }

  datatype CardButton = UpgradeNow | SwitchToFree

  /** The card's action: none on the active card, "Switch to Free" on Basic, "Upgrade Now" on the others. */
  function ButtonFor(userPackageName: Option<string>, card: PackageCard): (b: Option<CardButton>)
    ensures b.None? <==> IsActive(userPackageName, card)
    ensures b == Some(UpgradeNow) <==> !IsActive(userPackageName, card) && !IsBasic(card)
    ensures b == Some(SwitchToFree) <==> !IsActive(userPackageName, card) && IsBasic(card)
  {
    if IsActive(userPackageName, card) then None
    else if IsBasic(card) then Some(SwitchToFree)
    else Some(UpgradeNow)
  }

  /** `isBasic ? "Free" : `$${pkg.price}/Month``. */
  function PriceLabel(card: PackageCard): (shown: string)
    ensures IsBasic(card) ==> shown == "Free"
    ensures !IsBasic(card) ==> |shown| > 7 && shown[0] == '$' && shown[|shown| - 6..] == "/Month"
  {
    if IsBasic(card) then "Free" else "$" + IntToString(card.price) + "/Month"
  }

  /** The price can be read back from a paid card's label: what follows `$` parses to the price. */
  lemma {:induction false} PriceLabelReadBack(card: PackageCard)
    requires !IsBasic(card)
    ensures ParseInt(PriceLabel(card)[1..]) == Int(card.price)
  {
    var shown := PriceLabel(card);
    assert shown[1..] == IntToString(card.price) + "/Month";
    ParseIntOfIntThen(card.price, "/Month");
  }

  datatype BadgeColor = Gray | Yellow | Purple

  /** Basic is gray, Standard yellow, every other package purple. */
  function BadgeColorFor(card: PackageCard): (c: BadgeColor)
    ensures c == Gray <==> card.name == "Basic"
    ensures c == Yellow <==> card.name == "Standard"
    ensures c == Purple <==> card.name != "Basic" && card.name != "Standard"
  {
    if card.name == "Basic" then Gray else if card.name == "Standard" then Yellow else Purple
  }

  /** The body posted to start a checkout. */
  datatype CheckoutRequest = CheckoutRequest(packageName: string, price: int, employeeLimit: int)

  /** The checkout request carries the chosen card's name, price and employee limit, and nothing else. */
  function CheckoutBody(card: PackageCard): (r: CheckoutRequest)
    ensures r.packageName == card.name && r.price == card.price && r.employeeLimit == card.employeeLimit
  {
    CheckoutRequest(card.name, card.price, card.employeeLimit)
  }

  datatype UpgradeEffect = GoToCheckout(url: string) | UpgradeFailedToast

  /** `handleUpgrade`: the browser goes to the session's URL, or a toast reports that the checkout could not start. */
  function AfterCheckout(session: Fetch<string>): (e: UpgradeEffect)
    ensures e.GoToCheckout? <==> session.Fetched?
    ensures e.GoToCheckout? ==> e.url == session.data
  {
    match session
    case Fetched(url) => GoToCheckout(url)
    case FetchFailed => UpgradeFailedToast
  }
}
