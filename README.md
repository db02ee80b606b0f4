# AssetVerse client: a Dafny model of its decision rules

AssetVerse is a corporate asset-management web client written in React. HR managers
register a company, add assets, approve or reject employees' asset requests, and buy
larger packages. Employees request assets and see their team. The client talks to a REST
backend that owns all stored state. What the client itself decides is modelled here:

- the validation rules of the registration and sign-in forms;
- the route guards and the role-dependent dashboard sidebar;
- the query state of the asset directory (search, type, page) and the Prev/Next paging;
- the HR asset list: its page counter, its query text (the email is not encoded), the Assign rule and confirm-before-delete;
- the employee's request page: its stock filter and request state;
- the record built by the add-asset form, and when that form is cleared;
- the approval pre-check against the package's employee limit, and the classification of update errors;
- the package cards, the payment history's "active" mark, and the payment-success guard;
- the team page's company list and filters;
- the FAQ accordion.

Every network call is an input to the model: a `Fetch<T>` (data or failure), a flag
saying whether a mutation succeeded, or the answer of a confirmation dialog. Where the
page keeps state in React state cells, the model is a class whose fields are those cells.
Its methods are the event handlers, with `modifies` clauses and postconditions that state
the whole new state. Expressions the pages compute from that state are functions.

Shared modules:

- `Common`: `Option`, `Fetch`, JavaScript truthiness of an optional string, `Filter` (`Array.prototype.filter`), and a subsequence relation.
- `Text`: the white-space class shared by `\s` and `trim()`, `trim()` itself, `parseInt(s, 10)` over `Int | NaN`, and integer-to-text conversion, with their round trip.
- `Records`: the asset, profile and request records.
- `Paging`: the Prev/Next rule that the directory and the HR list share.

## Model

| member | source | states |
|---|---|---|
| Register.FormFor | src/pages/auth/Register.jsx:59-66 | the HR form is shown exactly for role "hr", the employee form exactly for "employee", neither otherwise (including "") |
| Register.CheckName | src/pages/auth/Register.jsx:86-98 | a company name is valid iff it has at least 3 characters, all ASCII letters or white space, and is not all white space; an all-white-space value of length ≥ 3 fails exactly on the trim rule |
| Register.CheckEmail | src/pages/auth/Register.jsx:142-148 | an address is valid iff it matches `local@domain.tld` with a TLD of at least two letters; the required error occurs exactly for "" |
| Register.EmailHasOneAt | src/pages/auth/Register.jsx:142-148 | every address the pattern accepts contains exactly one `@` |
| Register.CheckPassword | src/pages/auth/Register.jsx:165-181 | a password is valid iff its length is ≥ 6 and it has an upper-case letter, a lower-case letter and a special character; the required error occurs exactly for "" |
| Register.HrErrors | src/pages/auth/Register.jsx:71-181 | the HR form has an error on a field exactly when that field's rule fails; the name fields use the company-name rule |
| Register.SubmitHr | src/pages/auth/Register.jsx:71 | the HR handler receives the data iff company name, name, email and password all pass |
| Register.EmployeeErrors | src/pages/auth/Register.jsx:222-314 | the employee form has an error on a field exactly when that field's rule fails; the name uses the company-name rule |
| Register.SubmitEmployee | src/pages/auth/Register.jsx:222 | the employee handler receives name, email and password iff all three pass |
| Register.PhotoCarriesNoRule | src/pages/auth/Register.jsx:264-268 | changing the profile image changes neither the errors nor the submitted data |
| Login.LoginErrors | src/pages/auth/Login.jsx:60-94 | the sign-in form has an email error iff the address fails the pattern, and a password error iff the password rule fails |
| Login.SubmitLogin | src/pages/auth/Login.jsx:23-34 | sign-in is attempted iff the email matches and the password meets all four password rules |
| Login.RedirectTarget | src/pages/auth/Login.jsx:15 | the target is the location state when it is a non-empty string, "/" otherwise |
| Login.AfterSignIn | src/pages/auth/Login.jsx:23-34 | the page navigates (replacing history) to the target iff sign-in succeeded; a failure only shows its message |
| Login.GuardRedirectLandsHome | src/Routes/PrivateRoute.jsx:14 | a visitor turned away by the guard and then signed in lands on "/", since the redirect carries no state |
| PrivateRoute.Decide | src/Routes/PrivateRoute.jsx:9-16 | loading gives the loading page whatever the user; otherwise a user gets the children and no user a redirect to "/register" without state |
| EmployRoute.Decide | src/Routes/EmployRoute.jsx:13-20 | loading or role loading gives the loading page; otherwise role "employee" gets the children and every other role the forbidden page; there is no other outcome |
| DashboardLayout.Layout | src/Layouts/DashboardLayout.jsx:15-180 | only the loading page while the role loads; then exactly Homepage, Add Assets, My Assets, My Employ List, Settings for "hr", Homepage, All Assets, Settings for "employee", and Homepage, Settings for any other role; no link appears twice |
| DashboardLayout.RoleLinksDisjoint | src/Layouts/DashboardLayout.jsx:92-150 | no link belongs to both roles and the role links lead to distinct pages |
| Text.Trim | src/pages/dashboard/AllAssets.jsx:52 | the result is a slice of the input with only white space before and after it; it is empty iff the input is all white space, otherwise it neither starts nor ends with white space |
| Text.ParseIntOfToString | src/pages/dashboard/AllAssets.jsx:14 | `parseInt` reads back the decimal text of any integer written into the URL, and of `NaN` (integers are unbounded here, see Left out) |
| AllAssets.PageOf | src/pages/dashboard/AllAssets.jsx:14 | a missing or empty `page` parameter reads as page 1 |
| AllAssets.QueryParams | src/pages/dashboard/AllAssets.jsx:53-56 | the written parameters are within `search`, `type`, `page`; `page` is always present, `search` and `type` iff non-empty |
| AllAssets.QueryParamsReadBack | src/pages/dashboard/AllAssets.jsx:14-15 | reading the written URL back gives the same search, type and page |
| AllAssets.DirectoryView.constructor | src/pages/dashboard/AllAssets.jsx:96 | the search box starts with the URL's search value; nothing is selected |
| AllAssets.DirectoryView.Type | src/pages/dashboard/AllAssets.jsx:96 | typing changes only the box, not the URL |
| AllAssets.DirectoryView.HandleSearch | src/pages/dashboard/AllAssets.jsx:51-58 | the URL becomes the trimmed box text, the current type and page 1 |
| AllAssets.DirectoryView.HandleTypeChange | src/pages/dashboard/AllAssets.jsx:60-67 | the URL becomes the trimmed box text, the chosen type and page 1 |
| AllAssets.DirectoryView.HandlePageChange | src/pages/dashboard/AllAssets.jsx:69-76 | the URL becomes the trimmed box text (not the last submitted search), the current type and the new page |
| AllAssets.DirectoryView.ClickPrev | src/pages/dashboard/AllAssets.jsx:196-197 | an enabled Prev moves the URL page to `max(page - 1, 1)` |
| AllAssets.DirectoryView.ClickNext | src/pages/dashboard/AllAssets.jsx:204-205 | an enabled Next moves the URL page to `min(page + 1, totalPages)` |
| AllAssets.DirectoryView.Select | src/pages/dashboard/AllAssets.jsx:144 | a details button selects its asset |
| AllAssets.DirectoryView.Close | src/pages/dashboard/AllAssets.jsx:283 | Close clears the selection |
| AllAssets.DirectoryView.Request | src/pages/dashboard/AllAssets.jsx:267-275 | a request exists iff an asset is selected, and carries its id, name, type, HR email and company with the user's display name and email |
| AllAssets.DirectoryView.OnRequestSettled | src/pages/dashboard/AllAssets.jsx:43-47 | success clears the selection, failure leaves it |
| AllAssets.ClearedSearchKeepsType | src/pages/dashboard/AllAssets.jsx:51-58 | searching with a blank box drops `search`, keeps the type and returns to page 1 |
| AllAssets.PageChangeTakesUnsubmittedText | src/pages/dashboard/AllAssets.jsx:69-76 | on a page change, whatever the box holds (typed but never submitted) becomes the search, with the type and the new page kept |
| AllAssets.TargetsStayInRange | src/pages/dashboard/AllAssets.jsx:196-205 | from a page in `[1, total]` both targets stay in `[1, total]` |
| AllAssets.NonNumericPageStaysNaN | src/pages/dashboard/AllAssets.jsx:14 | a page parameter starting with a letter (`?page=abc`) gives `NaN`; both buttons are enabled and both keep `NaN` |
| Paging.TotalPages | src/pages/dashboard/MyAssets.jsx:52 | a missing or zero page count counts as one page |
| Paging.StepStaysInRange | src/pages/dashboard/MyAssets.jsx:201-213 | from a page in `[1, total]` both targets stay in range, move by exactly one when they move, and a button is disabled iff it would not move |
| Paging.WalkStaysInRange | src/pages/dashboard/MyAssets.jsx:201-213 | any sequence of Prev/Next clicks from a page in `[1, total]` stays in `[1, total]` |
| Paging.NextRecoversStalePage | src/pages/dashboard/MyAssets.jsx:212-213 | a page beyond the last one is brought back to the last page by one enabled Next |
| MyAssets.AssetTable.constructor | src/pages/dashboard/MyAssets.jsx:15 | the list opens on page 1 with no delete in flight |
| MyAssets.QueryUrl | src/pages/dashboard/MyAssets.jsx:26-27 | the list query starts with `/assets?hrEmail=`, followed by the email exactly as given and then `&` |
| MyAssets.AssetTable.CurrentQuery | src/pages/dashboard/MyAssets.jsx:16-27 | the query for the current page is the interpolated text with a page size of 10; an email with no `+`, `%` or `&` reaches the backend unchanged |
| MyAssets.ReceivedIsDecodedEmail | src/pages/dashboard/MyAssets.jsx:26-27 | the backend reads the `hrEmail` value as the form decoding of the email, because the email is not encoded |
| MyAssets.PlainEmailReadBack | src/pages/dashboard/MyAssets.jsx:26-27 | an email with no `+`, `%` or `&` is read back by the backend unchanged |
| MyAssets.PlusEmailAltered | src/pages/dashboard/MyAssets.jsx:26-27 | an email with a `+` before the `@`, which the registration pattern (src/pages/auth/Register.jsx:145) accepts, reaches the backend with a space instead, so it is not the HR's own email |
| MyAssets.AssetTable.ClickPrev | src/pages/dashboard/MyAssets.jsx:201-202 | Prev sets the page to `max(page - 1, 1)` unless disabled on page 1, never leaving `[1, page]` |
| MyAssets.AssetTable.ClickNext | src/pages/dashboard/MyAssets.jsx:212-213 | Next sets the page to `min(page + 1, totalPages)` unless disabled on the last page, staying in `[1, totalPages]` |
| MyAssets.AssignableIffRequestable | src/pages/dashboard/MyAssets.jsx:123 | a row's Assign button is enabled (`availableQuantity < 1` fails, as at lines 123 and 177) exactly when the employee's request page lists that asset |
| MyAssets.AssetTable.HandleDelete | src/pages/dashboard/MyAssets.jsx:65-79 | the delete for the id is issued iff the dialog is confirmed and no delete is pending; issuing one disables every delete button |
| MyAssets.AssetTable.OnDeleteSettled | src/pages/dashboard/MyAssets.jsx:39-45 | a settled delete re-enables the buttons and reports success or failure |
| MyAssets.SecondDeleteWaits | src/pages/dashboard/MyAssets.jsx:135 | while a delete is in flight every delete button is disabled (`DeleteDisabled`, lines 135 and 189) and a confirmed click issues nothing; after it settles a confirmed click issues the delete |
| EmployeeRequestAssets.AvailableAssets | src/pages/dashboard/EmployeeRequestAssets.jsx:25-26 | the shown assets are exactly the fetched ones with `availableQuantity > 0`; none when the response has no list; each such asset appears as many times as it was fetched |
| EmployeeRequestAssets.AvailableKeepsOrder | src/pages/dashboard/EmployeeRequestAssets.jsx:25-26 | the shown assets keep the fetched order |
| EmployeeRequestAssets.EmptyMessageIffNothingInStock | src/pages/dashboard/EmployeeRequestAssets.jsx:62-63 | "No assets available" is shown iff no fetched asset has stock |
| EmployeeRequestAssets.RequestPanel.constructor | src/pages/dashboard/EmployeeRequestAssets.jsx:13-14 | nothing selected, an empty note |
| EmployeeRequestAssets.RequestPanel.Choose | src/pages/dashboard/EmployeeRequestAssets.jsx:102-107 | a card's Request button selects its asset and opens the dialog, keeping the note |
| EmployeeRequestAssets.RequestPanel.EditNote | src/pages/dashboard/EmployeeRequestAssets.jsx:129 | typing changes only the note |
| EmployeeRequestAssets.RequestPanel.Cancel | src/pages/dashboard/EmployeeRequestAssets.jsx:135-137 | Cancel closes the dialog and clears neither selection nor note |
| EmployeeRequestAssets.RequestPanel.HandleRequest | src/pages/dashboard/EmployeeRequestAssets.jsx:28-50 | nothing is posted without a selection; the body copies the asset's fields, the profile's name and email and the note; success clears selection and note, failure changes nothing |
| EmployeeRequestAssets.CancelledNoteCarriesOver | src/pages/dashboard/EmployeeRequestAssets.jsx:135-137 | a note typed for one asset and cancelled is sent with the next request |
| Records.RequestBodyFor | src/pages/dashboard/EmployeeRequestAssets.jsx:32-41 | the request copies the asset's id, name, type, HR email and company, and the requester's name, email and note |
| AddAssets.MissingFields | src/pages/dashboard/AddAssets/AddAssets.jsx:78-149 | each of name, image, type, details and quantity is reported missing exactly when it is empty |
| AddAssets.AssetData | src/pages/dashboard/AddAssets/AddAssets.jsx:36-47 | the record's available quantity equals its product quantity, both `Number(productQuantity)`; HR email and company come from the profile |
| AddAssets.PostedTypeIsAnOption | src/pages/dashboard/AddAssets/AddAssets.jsx:106-117 | a submitted record's type is "returnable" or "non-returnable" |
| AddAssets.AddAssetPage.constructor | src/pages/dashboard/AddAssets/AddAssets.jsx:20-25 | the form starts empty, with the type on the select's placeholder |
| AddAssets.AddAssetPage.Edit | src/pages/dashboard/AddAssets/AddAssets.jsx:76-153 | editing replaces the form's content; the type stays one of the select's values |
| AddAssets.AddAssetPage.HandleAddAsset | src/pages/dashboard/AddAssets/AddAssets.jsx:27-62 | a missing field posts nothing; a failed upload or a `null` profile posts nothing; otherwise the record built from the form and the profile is posted; the form is reset iff the post answers with an inserted id, and is otherwise kept; a posted record's type is "returnable" or "non-returnable" |
| AddAssets.UnloadedProfilePostsOwnerless | src/pages/dashboard/AddAssets/AddAssets.jsx:42-43 | a profile that has not loaded is the hook's default `{}` (src/hooks/useUserInfo.jsx:11), so a complete form is still posted, with no HR email and no company |
| AllRequests.BadgeFor | src/pages/dashboard/AllRequests.jsx:112-118 | pending is a warning, approved a success, anything else an error |
| AllRequests.Controls | src/pages/dashboard/AllRequests.jsx:124-147 | Approve and Reject are offered iff the request is pending; details always |
| AllRequests.RejectMutation | src/pages/dashboard/AllRequests.jsx:134-136 | rejection issues `rejected` for the request's id with no check |
| AllRequests.HandleApprove | src/pages/dashboard/AllRequests.jsx:50-82 | the check fails iff a fetch fails or there is no package; approval is issued iff the limit is not reached: with a numeric limit iff the count is below it, always with a missing limit, never with a `null` one; a blocked approval navigates to the packages page iff the upgrade is confirmed |
| AllRequests.NoticeFor | src/pages/dashboard/AllRequests.jsx:31-46 | a 403 opens the limit dialog, any other failure the generic toast |
| AllRequests.RequestsView.constructor | src/pages/dashboard/AllRequests.jsx:14 | no request is shown at first |
| AllRequests.RequestsView.ShowDetails | src/pages/dashboard/AllRequests.jsx:144 | the details button shows its request |
| AllRequests.RequestsView.Close | src/pages/dashboard/AllRequests.jsx:180 | Close hides the details |
| AllRequests.RequestsView.OnUpdateSettled | src/pages/dashboard/AllRequests.jsx:31-46 | success clears the shown request, failure keeps it; the notice is classified |
| Packages.AtMostOneActive | src/pages/dashboard/Packages.jsx:53-56 | two cards with distinct non-empty names are never both active |
| Packages.ActiveCardIsTheUsersPackage | src/pages/dashboard/Packages.jsx:53-56 | with a package name the active cards are those carrying it; without one, Basic (and a card named like the empty name) |
| Packages.ButtonFor | src/pages/dashboard/Packages.jsx:98-114 | the active card has no button; an inactive Basic card shows "Switch to Free", any other inactive card "Upgrade Now" |
| Packages.PriceLabel | src/pages/dashboard/Packages.jsx:87 | Basic shows "Free"; every other card a `$` … `/Month` label |
| Packages.PriceLabelReadBack | src/pages/dashboard/Packages.jsx:87 | the text after `$` in a paid card's label parses back to its price |
| Packages.BadgeColorFor | src/pages/dashboard/Packages.jsx:58-63 | gray for Basic, yellow for Standard, purple for every other name |
| Packages.CheckoutBody | src/pages/dashboard/Packages.jsx:22-26 | the checkout carries the card's name, price and employee limit |
| Packages.AfterCheckout | src/pages/dashboard/Packages.jsx:20-32 | the browser goes to the session URL iff the session was created |
| PaymentHistory.ActiveRows | src/pages/dashboard/PaymentHistory.jsx:32-36 | a row is active iff it is listed and `isActivePackage` holds for it; each such payment is marked as many times as it is listed |
| PaymentHistory.ShowsEmptyMessage | src/pages/dashboard/PaymentHistory.jsx:27-29 | "No payment history yet." is shown exactly when there is no payment to list |
| PaymentHistory.EmptyMessageExcludesActiveMark | src/pages/dashboard/PaymentHistory.jsx:27-46 | with the empty message shown no row is marked active, and a page with an active row does not show the message |
| PaymentHistory.ActiveRowsMatchThePackage | src/pages/dashboard/PaymentHistory.jsx:33-36 | every active row names the user's package and is dated no earlier than its activation; without a package or an activation date no row is active |
| PaymentHistory.TwoRowsCanBeActive | src/pages/dashboard/PaymentHistory.jsx:32-36 | two payments for the current package after its activation are both active |
| PaymentSuccess.PaymentBodyFor | src/pages/dashboard/PaymentSuccess.jsx:12-27 | a body exists iff pkg, limit, price and trackingId are all non-empty; it maps pkg, `Number(limit)`, `Number(price)` and trackingId |
| PaymentSuccess.PaymentSuccessView.constructor | src/pages/dashboard/PaymentSuccess.jsx:10 | the tracking id starts unset |
| PaymentSuccess.PaymentSuccessView.SavePayment | src/pages/dashboard/PaymentSuccess.jsx:17-41 | the post is the guarded body; the tracking id is set from an answer to a post, and nothing else changes it |
| PaymentSuccess.NothingShownWithoutAnswer | src/pages/dashboard/PaymentSuccess.jsx:33-53 | after a failed save, or with a parameter missing, no tracking id is shown |
| EmployeeMyTeam.Companies | src/pages/dashboard/EmployeeMyTeam.jsx:24-26 | each non-empty company name of the team appears exactly once, and in the order of its first member |
| EmployeeMyTeam.FilteredTeam | src/pages/dashboard/EmployeeMyTeam.jsx:36-39 | the shown members are exactly those whose company equals the selection, each as many times as in the team |
| EmployeeMyTeam.Birthdays | src/pages/dashboard/EmployeeMyTeam.jsx:42-50 | the birthday list is exactly the shown members born in the current month, each as many times as it is shown |
| EmployeeMyTeam.BirthdaysWithinTeam | src/pages/dashboard/EmployeeMyTeam.jsx:36-50 | the birthday list is a subsequence of the shown members and of the team |
| EmployeeMyTeam.TeamView.constructor | src/pages/dashboard/EmployeeMyTeam.jsx:11 | the selection starts empty |
| EmployeeMyTeam.TeamView.OnCompaniesChanged | src/pages/dashboard/EmployeeMyTeam.jsx:29-33 | with companies, an empty selection becomes the first company and a non-empty one is kept |
| EmployeeMyTeam.TeamView.Select | src/pages/dashboard/EmployeeMyTeam.jsx:66 | the selector sets the selection |
| EmployeeMyTeam.FirstCompanyHasMembers | src/pages/dashboard/EmployeeMyTeam.jsx:29-39 | the first company always has members to show |
| EmployeeMyTeam.FirstLoadSelects | src/pages/dashboard/EmployeeMyTeam.jsx:24-39 | on first load with any company the selection is the first company and has members; with a single company (no selector) that company is the selection |
| EmployeeMyTeam.SelectorIffTwoCompanies | src/pages/dashboard/EmployeeMyTeam.jsx:62 | the company selector is shown exactly when two members carry different non-empty company names |
| Faq.Toggled | src/pages/FAQ/FAQ.jsx:41-43 | toggling closes everything iff the item was the open one, and otherwise opens exactly that item |
| Faq.ToggleTwiceRestores | src/pages/FAQ/FAQ.jsx:42 | from nothing open or the same item open, two toggles restore the state |
| Faq.ToggleTwiceClosesOther | src/pages/FAQ/FAQ.jsx:42 | from another item open, two toggles leave nothing open |
| Faq.Sign | src/pages/FAQ/FAQ.jsx:78-81 | the sign is "-" iff the answer is shown, "+" otherwise |
| Faq.Accordion.constructor | src/pages/FAQ/FAQ.jsx:39 | no item is open at first |
| Faq.Accordion.Toggle | src/pages/FAQ/FAQ.jsx:41-43 | a click toggles the item and the open index stays a listed item |

## Left out

- Network calls, the query cache and its invalidation, toasts, modals, animation and styling are not modelled. Each request is a `Fetch<T>` input, a success flag, or a dialog answer.
- The route guard sends a signed-out visitor to `/register` and records no return location (src/Routes/PrivateRoute.jsx:14). The model follows the code. So after signing in, such a visitor lands on "/" (`Login.GuardRedirectLandsHome`).
- The axios interceptor in src/hooks/useAxiosSecure.jsx is not part of this model. It signs the user out on any 403, which includes the limit-exceeded 403 that `AllRequests.NoticeFor` classifies.
- MyEmployList, Profile, the router table, the providers and the marketing pages are not part of this model.
- The Assign and Update handlers of the HR list are not modelled. They only show a toast or log the asset (src/pages/dashboard/MyAssets.jsx:54-61).
- `Number()` is not modelled. A field holding `Number(text)` is `NumberOf(text)`, so equal texts give equal numbers, but no numeric value is computed.
- Dates are instants or month numbers. Locale formatting, time zones and invalid dates are not modelled. An invalid date of birth counts as none.
- Lengths count code points, not UTF-16 units. `IsAsciiLetter` and the special-character set apply to single characters as the patterns do.
- Browser-only input attributes (`min`, `maxLength`, and `type="email"` at src/pages/auth/Register.jsx:149 and 282 and src/pages/auth/Login.jsx:58) are not modelled as validation. The browser's own e-mail check also refuses some addresses the script's pattern accepts (for example `a@b..com`). So the "iff" of `Register.SubmitHr`, `Register.SubmitEmployee` and `Login.SubmitLogin` is about the script's own rules; the browser may block a submission they allow.
- `AddAssets.AddAssetPage.HandleAddAsset`: a profile that has not loaded, or whose fetch failed, is the hook's default `{}`; it is passed as a profile with no fields, and the asset is posted without owner (`AddAssets.UnloadedProfilePostsOwnerless`). Only a `null` profile answer makes the handler throw after the upload; that is the `None` profile, modelled as the `Failed` outcome with nothing posted.
- `AddAssets.AddAssetPage.Edit` requires the type to be the placeholder or one of the two options, because the `<select>` (src/pages/dashboard/AddAssets/AddAssets.jsx:106-117) offers nothing else. A value set outside the select is not modelled.
- `MyAssets.FormDecode` reads a `%XX` escape as the character with that code. Multi-byte UTF-8 sequences are not decoded, and `#` and the rest of URL parsing are not modelled. The backend's own handling of the query is assumed to be standard form decoding.
- In `AllRequests.HandleApprove`, a missing employee list is folded into a failed count fetch.
- `AllRequests.LimitReached`: a missing limit never blocks approval, and a `null` limit always blocks it. These are the JavaScript comparisons with `undefined` and `null`.
- `AllAssets.DirectoryView.Request` takes the signed-in user as given. This assumes the page is mounted behind the route guard; the router table in src/Routes/Routes.jsx:13-22 lists no dashboard routes, so where the page is mounted is not part of this model.
- The Stripe checkout page and the downgrade-to-free call are outside the client and are not modelled. Only the checkout request body and the redirect decision are.
- `Faq.ToggleTwiceRestores` requires the starting state to have no item open, or the toggled item open. From any other open item the property does not hold, as `Faq.ToggleTwiceClosesOther` shows.
- JavaScript numbers are double-precision floats, but page numbers and prices are modelled as unbounded integers. Three behaviours are not captured. From 10^21 up, `String()` uses exponent notation: a page of 10^24 is written `1e+24`, and `parseInt` reads that back as 1. Above 2^53, `page + 1` rounds to `page`. A fractional price renders as `$4.99/Month`, and `parseInt` reads the text after `$` as 4.
- `Text.ParseIntOfToString`: the round trip is proved for integer values only, with no exponent notation and no rounding.
- `AllAssets.QueryParamsReadBack`: the page's round trip is proved for integer pages only, with no exponent notation and no rounding.
- `Packages.PriceLabel`: the price is an integer, so a fractional price's label is not produced.
- `Packages.PriceLabelReadBack`: the read-back holds for integer prices only; a fractional price would read back truncated.
