/**
  The employee's asset directory. Its query state lives in the URL (`page`, `search`, `type`);
  the search text box is an uncontrolled input whose content is read only when a handler runs;
  and a details dialog holds the selected asset, from which a request can be posted.
*/
module AllAssets {
  import opened Common
  import opened Text
  import opened Records
  import Paging

  /** The URL's query parameters. */
  type Params = map<string, string>

  /** `searchParams.get(key) || ""`. */
  function ParamOrEmpty(url: Params, key: string): string
  {
    if key in url then url[key] else ""
  }

  function SearchOf(url: Params): string
  {
    ParamOrEmpty(url, "search")
  }

  function TypeOf(url: Params): string
  {
    ParamOrEmpty(url, "type")
  }

  /** `parseInt(searchParams.get("page") || "1", 10)`: page 1 when the parameter is missing or empty. */
  function PageOf(url: Params): (page: Num)
    ensures ParamOrEmpty(url, "page") == "" ==> page == Int(1)
  {
    var raw := ParamOrEmpty(url, "page");
    assert NumToString(Int(1)) == "1";
    ParseIntOfToString(Int(1));
    ParseInt(if raw == "" then "1" else raw)
  }

  /**
    The parameters a handler writes: `search` only when non-empty, `type` only when
    non-empty, and always `page`.
  */
  function QueryParams(search: string, assetType: string, page: Num): (url: Params)
    ensures url.Keys <= {"search", "type", "page"} && "page" in url
    ensures "search" in url <==> search != ""
    ensures "type" in url <==> assetType != ""
  {
    var withSearch: Params := if search != "" then map["search" := search] else map[];
    var withType := if assetType != "" then withSearch["type" := assetType] else withSearch;
    withType["page" := NumToString(page)]
  }

  /** Reading the written parameters back gives exactly the search, the type and the page that were written. */
  lemma QueryParamsReadBack(search: string, assetType: string, page: Num)
    ensures var url := QueryParams(search, assetType, page);
            SearchOf(url) == search && TypeOf(url) == assetType && PageOf(url) == page
  {
    ParseIntOfToString(page);
    NumToStringNonEmpty(page);
  }

  /** The Prev button's target, `Math.max(page - 1, 1)`; `NaN` stays `NaN`. */
  function PrevTarget(page: Num): Num
  {
    match page
    case Int(p) => Int(Paging.PrevTarget(p))
    case NaN => NaN
  }

  /** The Next button's target, `Math.min(page + 1, totalPages)`; `NaN` stays `NaN`. */
  function NextTarget(page: Num, total: int): Num
  {
    match page
    case Int(p) => Int(Paging.NextTarget(p, total))
    case NaN => NaN
  }

  /** `page === 1`. */
  predicate PrevDisabled(page: Num)
  {
    page == Int(1)
  }

  /** `page === totalPages`. */
  predicate NextDisabled(page: Num, total: int)
  {
    page == Int(total)
  }

  /** The signed-in user of the identity provider. */
  datatype AuthUser = AuthUser(displayName: Option<string>, email: Option<string>)

  class DirectoryView {
    var url: Params
    var searchBox: string
    var selected: Option<Asset>

    /** The text box starts with the URL's search value; no asset is selected. */
    constructor (initialUrl: Params)
      ensures url == initialUrl && searchBox == SearchOf(initialUrl) && selected == None
    {
      url := initialUrl;
      searchBox := SearchOf(initialUrl);
      selected := None;
    }

    /** The user edits the search box; nothing is submitted. */
    method Type(text: string)
      modifies this
      ensures searchBox == text && url == old(url) && selected == old(selected)
    {
      searchBox := text;
    }

    /** `handleSearch`: submit the trimmed box text, keep the current type, go back to page 1. */
    method HandleSearch()
      modifies this
      ensures url == QueryParams(Trim(old(searchBox)), TypeOf(old(url)), Int(1))
      ensures searchBox == old(searchBox) && selected == old(selected)
    {
      var searchValue := Trim(searchBox);
      url := QueryParams(searchValue, TypeOf(url), Int(1));
    }

    /** `handleTypeChange`: the trimmed box text, the chosen type, page 1. */
    method HandleTypeChange(value: string)
      modifies this
      ensures url == QueryParams(Trim(old(searchBox)), value, Int(1))
      ensures searchBox == old(searchBox) && selected == old(selected)
    {
      var searchValue := Trim(searchBox);
      url := QueryParams(searchValue, value, Int(1));
    }

    /** `handlePageChange`: the trimmed box text (not the last submitted search), the current type, the new page. */
    method HandlePageChange(newPage: Num)
      modifies this
      ensures url == QueryParams(Trim(old(searchBox)), TypeOf(old(url)), newPage)
      ensures searchBox == old(searchBox) && selected == old(selected)
    {
      var searchValue := Trim(searchBox);
      url := QueryParams(searchValue, TypeOf(url), newPage);
    }

    /** The Prev button, when it is enabled. */
    method ClickPrev()
      requires !PrevDisabled(PageOf(url))
      modifies this
      ensures url == QueryParams(Trim(old(searchBox)), TypeOf(old(url)), PrevTarget(PageOf(old(url))))
      ensures searchBox == old(searchBox) && selected == old(selected)
    {
      HandlePageChange(PrevTarget(PageOf(url)));
    }

    /** The Next button, when it is enabled; `reportedTotal` is the backend's `totalPages`. */
    method ClickNext(reportedTotal: Option<int>)
      requires !NextDisabled(PageOf(url), Paging.TotalPages(reportedTotal))
      modifies this
      ensures url == QueryParams(Trim(old(searchBox)), TypeOf(old(url)),
                                 NextTarget(PageOf(old(url)), Paging.TotalPages(reportedTotal)))
      ensures searchBox == old(searchBox) && selected == old(selected)
    {
      HandlePageChange(NextTarget(PageOf(url), Paging.TotalPages(reportedTotal)));
    }

    /** The details button of a row opens the dialog on that asset. */
    method Select(asset: Asset)
      modifies this
      ensures selected == Some(asset) && url == old(url) && searchBox == old(searchBox)
    {
      selected := Some(asset);
    }

    /** The dialog's Close button. */
    method Close()
      modifies this
      ensures selected == None && url == old(url) && searchBox == old(searchBox)
    {
      selected := None;
    }

    /**
      The dialog's Request button posts the selected asset's id, name, type, HR email and
      company with the signed-in user's display name and email; with no dialog open there is no button.
    */
    method Request(user: AuthUser) returns (body: Option<RequestBody>)
      ensures body.Some? <==> selected.Some?
      ensures body.Some? ==> (
                && body.value.assetId == selected.value.id
                && body.value.assetName == selected.value.productName
                && body.value.assetType == selected.value.productType
                && body.value.hrEmail == selected.value.hrEmail
                && body.value.companyName == selected.value.companyName
                && body.value.requesterName == user.displayName
                && body.value.requesterEmail == user.email
                && body.value.note.None?)
    {
      if selected.Some? {
        body := Some(RequestBodyFor(selected.value, user.displayName, user.email, None));
      } else {
        body := None;
      }
    }

    /** The request mutation settles: success closes the dialog, failure leaves it on the same asset. */
    method OnRequestSettled(succeeded: bool)
      modifies this
      ensures selected == if succeeded then None else old(selected)
      ensures url == old(url) && searchBox == old(searchBox)
    {
      if succeeded {
        selected := None;
      }
    }
  }

  /** Clearing the box and searching keeps the type filter, drops the search and returns to page 1. */
  lemma ClearedSearchKeepsType(url: Params, box: string)
    requires AllSpace(box)
    ensures var next := QueryParams(Trim(box), TypeOf(url), Int(1));
            SearchOf(next) == "" && "search" !in next && TypeOf(next) == TypeOf(url) && PageOf(next) == Int(1)
  {
    var searchValue := Trim(box);
    assert searchValue == "";
    QueryParamsReadBack(searchValue, TypeOf(url), Int(1));
  }

  /**
    A page change sends whatever the box holds, so text typed but never submitted becomes
    the search: with "Laptop" submitted and "Phone" typed, the next page queries "Phone".
  */
  lemma PageChangeTakesUnsubmittedText(url: Params, typed: string, newPage: Num)
    requires typed != [] && !IsSpace(typed[0]) && !IsSpace(typed[|typed| - 1])
    ensures var after := QueryParams(Trim(typed), TypeOf(url), newPage);
            SearchOf(after) == typed && TypeOf(after) == TypeOf(url) && PageOf(after) == newPage
  {
    TrimOfTrimmed(typed);
    QueryParamsReadBack(typed, TypeOf(url), newPage);
  }

  /** On a real page inside `[1, total]`, both buttons keep the page inside it. */
  lemma TargetsStayInRange(page: int, total: int)
    requires 1 <= page <= total
    ensures PrevTarget(Int(page)).Int? && 1 <= PrevTarget(Int(page)).value <= total
    ensures NextTarget(Int(page), total).Int? && 1 <= NextTarget(Int(page), total).value <= total
  {
    Paging.StepStaysInRange(page, total);
  }

  /**
    A URL page that starts with a letter (`?page=abc`) gives `NaN`: both buttons are
    enabled and both keep `NaN`.
  */
  lemma NonNumericPageStaysNaN(url: Params, total: int)
    requires "page" in url && url["page"] != [] && IsAsciiLetter(url["page"][0])
    ensures PageOf(url) == NaN
    ensures !PrevDisabled(PageOf(url)) && !NextDisabled(PageOf(url), total)
    ensures PrevTarget(PageOf(url)) == NaN && NextTarget(PageOf(url), total) == NaN
  {
    var raw := url["page"];
    assert ParamOrEmpty(url, "page") == raw;
    ParseIntOfNonNumeric(raw);
  }
}
