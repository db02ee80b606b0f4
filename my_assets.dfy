/**
  The HR asset list: a page counter in component state, a fixed page size of ten,
  an Assign button that is disabled for assets with nothing left to assign, and a
  delete that is issued only after the confirmation dialog is confirmed, with every
  delete button disabled while a delete is in flight.
*/
module MyAssets {
  import opened Common
  import opened Records
  import opened Text
  import Paging
  import EmployeeRequestAssets

  /** The page size the list always asks the backend for. */
  const PageSize: nat := 10

  /** The start of the list query, up to the email. */
  const QueryPrefix: string := "/assets?hrEmail="

  /**
    The list query `/assets?hrEmail=${email}&page=${page}&limit=${limit}`: the email is
    interpolated as it is, without `encodeURIComponent`.
  */
  function QueryUrl(hrEmail: string, page: int): (url: string)
    ensures |url| > |QueryPrefix| + |hrEmail| && url[..|QueryPrefix|] == QueryPrefix
    ensures url[|QueryPrefix|..|QueryPrefix| + |hrEmail|] == hrEmail && url[|QueryPrefix| + |hrEmail|] == '&'
  {
    QueryPrefix + hrEmail + "&page=" + IntToString(page) + "&limit=" + IntToString(PageSize)
  }

  predicate IsHexDigit(c: char)
  {
    IsDigit(c) || ('a' <= c <= 'f') || ('A' <= c <= 'F')
  }

  function HexValue(c: char): (v: nat)
    requires IsHexDigit(c)
    ensures v < 16
  {
    if IsDigit(c) then DigitValue(c)
    else if 'a' <= c <= 'f' then (c as int) - ('a' as int) + 10
    else (c as int) - ('A' as int) + 10
  }

  /**
    How a form-urlencoded query value is read: `+` is a space, `%` with two hex digits is the
    byte they name (taken here as the character with that code), and every other character,
    a `%` without two hex digits included, stands for itself.
  */
  function FormDecode(s: string): (r: string)
    ensures |r| <= |s|
    decreases |s|
  {
    if s == [] then []
    else if s[0] == '+' then " " + FormDecode(s[1..])
    else if s[0] == '%' && |s| >= 3 && IsHexDigit(s[1]) && IsHexDigit(s[2]) then
      [(HexValue(s[1]) * 16 + HexValue(s[2])) as char] + FormDecode(s[3..])
    else [s[0]] + FormDecode(s[1..])
  }

  /** Text with neither `+` nor `%` is read as itself. */
  predicate PlainText(s: string)
  {
    forall i :: 0 <= i < |s| ==> s[i] != '+' && s[i] != '%'
  }

  /** The text up to the first `&`: the value of a query parameter. */
  function UntilAmpersand(s: string): (r: string)
    ensures |r| <= |s| && r == s[..|r|] && '&' !in r
    ensures |r| < |s| ==> s[|r|] == '&'
    decreases |s|
  {
    if s == [] || s[0] == '&' then [] else [s[0]] + UntilAmpersand(s[1..])
  }

  /** The `hrEmail` value the backend reads from the list query. */
  function ReceivedHrEmail(url: string): string
  {
    if |url| >= |QueryPrefix| && url[..|QueryPrefix|] == QueryPrefix
    then FormDecode(UntilAmpersand(url[|QueryPrefix|..]))
    else ""
  }

  lemma {:induction false} UntilAmpersandOfValue(v: string, rest: string)
    requires '&' !in v
    ensures UntilAmpersand(v + "&" + rest) == v
    decreases |v|
  {
    if v == [] {
      assert (v + "&" + rest)[0] == '&';
    } else {
      assert (v + "&" + rest)[0] == v[0] && (v + "&" + rest)[1..] == v[1..] + "&" + rest;
      UntilAmpersandOfValue(v[1..], rest);
    }
  }

  lemma {:induction false} FormDecodeOfPlainThen(a: string, rest: string)
    requires PlainText(a)
    ensures FormDecode(a + rest) == a + FormDecode(rest)
    decreases |a|
  {
    if a == [] {
      assert a + rest == rest;
    } else {
      assert (a + rest)[0] == a[0] && (a + rest)[1..] == a[1..] + rest;
      FormDecodeOfPlainThen(a[1..], rest);
    }
  }

  /** The backend reads the value of `hrEmail` exactly as the query's form decoding of the interpolated email. */
  lemma {:induction false} ReceivedIsDecodedEmail(hrEmail: string, page: int)
    requires '&' !in hrEmail
    ensures ReceivedHrEmail(QueryUrl(hrEmail, page)) == FormDecode(hrEmail)
  {
    var url := QueryUrl(hrEmail, page);
    var rest := "page=" + IntToString(page) + "&limit=" + IntToString(PageSize);
    assert url[|QueryPrefix|..] == hrEmail + "&" + rest;
    UntilAmpersandOfValue(hrEmail, rest);
  }

  /** An address with neither `+` nor `%` reaches the backend unchanged. */
  lemma PlainEmailReadBack(hrEmail: string, page: int)
    requires '&' !in hrEmail && PlainText(hrEmail)
    ensures ReceivedHrEmail(QueryUrl(hrEmail, page)) == hrEmail
  {
    ReceivedIsDecodedEmail(hrEmail, page);
    FormDecodeOfPlainThen(hrEmail, []);
    assert hrEmail + [] == hrEmail;
  }

  /**
    An address with a `+` before the `@`, which the registration pattern accepts, reaches the
    backend with a space in its place, so the list asks for another HR's assets.
  */
  lemma PlusEmailAltered(local: string, rest: string, page: int)
    requires '&' !in local && '&' !in rest && PlainText(local) && PlainText(rest)
    ensures ReceivedHrEmail(QueryUrl(local + "+" + rest, page)) == local + " " + rest
    ensures ReceivedHrEmail(QueryUrl(local + "+" + rest, page)) != local + "+" + rest
  {
    var email := local + "+" + rest;
    ReceivedIsDecodedEmail(email, page);
    PlusDecodedAsSpace(local, rest);
    var received := local + " " + rest;
    assert received[|local|] == ' ' && email[|local|] == '+';
  }

  /** Form decoding turns the `+` between two plain texts into a space. */
  lemma PlusDecodedAsSpace(local: string, rest: string)
    requires PlainText(local) && PlainText(rest)
    ensures FormDecode(local + "+" + rest) == local + " " + rest
  {
    var tail := "+" + rest;
    assert local + "+" + rest == local + tail;
    FormDecodeOfPlainThen(local, tail);
    assert tail[0] == '+' && tail[1..] == rest;
    FormDecodeOfPlainThen(rest, []);
    assert rest + [] == rest;
  }

  /** The Assign button of a row is disabled exactly when none of the asset is available. */
  predicate AssignDisabled(asset: Asset)
  {
    asset.availableQuantity < 1
  }

  /**
    The HR list and the employee's request page agree on stock: an asset's Assign button is
    enabled exactly when the request page lists that asset.
  */
  lemma AssignableIffRequestable(items: seq<Asset>)
    ensures forall a :: a in items ==> (!AssignDisabled(a) <==> a in EmployeeRequestAssets.AvailableAssets(Some(items)))
  {
  }

  /** How a delete settled, as the result dialog reports it. */
  datatype DeleteNotice = Deleted | DeleteFailed

  class AssetTable {
    var page: int
    var deletePending: bool

    /** The list opens on page 1 with no delete in flight. */
    constructor ()
      ensures page == 1 && !deletePending
    {
      page := 1;
      deletePending := false;
    }

    /** The delete buttons of every row share the mutation's pending flag. */
    predicate DeleteDisabled()
      reads this
    {
      deletePending
    }

    /** The query the list sends for its current page, always `PageSize` rows. */
    method CurrentQuery(hrEmail: string) returns (url: string)
      ensures url == QueryUrl(hrEmail, page)
      ensures '&' !in hrEmail && PlainText(hrEmail) ==> ReceivedHrEmail(url) == hrEmail
    {
      url := QueryPrefix + hrEmail + "&page=" + IntToString(page) + "&limit=" + IntToString(PageSize);
      if '&' !in hrEmail && PlainText(hrEmail) {
        PlainEmailReadBack(hrEmail, page);
      }
    }

    /** A click on Prev: `Math.max(page - 1, 1)`, and nothing when the button is disabled on page 1. */
    method ClickPrev()
      modifies this
      ensures page == if Paging.PrevDisabled(old(page)) then old(page) else Paging.PrevTarget(old(page))
      ensures deletePending == old(deletePending)
      ensures 1 <= old(page) ==> 1 <= page <= old(page)
    {
      if !Paging.PrevDisabled(page) {
        page := Paging.PrevTarget(page);
      }
    }

    /**
      A click on Next with the backend's `totalPages`: `Math.min(page + 1, totalPages)`,
      and nothing when the button is disabled on the last page.
    */
    method ClickNext(reportedTotal: Option<int>)
      modifies this
      ensures var total := Paging.TotalPages(reportedTotal);
              page == if Paging.NextDisabled(old(page), total) then old(page) else Paging.NextTarget(old(page), total)
      ensures deletePending == old(deletePending)
      ensures var total := Paging.TotalPages(reportedTotal);
              1 <= old(page) <= total ==> 1 <= page <= total
    {
      var total := Paging.TotalPages(reportedTotal);
      if !Paging.NextDisabled(page, total) {
        if 1 <= page <= total {
          Paging.StepStaysInRange(page, total);
        }
        page := Paging.NextTarget(page, total);
      }
    }

    /**
      A click on a row's delete button followed by the confirmation dialog's answer:
      the delete for `id` is issued only when the answer is a confirmation, and a
      disabled button (a delete already in flight) issues nothing.
    */
    method HandleDelete(id: string, confirmed: bool) returns (issued: Option<string>)
      modifies this
      ensures issued == if !old(DeleteDisabled()) && confirmed then Some(id) else None
      ensures DeleteDisabled() == (old(DeleteDisabled()) || issued.Some?)
      ensures page == old(page)
    {
      if !deletePending && confirmed {
        issued := Some(id);
        deletePending := true;
      } else {
        issued := None;
      }
    }

    /** The delete settles: the buttons are enabled again and the result dialog says how it went. */
    method OnDeleteSettled(succeeded: bool) returns (notice: DeleteNotice)
      modifies this
      ensures notice == if succeeded then Deleted else DeleteFailed
      ensures !deletePending && page == old(page)
    {
      deletePending := false;
      notice := if succeeded then Deleted else DeleteFailed;
    }
  }

  /**
    A second delete waits for the first: while one is in flight every delete button is
    disabled and a confirmed click issues nothing; once it settles, a confirmed click issues again.
  */
  method SecondDeleteWaits(first: string, second: string) returns (whilePending: Option<string>, afterSettled: Option<string>)
    ensures whilePending == None && afterSettled == Some(second)
  {
    var table := new AssetTable();
    var issued := table.HandleDelete(first, true);
    whilePending := table.HandleDelete(second, true);
    var _ := table.OnDeleteSettled(true);
    afterSettled := table.HandleDelete(second, true);
  }
}
