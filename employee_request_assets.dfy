/**
  The employee's request page: the list shows only the fetched assets that still have
  stock, a card's Request button selects its asset and opens the dialog, and submitting
  posts a request built from the selected asset, the signed-in user's profile and the note.
*/
module EmployeeRequestAssets {
  import opened Common
  import opened Records

  predicate InStock(asset: Asset)
  {
    asset.availableQuantity > 0
  }

  /**
    `data?.items?.filter(a => a.availableQuantity > 0) || []`: the fetched assets with
    stock, nothing when the response has no item list.
  */
  function AvailableAssets(items: Option<seq<Asset>>): (shown: seq<Asset>)
    ensures items.None? ==> shown == []
    ensures forall a :: a in shown <==> items.Some? && a in items.value && InStock(a)
    ensures items.Some? ==> forall a :: a in items.value ==> multiset(shown)[a] == if InStock(a) then multiset(items.value)[a] else 0
  {
    if items.None? then [] else Filter(InStock, items.value)
  }

  /** The shown assets keep the order of the fetched list. */
  lemma AvailableKeepsOrder(items: seq<Asset>)
    ensures IsSubsequence(AvailableAssets(Some(items)), items)
  {
    FilterIsSubsequence(InStock, items);
  }

  /** "No assets available" is shown exactly when no fetched asset has stock. */
  predicate ShowsEmptyMessage(items: Option<seq<Asset>>)
  {
    |AvailableAssets(items)| == 0
  }

  lemma EmptyMessageIffNothingInStock(items: Option<seq<Asset>>)
    ensures ShowsEmptyMessage(items) <==> items.None? || forall i :: 0 <= i < |items.value| ==> !InStock(items.value[i])
  {
    if !ShowsEmptyMessage(items) {
      var a := AvailableAssets(items)[0];
      assert a in AvailableAssets(items);
    }
  }

  /** The page's state cells: the selected asset, the note text, and whether the dialog is open. */
  class RequestPanel {
    var selected: Option<Asset>
    var note: string
    var dialogOpen: bool

    constructor ()
      ensures selected == None && note == "" && !dialogOpen
    {
      selected := None;
      note := "";
      dialogOpen := false;
    }

    /** A card's Request button selects its asset and opens the dialog; the note is kept. */
    method Choose(asset: Asset)
      modifies this
      ensures selected == Some(asset) && dialogOpen && note == old(note)
    {
      selected := Some(asset);
      dialogOpen := true;
    }

    /** Typing in the dialog's text area. */
    method EditNote(text: string)
      modifies this
      ensures note == text && selected == old(selected) && dialogOpen == old(dialogOpen)
    {
      note := text;
    }

    /** Cancel closes the dialog and clears nothing. */
    method Cancel()
      modifies this
      ensures !dialogOpen && selected == old(selected) && note == old(note)
    {
      dialogOpen := false;
    }

    /**
      `handleRequest`: with no selected asset nothing is posted and nothing changes. Otherwise
      the request for the selected asset is posted with the user's name and email and the note;
      on success the selection and the note are cleared and the dialog closes, on failure
      everything stays as it was.
    */
    method HandleRequest(user: Option<UserInfo>, succeeded: bool) returns (body: Option<RequestBody>)
      modifies this
      ensures body.Some? <==> old(selected).Some?
      ensures body.Some? ==> body.value == RequestBodyFor(old(selected).value,
                                                          if user.Some? then user.value.name else None,
                                                          if user.Some? then user.value.email else None,
                                                          Some(old(note)))
      ensures if body.Some? && succeeded then selected == None && note == "" && !dialogOpen
              else selected == old(selected) && note == old(note) && dialogOpen == old(dialogOpen)
    {
      if selected.None? {
        return None;
      }
      var requesterName := if user.Some? then user.value.name else None;
      var requesterEmail := if user.Some? then user.value.email else None;
      body := Some(RequestBodyFor(selected.value, requesterName, requesterEmail, Some(note)));
      if succeeded {
        selected := None;
        note := "";
        dialogOpen := false;
      }
    }
  }

  /**
    Cancel does not clear the note, so a note typed for one asset and cancelled is sent
    with the next asset requested.
  */
  method CancelledNoteCarriesOver(first: Asset, second: Asset, text: string, user: Option<UserInfo>)
    returns (body: Option<RequestBody>)
    ensures body.Some? && body.value.assetId == second.id && body.value.note == Some(text)
  {
    var panel := new RequestPanel();
    panel.Choose(first);
    panel.EditNote(text);
    panel.Cancel();
    panel.Choose(second);
    body := panel.HandleRequest(user, true);
  }
}
