/**
  The FAQ accordion: one state cell holding the index of the open item, if any.
  Clicking an item opens it and closes whichever was open; clicking the open item closes it.
*/
module Faq {
  import opened Common

  /** The number of questions the page lists. */
  const ItemCount: nat := 6

  /** `activeIndex === index ? null : index`. */
  function Toggled(active: Option<nat>, index: nat): (next: Option<nat>)
    ensures next == None <==> active == Some(index)
    ensures next.Some? ==> next.value == index
  {
    if active == Some(index) then None else Some(index)
  }

  /** Toggling an item twice restores the state when it was closed everywhere or was the open item itself. */
  lemma ToggleTwiceRestores(active: Option<nat>, index: nat)
    requires active == None || active == Some(index)
    ensures Toggled(Toggled(active, index), index) == active
  {
  }

  /**
    It does not restore it when another item was open: that item is replaced by `index`,
    and the second toggle closes `index`, leaving nothing open.
  */
  lemma ToggleTwiceClosesOther(other: nat, index: nat)
    requires other != index
    ensures Toggled(Toggled(Some(other), index), index) == None
  {
  }

  /** An item's answer is shown, and its sign is "-", exactly when it is the open item. */
  predicate AnswerShown(active: Option<nat>, index: nat)
  {
    active == Some(index)
  }

  function Sign(active: Option<nat>, index: nat): (sign: string)
    ensures sign == "-" <==> AnswerShown(active, index)
    ensures sign == "+" <==> !AnswerShown(active, index)
  {
    if active == Some(index) then "-" else "+"
  }

  class Accordion {
    var active: Option<nat>

    /** The open index is always one of the listed items. */
    predicate Valid()
      reads this
    {
      active.None? || active.value < ItemCount
    }

    /** No item is open at first. */
    constructor ()
      ensures active == None && Valid()
    {
      active := None;
    }

    /** `toggleFAQ(index)`, called by a click on one of the listed items. */
    method Toggle(index: nat)
      requires Valid() && index < ItemCount
      modifies this
      ensures active == Toggled(old(active), index) && Valid()
    {
      active := if active == Some(index) then None else Some(index);
    }
  }
}
