/**
 * The FAQ accordion (src/components/Faqs.jsx).
 *
 * A single optional index says which answer is unfolded. Clicking a
 * question folds it when it is the open one and otherwise unfolds it, which
 * folds whatever was open before: at most one answer is ever visible.
 */
module Faq {

  import opened Optional

  /** The index `toggleFAQ(index)` leaves open, starting from `open`. */
  function Toggled(open: Option<nat>, index: nat): Option<nat>
  {
    if open == Some(index) then None else Some(index)
  }

  /** Clicking a closed question twice folds everything. */
  lemma ToggleTwiceCloses(open: Option<nat>, index: nat)
    requires open != Some(index)
    ensures Toggled(Toggled(open, index), index) == None
  {
  }

  /** Clicking the open question twice leaves it open. */
  lemma ToggleTwiceKeepsOpen(index: nat)
    ensures Toggled(Toggled(Some(index), index), index) == Some(index)
  {
  }

  /** The mounted accordion over `itemCount` questions. */
  class Accordion {
    const itemCount: nat
    var openIndex: Option<nat>

    ghost predicate Valid()
      reads this
    {
      openIndex.Some? ==> openIndex.value < itemCount
    }

    /**
     * Item `i` is drawn open: highlighted border, minus icon, answer unfolded.
     * In a valid state only a rendered item can be drawn open.
     */
    predicate IsOpen(i: nat)
      reads this
      ensures Valid() && IsOpen(i) ==> i < itemCount
    {
      openIndex == Some(i)
    }

    /** At most one item is drawn open. */
    lemma AtMostOneOpen(i: nat, j: nat)
      requires IsOpen(i) && IsOpen(j)
      ensures i == j
    {
    }

    constructor (itemCount: nat)
      ensures this.itemCount == itemCount && openIndex == None
      ensures Valid() && forall i: nat :: !IsOpen(i)
    {
      this.itemCount := itemCount;
      openIndex := None;
    }

    /** A click on question `index`; only the rendered questions can be clicked. */
    method ToggleFaq(index: nat)
      requires Valid() && index < itemCount
      modifies this
      ensures Valid()
      ensures openIndex == Toggled(old(openIndex), index)
      ensures old(IsOpen(index)) ==> forall i: nat :: !IsOpen(i)
      ensures !old(IsOpen(index)) ==> IsOpen(index) && forall i: nat :: i != index ==> !IsOpen(i)
    {
      openIndex := if openIndex == Some(index) then None else Some(index);
    }

    /** Submitting the enquiry form: the default action is prevented and no state changes. */
    method SubmitEnquiry()
      ensures openIndex == old(openIndex)
    {
    }
  }
}
