/**
 * `toggleAccordion` (assets/js/components.js:860-914) on one accordion group.
 * The group's content panels and chevron icons are two arrays indexed by item
 * position: `hidden[i]` is the `hidden` class of the panel with id
 * `<accordionId>-item-<i>`, and `rotated[i]` is the `rotate-180` class of that
 * item's chevron. The 300 ms height transition is taken at rest.
 */
module Accordion {

  /** The panels after toggling `target`: the others close when only one may be open. */
  function ToggledContent(hidden: seq<bool>, target: nat, allowMultiple: bool): (r: seq<bool>)
    requires target < |hidden|
    ensures |r| == |hidden|
  {
    seq(|hidden|, j requires 0 <= j < |hidden| =>
      if j == target then !hidden[j] else if allowMultiple then hidden[j] else true)
  }

  /** The chevrons after toggling `target`: the others lose their rotation when only one may be open. */
  function ToggledIcons(rotated: seq<bool>, target: nat, allowMultiple: bool): (r: seq<bool>)
    requires target < |rotated|
    ensures |r| == |rotated|
  {
    seq(|rotated|, j requires 0 <= j < |rotated| =>
      if j == target then !rotated[j] else if allowMultiple then rotated[j] else false)
  }

  /** The positions of the open panels. */
  function OpenItems(hidden: seq<bool>): set<nat> {
    set j: nat | j < |hidden| && !hidden[j]
  }

  /** A chevron is rotated exactly when its panel is open. */
  predicate IconsAgree(hidden: seq<bool>, rotated: seq<bool>) {
    |hidden| == |rotated| && forall j :: 0 <= j < |hidden| ==> rotated[j] == !hidden[j]
  }

  /**
   * With `allowMultiple` false, the target ends up open iff it was closed, and
   * every other panel is closed: at most one item is open afterwards.
   */
  lemma SingleOpen(hidden: seq<bool>, target: nat)
    requires target < |hidden|
    ensures OpenItems(ToggledContent(hidden, target, false))
         == if target in OpenItems(hidden) then {} else {target}
  {
    var after := ToggledContent(hidden, target, false);
    forall j: nat | j in OpenItems(after) ensures j == target && target !in OpenItems(hidden) {
      assert !after[j];
    }
    if target !in OpenItems(hidden) {
      assert !after[target];
    }
  }

  /** With `allowMultiple` true, only the target changes: it joins or leaves the open set. */
  lemma MultipleOpen(hidden: seq<bool>, target: nat)
    requires target < |hidden|
    ensures OpenItems(ToggledContent(hidden, target, true))
         == if target in OpenItems(hidden) then OpenItems(hidden) - {target} else OpenItems(hidden) + {target}
    ensures forall j :: 0 <= j < |hidden| && j != target ==> ToggledContent(hidden, target, true)[j] == hidden[j]
  {
    var after := ToggledContent(hidden, target, true);
    forall j: nat | j < |hidden|
      ensures (j in OpenItems(after)) == if j == target then target !in OpenItems(hidden) else j in OpenItems(hidden)
    {
      assert after[j] == if j == target then !hidden[j] else hidden[j];
    }
  }

  /** Toggling keeps every chevron in agreement with its panel. */
  lemma ToggleKeepsIconsAgreeing(hidden: seq<bool>, rotated: seq<bool>, target: nat, allowMultiple: bool)
    requires IconsAgree(hidden, rotated) && target < |hidden|
    ensures IconsAgree(ToggledContent(hidden, target, allowMultiple), ToggledIcons(rotated, target, allowMultiple))
  {
  }

  /** Toggling the same item twice with `allowMultiple` true restores the group. */
  lemma ToggleTwiceRestores(hidden: seq<bool>, target: nat)
    requires target < |hidden|
    ensures ToggledContent(ToggledContent(hidden, target, true), target, true) == hidden
  {
    assert forall j :: 0 <= j < |hidden| ==> ToggledContent(ToggledContent(hidden, target, true), target, true)[j] == hidden[j];
  }

  class AccordionGroup {
    const hidden: array<bool>
    const rotated: array<bool>

    /** The panels and chevrons are separate arrays, one entry per item. */
    predicate Valid()
      reads this
    {
      hidden != rotated && hidden.Length == rotated.Length
    }

    /** A freshly rendered group: every panel `accordion-content hidden`, no chevron rotated. */
    constructor (itemCount: nat)
      ensures Valid() && fresh(hidden) && fresh(rotated)
      ensures hidden[..] == seq(itemCount, _ => true) && rotated[..] == seq(itemCount, _ => false)
      ensures OpenItems(hidden[..]) == {} && IconsAgree(hidden[..], rotated[..])
    {
      hidden := new bool[itemCount](_ => true);
      rotated := new bool[itemCount](_ => false);
      new;
      assert forall j: nat :: j < itemCount ==> hidden[..][j];
    }

    /** `toggleAccordion(<accordionId>-item-<target>, accordionId, allowMultiple)`, at rest. */
    method Toggle(target: nat, allowMultiple: bool)
      requires Valid() && target < hidden.Length
      modifies hidden, rotated
      ensures Valid()
      ensures hidden[..] == ToggledContent(old(hidden[..]), target, allowMultiple)
      ensures rotated[..] == ToggledIcons(old(rotated[..]), target, allowMultiple)
    {
      if !allowMultiple {
        var j := 0;
        while j < hidden.Length
          invariant 0 <= j <= hidden.Length
          invariant forall k :: 0 <= k < j ==> hidden[k] == if k == target then old(hidden[k]) else true
          invariant forall k :: j <= k < hidden.Length ==> hidden[k] == old(hidden[k])
          invariant rotated[..] == old(rotated[..])
        {
          if j != target && !hidden[j] {
            hidden[j] := true;
          }
          j := j + 1;
        }
        j := 0;
        while j < rotated.Length
          invariant 0 <= j <= rotated.Length
          invariant forall k :: 0 <= k < j ==> rotated[k] == if k == target then old(rotated[k]) else false
          invariant forall k :: j <= k < rotated.Length ==> rotated[k] == old(rotated[k])
          invariant forall k :: 0 <= k < hidden.Length ==> hidden[k] == if k == target then old(hidden[k]) else true
        {
          if j != target {
            rotated[j] := false;
          }
          j := j + 1;
        }
      }
      hidden[target] := !hidden[target];
      rotated[target] := !rotated[target];
    }
  }
}
