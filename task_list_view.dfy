/**
 * The list of tasks the category filter of public/scripts/dashboard.js and
 * public/scripts/archive.js works on: a fixed list of `.list-item` nodes,
 * each with an optional `data-category-id` and a hidden flag
 * (`style.display === 'none'`), and a count of `.empty-message` nodes.
 */
module TaskListView {
  import opened Wrappers

  /** `!categoryId || item.dataset.categoryId === categoryId`. */
  predicate Visible(filter: string, categoryId: Option<string>) {
    filter == "" || categoryId == Some(filter)
  }

  /** How many items a filter lets through. */
  function MatchCount(filter: string, categoryIds: seq<Option<string>>): (n: nat)
    ensures n <= |categoryIds|
    ensures n == 0 <==> forall i :: 0 <= i < |categoryIds| ==> !Visible(filter, categoryIds[i])
  {
    if categoryIds == [] then 0
    else MatchCount(filter, categoryIds[1..]) + (if Visible(filter, categoryIds[0]) then 1 else 0)
  }

  /** An empty filter lets every item through. */
  lemma {:induction false} EmptyFilterShowsAll(categoryIds: seq<Option<string>>)
    ensures MatchCount("", categoryIds) == |categoryIds|
  {
    if categoryIds != [] {
      EmptyFilterShowsAll(categoryIds[1..]);
    }
  }

  /** `Array.from(taskItems).filter(item => item.style.display !== 'none').length`. */
  function ShownCount(hidden: seq<bool>): (n: nat)
    ensures n <= |hidden|
  {
    if hidden == [] then 0 else ShownCount(hidden[1..]) + (if hidden[0] then 0 else 1)
  }

  /** Once every item is hidden exactly when the filter rejects it, the shown items are the matching ones. */
  lemma {:induction false} ShownCountIsMatchCount(hidden: seq<bool>, filter: string, categoryIds: seq<Option<string>>)
    requires |hidden| == |categoryIds|
    requires forall i :: 0 <= i < |hidden| ==> hidden[i] == !Visible(filter, categoryIds[i])
    ensures ShownCount(hidden) == MatchCount(filter, categoryIds)
  {
    if hidden != [] {
      ShownCountIsMatchCount(hidden[1..], filter, categoryIds[1..]);
    }
  }

  class TaskList {
    /** The `data-category-id` of each item, absent when the attribute is missing. */
    const categoryIds: seq<Option<string>>
    /** Whether each item is hidden. */
    const hidden: array<bool>
    /** The `.empty-message` nodes in the list. */
    var emptyMessages: nat

    /** One flag per item, and never more than one empty message. */
    ghost predicate Valid()
      reads this
    {
      hidden.Length == |categoryIds| && emptyMessages <= 1
    }

    constructor (categoryIds: seq<Option<string>>, emptyMessages: nat)
      requires emptyMessages <= 1
      ensures Valid() && fresh(hidden)
      ensures this.categoryIds == categoryIds && this.emptyMessages == emptyMessages
      ensures forall i :: 0 <= i < hidden.Length ==> !hidden[i]
    {
      this.categoryIds := categoryIds;
      this.emptyMessages := emptyMessages;
      hidden := new bool[|categoryIds|](_ => false);
    }

    function VisibleCount(): nat
      reads this, hidden
    {
      ShownCount(hidden[..])
    }

    /** The `forEach` of both scripts: shows each item the filter accepts and hides the rest. */
    method ShowMatching(filter: string)
      requires Valid()
      modifies hidden
      ensures Valid()
      ensures forall i :: 0 <= i < hidden.Length ==> hidden[i] == !Visible(filter, categoryIds[i])
      ensures VisibleCount() == MatchCount(filter, categoryIds)
    {
      var i := 0;
      while i < hidden.Length
        invariant 0 <= i <= hidden.Length
        invariant forall j :: 0 <= j < i ==> hidden[j] == !Visible(filter, categoryIds[j])
      {
        if filter == "" || categoryIds[i] == Some(filter) {
          hidden[i] := false;
        } else {
          hidden[i] := true;
        }
        i := i + 1;
      }
      ShownCountIsMatchCount(hidden[..], filter, categoryIds);
    }
  }
}
