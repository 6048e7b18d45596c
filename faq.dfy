/**
 * The FAQ accordion: a list of items, each with an answer panel. A click on an
 * item's question closes every other item and toggles the clicked one.
 */
module Faq {
  import opened ClassLists

  const ActiveClass := "active"
  const HiddenClass := "hidden"

  /** Item classes after a click on item `i`: only `i` may be active, and `i` flips. */
  function ClickedItems(items: seq<ClassList>, i: nat): (r: seq<ClassList>)
    requires i < |items|
    ensures |r| == |items|
    ensures forall j :: 0 <= j < |r| && j != i ==> ActiveClass !in r[j]
    ensures ActiveClass in r[i] <==> ActiveClass !in items[i]
    ensures forall j :: 0 <= j < |r| ==> r[j] - {ActiveClass} == items[j] - {ActiveClass}
  {
    seq(|items|, j requires 0 <= j < |items| =>
      if j != i then Remove(items[j], ActiveClass) else Toggle(items[j], ActiveClass))
  }

  /** Answer classes after a click on item `i`: every other answer is hidden, and `i` flips. */
  function ClickedAnswers(answers: seq<ClassList>, i: nat): (r: seq<ClassList>)
    requires i < |answers|
    ensures |r| == |answers|
    ensures forall j :: 0 <= j < |r| && j != i ==> HiddenClass in r[j]
    ensures HiddenClass in r[i] <==> HiddenClass !in answers[i]
    ensures forall j :: 0 <= j < |r| ==> r[j] - {HiddenClass} == answers[j] - {HiddenClass}
  {
    seq(|answers|, j requires 0 <= j < |answers| =>
      if j != i then Add(answers[j], HiddenClass) else Toggle(answers[j], HiddenClass))
  }

  /** Every item is active exactly when its answer is shown. */
  ghost predicate Consistent(items: seq<ClassList>, answers: seq<ClassList>)
  {
    |items| == |answers| &&
    forall j :: 0 <= j < |items| ==> (ActiveClass in items[j] <==> HiddenClass !in answers[j])
  }

  /** No two items are active at once. */
  ghost predicate AtMostOneActive(items: seq<ClassList>)
  {
    forall j, k ::
      0 <= j < |items| && 0 <= k < |items| && ActiveClass in items[j] && ActiveClass in items[k]
      ==> j == k
  }

  /** No two answers are shown at once. */
  ghost predicate AtMostOneShown(answers: seq<ClassList>)
  {
    forall j, k ::
      0 <= j < |answers| && 0 <= k < |answers| && HiddenClass !in answers[j] && HiddenClass !in answers[k]
      ==> j == k
  }

  /** A click keeps "active iff shown" for every item. */
  lemma ClickKeepsConsistent(items: seq<ClassList>, answers: seq<ClassList>, i: nat)
    requires Consistent(items, answers) && i < |items|
    ensures Consistent(ClickedItems(items, i), ClickedAnswers(answers, i))
  {
  }

  /** Whatever the state before, after any click at most one item is open. */
  lemma ClickLeavesAtMostOneOpen(items: seq<ClassList>, answers: seq<ClassList>, i: nat)
    requires i < |items| && i < |answers|
    ensures AtMostOneActive(ClickedItems(items, i))
    ensures AtMostOneShown(ClickedAnswers(answers, i))
  {
  }

  /** The items and answer panels found by `initFAQ`, one answer per item. */
  class Accordion {
    const items: array<ClassList>
    const answers: array<ClassList>

    ghost predicate Valid()
      reads this
    {
      items != answers && items.Length == answers.Length
    }

    constructor (items: array<ClassList>, answers: array<ClassList>)
      requires items != answers && items.Length == answers.Length
      ensures Valid() && this.items == items && this.answers == answers
    {
      this.items := items;
      this.answers := answers;
    }

    /** The click handler of item `i`'s question. */
    method Click(i: nat)
      requires Valid() && i < items.Length
      modifies items, answers
      ensures items[..] == ClickedItems(old(items[..]), i)
      ensures answers[..] == ClickedAnswers(old(answers[..]), i)
      ensures AtMostOneActive(items[..]) && AtMostOneShown(answers[..])
      ensures old(Consistent(items[..], answers[..])) ==> Consistent(items[..], answers[..])
    {
      for j := 0 to items.Length
        invariant forall k :: 0 <= k < j && k != i ==>
          items[k] == Remove(old(items[k]), ActiveClass) && answers[k] == Add(old(answers[k]), HiddenClass)
        invariant forall k :: 0 <= k < items.Length && (j <= k || k == i) ==>
          items[k] == old(items[k]) && answers[k] == old(answers[k])
      {
        if j != i {
          items[j] := Remove(items[j], ActiveClass);
          answers[j] := Add(answers[j], HiddenClass);
        }
      }
      items[i] := Toggle(items[i], ActiveClass);
      answers[i] := Toggle(answers[i], HiddenClass);
      assert items[..] == ClickedItems(old(items[..]), i);
      assert answers[..] == ClickedAnswers(old(answers[..]), i);
      ClickLeavesAtMostOneOpen(old(items[..]), old(answers[..]), i);
      if old(Consistent(items[..], answers[..])) {
        ClickKeepsConsistent(old(items[..]), old(answers[..]), i);
      }
    }
  }
}
