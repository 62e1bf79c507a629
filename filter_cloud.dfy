/** `toggleValue` of src/components/FilterCloud.tsx: the new selection
    after a chip is clicked, in single- and multi-select mode. */
module FilterCloud {
  import opened Base

  function Toggle(selected: seq<string>, value: string, singleSelect: bool): (r: seq<string>)
    ensures singleSelect ==> |r| <= 1
    ensures singleSelect && value in selected ==> r == []
    ensures singleSelect && value !in selected ==> r == [value]
    ensures !singleSelect && value in selected ==> r == RemoveAll(selected, value)
    ensures !singleSelect && value !in selected ==> r == selected + [value]
    ensures value in r <==> value !in selected
  {
    if singleSelect then
      if value in selected then [] else [value]
    else if value in selected then RemoveAll(selected, value)
    else selected + [value]
  }

  /** Removing a value keeps the other selected values in their order. */
  lemma {:induction false} RemoveKeepsOrder(selected: seq<string>, value: string)
    ensures IsSubsequence(RemoveAll(selected, value), selected)
    ensures forall x :: x != value ==> multiset(RemoveAll(selected, value))[x] == multiset(selected)[x]
  {
    if selected != [] {
      RemoveKeepsOrder(selected[1..], value);
      var rest := RemoveAll(selected[1..], value);
      assert selected == [selected[0]] + selected[1..];
      if selected[0] != value {
        assert ([selected[0]] + rest)[1..] == rest;
      } else {
        assert [] + rest == rest;
      }
    }
  }

  /** Multi-select: clicking an unselected chip twice gives the selection back. */
  lemma ToggleTwice(selected: seq<string>, value: string)
    requires value !in selected
    ensures Toggle(Toggle(selected, value, false), value, false) == selected
  {
    RemoveAllAppended(selected, value);
  }

  lemma {:induction false} RemoveAllAppended(selected: seq<string>, value: string)
    requires value !in selected
    ensures RemoveAll(selected + [value], value) == selected
  {
    if selected != [] {
      assert (selected + [value])[1..] == selected[1..] + [value];
      RemoveAllAppended(selected[1..], value);
    }
  }

  /** Single-select: the same chip twice returns to no selection or to it alone. */
  lemma SingleToggleTwice(selected: seq<string>, value: string)
    ensures Toggle(Toggle(selected, value, true), value, true) == (if value in selected then [value] else [])
  {
  }
}
