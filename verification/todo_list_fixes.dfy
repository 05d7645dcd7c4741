/** Two places where todo_list.rb does something other than what its
    callers evidently expect. For each: a concrete case showing the
    as-written behaviour (modelled in TodoLists), and the intended
    behaviour with the property it was meant to have. */
module TodoListFixes {
  import opened Results
  import opened Todos
  import opened TodoLists

  /** Two equal items: `remove_at(0)` empties the list instead of removing
      one slot. */
  lemma RemoveAtDropsDuplicates()
    ensures var a := NewTodo("Buy milk");
            RemoveAt(TodoList("Today's Todos", [a, a]), 0) == Ok((a, TodoList("Today's Todos", [])))
  {
    var a := NewTodo("Buy milk");
    assert multiset([a, a])[a] == 2;
    DeleteAllSize([a, a], a);
    assert DeleteAll([a, a], a) == [];
  }

  /** `remove_at` as intended: removes the indexed slot only. */
  function RemoveSlotAt(l: TodoList, index: int): (r: Result<(Todo, TodoList), Error>)
    ensures r.Err? <==> index < -|l.items| || |l.items| <= index
    ensures r.Err? ==> r.error == IndexError
    ensures r.Ok? ==> ItemAt(l, index) == Ok(r.value.0)
    ensures r.Ok? ==> r.value.1.title == l.title && |r.value.1.items| == |l.items| - 1
    ensures r.Ok? ==> multiset(r.value.1.items) + multiset{r.value.0} == multiset(l.items)
  {
    match ResolveIndex(|l.items|, index)
    case None => Err(IndexError)
    case Some(k) =>
      assert l.items == l.items[..k] + [l.items[k]] + l.items[k + 1..];
      Ok((l.items[k], l.(items := l.items[..k] + l.items[k + 1..])))
  }

  /** Putting the removed item back into its slot restores the list. */
  lemma RemoveSlotAtRoundTrip(l: TodoList, index: int)
    requires -|l.items| <= index < |l.items|
    ensures var k := if index < 0 then |l.items| + index else index;
            var (x, rest) := RemoveSlotAt(l, index).value;
            rest.items[..k] + [x] + rest.items[k..] == l.items
  {
    var k := if index < 0 then |l.items| + index else index;
    var rest := RemoveSlotAt(l, index).value.1;
    assert rest.items[..k] == l.items[..k];
    assert rest.items[k..] == l.items[k + 1..];
    assert l.items == l.items[..k] + [l.items[k]] + l.items[k + 1..];
  }

  /** With no matching title, `mark_done` raises instead of doing nothing. */
  lemma MarkDoneUnknownTitleRaises()
    ensures MarkDoneByTitle(TodoList("Today's Todos", [NewTodo("Buy milk")]), "missing")
            == Err(NoMethodError)
    ensures MarkDoneByTitle(NewList("Today's Todos"), "missing") == Err(NoMethodError)
  {
  }

  /** `find_by_title` as intended: nil when no title matches. */
  function FindByTitleOrNil(l: TodoList, title: string): (r: Option<Todo>)
    ensures r.None? <==> forall j :: 0 <= j < |l.items| ==> l.items[j].title != title
    ensures r.Some? ==> exists i :: 0 <= i < |l.items| && l.items[i] == r.value && r.value.title == title &&
                                   forall j :: 0 <= j < i ==> l.items[j].title != title
  {
    match FindByTitle(l, title)
    case Receiver(_) => None
    case Match(t) => Some(t)
  }

  /** `mark_done` as intended: the first match becomes done; with no match
      the list is unchanged. */
  function MarkDoneByTitleFixed(l: TodoList, title: string): (r: TodoList)
    ensures (forall j :: 0 <= j < |l.items| ==> l.items[j].title != title) ==> r == l
    ensures r.title == l.title && |r.items| == |l.items|
    ensures forall j :: 0 <= j < |l.items| && l.items[j].title == title ==>
              exists i :: 0 <= i <= j && l.items[i].title == title && r.items[i] == l.items[i].MarkDone() &&
                          forall k :: 0 <= k < |l.items| && k != i ==> r.items[k] == l.items[k]
  {
    match FirstWithTitle(l.items, title)
    case None => l
    case Some(i) => l.(items := l.items[i := l.items[i].MarkDone()])
  }
}
