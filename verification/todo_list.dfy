/** The ordered todo collection (class `TodoList` of todo_list.rb), modelled
    as a value: every operation takes the old list and returns the new one,
    together with its result or the exception it raises. */
module TodoLists {
  import opened Results
  import opened Todos
  import Seqs

  /** What `<<` may be handed: a `Todo`, or an object of any other class. */
  datatype Item = TodoItem(todo: Todo) | Other

  /** The exceptions the list's operations raise. */
  datatype Error =
    | TypeError      // `<<` given something that is not a Todo
    | IndexError     // an index outside -size..size-1
    | NoMethodError  // `done!` sent to the Array that `find_by_title` returns

  datatype TodoList = TodoList(title: string, items: seq<Todo>)

  /** What `find_by_title` returns: the first match, or, when nothing
      matches, the receiver of `each`, which is the whole item array. */
  datatype Found = Match(todo: Todo) | Receiver(all: seq<Todo>)

  /** The title `select` gives the list it builds. */
  const SelectedTitle: string := "Selected Todos"

  /** The first line of `to_s`, whatever the list's own title is. */
  const Header: string := "---- Today's Todos ----\n"

  /** `TodoList.new(title)`: a list with no items. */
  function NewList(title: string): (l: TodoList)
    ensures l.title == title && l.items == []
  {
    TodoList(title, [])
  }

  /** `<<` / `add`: appends a Todo; anything else raises TypeError. */
  function Add(l: TodoList, x: Item): (r: Result<TodoList, Error>)
    ensures r.Err? <==> x.Other?
    ensures r.Err? ==> r.error == TypeError
    ensures r.Ok? ==> r.value.title == l.title
    ensures r.Ok? ==> |r.value.items| == |l.items| + 1
    ensures r.Ok? ==> r.value.items[..|l.items|] == l.items
    ensures r.Ok? ==> r.value.items[|l.items|] == x.todo
  {
    match x
    case Other => Err(TypeError)
    case TodoItem(t) => Ok(l.(items := l.items + [t]))
  }

  /** An index Ruby's `fetch` and `[]` accept, resolved to a slot:
      0..size-1 count from the front, -size..-1 from the back. */
  function ResolveIndex(size: nat, index: int): (r: Option<nat>)
    ensures r.Some? <==> -(size as int) <= index < size
    ensures r.Some? ==> r.value < size
    ensures r.Some? && index >= 0 ==> r.value == index
    ensures r.Some? && index < 0 ==> r.value == size + index
  {
    if 0 <= index < size then Some(index)
    else if -(size as int) <= index < 0 then Some(size + index)
    else None
  }

  /** `todos[index]`: the item in the slot, or nil when there is none. */
  function Lookup(l: TodoList, index: int): (r: Option<Todo>)
    ensures r.None? <==> index < -|l.items| || |l.items| <= index
    ensures r.Some? && index >= 0 ==> r.value == l.items[index]
    ensures r.Some? && index < 0 ==> r.value == l.items[|l.items| + index]
  {
    match ResolveIndex(|l.items|, index)
    case None => None
    case Some(k) => Some(l.items[k])
  }

  /** `item_at`, i.e. `todos.fetch(index)`: raises IndexError where `[]`
      would give nil. */
  function ItemAt(l: TodoList, index: int): (r: Result<Todo, Error>)
    ensures r.Err? <==> index < -|l.items| || |l.items| <= index
    ensures r.Err? ==> r.error == IndexError
    ensures r.Ok? && index >= 0 ==> r.value == l.items[index]
    ensures r.Ok? && index < 0 ==> r.value == l.items[|l.items| + index]
  {
    match Lookup(l, index)
    case None => Err(IndexError)
    case Some(t) => Ok(t)
  }

  /** `to_a`: the items in order, each one the item at its index. */
  function ToArray(l: TodoList): (a: seq<Todo>)
    ensures |a| == |l.items|
    ensures forall i :: 0 <= i < |a| ==> ItemAt(l, i) == Ok(a[i])
  {
    l.items
  }

  /** `done?`, i.e. `todos.all?(&:done?)`: vacuously true when empty. */
  function IsDone(l: TodoList): (r: bool)
    ensures r <==> forall i :: 0 <= i < |l.items| ==> l.items[i].done
  {
    Seqs.All(l.items, Finished)
  }

  /** The block `{ |item| item.done? }`. */
  function Finished(t: Todo): bool
  {
    t.done
  }

  /** The block `{ |item| !item.done? }`. */
  function Unfinished(t: Todo): bool
  {
    !t.done
  }

  /** The test `Array#delete(x)` applies to each element: keep it unless
      it is `==` to `x`. */
  function Differs(x: Todo): Todo -> bool
  {
    (y: Todo) => !y.Equals(x)
  }

  /** `Array#delete(x)`: drops every element `==` to `x`, keeping the order
      of the rest. */
  function DeleteAll(s: seq<Todo>, x: Todo): (r: seq<Todo>)
    ensures x !in r
    ensures forall i :: 0 <= i < |r| ==> r[i] in s
    ensures forall i :: 0 <= i < |s| && s[i] != x ==> s[i] in r
  {
    Seqs.Filter(s, Differs(x))
  }

  /** `Array#delete(x)` shortens the array by the number of copies of `x`. */
  lemma {:induction false} DeleteAllSize(s: seq<Todo>, x: Todo)
    ensures |DeleteAll(s, x)| == |s| - multiset(s)[x]
  {
    if |s| > 0 {
      assert s == [s[0]] + s[1..];
      assert multiset(s)[x] == multiset{s[0]}[x] + multiset(s[1..])[x];
      assert DeleteAll(s, x) == (if s[0] != x then [s[0]] else []) + DeleteAll(s[1..], x);
      DeleteAllSize(s[1..], x);
    }
  }

  /** `Array#delete(x)` removes exactly the copies of `x`: the size drops by
      their number and every other value keeps its multiplicity. */
  lemma DeleteAllCount(s: seq<Todo>, x: Todo, y: Todo)
    ensures |DeleteAll(s, x)| == |s| - multiset(s)[x]
    ensures multiset(DeleteAll(s, x))[y] == if y == x then 0 else multiset(s)[y]
  {
    DeleteAllSize(s, x);
    Seqs.FilterCount(s, Differs(x), y);
  }

  /** `remove_at`: fetches the item at `index` (IndexError when there is
      none), then deletes every item equal to it and returns it. */
  function RemoveAt(l: TodoList, index: int): (r: Result<(Todo, TodoList), Error>)
    ensures r.Err? <==> index < -|l.items| || |l.items| <= index
    ensures r.Err? ==> r.error == IndexError
    ensures r.Ok? ==> ItemAt(l, index) == Ok(r.value.0)
    ensures r.Ok? ==> r.value.1.title == l.title
    ensures r.Ok? ==> r.value.0 !in r.value.1.items
    ensures r.Ok? ==> forall i :: 0 <= i < |r.value.1.items| ==> r.value.1.items[i] in l.items
    ensures r.Ok? ==> forall i :: 0 <= i < |l.items| && l.items[i] != r.value.0 ==>
                        l.items[i] in r.value.1.items
    ensures r.Ok? ==> |r.value.1.items| == |l.items| - multiset(l.items)[r.value.0]
    ensures r.Ok? ==> r.value.1.items == DeleteAll(l.items, r.value.0)
  {
    match ItemAt(l, index)
    case Err(e) => Err(e)
    case Ok(x) =>
      DeleteAllSize(l.items, x);
      Ok((x, l.(items := DeleteAll(l.items, x))))
  }

  /** The survivors of `remove_at` keep their relative order: deleting from
      a concatenation deletes from each part. */
  lemma DeleteAllAppend(a: seq<Todo>, b: seq<Todo>, x: Todo)
    ensures DeleteAll(a + b, x) == DeleteAll(a, x) + DeleteAll(b, x)
  {
    Seqs.FilterAppend(a, b, Differs(x));
  }

  /** `mark_done_at`: IndexError when `todos[index]` is nil; otherwise only
      the done flag of that slot changes, to true. */
  function MarkDoneAt(l: TodoList, index: int): (r: Result<TodoList, Error>)
    ensures r.Err? <==> index < -|l.items| || |l.items| <= index
    ensures r.Err? ==> r.error == IndexError
    ensures r.Ok? ==> r.value.title == l.title && |r.value.items| == |l.items|
    ensures r.Ok? ==>
      var k := if index < 0 then |l.items| + index else index;
      && r.value.items[k].done
      && r.value.items[k].title == l.items[k].title
      && r.value.items[k].description == l.items[k].description
      && forall j :: 0 <= j < |l.items| && j != k ==> r.value.items[j] == l.items[j]
  {
    match Lookup(l, index)
    case None => Err(IndexError)
    case Some(t) =>
      var k := if index < 0 then |l.items| + index else index;
      Ok(l.(items := l.items[k := t.MarkDone()]))
  }

  /** `mark_undone_at`: IndexError when `fetch` fails; otherwise only the
      done flag of that slot changes, to false. */
  function MarkUndoneAt(l: TodoList, index: int): (r: Result<TodoList, Error>)
    ensures r.Err? <==> index < -|l.items| || |l.items| <= index
    ensures r.Err? ==> r.error == IndexError
    ensures r.Ok? ==> r.value.title == l.title && |r.value.items| == |l.items|
    ensures r.Ok? ==>
      var k := if index < 0 then |l.items| + index else index;
      && !r.value.items[k].done
      && r.value.items[k].title == l.items[k].title
      && r.value.items[k].description == l.items[k].description
      && forall j :: 0 <= j < |l.items| && j != k ==> r.value.items[j] == l.items[j]
  {
    match ItemAt(l, index)
    case Err(e) => Err(e)
    case Ok(t) =>
      var k := if index < 0 then |l.items| + index else index;
      Ok(l.(items := l.items[k := t.MarkUndone()]))
  }

  /** Reading a slot back after marking it sees the new flag. */
  lemma MarkAtThenItemAt(l: TodoList, index: int)
    requires -|l.items| <= index < |l.items|
    ensures MarkDoneAt(l, index).Ok? && MarkUndoneAt(l, index).Ok?
    ensures ItemAt(MarkDoneAt(l, index).value, index) == Ok(ItemAt(l, index).value.MarkDone())
    ensures ItemAt(MarkUndoneAt(l, index).value, index) == Ok(ItemAt(l, index).value.MarkUndone())
  {
  }

  /** `done!`: runs `mark_done_at` over every index in turn. */
  method DoneAll(l: TodoList) returns (r: TodoList)
    ensures r.title == l.title && |r.items| == |l.items|
    ensures forall i :: 0 <= i < |l.items| ==> r.items[i] == l.items[i].MarkDone()
    ensures IsDone(r)
  {
    r := l;
    var idx := 0;
    while idx < |l.items|
      invariant 0 <= idx <= |l.items|
      invariant r.title == l.title && |r.items| == |l.items|
      invariant forall i :: 0 <= i < idx ==> r.items[i] == l.items[i].MarkDone()
      invariant forall i :: idx <= i < |l.items| ==> r.items[i] == l.items[i]
    {
      var marked := MarkDoneAt(r, idx);
      r := marked.value;
      idx := idx + 1;
    }
  }

  /** `each` with a block that updates the item it is handed: the counter
      loop visits slot 0, 1, ... in turn and the list keeps its title. */
  method Each(l: TodoList, visit: Todo -> Todo) returns (r: TodoList)
    ensures r.title == l.title && |r.items| == |l.items|
    ensures forall i :: 0 <= i < |l.items| ==> r.items[i] == visit(l.items[i])
  {
    r := l;
    var counter := 0;
    while counter < |r.items|
      invariant 0 <= counter <= |r.items| == |l.items|
      invariant r.title == l.title
      invariant forall i :: 0 <= i < counter ==> r.items[i] == visit(l.items[i])
      invariant forall i :: counter <= i < |l.items| ==> r.items[i] == l.items[i]
    {
      r := r.(items := r.items[counter := visit(r.items[counter])]);
      counter := counter + 1;
    }
  }

  /** The block `{ |item| item.done! }`. */
  function Finish(t: Todo): Todo
  {
    t.MarkDone()
  }

  /** The block `{ |item| item.undone! }`. */
  function Reopen(t: Todo): Todo
  {
    t.MarkUndone()
  }

  /** `mark_all_done`: every item done, nothing else changed. */
  method MarkAllDone(l: TodoList) returns (r: TodoList)
    ensures r.title == l.title && |r.items| == |l.items|
    ensures forall i :: 0 <= i < |l.items| ==>
              r.items[i].title == l.items[i].title && r.items[i].description == l.items[i].description
    ensures IsDone(r)
  {
    r := Each(l, Finish);
  }

  /** `mark_all_undone`: no item done, nothing else changed. */
  method MarkAllUndone(l: TodoList) returns (r: TodoList)
    ensures r.title == l.title && |r.items| == |l.items|
    ensures forall i :: 0 <= i < |l.items| ==>
              r.items[i].title == l.items[i].title && r.items[i].description == l.items[i].description
    ensures forall i :: 0 <= i < |r.items| ==> !r.items[i].done
    ensures |l.items| > 0 ==> !IsDone(r)
  {
    r := Each(l, Reopen);
  }

  /** The item lines of `to_s`, one per item, in order. */
  function Lines(items: seq<Todo>): (lines: seq<string>)
    ensures |lines| == |items|
    ensures forall i :: 0 <= i < |items| ==> lines[i] == items[i].ToString()
  {
    seq(|items|, i requires 0 <= i < |items| => items[i].ToString())
  }

  /** `to_s`: the header line, then the item lines joined with newlines. */
  function Render(l: TodoList): (s: string)
    ensures |s| >= |Header| && s[..|Header|] == Header
    ensures |l.items| == 0 ==> s == Header
  {
    Header + Seqs.Join(Lines(l.items), "\n")
  }

  /** One more item gives one more line, at the end. */
  lemma LinesSnoc(items: seq<Todo>, t: Todo)
    ensures Lines(items + [t]) == Lines(items) + [t.ToString()]
  {
    var a := Lines(items + [t]);
    var b := Lines(items) + [t.ToString()];
    assert |a| == |b|;
    forall i | 0 <= i < |a|
      ensures a[i] == b[i]
    {
      if i < |items| {
        assert (items + [t])[i] == items[i];
      }
    }
  }

  /** Adding an item adds its line at the end of the rendering, after a
      newline unless it is the first. */
  lemma RenderAdd(l: TodoList, t: Todo)
    ensures Render(Add(l, TodoItem(t)).value)
            == Render(l) + (if |l.items| == 0 then "" else "\n") + t.ToString()
  {
    var l' := Add(l, TodoItem(t)).value;
    assert l'.items == l.items + [t];
    LinesSnoc(l.items, t);
    Seqs.JoinSnoc(Lines(l.items), t.ToString(), "\n");
    assert Render(l') == Header + Seqs.Join(Lines(l.items) + [t.ToString()], "\n");
  }

  /** `shift`: removes and returns the first item; nil on an empty list. */
  function Shift(l: TodoList): (r: (Option<Todo>, TodoList))
    ensures r.0.None? <==> |l.items| == 0
    ensures r.0.None? ==> r.1 == l
    ensures r.0.Some? ==> [r.0.value] + r.1.items == l.items
    ensures r.1.title == l.title
  {
    if |l.items| == 0 then (None, l)
    else (Some(l.items[0]), l.(items := l.items[1..]))
  }

  /** `pop`: removes and returns the last item; nil on an empty list. */
  function Pop(l: TodoList): (r: (Option<Todo>, TodoList))
    ensures r.0.None? <==> |l.items| == 0
    ensures r.0.None? ==> r.1 == l
    ensures r.0.Some? ==> r.1.items + [r.0.value] == l.items
    ensures r.1.title == l.title
  {
    if |l.items| == 0 then (None, l)
    else (Some(l.items[|l.items| - 1]), l.(items := l.items[..|l.items| - 1]))
  }

  /** `pop` undoes `<<`; `shift` sees an appended item only on an empty list. */
  lemma AddThenPopOrShift(l: TodoList, t: Todo)
    ensures Pop(Add(l, TodoItem(t)).value) == (Some(t), l)
    ensures |l.items| == 0 ==> Shift(Add(l, TodoItem(t)).value) == (Some(t), l)
    ensures |l.items| > 0 ==> Shift(Add(l, TodoItem(t)).value).0 == Shift(l).0
  {
    var l' := Add(l, TodoItem(t)).value;
    assert l'.items[..|l'.items| - 1] == l.items;
    if |l.items| == 0 {
      assert l'.items[1..] == [];
    }
  }

  /** `select`: a new list titled 'Selected Todos' holding the items the
      block accepts, in their original order. */
  function Select(l: TodoList, p: Todo -> bool): (r: TodoList)
    ensures r.title == SelectedTitle
    ensures |r.items| <= |l.items|
    ensures forall i :: 0 <= i < |r.items| ==> r.items[i] in l.items && p(r.items[i])
    ensures forall i :: 0 <= i < |l.items| && p(l.items[i]) ==> l.items[i] in r.items
  {
    TodoList(SelectedTitle, Seqs.Filter(l.items, p))
  }

  /** A selection keeps every copy of an accepted item and no copy of a
      rejected one, and selecting from two lists joined selects from each. */
  lemma SelectExactly(l: TodoList, p: Todo -> bool, t: Todo, extra: seq<Todo>)
    ensures multiset(Select(l, p).items)[t] == if p(t) then multiset(l.items)[t] else 0
    ensures Select(l.(items := l.items + extra), p).items
            == Select(l, p).items + Select(TodoList(l.title, extra), p).items
  {
    Seqs.FilterCount(l.items, p, t);
    Seqs.FilterAppend(l.items, extra, p);
  }

  /** `all_done`: `select` with `done?`. */
  function AllDone(l: TodoList): (r: TodoList)
    ensures r.title == SelectedTitle
    ensures forall i :: 0 <= i < |r.items| ==> r.items[i] in l.items && r.items[i].done
    ensures forall i :: 0 <= i < |l.items| && l.items[i].done ==> l.items[i] in r.items
  {
    Select(l, Finished)
  }

  /** `all_not_done`: `select` with `!done?`. */
  function AllNotDone(l: TodoList): (r: TodoList)
    ensures r.title == SelectedTitle
    ensures forall i :: 0 <= i < |r.items| ==> r.items[i] in l.items && !r.items[i].done
    ensures forall i :: 0 <= i < |l.items| && !l.items[i].done ==> l.items[i] in r.items
  {
    Select(l, Unfinished)
  }

  /** The done and the not-done selections partition the items. */
  lemma DonePartition(l: TodoList)
    ensures |AllDone(l).items| + |AllNotDone(l).items| == |l.items|
    ensures multiset(AllDone(l).items) + multiset(AllNotDone(l).items) == multiset(l.items)
  {
    Seqs.FilterPartition(l.items, Finished, Unfinished);
  }

  /** `done?` holds exactly when `all_not_done` selects nothing. */
  lemma DoneIffNothingPending(l: TodoList)
    ensures IsDone(l) <==> |AllNotDone(l).items| == 0
  {
    if !IsDone(l) {
      var i :| 0 <= i < |l.items| && !l.items[i].done;
      assert l.items[i] in AllNotDone(l).items;
    } else {
      Seqs.FilterNone(l.items, Unfinished);
    }
  }

  /** The slot of the first item titled `title`, if any. */
  function FirstWithTitle(s: seq<Todo>, title: string): (r: Option<nat>)
    ensures r.None? <==> forall j :: 0 <= j < |s| ==> s[j].title != title
    ensures r.Some? ==> r.value < |s| && s[r.value].title == title
    ensures r.Some? ==> forall j :: 0 <= j < r.value ==> s[j].title != title
  {
    if |s| == 0 then None
    else if s[0].title == title then Some(0)
    else match FirstWithTitle(s[1..], title)
      case None => None
      case Some(k) => Some(k + 1)
  }

  /** `find_by_title`: the first item with that title; with no match the
      `each` loop runs out and its receiver, the item array, is returned. */
  function FindByTitle(l: TodoList, title: string): (r: Found)
    ensures r.Receiver? <==> forall j :: 0 <= j < |l.items| ==> l.items[j].title != title
    ensures r.Receiver? ==> r.all == l.items
    ensures r.Match? ==> r.todo.title == title
    ensures r.Match? ==> exists i :: 0 <= i < |l.items| && l.items[i] == r.todo &&
                                   forall j :: 0 <= j < i ==> l.items[j].title != title
  {
    match FirstWithTitle(l.items, title)
    case None => Receiver(l.items)
    case Some(i) => Match(l.items[i])
  }

  /** `mark_done`: the `&&` guard never stops, since an Array is truthy, so
      `done!` goes to the first match, or to the Array and raises. */
  function MarkDoneByTitle(l: TodoList, title: string): (r: Result<TodoList, Error>)
    ensures r.Err? <==> forall j :: 0 <= j < |l.items| ==> l.items[j].title != title
    ensures r.Err? ==> r.error == NoMethodError
    ensures r.Ok? ==> r.value.title == l.title && |r.value.items| == |l.items|
    ensures r.Ok? ==> exists i :: 0 <= i < |l.items| && l.items[i].title == title &&
                        (forall j :: 0 <= j < i ==> l.items[j].title != title) &&
                        r.value.items[i] == l.items[i].MarkDone() &&
                        (forall j :: 0 <= j < |l.items| && j != i ==> r.value.items[j] == l.items[j])
  {
    match FirstWithTitle(l.items, title)
    case None => Err(NoMethodError)
    case Some(i) => Ok(l.(items := l.items[i := l.items[i].MarkDone()]))
  }
}
