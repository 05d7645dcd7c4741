# Todo list and type-seeded reduce, modelled in Dafny

This project models two small Ruby exercises.

1. **The todo list** (`todo_list.rb`). A `Todo` holds a title, a description and a done flag. A `TodoList` is a title plus an ordered array of todos. The list supports:
   - appending, with a type check;
   - lookup, marking and removal by index (negative indices count from the end);
   - marking all items done or undone;
   - `shift` and `pop`;
   - selection by a block, with `all_done` and `all_not_done` as special cases;
   - lookup and marking by title;
   - rendering as text.
2. **`reduce`** (`reduce_method_extra.rb`). A left fold whose starting accumulator depends on the class of the first element: `''` for a String, `0` for an Integer, `[]` for an Array, and `nil` otherwise, including for an empty array.

Everything is a value. A `Todo` is a datatype and a list is `TodoList(title, items: seq<Todo>)`. Each operation takes the old list and returns the new list together with its result. An operation that raises in Ruby returns `Err(TypeError)`, `Err(IndexError)` or `Err(NoMethodError)` here. A Ruby `nil` result is `None`.

Files:
- `results.dfy`: `Option` and `Result`.
- `seqs.dfy`: filtering (`select`, `Array#delete`), `all?` and `join`, with their lemmas.
- `todo.dfy`: the `Todo` record.
- `todo_list.dfy`: the `TodoList` operations.
- `todo_list_examples.dfy`: the demonstration list worked through.
- `todo_list_fixes.dfy`: the two findings below.
- `reduce.dfy`: the seeded fold.

Four behaviours of the code are easy to misread. The model follows the code:
- `find_by_title` with no match returns the receiver of `each`, which is the whole item array, not nil (todo_list.rb:138-142).
- As a result, `mark_done` with an unknown title sends `done!` to that array and raises NoMethodError. The `&&` guard never stops it, because an array is truthy (todo_list.rb:152-154).
- `remove_at` hands the fetched item to `Array#delete`, which removes every item `==` to it, not just the indexed slot (todo_list.rb:81-83). The usage note at todo_list.rb:286 describes removing one item.
- The header of `to_s` is always `---- Today's Todos ----`, whatever title the list has (todo_list.rb:104).

## Model

| member | source | states |
|---|---|---|
| Todos.NewTodo | todo_list.rb:10-14 | A new item has the given title, a description that defaults to empty, and is not done |
| Todos.Todo.MarkDone | todo_list.rb:16-18 | `done!` sets the flag and leaves the title and description alone |
| Todos.Todo.MarkUndone | todo_list.rb:24-26 | `undone!` clears the flag and leaves the title and description alone |
| Todos.Todo.ToString | todo_list.rb:28-30 | The rendering is four characters longer than the title: `[X] ` when done, `[ ] ` otherwise, then the title |
| Todos.Todo.Equals | todo_list.rb:32-36 | `==` holds exactly when title, description and done flag all agree |
| Todos.ParseRendered | todo_list.rb:28-30 | A rendered item line can be read back to the item's done flag and title |
| Todos.MarkRoundTrip | todo_list.rb:16-26 | Marking is idempotent, each mark overrides the other, and undoing a fresh mark restores a not-done item |
| TodoLists.NewList | todo_list.rb:46-49 | A new list has the given title and no items |
| TodoLists.Add | todo_list.rb:51-55 | It fails exactly when the argument is not a Todo, and the failure is TypeError. A Todo is always appended at the end: size grows by one, the earlier items are unchanged, and the title is kept |
| TodoLists.ResolveIndex | todo_list.rb:77-79 | An index is accepted exactly when it lies in -size..size-1. A non-negative index names its own slot; a negative one names slot size+index |
| TodoLists.Lookup | todo_list.rb:86 | `todos[index]` is nil exactly when the index is outside -size..size-1, and otherwise gives the resolved slot |
| TodoLists.ItemAt | todo_list.rb:77-79 | `fetch` raises IndexError exactly when the index is outside -size..size-1, and otherwise returns the item at the resolved slot |
| TodoLists.ToArray | todo_list.rb:69-71 | `to_a` has one entry per item, and each entry is what `item_at` returns for that index |
| TodoLists.IsDone | todo_list.rb:73-75 | `done?` holds exactly when every item is done, so it holds on an empty list |
| TodoLists.DeleteAll | todo_list.rb:82 | `Array#delete(x)` leaves no copy of `x`, keeps every other element, and adds nothing |
| TodoLists.DeleteAllCount | todo_list.rb:81-83 | Deleting `x` shortens the array by the number of copies of `x`; every other value keeps its multiplicity |
| TodoLists.DeleteAllAppend | todo_list.rb:81-83 | Deleting from a concatenation deletes from each part, so the survivors keep their relative order |
| TodoLists.RemoveAt | todo_list.rb:81-83 | Out of range raises IndexError. Otherwise it returns the `item_at` item, and the remaining items are exactly `Array#delete` of that item, so `DeleteAllCount` and `DeleteAllAppend` apply: every copy goes, the list shrinks by their number, and the other items keep their multiplicity and order |
| TodoLists.MarkDoneAt | todo_list.rb:85-91 | Raises IndexError exactly when `todos[index]` is nil. Otherwise the resolved slot becomes done, keeps its title and description, and every other slot, the size and the list title are unchanged |
| TodoLists.MarkUndoneAt | todo_list.rb:93-95 | Raises IndexError exactly when `fetch` fails. Otherwise the resolved slot becomes not done and nothing else changes |
| TodoLists.MarkAtThenItemAt | todo_list.rb:77-95 | After marking a valid index done or undone, `item_at` of that index returns the old item with the new flag |
| TodoLists.DoneAll | todo_list.rb:97-101 | Running `mark_done_at` over every index makes each item its marked-done self, so the list is done, with size and title unchanged |
| TodoLists.Each | todo_list.rb:117-126 | Every slot is replaced by the block's update of the item that was there, and the size and title are kept. The slot-by-slot order of the source's counter loop is in the method body; with a pure block it is not observable, so the contract does not state it |
| TodoLists.MarkAllDone | todo_list.rb:156-158 | Afterwards `done?` holds. Titles, descriptions, size and list title are unchanged |
| TodoLists.MarkAllUndone | todo_list.rb:160-162 | Afterwards no item is done, and a non-empty list is not `done?`. Titles, descriptions, size and list title are unchanged |
| TodoLists.Lines | todo_list.rb:105 | One rendered line per item, in item order |
| TodoLists.Render | todo_list.rb:103-107 | The text starts with the header line. An empty list renders as the header line alone |
| TodoLists.RenderAdd | todo_list.rb:103-107 | Appending an item appends its line to the rendering, preceded by a newline unless the list was empty |
| TodoLists.Shift | todo_list.rb:109-111 | An empty list gives nil and does not change. Otherwise the returned item followed by the remaining items is the old array |
| TodoLists.Pop | todo_list.rb:113-115 | An empty list gives nil and does not change. Otherwise the remaining items followed by the returned item are the old array |
| TodoLists.AddThenPopOrShift | todo_list.rb:109-115 | `pop` exactly undoes `<<`. `shift` returns an appended item only when the list was empty, and otherwise the same first item as before |
| TodoLists.Select | todo_list.rb:128-136 | A new list titled 'Selected Todos'. Every item in it is from the list and satisfies the block, and every item of the list that satisfies the block is in it |
| TodoLists.SelectExactly | todo_list.rb:128-136 | An accepted item keeps all its copies and a rejected one keeps none. Selection distributes over concatenation, so the original order is kept |
| TodoLists.AllDone | todo_list.rb:144-146 | Selects exactly the done items, under the 'Selected Todos' title |
| TodoLists.AllNotDone | todo_list.rb:148-150 | Selects exactly the not-done items, under the 'Selected Todos' title |
| TodoLists.DonePartition | todo_list.rb:144-150 | The sizes of `all_done` and `all_not_done` sum to the list's size, and together their items are the list's items, as a multiset |
| TodoLists.DoneIffNothingPending | todo_list.rb:73-75 | `done?` holds exactly when `all_not_done` is empty |
| TodoLists.FirstWithTitle | todo_list.rb:138-142 | Finds the first slot with the title, or reports that no slot has it |
| TodoLists.FindByTitle | todo_list.rb:138-142 | Returns the first item with the title. When no item has it, returns the whole item array |
| TodoLists.MarkDoneByTitle | todo_list.rb:152-154 | With no match, raises NoMethodError. Otherwise marks only the first match done, and every other slot, the size and the title are unchanged |
| TodoListExamples.FindByTitleExample | todo_list.rb:138-142 | In the three-item demonstration list, "Go to gym" finds the third item and "missing" returns the array |
| TodoListExamples.MarkExample | todo_list.rb:152-154 | Marking "Clean room" by title in the demonstration list marks only the second item |
| TodoListExamples.RenderExample | todo_list.rb:103-107 | After that marking, the list renders as the header line and then `[ ] Buy milk`, `[X] Clean room`, `[ ] Go to gym`, one per line |
| TodoListFixes.RemoveAtDropsDuplicates | todo_list.rb:81-83 | On a list of two equal items, `remove_at(0)` leaves the list empty |
| TodoListFixes.RemoveSlotAt | todo_list.rb:81-83 | Intended `remove_at`: same IndexError range and same returned item, but the size drops by exactly one, and the remaining items plus the removed one are the old items, as a multiset |
| TodoListFixes.RemoveSlotAtRoundTrip | todo_list.rb:81-83 | Putting the removed item back into its slot restores the old array |
| TodoListFixes.MarkDoneUnknownTitleRaises | todo_list.rb:152-154 | `mark_done` with a title no item has raises NoMethodError, also on an empty list |
| TodoListFixes.FindByTitleOrNil | todo_list.rb:138-142 | Intended `find_by_title`: nil exactly when no title matches, and otherwise the first match |
| TodoListFixes.MarkDoneByTitleFixed | todo_list.rb:152-154 | Intended `mark_done`: with no match the list is unchanged. Otherwise only the first match is marked done |
| Reduce.First | reduce_method_extra.rb:5 | `arr[0]` is the first element, or nil on an empty array |
| Reduce.Seed | reduce_method_extra.rb:2-8 | The seed is `''` for a String first element, `0` for an Integer and `[]` for an Array. It is nil exactly when the array is empty or the first element is of any other class |
| Reduce.SeedOnlyFromFirstClass | reduce_method_extra.rb:4-8 | Two non-empty arrays whose first elements have the same class get the same seed |
| Reduce.SeedIgnoresLater | reduce_method_extra.rb:4-8 | Appending elements never changes the seed of a non-empty array |
| Reduce.FoldLeftSnoc | reduce_method_extra.rb:10-14 | Folding one more element applies the block once more, to the previous total and that element |
| Reduce.Reduce | reduce_method_extra.rb:1-15 | The result is the block folded left to right from the seed. The block is called once per element, in order: first with the seed, then each time with the previous call's result. On an empty array it is never called and the result is nil |

## Left out

- `size`, `first` and `last` (todo_list.rb:57-67) are not modelled. They print with `p` and `puts`, so `first` and `last` return nil. The pure value `size` returns is the length of `items`.
- Object identity and aliasing are not modelled: a `Todo` added twice, mutation through references returned by `item_at`, `find_by_title` or `to_a`, and direct `attr_accessor` writes. The model works with values, so a list's items change only through its own operations.
- `Todo#done?` and `TodoList#title` are plain field reads (`t.done`, `l.title`).
- Add: the model returns the updated list. Ruby's `<<` returns the internal array (todo_list.rb:53). A chained `list << t << 5`, or `<<` on the array that `to_a` or an unmatched `find_by_title` returns, therefore goes to `Array#<<` and bypasses the type check; in the first case 5 enters the list with no TypeError. The model has no such path, so its guarantee that every item is a Todo holds only together with the aliasing exclusion above.
- The return values of `mark_done_at`, `mark_undone_at` and `mark_done` (`true` or `false`), of `done!` (the array) and of `mark_all_done`/`mark_all_undone` (the list) are not modelled. Each operation returns the updated list instead.
- Indices are integers. Other index types are not modelled. `fetch` (used by `item_at`, `remove_at` and `mark_undone_at`) truncates a Float, converts an object that answers `to_int`, and raises TypeError for anything else. `mark_done_at` indexes with `[]` (todo_list.rb:86-87), which slices for a Range: an in-range Range gives a truthy sub-array whose `done!` raises NoMethodError, and an out-of-range Range gives nil and so IndexError.
- TodoLists.ItemAt, TodoLists.Lookup, TodoLists.RemoveAt, TodoLists.MarkDoneAt and TodoLists.MarkUndoneAt assume the index fits in a 64-bit C `long`. Ruby converts the index with `NUM2LONG`, so an Integer outside -2^63..2^63-1 (for example `item_at(2**64)`) raises RangeError, where the model gives IndexError. The model's integers are unbounded, and this conversion belongs to Ruby's runtime, not to todo_list.rb.
- Each: the block is a pure update `Todo -> Todo`. A block that changes the list itself, raises, or breaks out is not modelled.
- Select: the model applies the predicate directly. The source re-adds each kept item through `<<`, whose type check cannot fail there because, in the model, every item is a Todo (see the Add line above).
- Reduce: the block is a total function on a closed `Value` type (`Str | Int | Arr | Nil | Other`). A block that raises, for example `nil + x`, is not modelled. Neither is Ruby's open class system beyond these five cases.
- The demonstration scripts (todo_list.rb:170-305, reduce_method_extra.rb:17-20) only sequence calls and print. They are not modelled; only their three-item list appears, in `TodoListExamples`.

## Findings

| source | as written | input that shows it | evidently intended | confidence | as-written member | corrected member |
|---|---|---|---|---|---|---|
| todo_list.rb:81-83 | `remove_at` passes the fetched item to `Array#delete`, which removes every item `==` to it | a list of two equal items, `remove_at(0)`: both go | remove only the indexed slot, as the usage note at todo_list.rb:286 describes ("removes and returns the 2nd item") | medium, not executed | TodoListFixes.RemoveAtDropsDuplicates | TodoListFixes.RemoveSlotAt |
| todo_list.rb:138-154 | with no match, `find_by_title` returns the array that `each` returns. That array is truthy, so `mark_done` sends `done!` to it and raises NoMethodError | `mark_done("missing")` on any list, the empty list included | `find_by_title` returns nil, so the `&&` guard in `mark_done` makes an unknown title a no-op | high, not executed | TodoListFixes.MarkDoneUnknownTitleRaises | TodoListFixes.MarkDoneByTitleFixed |
