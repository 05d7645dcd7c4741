/** The sample output in the usage notes of todo_list.rb (lines 301-304),
    worked through the model: three items, "Clean room" marked done by
    title, then rendered. */
module TodoListExamples {
  import opened Results
  import opened Todos
  import opened TodoLists
  import Seqs

  /** The demonstration list of three fresh items. */
  function ExampleList(): TodoList
  {
    TodoList("Today's Todos", [NewTodo("Buy milk"), NewTodo("Clean room"), NewTodo("Go to gym")])
  }

  /** Looking titles up in the demonstration list: a hit and a miss. */
  lemma FindByTitleExample()
    ensures FindByTitle(ExampleList(), "Go to gym") == Match(NewTodo("Go to gym"))
    ensures FindByTitle(ExampleList(), "missing") == Receiver(ExampleList().items)
  {
    var s := ExampleList().items;
    assert s[0].title != "Go to gym" && s[1].title != "Go to gym";
    assert FirstWithTitle(s, "Go to gym") == Some(2);
  }

  /** Marking "Clean room" done by title marks the second item only. */
  lemma MarkExample()
    ensures MarkDoneByTitle(ExampleList(), "Clean room")
            == Ok(MarkedExampleList())
  {
    var l := ExampleList();
    assert l.items[0].title != "Clean room";
    assert FirstWithTitle(l.items, "Clean room") == Some(1);
    assert l.items[1 := l.items[1].MarkDone()]
           == [NewTodo("Buy milk"), Todo("Clean room", "", true), NewTodo("Go to gym")];
  }

  /** The item lines of the marked demonstration list. */
  lemma ExampleLines()
    ensures Lines(MarkedExampleList().items)
            == ["[ ] Buy milk", "[X] Clean room", "[ ] Go to gym"]
  {
    var items := MarkedExampleList().items;
    LineExample(items[0], "Buy milk", false);
    LineExample(items[1], "Clean room", true);
    LineExample(items[2], "Go to gym", false);
    assert "[ ] " + "Buy milk" == "[ ] Buy milk";
    assert "[X] " + "Clean room" == "[X] Clean room";
    assert "[ ] " + "Go to gym" == "[ ] Go to gym";
    var lines := Lines(items);
    assert lines[0] == "[ ] Buy milk";
    assert lines[1] == "[X] Clean room";
    assert lines[2] == "[ ] Go to gym";
  }

  /** The demonstration list after "Clean room" is marked done. */
  function MarkedExampleList(): TodoList
  {
    TodoList("Today's Todos", [NewTodo("Buy milk"), Todo("Clean room", "", true), NewTodo("Go to gym")])
  }

  /** The joined item lines of the marked demonstration list. */
  lemma ExampleJoin()
    ensures Seqs.Join(["[ ] Buy milk", "[X] Clean room", "[ ] Go to gym"], "\n")
            == "[ ] Buy milk\n[X] Clean room\n[ ] Go to gym"
  {
    var lines: seq<string> := ["[ ] Buy milk", "[X] Clean room", "[ ] Go to gym"];
    assert lines[1..] == ["[X] Clean room", "[ ] Go to gym"];
    assert lines[1..][1..] == ["[ ] Go to gym"];
  }

  /** The rendering of the marked demonstration list: the header line, then
      one line per item. */
  lemma RenderMarkedExample()
    ensures Render(MarkedExampleList())
            == Header + "[ ] Buy milk\n[X] Clean room\n[ ] Go to gym"
  {
    ExampleLines();
    ExampleJoin();
  }

  /** Marking "Clean room" done by title in the demonstration list, then
      rendering it. */
  lemma RenderExample()
    ensures MarkDoneByTitle(ExampleList(), "Clean room").Ok?
    ensures Render(MarkDoneByTitle(ExampleList(), "Clean room").value)
            == Header + "[ ] Buy milk\n[X] Clean room\n[ ] Go to gym"
  {
    MarkExample();
    RenderMarkedExample();
  }

  /** One rendered line, spelled out. */
  lemma LineExample(t: Todo, title: string, done: bool)
    requires t.title == title && t.done == done
    ensures t.ToString() == (if done then "[X] " else "[ ] ") + title
  {
    var s := t.ToString();
    assert s == s[..4] + s[4..];
  }
}
