/** A single todo item: a title, a description and a done flag
    (class `Todo` of todo_list.rb). */
module Todos {
  import opened Results

  /** The status markers shown between the brackets of a rendered item. */
  const DoneMarker: char := 'X'
  const UndoneMarker: char := ' '

  datatype Todo = Todo(title: string, description: string, done: bool) {

    /** `done!`: the same item, now done. */
    function MarkDone(): (t: Todo)
      ensures t.done
      ensures t.title == title && t.description == description
    {
      this.(done := true)
    }

    /** `undone!`: the same item, now not done. */
    function MarkUndone(): (t: Todo)
      ensures !t.done
      ensures t.title == title && t.description == description
    {
      this.(done := false)
    }

    /** `to_s`: the status marker in brackets, a space, then the title. */
    function ToString(): (s: string)
      ensures |s| == |title| + 4
      ensures s[..4] == (if done then "[X] " else "[ ] ")
      ensures s[4..] == title
    {
      "[" + [if done then DoneMarker else UndoneMarker] + "] " + title
    }

    /** `==`: field-by-field comparison of title, description and flag. */
    function Equals(other: Todo): (r: bool)
      ensures r <==> this == other
    {
      title == other.title && description == other.description && done == other.done
    }
  }

  /** `Todo.new(title, description = '')`: a fresh item is not done. */
  function NewTodo(title: string, description: string := ""): (t: Todo)
    ensures t.title == title && t.description == description && !t.done
  {
    Todo(title, description, false)
  }

  /** Reads a rendered item line back into its done flag and title. */
  function ParseLine(line: string): Option<(bool, string)>
  {
    if |line| >= 4 && line[0] == '[' && line[2] == ']' && line[3] == ' '
       && (line[1] == DoneMarker || line[1] == UndoneMarker)
    then Some((line[1] == DoneMarker, line[4..]))
    else None
  }

  /** The rendering of an item determines its done flag and its title. */
  lemma ParseRendered(t: Todo)
    ensures ParseLine(t.ToString()) == Some((t.done, t.title))
  {
    var s := t.ToString();
    assert s[..4][1] == s[1];
  }

  /** Marking is idempotent, and each mark undoes the other. */
  lemma MarkRoundTrip(t: Todo)
    ensures t.MarkDone().MarkDone() == t.MarkDone()
    ensures t.MarkUndone().MarkUndone() == t.MarkUndone()
    ensures t.MarkDone().MarkUndone() == t.MarkUndone()
    ensures t.MarkUndone().MarkDone() == t.MarkDone()
    ensures !t.done ==> t.MarkDone().MarkUndone() == t
  {
  }
}
