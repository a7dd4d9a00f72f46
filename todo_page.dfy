/**
 The "Add Todo" button of the todo page. Its handler reads two pieces of
 state, the provider's list and the page's text field, and writes both; the
 model takes them in as a value and returns the value they hold afterwards.
 */
module TodoPage {
  import opened JsString
  import opened TodoStore

  /** The list held by the provider and the current content of the input. */
  datatype TodoListView = TodoListView(todos: seq<Todo>, newTodo: string)

  /** The page right after mounting: empty list, empty input. */
  const InitialView := TodoListView(InitialTodos, "")

  /** `handleAddTodo`, with `id` standing for the clock reading the provider
      uses. A blank input changes nothing (not even the input itself);
      otherwise the trimmed input is appended and the input is cleared. */
  function HandleAddTodo(view: TodoListView, id: int): (r: TodoListView)
    ensures IsBlank(view.newTodo) ==> r == view
    ensures !IsBlank(view.newTodo) ==>
              && |r.todos| == |view.todos| + 1
              && r.todos[..|view.todos|] == view.todos
              && r.todos[|view.todos|] == Todo(id, Trim(view.newTodo), false)
              && r.todos[|view.todos|].text != []
              && IsTrimmed(r.todos[|view.todos|].text)
              && r.newTodo == []
  {
    var text := Trim(view.newTodo);
    if text != [] then TodoListView(AddTodo(view.todos, id, text), "") else view
  }

  /** Every entry's text is non-empty and has no surrounding white space. */
  predicate TextsTrimmed(todos: seq<Todo>) {
    forall i :: 0 <= i < |todos| ==> todos[i].text != [] && IsTrimmed(todos[i].text)
  }

  /** Entries added through the page keep every text non-empty and trimmed. */
  lemma HandleAddTodoKeepsTexts(view: TodoListView, id: int)
    requires TextsTrimmed(view.todos)
    ensures TextsTrimmed(HandleAddTodo(view, id).todos)
  {
  }

  /** Toggling never touches a text, so it keeps the invariant too. */
  lemma ToggleKeepsTexts(todos: seq<Todo>, id: int)
    requires TextsTrimmed(todos)
    ensures TextsTrimmed(ToggleTodo(todos, id))
  {
  }

  /** Adding from the page adds one to the total and leaves the completed
      count unchanged; a blank input leaves both as they were. */
  lemma HandleAddTodoCounts(view: TodoListView, id: int)
    ensures var r := HandleAddTodo(view, id);
      && |r.todos| == |view.todos| + (if IsBlank(view.newTodo) then 0 else 1)
      && CompletedCount(r.todos) == CompletedCount(view.todos)
  {
    if !IsBlank(view.newTodo) {
      AddTodoCounts(view.todos, id, Trim(view.newTodo));
    }
  }

  /** Pressing the button twice: the second press finds the input cleared and
      adds nothing, so at most one entry results. */
  lemma HandleAddTodoTwice(view: TodoListView, id1: int, id2: int)
    ensures HandleAddTodo(HandleAddTodo(view, id1), id2) == HandleAddTodo(view, id1)
  {
  }

  /** Two entries added from the page, then the first toggled: the home page
      shows one completed out of two, whatever the two ids are. */
  lemma AddTwoToggleFirst(id1: int, id2: int)
    requires id1 != id2
    ensures var v1 := HandleAddTodo(InitialView.(newTodo := "Write report"), id1);
      var v2 := HandleAddTodo(v1.(newTodo := "Review budget"), id2);
      var todos := ToggleTodo(v2.todos, id1);
      && |todos| == 2 && CompletedCount(todos) == 1
      && todos[0].text == "Write report" && todos[1].text == "Review budget"
  {
    var a, b := "Write report", "Review budget";
    assert a[0] == 'W' && !IsSpace(a[|a| - 1]);
    assert b[0] == 'R' && !IsSpace(b[|b| - 1]);
    TrimmedIsFixed(a);
    TrimmedIsFixed(b);
    var v1 := HandleAddTodo(InitialView.(newTodo := a), id1);
    assert v1.todos == [Todo(id1, a, false)];
    var v2 := HandleAddTodo(v1.(newTodo := b), id2);
    assert v2.todos == [Todo(id1, a, false), Todo(id2, b, false)];
    var todos := ToggleTodo(v2.todos, id1);
    assert todos == [Todo(id1, a, true)] + [Todo(id2, b, false)];
    CompletedCountAppend([Todo(id1, a, true)], [Todo(id2, b, false)]);
  }

  /** The same two entries added under one id (two clock readings that
      coincide), then that id toggled: both entries flip, so the home page
      shows two completed out of two. */
  lemma AddTwoSameIdToggleBoth(id: int)
    ensures var v1 := HandleAddTodo(InitialView.(newTodo := "Write report"), id);
      var v2 := HandleAddTodo(v1.(newTodo := "Review budget"), id);
      var todos := ToggleTodo(v2.todos, id);
      && |todos| == 2 && CompletedCount(todos) == 2
      && todos[0].text == "Write report" && todos[1].text == "Review budget"
  {
    var a, b := "Write report", "Review budget";
    assert a[0] == 'W' && !IsSpace(a[|a| - 1]);
    assert b[0] == 'R' && !IsSpace(b[|b| - 1]);
    TrimmedIsFixed(a);
    TrimmedIsFixed(b);
    var v1 := HandleAddTodo(InitialView.(newTodo := a), id);
    assert v1.todos == [Todo(id, a, false)];
    var v2 := HandleAddTodo(v1.(newTodo := b), id);
    assert v2.todos == [Todo(id, a, false), Todo(id, b, false)];
    var todos := ToggleTodo(v2.todos, id);
    assert todos == [Todo(id, a, true)] + [Todo(id, b, true)];
    CompletedCountAppend([Todo(id, a, true)], [Todo(id, b, true)]);
  }
}
