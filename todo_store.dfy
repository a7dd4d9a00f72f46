/**
 The todo list held by the page's provider: the `Todo` record, the two
 transformations the provider exposes (append a new entry, toggle the entries
 with a given id) and the completed count the home page shows. The list is a
 value; each operation returns the list that the provider stores next.
 */
module TodoStore {

  /** One entry of the list. The id is a number the caller supplies; nothing
      makes ids unique, so several entries may share one. */
  datatype Todo = Todo(id: int, text: string, completed: bool)

  /** The list a freshly mounted provider starts with. */
  const InitialTodos: seq<Todo> := []

  /** `addTodo`: the old list followed by exactly one new, not completed,
      entry carrying the given id and text. */
  function AddTodo(todos: seq<Todo>, id: int, text: string): (r: seq<Todo>)
    ensures |r| == |todos| + 1
    ensures r[..|todos|] == todos
    ensures r[|todos|].id == id && r[|todos|].text == text && !r[|todos|].completed
  {
    todos + [Todo(id, text, false)]
  }

  /** The entry as `toggleTodo` leaves it: flipped when its id matches,
      untouched otherwise. */
  function ToggleEntry(todo: Todo, id: int): Todo {
    if todo.id == id then todo.(completed := !todo.completed) else todo
  }

  /** `toggleTodo`: negates `completed` on every entry whose id matches and
      keeps every other entry as it was, in the same order. */
  function ToggleTodo(todos: seq<Todo>, id: int): (r: seq<Todo>)
    ensures |r| == |todos|
    ensures forall i :: 0 <= i < |r| ==>
              r[i].id == todos[i].id && r[i].text == todos[i].text
    ensures forall i :: 0 <= i < |r| && todos[i].id == id ==>
              r[i].completed == !todos[i].completed
    ensures forall i :: 0 <= i < |r| && todos[i].id != id ==> r[i] == todos[i]
  {
    if todos == [] then [] else [ToggleEntry(todos[0], id)] + ToggleTodo(todos[1..], id)
  }

  /** `todos.filter(todo => todo.completed)`: the completed entries and no
      other; `CompletedTodosMultiset` and `CompletedTodosAppend` add that
      each keeps its multiplicity and its place in the order. */
  function CompletedTodos(todos: seq<Todo>): (r: seq<Todo>)
    ensures |r| <= |todos|
    ensures forall t :: t in r <==> t in todos && t.completed
  {
    if todos == [] then []
    else if todos[0].completed then [todos[0]] + CompletedTodos(todos[1..])
    else CompletedTodos(todos[1..])
  }

  /** The filter keeps every completed entry as many times as it occurs in
      the list, duplicates included, and drops every other entry. */
  lemma {:induction false} CompletedTodosMultiset(todos: seq<Todo>)
    ensures forall t :: multiset(CompletedTodos(todos))[t]
              == if t.completed then multiset(todos)[t] else 0
  {
    if todos != [] {
      CompletedTodosMultiset(todos[1..]);
      assert todos == [todos[0]] + todos[1..];
    }
  }

  /** The filter keeps the order of the list: filtering a concatenation is
      the concatenation of the filtered parts. */
  lemma {:induction false} CompletedTodosAppend(a: seq<Todo>, b: seq<Todo>)
    ensures CompletedTodos(a + b) == CompletedTodos(a) + CompletedTodos(b)
  {
    if a != [] {
      assert (a + b)[1..] == a[1..] + b;
      CompletedTodosAppend(a[1..], b);
    } else {
      assert a + b == b;
    }
  }

  /** The number the home page shows as completed. */
  function CompletedCount(todos: seq<Todo>): (n: nat)
    ensures n <= |todos|
  {
    |CompletedTodos(todos)|
  }

  /** The positions of the list that hold a completed entry. */
  ghost function CompletedIndices(todos: seq<Todo>): set<nat> {
    set i: nat | i < |todos| && todos[i].completed
  }

  /** The count of a concatenation is the sum of the counts. */
  lemma {:induction false} CompletedCountAppend(a: seq<Todo>, b: seq<Todo>)
    ensures CompletedCount(a + b) == CompletedCount(a) + CompletedCount(b)
  {
    if a != [] {
      assert (a + b)[1..] == a[1..] + b;
      CompletedCountAppend(a[1..], b);
    } else {
      assert a + b == b;
    }
  }

  /** The count reaches the total exactly when every entry is completed. */
  lemma {:induction false} AllCompletedIff(todos: seq<Todo>)
    ensures CompletedCount(todos) == |todos| <==>
              forall i :: 0 <= i < |todos| ==> todos[i].completed
  {
    if todos != [] {
      AllCompletedIff(todos[1..]);
      assert forall i :: 1 <= i < |todos| ==> todos[i] == todos[1..][i - 1];
    }
  }

  /** The count is zero exactly when no entry is completed. */
  lemma NoneCompletedIff(todos: seq<Todo>)
    ensures CompletedCount(todos) == 0 <==>
              forall i :: 0 <= i < |todos| ==> !todos[i].completed
  {
    if CompletedCount(todos) != 0 {
      var t := CompletedTodos(todos)[0];
      assert t in todos;
    }
  }

  /** The completed count is the number of positions holding a completed
      entry. */
  lemma {:induction false} CompletedCountIsIndices(todos: seq<Todo>)
    ensures CompletedCount(todos) == |CompletedIndices(todos)|
  {
    if todos != [] {
      var n := |todos| - 1;
      var p := todos[..n];
      CompletedCountIsIndices(p);
      assert todos == p + [todos[n]];
      CompletedCountAppend(p, [todos[n]]);
      assert CompletedIndices(todos)
        == CompletedIndices(p) + (if todos[n].completed then {n} else {});
    }
  }

  /** A new provider shows 0 completed out of 0. */
  lemma InitialCounts()
    ensures CompletedCount(InitialTodos) == 0 && |InitialTodos| == 0
  {
  }

  /** `addTodo` adds one to the total and nothing to the completed count. */
  lemma AddTodoCounts(todos: seq<Todo>, id: int, text: string)
    ensures |AddTodo(todos, id, text)| == |todos| + 1
    ensures CompletedCount(AddTodo(todos, id, text)) == CompletedCount(todos)
  {
    CompletedCountAppend(todos, [Todo(id, text, false)]);
  }

  /** Toggling the same id twice gives back the original list. */
  lemma ToggleInvolution(todos: seq<Todo>, id: int)
    ensures ToggleTodo(ToggleTodo(todos, id), id) == todos
  {
  }

  /** Toggling an id that no entry carries changes nothing. */
  lemma ToggleAbsentIsIdentity(todos: seq<Todo>, id: int)
    requires forall i :: 0 <= i < |todos| ==> todos[i].id != id
    ensures ToggleTodo(todos, id) == todos
  {
  }

  /** The number of entries with the given id and the given completion. */
  function CountMatching(todos: seq<Todo>, id: int, completed: bool): (n: nat)
    ensures n <= |todos|
  {
    if todos == [] then 0
    else (if todos[0].id == id && todos[0].completed == completed then 1 else 0)
         + CountMatching(todos[1..], id, completed)
  }

  /** After toggling, the completed count loses the matching entries that were
      completed and gains the matching entries that were not. */
  lemma {:induction false} ToggleCompletedCount(todos: seq<Todo>, id: int)
    ensures CompletedCount(ToggleTodo(todos, id))
              == CompletedCount(todos) - CountMatching(todos, id, true)
                 + CountMatching(todos, id, false)
  {
    if todos != [] {
      var r := ToggleTodo(todos, id);
      assert r == [ToggleEntry(todos[0], id)] + ToggleTodo(todos[1..], id);
      CompletedCountAppend([ToggleEntry(todos[0], id)], ToggleTodo(todos[1..], id));
      CompletedCountAppend([todos[0]], todos[1..]);
      assert [todos[0]] + todos[1..] == todos;
      ToggleCompletedCount(todos[1..], id);
    }
  }
}
