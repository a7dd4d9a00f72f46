# Todo list store

A model of the list logic inside the todo page of `src/main.tsx`. The page
keeps an array of `Todo` records (`id`, `text`, `completed`) in a provider
component. The provider offers two updates: `addTodo` appends a new entry that
is not completed, and `toggleTodo` flips `completed` on the entries with a
given id. The list page's "Add Todo" handler trims the text field, ignores
blank input, and otherwise adds the trimmed text and clears the field. The
home page shows how many entries are completed out of the total.

Every operation here is a pure function on values. The list is a
`seq<Todo>`, and the handler works on a `TodoListView` that pairs the
provider's list with the text field. Ids are numbers the caller passes in, and
no uniqueness of ids is assumed anywhere: every toggle property is stated for
every entry whose id matches.

Files:

- `js_string.dfy` (module `JsString`): JavaScript's `String.prototype.trim`,
  which strips ECMAScript WhiteSpace and LineTerminator code points, and
  blankness.
- `todo_store.dfy` (module `TodoStore`): `Todo`, `addTodo`, `toggleTodo`, the
  completed filter and its count.
- `todo_page.dfy` (module `TodoPage`): `handleAddTodo` as a function from
  (list, input) to (list, input), and the invariants it keeps.

## Model

| member | source | states |
|---|---|---|
| `TodoStore.AddTodo` | src/main.tsx:82-84 | the result has one more entry; the old entries come first, unchanged and in order; the last entry has the given id and text and is not completed |
| `TodoStore.ToggleTodo` | src/main.tsx:86-90 | length, order, every id and every text are kept; each entry whose id matches has `completed` negated; every other entry is identical |
| `TodoStore.ToggleInvolution` | src/main.tsx:86-90 | toggling the same id twice returns the original list, with duplicate ids allowed |
| `TodoStore.ToggleAbsentIsIdentity` | src/main.tsx:87-89 | when no entry carries the id, toggling leaves the list as it was |
| `TodoStore.CompletedTodos` | src/main.tsx:107 | an entry appears in the filtered list if and only if it is in the list and completed; the filtered list is no longer than the list |
| `TodoStore.CompletedTodosMultiset` | src/main.tsx:107 | the filter keeps each completed entry as many times as it occurs in the list, duplicates included, and keeps no entry that is not completed |
| `TodoStore.CompletedTodosAppend` | src/main.tsx:107 | the filter keeps the list's order: filtering a concatenation gives the concatenation of the filtered parts |
| `TodoStore.CompletedCount` | src/main.tsx:107 | the completed count is between 0 and the total |
| `TodoStore.CompletedCountIsIndices` | src/main.tsx:107-115 | the count the home page shows equals the number of positions in the list that hold a completed entry |
| `TodoStore.CompletedCountAppend` | src/main.tsx:107 | the count of two concatenated lists is the sum of their counts |
| `TodoStore.AllCompletedIff` | src/main.tsx:107 | the count equals the total if and only if every entry is completed |
| `TodoStore.NoneCompletedIff` | src/main.tsx:107 | the count is 0 if and only if no entry is completed |
| `TodoStore.InitialCounts` | src/main.tsx:80 | a new provider shows 0 completed out of 0 |
| `TodoStore.AddTodoCounts` | src/main.tsx:82-84 | `addTodo` raises the total by exactly 1 and leaves the completed count unchanged |
| `TodoStore.CountMatching` | src/main.tsx:87 | the number of entries with a given id and completion is at most the total |
| `TodoStore.ToggleCompletedCount` | src/main.tsx:86-90 | after a toggle, the count loses the matching entries that were completed and gains the matching entries that were not |
| `JsString.TrimStart` | src/main.tsx:29 | drops exactly the leading white space: the result is a suffix of the input, every dropped character is white space, and the result does not start with white space |
| `JsString.TrimEnd` | src/main.tsx:29 | drops exactly the trailing white space: the result is a prefix of the input, every dropped character is white space, and the result does not end with white space |
| `JsString.Trim` | src/main.tsx:29-30 | the result neither starts nor ends with white space, and it is empty if and only if the input is blank, so `if (newTodo.trim())` fails exactly on blank input |
| `JsString.TrimIsInfix` | src/main.tsx:29-30 | the trimmed text is the part of the input between a blank prefix and a blank suffix |
| `JsString.TrimIdempotent` | src/main.tsx:29-30 | trimming twice is the same as trimming once |
| `JsString.TrimmedIsFixed` | src/main.tsx:30 | a string with no surrounding white space is its own trim |
| `TodoPage.HandleAddTodo` | src/main.tsx:28-33 | blank input leaves the list and the input as they were; otherwise exactly one entry is appended, carrying the given id and the non-empty trimmed input, not completed, and the input becomes empty |
| `TodoPage.HandleAddTodoKeepsTexts` | src/main.tsx:28-33 | entries added through the handler keep every text in the list non-empty and trimmed |
| `TodoPage.ToggleKeepsTexts` | src/main.tsx:86-90 | toggling keeps every text in the list non-empty and trimmed |
| `TodoPage.HandleAddTodoCounts` | src/main.tsx:28-33 | the handler raises the total by 1 on non-blank input and by 0 otherwise; the completed count never changes |
| `TodoPage.HandleAddTodoTwice` | src/main.tsx:28-33 | a second press right after the first adds nothing, because the input has been cleared |
| `TodoPage.AddTwoToggleFirst` | src/main.tsx:28-33 | adding "Write report" and "Review budget" with distinct ids, then toggling the first, shows 1 completed out of 2 |
| `TodoPage.AddTwoSameIdToggleBoth` | src/main.tsx:86-90 | adding the same two texts under one id, then toggling that id, flips both entries and shows 2 completed out of 2 |

## Left out

- Rendering, the MUI components, the theme, the app bar and the router
  (src/main.tsx:35-60, 109-142, 144-165) are display and wiring. They have no
  list logic.
- The field's `onChange` binding (src/main.tsx:41) only stores what was typed.
  The model lets the caller put any string in `TodoListView.newTodo`.
- `useTodoContext` throwing outside a provider (src/main.tsx:67-73) depends on
  React's context lookup, not on the list.
- `Date.now()` (src/main.tsx:83) reads the clock. The id is a parameter, and no
  claim about its uniqueness is made.
- `useState` and its setters (src/main.tsx:26, 80) are modelled as a value
  passed in and returned. React's batching of updates and the stale `todos`
  captured by the provider's closures are not modelled: each operation applies
  to the current list.
- `Todo.id` is a JavaScript number (a double). The model uses `int`, so
  fractional ids and `NaN` (for which `===` is false) are not modelled.
- JavaScript strings are sequences of UTF-16 code units. The model uses
  Unicode scalar values. Every white-space character `trim` removes lies in
  the Basic Multilingual Plane, so the two views agree on what is trimmed.
