# Todo list component: a verified model

A model of the state machine inside the React component `Todo`
(`src/components/Todo.jsx`). The component owns four pieces of state: the
ordered list of tasks (`{id, title, status, priority}`), the edit flag, the
snapshot of the task being edited, and the form record
(`{title, status, priority}`). Its handlers replace that state: an input
change updates one form field; a submit either appends a new task (create
mode, refused with the alert "Enter your task name!" when the title is
empty) or rewrites the title of the edited task and resets the form (edit
mode); an edit click loads a task into the form; the check button marks a
task "Complete"; the trash button filters a task out.

Layout:

- `task_list.dfy`, module `TaskList`: the task record and the list
  transformations (append, the edit map, the complete map, the remove
  filter) as functions over `seq<Task>`, with lemmas on ids, order and
  idempotence.
- `form_state.dfy`, module `FormState`: the form record, the field names,
  and the field update.
- `todo.dfy`, module `TodoComponent`: class `Todo` with the four state
  fields and one method per handler, and a client session that calls the
  handlers in sequence.

Quirks of the code that the model keeps:

- A new task's id is the id of the LAST task plus one, or 1 for an empty
  list, not the largest id plus one. The two agree while ids increase along
  the list (`NextIdIsMaxPlusOne`). Deleting the last task makes the next
  create hand out its id again whenever that id was one more than the id
  before it (or was 1, for a single task) (`RemovingLastTaskFreesItsId`). A seed list whose ids do not
  increase can make a new id collide with an existing one (`NextIdCanCollide`).
- The edit click and the complete and delete buttons do not check that the
  task exists. The model puts no precondition on them; an id that matches
  no task leaves the list unchanged.
- Deleting the task under edit keeps the edit in progress. The next submit
  then changes no task, but still leaves edit mode and resets the form.

## Model

| member | source | states |
|---|---|---|
| TaskList.NextId | src/components/Todo.jsx:43-46 | the new id is 1 for an empty list, and exceeds every existing id when ids increase |
| TaskList.NextIdIsMaxPlusOne | src/components/Todo.jsx:43-46 | with increasing ids, "last id + 1" equals "largest id + 1" |
| TaskList.NextIdCanCollide | src/components/Todo.jsx:43-46 | with ids out of order, the new id can equal an id already in the list |
| TaskList.AddTask | src/components/Todo.jsx:41-51 | create appends exactly one task (next id, the title, "pending", "Not Set yet") after the unchanged old tasks, and keeps ids increasing |
| TaskList.AddAllFromEmpty | src/components/Todo.jsx:43-50 | creating N tasks from an empty list numbers them 1..N in creation order |
| TaskList.RenameTasks | src/components/Todo.jsx:30-32 | same length and order; each task with the id gets the new title (empty allowed), nothing else changes; no matching id leaves the list as it was |
| TaskList.RenameEditsOnlyThatTask | src/components/Todo.jsx:30-32 | with unique ids, the edit submit is a single-position update of that task's title |
| TaskList.RenameToOwnTitleIsNoOp | src/components/Todo.jsx:29-40 | with unique ids, submitting an edit without changing the title leaves the list unchanged |
| TaskList.RenameKeepsIdsIncreasing | src/components/Todo.jsx:30-32 | the edit map keeps increasing ids increasing |
| TaskList.CompleteTasks | src/components/Todo.jsx:101-107 | same length and order; each task with the id gets status "Complete", every other field and task is kept; no matching id is a no-op |
| TaskList.CompleteIsIdempotent | src/components/Todo.jsx:101-107 | completing an id twice equals completing it once |
| TaskList.CompleteKeepsIdsIncreasing | src/components/Todo.jsx:101-107 | the complete map keeps increasing ids increasing |
| TaskList.RemoveTasks | src/components/Todo.jsx:115 | no task with the id remains, the list does not grow, and a missing id is a no-op |
| TaskList.RemoveKeepsExactlyTheOthers | src/components/Todo.jsx:115 | a task survives the filter if and only if it was in the list and its id differs |
| TaskList.RemoveKeepsEveryCopy | src/components/Todo.jsx:115 | every copy of a task whose id differs survives the filter, and no copy of a task with the id does (with `RemoveIsSubsequence`, the result is exactly the filtered list in order) |
| TaskList.RemoveIsSubsequence | src/components/Todo.jsx:115 | the survivors keep their original order |
| TaskList.RemoveKeepsIdsIncreasing | src/components/Todo.jsx:115 | the filter keeps increasing ids increasing |
| TaskList.RemoveDistributes | src/components/Todo.jsx:115 | filtering a concatenation is concatenating the filters |
| TaskList.RemoveDropsExactlyOne | src/components/Todo.jsx:115 | with unique ids, removing a present id removes exactly that task, so the length drops by one |
| TaskList.RemovingLastTaskFreesItsId | src/components/Todo.jsx:43-46 | after deleting the last task, the next create can hand out that task's id again |
| FormState.SetField | src/components/Todo.jsx:16-19 | the named field takes the value; the other two fields keep theirs |
| FormState.SetFieldLastWins | src/components/Todo.jsx:18 | a second change to a field overwrites the first |
| FormState.SetFieldCommutes | src/components/Todo.jsx:18 | changes to different fields commute |
| FormState.SetFieldToCurrentIsNoOp | src/components/Todo.jsx:18 | writing a field's current value changes nothing |
| TodoComponent.Todo.constructor | src/components/Todo.jsx:6-13 | mount: the seed list, create mode, no task under edit, form `{'', 'pending', 'Not Set yet'}` |
| TodoComponent.Todo.HandleInputChange | src/components/Todo.jsx:16-19 | only the form changes, by the field update |
| TodoComponent.Todo.Submit | src/components/Todo.jsx:22-56 | edit mode: the title map on the edited id, then create mode and the default form; create mode: append with the form left as it is, or the empty-title alert with nothing changed; increasing ids stay increasing |
| TodoComponent.Todo.HandleEditClick | src/components/Todo.jsx:59-67 | edit mode on the task, its title, status and priority in the form, the list unchanged |
| TodoComponent.Todo.CompleteClick | src/components/Todo.jsx:100-110 | the list becomes its complete map, the rest of the state is kept, increasing ids stay increasing |
| TodoComponent.Todo.RemoveClick | src/components/Todo.jsx:113-117 | the list becomes its filter, the form and any edit in progress are kept, increasing ids stay increasing, and with increasing ids a present id shortens the list by exactly one |

## Left out

- Rendering: the JSX table, the form markup, CSS classes and the icon imports (src/components/Todo.jsx:3, 69-148) are presentation only.
- `e.preventDefault()` and the DOM event objects: handlers take plain values (a field name and value, a task, or a task id).
- `alert(...)` as a blocking dialog: it becomes the `Alert("Enter your task name!")` feedback of `Submit`.
- The checkbox's `defaultChecked` is display-only and never feeds back into state.
- The seed list `./todoList` is not part of this model; the constructor takes any initial list, and properties about id order assume increasing ids as a hypothesis.
- React's batching of state setters: each handler is one atomic transition.
- Field names other than `title`, `status` and `priority`: the JavaScript computed key would add a new property to the form record; the component's only input is named `title`.
- Ids are unbounded integers; JavaScript numbers lose precision for `id + 1` above 2^53.
- The JavaScript crash on `currentTask.id` when `isEditing` is true and `currentTask` is null cannot happen: every handler keeps "edit mode if and only if a task is under edit" (`Todo.Valid`), which the methods require and ensure.
