# To-do lists: a Dafny model of the client-side synchronization service

This project models the browser client of a small to-do list manager, written in Angular
and TypeScript. The client keeps one snapshot of all to-do lists. That snapshot is the value
of a `BehaviorSubject` in `TodoService`, and a copy of it sits under the `localStorage` key
`todoLists`. The service loads lists, creates a list, adds a task to a list and toggles a
task's completion against a JSON server, and republishes the snapshot after each success.
The collection screen shows the number of completed tasks of each list. It asks for a new
list only when the typed title, once trimmed, is not empty.

Files:

- `wrappers.dfy` (`Wrappers`): `Option`, and `Result` with the HTTP failure kinds
  `NetworkError` and `NotFound`.
- `todo_models.dfy` (`TodoModels`): the `Task` and `TodoList` records.
- `list_transforms.dfy` (`ListTransforms`): the pure transformations the service applies.
  These are the task toggle, the task and list appends, and the replace-by-id map over the
  snapshot, with their frame lemmas.
- `todo_service.dfy` (`Service`): class `TodoService` with fields `snapshot`, `cache` and
  the constant `browser`. It has one method per service operation. Each method takes the
  HTTP responses as `Result` arguments. It returns the HTTP requests it issued, in order,
  and what its observable emits.
- `todo_lists_view.dfy` (`TodoListsView`): `countCompleted` as a filter-count, JavaScript's
  `trim`, and the title guard of `addList`.

How the Angular runtime is modelled:

- Publishing to the subject is assignment to `snapshot`.
- `localStorage` is `cache`, the parsed stored collection, or `None` when the key is unset.
- `isBrowser()` is the constant `browser`. Outside a browser, nothing is ever read from or
  written to `cache` (`Valid()`).
- `Synced()` says the stored copy equals the published snapshot. Every successful mutation
  and every load that publishes establishes it.
- Server-generated and clock-generated values are arguments: the list id and task id built
  from `Date.now()`, and every HTTP response.

What the code publishes:

- After a successful PUT, the code publishes the client-built `updatedList` and ignores the
  PUT response body (`src/app/core/services/todo.service.ts:85` and `:105`). That body is only
  what the returned observable emits. `AddTaskToList` and `ToggleTaskCompletion` state this.
- `addTodoList` appends the server's returned list, not the posted one (`:56-58`).
- The PUT goes to `/lists/{listId}`. The snapshot entry that gets replaced is the one whose
  id equals the fetched list's id. The model keeps the two apart.

## Model

| member | source | states |
|---|---|---|
| ListTransforms.ToggleTasks | src/app/core/services/todo.service.ts:94-96 | same length, so no task is added, dropped or moved; at each position, a task whose id is `taskId` has `completed` flipped and every other field, its id included, kept; every other task is unchanged |
| ListTransforms.ToggledList | src/app/core/services/todo.service.ts:98-101 | the list put back by a toggle keeps the fetched list's `id`, `title` and task count |
| ListTransforms.ToggleAbsentIsIdentity | src/app/core/services/todo.service.ts:94-96 | toggling an id no task carries gives back exactly the fetched tasks, with no error |
| ListTransforms.ToggleTwiceRestores | src/app/core/services/todo.service.ts:94-96 | toggling the same task id twice restores the original tasks |
| ListTransforms.ToggledListTwiceRestores | src/app/core/services/todo.service.ts:94-101 | toggling a list twice with the same task id restores the whole list |
| ListTransforms.ToggleUniqueIsPointUpdate | src/app/core/services/todo.service.ts:94-96 | when one task carries the id, toggling updates only that position, with the flipped task |
| ListTransforms.NewTask | src/app/core/services/todo.service.ts:71-76 | a task built for addition is not completed |
| ListTransforms.WithTaskAppended | src/app/core/services/todo.service.ts:78-81 | the list put back has the fetched `id` and `title` and n+1 tasks; the first n are the original tasks in order and the last is the new task |
| ListTransforms.NewList | src/app/core/services/todo.service.ts:49-53 | the posted list has no tasks |
| ListTransforms.ReplaceById | src/app/core/services/todo.service.ts:113 | same length; each list whose id matches is replaced by the updated list, and every other list stays in place unchanged |
| ListTransforms.ReplaceKeepsListIds | src/app/core/services/todo.service.ts:113 | replacing by id keeps the sequence of list ids |
| ListTransforms.ReplaceAbsentIsIdentity | src/app/core/services/todo.service.ts:113 | a list whose id is not in the snapshot is dropped, and the snapshot is unchanged |
| ListTransforms.ReplaceUniqueIsPointUpdate | src/app/core/services/todo.service.ts:113 | with at most one list per id, the replacement updates exactly the matching position |
| ListTransforms.ReplaceIsIdempotent | src/app/core/services/todo.service.ts:113 | publishing the same updated list twice equals publishing it once |
| ListTransforms.ReplaceKeepsUniqueIds | src/app/core/services/todo.service.ts:113 | "at most one list per id" holds after the replacement if and only if it held before |
| ListTransforms.SameIdsSameUniqueness | src/app/core/services/todo.service.ts:113 | two snapshots with the same sequence of list ids agree on "at most one list per id"; with the id-keeping contracts of the task add, the toggle and `UpdateListInSubject`, this is why those operations keep ids unique |
| ListTransforms.AppendKeepsUniqueIds | src/app/core/services/todo.service.ts:58 | appending a created list keeps "at most one list per id" if and only if its id is new to the snapshot |
| Service.TodoService.constructor | src/app/core/services/todo.service.ts:14 | the subject starts with no lists; the stored copy exists only in a browser |
| Service.TodoService.LoadLists | src/app/core/services/todo.service.ts:25-40 | with a stored copy: publishes it and issues no request; otherwise: issues `GET /lists`, and on success publishes and stores the response; a failed fetch changes nothing |
| Service.TodoService.AddTodoList | src/app/core/services/todo.service.ts:48-65 | posts an empty list with the given id and title and emits the server's answer; on success the old snapshot is a prefix and the server's list is appended last, then stored; on failure nothing changes |
| Service.TodoService.AddTaskToList | src/app/core/services/todo.service.ts:68-88 | GET, then PUT of the fetched list with a new uncompleted task appended, only if the GET succeeded; on PUT success the snapshot is the replace-by-id with the client-built list, then stored; the sequence of list ids is kept; any failure changes nothing |
| Service.TodoService.ToggleTaskCompletion | src/app/core/services/todo.service.ts:91-108 | GET, then PUT of the fetched list with the task toggled, only if the GET succeeded; on PUT success the snapshot is the replace-by-id with the client-built list, then stored; the sequence of list ids is kept; any failure changes nothing |
| Service.TodoService.UpdateListInSubject | src/app/core/services/todo.service.ts:111-119 | the snapshot becomes the replace-by-id with the updated list, and the stored copy equals it; the sequence of list ids is kept |
| TodoListsView.CompletedTasks | src/app/pages/todo-lists/todo-lists.component.ts:56 | the filter keeps only completed tasks and takes them from the input (multiset inclusion) |
| TodoListsView.CountCompleted | src/app/pages/todo-lists/todo-lists.component.ts:55-57 | the count is at most the number of tasks, and 0 for no tasks |
| TodoListsView.CountCompletedIsCardinality | src/app/pages/todo-lists/todo-lists.component.ts:55-57 | the count equals the number of positions that hold a completed task |
| TodoListsView.CompletedTasksAppend | src/app/pages/todo-lists/todo-lists.component.ts:56 | filtering distributes over concatenation, keeping order |
| TodoListsView.CountCompletedAppend | src/app/pages/todo-lists/todo-lists.component.ts:56 | the count is additive over concatenation |
| TodoListsView.CountCompletedSnoc | src/app/pages/todo-lists/todo-lists.component.ts:56 | appending a task adds 1 to the count if it is completed and 0 otherwise |
| TodoListsView.AddedTaskKeepsCount | src/app/pages/todo-lists/todo-lists.component.ts:55-57 | adding a new task to a list leaves its completed count unchanged |
| TodoListsView.ToggleUniqueMovesCountByOne | src/app/pages/todo-lists/todo-lists.component.ts:55-57 | toggling the one task with the id lowers the count by one if it was completed and raises it by one otherwise |
| TodoListsView.LeadingBlanks | src/app/pages/todo-lists/todo-lists.component.ts:62 | the count of leading characters `trim` removes: all of them are whitespace, and the next character, if any, is not |
| TodoListsView.TrailingBlanks | src/app/pages/todo-lists/todo-lists.component.ts:62 | the count of trailing characters `trim` removes: all of them are whitespace, and the character before them, if any, is not |
| TodoListsView.Trim | src/app/pages/todo-lists/todo-lists.component.ts:62 | the trimmed title is no longer than the input, and neither of its ends is whitespace |
| TodoListsView.TrimIsSliceAfterLeadingBlanks | src/app/pages/todo-lists/todo-lists.component.ts:62 | the trimmed title is the contiguous slice of the input that follows its leading whitespace |
| TodoListsView.TrimDropsOnlyTrailingBlanks | src/app/pages/todo-lists/todo-lists.component.ts:62 | every character after the trimmed slice is whitespace |
| TodoListsView.TrimEmptyIffBlank | src/app/pages/todo-lists/todo-lists.component.ts:62-64 | the trimmed title is empty if and only if every character is whitespace |
| TodoListsView.TrimIsIdempotent | src/app/pages/todo-lists/todo-lists.component.ts:62 | trimming twice equals trimming once |
| TodoListsView.AddListRequest | src/app/pages/todo-lists/todo-lists.component.ts:61-64 | when a title is passed on, it is the trimmed title and it is non-empty |
| TodoListsView.AddListRequestIffNotBlank | src/app/pages/todo-lists/todo-lists.component.ts:61-65 | a creation is requested if and only if the title has a non-whitespace character, and then with the trimmed title |
| TodoListsView.AddList | src/app/pages/todo-lists/todo-lists.component.ts:60-65 | a blank title issues no request and changes nothing; otherwise the service posts a list with the trimmed title, with the service's success and failure outcomes |

## Left out

- `getTodoListById` (src/app/core/services/todo.service.ts:43-45) is a plain HTTP GET that never touches the snapshot. Its response is the `fetched` argument of `AddTaskToList` and `ToggleTaskCompletion`.
- HTTP itself and URL construction are left out. Requests appear only as `Request` values: `GetAll`, `GetById(id)`, `Post(body)`, `Put(id, body)`. Responses are arguments.
- The RxJS machinery is left out: subscriptions, `pipe`, `switchMap`, `tap`, and replaying to subscribers. Each observable is taken to be subscribed once, as both components do, and each operation runs to completion.
- JSON serialization is left out. `cache` holds the parsed collection. A stored empty string, which `if (localData)` treats as absent, is the same as `None` here. A stored value that fails to parse, which would throw, is not modelled.
- `Task.id` is a JavaScript `number` but is modelled as `int`: non-integer ids are not represented. Ids come from `Date.now()` or JSON and are only compared with `===`, which agrees with `==` on integers.
- `Date.now()` is left out: the new list id and the new task id are arguments. Task ids are not claimed unique, because the code never checks them.
- The lost update between two overlapping fetch-modify-put cycles on the same list is not modelled. It needs asynchronous interleaving, and each method here runs sequentially.
- Angular forms are modelled only through `Validators.required`: the form title must be a non-empty string. A `null` form value after `form.reset()` is not modelled. The snackbar, the form reset and the `todoLists` component field are UI state and are left out.
- The detail screen (src/app/pages/todo-list-detail/todo-list-detail.component.ts) only delegates to the service and renders, so it is left out. Its `trim` of the task title and description before calling `addTaskToList` is left out with it.
- The application shell and route table are left out.
