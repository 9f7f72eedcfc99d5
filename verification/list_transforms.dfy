/** The pure sequence transformations the service applies to a fetched list
    and to its snapshot of all lists: the task toggle (a `map` over the
    tasks), the task and list appends (array spreads) and the replace-by-id
    `map` over the snapshot. */
module ListTransforms {
  import opened TodoModels

  /** The task the toggle's `map` callback returns: the task with its
      `completed` flag flipped when its id is `taskId` (JavaScript `===` on
      numbers), the task itself otherwise. */
  function FlipIfMatch(t: Task, taskId: int): Task
  {
    if t.id == taskId then t.(completed := !t.completed) else t
  }

  /** The tasks of a list after toggling `taskId`: position by position,
      a task whose id is `taskId` has its `completed` flag flipped and keeps
      every other field; every other task is returned as it was. */
  function ToggleTasks(tasks: seq<Task>, taskId: int): (r: seq<Task>)
    ensures |r| == |tasks|
    ensures forall i :: 0 <= i < |tasks| && tasks[i].id == taskId ==>
      r[i].completed == !tasks[i].completed && r[i].(completed := tasks[i].completed) == tasks[i]
    ensures forall i :: 0 <= i < |tasks| && tasks[i].id != taskId ==> r[i] == tasks[i]
  {
    if tasks == [] then []
    else [FlipIfMatch(tasks[0], taskId)] + ToggleTasks(tasks[1..], taskId)
  }

  /** The list sent back to the server by a toggle: the fetched list with
      its tasks toggled (an object spread that replaces `tasks`). */
  function ToggledList(list: TodoList, taskId: int): (r: TodoList)
    ensures r.id == list.id && r.title == list.title
    ensures |r.tasks| == |list.tasks|
  {
    list.(tasks := ToggleTasks(list.tasks, taskId))
  }

  /** A freshly built task: never completed. */
  function NewTask(id: int, title: string, description: string): (t: Task)
    ensures !t.completed
  {
    Task(id, title, description, false)
  }

  /** The list sent back to the server by a task addition: the fetched list
      with `task` spread onto the end of its tasks. */
  function WithTaskAppended(list: TodoList, task: Task): (r: TodoList)
    ensures r.id == list.id && r.title == list.title
    ensures |r.tasks| == |list.tasks| + 1
    ensures r.tasks[..|list.tasks|] == list.tasks && r.tasks[|list.tasks|] == task
  {
    list.(tasks := list.tasks + [task])
  }

  /** The body the client posts when it creates a list: no tasks yet. */
  function NewList(id: string, title: string): (r: TodoList)
    ensures r.tasks == []
  {
    TodoList(id, title, [])
  }

  /** The snapshot after publishing `updated`: position by position, a list
      whose id is `updated.id` is replaced by `updated`; every other list is
      kept as it was. */
  function ReplaceById(snapshot: seq<TodoList>, updated: TodoList): (r: seq<TodoList>)
    ensures |r| == |snapshot|
    ensures forall i :: 0 <= i < |snapshot| && snapshot[i].id == updated.id ==> r[i] == updated
    ensures forall i :: 0 <= i < |snapshot| && snapshot[i].id != updated.id ==> r[i] == snapshot[i]
  {
    if snapshot == [] then []
    else
      [if snapshot[0].id == updated.id then updated else snapshot[0]]
      + ReplaceById(snapshot[1..], updated)
  }

  /** The ids of the lists of a snapshot, in order. */
  function ListIds(snapshot: seq<TodoList>): (ids: seq<string>)
    ensures |ids| == |snapshot|
    ensures forall i :: 0 <= i < |snapshot| ==> ids[i] == snapshot[i].id
  {
    if snapshot == [] then [] else [snapshot[0].id] + ListIds(snapshot[1..])
  }

  /** At most one list per id. */
  predicate UniqueIds(snapshot: seq<TodoList>)
  {
    forall i, j :: 0 <= i < j < |snapshot| ==> snapshot[i].id != snapshot[j].id
  }

  // ---------------------------------------------------------------------
  // Toggle

  /** Toggling an id that no task carries gives back the very same tasks;
      `TodoService` raises no error in this case. */
  lemma ToggleAbsentIsIdentity(tasks: seq<Task>, taskId: int)
    requires forall i :: 0 <= i < |tasks| ==> tasks[i].id != taskId
    ensures ToggleTasks(tasks, taskId) == tasks
  {
  }

  /** Toggling the same task id twice restores the original tasks. */
  lemma ToggleTwiceRestores(tasks: seq<Task>, taskId: int)
    ensures ToggleTasks(ToggleTasks(tasks, taskId), taskId) == tasks
  {
  }

  /** When exactly one task carries `taskId`, at position `k`, toggling is
      the update of that one position with the flipped task. */
  lemma ToggleUniqueIsPointUpdate(tasks: seq<Task>, taskId: int, k: nat)
    requires k < |tasks| && tasks[k].id == taskId
    requires forall i :: 0 <= i < |tasks| && i != k ==> tasks[i].id != taskId
    ensures ToggleTasks(tasks, taskId) == tasks[k := tasks[k].(completed := !tasks[k].completed)]
  {
  }

  /** A toggled list toggled again with the same id is the original list. */
  lemma ToggledListTwiceRestores(list: TodoList, taskId: int)
    ensures ToggledList(ToggledList(list, taskId), taskId) == list
  {
  }

  // ---------------------------------------------------------------------
  // Replace by id

  /** Replacing by id moves no list: the ids of the snapshot, in order, are
      unchanged. */
  lemma ReplaceKeepsListIds(snapshot: seq<TodoList>, updated: TodoList)
    ensures ListIds(ReplaceById(snapshot, updated)) == ListIds(snapshot)
  {
  }

  /** Publishing a list whose id is in no list of the snapshot drops it and
      leaves the snapshot as it was. */
  lemma ReplaceAbsentIsIdentity(snapshot: seq<TodoList>, updated: TodoList)
    requires updated.id !in ListIds(snapshot)
    ensures ReplaceById(snapshot, updated) == snapshot
  {
  }

  /** In a snapshot with at most one list per id, replacing by id is the
      update of the one position whose id matches. */
  lemma ReplaceUniqueIsPointUpdate(snapshot: seq<TodoList>, updated: TodoList, k: nat)
    requires UniqueIds(snapshot)
    requires k < |snapshot| && snapshot[k].id == updated.id
    ensures ReplaceById(snapshot, updated) == snapshot[k := updated]
  {
  }

  /** Publishing the same list twice is the same as publishing it once. */
  lemma ReplaceIsIdempotent(snapshot: seq<TodoList>, updated: TodoList)
    ensures ReplaceById(ReplaceById(snapshot, updated), updated) == ReplaceById(snapshot, updated)
  {
  }

  /** Whether a snapshot has at most one list per id depends only on its
      sequence of ids. */
  lemma SameIdsSameUniqueness(a: seq<TodoList>, b: seq<TodoList>)
    requires ListIds(a) == ListIds(b)
    ensures UniqueIds(a) <==> UniqueIds(b)
  {
  }

  /** Replacing by id keeps "at most one list per id", in both directions. */
  lemma ReplaceKeepsUniqueIds(snapshot: seq<TodoList>, updated: TodoList)
    ensures UniqueIds(ReplaceById(snapshot, updated)) <==> UniqueIds(snapshot)
  {
  }

  // ---------------------------------------------------------------------
  // Append list

  /** Appending a created list keeps "at most one list per id" exactly when
      its id is new to the snapshot; `addTodoList` does not check this. */
  lemma AppendKeepsUniqueIds(snapshot: seq<TodoList>, created: TodoList)
    ensures UniqueIds(snapshot + [created]) <==>
      UniqueIds(snapshot) && created.id !in ListIds(snapshot)
  {
    var s := snapshot + [created];
    var ids := ListIds(snapshot);
    if UniqueIds(s) {
      assert UniqueIds(snapshot) by {
        forall i, j | 0 <= i < j < |snapshot| ensures snapshot[i].id != snapshot[j].id {
          assert s[i] == snapshot[i] && s[j] == snapshot[j];
        }
      }
      assert created.id !in ids by {
        forall i | 0 <= i < |ids| ensures ids[i] != created.id {
          assert ids[i] == s[i].id && created == s[|snapshot|];
        }
      }
    }
    if UniqueIds(snapshot) && created.id !in ids {
      forall i, j | 0 <= i < j < |s| ensures s[i].id != s[j].id {
        if j == |snapshot| {
          assert ids[i] == s[i].id;
        } else {
          assert s[i] == snapshot[i] && s[j] == snapshot[j];
        }
      }
    }
  }
}
