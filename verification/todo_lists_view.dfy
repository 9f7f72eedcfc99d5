/** The logic of the collection screen that is not presentation: the count
    of completed tasks shown for each list, and the guard that decides
    whether a typed title becomes a list-creation request. */
module TodoListsView {
  import opened Wrappers
  import opened TodoModels
  import opened ListTransforms
  import Service

  // ---------------------------------------------------------------------
  // Counting completed tasks: `tasks.filter(t => t.completed).length`

  /** The completed tasks, in their original order. */
  function CompletedTasks(tasks: seq<Task>): (r: seq<Task>)
    ensures |r| <= |tasks|
    ensures forall i :: 0 <= i < |r| ==> r[i].completed
    ensures multiset(r) <= multiset(tasks)
  {
    if tasks == [] then []
    else if tasks[0].completed then
      assert tasks == [tasks[0]] + tasks[1..];
      [tasks[0]] + CompletedTasks(tasks[1..])
    else
      assert tasks == [tasks[0]] + tasks[1..];
      CompletedTasks(tasks[1..])
  }

  /** The number shown as "completed" for a list. */
  function CountCompleted(tasks: seq<Task>): (n: nat)
    ensures n <= |tasks|
    ensures tasks == [] ==> n == 0
  {
    |CompletedTasks(tasks)|
  }

  /** The positions of the completed tasks. */
  ghost function CompletedIndices(tasks: seq<Task>): set<int>
  {
    set i | 0 <= i < |tasks| && tasks[i].completed
  }

  /** Filtering distributes over concatenation. */
  lemma {:induction false} CompletedTasksAppend(a: seq<Task>, b: seq<Task>)
    ensures CompletedTasks(a + b) == CompletedTasks(a) + CompletedTasks(b)
  {
    if a != [] {
      assert (a + b)[0] == a[0];
      assert (a + b)[1..] == a[1..] + b;
      CompletedTasksAppend(a[1..], b);
    } else {
      assert a + b == b;
    }
  }

  /** The count is additive over concatenation. */
  lemma CountCompletedAppend(a: seq<Task>, b: seq<Task>)
    ensures CountCompleted(a + b) == CountCompleted(a) + CountCompleted(b)
  {
    CompletedTasksAppend(a, b);
  }

  /** Appending one task adds one to the count exactly when it is completed. */
  lemma CountCompletedSnoc(tasks: seq<Task>, t: Task)
    ensures CountCompleted(tasks + [t]) == CountCompleted(tasks) + (if t.completed then 1 else 0)
  {
    CountCompletedAppend(tasks, [t]);
    assert [t][1..] == [];
  }

  /** The count is the number of positions holding a completed task. */
  lemma {:induction false} CountCompletedIsCardinality(tasks: seq<Task>)
    ensures CountCompleted(tasks) == |CompletedIndices(tasks)|
  {
    if tasks != [] {
      var n := |tasks| - 1;
      var init := tasks[..n];
      assert tasks == init + [tasks[n]];
      CountCompletedIsCardinality(init);
      CountCompletedSnoc(init, tasks[n]);
      if tasks[n].completed {
        assert CompletedIndices(tasks) == CompletedIndices(init) + {n};
      } else {
        assert CompletedIndices(tasks) == CompletedIndices(init);
      }
    }
  }

  /** Adding a new task to a list leaves its completed count unchanged. */
  lemma AddedTaskKeepsCount(list: TodoList, id: int, title: string, description: string)
    ensures CountCompleted(WithTaskAppended(list, NewTask(id, title, description)).tasks)
         == CountCompleted(list.tasks)
  {
    CountCompletedSnoc(list.tasks, NewTask(id, title, description));
  }

  /** Toggling the one task that carries `taskId` moves the count by one:
      down when that task was completed, up otherwise. */
  lemma ToggleUniqueMovesCountByOne(tasks: seq<Task>, taskId: int, k: nat)
    requires k < |tasks| && tasks[k].id == taskId
    requires forall i :: 0 <= i < |tasks| && i != k ==> tasks[i].id != taskId
    ensures CountCompleted(ToggleTasks(tasks, taskId))
         == if tasks[k].completed then CountCompleted(tasks) - 1 else CountCompleted(tasks) + 1
  {
    var flipped := tasks[k].(completed := !tasks[k].completed);
    ToggleUniqueIsPointUpdate(tasks, taskId, k);
    var pre, post := tasks[..k], tasks[k + 1..];
    assert tasks == (pre + [tasks[k]]) + post;
    assert tasks[k := flipped] == (pre + [flipped]) + post;
    CountCompletedAppend(pre + [tasks[k]], post);
    CountCompletedAppend(pre + [flipped], post);
    CountCompletedSnoc(pre, tasks[k]);
    CountCompletedSnoc(pre, flipped);
  }

  // ---------------------------------------------------------------------
  // The title guard of `addList`

  /** ECMAScript WhiteSpace and LineTerminator code points: what
      `String.prototype.trim` removes. */
  const Whitespace: set<char> := {
    '\t', '\n', '\U{000B}', '\U{000C}', '\r', ' ', '\U{00A0}', '\U{1680}',
    '\U{2000}', '\U{2001}', '\U{2002}', '\U{2003}', '\U{2004}', '\U{2005}',
    '\U{2006}', '\U{2007}', '\U{2008}', '\U{2009}', '\U{200A}',
    '\U{2028}', '\U{2029}', '\U{202F}', '\U{205F}', '\U{3000}', '\U{FEFF}'
  }

  predicate IsWhitespace(c: char)
  {
    c in Whitespace
  }

  /** The number of whitespace characters `s` starts with. */
  function LeadingBlanks(s: string): (n: nat)
    ensures n <= |s|
    ensures forall i :: 0 <= i < n ==> IsWhitespace(s[i])
    ensures n < |s| ==> !IsWhitespace(s[n])
  {
    if s != [] && IsWhitespace(s[0]) then 1 + LeadingBlanks(s[1..]) else 0
  }

  /** The number of whitespace characters `s` ends with. */
  function TrailingBlanks(s: string): (n: nat)
    ensures n <= |s|
    ensures forall i :: |s| - n <= i < |s| ==> IsWhitespace(s[i])
    ensures n < |s| ==> !IsWhitespace(s[|s| - 1 - n])
  {
    if s != [] && IsWhitespace(s[|s| - 1]) then 1 + TrailingBlanks(s[..|s| - 1]) else 0
  }

  /** JavaScript's `trim`: the leading whitespace is dropped, then the
      trailing whitespace of what remains. */
  function Trim(s: string): (r: string)
    ensures |r| <= |s|
    ensures r == [] || (!IsWhitespace(r[0]) && !IsWhitespace(r[|r| - 1]))
  {
    var rest := s[LeadingBlanks(s)..];
    rest[..|rest| - TrailingBlanks(rest)]
  }

  /** The trimmed title is the slice of `s` that follows its leading
      whitespace. */
  lemma TrimIsSliceAfterLeadingBlanks(s: string)
    ensures var k := LeadingBlanks(s);
      k + |Trim(s)| <= |s| && Trim(s) == s[k..k + |Trim(s)|]
  {
  }

  /** Everything after the trimmed slice is whitespace. */
  lemma TrimDropsOnlyTrailingBlanks(s: string)
    ensures var k := LeadingBlanks(s);
      k + |Trim(s)| <= |s| && forall i :: k + |Trim(s)| <= i < |s| ==> IsWhitespace(s[i])
  {
  }

  /** The trimmed title is empty exactly when every character is whitespace. */
  lemma TrimEmptyIffBlank(s: string)
    ensures Trim(s) == [] <==> forall i :: 0 <= i < |s| ==> IsWhitespace(s[i])
  {
  }

  /** Trimming twice is trimming once. */
  lemma TrimIsIdempotent(s: string)
    ensures Trim(Trim(s)) == Trim(s)
  {
  }

  /** The title `addList` passes to the service, if any: the form must be
      valid (the required title is not the empty string) and the trimmed
      title must be non-empty. */
  function AddListRequest(formTitle: string): (r: Option<string>)
    ensures r.Some? ==> r.value == Trim(formTitle) && r.value != []
  {
    if formTitle == [] then None
    else
      var title := Trim(formTitle);
      if title != [] then Some(title) else None
  }

  /** A creation is requested exactly when the title holds a non-whitespace
      character, and then with the trimmed title. */
  lemma AddListRequestIffNotBlank(formTitle: string)
    ensures AddListRequest(formTitle).Some? <==>
      exists i :: 0 <= i < |formTitle| && !IsWhitespace(formTitle[i])
    ensures AddListRequest(formTitle).Some? ==> AddListRequest(formTitle) == Some(Trim(formTitle))
  {
  }

  /** The collection screen's `addList`: asks the service to create a list
      only when the guard lets the title through, and with the trimmed
      title; otherwise nothing is requested and nothing changes. */
  method AddList(service: Service.TodoService, formTitle: string, newId: string,
                 response: Result<TodoList>)
    returns (requests: seq<Service.Request>)
    requires service.Valid()
    modifies service
    ensures service.Valid()
    ensures AddListRequest(formTitle).None? ==>
      requests == [] && service.snapshot == old(service.snapshot) && service.cache == old(service.cache)
    ensures AddListRequest(formTitle).Some? ==>
      && requests == [Service.Post(NewList(newId, Trim(formTitle)))]
      && (response.Ok? ==> service.snapshot == old(service.snapshot) + [response.value] && service.Synced())
      && (response.Failed? ==>
            service.snapshot == old(service.snapshot) && service.cache == old(service.cache))
  {
    requests := [];
    var title := AddListRequest(formTitle);
    if title.Some? {
      var emitted;
      requests, emitted := service.AddTodoList(title.value, newId, response);
    }
  }
}
