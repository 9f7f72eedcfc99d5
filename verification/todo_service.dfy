/** The client-side synchronization service: one snapshot of all lists
    (the value of its `BehaviorSubject`), the browser's `localStorage` copy
    of it, and the operations that fetch, post and put lists and then
    republish the snapshot. */
module Service {
  import opened Wrappers
  import opened TodoModels
  import opened ListTransforms

  /** An HTTP request the service issues against the `lists` resource:
      `GET /lists`, `GET /lists/{id}`, `POST /lists`, `PUT /lists/{id}`. */
  datatype Request =
    | GetAll
    | GetById(id: string)
    | Post(body: TodoList)
    | Put(id: string, body: TodoList)

  class TodoService {
    /** The value the subject currently holds and replays to subscribers. */
    var snapshot: seq<TodoList>
    /** The parsed content of the `localStorage` key `todoLists`, or None
        when the key is not set. */
    var cache: Option<seq<TodoList>>
    /** Whether the service runs in a browser, where `localStorage` exists. */
    const browser: bool

    /** Outside a browser there is no local storage to hold a copy. */
    ghost predicate Valid()
      reads this
    {
      !browser ==> cache == None
    }

    /** The stored copy is the published snapshot (when there is storage). */
    predicate Synced()
      reads this
    {
      browser ==> cache == Some(snapshot)
    }

    /** The subject starts out holding no lists; `stored` is whatever the
        browser kept under `todoLists` from an earlier session. */
    constructor (browser: bool, stored: Option<seq<TodoList>>)
      ensures Valid()
      ensures this.browser == browser && snapshot == []
      ensures cache == (if browser then stored else None)
    {
      this.browser := browser;
      snapshot := [];
      cache := if browser then stored else None;
    }

    /** Publishes the stored copy when there is one and requests nothing;
        otherwise fetches all lists and, when `response` delivers them,
        publishes and stores them. A failed fetch changes nothing. */
    method LoadLists(response: Result<seq<TodoList>>) returns (requests: seq<Request>)
      requires Valid()
      modifies this
      ensures Valid()
      ensures old(browser && cache.Some?) ==>
        requests == [] && snapshot == old(cache.value) && cache == old(cache) && Synced()
      ensures !old(browser && cache.Some?) ==> requests == [GetAll]
      ensures !old(browser && cache.Some?) && response.Ok? ==>
        snapshot == response.value && Synced()
      ensures !old(browser && cache.Some?) && response.Failed? ==>
        snapshot == old(snapshot) && cache == old(cache)
    {
      if browser && cache.Some? {
        snapshot := cache.value;
        return [];
      }
      requests := [GetAll];
      if response.Ok? {
        snapshot := response.value;
        if browser {
          cache := Some(snapshot);
        }
      }
    }

    /** Posts a new empty list with the client-built id; when the server
        answers, appends the server's list (not the posted one) to the
        snapshot, publishes and stores it. The returned observable emits the
        server's answer, or its error. */
    method AddTodoList(title: string, newId: string, response: Result<TodoList>)
      returns (requests: seq<Request>, emitted: Result<TodoList>)
      requires Valid()
      modifies this
      ensures Valid()
      ensures requests == [Post(NewList(newId, title))]
      ensures emitted == response
      ensures response.Ok? ==>
        snapshot == old(snapshot) + [response.value] && Synced()
      ensures response.Ok? ==>
        (UniqueIds(snapshot) <==> UniqueIds(old(snapshot)) && response.value.id !in ListIds(old(snapshot)))
      ensures response.Failed? ==> snapshot == old(snapshot) && cache == old(cache)
    {
      requests := [Post(NewList(newId, title))];
      emitted := response;
      if response.Ok? {
        AppendKeepsUniqueIds(snapshot, response.value);
        snapshot := snapshot + [response.value];
        if browser {
          cache := Some(snapshot);
        }
      }
    }

    /** Fetches list `listId`, appends a new uncompleted task to it and puts
        the result back. When the put succeeds, the client-built list (not
        the server's answer) replaces its namesake in the snapshot. A failed
        fetch issues no put; any failure leaves the state as it was. */
    method AddTaskToList(listId: string, title: string, description: string, taskId: int,
                         fetched: Result<TodoList>, putResponse: Result<TodoList>)
      returns (requests: seq<Request>, emitted: Result<TodoList>)
      requires Valid()
      modifies this
      ensures Valid()
      ensures fetched.Failed? ==> requests == [GetById(listId)] && emitted == fetched
      ensures fetched.Ok? ==>
        && requests == [GetById(listId),
                        Put(listId, WithTaskAppended(fetched.value, NewTask(taskId, title, description)))]
        && emitted == putResponse
      ensures fetched.Ok? && putResponse.Ok? ==>
        snapshot == ReplaceById(old(snapshot), WithTaskAppended(fetched.value, NewTask(taskId, title, description)))
        && Synced()
      ensures !(fetched.Ok? && putResponse.Ok?) ==> snapshot == old(snapshot) && cache == old(cache)
      ensures ListIds(snapshot) == ListIds(old(snapshot))
    {
      if fetched.Failed? {
        requests, emitted := [GetById(listId)], fetched;
      } else {
        var updatedList := WithTaskAppended(fetched.value, NewTask(taskId, title, description));
        requests, emitted := [GetById(listId), Put(listId, updatedList)], putResponse;
        if putResponse.Ok? {
          UpdateListInSubject(updatedList);
        }
      }
    }

    /** Fetches list `listId`, flips `completed` on its tasks whose id is
        `taskId` and puts the result back. When the put succeeds, the
        client-built list (not the server's answer) replaces its namesake in
        the snapshot. A failed fetch issues no put; any failure leaves the
        state as it was. */
    method ToggleTaskCompletion(listId: string, taskId: int,
                                fetched: Result<TodoList>, putResponse: Result<TodoList>)
      returns (requests: seq<Request>, emitted: Result<TodoList>)
      requires Valid()
      modifies this
      ensures Valid()
      ensures fetched.Failed? ==> requests == [GetById(listId)] && emitted == fetched
      ensures fetched.Ok? ==>
        && requests == [GetById(listId), Put(listId, ToggledList(fetched.value, taskId))]
        && emitted == putResponse
      ensures fetched.Ok? && putResponse.Ok? ==>
        snapshot == ReplaceById(old(snapshot), ToggledList(fetched.value, taskId)) && Synced()
      ensures !(fetched.Ok? && putResponse.Ok?) ==> snapshot == old(snapshot) && cache == old(cache)
      ensures ListIds(snapshot) == ListIds(old(snapshot))
    {
      if fetched.Failed? {
        requests, emitted := [GetById(listId)], fetched;
      } else {
        var updatedList := ToggledList(fetched.value, taskId);
        requests, emitted := [GetById(listId), Put(listId, updatedList)], putResponse;
        if putResponse.Ok? {
          UpdateListInSubject(updatedList);
        }
      }
    }

    /** Replaces the list whose id is `updatedList.id` in the snapshot (or
        nothing, when no id matches), then publishes and stores the result. */
    method UpdateListInSubject(updatedList: TodoList)
      requires Valid()
      modifies this
      ensures Valid()
      ensures snapshot == ReplaceById(old(snapshot), updatedList) && Synced()
      ensures ListIds(snapshot) == ListIds(old(snapshot))
    {
      var current := snapshot;
      var updated := ReplaceById(current, updatedList);
      ReplaceKeepsListIds(current, updatedList);
      snapshot := updated;
      if browser {
        cache := Some(updated);
      }
    }
  }
}
