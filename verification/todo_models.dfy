/** The two records exchanged with the JSON server. */
module TodoModels {

  /** A task inside a list; `id` is a JavaScript number built from the clock. */
  datatype Task = Task(id: int, title: string, description: string, completed: bool)

  /** A to-do list; its tasks are kept in insertion order. */
  datatype TodoList = TodoList(id: string, title: string, tasks: seq<Task>)
}
