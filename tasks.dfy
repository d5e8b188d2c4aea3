/** Task records, the three known statuses, and the collection invariants
    that the other modules state their contracts with. */
module Tasks {

  datatype Option<+T> = None | Some(value: T)

  /** One record of the task file. The status is kept as the text the file
      holds: a record loaded from disk may carry any value, and the display
      falls back to a placeholder label for values outside the three known ones. */
  datatype Task = Task(id: int, description: string, status: string, createdAt: string, updatedAt: string)

  const Todo: string := "todo"
  const InProgress: string := "in-progress"
  const Done: string := "done"

  /** One of the three statuses a task can have. */
  predicate IsStatus(s: string) {
    s == Todo || s == InProgress || s == Done
  }

  /** Some task of the collection has id k. */
  predicate HasId(tasks: seq<Task>, k: int) {
    exists i :: 0 <= i < |tasks| && tasks[i].id == k
  }

  /** No two tasks of the collection share an id. */
  predicate UniqueIds(tasks: seq<Task>) {
    forall i, j :: 0 <= i < j < |tasks| ==> tasks[i].id != tasks[j].id
  }

  /** Ids never decrease from left to right. */
  predicate SortedById(s: seq<Task>) {
    forall i, j :: 0 <= i < j < |s| ==> s[i].id <= s[j].id
  }
}
