/** Types shared by the taskboard items: the status of a Task or Goal and
    the domain errors an item operation can raise. */
module Taskboard {

  /** The status of a Task or Goal. It is never set by a caller: each item
      derives it from its dependencies (and, for a Task, its completion flag). */
  datatype TaskStatus = NotStarted | InProgress | Complete

  /** Domain errors. Only the one raised by a Task is part of this model. */
  datatype TaskboardError =
    | MissingTaskReqsException  // completion attempted on a task that is not in progress

  /** Whether an operation went through or raised an error (Kotlin throws;
      the caller sees the exception and the item is left as it was). */
  datatype Outcome = Pass | Fail(error: TaskboardError)
}
