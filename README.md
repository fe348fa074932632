# Taskboard Task status state machine in Dafny

This project models the status logic of a taskboard `Task`. A task is a
work item in a dependency graph. Its `status` is one of NotStarted,
InProgress or Complete. That status is derived from the statuses of the
items it depends on and from a private manual-completion flag,
`isComplete`. Three operations change this state:

- `updateSelf()` recomputes the status. It walks the dependencies in order
  and stops at the first one that is not Complete. In that case the task
  becomes NotStarted and also loses its completion flag. If every
  dependency is Complete, which includes having none, the flag decides
  between Complete and InProgress.
- `markAsComplete()` is guarded. It raises `MissingTaskReqsException`
  unless the task is InProgress, and it changes nothing before raising.
  Otherwise it sets the flag and runs `update()`.
- `markAsIncomplete()` always succeeds. It clears the flag and runs
  `update()`.

The project has three modules:

- `Taskboard` (`taskboard.dfy`) holds the status type, the error and the
  pass/fail outcome that stands in for Kotlin's exception.
- `TaskRules` (`task_rules.dfy`) is the specification on values. A
  task's own state is `TaskState(status, isComplete)`. The three
  operations are functions of the dependency statuses and that state.
  `Settled` is the invariant that the status is not stale. `Run` replays
  any sequence of operations and dependency changes on one task.
- `Items` (`items.dfy`) is the object model. `Task` is a class whose
  methods update its fields in place. `UpdateSelf` keeps the source's loop
  and its early return. Each method's postcondition equates the new state
  with the matching `TaskRules` function applied to the old state. Kotlin's
  `Task` extends `TaskObject`, and Dafny classes here cannot inherit. So the
  inherited part (`status`, `dependencies`) is a `TaskObject` object that
  the task owns as `base`. One task's `base` can appear in another item's
  `dependencies`, just as a task can depend on a task in the source.
  `TwoTaskScenario` is a small client. It drives two tasks, B depending on
  A, through the states a user sees.

## Model

| member | source | states |
|---|---|---|
| `TaskRules.UpdateSelf` | core/src/main/kotlin/io/github/rk012/taskboard/items/Task.kt:10-20 | The status is NotStarted exactly when some dependency is not Complete. It is Complete exactly when all are Complete and the flag is set, and InProgress exactly when all are Complete and the flag is clear; no dependencies counts as all Complete. The flag survives exactly when all dependencies are Complete. |
| `TaskRules.MarkAsComplete` | core/src/main/kotlin/io/github/rk012/taskboard/items/Task.kt:22-26 | Fails with MissingTaskReqsException exactly when the status is not InProgress, and then the state is unchanged. On success the task is Complete exactly when all dependencies are Complete, it ends up settled, and from a settled task it ends Complete with the flag set. |
| `TaskRules.MarkAsIncomplete` | core/src/main/kotlin/io/github/rk012/taskboard/items/Task.kt:28-31 | Never fails. Afterwards the flag is clear and the status is not Complete. The status is NotStarted exactly when some dependency is not Complete, and the task is settled. |
| `TaskRules.SettledIff` | core/src/main/kotlin/io/github/rk012/taskboard/items/Task.kt:10-20 | A task is settled (its status is what updateSelf would compute) exactly when its status is Complete iff its flag is set, and NotStarted iff some dependency is not Complete. |
| `TaskRules.UpdateSelfIdempotent` | core/src/main/kotlin/io/github/rk012/taskboard/items/Task.kt:10-20 | Running updateSelf twice with the same dependency statuses gives the same status and flag as running it once. |
| `TaskRules.MarkAsIncompleteIdempotent` | core/src/main/kotlin/io/github/rk012/taskboard/items/Task.kt:28-31 | markAsIncomplete twice has the same effect as once. |
| `TaskRules.Step` | core/src/main/kotlin/io/github/rk012/taskboard/items/Task.kt:10-31 | Every single operation, including a failed markAsComplete, keeps a settled task settled. After a dependency change followed by update the task is settled whatever it was before. |
| `TaskRules.Run` | core/src/main/kotlin/io/github/rk012/taskboard/items/Task.kt:10-31 | Over any sequence of operations and dependency changes, a task that starts settled stays settled. It is Complete only while its flag is set and all its dependencies are Complete. |
| `TaskRules.RegressionForgetsCompletion` | core/src/main/kotlin/io/github/rk012/taskboard/items/Task.kt:11-15 | When a dependency regresses and later recovers, the task comes back InProgress with the flag clear, not Complete: the manual completion is lost. |
| `Items.Task.constructor` | core/src/main/kotlin/io/github/rk012/taskboard/items/Task.kt:7-8 | A new task has its completion flag cleared and does not depend on itself. |
| `Items.Task.UpdateSelf` | core/src/main/kotlin/io/github/rk012/taskboard/items/Task.kt:10-20 | The loop over the dependencies with its early return leaves the status and flag equal to `TaskRules.UpdateSelf` of the old dependency statuses and flag. It leaves the task settled and the dependencies and their statuses unchanged. |
| `Items.Task.MarkAsComplete` | core/src/main/kotlin/io/github/rk012/taskboard/items/Task.kt:22-26 | The outcome and the new state are `TaskRules.MarkAsComplete` of the old ones. On failure neither the flag nor the status is touched, and the dependencies are unchanged. |
| `Items.Task.MarkAsIncomplete` | core/src/main/kotlin/io/github/rk012/taskboard/items/Task.kt:28-31 | The new state is `TaskRules.MarkAsIncomplete` of the old one: the flag is clear, the status is not Complete, the task is settled and the dependencies are unchanged. |

## Behaviour worth knowing

The guard in `markAsComplete()` looks only at the task's current
`status`. It does not re-check the dependencies. Suppose a dependency
regressed and the board's propagation has not yet reached this task, so the
status is still InProgress. Then the guard passes and `isComplete` is set,
but `update()` makes the task NotStarted and clears the flag again. No
exception is raised. The model keeps this behaviour. `TaskRules.MarkAsComplete`
promises Complete after success only when all dependencies are Complete,
or when the task was settled beforehand.

## Left out

- `update()` is modelled as this task's own `updateSelf()`. `TaskObject.update()`
  also propagates the change to the task's dependents. `TaskObject` is not
  part of this model, so that propagation is left out. `TaskRules.Run`
  instead treats a dependency change that reaches this task as an event.
- `TaskObject` keeps only `status` and `dependencies`. Its name, id, time
  (`LocalDateTime`), labels, dependents and constructor are not part of this
  model. A new `Task` therefore receives its `TaskObject` part ready-made, and
  its initial status is whatever that part holds until `updateSelf()` runs.
- Goal, Taskboard (creation and removal of items, the dependency graph with
  its cycle check, labels, queries) and JSON serialization are referenced
  by the source but not part of this model. The only fact taken from the
  board is that a task never depends on itself (`Items.Task.Valid`).
- Exceptions are modelled as an `Outcome` result. Kotlin's unwinding of the
  caller is not modelled.
- The command-line front end, the file handling that locates and saves the
  open taskboard, the table rendering and the message strings are I/O and
  presentation. They are not part of this model.
