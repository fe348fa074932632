/** The Task status rules on values: what updateSelf(), markAsComplete() and
    markAsIncomplete() do to a task's own state, given the statuses of its
    dependencies. The class Items.Task is proved against these functions. */
module TaskRules {
  import opened Taskboard

  /** The part of a Task that its operations change: the `status` it inherits
      from TaskObject and its private manual completion flag. */
  datatype TaskState = TaskState(status: TaskStatus, isComplete: bool)

  /** Every dependency has reached Complete (vacuously so when there are none). */
  predicate AllComplete(deps: seq<TaskStatus>)
  {
    forall i :: 0 <= i < |deps| ==> deps[i] == Complete
  }

  /** updateSelf(): walk the dependencies in order; at the first one that is
      not complete, the task becomes NotStarted and loses its completion flag;
      if the walk finishes, the flag alone decides between Complete and
      InProgress. The status the task had before plays no part. */
  function UpdateSelf(deps: seq<TaskStatus>, isComplete: bool): (r: TaskState)
    ensures r.status == NotStarted <==> !AllComplete(deps)
    ensures r.status == Complete <==> AllComplete(deps) && isComplete
    ensures r.status == InProgress <==> AllComplete(deps) && !isComplete
    ensures r.isComplete <==> AllComplete(deps) && isComplete
    decreases |deps|
  {
    if deps == [] then
      TaskState(if isComplete then Complete else InProgress, isComplete)
    else if deps[0] != Complete then
      TaskState(NotStarted, false)
    else
      assert forall i :: 1 <= i < |deps| ==> deps[i] == deps[1..][i - 1];
      UpdateSelf(deps[1..], isComplete)
  }

  /** The task's state is what updateSelf() would make it now: the status is
      not stale with respect to the dependencies and the flag. */
  predicate Settled(deps: seq<TaskStatus>, st: TaskState)
  {
    UpdateSelf(deps, st.isComplete) == st
  }

  /** markAsComplete(): raises MissingTaskReqsException, touching nothing,
      unless the task is InProgress; otherwise sets the flag and runs
      updateSelf(). */
  function MarkAsComplete(deps: seq<TaskStatus>, st: TaskState): (r: (Outcome, TaskState))
    ensures r.0 == Fail(MissingTaskReqsException) <==> st.status != InProgress
    ensures r.0.Fail? ==> r.1 == st
    ensures r.0.Pass? ==> (r.1.status == Complete <==> AllComplete(deps))
    ensures r.0.Pass? && Settled(deps, st) ==> r.1 == TaskState(Complete, true)
    ensures r.0.Pass? ==> Settled(deps, r.1)
  {
    if st.status != InProgress then (Fail(MissingTaskReqsException), st)
    else (Pass, UpdateSelf(deps, true))
  }

  /** markAsIncomplete(): never fails; clears the flag and runs updateSelf(). */
  function MarkAsIncomplete(deps: seq<TaskStatus>, st: TaskState): (r: TaskState)
    ensures !r.isComplete && r.status != Complete
    ensures r.status == NotStarted <==> !AllComplete(deps)
    ensures Settled(deps, r)
  {
    UpdateSelf(deps, false)
  }

  /** A settled task has exactly the shape the status rule allows: its status
      is Complete exactly when its flag is set, and NotStarted exactly when
      some dependency is not complete. */
  lemma SettledIff(deps: seq<TaskStatus>, st: TaskState)
    ensures Settled(deps, st) <==>
              (st.status == Complete <==> st.isComplete) &&
              (st.status == NotStarted <==> !AllComplete(deps))
  {
  }

  /** Running updateSelf() twice with the same dependency statuses gives the
      same status and flag as running it once. */
  lemma UpdateSelfIdempotent(deps: seq<TaskStatus>, isComplete: bool)
    ensures var once := UpdateSelf(deps, isComplete);
            UpdateSelf(deps, once.isComplete) == once
  {
  }

  /** markAsIncomplete() twice has the same effect as once. */
  lemma MarkAsIncompleteIdempotent(deps: seq<TaskStatus>, st: TaskState)
    ensures MarkAsIncomplete(deps, MarkAsIncomplete(deps, st)) == MarkAsIncomplete(deps, st)
  {
  }

  /** What can happen to one task over time: its own two operations, and a
      change in its dependencies' statuses after which update() reaches this
      task (which is what the board's propagation to dependents is for). */
  datatype Event =
    | MarkComplete
    | MarkIncomplete
    | DependenciesUpdated(deps: seq<TaskStatus>)

  /** The dependency statuses a task currently sees, and its own state. */
  datatype Snapshot = Snapshot(deps: seq<TaskStatus>, state: TaskState)

  /** One event. A failed markAsComplete() leaves the task as it was. */
  function Step(s: Snapshot, e: Event): (r: Snapshot)
    ensures Settled(s.deps, s.state) ==> Settled(r.deps, r.state)
    ensures e.DependenciesUpdated? ==> r.deps == e.deps && Settled(r.deps, r.state)
    ensures !e.DependenciesUpdated? ==> r.deps == s.deps
  {
    match e
    case MarkComplete => Snapshot(s.deps, MarkAsComplete(s.deps, s.state).1)
    case MarkIncomplete => Snapshot(s.deps, MarkAsIncomplete(s.deps, s.state))
    case DependenciesUpdated(d) => Snapshot(d, UpdateSelf(d, s.state.isComplete))
  }

  /** A sequence of events, in order. Starting from a settled task, the task
      is settled after every sequence: its status is never stale and it is
      Complete only while it is marked complete and all of its dependencies
      are complete. */
  function Run(s: Snapshot, events: seq<Event>): (r: Snapshot)
    ensures Settled(s.deps, s.state) ==> Settled(r.deps, r.state)
    ensures Settled(s.deps, s.state) && r.state.status == Complete ==>
              r.state.isComplete && AllComplete(r.deps)
    decreases |events|
  {
    if events == [] then s else Run(Step(s, events[0]), events[1..])
  }

  /** A task whose dependency regresses loses its manual completion: once the
      dependencies are all complete again it is InProgress, not Complete,
      whatever its state was before. */
  lemma RegressionForgetsCompletion(s: Snapshot, regressed: seq<TaskStatus>, recovered: seq<TaskStatus>)
    requires !AllComplete(regressed) && AllComplete(recovered)
    ensures Run(s, [DependenciesUpdated(regressed), DependenciesUpdated(recovered)]).state
            == TaskState(InProgress, false)
  {
    var s1 := Step(s, DependenciesUpdated(regressed));
    assert s1.state == TaskState(NotStarted, false);
    var s2 := Step(s1, DependenciesUpdated(recovered));
    assert [DependenciesUpdated(regressed), DependenciesUpdated(recovered)][1..] == [DependenciesUpdated(recovered)];
    assert Run(s1, [DependenciesUpdated(recovered)]) == Run(s2, []);
  }
}
