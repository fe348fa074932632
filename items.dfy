/** The taskboard items as objects. A Task updates its fields in place;
    its superclass TaskObject is modelled as a separate object that the Task
    owns (its `base`), holding the fields the Task inherits. */
module Items {
  import opened Taskboard
  import TaskRules

  /** The part of a Task or Goal that other items see: its status and the
      items it depends on. Only the fields the Task logic reads and writes
      are kept. */
  class TaskObject {
    var status: TaskStatus
    var dependencies: seq<TaskObject>
  }

  /** The statuses of a list of items, in order. */
  function Statuses(objs: seq<TaskObject>): (r: seq<TaskStatus>)
    reads objs
    ensures |r| == |objs|
    ensures forall i :: 0 <= i < |objs| ==> r[i] == objs[i].status
  {
    seq(|objs|, i reads objs requires 0 <= i < |objs| => objs[i].status)
  }

  class Task {
    /** The TaskObject this Task extends: it holds `status` and `dependencies`. */
    const base: TaskObject
    /** Set by markAsComplete(), cleared by markAsIncomplete() and by
        updateSelf() when a dependency is not complete. */
    var isComplete: bool

    /** A task never depends on itself (the board keeps dependencies acyclic). */
    ghost predicate Valid()
      reads this, base
    {
      base !in base.dependencies
    }

    /** The statuses of this task's dependencies. */
    function DependencyStatuses(): seq<TaskStatus>
      reads this, base, base.dependencies
    {
      Statuses(base.dependencies)
    }

    /** This task's own state as a value. */
    function State(): TaskRules.TaskState
      reads this, base
    {
      TaskRules.TaskState(base.status, isComplete)
    }

    /** The status agrees with the dependencies and the flag. */
    ghost predicate Settled()
      reads this, base, base.dependencies
    {
      TaskRules.Settled(DependencyStatuses(), State())
    }

    /** A new task starts with its completion flag cleared. Building the
        TaskObject part (name, id, time, initial status) is TaskObject's
        job and is not part of this model, so it is passed in; a new item
        has no dependencies yet. */
    constructor (base: TaskObject)
      requires base.dependencies == []
      ensures this.base == base && !isComplete && Valid()
    {
      this.base := base;
      isComplete := false;
    }

    /** updateSelf(): derive `status` from the dependencies and the flag,
        clearing the flag when a dependency is not complete. */
    method UpdateSelf()
      requires Valid()
      modifies this, base
      ensures Valid() && base.dependencies == old(base.dependencies)
      ensures DependencyStatuses() == old(DependencyStatuses())
      ensures State() == TaskRules.UpdateSelf(old(DependencyStatuses()), old(isComplete))
      ensures Settled()
    {
      var deps := base.dependencies;
      var i := 0;
      while i < |deps|
        invariant 0 <= i <= |deps|
        invariant forall j :: 0 <= j < i ==> deps[j].status == Complete
      {
        if deps[i].status != Complete {
          base.status := NotStarted;
          isComplete := false;
          return;
        }
        i := i + 1;
      }
      base.status := if isComplete then Complete else InProgress;
    }

    /** markAsComplete(): only a task that is InProgress may be completed;
        any other raises MissingTaskReqsException before anything changes.
        update() is this task's own updateSelf(); the propagation to
        dependents that TaskObject.update() performs is not modelled. */
    method MarkAsComplete() returns (outcome: Outcome)
      requires Valid()
      modifies this, base
      ensures Valid() && base.dependencies == old(base.dependencies)
      ensures DependencyStatuses() == old(DependencyStatuses())
      ensures (outcome, State()) == TaskRules.MarkAsComplete(old(DependencyStatuses()), old(State()))
      ensures outcome.Fail? ==> isComplete == old(isComplete) && base.status == old(base.status)
      ensures outcome.Pass? ==> Settled()
    {
      if base.status != InProgress {
        return Fail(MissingTaskReqsException);
      }
      isComplete := true;
      UpdateSelf();
      outcome := Pass;
    }

    /** markAsIncomplete(): always succeeds; clears the flag and runs update(). */
    method MarkAsIncomplete()
      requires Valid()
      modifies this, base
      ensures Valid() && base.dependencies == old(base.dependencies)
      ensures DependencyStatuses() == old(DependencyStatuses())
      ensures State() == TaskRules.MarkAsIncomplete(old(DependencyStatuses()), old(State()))
      ensures !isComplete && base.status != Complete && Settled()
    {
      isComplete := false;
      UpdateSelf();
    }
  }

  /** Two tasks, B depending on A, driven through the states a user sees:
      B cannot be completed before A, and becomes InProgress once A is
      complete and B is updated. */
  method TwoTaskScenario()
  {
    var objA := new TaskObject;
    objA.dependencies := [];
    var a := new Task(objA);
    a.UpdateSelf();
    assert a.base.status == InProgress;

    var objB := new TaskObject;
    objB.dependencies := [];
    var b := new Task(objB);
    objB.dependencies := [objA];
    b.UpdateSelf();
    assert b.base.status == NotStarted;

    var early := b.MarkAsComplete();
    assert early == Fail(MissingTaskReqsException);

    var done := a.MarkAsComplete();
    assert done == Pass && a.base.status == Complete;
    b.UpdateSelf();
    assert b.base.status == InProgress;

    done := b.MarkAsComplete();
    assert done == Pass && b.base.status == Complete;

    a.MarkAsIncomplete();
    b.UpdateSelf();
    assert a.base.status == InProgress && b.base.status == NotStarted && !b.isComplete;
  }
}
