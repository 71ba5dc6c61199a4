/** The rules of the employee's task page: the ten-minute lock, the three
    tabs, the editability of the status control and the status selection. */
module EmployeeDashboard {
  import opened Json
  import opened Wrappers
  import opened StorageService
  import opened TaskModel
  import Seqs
  import TaskController

  /** Ten minutes in milliseconds. */
  const LockWindow: int := 10 * 60 * 1000

  /** `isTaskLocked(task)`. `completedAtMs` is the time `new Date(...)`
      parses from the completion stamp (None when it does not parse), and
      `now` is `Date.now()`. A task locks strictly more than ten minutes
      after it was completed. */
  function IsTaskLocked(row: Record, completedAtMs: Option<int>, now: int): (locked: bool)
    ensures locked ==> Get(row, "status") == Str("Completed") && Truthy(Get(row, "completedAt"))
    ensures Get(row, "status") == Str("Completed") && Truthy(Get(row, "completedAt")) && completedAtMs.Some? ==>
      (locked <==> now - completedAtMs.value > 600000)
    ensures completedAtMs.None? ==> !locked
  {
    if Get(row, "status") != Str("Completed") || !Truthy(Get(row, "completedAt")) then false
    else
      match completedAtMs
      case None => false
      case Some(t) => now - t > LockWindow
  }

  /** The page reads its tasks through the controller, whose wrapper drops
      the completion stamp: such a task is never locked. */
  lemma ControllerTasksNeverLock(t: Task, completedAtMs: Option<int>, now: int)
    ensures !IsTaskLocked(ToRecord(t), completedAtMs, now)
  {
    TaskDropsFields(map[], "completedAt");
    assert "completedAt" !in ToRecord(t);
  }

  predicate InActiveTab(t: Task)
  {
    (t.status != Str("Completed") && t.validationStatus != Str("Validated")) || t.validationStatus == Str("Rejected")
  }

  predicate InReviewTab(t: Task)
  {
    t.status == Str("Completed") && t.validationStatus == Str("Pending")
  }

  predicate InHistoryTab(t: Task)
  {
    t.validationStatus == Str("Validated")
  }

  /** `activeTasks`: unfinished work and rejected work, in order. */
  function ActiveTasks(tasks: seq<Task>): (r: seq<Task>)
    ensures forall t :: t in r <==> t in tasks && InActiveTab(t)
    ensures Seqs.IsSubseq(r, tasks)
    ensures forall x {:trigger multiset(r)[x]} :: multiset(r)[x] == if InActiveTab(x) then multiset(tasks)[x] else 0
  {
    Seqs.FilterMultiset(tasks, InActiveTab);
    Seqs.Filter(tasks, InActiveTab)
  }

  /** `reviewTasks`: completed work awaiting validation, in order. */
  function ReviewTasks(tasks: seq<Task>): (r: seq<Task>)
    ensures forall t :: t in r <==> t in tasks && InReviewTab(t)
    ensures Seqs.IsSubseq(r, tasks)
    ensures forall x {:trigger multiset(r)[x]} :: multiset(r)[x] == if InReviewTab(x) then multiset(tasks)[x] else 0
  {
    Seqs.FilterMultiset(tasks, InReviewTab);
    Seqs.Filter(tasks, InReviewTab)
  }

  /** `historyTasks`: validated work, in order. */
  function HistoryTasks(tasks: seq<Task>): (r: seq<Task>)
    ensures forall t :: t in r <==> t in tasks && InHistoryTab(t)
    ensures Seqs.IsSubseq(r, tasks)
    ensures forall x {:trigger multiset(r)[x]} :: multiset(r)[x] == if InHistoryTab(x) then multiset(tasks)[x] else 0
  {
    Seqs.FilterMultiset(tasks, InHistoryTab);
    Seqs.Filter(tasks, InHistoryTab)
  }

  /** No task sits in two tabs. */
  lemma TabsDisjoint(tasks: seq<Task>)
    ensures forall t :: t in ActiveTasks(tasks) ==> t !in ReviewTasks(tasks) && t !in HistoryTasks(tasks)
    ensures forall t :: t in ReviewTasks(tasks) ==> t !in HistoryTasks(tasks)
  {
  }

  /** Some tasks sit in no tab: a completed task whose validation status is
      'None', as a manager creates it and then sees it completed, or a
      completed task without a pending review. */
  lemma TabsNotExhaustive(t: Task)
    requires t.status == Str("Completed") && t.validationStatus == Str("None")
    ensures t !in ActiveTasks([t]) && t !in ReviewTasks([t]) && t !in HistoryTasks([t])
  {
  }

  /** The status control is offered unless the task is validated, or is
      completed and locked. */
  predicate Editable(t: Task, locked: bool)
  {
    !(t.validationStatus == Str("Validated") || (t.status == Str("Completed") && locked))
  }

  /** Since tasks read through the controller never lock, the control is
      offered exactly for the tasks that are not validated. */
  lemma EditableUnlessValidated(t: Task, completedAtMs: Option<int>, now: int)
    ensures Editable(t, IsTaskLocked(ToRecord(t), completedAtMs, now)) <==> t.validationStatus != Str("Validated")
  {
    ControllerTasksNeverLock(t, completedAtMs, now);
  }

  /** `handleSelect` followed by `handleStatusChange`: choosing the
      current status issues no update; any other choice is handed to the
      controller's `updateStatus`. */
  method HandleSelect(store: Store, task: Task, newValue: Value)
    modifies store
    ensures newValue == task.status ==> store.data == old(store.data)
    ensures newValue != task.status && FindIndex(old(store.GetAll(Tasks)), task.id).Some? ==>
      store.data == old(store.data)[Tasks := Updated(old(store.GetAll(Tasks)), task.id, TaskController.StatusUpdates(newValue))]
    ensures FindIndex(old(store.GetAll(Tasks)), task.id).None? ==> store.data == old(store.data)
  {
    if newValue != task.status {
      var updated := TaskController.UpdateStatus(store, task.id, newValue);
    }
  }
}
