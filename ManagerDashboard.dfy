/** The rules of the manager's task page: decisions, task creation and
    deletion, the validation queue and project progress. */
module ManagerDashboard {
  import opened Json
  import opened Wrappers
  import opened StorageService
  import opened TaskModel
  import Seqs
  import JsMath
  import TaskController
  import PerformanceController
  import ValidationController

  /** `handleValidation`: the decision is mapped as the validation
      controller maps it, but the task controller is called directly, so
      no notification is created. */
  method HandleValidation(store: Store, taskId: Value, decision: Value) returns (r: Result<Task>)
    modifies store
    ensures r == TaskController.UpdateOutcome(old(store.GetAll(Tasks)), taskId,
                                               TaskController.ValidationUpdates(ValidationController.DecisionStatus(decision)))
    ensures r.Err? ==> store.data == old(store.data)
    ensures r.Ok? ==> store.data == old(store.data)[Tasks :=
      Updated(old(store.GetAll(Tasks)), taskId, TaskController.ValidationUpdates(ValidationController.DecisionStatus(decision)))]
    ensures store.GetAll(Notifications) == old(store.GetAll(Notifications))
  {
    var validationStatus := if decision == Str("approve") then Str("Validated") else Str("Rejected");
    r := TaskController.ValidateTask(store, taskId, validationStatus);
  }

  /** The new-task form as it opens and as it is reset. */
  function EmptyForm(): Record
  {
    map["title" := Str(""), "projectId" := Str(""), "assigneeId" := Str(""), "priority" := Str("Medium"),
        "deadline" := Str(""), "description" := Str("")]
  }

  /** The data `handleCreateTask` hands to the controller: the form, with
      status 'Not Started', validation status 'None' and the creation
      time. */
  function CreatedRecord(form: Record, createdAt: string): (r: Record)
    ensures Get(r, "status") == Str("Not Started") && Get(r, "validationStatus") == Str("None")
    ensures Get(r, "createdAt") == Str(createdAt)
    ensures forall k :: k in form && k !in {"status", "validationStatus", "createdAt"} ==> Get(r, k) == form[k]
  {
    Merge(form, map["status" := Str("Not Started"), "validationStatus" := Str("None"), "createdAt" := Str(createdAt)])
  }

  /** The page state the modelled handlers change. */
  class ManagerView {
    var newTask: Record
    var isCreateOpen: bool

    constructor()
      ensures newTask == EmptyForm() && !isCreateOpen
    {
      newTask := EmptyForm();
      isCreateOpen := false;
    }

    /** `handleCreateTask`: store the task, close the dialog and reset the
        form. */
    method HandleCreateTask(store: Store, createdAt: string, now: int)
      modifies this, store
      ensures store.data == old(store.data)[Tasks :=
        old(store.GetAll(Tasks)) + [Stamped(CreatedRecord(old(newTask), createdAt), now)]]
      ensures newTask == EmptyForm() && !isCreateOpen
    {
      var t := TaskController.Create(store, Merge(newTask, map["status" := Str("Not Started"),
        "validationStatus" := Str("None"), "createdAt" := Str(createdAt)]), now);
      isCreateOpen := false;
      newTask := EmptyForm();
    }
  }

  /** A task created from the form keeps the form's fields, reads as 'Not
      Started' with validation 'None' (not 'Pending'), and so enters
      neither validation queue. */
  lemma CreatedTaskDefaults(form: Record, createdAt: string, now: int)
    ensures var t := TaskOf(Stamped(CreatedRecord(form, createdAt), now));
      t.status == Str("Not Started") && t.validationStatus == Str("None") &&
      t.title == Get(form, "title") && t.assigneeId == Get(form, "assigneeId") &&
      t !in PendingValidation([t]) && t !in ValidationController.GetPendingValidation([Stamped(CreatedRecord(form, createdAt), now)], Null)
  {
    var r := CreatedRecord(form, createdAt);
    StampedGet(r, now, "status");
    StampedGet(r, now, "validationStatus");
    StampedGet(r, now, "title");
    StampedGet(r, now, "assigneeId");
  }

  /** `handleDeleteTask` as written: after confirmation it calls
      `taskController.delete`, which the task controller does not define,
      so the call throws and nothing is deleted. */
  method HandleDeleteTask(store: Store, taskId: Value, confirmed: bool) returns (r: Result<()>)
    ensures confirmed <==> r.Err?
    ensures confirmed ==> r.error == NotAFunction("delete")
  {
    if confirmed {
      return Err(NotAFunction("delete"));
    }
    return Ok(());
  }

  /** `handleDeleteTask` as evidently intended: after confirmation the task
      is removed from the store; without it the store is unchanged. */
  method HandleDeleteTaskIntended(store: Store, taskId: Value, confirmed: bool)
    modifies store
    ensures confirmed ==> store.data == old(store.data)[Tasks := Deleted(old(store.GetAll(Tasks)), taskId)]
    ensures !confirmed ==> store.data == old(store.data)
  {
    if confirmed {
      store.Delete(Tasks, taskId);
    }
  }

  /** Confirming the deletion of seeded task 101 removes it under the
      intended handler, while the handler as written leaves the store as
      it was. */
  lemma DeleteFindingWitness()
    ensures Deleted(SeedTasks(), Num(101.0)) != SeedTasks()
    ensures |Deleted(SeedTasks(), Num(101.0))| < |SeedTasks()|
  {
    TaskSeedReads(101.0, "Database Schema Design", 1.0, "High", "Completed", "2025-02-15", "Validated");
    var first := SeedTasks()[0];
    assert Id(first) == Num(101.0);
    assert first in SeedTasks() && first !in Deleted(SeedTasks(), Num(101.0));
    DeletedShorter(SeedTasks(), Num(101.0), 0);
  }

  /** Deleting an id some record carries shortens the list. */
  lemma {:induction false} DeletedShorter(items: seq<Record>, id: Value, i: nat)
    requires i < |items| && Id(items[i]) == id
    ensures |Deleted(items, id)| < |items|
    decreases |items|
  {
    var p := (x: Record) => Id(x) != id;
    assert items == items[..i] + items[i..];
    assert items[i..] == [items[i]] + items[i + 1..];
    Seqs.FilterAppend(items[..i], items[i..], p);
    Seqs.FilterAppend([items[i]], items[i + 1..], p);
    Seqs.FilterDropsAll([items[i]], p);
  }

  predicate IsPending(t: Task)
  {
    t.validationStatus == Str("Pending")
  }

  /** `pendingValidation`: every task whose validation is Pending, whatever
      its status. */
  function PendingValidation(allTasks: seq<Task>): (r: seq<Task>)
    ensures forall t :: t in r <==> t in allTasks && t.validationStatus == Str("Pending")
    ensures Seqs.IsSubseq(r, allTasks)
    ensures forall x {:trigger multiset(r)[x]} :: multiset(r)[x] == if x.validationStatus == Str("Pending") then multiset(allTasks)[x] else 0
  {
    Seqs.FilterMultiset(allTasks, IsPending);
    Seqs.Filter(allTasks, IsPending)
  }

  /** The controller's queue is the page's queue narrowed to completed
      tasks, so the page's queue contains it. */
  lemma QueueContainsControllerQueue(stored: seq<Record>, managerId: Value)
    ensures ValidationController.GetPendingValidation(stored, managerId) ==
      Seqs.Filter(PendingValidation(TaskController.GetAll(stored)), PerformanceController.IsCompleted)
    ensures Seqs.IsSubseq(ValidationController.GetPendingValidation(stored, managerId),
                          PendingValidation(TaskController.GetAll(stored)))
  {
    var all := TaskController.GetAll(stored);
    Seqs.FilterFilter(all, IsPending, PerformanceController.IsCompleted, ValidationController.AwaitsValidation);
  }

  /** On the seeded tasks the page lists tasks 102 to 105, none of them
      completed, while the controller's queue is empty. */
  lemma SeedQueues(managerId: Value)
    ensures PendingValidation(TaskController.GetAll(SeedTasks())) == TaskController.GetAll(SeedTasks())[1..]
    ensures forall t :: t in PendingValidation(TaskController.GetAll(SeedTasks())) ==> t.status != Str("Completed")
    ensures ValidationController.GetPendingValidation(SeedTasks(), managerId) == []
  {
    TaskController.SeedTasksRead();
    var all := TaskController.GetAll(SeedTasks());
    assert all == [all[0]] + all[1..];
    Seqs.FilterDropsAll([all[0]], IsPending);
    Seqs.FilterKeepsAll(all[1..], IsPending);
    Seqs.FilterAppend([all[0]], all[1..], IsPending);
    ValidationController.SeedQueueEmpty(managerId);
  }

  predicate IsDone(t: Task)
  {
    t.status == Str("Completed") || t.validationStatus == Str("Validated")
  }

  /** The progress figure of a project row: the rounded share of its tasks
      that are completed or validated, 0 for a project without tasks.
      Tasks belong to the project whose id equals theirs strictly. */
  function ProjectProgress(allTasks: seq<Task>, projectId: Value): (r: int)
    ensures 0 <= r <= 100
    ensures var mine := Seqs.Filter(allTasks, (t: Task) => t.projectId == projectId);
      (|mine| == 0 ==> r == 0) &&
      (|mine| > 0 ==> r == (200 * |Seqs.Filter(mine, IsDone)| + |mine|) / (2 * |mine|))
  {
    var projectTasks := Seqs.Filter(allTasks, (t: Task) => t.projectId == projectId);
    var completed := |Seqs.Filter(projectTasks, IsDone)|;
    if |projectTasks| > 0 then
      JsMath.PercentExact(completed, |projectTasks|);
      JsMath.PercentBounds(completed, |projectTasks|);
      JsMath.Percent(completed, |projectTasks|)
    else 0
  }

  /** The page never shows less progress than the performance controller
      computes for the same project, since validated tasks count too. */
  lemma ProgressAtLeastController(stored: seq<Record>, projectId: Value)
    ensures ProjectProgress(TaskController.GetAll(stored), projectId) >=
            PerformanceController.CalculateProjectProgress(stored, projectId)
  {
    var mine := TaskController.GetByProject(stored, projectId);
    if |mine| > 0 {
      Seqs.FilterLengthMono(mine, PerformanceController.IsCompleted, IsDone);
      var c1 := |Seqs.Filter(mine, PerformanceController.IsCompleted)|;
      var c2 := |Seqs.Filter(mine, IsDone)|;
      JsMath.PercentExact(c1, |mine|);
      JsMath.PercentExact(c2, |mine|);
      JsMath.PercentMono(c1, c2, |mine|);
    }
  }
}
