/** Task reads and the two task transitions. Reads take the stored task
    list, that is `store.GetAll(Tasks)`; transitions act on the store. */
module TaskController {
  import opened Json
  import opened Wrappers
  import opened StorageService
  import opened TaskModel
  import Seqs

  /** `getAll`: every stored task, wrapped, in storage order. */
  function GetAll(stored: seq<Record>): (ts: seq<Task>)
    ensures |ts| == |stored|
    ensures forall i :: 0 <= i < |stored| ==> ts[i] == TaskOf(stored[i])
  {
    Seqs.Map(stored, TaskOf)
  }

  /** `getByEmployee`: exactly the tasks assigned to that employee, in
      storage order. */
  function GetByEmployee(stored: seq<Record>, employeeId: Value): (ts: seq<Task>)
    ensures forall t :: t in ts <==> t in GetAll(stored) && t.assigneeId == employeeId
    ensures Seqs.IsSubseq(ts, GetAll(stored))
    ensures forall x {:trigger multiset(ts)[x]} :: multiset(ts)[x] == if x.assigneeId == employeeId then multiset(GetAll(stored))[x] else 0
  {
    Seqs.FilterMultiset(GetAll(stored), (t: Task) => t.assigneeId == employeeId);
    Seqs.Filter(GetAll(stored), (t: Task) => t.assigneeId == employeeId)
  }

  /** `getByProject`: exactly the tasks whose project id is strictly equal
      to the given one, in storage order. */
  function GetByProject(stored: seq<Record>, projectId: Value): (ts: seq<Task>)
    ensures forall t :: t in ts <==> t in GetAll(stored) && t.projectId == projectId
    ensures Seqs.IsSubseq(ts, GetAll(stored))
    ensures forall x {:trigger multiset(ts)[x]} :: multiset(ts)[x] == if x.projectId == projectId then multiset(GetAll(stored))[x] else 0
  {
    Seqs.FilterMultiset(GetAll(stored), (t: Task) => t.projectId == projectId);
    Seqs.Filter(GetAll(stored), (t: Task) => t.projectId == projectId)
  }

  /** Project ids compare strictly: a task filed under the string '1' is
      not a task of project 1. */
  lemma ProjectIdStrict(stored: seq<Record>, i: nat)
    requires i < |stored| && Get(stored[i], "projectId") == Str("1")
    ensures TaskOf(stored[i]) in GetAll(stored)
    ensures TaskOf(stored[i]) !in GetByProject(stored, Num(1.0))
  {
    assert GetAll(stored)[i] == TaskOf(stored[i]);
  }

  /** The updates `updateStatus` writes: the status, and a Pending
      validation exactly when the status is 'Completed'. */
  function StatusUpdates(status: Value): (u: Record)
    ensures "status" in u && u["status"] == status
    ensures "validationStatus" in u <==> status == Str("Completed")
    ensures "validationStatus" in u ==> u["validationStatus"] == Str("Pending")
    ensures u.Keys <= {"status", "validationStatus"}
  {
    var updates := map["status" := status];
    if status == Str("Completed") then updates["validationStatus" := Str("Pending")] else updates
  }

  /** The updates `validateTask` writes: the validation status, and status
      'In Progress' exactly when the validation is 'Rejected'. */
  function ValidationUpdates(validationStatus: Value): (u: Record)
    ensures "validationStatus" in u && u["validationStatus"] == validationStatus
    ensures "status" in u <==> validationStatus == Str("Rejected")
    ensures "status" in u ==> u["status"] == Str("In Progress")
    ensures u.Keys <= {"status", "validationStatus"}
  {
    var updates := map["validationStatus" := validationStatus];
    if validationStatus == Str("Rejected") then updates["status" := Str("In Progress")] else updates
  }

  /** `new Task(storageService.update(...))`: the merged record wrapped, or
      the TypeError raised by wrapping null when no task has that id. */
  function UpdateOutcome(stored: seq<Record>, id: Value, updates: Record): (r: Result<Task>)
    ensures r.Err? <==> FindIndex(stored, id).None?
    ensures r.Err? ==> r.error == ReadOfNull
    ensures r.Ok? ==> r.value == TaskOf(Updated(stored, id, updates)[FindIndex(stored, id).value])
  {
    match FindIndex(stored, id)
    case None => Err(ReadOfNull)
    case Some(i) => Ok(TaskOf(Merge(stored[i], updates)))
  }

  /** `create`: store the task data under a fresh id and wrap it. */
  method Create(store: Store, taskData: Record, now: int) returns (t: Task)
    modifies store
    ensures t == TaskOf(Stamped(taskData, now))
    ensures store.data == old(store.data)[Tasks := old(store.GetAll(Tasks)) + [Stamped(taskData, now)]]
  {
    var created := store.Create(Tasks, taskData, now);
    t := TaskOf(created);
  }

  /** `updateStatus`: no check of the current state is made. */
  method UpdateStatus(store: Store, taskId: Value, status: Value) returns (r: Result<Task>)
    modifies store
    ensures r == UpdateOutcome(old(store.GetAll(Tasks)), taskId, StatusUpdates(status))
    ensures r.Err? ==> store.data == old(store.data)
    ensures r.Ok? ==> store.data == old(store.data)[Tasks := Updated(old(store.GetAll(Tasks)), taskId, StatusUpdates(status))]
  {
    var updates := map["status" := status];
    if status == Str("Completed") {
      updates := updates["validationStatus" := Str("Pending")];
    }
    var written := store.Update(Tasks, taskId, updates);
    if written.None? {
      return Err(ReadOfNull);
    }
    return Ok(TaskOf(written.value));
  }

  /** `validateTask`: no check of the current state is made. */
  method ValidateTask(store: Store, taskId: Value, validationStatus: Value) returns (r: Result<Task>)
    modifies store
    ensures r == UpdateOutcome(old(store.GetAll(Tasks)), taskId, ValidationUpdates(validationStatus))
    ensures r.Err? ==> store.data == old(store.data)
    ensures r.Ok? ==> store.data == old(store.data)[Tasks := Updated(old(store.GetAll(Tasks)), taskId, ValidationUpdates(validationStatus))]
  {
    var updates := map["validationStatus" := validationStatus];
    if validationStatus == Str("Rejected") {
      updates := updates["status" := Str("In Progress")];
    }
    var written := store.Update(Tasks, taskId, updates);
    if written.None? {
      return Err(ReadOfNull);
    }
    return Ok(TaskOf(written.value));
  }

  /** Completing a task makes it Pending whatever its validation was. */
  lemma CompletedForcesPending(stored: seq<Record>, id: Value)
    requires FindIndex(stored, id).Some?
    ensures UpdateOutcome(stored, id, StatusUpdates(Str("Completed"))).Ok?
    ensures UpdateOutcome(stored, id, StatusUpdates(Str("Completed"))).value.status == Str("Completed")
    ensures UpdateOutcome(stored, id, StatusUpdates(Str("Completed"))).value.validationStatus == Str("Pending")
  {
  }

  /** Any other status changes the status alone: the task is the stored one
      with that status, and its validation stays as it was, so a Validated
      task moved back to 'In Progress' remains Validated. */
  lemma OtherStatusKeepsValidation(stored: seq<Record>, id: Value, status: Value)
    requires FindIndex(stored, id).Some? && status != Str("Completed")
    ensures var i := FindIndex(stored, id).value;
      UpdateOutcome(stored, id, StatusUpdates(status)) == Ok(TaskOf(stored[i]["status" := status])) &&
      UpdateOutcome(stored, id, StatusUpdates(status)).value.validationStatus == TaskOf(stored[i]).validationStatus
  {
    var i := FindIndex(stored, id).value;
    assert Merge(stored[i], StatusUpdates(status)) == stored[i]["status" := status];
  }

  /** A rejection sends the task back to 'In Progress'. */
  lemma RejectedSendsBack(stored: seq<Record>, id: Value)
    requires FindIndex(stored, id).Some?
    ensures UpdateOutcome(stored, id, ValidationUpdates(Str("Rejected"))).Ok?
    ensures UpdateOutcome(stored, id, ValidationUpdates(Str("Rejected"))).value.validationStatus == Str("Rejected")
    ensures UpdateOutcome(stored, id, ValidationUpdates(Str("Rejected"))).value.status == Str("In Progress")
  {
  }

  /** Any other validation value changes the validation status alone. */
  lemma OtherValidationKeepsStatus(stored: seq<Record>, id: Value, validationStatus: Value)
    requires FindIndex(stored, id).Some? && validationStatus != Str("Rejected")
    ensures var i := FindIndex(stored, id).value;
      UpdateOutcome(stored, id, ValidationUpdates(validationStatus)) ==
        Ok(TaskOf(stored[i]["validationStatus" := validationStatus])) &&
      UpdateOutcome(stored, id, ValidationUpdates(validationStatus)).value.status == TaskOf(stored[i]).status
  {
    var i := FindIndex(stored, id).value;
    assert Merge(stored[i], ValidationUpdates(validationStatus)) == stored[i]["validationStatus" := validationStatus];
  }

  /** The seeded tasks as the controller reads them. */
  lemma SeedTasksRead()
    ensures GetAll(SeedTasks()) == [
      Task(Num(101.0), Str("Database Schema Design"), Num(1.0), Str("employee"), Str("High"), Str("Completed"), Str("2025-02-15"), Str("Validated")),
      Task(Num(102.0), Str("API Authentication"), Num(1.0), Str("employee"), Str("Critical"), Str("In Progress"), Str("2025-02-20"), Str("Pending")),
      Task(Num(103.0), Str("Frontend Dashboard"), Num(1.0), Str("employee"), Str("Medium"), Str("Not Started"), Str("2025-02-28"), Str("Pending")),
      Task(Num(104.0), Str("Social Media Assets"), Num(2.0), Str("employee"), Str("High"), Str("In Progress"), Str("2025-02-25"), Str("Pending")),
      Task(Num(105.0), Str("Email Templates"), Num(2.0), Str("employee"), Str("Low"), Str("Not Started"), Str("2025-03-05"), Str("Pending"))]
  {
    TaskSeedReads(101.0, "Database Schema Design", 1.0, "High", "Completed", "2025-02-15", "Validated");
    TaskSeedReads(102.0, "API Authentication", 1.0, "Critical", "In Progress", "2025-02-20", "Pending");
    TaskSeedReads(103.0, "Frontend Dashboard", 1.0, "Medium", "Not Started", "2025-02-28", "Pending");
    TaskSeedReads(104.0, "Social Media Assets", 2.0, "High", "In Progress", "2025-02-25", "Pending");
    TaskSeedReads(105.0, "Email Templates", 2.0, "Low", "Not Started", "2025-03-05", "Pending");
  }
}
