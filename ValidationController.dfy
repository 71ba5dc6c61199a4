/** The manager's decision on a task: update the task, then notify its
    assignee; and the controller's pending-validation queue. */
module ValidationController {
  import opened Json
  import opened Wrappers
  import opened StorageService
  import opened TaskModel
  import Seqs
  import TaskController
  import NotificationController

  /** 'approve' validates; every other decision rejects. */
  function DecisionStatus(decision: Value): (s: Value)
    ensures s == Str("Validated") <==> decision == Str("approve")
    ensures s == Str("Rejected") <==> decision != Str("approve")
  {
    if decision == Str("approve") then Str("Validated") else Str("Rejected")
  }

  /** The notification type: 'success' on approval, 'warning' otherwise. */
  function DecisionType(decision: Value): (kind: Value)
    ensures kind == Str("success") <==> decision == Str("approve")
    ensures kind == Str("warning") <==> decision != Str("approve")
  {
    if decision == Str("approve") then Str("success") else Str("warning")
  }

  /** The notification text, quoting the task title. */
  function DecisionMessage(title: Value, decision: Value): (m: string)
    ensures var head := "Task \"" + Display(title) + "\" "; |head| <= |m| && m[..|head|] == head
    ensures |m| > 10 && (m[|m| - 10..] == "validated." <==> decision == Str("approve"))
  {
    if decision == Str("approve") then "Task \"" + Display(title) + "\" has been validated."
    else
      var head, tail := "Task \"" + Display(title), "\" was rejected. Please review.";
      assert (head + tail)[|head + tail| - 10..] == tail[|tail| - 10..];
      head + tail
  }

  /** The assignee can always tell the decision from the text: an approval
      message ends in "validated." and a rejection message in "review.",
      whatever the titles. */
  lemma MessagesDistinguishDecision(title1: Value, title2: Value, other: Value)
    requires other != Str("approve")
    ensures DecisionMessage(title1, Str("approve")) != DecisionMessage(title2, other)
  {
    var m1 := DecisionMessage(title1, Str("approve"));
    var m2 := DecisionMessage(title2, other);
    assert m1[|m1| - 2] == 'd';
    assert m2[|m2| - 2] == 'w';
  }

  /** `validateTask`: the decision is applied whatever the task's current
      state. An unknown task id fails in the task update, before any
      notification is created; otherwise exactly one notification is
      appended, addressed to the task's assignee. Feedback and the manager
      id play no part. */
  method ValidateTask(store: Store, taskId: Value, decision: Value, managerId: Value, feedback: Value,
                      nowIso: string, now: int) returns (r: Result<Task>)
    modifies store
    ensures r == TaskController.UpdateOutcome(old(store.GetAll(Tasks)), taskId,
                                               TaskController.ValidationUpdates(DecisionStatus(decision)))
    ensures r.Err? ==> store.data == old(store.data)
    ensures r.Ok? ==>
      store.data == old(store.data)
        [Tasks := Updated(old(store.GetAll(Tasks)), taskId, TaskController.ValidationUpdates(DecisionStatus(decision)))]
        [Notifications := old(store.GetAll(Notifications)) +
          [Stamped(NotificationController.NoteRecord(r.value.assigneeId, Str(DecisionMessage(r.value.title, decision)),
                                                     DecisionType(decision), nowIso), now)]]
  {
    var status := if decision == Str("approve") then Str("Validated") else Str("Rejected");
    var task := TaskController.ValidateTask(store, taskId, status);
    if task.Err? {
      return task;
    }
    var kind := if decision == Str("approve") then Str("success") else Str("warning");
    var message := if decision == Str("approve")
      then "Task \"" + Display(task.value.title) + "\" has been validated."
      else "Task \"" + Display(task.value.title) + "\" was rejected. Please review.";
    var note := NotificationController.Create(store, task.value.assigneeId, Str(message), kind, nowIso, now);
    return task;
  }

  /** What a decision does to the task: approval validates it and keeps
      its status; any other decision rejects it and sends it back to 'In
      Progress'. */
  lemma DecisionOutcome(stored: seq<Record>, taskId: Value, decision: Value)
    requires FindIndex(stored, taskId).Some?
    ensures var r := TaskController.UpdateOutcome(stored, taskId, TaskController.ValidationUpdates(DecisionStatus(decision)));
      var before := TaskOf(stored[FindIndex(stored, taskId).value]);
      r.Ok? && r.value.id == before.id && r.value.assigneeId == before.assigneeId &&
      (decision == Str("approve") ==> r.value.validationStatus == Str("Validated") && r.value.status == before.status) &&
      (decision != Str("approve") ==> r.value.validationStatus == Str("Rejected") && r.value.status == Str("In Progress"))
  {
    if decision == Str("approve") {
      TaskController.OtherValidationKeepsStatus(stored, taskId, Str("Validated"));
    } else {
      TaskController.RejectedSendsBack(stored, taskId);
    }
  }

  predicate AwaitsValidation(t: Task)
  {
    t.validationStatus == Str("Pending") && t.status == Str("Completed")
  }

  /** `getPendingValidation`: exactly the tasks that are Completed and
      Pending, in storage order, whatever the manager. */
  function GetPendingValidation(stored: seq<Record>, managerId: Value): (ts: seq<Task>)
    ensures forall t :: t in ts <==>
      t in TaskController.GetAll(stored) && t.validationStatus == Str("Pending") && t.status == Str("Completed")
    ensures Seqs.IsSubseq(ts, TaskController.GetAll(stored))
    ensures forall x {:trigger multiset(ts)[x]} ::
              multiset(ts)[x] == if AwaitsValidation(x) then multiset(TaskController.GetAll(stored))[x] else 0
  {
    Seqs.FilterMultiset(TaskController.GetAll(stored), AwaitsValidation);
    Seqs.Filter(TaskController.GetAll(stored), AwaitsValidation)
  }

  /** On the seeded tasks the controller's queue is empty: the Pending
      tasks there are not Completed. */
  lemma SeedQueueEmpty(managerId: Value)
    ensures GetPendingValidation(SeedTasks(), managerId) == []
  {
    TaskController.SeedTasksRead();
    var tasks := TaskController.GetAll(SeedTasks());
    Seqs.FilterDropsAll(tasks, AwaitsValidation);
  }
}
