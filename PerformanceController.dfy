/** Performance figures derived from the stored tasks on every call; the
    stored performance records are never read and nothing is written. */
module PerformanceController {
  import opened Json
  import opened Wrappers
  import opened TaskModel
  import opened PerformanceModel
  import Seqs
  import JsMath
  import TaskController

  predicate IsValidated(t: Task)
  {
    t.validationStatus == Str("Validated")
  }

  /** `getEmployeePerformance`: the employee's tasks are the assigned ones;
      only Validated tasks count as completed, whatever their status. */
  function GetEmployeePerformance(stored: seq<Record>, employeeId: Value): (p: Performance)
    ensures p.employeeId == employeeId && p.period == Str("Current Sprint") && p.rating == Num(0.0)
    ensures p.tasksAssigned == Num(|TaskController.GetByEmployee(stored, employeeId)| as real)
    ensures p.tasksCompleted == Num(|Seqs.Filter(TaskController.GetByEmployee(stored, employeeId), IsValidated)| as real)
  {
    var tasks := TaskController.GetByEmployee(stored, employeeId);
    var total := |tasks|;
    var validated := |Seqs.Filter(tasks, IsValidated)|;
    PerformanceOf(map["employeeId" := employeeId, "tasksAssigned" := Num(total as real),
                      "tasksCompleted" := Num(validated as real), "period" := Str("Current Sprint")])
  }

  /** The employee's completion rate is defined, lies in 0..100, is 0 for
      an employee with no tasks and otherwise is the rounded share of
      Validated tasks. */
  lemma EmployeeRate(stored: seq<Record>, employeeId: Value)
    ensures var tasks := TaskController.GetByEmployee(stored, employeeId);
      var validated := |Seqs.Filter(tasks, IsValidated)|;
      var r := CompletionRate(GetEmployeePerformance(stored, employeeId));
      validated <= |tasks| && r.Some? && 0 <= r.value <= 100 &&
      (|tasks| == 0 ==> r.value == 0) &&
      (|tasks| > 0 ==> r.value == JsMath.Percent(validated, |tasks|))
  {
    var tasks := TaskController.GetByEmployee(stored, employeeId);
    var validated := |Seqs.Filter(tasks, IsValidated)|;
    if |tasks| > 0 {
      CompletionRateOfCounts(employeeId, validated, |tasks|, Num(0.0), Str("Current Sprint"));
    }
  }

  /** `calculateProjectProgress`: 0 for a project without tasks, otherwise
      the rounded share of its tasks whose status is 'Completed'. */
  function CalculateProjectProgress(stored: seq<Record>, projectId: Value): (r: int)
    ensures 0 <= r <= 100
    ensures |TaskController.GetByProject(stored, projectId)| == 0 ==> r == 0
    ensures var tasks := TaskController.GetByProject(stored, projectId);
      |tasks| > 0 ==>
        r == (200 * |Seqs.Filter(tasks, IsCompleted)| + |tasks|) / (2 * |tasks|)
  {
    var tasks := TaskController.GetByProject(stored, projectId);
    if |tasks| == 0 then 0
    else
      var completed := |Seqs.Filter(tasks, IsCompleted)|;
      JsMath.PercentExact(completed, |tasks|);
      JsMath.PercentBounds(completed, |tasks|);
      JsMath.Percent(completed, |tasks|)
  }

  predicate IsCompleted(t: Task)
  {
    t.status == Str("Completed")
  }
}
