/** Project reads over the stored project list and project creation. */
module ProjectController {
  import opened Json
  import opened Wrappers
  import opened StorageService
  import opened ProjectModel
  import Seqs
  import JsMath
  import TaskModel
  import TaskController
  import PerformanceController

  /** `getAll`: every stored project, wrapped, in storage order. */
  function GetAll(stored: seq<Record>): (ps: seq<Project>)
    ensures |ps| == |stored|
    ensures forall i :: 0 <= i < |stored| ==> ps[i] == ProjectOf(stored[i])
  {
    Seqs.Map(stored, ProjectOf)
  }

  /** `getByManager`: exactly the projects of that manager, in storage
      order. */
  function GetByManager(stored: seq<Record>, managerId: Value): (ps: seq<Project>)
    ensures forall p :: p in ps <==> p in GetAll(stored) && p.managerId == managerId
    ensures Seqs.IsSubseq(ps, GetAll(stored))
    ensures forall x {:trigger multiset(ps)[x]} :: multiset(ps)[x] == if x.managerId == managerId then multiset(GetAll(stored))[x] else 0
  {
    Seqs.FilterMultiset(GetAll(stored), (p: Project) => p.managerId == managerId);
    Seqs.Filter(GetAll(stored), (p: Project) => p.managerId == managerId)
  }

  /** `getById`: the first project with that id, wrapped, or null. */
  function GetById(stored: seq<Record>, id: Value): (r: Option<Project>)
    ensures r.None? <==> forall x :: x in stored ==> Id(x) != id
    ensures r.Some? ==> exists x :: x in stored && Id(x) == id && r.value == ProjectOf(x)
    ensures r.Some? ==> exists i :: 0 <= i < |stored| && Id(stored[i]) == id && r.value == ProjectOf(stored[i]) &&
                                    forall j :: 0 <= j < i ==> Id(stored[j]) != id
  {
    match Find(stored, id)
    case None => None
    case Some(raw) => Some(ProjectOf(raw))
  }

  /** `create`: store the project data under a fresh id and wrap it. */
  method Create(store: Store, projectData: Record, now: int) returns (p: Project)
    modifies store
    ensures p == ProjectOf(Stamped(projectData, now))
    ensures store.data == old(store.data)[Projects := old(store.GetAll(Projects)) + [Stamped(projectData, now)]]
  {
    var created := store.Create(Projects, projectData, now);
    p := ProjectOf(created);
  }

  /** `calculateProgress`: the stored progress (0 when falsy), or 0 for an
      unknown project. Tasks play no part. */
  function CalculateProgress(stored: seq<Record>, projectId: Value): (r: Value)
    ensures Find(stored, projectId).None? ==> r == Num(0.0)
    ensures Find(stored, projectId).Some? ==> r == ProjectOf(Find(stored, projectId).value).progress
    ensures Truthy(r) || r == Num(0.0)
  {
    match GetById(stored, projectId)
    case None => Num(0.0)
    case Some(p) => p.progress
  }

  /** On the seeded data the stored progress of project 1 is 45 while its
      tasks put it at 33: the two progress figures are independent. */
  lemma SeedProgressDiffers()
    ensures CalculateProgress(SeedProjects(), Num(1.0)) == Num(45.0)
    ensures PerformanceController.CalculateProjectProgress(SeedTasks(), Num(1.0)) == 33
  {
    ProjectSeedReads(1.0, "HR System Revamp", "IT", "In Progress", 45.0, "2025-01-10", "2025-06-30");
    assert FindIndex(SeedProjects(), Num(1.0)) == Some(0);
    SeedTaskProgress();
  }

  lemma SeedTaskProgress()
    ensures PerformanceController.CalculateProjectProgress(SeedTasks(), Num(1.0)) == 33
  {
    TaskController.SeedTasksRead();
    var tasks := TaskController.GetAll(SeedTasks());
    var p := (t: TaskModel.Task) => t.projectId == Num(1.0);
    assert tasks == tasks[..3] + tasks[3..];
    Seqs.FilterDropsAll(tasks[3..], p);
    Seqs.FilterKeepsAll(tasks[..3], p);
    Seqs.FilterAppend(tasks[..3], tasks[3..], p);
    var mine := TaskController.GetByProject(SeedTasks(), Num(1.0));
    assert mine == tasks[..3];
    OneCompleted(mine);
  }

  lemma OneCompleted(tasks: seq<TaskModel.Task>)
    requires |tasks| == 3 && tasks[0].status == Str("Completed")
    requires tasks[1].status != Str("Completed") && tasks[2].status != Str("Completed")
    ensures |Seqs.Filter(tasks, PerformanceController.IsCompleted)| == 1
  {
    var c := PerformanceController.IsCompleted;
    assert tasks == [tasks[0]] + tasks[1..];
    Seqs.FilterKeepsAll([tasks[0]], c);
    Seqs.FilterDropsAll(tasks[1..], c);
    Seqs.FilterAppend([tasks[0]], tasks[1..], c);
  }
}
