/** The `Task` entity: a record wrapped with defaults for its status and
    validation status. */
module TaskModel {
  import opened Json

  datatype Task = Task(id: Value, title: Value, projectId: Value, assigneeId: Value,
                       priority: Value, status: Value, deadline: Value, validationStatus: Value)

  /** The fields a wrapped task carries. */
  const TaskFields: set<string> :=
    {"id", "title", "projectId", "assigneeId", "priority", "status", "deadline", "validationStatus"}

  /** `new Task(data)`: the eight task fields are copied; a falsy status
      reads as 'Not Started' and a falsy validation status as 'Pending'. */
  function TaskOf(data: Record): (t: Task)
    ensures t.id == Get(data, "id") && t.title == Get(data, "title")
    ensures t.projectId == Get(data, "projectId") && t.assigneeId == Get(data, "assigneeId")
    ensures t.priority == Get(data, "priority") && t.deadline == Get(data, "deadline")
    ensures Truthy(t.status) && Truthy(t.validationStatus)
    ensures Truthy(Get(data, "status")) ==> t.status == Get(data, "status")
    ensures !Truthy(Get(data, "status")) ==> t.status == Str("Not Started")
    ensures Truthy(Get(data, "validationStatus")) ==> t.validationStatus == Get(data, "validationStatus")
    ensures !Truthy(Get(data, "validationStatus")) ==> t.validationStatus == Str("Pending")
  {
    Task(Get(data, "id"), Get(data, "title"), Get(data, "projectId"), Get(data, "assigneeId"),
         Get(data, "priority"), Or(Get(data, "status"), Str("Not Started")),
         Get(data, "deadline"), Or(Get(data, "validationStatus"), Str("Pending")))
  }

  /** The task object read as a plain record: its own properties are the
      eight task fields, present even when undefined. */
  function ToRecord(t: Task): (r: Record)
    ensures r.Keys == TaskFields
    ensures Get(r, "status") == t.status && Get(r, "validationStatus") == t.validationStatus
  {
    map["id" := t.id, "title" := t.title, "projectId" := t.projectId, "assigneeId" := t.assigneeId,
        "priority" := t.priority, "status" := t.status, "deadline" := t.deadline,
        "validationStatus" := t.validationStatus]
  }

  /** Wrapping a wrapped task gives the same task. */
  lemma TaskIdempotent(data: Record)
    ensures TaskOf(ToRecord(TaskOf(data))) == TaskOf(data)
  {
  }

  /** Fields outside the eight, such as the description and the completion
      and creation times, do not survive wrapping. */
  lemma TaskDropsFields(data: Record, k: string)
    requires k !in TaskFields
    ensures Get(ToRecord(TaskOf(data)), k) == Undefined
  {
  }

  /** Any explicit status and validation string is kept verbatim, 'On Hold'
      and 'None' included; an absent one takes its default. */
  lemma TaskKeepsExplicit(data: Record, s: string, v: string)
    requires s != "" && v != ""
    ensures TaskOf(data["status" := Str(s)]["validationStatus" := Str(v)]).status == Str(s)
    ensures TaskOf(data["status" := Str(s)]["validationStatus" := Str(v)]).validationStatus == Str(v)
    ensures "validationStatus" !in data ==> TaskOf(data).validationStatus == Str("Pending")
    ensures "status" !in data ==> TaskOf(data).status == Str("Not Started")
  {
  }
}

/** The `Project` entity. */
module ProjectModel {
  import opened Json

  datatype Project = Project(id: Value, title: Value, department: Value, managerId: Value,
                             status: Value, progress: Value, startDate: Value, endDate: Value)

  /** `new Project(data)`: fields copied; a falsy status reads as 'Planned'
      and a falsy progress as 0. */
  function ProjectOf(data: Record): (p: Project)
    ensures p.id == Get(data, "id") && p.title == Get(data, "title")
    ensures p.department == Get(data, "department") && p.managerId == Get(data, "managerId")
    ensures p.startDate == Get(data, "startDate") && p.endDate == Get(data, "endDate")
    ensures Truthy(Get(data, "status")) ==> p.status == Get(data, "status")
    ensures !Truthy(Get(data, "status")) ==> p.status == Str("Planned")
    ensures Truthy(Get(data, "progress")) ==> p.progress == Get(data, "progress")
    ensures !Truthy(Get(data, "progress")) ==> p.progress == Num(0.0)
  {
    Project(Get(data, "id"), Get(data, "title"), Get(data, "department"), Get(data, "managerId"),
            Or(Get(data, "status"), Str("Planned")), Or(Get(data, "progress"), Num(0.0)),
            Get(data, "startDate"), Get(data, "endDate"))
  }

  function ToRecord(p: Project): Record
  {
    map["id" := p.id, "title" := p.title, "department" := p.department, "managerId" := p.managerId,
        "status" := p.status, "progress" := p.progress, "startDate" := p.startDate,
        "endDate" := p.endDate]
  }

  /** Wrapping a wrapped project gives the same project. */
  lemma ProjectIdempotent(data: Record)
    ensures ProjectOf(ToRecord(ProjectOf(data))) == ProjectOf(data)
  {
    var p := ProjectOf(data);
    assert Truthy(p.progress) || p.progress == Num(0.0);
  }
}

/** The `Notification` entity. */
module NotificationModel {
  import opened Json

  datatype Notification = Notification(id: Value, userId: Value, kind: Value, message: Value,
                                       read: Value, timestamp: Value)

  /** `new Notification(data)`, with `nowIso` standing for the current time
      as an ISO string: a falsy type reads as 'info', a falsy read flag as
      false and a falsy timestamp as the current time. */
  function NotificationOf(data: Record, nowIso: string): (n: Notification)
    ensures n.id == Get(data, "id") && n.userId == Get(data, "userId")
    ensures n.message == Get(data, "message")
    ensures Truthy(Get(data, "type")) ==> n.kind == Get(data, "type")
    ensures !Truthy(Get(data, "type")) ==> n.kind == Str("info")
    ensures Truthy(n.read) <==> Truthy(Get(data, "read"))
    ensures Truthy(Get(data, "read")) ==> n.read == Get(data, "read")
    ensures !Truthy(Get(data, "read")) ==> n.read == Bool(false)
    ensures Truthy(Get(data, "timestamp")) ==> n.timestamp == Get(data, "timestamp")
    ensures !Truthy(Get(data, "timestamp")) ==> n.timestamp == Str(nowIso)
  {
    Notification(Get(data, "id"), Get(data, "userId"), Or(Get(data, "type"), Str("info")),
                 Get(data, "message"), Or(Get(data, "read"), Bool(false)),
                 Or(Get(data, "timestamp"), Str(nowIso)))
  }

  /** A stored timestamp makes the clock irrelevant. */
  lemma NotificationClockIrrelevant(data: Record, now1: string, now2: string)
    requires Truthy(Get(data, "timestamp"))
    ensures NotificationOf(data, now1) == NotificationOf(data, now2)
  {
  }
}

/** The `Performance` entity and its completion rate. */
module PerformanceModel {
  import opened Json
  import opened Wrappers
  import JsMath

  datatype Performance = Performance(employeeId: Value, tasksCompleted: Value,
                                     tasksAssigned: Value, rating: Value, period: Value)

  /** `new Performance(data)`: the three counters default to 0 when falsy. */
  function PerformanceOf(data: Record): (p: Performance)
    ensures p.employeeId == Get(data, "employeeId") && p.period == Get(data, "period")
    ensures Truthy(Get(data, "tasksCompleted")) ==> p.tasksCompleted == Get(data, "tasksCompleted")
    ensures !Truthy(Get(data, "tasksCompleted")) ==> p.tasksCompleted == Num(0.0)
    ensures Truthy(Get(data, "tasksAssigned")) ==> p.tasksAssigned == Get(data, "tasksAssigned")
    ensures !Truthy(Get(data, "tasksAssigned")) ==> p.tasksAssigned == Num(0.0)
    ensures Truthy(Get(data, "rating")) ==> p.rating == Get(data, "rating")
    ensures !Truthy(Get(data, "rating")) ==> p.rating == Num(0.0)
  {
    Performance(Get(data, "employeeId"), Or(Get(data, "tasksCompleted"), Num(0.0)),
                Or(Get(data, "tasksAssigned"), Num(0.0)), Or(Get(data, "rating"), Num(0.0)),
                Get(data, "period"))
  }

  /** The `completionRate` getter: 0 when nothing is assigned, without
      dividing; otherwise the rounded percentage of completed over
      assigned. Counters that are not numbers are outside the model. */
  function CompletionRate(p: Performance): (r: Option<int>)
    ensures p.tasksAssigned == Num(0.0) ==> r == Some(0)
    ensures p.tasksAssigned != Num(0.0) && p.tasksAssigned.Num? && p.tasksCompleted.Num? ==>
      r.Some? && r.value as real <= p.tasksCompleted.n / p.tasksAssigned.n * 100.0 + 0.5 < r.value as real + 1.0
    ensures r.None? <==> p.tasksAssigned != Num(0.0) && !(p.tasksAssigned.Num? && p.tasksCompleted.Num?)
  {
    if p.tasksAssigned == Num(0.0) then Some(0)
    else if p.tasksAssigned.Num? && p.tasksCompleted.Num? then
      Some(JsMath.Round(p.tasksCompleted.n / p.tasksAssigned.n * 100.0))
    else None
  }

  /** The rate of integer counters is the integer round-half-up formula;
      it lies in 0..100 when no more is done than assigned, and is 100
      when everything assigned is done. */
  lemma CompletionRateOfCounts(employeeId: Value, done: nat, total: nat, rating: Value, period: Value)
    requires total > 0 && done <= total
    ensures var r := CompletionRate(Performance(employeeId, Num(done as real), Num(total as real), rating, period));
      r == Some(JsMath.Percent(done, total)) &&
      r == Some((200 * done + total) / (2 * total)) &&
      0 <= r.value <= 100 &&
      (done == total ==> r.value == 100)
  {
    JsMath.PercentExact(done, total);
    JsMath.PercentBounds(done, total);
  }

  /** The seeded record, 15 of 20, has a rate of 75. */
  lemma SeedRate()
    ensures CompletionRate(PerformanceOf(map["employeeId" := Str("employee"), "tasksCompleted" := Num(15.0),
      "tasksAssigned" := Num(20.0), "rating" := Num(4.5), "period" := Str("Q1 2025")])) == Some(75)
  {
    CompletionRateOfCounts(Str("employee"), 15, 20, Num(4.5), Str("Q1 2025"));
  }
}
