/** The record store behind every controller: four keyed collections of
    plain records, seeded on start-up, with generic read, create, update
    and delete operations. Persistence in the browser is replaced by an
    in-memory map from collection to record list. */
module StorageService {
  import opened Json
  import opened Wrappers
  import Seqs

  /** The four collections the store knows. */
  datatype Entity = Projects | Tasks | Performance | Notifications

  /** The `id` field of a record. */
  function Id(r: Record): Value
  {
    Get(r, "id")
  }

  function ProjectSeed(id: real, title: string, department: string, status: string,
                       progress: real, startDate: string, endDate: string): Record
  {
    map["id" := Num(id), "title" := Str(title), "department" := Str(department),
        "managerId" := Str("manager"), "status" := Str(status), "progress" := Num(progress),
        "startDate" := Str(startDate), "endDate" := Str(endDate)]
  }

  function TaskSeed(id: real, title: string, projectId: real, priority: string,
                    status: string, deadline: string, validationStatus: string): Record
  {
    map["id" := Num(id), "title" := Str(title), "projectId" := Num(projectId),
        "assigneeId" := Str("employee"), "priority" := Str(priority), "status" := Str(status),
        "deadline" := Str(deadline), "validationStatus" := Str(validationStatus)]
  }

  lemma TaskSeedReads(id: real, title: string, projectId: real, priority: string,
                      status: string, deadline: string, validationStatus: string)
    ensures var r := TaskSeed(id, title, projectId, priority, status, deadline, validationStatus);
      Get(r, "id") == Num(id) && Get(r, "title") == Str(title) &&
      Get(r, "projectId") == Num(projectId) && Get(r, "assigneeId") == Str("employee") &&
      Get(r, "priority") == Str(priority) && Get(r, "status") == Str(status) &&
      Get(r, "deadline") == Str(deadline) && Get(r, "validationStatus") == Str(validationStatus)
  {
  }

  lemma ProjectSeedReads(id: real, title: string, department: string, status: string,
                         progress: real, startDate: string, endDate: string)
    ensures var r := ProjectSeed(id, title, department, status, progress, startDate, endDate);
      Get(r, "id") == Num(id) && Get(r, "title") == Str(title) &&
      Get(r, "department") == Str(department) && Get(r, "managerId") == Str("manager") &&
      Get(r, "status") == Str(status) && Get(r, "progress") == Num(progress) &&
      Get(r, "startDate") == Str(startDate) && Get(r, "endDate") == Str(endDate)
  {
  }

  /** The initial projects. */
  function SeedProjects(): seq<Record>
  {
    [ ProjectSeed(1.0, "HR System Revamp", "IT", "In Progress", 45.0, "2025-01-10", "2025-06-30"),
      ProjectSeed(2.0, "Q1 Marketing Campaign", "Marketing", "Active", 20.0, "2025-02-01", "2025-03-31"),
      ProjectSeed(3.0, "Financial Audit 2024", "Finance", "Completed", 100.0, "2024-12-01", "2025-01-15") ]
  }

  /** The initial tasks. */
  function SeedTasks(): seq<Record>
  {
    [ TaskSeed(101.0, "Database Schema Design", 1.0, "High", "Completed", "2025-02-15", "Validated"),
      TaskSeed(102.0, "API Authentication", 1.0, "Critical", "In Progress", "2025-02-20", "Pending"),
      TaskSeed(103.0, "Frontend Dashboard", 1.0, "Medium", "Not Started", "2025-02-28", "Pending"),
      TaskSeed(104.0, "Social Media Assets", 2.0, "High", "In Progress", "2025-02-25", "Pending"),
      TaskSeed(105.0, "Email Templates", 2.0, "Low", "Not Started", "2025-03-05", "Pending") ]
  }

  /** The initial performance records. */
  function SeedPerformance(): seq<Record>
  {
    [ map["employeeId" := Str("employee"), "tasksCompleted" := Num(15.0), "tasksAssigned" := Num(20.0),
          "rating" := Num(4.5), "period" := Str("Q1 2025")] ]
  }

  /** The state `init` leaves behind: every seeded collection whose key is
      absent receives its seed; notifications are never seeded. */
  function Seeded(data: map<Entity, seq<Record>>): (r: map<Entity, seq<Record>>)
    ensures forall e :: e in data ==> e in r && r[e] == data[e]
    ensures Projects in r && Tasks in r && Performance in r
    ensures Projects !in data ==> r[Projects] == SeedProjects()
    ensures Tasks !in data ==> r[Tasks] == SeedTasks()
    ensures Performance !in data ==> r[Performance] == SeedPerformance()
    ensures Notifications in r <==> Notifications in data
  {
    var d1 := if Projects in data then data else data[Projects := SeedProjects()];
    var d2 := if Tasks in d1 then d1 else d1[Tasks := SeedTasks()];
    if Performance in d2 then d2 else d2[Performance := SeedPerformance()]
  }

  /** Seeding a seeded state changes nothing. */
  lemma SeededIdempotent(data: map<Entity, seq<Record>>)
    ensures Seeded(Seeded(data)) == Seeded(data)
  {
    var s := Seeded(data);
    assert Seeded(s).Keys == s.Keys;
  }

  /** `items.findIndex(item => item.id === id)`: the first position holding
      that id, or nothing. */
  function FindIndex(items: seq<Record>, id: Value): (r: Option<nat>)
    ensures r.Some? ==> r.value < |items| && Id(items[r.value]) == id
    ensures r.Some? ==> forall j :: 0 <= j < r.value ==> Id(items[j]) != id
    ensures r.None? <==> forall j :: 0 <= j < |items| ==> Id(items[j]) != id
    decreases |items|
  {
    if items == [] then None
    else if Id(items[0]) == id then Some(0)
    else
      match FindIndex(items[1..], id)
      case None => None
      case Some(i) => Some(i + 1)
  }

  /** The list after `update`: the first record with that id is merged
      with `updates`; every other position, and the length, stay as they
      were. Without such a record the list is unchanged. */
  function Updated(items: seq<Record>, id: Value, updates: Record): (r: seq<Record>)
    ensures |r| == |items|
    ensures FindIndex(items, id).None? ==> r == items
    ensures FindIndex(items, id).Some? ==>
      r[FindIndex(items, id).value] == Merge(items[FindIndex(items, id).value], updates)
    ensures forall j :: 0 <= j < |items| && Some(j) != FindIndex(items, id) ==> r[j] == items[j]
  {
    match FindIndex(items, id)
    case None => items
    case Some(i) => items[i := Merge(items[i], updates)]
  }

  /** An update that leaves ids alone finds the same record again, and
      applying it twice is applying it once. */
  lemma UpdatedIdempotent(items: seq<Record>, id: Value, updates: Record)
    requires "id" !in updates
    ensures FindIndex(Updated(items, id, updates), id) == FindIndex(items, id)
    ensures Updated(Updated(items, id, updates), id, updates) == Updated(items, id, updates)
  {
    var u := Updated(items, id, updates);
    assert forall j :: 0 <= j < |items| ==> Id(u[j]) == Id(items[j]);
    if FindIndex(items, id).Some? {
      var i := FindIndex(items, id).value;
      assert Merge(Merge(items[i], updates), updates) == Merge(items[i], updates);
    }
  }

  /** `items.find(item => item.id === id)`: the first record carrying
      that id, or nothing. */
  function Find(items: seq<Record>, id: Value): (r: Option<Record>)
    ensures r.Some? ==> r.value in items && Id(r.value) == id
    ensures r.Some? ==> exists i :: 0 <= i < |items| && items[i] == r.value && Id(items[i]) == id &&
                                    forall j :: 0 <= j < i ==> Id(items[j]) != id
    ensures r.None? <==> forall x :: x in items ==> Id(x) != id
  {
    match FindIndex(items, id)
    case None => None
    case Some(i) => Some(items[i])
  }

  /** `items.filter(item => item.id !== id)`. */
  function Deleted(items: seq<Record>, id: Value): (r: seq<Record>)
    ensures forall x :: x in r ==> Id(x) != id
    ensures forall x :: x in items && Id(x) != id ==> x in r
    ensures Seqs.IsSubseq(r, items)
    ensures forall x {:trigger multiset(r)[x]} :: multiset(r)[x] == if Id(x) != id then multiset(items)[x] else 0
  {
    Seqs.FilterMultiset(items, (x: Record) => Id(x) != id);
    Seqs.Filter(items, (x: Record) => Id(x) != id)
  }

  /** Deleting an id that no record carries keeps the list as it is. */
  lemma DeleteUnknown(items: seq<Record>, id: Value)
    requires Find(items, id).None?
    ensures Deleted(items, id) == items
  {
    Seqs.FilterKeepsAll(items, (x: Record) => Id(x) != id);
  }

  /** Deleting twice is deleting once. */
  lemma DeleteIdempotent(items: seq<Record>, id: Value)
    ensures Deleted(Deleted(items, id), id) == Deleted(items, id)
  {
    Seqs.FilterKeepsAll(Deleted(items, id), (x: Record) => Id(x) != id);
  }

  /** `{ ...item, id: now }`: the created record. */
  function Stamped(item: Record, now: int): (r: Record)
    ensures Id(r) == Num(now as real)
    ensures r.Keys == item.Keys + {"id"}
    ensures forall k :: k in item && k != "id" ==> r[k] == item[k]
  {
    Merge(item, map["id" := Num(now as real)])
  }

  /** Stamping keeps every field other than the id. */
  lemma StampedGet(item: Record, now: int, k: string)
    requires k != "id"
    ensures Get(Stamped(item, now), k) == Get(item, k)
  {
  }

  /** A record created with an id no stored record carries is the one a
      lookup of that id finds afterwards. */
  lemma CreateThenFind(items: seq<Record>, item: Record, now: int)
    requires Find(items, Num(now as real)).None?
    ensures Find(items + [Stamped(item, now)], Num(now as real)) == Some(Stamped(item, now))
  {
    var s := items + [Stamped(item, now)];
    assert forall j :: 0 <= j < |items| ==> s[j] == items[j] && items[j] in items;
  }

  /** The store. A collection absent from `data` has never been written. */
  class Store {
    var data: map<Entity, seq<Record>>

    /** The store over what the browser had persisted, seeded by `init`. */
    constructor(persisted: map<Entity, seq<Record>>)
      ensures data == Seeded(persisted)
    {
      data := persisted;
      new;
      Init();
    }

    /** `init`: seed every absent collection except notifications. */
    method Init()
      modifies this
      ensures data == Seeded(old(data))
    {
      if Projects !in data {
        data := data[Projects := SeedProjects()];
      }
      if Tasks !in data {
        data := data[Tasks := SeedTasks()];
      }
      if Performance !in data {
        data := data[Performance := SeedPerformance()];
      }
    }

    /** `getAll`: the stored list, or the empty list for a collection never
        written. */
    function GetAll(e: Entity): (items: seq<Record>)
      reads this
      ensures e !in data ==> items == []
      ensures e in data ==> items == data[e]
    {
      if e in data then data[e] else []
    }

    /** `getById`: the first record with that id, or nothing. */
    function GetById(e: Entity, id: Value): (r: Option<Record>)
      reads this
      ensures r.Some? ==> r.value in GetAll(e) && Id(r.value) == id
      ensures r.Some? ==> exists i :: 0 <= i < |GetAll(e)| && GetAll(e)[i] == r.value &&
                                      forall j :: 0 <= j < i ==> Id(GetAll(e)[j]) != id
      ensures r.None? <==> forall x :: x in GetAll(e) ==> Id(x) != id
    {
      Find(GetAll(e), id)
    }

    /** `create`: append the item stamped with a fresh id; nothing else
        changes. */
    method Create(e: Entity, item: Record, now: int) returns (newItem: Record)
      modifies this
      ensures newItem == Stamped(item, now)
      ensures data == old(data)[e := old(GetAll(e)) + [newItem]]
    {
      var items := GetAll(e);
      newItem := Stamped(item, now);
      items := items + [newItem];
      data := data[e := items];
    }

    /** `update`: merge `updates` into the first record with that id and
        return it; with no such record return null and write nothing. */
    method Update(e: Entity, id: Value, updates: Record) returns (r: Option<Record>)
      modifies this
      ensures FindIndex(old(GetAll(e)), id).None? ==> r.None? && data == old(data)
      ensures FindIndex(old(GetAll(e)), id).Some? ==>
        r == Some(Merge(old(GetAll(e))[FindIndex(old(GetAll(e)), id).value], updates)) &&
        data == old(data)[e := Updated(old(GetAll(e)), id, updates)]
    {
      var items := GetAll(e);
      var index := FindIndex(items, id);
      if index.Some? {
        items := items[index.value := Merge(items[index.value], updates)];
        data := data[e := items];
        return Some(items[index.value]);
      }
      return None;
    }

    /** `delete`: keep exactly the records with another id. The collection
        is written even when nothing was removed. */
    method Delete(e: Entity, id: Value)
      modifies this
      ensures data == old(data)[e := Deleted(old(GetAll(e)), id)]
    {
      var items := GetAll(e);
      var filtered := Deleted(items, id);
      data := data[e := filtered];
    }
  }

  /** The seeded tasks break "Pending implies Completed": task 102 is in
      progress yet awaits validation, while task 101 is completed and
      validated. */
  lemma SeedPendingNotCompleted()
    ensures Get(SeedTasks()[0], "status") == Str("Completed")
    ensures Get(SeedTasks()[0], "validationStatus") == Str("Validated")
    ensures forall i :: 1 <= i < 5 ==>
      Get(SeedTasks()[i], "validationStatus") == Str("Pending") &&
      Get(SeedTasks()[i], "status") != Str("Completed")
  {
  }
}
