/** The employee directory page: who may see which profile, the department
    list of the filter, and the search. Only the fields the page filters on
    are modelled. */
module EmployeeProfile {
  import opened Text
  import Seqs

  datatype Employee = Employee(id: int, name: string, email: string, department: string)

  /** `allEmployees`. */
  function AllEmployees(): seq<Employee>
  {
    [ Employee(1, "Ibrahim Rouass", "ibrahim.rouass@bpms.io", "Engineering"),
      Employee(2, "Sarah Martinez", "sarah.m@bpms.io", "Marketing"),
      Employee(3, "Ahmed Hassan", "ahmed.h@bpms.io", "Engineering"),
      Employee(4, "Clara Dupont", "clara.d@bpms.io", "Human Resources"),
      Employee(5, "John Chen", "john.c@bpms.io", "Design"),
      Employee(6, "Fatima Zahra", "fatima.z@bpms.io", "QA"),
      Employee(7, "Bob Tanaka", "bob.t@bpms.io", "Engineering"),
      Employee(8, "Amira Belkacem", "amira.b@bpms.io", "Finance") ]
  }

  /** The profile the employee role stands for. */
  const SelfId := 3

  function IsSelf(e: Employee): bool
  {
    e.id == SelfId
  }

  /** `visibleEmployees`: the employee role sees its own profile only,
      every other role sees everyone. */
  function VisibleEmployees(roleId: string): (r: seq<Employee>)
    ensures roleId != "employee" ==> r == AllEmployees()
    ensures roleId == "employee" ==> forall e :: e in r <==> e in AllEmployees() && e.id == SelfId
  {
    if roleId == "employee" then Seqs.Filter(AllEmployees(), IsSelf) else AllEmployees()
  }

  function DepartmentOf(e: Employee): string
  {
    e.department
  }

  /** `departments`: every department of the full list once, in order of
      first appearance. */
  function Departments(): (r: seq<string>)
    ensures forall d :: d in r <==> exists i :: 0 <= i < |AllEmployees()| && AllEmployees()[i].department == d
    ensures forall i, j :: 0 <= i < j < |r| ==> r[i] != r[j]
  {
    var all := Seqs.Map(AllEmployees(), DepartmentOf);
    Seqs.Dedup(all)
  }

  /** The departments come in the order the list first names them. */
  lemma DepartmentsByFirstAppearance()
    ensures var column := Seqs.Map(AllEmployees(), DepartmentOf);
      forall i, j :: 0 <= i < j < |Departments()| ==>
        Seqs.FirstIndex(column, Departments()[i]) < Seqs.FirstIndex(column, Departments()[j])
  {
    Seqs.DedupOrder(Seqs.Map(AllEmployees(), DepartmentOf));
  }

  /** The department list is the six departments in the order the list
      first names them. */
  lemma DepartmentsInOrder()
    ensures Departments() == ["Engineering", "Marketing", "Human Resources", "Design", "QA", "Finance"]
  {
    var e, m, h, d, q, f := "Engineering", "Marketing", "Human Resources", "Design", "QA", "Finance";
    assert |e| == 11 && |m| == 9 && |h| == 15 && |d| == 6 && |q| == 2 && |f| == 7;
    var all := Seqs.Map(AllEmployees(), DepartmentOf);
    assert all == [e, m, e, h, d, q, e, f];
    DedupPattern(e, m, h, d, q, f);
  }

  /** Deduplicating the pattern of the department column, two elements at
      a time. */
  lemma DedupPattern2<T(!new)>(e: T, m: T)
    requires e != m
    ensures Seqs.Dedup([e, m]) == [e, m]
  {
    assert Seqs.Dedup([e]) == [e] by {
      assert [] + [e] == [e];
      Seqs.DedupSnoc([], e);
    }
    assert [e] + [m] == [e, m];
    Seqs.DedupSnoc([e], m);
  }

  lemma DedupPattern4<T(!new)>(e: T, m: T, h: T)
    requires e != m && e != h && m != h
    ensures Seqs.Dedup([e, m, e, h]) == [e, m, h]
  {
    assert Seqs.Dedup([e, m, e]) == [e, m] by {
      DedupPattern2(e, m);
      assert [e, m] + [e] == [e, m, e];
      Seqs.DedupSnoc([e, m], e);
    }
    assert [e, m, e] + [h] == [e, m, e, h];
    Seqs.DedupSnoc([e, m, e], h);
  }

  lemma DedupPattern6<T(!new)>(e: T, m: T, h: T, d: T, q: T)
    requires e != m && e != h && e != d && e != q
    requires m != h && m != d && m != q && h != d && h != q && d != q
    ensures Seqs.Dedup([e, m, e, h, d, q]) == [e, m, h, d, q]
  {
    assert Seqs.Dedup([e, m, e, h, d]) == [e, m, h, d] by {
      DedupPattern4(e, m, h);
      assert [e, m, e, h] + [d] == [e, m, e, h, d];
      Seqs.DedupSnoc([e, m, e, h], d);
    }
    assert [e, m, e, h, d] + [q] == [e, m, e, h, d, q];
    Seqs.DedupSnoc([e, m, e, h, d], q);
  }

  lemma DedupPattern<T(!new)>(e: T, m: T, h: T, d: T, q: T, f: T)
    requires e != m && e != h && e != d && e != q && e != f
    requires m != h && m != d && m != q && m != f
    requires h != d && h != q && h != f && d != q && d != f && q != f
    ensures Seqs.Dedup([e, m, e, h, d, q, e, f]) == [e, m, h, d, q, f]
  {
    assert Seqs.Dedup([e, m, e, h, d, q, e]) == [e, m, h, d, q] by {
      DedupPattern6(e, m, h, d, q);
      assert [e, m, e, h, d, q] + [e] == [e, m, e, h, d, q, e];
      Seqs.DedupSnoc([e, m, e, h, d, q], e);
    }
    assert [e, m, e, h, d, q, e] + [f] == [e, m, e, h, d, q, e, f];
    Seqs.DedupSnoc([e, m, e, h, d, q, e], f);
  }

  /** The card test: the search text occurs, ignoring case, in the name,
      the e-mail or the department, and the department filter is 'all' or
      the department. */
  predicate Matches(e: Employee, search: string, deptFilter: string)
  {
    (IncludesIgnoreCase(e.name, search) || IncludesIgnoreCase(e.email, search)
     || IncludesIgnoreCase(e.department, search))
    && (deptFilter == "all" || e.department == deptFilter)
  }

  function MatchesFilters(search: string, deptFilter: string): Employee -> bool
  {
    (e: Employee) => Matches(e, search, deptFilter)
  }

  /** `filtered`: the visible employees that match, in list order, and
      never anyone the role may not see. */
  function Filtered(visible: seq<Employee>, search: string, deptFilter: string): (r: seq<Employee>)
    ensures forall e :: e in r <==> e in visible && Matches(e, search, deptFilter)
    ensures Seqs.IsSubseq(r, visible)
  {
    Seqs.Filter(visible, MatchesFilters(search, deptFilter))
  }

  /** Whatever the search, the employee role finds only its own profile. */
  lemma EmployeeFindsOnlySelf(search: string, deptFilter: string)
    ensures forall e :: e in Filtered(VisibleEmployees("employee"), search, deptFilter) ==> e.id == SelfId
  {
  }

  /** Filtering by a department keeps only that department's employees,
      and an empty search keeps all of them. */
  lemma {:induction false} DepartmentFilter(visible: seq<Employee>, dept: string)
    requires dept != "all"
    ensures forall e :: e in Filtered(visible, "", dept) <==> e in visible && e.department == dept
  {
    forall e | e in visible
      ensures Matches(e, "", dept) <==> e.department == dept
    {
      assert IsPrefix(Lower(""), Lower(e.name));
    }
  }
}
