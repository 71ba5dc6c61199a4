/** The sidebar's role filter over the navigation table. */
module Sidebar {
  import Seqs
  import opened Navigation
  import RoleGuard

  /** The entry test the sidebar applies, the guard's own predicate. */
  function ShownTo(roleId: string): NavItem -> bool
  {
    (it: NavItem) => RoleGuard.IsAllowed(it.roles, roleId)
  }

  /** A section cut down to the entries the role may see. */
  function Restrict(roleId: string): Section -> Section
  {
    (s: Section) => s.(items := Seqs.Filter(s.items, ShownTo(roleId)))
  }

  predicate HasItems(s: Section)
  {
    |s.items| > 0
  }

  /** `filteredNavigation`: each section restricted to the role's entries,
      then the sections left empty dropped. No empty section remains, and
      the sections keep their order. */
  function FilteredNavigation(nav: seq<Section>, roleId: string): (r: seq<Section>)
    ensures forall k :: 0 <= k < |r| ==> r[k].items != []
    ensures Seqs.IsSubseq(r, Seqs.Map(nav, Restrict(roleId)))
  {
    var r := Seqs.Filter(Seqs.Map(nav, Restrict(roleId)), HasItems);
    assert forall k :: 0 <= k < |r| ==> r[k] in r;
    r
  }

  /** Each shown section is an original one under its own title, holding
      exactly that section's entries the role may see, in their original
      order. */
  lemma ShownSectionsComeFromTable(nav: seq<Section>, roleId: string, k: int)
    requires 0 <= k < |FilteredNavigation(nav, roleId)|
    ensures exists j :: (0 <= j < |nav| && FilteredNavigation(nav, roleId)[k].title == nav[j].title &&
                         FilteredNavigation(nav, roleId)[k].items == Seqs.Filter(nav[j].items, ShownTo(roleId)))
  {
    var m := Seqs.Map(nav, Restrict(roleId));
    var s := FilteredNavigation(nav, roleId)[k];
    assert s in m;
    var j :| 0 <= j < |m| && m[j] == s;
    assert s.title == nav[j].title;
  }

  /** An entry is shown exactly when it is in the table and its roles admit
      the current role. */
  lemma ItemShownIff(nav: seq<Section>, roleId: string, it: NavItem)
    ensures it in AllItems(FilteredNavigation(nav, roleId)) <==>
      it in AllItems(nav) && RoleGuard.IsAllowed(it.roles, roleId)
  {
    var m := Seqs.Map(nav, Restrict(roleId));
    var r := FilteredNavigation(nav, roleId);
    if it in AllItems(r) {
      var k :| 0 <= k < |r| && it in r[k].items;
      assert r[k] in m;
      var j :| 0 <= j < |m| && m[j] == r[k];
      assert it in nav[j].items;
    }
    if it in AllItems(nav) && RoleGuard.IsAllowed(it.roles, roleId) {
      var j :| 0 <= j < |nav| && it in nav[j].items;
      assert ShownTo(roleId)(it);
      assert it in m[j].items;
      assert m[j] in r;
      var k :| 0 <= k < |r| && r[k] == m[j];
    }
  }

  /** The administrator sees the whole table. */
  lemma AdminSeesEverything()
    ensures FilteredNavigation(NavigationItems, "admin") == NavigationItems
  {
    var nav := NavigationItems;
    var m := Seqs.Map(nav, Restrict("admin"));
    forall j | 0 <= j < |nav|
      ensures m[j] == nav[j]
    {
      Seqs.FilterKeepsAll(nav[j].items, ShownTo("admin"));
    }
    assert m == nav;
    Seqs.FilterKeepsAll(m, HasItems);
  }

  lemma SystemHiddenFromEmployee()
    ensures Restrict("employee")(NavigationItems[4]).items == []
  {
    var sys := [PermissionsItem, SettingsItem];
    assert NavigationItems[4].items == sys;
    assert !ShownTo("employee")(sys[0]) && !ShownTo("employee")(sys[1]);
    Seqs.FilterDropsAll(sys, ShownTo("employee"));
  }

  lemma OtherSectionsShownToEmployee()
    ensures forall j :: 0 <= j < 4 ==> HasItems(Restrict("employee")(NavigationItems[j]))
  {
    var nav := NavigationItems;
    assert HasItems(Restrict("employee")(nav[0])) by {
      assert nav[0].items[0] == DashboardItem;
      KeptSection(nav[0], "employee", DashboardItem);
    }
    assert HasItems(Restrict("employee")(nav[1])) by {
      assert nav[1].items[2] == ProfileItem;
      KeptSection(nav[1], "employee", ProfileItem);
    }
    assert HasItems(Restrict("employee")(nav[2])) by {
      assert nav[2].items[0] == TasksItem;
      KeptSection(nav[2], "employee", TasksItem);
    }
    assert HasItems(Restrict("employee")(nav[3])) by {
      assert nav[3].items[2] == NotificationsItem;
      KeptSection(nav[3], "employee", NotificationsItem);
    }
  }

  /** A section with an entry the role may see is not dropped. */
  lemma KeptSection(s: Section, roleId: string, it: NavItem)
    requires it in s.items && RoleGuard.IsAllowed(it.roles, roleId)
    ensures HasItems(Restrict(roleId)(s))
  {
    assert ShownTo(roleId)(it);
  }

  /** Dropping empty sections from a list whose only empty section is the
      last one removes just that section. */
  lemma {:induction false} DropsOnlyLast(m: seq<Section>)
    requires |m| > 0 && m[|m| - 1].items == []
    requires forall j :: 0 <= j < |m| - 1 ==> HasItems(m[j])
    ensures Seqs.Filter(m, HasItems) == m[..|m| - 1]
  {
    var n := |m| - 1;
    var init := m[..n];
    assert Seqs.Filter(init, HasItems) == init by {
      Seqs.FilterKeepsAll(init, HasItems);
    }
    assert Seqs.Filter([m[n]], HasItems) == [] by {
      Seqs.FilterDropsAll([m[n]], HasItems);
    }
    assert Seqs.Filter(m, HasItems) == Seqs.Filter(init, HasItems) + Seqs.Filter([m[n]], HasItems) by {
      assert m == init + [m[n]];
      Seqs.FilterAppend(init, [m[n]], HasItems);
    }
  }

  /** An employee loses the System section, whose entries are all
      administrator-only, and keeps the other four. */
  lemma EmployeeLosesSystem()
    ensures var r := FilteredNavigation(NavigationItems, "employee");
      |r| == 4 && forall k :: 0 <= k < |r| ==> r[k].title == NavigationItems[k].title != "System"
  {
    var m := Seqs.Map(NavigationItems, Restrict("employee"));
    SystemHiddenFromEmployee();
    OtherSectionsShownToEmployee();
    DropsOnlyLast(m);
  }
}
