/** The navigation table shared by the sidebar and the breadcrumbs, and the
    router's table of guarded pages it has to agree with. */
module Navigation {
  import opened Wrappers
  import RoleGuard

  /** One sidebar entry; `text` is the JavaScript `label`, and `roles` lists
      role ids or `'all'`. */
  datatype NavItem = NavItem(id: string, text: string, path: string, roles: seq<string>)

  /** A titled group of entries. */
  datatype Section = Section(title: string, items: seq<NavItem>)

  const Everyone: seq<string> := ["admin", "hr", "manager", "employee"]

  const DashboardItem := NavItem("dashboard", "Dashboard", "/", ["all"])
  const EnterpriseItem := NavItem("enterprise", "Enterprise", "/enterprise", ["admin"])
  const UsersItem := NavItem("users", "User Management", "/users", ["admin", "hr"])
  const ProfileItem := NavItem("profile", "Employee Profile", "/profile", ["all"])
  const AttendanceItem := NavItem("attendance", "Attendance", "/attendance", Everyone)
  const RecruitmentItem := NavItem("recruitment", "Recruitment", "/recruitment", ["admin", "hr"])
  const TasksItem := NavItem("tasks", "Task & Performance", "/tasks", Everyone)
  const VacationItem := NavItem("vacation", "Vacation Request", "/vacation", Everyone)
  const DocumentsItem := NavItem("documents", "Document Request", "/documents", Everyone)
  const PayrollItem := NavItem("payroll", "Payroll", "/payroll", ["admin", "hr"])
  const AnalyticsItem := NavItem("analytics", "Analytics", "/analytics", ["admin", "manager"])
  const AssistantItem := NavItem("ai-assistant", "AI Assistant", "/ai-assistant", ["admin", "hr", "manager"])
  const NotificationsItem := NavItem("notifications", "Notifications", "/notifications", ["all"])
  const PermissionsItem := NavItem("permissions", "Permissions", "/permissions", ["admin"])
  const SettingsItem := NavItem("settings", "Settings", "/settings", ["admin"])

  /** `navigationItems`. */
  const NavigationItems: seq<Section> := [
    Section("Overview", [DashboardItem]),
    Section("HR & People", [EnterpriseItem, UsersItem, ProfileItem, AttendanceItem, RecruitmentItem]),
    Section("Workflows", [TasksItem, VacationItem, DocumentsItem, PayrollItem]),
    Section("Intelligence", [AnalyticsItem, AssistantItem, NotificationsItem]),
    Section("System", [PermissionsItem, SettingsItem])
  ]

  /** Every entry of every section, in section order. */
  function AllItems(nav: seq<Section>): (r: seq<NavItem>)
    ensures forall k, it :: 0 <= k < |nav| && it in nav[k].items ==> it in r
    ensures forall it :: it in r ==> exists k :: 0 <= k < |nav| && it in nav[k].items
    decreases |nav|
  {
    if nav == [] then []
    else
      var rest := AllItems(nav[1..]);
      assert forall k :: 1 <= k < |nav| ==> nav[k] == nav[1..][k - 1];
      nav[0].items + rest
  }

  /** A page of the router: its full path and, when it is wrapped in the
      guard, the roles the guard is given. */
  datatype Route = Route(path: string, guard: Option<seq<string>>)

  /** The router's guarded pages; the catch-all route is not modelled. */
  const Routes: seq<Route> := [
    Route("/", None),
    Route("/enterprise", Some(["admin"])),
    Route("/users", Some(["admin", "hr"])),
    Route("/profile", None),
    Route("/attendance", Some(Everyone)),
    Route("/recruitment", Some(["admin", "hr"])),
    Route("/tasks", Some(Everyone)),
    Route("/vacation", Some(Everyone)),
    Route("/documents", Some(Everyone)),
    Route("/payroll", Some(["admin", "hr"])),
    Route("/analytics", Some(["admin", "manager"])),
    Route("/ai-assistant", Some(["admin", "hr", "manager"])),
    Route("/notifications", None),
    Route("/permissions", Some(["admin"])),
    Route("/settings", Some(["admin"]))
  ]

  /** The first route serving `path`; `None` when no route of the table
      matches (the catch-all page itself is not modelled). */
  function RouteFor(routes: seq<Route>, path: string): (r: Option<Route>)
    ensures r.Some? ==> r.value in routes && r.value.path == path
    ensures r.Some? ==> exists i :: 0 <= i < |routes| && routes[i] == r.value &&
                                    forall j :: 0 <= j < i ==> routes[j].path != path
    ensures r.None? <==> forall i :: 0 <= i < |routes| ==> routes[i].path != path
    decreases |routes|
  {
    if routes == [] then None
    else if routes[0].path == path then Some(routes[0])
    else RouteFor(routes[1..], path)
  }

  /** Whether the page lets a role through: unguarded pages admit everyone. */
  predicate RouteAdmits(route: Route, roleId: string)
  {
    route.guard.None? || RoleGuard.IsAllowed(route.guard.value, roleId)
  }

  lemma AllNavigationItems()
    ensures AllItems(NavigationItems) == [DashboardItem, EnterpriseItem, UsersItem, ProfileItem, AttendanceItem,
      RecruitmentItem, TasksItem, VacationItem, DocumentsItem, PayrollItem, AnalyticsItem, AssistantItem,
      NotificationsItem, PermissionsItem, SettingsItem]
  {
    var nav := NavigationItems;
    assert AllItems(nav[4..]) == nav[4].items + AllItems(nav[5..]);
    assert AllItems(nav[3..]) == nav[3].items + AllItems(nav[4..]);
    assert AllItems(nav[2..]) == nav[2].items + AllItems(nav[3..]);
    assert AllItems(nav[1..]) == nav[1].items + AllItems(nav[2..]);
  }

  /** Entry ids are distinct across all sections, and no entry has an empty
      role list. */
  lemma NavigationWellFormed()
    ensures var all := AllItems(NavigationItems);
      (forall i, j :: 0 <= i < j < |all| ==> all[i].id != all[j].id) &&
      (forall i :: 0 <= i < |all| ==> all[i].roles != [])
  {
    AllNavigationItems();
  }

  /** No two entries share a path. */
  lemma NavigationPathsDistinct()
    ensures var all := AllItems(NavigationItems);
      forall i, j :: 0 <= i < j < |all| ==> all[i].path != all[j].path
  {
    AllNavigationItems();
  }

  /** The dashboard, the profile and the notifications are open to all. */
  lemma OpenEntries()
    ensures var all := AllItems(NavigationItems);
      forall i :: 0 <= i < |all| && all[i].id in {"dashboard", "profile", "notifications"} ==> all[i].roles == ["all"]
  {
    AllNavigationItems();
  }

  /** Every entry admits the administrator. */
  lemma AdminEverywhere()
    ensures var all := AllItems(NavigationItems);
      forall i :: 0 <= i < |all| ==> RoleGuard.IsAllowed(all[i].roles, "admin")
  {
    AllNavigationItems();
  }

  /** The first page with a path is the one found for it. */
  lemma {:induction false} RouteForFirst(routes: seq<Route>, i: nat)
    requires i < |routes|
    requires forall j :: 0 <= j < i ==> routes[j].path != routes[i].path
    ensures RouteFor(routes, routes[i].path) == Some(routes[i])
    decreases i
  {
    if i > 0 {
      RouteForFirst(routes[1..], i - 1);
    }
  }

  /** The router serves every entry's path, guarding it with the entry's
      own roles, or leaving it unguarded where the entry is open to all. */
  lemma RouterMatchesNavigation()
    ensures var all := AllItems(NavigationItems);
      forall i :: 0 <= i < |all| ==>
        RouteFor(Routes, all[i].path) == Some(Route(all[i].path, if all[i].roles == ["all"] then None else Some(all[i].roles)))
  {
    AllNavigationItems();
    var all := AllItems(NavigationItems);
    assert |Routes| == |all|;
    forall i | 0 <= i < |all|
      ensures RouteFor(Routes, all[i].path) == Some(Route(all[i].path, if all[i].roles == ["all"] then None else Some(all[i].roles)))
    {
      assert Routes[i] == Route(all[i].path, if all[i].roles == ["all"] then None else Some(all[i].roles));
      assert forall j :: 0 <= j < i ==> Routes[j].path != Routes[i].path;
      RouteForFirst(Routes, i);
    }
  }

  /** So a role sees an entry in the navigation exactly when the router
      lets it open that entry's page. */
  lemma SidebarAgreesWithRouter(it: NavItem, roleId: string)
    requires it in AllItems(NavigationItems)
    ensures RouteFor(Routes, it.path).Some?
    ensures RoleGuard.IsAllowed(it.roles, roleId) <==> RouteAdmits(RouteFor(Routes, it.path).value, roleId)
  {
    RouterMatchesNavigation();
    var all := AllItems(NavigationItems);
    var i :| 0 <= i < |all| && all[i] == it;
  }
}
