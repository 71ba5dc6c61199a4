/** The current role of the session: the four demo roles, the role the
    session starts with, and switching between them. The persisted role id
    is a field of the model rather than browser storage. */
module RoleContext {
  import opened Wrappers

  /** A demo role; `name` and `shortName` are the JavaScript `label` and
      `shortLabel`, and `companyId` ties the role to one tenant company. */
  datatype Role = Role(id: string, name: string, shortName: string, companyId: int)

  const Admin := Role("admin", "Administrator", "Admin", 1)
  const Hr := Role("hr", "HR Manager", "HR", 2)
  const Manager := Role("manager", "Team Manager", "Manager", 3)
  const Employee := Role("employee", "Employee", "Employee", 1)

  /** `ROLES`, in the order the role switcher lists them. */
  const Roles: seq<Role> := [Admin, Hr, Manager, Employee]

  /** `roles.find(r => r.id === id)`: the first role carrying `id`. */
  function FindIn(roles: seq<Role>, id: string): (r: Option<Role>)
    ensures r.Some? ==> r.value in roles && r.value.id == id
    ensures r.Some? ==> exists i :: 0 <= i < |roles| && roles[i] == r.value &&
                                    forall j :: 0 <= j < i ==> roles[j].id != id
    ensures r.None? <==> forall i :: 0 <= i < |roles| ==> roles[i].id != id
    decreases |roles|
  {
    if roles == [] then None
    else if roles[0].id == id then Some(roles[0])
    else FindIn(roles[1..], id)
  }

  function FindRole(id: string): Option<Role>
  {
    FindIn(Roles, id)
  }

  /** The role a session starts with: the persisted id when it names a
      role, otherwise the first role, the administrator. */
  function InitialRole(stored: Option<string>): (r: Role)
    ensures r in Roles
    ensures stored.Some? && FindRole(stored.value).Some? ==> r.id == stored.value
    ensures stored.None? || FindRole(stored.value).None? ==> r == Admin
  {
    if stored.Some? && FindRole(stored.value).Some? then FindRole(stored.value).value else Roles[0]
  }

  /** The provider's state: the role in force and the persisted id. */
  class Session {
    var currentRole: Role
    var stored: Option<string>

    constructor(persisted: Option<string>)
      ensures currentRole == InitialRole(persisted) && stored == persisted
    {
      currentRole := InitialRole(persisted);
      stored := persisted;
    }

    /** `switchRole`: a known id becomes the current role and is persisted;
        an unknown id changes nothing. */
    method SwitchRole(roleId: string)
      modifies this
      ensures FindRole(roleId).Some? ==> currentRole.id == roleId && currentRole in Roles && stored == Some(roleId)
      ensures FindRole(roleId).None? ==> currentRole == old(currentRole) && stored == old(stored)
    {
      var role := FindIn(Roles, roleId);
      if role.Some? {
        currentRole := role.value;
        stored := Some(roleId);
      }
    }
  }

  /** The four roles carry distinct ids, so an id names at most one role. */
  lemma RoleIdsDistinct()
    ensures |Roles| == 4
    ensures forall i, j :: 0 <= i < j < |Roles| ==> Roles[i].id != Roles[j].id
  {
  }

  /** A role the session switched to is the role the next session starts
      with: persisting the id and resolving it again is the identity. */
  lemma SwitchPersists(r: Role)
    requires r in Roles
    ensures InitialRole(Some(r.id)) == r
  {
    RoleIdsDistinct();
    var i :| 0 <= i < |Roles| && Roles[i] == r;
    assert FindRole(r.id) == Some(r);
  }

  /** An id that names no role starts the session as administrator. */
  lemma UnknownIsAdmin(id: string)
    requires id !in {"admin", "hr", "manager", "employee"}
    ensures InitialRole(Some(id)) == Admin
  {
  }
}
