/** The access check wrapped around role-restricted pages. */
module RoleGuard {
  import opened RoleContext

  /** The check itself: the list admits every role through `'all'`, or
      names the role. */
  predicate IsAllowed(allowedRoles: seq<string>, roleId: string)
  {
    "all" in allowedRoles || roleId in allowedRoles
  }

  /** What the guard renders: the wrapped page, or the refusal naming the
      current role's name. */
  datatype View = Children | AccessDenied(roleLabel: string)

  /** A guard used without `allowedRoles` gets the empty list. */
  const DefaultAllowed: seq<string> := []

  /** The guard renders the page exactly when the role is allowed; otherwise
      it renders the refusal and not the page. */
  function Guard(allowedRoles: seq<string>, role: Role): (v: View)
    ensures v == Children <==> IsAllowed(allowedRoles, role.id)
    ensures v.AccessDenied? ==> v.roleLabel == role.name
  {
    if IsAllowed(allowedRoles, role.id) then Children else AccessDenied(role.name)
  }

  /** Without an explicit list every role is refused. */
  lemma DefaultDenies(role: Role)
    ensures Guard(DefaultAllowed, role) == AccessDenied(role.name)
  {
  }

  /** Listing more roles never takes access away. */
  lemma GuardMonotone(a: seq<string>, b: seq<string>, role: Role)
    requires forall x :: x in a ==> x in b
    ensures Guard(a, role) == Children ==> Guard(b, role) == Children
  {
  }

  /** A list containing `'all'` admits every role. */
  lemma AllAdmitsEveryone(a: seq<string>, role: Role)
    requires "all" in a
    ensures Guard(a, role) == Children
  {
  }
}
