/**
 * The role gate: a dependency built with a fixed allow-list of roles that lets a
 * request through when the current user's role is on the list and raises 403
 * otherwise.
 */
module Roles {
  import opened Models
  import opened Http

  const OperationForbidden := "Operation forbidden"

  /** What the gate does with a request: lets it through, or raises an HTTP error. */
  datatype Outcome = Pass | Refuse(code: nat, detail: string)

  class RoleAccess {
    /** Set once, by the constructor; nothing assigns it afterwards. */
    const allowedRoles: seq<Role>

    constructor (allowedRoles: seq<Role>)
      ensures this.allowedRoles == allowedRoles
    {
      this.allowedRoles := allowedRoles;
    }

    /**
     * `__call__`: lets the request through exactly when the user's role is on the
     * list, and otherwise refuses it with 403. It reads no mutable state and
     * changes none (the logging it does is left out).
     */
    function Call(currentUser: User): (r: Outcome)
      ensures r == Pass <==> currentUser.role in allowedRoles
      ensures r != Pass ==> r == Refuse(FORBIDDEN, OperationForbidden)
    {
      if currentUser.role !in allowedRoles then Refuse(FORBIDDEN, OperationForbidden) else Pass
    }
  }

  /** An empty allow-list refuses every user. */
  lemma EmptyAllowListRefusesEveryone(gate: RoleAccess, currentUser: User)
    requires gate.allowedRoles == []
    ensures gate.Call(currentUser) == Refuse(FORBIDDEN, OperationForbidden)
  {
  }

  /** The gate only looks at the role: two users with the same role get the same answer. */
  lemma CallDependsOnlyOnRole(gate: RoleAccess, u: User, v: User)
    requires u.role == v.role
    ensures gate.Call(u) == gate.Call(v)
  {
  }
}
