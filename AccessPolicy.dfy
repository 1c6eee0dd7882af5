/** The authorization rule shared by the read, write, toggle and delete handlers, and the creation gate. */
module AccessPolicy {
  import opened Json
  import opened ModelRecords

  /** The verified caller: its id and its role string. */
  datatype Caller = Caller(id: string, role: string)

  /** The capability asked of `has_access`: "read" or "write". */
  datatype AccessType = Read | Write

  /** `has_access(user_id, type, access_control)`, whose body is not part of this model. */
  type AccessOracle = (string, AccessType, Option<Value>) -> bool

  /** `has_permission(user_id, key, user_permissions)`, whose body is not part of this model. */
  type PermissionOracle = (string, string, Value) -> bool

  const MODELS_PERMISSION := "workspace.models"

  predicate IsAdmin(c: Caller) {
    c.role == "admin"
  }

  predicate IsOwner(c: Caller, m: Model) {
    m.userId == c.id
  }

  /** Admin, owner, or granted `t` by the record's access control. */
  predicate MayAccess(hasAccess: AccessOracle, c: Caller, m: Model, t: AccessType) {
    IsAdmin(c) || IsOwner(c, m) || hasAccess(c.id, t, m.accessControl)
  }

  /** Admin, or granted the workspace permission to create models. */
  predicate MayCreate(hasPermission: PermissionOracle, c: Caller, config: Value) {
    IsAdmin(c) || hasPermission(c.id, MODELS_PERMISSION, config)
  }

  lemma AdminMayAccessEverything(hasAccess: AccessOracle, c: Caller, m: Model, t: AccessType)
    requires IsAdmin(c)
    ensures MayAccess(hasAccess, c, m, t)
  {
  }

  lemma OwnerMayAccessWhateverTheAcl(hasAccess: AccessOracle, c: Caller, m: Model, t: AccessType, acl: Option<Value>)
    requires IsOwner(c, m)
    ensures MayAccess(hasAccess, c, m.(accessControl := acl), t)
  {
  }

  lemma StrangerNeedsGrant(hasAccess: AccessOracle, c: Caller, m: Model, t: AccessType)
    requires !IsAdmin(c) && !IsOwner(c, m)
    ensures MayAccess(hasAccess, c, m, t) <==> hasAccess(c.id, t, m.accessControl)
  {
  }

  lemma AdminMayCreate(hasPermission: PermissionOracle, c: Caller, config: Value)
    requires IsAdmin(c)
    ensures MayCreate(hasPermission, c, config)
  {
  }
}
