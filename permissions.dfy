/**
 * The client-side authorisation helpers of the original auth provider: a constant table from
 * role to permissions, `hasPermission`, `hasRole`, and the two wrappers that render their children
 * only when the check passes. The role read from the database is a string; the table decides
 * which strings mean anything.
 */
module Permissions {
  import opened Wrappers

  /** The fields of the provider's profile the checks could look at. */
  datatype AuthProfile = AuthProfile(role: string, isActive: bool)

  const RolePermissions: map<string, seq<string>> := map[
    "public" := ["read_public_data"],
    "operator" := ["read_public_data", "read_operator_data", "write_operator_data", "export_data", "view_analytics"],
    "laboratory" := ["read_public_data", "read_lab_data", "write_lab_data", "export_data", "view_analytics"],
    "epd_staff" := ["read_public_data", "read_operator_data", "read_lab_data", "read_epd_data", "write_epd_data",
                    "export_data", "import_data", "view_analytics"],
    "epa_staff" := ["read_public_data", "read_operator_data", "read_lab_data", "read_epd_data", "read_epa_data",
                    "write_epa_data", "export_data", "view_analytics"],
    "admin" := ["read_public_data", "read_operator_data", "read_lab_data", "read_epd_data", "read_epa_data",
                "write_operator_data", "write_lab_data", "write_epd_data", "write_epa_data", "export_data",
                "import_data", "manage_users", "view_analytics", "manage_system"]
  ]

  /** `rolePermissions[role] || []`. */
  function PermissionsOf(role: string): (ps: seq<string>)
    ensures role !in RolePermissions ==> ps == []
    ensures role in RolePermissions ==> ps == RolePermissions[role]
  {
    if role in RolePermissions then RolePermissions[role] else []
  }

  /** `hasPermission(permission)`: false without a profile, else membership in the role's list. */
  function HasPermission(profile: Option<AuthProfile>, permission: string): (b: bool)
    ensures b <==> profile.Some? && permission in PermissionsOf(profile.value.role)
  {
    match profile
    case None => false
    case Some(p) => permission in PermissionsOf(p.role)
  }

  /** `hasRole(role)`: `profile?.role === role`. */
  function HasRole(profile: Option<AuthProfile>, role: string): (b: bool)
    ensures b <==> profile.Some? && profile.value.role == role
  {
    profile.Some? && profile.value.role == role
  }

  /** `RequirePermission`: the children when the check passes, the fallback otherwise. */
  function RequirePermission<T>(profile: Option<AuthProfile>, permission: string, children: T, fallback: T): (r: T)
    ensures HasPermission(profile, permission) ==> r == children
    ensures !HasPermission(profile, permission) ==> r == fallback
  {
    if !HasPermission(profile, permission) then fallback else children
  }

  /** `RequireRole`: the children when the check passes, the fallback otherwise. */
  function RequireRole<T>(profile: Option<AuthProfile>, role: string, children: T, fallback: T): (r: T)
    ensures HasRole(profile, role) ==> r == children
    ensures !HasRole(profile, role) ==> r == fallback
  {
    if !HasRole(profile, role) then fallback else children
  }

  /** Without a profile nothing is granted and no role is held. */
  lemma NoProfileNoAccess(permission: string, role: string)
    ensures !HasPermission(None, permission) && !HasRole(None, role)
  {
  }

  /** Every role reads public data, and `public` can do nothing else. */
  lemma PublicData(role: string, permission: string)
    ensures role in RolePermissions ==> "read_public_data" in RolePermissions[role]
    ensures permission in PermissionsOf("public") <==> permission == "read_public_data"
  {
  }

  /** The `admin` list includes the list of every other role. */
  lemma AdminSuperset(role: string, permission: string)
    requires permission in PermissionsOf(role)
    ensures permission in PermissionsOf("admin")
  {
  }

  /** The permissions only some roles hold. */
  lemma ExclusivePermissions(role: string)
    ensures "manage_users" in PermissionsOf(role) <==> role == "admin"
    ensures "manage_system" in PermissionsOf(role) <==> role == "admin"
    ensures "import_data" in PermissionsOf(role) <==> role == "epd_staff" || role == "admin"
    ensures "view_analytics" in PermissionsOf(role) <==> role in RolePermissions && role != "public"
  {
  }

  /** A role string missing from the table grants nothing. */
  lemma UnknownRoleGrantsNothing(p: AuthProfile, permission: string)
    requires p.role !in RolePermissions
    ensures !HasPermission(Some(p), permission)
  {
  }

  /** The result depends on the role alone: `is_active` is never consulted. */
  lemma ActiveFlagIgnored(p: AuthProfile, permission: string)
    ensures HasPermission(Some(p), permission) == HasPermission(Some(p.(isActive := !p.isActive)), permission)
  {
  }

  /** The wrappers render the children exactly when the check passes. */
  lemma GatesRenderChildrenIff<T>(profile: Option<AuthProfile>, permission: string, role: string, children: T, fallback: T)
    requires children != fallback
    ensures RequirePermission(profile, permission, children, fallback) == children <==> HasPermission(profile, permission)
    ensures RequireRole(profile, role, children, fallback) == children <==> HasRole(profile, role)
  {
  }
}
