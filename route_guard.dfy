/**
 * The request guard that runs in front of every page: it classifies the path, looks at whether a
 * session exists and, for signed-in users on guarded pages, at the account's approval status and
 * role, and then either lets the request through or redirects it.
 */
module RouteGuard {
  import opened Wrappers
  import opened JsString

  const ProtectedRoutes: seq<string> := ["/settings", "/admin"]
  const AuthRoutes: seq<string> := ["/auth/login", "/auth/signup"]
  const PublicRoutes: seq<string> := ["/", "/analytics", "/map", "/search"]

  const LoginPage := "/auth/login"
  const SettingsPage := "/settings"
  const PendingPage := "/auth/pending-approval"
  const RejectedPage := "/auth/account-rejected"
  const SuspendedPage := "/auth/account-suspended"

  /** The PostgREST error code `.single()` reports when no row matched. */
  const NoRowCode := "PGRST116"

  /** Protected and auth routes match by prefix, public routes only exactly. */
  predicate IsProtected(path: string) {
    exists r | r in ProtectedRoutes :: StartsWith(path, r)
  }

  predicate IsAuthRoute(path: string) {
    exists r | r in AuthRoutes :: StartsWith(path, r)
  }

  predicate IsPublic(path: string) {
    path in PublicRoutes
  }

  /** The `status, role` columns of the signed-in user's profile row. */
  datatype ProfileRow = ProfileRow(status: string, role: string)

  /** What the profile query answered: a row, no data and no error, an error code, or an exception. */
  datatype Lookup = Row(row: ProfileRow) | NoData | QueryError(code: string) | Threw

  /** The response: continue to the page, or redirect (to the login page carrying `redirectTo`). */
  datatype Decision = Allow | Redirect(target: string, redirectTo: Option<string>)

  /** The requests for which the profile is fetched at all. */
  predicate ConsultsProfile(path: string, hasSession: bool) {
    hasSession && (IsProtected(path) || IsPublic(path))
  }

  /** The checks on a fetched profile: a missing row counts as pending, other failures let the request through. */
  function ProfileCheck(path: string, lookup: Lookup): (d: Decision)
    ensures d.Allow? || d.target in {PendingPage, RejectedPage, SuspendedPage, SettingsPage}
    ensures d.Redirect? ==> d.redirectTo == None
  {
    match lookup
    case QueryError(code) => if code == NoRowCode then Redirect(PendingPage, None) else Allow
    case NoData => Allow
    case Threw => Allow
    case Row(row) =>
      if row.status == "pending_approval" then Redirect(PendingPage, None)
      else if row.status == "rejected" then Redirect(RejectedPage, None)
      else if row.status == "suspended" then Redirect(SuspendedPage, None)
      else if StartsWith(path, "/admin") && row.role != "admin" then Redirect(SettingsPage, None)
      else Allow
  }

  /** The guard's answer for a request to `path`; `lookup` is what the profile query would return. */
  function Decide(path: string, hasSession: bool, lookup: Lookup): (d: Decision)
    ensures d.Allow? || d.target in {LoginPage, SettingsPage, PendingPage, RejectedPage, SuspendedPage}
    ensures d.Redirect? && d.redirectTo.Some? ==> d.target == LoginPage && d.redirectTo.value == path
  {
    if IsProtected(path) && !hasSession then Redirect(LoginPage, Some(path))
    else if IsAuthRoute(path) && hasSession then Redirect(SettingsPage, None)
    else if ConsultsProfile(path, hasSession) then ProfileCheck(path, lookup)
    else Allow
  }

  /** A path with a protected prefix, whatever follows it, is protected: `/settingsX`, `/administrator`. */
  lemma {:induction false} ProtectedByPrefix(route: string, rest: string)
    requires route in ProtectedRoutes
    ensures IsProtected(route + rest)
  {
    assert (route + rest)[..|route|] == route;
  }

  lemma PrefixExamples()
    ensures IsProtected("/settingsX") && IsProtected("/administrator")
    ensures !IsPublic("/analytics/") && IsPublic("/analytics")
  {
    ProtectedByPrefix("/settings", "X");
    ProtectedByPrefix("/admin", "istrator");
  }

  /** An anonymous request to a protected path goes to the login page, remembering the path. */
  lemma AnonymousProtected(path: string, lookup: Lookup)
    requires IsProtected(path)
    ensures Decide(path, false, lookup) == Redirect(LoginPage, Some(path))
  {
  }

  /** Auth, protected and public paths are apart, so an auth path never reaches the profile check. */
  lemma {:induction false} AuthRoutesApart(path: string)
    requires IsAuthRoute(path)
    ensures !IsProtected(path) && !IsPublic(path)
  {
    var r :| r in AuthRoutes && StartsWith(path, r);
    StartsWithAt(path, r, 2);
    NotStartsWith(path, "/admin", 2);
    NotStartsWith(path, "/settings", 2);
  }

  /** A signed-in request to an auth page goes to settings whatever the account's status. */
  lemma SignedInAuthRoute(path: string, lookup: Lookup)
    requires IsAuthRoute(path)
    ensures Decide(path, true, lookup) == Redirect(SettingsPage, None)
  {
  }

  /** The profile lookup matters only when a session exists and the path is protected or public. */
  lemma LookupIrrelevant(path: string, hasSession: bool, l1: Lookup, l2: Lookup)
    requires !ConsultsProfile(path, hasSession)
    ensures Decide(path, hasSession, l1) == Decide(path, hasSession, l2)
  {
  }

  /** Every other signed-in path is let through without a lookup. */
  lemma {:induction false} OtherSignedInAllowed(path: string, lookup: Lookup)
    requires !IsAuthRoute(path) && !IsProtected(path) && !IsPublic(path)
    ensures Decide(path, true, lookup) == Allow
  {
  }

  /** The three blocked statuses win over the role and over the path. */
  lemma StatusBeforeRole(p1: string, p2: string, r1: ProfileRow, r2: ProfileRow)
    requires ConsultsProfile(p1, true) && ConsultsProfile(p2, true)
    requires r1.status == r2.status
    requires r1.status in {"pending_approval", "rejected", "suspended"}
    ensures Decide(p1, true, Row(r1)) == Decide(p2, true, Row(r2))
    ensures Decide(p1, true, Row(r1)).target ==
      if r1.status == "pending_approval" then PendingPage
      else if r1.status == "rejected" then RejectedPage
      else SuspendedPage
  {
    if IsAuthRoute(p1) { AuthRoutesApart(p1); }
    if IsAuthRoute(p2) { AuthRoutesApart(p2); }
  }

  /** On an `/admin` path an account in good standing gets through exactly when its role is `admin`. */
  lemma AdminGate(path: string, row: ProfileRow)
    requires StartsWith(path, "/admin")
    requires row.status !in {"pending_approval", "rejected", "suspended"}
    ensures Decide(path, true, Row(row)) == if row.role == "admin" then Allow else Redirect(SettingsPage, None)
  {
    assert "/admin" in ProtectedRoutes;
    if IsAuthRoute(path) { AuthRoutesApart(path); }
  }

  /** A missing profile row means pending approval; any other failed lookup lets the request through. */
  lemma FailOpen(path: string, lookup: Lookup)
    requires ConsultsProfile(path, true)
    requires !lookup.Row?
    ensures Decide(path, true, lookup) ==
      if lookup == QueryError(NoRowCode) then Redirect(PendingPage, None) else Allow
  {
    if IsAuthRoute(path) { AuthRoutesApart(path); }
  }
}
