/**
 * The account-approval repository: profile lookups through database procedures, the admin and
 * approval checks, the defaults of the user listing, and the user statistics. Each procedure
 * call is an input: what the backend answered.
 */
module UserManagement {
  import opened Wrappers

  /** The user roles and approval statuses of this vocabulary. */
  const UserRoles: seq<string> := ["researcher", "regulator", "consultant", "public", "admin"]
  const UserStatuses: seq<string> := ["pending_approval", "approved", "rejected", "suspended"]

  /** A row of `user_profiles`. Role and status come from the database as strings. */
  datatype UserProfile = UserProfile(
    userId: string, email: string, fullName: string, organization: string, role: string, status: string)

  /** `getUserProfile`: the first row, or none; a procedure error is rethrown with a prefix. */
  function GetUserProfile(answer: RpcResult<UserProfile>): (r: Result<Option<UserProfile>, string>)
    ensures answer.RpcError? <==> r.Err?
    ensures answer.RpcError? ==> r.error == "Failed to fetch user profile: " + answer.message
    ensures r.Ok? && r.value.Some? <==> answer.RpcData? && answer.rows.Some? && |answer.rows.value| > 0
    ensures r.Ok? && r.value.Some? ==> r.value.value == answer.rows.value[0]
  {
    match answer
    case RpcError(msg) => Err("Failed to fetch user profile: " + msg)
    case RpcData(rows) =>
      if rows.Some? && |rows.value| > 0 then Ok(Some(rows.value[0])) else Ok(None)
  }

  /** `getCurrentUserProfile`: none when nobody is signed in, else the lookup of the signed-in user. */
  function GetCurrentUserProfile(signedIn: bool, answer: RpcResult<UserProfile>): (r: Result<Option<UserProfile>, string>)
    ensures !signedIn ==> r == Ok(None)
    ensures signedIn ==> r == GetUserProfile(answer)
  {
    if !signedIn then Ok(None) else GetUserProfile(answer)
  }

  /** `isCurrentUserAdmin`: role `admin` and status `approved`; false on no profile or a failure. */
  function IsCurrentUserAdmin(current: Result<Option<UserProfile>, string>): (b: bool)
    ensures b <==> (current.Ok? && current.value.Some?
      && current.value.value.role == "admin" && current.value.value.status == "approved")
  {
    match current
    case Err(_) => false
    case Ok(p) => p.Some? && p.value.role == "admin" && p.value.status == "approved"
  }

  /** `isCurrentUserApproved`: status `approved`; false on no profile or a failure. */
  function IsCurrentUserApproved(current: Result<Option<UserProfile>, string>): (b: bool)
    ensures b <==> current.Ok? && current.value.Some? && current.value.value.status == "approved"
  {
    match current
    case Err(_) => false
    case Ok(p) => p.Some? && p.value.status == "approved"
  }

  /** An admin is always approved; neither check passes without a profile. */
  lemma AdminIsApproved(current: Result<Option<UserProfile>, string>)
    ensures IsCurrentUserAdmin(current) ==> IsCurrentUserApproved(current)
    ensures current.Err? || current == Ok(None) ==> !IsCurrentUserAdmin(current) && !IsCurrentUserApproved(current)
  {
  }

  /** The optional filters of `getAllUsers`. */
  datatype UserFilters = UserFilters(status: Option<string>, role: Option<string>, limit: Option<int>, offset: Option<int>)

  /** The arguments sent to `get_all_users`. */
  datatype ListArgs = ListArgs(pStatus: Option<string>, pRole: Option<string>, pLimit: int, pOffset: int)

  /** `x || d` on a string: missing and empty both fall back. */
  function StringOr(x: Option<string>): (r: Option<string>)
    ensures r.Some? <==> x.Some? && x.value != ""
    ensures r.Some? ==> r == x
  {
    if x.Some? && x.value != "" then x else None
  }

  /** `x || d` on a number: missing and `0` both fall back to `d`. */
  function NumberOr(x: Option<int>, d: int): (r: int)
    ensures x.Some? && x.value != 0 ==> r == x.value
    ensures x.None? || x.value == 0 ==> r == d
  {
    if x.Some? && x.value != 0 then x.value else d
  }

  function GetAllUsersArgs(f: UserFilters): (a: ListArgs)
    ensures a.pLimit != 0 && a.pStatus != Some("") && a.pRole != Some("")
  {
    ListArgs(StringOr(f.status), StringOr(f.role), NumberOr(f.limit, 50), NumberOr(f.offset, 0))
  }

  /** With no filters the listing asks for the first 50 users of any status and role; a limit of 0 also means 50. */
  lemma ListDefaults(f: UserFilters)
    ensures GetAllUsersArgs(UserFilters(None, None, None, None)) == ListArgs(None, None, 50, 0)
    ensures f.limit == Some(0) ==> GetAllUsersArgs(f).pLimit == 50
  {
  }

  /** `getAllUsers`: the rows (none when the data is `null`), or the error rethrown with a prefix. */
  function GetAllUsers(answer: RpcResult<UserProfile>): (r: Result<seq<UserProfile>, string>)
    ensures answer.RpcError? <==> r.Err?
    ensures answer.RpcError? ==> r.error == "Failed to fetch users: " + answer.message
    ensures answer.RpcData? ==> r.value == answer.rows.GetOr([])
  {
    match answer
    case RpcError(msg) => Err("Failed to fetch users: " + msg)
    case RpcData(rows) => Ok(rows.GetOr([]))
  }

  /** The two columns `getUserStats` tallies by. */
  datatype Column = StatusColumn | RoleColumn

  function ColumnOf(u: UserProfile, c: Column): string {
    match c
    case StatusColumn => u.status
    case RoleColumn => u.role
  }

  /** `users.filter(u => u.status === value).length`, or the same on `role`. */
  function Count(users: seq<UserProfile>, c: Column, value: string): (n: nat)
    ensures n <= |users|
  {
    if users == [] then 0 else (if ColumnOf(users[0], c) == value then 1 else 0) + Count(users[1..], c, value)
  }

  datatype ByRole = ByRole(researcher: nat, regulator: nat, consultant: nat, public: nat, admin: nat)

  datatype UserStats = UserStats(total: nat, pending: nat, approved: nat, rejected: nat, byRole: ByRole)

  /** The filters `getUserStats` lists with. */
  const StatsFilters := UserFilters(None, None, Some(1000), None)

  /** `getUserStats` over the answer to the listing with `StatsFilters`; a failed listing is rethrown. */
  function GetUserStats(answer: RpcResult<UserProfile>): (r: Result<UserStats, string>)
    ensures r.Err? <==> answer.RpcError?
    ensures r.Ok? ==> r.value.total == |GetAllUsers(answer).value|
  {
    match GetAllUsers(answer)
    case Err(e) => Err(e)
    case Ok(users) =>
      Ok(UserStats(
        |users|,
        Count(users, StatusColumn, "pending_approval"),
        Count(users, StatusColumn, "approved"),
        Count(users, StatusColumn, "rejected"),
        ByRole(
          Count(users, RoleColumn, "researcher"),
          Count(users, RoleColumn, "regulator"),
          Count(users, RoleColumn, "consultant"),
          Count(users, RoleColumn, "public"),
          Count(users, RoleColumn, "admin"))))
  }

  /** The statistics see at most 1000 users. */
  lemma StatsListArgs()
    ensures GetAllUsersArgs(StatsFilters) == ListArgs(None, None, 1000, 0)
  {
  }

  /** One step of a count: the first user, then the rest. */
  lemma CountCons(users: seq<UserProfile>, c: Column, value: string)
    requires users != []
    ensures Count(users, c, value) == (if ColumnOf(users[0], c) == value then 1 else 0) + Count(users[1..], c, value)
  {
  }

  /**
   * The four status counts together never exceed the number of users, and they make it up
   * exactly when every status is one of the four of the enumeration.
   */
  lemma {:induction false} StatusBuckets(users: seq<UserProfile>)
    ensures Count(users, StatusColumn, "pending_approval") + Count(users, StatusColumn, "approved")
      + Count(users, StatusColumn, "rejected") + Count(users, StatusColumn, "suspended") <= |users|
    ensures (forall i :: 0 <= i < |users| ==> users[i].status in UserStatuses) <==>
      Count(users, StatusColumn, "pending_approval") + Count(users, StatusColumn, "approved")
      + Count(users, StatusColumn, "rejected") + Count(users, StatusColumn, "suspended") == |users|
  {
    if users != [] {
      StatusBuckets(users[1..]);
      CountCons(users, StatusColumn, "pending_approval");
      CountCons(users, StatusColumn, "approved");
      CountCons(users, StatusColumn, "rejected");
      CountCons(users, StatusColumn, "suspended");
      assert forall i :: 1 <= i < |users| ==> users[i] == users[1..][i - 1];
      if !(users[0].status in UserStatuses) {
        assert Count(users[1..], StatusColumn, "pending_approval") + Count(users[1..], StatusColumn, "approved")
          + Count(users[1..], StatusColumn, "rejected") + Count(users[1..], StatusColumn, "suspended") <= |users| - 1;
      }
      if forall i :: 1 <= i < |users| ==> users[i].status in UserStatuses {
        assert forall i :: 0 <= i < |users[1..]| ==> users[1..][i].status in UserStatuses by {
          forall i | 0 <= i < |users[1..]| ensures users[1..][i].status in UserStatuses {
            assert users[1..][i] == users[i + 1];
          }
        }
      }
    }
  }

  /** The pending, approved and rejected counts of the statistics never exceed the total; suspended users are in none. */
  lemma StatsBucketsBounded(answer: RpcResult<UserProfile>)
    requires GetUserStats(answer).Ok?
    ensures var s := GetUserStats(answer).value;
      s.pending + s.approved + s.rejected + Count(GetAllUsers(answer).value, StatusColumn, "suspended") <= s.total
  {
    StatusBuckets(GetAllUsers(answer).value);
  }

  /** The five per-role counts make up the total exactly when every role is one of the five. */
  lemma {:induction false} RoleBuckets(users: seq<UserProfile>)
    ensures Count(users, RoleColumn, "researcher") + Count(users, RoleColumn, "regulator") + Count(users, RoleColumn, "consultant")
      + Count(users, RoleColumn, "public") + Count(users, RoleColumn, "admin") <= |users|
    ensures (forall i :: 0 <= i < |users| ==> users[i].role in UserRoles) <==>
      Count(users, RoleColumn, "researcher") + Count(users, RoleColumn, "regulator") + Count(users, RoleColumn, "consultant")
      + Count(users, RoleColumn, "public") + Count(users, RoleColumn, "admin") == |users|
  {
    if users != [] {
      RoleBuckets(users[1..]);
      CountCons(users, RoleColumn, "researcher");
      CountCons(users, RoleColumn, "regulator");
      CountCons(users, RoleColumn, "consultant");
      CountCons(users, RoleColumn, "public");
      CountCons(users, RoleColumn, "admin");
      assert forall i :: 1 <= i < |users| ==> users[i] == users[1..][i - 1];
      if forall i :: 1 <= i < |users| ==> users[i].role in UserRoles {
        forall i | 0 <= i < |users[1..]| ensures users[1..][i].role in UserRoles {
          assert users[1..][i] == users[i + 1];
        }
      }
    }
  }

  lemma StatsByRoleSum(answer: RpcResult<UserProfile>)
    requires GetUserStats(answer).Ok?
    requires forall u :: u in GetAllUsers(answer).value ==> u.role in UserRoles
    ensures var s := GetUserStats(answer).value;
      s.byRole.researcher + s.byRole.regulator + s.byRole.consultant + s.byRole.public + s.byRole.admin == s.total
  {
    var users := GetAllUsers(answer).value;
    assert forall i :: 0 <= i < |users| ==> users[i] in users;
    RoleBuckets(users);
  }
}
