/**
 * The administrators' dashboard: the filtered user list, the approve and reject handlers with
 * their guards, the rejection dialog's state, and the rule that only pending accounts get
 * per-row actions. Repository calls are inputs saying how they ended; each handler returns the
 * call it issued, if any.
 */
module AdminDashboard {
  import opened Wrappers
  import opened JsString
  import opened UserManagement
  import AuthState

  /** `!term || lower(field) includes lower(term)` on one of the three searched fields. */
  predicate MatchesSearch(u: UserProfile, term: string) {
    term == ""
    || Includes(Lower(u.fullName), Lower(term))
    || Includes(Lower(u.email), Lower(term))
    || Includes(Lower(u.organization), Lower(term))
  }

  /** `!filter || value === filter`. */
  predicate MatchesFilter(value: string, filter: string) {
    filter == "" || value == filter
  }

  predicate Keep(u: UserProfile, term: string, status: string, role: string) {
    MatchesSearch(u, term) && MatchesFilter(u.status, status) && MatchesFilter(u.role, role)
  }

  /** `filteredUsers`: the users that pass the search and both filters, in their original order. */
  function FilteredUsers(users: seq<UserProfile>, term: string, status: string, role: string): (r: seq<UserProfile>)
    ensures |r| <= |users|
    ensures forall u :: u in r <==> u in users && Keep(u, term, status, role)
  {
    if users == [] then []
    else
      var rest := FilteredUsers(users[1..], term, status, role);
      assert users == [users[0]] + users[1..];
      if Keep(users[0], term, status, role) then [users[0]] + rest else rest
  }

  /** Filtering distributes over concatenation, so the kept users keep their relative order. */
  lemma {:induction false} FilterConcat(a: seq<UserProfile>, b: seq<UserProfile>, term: string, status: string, role: string)
    ensures FilteredUsers(a + b, term, status, role) == FilteredUsers(a, term, status, role) + FilteredUsers(b, term, status, role)
  {
    if a == [] {
      assert a + b == b;
    } else {
      assert (a + b)[1..] == a[1..] + b;
      FilterConcat(a[1..], b, term, status, role);
    }
  }

  /** With an empty search term and no filters every user is listed. */
  lemma {:induction false} NoFiltersKeepAll(users: seq<UserProfile>)
    ensures FilteredUsers(users, "", "", "") == users
  {
    if users != [] {
      NoFiltersKeepAll(users[1..]);
      assert users == [users[0]] + users[1..];
    }
  }

  /** A listed user satisfies every filter that is set. */
  lemma KeptSatisfyFilters(users: seq<UserProfile>, term: string, status: string, role: string, u: UserProfile)
    requires u in FilteredUsers(users, term, status, role)
    ensures status != "" ==> u.status == status
    ensures role != "" ==> u.role == role
  {
  }

  /** A non-empty term matches exactly when its lowercase form occurs in a lowercased searched field. */
  lemma SearchIff(u: UserProfile, term: string)
    requires term != ""
    ensures MatchesSearch(u, term) <==>
      (exists i :: OccursAt(Lower(u.fullName), Lower(term), i))
      || (exists i :: OccursAt(Lower(u.email), Lower(term), i))
      || (exists i :: OccursAt(Lower(u.organization), Lower(term), i))
  {
  }

  /** Search ignores the ASCII case of the term. */
  lemma SearchIgnoresCase(u: UserProfile, term: string)
    ensures MatchesSearch(u, term) == MatchesSearch(u, Upper(term))
  {
    assert Lower(Upper(term)) == Lower(term) by {
      forall i | 0 <= i < |term| ensures Lower(Upper(term))[i] == Lower(term)[i] {
        var c := term[i];
        assert LowerChar(UpperChar(c)) == LowerChar(c);
      }
    }
  }

  /** An entry of the pending-approvals list. */
  datatype PendingApproval = PendingApproval(userId: string, email: string, fullName: string, organization: string, role: string)

  /** The profile the pending list's Reject button selects: the entry, marked as pending. */
  function ProfileFromApproval(a: PendingApproval): (u: UserProfile)
    ensures u.userId == a.userId && u.status == "pending_approval"
  {
    UserProfile(a.userId, a.email, a.fullName, a.organization, a.role, "pending_approval")
  }

  /** Per-row Approve and Reject buttons are shown for pending accounts only. */
  predicate ShowsRowActions(u: UserProfile) {
    u.status == "pending_approval"
  }

  /** Filtering on any status other than pending hides every per-row action; the pending list's entries always have them. */
  lemma RowActionsOnlyForPending(users: seq<UserProfile>, term: string, status: string, role: string, a: PendingApproval)
    requires status != "" && status != "pending_approval"
    ensures forall u :: u in FilteredUsers(users, term, status, role) ==> !ShowsRowActions(u)
    ensures ShowsRowActions(ProfileFromApproval(a))
  {
    forall u | u in FilteredUsers(users, term, status, role) ensures !ShowsRowActions(u) {
      KeptSatisfyFilters(users, term, status, role, u);
    }
  }

  /** What `loadData` got: all three lists, or a failure of any of them. */
  datatype LoadAnswer = Loaded(approvals: seq<PendingApproval>, users: seq<UserProfile>, stats: UserStats) | LoadFailed

  /** How a repository call ended. */
  datatype CallOutcome = Completed | Failed

  /** The procedure calls the handlers issue. */
  datatype AdminCall =
    | ApproveCall(userId: string, approvedBy: string)
    | RejectCall(userId: string, rejectedBy: string, reason: string)

  /** What the page shows: a spinner until it knows the viewer is an admin. */
  datatype PageView = LoadingView | DashboardView

  /** The page renders the dashboard only for an admin once loading is over. */
  function View(loading: bool, isAdmin: bool): (v: PageView)
    ensures v == DashboardView <==> !loading && isAdmin
  {
    if loading || !isAdmin then LoadingView else DashboardView
  }

  /** The first effect sends a non-admin away to `/settings` once loading is over. */
  function RedirectTarget(loading: bool, isAdmin: bool): (r: Option<string>)
    ensures r.Some? <==> !loading && !isAdmin
    ensures r.Some? ==> r.value == "/settings"
  {
    if !loading && !isAdmin then Some("/settings") else None
  }

  class Dashboard {
    var pendingApprovals: seq<PendingApproval>
    var allUsers: seq<UserProfile>
    var userStats: Option<UserStats>
    var searchTerm: string
    var statusFilter: string
    var roleFilter: string
    var selectedUser: Option<UserProfile>
    var rejectionReason: string
    var showRejectModal: bool

    constructor ()
      ensures pendingApprovals == [] && allUsers == [] && userStats == None
      ensures searchTerm == "" && statusFilter == "" && roleFilter == ""
      ensures selectedUser == None && rejectionReason == "" && !showRejectModal
    {
      pendingApprovals, allUsers, userStats := [], [], None;
      searchTerm, statusFilter, roleFilter := "", "", "";
      selectedUser, rejectionReason, showRejectModal := None, "", false;
    }

    /** The list the table shows. */
    function Visible(): seq<UserProfile>
      reads this
    {
      FilteredUsers(allUsers, searchTerm, statusFilter, roleFilter)
    }

    /** The rejection dialog is on screen when it is open and a user is selected. */
    predicate ModalVisible()
      reads this
    {
      showRejectModal && selectedUser.Some?
    }

    /** The dialog's Reject button is enabled when the reason is not blank. */
    predicate RejectEnabled()
      reads this
    {
      Trim(rejectionReason) != ""
    }

    /** `loadData`: stores the three answers together, or nothing when any of them failed. */
    method LoadData(answer: LoadAnswer)
      modifies this
      ensures answer.Loaded? ==>
        pendingApprovals == answer.approvals && allUsers == answer.users && userStats == Some(answer.stats)
      ensures answer.LoadFailed? ==>
        pendingApprovals == old(pendingApprovals) && allUsers == old(allUsers) && userStats == old(userStats)
        && Visible() == old(Visible())
      ensures answer.Loaded? ==> Visible() == FilteredUsers(answer.users, old(searchTerm), old(statusFilter), old(roleFilter))
      ensures searchTerm == old(searchTerm) && statusFilter == old(statusFilter) && roleFilter == old(roleFilter)
      ensures selectedUser == old(selectedUser) && rejectionReason == old(rejectionReason)
      ensures showRejectModal == old(showRejectModal)
    {
      if answer.Loaded? {
        pendingApprovals, allUsers, userStats := answer.approvals, answer.users, Some(answer.stats);
      }
    }

    /** The Reject button of a row or of the pending list: selects the user and opens the dialog. */
    method OpenReject(u: UserProfile)
      modifies this
      ensures selectedUser == Some(u) && showRejectModal && ModalVisible()
      ensures rejectionReason == old(rejectionReason)
      ensures pendingApprovals == old(pendingApprovals) && allUsers == old(allUsers) && userStats == old(userStats)
      ensures searchTerm == old(searchTerm) && statusFilter == old(statusFilter) && roleFilter == old(roleFilter)
      ensures Visible() == old(Visible())
    {
      selectedUser := Some(u);
      showRejectModal := true;
    }

    method SetReason(text: string)
      modifies this
      ensures rejectionReason == text
      ensures selectedUser == old(selectedUser) && showRejectModal == old(showRejectModal)
      ensures pendingApprovals == old(pendingApprovals) && allUsers == old(allUsers) && userStats == old(userStats)
      ensures searchTerm == old(searchTerm) && statusFilter == old(statusFilter) && roleFilter == old(roleFilter)
      ensures Visible() == old(Visible())
    {
      rejectionReason := text;
    }

    /** Cancel: closes the dialog, clears the reason and the selection. */
    method Cancel()
      modifies this
      ensures !showRejectModal && rejectionReason == "" && selectedUser == None && !ModalVisible()
      ensures pendingApprovals == old(pendingApprovals) && allUsers == old(allUsers) && userStats == old(userStats)
      ensures searchTerm == old(searchTerm) && statusFilter == old(statusFilter) && roleFilter == old(roleFilter)
      ensures Visible() == old(Visible())
    {
      showRejectModal, rejectionReason, selectedUser := false, "", None;
    }

    /** `handleApprove(userId)`: needs a signed-in user; reloads after the call unless it failed. */
    method HandleApprove(current: Option<AuthState.AuthUser>, userId: string, outcome: CallOutcome, reload: LoadAnswer)
      returns (call: Option<AdminCall>)
      modifies this
      ensures current.None? ==> call.None?
      ensures current.Some? ==> call == Some(ApproveCall(userId, current.value.id))
      ensures current.None? || outcome == Failed || reload.LoadFailed? ==>
        pendingApprovals == old(pendingApprovals) && allUsers == old(allUsers) && userStats == old(userStats)
      ensures current.Some? && outcome == Completed && reload.Loaded? ==>
        pendingApprovals == reload.approvals && allUsers == reload.users && userStats == Some(reload.stats)
      ensures selectedUser == old(selectedUser) && rejectionReason == old(rejectionReason)
      ensures showRejectModal == old(showRejectModal)
      ensures searchTerm == old(searchTerm) && statusFilter == old(statusFilter) && roleFilter == old(roleFilter)
    {
      if current.None? {
        return None;
      }
      call := Some(ApproveCall(userId, current.value.id));
      if outcome == Failed {
        return;
      }
      LoadData(reload);
    }

    /**
     * `handleReject(userId)`: needs a signed-in user and a reason that is not blank. The reason is
     * sent as typed, untrimmed. After the call the dialog closes, the reason and selection are
     * cleared, and the data reloads; a failed call leaves the dialog as it was.
     */
    method HandleReject(current: Option<AuthState.AuthUser>, userId: string, outcome: CallOutcome, reload: LoadAnswer)
      returns (call: Option<AdminCall>)
      modifies this
      ensures current.None? || !old(RejectEnabled()) ==>
        call.None? && rejectionReason == old(rejectionReason) && selectedUser == old(selectedUser)
        && showRejectModal == old(showRejectModal)
      ensures current.Some? && old(RejectEnabled()) ==>
        call == Some(RejectCall(userId, current.value.id, old(rejectionReason)))
      ensures call.Some? && outcome == Completed ==>
        !showRejectModal && rejectionReason == "" && selectedUser == None
      ensures outcome == Failed ==>
        rejectionReason == old(rejectionReason) && selectedUser == old(selectedUser)
        && showRejectModal == old(showRejectModal)
      ensures call.None? || outcome == Failed || reload.LoadFailed? ==>
        pendingApprovals == old(pendingApprovals) && allUsers == old(allUsers) && userStats == old(userStats)
      ensures call.Some? && outcome == Completed && reload.Loaded? ==>
        pendingApprovals == reload.approvals && allUsers == reload.users && userStats == Some(reload.stats)
      ensures searchTerm == old(searchTerm) && statusFilter == old(statusFilter) && roleFilter == old(roleFilter)
    {
      if current.None? || !RejectEnabled() {
        return None;
      }
      call := Some(RejectCall(userId, current.value.id, rejectionReason));
      if outcome == Failed {
        return;
      }
      CloseAndReload(reload);
    }

    /** What `handleReject` does once `rejectUser` has completed: close the dialog, then `loadData`. */
    method CloseAndReload(reload: LoadAnswer)
      modifies this
      ensures !showRejectModal && rejectionReason == "" && selectedUser == None
      ensures reload.LoadFailed? ==>
        pendingApprovals == old(pendingApprovals) && allUsers == old(allUsers) && userStats == old(userStats)
      ensures reload.Loaded? ==>
        pendingApprovals == reload.approvals && allUsers == reload.users && userStats == Some(reload.stats)
      ensures searchTerm == old(searchTerm) && statusFilter == old(statusFilter) && roleFilter == old(roleFilter)
    {
      showRejectModal := false;
      rejectionReason := "";
      selectedUser := None;
      LoadData(reload);
    }
  }
}
