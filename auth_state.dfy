/**
 * The application's auth context: the signed-in user, session and profile it holds, the flags it
 * derives from them, and the handlers that change them. A backend call is an input saying what
 * the call answered; the React effect that reloads the profile runs inside the handler that
 * changes the user.
 */
module AuthState {
  import opened Wrappers
  import opened UserManagement

  /** The signed-in user and the session carrying it, reduced to what the context keeps. */
  datatype AuthUser = AuthUser(id: string, email: string)
  datatype Session = Session(user: AuthUser, accessToken: string)

  /** The flags the context publishes next to its state. */
  datatype Flags = Flags(isAuthenticated: bool, isApproved: bool, isAdmin: bool, userRole: Option<string>)

  /** `isAuthenticated`, `isApproved`, `isAdmin` and `userRole` (`profile?.role || null`). */
  function DeriveFlags(user: Option<AuthUser>, profile: Option<UserProfile>): (f: Flags)
    ensures f.isAuthenticated <==> user.Some?
    ensures f.isApproved <==> profile.Some? && profile.value.status == "approved"
    ensures f.isAdmin <==> profile.Some? && profile.value.role == "admin" && profile.value.status == "approved"
    ensures f.userRole.Some? <==> profile.Some? && profile.value.role != ""
    ensures f.userRole.Some? ==> f.userRole.value == profile.value.role
  {
    Flags(
      user.Some?,
      profile.Some? && profile.value.status == "approved",
      profile.Some? && profile.value.role == "admin" && profile.value.status == "approved",
      if profile.Some? && profile.value.role != "" then Some(profile.value.role) else None)
  }

  /** The flags chain: admin implies approved implies a profile. */
  lemma FlagsChain(user: Option<AuthUser>, profile: Option<UserProfile>)
    ensures DeriveFlags(user, profile).isAdmin ==> DeriveFlags(user, profile).isApproved
    ensures DeriveFlags(user, profile).isApproved ==> profile.Some?
    ensures profile.None? ==> DeriveFlags(user, profile).userRole.None?
  {
  }

  /** The context's `isAdmin` agrees with the repository's `isCurrentUserAdmin` on the same profile. */
  lemma FlagsAgreeWithRepository(user: Option<AuthUser>, profile: Option<UserProfile>)
    ensures DeriveFlags(user, profile).isAdmin == IsCurrentUserAdmin(Ok(profile))
    ensures DeriveFlags(user, profile).isApproved == IsCurrentUserApproved(Ok(profile))
  {
  }

  /** How `supabase.auth.signOut()` ended: it returned (whatever its error field), or it threw. */
  datatype SignOutOutcome = Returned | Threw

  /** How `getSession()` ended: a session or none, an error result, or an exception. */
  datatype SessionAnswer = SessionData(session: Option<Session>) | SessionError | SessionThrew

  function UserOf(s: Option<Session>): (u: Option<AuthUser>)
    ensures u.Some? <==> s.Some?
  {
    if s.Some? then Some(s.value.user) else None
  }

  /** The profile the context stores after `refreshProfile`; a failed lookup stores none. */
  function RefreshedProfile(user: Option<AuthUser>, lookup: Result<Option<UserProfile>, string>): (p: Option<UserProfile>)
    ensures user.None? || lookup.Err? ==> p.None?
    ensures user.Some? && lookup.Ok? ==> p == lookup.value
  {
    if user.Some? && lookup.Ok? then lookup.value else None
  }

  class AuthProvider {
    var user: Option<AuthUser>
    var session: Option<Session>
    var profile: Option<UserProfile>
    var loading: bool

    /** Without a user there is no profile; the profile effect restores this after each change of user. */
    predicate Settled()
      reads this
    {
      user.None? ==> profile.None?
    }

    constructor ()
      ensures user.None? && session.None? && profile.None? && loading
      ensures Settled()
    {
      user, session, profile, loading := None, None, None, true;
    }

    /** The flags the context publishes for its current state. */
    function Flags(): Flags
      reads this
    {
      DeriveFlags(user, profile)
    }

    /** `refreshProfile`, given what `getCurrentUserProfile` answered. */
    method RefreshProfile(lookup: Result<Option<UserProfile>, string>)
      modifies this
      ensures profile == RefreshedProfile(user, lookup)
      ensures user == old(user) && session == old(session) && loading == old(loading)
      ensures Settled()
    {
      if user.Some? {
        match lookup
        case Ok(p) => profile := p;
        case Err(_) => profile := None;
      } else {
        profile := None;
      }
    }

    /**
     * The effect on `[user]`: after the user changes, reload the profile, or clear it when there
     * is no user. Setting a missing user to missing again is no change and runs nothing.
     */
    method UserChanged(previous: Option<AuthUser>, lookup: Result<Option<UserProfile>, string>)
      modifies this
      ensures previous.None? && user.None? ==> profile == old(profile)
      ensures !(previous.None? && user.None?) ==> profile == RefreshedProfile(user, lookup)
      ensures user == old(user) && session == old(session) && loading == old(loading)
      ensures old(Settled()) ==> Settled()
    {
      if previous.None? && user.None? {
        return;
      }
      if user.Some? {
        RefreshProfile(lookup);
      } else {
        profile := None;
      }
    }

    /** `signOut`: clears user, session and profile unless the backend call throws. */
    method SignOut(outcome: SignOutOutcome)
      modifies this
      ensures outcome == Returned ==> user.None? && session.None? && profile.None?
      ensures outcome == Threw ==> user == old(user) && session == old(session) && profile == old(profile)
      ensures loading == old(loading)
      ensures old(Settled()) ==> Settled()
    {
      if outcome == Threw {
        return;
      }
      var previous := user;
      user, session, profile := None, None, None;
      // With no user the effect only clears the profile; it looks nothing up.
      UserChanged(previous, Ok(None));
    }

    /** `refreshSession`: adopts the session `getSession` returns; an error or exception changes nothing. */
    method RefreshSession(answer: SessionAnswer, lookup: Result<Option<UserProfile>, string>)
      modifies this
      ensures answer.SessionData? ==> session == answer.session && user == UserOf(answer.session)
      ensures answer.SessionData? && !(old(user).None? && user.None?) ==> profile == RefreshedProfile(user, lookup)
      ensures answer.SessionData? && old(user).None? && user.None? ==> profile == old(profile)
      ensures !answer.SessionData? ==> user == old(user) && session == old(session) && profile == old(profile)
      ensures loading == old(loading)
      ensures old(Settled()) ==> Settled()
    {
      if !answer.SessionData? {
        return;
      }
      var previous := user;
      session := answer.session;
      user := UserOf(answer.session);
      UserChanged(previous, lookup);
    }

    /**
     * The initial `getSession` on mount. Its error field is not looked at: an error answer carries
     * no session, so it signs the context out. Only an exception leaves the state alone. Loading
     * stops in every case.
     */
    method LoadInitialSession(answer: SessionAnswer, lookup: Result<Option<UserProfile>, string>)
      modifies this
      ensures answer.SessionData? ==> session == answer.session && user == UserOf(answer.session)
      ensures answer.SessionError? ==> session.None? && user.None?
      ensures !answer.SessionThrew? && !(old(user).None? && user.None?) ==> profile == RefreshedProfile(user, lookup)
      ensures !answer.SessionThrew? && old(user).None? && user.None? ==> profile == old(profile)
      ensures answer.SessionThrew? ==> user == old(user) && session == old(session) && profile == old(profile)
      ensures !loading
      ensures old(Settled()) ==> Settled()
    {
      if !answer.SessionThrew? {
        var s := if answer.SessionData? then answer.session else None;
        var previous := user;
        session := s;
        user := UserOf(s);
        UserChanged(previous, lookup);
      }
      loading := false;
    }

    /** The `onAuthStateChange` listener: adopts the new session and stops loading. */
    method AuthStateChanged(newSession: Option<Session>, lookup: Result<Option<UserProfile>, string>)
      modifies this
      ensures session == newSession && user == UserOf(newSession) && !loading
      ensures !(old(user).None? && user.None?) ==> profile == RefreshedProfile(user, lookup)
      ensures old(user).None? && user.None? ==> profile == old(profile)
      ensures old(Settled()) ==> Settled()
    {
      var previous := user;
      session := newSession;
      user := UserOf(newSession);
      loading := false;
      UserChanged(previous, lookup);
    }
  }
}
