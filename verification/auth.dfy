/** The mock authentication provider (`src/contexts/AuthContext.tsx`): a
    fixed credential table, login and logout transitions, the restore of a
    saved session at start-up, and the derived admin flag.

    Browser storage under the key `user` is modelled as `stored`, an
    Option of the saved record; `JSON.stringify` followed by `JSON.parse`
    is taken to give back the same record. */
module Auth {
  import opened Options
  import opened Types

  /** The identity the administrator credentials sign in as. */
  const AdminUser: User := User("1", "admin@store.com", "Store Admin", true)

  /** The identity the customer credentials sign in as. */
  const RegularUser: User := User("2", "user@example.com", "John Doe", false)

  /** The credential table: the identity an email/password pair signs in
      as, if any. Both fields are compared exactly. */
  function Authenticate(email: string, password: string): (r: Option<User>)
    ensures r == Some(AdminUser) <==> email == "admin@store.com" && password == "admin123"
    ensures r == Some(RegularUser) <==> email == "user@example.com" && password == "user123"
    ensures r.Some? ==> r == Some(AdminUser) || r == Some(RegularUser)
  {
    if email == "admin@store.com" && password == "admin123" then Some(AdminUser)
    else if email == "user@example.com" && password == "user123" then Some(RegularUser)
    else None
  }

  /** The provider's state: the signed-in user, the saved session and the
      `loading` flag. */
  datatype Session = Session(user: Option<User>, stored: Option<User>, loading: bool)

  /** The state at mount: nobody signed in, loading, storage as found. */
  function Mount(stored: Option<User>): (s: Session)
    ensures s.user.None? && s.loading && s.stored == stored
  {
    Session(None, stored, true)
  }

  /** The mount effect: a saved session becomes the current user, an
      absent one leaves the user as it was; loading ends either way. */
  function Restore(s: Session): (t: Session)
    ensures s.stored.Some? ==> t.user == s.stored
    ensures s.stored.None? ==> t.user == s.user
    ensures t.stored == s.stored && !t.loading
  {
    if s.stored.Some? then Session(s.stored, s.stored, false)
    else s.(loading := false)
  }

  /** A page load with `stored` in browser storage. */
  function Startup(stored: Option<User>): Session
  {
    Restore(Mount(stored))
  }

  /** After start-up the current user is the saved one, or nobody. */
  lemma StartupRestoresStored(stored: Option<User>)
    ensures Startup(stored).user == stored
    ensures Startup(stored).stored == stored
    ensures !Startup(stored).loading
  {
  }

  datatype LoginResult = LoginResult(success: bool, session: Session)

  /** `login(email, password)`: on a table hit the identity becomes the
      current user and is saved; otherwise nothing changes. */
  function Login(s: Session, email: string, password: string): (r: LoginResult)
    ensures r.success <==> Authenticate(email, password).Some?
    ensures r.success ==> r.session.user == Authenticate(email, password)
                          && r.session.stored == r.session.user
                          && r.session.loading == s.loading
    ensures !r.success ==> r.session == s
  {
    match Authenticate(email, password)
    case Some(u) => LoginResult(true, s.(user := Some(u), stored := Some(u)))
    case None => LoginResult(false, s)
  }

  /** `logout()`: nobody is signed in and the saved session is removed. */
  function Logout(s: Session): (t: Session)
    ensures t.user.None? && t.stored.None?
    ensures t.loading == s.loading
  {
    s.(user := None, stored := None)
  }

  /** `user?.is_admin || false`: nobody is no admin, and a signed-in
      user is one exactly when the record's flag is set. */
  predicate IsAdmin(user: Option<User>)
    ensures IsAdmin(user) ==> user.Some?
    ensures user.Some? ==> (IsAdmin(user) <==> user.value.is_admin)
  {
    user.Some? && user.value.is_admin
  }

  /** The current user is the saved one. */
  predicate Synced(s: Session)
  {
    s.user == s.stored
  }

  /** Start-up, login and logout all leave the current user equal to the
      saved one. */
  lemma SyncedInvariant(stored: Option<User>, s: Session, email: string, password: string)
    ensures Synced(Startup(stored))
    ensures Synced(s) ==> Synced(Login(s, email, password).session)
    ensures Synced(Logout(s))
  {
  }

  /** The administrator credentials sign in as the administrator, who is
      saved and has the admin flag. */
  lemma AdminLogin(s: Session)
    ensures Login(s, "admin@store.com", "admin123").success
    ensures Login(s, "admin@store.com", "admin123").session.user == Some(User("1", "admin@store.com", "Store Admin", true))
    ensures Login(s, "admin@store.com", "admin123").session.stored == Some(AdminUser)
    ensures IsAdmin(Login(s, "admin@store.com", "admin123").session.user)
  {
  }

  /** The customer credentials sign in as the customer, who is saved and
      has no admin flag. */
  lemma CustomerLogin(s: Session)
    ensures Login(s, "user@example.com", "user123").success
    ensures Login(s, "user@example.com", "user123").session.user == Some(User("2", "user@example.com", "John Doe", false))
    ensures Login(s, "user@example.com", "user123").session.stored == Some(RegularUser)
    ensures !IsAdmin(Login(s, "user@example.com", "user123").session.user)
  {
  }

  /** A wrong password or a differently-cased email is refused and leaves
      the session as it was. */
  lemma RejectedLogins(s: Session)
    ensures Login(s, "admin@store.com", "wrong") == LoginResult(false, s)
    ensures Login(s, "Admin@store.com", "admin123") == LoginResult(false, s)
    ensures Login(s, "user@example.com", "admin123") == LoginResult(false, s)
  {
  }

  /** A session saved by a successful login is the one a later page load
      restores. */
  lemma LoginThenReload(s: Session, email: string, password: string)
    requires Login(s, email, password).success
    ensures Startup(Login(s, email, password).session.stored).user == Login(s, email, password).session.user
  {
  }

  /** After logout a page load restores nobody. */
  lemma LogoutThenReload(s: Session)
    ensures Startup(Logout(s).stored).user.None?
    ensures !IsAdmin(Startup(Logout(s).stored).user)
  {
  }

  /** Only the administrator credentials give the admin flag. */
  lemma AdminOnlyByAdminCredentials(s: Session, email: string, password: string)
    requires !IsAdmin(s.user)
    ensures IsAdmin(Login(s, email, password).session.user) <==> email == "admin@store.com" && password == "admin123"
  {
  }

  /** A user action on the provider. */
  datatype Event = LoginEvent(email: string, password: string) | LogoutEvent

  /** The session after one event. */
  function Step(s: Session, event: Event): Session
  {
    match event
    case LoginEvent(e, p) => Login(s, e, p).session
    case LogoutEvent => Logout(s)
  }

  /** The session after the events, in order. */
  function Run(s: Session, events: seq<Event>): Session
    decreases |events|
  {
    if |events| == 0 then s else Run(Step(s, events[0]), events[1..])
  }

  /** Nobody, or one of the two identities of the credential table. */
  predicate TableUser(u: Option<User>)
  {
    u.None? || u == Some(AdminUser) || u == Some(RegularUser)
  }

  /** After a page load and any logins and logouts, the current user is
      the saved one and is nobody or a table identity, so the admin flag
      is held exactly by the administrator identity. */
  lemma {:induction false} RunKeepsTableUsers(s: Session, events: seq<Event>)
    requires Synced(s) && TableUser(s.user)
    ensures Synced(Run(s, events))
    ensures TableUser(Run(s, events).user)
    ensures IsAdmin(Run(s, events).user) <==> Run(s, events).user == Some(AdminUser)
    decreases |events|
  {
    if |events| > 0 {
      RunKeepsTableUsers(Step(s, events[0]), events[1..]);
    }
  }

  /** From a page load with nothing saved, every reachable session is
      synced and holds nobody or a table identity. */
  lemma ReachableFromEmptyStorage(events: seq<Event>)
    ensures Synced(Run(Startup(None), events))
    ensures TableUser(Run(Startup(None), events).user)
  {
    RunKeepsTableUsers(Startup(None), events);
  }
}
