// The session store of src/store/authStore.ts: four fields overwritten by the
// transitions initialize, login, register and logout, next to the two persisted
// keys "token" and "user".
//
// Each asynchronous action is one atomic step: the outcome of the awaited call is
// a parameter. The pure functions After* state each transition on a Session
// value; the class Store performs it in place and is proved to agree with them.

module AuthStore {
  import opened Types
  import Api

  datatype State = State(user: Option<AuthUser>, isAuthenticated: bool, isLoading: bool, error: Option<string>)

  /** The store's fields together with the contents of local storage. */
  datatype Session = Session(state: State, storage: map<string, string>)

  /** What an awaited call threw: an `Error` instance with its message, or any other value. */
  datatype Thrown = ErrorInstance(message: string) | OtherValue

  /** How an awaited call of `authService` settled. Both calls go through the shared
      axios instance, so a rejection has first passed the response interceptor,
      which saw it as `http`; the store's `catch` then sees it as `thrown`. */
  datatype Outcome<T> = Resolved(value: T) | Rejected(thrown: Thrown, http: Api.HttpError)

  /** The body of a successful `/auth/login` or `/auth/register` response. */
  datatype AuthResponse = AuthResponse(token: string, username: string, role: Role)

  const LoginFallback := "Login failed. Please check your credentials and try again."
  const RegisterFallback := "Registration failed. Please try again."

  /** The store's field values before anything runs. */
  const Initial := State(None, false, true, None)

  /** The one invariant the store keeps: a known user means an authenticated session. */
  predicate UserImpliesAuthenticated(s: State) {
    s.user.Some? ==> s.isAuthenticated
  }

  /** The message a failed login or register stores. */
  function ErrorMessage(thrown: Thrown, fallback: string): (m: string)
    ensures thrown.ErrorInstance? ==> m == thrown.message
    ensures thrown.OtherValue? ==> m == fallback
  {
    match thrown
    case ErrorInstance(message) => message
    case OtherValue => fallback
  }

  // ------------------------------------------------------------- transitions

  function AfterInitialize(s: Session, decode: string -> Option<Api.Claims>, parse: string -> Option<AuthUser>, now: int): Session {
    var loading := s.state.(isLoading := true);
    if Api.IsTokenValid(s.storage, decode, now) then
      Session(loading.(user := Api.GetCurrentUser(s.storage, parse), isAuthenticated := true, isLoading := false), s.storage)
    else
      Session(loading.(user := None, isAuthenticated := false, isLoading := false), Api.ClearSession(s.storage))
  }

  /** The state `login` and `register` set before they await the backend. */
  function Pending(s: State): State {
    s.(isLoading := true, error := None)
  }

  function AfterLogin(s: Session, outcome: Outcome<AuthResponse>, stringify: AuthUser -> string): Session {
    var pending := Pending(s.state);
    match outcome
    case Resolved(r) =>
      var user := AuthUser(r.username, r.role);
      Session(pending.(user := Some(user), isAuthenticated := true, isLoading := false, error := None),
              s.storage[Api.TokenKey := r.token][Api.UserKey := stringify(user)])
    case Rejected(thrown, http) =>
      Session(pending.(isLoading := false, error := Some(ErrorMessage(thrown, LoginFallback))),
              Api.StorageAfterError(s.storage, http))
  }

  function AfterRegister(s: Session, outcome: Outcome<AuthResponse>): Session {
    var pending := Pending(s.state);
    match outcome
    case Resolved(_) =>
      Session(pending.(isAuthenticated := true, isLoading := false, error := None), s.storage)
    case Rejected(thrown, http) =>
      Session(pending.(isLoading := false, error := Some(ErrorMessage(thrown, RegisterFallback))),
              Api.StorageAfterError(s.storage, http))
  }

  /** Where the browser is sent while login or register settles: only the
      interceptor's redirect, on a rejection it signs out for. */
  function Redirect(outcome: Outcome<AuthResponse>): Option<string> {
    match outcome
    case Resolved(_) => None
    case Rejected(_, http) => Api.RedirectAfterError(http)
  }

  function AfterLogout(s: Session): Session {
    Session(s.state.(user := None, isAuthenticated := false), Api.ClearSession(s.storage))
  }

  // ------------------------------------------------------------- the store

  class Store {
    var user: Option<AuthUser>
    var isAuthenticated: bool
    var isLoading: bool
    var error: Option<string>
    /** The global `localStorage` the store and the service layer share. */
    const storage: Api.LocalStorage

    function Snapshot(): Session
      reads this, storage
    {
      Session(State(user, isAuthenticated, isLoading, error), storage.items)
    }

    constructor (storage: Api.LocalStorage)
      ensures this.storage == storage
      ensures Snapshot() == Session(Initial, storage.items)
    {
      this.storage := storage;
      user, isAuthenticated, isLoading, error := None, false, true, None;
    }

    method Initialize(decode: string -> Option<Api.Claims>, parse: string -> Option<AuthUser>, now: int)
      modifies this, storage
      ensures Snapshot() == AfterInitialize(old(Snapshot()), decode, parse, now)
    {
      isLoading := true;
      if Api.IsTokenValid(storage.items, decode, now) {
        var current := Api.GetCurrentUser(storage.items, parse);
        user, isAuthenticated, isLoading := current, true, false;
      } else {
        Api.Logout(storage);
        user, isAuthenticated, isLoading := None, false, false;
      }
    }

    /** `stringify` is `JSON.stringify` on the identity written under "user". */
    method Login(outcome: Outcome<AuthResponse>, stringify: AuthUser -> string) returns (redirect: Option<string>)
      modifies this, storage
      ensures Snapshot() == AfterLogin(old(Snapshot()), outcome, stringify)
      ensures redirect == Redirect(outcome)
    {
      redirect := None;
      isLoading, error := true, None;
      match outcome {
        case Resolved(r) =>
          var u := AuthUser(r.username, r.role);
          storage.SetItem(Api.TokenKey, r.token);
          storage.SetItem(Api.UserKey, stringify(u));
          user, isAuthenticated, isLoading, error := Some(u), true, false, None;
        case Rejected(thrown, http) =>
          var _, to := Api.OnResponseError(storage, http);
          redirect := to;
          isLoading, error := false, Some(ErrorMessage(thrown, LoginFallback));
      }
    }

    method Register(outcome: Outcome<AuthResponse>) returns (redirect: Option<string>)
      modifies this, storage
      ensures Snapshot() == AfterRegister(old(Snapshot()), outcome)
      ensures redirect == Redirect(outcome)
    {
      redirect := None;
      isLoading, error := true, None;
      match outcome {
        case Resolved(_) =>
          isAuthenticated, isLoading, error := true, false, None;
        case Rejected(thrown, http) =>
          var _, to := Api.OnResponseError(storage, http);
          redirect := to;
          isLoading, error := false, Some(ErrorMessage(thrown, RegisterFallback));
      }
    }

    method Logout()
      modifies this, storage
      ensures Snapshot() == AfterLogout(old(Snapshot()))
    {
      Api.Logout(storage);
      user, isAuthenticated := None, false;
    }
  }

  // ------------------------------------------------------------- properties

  lemma InitializeWithValidToken(s: Session, decode: string -> Option<Api.Claims>, parse: string -> Option<AuthUser>, now: int)
    requires Api.IsTokenValid(s.storage, decode, now)
    ensures var r := AfterInitialize(s, decode, parse, now);
      && r.state == State(Api.GetCurrentUser(s.storage, parse), true, false, s.state.error)
      && r.storage == s.storage
  {
  }

  lemma InitializeWithoutValidToken(s: Session, decode: string -> Option<Api.Claims>, parse: string -> Option<AuthUser>, now: int)
    requires !Api.IsTokenValid(s.storage, decode, now)
    ensures var r := AfterInitialize(s, decode, parse, now);
      && r.state == State(None, false, false, s.state.error)
      && r.storage == Api.ClearSession(s.storage)
  {
  }

  lemma PendingClearsError(s: State)
    ensures Pending(s) == State(s.user, s.isAuthenticated, true, None)
  {
  }

  /** A successful login writes "token" and the serialised identity and signs the user in. */
  lemma LoginSucceeds(s: Session, r: AuthResponse, stringify: AuthUser -> string)
    ensures var after := AfterLogin(s, Resolved(r), stringify);
      && after.state == State(Some(AuthUser(r.username, r.role)), true, false, None)
      && after.storage[Api.TokenKey] == r.token
      && after.storage[Api.UserKey] == stringify(AuthUser(r.username, r.role))
      && forall k :: k != Api.TokenKey && k != Api.UserKey ==>
           (k in after.storage <==> k in s.storage) && (k in s.storage ==> after.storage[k] == s.storage[k])
  {
  }

  /** A failed login or register that the interceptor does not sign out for only
      records the message: identity, flag and storage stay, and the page stays. */
  lemma FailureKeepsSession(s: Session, thrown: Thrown, http: Api.HttpError, stringify: AuthUser -> string)
    requires !Api.ForcesSignOut(http)
    ensures var l := AfterLogin(s, Rejected(thrown, http), stringify);
      && l.state == State(s.state.user, s.state.isAuthenticated, false, Some(ErrorMessage(thrown, LoginFallback)))
      && l.storage == s.storage
    ensures var g := AfterRegister(s, Rejected(thrown, http));
      && g.state == State(s.state.user, s.state.isAuthenticated, false, Some(ErrorMessage(thrown, RegisterFallback)))
      && g.storage == s.storage
    ensures Redirect(Rejected(thrown, http)) == None
  {
  }

  /** A first 401 on login or register (wrong credentials, say) passes the
      interceptor before the store's `catch`: both keys are removed and the browser
      is sent to "/login", while the store's own fields still hold the old user and
      flag next to the message. The reload the redirect causes restores a signed-out
      session. */
  lemma UnauthorizedFailureSignsOut(s: Session, thrown: Thrown, http: Api.HttpError, stringify: AuthUser -> string,
                                    decode: string -> Option<Api.Claims>, parse: string -> Option<AuthUser>, now: int)
    requires Api.ForcesSignOut(http)
    ensures var l := AfterLogin(s, Rejected(thrown, http), stringify);
      && l.state == State(s.state.user, s.state.isAuthenticated, false, Some(ErrorMessage(thrown, LoginFallback)))
      && l.storage == Api.ClearSession(s.storage)
    ensures var g := AfterRegister(s, Rejected(thrown, http));
      && g.state == State(s.state.user, s.state.isAuthenticated, false, Some(ErrorMessage(thrown, RegisterFallback)))
      && g.storage == Api.ClearSession(s.storage)
    ensures Redirect(Rejected(thrown, http)) == Some("/login")
    ensures var r := AfterInitialize(Session(Initial, AfterLogin(s, Rejected(thrown, http), stringify).storage), decode, parse, now);
      r.state.user == None && !r.state.isAuthenticated
  {
  }

  /** A successful register marks the session authenticated without touching user or storage. */
  lemma RegisterSucceeds(s: Session, r: AuthResponse)
    ensures AfterRegister(s, Resolved(r)) == Session(State(s.state.user, true, false, None), s.storage)
  {
  }

  lemma LogoutClearsIdentity(s: Session)
    ensures var r := AfterLogout(s);
      && r.state == State(None, false, s.state.isLoading, s.state.error)
      && r.storage == Api.ClearSession(s.storage)
  {
  }

  lemma LogoutIdempotent(s: Session)
    ensures AfterLogout(AfterLogout(s)) == AfterLogout(s)
  {
    Api.ClearSessionIdempotent(s.storage);
  }

  /** Every transition keeps `user != null ==> isAuthenticated`. */
  lemma TransitionsKeepInvariant(s: Session, decode: string -> Option<Api.Claims>, parse: string -> Option<AuthUser>,
                                 now: int, outcome: Outcome<AuthResponse>, stringify: AuthUser -> string)
    requires UserImpliesAuthenticated(s.state)
    ensures UserImpliesAuthenticated(Initial)
    ensures UserImpliesAuthenticated(AfterInitialize(s, decode, parse, now).state)
    ensures UserImpliesAuthenticated(AfterLogin(s, outcome, stringify).state)
    ensures UserImpliesAuthenticated(AfterRegister(s, outcome).state)
    ensures UserImpliesAuthenticated(AfterLogout(s).state)
  {
  }

  /** The converse fails: a successful register from a signed-out session is
      authenticated with no user. */
  lemma RegisterBreaksConverse(storage: map<string, string>, r: AuthResponse)
    ensures var after := AfterRegister(AfterLogout(Session(Initial, storage)), Resolved(r));
      after.state.isAuthenticated && after.state.user == None
  {
  }

  /** The converse fails on restore too: a live token next to an unreadable "user"
      entry gives an authenticated session with no user. */
  lemma InitializeBreaksConverse(s: Session, decode: string -> Option<Api.Claims>, parse: string -> Option<AuthUser>, now: int)
    requires Api.IsTokenValid(s.storage, decode, now)
    requires Api.UserKey in s.storage && parse(s.storage[Api.UserKey]) == None
    ensures var after := AfterInitialize(s, decode, parse, now);
      after.state.isAuthenticated && after.state.user == None
  {
  }

  /** What login persists, a later initialize restores, as long as the token has not
      expired and `JSON.parse` inverts `JSON.stringify` on the identity. */
  lemma LoginThenInitializeRestoresUser(s: Session, r: AuthResponse, stringify: AuthUser -> string,
                                        decode: string -> Option<Api.Claims>, parse: string -> Option<AuthUser>,
                                        now: int, exp: real)
    requires r.token != "" && decode(r.token) == Some(Api.Claims(Some(exp))) && Api.ExpiresAfter(exp, now)
    requires var u := AuthUser(r.username, r.role); stringify(u) != "" && parse(stringify(u)) == Some(u)
    ensures var after := AfterInitialize(AfterLogin(s, Resolved(r), stringify), decode, parse, now);
      after.state == State(Some(AuthUser(r.username, r.role)), true, false, None)
  {
    var u := AuthUser(r.username, r.role);
    var mid := AfterLogin(s, Resolved(r), stringify);
    assert mid.storage[Api.TokenKey] == r.token;
    assert mid.storage[Api.UserKey] == stringify(u);
  }
}
