/**
 * The session controller (`AuthProvider` in src/context/AuthContext.tsx):
 * the signed-in `user`, the `isLoading` flag, and the two storage keys that
 * persist the session across launches. Each server call is an input: the
 * outcome the server produced, which passes through the response
 * interceptor on its way back.
 */
module AuthContext {
  import opened Wrappers
  import opened Config
  import opened Storage
  import opened Api
  import opened UserJson

  /** Everything the controller's operations read or change. */
  datatype SessionState = SessionState(items: map<string, string>, user: Option<User>, isLoading: bool)

  /** `isAuthenticated: !!user` */
  predicate IsAuthenticated(s: SessionState) {
    s.user.Some?
  }

  /** JavaScript truthiness of a stored string: present and non-empty. */
  predicate Truthy(v: Option<string>) {
    v.Some? && v.value != ""
  }

  /** The state on mount: nobody signed in, still loading, the store as persisted. */
  function Initial(persisted: map<string, string>): SessionState {
    SessionState(persisted, None, true)
  }

  /**
   * `checkAuthStatus`: adopt the stored user when both keys hold non-empty
   * text and the record parses; a parse failure is caught and logged.
   * Loading ends either way.
   */
  function AfterCheckAuthStatus(s: SessionState): (t: SessionState)
    ensures t.items == s.items && !t.isLoading
    ensures t.user != s.user ==>
      Truthy(Lookup(s.items, AuthTokenKey)) && Truthy(Lookup(s.items, UserDataKey))
      && DecodeUser(s.items[UserDataKey]) == t.user
  {
    var token := Lookup(s.items, AuthTokenKey);
    var userData := Lookup(s.items, UserDataKey);
    var user :=
      if Truthy(token) && Truthy(userData) then
        match DecodeUser(userData.value)
        case Some(u) => Some(u)
        case None => s.user
      else s.user;
    SessionState(s.items, user, false)
  }

  /** `login` and `register`: the server's answer decides everything. */
  function AfterAuthCall(s: SessionState, reply: HttpOutcome<AuthTokens>): SessionState {
    match reply
    case Received(tokens) =>
      SessionState(
        s.items[AuthTokenKey := tokens.token][UserDataKey := EncodeUser(tokens.user)],
        Some(tokens.user),
        s.isLoading)
    case Failed(f) => s.(items := AfterFailure(s.items, f))
  }

  /** `logout`: the server call is best effort; the session keys and the user go regardless. */
  function AfterLogout(s: SessionState, reply: HttpOutcome<()>): SessionState {
    SessionState(AfterResponse(s.items, reply) - SessionKeys, None, s.isLoading)
  }

  /** `refreshUser`: a fetched user replaces the stored one; a failure logs out. */
  function AfterRefreshUser(s: SessionState, fetch: HttpOutcome<User>, logoutReply: HttpOutcome<()>): SessionState {
    match fetch
    case Received(u) => SessionState(s.items[UserDataKey := EncodeUser(u)], Some(u), s.isLoading)
    case Failed(f) => AfterLogout(s.(items := AfterFailure(s.items, f)), logoutReply)
  }

  /** Any other call of the app's services that fails on its way through the interceptor. */
  function AfterFailedCall(s: SessionState, f: HttpFailure): SessionState {
    s.(items := AfterFailure(s.items, f))
  }

  // ------------------------------------------------------------ properties

  /**
   * A successful login stores the token and the encoded user, signs the
   * user in, and leaves every other key alone; the stored record reads back
   * as the user.
   */
  lemma LoginSuccessStoresSession(s: SessionState, tokens: AuthTokens)
    ensures var t := AfterAuthCall(s, Received(tokens));
      && t.items[AuthTokenKey] == tokens.token
      && DecodeUser(t.items[UserDataKey]) == Some(tokens.user)
      && t.user == Some(tokens.user) && IsAuthenticated(t)
      && t.isLoading == s.isLoading
      && (forall k :: k !in SessionKeys ==> (k in t.items <==> k in s.items) && (k in s.items ==> t.items[k] == s.items[k]))
  {
    DecodeEncodeUser(tokens.user);
  }

  /**
   * A failed login or registration rejects with the normalised error and
   * changes neither the user nor the loading flag; the store changes only
   * by the interceptor's 401 clear.
   */
  lemma LoginFailureKeepsState(s: SessionState, f: HttpFailure)
    ensures var t := AfterAuthCall(s, Failed(f));
      && t.user == s.user && t.isLoading == s.isLoading
      && (!IsUnauthorized(f) ==> t == s)
      && (IsUnauthorized(f) ==> t.items == s.items - SessionKeys)
  {
  }

  /** After logout, whatever the server said, both keys are gone, nobody is signed in, and the rest of the store is untouched. */
  lemma LogoutClearsSession(s: SessionState, reply: HttpOutcome<()>)
    ensures var t := AfterLogout(s, reply);
      && AuthTokenKey !in t.items && UserDataKey !in t.items
      && !IsAuthenticated(t)
      && t.items == s.items - SessionKeys
  {
  }

  /** Logging out twice is logging out once. */
  lemma LogoutIdempotent(s: SessionState, first: HttpOutcome<()>, second: HttpOutcome<()>)
    ensures AfterLogout(AfterLogout(s, first), second) == AfterLogout(s, first)
  {
    LogoutClearsSession(s, first);
    LogoutClearsSession(AfterLogout(s, first), second);
  }

  /** A successful refresh overwrites the stored user and keeps the token exactly as it was. */
  lemma RefreshSuccessReplacesUser(s: SessionState, u: User, logoutReply: HttpOutcome<()>)
    ensures var t := AfterRefreshUser(s, Received(u), logoutReply);
      && DecodeUser(t.items[UserDataKey]) == Some(u)
      && t.user == Some(u)
      && (AuthTokenKey in t.items <==> AuthTokenKey in s.items)
      && (AuthTokenKey in s.items ==> t.items[AuthTokenKey] == s.items[AuthTokenKey])
  {
    DecodeEncodeUser(u);
  }

  /** A failed refresh ends in exactly the state a logout would. */
  lemma RefreshFailureIsLogout(s: SessionState, f: HttpFailure, logoutReply: HttpOutcome<()>)
    ensures AfterRefreshUser(s, Failed(f), logoutReply) == AfterLogout(s, logoutReply)
  {
    LogoutClearsSession(s, logoutReply);
    LogoutClearsSession(s.(items := AfterFailure(s.items, f)), logoutReply);
  }

  /**
   * The session a login persists is the one the next launch restores,
   * provided the server's token is non-empty (an empty token fails the
   * `token &&` test and the app starts signed out).
   */
  lemma LoginThenRelaunch(s: SessionState, tokens: AuthTokens)
    ensures var t := AfterCheckAuthStatus(Initial(AfterAuthCall(s, Received(tokens)).items));
      && !t.isLoading
      && t.user == if tokens.token != "" then Some(tokens.user) else None
  {
    DecodeEncodeUser(tokens.user);
    EncodeUserNonEmpty(tokens.user);
  }

  /** The token and the user record are stored together or not at all. */
  predicate Paired(items: map<string, string>) {
    AuthTokenKey in items <==> UserDataKey in items
  }

  /**
   * Every operation keeps the two keys paired, except a refresh that
   * succeeds without a stored token, which writes the record alone.
   */
  lemma PairedPreserved(s: SessionState, login: HttpOutcome<AuthTokens>, logoutReply: HttpOutcome<()>,
                        fetch: HttpOutcome<User>, f: HttpFailure)
    requires Paired(s.items)
    ensures Paired(AfterCheckAuthStatus(s).items)
    ensures Paired(AfterAuthCall(s, login).items)
    ensures Paired(AfterLogout(s, logoutReply).items)
    ensures Paired(AfterFailedCall(s, f).items)
    ensures fetch.Failed? || AuthTokenKey in s.items ==> Paired(AfterRefreshUser(s, fetch, logoutReply).items)
  {
    PairedAfterCheckAuthStatus(s);
    PairedAfterLogin(s, login);
    PairedAfterLogout(s, logoutReply);
    PairedAfterFailedCall(s, f);
    if fetch.Failed? || AuthTokenKey in s.items {
      PairedAfterRefresh(s, fetch, logoutReply);
    }
  }

  lemma PairedAfterCheckAuthStatus(s: SessionState)
    requires Paired(s.items)
    ensures Paired(AfterCheckAuthStatus(s).items)
  {
  }

  lemma PairedAfterLogout(s: SessionState, logoutReply: HttpOutcome<()>)
    requires Paired(s.items)
    ensures Paired(AfterLogout(s, logoutReply).items)
  {
  }

  lemma PairedAfterFailedCall(s: SessionState, f: HttpFailure)
    requires Paired(s.items)
    ensures Paired(AfterFailedCall(s, f).items)
  {
  }

  lemma PairedAfterLogin(s: SessionState, login: HttpOutcome<AuthTokens>)
    requires Paired(s.items)
    ensures Paired(AfterAuthCall(s, login).items)
  {
  }

  lemma PairedAfterRefresh(s: SessionState, fetch: HttpOutcome<User>, logoutReply: HttpOutcome<()>)
    requires Paired(s.items) && (fetch.Failed? || AuthTokenKey in s.items)
    ensures Paired(AfterRefreshUser(s, fetch, logoutReply).items)
  {
  }

  /** The in-memory user, when there is one, is the user the store holds. */
  predicate Consistent(s: SessionState) {
    s.user.Some? ==> UserDataKey in s.items && DecodeUser(s.items[UserDataKey]) == s.user
  }

  /** Every operation keeps the in-memory user in step with the store, unless a call fails with 401. */
  lemma ConsistentPreserved(s: SessionState, login: HttpOutcome<AuthTokens>, logoutReply: HttpOutcome<()>,
                            fetch: HttpOutcome<User>)
    requires Consistent(s)
    ensures Consistent(AfterCheckAuthStatus(s))
    ensures !(login.Failed? && IsUnauthorized(login.failure)) ==> Consistent(AfterAuthCall(s, login))
    ensures Consistent(AfterLogout(s, logoutReply))
    ensures Consistent(AfterRefreshUser(s, fetch, logoutReply))
  {
    if !(login.Failed? && IsUnauthorized(login.failure)) {
      ConsistentAfterLogin(s, login);
    }
    ConsistentAfterRefresh(s, fetch, logoutReply);
  }

  lemma ConsistentAfterLogin(s: SessionState, login: HttpOutcome<AuthTokens>)
    requires Consistent(s)
    requires !(login.Failed? && IsUnauthorized(login.failure))
    ensures Consistent(AfterAuthCall(s, login))
  {
    if login.Received? {
      DecodeEncodeUser(login.body.user);
    }
  }

  lemma ConsistentAfterRefresh(s: SessionState, fetch: HttpOutcome<User>, logoutReply: HttpOutcome<()>)
    requires Consistent(s)
    ensures Consistent(AfterRefreshUser(s, fetch, logoutReply))
  {
    if fetch.Received? {
      DecodeEncodeUser(fetch.body);
    }
  }

  /**
   * A 401 on any call clears the stored session but not the in-memory user:
   * the app stays signed in until it is restarted or the user logs out.
   */
  lemma UnauthorizedKeepsUserSignedIn(s: SessionState, f: HttpFailure)
    requires IsUnauthorized(f)
    ensures var t := AfterFailedCall(s, f);
      && AuthTokenKey !in t.items && UserDataKey !in t.items
      && IsAuthenticated(t) == IsAuthenticated(s)
      && (IsAuthenticated(s) ==> !Consistent(t))
  {
  }

  /**
   * No session operation touches the onboarding flag that the onboarding
   * screen stores beside the session keys, so logging out or a 401 never
   * sends the user back through onboarding.
   */
  lemma SessionKeepsOnboardingFlag(s: SessionState, login: HttpOutcome<AuthTokens>, logoutReply: HttpOutcome<()>,
                                   fetch: HttpOutcome<User>, f: HttpFailure)
    ensures Lookup(AfterCheckAuthStatus(s).items, OnboardingCompletedKey) == Lookup(s.items, OnboardingCompletedKey)
    ensures Lookup(AfterAuthCall(s, login).items, OnboardingCompletedKey) == Lookup(s.items, OnboardingCompletedKey)
    ensures Lookup(AfterLogout(s, logoutReply).items, OnboardingCompletedKey) == Lookup(s.items, OnboardingCompletedKey)
    ensures Lookup(AfterRefreshUser(s, fetch, logoutReply).items, OnboardingCompletedKey) == Lookup(s.items, OnboardingCompletedKey)
    ensures Lookup(AfterFailedCall(s, f).items, OnboardingCompletedKey) == Lookup(s.items, OnboardingCompletedKey)
  {
    StorageKeysDistinct();
    var k := OnboardingCompletedKey;
    assert k != AuthTokenKey && k != UserDataKey;
    KeepsFlagAcrossFailure(s.items, f);
    if login.Failed? {
      KeepsFlagAcrossFailure(s.items, login.failure);
    }
    KeepsFlagAcrossLogout(s, logoutReply);
    if fetch.Failed? {
      KeepsFlagAcrossFailure(s.items, fetch.failure);
      KeepsFlagAcrossLogout(s.(items := AfterFailure(s.items, fetch.failure)), logoutReply);
    }
  }

  lemma KeepsFlagAcrossFailure(items: map<string, string>, f: HttpFailure)
    ensures Lookup(AfterFailure(items, f), OnboardingCompletedKey) == Lookup(items, OnboardingCompletedKey)
  {
    StorageKeysDistinct();
  }

  lemma KeepsFlagAcrossLogout(s: SessionState, reply: HttpOutcome<()>)
    ensures Lookup(AfterLogout(s, reply).items, OnboardingCompletedKey) == Lookup(s.items, OnboardingCompletedKey)
  {
    StorageKeysDistinct();
    if reply.Failed? {
      KeepsFlagAcrossFailure(s.items, reply.failure);
    }
  }

  // --------------------------------------------------------- the provider

  class AuthProvider {
    const store: KeyValueStore
    const api: ApiClient
    var user: Option<User>
    var isLoading: bool

    /** The controller and the HTTP client share one device store. */
    ghost predicate Valid() {
      api.store == store
    }

    function State(): SessionState
      reads this, store
    {
      SessionState(store.items, user, isLoading)
    }

    constructor (store: KeyValueStore)
      ensures Valid() && this.store == store
      ensures State() == Initial(store.items)
    {
      this.store := store;
      this.api := new ApiClient(store);
      user := None;
      isLoading := true;
    }

    method CheckAuthStatus()
      modifies this
      ensures State() == AfterCheckAuthStatus(old(State()))
    {
      var token := store.GetItem(AuthTokenKey);
      var userData := store.GetItem(UserDataKey);
      if Truthy(token) && Truthy(userData) {
        var parsed := DecodeUser(userData.value);
        if parsed.Some? {
          user := parsed;
        }
      }
      isLoading := false;
    }

    /** Stores the token and the user record, then signs the user in. */
    method SaveSession(tokens: AuthTokens)
      modifies this, store
      ensures State() == AfterAuthCall(old(State()), Received(tokens))
    {
      store.SetItem(AuthTokenKey, tokens.token);
      store.SetItem(UserDataKey, EncodeUser(tokens.user));
      user := Some(tokens.user);
    }

    /** `login`: a rejection is rethrown to the caller. */
    method Login(reply: HttpOutcome<AuthTokens>) returns (error: Option<ApiError>)
      requires Valid()
      modifies this, store
      ensures State() == AfterAuthCall(old(State()), reply)
      ensures error == Rejection(reply)
    {
      var response := api.InterceptResponse(reply);
      if response.Success? {
        SaveSession(response.value);
        error := None;
      } else {
        error := Some(response.error);
      }
    }

    /** `register`: the same contract as `login`, against the registration endpoint. */
    method Register(reply: HttpOutcome<AuthTokens>) returns (error: Option<ApiError>)
      requires Valid()
      modifies this, store
      ensures State() == AfterAuthCall(old(State()), reply)
      ensures error == Rejection(reply)
    {
      var response := api.InterceptResponse(reply);
      if response.Success? {
        SaveSession(response.value);
        error := None;
      } else {
        error := Some(response.error);
      }
    }

    /** `logout`: a failed server call is caught and logged; local data is cleared regardless. */
    method Logout(reply: HttpOutcome<()>)
      requires Valid()
      modifies this, store
      ensures State() == AfterLogout(old(State()), reply)
    {
      var _ := api.InterceptResponse(reply);
      store.RemoveItem(AuthTokenKey);
      store.RemoveItem(UserDataKey);
      user := None;
    }

    /** `refreshUser`: a failed fetch is caught and turned into a logout. */
    method RefreshUser(fetch: HttpOutcome<User>, logoutReply: HttpOutcome<()>)
      requires Valid()
      modifies this, store
      ensures State() == AfterRefreshUser(old(State()), fetch, logoutReply)
    {
      var response := api.InterceptResponse(fetch);
      if response.Success? {
        store.SetItem(UserDataKey, EncodeUser(response.value));
        user := Some(response.value);
      } else {
        Logout(logoutReply);
      }
    }
  }
}
