/** The session of frontend/src/contexts/AuthContext.tsx: the `user`, `tokens` and
    `loading` state of `AuthProvider`, the `authTokens` key of `localStorage` and the
    router's navigation history. The transitions are first stated on a `Session` value;
    the `AuthProvider` class performs them step by step and is proved to follow them. */
module AuthContext {
  import opened Types
  import opened Browser
  import opened ApiClient

  /** Everything the provider reads or writes, at one moment. */
  datatype Session = Session(
    user: Option<User>,
    tokens: Option<AuthTokens>,
    loading: bool,
    stored: Option<AuthTokens>,     // the `authTokens` key of localStorage
    navigation: seq<string>)        // paths pushed to the router so far

  /** The state right after mounting, before the bootstrap effect has run. */
  function Initial(stored: Option<AuthTokens>, navigation: seq<string>): Session {
    Session(None, None, true, stored, navigation)
  }

  /** `logout`. */
  function AfterLogout(s: Session): Session {
    s.(user := None, tokens := None, stored := None, navigation := s.navigation + ["/login"])
  }

  /** `fetchUserProfile`: success stores the user, failure logs out; `loading` is
      cleared in `finally`. */
  function AfterProfileFetch(s: Session, profile: Settled<User>): Session {
    var settled := match profile
      case Fulfilled(u) => s.(user := Some(u))
      case Rejected(_) => AfterLogout(s);
    settled.(loading := false)
  }

  /** `login(newTokens)`: the pair goes to memory and to storage, the profile is fetched,
      then the router goes to `/`. */
  function AfterLogin(s: Session, newTokens: AuthTokens, profile: Settled<User>): Session {
    var fetched := AfterProfileFetch(s.(tokens := Some(newTokens), stored := Some(newTokens)), profile);
    fetched.(navigation := fetched.navigation + ["/"])
  }

  /** The mount effect: with a stored pair, it becomes `tokens` and the profile is
      fetched; without one, `loading` is cleared and nothing is requested. */
  function AfterBootstrap(s: Session, profile: Settled<User>): Session {
    match s.stored
    case None => s.(loading := false)
    case Some(t) => AfterProfileFetch(s.(tokens := Some(t)), profile)
  }

  /** The session invariant: a user is only ever held together with a token pair that
      is also the stored one; while loading nothing is held yet, and once loading is over
      memory and storage agree. */
  predicate Consistent(s: Session) {
    && (s.user.Some? ==> s.tokens.Some? && s.stored == s.tokens)
    && (s.loading ==> s.user.None? && s.tokens.None?)
    && (!s.loading ==> s.tokens == s.stored)
  }

  lemma InitialIsConsistent(stored: Option<AuthTokens>, navigation: seq<string>)
    ensures Consistent(Initial(stored, navigation))
    ensures Initial(stored, navigation).user.None? && Initial(stored, navigation).tokens.None?
    ensures Initial(stored, navigation).loading
  {
  }

  /** Every transition keeps the invariant. */
  lemma LogoutKeepsConsistent(s: Session)
    requires Consistent(s)
    ensures Consistent(AfterLogout(s))
  {
  }

  lemma ProfileFetchKeepsConsistent(s: Session, profile: Settled<User>)
    requires Consistent(s.(loading := false)) && s.tokens.Some?
    ensures Consistent(AfterProfileFetch(s, profile))
  {
  }

  lemma LoginKeepsConsistent(s: Session, t: AuthTokens, profile: Settled<User>)
    requires Consistent(s)
    ensures Consistent(AfterLogin(s, t, profile))
  {
  }

  lemma BootstrapKeepsConsistent(s: Session, profile: Settled<User>)
    requires Consistent(s)
    ensures Consistent(AfterBootstrap(s, profile))
  {
  }

  /** Logout from any state leaves no user, no tokens and no stored key; a second
      logout changes nothing more except pushing `/login` again. */
  lemma LogoutIsIdempotent(s: Session)
    ensures AfterLogout(s).user.None? && AfterLogout(s).tokens.None? && AfterLogout(s).stored.None?
    ensures AfterLogout(AfterLogout(s))
         == AfterLogout(s).(navigation := AfterLogout(s).navigation + ["/login"])
  {
  }

  /** A profile fetch ends loading whatever its outcome; afterwards there is a user
      exactly when the fetch succeeded, and (when a pair was held) a token pair exactly
      when there is a user. A failed fetch collapses the session to anonymous, with the
      stored key removed; a successful one leaves tokens and storage untouched. */
  lemma ProfileFetchSpec(s: Session, profile: Settled<User>)
    ensures !AfterProfileFetch(s, profile).loading
    ensures AfterProfileFetch(s, profile).user.Some? <==> profile.Fulfilled?
    ensures s.tokens.Some? ==>
              (AfterProfileFetch(s, profile).tokens.Some? <==> AfterProfileFetch(s, profile).user.Some?)
    ensures profile.Fulfilled? ==>
              && AfterProfileFetch(s, profile).user == Some(profile.value)
              && AfterProfileFetch(s, profile).tokens == s.tokens
              && AfterProfileFetch(s, profile).stored == s.stored
    ensures profile.Rejected? ==> AfterProfileFetch(s, profile) == AfterLogout(s).(loading := false)
  {
  }

  /** A login is only as good as the profile fetch that follows it: the session is
      authenticated with the new pair exactly when that fetch succeeds, anonymous
      otherwise, and the last navigation is `/` in both cases. */
  lemma LoginSpec(s: Session, t: AuthTokens, profile: Settled<User>)
    ensures AfterLogin(s, t, profile).user.Some? <==> profile.Fulfilled?
    ensures AfterLogin(s, t, profile).tokens == (if profile.Fulfilled? then Some(t) else None)
    ensures AfterLogin(s, t, profile).stored == AfterLogin(s, t, profile).tokens
    ensures !AfterLogin(s, t, profile).loading
    ensures AfterLogin(s, t, profile).navigation
         == s.navigation + (if profile.Fulfilled? then ["/"] else ["/login", "/"])
  {
  }

  /** Bootstrap authenticates exactly when a pair is stored and the profile fetch
      succeeds; with nothing stored it only ends loading. */
  lemma BootstrapSpec(s: Session, profile: Settled<User>)
    requires Consistent(s)
    ensures !AfterBootstrap(s, profile).loading
    ensures AfterBootstrap(s, profile).user.Some? <==> s.stored.Some? && profile.Fulfilled?
    ensures s.stored.None? ==> AfterBootstrap(s, profile) == s.(loading := false)
    ensures s.stored.Some? && profile.Fulfilled? ==>
              AfterBootstrap(s, profile).tokens == s.stored == AfterBootstrap(s, profile).stored
    ensures s.stored.Some? && profile.Rejected? ==>
              AfterBootstrap(s, profile).tokens.None? && AfterBootstrap(s, profile).stored.None?
  {
  }

  /** The profile request: a GET of the profile endpoint with no body. */
  function ProfileRequest(): (r: Request)
    ensures r.verb == Get && r.endpoint == ProfileEndpoint && r.body == map[]
  {
    Request(Get, ProfileEndpoint, map[])
  }

  /** `AuthProvider`: its three state cells, the storage it persists the pair in and the
      router it navigates with. */
  class AuthProvider {
    var user: Option<User>
    var tokens: Option<AuthTokens>
    var loading: bool
    const storage: LocalStorage
    const router: Router

    function State(): Session
      reads this, storage, router
    {
      Session(user, tokens, loading, storage.authTokens, router.history)
    }

    constructor (storage: LocalStorage, router: Router)
      ensures this.storage == storage && this.router == router
      ensures State() == Initial(storage.authTokens, router.history)
      ensures Consistent(State())
    {
      user := None;
      tokens := None;
      loading := true;
      this.storage := storage;
      this.router := router;
    }

    method Logout()
      modifies this, storage, router
      ensures State() == AfterLogout(old(State()))
      ensures Consistent(old(State())) ==> Consistent(State())
    {
      user := None;
      tokens := None;
      storage.RemoveAuthTokens();
      router.Push("/login");
    }

    /** The profile request carries the headers the interceptor derives from what is
        stored when it is sent. */
    method FetchUserProfile(profile: Settled<User>) returns (request: RequestConfig)
      modifies this, storage, router
      ensures State() == AfterProfileFetch(old(State()), profile)
      ensures Consistent(old(State()).(loading := false)) && old(tokens).Some? ==> Consistent(State())
      ensures fresh(request) && request.request == ProfileRequest()
      ensures request.headers == WithAuthorization(DefaultHeaders(), old(storage.authTokens))
    {
      request := Send(ProfileRequest(), storage);
      match profile {
        case Fulfilled(u) =>
          user := Some(u);
        case Rejected(_) =>
          Logout();
      }
      loading := false;
    }

    /** `login`: the profile request already carries the new access token, because the
        pair is stored before it is sent. */
    method Login(newTokens: AuthTokens, profile: Settled<User>) returns (profileRequest: RequestConfig)
      modifies this, storage, router
      ensures State() == AfterLogin(old(State()), newTokens, profile)
      ensures Consistent(old(State())) ==> Consistent(State())
      ensures fresh(profileRequest) && profileRequest.request == ProfileRequest()
      ensures profileRequest.headers == WithAuthorization(DefaultHeaders(), Some(newTokens))
    {
      ghost var before := State();
      tokens := Some(newTokens);
      storage.SetAuthTokens(newTokens);
      profileRequest := FetchUserProfile(profile);
      router.Push("/");
      if Consistent(before) {
        LoginKeepsConsistent(before, newTokens, profile);
      }
    }

    /** The mount effect; the profile request is issued only when a pair is stored. */
    method Bootstrap(profile: Settled<User>) returns (profileRequest: Option<RequestConfig>)
      modifies this, storage, router
      ensures State() == AfterBootstrap(old(State()), profile)
      ensures Consistent(old(State())) ==> Consistent(State())
      ensures profileRequest.Some? <==> old(storage.authTokens).Some?
      ensures profileRequest.Some? ==>
                && fresh(profileRequest.value) && profileRequest.value.request == ProfileRequest()
                && profileRequest.value.headers == WithAuthorization(DefaultHeaders(), old(storage.authTokens))
    {
      ghost var before := State();
      var storedTokens := storage.authTokens;
      if storedTokens.Some? {
        tokens := storedTokens;
        var r := FetchUserProfile(profile);
        profileRequest := Some(r);
      } else {
        loading := false;
        profileRequest := None;
      }
      if Consistent(before) {
        BootstrapKeepsConsistent(before, profile);
      }
    }
  }

  /** `useAuth`: the context value, or the error thrown outside a provider. */
  function UseAuth<C>(context: Option<C>): (r: Result<C, string>)
    ensures r.Ok? <==> context.Some?
    ensures r.Ok? ==> r.value == context.value
    ensures r.Err? ==> r.error == "useAuth must be used within an AuthProvider"
  {
    match context
    case Some(c) => Ok(c)
    case None => Err("useAuth must be used within an AuthProvider")
  }
}
