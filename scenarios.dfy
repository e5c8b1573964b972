/** Client code that drives the modelled components together, proving properties that
    span several of them from their contracts alone. */
module Scenarios {
  import opened Types
  import opened Browser
  import opened ApiClient
  import opened AuthContext
  import opened TodoPage
  import RegisterPage
  import LoginPage

  /** The token pair is read from storage on every request, so a request issued after
      `logout` carries no Authorization header, whatever the session was before. */
  method RequestAfterLogout(auth: AuthProvider, request: Request) returns (config: RequestConfig)
    modifies auth, auth.storage, auth.router
    ensures AuthorizationHeader !in config.headers && config.request == request
    ensures auth.user.None? && auth.tokens.None?
  {
    auth.Logout();
    config := Send(request, auth.storage);
  }

  /** Registration in a fresh browser posts the form, navigates to `/login` and leaves
      the session anonymous. */
  method RegisterInFreshBrowser() returns (user: Option<User>, request: Option<Request>, navigation: seq<string>)
    ensures user.None? && navigation == ["/login"]
    ensures request == Some(RegisterPage.RegistrationRequest("alice", "pw1", "pw1"))
  {
    var storage := new LocalStorage(None);
    var router := new Router();
    var auth := new AuthProvider(storage, router);
    var noProfile := auth.Bootstrap(Rejected(ApiError(None)));
    var registerForm := new RegisterPage.RegisterForm(router);
    registerForm.username, registerForm.password, registerForm.passwordConfirm := "alice", "pw1", "pw1";
    request := registerForm.HandleSubmit(Fulfilled(()));
    user, navigation := auth.user, router.history;
  }

  /** Signing in from a fresh browser: the login request's pair authenticates the
      profile request, and the session ends authenticated on `/`. */
  method SignIn() returns (user: Option<User>, stored: Option<AuthTokens>, navigation: seq<string>,
                           profileAuthorization: string)
    ensures user == Some(User(1, "alice", "", ""))
    ensures stored == Some(AuthTokens("a1", "r1"))
    ensures navigation == ["/"]
    ensures profileAuthorization == "Bearer a1"
  {
    var storage := new LocalStorage(None);
    var router := new Router();
    var auth := new AuthProvider(storage, router);
    var loginForm := new LoginPage.LoginForm(auth);
    loginForm.username, loginForm.password := "alice", "pw1";
    var _, profileRequest := loginForm.HandleSubmit(Fulfilled(LoginResponse(AuthTokens("a1", "r1"))),
                                                    Fulfilled(User(1, "alice", "", "")));
    WithAuthorizationSpec(DefaultHeaders(), Some(AuthTokens("a1", "r1")));
    profileAuthorization := profileRequest.value.headers[AuthorizationHeader];
    user, stored, navigation := auth.user, storage.authTokens, router.history;
  }

  /** Then the home page fetches an empty list for the new user, and a created task is
      the whole list. */
  method FirstTask(user: User) returns (todos: seq<Todo>, requests: seq<Request>)
    ensures todos == [Todo(7, "Buy milk", Some(""), false, "t0", "t0")]
    ensures requests == [FetchRequest(), CreateRequest("Buy milk")]
  {
    var page := new HomePage();
    var fetches := page.OnUserChanged(Some(user), Fulfilled([]));
    assert page.todos == [] by { FetchedListSpec([]); }
    page.newTodoTitle := "Buy milk";
    JsString.TrimEmptyIffBlank("Buy milk");
    assert !JsString.IsTrimmable("Buy milk"[0]);
    var created := page.AddTodo(Fulfilled(Todo(7, "Buy milk", Some(""), false, "t0", "t0")));
    todos, requests := page.todos, fetches + [created.value];
  }
}
