/** The sign-in form of frontend/src/app/login/page.tsx: its `error` and `isLoading`
    state and `handleSubmit`, which posts the credentials and hands the returned token
    pair to the provider's `login`. */
module LoginPage {
  import opened Types
  import opened ApiClient
  import opened AuthContext

  const LoginFailedMessage := "Invalid username or password."

  function LoginRequest(username: string, password: string): (r: Request)
    ensures r.verb == Post && r.endpoint == LoginEndpoint
    ensures r.body.Keys == {"username", "password"}
    ensures r.body["username"] == username && r.body["password"] == password
  {
    Request(Post, LoginEndpoint, map["username" := username, "password" := password])
  }

  class LoginForm {
    var username: string
    var password: string
    var error: string
    var isLoading: bool
    const auth: AuthProvider

    constructor (auth: AuthProvider)
      ensures this.auth == auth
      ensures username == "" && password == "" && error == "" && !isLoading
    {
      username, password := "", "";
      error := "";
      isLoading := false;
      this.auth := auth;
    }

    /** The synchronous part of `handleSubmit`: the error is cleared and `isLoading` set
        before the request is issued. */
    method Submit() returns (request: Request)
      modifies this
      ensures request == LoginRequest(username, password)
      ensures error == "" && isLoading
      ensures username == old(username) && password == old(password)
    {
      error := "";
      isLoading := true;
      request := LoginRequest(username, password);
    }

    /** The rest of `handleSubmit`. A fulfilled request passes exactly its `tokens` to
        `login`, which never rejects (a failed profile fetch is absorbed by it), so the
        error stays clear; any rejection sets the one failure message and leaves the
        session alone. `isLoading` is cleared in both cases. */
    method Settle(response: Settled<LoginResponse>, profile: Settled<User>)
      returns (profileRequest: Option<RequestConfig>)
      modifies this, auth, auth.storage, auth.router
      ensures username == old(username) && password == old(password) && !isLoading
      ensures response.Fulfilled? ==>
                && auth.State() == AfterLogin(old(auth.State()), response.value.tokens, profile)
                && error == old(error)
                && profileRequest.Some? && fresh(profileRequest.value)
                && profileRequest.value.headers
                   == WithAuthorization(DefaultHeaders(), Some(response.value.tokens))
      ensures response.Rejected? ==>
                && auth.State() == old(auth.State())
                && error == LoginFailedMessage
                && profileRequest.None?
    {
      match response {
        case Fulfilled(data) =>
          var r := auth.Login(data.tokens, profile);
          profileRequest := Some(r);
        case Rejected(_) =>
          error := LoginFailedMessage;
          profileRequest := None;
      }
      isLoading := false;
    }

    /** `handleSubmit` as one step. */
    method HandleSubmit(response: Settled<LoginResponse>, profile: Settled<User>)
      returns (request: Request, profileRequest: Option<RequestConfig>)
      modifies this, auth, auth.storage, auth.router
      ensures request == LoginRequest(old(username), old(password))
      ensures username == old(username) && password == old(password) && !isLoading
      ensures error == (if response.Fulfilled? then "" else LoginFailedMessage)
      ensures response.Fulfilled? ==>
                && auth.State() == AfterLogin(old(auth.State()), response.value.tokens, profile)
                && profileRequest.Some? && fresh(profileRequest.value)
                && profileRequest.value.headers
                   == WithAuthorization(DefaultHeaders(), Some(response.value.tokens))
      ensures response.Rejected? ==> auth.State() == old(auth.State()) && profileRequest.None?
      ensures Consistent(old(auth.State())) ==> Consistent(auth.State())
    {
      ghost var before := auth.State();
      request := Submit();
      profileRequest := Settle(response, profile);
      if Consistent(before) && response.Fulfilled? {
        LoginKeepsConsistent(before, response.value.tokens, profile);
      }
    }
  }
}
