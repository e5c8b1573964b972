/** The registration form of frontend/src/app/register/page.tsx: its `error` and
    `isLoading` state and `handleSubmit`, which validates locally, posts the form and
    turns a rejection into one user-facing message. */
module RegisterPage {
  import opened Types
  import opened Browser
  import opened ApiClient

  const PasswordMismatchMessage := "Passwords do not match."

  /** How a rejected registration is reported, in the order the handler tests the
      response body: a username error, else a password error, else a generic failure;
      a rejection without response data is unexpected. */
  datatype RegistrationFailure =
    | UsernameRejected(detail: string)
    | PasswordRejected(detail: string)
    | RegistrationRejected
    | Unexpected

  /** `messages[0]` inside a template literal: an empty array renders "undefined". */
  function FirstMessage(messages: seq<string>): string {
    if |messages| > 0 then messages[0] else "undefined"
  }

  function Classify(data: Option<ErrorData>): RegistrationFailure {
    match data
    case None => Unexpected
    case Some(d) =>
      if d.username.Some? then UsernameRejected(FirstMessage(d.username.value))
      else if d.password.Some? then PasswordRejected(FirstMessage(d.password.value))
      else RegistrationRejected
  }

  function FailureMessage(f: RegistrationFailure): string {
    match f
    case UsernameRejected(detail) => "Username: " + detail
    case PasswordRejected(detail) => "Password: " + detail
    case RegistrationRejected => "Registration failed. Please try again."
    case Unexpected => "An unexpected error occurred."
  }

  /** The message shown for a rejected registration. */
  function RegistrationError(data: Option<ErrorData>): string {
    FailureMessage(Classify(data))
  }

  /** The classification follows the handler's priority: a username error hides any
      password error, a password error is reported only without a username error, and
      response data without either is a generic failure. */
  lemma ClassificationPriority(d: ErrorData)
    ensures d.username.Some? ==> Classify(Some(d)) == UsernameRejected(FirstMessage(d.username.value))
    ensures d.username.Some? ==> forall p :: Classify(Some(d.(password := p))) == Classify(Some(d))
    ensures d.username.None? && d.password.Some? ==>
              Classify(Some(d)) == PasswordRejected(FirstMessage(d.password.value))
    ensures d.username.None? && d.password.None? ==> Classify(Some(d)) == RegistrationRejected
    ensures Classify(None) == Unexpected
  {
  }

  /** Different failures are shown as different messages, and none of them reads like
      the local validation message, so the message tells the user which case occurred. */
  lemma MessagesDistinguishFailures(f: RegistrationFailure, g: RegistrationFailure)
    ensures FailureMessage(f) == FailureMessage(g) ==> f == g
    ensures FailureMessage(f) != PasswordMismatchMessage
  {
    var m, n := FailureMessage(f), FailureMessage(g);
    if m == n {
      assert m[0] == n[0];
      match f
      case UsernameRejected(a) =>
        assert g.UsernameRejected? by { assert n[0] == 'U'; }
        assert a == m[|"Username: "|..] == n[|"Username: "|..] == g.detail;
      case PasswordRejected(a) =>
        assert g.PasswordRejected? by { assert n[0] == 'P'; }
        assert a == m[|"Password: "|..] == n[|"Password: "|..] == g.detail;
      case RegistrationRejected =>
        assert n[0] == 'R';
      case Unexpected =>
        assert n[0] == 'A';
    }
    if f.PasswordRejected? {
      assert m[8] == ':' != PasswordMismatchMessage[8];
    } else if m != [] {
      assert m[0] != PasswordMismatchMessage[0];
    }
  }

  /** The body posted to the registration endpoint. */
  function RegistrationRequest(username: string, password: string, passwordConfirm: string): (r: Request)
    ensures r.verb == Post && r.endpoint == RegisterEndpoint
    ensures r.body.Keys == {"username", "password", "password_confirm"}
    ensures r.body["username"] == username && r.body["password"] == password
    ensures r.body["password_confirm"] == passwordConfirm
  {
    Request(Post, RegisterEndpoint,
      map["username" := username, "password" := password, "password_confirm" := passwordConfirm])
  }

  class RegisterForm {
    var username: string
    var password: string
    var passwordConfirm: string
    var error: string
    var isLoading: bool
    const router: Router

    constructor (router: Router)
      ensures this.router == router
      ensures username == "" && password == "" && passwordConfirm == "" && error == "" && !isLoading
    {
      username, password, passwordConfirm := "", "", "";
      error := "";
      isLoading := false;
      this.router := router;
    }

    /** The synchronous part of `handleSubmit`, up to the awaited request: a mismatch
        sets the validation message and returns before any request, leaving `isLoading`
        as it was; otherwise the error is cleared and `isLoading` set before the request
        is issued. */
    method Submit() returns (request: Option<Request>)
      modifies this
      ensures username == old(username) && password == old(password)
      ensures passwordConfirm == old(passwordConfirm)
      ensures request.None? <==> password != passwordConfirm
      ensures request.None? ==> error == PasswordMismatchMessage && isLoading == old(isLoading)
      ensures request.Some? ==>
                && request.value == RegistrationRequest(username, password, passwordConfirm)
                && error == "" && isLoading
    {
      if password != passwordConfirm {
        error := PasswordMismatchMessage;
        return None;
      }
      error := "";
      isLoading := true;
      request := Some(RegistrationRequest(username, password, passwordConfirm));
    }

    /** The rest of `handleSubmit`, once the request has settled: success only navigates
        to `/login` (nobody is logged in), failure only sets the message; `isLoading` is
        cleared either way. */
    method Settle(response: Settled<()>)
      modifies this, router
      ensures username == old(username) && password == old(password)
      ensures passwordConfirm == old(passwordConfirm) && !isLoading
      ensures response.Fulfilled? ==>
                router.history == old(router.history) + ["/login"] && error == old(error)
      ensures response.Rejected? ==>
                router.history == old(router.history)
                && error == RegistrationError(response.error.responseData)
    {
      match response {
        case Fulfilled(_) =>
          router.Push("/login");
        case Rejected(err) =>
          error := RegistrationError(err.responseData);
      }
      isLoading := false;
    }

    /** `handleSubmit` as one step. */
    method HandleSubmit(response: Settled<()>) returns (request: Option<Request>)
      modifies this, router
      ensures username == old(username) && password == old(password)
      ensures passwordConfirm == old(passwordConfirm)
      ensures request.None? <==> old(password) != old(passwordConfirm)
      ensures request.None? ==>
                && error == PasswordMismatchMessage && isLoading == old(isLoading)
                && router.history == old(router.history)
      ensures request.Some? ==>
                && request.value == RegistrationRequest(username, password, passwordConfirm)
                && !isLoading
                && router.history == old(router.history) + (if response.Fulfilled? then ["/login"] else [])
                && error == (if response.Fulfilled? then "" else RegistrationError(response.error.responseData))
    {
      request := Submit();
      if request.Some? {
        Settle(response);
      }
    }
  }
}
