/** The shared axios instance of frontend/src/services/api.ts: requests go to the
    backend with a JSON content type, and a request interceptor attaches the stored
    access token as a bearer credential (section 2.1 of RFC 6750) to every request. */
module ApiClient {
  import opened Types
  import Browser

  datatype Verb = Get | Post | Delete

  /** The backend endpoints the core calls; `Url` gives the path the source writes. */
  datatype Endpoint = LoginEndpoint | RegisterEndpoint | ProfileEndpoint
                    | TodosEndpoint | TodoEndpoint(id: int) | ToggleEndpoint(id: int)

  predicate IsDigit(c: char) {
    '0' <= c <= '9'
  }

  /** The number a string of decimal digits denotes, most significant digit first. */
  function DecimalValue(s: string): int {
    if s == [] then 0 else 10 * DecimalValue(s[..|s| - 1]) + (s[|s| - 1] as int - '0' as int)
  }

  /** Decimal digits of a natural number, as a template literal renders it: at least one
      digit, more than one exactly when the number is 10 or more, and denoting n. */
  function NatToDecimal(n: nat): (r: string)
    decreases n
    ensures |r| >= 1 && (|r| == 1 <==> n < 10)
    ensures forall i :: 0 <= i < |r| ==> IsDigit(r[i])
    ensures DecimalValue(r) == n
  {
    var d := [('0' as int + n % 10) as char];
    if n < 10 then
      assert d[..0] == [];
      d
    else
      var r := NatToDecimal(n / 10) + d;
      assert r[..|r| - 1] == NatToDecimal(n / 10);
      r
  }

  /** A number renders as an optional minus sign followed by its digits. */
  function IntToDecimal(n: int): (r: string)
    ensures |r| >= 1
    ensures (r[0] == '-') == (n < 0)
    ensures forall i :: 0 < i < |r| ==> IsDigit(r[i])
    ensures n >= 0 ==> IsDigit(r[0]) && DecimalValue(r) == n
    ensures n < 0 ==> DecimalValue(r[1..]) == -n
  {
    if n < 0 then "-" + NatToDecimal(-n) else NatToDecimal(n)
  }

  /** Distinct numbers render differently: the last digit gives `n % 10` and the rest
      renders `n / 10`. */
  lemma {:induction false} NatToDecimalInjective(a: nat, b: nat)
    requires NatToDecimal(a) == NatToDecimal(b)
    ensures a == b
    decreases a
  {
    var da, db := NatToDecimal(a), NatToDecimal(b);
    assert da[|da| - 1] == db[|db| - 1];
    assert (('0' as int + a % 10) as char) == da[|da| - 1];
    assert (('0' as int + b % 10) as char) == db[|db| - 1];
    assert a % 10 == b % 10;
    if a >= 10 {
      assert b >= 10;
      assert NatToDecimal(a / 10) == da[..|da| - 1] == db[..|db| - 1] == NatToDecimal(b / 10);
      NatToDecimalInjective(a / 10, b / 10);
    }
  }

  lemma IntToDecimalInjective(a: int, b: int)
    requires IntToDecimal(a) == IntToDecimal(b)
    ensures a == b
  {
    if a < 0 {
      assert NatToDecimal(-a) == IntToDecimal(a)[1..] == IntToDecimal(b)[1..] == NatToDecimal(-b);
      NatToDecimalInjective(-a, -b);
    } else {
      NatToDecimalInjective(a, b);
    }
  }

  /** The paths the source writes for each endpoint, below the configured base URL. */
  function Url(e: Endpoint): string {
    match e
    case LoginEndpoint => "/api/auth/login/"
    case RegisterEndpoint => "/api/auth/register/"
    case ProfileEndpoint => "/api/auth/profile/"
    case TodosEndpoint => "/api/todos/"
    case TodoEndpoint(id) => "/api/todos/" + IntToDecimal(id) + "/"
    case ToggleEndpoint(id) => "/api/todos/" + IntToDecimal(id) + "/toggle_complete/"
  }

  /** Where the id sits in the two parametric paths, and the character that tells them
      apart: the last digit of the id, or the `e` of `toggle_complete`. */
  lemma UrlShape(e: Endpoint)
    ensures e.TodoEndpoint? ==>
              && |Url(e)| >= 13 && Url(e)[..11] == "/api/todos/"
              && IsDigit(Url(e)[|Url(e)| - 2])
              && Url(e)[11..|Url(e)| - 1] == IntToDecimal(e.id)
    ensures e.ToggleEndpoint? ==>
              && |Url(e)| >= 28 && Url(e)[..11] == "/api/todos/"
              && Url(e)[|Url(e)| - 2] == 'e'
              && Url(e)[11..|Url(e)| - 17] == IntToDecimal(e.id)
  {
    if e.TodoEndpoint? || e.ToggleEndpoint? {
      var d := IntToDecimal(e.id);
      assert d[|d| - 1] == Url(e)[11 + |d| - 1];
    }
  }

  /** Distinct endpoints have distinct paths, so identifying a request by its `Endpoint`
      loses nothing of the path the source builds. */
  lemma UrlInjective(e1: Endpoint, e2: Endpoint)
    requires Url(e1) == Url(e2)
    ensures e1 == e2
  {
    UrlShape(e1);
    UrlShape(e2);
    if e1.TodoEndpoint? && e2.TodoEndpoint? {
      IntToDecimalInjective(e1.id, e2.id);
    } else if e1.ToggleEndpoint? && e2.ToggleEndpoint? {
      IntToDecimalInjective(e1.id, e2.id);
    }
  }

  /** What a caller hands to the client: verb, endpoint and a JSON object of strings. */
  datatype Request = Request(verb: Verb, endpoint: Endpoint, body: map<string, string>)

  const AuthorizationHeader := "Authorization"

  /** The headers every request of the instance starts with: a JSON content type and
      nothing else. */
  function DefaultHeaders(): (h: map<string, string>)
    ensures h.Keys == {"Content-Type"} && h["Content-Type"] == "application/json"
    ensures AuthorizationHeader !in h
  {
    map["Content-Type" := "application/json"]
  }

  /** The credentials of the Authorization header for an access token. */
  function BearerCredentials(access: string): (c: string)
    ensures |c| == |"Bearer "| + |access| && c[..|"Bearer "|] == "Bearer " && c[|"Bearer "|..] == access
  {
    "Bearer " + access
  }

  /** The headers after the interceptor has run with `stored` in `localStorage`. */
  function WithAuthorization(headers: map<string, string>, stored: Option<AuthTokens>): map<string, string> {
    match stored
    case None => headers
    case Some(tokens) => headers[AuthorizationHeader := BearerCredentials(tokens.access)]
  }

  /** The interceptor sets exactly the Authorization header, to "Bearer " followed by the
      stored access token, when a pair is stored, and leaves every other header as it was;
      with nothing stored it returns the headers untouched. */
  lemma WithAuthorizationSpec(headers: map<string, string>, stored: Option<AuthTokens>)
    ensures stored.Some? ==>
              && AuthorizationHeader in WithAuthorization(headers, stored)
              && WithAuthorization(headers, stored)[AuthorizationHeader] == "Bearer " + stored.value.access
    ensures stored.None? ==> WithAuthorization(headers, stored) == headers
    ensures forall h :: h != AuthorizationHeader ==>
              && (h in WithAuthorization(headers, stored) <==> h in headers)
              && (h in headers ==> WithAuthorization(headers, stored)[h] == headers[h])
  {
  }

  /** Only the access token is sent: two stored pairs that share their access token
      produce the same headers whatever their refresh tokens are. */
  lemma RefreshTokenNeverSent(headers: map<string, string>, access: string, refresh1: string, refresh2: string)
    ensures WithAuthorization(headers, Some(AuthTokens(access, refresh1)))
         == WithAuthorization(headers, Some(AuthTokens(access, refresh2)))
  {
  }

  /** The request config axios passes through the interceptor; its headers are updated
      in place. */
  class RequestConfig {
    const request: Request
    var headers: map<string, string>

    constructor (request: Request)
      ensures this.request == request && headers == DefaultHeaders()
    {
      this.request := request;
      headers := DefaultHeaders();
    }
  }

  /** The fulfilled handler of the request interceptor: it reads `localStorage` at the
      time of the request and, when a token pair is stored, sets the Authorization header
      of the config in place, then returns the same config. */
  method InterceptRequest(config: RequestConfig, storage: Browser.LocalStorage) returns (r: RequestConfig)
    modifies config
    ensures r == config
    ensures config.headers == WithAuthorization(old(config.headers), storage.authTokens)
  {
    var tokensString := storage.authTokens;
    if tokensString.Some? {
      var tokens := tokensString.value;
      config.headers := config.headers[AuthorizationHeader := BearerCredentials(tokens.access)];
    }
    r := config;
  }

  /** The rejected handler of the request interceptor: the error is passed on unchanged
      as a rejection. */
  function InterceptRequestError<T>(error: ApiError): (r: Settled<T>)
    ensures r.Rejected? && r.error == error
  {
    Rejected(error)
  }

  /** Issuing a request: a fresh config with the default headers goes through the
      interceptor, so its headers reflect what is stored at request time. */
  method Send(request: Request, storage: Browser.LocalStorage) returns (config: RequestConfig)
    ensures fresh(config) && config.request == request
    ensures config.headers == WithAuthorization(DefaultHeaders(), storage.authTokens)
  {
    config := new RequestConfig(request);
    config := InterceptRequest(config, storage);
  }
}
