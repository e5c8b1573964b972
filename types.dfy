/** The records exchanged with the backend (frontend/src/types/index.ts) and the
    small wrappers used to model absent values and settled network calls. */
module Types {

  datatype Option<+T> = None | Some(value: T)

  datatype Result<+T, +E> = Ok(value: T) | Err(error: E)

  /** The user profile returned by the profile endpoint. */
  datatype User = User(id: int, username: string, firstName: string, lastName: string)

  /** The access/refresh bearer credential pair issued by the login endpoint. */
  datatype AuthTokens = AuthTokens(access: string, refresh: string)

  /** One task; the timestamps are opaque strings. */
  datatype Todo = Todo(
    id: int,
    title: string,
    description: Option<string>,
    isCompleted: bool,
    createdAt: string,
    updatedAt: string)

  /** The field-level validation errors a backend error response may carry. A field is
      `None` when it is absent (or falsy) in the response body. */
  datatype ErrorData = ErrorData(username: Option<seq<string>>, password: Option<seq<string>>)

  /** What a rejected request carries: `err.response?.data`, which is `None` when there
      was no response at all or its body was empty. */
  datatype ApiError = ApiError(responseData: Option<ErrorData>)

  /** How an awaited request settles: the network is not modelled, so each call site
      receives its outcome as a parameter. */
  datatype Settled<+T> = Fulfilled(value: T) | Rejected(error: ApiError)

  /** The body of a successful login response. */
  datatype LoginResponse = LoginResponse(tokens: AuthTokens)
}
