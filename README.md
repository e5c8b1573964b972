# Todo front end: session, request interceptor and task-list synchroniser

This project models the logic of a Next.js todo front end that talks to a REST backend.
Almost all of the front end is markup. The logic modelled here is what runs inside its
React handlers:

- **Task list** (`frontend/src/app/page.tsx`). The home page keeps a local `todos` list,
  the `newTodoTitle` input and an `isLoadingTodos` flag. It fetches the list when a user
  is present and sorts it so that incomplete tasks come first. It adds a task only when
  the trimmed title is not empty, and prepends the server's record without re-sorting.
  It toggles optimistically: it flips one task, re-sorts, and refetches when the request
  fails. It deletes optimistically: it filters the task out, and refetches on failure.
- **Session** (`frontend/src/contexts/AuthContext.tsx`). `AuthProvider` holds `user`,
  `tokens` and `loading`, and mirrors the token pair in the `authTokens` key of
  `localStorage`. Its transitions are bootstrap-on-mount, profile fetch, `login` and
  `logout`. A failed profile fetch logs out.
- **Forms** (`frontend/src/app/register/page.tsx`, `frontend/src/app/login/page.tsx`).
  Registration checks locally that the two passwords match, posts the form, and maps
  backend errors to one message in a fixed priority. Login posts the credentials and
  hands the returned pair to `login`; every failure shows one message.
- **Request interceptor** (`frontend/src/services/api.ts`). Before every request it
  reads the stored pair and, when one is present, sets `Authorization: Bearer <access>`.
  This is the header form of section 2.1 of RFC 6750.

Every network call is replaced by its outcome, `Settled<T>` = `Fulfilled(value)` |
`Rejected(error)`, which the handler receives as a parameter. The handlers return the
requests they issued, so "no request is sent" can be stated. `localStorage` is a
`LocalStorage` object holding an `Option<AuthTokens>`. The router is a `Router` object
that records the pushed paths. Each handler runs as one sequential step.

Structure: `Types` (records and wrappers), `Browser` (storage and router),
`JsString` (`String.prototype.trim`), `ApiClient` (endpoints and the interceptor),
`TodoList` (the pure list operations and the sort), `TodoPage` (the home page's handlers),
`AuthContext` (a `Session` value with transition functions, and the `AuthProvider` class
proved to follow them), `RegisterPage`, `LoginPage`, and `Scenarios` (client code that
combines the components).

The sort is `Array.prototype.sort` with a comparator that subtracts the numeric values
of the two completion flags. ECMAScript (ECMA-262 since 2019)
requires this sort to be stable. The model does not assume that. It expresses the
standard's requirement as `TodoList.IsStableSortOf` and proves that any result meeting
it equals the incomplete tasks in their original order followed by the completed ones in
theirs. It also proves that the insertion sort used in the model meets the requirement.

Some behaviour of the code worth stating plainly, because a reader might expect otherwise:

- A failed delete triggers a refetch; it does not restore a snapshot (page.tsx:153-156).
- A failed fetch leaves the list unchanged; it does not clear it (page.tsx:110-111).
- There is no completion filter, search, debounce or edit/update in the code.
- Malformed stored JSON is not handled: `JSON.parse` at AuthContext.tsx:31 is not guarded.

## Model

| member | source | states |
|---|---|---|
| `TodoList.StableSortIsPartition` | frontend/src/app/page.tsx:109 | any result that meets the ES2019 stable-sort requirement for the comparator `Number(a.is_completed) - Number(b.is_completed)` is exactly the incomplete tasks, then the completed ones, each group in input order; it is therefore a permutation of the input |
| `TodoList.SortIsPartition` | frontend/src/app/page.tsx:136 | the sort used in the model (insertion by the comparator) yields the incomplete group followed by the completed group |
| `TodoList.SortIsStable` | frontend/src/app/page.tsx:109 | the sort meets the standard's stable-sort requirement, is a permutation of its input, and leaves every incomplete task before every completed one |
| `TodoList.SortKeepsIncompleteFirst` | frontend/src/app/page.tsx:136 | sorting a list that is already incomplete-first returns it unchanged, so sorting twice is the same as sorting once |
| `TodoList.IncompleteFirstIsPartition` | frontend/src/app/page.tsx:136 | an incomplete-first list equals its incomplete group followed by its completed group |
| `TodoList.ToggledSpec` | frontend/src/app/page.tsx:133-135 | the toggle map keeps the length and every position; each task keeps every field except the flag, and the flag changes exactly on the tasks whose id equals the argument |
| `TodoList.ToggledAndSortedSpec` | frontend/src/app/page.tsx:132-136 | the optimistic toggle list is a permutation of the mapped list, incomplete-first, with each group in the mapped list's order, and has the original length |
| `TodoList.RemovedSpec` | frontend/src/app/page.tsx:150 | the delete filter keeps every task whose id differs from the argument, as often as it occurs; it drops every task with that id; survivors keep their relative order |
| `TodoList.RemovedKeepsIncompleteFirst` | frontend/src/app/page.tsx:150 | deleting from an incomplete-first list leaves it incomplete-first |
| `TodoList.PrependIncompleteFirst` | frontend/src/app/page.tsx:123 | after the prepend, which does not re-sort, the list is incomplete-first exactly when the old list was and either the new task is incomplete or no incomplete task was listed |
| `TodoList.Number` | frontend/src/app/page.tsx:109 | `Number` of a completion flag, 1 for true and 0 for false; its contract is given by `TodoList.CompareByCompletion` |
| `TodoList.CompareByCompletion` | frontend/src/app/page.tsx:109 | the comparator is -1, 0 or 1; negative exactly when an incomplete task meets a completed one, positive exactly in the reverse case, so tasks with the same flag compare equal |
| `TodoList.Insert` | frontend/src/app/page.tsx:136 | one insertion step of the sort standing in for the engine's; its contract is given by `TodoList.InsertCompleted` and `TodoList.InsertIncomplete` |
| `TodoList.InsertCompleted` | frontend/src/app/page.tsx:136 | a completed task inserted into an incomplete group followed by a completed group lands between the two groups |
| `TodoList.InsertIncomplete` | frontend/src/app/page.tsx:136 | an incomplete task is inserted at the front |
| `TodoList.SortByCompletion` | frontend/src/app/page.tsx:136 | the sort of the fetch and toggle handlers; its contract is given by `TodoList.SortIsPartition` and `TodoList.SortIsStable` |
| `TodoList.Flip` | frontend/src/app/page.tsx:134 | one task under the toggle map; its contract is given by `TodoList.ToggledSpec` |
| `TodoList.Toggled` | frontend/src/app/page.tsx:133-135 | the toggle map; its contract is given by `TodoList.ToggledSpec` |
| `TodoList.ToggledAndSorted` | frontend/src/app/page.tsx:132-136 | the optimistic toggle list; its contract is given by `TodoList.ToggledAndSortedSpec` |
| `TodoList.Removed` | frontend/src/app/page.tsx:150 | the delete filter; its contract is given by `TodoList.RemovedSpec` and `TodoList.RemovedKeepsIncompleteFirst` |
| `TodoPage.FetchedList` | frontend/src/app/page.tsx:109 | the list a successful fetch installs; its contract is given by `TodoPage.FetchedListSpec` |
| `TodoPage.FetchRequest` | frontend/src/app/page.tsx:108 | the list request is a GET of `/api/todos/` with no body |
| `TodoPage.CreateRequest` | frontend/src/app/page.tsx:122 | the create request is a POST to `/api/todos/` whose body has exactly the key `title`, holding the argument |
| `TodoPage.FetchedListSpec` | frontend/src/app/page.tsx:109 | a fetched list is the server's incomplete tasks then its completed ones, each in server order, incomplete-first, a permutation of the results |
| `TodoPage.HomePage.constructor` | frontend/src/app/page.tsx:95-97 | the page starts with no tasks, an empty input, and the loading flag set |
| `TodoPage.HomePage.FetchTodos` | frontend/src/app/page.tsx:105-115 | one GET of the list endpoint; on success the list becomes the sorted results, on failure it is unchanged; the loading flag is false after either outcome; incomplete-first holds after a success and is preserved by a failure |
| `TodoPage.HomePage.OnUserChanged` | frontend/src/app/page.tsx:99-103 | the list is fetched exactly when there is a user; with no user nothing is requested and nothing changes |
| `TodoPage.HomePage.AddTodo` | frontend/src/app/page.tsx:117-128 | no request exactly when the title consists only of whitespace and line terminators (so it trims to ""), and then nothing changes; otherwise the untrimmed title is posted; success makes the server record the head and the old list the tail, and clears the input; failure changes nothing; the loading flag is untouched |
| `TodoPage.HomePage.ToggleTodo` | frontend/src/app/page.tsx:130-147 | the toggle request is always sent; the final list is the optimistic flipped-and-sorted list unless the toggle fails and the refetch succeeds, in which case it is exactly the fetch result (no local revert); the list is incomplete-first in every case |
| `TodoPage.HomePage.DeleteTodo` | frontend/src/app/page.tsx:149-158 | the delete request is always sent; the final list is the filtered list unless the delete fails and the refetch succeeds, in which case it is the fetch result; incomplete-first is preserved |
| `JsString.Trim` | frontend/src/app/page.tsx:119 | `String.prototype.trim`; its contract is given by `JsString.TrimShape` and `JsString.TrimEmptyIffBlank` |
| `JsString.TrimEmptyIffBlank` | frontend/src/app/page.tsx:119 | `s.trim()` is the empty (falsy) string exactly when every code point of `s` is ECMAScript white space or a line terminator |
| `JsString.TrimShape` | frontend/src/app/page.tsx:119 | `trim` returns a slice of `s` that drops only a trimmable prefix and a trimmable suffix; the slice does not start or end with a trimmable code point |
| `JsString.TrimStartShape` | frontend/src/app/page.tsx:119 | the leading part of trim removes exactly a trimmable prefix |
| `JsString.TrimEndShape` | frontend/src/app/page.tsx:119 | the trailing part of trim removes exactly a trimmable suffix |
| `ApiClient.DefaultHeaders` | frontend/src/services/api.ts:8-10 | the instance's headers are exactly `Content-Type: application/json`, with no `Authorization` header |
| `ApiClient.WithAuthorization` | frontend/src/services/api.ts:17-24 | the headers the interceptor leaves; its contract is given by `ApiClient.WithAuthorizationSpec` and `ApiClient.RefreshTokenNeverSent` |
| `ApiClient.Url` | frontend/src/app/page.tsx:108-152 | the path of each endpoint as the handlers write it (also AuthContext.tsx:41, register/page.tsx:27, login/page.tsx:22); its contract is given by `ApiClient.UrlInjective` |
| `ApiClient.UrlInjective` | frontend/src/app/page.tsx:108-152 | distinct endpoints have distinct paths, so a request identified by its endpoint is identified by its path |
| `ApiClient.UrlShape` | frontend/src/app/page.tsx:140-152 | the id sits between `/api/todos/` and the final `/` or `/toggle_complete/`, and the character before the last `/` tells the two shapes apart |
| `ApiClient.DecimalValue` | frontend/src/app/page.tsx:140 | the number a digit string denotes; it is the reference the two renderings below are proved against |
| `ApiClient.NatToDecimal` | frontend/src/app/page.tsx:140 | the rendering of an id in a template literal is one or more decimal digits that denote the id, and more than one exactly for numbers of 10 or more |
| `ApiClient.IntToDecimal` | frontend/src/app/page.tsx:140 | a rendered id starts with a minus sign exactly for negative numbers, and the digits after it denote the id's magnitude |
| `ApiClient.NatToDecimalInjective` | frontend/src/app/page.tsx:140 | distinct natural numbers render to distinct digit strings |
| `ApiClient.IntToDecimalInjective` | frontend/src/app/page.tsx:152 | distinct ids render to distinct strings |
| `ApiClient.WithAuthorizationSpec` | frontend/src/services/api.ts:17-24 | with a stored pair, the Authorization header is set to `"Bearer " + access`; with none, the headers are returned as they were; every other header is untouched |
| `ApiClient.RefreshTokenNeverSent` | frontend/src/services/api.ts:22 | the headers depend only on the access token; two pairs with the same access token produce the same headers |
| `ApiClient.BearerCredentials` | frontend/src/services/api.ts:22 | the credential is the literal prefix `Bearer ` followed by the access token |
| `ApiClient.InterceptRequest` | frontend/src/services/api.ts:15-25 | the interceptor reads storage at request time, updates the config's headers in place as stated above, and returns the same config |
| `ApiClient.InterceptRequestError` | frontend/src/services/api.ts:26-28 | a request-side error is passed on as a rejection carrying the same error |
| `ApiClient.Send` | frontend/src/services/api.ts:6-29 | a request gets a fresh config with the instance's JSON content-type header, passed through the interceptor |
| `ApiClient.RequestConfig.constructor` | frontend/src/services/api.ts:8-10 | a config starts with the instance's default headers |
| `Browser.LocalStorage.SetAuthTokens` | frontend/src/contexts/AuthContext.tsx:54 | storing the pair makes it the value of the `authTokens` key |
| `Browser.LocalStorage.RemoveAuthTokens` | frontend/src/contexts/AuthContext.tsx:62 | removing the key leaves nothing stored |
| `Browser.Router.Push` | frontend/src/contexts/AuthContext.tsx:56 | a navigation appends its path to the history |
| `AuthContext.Consistent` | frontend/src/contexts/AuthContext.tsx:22-64 | the session invariant: a user implies a held pair equal to the stored one, nothing is held while loading, and memory and storage agree once loading is over; it is kept by every transition (`*KeepsConsistent` below) |
| `AuthContext.AfterLogout` | frontend/src/contexts/AuthContext.tsx:59-64 | the logout transition; its contract is given by `AuthContext.LogoutIsIdempotent` and `AuthContext.LogoutKeepsConsistent` |
| `AuthContext.AfterProfileFetch` | frontend/src/contexts/AuthContext.tsx:39-49 | the profile-fetch transition; its contract is given by `AuthContext.ProfileFetchSpec` and `AuthContext.ProfileFetchKeepsConsistent` |
| `AuthContext.AfterLogin` | frontend/src/contexts/AuthContext.tsx:51-57 | the login transition; its contract is given by `AuthContext.LoginSpec` and `AuthContext.LoginKeepsConsistent` |
| `AuthContext.AfterBootstrap` | frontend/src/contexts/AuthContext.tsx:27-37 | the bootstrap transition; its contract is given by `AuthContext.BootstrapSpec` and `AuthContext.BootstrapKeepsConsistent` |
| `AuthContext.Initial` | frontend/src/contexts/AuthContext.tsx:22-24 | the provider's state on mount, before the bootstrap effect: no user, no tokens, loading; its contract is given by `AuthContext.InitialIsConsistent` |
| `AuthContext.ProfileRequest` | frontend/src/contexts/AuthContext.tsx:41 | the profile request is a GET of `/api/auth/profile/` with no body |
| `AuthContext.InitialIsConsistent` | frontend/src/contexts/AuthContext.tsx:22-24 | the initial state is no user, no tokens, loading, and it satisfies the session invariant |
| `AuthContext.LogoutKeepsConsistent` | frontend/src/contexts/AuthContext.tsx:59-64 | logout keeps the invariant: a user implies a token pair equal to the stored one; while loading nothing is held; otherwise memory and storage agree |
| `AuthContext.ProfileFetchKeepsConsistent` | frontend/src/contexts/AuthContext.tsx:39-49 | a profile fetch started with a held pair that matches storage keeps the invariant |
| `AuthContext.LoginKeepsConsistent` | frontend/src/contexts/AuthContext.tsx:51-57 | login keeps the invariant |
| `AuthContext.BootstrapKeepsConsistent` | frontend/src/contexts/AuthContext.tsx:27-37 | bootstrap keeps the invariant |
| `AuthContext.LogoutIsIdempotent` | frontend/src/contexts/AuthContext.tsx:59-64 | from any state logout leaves no user, no tokens and no stored key; a second logout changes only the navigation history, pushing `/login` again |
| `AuthContext.ProfileFetchSpec` | frontend/src/contexts/AuthContext.tsx:39-49 | loading is false after the fetch; there is a user exactly when it succeeded; with a pair held, tokens are present exactly when the user is; success leaves tokens and storage untouched; failure is logout followed by the end of loading |
| `AuthContext.LoginSpec` | frontend/src/contexts/AuthContext.tsx:51-57 | after login there is a user exactly when the profile fetch succeeded; tokens and storage hold the new pair then, and nothing otherwise; the navigation ends with `/` in both cases (`/login`, `/` after a failure) |
| `AuthContext.BootstrapSpec` | frontend/src/contexts/AuthContext.tsx:27-37 | bootstrap ends loading; it authenticates exactly when a pair is stored and the fetch succeeds; with nothing stored it only clears loading; success keeps the stored pair; failure removes it |
| `AuthContext.AuthProvider.constructor` | frontend/src/contexts/AuthContext.tsx:21-25 | the provider starts in the initial session state over the given storage and router |
| `AuthContext.AuthProvider.Logout` | frontend/src/contexts/AuthContext.tsx:59-64 | the fields, storage and router follow `AfterLogout`: user and tokens cleared, key removed, `/login` pushed |
| `AuthContext.AuthProvider.FetchUserProfile` | frontend/src/contexts/AuthContext.tsx:39-49 | the state follows `AfterProfileFetch`; the profile request carries the headers derived from the pair stored when it is sent |
| `AuthContext.AuthProvider.Login` | frontend/src/contexts/AuthContext.tsx:51-57 | the state follows `AfterLogin`; the profile request already carries `Bearer <new access>` because the pair is stored before the fetch |
| `AuthContext.AuthProvider.Bootstrap` | frontend/src/contexts/AuthContext.tsx:27-37 | the state follows `AfterBootstrap`; a profile request is issued exactly when a pair is stored, and it carries that pair's access token |
| `AuthContext.UseAuth` | frontend/src/contexts/AuthContext.tsx:72-78 | the hook returns the context exactly when one is provided, and otherwise fails with the provider error message |
| `RegisterPage.FirstMessage` | frontend/src/app/register/page.tsx:37-39 | the first message of an error field as a template literal renders it, `undefined` for an empty array; used by `RegisterPage.Classify` |
| `RegisterPage.Classify` | frontend/src/app/register/page.tsx:34-45 | which failure the error data describes; its contract is given by `RegisterPage.ClassificationPriority` |
| `RegisterPage.FailureMessage` | frontend/src/app/register/page.tsx:36-45 | the message shown for each failure; its contract is given by `RegisterPage.MessagesDistinguishFailures` |
| `RegisterPage.RegistrationError` | frontend/src/app/register/page.tsx:34-45 | the message the catch block sets, the classified failure's message; its contract is given by `RegisterPage.ClassificationPriority` and `RegisterPage.MessagesDistinguishFailures` |
| `RegisterPage.ClassificationPriority` | frontend/src/app/register/page.tsx:34-45 | a username error is reported whatever the password field holds; a password error is reported only without a username error; data with neither is the generic failure; no data is unexpected |
| `RegisterPage.MessagesDistinguishFailures` | frontend/src/app/register/page.tsx:36-45 | distinct failures give distinct messages, and none equals the local `Passwords do not match.` message |
| `RegisterPage.RegistrationRequest` | frontend/src/app/register/page.tsx:27-31 | the body has exactly the keys `username`, `password` and `password_confirm`, holding the three inputs |
| `RegisterPage.RegisterForm.constructor` | frontend/src/app/register/page.tsx:11-15 | the form starts with empty inputs, no error and not loading |
| `RegisterPage.RegisterForm.Submit` | frontend/src/app/register/page.tsx:20-25 | on a mismatch the message is `Passwords do not match.`, no request is issued and `isLoading` is unchanged; otherwise the error is cleared and `isLoading` is true when the request is issued |
| `RegisterPage.RegisterForm.Settle` | frontend/src/app/register/page.tsx:32-49 | success only pushes `/login`, with no login; failure only sets the classified message; `isLoading` is false after both |
| `RegisterPage.RegisterForm.HandleSubmit` | frontend/src/app/register/page.tsx:18-50 | the whole handler: a request is sent exactly when the passwords match; then navigation, error and loading end as stated above |
| `LoginPage.LoginRequest` | frontend/src/app/login/page.tsx:22-25 | the body has exactly the keys `username` and `password` |
| `LoginPage.LoginForm.constructor` | frontend/src/app/login/page.tsx:11-14 | the form starts with empty inputs, no error and not loading |
| `LoginPage.LoginForm.Submit` | frontend/src/app/login/page.tsx:19-25 | the error is cleared and `isLoading` is true when the request is issued |
| `LoginPage.LoginForm.Settle` | frontend/src/app/login/page.tsx:26-33 | on success exactly `response.data.tokens` goes to `login`, and the error stays clear even if the profile fetch fails; any rejection sets `Invalid username or password.`; `isLoading` is false after both |
| `LoginPage.LoginForm.HandleSubmit` | frontend/src/app/login/page.tsx:17-34 | the whole handler ends with `isLoading` false, the error empty or the failure message according to the login request alone, and the session invariant preserved |
| `Scenarios.RequestAfterLogout` | frontend/src/services/api.ts:17 | storage is read at request time, so a request sent after logout carries no Authorization header |
| `Scenarios.RegisterInFreshBrowser` | frontend/src/app/register/page.tsx:32 | registering in a fresh browser navigates to `/login` and leaves the session anonymous |
| `Scenarios.SignIn` | frontend/src/app/login/page.tsx:22-27 | a successful sign-in stores the pair, authenticates the user, navigates to `/`, and sends the profile request with `Bearer <access>` |
| `Scenarios.FirstTask` | frontend/src/app/page.tsx:99-128 | for a signed-in user with no tasks, adding "Buy milk" issues a fetch and then a create, and leaves the server's record as the whole list |

## Left out

- Rendering: all JSX, styling and animation, `SkeletonLoader` and `TodoItem`, the loading spinner, and the form markup. These are presentation only.
- `frontend/src/app/layout.tsx` (provider wiring and toast setup) and `frontend/src/components/TodoModal.tsx` (a form the page does not use) are not part of this model.
- axios itself and the network. Each request becomes an outcome parameter. The base URL comes from `process.env.NEXT_PUBLIC_API_URL`, so `ApiClient.Url` gives only the path.
- Async interleaving and React batching. Each handler is one atomic step. So the stale `todos` closure in add and delete (page.tsx:123, 150) and the functional update in toggle (page.tsx:132) read the same list here. Responses arriving out of order are not modelled.
- `JSON.parse` of malformed stored data (AuthContext.tsx:31, api.ts:19). The code does not handle it. Storage holds the parsed pair, and `JSON.stringify`/`JSON.parse` are taken to be inverses.
- Response shapes outside the typed records: for example a login response without `tokens`, a list response without `results`, or error fields that are strings rather than arrays. Error fields are arrays of strings. `errorData.username[0]` on an empty array renders `undefined`, and the model renders it the same way.
- ApiClient.NatToDecimal, ApiClient.IntToDecimal: task ids are modelled as unbounded integers rendered in plain decimal. The source's ids are JavaScript numbers. So the exponent form a template literal uses for magnitudes of 10^21 or more (`1e+21`), and the rounding of integers above 2^53, are not modelled.
- Headers of the todo, registration and login requests: those handlers return the bare `Request` (verb, endpoint, body) and do not pass it through `ApiClient.Send`, so their `Authorization` header is not modelled. The interceptor's behaviour is proved once for every request (`ApiClient.Send`, `ApiClient.WithAuthorizationSpec`) and applied to the profile request and to `Scenarios.RequestAfterLogout`.
- `console.error` logging and `e.preventDefault()`. The input `onChange` setters are plain field assignments.
- `String.prototype.trim` reads its UTF-16 string as a sequence of code points, where a surrogate pair is one code point and a lone surrogate stands for itself. The model's strings are sequences of Unicode scalar values, so a lone surrogate cannot be represented. No surrogate is trimmable, so the guard's outcome does not depend on this.
- The engine's sort algorithm is not visible. An insertion sort stands in for it. `TodoList.StableSortIsPartition` shows that every sort meeting the standard gives the same result.
- Features the code does not have: search, completion filters, debounce, edit/update, and snapshot restore on delete.
