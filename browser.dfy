/** The browser collaborators the core relies on: the one `localStorage` key it uses
    and the Next.js router. Both are shared, process-wide objects. */
module Browser {
  import opened Types

  /** The `authTokens` entry of `localStorage`. The stored JSON text is modelled by the
      token pair it serialises (`JSON.stringify` and `JSON.parse` are taken to be inverse);
      `None` means the key is absent. */
  class LocalStorage {
    var authTokens: Option<AuthTokens>

    constructor (initial: Option<AuthTokens>)
      ensures authTokens == initial
    {
      authTokens := initial;
    }

    /** Storing the serialised pair under the `authTokens` key. */
    method SetAuthTokens(tokens: AuthTokens)
      modifies this
      ensures authTokens == Some(tokens)
    {
      authTokens := Some(tokens);
    }

    /** Removing the `authTokens` key. */
    method RemoveAuthTokens()
      modifies this
      ensures authTokens == None
    {
      authTokens := None;
    }
  }

  /** `useRouter()`: only the sequence of paths passed to `router.push` is modelled. */
  class Router {
    var history: seq<string>

    constructor ()
      ensures history == []
    {
      history := [];
    }

    /** A client-side navigation to `path`. */
    method Push(path: string)
      modifies this
      ensures history == old(history) + [path]
    {
      history := history + [path];
    }
  }
}
