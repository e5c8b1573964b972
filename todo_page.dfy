/** The state of the home page of frontend/src/app/page.tsx (`todos`, `newTodoTitle`,
    `isLoadingTodos`) and its handlers. Each handler runs as one sequential step; the
    outcome of each request it awaits is a parameter, and it returns the requests it
    issued, in order. */
module TodoPage {
  import opened Types
  import opened TodoList
  import JsString
  import opened ApiClient

  /** The list as a successful fetch leaves it. */
  function FetchedList(results: seq<Todo>): seq<Todo> {
    SortByCompletion(results)
  }

  /** A successful fetch shows the server's tasks, incomplete first, each group in the
      server's order, nothing added and nothing lost. */
  lemma FetchedListSpec(results: seq<Todo>)
    ensures FetchedList(results) == Incomplete(results) + Completed(results)
    ensures IncompleteFirst(FetchedList(results))
    ensures multiset(FetchedList(results)) == multiset(results)
  {
    SortIsPartition(results);
    SortIsStable(results);
  }

  /** The list request: a GET of the collection with no body. */
  function FetchRequest(): (r: Request)
    ensures r.verb == Get && r.endpoint == TodosEndpoint && r.body == map[]
  {
    Request(Get, TodosEndpoint, map[])
  }

  /** The create request: a POST to the collection whose body holds only the title. */
  function CreateRequest(title: string): (r: Request)
    ensures r.verb == Post && r.endpoint == TodosEndpoint
    ensures r.body.Keys == {"title"} && r.body["title"] == title
  {
    Request(Post, TodosEndpoint, map["title" := title])
  }

  class HomePage {
    var todos: seq<Todo>
    var newTodoTitle: string
    var isLoadingTodos: bool

    /** The initial state of the three state cells. */
    constructor ()
      ensures todos == [] && newTodoTitle == "" && isLoadingTodos
    {
      todos := [];
      newTodoTitle := "";
      isLoadingTodos := true;
    }

    /** `fetchTodos`: the list is replaced by the sorted results on success and kept on
        failure; the loading flag is cleared either way. */
    method FetchTodos(response: Settled<seq<Todo>>) returns (request: Request)
      modifies this
      ensures request == FetchRequest()
      ensures todos == (if response.Fulfilled? then FetchedList(response.value) else old(todos))
      ensures !isLoadingTodos && newTodoTitle == old(newTodoTitle)
      ensures response.Fulfilled? || IncompleteFirst(old(todos)) ==> IncompleteFirst(todos)
    {
      isLoadingTodos := true;
      request := FetchRequest();
      if response.Fulfilled? {
        FetchedListSpec(response.value);
        todos := SortByCompletion(response.value);
      }
      isLoadingTodos := false;
    }

    /** The effect on `[user]`: the list is fetched only when there is a user. */
    method OnUserChanged(user: Option<User>, response: Settled<seq<Todo>>) returns (requests: seq<Request>)
      modifies this
      ensures requests == (if user.Some? then [FetchRequest()] else [])
      ensures user.None? ==> todos == old(todos) && isLoadingTodos == old(isLoadingTodos)
      ensures user.Some? ==>
                && !isLoadingTodos
                && todos == (if response.Fulfilled? then FetchedList(response.value) else old(todos))
      ensures newTodoTitle == old(newTodoTitle)
    {
      requests := [];
      if user.Some? {
        var r := FetchTodos(response);
        requests := [r];
      }
    }

    /** `handleAddTodo`: a title that trims to the empty string issues no request and
        changes nothing. Otherwise the untrimmed title is posted; on success the server's
        record becomes the head of the list, the old list its tail, and the input is
        cleared; on failure nothing changes. */
    method AddTodo(response: Settled<Todo>) returns (request: Option<Request>)
      modifies this
      ensures request.None? <==> JsString.AllTrimmable(old(newTodoTitle))
      ensures request.Some? ==> request.value == CreateRequest(old(newTodoTitle))
      ensures request.Some? && response.Fulfilled? ==>
                todos == [response.value] + old(todos) && newTodoTitle == ""
      ensures request.None? || response.Rejected? ==>
                todos == old(todos) && newTodoTitle == old(newTodoTitle)
      ensures isLoadingTodos == old(isLoadingTodos)
      // no re-sort: the order survives only when the created task is incomplete or no
      // incomplete task is listed
      ensures request.Some? && response.Fulfilled? ==>
                (IncompleteFirst(todos) <==>
                   IncompleteFirst(old(todos)) && (response.value.isCompleted ==> Incomplete(old(todos)) == []))
    {
      JsString.TrimEmptyIffBlank(newTodoTitle);
      if response.Fulfilled? {
        PrependIncompleteFirst(response.value, todos);
      }
      if JsString.Trim(newTodoTitle) == "" {
        return None;
      }
      request := Some(CreateRequest(newTodoTitle));
      if response.Fulfilled? {
        todos := [response.value] + todos;
        newTodoTitle := "";
      }
    }

    /** `handleToggleTodo`: the optimistic list (flip, then re-sort) is installed before
        the request. On success it stays; on failure the list is refetched, with no local
        revert, so it equals the fetch result when the refetch succeeds and remains the
        optimistic list when the refetch fails too. */
    method ToggleTodo(id: int, response: Settled<()>, refetch: Settled<seq<Todo>>)
      returns (requests: seq<Request>)
      modifies this
      ensures requests == [Request(Post, ToggleEndpoint(id), map[])]
                          + (if response.Rejected? then [FetchRequest()] else [])
      ensures todos == if response.Rejected? && refetch.Fulfilled?
                       then FetchedList(refetch.value)
                       else ToggledAndSorted(old(todos), id)
      ensures isLoadingTodos == (if response.Rejected? then false else old(isLoadingTodos))
      ensures IncompleteFirst(todos)
      ensures newTodoTitle == old(newTodoTitle)
    {
      ToggledAndSortedSpec(todos, id);
      todos := SortByCompletion(Toggled(todos, id));
      requests := [Request(Post, ToggleEndpoint(id), map[])];
      if response.Rejected? {
        var r := FetchTodos(refetch);
        requests := requests + [r];
      }
    }

    /** `handleDeleteTodo`: the task is filtered out before the request. On failure the
        list is refetched (no snapshot is restored). */
    method DeleteTodo(id: int, response: Settled<()>, refetch: Settled<seq<Todo>>)
      returns (requests: seq<Request>)
      modifies this
      ensures requests == [Request(Delete, TodoEndpoint(id), map[])]
                          + (if response.Rejected? then [FetchRequest()] else [])
      ensures todos == if response.Rejected? && refetch.Fulfilled?
                       then FetchedList(refetch.value)
                       else Removed(old(todos), id)
      ensures isLoadingTodos == (if response.Rejected? then false else old(isLoadingTodos))
      ensures IncompleteFirst(old(todos)) ==> IncompleteFirst(todos)
      ensures newTodoTitle == old(newTodoTitle)
    {
      if IncompleteFirst(todos) {
        RemovedKeepsIncompleteFirst(todos, id);
      }
      todos := Removed(todos, id);
      requests := [Request(Delete, TodoEndpoint(id), map[])];
      if response.Rejected? {
        var r := FetchTodos(refetch);
        requests := requests + [r];
      }
    }
  }
}
