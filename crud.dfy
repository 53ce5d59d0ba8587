/** The `Crud` component: its four pieces of state, one transition per
    handler as a pure function of the old state and the request's outcome,
    and a class whose methods update the four fields the way the handlers'
    setters do. Every network call is replaced by its outcome, which the
    caller supplies. */
module CrudComponent {
  import opened Todos

  /** How a request whose body is read resolved: `Ok` carries the parsed
      body; `NotOk` stands for a non-ok status, a thrown transport error
      and an unreadable body alike, since the handlers treat all three the
      same way. */
  datatype Response<T> = Ok(body: T) | NotOk

  /** How a request whose body is never read resolved. */
  datatype Ack = Acked | Rejected

  /** The body of the create request. */
  datatype NewTodo = NewTodo(title: string, completed: bool)

  /** The component's state: the list, the add-input's text, the task
      being edited (a snapshot taken when editing began) and the staged
      title. */
  datatype State = State(
    todos: seq<Todo>,
    newTodoTitle: string,
    editingTodo: Option<Todo>,
    editedTodoTitle: string)

  /** The state on mount, before the first load resolves. */
  const Initial := State([], "", None, "")

  /** The two edit-session fields are as before. */
  predicate SameSession(a: State, b: State)
  {
    a.editingTodo == b.editingTodo && a.editedTodoTitle == b.editedTodoTitle
  }

  // ---------------------------------------------------------------------
  // One transition per handler

  /** `fetchTodos`: a successful load replaces the list with the fetched
      one, in the fetched order; any failure leaves the list alone. */
  function AfterFetch(s: State, reply: Response<seq<Todo>>): (r: State)
    ensures reply.Ok? ==> r.todos == reply.body
    ensures reply.NotOk? ==> r == s
    ensures r.newTodoTitle == s.newTodoTitle && SameSession(r, s)
  {
    match reply
    case Ok(data) => s.(todos := data)
    case NotOk => s
  }

  /** What `addTodo` posts: the add-input's text, unvalidated, and
      `completed: false`. */
  function AddRequest(s: State): (req: NewTodo)
    ensures req.title == s.newTodoTitle && !req.completed
  {
    NewTodo(s.newTodoTitle, false)
  }

  /** `addTodo`: on success the returned record goes at the end, every
      earlier entry stays where it was and the add-input is cleared; on
      failure nothing changes, so the typed text survives for a retry. */
  function AfterAdd(s: State, reply: Response<Todo>): (r: State)
    ensures reply.Ok? ==>
              && |r.todos| == |s.todos| + 1
              && r.todos[..|s.todos|] == s.todos
              && r.todos[|s.todos|] == reply.body
              && r.newTodoTitle == ""
    ensures reply.NotOk? ==> r == s
    ensures SameSession(r, s)
  {
    match reply
    case Ok(data) => s.(todos := s.todos + [data], newTodoTitle := "")
    case NotOk => s
  }

  /** `deleteTodo(id)`: only a confirmed delete drops the entries with that
      id; the rest keep their relative order. */
  function AfterDelete(s: State, id: int, ack: Ack): (r: State)
    ensures ack.Acked? ==>
              && (forall t :: t in r.todos <==> t in s.todos && t.id != id)
              && IsSubsequence(r.todos, s.todos)
              && |r.todos| == |s.todos| - CountId(s.todos, id)
    ensures ack.Rejected? ==> r == s
    ensures r.newTodoTitle == s.newTodoTitle && SameSession(r, s)
  {
    if ack.Acked? then s.(todos := RemoveById(s.todos, id)) else s
  }

  /** `startEditingTodo(todo)`: opens the session on a snapshot of the task
      and stages its title; the list and the add-input are untouched. */
  function AfterStartEditing(s: State, todo: Todo): (r: State)
    ensures r.editingTodo == Some(todo) && r.editedTodoTitle == todo.title
    ensures r.todos == s.todos && r.newTodoTitle == s.newTodoTitle
  {
    s.(editingTodo := Some(todo), editedTodoTitle := todo.title)
  }

  /** The Cancel button: closes the session and nothing else, so the staged
      title stays behind. */
  function AfterCancelEditing(s: State): (r: State)
    ensures r.editingTodo.None?
    ensures r.todos == s.todos && r.newTodoTitle == s.newTodoTitle
    ensures r.editedTodoTitle == s.editedTodoTitle
  {
    s.(editingTodo := None)
  }

  /** The record `updateTodo` sends and, on success, stores: the session's
      snapshot with the staged title. No session, no request. */
  function UpdateRequest(s: State): (req: Option<Todo>)
    ensures req.None? <==> s.editingTodo.None?
    ensures req.Some? ==>
              && req.value.id == s.editingTodo.value.id
              && req.value.completed == s.editingTodo.value.completed
              && req.value.title == s.editedTodoTitle
  {
    match s.editingTodo
    case None => None
    case Some(e) => Some(e.(title := s.editedTodoTitle))
  }

  /** `updateTodo`: without a session it does nothing; on success every
      entry with the snapshot's id becomes the sent record, the session
      closes and the staged title is cleared; on failure nothing changes,
      so the session stays open for a retry or a cancel. */
  function AfterUpdate(s: State, ack: Ack): (r: State)
    ensures s.editingTodo.None? || ack.Rejected? ==> r == s
    ensures s.editingTodo.Some? && ack.Acked? ==>
              && |r.todos| == |s.todos|
              && Ids(r.todos) == Ids(s.todos)
              && (forall i :: 0 <= i < |s.todos| ==>
                    r.todos[i] == if s.todos[i].id == s.editingTodo.value.id
                                  then UpdateRequest(s).value else s.todos[i])
              && r.editingTodo.None? && r.editedTodoTitle == ""
    ensures r.newTodoTitle == s.newTodoTitle
  {
    match s.editingTodo
    case None => s
    case Some(e) =>
      if ack.Rejected? then s
      else
        var updated := e.(title := s.editedTodoTitle);
        ReplaceKeepsIds(s.todos, updated);
        s.(todos := ReplaceById(s.todos, updated), editingTodo := None, editedTodoTitle := "")
  }

  /** `toggleComplete(id)`: the flip is written before the request is sent
      and is never rolled back, so the outcome does not matter. */
  function AfterToggle(s: State, id: int, ack: Ack): (r: State)
    ensures Ids(r.todos) == Ids(s.todos)
    ensures forall i :: 0 <= i < |s.todos| ==>
              && r.todos[i].title == s.todos[i].title
              && r.todos[i].completed == (s.todos[i].completed != (s.todos[i].id == id))
    ensures r.newTodoTitle == s.newTodoTitle && SameSession(r, s)
  {
    FlipKeepsIds(s.todos, id);
    s.(todos := FlipCompleted(s.todos, id))
  }

  /** The body of the toggle request: the first entry with the id, looked
      up in the already flipped list (`None` stands for `undefined`). */
  function ToggleRequest(s: State, id: int): (req: Option<Todo>)
    ensures req.None? <==> forall t :: t in s.todos ==> t.id != id
    ensures req.Some? ==> req.value.id == id && req.value in FlipCompleted(s.todos, id)
    ensures req.Some? ==>
              exists k :: 0 <= k < |s.todos| &&
                          req.value == s.todos[k].(completed := !s.todos[k].completed) &&
                          forall j :: 0 <= j < k ==> s.todos[j].id != id
  {
    FindById(FlipCompleted(s.todos, id), id)
  }

  /** The add-input's `onChange`. */
  function AfterTypeNewTitle(s: State, value: string): (r: State)
    ensures r.newTodoTitle == value
    ensures r.todos == s.todos && SameSession(r, s)
  {
    s.(newTodoTitle := value)
  }

  /** The edit-input's `onChange`. */
  function AfterTypeEditedTitle(s: State, value: string): (r: State)
    ensures r.editedTodoTitle == value
    ensures r.todos == s.todos && r.newTodoTitle == s.newTodoTitle && r.editingTodo == s.editingTodo
  {
    s.(editedTodoTitle := value)
  }

  // ---------------------------------------------------------------------
  // The component as an object whose setters update its fields

  class Crud {
    var todos: seq<Todo>
    var newTodoTitle: string
    var editingTodo: Option<Todo>
    var editedTodoTitle: string

    /** The four fields as one state value. */
    function Model(): State
      reads this
    {
      State(todos, newTodoTitle, editingTodo, editedTodoTitle)
    }

    /** The four `useState` initial values. */
    constructor ()
      ensures Model() == Initial
    {
      todos := [];
      newTodoTitle := "";
      editingTodo := None;
      editedTodoTitle := "";
    }

    method FetchTodos(reply: Response<seq<Todo>>)
      modifies this
      ensures Model() == AfterFetch(old(Model()), reply)
    {
      if reply.Ok? {
        todos := reply.body;
      }
    }

    /** Returns the body it posts. */
    method AddTodo(reply: Response<Todo>) returns (request: NewTodo)
      modifies this
      ensures request == AddRequest(old(Model()))
      ensures Model() == AfterAdd(old(Model()), reply)
    {
      request := NewTodo(newTodoTitle, false);
      if reply.Ok? {
        todos := todos + [reply.body];
        newTodoTitle := "";
      }
    }

    method DeleteTodo(id: int, ack: Ack)
      modifies this
      ensures Model() == AfterDelete(old(Model()), id, ack)
    {
      if ack.Acked? {
        todos := RemoveById(todos, id);
      }
    }

    method StartEditingTodo(todo: Todo)
      modifies this
      ensures Model() == AfterStartEditing(old(Model()), todo)
    {
      editingTodo := Some(todo);
      editedTodoTitle := todo.title;
    }

    /** Returns the record it sends, `None` when no session is open and so
        no request is made. */
    method UpdateTodo(ack: Ack) returns (request: Option<Todo>)
      modifies this
      ensures request == UpdateRequest(old(Model()))
      ensures Model() == AfterUpdate(old(Model()), ack)
    {
      if editingTodo.None? {
        return None;
      }
      var updated := editingTodo.value.(title := editedTodoTitle);
      request := Some(updated);
      if ack.Acked? {
        todos := ReplaceById(todos, updated);
        editingTodo := None;
        editedTodoTitle := "";
      }
    }

    method CancelEditing()
      modifies this
      ensures Model() == AfterCancelEditing(old(Model()))
    {
      editingTodo := None;
    }

    /** Writes the flipped list first, then builds the request body from
        it; the outcome `ack` of that request changes nothing. */
    method ToggleComplete(id: int, ack: Ack) returns (request: Option<Todo>)
      modifies this
      ensures request == ToggleRequest(old(Model()), id)
      ensures Model() == AfterToggle(old(Model()), id, ack)
    {
      var updatedTodos := FlipCompleted(todos, id);
      todos := updatedTodos;
      request := FindById(updatedTodos, id);
    }

    method SetNewTodoTitle(value: string)
      modifies this
      ensures Model() == AfterTypeNewTitle(old(Model()), value)
    {
      newTodoTitle := value;
    }

    method SetEditedTodoTitle(value: string)
      modifies this
      ensures Model() == AfterTypeEditedTitle(old(Model()), value)
    {
      editedTodoTitle := value;
    }
  }
}
