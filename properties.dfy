/** Properties that relate several handlers of the `Crud` component: the
    confirm-then-reflect rule and the optimistic toggle, the edit-session
    lifecycle, the snapshot the commit writes back, the unique-id invariant,
    and worked scenarios stated as calls on the class's methods. */
module CrudProperties {
  import opened Todos
  import opened CrudComponent

  // ---------------------------------------------------------------------
  // Confirm-then-reflect versus the optimistic toggle

  /** A failed load, add, delete or commit leaves the whole state as it
      was. */
  lemma FailuresChangeNothing(s: State, id: int)
    ensures AfterFetch(s, NotOk) == s
    ensures AfterAdd(s, NotOk) == s
    ensures AfterDelete(s, id, Rejected) == s
    ensures AfterUpdate(s, Rejected) == s
  {
  }

  /** A failed toggle still changes the list whenever some entry has the
      id: the flip is not rolled back. */
  lemma ToggleIsOptimistic(s: State, id: int)
    requires id in Ids(s.todos)
    ensures AfterToggle(s, id, Rejected) != s
  {
    var k :| 0 <= k < |s.todos| && Ids(s.todos)[k] == id;
    assert AfterToggle(s, id, Rejected).todos[k].completed != s.todos[k].completed;
  }

  /** The toggle ends in the same state whatever its request's outcome. */
  lemma ToggleIgnoresOutcome(s: State, id: int)
    ensures AfterToggle(s, id, Acked) == AfterToggle(s, id, Rejected)
  {
  }

  /** Toggling the same id twice restores the state, whatever either
      request's outcome. */
  lemma ToggleTwiceRestores(s: State, id: int, first: Ack, second: Ack)
    ensures AfterToggle(AfterToggle(s, id, first), id, second) == s
  {
    FlipTwice(s.todos, id);
  }

  /** The toggle request carries the flip already written locally: it is
      the first entry with the id, with `completed` inverted, and it is what
      the new local list holds there. */
  lemma ToggleRequestMatchesLocalState(s: State, id: int, ack: Ack)
    ensures ToggleRequest(s, id)
         == match FindById(s.todos, id)
            case None => None
            case Some(t) => Some(t.(completed := !t.completed))
    ensures ToggleRequest(s, id) == FindById(AfterToggle(s, id, ack).todos, id)
  {
    FindAfterFlip(s.todos, id);
  }

  // ---------------------------------------------------------------------
  // Add and delete

  /** When the server echoes the posted body back with an id, the appended
      task has the typed title and is not completed. */
  lemma AddEchoedRecord(s: State, id: int)
    ensures var r := AfterAdd(s, Ok(Todo(id, AddRequest(s).title, AddRequest(s).completed)));
            && r.todos[|s.todos|] == Todo(id, s.newTodoTitle, false)
            && r.todos[..|s.todos|] == s.todos
            && r.newTodoTitle == ""
  {
  }

  /** A confirmed delete of the id a confirmed add returned gives back the
      list from before the add, provided that id was new. */
  lemma AddThenDeleteRestores(s: State, t: Todo)
    requires t.id !in Ids(s.todos)
    ensures AfterDelete(AfterAdd(s, Ok(t)), t.id, Acked).todos == s.todos
  {
    RemoveAppend(s.todos, t, t.id);
    forall x | x in s.todos ensures x.id != t.id {
      var k :| 0 <= k < |s.todos| && s.todos[k] == x;
      assert Ids(s.todos)[k] == x.id;
    }
    RemoveAbsent(s.todos, t.id);
  }

  /** With unique ids, a confirmed delete removes exactly the task at `k`
      and no other. */
  lemma DeleteRemovesExactlyOne(s: State, k: nat)
    requires UniqueIds(s.todos) && k < |s.todos|
    ensures AfterDelete(s, s.todos[k].id, Acked).todos == s.todos[..k] + s.todos[k + 1..]
  {
    RemoveOnlyAt(s.todos, k);
  }

  // ---------------------------------------------------------------------
  // The edit session

  /** Beginning and then cancelling an edit leaves the list and the
      add-input as they were and closes the session; the staged title is
      left behind. */
  lemma BeginThenCancel(s: State, t: Todo)
    ensures var r := AfterCancelEditing(AfterStartEditing(s, t));
            && r.todos == s.todos && r.newTodoTitle == s.newTodoTitle
            && r.editingTodo.None? && r.editedTodoTitle == t.title
  {
  }

  /** The staged title a cancel leaves behind is overwritten by the next
      begin edit, so it never reaches a commit. */
  lemma StaleStagedTitleIsHarmless(s: State, t: Todo)
    ensures AfterStartEditing(AfterCancelEditing(s), t) == AfterStartEditing(s, t)
  {
  }

  /** Begin edit on the task at `k`, stage `title`, commit with success:
      with unique ids only that task changes, it keeps its id and
      `completed` flag and takes the new title, and the session is idle. */
  lemma CommitAfterBegin(s: State, k: nat, title: string)
    requires UniqueIds(s.todos) && k < |s.todos|
    ensures var t := s.todos[k];
            var r := AfterUpdate(AfterTypeEditedTitle(AfterStartEditing(s, t), title), Acked);
            && r.todos == s.todos[k := Todo(t.id, title, t.completed)]
            && r.editingTodo.None? && r.editedTodoTitle == ""
  {
    var t := s.todos[k];
    ReplaceUniqueAt(s.todos, k, t.(title := title));
  }

  /** The commit writes back the snapshot taken when editing began, not the
      current entry: a toggle of the task between begin edit and commit is
      undone by a successful commit, here with the title unchanged. The page
      itself hides that task's Complete button while it is being edited, so
      only a direct call or an overlapping request produces this sequence. */
  lemma CommitOverwritesToggle(s: State, k: nat, ack: Ack)
    requires UniqueIds(s.todos) && k < |s.todos|
    ensures var t := s.todos[k];
            var toggled := AfterToggle(AfterStartEditing(s, t), t.id, ack);
            && toggled.todos[k].completed != t.completed
            && AfterUpdate(toggled, Acked).todos == s.todos
  {
    var t := s.todos[k];
    ReplaceAfterFlip(s.todos, t);
    forall x | x in s.todos && x.id == t.id ensures x == t {
      var j :| 0 <= j < |s.todos| && s.todos[j] == x;
      assert j == k;
    }
    ReplaceIdentity(s.todos, t);
  }

  /** Committing an edit whose task is no longer in the list leaves the list
      alone but still closes the session. */
  lemma CommitOfVanishedTask(s: State)
    requires s.editingTodo.Some? && s.editingTodo.value.id !in Ids(s.todos)
    ensures AfterUpdate(s, Acked).todos == s.todos
    ensures AfterUpdate(s, Acked).editingTodo.None?
  {
    var e := s.editingTodo.value;
    forall x | x in s.todos ensures x.id != e.id {
      var j :| 0 <= j < |s.todos| && s.todos[j] == x;
      assert Ids(s.todos)[j] == x.id;
    }
    ReplaceIdentity(s.todos, e.(title := s.editedTodoTitle));
  }

  // ---------------------------------------------------------------------
  // The unique-id invariant

  /** Every handler except add and load keeps the ids unique, whatever the
      outcome. */
  lemma HandlersKeepUniqueIds(s: State, id: int, ack: Ack, t: Todo, value: string)
    requires UniqueIds(s.todos)
    ensures UniqueIds(AfterDelete(s, id, ack).todos)
    ensures UniqueIds(AfterUpdate(s, ack).todos)
    ensures UniqueIds(AfterToggle(s, id, ack).todos)
    ensures UniqueIds(AfterStartEditing(s, t).todos)
    ensures UniqueIds(AfterCancelEditing(s).todos)
    ensures UniqueIds(AfterTypeNewTitle(s, value).todos)
    ensures UniqueIds(AfterTypeEditedTitle(s, value).todos)
  {
    RemoveKeepsUnique(s.todos, id);
    SameIdsSameUniqueness(AfterUpdate(s, ack).todos, s.todos);
    SameIdsSameUniqueness(AfterToggle(s, id, ack).todos, s.todos);
  }

  /** A successful load stores the server's list as it is, duplicate ids
      included. */
  lemma LoadMayDuplicateIds()
    ensures !UniqueIds(AfterFetch(Initial, Ok([Todo(1, "A", false), Todo(1, "B", false)])).todos)
  {
    var r := AfterFetch(Initial, Ok([Todo(1, "A", false), Todo(1, "B", false)])).todos;
    assert r[0].id == r[1].id;
  }

  /** A successful add keeps the ids unique exactly when the server's id is
      new; nothing in the component checks this. */
  lemma AddKeepsUniqueIdsIff(s: State, t: Todo)
    ensures UniqueIds(AfterAdd(s, Ok(t)).todos) <==> UniqueIds(s.todos) && t.id !in Ids(s.todos)
  {
    AppendUnique(s.todos, t);
  }

  // ---------------------------------------------------------------------
  // Scenarios, stated as calls on the class's methods

  /** `[{1, "A", false}]`, type "B", add with reply `{2, "B", false}`. */
  method CreateScenario() returns (todos: seq<Todo>, input: string, sent: NewTodo)
    ensures todos == [Todo(1, "A", false), Todo(2, "B", false)]
    ensures input == ""
    ensures sent == NewTodo("B", false)
  {
    var c := new Crud();
    c.FetchTodos(Ok([Todo(1, "A", false)]));
    c.SetNewTodoTitle("B");
    sent := c.AddTodo(Ok(Todo(2, "B", false)));
    todos, input := c.todos, c.newTodoTitle;
  }

  /** `[{1, "A", false}]`, delete 1 with a failing reply. */
  method DeleteFailsScenario() returns (todos: seq<Todo>)
    ensures todos == [Todo(1, "A", false)]
  {
    var c := new Crud();
    c.FetchTodos(Ok([Todo(1, "A", false)]));
    c.DeleteTodo(1, Rejected);
    todos := c.todos;
  }

  /** `[{1, "A", false}]`, begin edit of task 1, stage "A2", commit with
      success. */
  method EditScenario() returns (todos: seq<Todo>, session: Option<Todo>, sent: Option<Todo>)
    ensures todos == [Todo(1, "A2", false)]
    ensures session.None?
    ensures sent == Some(Todo(1, "A2", false))
  {
    var c := new Crud();
    c.FetchTodos(Ok([Todo(1, "A", false)]));
    c.StartEditingTodo(Todo(1, "A", false));
    c.SetEditedTodoTitle("A2");
    sent := c.UpdateTodo(Acked);
    todos, session := c.todos, c.editingTodo;
  }

  /** `[{1, "A", false}]`, toggle 1 with a failing reply: the flip stays. */
  method ToggleFailsScenario() returns (todos: seq<Todo>, sent: Option<Todo>)
    ensures todos == [Todo(1, "A", true)]
    ensures sent == Some(Todo(1, "A", true))
  {
    var c := new Crud();
    c.FetchTodos(Ok([Todo(1, "A", false)]));
    sent := c.ToggleComplete(1, Rejected);
    todos := c.todos;
  }
}
