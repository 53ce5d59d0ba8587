/** The task record and the pure list transformations the component's
    handlers build their new lists with: the spread-append of `addTodo`,
    the `filter` of `deleteTodo`, the `map` replace of `updateTodo`, the
    `map` flip of `toggleComplete`, and the `find` that picks the body of
    the toggle request. */
module Todos {

  datatype Option<T> = None | Some(value: T)

  /** One task as the remote collection stores it. */
  datatype Todo = Todo(id: int, title: string, completed: bool)

  /** The ids of a list, in list order. */
  function Ids(todos: seq<Todo>): seq<int>
  {
    seq(|todos|, i requires 0 <= i < |todos| => todos[i].id)
  }

  /** No two entries share an id. */
  predicate UniqueIds(todos: seq<Todo>)
  {
    forall i, j :: 0 <= i < j < |todos| ==> todos[i].id != todos[j].id
  }

  /** How many entries carry the given id. */
  function CountId(todos: seq<Todo>, id: int): nat
  {
    if todos == [] then 0
    else (if todos[0].id == id then 1 else 0) + CountId(todos[1..], id)
  }

  /** `a` is obtained from `b` by dropping some entries and keeping the
      others in their original relative order. */
  ghost predicate IsSubsequence(a: seq<Todo>, b: seq<Todo>)
    decreases |b|
  {
    if a == [] then true
    else if b == [] then false
    else if a[0] == b[0] then IsSubsequence(a[1..], b[1..])
    else IsSubsequence(a, b[1..])
  }

  /** `todos.filter((todo) => todo.id !== id)`: every entry with the id
      goes, every other entry stays, in order. */
  function RemoveById(todos: seq<Todo>, id: int): (r: seq<Todo>)
    ensures forall t :: t in r <==> t in todos && t.id != id
    ensures |r| == |todos| - CountId(todos, id)
    ensures IsSubsequence(r, todos)
  {
    if todos == [] then []
    else if todos[0].id != id then [todos[0]] + RemoveById(todos[1..], id)
    else
      var rest := RemoveById(todos[1..], id);
      assert rest != [] ==> rest[0] in rest && rest[0] != todos[0];
      rest
  }

  /** `todos.map((todo) => (todo.id === u.id ? u : todo))`. */
  function ReplaceById(todos: seq<Todo>, u: Todo): (r: seq<Todo>)
    ensures |r| == |todos|
    ensures forall i :: 0 <= i < |todos| ==>
              r[i] == (if todos[i].id == u.id then u else todos[i])
  {
    if todos == [] then []
    else [if todos[0].id == u.id then u else todos[0]] + ReplaceById(todos[1..], u)
  }

  /** `todos.map(todo => todo.id === id ? { ...todo, completed: !todo.completed } : todo)`. */
  function FlipCompleted(todos: seq<Todo>, id: int): (r: seq<Todo>)
    ensures |r| == |todos|
    ensures forall i :: 0 <= i < |todos| ==>
              r[i].id == todos[i].id && r[i].title == todos[i].title
    ensures forall i :: 0 <= i < |todos| ==>
              r[i].completed == (if todos[i].id == id then !todos[i].completed else todos[i].completed)
  {
    if todos == [] then []
    else
      var head := if todos[0].id == id then todos[0].(completed := !todos[0].completed) else todos[0];
      [head] + FlipCompleted(todos[1..], id)
  }

  /** The position of the first entry with the id, or `|todos|` when
      there is none. */
  function FirstIndexOf(todos: seq<Todo>, id: int): (k: nat)
    ensures k <= |todos|
    ensures forall j :: 0 <= j < k ==> todos[j].id != id
    ensures k < |todos| ==> todos[k].id == id
  {
    if todos == [] then 0
    else if todos[0].id == id then 0
    else 1 + FirstIndexOf(todos[1..], id)
  }

  /** `todos.find(todo => todo.id === id)`; `None` stands for `undefined`. */
  function FindById(todos: seq<Todo>, id: int): (r: Option<Todo>)
    ensures r.None? <==> forall t :: t in todos ==> t.id != id
    ensures r.Some? ==> r.value in todos && r.value.id == id
    ensures r.Some? ==> exists k :: 0 <= k < |todos| && todos[k] == r.value &&
                                    forall j :: 0 <= j < k ==> todos[j].id != id
  {
    var k := FirstIndexOf(todos, id);
    if k < |todos| then Some(todos[k]) else None
  }

  // ---------------------------------------------------------------------
  // Lemmas about the transformations

  /** An id that no entry carries is not counted. */
  lemma {:induction false} CountIdZero(todos: seq<Todo>, id: int)
    ensures CountId(todos, id) == 0 <==> forall t :: t in todos ==> t.id != id
  {
    if todos != [] {
      CountIdZero(todos[1..], id);
      assert forall t :: t in todos <==> t == todos[0] || t in todos[1..];
    }
  }

  /** Filtering out an id nobody carries leaves the list as it was. */
  lemma {:induction false} RemoveAbsent(todos: seq<Todo>, id: int)
    requires forall t :: t in todos ==> t.id != id
    ensures RemoveById(todos, id) == todos
  {
    if todos != [] {
      assert todos[0] in todos;
      assert forall t :: t in todos[1..] ==> t in todos;
      RemoveAbsent(todos[1..], id);
      assert todos == [todos[0]] + todos[1..];
    }
  }

  /** Filtering distributes over an appended entry. */
  lemma {:induction false} RemoveAppend(todos: seq<Todo>, t: Todo, id: int)
    ensures RemoveById(todos + [t], id)
         == RemoveById(todos, id) + (if t.id != id then [t] else [])
  {
    if todos == [] {
      assert [] + [t] == [t];
    } else {
      assert (todos + [t])[0] == todos[0];
      assert (todos + [t])[1..] == todos[1..] + [t];
      RemoveAppend(todos[1..], t, id);
    }
  }

  /** The tail of a list with unique ids has unique ids, none of them the
      head's. */
  lemma UniqueTail(todos: seq<Todo>)
    requires UniqueIds(todos) && todos != []
    ensures UniqueIds(todos[1..])
    ensures forall t :: t in todos[1..] ==> t.id != todos[0].id
  {
    forall i, j | 0 <= i < j < |todos[1..]| ensures todos[1..][i].id != todos[1..][j].id {
      assert todos[1..][i] == todos[i + 1] && todos[1..][j] == todos[j + 1];
    }
    forall t | t in todos[1..] ensures t.id != todos[0].id {
      var j :| 0 <= j < |todos[1..]| && todos[1..][j] == t;
      assert todos[j + 1] == t;
    }
  }

  /** When entry `k` is the only one with its id, deleting that id removes
      that entry and no other. */
  lemma {:induction false} RemoveOnlyAt(todos: seq<Todo>, k: nat)
    requires k < |todos|
    requires forall j :: 0 <= j < |todos| && j != k ==> todos[j].id != todos[k].id
    ensures RemoveById(todos, todos[k].id) == todos[..k] + todos[k + 1..]
  {
    var id := todos[k].id;
    var tail := todos[1..];
    if k == 0 {
      forall t | t in tail ensures t.id != id {
        var j :| 0 <= j < |tail| && tail[j] == t;
        assert todos[j + 1] == t;
      }
      RemoveAbsent(tail, id);
    } else {
      assert tail[k - 1] == todos[k];
      forall j | 0 <= j < |tail| && j != k - 1 ensures tail[j].id != id {
        assert tail[j] == todos[j + 1];
      }
      RemoveOnlyAt(tail, k - 1);
      calc {
        RemoveById(todos, id);
        { assert todos[0].id != id; }
        [todos[0]] + RemoveById(tail, id);
        [todos[0]] + (tail[..k - 1] + tail[k..]);
        { SplitAround(todos, k); }
        todos[..k] + todos[k + 1..];
      }
    }
  }

  /** Sequence bookkeeping for `RemoveOnlyAt`. */
  lemma SplitAround(todos: seq<Todo>, k: nat)
    requires 0 < k < |todos|
    ensures [todos[0]] + (todos[1..][..k - 1] + todos[1..][k..]) == todos[..k] + todos[k + 1..]
  {
    assert todos[1..][..k - 1] == todos[1..k];
    assert todos[1..][k..] == todos[k + 1..];
    assert [todos[0]] + todos[1..k] == todos[..k];
  }

  /** With unique ids an id is carried at most once. */
  lemma {:induction false} UniqueCountAtMostOne(todos: seq<Todo>, id: int)
    requires UniqueIds(todos)
    ensures CountId(todos, id) <= 1
  {
    if todos != [] {
      UniqueTail(todos);
      UniqueCountAtMostOne(todos[1..], id);
      if todos[0].id == id {
        CountIdZero(todos[1..], id);
      }
    }
  }

  /** Filtering keeps ids unique. */
  lemma {:induction false} RemoveKeepsUnique(todos: seq<Todo>, id: int)
    requires UniqueIds(todos)
    ensures UniqueIds(RemoveById(todos, id))
  {
    if todos != [] {
      var tail := todos[1..];
      UniqueTail(todos);
      RemoveKeepsUnique(tail, id);
      var rest := RemoveById(tail, id);
      if todos[0].id != id {
        assert RemoveById(todos, id) == [todos[0]] + rest;
        ConsUnique(todos[0], rest);
      }
    }
  }

  /** Putting an entry in front of a list with unique ids keeps them unique
      when the entry's id is new. */
  lemma ConsUnique(t: Todo, rest: seq<Todo>)
    requires UniqueIds(rest)
    requires forall x :: x in rest ==> x.id != t.id
    ensures UniqueIds([t] + rest)
  {
    var r := [t] + rest;
    forall i, j | 0 <= i < j < |r| ensures r[i].id != r[j].id {
      assert r[j] == rest[j - 1];
      if i == 0 {
        assert rest[j - 1] in rest;
      } else {
        assert r[i] == rest[i - 1];
      }
    }
  }

  /** Replacing and flipping keep the sequence of ids. */
  lemma ReplaceKeepsIds(todos: seq<Todo>, u: Todo)
    ensures Ids(ReplaceById(todos, u)) == Ids(todos)
  {
  }

  lemma FlipKeepsIds(todos: seq<Todo>, id: int)
    ensures Ids(FlipCompleted(todos, id)) == Ids(todos)
  {
  }

  /** Lists with the same ids agree on uniqueness. */
  lemma SameIdsSameUniqueness(a: seq<Todo>, b: seq<Todo>)
    requires Ids(a) == Ids(b)
    ensures UniqueIds(a) <==> UniqueIds(b)
  {
    assert |a| == |Ids(a)| == |Ids(b)| == |b|;
    forall i | 0 <= i < |a| ensures a[i].id == b[i].id {
      assert Ids(a)[i] == a[i].id && Ids(b)[i] == b[i].id;
    }
  }

  /** Appending keeps ids unique exactly when the new entry's id is fresh. */
  lemma AppendUnique(todos: seq<Todo>, t: Todo)
    ensures UniqueIds(todos + [t]) <==> UniqueIds(todos) && t.id !in Ids(todos)
  {
    var r := todos + [t];
    if UniqueIds(r) {
      assert UniqueIds(todos) by {
        forall i, j | 0 <= i < j < |todos| ensures todos[i].id != todos[j].id {
          assert r[i] == todos[i] && r[j] == todos[j];
        }
      }
      forall i | 0 <= i < |todos| ensures Ids(todos)[i] != t.id {
        assert r[i] == todos[i] && r[|todos|] == t;
      }
    }
    if UniqueIds(todos) && t.id !in Ids(todos) {
      forall i, j | 0 <= i < j < |r| ensures r[i].id != r[j].id {
        if j == |todos| {
          assert Ids(todos)[i] == todos[i].id;
        }
      }
    }
  }

  /** Toggling twice restores the list. */
  lemma {:induction false} FlipTwice(todos: seq<Todo>, id: int)
    ensures FlipCompleted(FlipCompleted(todos, id), id) == todos
  {
    if todos != [] {
      var once := FlipCompleted(todos, id);
      assert once[1..] == FlipCompleted(todos[1..], id);
      FlipTwice(todos[1..], id);
    }
  }

  /** Replacing an id overwrites whatever a flip of that id did before. */
  lemma ReplaceAfterFlip(todos: seq<Todo>, u: Todo)
    ensures ReplaceById(FlipCompleted(todos, u.id), u) == ReplaceById(todos, u)
  {
  }

  /** Replacing with a record every same-id entry already equals changes
      nothing. */
  lemma ReplaceIdentity(todos: seq<Todo>, u: Todo)
    requires forall t :: t in todos && t.id == u.id ==> t == u
    ensures ReplaceById(todos, u) == todos
  {
    var r := ReplaceById(todos, u);
    forall i | 0 <= i < |todos| ensures r[i] == todos[i] {
      assert todos[i] in todos;
    }
  }

  /** With unique ids, replacing the id of entry `k` is an update at `k`. */
  lemma ReplaceUniqueAt(todos: seq<Todo>, k: nat, u: Todo)
    requires UniqueIds(todos) && k < |todos| && todos[k].id == u.id
    ensures ReplaceById(todos, u) == todos[k := u]
  {
    var r := ReplaceById(todos, u);
    forall i | 0 <= i < |todos| ensures r[i] == todos[k := u][i] {
      if i != k {
        assert todos[i].id != todos[k].id;
      }
    }
  }

  /** The body of the toggle request, looked up in the flipped list, is the
      first entry with the id as it was before, with `completed` flipped. */
  lemma {:induction false} FindAfterFlip(todos: seq<Todo>, id: int)
    ensures FindById(FlipCompleted(todos, id), id)
         == match FindById(todos, id)
            case None => None
            case Some(t) => Some(t.(completed := !t.completed))
  {
    FirstIndexAfterFlip(todos, id);
  }

  lemma {:induction false} FirstIndexAfterFlip(todos: seq<Todo>, id: int)
    ensures FirstIndexOf(FlipCompleted(todos, id), id) == FirstIndexOf(todos, id)
  {
    if todos != [] {
      var once := FlipCompleted(todos, id);
      assert once[1..] == FlipCompleted(todos[1..], id);
      FirstIndexAfterFlip(todos[1..], id);
    }
  }
}
