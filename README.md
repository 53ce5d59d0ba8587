# Crud task list — a Dafny model

The repository is one React component, `Crud`, a task-list editor that
keeps a local list of `{id, title, completed}` records in step with a remote
REST collection. This project models the state machine behind its network
calls: the four pieces of state (`todos`, `newTodoTitle`, `editingTodo`,
`editedTodoTitle`) and the handlers that change them — load, add, delete,
begin edit, commit edit, cancel edit and toggle — plus the two input
`onChange` setters.

Each request is replaced by its outcome, which the caller passes in:
`Response<T>` (`Ok(body)` or `NotOk`) for load and add, whose reply body is
read, and `Ack` (`Acked` or `Rejected`) for delete, update and toggle. A
non-ok status, a thrown transport error and an unreadable body all become the
one failure value, because every handler catches them in the same `catch`.
The handlers that send a body return it, so the request can be stated too.

Files:

- `todos.dfy`, module `Todos`: the `Todo` record and the list
  transformations the handlers build: filter by id (delete), map-replace by
  id (commit), map-flip `completed` by id (toggle) and find by id (the toggle
  request body). It also holds their lemmas.
- `crud.dfy`, module `CrudComponent`: the `State` record, one pure
  transition function per handler (`AfterFetch`, `AfterAdd`, …) and the
  class `Crud`. The class has the four fields, and one method per handler
  updates them the way the setters do. Each method is proved to end in the
  state its transition function gives.
- `properties.dfy`, module `CrudProperties`: lemmas relating several
  handlers, and four scenarios stated as calls on the class's methods.

The contracts follow one rule. Load, add, delete and commit change state
only when their request succeeds; a failure leaves the whole state as it
was. Toggle is the exception. It writes the flipped list before it sends the
request and never rolls it back, so its end state does not depend on the
outcome (`ToggleIgnoresOutcome`, `ToggleIsOptimistic`). A commit writes back
the snapshot taken when editing began with the staged title, not the list's
current entry. So a toggle of that task between begin edit and commit
would be undone by a successful commit (`CommitOverwritesToggle`). The rendered page offers no
such sequence: while a task is being edited, line 154 shows the edit form in
place of its Edit, Complete and Delete buttons (lines 184-201). The sequence
arises only when the handlers are called directly, or through overlapping
requests, which this model leaves out.

Points where the code does less than one might expect:

- A successful add appends the record the server returns, not the posted
  body. `AddEchoedRecord` shows the appended task has the typed title and
  `completed: false` when the server echoes the body.
- Neither titles nor ids are checked. An empty title is posted as it is
  (`AddRequest`). A returned id already in the list is appended as it is:
  `AddKeepsUniqueIdsIff` shows that breaks uniqueness. A load stores
  whatever list the server sends, duplicates included
  (`LoadMayDuplicateIds`). Every handler except
  add and load keeps ids unique (`HandlersKeepUniqueIds`).
- A delete removes every entry with the id. `DeleteRemovesExactlyOne`
  shows this is exactly one task when ids are unique.
- A cancel closes the session but leaves the staged title in place (the
  handler at line 170 clears only `editingTodo`). `StaleStagedTitleIsHarmless`
  shows the next begin edit overwrites it.

## Model

| member | source | states |
|---|---|---|
| Todos.RemoveById | src/components/CRUD.tsx:71 | the filtered list holds exactly the entries whose id differs, as a subsequence of the input (original order), and is shorter by the number of entries with that id |
| Todos.ReplaceById | src/components/CRUD.tsx:102-104 | same length; each position holds the new record where the old entry had its id, and the old entry everywhere else |
| Todos.FlipCompleted | src/components/CRUD.tsx:114-116 | same length, ids and titles at every position; `completed` is inverted exactly at positions carrying the id |
| Todos.FirstIndexOf | src/components/CRUD.tsx:123 | the position of the first entry with the id: no earlier entry has it, and it is the list's length when no entry has it |
| Todos.FindById | src/components/CRUD.tsx:123 | `undefined` exactly when no entry has the id; otherwise the entry at the first position carrying the id |
| Todos.CountIdZero | src/components/CRUD.tsx:71 | the count of an id is zero exactly when no entry carries it |
| Todos.RemoveAbsent | src/components/CRUD.tsx:71 | filtering out an id no entry carries returns the list unchanged |
| Todos.RemoveAppend | src/components/CRUD.tsx:53 | filtering an appended list is filtering the old list, then keeping the appended record if its id differs |
| Todos.UniqueTail | src/components/CRUD.tsx:3-7 | the tail of a list with unique ids has unique ids, none equal to the head's |
| Todos.RemoveOnlyAt | src/components/CRUD.tsx:71 | when entry k is the only one with its id, filtering that id removes entry k and keeps the rest in order |
| Todos.UniqueCountAtMostOne | src/components/CRUD.tsx:71 | with unique ids, each id is carried at most once |
| Todos.RemoveKeepsUnique | src/components/CRUD.tsx:71 | filtering keeps ids unique |
| Todos.ConsUnique | src/components/CRUD.tsx:71 | putting an entry with a new id in front of a list with unique ids keeps them unique |
| Todos.ReplaceKeepsIds | src/components/CRUD.tsx:103 | the map-replace keeps the sequence of ids |
| Todos.FlipKeepsIds | src/components/CRUD.tsx:114-116 | the map-flip keeps the sequence of ids |
| Todos.SameIdsSameUniqueness | src/components/CRUD.tsx:103-116 | two lists with the same ids are both unique or both not |
| Todos.AppendUnique | src/components/CRUD.tsx:53 | appending keeps ids unique if and only if the list was unique and the new id is not in it |
| Todos.FlipTwice | src/components/CRUD.tsx:114-116 | flipping the same id twice gives back the original list |
| Todos.ReplaceAfterFlip | src/components/CRUD.tsx:101-116 | a replace by id erases any earlier flip of that id |
| Todos.ReplaceIdentity | src/components/CRUD.tsx:103 | replacing with a record that every same-id entry already equals changes nothing |
| Todos.ReplaceUniqueAt | src/components/CRUD.tsx:103 | with unique ids, replacing the id of entry k is a point update at k |
| Todos.FindAfterFlip | src/components/CRUD.tsx:114-123 | the find in the flipped list yields the first old entry with the id, with `completed` inverted, or nothing when there was none |
| Todos.FirstIndexAfterFlip | src/components/CRUD.tsx:114-123 | flipping does not move the first position of an id |
| CrudComponent.AfterFetch | src/components/CRUD.tsx:24-30 | success replaces the list with exactly the fetched sequence; failure changes nothing; the input and session are never touched |
| CrudComponent.AddRequest | src/components/CRUD.tsx:43-46 | the posted body is the add-input's text, unvalidated, with `completed: false` |
| CrudComponent.AfterAdd | src/components/CRUD.tsx:49-56 | success grows the list by one, keeps every earlier entry in place, puts the returned record last and clears the input; failure changes nothing |
| CrudComponent.AfterDelete | src/components/CRUD.tsx:68-74 | success keeps exactly the entries with another id, as a subsequence, shorter by the count of that id; failure changes nothing |
| CrudComponent.AfterStartEditing | src/components/CRUD.tsx:77-80 | the session holds the given task and the staged title is its title; list and input are untouched |
| CrudComponent.AfterCancelEditing | src/components/CRUD.tsx:170 | the session closes; list, input and staged title are unchanged |
| CrudComponent.UpdateRequest | src/components/CRUD.tsx:83-95 | no request without a session; otherwise the snapshot's id and `completed` with the staged title |
| CrudComponent.AfterUpdate | src/components/CRUD.tsx:83-109 | no session or failure changes nothing; success keeps length and ids, puts the sent record at every entry with the snapshot's id and leaves the others, closes the session and clears the staged title |
| CrudComponent.AfterToggle | src/components/CRUD.tsx:114-130 | whatever the outcome: ids and titles kept, `completed` inverted exactly at entries with the id, input and session untouched |
| CrudComponent.ToggleRequest | src/components/CRUD.tsx:114-123 | no body exactly when no entry has the id; otherwise the first entry with the id, with `completed` inverted |
| CrudComponent.AfterTypeNewTitle | src/components/CRUD.tsx:142 | only the add-input's text changes, to the typed value |
| CrudComponent.AfterTypeEditedTitle | src/components/CRUD.tsx:160 | only the staged title changes, to the typed value |
| CrudComponent.Crud.constructor | src/components/CRUD.tsx:10-13 | an empty list, an empty input, no session and an empty staged title |
| CrudComponent.Crud.FetchTodos | src/components/CRUD.tsx:19-32 | the fields end as `AfterFetch` of the old fields and the reply |
| CrudComponent.Crud.AddTodo | src/components/CRUD.tsx:34-58 | posts `AddRequest` of the old fields; the fields end as `AfterAdd` |
| CrudComponent.Crud.DeleteTodo | src/components/CRUD.tsx:60-75 | the fields end as `AfterDelete` |
| CrudComponent.Crud.StartEditingTodo | src/components/CRUD.tsx:77-80 | the fields end as `AfterStartEditing` |
| CrudComponent.Crud.UpdateTodo | src/components/CRUD.tsx:82-110 | sends `UpdateRequest` of the old fields; the fields end as `AfterUpdate` |
| CrudComponent.Crud.CancelEditing | src/components/CRUD.tsx:170 | the fields end as `AfterCancelEditing` |
| CrudComponent.Crud.ToggleComplete | src/components/CRUD.tsx:112-131 | writes the flipped list before building the body; sends `ToggleRequest`; the fields end as `AfterToggle` for either outcome |
| CrudComponent.Crud.SetNewTodoTitle | src/components/CRUD.tsx:142 | the fields end as `AfterTypeNewTitle` |
| CrudComponent.Crud.SetEditedTodoTitle | src/components/CRUD.tsx:160 | the fields end as `AfterTypeEditedTitle` |
| CrudProperties.FailuresChangeNothing | src/components/CRUD.tsx:24-109 | a failed load, add, delete or commit leaves the whole state as it was (confirm-then-reflect) |
| CrudProperties.ToggleIsOptimistic | src/components/CRUD.tsx:114-130 | a failed toggle still changes the state when some entry carries the id: no rollback |
| CrudProperties.ToggleIgnoresOutcome | src/components/CRUD.tsx:117-130 | success and failure of the toggle request end in the same state |
| CrudProperties.ToggleTwiceRestores | src/components/CRUD.tsx:114-117 | toggling an id twice restores the state, whatever the outcomes |
| CrudProperties.ToggleRequestMatchesLocalState | src/components/CRUD.tsx:114-123 | the toggle body is the first old entry with `completed` inverted, and is what the new local list holds for that id |
| CrudProperties.AddEchoedRecord | src/components/CRUD.tsx:43-54 | when the server echoes the posted body with an id, the appended task has the typed title and is not completed, and the input is cleared |
| CrudProperties.AddThenDeleteRestores | src/components/CRUD.tsx:53-71 | deleting the new id after an add gives back the old list, when that id was new |
| CrudProperties.DeleteRemovesExactlyOne | src/components/CRUD.tsx:71 | with unique ids, a confirmed delete removes exactly the task at k and no other |
| CrudProperties.BeginThenCancel | src/components/CRUD.tsx:77-80 | begin edit then cancel leaves list and input unchanged, closes the session, leaves the staged title behind |
| CrudProperties.StaleStagedTitleIsHarmless | src/components/CRUD.tsx:170 | the next begin edit overwrites the staged title a cancel left behind |
| CrudProperties.CommitAfterBegin | src/components/CRUD.tsx:77-109 | begin edit on entry k, stage a title, commit with success: only entry k changes, keeping its id and `completed` and taking the title; the session is idle |
| CrudProperties.CommitOverwritesToggle | src/components/CRUD.tsx:101-117 | a toggle of the edited task between begin edit and commit happens, and a successful commit then restores the pre-toggle entry from the snapshot (the page hides that task's Complete button while editing, line 154) |
| CrudProperties.CommitOfVanishedTask | src/components/CRUD.tsx:101-105 | committing an edit whose task is no longer listed leaves the list as it is and still closes the session |
| CrudProperties.HandlersKeepUniqueIds | src/components/CRUD.tsx:71-170 | delete, commit, toggle, begin, cancel and both inputs keep ids unique, whatever the outcome |
| CrudProperties.LoadMayDuplicateIds | src/components/CRUD.tsx:27-28 | a successful load of a list with a repeated id stores it as it is, so the ids are not unique |
| CrudProperties.AddKeepsUniqueIdsIff | src/components/CRUD.tsx:53 | a successful add keeps ids unique if and only if they were unique and the returned id is new |
| CrudProperties.CreateScenario | src/components/CRUD.tsx:34-58 | `[{1,A,false}]`, type B, add answered `{2,B,false}`: two tasks, empty input, posted `{B,false}` |
| CrudProperties.DeleteFailsScenario | src/components/CRUD.tsx:60-75 | `[{1,A,false}]`, delete 1 rejected: the list is unchanged |
| CrudProperties.EditScenario | src/components/CRUD.tsx:77-110 | `[{1,A,false}]`, edit task 1 to A2, commit accepted: `[{1,A2,false}]`, session idle |
| CrudProperties.ToggleFailsScenario | src/components/CRUD.tsx:112-131 | `[{1,A,false}]`, toggle 1 rejected: `[{1,A,true}]`, and that record was sent |

## Left out

- The network calls, URLs, HTTP methods, headers, `JSON.stringify` and `response.json()` (lines 21-27, 36-52, 62-67, 85-97, 118-124). They are foreign I/O. Each call is its outcome, passed in, with the parsed body for load and add.
- `console.error` logging in every `catch` (lines 30, 56, 73, 108, 129). It has no effect on the state.
- The `useEffect` trigger that loads on mount (lines 15-17). It is React lifecycle plumbing; `FetchTodos` models the load it starts.
- The JSX rendering and styling (lines 133-208), apart from the two `onChange` setters and the Cancel handler.
- Which buttons are offered. The page shows Edit, Complete and Delete only for tasks that are not being edited, and each passes its own task or id (lines 154, 186, 192, 198). The model lets any handler run with any id or task at any time, which is more than the buttons offer.
- Number width of `id`. The source types it as a JavaScript `number`; the model uses unbounded integers. The handlers compare ids only with `===` and `!==`, so for integer ids nothing is lost.
- Overlapping requests and stale closures. All handlers run on one event loop but may overlap in flight. A late reply writes a list computed from the `todos` captured when its handler started (lines 53, 71, 103), so the last write wins. The model runs every handler atomically, from the current state.
- React's batching of `setState` calls. Each setter is a direct assignment to its field.
- The shape of a reply body. The model assumes a load returns a list of task records and an add returns one task record; a body of any other shape is not modelled.
- The remote collection itself. The model does not state how the local ids relate to the server's ids.
