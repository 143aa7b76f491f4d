# Task board controller, modelled in Dafny

This project models the page controller of a small task board. The board has three
columns: `queue`, `development` and `done`. Each column is an ordered list of task
records. A record holds a name, description, deadline, creation timestamp (`createdAt`)
and completion time (`doneAt`), plus the handle (`docRef`) of its document in a remote
document database. A draft has no handle. The controller also keeps a `sync` flag that
says a remote mutation is under way.

The controller offers six operations:

- `addCard` prepends a blank draft to a column.
- `editCard` overwrites one record's fields, then updates its document or creates a new one.
- `deleteCard` removes a record and deletes its document.
- `changeStatus` moves a record to another column and re-creates its document in the
  matching collection.
- `fetching` and `fetchOne` rebuild columns from the database, newest first.

Modules:

- `Wrappers`: `Option`.
- `Remote`: the database boundary. It defines the stored fields (`TaskData`), the
  document handle, one document of a query answer, and the calls the controller
  issues (`Query`, `Add`, `Update`, `Delete`). The model records these calls in order.
- `Board`: the pure helpers (`filterByIndex`, `formatDataForFirebase`, `editItem`),
  the column a fetch builds, and the status-change decision table. Lemmas about them
  live here too.
- `MainPage`: the `TaskBoard` class. It holds the three columns, `sync` and the call
  log. Its methods are the controller's operations, each proved against the `Board`
  functions.

Outside inputs become parameters:

- The current time is `now`: an `int` for `createdAt`, and a preformatted string for
  `doneAt`.
- Each query answer is a `seq<QueryDoc>`. `Fetching` takes a function from collection
  name to answer.
- A missing `doneAt` and an empty one behave the same in the source (both are falsy).
  Both are written `""`.

Where one might expect otherwise, the model follows the code:

- Deleting or moving a record without a handle (a draft, or a record created by
  `editCard` in the same session) still calls `deleteDoc`, with an absent handle
  (`Delete(None)`). The database client rejects it, so the operation stops there: the
  local change stays, nothing more is issued, and `sync` stays on.
- Editing a draft adds a document but never attaches a handle to the local record.
- `addCard` sends every status other than `queue` to `development`, although its doc
  comment (src/pages/Main/Main.js:224) names only `queue` and `development`.
- `changeStatus` writes to the column `ChangeTarget` picks. When `newStatus` names
  neither of the two other columns, that is the "else" column, although the doc comment
  (src/pages/Main/Main.js:249) expects one of the three statuses.

## Model

| member | source | states |
|---|---|---|
| Board.FilterByIndex | src/pages/Main/Main.js:113 | For an index inside the array, the result is the array without that one position, order kept, one shorter. For any other index, including a negative one, the array is returned unchanged. |
| Board.FilterByIndexRemovesOne | src/pages/Main/Main.js:113 | For a valid index, the result's multiset plus the removed element equals the input's multiset. Element k of the result is input element k below the index and k+1 from it on. |
| Board.FormatDataForFirebase | src/pages/Main/Main.js:122-134 | Name, description, deadline and createdAt are copied. An existing doneAt survives exactly when some newStatus is given. A missing doneAt is stamped exactly when newStatus is done (and the time is non-empty). A non-empty result is the old doneAt if there was one, else now. |
| Board.FormatDoneAtMatchesStatus | src/pages/Main/Main.js:127-133 | With newStatus '' or done and a non-empty time, the written doneAt is non-empty exactly when newStatus is done. |
| Board.FormatIdempotent | src/pages/Main/Main.js:122-134 | Formatting an already formatted document again with the same status returns it unchanged, whatever the time. |
| Board.EditItem | src/pages/Main/Main.js:189-193 | Column length is kept and every other record is unchanged. At the index, name, deadline and description come from the edit (`Board.EditOf`, the `data` object at Main.js:178-182); createdAt, doneAt and docRef are the record's own (`Board.Apply`, the spread at Main.js:191). |
| Board.EditItemIdempotent | src/pages/Main/Main.js:189-193 | Applying the same edit twice equals applying it once. |
| Board.EditCall | src/pages/Main/Main.js:195-216 | The call editCard issues is an update exactly when the record has a handle: that handle, with {name, deadline, description}. Otherwise it is an add to the status's collection of obj's fields with doneAt cleared. |
| Board.Reversed | src/pages/Main/Main.js:51-53 | Reversal keeps the length. |
| Board.ReversedAt | src/pages/Main/Main.js:51-53 | Position k of the reversal is position n-1-k of the input. |
| Board.Records | src/pages/Main/Main.js:63-65 | The pushed array has one record per query document, in query order, each with the document's fields and handle (`Board.FromDoc`, the object at Main.js:64). |
| Board.FetchedColumn | src/pages/Main/Main.js:66-75 | The stored column has one record per document in reverse query order, and every record has a handle. An answer ascending by createdAt gives a column descending by createdAt. |
| Board.Branches | src/pages/Main/Main.js:284-296 | The (if, else) pairs are queue→(development, done), development→(queue, done), done→(development, queue); there is no pair for an unknown column. Both statuses are known columns, distinct and different from the source, and the "if" status is never done; together these fix the queue and development pairs, and the done pair is stated outright. |
| Board.ChangeTarget | src/pages/Main/Main.js:267-296 | A target exists exactly for a known source column. It is a known column other than the source. It equals newStatus whenever newStatus names one of the other two columns. Any other newStatus (the source itself or an unknown name) falls through to done from queue or development, and to queue from done. |
| Board.MoveStatusArg | src/pages/Main/Main.js:271-280 | The newStatus handed to the formatter is done exactly when the target is done, and '' otherwise. |
| Board.MovedDoc | src/pages/Main/Main.js:267-283 | The moved document matches the record in every field except doneAt. Moving to done keeps an existing doneAt or stamps now. Moving anywhere else clears doneAt. |
| Board.MoveLocal | src/pages/Main/Main.js:267-298 | An unknown source changes nothing. Otherwise the source column loses exactly the index, the target column gains that same pre-move record in front, and the third column is untouched. Before the refresh, the board holds the same multiset of tasks, so the total count is also unchanged. |
| Board.MovePreservesTasks | src/pages/Main/Main.js:269-274 | Taking one record out of one column and prepending it to another leaves the board's multiset of tasks unchanged. |
| MainPage.CollectSnapshot | src/pages/Main/Main.js:60-65 | The push loop builds exactly `Records` of the query answer. |
| MainPage.TaskBoard.SetColumn | src/pages/Main/Main.js:17-19 | `setQueue`, `setDevelopment` or `setDone`: the named column alone becomes the given sequence; sync and the call log are unchanged. |
| MainPage.TaskBoard.constructor | src/pages/Main/Main.js:17-25 | The board starts with three empty columns, sync off and no calls issued. |
| MainPage.TaskBoard.Fetching | src/pages/Main/Main.js:36-54 | Issues queries for queue, development and done, in that order. Each column becomes the fetched column of its collection's answer. sync is unchanged. |
| MainPage.TaskBoard.FetchOne | src/pages/Main/Main.js:59-79 | For a known name: one query, and that column alone replaced by the fetched column. For an unknown name: no call and no change. |
| MainPage.TaskBoard.DeleteDoc | src/pages/Main/Main.js:147 | `deleteDoc`, called at Main.js:147, 151, 155, 270 and 275: the delete is logged, and it succeeds exactly when a handle is given; the columns and sync are untouched. |
| MainPage.TaskBoard.DeleteCard | src/pages/Main/Main.js:141-161 | For a known status: only that column changes, by losing the index, and one delete is issued on the record's handle, present or not. sync ends on exactly when the record had no handle, because that delete is rejected. For an unknown status: nothing changes, nothing is issued, and sync is left on. |
| MainPage.TaskBoard.EditCard | src/pages/Main/Main.js:171-220 | For a known status: only that column changes, to EditItem of it. Exactly the one EditCall is issued. For an unknown status: no change and no call. sync ends off. |
| MainPage.TaskBoard.AddCard | src/pages/Main/Main.js:226-242 | A blank, handle-less draft created at now (`Board.Draft`, the literal at Main.js:228-233) goes in front of queue for status queue, and in front of development for any other status. done, sync and the call log are unchanged. |
| MainPage.TaskBoard.ChangeHandler | src/pages/Main/Main.js:267-283 | The record goes in front of the if/else column, and a delete of its handle is issued. It completes exactly when the record has a handle: then it issues an add of the formatted record (newStatus '' in the if branch, done in the else branch only when that is done) and a query of that column, whose contents become the fetched answer. Without a handle the rejected delete is the last call and the board stays as moved. |
| MainPage.TaskBoard.ChangeStatus | src/pages/Main/Main.js:252-300 | For a known source, the board before the refresh is MoveLocal of the old board. A record with a handle: afterwards only the target column differs, being the fetched answer; calls issued are delete of the old handle, add of MovedDoc to the target, query of the target; sync ends off. A record without a handle: the board stays MoveLocal of the old board, the only call is the rejected `Delete(None)`, and sync stays on. An unknown source changes nothing, issues nothing, and sync ends off. |

## Left out

- Database and storage SDK calls are not executed. Each call is only recorded in the log, and query answers are parameters. There is no store behind them, so the model cannot state that a fetch after an add or update returns what was written.
- Remote failures other than a delete without a handle are not modelled. In the source, a rejected `deleteDoc`, `addDoc` or `updateDoc` aborts the rest of its operation and leaves `sync` on; in `changeStatus` a rejected add after the delete loses the record remotely. A rejected refresh query does not: `fetchOne` runs inside `useFetch`, which catches the error (src/hooks/useFetch.js:14-24), so `changeStatus` still clears `sync`.
- Overlapping async operations and React's batching of state updates are not modelled. Each operation runs to completion, so the column read by the closure equals the state the updater sees.
- The `beforeunload` listener that reads `sync` is not modelled. It is browser I/O.
- `useFetch`'s loading and error flags are not modelled. They are UI plumbing.
- Date formatting and the wall clock are not modelled. The time is a parameter.
- `MainPage.TaskBoard.DeleteCard`, `MainPage.TaskBoard.EditCard`, `MainPage.TaskBoard.ChangeStatus`: require a valid index for a known status. The source reads `column[index].docRef`, which throws for any other index, and `changeStatus` would first prepend `undefined`. The card list only passes positions of rendered cards.
- `Array.prototype.reverse` runs in place on a local array. It is modelled as the value `Board.Reversed`, since no alias of that array exists.
- Card, card list, file panel, layout, header and loading components are not part of this model. Two facts from the card list are noted but not required: add is disabled for `done`, and `isNew` is the absence of a handle (`Board.Task.IsNew`).
