# Users view of UserManagement, modelled in Dafny

UserManagement is a small browser front end: a login page and a paginated
users table backed by a hosted REST API. This project models the view-state
machine of the users table, the `UsersList` component. Its state is the rows
on display, the current page, the estimated page count, the first-load spinner
flag, the single edit draft and the error and success banners. Every UI event
and every settled API call is one step over that state.

- `types.dfy`, module `UserTypes`: the `User` row, the list response, the
  settled outcome of an API call, the three editable fields of a draft and the
  `{ ...draft, field: text }` update.
- `list_ops.dfy`, module `ListOps`: the two row rewrites. Delete keeps the rows
  whose id differs (`RemoveById`). Save puts the draft in place of the rows with
  its id (`ReplaceById`). Lemmas cover order, idempotence and how the two combine.
- `pagination.dfy`, module `Pagination`: the clamped Previous and Next steps and
  the page-count estimate, each preserving `1 <= page <= totalPages`.
- `users_list.dfy`, module `UsersListView`: class `UsersList` with the state
  fields and one method per handler. Its invariant `Valid()` is the page
  range. Three client methods chain handlers: edit then cancel, edit then a
  successful save, and edit then a rejected save.

The API outcome a handler awaited is a parameter. A list request either
resolves with a response or rejects. An update or delete either resolves or
rejects. The boolean that `deleteUser` returns is never read
(src/services/api.ts:30), so any delete that does not reject counts as done.
The confirmation dialog is the `confirmed` parameter of `Delete`.

The page-count estimate follows the code (src/components/UsersList.tsx:23-24).
After page `p` is fetched, the estimate becomes `p + 1` when `p` is below the
`total_pages` the server reported. Otherwise it keeps its old value. It is not
compared with the previous estimate, so fetching an earlier page can lower the
estimate. The page range `1 <= page <= totalPages` is proved only for handlers
that each run as one atomic step against the page shown at that moment. In the
code a fetch keeps the page of the render that started it, so a late response
for an earlier page can leave the page above the estimate (see "## Left out").

## Model

| member | source | states |
|---|---|---|
| `UserTypes.SetField` | src/components/UsersList.tsx:98-121 | editing one input of the draft sets that field to the typed text and leaves the other two inputs, the id and the avatar as they were |
| `ListOps.RemoveById` | src/components/UsersList.tsx:36 | a row is in the result iff it was displayed and its id differs from the deleted id, and the result is no longer than the list |
| `ListOps.RemoveByIdCount` | src/components/UsersList.tsx:36 | every kept row occurs as often as before and rows with the deleted id occur zero times, so exactly the user's rows are removed |
| `ListOps.RemoveByIdAppend` | src/components/UsersList.tsx:36 | filtering a concatenation is the concatenation of the filtered parts, so the kept rows stay in their original order |
| `ListOps.RemoveByIdAbsent` | src/components/UsersList.tsx:36 | deleting an id that no row carries leaves the list identical |
| `ListOps.RemoveByIdIdempotent` | src/components/UsersList.tsx:32-44 | a second successful delete of the same id changes nothing more |
| `ListOps.ReplaceById` | src/components/UsersList.tsx:49 | saving keeps the length and the sequence of ids; every row with the draft's id becomes the draft and every other row is untouched |
| `ListOps.ReplaceByIdIdempotent` | src/components/UsersList.tsx:46-57 | saving the same draft twice gives the list the first save gave |
| `ListOps.ReplaceByIdUnchanged` | src/components/UsersList.tsx:49 | saving a draft equal to the rows with its id leaves the list identical |
| `ListOps.RemoveAfterReplace` | src/components/UsersList.tsx:36-49 | deleting a user after saving their draft gives the same list as deleting alone |
| `Pagination.PreviousPage` | src/components/UsersList.tsx:168 | the page after Previous is at least 1, is one less when above 1, stays 1 at page 1, and stays within any page range the old page was in |
| `Pagination.NextPage` | src/components/UsersList.tsx:178 | the page after Next is at most `totalPages`, is one more below the last page, stays put at the last page, and stays within `1..totalPages` |
| `Pagination.EstimateTotalPages` | src/components/UsersList.tsx:23-25 | the estimate becomes `page + 1` exactly when `page` is below the server's `total_pages`, otherwise stays, and the current page stays within it |
| `UsersListView.UsersList.constructor` | src/components/UsersList.tsx:7-13 | the initial state: no rows, page 1 of 1, spinner on, no draft, empty banners; the page range holds |
| `UsersListView.UsersList.FetchCompleted` | src/components/UsersList.tsx:19-30 | on a response the rows become exactly the response rows in server order and the estimate is updated; on rejection rows and estimate are kept and the fetch error is set; the spinner is off either way and the page range holds |
| `UsersListView.UsersList.Delete` | src/components/UsersList.tsx:32-44 | unconfirmed: nothing changes; confirmed and not rejected: the user's rows are removed and the success message set; rejected: rows kept and the delete error set |
| `UsersListView.UsersList.StartEdit` | src/components/UsersList.tsx:145-147 | the draft becomes a copy of the chosen row; nothing else changes |
| `UsersListView.UsersList.EditField` | src/components/UsersList.tsx:98-121 | the draft becomes the draft with one field replaced; nothing else changes |
| `UsersListView.UsersList.Cancel` | src/components/UsersList.tsx:136-138 | the draft is discarded; rows and everything else are unchanged |
| `UsersListView.UsersList.Save` | src/components/UsersList.tsx:46-57 | not rejected: the draft replaces its row, edit mode ends and the success message is set; rejected: rows and draft are kept and the update error is set |
| `UsersListView.UsersList.Previous` | src/components/UsersList.tsx:167-169 | the page becomes the clamped previous page; the page range holds |
| `UsersListView.UsersList.Next` | src/components/UsersList.tsx:177-179 | the page becomes the clamped next page; the page range holds |
| `UsersListView.UsersList.ClearSuccess` | src/components/UsersList.tsx:38-52 | the success timer set after a delete (line 38) or an update (line 52) empties the success banner and changes nothing else |
| `UsersListView.UsersList.ClearError` | src/components/UsersList.tsx:41-55 | the error timer set after a failed delete (line 41) or update (line 55) empties the error banner and changes nothing else |
| `UsersListView.EditThenCancel` | src/components/UsersList.tsx:98-147 | starting an edit, typing and cancelling leaves the displayed rows identical and no draft; page, estimate, spinner and banners are unchanged |
| `UsersListView.EditThenSave` | src/components/UsersList.tsx:46-147 | starting an edit, typing and saving successfully gives the list with every row of that id replaced by the edited draft and all other rows and the ids kept; edit mode ends, the success message is set, and the page, estimate, spinner and error banner are unchanged |
| `UsersListView.EditThenFailedSave` | src/components/UsersList.tsx:46-147 | a rejected save keeps the rows as they were and keeps the edited draft in edit mode with the update error shown; page, estimate, spinner and success banner are unchanged |

## Left out

- The HTTP client (src/services/api.ts): requests, JSON parsing and the base URL. Its results are the outcome parameters of the handlers.
- Routing and the session guard (src/App.tsx): a router library and a check for a stored token.
- The rendering (src/components/UsersList.tsx:59-188): markup, CSS classes and the spinner. Only the handlers wired to its buttons and inputs are modelled.
- The browser confirmation dialog: it is the `confirmed` parameter of `Delete`.
- The 3-second timers: they are not scheduled. `ClearSuccess` and `ClearError` are the events they fire. The code schedules none after a fetch error (src/components/UsersList.tsx:27), so a caller should not fire `ClearError` for it.
- The request that a page change starts (src/components/UsersList.tsx:15-17): `FetchCompleted` is its settled result, read against the page current at that step.
- Async interleavings: a stale response overtaking a newer one, duplicate save or delete requests, and handlers that read an outdated list. Each handler is one atomic step here.
- `UsersList.Valid`: the page range `1 <= page <= totalPages` holds only because each handler is one atomic step. In the code each fetch computes the estimate from the page of the render that started it (src/components/UsersList.tsx:15-24). A late response for an earlier page breaks the range. Example: page 4 of 5, Previous twice, Next twice, and the page-2 response lands last and sets the estimate to 3 while the page is 4.
- Which events the rendering allows: while `loading` is true only the spinner is drawn (src/components/UsersList.tsx:59-65), so no delete, edit or page step can fire, and the row in edit mode offers no edit or delete button (src/components/UsersList.tsx:128-157). The methods here accept these events in any state. No stated property depends on this.
- JavaScript numbers are doubles. Ids and page numbers are unbounded integers here, because the view only compares them and adds one.
- The body of a resolved update is never read, so it is not modelled.
