# Task manager: owner-scoped task store and dashboard list state

This project models the core of a personal task-manager web application in Dafny.

- **Task record** (`task_schema.dfy`, module `TaskSchema`). The Mongoose schema of a task has two required paths, `user` (the owner) and `title`. `description` and `dueDate` are optional. `status` is one of pending/completed and defaults to pending. `priority` is one of low/medium/high and defaults to medium. The module also holds the JSON documents that travel between client and server, and the cast of a request body onto the schema paths.
- **Listing order and page envelope** (`task_listing.dfy`, module `TaskListing`). The list route sorts with `{ priority: -1, dueDate: 1 }` and then cuts a page out of the result.
- **Task routes** (`task_routes.dfy`, module `TaskRoutes`). The five routes are methods of a `TaskStore` class that holds a map from task id to task: list, get, create, update and delete. The authenticated caller's id is a parameter. Get, update and delete share one guard sequence (`Authorize`): an unknown id answers 404, then another user's task answers 401, and only then does the route act.
- **Dashboard list state** (`dashboard.dfy`, module `DashboardPage`). The page's `useState` variables are fields of a `Dashboard` class. Its handlers call the store directly: the status toggle with its optimistic list update, the save handler with its edit-payload stripping, delete, and Prev/Next paging.

## Behaviour as coded

The model follows the code wherever the code and the intended design differ:

- **Sort by the raw priority string.** The sort key is the stored priority string, compared character by character. The descending order is therefore "medium", "low", "high", not high, medium, low (`PriorityStringOrder`, `HighListedLast`). A task without a due date sorts before dated tasks of the same priority, because MongoDB orders a missing value lowest.
- **Update does not protect the owner.** An update `$set`s every schema path in the body, `user` included, so it can hand a task to another user (`ApplySet`). Only the client keeps the owner, by stripping `user` from the edit payload (`EditKeepsOwner`). The status request sends the owner unchanged (`StatusRequestStoresListedEntry`).
- **Enums and `required` are checked only at creation.** A create whose document fails validation answers 500 ("Server Error"), not 400. An update runs no validators and can store any status or priority string.
- **Error codes.** Another user's task answers 401 on get, update and delete. The server's default page size is 5, while the dashboard always asks for 10.

## Model

| member | source | states |
|---|---|---|
| TaskSchema.WithDefaults | server/models/Task.js:20-29 | A missing status becomes "pending" and a missing priority becomes "medium"; a supplied value and every other path are kept |
| TaskSchema.WithDefaultsIdempotent | server/models/Task.js:20-29 | Filling in defaults twice is the same as once |
| TaskSchema.WithDefaultsKeepsValidity | server/models/Task.js:20-29 | The defaults are enum members, so filling them in does not change whether a draft is valid |
| TaskSchema.TitleRequired | server/models/Task.js:10-13 | A draft with no title or an empty title is invalid, before and after defaults |
| TaskSchema.OwnerRequired | server/models/Task.js:5-9 | A draft with no owner is invalid, before and after defaults |
| TaskSchema.OptionalPathsIrrelevant | server/models/Task.js:14-19 | Whether description and dueDate are present or not has no effect on validity |
| TaskSchema.EnumsChecked | server/models/Task.js:20-29 | A status or priority given outside its enum makes the new document invalid |
| TaskSchema.ValidNewTask | server/models/Task.js:5-29 | Holds iff the owner is present, the title is present and non-empty, and a status or priority that is present lies in its enum; description and due date carry no validator |
| TaskSchema.Materialize | server/models/Task.js:3-29 | The stored task has the given id and carries exactly the paths of its validated draft |
| TaskSchema.MaterializedTaskValid | server/models/Task.js:3-29 | A task created from a valid draft has a non-empty title and status and priority inside their enums |
| TaskSchema.ToFields | server/routes/tasks.js:46-49 | A JSON body is read onto the six schema paths by key; a key outside them, or a value of the wrong JSON kind, is ignored |
| TaskSchema.Serialize | server/routes/tasks.js:34 | The JSON of a task has exactly the keys `_id`, `user`, `title`, `status` and `priority`, plus `description` and `dueDate` when the task has them |
| TaskSchema.SerializeRoundTrip | server/routes/tasks.js:34 | Casting the JSON of a task back onto the schema recovers every path of the task, and the JSON carries its `_id` |
| TaskListing.Before | server/routes/tasks.js:16 | A task sorts strictly first iff its priority string is greater, or the priorities are equal and its due date is earlier, a missing due date counting as earliest |
| TaskListing.Precedes | server/routes/tasks.js:16 | A task may be listed before another iff the other does not sort strictly first |
| TaskListing.PrecedesTotal | server/routes/tasks.js:16 | For any two tasks, at least one may be listed before the other |
| TaskListing.PrecedesTransitive | server/routes/tasks.js:16 | The list order is transitive, so it is a total preorder |
| TaskListing.SortedRespectsBefore | server/routes/tasks.js:16 | In a sorted list, a task whose key sorts strictly first is listed first |
| TaskListing.PriorityStringOrder | server/routes/tasks.js:16 | Descending string order puts "medium" before "low" and "low" before "high" |
| TaskListing.HighListedLast | server/routes/tasks.js:16 | In a sorted list every "high" task comes after every "medium" and every "low" task |
| TaskListing.EarlierDueListedFirst | server/routes/tasks.js:16 | Within one priority, an earlier due date (or none) is listed first |
| TaskListing.Insert | server/routes/tasks.js:16 | Inserting a task gives a list one longer whose entries, counted with multiplicity, are exactly the task and the old entries |
| TaskListing.InsertSorted | server/routes/tasks.js:16 | Inserting into a sorted list keeps it sorted |
| TaskListing.InsertNoDup | server/routes/tasks.js:16 | Inserting a new task into a duplicate-free list keeps it duplicate-free |
| TaskListing.Paginate | server/routes/tasks.js:13-19 | A page holds at most `limit` entries of the listing. With a positive limit, page n holds exactly the entries from position (n−1)·limit on, in order: `limit` of them, fewer on the last page, none past the end. It has a previous page iff page > 1, and a next page iff page·limit < total |
| TaskListing.EveryEntryOnItsPage | server/routes/tasks.js:13-19 | Entry k of the listing is entry k mod limit of page k div limit + 1, so the pages cover the listing in order |
| TaskListing.PagesDisjoint | server/routes/tasks.js:13-19 | Two different pages of a duplicate-free listing share no entry, so no task is shown on two pages |
| TaskListing.NextPageNonEmpty | server/routes/tasks.js:13-19 | A page that reports a next page is followed by a non-empty page |
| TaskRoutes.Authorize | server/routes/tasks.js:31-33 | The guard reports Missing iff the id is absent, Foreign iff the task exists but is another user's, and Owned iff it is the caller's |
| TaskRoutes.ApplySet | server/routes/tasks.js:71-75 | `$set` overwrites exactly the paths the body carries and keeps the id; the owner stays iff the body has no `user` or repeats the current one |
| TaskRoutes.ApplySetAll | server/routes/tasks.js:71-75 | Setting all of a task's paths onto a task with the same id, which has no optional path the first lacks, yields the first task |
| TaskRoutes.ApplySetIdempotent | server/routes/tasks.js:71-75 | Applying the same update twice is the same as once |
| TaskRoutes.ApplySetNothing | server/routes/tasks.js:71-75 | A body with no schema path leaves the task unchanged |
| TaskRoutes.NewDraft | server/routes/tasks.js:46-49 | The new document's owner is the caller; a status or priority the body supplies is kept and a missing one becomes "pending" or "medium"; every other path comes from the body |
| TaskRoutes.NewDraftIgnoresBodyOwner | server/routes/tasks.js:46-49 | Whatever `user` the body carries, or none, the new document is the same |
| TaskRoutes.ListShowsOnlyOwnTasks | server/routes/tasks.js:11-19 | Every task on a page of a user's listing is stored and owned by that user |
| TaskRoutes.SingleTaskListed | server/routes/tasks.js:11-19 | A user who owns exactly one task sees exactly that task on page 1 |
| TaskRoutes.TaskStore.List | server/routes/tasks.js:10-20 | The answer is the requested page (default 1, limit 5) of a sorted, duplicate-free listing of exactly the caller's tasks |
| TaskRoutes.TaskStore.Get | server/routes/tasks.js:31-34 | 404 for an unknown id, otherwise 401 for another user's task, otherwise the stored task unchanged, with status code 200; the store is not modified |
| TaskRoutes.TaskStore.Create | server/routes/tasks.js:46-54 | A valid document is stored under a fresh id, owned by the caller, and returned; an invalid one answers status 500 and changes neither the tasks nor the id counter |
| TaskRoutes.TaskStore.Update | server/routes/tasks.js:62-77 | After the 404/401 guards, which leave the store unchanged, only that task changes, to the body's paths set onto it, and it is returned |
| TaskRoutes.TaskStore.Delete | server/routes/tasks.js:88-93 | After the 404/401 guards, which leave the store unchanged, exactly that task is removed and the answer is "Task removed" |
| DashboardPage.Toggle | client/src/pages/Dashboard.jsx:64 | The new status is a valid status; it is "pending" iff the old one was "completed" |
| DashboardPage.ToggleInvolution | client/src/pages/Dashboard.jsx:64 | Toggling twice gives back the status iff the status is pending or completed |
| DashboardPage.MarkStatus | client/src/pages/Dashboard.jsx:65 | The optimistic list has the same length and order; entries with the clicked id differ only in status, and all others are unchanged |
| DashboardPage.MarkStatusRestores | client/src/pages/Dashboard.jsx:65 | Marking the entries back with their former status restores the list |
| DashboardPage.StatusPayload | client/src/pages/Dashboard.jsx:66 | The request body has the keys of the listed task's JSON; status holds the new value and every other key keeps the task's value |
| DashboardPage.StatusPayloadFields | client/src/pages/Dashboard.jsx:66 | The status request carries every path of the listed task with only status replaced |
| DashboardPage.StatusRequestStoresListedEntry | client/src/pages/Dashboard.jsx:64-66 | A successful status request stores exactly the optimistic entry: the listed copy with the new status, written over the stored copy, provided the listed copy lacks no optional path (description, due date) the stored copy has |
| DashboardPage.StripEditPayload | client/src/pages/Dashboard.jsx:37 | The payload has no `_id`, `user`, `createdAt`, `updatedAt` or `__v` key, and every other key keeps its value |
| DashboardPage.EditKeepsOwner | client/src/pages/Dashboard.jsx:37-38 | The edit payload carries every schema path of the form except the owner, so an edit never reassigns a task |
| DashboardPage.PrevPage | client/src/pages/Dashboard.jsx:184 | The page number after Prev: one less when the last response had a previous page, otherwise unchanged |
| DashboardPage.NextPage | client/src/pages/Dashboard.jsx:185 | The page number after Next: one more when the last response had a next page, otherwise unchanged |
| DashboardPage.PagingStaysInRange | client/src/pages/Dashboard.jsx:184-185 | With the flags of the current page, Prev never goes below page 1 and Next only moves to a non-empty page |
| DashboardPage.Dashboard.constructor | client/src/pages/Dashboard.jsx:11-15 | The page starts with an empty list, page 1, no page flags, no task being edited and the form closed; the first load on mount is a separate `FetchTasks` call after it |
| DashboardPage.Dashboard.FetchTasks | client/src/pages/Dashboard.jsx:18-22 | The list and page flags become the server's page for the current page number with limit 10 |
| DashboardPage.Dashboard.HandleStatus | client/src/pages/Dashboard.jsx:62-72 | The list shows the toggled status at once. The whole task with that status is sent. If the request fails, the list is reloaded from the unchanged store |
| DashboardPage.Dashboard.HandleSaveTask | client/src/pages/Dashboard.jsx:34-48 | An edit updates the edited task with the stripped payload and keeps every owner; otherwise a task is created. On success the form closes and the list reloads; on failure nothing changes |
| DashboardPage.Dashboard.HandleDelete | client/src/pages/Dashboard.jsx:51-59 | A confirmed delete of the caller's task removes it and reloads the list; otherwise nothing changes |
| DashboardPage.Dashboard.HandleEditClick | client/src/pages/Dashboard.jsx:74-78 | The form opens on the clicked task |
| DashboardPage.Dashboard.ToggleForm | client/src/pages/Dashboard.jsx:115 | The add button clears the edited task and opens or closes the form |
| DashboardPage.Dashboard.Prev | client/src/pages/Dashboard.jsx:184 | Prev moves to page − 1 and reloads the list only when the last response had a previous page |
| DashboardPage.Dashboard.Next | client/src/pages/Dashboard.jsx:185 | Next moves to page + 1 and reloads the list only when the last response had a next page |

`TaskRoutes.ExampleSession` walks through one user's session with the store, stating each answer as an assertion. The user creates a task, reads it back (another user gets 401), marks it completed, lists it, deletes it, and gets 404.

The page's first load, the `useEffect` on `[page]` at client/src/pages/Dashboard.jsx:31, is a `DashboardPage.Dashboard.FetchTasks` call right after the constructor; later page changes reload through `Prev` and `Next`.

## Left out

- Authentication: the auth middleware, the auth routes, login and registration. The caller's user id is a parameter of every route and handler.
- Request and storage failures other than validation: ObjectId cast errors on a malformed id (the 404 at server/routes/tasks.js:37), lost connections, and network errors on the client. Ids are plain integers.
- Fresh ids come from a counter in the store instead of ObjectId generation. Iterating ids in order therefore follows insertion order.
- The `timestamps` option (createdAt, updatedAt) and the version key `__v`.
- A body that carries `_id`, and Mongoose's casting of mistyped or null values. The model ignores a value of the wrong JSON kind, and a `null` cannot be expressed.
- Dates: a due date is an integer, with no date or time-zone arithmetic.
- TaskRoutes.TaskStore.List: the order of tasks whose priority and due date are both equal is left open, since the route does not fix it. The envelope keeps only docs, totalDocs, limit, page, hasPrevPage and hasNextPage.
- TaskListing.Paginate: the plugin's arithmetic is not part of the repository. The model assumes a page below 1 is read as 1 and a limit below 1 returns no documents, and that hasNextPage holds iff page·limit < totalDocs. A page or limit query that does not parse as a number is not modelled.
- Concurrency and async ordering: each request and each reload completes before the next step. Two races are therefore not captured. Clicking Prev twice before the reload arrives could take the page number to 0. A task deleted between an update's lookup and its write would answer `null`.
- The client's 401 handling in fetchTasks (removing the token and navigating to login) is left out, because a listing never fails in the model.
- Presentation: toasts, the confirm dialog (a `confirmed` parameter instead), scrolling, navigation, JSX markup, the priority colours and badges, the task form's own state, the other pages, and the server bootstrap.
