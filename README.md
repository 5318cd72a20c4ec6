# Task manager: request handler and client controller

A Dafny model of the two pieces of logic in this task manager.

- **The serverless request handler** (`api/index.js`). It answers a CORS preflight, routes on
  `url.split('/').filter(Boolean)`, and performs list, get, create, partial update and delete
  on the Task collection. Everything else is answered 404 "Route not found", and failures are
  answered 500.
- **The browser controller** (`public/app.js`). It holds the task list and the edit state,
  and it decides which request one form submit, checkbox toggle or delete sends.

Files and modules:

- `wrappers.dfy` (`Wrappers`): `Option`.
- `text.dfy` (`Text`): `String.prototype.trim`, with the ECMAScript whitespace set. The
  schema's `trim: true` setters and the form handler both use it.
- `task_model.dfy` (`TaskModel`): the Task document and the schema's work on save. This is
  the defaults, the trimming setters and the `required` title check. It also holds the
  guarded field assignments of an update.
- `paths.dfy` (`Paths`): `split('/')`, `filter(Boolean)`, and the path a client builds from
  segments, with the lemmas that connect them.
- `routing.dfy` (`Routing`): the route table as a function from method and segments to one
  of five routes or none, and the URL that reaches each route.
- `api.dfy` (`Api`): two views of one request.
  - `Serve` is a pure specification of one request: the response and the store afterwards.
  - The `TaskStore` class holds the collection as a map field. Its `Handle` method runs the
    handler's steps (find, build, assign, save, delete) and is proved to produce exactly what
    `Serve` says.
  - `TaskStore.List` builds the sorted listing with a loop.
- `client.dfy` (`Client`): the controller and its helpers.
  - The `Controller` class has the page state as fields and has one method per handler.
  - Each method returns the request it sends as an `Outgoing` value.
  - `updateStats` and `renderTasks` are pure functions.
  - Lemmas relate what the client sends to what `Serve` then does.

Inputs from outside the code are parameters:

- `Env.connected`: whether `connectToDatabase` succeeds.
- `Env.now`: the clock reading `Date.now` gives at creation.
- `Env.newId`: the id the database assigns to a new document.
- `delivered`: whether the browser's `fetch` promise resolved.
- `fetched`: the list `loadTasks` receives, or `None` when loading failed.
- `confirmed`: the user's answer to `confirm`.

A validation failure inside the `try` is answered 500 by the catch block
(api/index.js:115-120); the handler has no 400 answer. A create fails validation when its
title is missing or blank after trimming. An update fails only when the body holds a title
that is blank after trimming; without a title the old one is kept (api/index.js:96).

## Model

| member | source | states |
|---|---|---|
| Text.TrimStartShape | public/app.js:92-93 | The part trimmed from the front is a prefix made only of trimmed characters, and what is left starts with a character outside the set. |
| Text.TrimEndShape | public/app.js:92-93 | The part trimmed from the back is a suffix made only of trimmed characters, and what is left ends with a character outside the set. |
| Text.TrimBySlice | public/app.js:92-93 | The result of trimming is one contiguous slice of the input. |
| Text.TrimByTail | public/app.js:92-93 | Every character after the kept slice is one of the trimmed characters. |
| Text.TrimByTrims | public/app.js:92-93 | The result neither starts nor ends with a trimmed character. |
| Text.TrimByOfTrimmed | public/app.js:92-93 | A string that neither starts nor ends with a trimmed character is returned unchanged. |
| Text.TrimShape | public/app.js:92-93 | `trim()` returns the slice between the leading and the trailing whitespace. Everything outside that slice is whitespace, and the slice has no whitespace at either end. |
| Text.TrimOfTrimmed | api/index.js:10 | A string with no whitespace at either end is its own trim. |
| Text.TrimIdempotent | api/index.js:10 | Trimming twice equals trimming once. Re-saving through the setter does not change a stored title. |
| Text.TrimEmptyIff | public/app.js:95 | The trimmed title is empty exactly when every character of the input is whitespace, in both directions. |
| Paths.Split | api/index.js:66 | `split('/')` always yields at least one piece. |
| Paths.SplitPieces | api/index.js:66 | No piece of `split('/')` contains a slash. |
| Paths.JoinSplit | api/index.js:66 | Joining the pieces of a split with '/' gives the input back, so splitting loses nothing. |
| Paths.SplitSlash | api/index.js:66 | A leading '/' contributes an empty first piece. |
| Paths.SplitChar | api/index.js:66 | Any other leading character is prepended to the first piece. |
| Paths.SplitAtSlash | api/index.js:66 | The pieces of `a + "/" + b` are the pieces of `a` followed by the pieces of `b`. |
| Paths.SplitAtSlashAfterSlash | api/index.js:66 | The inductive step of `SplitAtSlash` when `a` starts with '/'. |
| Paths.SplitAtSlashAfterChar | api/index.js:66 | The inductive step of `SplitAtSlash` when `a` starts with any other character. |
| Paths.SplitWord | api/index.js:66 | A string without '/' splits into itself alone. |
| Paths.NonEmpty | api/index.js:66 | `filter(Boolean)` keeps only non-empty strings, each taken from its input, and never lengthens the list. |
| Paths.NonEmptyKeeps | api/index.js:66 | Every non-empty string of the input is kept. With `NonEmptyAppend` this fixes the result and its order. |
| Paths.NonEmptyAppend | api/index.js:66 | `filter(Boolean)` distributes over concatenation. |
| Paths.Segments | api/index.js:66 | Each segment is non-empty and free of '/'. |
| Paths.SegmentsAtSlash | api/index.js:66 | A slash, or a run of slashes, only separates segments: the segments of `a + "/" + b` are those of `a` then those of `b`. |
| Paths.SegmentsOfWord | api/index.js:66 | A non-empty word without '/' is exactly one segment. |
| Paths.LeadingSlash | api/index.js:66 | A leading '/' adds no segment. |
| Paths.SegmentsOfPath | api/index.js:66 | A path built as "/" + s1 + "/" + s2 … from non-empty, slash-free segments parses back to those same segments. |
| Paths.ExampleListPath | api/index.js:66-69 | `/api/tasks` has the segments `[api, tasks]`. |
| Paths.ExampleTrailingSlash | api/index.js:66-69 | `/api/tasks/` has the segments `[api, tasks]`. |
| Paths.ExampleDoubledSlashes | api/index.js:66-69 | `//api//tasks` has the segments `[api, tasks]`. |
| Paths.ExampleQueryString | api/index.js:66 | `/api/tasks?x=1` has the segments `[api, tasks?x=1]`: the query stays in the last segment. |
| Routing.Classify | api/index.js:69-113 | The route chain picks a route only for exactly that route's method and segments (GET, POST, PUT, DELETE on `[api,tasks]` or `[api,tasks,id]`). The id is the third segment. |
| Routing.ClassifyComplete | api/index.js:69-105 | Each of the five routes is reached by its own method and segments. |
| Routing.ClassifyIff | api/index.js:69-113 | A request reaches a route exactly when it has that route's method and segments. Every other combination gets no route. |
| Routing.RouteRoundTrip | api/index.js:66-105 | The URL built for a route, with an id that is non-empty and slash-free, is segmented and classified back to that same route. |
| TaskModel.TrimField | api/index.js:12-15 | The trimming setter on an optional field keeps whether the field is present, and a present value becomes the `trim()` of the input, so it has no whitespace at either end. |
| TaskModel.NewTask | api/index.js:6-24 | A new document exists exactly when the title is present and non-blank after trimming. It then has the given id, the trimmed title and description, `completed = false`, `createdAt = now`, and satisfies what a saved task satisfies. |
| TaskModel.Update | api/index.js:96-100 | The save after assignment succeeds exactly when the body has no title or a title that is non-blank after trimming. The result is the assigned task, and it still satisfies what a saved task satisfies. |
| TaskModel.AssignOnlyPresentFields | api/index.js:96-98 | Only the fields present in the body change, each to its trimmed new value. `id`, `createdAt` and every absent field keep their old values. |
| TaskModel.EmptyUpdateIsIdentity | api/index.js:96-100 | An update body with no fields leaves a saved task exactly as it was. |
| Api.StoreWithTask | api/index.js:87 | Saving a task that passed validation, under its own id, keeps the store valid: every task is filed under its id and passed validation. |
| Api.StoreWithout | api/index.js:109 | Deleting any id keeps the store valid. |
| Api.ServeGet | api/index.js:75-79 | Get one answers 200 with the stored task when the id is stored and 404 "Task not found" otherwise, and never changes the store. |
| Api.ServeCreate | api/index.js:82-89 | Create answers only 201 or 500 and keeps the store valid. A 500 leaves the store unchanged. |
| Api.ServeUpdate | api/index.js:92-102 | Update answers only 200, 404 or 500 and keeps the store valid. Anything but 200 leaves the store unchanged. |
| Api.ServeDelete | api/index.js:105-111 | Delete answers 200 when the id is stored and 404 otherwise. The store afterwards is the old store without that id. |
| Api.Dispatch | api/index.js:69-113 | Once connected, every route answers with one of 200, 201, 404 or 500 and keeps the store valid. The store changes only on a 200 or 201. |
| Api.Serve | api/index.js:52-122 | Every request, connected or not, is answered with 200, 201, 404 or 500. Each keeps the store valid, and only a 200 or 201 answer changes the store. |
| Api.Preflight | api/index.js:58-60 | OPTIONS on any path, connected or not, answers 200 with no body and changes nothing. |
| Api.Unconnected | api/index.js:62-63 | When the connection fails, every other request answers 500 and changes nothing. |
| Api.UnknownRoute | api/index.js:113 | A request that matches no route answers 404 "Route not found" and changes nothing. |
| Api.MissingTask | api/index.js:75-107 | GET, PUT or DELETE of an id that is not stored answers 404 "Task not found", whatever the body, and changes nothing. |
| Api.SlashVariantsList | api/index.js:66-69 | GET `/api/tasks`, `/api/tasks/` and `//api//tasks` all reach the list route. |
| Api.QueryStringNotRouted | api/index.js:66-113 | GET `/api/tasks?x=1` answers 404 "Route not found" and changes nothing. |
| Api.ListAnswersListing | api/index.js:69-72 | The list route answers 200 with the database's listing and changes nothing. |
| Api.UpdateStoresAssigned | api/index.js:92-101 | A PUT to a stored id whose body title is absent or non-blank answers 200 with the assigned task. The new store replaces exactly that id's task, so no other task changes. |
| Api.UpdateRejectsBlankTitle | api/index.js:92-120 | A PUT whose title is blank after trimming answers 500 and changes nothing. |
| Api.GetAnswersStored | api/index.js:75-78 | A GET of any stored id answers 200 with exactly the stored task and changes nothing. |
| Api.DeleteThenGet | api/index.js:74-111 | Deleting a stored id answers 200 "Task deleted successfully" and removes exactly that id. A following GET of it answers 404 "Task not found". |
| Api.CreateStores | api/index.js:82-88 | A POST with a non-blank title under a free id answers 201 with the new task (trimmed title and description, not completed, created now). The new task is stored under its id and nothing else changes. |
| Api.CreateThenGet | api/index.js:74-88 | After a successful POST, a GET of the new id answers 200 with the same task. |
| Api.CreateRejectsBlankTitle | api/index.js:82-120 | A POST without a title, or with a blank one, answers 500 and stores nothing. |
| Api.CreateIgnoresCompleted | api/index.js:83-86 | Any task a POST creates has the new id, `completed = false` and `createdAt = now`, whatever the body holds. |
| Api.TaskStore.constructor | api/index.js:26 | The collection starts empty and valid. |
| Api.TaskStore.FindById | api/index.js:76 | `findById` returns the stored task exactly when the id is stored. That task carries the id. |
| Api.TaskStore.List | api/index.js:70 | The loop returns each stored task exactly once, newest first. |
| Api.TaskStore.Insert | api/index.js:87 | Saving a new document succeeds exactly when its id is free, and then adds exactly that task. A taken id changes nothing. |
| Api.TaskStore.Replace | api/index.js:100 | Saving a loaded, assigned document replaces exactly its own entry. |
| Api.TaskStore.DeleteOne | api/index.js:109 | `deleteOne` removes exactly that id. |
| Api.TaskStore.Handle | api/index.js:52-122 | The handler's response and the new store are exactly those `Serve` gives for the same request. The store stays valid, and a list answer is ordered newest first and holds every stored task once. |
| Api.ListingStep | api/index.js:70 | Putting one more task in front of the first listed task that is not newer keeps the partial listing's invariant. |
| Api.StepListsStored | api/index.js:70 | After that insertion every listed task is still a stored task and no longer pending. |
| Api.StepKeepsIdsDistinct | api/index.js:70 | After that insertion no id is listed twice. |
| Api.StepCoversDone | api/index.js:70 | After that insertion every stored task that is no longer pending is listed. |
| Api.InsertAt | api/index.js:70 | Inserting at that position keeps the list sorted newest first, and shifts the tail by one. |
| Client.UrlSafeIdIsPathId | public/app.js:105 | An id of unreserved URL characters that is not a dot segment is read back by the server as one path segment. |
| Client.ClientRequestsRoute | public/app.js:103-116 | The POST, PUT and DELETE requests the client builds from `API_URL` reach the server's create, update and delete routes for the same id, for ids the browser sends unchanged. Their URLs are the routes' own URLs. |
| Client.CompletedTasks | public/app.js:80 | The filter keeps only completed tasks, each taken from the list. |
| Client.OpenTasks | public/app.js:81 | The independent count of open tasks holds only tasks that are not completed. |
| Client.CompletedPartition | public/app.js:80 | The completed tasks and the open tasks together are exactly the list, as multisets: the filter loses no task. |
| Client.CompletedKept | public/app.js:80 | Every completed task of the list is among those the filter keeps. |
| Client.Stats | public/app.js:78-85 | total is the list length, completed and pending each lie between 0 and total, and completed + pending = total. |
| Client.PendingIsOpenCount | public/app.js:81 | pending, computed as total minus completed, equals the number of tasks not completed. |
| Client.NonePendingIff | public/app.js:81 | pending is 0 exactly when every task is completed. |
| Client.NoneCompletedIff | public/app.js:80 | completed is 0 exactly when no task is completed. |
| Client.EmptyStats | public/app.js:78-85 | An empty list shows 0, 0, 0. |
| Client.ItemsTellTasksApart | public/app.js:56-73 | Two tasks show the same item exactly when they agree on every field except that one may have no description where the other has an empty one. |
| Client.Render | public/app.js:46-75 | The empty-state view appears exactly when the list is empty. Otherwise there is one item per task, in list order. |
| Client.FindIndex | public/app.js:131 | The search stops at the first task with the id, or at the end when there is none. |
| Client.Find | public/app.js:146 | `tasks.find` gives nothing exactly when no task has the id. Otherwise it gives the first listed task with that id. |
| Client.SubmitRequest | public/app.js:92-117 | No request exactly when the trimmed title is empty. Otherwise a PUT to `editingTaskId` exactly when it is set and non-empty, else a POST. The payload is the trimmed title and description in either case. |
| Client.TogglePayloadFlips | public/app.js:135 | Applying the toggle body to a task changes exactly `completed`, to its negation. |
| Client.ToggleTwiceRestores | public/app.js:135 | Applying the toggle body twice gives the task back. |
| Client.UnchangedEditKeepsTask | public/app.js:92-153 | Submitting an edit whose form was left as `editTask` filled it sends a PUT to that task, and it leaves the task as it was, except that an absent description is saved as the empty string. |
| Client.SubmittedCreateIsStored | public/app.js:111-116 | When the server is connected and the store's new id is free, a submit outside edit mode with a non-blank title is answered 201. The answer is a task with the trimmed title and description, not completed and created now, and it is stored under the new id. |
| Client.SubmittedEditIsStored | public/app.js:103-109 | A submit in edit mode with a non-blank title is answered 200 while the edited task is still stored. The task's title and description become the trimmed inputs, and its `completed`, id and creation time stay. No other task changes. |
| Client.ToggleFlipsStoredTask | public/app.js:131-136 | Toggling a held task is answered 200 and sets its stored `completed` to the negation of the client's copy, which flips it when that copy is current. Every other field, and every other task, is unchanged. |
| Client.Controller.constructor | public/app.js:5-6 | The page starts with no tasks and idle: no edit in progress, an empty form, "Add Task", and the cancel control hidden. |
| Client.Controller.LoadTasks | public/app.js:33-43 | A fetched list replaces the held one. A failed load keeps the old list and nothing else changes. |
| Client.Controller.CancelEdit | public/app.js:161-166 | Always ends idle. From an idle state it changes nothing, so a second call equals the first. |
| Client.Controller.EditTask | public/app.js:145-153 | On an unknown id nothing changes. On a known id the editing id is set, the form holds the task's title and description (or ''), the label is "Update Task", and cancel is shown. |
| Client.Controller.HandleFormSubmit | public/app.js:89-126 | The request sent is `SubmitRequest` of the state. When it was sent and resolved, the state is idle and the list is reloaded. A blank title or a rejected call changes nothing. |
| Client.Controller.ToggleTask | public/app.js:129-142 | For a held task, a PUT of the negated `completed` to its id, then a reload once the call resolves. Otherwise no request and nothing changes. |
| Client.Controller.DeleteTask | public/app.js:169-181 | No request unless confirmed. Then a DELETE of the id, and a reload once the call resolves. |

## Left out

- `connectToDatabase` and `cachedDb` (api/index.js:28-50) are reduced to the boolean input
  `Env.connected`. The connection is network I/O outside the model.
- CORS headers, JSON serialisation, and the `message`/`error.toString()` text of a 500 answer
  (api/index.js:54-56, 117-120) are not modelled. A 500 carries only the marker body
  `ServerError`. The text depends on which error was thrown: the missing-URI error
  (api/index.js:36), a connection error, a TypeError from reading a field of a null body, or
  a validation or duplicate-key error from the database library.
- The database library is abstracted away:
  - An id's ObjectId validity and cast errors are not modelled. Any string is an id, and one
    that is not stored is answered 404.
  - Which ids the store generates is an input (`Env.newId`). A taken id fails the save and is
    answered 500, as a duplicate key would be.
- Non-string `title`/`description` values, `null` fields, and a non-boolean `completed` in a
  request body are not modelled, because casting is done by the database library. A field
  is either absent or a string (or a boolean). A `null` body is modelled, as a read that
  throws.
- Api.TaskStore.List: tasks created at the same instant may come in any order, as the
  sort's ordering among ties is unspecified.
- Api.Serve: the list answer is the parameter `listing`, the database's answer to the sorted
  query. `TaskStore.Handle` produces it with `TaskStore.List`, and its ensures gives the order.
- `fetch`, `alert`, `console`, `window.scrollTo` and `focus` are browser I/O. A request is
  the returned `Outgoing` value. Whether the call resolved is the input `delivered`, whatever
  the HTTP status of the answer.
- ClientRequestsRoute: proved only for ids made of unreserved URL characters (section 2.3 of
  RFC 3986) that are not "." or "..". For other ids the browser's URL resolution rewrites
  the path before it is sent: it removes dot segments, cuts at '#', reads '\' as '/', and
  percent-encodes whitespace and non-ASCII characters. That resolution is not modelled. Store
  ids are 24 hexadecimal digits, which are all unreserved characters.
- SubmittedEditIsStored: the same restriction on the edited id, for the same reason.
- ToggleFlipsStoredTask: the same restriction on the toggled id, for the same reason.
- HandleFormSubmit, ToggleTask and DeleteTask: each handler is modelled as one atomic step.
  In the browser other handlers can run while one waits at an `await` (public/app.js:105,
  112, 121, 132, 137, 173, 176). For example, an `editTask` that runs during a slow submit is
  undone by the submit's later `cancelEdit()`. Those interleavings are not captured.
- A `loadTasks` response that is not an array (for instance a 500 body) is not modelled.
- `escapeHtml` (public/app.js:195-199) depends on the DOM's serialisation.
- `formatDate` (public/app.js:184-193) depends on locale and time zone. An item carries the
  raw `createdAt`.
- The HTML markup and CSS display values of `renderTasks` are reduced to the empty/list
  shape and one item per task.
- Client.Controller.CancelEdit: `taskForm.reset()` restores the inputs' initial values.
  These are taken to be empty and the initial label "Add Task"; index.html is not part of
  this model.
- The long-running server variant of the backend is not part of this model.
