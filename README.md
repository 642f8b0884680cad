# Task-manager backend: a Dafny model of its route logic

This project models the decision logic of an Express/Mongoose task-manager
backend. Users register and wait for an administrator's approval. They then
log in and manage personal tasks. Every task mutation and every password change
leaves a persisted notification. The document store is replaced by in-memory
tables:

- the Task collection is a `map<TaskId, Task>` keyed by a counter that never
  reuses a key;
- the User collection is a `seq<User>` in insertion order;
- the Notification collection is a `seq<Notification>` in insertion order,
  one object (`NotificationLog`) shared by the task and user services.

Modules, one per source file or component:

- `Base` (base.dfy): `Option`, identifiers, HTTP status codes, JavaScript
  truthiness of a string field.
- `Text` (text.dfy): ASCII case folding, substring search. The store's
  case-insensitive regular expressions are modelled by these for literal
  patterns over ASCII letters.
- `NotificationStore` (notification.dfy): `models/Notification.js` and
  `routes/notificationRoutes.js`. Fetch-by-user is a filter function. Clear is
  a method on the collection. Lemmas cover what clear removes and keeps.
- `TaskModel` (task_model.dfy): `models/Task.js`. It holds schema validation
  with the status default (`Validate`) and the post-save hook (`PostSave`).
- `TaskRoutes` (task_routes.dfy): create, update and delete in
  `routes/taskRoutes.js`, as methods of the class `TaskService`.
- `TaskQuery` (task_query.dfy): `GET /tasks/:userId` and `GET /:id` of
  `routes/taskRoutes.js` as pure functions. The filter object the handler
  builds (`BuildQuery`) and how the store evaluates it (`Satisfies`) are
  proved equal to a direct statement of what the filters mean (`Wanted`).
  The query runs over a `seq<Task>`: the documents of the Task collection
  (the values of `TaskService.tasks`) in the store's natural order, which the
  map itself does not record.
- `UserModel` (user_model.dfy): `models/User.js`. It covers the defaults, the
  role enumeration and the unique email index.
- `AuthRoutes` (auth_routes.dfy): `routes/authRoutes.js`. Login is a pure
  function. Register, approve and password update are methods of the class
  `UserService`.

External pieces appear as follows:

- `mongoose.Types.ObjectId.isValid` is a function value given to the
  `TaskService` constructor.
- The bcrypt hash is a function value `hash` given to the `UserService`
  constructor. A password verifies when it hashes to the stored value.
- The clock (`Date.now`, the notification's `date` default) is a parameter
  `now`.
- Dates and deadlines are integer UTC milliseconds. The start of a UTC day is
  therefore integer arithmetic.

Three behaviours of the code worth noting:

- Approving an already-approved user answers 400, not 409.
- `findByIdAndUpdate` runs without update validators. An update may therefore
  store a priority or status outside the schema's enumerations
  (`UpdateBypassesPriorityEnum`). So "every stored task is schema-valid" is
  proved only for the task a create stores, not kept as an invariant of the
  collection.
- The "profile" notification message repeats the plaintext password, as the
  route writes it. `ProfileMessage` states that the message ends with the
  plaintext password.

## Model

| member | source | states |
|---|---|---|
| `NotificationStore.ForUser` | task-manager-backend/routes/notificationRoutes.js:7-14 | the fetch returns only records addressed to the user, and every stored record of that user |
| `NotificationStore.Without` | task-manager-backend/routes/notificationRoutes.js:19 | what remains after deleteMany: exactly the stored records not addressed to the user |
| `NotificationStore.ForUserAppend` | task-manager-backend/models/Notification.js:3-8 | appending records extends each user's fetch by that user's new records only, in order |
| `NotificationStore.ClearPartitions` | task-manager-backend/routes/notificationRoutes.js:19 | clear removes exactly the user's fetch: the removed and remaining records together are the old collection |
| `NotificationStore.FetchAfterClearIsEmpty` | task-manager-backend/routes/notificationRoutes.js:9-20 | a fetch right after a clear returns no record |
| `NotificationStore.ClearKeepsOthers` | task-manager-backend/routes/notificationRoutes.js:19 | clearing one user leaves every other user's notifications untouched and in order |
| `NotificationStore.ClearIdempotent` | task-manager-backend/routes/notificationRoutes.js:17-23 | a second clear changes nothing |
| `NotificationStore.ClearOfAbsentUserIsIdentity` | task-manager-backend/routes/notificationRoutes.js:17-23 | clearing a user without notifications leaves the collection as it is |
| `NotificationStore.NotificationLog.Create` | task-manager-backend/models/Notification.js:3-8 | Notification.create appends one record with the given user, message, type and the current time |
| `NotificationStore.NotificationLog.Clear` | task-manager-backend/routes/notificationRoutes.js:17-23 | DELETE /:userId removes every record of the user and confirms with 200 whether or not any existed |
| `NotificationStore.ClearTwice` | task-manager-backend/routes/notificationRoutes.js:17-23 | two clears both confirm, the second changes nothing, and the user's fetch is then empty |
| `TaskModel.Validate` | task-manager-backend/models/Task.js:4-16 | save succeeds iff every required path is set and the priority (and a given status) is in its enumeration; the stored document is schema-valid, carries the given fields and has status "Pending" when none was given |
| `TaskModel.TaskAddedNote` | task-manager-backend/models/Task.js:22-26 | the hook's record goes to the task's owner, has type "task", the current time and the message "New Task Added: <name>" |
| `TaskModel.PostSave` | task-manager-backend/models/Task.js:19-36 | the post-save hook appends one "task" notification "New Task Added: <name>" to the task's owner; a failing emit is swallowed, and only a failing create loses the record |
| `TaskRoutes.Merge` | task-manager-backend/routes/taskRoutes.js:56 | the update overwrites exactly the fields present in the body and keeps the others |
| `TaskRoutes.MergeIdentityAndIdempotent` | task-manager-backend/routes/taskRoutes.js:56 | an empty body changes nothing; applying the same body twice is applying it once |
| `TaskRoutes.UpdateBypassesPriorityEnum` | task-manager-backend/models/Task.js:13 | an update can store a priority that save would have refused |
| `TaskRoutes.TaskUpdatedNote` | task-manager-backend/routes/taskRoutes.js:63-67 | the update's record goes to the post-update owner, has type "task-updated" and the message "Task updated: <post-update name>" |
| `TaskRoutes.TaskDeletedNote` | task-manager-backend/routes/taskRoutes.js:101-105 | the delete's record goes to the removed task's owner, has type "task-delete" and the message "Task Deleted: <pre-delete name>" |
| `TaskRoutes.TaskService.Save` | task-manager-backend/routes/taskRoutes.js:45 | save stores the validated document under a fresh key and runs the post-save hook; a validation error stores nothing and records nothing |
| `TaskRoutes.TaskService.Create` | task-manager-backend/routes/taskRoutes.js:17-51 | 400 iff a field is missing or the user id is malformed, 500 iff the priority is outside Low/Medium/High; on any failure nothing changes; on 201 exactly one schema-valid task with the given fields, userId and status "Pending" is added, plus the hook's "task" notification |
| `TaskRoutes.TaskService.Update` | task-manager-backend/routes/taskRoutes.js:52-84 | 404 and no change for an unknown id; otherwise the body is merged in and exactly one "task-updated" notification "Task updated: <new name>" goes to the updated task's owner |
| `TaskRoutes.TaskService.Delete` | task-manager-backend/routes/taskRoutes.js:88-122 | 404 and no change for an unknown id; otherwise exactly that task is removed and one "task-delete" notification naming it goes to its owner |
| `TaskRoutes.DeleteTwice` | task-manager-backend/routes/taskRoutes.js:91-105 | deleting the same task twice: 200 then 404, with one "task-delete" notification |
| `TaskRoutes.CreateThenUpdate` | task-manager-backend/routes/taskRoutes.js:45-67 | a successful create then update records a "task" and then a "task-updated" notification, never a second "task" |
| `TaskQuery.DayWindow` | task-manager-backend/routes/taskRoutes.js:143-149 | the date window starts at UTC midnight, ends 86 399 999 ms later, and holds an instant iff it falls on the same UTC day |
| `TaskQuery.BuildQuery` | task-manager-backend/routes/taskRoutes.js:130-158 | the filter always holds the path user id; each other condition is present iff its parameter is truthy; the date range starts on a UTC midnight at or before the date and spans one day |
| `TaskQuery.Satisfies` | task-manager-backend/routes/taskRoutes.js:167 | the store never selects a document of another user, and a filter holding only the user id selects every document of that user |
| `TaskQuery.BuildQueryMeansWanted` | task-manager-backend/routes/taskRoutes.js:130-158 | the filter object the handler builds selects exactly the tasks of the user that meet every truthy parameter (category exactly, priority up to case, same UTC day, search term in name or description up to case) |
| `TaskQuery.Select` | task-manager-backend/routes/taskRoutes.js:167 | the find returns every satisfying document as often as it is stored, and nothing else |
| `TaskQuery.SelectAppend` | task-manager-backend/routes/taskRoutes.js:167 | the find keeps store order: selecting from a concatenation concatenates the selections |
| `TaskQuery.BuildSort` | task-manager-backend/routes/taskRoutes.js:161-164 | no sort iff `deadlineSort` is falsy; ascending iff it is "asc"; descending for any other truthy value |
| `TaskQuery.Arrange` | task-manager-backend/routes/taskRoutes.js:167 | the result is a permutation of the found documents: unchanged with no sort, non-decreasing deadlines for ascending, non-increasing for descending |
| `TaskQuery.FindTasks` | task-manager-backend/routes/taskRoutes.js:125-168 | GET /tasks/:userId returns a permutation of what the built filter selects, and only tasks of the path user |
| `TaskQuery.SortByDeadline` | task-manager-backend/routes/taskRoutes.js:161-167 | the sort is ordered by deadline in the requested direction and is a permutation of its input |
| `TaskQuery.FindTasksExact` | task-manager-backend/routes/taskRoutes.js:125-168 | the query returns exactly the wanted tasks with their multiplicity, and no task of another user |
| `TaskQuery.FindTasksOrder` | task-manager-backend/routes/taskRoutes.js:161-167 | "asc" gives non-decreasing deadlines, any other truthy value non-increasing ones, no value keeps store order |
| `TaskQuery.PriorityIgnoresCase` | task-manager-backend/routes/taskRoutes.js:137-140 | two priority parameters equal up to case give the same answer |
| `TaskQuery.SearchIgnoresCase` | task-manager-backend/routes/taskRoutes.js:153-158 | two search terms equal up to case give the same answer |
| `TaskQuery.ListByUser` | task-manager-backend/routes/taskRoutes.js:12-15 | GET /:id returns exactly the tasks whose userId is the given id |
| `TaskQuery.ListByUserIsUnfilteredQuery` | task-manager-backend/routes/taskRoutes.js:12-15 | the per-user listing equals the query with no parameters, in store order |
| `TaskQuery.DateFilterExample` | task-manager-backend/routes/taskRoutes.js:143-149 | deadlines 2024-01-01T23:00Z and 2024-01-02T01:00Z with date 2024-01-01: only the first is returned |
| `TaskQuery.SearchExample` | task-manager-backend/routes/taskRoutes.js:153-158 | search "foo" matches the name "Foobar" and the description "has foo inside" |
| `Text.ContainsIgnoreCaseIsWindowMatch` | task-manager-backend/routes/taskRoutes.js:155-156 | a case-insensitive pattern search finds exactly the windows equal to the term up to case |
| `UserModel.NewUser` | task-manager-backend/models/User.js:3-9 | a new user is unapproved, has role "user" (a valid role), and stores the given id, name, email and password hash |
| `UserModel.FindByEmail` | task-manager-backend/routes/authRoutes.js:16 | findOne by email returns the first user with that email, or nothing iff no user has it |
| `UserModel.FindByEmailUnique` | task-manager-backend/models/User.js:5 | with unique emails, the lookup finds the one user holding the email |
| `UserModel.AddNewEmail` | task-manager-backend/models/User.js:5 | adding a user whose email is free keeps emails unique, and the lookup then finds the new user |
| `AuthRoutes.Login` | task-manager-backend/routes/authRoutes.js:29-61 | 400 for an unknown email; 403 iff the user is unapproved, whatever the password; 200 iff the user exists, is approved and the password verifies, with that user's profile |
| `AuthRoutes.ProfileMessage` | task-manager-backend/routes/authRoutes.js:119 | the "profile" message ends with the plaintext password |
| `AuthRoutes.LoginMeaning` | task-manager-backend/routes/authRoutes.js:33-47 | on unique emails, login succeeds iff some stored approved user with that email has the password's hash, and answers 403 iff that user is unapproved |
| `AuthRoutes.NewcomerAwaitsApproval` | task-manager-backend/routes/authRoutes.js:19-39 | right after registering, login answers 403 for any password |
| `AuthRoutes.ApprovedUserLogsIn` | task-manager-backend/routes/authRoutes.js:41-47 | after approval, login with the registered password succeeds |
| `AuthRoutes.UserService.Register` | task-manager-backend/routes/authRoutes.js:12-27 | 400 and no change for a taken email; otherwise 201 and exactly one unapproved user storing hash(password) is added under the store's fresh id; emails and ids stay unique and roles valid |
| `AuthRoutes.UserService.Approve` | task-manager-backend/routes/authRoutes.js:73-99 | 400 for a missing email, 404 for an unknown one, 400 for an approved user, each without change; otherwise only that user becomes approved; no notification |
| `AuthRoutes.UserService.UpdatePassword` | task-manager-backend/routes/authRoutes.js:102-137 | 500 and no change when the body has no password, whatever the email, since hashing comes first; 404 and no change or notification for an unknown email; otherwise only that user's password becomes hash(new) and one "profile" notification goes to that user's id |
| `AuthRoutes.ApproveTwice` | task-manager-backend/routes/authRoutes.js:87-92 | approving twice: 200 then 400 |

## Left out

- Real-time `io.emit` broadcasts and the unused `sendNotification` helpers are
  not modelled. They carry no state. A throwing emit in the post-save hook is
  the `EmitFails` case of `PostSave`. After it, the notification is already
  persisted.
- `server.js` is not part of this model. It covers the HTTP and socket
  bootstrap and the `task-added` relay.
- Password hashing and comparison are a function value, not bcrypt. The salt
  is not modelled. Token signing and its two-minute expiry are omitted, so
  `LoginReply` carries no token.
- `ObjectId.isValid` is a parameter. Casting of path ids is not modelled. A
  malformed id in PUT /:id, DELETE /:id, GET /tasks/:userId or the
  notification routes makes the store throw a cast error, answered with 500.
  GET /:id has no catch, so there the request gets no response at all.
- Parsing of the `date` parameter and of deadlines is not modelled. Both are
  integer milliseconds, and an absent or falsy value is `None`.
- Regular-expression metacharacters in `priority` and `search` are not
  modelled. Both are literal case-insensitive comparisons.
- Case folding of non-ASCII letters is not modelled. MongoDB's `i` option
  folds them too; `Text.Lower` folds only A-Z.
- Store and network failures, which answer 500 from the catch blocks, are not
  modelled. Neither are the gap between a task write and its notification
  write, or concurrency between requests. The 500 of a schema validation error
  on create is modelled.
- The `createdAt`/`updatedAt` timestamps of tasks are not modelled.
- `GET /users` is not modelled. It is a full-table read.
- Register and login with a missing email or password are not modelled.
  Mongoose drops an undefined filter value, and bcrypt throws on an undefined
  password. For PUT /:email the missing password is modelled (500).
- Racing registrations that the unique index refuses are not modelled.
- Update bodies with unknown paths, `_id`, `null` values or values that fail
  casting are not modelled.
- TaskQuery.SortByDeadline: fixes the order of tasks with equal deadlines to
  their store order. MongoDB leaves that order unspecified.
- AuthRoutes.Login: the reply holds the whole stored user. The route returns
  a projection of it (id, name, email, role, approved).
