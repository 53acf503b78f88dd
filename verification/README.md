# Owner-scoped task store

A model of the task routes of a small task-tracking REST backend
(`server/routes/tasks.js`). The MongoDB collection becomes an immutable map
from task identifier to task record, and each of the eight route handlers
becomes a pure operation on that map that returns a reply (`Ok`, `NotFound`
or `Unauthorized`) and, for the mutating routes, the next map.

- `ObjectIds` (`object_ids.dfy`): task identifiers and the cast a path
  parameter goes through. A parameter that is not 24 hexadecimal digits fails
  the cast. The handlers answer that failure with "Task not found".
- `Text` (`text.dfy`): ASCII case folding and substring search, used by the
  title search.
- `Tasks` (`tasks.dfy`): the task record, the collection, creation with
  defaults (`NewTask`) and partial update by patch (`ApplyPatch`).
- `Queries` (`queries.dfy`): the owner-scoped find followed by a sort on
  creation time, descending. `Lists(r, store, want)` says that `r` holds each
  stored record whose identifier is in `want` exactly once, holds nothing else,
  and is newest first.
- `TaskRoutes` (`routes.dfy`): the eight handlers.
- `RouteProperties` (`properties.dfy`): properties that relate several
  requests.

The caller's identity, the new identifier chosen on insert, and the current
time are parameters. A new identifier must not already be in the map. Every
operation keeps the map invariant `ValidStore`: each record sits under its
own identifier.

The create handler passes the body's fields through as they are
(`server/routes/tasks.js:26-34`):
- It does not check that a title is present. Any required-field check
  the schema makes on save (line 36) is left out.
- It passes any non-empty priority through (line 31). Any enum check the
  schema makes on save is left out.
- It turns an empty or missing priority or due date into the default, because
  it uses JavaScript's `||`.

## Model

| member | source | states |
|---|---|---|
| ObjectIds.Cast | server/routes/tasks.js:49 | a path parameter casts to an identifier exactly when it is 24 hex digits; the identifier equals the parameter up to case |
| ObjectIds.CastRoundTrip | server/routes/tasks.js:49 | a stored identifier sent back as the path parameter casts to itself |
| ObjectIds.CastIgnoresCase | server/routes/tasks.js:49 | a parameter and its lower-case spelling cast to the same result, including failure |
| Text.ContainsIsOccurrence | server/routes/tasks.js:189 | the executable substring test holds exactly when the pattern occurs at some offset (both directions) |
| Text.TitleMatches | server/routes/tasks.js:189 | a title matches a keyword, ignoring case, exactly when the lower-case keyword occurs at some offset of the lower-case title |
| Text.MissingFirstLetter | server/routes/tasks.js:189 | a keyword whose first letter appears nowhere in the title, in either case, does not match |
| Tasks.NewTask | server/routes/tasks.js:26-34 | a new record is owned by the caller and stamped with the creation time, and its completion flag starts false (the schema default); a missing `tags` becomes `[]`, a missing or empty priority becomes "Medium", a missing or empty due date becomes null; title, description and category pass through |
| Tasks.ApplyPatch | server/routes/tasks.js:78-85 | each updatable field takes the patch's value when the body defines it and keeps its old value otherwise; identifier, owner and creation time never change |
| Tasks.NoChangeIsIdentity | server/routes/tasks.js:78-85 | a body that defines no updatable field leaves the record as it was |
| Tasks.ApplyPatchIdempotent | server/routes/tasks.js:101-105 | applying the same patch twice equals applying it once |
| Tasks.ApplyPatchThen | server/routes/tasks.js:101-105 | two successive patches equal one merged patch in which the later defined fields win |
| Queries.Newest | server/routes/tasks.js:11 | picks a pending identifier whose record is at least as new as every other pending record |
| Queries.Query | server/routes/tasks.js:11 | returns each stored record the filter keeps exactly once, nothing else, newest first |
| Queries.FilterLists | server/routes/tasks.js:151-154 | filtering a correct answer, keeping its order, gives a correct answer to the narrower query |
| Queries.ListsLength | server/routes/tasks.js:11 | an answer has exactly as many records as there are matching identifiers |
| Queries.ListsUnique | server/routes/tasks.js:11 | when no two matching records share a creation time, the list contract has exactly one answer |
| TaskRoutes.Guard | server/routes/tasks.js:49-59 | NotFound exactly when the parameter is malformed or names no record; otherwise Unauthorized exactly when someone else owns the record; Ok only for the owner |
| TaskRoutes.ListTasks | server/routes/tasks.js:9-12 | the caller's tasks and no others, each once, newest first |
| TaskRoutes.CreateTask | server/routes/tasks.js:22-37 | returns the new record and adds exactly one entry under the new identifier; every existing entry is unchanged |
| TaskRoutes.GetTask | server/routes/tasks.js:47-66 | NotFound for a malformed or unknown identifier, Unauthorized for another owner's task, otherwise the stored record, which the caller owns |
| TaskRoutes.UpdateTask | server/routes/tasks.js:74-113 | same checks and order as get; a rejected update leaves the map unchanged; a successful one replaces only that entry with the patched record and returns it |
| TaskRoutes.DeleteTask | server/routes/tasks.js:120-142 | same checks and order as get; a rejected delete leaves the map unchanged; a successful one removes exactly that identifier and keeps every other entry |
| TaskRoutes.TasksByCategory | server/routes/tasks.js:149-156 | the caller's tasks whose category equals the parameter exactly, each once, newest first |
| TaskRoutes.StatusFlag | server/routes/tasks.js:167 | the status token selects completed tasks exactly when it is the case-sensitive literal "completed"; every other token selects uncompleted ones |
| TaskRoutes.TasksByStatus | server/routes/tasks.js:166-175 | for the token "completed", the caller's completed tasks; for any other token, the caller's uncompleted tasks; each once, newest first |
| TaskRoutes.SearchTasks | server/routes/tasks.js:185-192 | the caller's tasks that have a title containing the keyword, ignoring case, each once, newest first |
| RouteProperties.CreateThenGet | server/routes/tasks.js:26-37 | the creator reads back the record just created, by its identifier |
| RouteProperties.CreatedTaskIsPrivate | server/routes/tasks.js:57-59 | any other user who asks for a new task gets Unauthorized |
| RouteProperties.UpdateThenGet | server/routes/tasks.js:101-107 | after a successful update, a get with the same identifier returns the updated record |
| RouteProperties.UpdateIdempotent | server/routes/tasks.js:74-107 | repeating an update gives the same reply and the same map as sending it once |
| RouteProperties.DeleteTwice | server/routes/tasks.js:122-136 | after a successful delete, a second delete or a get with that identifier is NotFound for every caller, and the map stays unchanged |
| RouteProperties.HandlersKeepOwners | server/routes/tasks.js:33 | create, update and delete never change the identifier, owner or creation time of a record that survives |
| RouteProperties.HandlersKeepStoreValid | server/routes/tasks.js:36 | create, update and delete keep every record under its own identifier |
| RouteProperties.ListedAreOwned | server/routes/tasks.js:11 | a list for the caller contains only the caller's tasks and contains every one of them |
| RouteProperties.CategoryIsFilteredList | server/routes/tasks.js:151-154 | the category list is the caller's list with the exact-match filter applied |
| RouteProperties.StatusIsFilteredList | server/routes/tasks.js:167-173 | the status list is the caller's list filtered on the flag that the token selects |
| RouteProperties.SearchFindsAtStart | server/routes/tasks.js:189 | "mile" matches "Milestone review" |
| RouteProperties.SearchFindsInside | server/routes/tasks.js:189 | "mile" matches "Submit mile tax" |
| RouteProperties.SearchMissesUnrelated | server/routes/tasks.js:189 | "mile" does not match "Project kickoff" |

## Left out

- `server/index.js`: server start-up, the database connection with its fallback to an in-memory server, middleware and `listen`. All of it is I/O and configuration.
- The `auth` middleware and token checking (`server/middleware/auth.js` is not part of this model). The caller's identifier is a parameter, and ownership is a comparison of identifier strings.
- The task schema (`server/models/Task.js` is not part of this model): required-field and enum validation, casting of body values to the schema's types, and any `updatedAt` timestamp.
- Tasks.NewTask: a new task's `completed` is false. The handler never sets it, so this value is assumed from the schema's default, which is not modelled.
- The generic 500 "Server error" replies and the `console.error` logging. A database failure is outside the model.
- How the database chooses the identifier and creation time of a new task. Both are parameters, and the identifier must be unused.
- The race between `findById` and the later update or delete. Each request is one atomic step.
- The order among tasks with equal creation times, which the code leaves unspecified. `Queries.Newest` may pick any of them.
- Casts of identifiers given as 12-byte strings or as ObjectId values. A path parameter is always a string, and only the 24-hex-digit form is modelled.
- JSON `null` for `tags`, `completed` or `priority` in an update body. The model gives these fields non-nullable types.
- JavaScript falsy values other than a missing field, `null` or `""` (`0`, `false`, `NaN`) in a creation body. The model's body fields are strings.
- TaskRoutes.SearchTasks: the keyword is matched as literal text with ASCII case folding. Regular-expression metacharacters and Unicode case folding, which `$regex` with the `i` option would apply, are not modelled.
