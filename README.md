# Todos: client stores, request validator and backend handler in Dafny

This project models the logic of a personal to-do list application:

- **The synchronising client store** (`src/stores/todosStore.ts`). It keeps the task list twice. One copy is in memory, next to a filter selection. The other is a JSON "mirror" in the browser's localStorage slot `todoList`. `addTodo`, `updateTodo` and `deleteTodo` compute the two copies separately. Memory changes through spread, `map` and `filter`. The mirror is re-parsed and changed in place with `push`, a mutating `forEach`, or `splice` inside `forEach`. After each of their mirror writes the store pushes the mirror list to the backend. `setTodos` writes both copies verbatim and pushes nothing. `setFilterStatus` touches neither copy.
- **The local-only client store** (`src/app/store.ts`). It runs the same algorithm without the push.
- **The PUT body validator** (`infrastructure/src/lambda/schemas/todosRequestValidationSchema.ts`). It is a declarative shape check over JSON.
- **The backend handler** (`infrastructure/src/lambda/todosHandler.ts`). It decides each request at its first matching branch: missing token, rejected token, missing subject, then PUT or GET against a table keyed by subject.

Modules:

| file | module | contents |
|---|---|---|
| `todo_lists.dfy` | `TodoLists` | the `Todo` record and the localStorage `Slot`; the memory updates as functions; the mirror loops as methods proved against specification functions; lemmas relating the two copies |
| `todos_store.dfy` | `TodosStore` | class `TodosStore`: fields `memory`, `mirror`, `filterStatus` and the ghost log `pushes` of `putTodoList` calls |
| `app_store.dfy` | `AppStore` | class `AppStore`: the same without `pushes` |
| `request_schema.dfy` | `RequestSchema` | a JSON datatype, the shape predicate, the parser that keeps only the schema's keys, the encoder and round-trip lemmas |
| `todos_handler.dfy` | `TodosHandler` | `split(" ")`, the authenticated subject, and `Handle`, a method from a request and a table to a response and a new table |
| `wrappers.dfy` | `Wrappers` | `Option` |

The localStorage slot is modelled as one of five cases:

- `Missing`: no item.
- `Blank`: the empty string. It is falsy like `null`, but `JSON.parse` throws on it.
- `Corrupt`: text `JSON.parse` rejects.
- `JsonNull`: the text `null`. It parses, but `push`/`forEach` on it throws.
- `Stored(list)`: a JSON array of tasks.

Both stores read and write this same slot, `"todoList"`. In the application, `AddTodoForm` uses the synchronising store, while `TodoItem` and `AppContent` use the local-only one. Each class's `mirror` field stands for the slot's content at the moment one of its methods is called. A write by the other store, or by another browser tab, is an update of that field which the model does not make itself.

`JSON.stringify` and `JSON.parse` are treated as identity on task lists. A mutator that throws returns `Threw`. The state it changed before the throw stays changed: `addTodo` has already appended to memory.

## Behaviour worth knowing

- `addTodo` appends the new task at the end of both copies.
- The mirror side of `updateTodo` copies only `status` and `title`. The memory side replaces the whole entry, so the two copies can differ in `time` (`TodoLists.UpdateCopiesAgree`).
- `deleteTodo` removes every match from memory. The mirror's splice loop skips the entry right after each removal. The two agree when ids are unique (`TodoLists.SpliceDeleteIsFilter`) and differ on an adjacent duplicate (`TodoLists.SpliceDeleteKeepsAdjacentDuplicate`).
- `setTodos` pushes nothing in either store.
- `TodosStore` takes the user id as an argument of `addTodo`, `updateTodo` and `deleteTodo` and passes it on to the push unchecked. `AppStore` has no user id at all.
- A PUT body that fails `JSON.parse` or the schema throws inside the handler's `try` and gets 500.

## Model

| member | source | states |
|---|---|---|
| `TodoLists.ReplaceMatching` | src/stores/todosStore.ts:69-73 | memory update: same length; every entry with the updated id becomes the updated task as a whole; every other entry is untouched |
| `TodoLists.Without` | src/stores/todosStore.ts:87-91 | memory delete: the result is a subsequence of the list, has no entry with the id, keeps every entry without it, and is shorter by exactly the number of entries with the id |
| `TodoLists.WithoutDetermined` | src/stores/todosStore.ts:87-91 | `Without`'s contract fixes its result: any subsequence with no entry carrying the id and of that length is the filtered list |
| `TodoLists.PatchMatching` | src/stores/todosStore.ts:62-67 | mirror update: same length and order; every entry keeps its id and time; matching entries take the new status and title; others are untouched |
| `TodoLists.SpliceDelete` | src/stores/todosStore.ts:80-85 | mirror delete by splice-in-forEach: yields a subsequence of the list, never longer |
| `TodoLists.PatchEach` | src/stores/todosStore.ts:61-67 | the `forEach` that assigns `status`/`title` in place computes exactly `PatchMatching` |
| `TodoLists.SpliceEach` | src/stores/todosStore.ts:80-85 | the `forEach` with `splice`, which visits at most the starting length and skips vanished indices, computes exactly `SpliceDelete` |
| `TodoLists.WithoutAbsent` | src/stores/todosStore.ts:87-91 | deleting an id no entry has leaves memory unchanged |
| `TodoLists.SpliceDeleteAbsent` | src/stores/todosStore.ts:80-85 | deleting an id no entry has leaves the mirror unchanged |
| `TodoLists.SpliceDeleteIsFilter` | src/stores/todosStore.ts:80-91 | with unique ids, the mirror's splice deletion equals the memory's filter deletion |
| `TodoLists.SpliceDeleteRemovesOne` | src/stores/todosStore.ts:80-85 | with unique ids, the splice loop removes exactly one entry when the id is present, and none otherwise |
| `TodoLists.WithoutUniqueLength` | src/stores/todosStore.ts:87-91 | with unique ids, the filter removes one entry when the id is present, and none otherwise |
| `TodoLists.SpliceDeleteKeepsAdjacentDuplicate` | src/stores/todosStore.ts:80-91 | with two adjacent entries sharing an id, the filter removes both and the splice loop only the first |
| `TodoLists.WithoutIdempotent` | src/stores/todosStore.ts:87-91 | deleting the same id twice from memory gives the same list as deleting it once |
| `TodoLists.UpdateCopiesAgree` | src/stores/todosStore.ts:61-73 | mirror update and memory update agree on id, title and status at every position; they are equal when the matches' time already equals the updated time |
| `TodoLists.UpdateAbsent` | src/stores/todosStore.ts:61-73 | updating an id no entry has leaves both copies unchanged |
| `TodoLists.SubseqKeepsUnique` | src/stores/todosStore.ts:80-91 | a subsequence of a list with unique ids has unique ids, so deletions keep ids unique |
| `TodosStore.TodosStore.constructor` | src/stores/todosStore.ts:18-29 | initial memory: the stored list; `[]` when the slot is missing, blank, unparsable or `null`; filter `"all"`; nothing pushed |
| `TodosStore.TodosStore.SetFilterStatus` | src/stores/todosStore.ts:28 | sets only `filterStatus` |
| `TodosStore.TodosStore.AddTodo` | src/stores/todosStore.ts:30-57 | memory gets the task appended whatever the mirror holds; the mirror becomes parsed list + task, or `[todo]` when absent; exactly one push of that mirror list; a corrupt or `null` slot throws after the memory update, with no mirror write and no push; keeps memory and mirror equal |
| `TodosStore.TodosStore.UpdateTodo` | src/stores/todosStore.ts:58-76 | with a stored mirror: mirror becomes `PatchMatching`, memory becomes `ReplaceMatching`, one push of the mirror list; with no mirror: nothing changes and nothing is pushed; from equal copies, the results agree except on time |
| `TodosStore.TodosStore.DeleteTodo` | src/stores/todosStore.ts:77-94 | with a stored mirror: mirror becomes `SpliceDelete`, memory becomes `Without`, one push of the mirror list; with no mirror: nothing changes and nothing is pushed; from equal copies with unique ids, they stay equal and unique |
| `TodosStore.TodosStore.SetTodos` | src/stores/todosStore.ts:95-98 | memory and mirror become the list verbatim; no push; filter unchanged |
| `AppStore.AppStore.constructor` | src/app/store.ts:15-23 | loading requires a slot `JSON.parse` accepts (there is no catch); initial memory: the stored list, or `[]` for a missing or `null` slot |
| `AppStore.AppStore.SetFilterState` | src/app/store.ts:22 | sets only `filterStatus` |
| `AppStore.AppStore.AddTodo` | src/app/store.ts:24-45 | appends to memory; appends to the parsed mirror or writes `[todo]`; throws on a corrupt or `null` slot; keeps equal copies equal |
| `AppStore.AppStore.UpdateTodo` | src/app/store.ts:46-63 | mirror patched on status and title, memory replaced on match; a complete no-op with no mirror |
| `AppStore.AppStore.DeleteTodo` | src/app/store.ts:64-80 | mirror spliced, memory filtered; a complete no-op with no mirror; equal copies with unique ids stay equal |
| `AppStore.AppStore.SetTodos` | src/app/store.ts:81-83 | memory and mirror become the list verbatim |
| `RequestSchema.CommentShape` | infrastructure/src/lambda/schemas/todosRequestValidationSchema.ts:12-15 | only objects are comments; any object with string `comment` and `time` is one, whatever other keys it has; a `null` time is refused |
| `RequestSchema.CommentsShape` | infrastructure/src/lambda/schemas/todosRequestValidationSchema.ts:10-17 | `comments` may be absent; an empty array is accepted; `null` is refused |
| `RequestSchema.EntryShape` | infrastructure/src/lambda/schemas/todosRequestValidationSchema.ts:5-18 | an accepted task is an object with string `id`, `title`, `status` and `time`; any such object without `comments` is accepted, whatever its status text |
| `RequestSchema.RequestShape` | infrastructure/src/lambda/schemas/todosRequestValidationSchema.ts:3-19 | a body is accepted iff it is an object whose `todoList` is an array in which every element is an accepted task |
| `RequestSchema.ParseComment` | infrastructure/src/lambda/schemas/todosRequestValidationSchema.ts:12-15 | a comment parses iff it has the comment shape, and then to exactly its `comment` and `time` strings, other keys dropped |
| `RequestSchema.ParseComments` | infrastructure/src/lambda/schemas/todosRequestValidationSchema.ts:10-17 | a comment array parses iff every element does; element i of the result is what element i parses to |
| `RequestSchema.ParseEntry` | infrastructure/src/lambda/schemas/todosRequestValidationSchema.ts:5-18 | a task parses iff it has the task shape; the result carries its `id`, `title`, `status` and `time` strings; comments are absent iff the key is, and otherwise are what the comment array parses to |
| `RequestSchema.ParseEntries` | infrastructure/src/lambda/schemas/todosRequestValidationSchema.ts:4-19 | a task array parses iff every element does, with one task per element |
| `RequestSchema.ParseEntriesElementwise` | infrastructure/src/lambda/schemas/todosRequestValidationSchema.ts:4-19 | in an accepted task array, task i of the result is exactly what element i parses to: its four strings and its comments, other keys dropped |
| `RequestSchema.ParseRequest` | infrastructure/src/lambda/schemas/todosRequestValidationSchema.ts:3-19 | a body parses iff it is an object whose `todoList` is an array of valid tasks, with one task per element |
| `RequestSchema.ParseRequestElementwise` | infrastructure/src/lambda/schemas/todosRequestValidationSchema.ts:3-19 | an accepted body parses to the element-by-element parse of its `todoList` |
| `RequestSchema.CommentsRoundTrip` | infrastructure/src/lambda/schemas/todosRequestValidationSchema.ts:10-17 | every encoded comment list parses back to itself |
| `RequestSchema.EntryRoundTrip` | infrastructure/src/lambda/schemas/todosRequestValidationSchema.ts:5-18 | every encoded task, with or without comments and with any status text, parses back to itself |
| `RequestSchema.EntriesRoundTrip` | infrastructure/src/lambda/schemas/todosRequestValidationSchema.ts:4-19 | every encoded task list parses back to itself |
| `RequestSchema.RequestRoundTrip` | infrastructure/src/lambda/schemas/todosRequestValidationSchema.ts:3-19 | every `{todoList}` body, the empty list included, is accepted and parses back to its list |
| `RequestSchema.ClientBodyRoundTrip` | src/http/Client.ts:10-14 | the body `putTodoList` sends, `{ id: userId, todoList }`, is accepted by the schema and parses back to the list sent; the extra `id` is dropped |
| `RequestSchema.EntriesAppend` | infrastructure/src/lambda/schemas/todosRequestValidationSchema.ts:4-19 | a concatenated task array is accepted iff both parts are, and parses to the parts joined |
| `RequestSchema.EntryIgnoresUnknownKey` | infrastructure/src/lambda/schemas/todosRequestValidationSchema.ts:5-18 | a key outside the schema changes neither acceptance nor the parsed task |
| `RequestSchema.RequestNeedsList` | infrastructure/src/lambda/schemas/todosRequestValidationSchema.ts:3-4 | a body without an array under `todoList` is refused |
| `RequestSchema.CommentsMustBeArray` | infrastructure/src/lambda/schemas/todosRequestValidationSchema.ts:10-17 | a present `comments` that is not an array, `null` included, is refused |
| `TodosHandler.Split` | infrastructure/src/lambda/todosHandler.ts:21 | `split` yields at least one piece; no piece contains the separator; there are two or more pieces iff the text contains the separator |
| `TodosHandler.JoinSplit` | infrastructure/src/lambda/todosHandler.ts:21 | joining the pieces with the separator gives back the header |
| `TodosHandler.BearerTokenOf` | infrastructure/src/lambda/todosHandler.ts:21 | `Bearer <token>` yields the token; a header with no space yields none; a header ending in the space yields the empty (falsy) token |
| `TodosHandler.BearerToken` | infrastructure/src/lambda/todosHandler.ts:21 | `Authorization?.split(" ")[1]`: a token exists iff the header is present and contains a space, and it never contains a space |
| `TodosHandler.AuthOn` | infrastructure/src/lambda/todosHandler.ts:16-20 | authentication is on iff `AUTH` is unset or exactly `"true"` |
| `TodosHandler.ParsedBody` | infrastructure/src/lambda/todosHandler.ts:86-88 | the body yields a list iff `JSON.parse` succeeds and the result has the request shape; the list has one task per element of `todoList`, and task i is what element i parses to |
| `TodosHandler.Subject` | infrastructure/src/lambda/todosHandler.ts:16-75 | the acting subject is never empty. It is `test` when `AUTH` is anything but `"true"` (unset means `"true"`). With auth on there is none when the header gives no token or the verifier rejects it, and none when the verified claims have a missing or empty `sub`; otherwise it is that `sub` |
| `TodosHandler.Handle` | infrastructure/src/lambda/todosHandler.ts:12-121 | every response carries the default cross-origin headers. It is 401 "Unauthorized" iff there is no subject. PUT with no or empty body: 400 "No request body found". A body failing JSON or the schema, or a failing store: 500. A valid PUT: 200 with the record, stored under the subject. GET: 500 on a failing store, 404 "No todo list found" without a record, else 200 with it. Any other method: 200 with no body. Only a successful PUT writes, and never another subject's record |
| `TodosHandler.PutThenGet` | infrastructure/src/lambda/todosHandler.ts:86-105 | a PUT of any encoded list, then a GET by the same subject, returns that list as the subject's record |

## Left out

- The network push (`src/http/Client.ts`) is recorded in `TodosStore.pushes`. It is not performed. Its asynchronous, fire-and-forget ordering and the failures it may raise are not modelled, because they are concurrency and I/O.
- The JWT check (`infrastructure/src/lambda/auth0/validateToken.ts`: key-set fetch, signature, issuer and audience) is the oracle `verify`. It either rejects or returns a possibly missing `sub`. A non-string `sub` claim is not modelled.
- `JSON.parse` of the request body is an input: the parsed value, or none when it throws.
- The localStorage slot's other non-array JSON texts (numbers, objects) are not modelled. The stores only ever write task lists.
- The table library (dynamoose) is a map from subject to `Record`. Not modelled:
  - its client set-up, which depends on `ENV`;
  - table naming and the model creation;
  - the server timestamps `created_at` and `updated`;
  - the database schema's handling of attributes. `infrastructure/src/lambda/schemas/todosDatabaseSchema.ts:6-18` declares only `id`, `title`, `status` and `time` per task. Under the library's default handling of undeclared attributes, a task's `comments` are then not stored, so `TodosHandler.PutThenGet`'s "returns that list" holds of the abstract table only.

  The stored list is the list the validator returns. Any failure of a table operation is the single input `storeFault`.
- The 500 body is `JSON.stringify(error)` of an exception. It is modelled as the opaque `ErrorBody`.
- Console logging and toasts are output only.
- `infrastructure/src/lambda/saveTodosHandler.ts` is not part of this model. It is a hard-coded save with no logic.
- The React components, the date formatting, the user store and the deployment files are not part of this model.
- Comment operations, prepend-on-add, the "User id not found" error and the initial remote load belong to a later revision of the store. The modelled source does not have them.
