# Task store of task-organizer, modelled in Dafny

task-organizer is a small HTTP API for "task" records (`id`, `title`,
`completed`) kept in etcd. This project models its core: the id counter of
`models/Tasks.go`, the six canonical handlers of `handlers/handlers.go`
(list, get, create, update, delete, delete-all) and the six per-file handler
variants in `handlers/*.go`, each under its own name.

The state is two things:

- the etcd keyspace, `Etcd.Client.kv: map<string, Stored>`, where a stored
  value is already decoded: `Valid(task)` when `json.Unmarshal` succeeds,
  `Corrupt` when it fails;
- the package-level counter, `Models.IdGenerator.counter`, with a ghost
  history `issued` of the ids it handed out.

Every handler is a method that answers with a `Gin.Response` (status and JSON
body). Each backend call that can fail (a timeout, a lost connection) takes a
flag saying whether it fails: `fetchFails`, `scanFails`, `putFails`,
`deleteFails`. A bulk delete takes `firstFailure`, the index of the first
delete call that the backend refuses. The request context of the variant
handlers is a map from key to "a `*models.Handler`" or "something else".

A prefix scan (`Etcd.Range`) returns every key under the prefix once, in
ascending byte order. That is the order etcd's range responses use. The
variant `GetTask` of `handlers/getTaskByID.go` answers with the first entry
of that scan, i.e. the least key under `tasks/`.

Module layout: `Decimal` (strconv.Itoa), `Models` (models/Tasks.go), `Etcd`
(keyspace, key order, client), `Gin` (request bodies, context, responses),
`Handlers` (handlers/handlers.go), one module per variant file
(`UpdateTaskHandler`, `CreateTaskHandler`, `DeleteTaskHandler`,
`GetAllTasksHandler`, `GetTaskByIdHandler`, `DeleteAllTasksHandler`),
`Routers` (the two routes whose handlers read a context key nobody sets) and
`StoreProperties` (properties that relate several operations).

Where the code does something its own comments or names do not suggest, the
model follows the code:

- Update replaces the title only. `completed` keeps its stored value, even
  though the request carries one (models/Tasks.go:16 calls it the new
  completion status) and the answer echoes it.
- Create draws an id before it checks the title. A rejected empty title
  still uses up an id.
- The list handler sorts with a comparator that dereferences both ids. If two
  or more tasks are listed and one of them was stored without an id, the
  handler panics. Gin's recovery middleware then answers 500 (`Panicked`).
  A comparison sort compares every element when there are two or more, so
  this happens whatever the order.
- `counter++` on Go's 64-bit `int` wraps from the largest int64 to the
  smallest. `GenerateUniqueID` models that wrap-around. Ids are at least 1
  and strictly increasing only for the first 2^63 − 1 calls.

## Model

| member | source | states |
|---|---|---|
| `Decimal.Itoa` | handlers/handlers.go:140 | the decimal text of an id: at least one character, a leading '-' exactly for negative numbers, and no leading zero after it unless the number is 0 |
| `Decimal.ItoaRoundTrip` | handlers/handlers.go:140 | parsing the text that Itoa writes gives back the number, so no information is lost |
| `Decimal.ItoaInjective` | handlers/handlers.go:140 | distinct ids are written as distinct texts |
| `Models.WrapInt64` | models/Tasks.go:23 | `counter++` on a 64-bit int: identity inside the int64 range, otherwise congruent modulo 2^64 |
| `Models.IdGenerator.constructor` | models/Tasks.go:4 | the counter starts at 1 and nothing has been issued |
| `Models.IdGenerator.GenerateUniqueID` | models/Tasks.go:21-25 | returns the counter's old value, appends it to the history and adds 1, wrapping to MinInt64 after MaxInt64; the counter stays the id of the next call |
| `Models.FirstIdIsOne` | models/Tasks.go:4 | the first id of a process is 1 |
| `Models.IdsIncreaseBeforeWrap` | models/Tasks.go:21-25 | for the first 2^63 − 1 calls, ids are at least 1 and strictly increasing |
| `Models.IdsDistinct` | models/Tasks.go:21-25 | the ids of the first 2^64 calls of a process are pairwise distinct |
| `Models.IssuedDistinct` | models/Tasks.go:21-25 | a generator's history holds pairwise distinct ids while fewer than 2^64 were issued |
| `Etcd.Range` | handlers/handlers.go:45 | a prefix scan returns exactly the keys under the prefix, each once, in ascending byte order |
| `Etcd.RangeStartsWithLeast` | handlers/getTaskByID.go:40-51 | `resp.Kvs[0]` of a non-empty scan is the least key under the prefix |
| `Etcd.Client.Put` | handlers/handlers.go:140 | an upsert of one key, or no change when the backend fails |
| `Etcd.Client.Delete` | handlers/handlers.go:230 | removal of one key (no error when absent), or no change when the backend fails |
| `Gin.FetchHandler` | handlers/updateTask.go:26-36 | the context lookup passes exactly when the key holds a handler; otherwise 500 "Failed to fetch handler" (absent) or "Invalid handler type" (a value of another type) |
| `Handlers.TaskKeyInjective` | handlers/handlers.go:140 | distinct ids get distinct keys `tasks/<id>` |
| `Handlers.DecodeEntries` | handlers/handlers.go:52-62 | succeeds exactly when every scanned entry decodes, then yields one task per key in scan order; otherwise yields nothing (no partial result) |
| `Handlers.SortById` | handlers/handlers.go:65-67 | the result is sorted by ascending id and is a permutation of the input |
| `Handlers.GetAllTasks` | handlers/handlers.go:43-70 | scan error 500; any undecodable entry 500 with no list; a nil id among two or more tasks 500 by panic; otherwise 200 with the decoded tasks under `tasks/`, one per key, sorted by id; the keyspace is only read |
| `Handlers.GetTask` | handlers/handlers.go:74-101 | read error 500; absent key 404; undecodable value 500; otherwise 200 with the stored task; the keyspace is only read |
| `Handlers.CreateWritesFreshKey` | handlers/handlers.go:120-140 | when every `tasks/<n>` key has n below the counter, the key Create writes is new |
| `Handlers.CreateKeepsKeysBelow` | handlers/handlers.go:120-140 | storing under the counter and advancing it keeps every `tasks/<n>` key's n below the counter |
| `Handlers.FewerKeysKeepKeysBelow` | handlers/handlers.go:150-269 | a keyspace that only loses keys or has values rewritten keeps every `tasks/<n>` key's n below the counter |
| `Handlers.UpdateKeepsKeysBelow` | handlers/handlers.go:150-206 | every outcome of Update keeps every `tasks/<n>` key's n below the counter |
| `Handlers.DeleteKeepsKeysBelow` | handlers/handlers.go:210-238 | every outcome of Delete keeps every `tasks/<n>` key's n below the counter |
| `Handlers.DeleteAllKeepsKeysBelow` | handlers/handlers.go:242-269 | every outcome of a bulk delete, partial failures included, keeps every `tasks/<n>` key's n below the counter |
| `Handlers.CreateTask` | handlers/handlers.go:105-146 | malformed body 400; a client-supplied id 400 with no id drawn and nothing written; otherwise an id is drawn first, then an empty title 400 and a failed put 500 write nothing; success 201 writes exactly `tasks/<id>` with {id, title, completed} and answers that task; it never overwrites a key while the counter is above every stored id, and keeps that invariant |
| `Handlers.Retitled` | handlers/handlers.go:189 | the stored task with the new title; id and completed are kept |
| `Handlers.UpdateTask` | handlers/handlers.go:150-206 | read error or absent key 404, checked before the body; undecodable value 500; malformed body or empty title 400; failed put 500; success 200 echoing the request and changing only that key's title |
| `Handlers.DeleteTask` | handlers/handlers.go:210-238 | read error 500; absent key 404; failed delete 500; success 200 removing exactly that key |
| `Handlers.DeleteKeys` | handlers/handlers.go:260-266 | after i successful deletes exactly the first i scanned keys are gone; the first refused delete stops the loop and earlier deletes stay done |
| `Handlers.DeleteAllTasks` | handlers/handlers.go:242-269 | scan error 500; nothing under `tasks/` 404 "No tasks to delete"; a failed delete at index k 500 with keys 0..k-1 removed; success 200 with every scanned key removed |
| `UpdateTaskHandler.UpdateTask` | handlers/updateTask.go:25-91 | a missing or mistyped "handler" 500 with no change; otherwise as the canonical update, a read error answered 404 |
| `CreateTaskHandler.CreateTask` | handlers/createTask.go:24-76 | a missing or mistyped "client" 500 with no id drawn and nothing written; otherwise as the canonical create with the text "Idea and owner cannot be empty"; a failed put has still used up an id |
| `DeleteTaskHandler.DeleteTask` | handlers/deleteTask.go:24-62 | a missing or mistyped "handler" 500 with no change; otherwise as the canonical delete, a read error answered 500 |
| `GetAllTasksHandler.GetAllTasks` | handlers/getAllTasks.go:24-60 | a missing or mistyped "client" 500; otherwise as the canonical list; the keyspace is only read |
| `GetTaskByIdHandler.GetTask` | handlers/getTaskByID.go:25-57 | a missing or mistyped "handler" 500; scan error 500; 404 exactly when nothing is under `tasks/`; otherwise the entry with the least key: 500 when it does not decode, else 200 with its task |
| `GetTaskByIdHandler.AnswerIgnoresId` | handlers/getTaskByID.go:40 | the answer is the same whatever id is requested |
| `GetTaskByIdHandler.AnswersWithAnotherTask` | handlers/getTaskByID.go:40-56 | with only task 1 stored, a request for id 7 answers 200 with task 1, where the canonical GetTask answers 404 |
| `DeleteAllTasksHandler.DeleteAllTasks` | handlers/deleteAllTasks.go:21-58 | a missing or mistyped "handler" 500 with no change; otherwise as the canonical bulk delete, but 201 on success |
| `Routers.RouteContextHasNoClient` | routers/routers.go:78-81 | the router's context holds "handler" and not "client" |
| `Routers.PostTasks` | routers/routers.go:78-81 | POST /tasks always answers 500 "Failed to fetch handler", draws no id and writes nothing |
| `Routers.GetTasks` | routers/routers.go:68-71 | GET /tasks always answers 500 "Failed to fetch handler" |
| `StoreProperties.GetAfterCreate` | handlers/handlers.go:120-145 | reading `Itoa(id)` after a successful Create answers 200 with the created task, whose id is the drawn one |
| `StoreProperties.CreateRejectsWithoutWriting` | handlers/handlers.go:114-127 | a client-supplied id or an empty title answers 400 and leaves the keyspace unchanged |
| `StoreProperties.UpdateChangesOnlyTitle` | handlers/handlers.go:189-205 | a successful update keeps the key set, replaces only that task's title, keeps its id and completed, and answers with the request |
| `StoreProperties.UpdateIdempotent` | handlers/handlers.go:189-199 | applying the same update twice leaves the same keyspace and answer as applying it once |
| `StoreProperties.UpdateOfAbsentTask` | handlers/handlers.go:155-165 | updating an absent task answers 404 whatever the body, and writes nothing |
| `StoreProperties.GetAfterDelete` | handlers/handlers.go:215-237 | after a successful delete, reading the same id answers 404, and every other key is still there with its value |
| `StoreProperties.DeleteAllKeepsOtherKeys` | handlers/handlers.go:247-266 | no outcome of a bulk delete touches a key outside `tasks/` |
| `StoreProperties.DeleteAllPartialFailure` | handlers/handlers.go:260-265 | a failure at scanned key k answers 500; keys before k are gone, k and the keys after it keep their values |
| `StoreProperties.DeleteAllLeavesNoTasks` | handlers/handlers.go:259-268 | a successful bulk delete leaves nothing under `tasks/` |
| `StoreProperties.ListAfterDeleteAll` | handlers/handlers.go:43-69 | listing after a successful bulk delete answers 200 with no tasks |
| `StoreProperties.SortedListingIsUnique` | handlers/handlers.go:65-67 | when all ids are present and distinct, the sorted listing is determined: any two sorted permutations are equal |
| `StoreProperties.BuyMilk` | handlers/handlers.go:105-238 | create, get, update with completed = true, get, delete, get: 201, 200, 200 echoing completed = true, 200 still showing completed = false, 200, 404, and the keyspace ends as it started |
| `StoreProperties.FirstTaskOnFreshServer` | models/Tasks.go:4-25 | on a fresh server (empty keyspace, counter 1) the first created task gets id 1 and GET /tasks/1 answers 200 with it |

## Findings

| source | as written | input that shows it | evidently intended | confidence | as-written member | corrected member |
|---|---|---|---|---|---|---|
| handlers/getTaskByID.go:40 | scans the whole `tasks/` prefix and answers with its first entry; the `id` path parameter is never read | only `tasks/1` stored, GET /tasks/7 | read the key `tasks/<id>` and answer 404 when it is absent | high, not executed | `GetTaskByIdHandler.AnswersWithAnotherTask` | `Handlers.GetTask` |
| handlers/createTask.go:25 | looks the handler up under "client", while every route stores it under "handler" | any POST /tasks through routers/routers.go:78-81 | look it up under "handler", as the other variants do, so that a valid body creates a task | high, not executed | `Routers.PostTasks` | `Handlers.CreateTask` |

The model uses the canonical `Handlers.GetTask` and `Handlers.CreateTask` for
the properties of reading and creating (`StoreProperties.GetAfterCreate`,
`StoreProperties.GetAfterDelete`, `StoreProperties.BuyMilk`). The same
"client" lookup in handlers/getAllTasks.go:25 makes `Routers.GetTasks` answer
500 always; `Handlers.GetAllTasks` is the listing the properties use.

## Left out

- HTTP: Gin routing, request binding and response rendering. A body is
  either `Malformed` or bound to a value. A response is a status and an
  abstract JSON body. The text of `err.Error()` is not modelled; only its
  cause is (`Bind`, `Decode`, `Backend`). An empty list is answered as
  `TaskListJson([])`, although Go renders a nil slice as `null`.
- JSON encoding: stored bytes are abstracted as `Valid(task)` or `Corrupt`,
  and the `json:"id,string"` tag is not modelled. `json.Marshal` of a task
  cannot fail, so its error branches (handlers/handlers.go:130-134, 192-196)
  are left out.
- The etcd client: connection set-up (`Connection`, `clientv3.New`,
  `log.Fatal`), `DialTimeout` and the `context.WithTimeout` deadlines. Time is
  not modelled, so a timeout is just a failing call. `models.Handler` and
  `models.Connection2379` … `Connection2384` are not part of this model. All
  six clients are taken to reach the same keyspace.
- Concurrency: the non-atomic `counter++` and the read-modify-write of
  Update with no compare-and-swap. The model executes one handler at a time.
- routers/routers.go beyond the two routes above (client construction,
  `panic`s, Swagger), and main.go.
- `Handlers.GetAllTasks`: answers with some sorted permutation of the decoded
  tasks, because sort.Slice is not stable; which order it picks among tasks
  with equal ids is not modelled.
- `Models.IdGenerator.GenerateUniqueID`: Go's `int` is taken to be 64 bits
  wide; the 32-bit platforms, where the wrap-around comes after 2^31 − 1
  calls, are not modelled.
- `fmt.Printf` diagnostics and the duplicate package-level definitions of the
  variant files. Those files cannot be compiled as one package with
  handlers/handlers.go, so each variant is modelled under its own module.
