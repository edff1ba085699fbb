# In-memory stores of the task / user / session API, in Dafny

This project models the state layer under `store/` of a small HTTP service. That layer has three independent key-value stores. Each one is a class whose fields are the Go struct's maps. Each method changes those maps as the Go method does. Each method is proved against a pure step function over the same maps, and the lemmas are about those functions.

- **Task store** (`TaskStore`, `task_store.dfy`): maps a task id to a `Task` (status, result, creation and update times). `GetResult` is gated on status: a result that was written is still refused with `NotReady` until the status is `ready`.
- **Session store** (`SessionStore`, `session_store.dfy`): maps a token to a `Session`. `Get` expires a session lazily against its explicit expiry and otherwise refreshes `accessedAt`. `GC` sweeps the map with a loop, using `accessedAt + maxLifeTime` as the expiry of sessions that have none.
- **User store** (`UserStore`, `user_store.dfy`): has two user maps (by login and by id), the `nextID` counter, and its own token → session map. `Register`, `Login` and `GetUserByToken` are modelled. The invariant `Consistent` ties the maps together.
- `Results` (`results.dfy`) holds `Result` (a Go `(T, error)` pair) and `Outcome` (a bare `error`).

Modelling conventions:
- Time is an `int`, and `0` stands for Go's zero `time.Time`. `IsZero` becomes `== 0` and `After` becomes `>`. A `time.Duration` is an `int` in the same unit.
- The clock, the task id generator and `uuid.NewString()` are parameters (`now`, `id`, `token`).
- No freshness precondition is placed on ids or tokens. A Go map assignment overwrites an existing entry, and the model does the same. Lemmas such as `TaskStore.CreatedAtStable` name freshness where it matters.
- Sequences of calls are modelled as lists of operations (`TaskOp`, `SessionOp`, `UserOp`) run by `Run`. The lemmas over arbitrary call histories are stated on these.

Notes on what the code does:
- The user store keeps its own `sessions` map of `(userID, sessionID)` records and does not use the session store. Its sessions never expire. `GetUserByToken` fails with `InvalidToken` for an unknown token or an unknown user id.
- The `SessionStore` interface declares `int64` tokens and the `UserStore` interface declares `Register` as returning only an `error`; the model follows the method bodies (string tokens, `Register` returns the new id).
- No code path sets `expiresAt`: `Create` always leaves it zero. Sessions made by `Create` alone therefore never take the lazy-expiry branch of `Get`, and `GC` removes them only through the idle limit. The model still covers arbitrary `expiresAt` values, as the code does.
- `Session` and `ErrInvalidToken` are declared in both Go files; here each lives in its own module (`SessionStore.Session`, `UserStore.Session`).

## Model

| member | source | states |
|---|---|---|
| `TaskStore.CreateStep` | store/task_store.go:48-55 | the new record is under `id`, is `in_progress` with an empty result and `createdAt == updatedAt == now`; the key set gains exactly `id`; every other entry is unchanged |
| `TaskStore.SetStatusStep` | store/task_store.go:56-67 | unknown id: `NotFound` and the map unchanged; otherwise only `status` and `updatedAt` of that task change, `result`, `createdAt`, the key set and other entries are kept |
| `TaskStore.SetResultStep` | store/task_store.go:68-79 | unknown id: `NotFound` and the map unchanged; otherwise only `result` and `updatedAt` change, the status is never touched |
| `TaskStore.StatusOf` | store/task_store.go:80-88 | fails (with `NotFound`) exactly when the id is unknown, otherwise gives the stored status |
| `TaskStore.ResultOf` | store/task_store.go:90-101 | `NotFound` iff unknown; `NotReady` iff known and status is not `ready` (whatever result is stored); success iff ready, with the stored result |
| `TaskStore.InMemoryTaskStore.constructor` | store/task_store.go:44-46 | a new store has no tasks |
| `TaskStore.InMemoryTaskStore.CreateTask` | store/task_store.go:48-55 | returns the generated id and the map becomes `CreateStep` of the old one |
| `TaskStore.InMemoryTaskStore.SetStatus` | store/task_store.go:56-67 | error and new map are those of `SetStatusStep` |
| `TaskStore.InMemoryTaskStore.SetResult` | store/task_store.go:68-79 | error and new map are those of `SetResultStep` |
| `TaskStore.InMemoryTaskStore.GetStatus` | store/task_store.go:80-88 | `NotFound` exactly for an unknown id, else the stored status; reads only |
| `TaskStore.InMemoryTaskStore.GetResult` | store/task_store.go:90-101 | answers as `ResultOf` on the current map; reads only |
| `TaskStore.RunKeys` | store/task_store.go:48-79 | after any sequence of writes the key set is the old one plus the created ids: no task is ever deleted and only `CreateTask` adds one |
| `TaskStore.CreatedAtStable` | store/task_store.go:56-79 | `SetStatus`/`SetResult` never change a task's `createdAt` or `id`; only re-creating the same id does |
| `TaskStore.ResultHiddenUntilReady` | store/task_store.go:68-101 | a result not yet visible stays invisible through any writes that do not set that task's status to `ready`, including any number of `SetResult` calls |
| `TaskStore.CreatedIsInProgress` | store/task_store.go:52 | right after creation `GetStatus` is `in_progress` and `GetResult` is `NotReady` |
| `TaskStore.CompletionRoundTrip` | store/task_store.go:48-101 | create, `SetResult(r)`, `SetStatus(ready)`: `GetResult` returns exactly `r` |
| `TaskStore.SetResultKeepsStatus` | store/task_store.go:68-88 | writing a result leaves what `GetStatus` answers unchanged for every id |
| `TaskStore.CompleteTask` | handlers/task_handler.go:29-35 | the worker's effect is `SetResult(payload)` then `SetStatus(ready)`; for a known task the result becomes readable as exactly the payload; an unknown id leaves the map unchanged |
| `TaskStore.TaskLifecycle` | handlers/task_handler.go:22-35 | through the class: a fresh task reports `in_progress`, an immediate `GetResult` is `NotReady`, after the worker it returns the payload |
| `SessionStore.CreateStep` | store/session_store.go:38-50 | the new session is under the token, with that user id and token, `createdAt == accessedAt == now` and no explicit expiry; other entries unchanged |
| `SessionStore.GetStep` | store/session_store.go:52-67 | absent token: `InvalidToken`, map unchanged; explicit expiry set and before `now`: `InvalidToken` and that entry removed; otherwise the session with `accessedAt := now` is returned and stored, and nothing else changes |
| `SessionStore.DestroyStep` | store/session_store.go:69-74 | removes exactly the given key and keeps every other entry |
| `SessionStore.GcStep` | store/session_store.go:76-89 | an entry survives iff it is not expired under its effective expiry; survivors are unchanged and nothing is added |
| `SessionStore.OperationsKeepIndexed` | store/session_store.go:38-89 | every operation keeps each session filed under its own token |
| `SessionStore.DestroyIdempotent` | store/session_store.go:69-74 | destroying twice equals destroying once |
| `SessionStore.GcIdleTimeout` | store/session_store.go:80-86 | with a positive limit and no explicit expiry, a sweep removes a session iff `accessedAt + limit < now` |
| `SessionStore.GcWithoutLimitKeepsUnexpiring` | store/session_store.go:81-86 | with limit `<= 0` every session without explicit expiry survives a sweep |
| `SessionStore.GcIdempotent` | store/session_store.go:79-87 | a sweep only removes, and a second sweep at the same instant changes nothing |
| `SessionStore.GcMonotoneInTime` | store/session_store.go:84-86 | a later sweep keeps no more sessions than an earlier one |
| `SessionStore.GetThenGcKeeps` | store/session_store.go:59-86 | a session `Get` accepted at `now` survives a sweep at `now` for every limit |
| `SessionStore.LazyExpiryAgreesWithGc` | store/session_store.go:59-85 | for a session with explicit expiry, `Get` refuses it iff `GC` at the same instant removes it |
| `SessionStore.NeverIssuedIsRefused` | store/session_store.go:52-58 | a token never handed out by `Create` is refused by `Get` after any sequence of calls |
| `SessionStore.RunKeepsIndexed` | store/session_store.go:38-89 | any sequence of calls keeps each session filed under its own token |
| `SessionStore.InMemorySessionStore.constructor` | store/session_store.go:34-36 | a new store is empty |
| `SessionStore.InMemorySessionStore.Create` | store/session_store.go:38-50 | always succeeds with the generated token; new map is `CreateStep` of the old |
| `SessionStore.InMemorySessionStore.Get` | store/session_store.go:52-67 | answer and new map are those of `GetStep`; a returned session carries the token asked for and `accessedAt == now` |
| `SessionStore.InMemorySessionStore.Destroy` | store/session_store.go:69-74 | always returns nil; new map is `DestroyStep` of the old |
| `SessionStore.InMemorySessionStore.GC` | store/session_store.go:76-89 | the deleting loop leaves exactly `GcStep` of the old map (invariant over the keys not yet visited) |
| `UserStore.RegisterStep` | store/user_store.go:49-66 | existing login: `Conflict`, state unchanged; otherwise returns old `nextID + 1`, which becomes `nextID`, and files the user under that login and id; all other entries and the sessions unchanged |
| `UserStore.LoginStep` | store/user_store.go:68-82 | unknown login or different password: `Unauth` and state unchanged; otherwise only `sessions[token]` is set, to the user's id and the token |
| `UserStore.UserByToken` | store/user_store.go:84-97 | succeeds iff the token has a session whose user id is known, with that user; every failure is `InvalidToken` |
| `UserStore.EmptyStore` | store/user_store.go:41-65 | the new store is consistent and its first registration gets id 1 |
| `UserStore.RegisterKeepsConsistent` | store/user_store.go:53-64 | `Register` keeps both user maps in agreement in both directions (the user under a login is the one under its id, and vice versa), ids within `1..nextID`, sessions pointing at users; the id it hands out was unused |
| `UserStore.LoginKeepsConsistent` | store/user_store.go:72-81 | `Login` keeps the store consistent |
| `UserStore.RunKeepsConsistent` | store/user_store.go:49-82 | any sequence of registrations and logins keeps the store consistent |
| `UserStore.IssuedIdsIncrease` | store/user_store.go:57-65 | ids handed out strictly increase, all above the starting counter and at most the final one; the counter never decreases |
| `UserStore.UsersNeverChange` | store/user_store.go:53-64 | a registered user is never changed or removed, by login or by id |
| `UserStore.DuplicateRegisterConflicts` | store/user_store.go:53-55 | registering a login again gives `Conflict` and leaves the first registration's user in place |
| `UserStore.NeverIssuedIsRefused` | store/user_store.go:84-91 | a token absent at the start and never handed out by `Login` is refused with `InvalidToken` after any sequence of writes |
| `UserStore.SessionsResolve` | store/user_store.go:88-96 | in a consistent store a token resolves iff it has a session, to the user that session names |
| `UserStore.RegisterLoginResolve` | store/user_store.go:57-96 | register, log in, resolve the token: the user `Register` created, with the id it returned |
| `UserStore.InMemoryUserStore.constructor` | store/user_store.go:41-47 | counter 0, three empty maps, consistent |
| `UserStore.InMemoryUserStore.Register` | store/user_store.go:49-66 | keeps `Valid`; answer and new state are those of `RegisterStep` |
| `UserStore.InMemoryUserStore.Login` | store/user_store.go:68-82 | keeps `Valid`; answer and new state are those of `LoginStep` |
| `UserStore.InMemoryUserStore.GetUserByToken` | store/user_store.go:84-97 | answers as `UserByToken` on the current fields; reads only |
| `UserStore.AliceScenario` | store/user_store.go:49-97 | through the class: `alice/pw1` gets id 1, `alice/pw2` conflicts, login with `pw1` gives the token, which resolves to user 1 `alice` |

## Left out

- Locking (`sync.RWMutex`) is left out. Each operation is one atomic step. So is the window in which session `Get` releases the read lock and takes the write lock, because that is concurrency and not sequential behaviour.
- Concurrent interleavings are left out, including N concurrent `CreateTask` calls producing distinct ids. That depends on the id generator, which is not part of this model.
- The detached goroutine and its `time.Sleep` in the task handler are left out. Only their effect is modelled, as `CompleteTask`.
- The HTTP handlers, gin routing, JSON binding and bearer-header parsing are not part of this model. They are thin adapters over the stores.
- `uuid.NewString()` and the `IDGenerator` implementation are not modelled. Their outputs are parameters.
- Wall-clock time is left out. Session `Get` reads `time.Now()` twice, and the model uses one `now` for both reads.
- `time.Duration` saturation in `Time.Add` is left out. `accessedAt + maxLifeTime` is unbounded integer addition.
- `UserStore.InMemoryUserStore.Register`: the `int64` wrap-around of `nextID` after 2^63 - 1 registrations is not modelled. `nextID` is an unbounded integer.
- Pointer aliasing is left out. The Go user maps share `*User` values, and session `Get` returns a `*Session` that still points into the map. Both are modelled as values: the user maps are kept equal by the `Consistent` invariant, and `Get` returns a copy equal to the stored entry.
