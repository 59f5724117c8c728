# Concurrent web server: key-value store, request-counting service and front-end routing

This Dafny project models the core of a small Go web server. Clients save,
list and delete string key-value pairs through a REST API. A background
worker periodically logs usage statistics. The project has three parts:

- **`Storage`** (`storage.dfy`) models the in-memory store `DataStorage`. It is
  a class whose `data: map<string, string>` field is updated in place by
  `Set` and `Delete`. `Get` reports the value together with a presence flag.
  An absent key gives the Go zero value `""`. `GetAll` builds its copy entry
  by entry in a loop. `Size` counts the keys.
- **`Service`** (`service.dfy`) models `DataService`. It wraps a store and
  keeps the counter `totalRequest`. `SaveKeyValue`, `GetAll`, `DeleteKey` and
  `GetStats` each add one to the counter before they delegate to the store.
  `GetCurrentStats` reads the counter without counting. The service is
  first stated as a state machine on values:
  - `Step` serves one request;
  - `Run` serves a sequence of requests;
  - `Apply` gives the store's contents after a sequence.

  The class `DataService` then does each request in place. Each of its
  methods promises both its direct effect and the same transition as
  `Step`, so the lemmas about `Run` apply to any sequence of calls.
- **`Frontend`** (`frontend.dfy`) models the routing decision of
  `ServeFrontend`. This is a pure function from the request path to one of
  five outcomes: the index page, the stylesheet, the script, 404, or nothing
  written (paths under `/api/`). `ServeStatic` hands every request to
  `ServeFrontend`, so it has the same outcome.

Every operation is modelled as one sequential step that no other request
overlaps. In the Go code a service call is several steps, each
synchronised on its own: the atomic add of the counter, then the store
operation under its lock (and, in `GetStats`, the atomic load and the size
read). Requests served at the same time can interleave between those
steps; the model describes each call as if it ran alone. The counter is a
`nat`.

Go's `GetAll` returns a newly allocated map. In Dafny a `map` is a value, so
the snapshot can never alias the store. `SnapshotSurvivesWrites` shows a
caller that writes to the store after taking a snapshot, and the snapshot
keeps the old contents.

## Model

| member | source | states |
|---|---|---|
| `Storage.DataStorage.constructor` | internal/storage/storage.go:10-14 | a new store is empty and its size is 0 |
| `Storage.DataStorage.Set` | internal/storage/storage.go:16-20 | afterwards `key` maps to `value`; every other key keeps its presence and its value; the size grows by one exactly when `key` was new |
| `Storage.SizeAfterPut` | internal/storage/storage.go:16-20 | overwriting a present key keeps the number of keys; writing a new key adds one |
| `Storage.DataStorage.Get` | internal/storage/storage.go:22-27 | the flag is true iff the key is present; when present the value is the stored one, otherwise the value is `""`; the store is not changed |
| `Storage.DataStorage.GetAll` | internal/storage/storage.go:29-38 | the copy built entry by entry equals the store's contents; the store is not changed |
| `Storage.DataStorage.Delete` | internal/storage/storage.go:40-49 | returns true iff the key was present; afterwards the key is absent and every other entry is kept; the size drops by one on success; on an absent key the store is exactly as before |
| `Storage.SizeAfterRemove` | internal/storage/storage.go:40-49 | removing a present key takes one key away; removing an absent key leaves the map equal to the old one |
| `Storage.DataStorage.Size` | internal/storage/storage.go:51-55 | the number of distinct keys present |
| `Storage.SnapshotSurvivesWrites` | internal/storage/storage.go:29-49 | a snapshot taken before a `Set` and a `Delete` still equals the contents at the moment it was taken, while the store has both writes |
| `Service.Step` | internal/service/service.go:19-41 | one request raises the counter by exactly one when it is counted (everything but `GetCurrentStats`) and leaves it unchanged otherwise |
| `Service.DataService.constructor` | internal/service/service.go:13-17 | the service wraps the given store, untouched, with the counter at 0 |
| `Service.DataService.SaveKeyValue` | internal/service/service.go:19-22 | the counter goes up by one and the store changes exactly as under `Set(key, value)`; the same transition as `Step` |
| `Service.DataService.GetAll` | internal/service/service.go:24-27 | the counter goes up by one; the result equals the store's contents; the store is unchanged |
| `Service.DataService.DeleteKey` | internal/service/service.go:29-32 | the counter goes up by one; the result is true iff the key was present, as the store's `Delete` returns; the key is removed |
| `Service.DataService.GetStats` | internal/service/service.go:34-37 | the counter goes up by one before it is read, so the reported total is the old counter plus one; the reported size is the store's size; the store is unchanged |
| `Service.DataService.GetCurrentStats` | internal/service/service.go:39-41 | reports the counter and the store size and changes neither |
| `Service.RunCountsRequests` | internal/service/service.go:19-37 | across any sequence of requests the counter grows by exactly the number of counted requests, and the store ends up as the saves and deletes alone make it |
| `Service.CounterNeverDecreases` | internal/service/service.go:19-41 | no sequence of requests lowers the counter |
| `Service.StatsCountItself` | internal/service/service.go:34-37 | on a freshly wrapped store, `GetStats` after any sequence reports the number of counted requests so far plus one for itself, and the size of the resulting store |
| `Service.PollingIsInvisible` | internal/service/service.go:39-41 | any number of `GetCurrentStats` calls leaves the whole service state unchanged |
| `Service.DeleteReportsPresence` | internal/service/service.go:29-32 | `DeleteKey` answers whether the key is present; a `DeleteKey` right after one of the same key answers false; a `DeleteKey` right after a save of the key answers true |
| `Service.AbsentUntilSaved` | internal/service/service.go:19-32 | an absent key stays absent, and `DeleteKey` of it answers false, through any sequence of requests that does not save it |
| `Service.LatestSaveWins` | internal/service/service.go:19-22 | after a save of a key, through any requests that neither save nor delete that key, the store maps it to the value last saved |
| `Service.KeptThrough` | internal/service/service.go:19-32 | a present entry keeps its value through any requests that neither save nor delete its key |
| `Service.StatsCallsAreCounted` | internal/service/service.go:34-41 | on a fresh service `GetStats` gives (1, 0); after one save it gives (3, 1), then (4, 1); `GetCurrentStats` then still gives (4, 1) |
| `Service.SaveListDeleteSequence` | internal/service/service.go:19-32 | saving a=1 and b=2 lists {a:1, b:2}; deleting a succeeds; the listing becomes {b:2}; the size is 1; deleting a again fails; six requests were counted |
| `Frontend.ServeFrontend` | pkg/frontend/frontend.go:18-43 | the handler's tests in its order, first match deciding; no `/static/` path gets the index page, and a path gets no response exactly when it starts with `/api/` |
| `Frontend.PrefixesAreDisjoint` | pkg/frontend/frontend.go:21 | no path starts with both `/api/` and `/static/` |
| `Frontend.FixedPathsAndPrefixes` | pkg/frontend/frontend.go:21-37 | `/` and `/index.html` start with neither prefix; both asset paths start with `/static/` |
| `Frontend.RouteCharacterised` | pkg/frontend/frontend.go:18-43 | each outcome is characterised by the path alone: the index page iff the path starts with neither prefix; the stylesheet and the script iff the path is their own path; 404 iff the path is any other `/static/` path; nothing written iff the path starts with `/api/` |
| `Frontend.NamedPaths` | pkg/frontend/frontend.go:21-42 | `/` and `/index.html` get the index page; the two asset paths get their assets; an unknown `/static/` path gets 404; an `/api/` path gets nothing; any other path gets the index page |
| `Frontend.ServeStatic` | pkg/frontend/frontend.go:45-47 | the static handler decides exactly as the front-end handler; no `/static/` path is answered with the index page |

## Left out

- The `sync.RWMutex` of the store and the `sync/atomic` add and load of the counter are left out. They are concurrency mechanics; every operation is modelled as one atomic sequential step.
- `Service.DataService.GetStats`: in Go the increment (internal/service/service.go:35), the load of the counter and the read of the size (internal/service/service.go:36) are separate steps. Overlapping requests can run between them, so Go may report more than the old counter plus one, and a size from another moment. The contract holds only for calls that do not overlap.
- The counter is unbounded, so the int64 wrap-around of `totalRequest` is not modelled. It would affect every counting call (internal/service/service.go:20, 25, 30, 35), and the code never checks it.
- The order in which Go ranges over a map is unspecified. `GetAll` picks the pending keys in an arbitrary order, and maps are compared as values.
- The background worker (`internal/worker/worker.go`) is left out. It is a ticker and cancellation loop that prints; its only call into the core, `GetCurrentStats`, is modelled.
- The HTTP handlers (`internal/handler/handler.go`) are left out. They are JSON decoding and encoding and response writing. This includes their 400 on an empty key or value and their 404 on a failed delete.
- `cmd/webserver/main.go` is left out. It is process wiring, the HTTP server, signal handling and shutdown.
- The embedded `index.html`, `style.css` and `app.js` bytes and the headers written are left out. Only the routing outcome of `ServeFrontend` is modelled. `pkg/frontend/app.js` is browser UI code and is not part of this model.
- Go strings are byte strings and Dafny strings are sequences of characters. Every path constant compared here is ASCII, so prefix and equality tests agree.
