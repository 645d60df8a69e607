# Load balancer engine, modelled in Dafny

A model of the load-balancing engine of a small HTTP load balancer written in
Go (`loadbalancer/`). The engine keeps an ordered pool of backends, each with a
liveness flag; a round-robin algorithm with one shared counter picks the next
alive backend for every request; a periodic health check probes every backend
and sets its flag; and the reverse proxy's error handler retries a failing
backend up to three times before it marks the backend dead and sends the
request back to the pool for another selection.

Files and modules:

- `options.dfy` (`Options`): the `Option` datatype.
- `context.dfy` (`RequestContext`): the per-request context holding the
  counters `Retries` and `Attempts`, the limits `MaxRetries`/`MaxAttempts`, and
  `getValueFromContext`.
- `backend.dfy` (`Backends`): the `Backend` class, its liveness accessors and
  the health probe's status classification.
- `round_robin.dfy` (`RoundRobinAlgorithm`): the selection rule as a function
  on the list's liveness flags (`Select`), its properties, and the
  `RoundRobin` class whose `GetNextBackend` is proved to follow it.
- `server_pool.dfy` (`ServerPools`): the `ServerPool` class with
  `AddBackend`, `UpdateBackendStatus`, `PingHandler` and one health-check sweep.
- `main.dfy` (`LoadBalancer`): `generateAlgorithm`, `generateBackend`,
  `generateServerPool` (with `strings.Split`), the reverse proxy's
  `ErrorHandler`, and the whole life of one request as a loop.

Modelling choices:

- The outcome of the health probe's `GET <url>/healthcheck` is an input: an
  error or a status code.
- `url.Parse` is an oracle `parse: string -> Option<string>` that rejects a
  piece or gives the string form of the parsed URL. URLs are compared as
  strings, as the source compares `URL.String()`.
- Forwarding a request (`ReverseProxy.ServeHTTP`) is an oracle
  `forward: nat -> Outcome`: `forward(t)` is how the t-th forward of the
  request went. A failed forward carries the URL string that the error
  handler reads from the request. It is opaque, so `UpdateBackendStatus` may
  find no backend with that URL.
- With forwarding given this way, the Go call chain PingHandler → ServeHTTP →
  ErrorHandler → (ServeHTTP | PingHandler) becomes two nested loops
  (`ServeBackend` inside `HandleRequest`). Their termination and the bounds on
  the counters are proved.
- A request context is a map from keys to stored values; `context.WithValue`
  is a map update, so the newest binding wins.
- The round-robin counter is a `nat`.
- The empty pool follows the code. The counter is incremented, then
  `x % 0` makes the Go runtime panic. This is modelled as the pick
  `DivideByZero` and the response `Panicked`, not as a precondition.

Three behaviours of the code that a reader might not expect:

- The probe counts a status as UP when `200 <= status <= 300`, so status 300
  is UP (`loadbalancer/backend.go:30`).
- The round-robin algorithm has no guard against an empty list, so `x % 0`
  panics after the counter has been incremented
  (`loadbalancer/round_robin.go:22`).
- `Retries` is not reset when a request fails over
  (`loadbalancer/main.go:111-112`). A backend reached after a failover is
  therefore given up on at its first failed forward.

## Model

| member | source | states |
|---|---|---|
| `Backends.Backend.constructor` | loadbalancer/backend.go:19-25 | a new backend keeps its URL and starts alive |
| `Backends.Backend.SetAlive` | loadbalancer/backend.go:41-45 | after the call the flag is the given value; the URL is a constant and cannot change |
| `Backends.Backend.IsAlive` | loadbalancer/backend.go:47-51 | returns the current flag and changes no state |
| `Backends.Backend.UpdateStatus` | loadbalancer/backend.go:27-38 | after a probe the flag is decided by the probe outcome alone: an error gives dead, a status gives alive iff 200 <= status <= 300 |
| `Backends.IsUp` | loadbalancer/backend.go:30 | the probe's UP test, 200 <= status <= 300 with both ends included; what it means for a backend is stated by `UpdateStatus` and `ProbeBoundaries` |
| `Backends.ProbeBoundaries` | loadbalancer/backend.go:30 | statuses 200 and 300 are UP; 199, 301 and a probe error are not |
| `RoundRobinAlgorithm.StartIndex` | loadbalancer/round_robin.go:21-22 | the start index, the incremented counter modulo n, lies in [0, n) |
| `RoundRobinAlgorithm.ScanVisitsEachIndexOnce` | loadbalancer/round_robin.go:24-25 | the n steps of the scan from the start index visit each index of [0, n) exactly once |
| `RoundRobinAlgorithm.FirstAliveStep` | loadbalancer/round_robin.go:24-27 | the step found is alive and every step before it is dead; with no step found every remaining step is dead |
| `RoundRobinAlgorithm.Select` | loadbalancer/round_robin.go:21-39 | the selection rule on the liveness flags and the counter; its meaning is stated by `SelectPicksFirstAlive`, `SelectFailsIffNoneAlive` and `AllAliveIsCyclic` |
| `RoundRobinAlgorithm.SelectPicksFirstAlive` | loadbalancer/round_robin.go:22-39 | a chosen index is in range, alive, and the first alive one in cyclic order from the start index; the counter is old + 1 when the chosen index is the start index or nothing is alive, else the chosen index |
| `RoundRobinAlgorithm.SelectFailsIffNoneAlive` | loadbalancer/round_robin.go:24-39 | selection fails if and only if no backend in the list is alive |
| `RoundRobinAlgorithm.SelectAllAlive` | loadbalancer/round_robin.go:22-31 | with every backend alive, a selection picks the start index (counter + 1) mod n and leaves the counter at counter + 1 |
| `RoundRobinAlgorithm.AllAliveIsCyclic` | loadbalancer/round_robin.go:22-35 | with every backend alive, k calls from counter c return (c+1) mod n, ..., (c+k) mod n and leave the counter at c + k |
| `RoundRobinAlgorithm.RoundRobin.constructor` | loadbalancer/round_robin.go:13-17 | a new round robin's counter is 0, so its first call starts at 1 mod n |
| `RoundRobinAlgorithm.RoundRobin.GetNextBackend` | loadbalancer/round_robin.go:19-41 | the result and the new counter are those of the selection rule on the list's flags; an empty list faults after the counter is incremented; the list and the flags are not changed |
| `ServerPools.IndexOfUrl` | loadbalancer/server_pool.go:45-50 | the index found is the first whose URL equals the argument; with none found no URL matches |
| `ServerPools.ServerPool.constructor` | loadbalancer/server_pool.go:15-19 | a new pool has no backends and the given algorithm |
| `ServerPools.ServerPool.AddBackend` | loadbalancer/server_pool.go:21-23 | the backend is appended: one longer, the earlier backends in their places |
| `ServerPools.ServerPool.HealthCheckSweep` | loadbalancer/server_pool.go:34-36 | after one sweep in list order every backend's flag is what its own probe says |
| `ServerPools.ServerPool.UpdateBackendStatus` | loadbalancer/server_pool.go:43-52 | only the first backend with a matching URL gets the new flag; every other flag is unchanged, and with no match nothing changes; the list is not changed |
| `ServerPools.ServerPool.PingHandler` | loadbalancer/server_pool.go:54-71 | attempts > 3 gives 503 without consulting the algorithm; otherwise 503 exactly when selection fails (all dead), else forwarding to exactly the selected, alive backend; the list is not changed |
| `RequestContext.GetValueFromContext` | loadbalancer/main.go:120-126 | reading a counter from the request's context; its meaning is stated by `DefaultIsZero` and `WithValueThenGet` |
| `RequestContext.DefaultIsZero` | loadbalancer/main.go:120-126 | a key that is absent or holds a non-int reads as 0 |
| `RequestContext.WithValueThenGet` | loadbalancer/main.go:104-123 | an int stored with `context.WithValue` (the writes of `Retries` at line 104 and `Attempts` at line 112) is read back under its key by `getValueFromContext` (lines 120-123), and other keys are not affected |
| `LoadBalancer.Split` | loadbalancer/main.go:54 | `strings.Split` on one separator: at least one piece, and no piece contains the separator; with `JoinSplit` this fixes the pieces |
| `LoadBalancer.JoinSplit` | loadbalancer/main.go:54 | joining the pieces of the comma split with commas gives back the input |
| `LoadBalancer.SplitCount` | loadbalancer/main.go:54 | the split gives one more piece than the input has commas |
| `LoadBalancer.Parsed` | loadbalancer/main.go:56-63 | the pieces that parse, in input order, a failed parse skipped; its meaning is stated by `ParsedLength`, `ParsedAppend` and `ParsedSingle` |
| `LoadBalancer.ParsedLength` | loadbalancer/main.go:54-63 | at most one backend per piece |
| `LoadBalancer.ParsedAppend` | loadbalancer/main.go:56-63 | the backends from a list are those of its first part followed by those of its second part |
| `LoadBalancer.ParsedSingle` | loadbalancer/main.go:58-62 | a piece gives its parsed URL, or nothing when it does not parse |
| `LoadBalancer.GenerateAlgorithm` | loadbalancer/main.go:68-78 | every name, recognised or not, gives a fresh round robin with counter 0 |
| `LoadBalancer.GenerateBackend` | loadbalancer/main.go:80-92 | a piece that does not parse gives no backend; one that parses gives a fresh alive backend with the parsed URL |
| `LoadBalancer.GenerateServerPool` | loadbalancer/main.go:48-66 | the pool's URLs are exactly the pieces that parsed, in input order, at most one per piece, all fresh and alive, behind a fresh counter at 0 |
| `LoadBalancer.ErrorHandler` | loadbalancer/main.go:97-116 | below 3 retries: the same backend again with Retries + 1, Attempts and flags unchanged; otherwise the backend with the request URL is marked dead and the request re-enters the pool with Attempts + 1 and Retries carried over |
| `LoadBalancer.ServeBackend` | loadbalancer/main.go:99-109 | forwards to one backend until one is delivered or retries are exhausted; at most 1 + (3 - Retries) forwards, the retry count ends at 3 or above on failover, Attempts rises by exactly 1; served: no flag changes; failover: the last failed forward's URL picks the one backend marked dead, every other flag unchanged |
| `LoadBalancer.ServeSelection` | loadbalancer/server_pool.go:56-70 | what follows the pool's answer: a refusal, no backend alive or a fault ends the request with 503 or a panic and changes no flag; a request served after forwards was served by exactly the backend the pool selected, and a failover marks dead only the backend with the failed request's URL, so no dead backend comes back to life |
| `LoadBalancer.PingAndForward` | loadbalancer/server_pool.go:54-71 | one pass through the pool: refusal without touching the counter, no backend alive, or forwards to the selected alive backend; a served response names exactly the backend the selection over the flags at the start of the pass chose; the counter is that selection's, or old + 1 when the empty pool faults; a served or refused pass changes no flag, a failover marks dead only the backend with the failed request's URL, so no dead backend comes back to life |
| `LoadBalancer.MarkedDeadRevivesNone` | loadbalancer/main.go:114 | marking a backend dead after failed retries only clears a flag: no backend dead before is alive after it |
| `LoadBalancer.ShapeSum` | loadbalancer/main.go:99-115 | when the first backend gets at most 1 + (3 - Retries) forwards and every later one exactly one, the forwards add up to the first backend's plus one per later backend, at most one per backend plus the retries |
| `LoadBalancer.ContinueStep` | loadbalancer/main.go:111-115 | a failover keeps the request's progress: one more selection, Attempts one higher, the retry count at 3 or above, every forward so far failed |
| `LoadBalancer.FinishStep` | loadbalancer/server_pool.go:55-69 | the pass that ends a request keeps the bounds: at most 4 - Attempts selections, a delivered last forward after failed ones, and a refusal only with Attempts above 3 |
| `LoadBalancer.HandleRequest` | loadbalancer/main.go:97-116 | a request ends; from an empty context it makes at most 4 selections and 7 forwards; the first backend gets at most 1 + (3 - Retries) forwards and every later backend exactly one; a served request's backend is alive and every earlier forward failed; a 503 means attempts ran out or every backend is dead; no backend dead at the start is alive at the end |

## Left out

- HTTP serving, flag parsing, `log.Fatal`, `ListenAndServe` and all logging
  (`loadbalancer/main.go:22-46`) are I/O and are not modelled.
- The health probe's `http.Get` is replaced by its outcome, given as an input.
- `httputil.ReverseProxy` is replaced by the outcome oracle `forward`. The
  response written to the client is reduced to `Served`, `ServiceUnavailable`
  or `Panicked`.
- The health check's ticker, its endless loop and the goroutine that runs it
  are left out; one sweep is modelled (`HealthCheckSweep`).
- The mutexes and atomic operations are modelled as plain sequential reads and
  writes. Races on the shared counter are not modelled.
- The 10 ms backoff before a retry is timing and is not modelled.
- `url.Parse` and `URL.String()` are an oracle.
- RoundRobinAlgorithm.RoundRobin.GetNextBackend: the counter is unbounded and
  does not model the `uint64` wrap-around after 2^64 increments.
- The `Algorithm` interface of `loadbalancer/algorithm.go` is not modelled as
  an interface; the pool holds the one implementation, `RoundRobin`.
- `backend/main.go`, the demo upstream server, is not part of this model.
- LoadBalancer.HandleRequest: states that a request never brings a dead
  backend back to life, but not the final round-robin counter or exactly
  which backends it marked dead over several failovers. Each pass's effect on
  both is stated by `LoadBalancer.PingAndForward`.
