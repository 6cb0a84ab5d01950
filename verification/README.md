# Local diff cache: patch history store

A Dafny model of the process-local diff cache of Kelemetry
(`pkg/diff/cache/local/local.go`). The cache keeps, for every tracked object,
a *history*: the time of the object's most recent write and the diff patches
stored for it, each under the canonical resource version chosen by the
diff cache's resource-version resolver (`ChooseResourceVersion`). Four
operations act on it:

- **Store** creates the object's history if it is missing, stamps
  `lastModify` with the current time, and inserts or overwrites one patch
  under the key the resolver picks from the patch's own old and new versions.
- **Fetch** resolves the key for a caller's version pair, returns the
  resolver's error if there is one, and otherwise the stored patch or a
  silent miss (no patch, no error).
- **List** returns the keys of one object's patches; the `limit` argument is
  accepted and ignored, as the source does.
- **doTrim** evicts every history whose age exceeds the expiry; the trim
  loop that calls it is started only when the patch TTL is positive.

Modelling choices:

- The store is an immutable `map<string, History>` keyed by the object's
  string form; every operation is one atomic step (the source serialises
  them with one read/write lock).
- The clock is an explicit integer argument (`now`, nanoseconds) instead of
  `time.Now` / `time.Since`. The trim pass reads the clock once per visited
  history, so `DoTrim` chooses a fresh non-decreasing instant at each visit.
- The resolver is a function value `(string, Option<string>) ->
  Result<string, ResolveError>` passed to Store and Fetch (and to the event
  runs that call Store); List and the trim pass do not use it. Its definition
  lives in the `diffcache` package, which is not part of this model. It is
  assumed deterministic.
- Store discards the resolver's error. The model files the patch under the
  resolver's key on success and under the empty string (the zero value of a
  Go string) on failure; the latter is an assumption about what the
  resolver returns alongside an error.
- Go's unordered map iteration in List and doTrim is modelled by an
  arbitrary choice (`:|`) of the next key.
- The running cache is modelled as a sequence of events (`TrimLoop.Run`):
  Store calls and ticks of the trim loop's timer. A tick trims with the
  TTL as expiry when the loop was started and does nothing otherwise.
  Fetch and List return no new store, so they cannot create a history.

Files: `wrappers.dfy` (Option, Result), `patch_store.dfy` (data model,
Store, Fetch, List), `trim_loop.dfy` (trim pass, start gate, event runs),
`cache_properties.dfy` (properties relating several operations).

## Model

| member | source | states |
|---|---|---|
| PatchStore.Store | pkg/diff/cache/local/local.go:115-128 | afterwards the object has a history stamped with `now` holding the patch under its resolved key; the object's other keys and every other object's history are unchanged, and no object disappears |
| PatchStore.Fetch | pkg/diff/cache/local/local.go:130-162 | an error exactly when the resolver rejects the version pair, and then the resolver's own error; otherwise a patch exactly when the resolved key is among the object's patches, and then the patch stored under it |
| PatchStore.List | pkg/diff/cache/local/local.go:180-195 | the returned keys are exactly the keys of the object's patches, without duplicates (an unknown object gives the empty list); `limit` has no effect |
| TrimLoop.Trim | pkg/diff/cache/local/local.go:93-107 | reference definition of a trim pass: an object remains iff it was present and `now - lastModify <= expiry`, and every surviving history is unchanged |
| TrimLoop.DoTrim | pkg/diff/cache/local/local.go:93-107 | the source's two-pass algorithm, with the clock read afresh at each visited history (readings never go backwards): surviving histories are unchanged, every history unexpired at the last reading survives, every one expired at the first reading is removed, and with a single reading the pass equals the reference trim |
| TrimLoop.TrimMonotone | pkg/diff/cache/local/local.go:97-102 | a trim at a later instant keeps no more histories than one at an earlier instant, which bounds what a pass with several clock readings keeps |
| TrimLoop.TrimIdempotent | pkg/diff/cache/local/local.go:93-107 | a second trim at the same instant and expiry changes nothing |
| TrimLoop.NoEvictionWithoutTtl | pkg/diff/cache/local/local.go:68-91 | with a non-positive patch TTL the trim loop is never started, so after any sequence of Stores and timer ticks the objects with a history are exactly those that had one plus those stored to |
| TrimLoop.LastModifyMonotone | pkg/diff/cache/local/local.go:93-128 | with a clock that never goes backwards, over any run of Stores and trim ticks the last write of every history present at the start and at the end has not moved back in time, and every history created along the way was written no earlier than the run began |
| CacheProperties.StoreThenFetch | pkg/diff/cache/local/local.go:115-149 | round trip: when the resolver accepts a patch's version pair, Fetch with that pair after Store returns the patch and no error |
| CacheProperties.FetchPropagatesResolveError | pkg/diff/cache/local/local.go:139-142 | a rejected version pair makes Fetch return the resolver's error and no patch, whatever the store holds |
| CacheProperties.FetchMissIsNotAnError | pkg/diff/cache/local/local.go:144-161 | an unknown object, or a resolved key absent from its patches, gives no patch and no error |
| CacheProperties.LastWriterWins | pkg/diff/cache/local/local.go:119-127 | two Stores under the same resolved key leave the second patch under it, do not grow the object's key set, and equal the second Store alone |
| CacheProperties.StoresToDistinctObjectsCommute | pkg/diff/cache/local/local.go:115-128 | Stores to different objects commute: each object's history reflects only the writes addressed to it |
| CacheProperties.StoreThenTrim | pkg/diff/cache/local/local.go:93-149 | a stored patch is still fetched after a trim while `now - storedAt <= expiry`, and is a silent miss after a trim once it is older |

## Left out

- Locking (`sync.RWMutex`), goroutines, the `select` over the stop channel and
  `time.After`, and panic recovery in the trim loop: concurrency plumbing;
  each operation is modelled as one atomic step and the loop as a sequence
  of timer ticks at arbitrary instants (the one-hour interval is not modelled).
- `StoreSnapshot` / `FetchSnapshot`: thin wrappers over a TTL cache with
  single-flight semantics (`cache.TtlOnce`) that is not part of this model.
- Backend registration and lifecycle (`init`, `MuxImplName`, `Options`,
  `Init`, `Close`, `GetCommonOptions`): framework wiring.
- The body of `ChooseResourceVersion` and the object reference's `String()`:
  external; the resolver is a parameter and objects are their string form.
- Debug logging of a Fetch miss: it has no effect on results.
- The Go error result of List, which is always nil.
- Patches are stored by value, not by pointer: aliasing of a stored
  `*Patch` by its caller is not modelled.
- PatchStore.Store: a nil patch is not modelled, since a `Patch` here is a
  value that is always present. On a nil `*Patch` the source still creates
  the object's history if it is missing and stamps `lastModify` with the
  current time, then panics at `local.go:126` when it reads the patch's old
  version; the lock is released and the store keeps that new or re-stamped
  history with no new patch.
- TrimLoop.Trim: `time.Since` returns an `int64` duration that saturates at
  its bounds; ages are unbounded integers here.
- TrimLoop.Run: a trim tick in a run is evaluated at one instant, while the
  source reads the clock once per visited history; `DoTrim` bounds the
  difference (the pass keeps at least the trim at its last reading and at
  most the trim at its first), but runs do not carry the per-history readings.
