/** The in-memory patch history store of the local diff cache.

    The store maps the string form of an object reference to that object's
    history: the time of its last write and the patches stored for it, keyed
    by the canonical resource version the resolver picks. Every operation is
    modelled as one atomic step on an immutable map; the clock is an explicit
    integer argument and the resolver an explicit function argument. */
module PatchStore {
  import opened Wrappers

  /** Instants and durations, in nanoseconds. */
  type Timestamp = int
  type Duration = int

  /** A diff patch between two observed versions of an object. Only the two
      resource versions matter to the store; the rest of the payload is opaque. */
  datatype Patch = Patch(oldResourceVersion: string, newResourceVersion: string, payload: string)

  /** The per-object record: time of the most recent Store and the patches
      stored for the object, at most one per canonical key. */
  datatype History = History(lastModify: Timestamp, patches: map<string, Patch>)

  /** The whole store, keyed by the object's string form. */
  type Data = map<string, History>

  /** The error the resolver reports when a version pair does not determine a key. */
  datatype ResolveError = ResolveError(message: string)

  /** The resource-version resolver of the diff cache's common options: given
      the old version and the optional new version, either the canonical key
      or an error. Its definition is not part of this model. */
  type Resolver = (string, Option<string>) -> Result<string, ResolveError>

  /** The patches held for `obj`; none when the object has no history
      (a lookup through a nil history pointer). */
  function PatchesOf(data: Data, obj: string): map<string, Patch>
  {
    if obj in data then data[obj].patches else map[]
  }

  /** The key Store files `patch` under. Store discards the resolver's error,
      so when resolution fails the key is the zero value of a Go string, the
      empty string; that the resolver returns "" alongside its error is an
      assumption of this model. */
  function StoreKey(resolve: Resolver, patch: Patch): string
  {
    var res := resolve(patch.oldResourceVersion, Some(patch.newResourceVersion));
    if res.Success? then res.value else ""
  }

  /** Store: create the object's history if missing, stamp it with `now`, and
      insert or overwrite the patch under its resolved key. Nothing else in
      the store changes. */
  function Store(data: Data, resolve: Resolver, now: Timestamp, obj: string, patch: Patch): (data': Data)
    ensures data'.Keys == data.Keys + {obj}
    ensures data'[obj].lastModify == now
    ensures data'[obj].patches.Keys == PatchesOf(data, obj).Keys + {StoreKey(resolve, patch)}
    ensures data'[obj].patches[StoreKey(resolve, patch)] == patch
    ensures forall k :: k in PatchesOf(data, obj) && k != StoreKey(resolve, patch) ==>
              data'[obj].patches[k] == PatchesOf(data, obj)[k]
    ensures forall o :: o in data && o != obj ==> data'[o] == data[o]
  {
    var created := if obj in data then data[obj] else History(0, map[]);
    var key := StoreKey(resolve, patch);
    data[obj := History(now, created.patches[key := patch])]
  }

  /** Fetch: resolve the key for the version pair; a resolver error is
      returned as is, otherwise the stored patch or, on a miss, no patch and
      no error. Fetch returns no new store, so it never creates a history. */
  function Fetch(data: Data, resolve: Resolver, obj: string, oldVersion: string, newVersion: Option<string>)
    : (r: Result<Option<Patch>, ResolveError>)
    ensures r.Failure? <==> resolve(oldVersion, newVersion).Failure?
    ensures r.Failure? ==> r.error == resolve(oldVersion, newVersion).error
    ensures r.Success? ==> (r.value.Some? <==> resolve(oldVersion, newVersion).value in PatchesOf(data, obj))
    ensures r.Success? && r.value.Some? ==>
              r.value.value == PatchesOf(data, obj)[resolve(oldVersion, newVersion).value]
  {
    var res := resolve(oldVersion, newVersion);
    if res.Failure? then
      Failure(res.error)
    else if obj in data && res.value in data[obj].patches then
      Success(Some(data[obj].patches[res.value]))
    else
      Success(None)
  }

  /** No element of `keys` occurs twice. */
  predicate NoDuplicates(keys: seq<string>)
  {
    forall i, j :: 0 <= i < j < |keys| ==> keys[i] != keys[j]
  }

  /** List: the keys of the object's patches, each once, in an unspecified
      order (that of Go's map iteration, here an arbitrary choice). `limit`
      is accepted and ignored; an unknown object gives the empty list. The
      Go error result is always nil and is not modelled. */
  method List(data: Data, obj: string, limit: int) returns (keys: seq<string>)
    ensures forall k :: k in keys <==> k in PatchesOf(data, obj)
    ensures NoDuplicates(keys)
    ensures |keys| == |PatchesOf(data, obj)|
  {
    if obj !in data {
      return [];
    }
    var patches := data[obj].patches;
    var remaining := patches.Keys;
    keys := [];
    while remaining != {}
      invariant remaining <= patches.Keys
      invariant forall k :: k in keys <==> k in patches && k !in remaining
      invariant NoDuplicates(keys)
      invariant |keys| + |remaining| == |patches.Keys|
      decreases |remaining|
    {
      var k :| k in remaining;
      keys := keys + [k];
      remaining := remaining - {k};
    }
  }
}
