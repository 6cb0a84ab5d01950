/** Properties relating several operations of the patch store: Store then
    Fetch, Store twice, Store then Trim, and Stores to different objects. */
module CacheProperties {
  import opened Wrappers
  import opened PatchStore
  import opened TrimLoop

  /** A patch whose version pair the resolver accepts is fetched back, with
      no error, by the version pair it carries. */
  lemma StoreThenFetch(data: Data, resolve: Resolver, now: Timestamp, obj: string, patch: Patch)
    requires resolve(patch.oldResourceVersion, Some(patch.newResourceVersion)).Success?
    ensures Fetch(Store(data, resolve, now, obj, patch), resolve, obj,
                  patch.oldResourceVersion, Some(patch.newResourceVersion)) == Success(Some(patch))
  {
  }

  /** A version pair the resolver rejects makes Fetch return that error and
      no patch, whatever the store holds. */
  lemma FetchPropagatesResolveError(data: Data, resolve: Resolver, obj: string, oldVersion: string, newVersion: Option<string>)
    requires resolve(oldVersion, newVersion).Failure?
    ensures Fetch(data, resolve, obj, oldVersion, newVersion) == Failure(resolve(oldVersion, newVersion).error)
  {
  }

  /** An object without a history, or a resolved key it has no patch under,
      is a silent miss: no patch and no error. */
  lemma FetchMissIsNotAnError(data: Data, resolve: Resolver, obj: string, oldVersion: string, newVersion: Option<string>)
    requires resolve(oldVersion, newVersion).Success?
    requires obj !in data || resolve(oldVersion, newVersion).value !in data[obj].patches
    ensures Fetch(data, resolve, obj, oldVersion, newVersion) == Success(None)
  {
  }

  /** Two Stores under the same resolved key: the second patch replaces the
      first, the object has no more keys than after the first, and the
      result is as if only the second Store had happened. */
  lemma LastWriterWins(data: Data, resolve: Resolver, t1: Timestamp, t2: Timestamp, obj: string, p1: Patch, p2: Patch)
    requires StoreKey(resolve, p1) == StoreKey(resolve, p2)
    ensures Store(Store(data, resolve, t1, obj, p1), resolve, t2, obj, p2) == Store(data, resolve, t2, obj, p2)
    ensures |Store(Store(data, resolve, t1, obj, p1), resolve, t2, obj, p2)[obj].patches|
            == |Store(data, resolve, t1, obj, p1)[obj].patches|
    ensures Store(Store(data, resolve, t1, obj, p1), resolve, t2, obj, p2)[obj].patches[StoreKey(resolve, p1)] == p2
  {
    var once := Store(data, resolve, t1, obj, p1);
    var twice := Store(once, resolve, t2, obj, p2);
    var direct := Store(data, resolve, t2, obj, p2);
    assert twice[obj].patches == direct[obj].patches;
    assert twice[obj] == direct[obj];
    assert twice == direct;
    assert twice[obj].patches.Keys == once[obj].patches.Keys;
  }

  /** Stores addressed to different objects do not interfere: their order
      does not matter. */
  lemma StoresToDistinctObjectsCommute(data: Data, resolve: Resolver, t1: Timestamp, t2: Timestamp,
                                       o1: string, o2: string, p1: Patch, p2: Patch)
    requires o1 != o2
    ensures Store(Store(data, resolve, t1, o1, p1), resolve, t2, o2, p2)
         == Store(Store(data, resolve, t2, o2, p2), resolve, t1, o1, p1)
  {
  }

  /** A stored patch survives a trim while its object's history is younger
      than the expiry, and is gone (a silent miss) once it is older. */
  lemma StoreThenTrim(data: Data, resolve: Resolver, storedAt: Timestamp, obj: string, patch: Patch,
                      now: Timestamp, expiry: Duration)
    requires resolve(patch.oldResourceVersion, Some(patch.newResourceVersion)).Success?
    ensures now - storedAt <= expiry ==>
              Fetch(Trim(Store(data, resolve, storedAt, obj, patch), now, expiry), resolve, obj,
                    patch.oldResourceVersion, Some(patch.newResourceVersion)) == Success(Some(patch))
    ensures now - storedAt > expiry ==>
              Fetch(Trim(Store(data, resolve, storedAt, obj, patch), now, expiry), resolve, obj,
                    patch.oldResourceVersion, Some(patch.newResourceVersion)) == Success(None)
  {
  }
}
