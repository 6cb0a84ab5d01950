/** Eviction of stale histories from the patch store, and the gate that
    decides whether the periodic trim is ever scheduled. */
module TrimLoop {
  import opened PatchStore

  /** A history is evicted when the time since its last write is strictly
      greater than the expiry. */
  predicate Expired(h: History, now: Timestamp, expiry: Duration)
  {
    now - h.lastModify > expiry
  }

  /** The reference definition of one trim pass: the store restricted to
      the histories that have not expired at `now`. */
  function Trim(data: Data, now: Timestamp, expiry: Duration): (data': Data)
    ensures forall o :: o in data' <==> o in data && !Expired(data[o], now, expiry)
    ensures forall o :: o in data' ==> data'[o] == data[o]
  {
    map o | o in data && !Expired(data[o], now, expiry) :: data[o]
  }

  /** One trim pass as the source performs it: first visit every history,
      reading the clock afresh at each visit and collecting the key when the
      history has expired at that reading, then delete the collected keys one
      by one. The pass starts at `start`; the readings never go backwards and
      are an arbitrary choice, and `finish` is the last of them. Every history
      that survives is unchanged, every one unexpired at `finish` survives,
      and every one expired already at `start` is removed. */
  method DoTrim(data: Data, start: Timestamp, expiry: Duration) returns (data': Data, finish: Timestamp)
    ensures start <= finish
    ensures Trim(data, finish, expiry).Keys <= data'.Keys <= Trim(data, start, expiry).Keys
    ensures forall o :: o in data' ==> data'[o] == data[o]
    ensures start == finish ==> data' == Trim(data, start, expiry)
  {
    // pass 1: collect the removals
    var removals: seq<string> := [];
    var unvisited := data.Keys;
    var clock := start;
    while unvisited != {}
      invariant unvisited <= data.Keys
      invariant start <= clock
      invariant forall o :: o in removals ==> o in data && o !in unvisited && Expired(data[o], clock, expiry)
      invariant forall o :: o in data && o !in unvisited && Expired(data[o], start, expiry) ==> o in removals
      decreases |unvisited|
    {
      var o :| o in unvisited;
      var reading: Timestamp :| clock <= reading;
      clock := reading;
      if Expired(data[o], clock, expiry) {
        removals := removals + [o];
      }
      unvisited := unvisited - {o};
    }
    finish := clock;

    // pass 2: delete them
    data' := data;
    var i := 0;
    while i < |removals|
      invariant 0 <= i <= |removals|
      invariant forall o :: o in data' <==> o in data && o !in removals[..i]
      invariant forall o :: o in data' ==> data'[o] == data[o]
    {
      data' := data' - {removals[i]};
      assert removals[..i + 1] == removals[..i] + [removals[i]];
      i := i + 1;
    }
    assert removals[..i] == removals;
    if start == finish {
      assert data'.Keys == Trim(data, start, expiry).Keys;
    }
  }

  /** A later trim keeps no more histories than an earlier one. */
  lemma TrimMonotone(data: Data, earlier: Timestamp, later: Timestamp, expiry: Duration)
    requires earlier <= later
    ensures Trim(data, later, expiry).Keys <= Trim(data, earlier, expiry).Keys
  {
  }

  /** Trimming twice at the same instant removes nothing more. */
  lemma TrimIdempotent(data: Data, now: Timestamp, expiry: Duration)
    ensures Trim(Trim(data, now, expiry), now, expiry) == Trim(data, now, expiry)
  {
  }

  /** The trim loop is started only when the patch TTL is strictly positive. */
  predicate TrimScheduled(ttl: Duration)
  {
    ttl > 0
  }

  /** What the running cache sees happen to the store: a Store call at some
      instant, or the trim loop's timer firing at some instant. Fetch and List
      do not appear: they return no new store. */
  datatype Event =
    | StoreEvent(at: Timestamp, obj: string, patch: Patch)
    | TrimTick(at: Timestamp)

  /** The effect of one event. A timer tick trims with the TTL as expiry, and
      does nothing when the loop was never started. */
  function Step(data: Data, resolve: Resolver, ttl: Duration, e: Event): Data
  {
    match e
    case StoreEvent(at, obj, patch) => Store(data, resolve, at, obj, patch)
    case TrimTick(at) => if TrimScheduled(ttl) then Trim(data, at, ttl) else data
  }

  /** The store after a sequence of events, applied in order. */
  function Run(data: Data, resolve: Resolver, ttl: Duration, events: seq<Event>): Data
    decreases |events|
  {
    if events == [] then data
    else Run(Step(data, resolve, ttl, events[0]), resolve, ttl, events[1..])
  }

  /** The objects some event of `events` stores a patch for. */
  function StoredObjects(events: seq<Event>): set<string>
    decreases |events|
  {
    if events == [] then {}
    else (if events[0].StoreEvent? then {events[0].obj} else {}) + StoredObjects(events[1..])
  }

  /** With a non-positive TTL no history is ever evicted: every object that
      had a history, or is stored to along the way, still has one at the end. */
  lemma {:induction false} NoEvictionWithoutTtl(data: Data, resolve: Resolver, ttl: Duration, events: seq<Event>)
    requires !TrimScheduled(ttl)
    ensures Run(data, resolve, ttl, events).Keys == data.Keys + StoredObjects(events)
    decreases |events|
  {
    if events != [] {
      NoEvictionWithoutTtl(Step(data, resolve, ttl, events[0]), resolve, ttl, events[1..]);
    }
  }

  /** No history in `data` was written after `t`. */
  predicate WrittenBy(data: Data, t: Timestamp)
  {
    forall o :: o in data ==> data[o].lastModify <= t
  }

  /** The events happen in time order, none of them before `t`. */
  predicate InTimeOrderFrom(events: seq<Event>, t: Timestamp)
  {
    && (forall i :: 0 <= i < |events| ==> t <= events[i].at)
    && (forall i, j :: 0 <= i < j < |events| ==> events[i].at <= events[j].at)
  }

  /** One event at an instant no earlier than any write keeps every write no
      later than that instant, and moves no surviving history's last write
      back in time. */
  lemma StepKeepsClock(data: Data, resolve: Resolver, ttl: Duration, e: Event)
    requires WrittenBy(data, e.at)
    ensures WrittenBy(Step(data, resolve, ttl, e), e.at)
    ensures forall o :: o in data && o in Step(data, resolve, ttl, e) ==>
              data[o].lastModify <= Step(data, resolve, ttl, e)[o].lastModify
    ensures forall o :: o !in data && o in Step(data, resolve, ttl, e) ==>
              Step(data, resolve, ttl, e)[o].lastModify == e.at
  {
  }

  /** With a clock that never goes backwards, the last write of a history
      never moves back in time: every object present at the start and at the
      end of a run was last written no earlier at the end, and every object
      created along the way was last written no earlier than the run began. */
  lemma {:induction false} LastModifyMonotone(data: Data, resolve: Resolver, ttl: Duration, events: seq<Event>, t: Timestamp)
    requires WrittenBy(data, t)
    requires InTimeOrderFrom(events, t)
    ensures forall o :: o in data && o in Run(data, resolve, ttl, events) ==>
              data[o].lastModify <= Run(data, resolve, ttl, events)[o].lastModify
    ensures forall o :: o !in data && o in Run(data, resolve, ttl, events) ==>
              t <= Run(data, resolve, ttl, events)[o].lastModify
    decreases |events|
  {
    if events != [] {
      var e := events[0];
      var next := Step(data, resolve, ttl, e);
      assert WrittenBy(data, e.at);
      StepKeepsClock(data, resolve, ttl, e);
      assert InTimeOrderFrom(events[1..], e.at);
      LastModifyMonotone(next, resolve, ttl, events[1..], e.at);
    }
  }
}
