/** The ingest filter of the two broker connections: report-by-exception cache, exclude list, parsing and
    the shared id dedup. */
module Ingest {
  import opened Text
  import opened TopicMatch

  /** parseId is the non-empty `id` of a parsed notification, None for anything malformed. */
  datatype Env = Env(parseId: string -> Option<string>, exclude: seq<string>)

  datatype Raw = Raw(topic: string, payload: string)

  /** What the two connections share. */
  datatype Shared = Shared(ids: set<string>, stream: seq<Raw>)

  datatype Outcome = Unchanged | Excluded | Malformed | Duplicate | Ingested

  type Cache = map<string, string>

  predicate Rejected(env: Env, message: Raw)
  {
    IsExcluded(StripReplayPrefix(message.topic), env.exclude) || env.parseId(message.payload).None?
  }

  /** The handler without its cache. */
  function Process(env: Env, store: Shared, message: Raw): (Shared, Outcome)
  {
    if IsExcluded(StripReplayPrefix(message.topic), env.exclude) then (store, Excluded)
    else
      match env.parseId(message.payload)
      case None => (store, Malformed)
      case Some(id) =>
        if id in store.ids then (store, Duplicate)
        else (Shared(store.ids + {id}, store.stream + [message]), Ingested)
  }

  /** The handler with it. */
  function Handle(env: Env, cache: Cache, store: Shared, message: Raw): (Cache, Shared, Outcome)
  {
    var remembered := cache[message.topic := message.payload];
    if message.topic in cache && cache[message.topic] == message.payload then (remembered, store, Unchanged)
    else
      var (after, outcome) := Process(env, store, message);
      (remembered, after, outcome)
  }

  // ---------------------------------------------------------------- the cache is only an optimisation

  datatype Arrival = Arrival(connection: nat, message: Raw)

  function CacheOf(caches: map<nat, Cache>, connection: nat): Cache
  {
    if connection in caches then caches[connection] else map[]
  }

  function RunCached(env: Env, caches: map<nat, Cache>, store: Shared, arrivals: seq<Arrival>): Shared
    decreases |arrivals|
  {
    if arrivals == [] then store
    else
      var a := arrivals[0];
      var (cache, after, _) := Handle(env, CacheOf(caches, a.connection), store, a.message);
      RunCached(env, caches[a.connection := cache], after, arrivals[1..])
  }

  function RunUncached(env: Env, store: Shared, arrivals: seq<Arrival>): Shared
    decreases |arrivals|
  {
    if arrivals == [] then store else RunUncached(env, Process(env, store, arrivals[0].message).0, arrivals[1..])
  }

  /** Handing the message in again would add nothing. */
  predicate Spent(env: Env, store: Shared, message: Raw)
  {
    Rejected(env, message) || env.parseId(message.payload).value in store.ids
  }

  /** Every cached payload is spent on its topic. */
  ghost predicate CachesSpent(env: Env, caches: map<nat, Cache>, store: Shared)
  {
    forall k, topic :: k in caches && topic in caches[k] ==> Spent(env, store, Raw(topic, caches[k][topic]))
  }

  lemma SpentIsKept(env: Env, store: Shared, message: Raw)
    ensures Spent(env, Process(env, store, message).0, message)
    ensures Spent(env, store, message) <==> Process(env, store, message).0 == store
  {
    hide IsExcluded, StripReplayPrefix;
    assert |store.stream + [message]| > |store.stream|;
  }

  lemma CachesSpentKept(env: Env, caches: map<nat, Cache>, store: Shared, a: Arrival)
    requires CachesSpent(env, caches, store)
    ensures var (cache, after, _) := Handle(env, CacheOf(caches, a.connection), store, a.message);
            after == Process(env, store, a.message).0 && CachesSpent(env, caches[a.connection := cache], after)
  {
    SpentIsKept(env, store, a.message);
    var after := Process(env, store, a.message).0;
    assert store.ids <= after.ids;
    assert Raw(a.message.topic, a.message.payload) == a.message;
    hide IsExcluded, StripReplayPrefix, Process;
  }

  /** Whatever arrives on whichever connection, the stream and the claimed ids are the ones the handlers
      would produce without their caches. */
  lemma {:induction false} CacheIsTransparent(env: Env, caches: map<nat, Cache>, store: Shared, arrivals: seq<Arrival>)
    requires CachesSpent(env, caches, store)
    ensures RunCached(env, caches, store, arrivals) == RunUncached(env, store, arrivals)
    decreases |arrivals|
  {
    if arrivals != [] {
      hide Handle, Process, CachesSpent;
      var a := arrivals[0];
      CachesSpentKept(env, caches, store, a);
      var (cache, after, _) := Handle(env, CacheOf(caches, a.connection), store, a.message);
      CacheIsTransparent(env, caches[a.connection := cache], after, arrivals[1..]);
    }
  }

  // ---------------------------------------------------------------- each id once, and none missed

  /** The stream holds well-formed messages with different ids, all of them claimed. */
  ghost predicate IdsOnce(env: Env, store: Shared)
  {
    && (forall i :: 0 <= i < |store.stream| ==> !Rejected(env, store.stream[i]) && env.parseId(store.stream[i].payload).value in store.ids)
    && (forall i, j :: 0 <= i < j < |store.stream| ==> env.parseId(store.stream[i].payload) != env.parseId(store.stream[j].payload))
  }

  lemma {:induction false} IdsOnceRun(env: Env, store: Shared, arrivals: seq<Arrival>)
    requires IdsOnce(env, store)
    ensures var e := RunUncached(env, store, arrivals);
            && IdsOnce(env, e) && store.ids <= e.ids && store.stream <= e.stream
            && (forall i :: 0 <= i < |arrivals| ==> Spent(env, e, arrivals[i].message))
            && (forall id :: id in e.ids - store.ids ==> exists i :: 0 <= i < |e.stream| && env.parseId(e.stream[i].payload) == Some(id))
    decreases |arrivals|
  {
    if arrivals != [] {
      var a := arrivals[0];
      var (after, _) := Process(env, store, a.message);
      SpentIsKept(env, store, a.message);
      IdsOnceStep(env, store, a.message);
      hide IsExcluded, StripReplayPrefix, Process, IdsOnce;
      IdsOnceRun(env, after, arrivals[1..]);
      var e := RunUncached(env, store, arrivals);
      forall i | 0 <= i < |arrivals|
        ensures Spent(env, e, arrivals[i].message)
      {
        if i > 0 { assert arrivals[i] == arrivals[1..][i - 1]; }
      }
      forall id | id in e.ids - store.ids
        ensures exists i :: 0 <= i < |e.stream| && env.parseId(e.stream[i].payload) == Some(id)
      {
        if id in after.ids { assert e.stream[|store.stream|] == after.stream[|store.stream|]; }
      }
    }
  }

  lemma IdsOnceStep(env: Env, store: Shared, message: Raw)
    requires IdsOnce(env, store)
    ensures var after := Process(env, store, message).0;
            && IdsOnce(env, after) && store.ids <= after.ids && store.stream <= after.stream
            && (forall id :: id in after.ids - store.ids ==>
                 (|after.stream| == |store.stream| + 1 && env.parseId(after.stream[|store.stream|].payload) == Some(id)))
  {
    hide IsExcluded, StripReplayPrefix;
  }

  /** From an empty store: each id is appended at most once, and every well-formed message that is not
      excluded has its id in the stream, whatever the caches did. */
  lemma AppendedExactlyOnce(env: Env, arrivals: seq<Arrival>)
    ensures var e := RunCached(env, map[], Shared({}, []), arrivals);
            && (forall i, j :: 0 <= i < j < |e.stream| ==> env.parseId(e.stream[i].payload) != env.parseId(e.stream[j].payload))
            && (forall k :: 0 <= k < |arrivals| && !Rejected(env, arrivals[k].message) ==>
                  exists i :: 0 <= i < |e.stream| && env.parseId(e.stream[i].payload) == env.parseId(arrivals[k].message.payload))
  {
    var none := Shared({}, []);
    CacheIsTransparent(env, map[], none, arrivals);
    IdsOnceRun(env, none, arrivals);
    hide RunCached, RunUncached, IsExcluded, StripReplayPrefix;
    var e := RunUncached(env, none, arrivals);
    forall k | 0 <= k < |arrivals| && !Rejected(env, arrivals[k].message)
      ensures exists i :: 0 <= i < |e.stream| && env.parseId(e.stream[i].payload) == env.parseId(arrivals[k].message.payload)
    {
      assert Spent(env, e, arrivals[k].message);
      assert env.parseId(arrivals[k].message.payload).value in e.ids - none.ids;
    }
  }
}
