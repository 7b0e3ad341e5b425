/** createIngestHandler as it runs, and its counters when handlers overlap at their store calls. */
module IngestHandlers {
  import opened Text
  import opened TopicMatch
  import opened Ingest

  /** `repeated` is the counter `unchanged` of IngestStats, a keyword here. */
  datatype Stats = Stats(received: nat, repeated: nat, excluded: nat, duplicate: nat, malformed: nat, ingested: nat)

  function Counted(stats: Stats, outcome: Outcome): Stats
  {
    match outcome
    case Unchanged => stats.(repeated := stats.repeated + 1)
    case Excluded => stats.(excluded := stats.excluded + 1)
    case Malformed => stats.(malformed := stats.malformed + 1)
    case Duplicate => stats.(duplicate := stats.duplicate + 1)
    case Ingested => stats.(ingested := stats.ingested + 1)
  }

  function Outcomes(stats: Stats): nat
  {
    stats.repeated + stats.excluded + stats.malformed + stats.duplicate + stats.ingested
  }

  // ---------------------------------------------------------------- one complete handler run

  class SubscriberStore {
    var ids: set<string>
    var stream: seq<Raw>

    function Contents(): Shared
      reads this
    {
      Shared(ids, stream)
    }

    /** SET NX on the dedup key. */
    method ClaimMessageId(id: string) returns (isNew: bool)
      modifies `ids
      ensures isNew == (id !in old(ids)) && ids == old(ids) + {id}
    {
      isNew := id !in ids;
      ids := ids + {id};
    }

    method AppendRawMessage(message: Raw)
      modifies `stream
      ensures stream == old(stream) + [message]
    {
      stream := stream + [message];
    }
  }

  /** One more, if it is so. */
  function One(count: nat, more: bool): nat { if more then count + 1 else count }

  /** The levels of some pattern fit those of the topic without its replay wrapper. */
  ghost predicate FitsSome(topic: string, patterns: seq<string>)
  {
    exists i :: 0 <= i < |patterns| && Fits(Split(StripReplayPrefix(topic), '/'), Split(patterns[i], '/'))
  }

  /** The handler of one broker connection. */
  class IngestHandler {
    const env: Env
    const store: SubscriberStore
    var lastPayloadByTopic: Cache
    var stats: Stats

    constructor (env: Env, store: SubscriberStore)
      ensures this.env == env && this.store == store && lastPayloadByTopic == map[] && stats == Stats(0, 0, 0, 0, 0, 0)
    {
      this.env, this.store := env, store;
      lastPayloadByTopic, stats := map[], Stats(0, 0, 0, 0, 0, 0);
    }

    method OnMessage(topic: string, raw: string) returns (outcome: Outcome)
      modifies this, store
      ensures (lastPayloadByTopic, store.Contents(), outcome) ==
              Handle(env, old(lastPayloadByTopic), old(store.Contents()), Raw(topic, raw))
      ensures stats == Counted(old(stats).(received := old(stats).received + 1), outcome)
      ensures old(stats).received == Outcomes(old(stats)) ==> stats.received == Outcomes(stats)
      // the first that applies: a repeated payload, an excluded topic, no id, a known id
      ensures outcome.Unchanged? <==> topic in old(lastPayloadByTopic) && old(lastPayloadByTopic)[topic] == raw
      ensures !outcome.Unchanged? ==> (outcome.Excluded? <==> FitsSome(topic, env.exclude))
      ensures !outcome.Unchanged? && !outcome.Excluded? ==> (outcome.Malformed? <==> env.parseId(raw).None?)
      ensures !outcome.Unchanged? && !outcome.Excluded? && !outcome.Malformed? ==> (outcome.Duplicate? <==> env.parseId(raw).value in old(store.ids))
      // the payload is remembered; only a new message changes the store
      ensures lastPayloadByTopic == old(lastPayloadByTopic)[topic := raw]
      ensures outcome.Ingested? ==> store.ids == old(store.ids) + {env.parseId(raw).value} && store.stream == old(store.stream) + [Raw(topic, raw)]
      ensures !outcome.Ingested? ==> store.ids == old(store.ids) && store.stream == old(store.stream)
      ensures stats == Stats(old(stats).received + 1, One(old(stats).repeated, outcome.Unchanged?), One(old(stats).excluded, outcome.Excluded?),
                             One(old(stats).duplicate, outcome.Duplicate?), One(old(stats).malformed, outcome.Malformed?),
                             One(old(stats).ingested, outcome.Ingested?))
    {
      ExcludedIff(StripReplayPrefix(topic), env.exclude);
      hide IsExcluded, StripReplayPrefix, Fits;
      stats := stats.(received := stats.received + 1);
      var previous := if topic in lastPayloadByTopic then Some(lastPayloadByTopic[topic]) else None;
      lastPayloadByTopic := lastPayloadByTopic[topic := raw];
      if previous == Some(raw) {
        stats := stats.(repeated := stats.repeated + 1);
        return Unchanged;
      }
      var excluded := IsExcluded(StripReplayPrefix(topic), env.exclude);
      if excluded {
        stats := stats.(excluded := stats.excluded + 1);
        return Excluded;
      }
      var id := env.parseId(raw);
      if id.None? {
        stats := stats.(malformed := stats.malformed + 1);
        return Malformed;
      }
      var isNew := store.ClaimMessageId(id.value);
      if !isNew {
        stats := stats.(duplicate := stats.duplicate + 1);
        assert store.ids == old(store.ids);
        return Duplicate;
      }
      store.AppendRawMessage(Raw(topic, raw));
      stats := stats.(ingested := stats.ingested + 1);
      return Ingested;
    }
  }

  // ---------------------------------------------------------------- overlapping handler runs

  /** A handler run between its store calls. */
  datatype Task = Claiming(message: Raw) | Appending(message: Raw) | Ended

  /** `caching` is false for handlers that remember no payloads. */
  datatype State = State(caching: bool, caches: map<nat, Cache>, store: Shared, stats: Stats, tasks: seq<Task>, failed: nat)

  datatype Step = Arrive(connection: nat, message: Raw) | Claim(k: nat) | Append(k: nat) | StoreFails(k: nat)

  predicate Enabled(s: State, step: Step)
  {
    match step
    case Arrive(_, _) => true
    case Claim(k) => k < |s.tasks| && s.tasks[k].Claiming?
    case Append(k) => k < |s.tasks| && s.tasks[k].Appending?
    case StoreFails(k) => k < |s.tasks| && !s.tasks[k].Ended?
  }

  /** Everything up to the first store call. */
  function Start(env: Env, cache: Cache, message: Raw): (Task, Option<Outcome>)
  {
    if message.topic in cache && cache[message.topic] == message.payload then (Ended, Some(Unchanged))
    else if IsExcluded(StripReplayPrefix(message.topic), env.exclude) then (Ended, Some(Excluded))
    else if env.parseId(message.payload).None? then (Ended, Some(Malformed))
    else (Claiming(message), None)
  }

  function Remembered(s: State, connection: nat): Cache
  {
    if s.caching then CacheOf(s.caches, connection) else map[]
  }

  function Next(env: Env, s: State, step: Step): State
    requires Enabled(s, step)
  {
    match step
    case Arrive(connection, message) =>
      var cache := Remembered(s, connection);
      var (task, outcome) := Start(env, cache, message);
      var received := s.stats.(received := s.stats.received + 1);
      s.(caches := s.caches[connection := cache[message.topic := message.payload]], tasks := s.tasks + [task],
         stats := if outcome.Some? then Counted(received, outcome.value) else received)
    case Claim(k) =>
      (match env.parseId(s.tasks[k].message.payload)
       case Some(id) =>
         if id in s.store.ids then s.(tasks := s.tasks[k := Ended], stats := Counted(s.stats, Duplicate))
         else s.(tasks := s.tasks[k := Appending(s.tasks[k].message)], store := s.store.(ids := s.store.ids + {id}))
       case None => s)
    case Append(k) =>
      s.(tasks := s.tasks[k := Ended], store := s.store.(stream := s.store.stream + [s.tasks[k].message]),
         stats := Counted(s.stats, Ingested))
    case StoreFails(k) => s.(tasks := s.tasks[k := Ended], failed := s.failed + 1)
  }

  predicate Valid(env: Env, s: State, run: seq<Step>)
    decreases |run|
  {
    run == [] || (Enabled(s, run[0]) && Valid(env, Next(env, s, run[0]), run[1..]))
  }

  function After(env: Env, s: State, run: seq<Step>): State
    requires Valid(env, s, run)
    decreases |run|
  {
    if run == [] then s else After(env, Next(env, s, run[0]), run[1..])
  }

  function Open(tasks: seq<Task>): nat
  {
    if tasks == [] then 0 else Open(tasks[..|tasks| - 1]) + (if tasks[|tasks| - 1].Ended? then 0 else 1)
  }

  lemma {:induction false} OpenUpdate(tasks: seq<Task>, k: nat, task: Task)
    requires k < |tasks| && !tasks[k].Ended?
    ensures Open(tasks[k := task]) == Open(tasks) - (if task.Ended? then 1 else 0)
    ensures Open(tasks) > 0
  {
    var n := |tasks| - 1;
    if k < n {
      OpenUpdate(tasks[..n], k, task);
      assert tasks[k := task][..n] == tasks[..n][k := task];
    } else {
      assert tasks[k := task][..n] == tasks[..n];
    }
  }

  predicate Balanced(s: State) { s.stats.received == Outcomes(s.stats) + Open(s.tasks) + s.failed }

  lemma BalancedKept(env: Env, s: State, step: Step)
    requires Enabled(s, step) && Balanced(s)
    ensures Balanced(Next(env, s, step))
  {
    hide IsExcluded, StripReplayPrefix;
    match step
    case Arrive(connection, message) =>
      var task := Start(env, Remembered(s, connection), message).0;
      assert (s.tasks + [task])[..|s.tasks|] == s.tasks;
    case Claim(k) =>
      OpenUpdate(s.tasks, k, Ended);
      OpenUpdate(s.tasks, k, Appending(s.tasks[k].message));
    case Append(k) => OpenUpdate(s.tasks, k, Ended);
    case StoreFails(k) => OpenUpdate(s.tasks, k, Ended);
  }

  // ---------------------------------------------------------------- each id at most once

  function IdOf(env: Env, message: Raw): Option<string> { env.parseId(message.payload) }

  ghost predicate AppendedOnce(env: Env, s: State)
  {
    && (forall i :: 0 <= i < |s.store.stream| ==> IdOf(env, s.store.stream[i]).Some? && IdOf(env, s.store.stream[i]).value in s.store.ids)
    && (forall i, j :: 0 <= i < j < |s.store.stream| ==> IdOf(env, s.store.stream[i]) != IdOf(env, s.store.stream[j]))
    && (forall k :: 0 <= k < |s.tasks| && s.tasks[k].Appending? ==>
          (IdOf(env, s.tasks[k].message).Some? && IdOf(env, s.tasks[k].message).value in s.store.ids))
    && (forall k, l :: 0 <= k < l < |s.tasks| && s.tasks[k].Appending? && s.tasks[l].Appending? ==>
          IdOf(env, s.tasks[k].message) != IdOf(env, s.tasks[l].message))
    && (forall k, i :: 0 <= k < |s.tasks| && s.tasks[k].Appending? && 0 <= i < |s.store.stream| ==>
          IdOf(env, s.tasks[k].message) != IdOf(env, s.store.stream[i]))
  }

  lemma AppendedOnceKept(env: Env, s: State, step: Step)
    requires Enabled(s, step) && AppendedOnce(env, s)
    ensures AppendedOnce(env, Next(env, s, step))
  {
    hide IsExcluded, StripReplayPrefix, Counted;
  }

  /** Nothing has happened yet: createIngestStats and an empty store. */
  ghost predicate Fresh(s: State)
  {
    && s.caches == map[] && s.store.ids == {} && s.store.stream == [] && |s.tasks| == 0 && s.failed == 0
    && AllZero(s.stats)
  }

  lemma EmptyIsOnce(env: Env, s: State)
    requires s.tasks == [] && s.store.stream == []
    ensures AppendedOnce(env, s)
  {
  }

  lemma EmptyIsBalanced(s: State)
    requires |s.tasks| == 0 && s.failed == 0 && AllZero(s.stats)
    ensures Balanced(s)
  {
    hide AllZero, Outcomes;
    NoOutcomes(s.stats);
  }

  lemma NoOutcomes(stats: Stats)
    requires AllZero(stats)
    ensures stats.received == 0 && Outcomes(stats) == 0
  {
  }

  predicate AllZero(stats: Stats)
  {
    stats.received == 0 && stats.repeated == 0 && stats.excluded == 0 && stats.malformed == 0 &&
    stats.duplicate == 0 && stats.ingested == 0
  }

  lemma {:induction false} OverlapRun(env: Env, s: State, run: seq<Step>)
    requires Valid(env, s, run) && Balanced(s) && AppendedOnce(env, s)
    ensures Balanced(After(env, s, run)) && AppendedOnce(env, After(env, s, run))
    decreases |run|
  {
    hide Next, Enabled, Balanced, AppendedOnce;
    if run != [] {
      BalancedKept(env, s, run[0]);
      AppendedOnceKept(env, s, run[0]);
      OverlapRun(env, Next(env, s, run[0]), run[1..]);
    }
  }

  /** Even when handler runs overlap and store calls fail: no id is appended twice, and every message
      received is counted under exactly one outcome, still open, or failed. */
  lemma OverlappingHandlers(env: Env, s: State, run: seq<Step>)
    requires Fresh(s) && Valid(env, s, run)
    ensures var e := After(env, s, run);
            && e.stats.received == e.stats.repeated + e.stats.excluded + e.stats.malformed + e.stats.duplicate
                                   + e.stats.ingested + Open(e.tasks) + e.failed
            && (forall i, j :: 0 <= i < j < |e.store.stream| ==> IdOf(env, e.store.stream[i]) != IdOf(env, e.store.stream[j]))
  {
    hide Valid, After, Balanced, AppendedOnce, Open, AllZero;
    EmptyIsOnce(env, s);
    EmptyIsBalanced(s);
    OverlapRun(env, s, run);
    BalanceMeans(After(env, s, run));
    OnceMeans(env, After(env, s, run));
  }

  lemma BalanceMeans(e: State)
    requires Balanced(e)
    ensures e.stats.received == e.stats.repeated + e.stats.excluded + e.stats.malformed + e.stats.duplicate
                                + e.stats.ingested + Open(e.tasks) + e.failed
  {
  }

  lemma OnceMeans(env: Env, e: State)
    requires AppendedOnce(env, e)
    ensures forall i, j :: 0 <= i < j < |e.store.stream| ==> IdOf(env, e.store.stream[i]) != IdOf(env, e.store.stream[j])
  {
  }

  // ---------------------------------------------------------------- overlapping runs with and without the cache

  function IdsOf(env: Env, message: Raw): set<string>
  {
    if IdOf(env, message).Some? then {IdOf(env, message).value} else {}
  }

  /** The ids of the messages that arrive and are neither excluded nor malformed. */
  function Announced(env: Env, run: seq<Step>): set<string>
  {
    if run == [] then {} else AnnouncedBy(env, run[0]) + Announced(env, run[1..])
  }

  function AnnouncedBy(env: Env, step: Step): set<string>
  {
    if step.Arrive? && !Rejected(env, step.message) then IdsOf(env, step.message) else {}
  }

  /** The ids whose claim failed at least once. */
  function LostClaims(env: Env, s: State, run: seq<Step>): set<string>
    requires Valid(env, s, run)
    decreases |run|
  {
    if run == [] then {} else LostClaim(env, s, run[0]) + LostClaims(env, Next(env, s, run[0]), run[1..])
  }

  function LostClaim(env: Env, s: State, step: Step): set<string>
    requires Enabled(s, step)
  {
    if step.StoreFails? && s.tasks[step.k].Claiming? then IdsOf(env, s.tasks[step.k].message) else {}
  }

  /** The claimed ids whose append failed. */
  function LostAppends(env: Env, s: State, run: seq<Step>): set<string>
    requires Valid(env, s, run)
    decreases |run|
  {
    if run == [] then {} else LostAppend(env, s, run[0]) + LostAppends(env, Next(env, s, run[0]), run[1..])
  }

  function LostAppend(env: Env, s: State, step: Step): set<string>
    requires Enabled(s, step)
  {
    if step.StoreFails? && s.tasks[step.k].Appending? then IdsOf(env, s.tasks[step.k].message) else {}
  }

  function ClaimingIds(env: Env, tasks: seq<Task>): set<string>
  {
    set k, id | 0 <= k < |tasks| && tasks[k].Claiming? && id in IdsOf(env, tasks[k].message) :: id
  }

  function AppendingIds(env: Env, tasks: seq<Task>): set<string>
  {
    set k, id | 0 <= k < |tasks| && tasks[k].Appending? && id in IdsOf(env, tasks[k].message) :: id
  }

  function StreamIds(env: Env, stream: seq<Raw>): set<string>
  {
    set i, id | 0 <= i < |stream| && id in IdsOf(env, stream[i]) :: id
  }

  /** An announced id is claimed, about to be claimed, or had a failing claim; and a remembered payload was
      announced. */
  ghost predicate ClaimsAccounted(env: Env, s: State, announced: set<string>, lost: set<string>)
  {
    && announced == s.store.ids + ClaimingIds(env, s.tasks) + lost
    && (forall k :: 0 <= k < |s.tasks| && s.tasks[k].Claiming? ==> IdOf(env, s.tasks[k].message).Some?)
    && (forall c, topic :: c in s.caches && topic in s.caches[c] ==>
          (Rejected(env, Raw(topic, s.caches[c][topic])) || IdsOf(env, Raw(topic, s.caches[c][topic])) <= announced))
  }

  /** A claimed id is in the stream, about to be appended, or had a failing append: one of the three. */
  ghost predicate AppendsAccounted(env: Env, s: State, lost: set<string>)
  {
    && AppendedOnce(env, s)
    && s.store.ids == StreamIds(env, s.store.stream) + AppendingIds(env, s.tasks) + lost
    && lost !! StreamIds(env, s.store.stream) && lost !! AppendingIds(env, s.tasks)
  }

  lemma TaskAdded(env: Env, tasks: seq<Task>, task: Task)
    requires !task.Appending?
    ensures ClaimingIds(env, tasks + [task]) == ClaimingIds(env, tasks) + if task.Claiming? then IdsOf(env, task.message) else {}
    ensures AppendingIds(env, tasks + [task]) == AppendingIds(env, tasks)
  {
    var after := tasks + [task];
    assert after[|tasks|] == task && forall k :: 0 <= k < |tasks| ==> after[k] == tasks[k];
    hide IdsOf;
  }

  lemma ClaimOver(env: Env, tasks: seq<Task>, k: nat, task: Task)
    requires k < |tasks| && tasks[k].Claiming? && !task.Claiming?
    ensures ClaimingIds(env, tasks) == ClaimingIds(env, tasks[k := task]) + IdsOf(env, tasks[k].message)
    ensures AppendingIds(env, tasks[k := task]) == AppendingIds(env, tasks) + if task.Appending? then IdsOf(env, task.message) else {}
  {
    var after := tasks[k := task];
    assert after[k] == task && forall l :: 0 <= l < |tasks| && l != k ==> after[l] == tasks[l];
    hide IdsOf;
    forall id | id in ClaimingIds(env, tasks)
      ensures id in ClaimingIds(env, after) + IdsOf(env, tasks[k].message)
    {
      var l :| 0 <= l < |tasks| && tasks[l].Claiming? && id in IdsOf(env, tasks[l].message);
      if l != k { assert after[l].Claiming? && id in IdsOf(env, after[l].message); }
    }
    forall id | id in AppendingIds(env, tasks)
      ensures id in AppendingIds(env, after)
    {
      var l :| 0 <= l < |tasks| && tasks[l].Appending? && id in IdsOf(env, tasks[l].message);
      assert after[l].Appending? && id in IdsOf(env, after[l].message);
    }
  }

  lemma AppendOver(env: Env, tasks: seq<Task>, k: nat)
    requires k < |tasks| && tasks[k].Appending?
    ensures ClaimingIds(env, tasks[k := Ended]) == ClaimingIds(env, tasks)
    ensures AppendingIds(env, tasks) == AppendingIds(env, tasks[k := Ended]) + IdsOf(env, tasks[k].message)
  {
    var after := tasks[k := Ended];
    assert after[k] == Ended && forall l :: 0 <= l < |tasks| && l != k ==> after[l] == tasks[l];
    hide IdsOf;
    forall id | id in ClaimingIds(env, tasks)
      ensures id in ClaimingIds(env, after)
    {
      var l :| 0 <= l < |tasks| && tasks[l].Claiming? && id in IdsOf(env, tasks[l].message);
      assert after[l].Claiming? && id in IdsOf(env, after[l].message);
    }
    forall id | id in AppendingIds(env, tasks)
      ensures id in AppendingIds(env, after) + IdsOf(env, tasks[k].message)
    {
      var l :| 0 <= l < |tasks| && tasks[l].Appending? && id in IdsOf(env, tasks[l].message);
      if l != k { assert after[l].Appending? && id in IdsOf(env, after[l].message); }
    }
  }

  lemma StreamGrows(env: Env, stream: seq<Raw>, message: Raw)
    ensures StreamIds(env, stream + [message]) == StreamIds(env, stream) + IdsOf(env, message)
  {
    var after := stream + [message];
    assert after[|stream|] == message && forall i :: 0 <= i < |stream| ==> after[i] == stream[i];
    hide IdsOf;
  }

  lemma ClaimsAccountedKept(env: Env, s: State, announced: set<string>, lost: set<string>, step: Step)
    requires Enabled(s, step) && ClaimsAccounted(env, s, announced, lost)
    ensures ClaimsAccounted(env, Next(env, s, step), announced + AnnouncedBy(env, step), lost + LostClaim(env, s, step))
  {
    hide IsExcluded, StripReplayPrefix, Counted, ClaimingIds;
    match step
    case Arrive(c, m) =>
      TaskAdded(env, s.tasks, Start(env, Remembered(s, c), m).0);
      assert Raw(m.topic, m.payload) == m;
    case Claim(k) =>
      ClaimOver(env, s.tasks, k, Ended);
      ClaimOver(env, s.tasks, k, Appending(s.tasks[k].message));
    case Append(k) => AppendOver(env, s.tasks, k);
    case StoreFails(k) =>
      if s.tasks[k].Claiming? { ClaimOver(env, s.tasks, k, Ended); } else { AppendOver(env, s.tasks, k); }
  }

  /** The id being appended is in the stream and in other tasks not at all. */
  lemma AppendingOnce(env: Env, s: State, k: nat)
    requires AppendedOnce(env, s) && k < |s.tasks| && s.tasks[k].Appending?
    ensures IdsOf(env, s.tasks[k].message) <= s.store.ids
    ensures IdsOf(env, s.tasks[k].message) !! StreamIds(env, s.store.stream)
    ensures IdsOf(env, s.tasks[k].message) !! AppendingIds(env, s.tasks[k := Ended])
  {
  }

  lemma AppendEnds(env: Env, s: State, lost: set<string>, k: nat)
    requires AppendsAccounted(env, s, lost) && k < |s.tasks| && s.tasks[k].Appending?
    ensures AppendsAccounted(env, Next(env, s, Append(k)), lost)
    ensures AppendsAccounted(env, Next(env, s, StoreFails(k)), lost + IdsOf(env, s.tasks[k].message))
  {
    AppendedOnceKept(env, s, Append(k));
    AppendedOnceKept(env, s, StoreFails(k));
    AppendingOnce(env, s, k);
    AppendOver(env, s.tasks, k);
    StreamGrows(env, s.store.stream, s.tasks[k].message);
    hide IsExcluded, StripReplayPrefix, Counted, IdsOf, AppendedOnce, AppendingIds, ClaimingIds, StreamIds;
  }

  lemma AppendsAccountedKept(env: Env, s: State, lost: set<string>, step: Step)
    requires Enabled(s, step) && AppendsAccounted(env, s, lost)
    ensures AppendsAccounted(env, Next(env, s, step), lost + LostAppend(env, s, step))
  {
    assert lost + {} == lost;
    if (step.Append? || step.StoreFails?) && s.tasks[step.k].Appending? {
      AppendEnds(env, s, lost, step.k);
      hide Next, AppendsAccounted, IdsOf;
    } else {
      AppendedOnceKept(env, s, step);
      if step.Arrive? {
        TaskAdded(env, s.tasks, Start(env, Remembered(s, step.connection), step.message).0);
      } else {
        ClaimOver(env, s.tasks, step.k, Ended);
        ClaimOver(env, s.tasks, step.k, Appending(s.tasks[step.k].message));
      }
      hide IsExcluded, StripReplayPrefix, Counted, AppendedOnce, AppendingIds, ClaimingIds, StreamIds;
    }
  }

  lemma {:induction false} AccountedRun(env: Env, s: State, run: seq<Step>, announced: set<string>, claims: set<string>, appends: set<string>)
    requires Valid(env, s, run) && ClaimsAccounted(env, s, announced, claims) && AppendsAccounted(env, s, appends)
    ensures ClaimsAccounted(env, After(env, s, run), announced + Announced(env, run), claims + LostClaims(env, s, run))
    ensures AppendsAccounted(env, After(env, s, run), appends + LostAppends(env, s, run))
    decreases |run|
  {
    hide Next, Enabled, ClaimsAccounted, AppendsAccounted, AnnouncedBy, LostClaim, LostAppend;
    if run == [] {
      assert announced + Announced(env, run) == announced && claims + LostClaims(env, s, run) == claims;
      assert appends + LostAppends(env, s, run) == appends;
    } else {
      var t := Next(env, s, run[0]);
      ClaimsAccountedKept(env, s, announced, claims, run[0]);
      AppendsAccountedKept(env, s, appends, run[0]);
      AccountedRun(env, t, run[1..], announced + AnnouncedBy(env, run[0]), claims + LostClaim(env, s, run[0]),
                   appends + LostAppend(env, s, run[0]));
      assert announced + Announced(env, run) == announced + AnnouncedBy(env, run[0]) + Announced(env, run[1..]);
      assert claims + LostClaims(env, s, run) == claims + LostClaim(env, s, run[0]) + LostClaims(env, t, run[1..]);
      assert appends + LostAppends(env, s, run) == appends + LostAppend(env, s, run[0]) + LostAppends(env, t, run[1..]);
    }
  }

  lemma FreshIsAccounted(env: Env, s: State)
    requires |s.tasks| == 0 && s.caches == map[] && s.store.ids == {} && s.store.stream == []
    ensures ClaimsAccounted(env, s, {}, {}) && AppendsAccounted(env, s, {})
  {
    EmptyIsOnce(env, s);
  }

  /** All handler runs are over. */
  predicate Settled(s: State) { forall k :: 0 <= k < |s.tasks| ==> s.tasks[k].Ended? }

  /** With or without the caches and however handler runs overlap: once all are over, the claimed ids and
      those with a failing claim are the announced ones, and the stream holds the claimed ids without those
      whose append failed. */
  lemma ClaimedIds(env: Env, s: State, run: seq<Step>)
    requires Fresh(s) && Valid(env, s, run) && Settled(After(env, s, run))
    ensures var e := After(env, s, run);
            && e.store.ids + LostClaims(env, s, run) == Announced(env, run)
            && LostAppends(env, s, run) <= e.store.ids
            && StreamIds(env, e.store.stream) == e.store.ids - LostAppends(env, s, run)
  {
    hide Valid, After, AllZero, Announced, LostClaims, LostAppends;
    FreshIsAccounted(env, s);
    AccountedRun(env, s, run, {}, {}, {});
    var e := After(env, s, run);
    assert {} + Announced(env, run) == Announced(env, run);
    assert {} + LostClaims(env, s, run) == LostClaims(env, s, run);
    assert {} + LostAppends(env, s, run) == LostAppends(env, s, run);
    assert ClaimingIds(env, e.tasks) == {} && AppendingIds(env, e.tasks) == {};
  }

  /** A corollary: the caches are invisible in overlapping runs too, exactly when every id with a failing
      claim was claimed after all. Compared with handlers without caches that miss nothing, the same messages
      in any order lead to the same ids. */
  lemma SameIdsIff(env: Env, s: State, run: seq<Step>, s': State, run': seq<Step>)
    requires s.caching && Fresh(s) && Valid(env, s, run) && Settled(After(env, s, run))
    requires !s'.caching && Fresh(s') && Valid(env, s', run') && Settled(After(env, s', run'))
    requires Announced(env, run) == Announced(env, run')
    requires LostClaims(env, s', run') <= After(env, s', run').store.ids
    ensures After(env, s, run).store.ids == After(env, s', run').store.ids
            <==> LostClaims(env, s, run) <= After(env, s, run).store.ids
  {
    ClaimedIds(env, s, run);
    ClaimedIds(env, s', run');
    hide Valid, After, Settled, AllZero, Announced, LostClaims, LostAppends;
  }

  /** Why the cache matters then: a payload is remembered before its claim, so after a failing one the same
      payload on that connection is dropped, where a handler without cache claims it. */
  lemma FailedClaimIsRemembered(env: Env, s: State, c: nat, m: Raw)
    requires s.tasks == [] && !Rejected(env, m) && m.topic !in Remembered(s, c)
    ensures var run := [Arrive(c, m), StoreFails(0), Arrive(c, m)];
            && Valid(env, s, run)
            && After(env, s, run).tasks == [Ended, if s.caching then Ended else Claiming(m)]
            && After(env, s, run).store == s.store
  {
    hide IsExcluded, StripReplayPrefix;
    var a := Arrive(c, m);
    var s1 := Next(env, s, a);
    assert s1.tasks == [Claiming(m)];
    var s2 := Next(env, s1, StoreFails(0));
    assert s2.tasks == [Ended];
    assert CacheOf(s1.caches, c)[m.topic] == m.payload;
    var s3 := Next(env, s2, a);
    assert s3.tasks == [Ended, if s.caching then Ended else Claiming(m)];
    hide Next;
    var run := [a, StoreFails(0), a];
    assert run[1..] == [StoreFails(0), a] && run[2..] == [a] && run[3..] == [];
    RunsOn(env, s2, [a]);
    RunsOn(env, s1, [StoreFails(0), a]);
    RunsOn(env, s, run);
  }

  lemma RunsOn(env: Env, s: State, run: seq<Step>)
    requires run != [] && Enabled(s, run[0]) && Valid(env, Next(env, s, run[0]), run[1..])
    ensures Valid(env, s, run) && After(env, s, run) == After(env, Next(env, s, run[0]), run[1..])
  {
  }
}
