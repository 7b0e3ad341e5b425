/** The shared election hash: heartbeats, parsing, choosing the primary and finding stale fields. */
module Election {
  import opened Text
  import opened Records

  type Info = map<string, string>

  type Workers = map<string, Info>

  const ELECTION_ALIVE_MS := 8000
  const ELECTION_STALE_MS := 60000

  // ---------------------------------------------------------------- keys

  /** `<worker>:<field>` read back at its last colon. */
  function SplitKey(key: string): (string, string)
  {
    var colon := LastIndexOf(key, ':');
    if colon == -1 then ("", key) else (key[..colon], key[colon + 1..])
  }

  function Key(worker: string, field: string): string { worker + (":" + field) }

  lemma SplitOfKey(worker: string, field: string)
    requires ':' !in field
    ensures SplitKey(Key(worker, field)) == (worker, field)
  {
    var key := Key(worker, field);
    assert LastAt(key, ':', |worker|);
    assert key[..|worker|] == worker && key[|worker| + 1..] == field;
  }

  lemma KeyOfSplit(key: string)
    requires ':' in key
    ensures Key(SplitKey(key).0, SplitKey(key).1) == key && ':' !in SplitKey(key).1
  {
  }

  // ---------------------------------------------------------------- parseElectionHash

  function AddField(workers: Workers, key: string, value: string): Workers
  {
    var (worker, field) := SplitKey(key);
    workers[worker := (if worker in workers then workers[worker] else map[])[field := value]]
  }

  /** The workers a flat array of pairs stands for; a trailing key without a value is not read. */
  function ParseFlat(flat: seq<string>): Workers
  {
    if |flat| < 2 then map[]
    else if |flat| % 2 == 1 then ParseFlat(flat[..|flat| - 1])
    else AddField(ParseFlat(flat[..|flat| - 2]), flat[|flat| - 2], flat[|flat| - 1])
  }

  method ParseElectionHash(flat: seq<string>) returns (workers: Workers)
    ensures workers == ParseFlat(flat)
  {
    workers := map[];
    var i := 0;
    while i < |flat| - 1
      invariant 0 <= i <= |flat| && i % 2 == 0
      invariant workers == ParseFlat(flat[..i])
    {
      assert flat[..i + 2][..|flat[..i + 2]| - 2] == flat[..i];
      workers := AddField(workers, flat[i], flat[i + 1]);
      i := i + 2;
    }
    if |flat| % 2 == 1 { assert flat[..|flat| - 1] == flat[..i]; } else { assert flat[..i] == flat; }
  }

  ghost predicate Keyed(rec: Record) { forall k :: 0 <= k < |rec| ==> ':' in rec[k].field }

  function Has(workers: Workers, worker: string, field: string, value: string): bool
  {
    worker in workers && field in workers[worker] && workers[worker][field] == value
  }

  /** What is parsed depends on the hash alone, not on the order it was listed in. */
  lemma {:induction false} ParsedIsTheHash(rec: Record, worker: string, field: string, value: string)
    requires Keyed(rec)
    ensures Has(ParseFlat(Flatten(rec)), worker, field, value) <==>
            (':' !in field && Key(worker, field) in AsMap(rec) && AsMap(rec)[Key(worker, field)] == value)
  {
    if rec != [] {
      var init, last := rec[..|rec| - 1], rec[|rec| - 1];
      ParsedIsTheHash(init, worker, field, value);
      ParseLast(init, last);
      KeyOfSplit(last.field);
      if ':' !in field { SplitOfKey(worker, field); }
      assert init + [last] == rec;
      hide ParseFlat, Flatten, SplitKey, Key;
    }
  }

  lemma ParseLast(init: Record, last: Pair)
    ensures ParseFlat(Flatten(init + [last])) == AddField(ParseFlat(Flatten(init)), last.field, last.value)
  {
    var rec := init + [last];
    assert rec[..|rec| - 1] == init;
    var flat := Flatten(rec);
    assert flat == Flatten(init) + [last.field, last.value];
    assert flat[..|flat| - 2] == Flatten(init);
  }

  // ---------------------------------------------------------------- heartbeats

  datatype Roles = Roles(subscriber: bool, downloader: bool, cleaner: bool, reporter: bool, replayer: bool)

  function BoolText(b: bool): string { if b then "true" else "false" }

  /** The nine fields of a worker, in the order they are written. */
  function HeartbeatRecord(now: nat, uuid: string, roles: Roles, s3: bool, topics: string): Record
  {
    [Pair("ts", Decimal(now)), Pair("uuid", uuid), Pair("subscriber", BoolText(roles.subscriber)),
     Pair("downloader", BoolText(roles.downloader)), Pair("cleaner", BoolText(roles.cleaner)),
     Pair("reporter", BoolText(roles.reporter)), Pair("replayer", BoolText(roles.replayer)),
     Pair("s3", BoolText(s3)), Pair("topics", topics)]
  }

  /** The same fields as keys of the shared hash. */
  function Prefixed(worker: string, rec: Record): (r: Record)
    ensures |r| == |rec| && forall k :: 0 <= k < |rec| ==> r[k] == Pair(Key(worker, rec[k].field), rec[k].value)
  {
    seq(|rec|, k requires 0 <= k < |rec| => Pair(Key(worker, rec[k].field), rec[k].value))
  }

  /** buildHeartbeatFields. */
  function BuildHeartbeatFields(worker: string, now: nat, uuid: string, roles: Roles, s3: bool, topics: string): seq<string>
  {
    [Key(worker, "ts"), Decimal(now), Key(worker, "uuid"), uuid, Key(worker, "subscriber"), BoolText(roles.subscriber),
     Key(worker, "downloader"), BoolText(roles.downloader), Key(worker, "cleaner"), BoolText(roles.cleaner),
     Key(worker, "reporter"), BoolText(roles.reporter), Key(worker, "replayer"), BoolText(roles.replayer),
     Key(worker, "s3"), BoolText(s3), Key(worker, "topics"), topics]
  }

  ghost predicate PlainFields(rec: Record) { forall k :: 0 <= k < |rec| ==> ':' !in rec[k].field }

  lemma AddPrefixed(worker: string, init: Record, last: Pair, before: Workers)
    requires SplitKey(Key(worker, last.field)) == (worker, last.field)
    requires before == if init == [] then map[] else map[worker := AsMap(init)]
    ensures AddField(before, Key(worker, last.field), last.value) == map[worker := AsMap(init + [last])]
  {
    hide SplitKey, Key;
    assert (init + [last])[..|init|] == init;
  }

  /** Parsing undoes prefixing, for any worker name, colons included. */
  lemma {:induction false} ParsePrefixed(worker: string, rec: Record)
    requires PlainFields(rec)
    ensures ParseFlat(Flatten(Prefixed(worker, rec))) == if rec == [] then map[] else map[worker := AsMap(rec)]
  {
    if rec == [] {
      assert Flatten(Prefixed(worker, rec)) == [];
    } else {
      hide ParseFlat, Flatten, SplitKey, Key, Prefixed, AsMap, AddField;
      var init, last := rec[..|rec| - 1], rec[|rec| - 1];
      assert init + [last] == rec;
      ParsePrefixed(worker, init);
      SplitOfKey(worker, last.field);
      var p := Pair(Key(worker, last.field), last.value);
      ParseLast(Prefixed(worker, init), p);
      assert Prefixed(worker, rec) == Prefixed(worker, init) + [p];
      AddPrefixed(worker, init, last, ParseFlat(Flatten(Prefixed(worker, init))));
    }
  }

  /** The array written is the nine pairs, flattened. */
  lemma HeartbeatIsFlattened(worker: string, now: nat, uuid: string, roles: Roles, s3: bool, topics: string)
    ensures BuildHeartbeatFields(worker, now, uuid, roles, s3, topics) == Flatten(Prefixed(worker, HeartbeatRecord(now, uuid, roles, s3, topics)))
  {
    var rec := HeartbeatRecord(now, uuid, roles, s3, topics);
    var flat, built := Flatten(Prefixed(worker, rec)), BuildHeartbeatFields(worker, now, uuid, roles, s3, topics);
    hide Flatten, Key, Prefixed, Decimal, BoolText, HeartbeatRecord;
    HeartbeatParts(worker, now, uuid, roles, s3, topics);
    forall k: nat | k < 9
      ensures flat[2 * k] == built[2 * k] && flat[2 * k + 1] == built[2 * k + 1]
    {
      FlattenAt(Prefixed(worker, rec), k);
    }
    forall i | 0 <= i < 18
      ensures flat[i] == built[i]
    {
      assert i == 2 * (i / 2) || i == 2 * (i / 2) + 1;
    }
  }

  lemma NinePairs(worker: string, r: Record, built: seq<string>)
    requires |r| == 9
    requires built == [Key(worker, r[0].field), r[0].value, Key(worker, r[1].field), r[1].value, Key(worker, r[2].field), r[2].value,
                       Key(worker, r[3].field), r[3].value, Key(worker, r[4].field), r[4].value, Key(worker, r[5].field), r[5].value,
                       Key(worker, r[6].field), r[6].value, Key(worker, r[7].field), r[7].value, Key(worker, r[8].field), r[8].value]
    ensures |built| == 18
    ensures forall k: nat :: k < 9 ==> built[2 * k] == Key(worker, r[k].field) && built[2 * k + 1] == r[k].value
  {
    hide Key;
  }

  lemma HeartbeatParts(worker: string, now: nat, uuid: string, roles: Roles, s3: bool, topics: string)
    ensures var rec, built := HeartbeatRecord(now, uuid, roles, s3, topics), BuildHeartbeatFields(worker, now, uuid, roles, s3, topics);
            |rec| == 9 && |built| == 18 &&
            forall k: nat :: k < 9 ==> built[2 * k] == Key(worker, rec[k].field) && built[2 * k + 1] == rec[k].value
  {
    hide Key, Decimal, BoolText;
    NinePairs(worker, HeartbeatRecord(now, uuid, roles, s3, topics), BuildHeartbeatFields(worker, now, uuid, roles, s3, topics));
  }

  lemma HeartbeatFieldsPlain(now: nat, uuid: string, roles: Roles, s3: bool, topics: string)
    ensures PlainFields(HeartbeatRecord(now, uuid, roles, s3, topics))
  {
    hide Decimal, BoolText;
  }

  /** Reading back what one replica announces gives that worker, under its own name whatever colons it has,
      with exactly the nine values written. */
  lemma HeartbeatRoundTrip(worker: string, now: nat, uuid: string, roles: Roles, s3: bool, topics: string)
    ensures ParseFlat(BuildHeartbeatFields(worker, now, uuid, roles, s3, topics)) ==
            map[worker := AsMap(HeartbeatRecord(now, uuid, roles, s3, topics))]
  {
    HeartbeatIsFlattened(worker, now, uuid, roles, s3, topics);
    HeartbeatFieldsPlain(now, uuid, roles, s3, topics);
    ParsePrefixed(worker, HeartbeatRecord(now, uuid, roles, s3, topics));
    hide ParseFlat, Flatten, BuildHeartbeatFields, Prefixed, AsMap;
  }

  // ---------------------------------------------------------------- decideElection

  /** `now - parseFloat(ts ?? '0') >= limit`; a timestamp that is no number is never old. */
  predicate IsOld(info: Info, now: int, limit: int)
  {
    var ts := ParseInt(if "ts" in info then info["ts"] else "0");
    ts.Some? && now - ts.value >= limit
  }

  predicate Candidate(info: Info, role: string, now: int)
  {
    && role in info && info[role] == "true"
    && !IsOld(info, now, ELECTION_ALIVE_MS)
    && "uuid" in info && info["uuid"] != ""
  }

  lemma HeartbeatDistinct(at: nat, uuid: string, roles: Roles, s3: bool, topics: string)
    ensures Distinct(HeartbeatRecord(at, uuid, roles, s3, topics))
  {
    hide Decimal, BoolText;
    var rec := HeartbeatRecord(at, uuid, roles, s3, topics);
    assert |"ts"| == 2 && |"uuid"| == 4 && |"subscriber"| == 10 && |"downloader"| == 10 && |"cleaner"| == 7 && |"reporter"| == 8
        && |"replayer"| == 8 && |"s3"| == 2 && |"topics"| == 6;
    assert "ts"[0] == 't' && "s3"[0] == 's' && "subscriber"[0] == 's' && "downloader"[0] == 'd' && "reporter"[3] == 'o' && "replayer"[3] == 'l';
  }

  /** A worker's own heartbeat of time `at`: who counts for a role, how old is too old, and what else it tells. */
  lemma HeartbeatCounts(at: nat, uuid: string, roles: Roles, s3: bool, topics: string, now: int, limit: int)
    ensures var info := AsMap(HeartbeatRecord(at, uuid, roles, s3, topics));
            && (IsOld(info, now, limit) <==> now - at >= limit)
            && (Candidate(info, "subscriber", now) <==> roles.subscriber && now - at < 8000 && uuid != "")
            && (Candidate(info, "downloader", now) <==> roles.downloader && now - at < 8000 && uuid != "")
            && (Candidate(info, "cleaner", now) <==> roles.cleaner && now - at < 8000 && uuid != "")
            && (Candidate(info, "reporter", now) <==> roles.reporter && now - at < 8000 && uuid != "")
            && (Candidate(info, "replayer", now) <==> roles.replayer && now - at < 8000 && uuid != "")
            && "uuid" in info && info["uuid"] == uuid && "topics" in info && info["topics"] == topics
            && "s3" in info && info["s3"] == (if s3 then "true" else "false")
  {
    var rec := HeartbeatRecord(at, uuid, roles, s3, topics);
    var info := AsMap(rec);
    HeartbeatFieldsPlain(at, uuid, roles, s3, topics);
    HeartbeatDistinct(at, uuid, roles, s3, topics);
    forall k | 0 <= k < |rec|
      ensures rec[k].field in info && info[rec[k].field] == rec[k].value
    {
      AsMapEntry(rec, k);
    }
    assert rec[0] == Pair("ts", Decimal(at)) && rec[1] == Pair("uuid", uuid) && rec[2].field == "subscriber" && rec[3].field == "downloader"
        && rec[4].field == "cleaner" && rec[5].field == "reporter" && rec[6].field == "replayer" && rec[7].field == "s3" && rec[8] == Pair("topics", topics);
    PrintRoundTrip(at);
    assert "true" != "false";
    hide AsMap, Decimal, ParseInt;
  }

  /** The uuids of the live holders of a role. */
  function Uuids(workers: Workers, role: string, now: int): set<string>
  {
    set w | w in workers && Candidate(workers[w], role, now) :: workers[w]["uuid"]
  }

  ghost predicate Smallest(uuids: set<string>, uuid: string)
  {
    uuid in uuids && forall other :: other in uuids ==> other == uuid || Less(uuid, other)
  }

  /** The loop over the workers, in whatever order they are enumerated. */
  method DecideElection(workers: Workers, role: string, myUuid: string, now: int) returns (primary: bool)
    ensures primary <==> Smallest(Uuids(workers, role, now), myUuid)
  {
    hide Smallest, Less, Candidate, IsOld, UuidsOf, Uuids;
    var minUuid: Option<string> := None;
    var left := workers.Keys;
    ghost var seen: set<string> := {};
    UuidsEnds(workers, role, now);
    while left != {}
      invariant left <= workers.Keys
      invariant seen == UuidsOf(workers, workers.Keys - left, role, now)
      invariant minUuid.None? ==> seen == {}
      invariant minUuid.Some? ==> Smallest(seen, minUuid.value)
      decreases |left|
    {
      var w :| w in left;
      assert workers.Keys - (left - {w}) - {w} == workers.Keys - left;
      left := left - {w};
      UuidsAdd(workers, workers.Keys - left, w, role, now);
      var info := workers[w];
      if Candidate(info, role, now) {
        CandidateUuid(info, role, now);
        SmallestAdd(seen, minUuid, info["uuid"]);
        seen := seen + {info["uuid"]};
        if minUuid.None? || Less(info["uuid"], minUuid.value) { minUuid := Some(info["uuid"]); }
      }
    }
    assert workers.Keys - left == workers.Keys;
    primary := minUuid == Some(myUuid);
    SmallestIs(seen, minUuid, myUuid);
  }

  lemma CandidateUuid(info: Info, role: string, now: int)
    requires Candidate(info, role, now)
    ensures "uuid" in info
  {
  }

  lemma UuidsEnds(workers: Workers, role: string, now: int)
    ensures UuidsOf(workers, workers.Keys - workers.Keys, role, now) == {}
    ensures UuidsOf(workers, workers.Keys, role, now) == Uuids(workers, role, now)
  {
  }

  lemma SmallestIs(uuids: set<string>, least: Option<string>, uuid: string)
    requires least.None? ==> uuids == {}
    requires least.Some? ==> Smallest(uuids, least.value)
    ensures least == Some(uuid) <==> Smallest(uuids, uuid)
  {
    if least.Some? && Smallest(uuids, uuid) { SmallestUnique(uuids, least.value, uuid); }
  }

  function UuidsOf(workers: Workers, names: set<string>, role: string, now: int): set<string>
  {
    set w | w in names && w in workers && Candidate(workers[w], role, now) :: workers[w]["uuid"]
  }

  lemma UuidsAdd(workers: Workers, names: set<string>, w: string, role: string, now: int)
    requires w in names && w in workers
    ensures Candidate(workers[w], role, now) ==> "uuid" in workers[w]
    ensures UuidsOf(workers, names, role, now) ==
            UuidsOf(workers, names - {w}, role, now) + (if Candidate(workers[w], role, now) then {workers[w]["uuid"]} else {})
  {
    if Candidate(workers[w], role, now) { CandidateUuid(workers[w], role, now); }
    hide Candidate, IsOld;
  }

  lemma SmallestAdd(seen: set<string>, least: Option<string>, uuid: string)
    requires least.None? ==> seen == {}
    requires least.Some? ==> Smallest(seen, least.value)
    ensures Smallest(seen + {uuid}, if least.None? || Less(uuid, least.value) then uuid else least.value)
  {
    if least.Some? {
      LessTotal(uuid, least.value);
      if Less(uuid, least.value) {
        forall other | other in seen
          ensures other == uuid || Less(uuid, other)
        {
          if other != least.value { LessTransitive(uuid, least.value, other); }
        }
      }
    }
    hide Less;
  }

  lemma SmallestUnique(uuids: set<string>, a: string, b: string)
    requires Smallest(uuids, a) && Smallest(uuids, b)
    ensures a == b
  {
    if a != b {
      LessTransitive(a, b, a);
      LessIrreflexive(a);
    }
  }
}
