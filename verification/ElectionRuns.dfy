/** What an election gives for one snapshot, and what heartbeats and reaping keep of the shared hash. */
module ElectionRuns {
  import opened Text
  import opened Records
  import opened Election

  // ---------------------------------------------------------------- one snapshot, one clock

  lemma {:induction false} SmallestExists(uuids: set<string>) returns (least: string)
    requires uuids != {}
    ensures Smallest(uuids, least)
    decreases |uuids|
  {
    var u :| u in uuids;
    if uuids == {u} {
      least := u;
    } else {
      var rest := uuids - {u};
      assert uuids == rest + {u};
      var other := SmallestExists(rest);
      SmallestAdd(rest, Some(other), u);
      least := if Less(u, other) then u else other;
      assert rest + {u} == uuids;
    }
  }

  /** The worker that DecideElection answers `primary` to. */
  ghost predicate Primary(workers: Workers, role: string, now: int, w: string)
  {
    w in workers && Candidate(workers[w], role, now) && Smallest(Uuids(workers, role, now), workers[w]["uuid"])
  }

  ghost predicate DistinctUuids(workers: Workers, role: string, now: int)
  {
    forall v, w ::
      (v in workers && w in workers && Candidate(workers[v], role, now) && Candidate(workers[w], role, now) &&
       workers[v]["uuid"] == workers[w]["uuid"]) ==> v == w
  }

  /** With distinct uuids and a live holder of the role, exactly one live holder is the primary. */
  lemma ExactlyOnePrimary(workers: Workers, role: string, now: int, holder: string) returns (w: string)
    requires holder in workers && Candidate(workers[holder], role, now) && DistinctUuids(workers, role, now)
    ensures Primary(workers, role, now, w)
    ensures forall v :: Primary(workers, role, now, v) ==> v == w
  {
    var uuids := Uuids(workers, role, now);
    assert workers[holder]["uuid"] in uuids;
    var least := SmallestExists(uuids);
    w :| w in workers && Candidate(workers[w], role, now) && workers[w]["uuid"] == least;
    forall v | Primary(workers, role, now, v)
      ensures v == w
    {
      SmallestUnique(uuids, workers[v]["uuid"], least);
    }
  }

  /** The time a worker announced last, 0 without one, None when it is no number. */
  function TimeOf(info: Info): Option<int> { ParseInt(if "ts" in info then info["ts"] else "0") }

  /** A holder with a smaller uuid than the primary's is one whose heartbeat is at least 8000 ms old. */
  lemma OvertakenOnlyWhenOld(workers: Workers, role: string, now: int, w: string, v: string)
    requires Primary(workers, role, now, w)
    requires v in workers && role in workers[v] && workers[v][role] == "true" && "uuid" in workers[v] && workers[v]["uuid"] != ""
    requires Less(workers[v]["uuid"], workers[w]["uuid"])
    ensures TimeOf(workers[v]).Some? && now - TimeOf(workers[v]).value >= 8000
  {
    if !IsOld(workers[v], now, ELECTION_ALIVE_MS) {
      var a, b := workers[v]["uuid"], workers[w]["uuid"];
      assert a in Uuids(workers, role, now);
      LessIrreflexive(a);
      if Less(b, a) { LessTransitive(a, b, a); }
    }
  }

  /** A worker whose fields are being reaped is never the primary of the same snapshot. */
  lemma ReapedIsNotPrimary(workers: Workers, role: string, now: int, w: string)
    requires w in workers && TimeOf(workers[w]).Some? && now - TimeOf(workers[w]).value >= 60000
    ensures !Primary(workers, role, now, w)
  {
  }

  // ---------------------------------------------------------------- the order of the listing

  lemma {:induction false} NoEmptyInfo(rec: Record, w: string)
    requires w in ParseFlat(Flatten(rec))
    ensures exists field :: field in ParseFlat(Flatten(rec))[w]
  {
    if rec != [] {
      var init, last := rec[..|rec| - 1], rec[|rec| - 1];
      assert init + [last] == rec;
      ParseLast(init, last);
      var (worker, field) := SplitKey(last.field);
      if w != worker {
        NoEmptyInfo(init, w);
      } else {
        assert field in ParseFlat(Flatten(rec))[w];
      }
    }
  }

  lemma SameInfo(one: Record, other: Record, w: string)
    requires Keyed(one) && Keyed(other) && AsMap(one) == AsMap(other) && w in ParseFlat(Flatten(one))
    ensures w in ParseFlat(Flatten(other)) && ParseFlat(Flatten(one))[w] == ParseFlat(Flatten(other))[w]
  {
    NoEmptyInfo(one, w);
    var a, b := ParseFlat(Flatten(one)), ParseFlat(Flatten(other));
    hide ParseFlat, Flatten, AsMap, Key;
    forall field, value
      ensures Has(a, w, field, value) <==> Has(b, w, field, value)
    {
      ParsedIsTheHash(one, w, field, value);
      ParsedIsTheHash(other, w, field, value);
    }
    var field :| field in a[w];
    assert Has(b, w, field, a[w][field]);
    SameFields(a, b, w);
  }

  lemma SameFields(a: Workers, b: Workers, w: string)
    requires w in a && w in b && forall field, value :: Has(a, w, field, value) <==> Has(b, w, field, value)
    ensures a[w] == b[w]
  {
    forall field
      ensures field in a[w] <==> field in b[w]
      ensures field in a[w] ==> a[w][field] == b[w][field]
    {
      if field in a[w] { assert Has(a, w, field, a[w][field]); }
      if field in b[w] { assert Has(b, w, field, b[w][field]); }
    }
    assert a[w].Keys == b[w].Keys;
  }

  /** Two listings of the same hash parse to the same workers, so elect the same primary. */
  lemma ListingIrrelevant(one: Record, other: Record)
    requires Keyed(one) && Keyed(other) && AsMap(one) == AsMap(other)
    ensures ParseFlat(Flatten(one)) == ParseFlat(Flatten(other))
  {
    var a, b := ParseFlat(Flatten(one)), ParseFlat(Flatten(other));
    forall w
      ensures w in a <==> w in b
      ensures w in a ==> a[w] == b[w]
    {
      if w in a { SameInfo(one, other, w); }
      if w in b { SameInfo(other, one, w); }
    }
    assert a.Keys == b.Keys;
  }

  // ---------------------------------------------------------------- findStaleFields

  function StaleKeys(workers: Workers, now: int): set<string>
  {
    set w, field | w in workers && IsOld(workers[w], now, ELECTION_STALE_MS) && field in workers[w] :: Key(w, field)
  }

  /** All keys of the workers in a set of names that are stale. */
  function StaleAmong(workers: Workers, names: set<string>, now: int): set<string>
  {
    set w, field | w in names && w in workers && IsOld(workers[w], now, ELECTION_STALE_MS) && field in workers[w] :: Key(w, field)
  }

  /** The key belongs to a worker whose last heartbeat is a minute old. */
  ghost predicate IsStaleKey(workers: Workers, now: int, key: string)
  {
    exists w, field :: w in workers && field in workers[w] && key == Key(w, field) && TimeOf(workers[w]).Some? && now - TimeOf(workers[w]).value >= 60000
  }

  lemma StaleKeysAre(workers: Workers, now: int)
    ensures forall key :: key in StaleKeys(workers, now) <==> IsStaleKey(workers, now, key)
  {
    hide Key, ParseInt;
  }

  method FindStaleFields(workers: Workers, now: int) returns (staleFields: seq<string>)
    ensures forall key :: key in staleFields <==> key in StaleKeys(workers, now)
    ensures forall key :: key in staleFields <==> IsStaleKey(workers, now, key)
  {
    StaleKeysAre(workers, now);
    hide IsStaleKey;
    hide Key, IsOld, StaleKeys, StaleAmong;
    staleFields := [];
    var left := workers.Keys;
    StaleEnds(workers, now);
    while left != {}
      invariant left <= workers.Keys
      invariant forall key :: key in staleFields <==> key in StaleAmong(workers, workers.Keys - left, now)
      decreases |left|
    {
      var w :| w in left;
      assert workers.Keys - (left - {w}) - {w} == workers.Keys - left;
      left := left - {w};
      StaleAdd(workers, workers.Keys - left, w, now);
      if IsOld(workers[w], now, ELECTION_STALE_MS) {
        var more := KeysOf(w, workers[w]);
        staleFields := staleFields + more;
      }
    }
    assert workers.Keys - left == workers.Keys;
  }

  /** The keys of one worker's fields. */
  function FieldKeys(w: string, fields: set<string>): set<string> { set field | field in fields :: Key(w, field) }

  method KeysOf(w: string, info: Info) returns (keys: seq<string>)
    ensures forall key :: key in keys <==> key in FieldKeys(w, info.Keys)
  {
    hide Key;
    keys := [];
    var left := info.Keys;
    while left != {}
      invariant left <= info.Keys
      invariant forall key :: key in keys <==> key in FieldKeys(w, info.Keys - left)
      decreases |left|
    {
      var field :| field in left;
      assert info.Keys - (left - {field}) == info.Keys - left + {field};
      left := left - {field};
      keys := keys + [Key(w, field)];
    }
    assert info.Keys - left == info.Keys;
  }

  lemma StaleEnds(workers: Workers, now: int)
    ensures StaleAmong(workers, workers.Keys - workers.Keys, now) == {}
    ensures StaleAmong(workers, workers.Keys, now) == StaleKeys(workers, now)
  {
    hide Key, IsOld;
  }

  lemma StaleAdd(workers: Workers, names: set<string>, w: string, now: int)
    requires w in names && w in workers
    ensures StaleAmong(workers, names, now) ==
            StaleAmong(workers, names - {w}, now) +
            (if IsOld(workers[w], now, ELECTION_STALE_MS) then FieldKeys(w, workers[w].Keys) else {})
  {
    hide Key, IsOld;
  }

  // ---------------------------------------------------------------- all nine fields or none

  type Hash = map<string, string>

  function Names(rec: Record): set<string> { set k | 0 <= k < |rec| :: rec[k].field }

  /** All keys a worker may have. */
  function KeysFor(worker: string, names: set<string>): set<string> { FieldKeys(worker, names) }

  ghost predicate Plain(names: set<string>) { forall f :: f in names ==> ':' !in f }

  /** Every worker has all its keys in the set or none. */
  ghost predicate Whole(keys: set<string>, names: set<string>)
  {
    forall w, f, g :: f in names && g in names && Key(w, f) in keys ==> Key(w, g) in keys
  }

  ghost predicate Known(keys: set<string>, names: set<string>)
  {
    forall key :: key in keys ==> ':' in key && SplitKey(key).1 in names
  }

  /** A deletion under way, from a snapshot taken earlier. */
  datatype Elector = Resting | Reaping(stale: set<string>)

  datatype State = State(hash: Hash, electors: seq<Elector>)

  datatype Step =
    | Heartbeat(worker: string, rec: Record)
    | Poll(k: nat, listing: Record, now: int)
    | Reap(k: nat)
    | ReapFails(k: nat)

  ghost predicate Enabled(names: set<string>, s: State, step: Step)
  {
    match step
    case Heartbeat(_, rec) => PlainFields(rec) && Names(rec) == names
    case Poll(k, listing, _) => k < |s.electors| && s.electors[k].Resting? && AsMap(listing) == s.hash
    case Reap(k) => k < |s.electors| && s.electors[k].Reaping?
    case ReapFails(k) => k < |s.electors| && s.electors[k].Reaping?
  }

  ghost function Next(names: set<string>, s: State, step: Step): State
    requires Enabled(names, s, step)
  {
    match step
    case Heartbeat(worker, rec) => s.(hash := s.hash + AsMap(Prefixed(worker, rec)))
    case Poll(k, listing, now) => s.(electors := s.electors[k := Reaping(StaleKeys(ParseFlat(Flatten(listing)), now))])
    case Reap(k) => State(s.hash - s.electors[k].stale, s.electors[k := Resting])
    case ReapFails(k) => s.(electors := s.electors[k := Resting])
  }

  ghost predicate Valid(names: set<string>, s: State, run: seq<Step>)
    decreases |run|
  {
    run == [] || (Enabled(names, s, run[0]) && Valid(names, Next(names, s, run[0]), run[1..]))
  }

  ghost function After(names: set<string>, s: State, run: seq<Step>): State
    requires Valid(names, s, run)
    decreases |run|
  {
    if run == [] then s else After(names, Next(names, s, run[0]), run[1..])
  }

  ghost predicate AllOrNone(names: set<string>, s: State)
  {
    && Whole(s.hash.Keys, names) && Known(s.hash.Keys, names)
    && forall k :: 0 <= k < |s.electors| && s.electors[k].Reaping? ==> Whole(s.electors[k].stale, names)
  }

  lemma PrefixedKeys(worker: string, rec: Record, key: string)
    ensures key in AsMap(Prefixed(worker, rec)) <==> key in KeysFor(worker, Names(rec))
  {
    var p := Prefixed(worker, rec);
    AsMapDomain(p, key);
    hide AsMap, Key;
    if key in KeysFor(worker, Names(rec)) {
      var f :| f in Names(rec) && Key(worker, f) == key;
      var k :| 0 <= k < |rec| && rec[k].field == f;
      assert p[k].field == key;
    }
  }

  lemma KeyInjective(w: string, f: string, v: string, g: string)
    requires ':' !in f && ':' !in g && Key(w, f) == Key(v, g)
    ensures w == v && f == g
  {
    SplitOfKey(w, f);
    SplitOfKey(v, g);
  }

  lemma HeartbeatKeeps(names: set<string>, s: State, worker: string, rec: Record)
    requires Plain(names) && Names(rec) == names && Whole(s.hash.Keys, names) && Known(s.hash.Keys, names)
    ensures var t := s.hash + AsMap(Prefixed(worker, rec)); Whole(t.Keys, names) && Known(t.Keys, names)
  {
    var more := AsMap(Prefixed(worker, rec));
    forall key
      ensures key in more <==> key in KeysFor(worker, names)
    {
      PrefixedKeys(worker, rec, key);
    }
    hide AsMap, Prefixed, Key, SplitKey;
    forall w, f, g | f in names && g in names && Key(w, f) in (s.hash + more).Keys
      ensures Key(w, g) in (s.hash + more).Keys
    {
      if Key(w, f) in more {
        var h :| h in names && Key(worker, h) == Key(w, f);
        KeyInjective(worker, h, w, f);
      }
    }
    forall key | key in more.Keys
      ensures ':' in key && SplitKey(key).1 in names
    {
      var h :| h in names && Key(worker, h) == key;
      SplitOfKey(worker, h);
      KeyHasColon(worker, h);
    }
  }

  lemma KeyHasColon(worker: string, field: string)
    ensures ':' in Key(worker, field)
  {
    assert Key(worker, field)[|worker|] == ':';
  }

  /** A snapshot of a whole hash reaps whole workers. */
  lemma StaleIsWhole(names: set<string>, hash: Hash, listing: Record, now: int)
    requires Plain(names) && Whole(hash.Keys, names) && Known(hash.Keys, names) && AsMap(listing) == hash
    ensures Whole(StaleKeys(ParseFlat(Flatten(listing)), now), names)
  {
    var workers := ParseFlat(Flatten(listing));
    ListingKeyed(names, listing);
    hide ParseFlat, Flatten, AsMap, Key, SplitKey, IsOld;
    var stale := StaleKeys(workers, now);
    forall w, f, g | f in names && g in names && Key(w, f) in stale
      ensures Key(w, g) in stale
    {
      var v, h :| v in workers && IsOld(workers[v], now, ELECTION_STALE_MS) && h in workers[v] && Key(v, h) == Key(w, f);
      ParsedIsTheHash(listing, v, h, workers[v][h]);
      assert Has(workers, v, h, workers[v][h]);
      KeyInjective(v, h, w, f);
      assert Key(w, g) in hash;
      ParsedIsTheHash(listing, w, g, hash[Key(w, g)]);
    }
  }

  lemma ListingKeyed(names: set<string>, listing: Record)
    requires Known(AsMap(listing).Keys, names)
    ensures Keyed(listing)
  {
    forall k | 0 <= k < |listing|
      ensures ':' in listing[k].field
    {
      AsMapDomain(listing, listing[k].field);
    }
  }

  lemma AllOrNoneKept(names: set<string>, s: State, step: Step)
    requires Enabled(names, s, step) && AllOrNone(names, s) && Plain(names)
    ensures AllOrNone(names, Next(names, s, step))
  {
    hide Key, SplitKey, AsMap, ParseFlat, Flatten, StaleKeys, Prefixed, Names;
    match step
    case Heartbeat(worker, rec) => HeartbeatKeeps(names, s, worker, rec);
    case Poll(k, listing, now) => StaleIsWhole(names, s.hash, listing, now);
    case Reap(k) =>
    case ReapFails(k) =>
  }

  lemma {:induction false} AllOrNoneRun(names: set<string>, s: State, run: seq<Step>)
    requires Valid(names, s, run) && AllOrNone(names, s) && Plain(names)
    ensures AllOrNone(names, After(names, s, run))
    decreases |run|
  {
    hide Next, Enabled, AllOrNone;
    if run != [] {
      AllOrNoneKept(names, s, run[0]);
      AllOrNoneRun(names, Next(names, s, run[0]), run[1..]);
    }
  }

  function NineFields(): set<string>
  {
    {"ts", "uuid", "subscriber", "downloader", "cleaner", "reporter", "replayer", "s3", "topics"}
  }

  lemma NineArePlain()
    ensures Plain(NineFields())
  {
  }

  /** In every reachable state of the shared hash, whatever heartbeats interleave with reapings from however
      stale snapshots, a worker has all nine heartbeat fields or none. */
  lemma NineFieldsOrNone(electors: nat, run: seq<Step>, w: string)
    requires var s := State(map[], seq(electors, _ => Resting)); Valid(NineFields(), s, run)
    ensures var e := After(NineFields(), State(map[], seq(electors, _ => Resting)), run);
            KeysFor(w, NineFields()) <= e.hash.Keys || KeysFor(w, NineFields()) !! e.hash.Keys
  {
    NineArePlain();
    var names := NineFields();
    hide NineFields, Key, SplitKey, Valid, After;
    var s := State(map[], seq(electors, _ => Resting));
    AllOrNoneRun(names, s, run);
    var e := After(names, s, run);
    if f :| f in names && Key(w, f) in e.hash.Keys {
      assert forall g :: g in names ==> Key(w, g) in e.hash.Keys;
    }
  }

  lemma HeartbeatWritesNine(now: nat, uuid: string, roles: Roles, s3: bool, topics: string)
    ensures Names(HeartbeatRecord(now, uuid, roles, s3, topics)) == NineFields()
  {
    var rec := HeartbeatRecord(now, uuid, roles, s3, topics);
    assert rec[0].field == "ts" && rec[1].field == "uuid" && rec[2].field == "subscriber" && rec[3].field == "downloader"
        && rec[4].field == "cleaner" && rec[5].field == "reporter" && rec[6].field == "replayer" && rec[7].field == "s3"
        && rec[8].field == "topics";
    hide Decimal, BoolText;
  }
}
