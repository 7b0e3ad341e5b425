/** Reuse of a data_id: which publications are new, which are updates and which are duplicates, per history
    key (an origin centre or one global cache). */
module Lineage {
  import opened Text

  datatype Decision = New | Update | Duplicate

  datatype Publication = Publication(pubtime: string, rels: seq<string>)

  predicate HasUpdateRel(p: Publication) { exists i :: 0 <= i < |p.rels| && p.rels[i] == "update" }

  predicate NewerThanAll(pubtime: string, known: seq<string>)
  {
    forall i :: 0 <= i < |known| ==> Less(known[i], pubtime)
  }

  function DecideLineage(pubtime: string, isUpdate: bool, known: seq<string>): Decision
  {
    if known == [] then New
    else if !NewerThanAll(pubtime, known) then Duplicate
    else if !isUpdate then Duplicate
    else Update
  }

  /** A history as HGETALL lists it: the recorded pubtimes, each once, in some order. */
  ghost predicate Lists(known: seq<string>, history: set<string>)
  {
    (forall p :: p in known <==> p in history) && forall i, j :: 0 <= i < j < |known| ==> known[i] != known[j]
  }

  /** The decision on the history itself. */
  ghost function Decide(p: Publication, history: set<string>): Decision
  {
    if history == {} then New
    else if (forall q :: q in history ==> Less(q, p.pubtime)) && HasUpdateRel(p) then Update
    else Duplicate
  }

  /** The order of the listing does not matter. */
  lemma ListingIrrelevant(p: Publication, known: seq<string>, history: set<string>)
    requires Lists(known, history)
    ensures DecideLineage(p.pubtime, HasUpdateRel(p), known) == Decide(p, history)
  {
    hide HasUpdateRel, Less;
    if known != [] { assert known[0] in history; }
    if history != {} {
      var q :| q in history;
      assert q in known;
    }
    assert forall i :: 0 <= i < |known| ==> known[i] in history;
    if NewerThanAll(p.pubtime, known) {
      forall q | q in history
        ensures Less(q, p.pubtime)
      {
        assert q in known;
      }
    }
  }

  /** New on an empty history, an update if newer than all and marked so, and a duplicate in every other case. */
  lemma DecisionIs(p: Publication, history: set<string>)
    ensures Decide(p, history).New? <==> history == {}
    ensures Decide(p, history).Update? <==> history != {} && "update" in p.rels && forall q :: q in history ==> Less(q, p.pubtime)
  {
    hide Less;
  }

  // ---------------------------------------------------------------- one key, one check at a time

  ghost function Record(p: Publication, history: set<string>): set<string>
  {
    if Decide(p, history) == Duplicate then history else history + {p.pubtime}
  }

  ghost function Decisions(history: set<string>, run: seq<Publication>): seq<Decision>
    decreases |run|
  {
    if run == [] then [] else [Decide(run[0], history)] + Decisions(Record(run[0], history), run[1..])
  }

  ghost function History(history: set<string>, run: seq<Publication>): set<string>
    decreases |run|
  {
    if run == [] then history else History(Record(run[0], history), run[1..])
  }

  /** The accepted publications, in order. */
  ghost function Accepted(history: set<string>, run: seq<Publication>): seq<Publication>
    decreases |run|
  {
    if run == [] then []
    else (if Decide(run[0], history) == Duplicate then [] else [run[0]]) + Accepted(Record(run[0], history), run[1..])
  }

  /** A history whose latest pubtime is known. */
  ghost predicate Latest(history: set<string>, latest: Option<string>)
  {
    match latest
    case None => history == {}
    case Some(m) => m in history && forall q :: q in history ==> q == m || Less(q, m)
  }

  /** The reference keeps one pubtime only, the latest accepted. */
  function DecideByLatest(p: Publication, latest: Option<string>): Decision
  {
    match latest
    case None => New
    case Some(m) => if Less(m, p.pubtime) && HasUpdateRel(p) then Update else Duplicate
  }

  function ReferenceDecisions(latest: Option<string>, run: seq<Publication>): seq<Decision>
    decreases |run|
  {
    if run == [] then []
    else
      var d := DecideByLatest(run[0], latest);
      [d] + ReferenceDecisions(if d == Duplicate then latest else Some(run[0].pubtime), run[1..])
  }

  lemma LatestStep(p: Publication, history: set<string>, latest: Option<string>)
    requires Latest(history, latest)
    ensures Decide(p, history) == DecideByLatest(p, latest)
    ensures Latest(Record(p, history), if DecideByLatest(p, latest) == Duplicate then latest else Some(p.pubtime))
  {
    hide HasUpdateRel, Less;
    if latest.Some? && Less(latest.value, p.pubtime) {
      forall q | q in history
        ensures Less(q, p.pubtime)
      {
        if q != latest.value { LessTransitive(q, latest.value, p.pubtime); }
      }
    }
  }

  /** Keeping every accepted pubtime decides exactly as keeping the latest one. */
  lemma {:induction false} SameAsReference(history: set<string>, latest: Option<string>, run: seq<Publication>)
    requires Latest(history, latest)
    ensures Decisions(history, run) == ReferenceDecisions(latest, run)
    decreases |run|
  {
    if run != [] {
      LatestStep(run[0], history, latest);
      hide Decide, Record, DecideByLatest, Latest;
      var d := DecideByLatest(run[0], latest);
      SameAsReference(Record(run[0], history), if d == Duplicate then latest else Some(run[0].pubtime), run[1..]);
    }
  }

  /** Each publication is newer than those before it, and an update unless it is the very first. */
  ghost predicate Chain(first: bool, accepted: seq<Publication>)
  {
    && (forall i, j :: 0 <= i < j < |accepted| ==> Less(accepted[i].pubtime, accepted[j].pubtime))
    && (forall i :: (if first then 1 else 0) <= i < |accepted| ==> HasUpdateRel(accepted[i]))
  }

  function Pubtimes(publications: seq<Publication>): set<string>
  {
    set i | 0 <= i < |publications| :: publications[i].pubtime
  }

  lemma PubtimesCons(p: Publication, rest: seq<Publication>)
    ensures Pubtimes([p] + rest) == {p.pubtime} + Pubtimes(rest)
  {
    var all := [p] + rest;
    assert all[0] == p;
    forall i | 0 <= i < |rest|
      ensures rest[i].pubtime in Pubtimes(all)
    {
      assert all[i + 1] == rest[i];
    }
  }

  lemma {:induction false} AcceptedRun(history: set<string>, latest: Option<string>, run: seq<Publication>)
    requires Latest(history, latest)
    ensures var accepted := Accepted(history, run);
            && Chain(history == {}, accepted)
            && (forall i, q :: 0 <= i < |accepted| && q in history ==> Less(q, accepted[i].pubtime))
            && History(history, run) == history + Pubtimes(accepted)
    decreases |run|
  {
    if run != [] {
      LatestStep(run[0], history, latest);
      var d := DecideByLatest(run[0], latest);
      var rest := Accepted(Record(run[0], history), run[1..]);
      AcceptedRun(Record(run[0], history), if d == Duplicate then latest else Some(run[0].pubtime), run[1..]);
      hide HasUpdateRel, Less, DecideByLatest, Latest, Decide, Pubtimes;
      if d != Duplicate {
        var accepted := Accepted(history, run);
        assert accepted == [run[0]] + rest;
        PubtimesCons(run[0], rest);
        forall i, q | 0 <= i < |accepted| && q in history
          ensures Less(q, accepted[i].pubtime)
        {
          if i > 0 { assert accepted[i] == rest[i - 1]; }
        }
      } else {
        assert Accepted(history, run) == rest;
      }
    }
  }

  /** For one key, from an empty history: accepted pubtimes strictly increase, every accepted publication
      after the first carries rel=update, and the history holds exactly the accepted pubtimes. */
  lemma AcceptedStrictlyIncreases(run: seq<Publication>)
    ensures var accepted := Accepted({}, run);
            && (forall i, j :: 0 <= i < j < |accepted| ==> Less(accepted[i].pubtime, accepted[j].pubtime))
            && (forall i :: 1 <= i < |accepted| ==> "update" in accepted[i].rels)
            && History({}, run) == Pubtimes(accepted)
            && (run != [] ==> accepted != [] && accepted[0] == run[0])
  {
    AcceptedRun({}, None, run);
    hide Less, History;
    if run != [] { assert Decide(run[0], {}) == New; }
  }

  // ---------------------------------------------------------------- separate histories never mix

  datatype Message = Message(key: string, publication: Publication)

  ghost function Of(histories: map<string, set<string>>, key: string): set<string>
  {
    if key in histories then histories[key] else {}
  }

  ghost function CheckAndRecord(histories: map<string, set<string>>, m: Message): map<string, set<string>>
  {
    histories[m.key := Record(m.publication, Of(histories, m.key))]
  }

  ghost function DecisionsFor(key: string, histories: map<string, set<string>>, run: seq<Message>): seq<Decision>
    decreases |run|
  {
    if run == [] then []
    else (if run[0].key == key then [Decide(run[0].publication, Of(histories, key))] else [])
         + DecisionsFor(key, CheckAndRecord(histories, run[0]), run[1..])
  }

  function Filter(key: string, run: seq<Message>): seq<Publication>
    decreases |run|
  {
    if run == [] then [] else (if run[0].key == key then [run[0].publication] else []) + Filter(key, run[1..])
  }

  /** What is decided about one key depends on the messages with that key alone, so one global cache never
      counts against another, nor against the origin. */
  lemma {:induction false} HistoriesAreSeparate(key: string, histories: map<string, set<string>>, run: seq<Message>)
    ensures DecisionsFor(key, histories, run) == Decisions(Of(histories, key), Filter(key, run))
    decreases |run|
  {
    if run != [] {
      hide Decide, Record;
      HistoriesAreSeparate(key, CheckAndRecord(histories, run[0]), run[1..]);
      if run[0].key == key {
        assert Filter(key, run)[1..] == Filter(key, run[1..]);
      } else {
        assert Filter(key, run) == Filter(key, run[1..]);
      }
    }
  }

  // ---------------------------------------------------------------- reads and records that interleave

  /** Message k reads the history, then, if accepted, records its pubtime. */
  datatype Progress = Unread | Deciding(seen: set<string>) | Dropped | Recorded

  datatype State = State(history: set<string>, progress: seq<Progress>)

  datatype Step = Read(k: nat) | Finish(k: nat)

  ghost predicate Enabled(s: State, step: Step)
  {
    match step
    case Read(k) => k < |s.progress| && s.progress[k].Unread?
    case Finish(k) => k < |s.progress| && s.progress[k].Deciding?
  }

  ghost function Next(messages: seq<Publication>, s: State, step: Step): State
    requires Enabled(s, step) && |s.progress| == |messages|
  {
    match step
    case Read(k) => s.(progress := s.progress[k := Deciding(s.history)])
    case Finish(k) =>
      if Decide(messages[k], s.progress[k].seen) == Duplicate then s.(progress := s.progress[k := Dropped])
      else State(s.history + {messages[k].pubtime}, s.progress[k := Recorded])
  }

  ghost predicate Valid(messages: seq<Publication>, s: State, run: seq<Step>)
    requires |s.progress| == |messages|
    decreases |run|
  {
    run == [] || (Enabled(s, run[0]) && Valid(messages, Next(messages, s, run[0]), run[1..]))
  }

  ghost function After(messages: seq<Publication>, s: State, run: seq<Step>): (e: State)
    requires |s.progress| == |messages| && Valid(messages, s, run)
    ensures |e.progress| == |messages|
    decreases |run|
  {
    if run == [] then s else After(messages, Next(messages, s, run[0]), run[1..])
  }

  lemma {:induction false} HistoryGrows(messages: seq<Publication>, s: State, run: seq<Step>)
    requires |s.progress| == |messages| && Valid(messages, s, run)
    ensures s.history <= After(messages, s, run).history
    ensures forall k :: 0 <= k < |messages| && s.progress[k].Deciding? && After(messages, s, run).progress[k] != s.progress[k] ==>
              After(messages, s, run).progress[k] == if Decide(messages[k], s.progress[k].seen) == Duplicate then Dropped else Recorded
    ensures forall k :: 0 <= k < |messages| && (s.progress[k].Dropped? || s.progress[k].Recorded?) ==> After(messages, s, run).progress[k] == s.progress[k]
    decreases |run|
  {
    if run != [] {
      hide Decide;
      HistoryGrows(messages, Next(messages, s, run[0]), run[1..]);
    }
  }

  /** However the reads and records of concurrent checks interleave: a message that ends accepted is newer
      than every pubtime recorded before it read the history, and is an update if there was one. */
  lemma AcceptedNewerThanRecordedBeforeRead(messages: seq<Publication>, s: State, k: nat, rest: seq<Step>)
    requires |s.progress| == |messages| && Enabled(s, Read(k))
    requires Valid(messages, Next(messages, s, Read(k)), rest)
    requires After(messages, Next(messages, s, Read(k)), rest).progress[k] == Recorded
    ensures forall q :: q in s.history ==> Less(q, messages[k].pubtime)
    ensures s.history != {} ==> HasUpdateRel(messages[k])
  {
    HistoryGrows(messages, Next(messages, s, Read(k)), rest);
    hide Valid, After;
    assert Decide(messages[k], s.history) != Duplicate;
  }

  ghost predicate Increasing(publications: seq<Publication>)
  {
    forall i, j :: 0 <= i < j < |publications| ==> Less(publications[i].pubtime, publications[j].pubtime)
  }

  /** The message a step records, if any. */
  ghost function RecordedAt(messages: seq<Publication>, s: State, step: Step): seq<Publication>
    requires Enabled(s, step) && |s.progress| == |messages|
  {
    if step.Finish? && Decide(messages[step.k], s.progress[step.k].seen) != Duplicate then [messages[step.k]] else []
  }

  /** The accepted messages of a run, in the order they were recorded. */
  ghost function RecordedIn(messages: seq<Publication>, s: State, run: seq<Step>): seq<Publication>
    requires |s.progress| == |messages| && Valid(messages, s, run)
    decreases |run|
  {
    if run == [] then [] else RecordedAt(messages, s, run[0]) + RecordedIn(messages, Next(messages, s, run[0]), run[1..])
  }

  /** No accepted message finds, among what was recorded between its read and its record, a pubtime that is
      not older than its own. */
  ghost predicate Undisturbed(messages: seq<Publication>, s: State, run: seq<Step>)
    requires |s.progress| == |messages| && Valid(messages, s, run)
    decreases |run|
  {
    run == [] ||
    ((RecordedAt(messages, s, run[0]) != [] ==>
        (forall q :: q in s.history - s.progress[run[0].k].seen ==> Less(q, messages[run[0].k].pubtime))) &&
     Undisturbed(messages, Next(messages, s, run[0]), run[1..]))
  }

  /** What a message read is still recorded. */
  ghost predicate SeenKept(s: State)
  {
    forall k :: 0 <= k < |s.progress| && s.progress[k].Deciding? ==> s.progress[k].seen <= s.history
  }

  lemma RecordStep(messages: seq<Publication>, s: State, step: Step, before: seq<Publication>)
    requires Enabled(s, step) && |s.progress| == |messages| && SeenKept(s)
    requires Pubtimes(before) == s.history && Increasing(before)
    ensures var t, more := Next(messages, s, step), RecordedAt(messages, s, step);
            && SeenKept(t) && Pubtimes(before + more) == t.history
            && (more == [] ==> before + more == before)
            && (more != [] ==> (Increasing(before + more) <==>
                 forall q :: q in s.history - s.progress[step.k].seen ==> Less(q, messages[step.k].pubtime)))
  {
    hide HasUpdateRel, Less;
    var more := RecordedAt(messages, s, step);
    if more != [] {
      var p := messages[step.k];
      PubtimesSnoc(before, p);
      IncreasingSnoc(before, p);
      assert forall q :: q in s.progress[step.k].seen ==> Less(q, p.pubtime);
    } else {
      assert before + more == before;
    }
  }

  lemma PubtimesSnoc(before: seq<Publication>, p: Publication)
    ensures Pubtimes(before + [p]) == Pubtimes(before) + {p.pubtime}
  {
    var all := before + [p];
    assert all[|before|] == p;
    forall i | 0 <= i < |before|
      ensures before[i].pubtime in Pubtimes(all)
    {
      assert all[i] == before[i];
    }
  }

  lemma IncreasingSnoc(before: seq<Publication>, p: Publication)
    requires Increasing(before)
    ensures Increasing(before + [p]) <==> forall q :: q in Pubtimes(before) ==> Less(q, p.pubtime)
  {
    hide Less;
    var all := before + [p];
    if Increasing(all) {
      forall q | q in Pubtimes(before)
        ensures Less(q, p.pubtime)
      {
        var i :| 0 <= i < |before| && before[i].pubtime == q;
        assert all[i] == before[i] && all[|before|] == p;
      }
    }
    if forall q :: q in Pubtimes(before) ==> Less(q, p.pubtime) {
      forall i, j | 0 <= i < j < |all|
        ensures Less(all[i].pubtime, all[j].pubtime)
      {
        assert before[i].pubtime in Pubtimes(before);
      }
    }
  }

  lemma PrefixIncreasing(a: seq<Publication>, b: seq<Publication>)
    requires Increasing(a + b)
    ensures Increasing(a)
  {
    hide Less;
    assert forall i :: 0 <= i < |a| ==> (a + b)[i] == a[i];
  }

  lemma {:induction false} IncreasingRun(messages: seq<Publication>, s: State, run: seq<Step>, before: seq<Publication>)
    requires |s.progress| == |messages| && Valid(messages, s, run) && SeenKept(s)
    requires Pubtimes(before) == s.history && Increasing(before)
    ensures Increasing(before + RecordedIn(messages, s, run)) <==> Undisturbed(messages, s, run)
    decreases |run|
  {
    if run == [] {
      assert before + [] == before;
    } else {
      var t, more := Next(messages, s, run[0]), RecordedAt(messages, s, run[0]);
      RecordStep(messages, s, run[0], before);
      hide Next, Enabled, RecordedAt, Increasing, SeenKept, Pubtimes;
      assert before + RecordedIn(messages, s, run) == (before + more) + RecordedIn(messages, t, run[1..]);
      if Increasing(before + more) {
        IncreasingRun(messages, t, run[1..], before + more);
      } else if Increasing(before + RecordedIn(messages, s, run)) {
        PrefixIncreasing(before + more, RecordedIn(messages, t, run[1..]));
      }
    }
  }

  /** However the checks of one key interleave, from an empty history: the accepted pubtimes, in the order
      they are recorded, strictly increase exactly when no accepted message was overtaken, between its read
      and its record, by one that is not older. */
  lemma OverlappingIncreaseIff(messages: seq<Publication>, s: State, run: seq<Step>)
    requires s == State({}, seq(|messages|, _ => Unread)) && Valid(messages, s, run)
    ensures Increasing(RecordedIn(messages, s, run)) <==> Undisturbed(messages, s, run)
  {
    assert Pubtimes([]) == {};
    IncreasingRun(messages, s, run, []);
    assert [] + RecordedIn(messages, s, run) == RecordedIn(messages, s, run);
  }

  /** Two concurrent checks can both accept the same pubtime: only what was recorded before the read counts. */
  lemma OverlapAcceptsTwice(p: Publication)
    ensures var messages, s, run := [p, p], State({}, [Unread, Unread]), [Read(0), Read(1), Finish(0), Finish(1)];
            Valid(messages, s, run) && After(messages, s, run).progress == [Recorded, Recorded]
  {
    var messages := [p, p];
    var s0 := State({}, [Unread, Unread]);
    var s1 := Next(messages, s0, Read(0));
    var s2 := Next(messages, s1, Read(1));
    var s3 := Next(messages, s2, Finish(0));
    var s4 := Next(messages, s3, Finish(1));
    assert s1.progress == [Deciding({}), Unread] && s2.progress == [Deciding({}), Deciding({})];
    assert s3.progress == [Recorded, Deciding({})] && s4.progress == [Recorded, Recorded];
    hide Next, Enabled;
    assert [Read(0), Read(1), Finish(0), Finish(1)][1..] == [Read(1), Finish(0), Finish(1)];
    assert [Read(1), Finish(0), Finish(1)][1..] == [Finish(0), Finish(1)];
    assert [Finish(0), Finish(1)][1..] == [Finish(1)];
    assert [Finish(1)][1..] == [];
  }

  // ---------------------------------------------------------------- the two kinds of key (src/wis2/redis-keys.ts)

  function OriginKey(originCentreId: string, dataId: string): string
  {
    "wis2gc:subscriber:lineage:" + (originCentreId + ":" + dataId)
  }

  function GlobalCacheKey(globalCache: string, dataId: string): string
  {
    "wis2gc:subscriber:lineage:" + ("gc:" + (globalCache + ":" + dataId))
  }

  lemma SamePrefix(prefix: string, a: string, b: string)
    ensures prefix + a == prefix + b <==> a == b
  {
    assert (prefix + a)[|prefix|..] == a && (prefix + b)[|prefix|..] == b;
  }

  /** An origin centre can share a history with a global cache exactly if its name is `gc` or begins with
      `gc:`; for every other name the two kinds of history are apart. */
  lemma HistoriesCollideIff(originCentreId: string)
    ensures (exists dataId, globalCache, other :: OriginKey(originCentreId, dataId) == GlobalCacheKey(globalCache, other)) <==>
            originCentreId == "gc" || "gc:" <= originCentreId
  {
    var prefix := "wis2gc:subscriber:lineage:";
    forall dataId, globalCache, other
      ensures OriginKey(originCentreId, dataId) == GlobalCacheKey(globalCache, other) <==>
              originCentreId + ":" + dataId == "gc:" + (globalCache + ":" + other)
    {
      SamePrefix(prefix, originCentreId + ":" + dataId, "gc:" + (globalCache + ":" + other));
    }
    hide OriginKey, GlobalCacheKey;
    if originCentreId == "gc" {
      assert originCentreId + ":" + "x:y" == "gc:" + ("x" + ":" + "y");
      assert OriginKey(originCentreId, "x:y") == GlobalCacheKey("x", "y");
    } else if "gc:" <= originCentreId {
      var rest := originCentreId[3..];
      assert originCentreId == "gc:" + rest;
      assert originCentreId + ":" + "y" == "gc:" + (rest + ":" + "y");
      assert OriginKey(originCentreId, "y") == GlobalCacheKey(rest, "y");
    }
    forall dataId, globalCache, other | originCentreId + ":" + dataId == "gc:" + (globalCache + ":" + other)
      ensures originCentreId == "gc" || "gc:" <= originCentreId
    {
      StartsLikeCache(originCentreId, dataId, globalCache + ":" + other);
    }
  }

  lemma StartsLikeCache(o: string, d: string, rest: string)
    requires o + ":" + d == "gc:" + rest
    ensures o == "gc" || "gc:" <= o
  {
    var s := o + ":" + d;
    assert s[0] == 'g' && s[1] == 'c' && s[2] == ':';
    if |o| >= 3 {
      assert o[0] == s[0] && o[1] == s[1] && o[2] == s[2];
      assert o[..3] == "gc:";
    } else {
      assert s[|o|] == ':';
      assert |o| == 2 && o[0] == s[0] && o[1] == s[1];
    }
  }

  /** Origin centres without a colon never share a history with each other. */
  lemma OriginKeysDiffer(o: string, d: string, p: string, e: string)
    requires ':' !in o && ':' !in p && OriginKey(o, d) == OriginKey(p, e)
    ensures o == p && d == e
  {
    SamePrefix("wis2gc:subscriber:lineage:", o + ":" + d, p + ":" + e);
    SplitFirst(o, ':', d);
    SplitFirst(p, ':', e);
    assert o + ":" + d == o + [':'] + d && p + ":" + e == p + [':'] + e;
    assert ([o] + Split(d, ':'))[0] == o && ([p] + Split(e, ':'))[0] == p;
    assert (o + ":" + d)[|o| + 1..] == d && (p + ":" + e)[|p| + 1..] == e;
  }
}
