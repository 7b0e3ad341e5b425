/** From a worker's report to a member of the pending set: which reports schedule an eviction, for which
    worker and path, and when it is due. */
module EvictionSchedule {
  import opened Text
  import opened Records
  import opened DownloaderHash

  // ---------------------------------------------------------------- src/cleaner/schedule.ts

  /** An element of a parsed JSON array; text is what String(...) makes of it. */
  datatype Value = Str(text: string) | Other(text: string) | Missing

  function TextOf(v: Value): string { if v.Missing? then "undefined" else v.text }

  datatype Schedule = Schedule(scoreMs: int, member: string)

  const CLEANER_REPORTER_PREFIX := "cleaner-reporter:"

  /** The record a flat array stands for: even positions are keys, the last value of a key counts. */
  function RecordOf(flat: seq<Value>): map<string, Value>
  {
    if flat == [] then map[]
    else if |flat| % 2 == 1 then RecordOf(flat[..|flat| - 1])[TextOf(flat[|flat| - 1]) := Missing]
    else RecordOf(flat[..|flat| - 2])[TextOf(flat[|flat| - 2]) := flat[|flat| - 1]]
  }

  predicate StartsAt(s: string, word: string, i: int)
  {
    0 <= i && i + |word| <= |s| && s[i..i + |word|] == word
  }

  /** `indexOf` of a word: its first occurrence, or -1. */
  function FirstOccurrence(s: string, word: string, from: nat): (i: int)
    requires from <= |s|
    ensures i == -1 || (from <= i && StartsAt(s, word, i))
    ensures forall j :: from <= j < (if i == -1 then |s| + 1 else i) ==> !StartsAt(s, word, j)
    decreases |s| - from
  {
    if StartsAt(s, word, from) then from
    else if from == |s| then -1
    else FirstOccurrence(s, word, from + 1)
  }

  function WorkerOf(channel: string): string
  {
    var i := FirstOccurrence(channel, CLEANER_REPORTER_PREFIX, 0);
    if i == -1 then channel else channel[i + |CLEANER_REPORTER_PREFIX|..]
  }

  function ScheduleOf(keepSeconds: Option<int>, rec: map<string, Value>, channel: string, now: int): Option<Schedule>
  {
    if !("local-path" in rec && rec["local-path"].Str? && rec["local-path"].text != "") then None
    else if keepSeconds.None? || keepSeconds.value <= 0 then None
    else Some(Schedule(now + keepSeconds.value * 1000, WorkerOf(channel) + "|" + rec["local-path"].text))
  }

  /** The fill loop. */
  method ReadRecord(flat: seq<Value>) returns (rec: map<string, Value>)
    ensures rec == RecordOf(flat)
  {
    rec := map[];
    var i := 0;
    while i < |flat|
      invariant 0 <= i <= |flat| + 1 && i % 2 == 0
      invariant rec == RecordOf(flat[..if i <= |flat| then i else |flat|])
    {
      rec := rec[TextOf(flat[i]) := if i + 1 < |flat| then flat[i + 1] else Missing];
      if i + 1 < |flat| {
        assert flat[..i + 2][..|flat[..i + 2]| - 2] == flat[..i];
      } else {
        assert flat[..|flat|] == flat && flat[..|flat| - 1] == flat[..i];
      }
      i := i + 2;
    }
    assert flat[..|flat|] == flat;
  }

  method DecideSchedule(keepSeconds: Option<int>, flat: seq<Value>, channel: string, now: int) returns (r: Option<Schedule>)
    ensures r == ScheduleOf(keepSeconds, RecordOf(flat), channel, now)
    // only a non-empty text as local path, and only with a retention
    ensures r.Some? <==> keepSeconds.Some? && keepSeconds.value > 0 && "local-path" in RecordOf(flat) &&
                         RecordOf(flat)["local-path"].Str? && RecordOf(flat)["local-path"].text != ""
    ensures r.Some? ==> r.value == Schedule(now + keepSeconds.value * 1000, WorkerOf(channel) + "|" + RecordOf(flat)["local-path"].text)
  {
    hide RecordOf, FirstOccurrence;
    var rec := ReadRecord(flat);
    var localPath := if "local-path" in rec then rec["local-path"] else Missing;
    if !localPath.Str? || localPath.text == "" { return None; }
    if keepSeconds.None? || keepSeconds.value <= 0 { return None; }
    var markerIdx := FirstOccurrence(channel, CLEANER_REPORTER_PREFIX, 0);
    var worker := if markerIdx == -1 then channel else channel[markerIdx + |CLEANER_REPORTER_PREFIX|..];
    return Some(Schedule(now + keepSeconds.value * 1000, worker + "|" + localPath.text));
  }

  // ---------------------------------------------------------------- the worker is read back from its channel

  function CleanerReporterKey(worker: string): string { "wis2gc:" + (CLEANER_REPORTER_PREFIX + worker) }

  /** Only one position of the channel's own prefix could start the word, and it does not. */
  lemma ChannelPrefix(channel: string, j: nat)
    requires |channel| >= 24 && channel[..7] == "wis2gc:" && j < 7
    ensures !StartsAt(channel, CLEANER_REPORTER_PREFIX, j)
  {
    var word := channel[j..j + |CLEANER_REPORTER_PREFIX|];
    assert word[0] == channel[..7][j];
    assert CLEANER_REPORTER_PREFIX[0] == 'c' && CLEANER_REPORTER_PREFIX[1] == 'l';
    if j == 5 { assert word[1] == channel[..7][6]; }
  }

  lemma FirstIs(s: string, word: string, i: nat)
    requires StartsAt(s, word, i) && forall j :: 0 <= j < i ==> !StartsAt(s, word, j)
    ensures FirstOccurrence(s, word, 0) == i
  {
  }

  lemma ChannelParts(channel: string, worker: string)
    requires channel == CleanerReporterKey(worker)
    ensures |channel| >= 24 && channel[..7] == "wis2gc:" && StartsAt(channel, CLEANER_REPORTER_PREFIX, 7)
    ensures channel[7 + |CLEANER_REPORTER_PREFIX|..] == worker
  {
    assert |CLEANER_REPORTER_PREFIX| == 17;
    assert channel[..7] == "wis2gc:";
    assert channel[7..] == CLEANER_REPORTER_PREFIX + worker;
    assert channel[7..7 + |CLEANER_REPORTER_PREFIX|] == channel[7..][..|CLEANER_REPORTER_PREFIX|];
    assert channel[7 + |CLEANER_REPORTER_PREFIX|..] == channel[7..][|CLEANER_REPORTER_PREFIX|..];
  }

  lemma WorkerOfItsChannel(worker: string)
    ensures WorkerOf(CleanerReporterKey(worker)) == worker
  {
    var channel := CleanerReporterKey(worker);
    ChannelParts(channel, worker);
    hide CleanerReporterKey, StartsAt;
    forall j | 0 <= j < 7
      ensures !StartsAt(channel, CLEANER_REPORTER_PREFIX, j)
    {
      ChannelPrefix(channel, j);
    }
    FirstIs(channel, CLEANER_REPORTER_PREFIX, 7);
  }

  // ---------------------------------------------------------------- completed downloads are scheduled

  function Strings(flat: seq<string>): seq<Value> { seq(|flat|, i requires 0 <= i < |flat| => Str(flat[i])) }

  /** The report of a completed download: its record as listed, and the length. */
  function CompletionReport(rec: Record, length: nat): seq<Value>
  {
    Strings(Flatten(rec)) + [Str("length"), Str(Decimal(length))]
  }

  lemma RecordOfAppend(flat: seq<Value>, key: string, value: Value)
    requires |flat| % 2 == 0
    ensures RecordOf(flat + [Str(key), value]) == RecordOf(flat)[key := value]
  {
    RecordOfLast(flat + [Str(key), value], flat, key, value);
  }

  lemma RecordOfLast(all: seq<Value>, flat: seq<Value>, key: string, value: Value)
    requires |flat| % 2 == 0 && |all| == |flat| + 2 && all[..|flat|] == flat && all[|flat|] == Str(key) && all[|flat| + 1] == value
    ensures RecordOf(all) == RecordOf(flat)[key := value]
  {
    assert |all| % 2 == 0 && all[..|all| - 2] == flat && TextOf(all[|all| - 2]) == key;
    hide TextOf;
  }

  lemma StringsAppend(flat: seq<string>, key: string, value: string)
    ensures Strings(flat + [key, value]) == Strings(flat) + [Str(key), Str(value)]
  {
  }

  /** The parsed report is the record it lists. */
  lemma {:induction false} RecordOfStrings(rec: Record, field: string)
    ensures field in RecordOf(Strings(Flatten(rec))) <==> field in AsMap(rec)
    ensures field in AsMap(rec) ==> RecordOf(Strings(Flatten(rec)))[field] == Str(AsMap(rec)[field])
  {
    if rec != [] {
      var init, last := rec[..|rec| - 1], rec[|rec| - 1];
      RecordOfStrings(init, field);
      StringsAppend(Flatten(init), last.field, last.value);
      RecordOfAppend(Strings(Flatten(init)), last.field, Str(last.value));
      hide RecordOf;
    }
  }

  /** The local path a record holds, "" for none. */
  function ListedPath(m: Hash): string { if "local-path" in m then m["local-path"] else "" }

  /** The eviction of a path on a worker, keep seconds from now, unless there is no path (S3) or no retention. */
  function Eviction(path: string, worker: string, keepSeconds: Option<int>, now: int): Option<Schedule>
  {
    if path != "" && keepSeconds.Some? && keepSeconds.value > 0
    then Some(Schedule(now + keepSeconds.value * 1000, worker + "|" + path)) else None
  }

  /** The report of a completed download schedules the path its record lists, whoever wrote it there, for the
      worker that published the report. */
  lemma CompletionIsScheduled(rec: Record, length: nat, worker: string, keepSeconds: Option<int>, now: int)
    ensures ScheduleOf(keepSeconds, RecordOf(CompletionReport(rec, length)), CleanerReporterKey(worker), now) ==
            Eviction(ListedPath(AsMap(rec)), worker, keepSeconds, now)
  {
    WorkerOfItsChannel(worker);
    RecordOfStrings(rec, "local-path");
    ReportedPath(rec, length);
    hide RecordOf, AsMap, Flatten, WorkerOf, CompletionReport, CleanerReporterKey;
  }

  /** Different paths make different schedules. */
  lemma EvictionTellsPath(p: string, q: string, worker: string, keep: int, now: int)
    requires keep > 0
    ensures Eviction(p, worker, Some(keep), now) == Eviction(q, worker, Some(keep), now) <==> p == q
  {
    var a, b := worker + "|" + p, worker + "|" + q;
    assert a[|worker| + 1..] == p && b[|worker| + 1..] == q;
  }

  lemma ReportedPath(rec: Record, length: nat)
    ensures var report, listed := RecordOf(CompletionReport(rec, length)), RecordOf(Strings(Flatten(rec)));
            ("local-path" in report <==> "local-path" in listed) &&
            ("local-path" in listed ==> report["local-path"] == listed["local-path"])
  {
    hide RecordOf, Flatten, Decimal;
    RecordOfAppend(Strings(Flatten(rec)), "length", Str(Decimal(length)));
    assert |"length"| != |"local-path"|;
  }

  // ---------------------------------------------------------------- failure reports are not

  const FAILED_KEYS := ["data_id", "topic", "published", "accepted", "attempt", "wnm"]

  /** The listed fields a record has, in the order of the list. */
  function Chosen(rec: map<string, string>, keys: seq<string>): seq<string>
  {
    if keys == [] then []
    else
      var last := keys[|keys| - 1];
      Chosen(rec, keys[..|keys| - 1]) + (if last in rec then [last, rec[last]] else [])
  }

  /** reportFailed: named fields, then the chosen ones of the record. */
  method FailedFields(downloaderId: string, reason: Option<string>, failedAt: string, rec: map<string, string>)
    returns (fields: seq<string>)
    ensures fields == FailureHeader(downloaderId, reason, failedAt) + Chosen(rec, FAILED_KEYS)
  {
    fields := FailureHeader(downloaderId, reason, failedAt);
    ghost var header := fields;
    var i := 0;
    while i < |FAILED_KEYS|
      invariant 0 <= i <= |FAILED_KEYS|
      invariant fields == header + Chosen(rec, FAILED_KEYS[..i])
    {
      var key := FAILED_KEYS[i];
      assert FAILED_KEYS[..i + 1][..i] == FAILED_KEYS[..i];
      if key in rec { fields := fields + [key, rec[key]]; }
      i := i + 1;
    }
    assert FAILED_KEYS[..|FAILED_KEYS|] == FAILED_KEYS;
  }

  function FailureHeader(downloaderId: string, reason: Option<string>, failedAt: string): seq<string>
  {
    ["type", "download_failed", "downloader_id", downloaderId, "reason", if reason.Some? then reason.value else "", "failed_at", failedAt]
  }

  function ReadField(rec: map<string, Value>, field: string): Option<Value> { if field in rec then Some(rec[field]) else None }

  /** A failure report, read as the record it stands for: what failed, why and when, those six fields of the
      job that it has, and nothing else. */
  ghost predicate TellsFailure(report: seq<string>, downloaderId: string, reason: string, failedAt: string, job: map<string, string>)
  {
    forall f :: ReadField(RecordOf(Strings(report)), f) ==
      if f == "type" then Some(Str("download_failed"))
      else if f == "downloader_id" then Some(Str(downloaderId))
      else if f == "reason" then Some(Str(reason))
      else if f == "failed_at" then Some(Str(failedAt))
      else if f in {"data_id", "topic", "published", "accepted", "attempt", "wnm"} && f in job then Some(Str(job[f]))
      else None
  }

  lemma ChosenStep(job: map<string, string>, keys: seq<string>)
    ensures if keys == [] then Chosen(job, keys) == []
            else var k := keys[|keys| - 1]; Chosen(job, keys) == Chosen(job, keys[..|keys| - 1]) + (if k in job then [k, job[k]] else [])
  {
  }

  lemma ReadAppended(less: seq<string>, key: string, value: string, f: string)
    requires |less| % 2 == 0
    ensures ReadField(RecordOf(Strings(less + [key, value])), f) ==
            if f == key then Some(Str(value)) else ReadField(RecordOf(Strings(less)), f)
  {
    StringsAppend(less, key, value);
    RecordOfAppend(Strings(less), key, Str(value));
    hide RecordOf, Strings;
  }

  /** Chosen pairs on top of others. */
  lemma {:induction false} RecordOfChosen(header: seq<string>, job: map<string, string>, keys: seq<string>, f: string)
    requires |header| % 2 == 0
    ensures |Chosen(job, keys)| % 2 == 0
    ensures ReadField(RecordOf(Strings(header + Chosen(job, keys))), f) ==
            if f in keys && f in job then Some(Str(job[f])) else ReadField(RecordOf(Strings(header)), f)
  {
    hide RecordOf, Chosen, Strings, ReadField;
    ChosenStep(job, keys);
    if keys == [] {
      assert header + [] == header;
    } else {
      var init, k := keys[..|keys| - 1], keys[|keys| - 1];
      var c := Chosen(job, init);
      RecordOfChosen(header, job, init, f);
      assert f in keys <==> f in init || f == k by { assert keys == init + [k]; }
      if k in job {
        assert header + Chosen(job, keys) == (header + c) + [k, job[k]];
        ReadAppended(header + c, k, job[k], f);
      } else {
        assert header + Chosen(job, keys) == header + c;
      }
    }
  }

  lemma HeaderRecord(header: seq<string>, downloaderId: string, reason: string, failedAt: string, f: string)
    requires header == ["type", "download_failed", "downloader_id", downloaderId, "reason", reason, "failed_at", failedAt]
    ensures ReadField(RecordOf(Strings(header)), f) ==
            if f == "failed_at" then Some(Str(failedAt)) else if f == "reason" then Some(Str(reason))
            else if f == "downloader_id" then Some(Str(downloaderId)) else if f == "type" then Some(Str("download_failed")) else None
  {
    var none: seq<string> := [];
    assert ReadField(RecordOf(Strings(none)), f) == None;
    hide RecordOf, Strings, ReadField;
    ReadAppended(none, "type", "download_failed", f);
    ReadAppended(none + ["type", "download_failed"], "downloader_id", downloaderId, f);
    ReadAppended(none + ["type", "download_failed"] + ["downloader_id", downloaderId], "reason", reason, f);
    ReadAppended(none + ["type", "download_failed"] + ["downloader_id", downloaderId] + ["reason", reason], "failed_at", failedAt, f);
    assert header == none + ["type", "download_failed"] + ["downloader_id", downloaderId] + ["reason", reason] + ["failed_at", failedAt];
  }

  lemma FailureIsTold(downloaderId: string, reason: Option<string>, failedAt: string, job: map<string, string>)
    ensures TellsFailure(FailureHeader(downloaderId, reason, failedAt) + Chosen(job, FAILED_KEYS), downloaderId,
                         if reason.Some? then reason.value else "", failedAt, job)
  {
    var why := if reason.Some? then reason.value else "";
    var header := FailureHeader(downloaderId, reason, failedAt);
    NoKeyTwice();
    hide RecordOf, Chosen, Strings, ReadField;
    forall f
      ensures ReadField(RecordOf(Strings(header + Chosen(job, FAILED_KEYS))), f) ==
              if f in FAILED_KEYS && f in job then Some(Str(job[f])) else ReadField(RecordOf(Strings(header)), f)
      ensures ReadField(RecordOf(Strings(header)), f) ==
              if f == "failed_at" then Some(Str(failedAt)) else if f == "reason" then Some(Str(why))
              else if f == "downloader_id" then Some(Str(downloaderId)) else if f == "type" then Some(Str("download_failed")) else None
    {
      RecordOfChosen(header, job, FAILED_KEYS, f);
      HeaderRecord(header, downloaderId, why, failedAt, f);
    }
  }

  lemma NoKeyTwice()
    ensures forall f :: f in FAILED_KEYS <==> f in {"data_id", "topic", "published", "accepted", "attempt", "wnm"}
    ensures forall f :: f in FAILED_KEYS ==> f !in {"type", "downloader_id", "reason", "failed_at"}
    ensures "type" != "downloader_id" && "type" != "reason" && "type" != "failed_at" && "downloader_id" != "reason"
    ensures "downloader_id" != "failed_at" && "reason" != "failed_at"
  {
    assert |"type"| == 4 && |"topic"| == 5 && |"wnm"| == 3 && |"data_id"| == 7 && |"reason"| == 6 && |"published"| == 9 && |"failed_at"| == 9;
    assert "published"[0] == 'p' && "failed_at"[0] == 'f' && |"accepted"| == 8 && |"attempt"| == 7 && |"downloader_id"| == 13;
  }

  /** A flat array of pairs adds no key but those at its even positions. */
  lemma {:induction false} KeysOfPairs(flat: seq<string>, key: string)
    requires |flat| % 2 == 0 && forall i :: 0 <= i < |flat| / 2 ==> flat[2 * i] != key
    ensures key !in RecordOf(Strings(flat))
  {
    if flat != [] {
      var n := |flat| - 2;
      assert Strings(flat)[..n] == Strings(flat[..n]);
      assert flat[2 * (n / 2)] != key;
      KeysOfPairs(flat[..n], key);
    }
  }

  lemma {:induction false} ChosenPairs(rec: map<string, string>, keys: seq<string>, key: string)
    requires key !in keys
    ensures |Chosen(rec, keys)| % 2 == 0
    ensures forall i :: 0 <= i < |Chosen(rec, keys)| / 2 ==> Chosen(rec, keys)[2 * i] != key
  {
    if keys != [] {
      ChosenPairs(rec, keys[..|keys| - 1], key);
    }
  }

  lemma NotLocalPath(word: string)
    requires |word| < 2 || word[0] != 'l'
    ensures word != "local-path"
  {
    assert "local-path"[0] == 'l';
  }

  lemma NoLocalPathKey()
    ensures "local-path" !in FAILED_KEYS
  {
    forall i | 0 <= i < |FAILED_KEYS|
      ensures FAILED_KEYS[i] != "local-path"
    {
      NotLocalPath(FAILED_KEYS[i]);
    }
  }

  /** A `failed` report can never look like a completed download to the cleaner, whatever its record holds. */
  lemma FailureNeverScheduled(downloaderId: string, reason: Option<string>, failedAt: string, rec: map<string, string>,
                              keepSeconds: Option<int>, channel: string, now: int)
    ensures ScheduleOf(keepSeconds, RecordOf(Strings(FailureHeader(downloaderId, reason, failedAt) + Chosen(rec, FAILED_KEYS))), channel, now) == None
  {
    var header, chosen := FailureHeader(downloaderId, reason, failedAt), Chosen(rec, FAILED_KEYS);
    NoLocalPathKey();
    ChosenPairs(rec, FAILED_KEYS, "local-path");
    NotLocalPath("type");
    NotLocalPath("downloader_id");
    NotLocalPath("reason");
    NotLocalPath("failed_at");
    PairsAppended(header, chosen, "local-path");
    KeysOfPairs(header + chosen, "local-path");
  }

  lemma PairsAppended(header: seq<string>, chosen: seq<string>, key: string)
    requires |header| == 8 && header[0] != key && header[2] != key && header[4] != key && header[6] != key
    requires |chosen| % 2 == 0 && forall i :: 0 <= i < |chosen| / 2 ==> chosen[2 * i] != key
    ensures |header + chosen| % 2 == 0 && forall i :: 0 <= i < |header + chosen| / 2 ==> (header + chosen)[2 * i] != key
  {
    forall i | 0 <= i < |header + chosen| / 2
      ensures (header + chosen)[2 * i] != key
    {
      if i >= 4 { assert (header + chosen)[2 * i] == chosen[2 * (i - 4)]; }
    }
  }
}
