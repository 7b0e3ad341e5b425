/** The worker's end of the eviction pipeline: reading its command stream, carrying commands out, trimming
    behind the cursor; and the whole way from a completed download to the unlink. */
module WorkerCommands {
  import opened Text
  import opened Records
  import opened DownloaderHash
  import opened EvictionSchedule
  import opened EvictionOwner
  import opened EvictionSweep

  // ---------------------------------------------------------------- src/downloader/cleaner-ipc.ts

  datatype Effect = Unlink(path: string) | Cancel(gid: string)

  /** The first even position from `from` on that holds a word. */
  function FirstField(fields: seq<string>, from: nat, word: string): (r: Option<nat>)
    ensures r.Some? ==> r.value < |fields| && fields[r.value] == word && from <= r.value && (r.value - from) % 2 == 0
    decreases |fields| - from
  {
    if from >= |fields| then None
    else if fields[from] == word then Some(from)
    else FirstField(fields, from + 2, word)
  }

  /** A template literal renders an absent element as "undefined". */
  function ValueAt(fields: seq<string>, i: nat): string
  {
    if i < |fields| then fields[i] else "undefined"
  }

  /** `replace(/\/+$/, '')`. */
  function WithoutTrailingSlashes(dir: string): (r: string)
    ensures r <= dir && (r != "" ==> r[|r| - 1] != '/')
    ensures forall i :: |r| <= i < |dir| ==> dir[i] == '/'
  {
    if dir != "" && dir[|dir| - 1] == '/' then WithoutTrailingSlashes(dir[..|dir| - 1]) else dir
  }

  function EffectOf(dir: string, fields: seq<string>): Option<Effect>
  {
    match FirstField(fields, 0, "action")
    case None => None
    case Some(i) => ActionEffect(dir, fields, i)
  }

  /** The action named at position i, with the field it needs. */
  function ActionEffect(dir: string, fields: seq<string>, i: nat): Option<Effect>
  {
    if ValueAt(fields, i + 1) == "delete" then
      match FirstField(fields, i + 2, "filename")
      case Some(j) => Some(Unlink(WithoutTrailingSlashes(dir) + "/" + ValueAt(fields, j + 1)))
      case None => None
    else if ValueAt(fields, i + 1) == "cancel" then
      match FirstField(fields, i + 2, "aria2_gid")
      case Some(j) => Some(Cancel(ValueAt(fields, j + 1)))
      case None => None
    else None
  }

  function EffectsOf(dir: string, entries: seq<seq<string>>): seq<Effect>
  {
    if entries == [] then []
    else
      var effect := EffectOf(dir, entries[|entries| - 1]);
      EffectsOf(dir, entries[..|entries| - 1]) + (if effect.Some? then [effect.value] else [])
  }

  /** The inner scan for the field an action needs. */
  method FindField(fields: seq<string>, from: nat, word: string) returns (j: Option<nat>)
    ensures j == FirstField(fields, from, word)
  {
    var k := from;
    while k < |fields|
      invariant FirstField(fields, from, word) == FirstField(fields, k, word)
      decreases |fields| - k
    {
      if fields[k] == word { return Some(k); }
      k := k + 2;
    }
    return None;
  }

  method ProcessAction(dir: string, fields: seq<string>, i: nat) returns (effect: Option<Effect>)
    ensures effect == ActionEffect(dir, fields, i)
  {
    hide FirstField, ValueAt, WithoutTrailingSlashes;
    var action := ValueAt(fields, i + 1);
    if action == "delete" {
      var j := FindField(fields, i + 2, "filename");
      if j.Some? { return Some(Unlink(WithoutTrailingSlashes(dir) + "/" + ValueAt(fields, j.value + 1))); }
    } else if action == "cancel" {
      var j := FindField(fields, i + 2, "aria2_gid");
      if j.Some? { return Some(Cancel(ValueAt(fields, j.value + 1))); }
    }
    return None;
  }

  /** The scan of one entry: only its first action counts. */
  method ProcessEntry(dir: string, fields: seq<string>) returns (effect: Option<Effect>)
    ensures effect == EffectOf(dir, fields)
  {
    var i := 0;
    while i < |fields|
      invariant FirstField(fields, 0, "action") == FirstField(fields, i, "action")
      decreases |fields| - i
    {
      if fields[i] == "action" {
        effect := ProcessAction(dir, fields, i);
        return;
      }
      i := i + 2;
    }
    return None;
  }

  /** What the commands of a batch start, in order. */
  method ProcessCleanerCommands(dir: string, entries: seq<seq<string>>) returns (pending: seq<Effect>)
    ensures pending == EffectsOf(dir, entries)
  {
    pending := [];
    var n := 0;
    while n < |entries|
      invariant 0 <= n <= |entries|
      invariant pending == EffectsOf(dir, entries[..n])
    {
      var effect := ProcessEntry(dir, entries[n]);
      assert entries[..n + 1][..n] == entries[..n];
      if effect.Some? { pending := pending + [effect.value]; }
      n := n + 1;
    }
    assert entries[..|entries|] == entries;
  }

  /** What an entry of one action and one field makes a worker do: unlink a path in its download directory,
      cancel a download, or nothing. */
  lemma EntryMeans(dir: string, action: string, field: string, value: string)
    ensures EffectOf(dir, ["action", action, field, value]) ==
            if action == "delete" && field == "filename" then Some(Unlink(WithoutTrailingSlashes(dir) + "/" + value))
            else if action == "cancel" && field == "aria2_gid" then Some(Cancel(value)) else None
  {
    var fields := ["action", action, field, value];
    assert |fields| == 4 && fields[0] == "action" && fields[1] == action && fields[2] == field && fields[3] == value;
    assert FirstField(fields, 0, "action") == Some(0);
    assert FirstField(fields, 4, "filename") == None && FirstField(fields, 4, "aria2_gid") == None;
    hide WithoutTrailingSlashes;
  }

  /** One effect at most for each entry, */
  lemma EffectsLast(dir: string, init: seq<seq<string>>, entry: seq<string>)
    ensures EffectsOf(dir, init + [entry]) ==
            EffectsOf(dir, init) + (if EffectOf(dir, entry).Some? then [EffectOf(dir, entry).value] else [])
  {
    assert (init + [entry])[..|init|] == init;
    hide EffectOf;
  }

  /** in the order of the entries. */
  lemma {:induction false} EffectsInOrder(dir: string, early: seq<seq<string>>, late: seq<seq<string>>)
    ensures EffectsOf(dir, early + late) == EffectsOf(dir, early) + EffectsOf(dir, late)
    decreases |late|
  {
    hide EffectOf;
    if late == [] {
      assert early + late == early;
    } else {
      var init, entry := late[..|late| - 1], late[|late| - 1];
      EffectsInOrder(dir, early, init);
      EffectsLast(dir, early + init, entry);
      EffectsLast(dir, init, entry);
      hide EffectsOf;
      assert early + late == (early + init) + [entry] && late == init + [entry];
    }
  }

  // ---------------------------------------------------------------- nothing is trimmed before it was carried out

  /** How a tick ends: the cursor moved, a cancellation threw, or XTRIM threw after everything was carried
      out. In the last two cases the cursor stays and the next tick starts over. */
  datatype TickEnd = Moved | CancelFailed | TrimFailed

  function Upper(cursor: nat, count: nat, size: nat): nat { if cursor + count < size then cursor + count else size }

  /** Where XREAD starts: at the cursor, or behind what a trim that threw had already removed. */
  function Lower(gone: nat, cursor: nat): nat { if gone < cursor then cursor else gone }

  /** A batch begins at the first entry still there that the cursor has not passed, and has as many as there are
      up to the count. */
  lemma BatchIs(gone: nat, cursor: nat, count: nat, size: nat)
    requires gone <= size && cursor <= size
    ensures var from := Lower(gone, cursor);
            var to := Upper(from, count, size);
            && gone <= from && cursor <= from && (from == gone || from == cursor)
            && from <= to <= size && to - from <= count && (to == size || to - from == count)
  {
  }

  /** The command stream of one worker: entry i has the i-th id ever given; the oldest `gone` are trimmed. */
  class CommandStream {
    var entries: seq<seq<string>>  // every command ever added, in order
    var gone: nat
    var cursor: nat                // how many entries lastId has passed
    var carriedOut: seq<nat>       // history: the entries whose effects were carried out, in order

    ghost predicate Valid()
      reads this
    {
      && gone <= |entries| && cursor <= |entries|
      && (forall i: nat :: i < cursor || i < gone ==> i in carriedOut)
      && (forall k :: 0 <= k < |carriedOut| ==> carriedOut[k] < |entries|)
    }

    constructor ()
      ensures Valid() && entries == [] && cursor == 0 && gone == 0 && carriedOut == []
    {
      entries, gone, cursor, carriedOut := [], 0, 0, [];
    }

    method Add(fields: seq<string>)
      requires Valid()
      modifies `entries
      ensures Valid() && entries == old(entries) + [fields]
    {
      entries := entries + [fields];
    }

    /** One tick. XTRIM MINID keeps the last entry read; when it throws it may have trimmed or not. Every entry
        that a tick trims was carried out in it or before. */
    method PollCleanerCommands(dir: string, count: nat) returns (effects: seq<Effect>, end: TickEnd)
      requires Valid()
      modifies this
      ensures Valid() && entries == old(entries)
      ensures var from := Lower(old(gone), old(cursor));
              var to := Upper(from, count, |entries|);
              && effects == EffectsOf(dir, entries[from..to])
              && (end.CancelFailed? ==> cursor == old(cursor) && gone == old(gone) && carriedOut == old(carriedOut)
                                        && exists e :: e in effects && e.Cancel?)
              && (!end.CancelFailed? ==> carriedOut == old(carriedOut) + seq(to - from, k requires 0 <= k => from + k))
              && (end.TrimFailed? ==> from < to && cursor == old(cursor) && (gone == old(gone) || gone == to - 1))
              && (end.Moved? ==> if from == to then cursor == old(cursor) && gone == old(gone) else cursor == to && gone == to - 1)
      ensures forall i: nat :: i < gone ==> i in carriedOut
    {
      var from := Lower(gone, cursor);
      var to := Upper(from, count, |entries|);
      var batch := entries[from..to];
      effects := ProcessCleanerCommands(dir, batch);
      if |batch| == 0 {
        assert seq(to - from, k requires 0 <= k => from + k) == [];
        return effects, Moved;
      }
      var throws: bool := *;
      if throws && exists i :: 0 <= i < |effects| && effects[i].Cancel? { return effects, CancelFailed; }
      ghost var done := carriedOut;
      carriedOut := carriedOut + seq(to - from, k requires 0 <= k => from + k);
      CarriedTo(done, from, to);
      var trims: bool, fails: bool := *, *;
      if trims || !fails { gone := to - 1; }
      if fails { return effects, TrimFailed; }
      cursor := to;
      return effects, Moved;
    }
  }

  /** Adding the indices of a batch covers it. */
  lemma CarriedTo(done: seq<nat>, from: nat, to: nat)
    requires from <= to && forall i: nat :: i < from ==> i in done
    ensures var all := done + seq(to - from, k requires 0 <= k => from + k);
            forall i: nat :: i < to ==> i in all
  {
    var all := done + seq(to - from, k requires 0 <= k => from + k);
    forall i: nat | i < to
      ensures i in all
    {
      if i >= from { assert all[|done| + (i - from)] == i; }
    }
  }

  // ---------------------------------------------------------------- the whole way

  const DELETE := Job("delete", "filename")

  /** XADD '*' action <action> <field> <value>. */
  function CommandFields(c: Command): seq<string> { ["action", c.action, c.field, c.value] }

  const CANCEL := Job("cancel", "aria2_gid")

  lemma DeleteCommandUnlinks(dir: string, worker: string, path: string)
    ensures EffectOf(dir, CommandFields(Command(worker, "delete", "filename", path))) ==
            Some(Unlink(WithoutTrailingSlashes(dir) + "/" + path))
  {
    EntryMeans(dir, "delete", "filename", path);
  }

  /** The sweep of downloads to be cancelled: the worker named in the member cancels the download named there. */
  lemma CancelReachesWorker(dir: string, worker: string, gid: string)
    requires '|' !in worker
    ensures WellFormed(worker + "|" + gid) && CommandFor(CANCEL, worker + "|" + gid).worker == worker
    ensures EffectOf(dir, CommandFields(CommandFor(CANCEL, worker + "|" + gid))) == Some(Cancel(gid))
  {
    CommandIs(CANCEL, worker, gid);
    EntryMeans(dir, "cancel", "aria2_gid", gid);
    hide EffectOf, CommandFor;
  }

  /** A report that lists a local path schedules it for `keep` seconds later; the command that the sweep makes
      of that member goes to the worker that reported, and makes it unlink exactly the path listed, under its
      own download directory. */
  lemma EvictionEndToEnd(rec: Record, length: nat, worker: string, keep: int, reportedAt: int, dir: string) returns (scheduled: Schedule)
    requires ListedPath(AsMap(rec)) != "" && keep > 0 && '|' !in worker
    ensures ScheduleOf(Some(keep), RecordOf(CompletionReport(rec, length)), CleanerReporterKey(worker), reportedAt) == Some(scheduled)
    ensures scheduled == EvictionSchedule.Schedule(reportedAt + keep * 1000, worker + "|" + ListedPath(AsMap(rec)))
    ensures Unlinks(dir, scheduled.member, worker, ListedPath(AsMap(rec)))
  {
    hide ScheduleOf, RecordOf, CompletionReport, CleanerReporterKey, EffectOf, ListedPath, AsMap, CommandFor, CommandFields, WellFormed, WithoutTrailingSlashes;
    CompletionIsScheduled(rec, length, worker, Some(keep), reportedAt);
    scheduled := EvictionSchedule.Schedule(reportedAt + keep * 1000, worker + "|" + ListedPath(AsMap(rec)));
    CommandIs(DELETE, worker, ListedPath(AsMap(rec)));
    DeleteCommandUnlinks(dir, worker, ListedPath(AsMap(rec)));
  }

  /** The command for a member goes to a worker and makes it unlink a path in its download directory. */
  predicate Unlinks(dir: string, member: string, worker: string, path: string)
  {
    && WellFormed(member) && CommandFor(DELETE, member).worker == worker
    && EffectOf(dir, CommandFields(CommandFor(DELETE, member))) == Some(Unlink(WithoutTrailingSlashes(dir) + "/" + path))
  }

  /** What a worker publishes on its channel. */
  datatype Report =
    | Completed(c: Completion)
    | DownloadFailed(downloaderId: string, reason: Option<string>, failedAt: string, rec: Hash, worker: string, reportedAt: int)

  function ScheduleFrom(keep: Option<int>, r: Report): Option<Schedule>
  {
    match r
    case Completed(c) => ReportOf(c, keep)
    case DownloadFailed(id, reason, failedAt, rec, worker, reportedAt) =>
      ScheduleOf(keep, RecordOf(Strings(FailureHeader(id, reason, failedAt) + Chosen(rec, FAILED_KEYS))), CleanerReporterKey(worker), reportedAt)
  }

  predicate IsEntryOf(r: Report, keep: Option<int>, e: Entry)
  {
    (r.Completed? ==> IsCompletion(r.c)) && ScheduleFrom(keep, r) == Some(EvictionSchedule.Schedule(e.score, e.member))
  }

  /** Every member was scheduled by a report. */
  ghost predicate ScheduledBy(reports: seq<Report>, keep: Option<int>, scheduled: set<Entry>)
  {
    forall e :: e in scheduled ==> exists j :: 0 <= j < |reports| && IsEntryOf(reports[j], keep, e)
  }

  ghost predicate RunScheduledBy(reports: seq<Report>, keep: Option<int>, run: seq<Step>)
  {
    forall i :: 0 <= i < |run| && run[i].Schedule? ==>
      exists j :: 0 <= j < |reports| && IsEntryOf(reports[j], keep, run[i].entry)
  }

  lemma ScheduledInStep(reports: seq<Report>, keep: Option<int>, s: State, step: Step)
    requires EvictionSweep.Enabled(s, step) && ScheduledBy(reports, keep, s.scheduled)
    requires step.Schedule? ==> exists j :: 0 <= j < |reports| && IsEntryOf(reports[j], keep, step.entry)
    ensures ScheduledBy(reports, keep, Next(s, step).scheduled)
  {
    hide IsEntryOf;
  }

  lemma {:induction false} ScheduledInRun(reports: seq<Report>, keep: Option<int>, s: State, run: seq<Step>)
    requires Valid(s, run) && ScheduledBy(reports, keep, s.scheduled) && RunScheduledBy(reports, keep, run)
    ensures ScheduledBy(reports, keep, After(s, run).scheduled)
    decreases |run|
  {
    if run != [] {
      hide IsEntryOf, Enabled, ScheduledBy, Next;
      assert RunScheduledBy(reports, keep, run[1..]);
      ScheduledInStep(reports, keep, s, run[0]);
      ScheduledInRun(reports, keep, Next(s, run[0]), run[1..]);
    }
  }

  /** An entry's report was of a completed download, and its command unlinks the path that the report listed,
      on the worker that published it; that path is the one of the worker's own download exactly if nobody
      else's completion came first or between. */
  ghost predicate Evicts(r: Report, keep: Option<int>, dir: string, e: Entry)
  {
    && r.Completed? && keep.Some? && keep.value > 0
    && var path := ListedPath(AsMap(r.c.listing));
    && path != "" && e == Entry(r.c.worker + "|" + path, r.c.reportedAt + keep.value * 1000)
    && ('|' !in r.c.worker ==> Unlinks(dir, e.member, r.c.worker, path))
    && (AtAddresses(r.c) ==> (path == r.c.localPath <==> KeepsOwn(r.c)))
  }

  lemma EntryUnlinks(r: Report, keep: Option<int>, e: Entry, dir: string)
    requires IsEntryOf(r, keep, e)
    ensures Evicts(r, keep, dir, e)
  {
    hide ScheduleOf, RecordOf, CompletionReport, CleanerReporterKey, ListedPath, AsMap, IsCompletion, KeepsOwn, AtAddresses, Unlinks;
    if r.DownloadFailed? {
      FailureNeverScheduled(r.downloaderId, r.reason, r.failedAt, r.rec, keep, CleanerReporterKey(r.worker), r.reportedAt);
    } else {
      CompletionIsScheduled(r.c.listing, r.c.length, r.c.worker, keep, r.c.reportedAt);
      if AtAddresses(r.c) { ListedIsOwnIff(r.c); }
      if '|' !in r.c.worker {
        var _ := EvictionEndToEnd(r.c.listing, r.c.length, r.c.worker, keep.value, r.c.reportedAt, dir);
      }
    }
  }

  /** The command was issued for one of the reports, and not before its entry was due. */
  ghost predicate IssuedForOneOf(reports: seq<Report>, keep: Option<int>, dir: string, issue: Issue)
  {
    issue.entry.score <= issue.now && exists j :: 0 <= j < |reports| && Evicts(reports[j], keep, dir, issue.entry)
  }

  /** Over any run of schedules, sweeps and failures in which members are scheduled by reports, of whatever
      completions and failures: every command issued is for the path that some report listed, on its worker,
      not before keep seconds after it; and no entry leaves as it was read without its command. */
  lemma EvictionOverRuns(reports: seq<Report>, keep: Option<int>, dir: string, s: State, run: seq<Step>, e: Entry)
    requires EvictionSweep.Initial(s) && Valid(s, run) && RunScheduledBy(reports, keep, run) && WellFormed(e.member)
    ensures forall i :: 0 <= i < |After(s, run).issued| ==> IssuedForOneOf(reports, keep, dir, After(s, run).issued[i])
    ensures After(s, run).removed[e] <= IssuedFor(After(s, run).issued, e)
  {
    NoSilentDeparture(s, run, e);
    ScheduledInRun(reports, keep, s, run);
    var t := After(s, run);
    hide After, Valid, IsEntryOf, EvictionSweep.Initial, RunScheduledBy, WellFormed, Evicts;
    forall i | 0 <= i < |t.issued|
      ensures IssuedForOneOf(reports, keep, dir, t.issued[i])
    {
      var entry := t.issued[i].entry;
      var j :| 0 <= j < |reports| && IsEntryOf(reports[j], keep, entry);
      EntryUnlinks(reports[j], keep, entry, dir);
    }
  }
}
