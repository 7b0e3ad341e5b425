/** Whose path a completion report lists. The record is read again after the completion script, which writes no
    path for an href that is complete already, so the path may be another worker's: exactly when, and in which
    runs of the job protocol it never is. */
module EvictionOwner {
  import opened Text
  import opened Records
  import opened DownloaderHash
  import opened HrefStatus
  import opened EvictionSchedule
  import opened Retry
  import P = JobProtocol
  import opened JobSteps
  import opened JobHash
  import opened DeadlineMarker
  import ClaimExpiry

  // ---------------------------------------------------------------- the path in the record

  /** Not one of the fields that a completion writes. */
  predicate Free(name: string) { name != "stored" && name != "link" && name != "local-path" }

  /** No address in the write is the name of such a field. */
  predicate SparesPath(op: HashOp)
  {
    match op
    case WriteJob(href, _, _, _, _, _, _) => Free(href)
    case RecordWait(href, _) => Free(href)
    case InitAttempt => true
    case CompleteHref(href, _, _, _) => Free(href)
    case RetryTransition(promoteHref, _, errorHref) => Free(promoteHref) && Free(errorHref)
  }

  ghost predicate AllSparePath(ops: seq<HashOp>) { forall i :: 0 <= i < |ops| ==> SparesPath(ops[i]) }

  /** The write completes an href that was not complete. */
  predicate Completes(m: Hash, op: HashOp) { op.CompleteHref? && op.href in m && m[op.href] != "complete" }

  lemma OtherFields()
    ensures Free("wnm") && Free("topic") && Free("published") && Free("attempt") && Free("data_id") && Free("accepted")
    ensures Free("wait") && Free("queue")
    ensures forall href :: Free("src:" + href)
    ensures forall href :: IsHref(href) ==> Free(href)
    ensures "stored" != "link" && "stored" != "local-path" && "link" != "local-path"
  {
    assert "local-path"[0] == 'l' && "local-path"[1] == 'o' && "link"[0] == 'l' && "link"[1] == 'i' && "stored"[0] == 's' && "stored"[1] == 't';
    forall href ensures Free("src:" + href) { assert ("src:" + href)[0] == 's' && ("src:" + href)[1] == 'r'; }
    forall href | IsHref(href) ensures Free(href) { assert href[0] == 'h'; }
  }

  /** What a record says of its completion: when, under which address and in which file; None for a missing field. */
  datatype Result = Result(stored: Option<string>, link: Option<string>, localPath: Option<string>)

  function ResultIn(m: Hash): Result { Result(FieldOf(m, "stored"), FieldOf(m, "link"), FieldOf(m, "local-path")) }

  function ResultOf(op: HashOp): Result
    requires op.CompleteHref?
  {
    Result(Some(op.storedAt), Some(op.link), Some(op.localPath))
  }

  lemma ResultAfter(m: Hash, op: HashOp)
    requires SparesPath(op)
    ensures ResultIn(Apply(m, op)) == if Completes(m, op) then ResultOf(op) else ResultIn(m)
  {
    OtherFields();
    if op.WriteJob? || op.RecordWait? { assert Free("src:" + op.href); }
  }

  lemma PathOfResult(m: Hash)
    ensures ListedPath(m) == if ResultIn(m).localPath.Some? then ResultIn(m).localPath.value else ""
  {
  }

  lemma PathAfter(m: Hash, op: HashOp)
    requires SparesPath(op)
    ensures ListedPath(Apply(m, op)) == if Completes(m, op) then op.localPath else ListedPath(m)
  {
    ResultAfter(m, op);
    PathOfResult(m);
    PathOfResult(Apply(m, op));
    hide Apply, ListedPath, SparesPath, Completes, ResultIn;
  }

  /** The last write that completed something. */
  function LastCompletion(m: Hash, ops: seq<HashOp>): (last: Option<HashOp>)
    ensures last.Some? ==> last.value.CompleteHref?
    decreases |ops|
  {
    if ops == [] then None
    else
      var later := LastCompletion(Apply(m, ops[0]), ops[1..]);
      if later.Some? then later else if Completes(m, ops[0]) then Some(ops[0]) else None
  }

  function LastPath(m: Hash, ops: seq<HashOp>): Option<string>
  {
    match LastCompletion(m, ops) case Some(op) => Some(op.localPath) case None => None
  }

  /** After any writes, in any order, the time, the address and the path in the record are together those of the
      last completion that changed it. */
  lemma {:induction false} LastCompletionIsRecorded(m: Hash, ops: seq<HashOp>)
    requires AllSparePath(ops)
    ensures ResultIn(Run(m, ops)) == match LastCompletion(m, ops) case Some(op) => ResultOf(op) case None => ResultIn(m)
    decreases |ops|
  {
    if ops != [] {
      assert AllSparePath(ops[1..]);
      ResultAfter(m, ops[0]);
      LastCompletionIsRecorded(Apply(m, ops[0]), ops[1..]);
      hide Apply, ResultIn, SparesPath, Completes;
    }
  }

  lemma PathAfterRun(m: Hash, ops: seq<HashOp>)
    requires AllSparePath(ops)
    ensures ListedPath(Run(m, ops)) == if LastPath(m, ops).Some? then LastPath(m, ops).value else ListedPath(m)
  {
    LastCompletionIsRecorded(m, ops);
    PathOfResult(m);
    PathOfResult(Run(m, ops));
    hide Run, ListedPath, ResultIn, AllSparePath, LastCompletion;
  }

  /** What a report schedules after any writes, in any order: the path of the last completion that changed the
      record, whichever worker made it. */
  lemma LastCompletionIsScheduled(m: Hash, ops: seq<HashOp>, rec: Record, length: nat, worker: string, keepSeconds: Option<int>, now: int)
    requires AllSparePath(ops) && AsMap(rec) == Run(m, ops)
    ensures ScheduleOf(keepSeconds, RecordOf(CompletionReport(rec, length)), CleanerReporterKey(worker), now) ==
            Eviction(if LastPath(m, ops).Some? then LastPath(m, ops).value else ListedPath(m), worker, keepSeconds, now)
  {
    PathAfterRun(m, ops);
    CompletionIsScheduled(rec, length, worker, keepSeconds, now);
    hide AsMap, Run, ScheduleOf, RecordOf, CompletionReport, CleanerReporterKey, Eviction, ListedPath, LastPath;
  }

  // ---------------------------------------------------------------- one worker's completion

  /** A completion that the script answered, as its worker reports it, with the writes that came between the
      script and the record read for the report. */
  datatype Completion = Completion(before: Hash, href: string, storedAt: string, link: string, localPath: string,
                                   others: seq<HashOp>, listing: Record, length: nat, worker: string, reportedAt: int)

  function Own(c: Completion): HashOp { CompleteHref(c.href, c.storedAt, c.link, c.localPath) }

  predicate IsCompletion(c: Completion)
  {
    c.href in c.before && AsMap(c.listing) == Run(Apply(c.before, Own(c)), c.others)
  }

  ghost predicate AtAddresses(c: Completion) { SparesPath(Own(c)) && AllSparePath(c.others) }

  function ReportOf(c: Completion, keepSeconds: Option<int>): Option<Schedule>
  {
    ScheduleOf(keepSeconds, RecordOf(CompletionReport(c.listing, c.length)), CleanerReporterKey(c.worker), c.reportedAt)
  }

  /** Nothing completed between script and read, and the href had not been complete, or with the same path; or
      the last completion in between was with the same path. */
  predicate KeepsOwn(c: Completion)
  {
    match LastPath(Apply(c.before, Own(c)), c.others)
    case Some(path) => path == c.localPath
    case None => Completes(c.before, Own(c)) || ListedPath(c.before) == c.localPath
  }

  lemma ListedIsOwnIff(c: Completion)
    requires IsCompletion(c) && AtAddresses(c)
    ensures ListedPath(AsMap(c.listing)) == c.localPath <==> KeepsOwn(c)
  {
    PathAfter(c.before, Own(c));
    PathAfterRun(Apply(c.before, Own(c)), c.others);
    hide AsMap, Run, Apply, ListedPath, LastPath, SparesPath, Completes;
  }

  /** A worker's report schedules the path of its own download exactly under that condition. */
  lemma OwnPathIff(c: Completion, keep: int)
    requires IsCompletion(c) && AtAddresses(c) && keep > 0
    ensures ReportOf(c, Some(keep)) == Eviction(c.localPath, c.worker, Some(keep), c.reportedAt) <==> KeepsOwn(c)
  {
    ListedIsOwnIff(c);
    CompletionIsScheduled(c.listing, c.length, c.worker, Some(keep), c.reportedAt);
    EvictionTellsPath(ListedPath(AsMap(c.listing)), c.localPath, c.worker, keep, c.reportedAt);
    hide AsMap, Eviction, ScheduleOf, RecordOf, CompletionReport, CleanerReporterKey, ListedPath, KeepsOwn;
  }

  /** When nothing is written in between, a caller can tell from the record before: exactly if the href is not
      complete yet or the path there is the same. */
  lemma OwnPathUndisturbedIff(c: Completion, keep: int)
    requires IsCompletion(c) && AtAddresses(c) && c.others == [] && keep > 0
    ensures ReportOf(c, Some(keep)) == Eviction(c.localPath, c.worker, Some(keep), c.reportedAt) <==>
            c.before[c.href] != "complete" || ListedPath(c.before) == c.localPath
  {
    OwnPathIff(c, keep);
    hide AsMap, Eviction, ReportOf, ListedPath;
    assert LastPath(Apply(c.before, Own(c)), []) == None;
  }

  // ---------------------------------------------------------------- where it fails

  /** Two workers complete one href: the second's report schedules the first's path on the second worker, and
      nothing schedules the second's. */
  lemma SecondReportsFirst(a: Completion, b: Completion, keep: int)
    requires IsHref(a.href) && a.href in a.before && a.before[a.href] != "complete" && a.localPath != b.localPath && keep > 0
    requires b.href == a.href && b.before == Apply(a.before, Own(a)) && IsCompletion(b) && b.others == []
    ensures ReportOf(b, Some(keep)) == Eviction(a.localPath, b.worker, Some(keep), b.reportedAt)
    ensures ReportOf(b, Some(keep)) != Eviction(b.localPath, b.worker, Some(keep), b.reportedAt)
  {
    assert a.href[0] == 'h' && "local-path"[0] == 'l' && "stored"[0] == 's' && "link"[0] == 'l';
    PathAfter(a.before, Own(a));
    assert b.before[b.href] == "complete" && AsMap(b.listing) == b.before;
    CompletionIsScheduled(b.listing, b.length, b.worker, Some(keep), b.reportedAt);
    EvictionTellsPath(a.localPath, b.localPath, b.worker, keep, b.reportedAt);
    hide AsMap, Eviction, ScheduleOf, RecordOf, CompletionReport, CleanerReporterKey;
  }

  /** Another href completes before the first worker reads the record again: its report schedules the other's
      path. */
  lemma OvertakenReportsOther(a: Completion, other: HashOp, keep: int)
    requires IsHref(a.href) && a.href in a.before && IsCompletion(a) && a.others == [other] && keep > 0
    requires other.CompleteHref? && IsHref(other.href) && other.href != a.href && other.href in a.before
    requires a.before[other.href] != "complete" && other.localPath != a.localPath
    ensures ReportOf(a, Some(keep)) == Eviction(other.localPath, a.worker, Some(keep), a.reportedAt)
    ensures ReportOf(a, Some(keep)) != Eviction(a.localPath, a.worker, Some(keep), a.reportedAt)
  {
    assert a.href[0] == 'h' && other.href[0] == 'h' && "local-path"[0] == 'l' && "stored"[0] == 's' && "link"[0] == 'l';
    var m := Apply(a.before, Own(a));
    assert Completes(m, other);
    assert Run(m, [other]) == Run(Apply(m, other), []);
    PathAfter(m, other);
    CompletionIsScheduled(a.listing, a.length, a.worker, Some(keep), a.reportedAt);
    EvictionTellsPath(other.localPath, a.localPath, a.worker, keep, a.reportedAt);
    hide AsMap, Eviction, ScheduleOf, RecordOf, CompletionReport, CleanerReporterKey, Apply;
  }

  // ---------------------------------------------------------------- in the job protocol

  /** No retry decision names the path's field. */
  lemma DecisionSparesPath(arr: seq<string>)
    ensures Free(Decide(arr).promoteHref) && Free(Decide(arr).errorHref)
  {
    OtherFields();
    var e := Scan(arr);
    assert Free("");
    PrintSparesPath(AttemptValue(arr) + 1);
    hide Scan, Print, AttemptValue, ShouldRetry, SourceOf, IsHref, Free;
  }

  lemma PrintSparesPath(n: int)
    ensures Free(Print(n))
  {
    assert Print(n)[0] == '-' || IsDigit(Print(n)[0]);
    assert "local-path"[0] == 'l' && "link"[0] == 'l' && "stored"[0] == 's';
  }

  ghost predicate RetriesSparePath(s: P.State)
  {
    forall i :: 0 <= i < |s.tasks| && s.tasks[i].Retrying? ==>
      (Free(s.tasks[i].d.promoteHref) && Free(s.tasks[i].d.errorHref))
  }

  lemma RetryingAfter(cfg: P.Config, hash: Hash, task: P.Task, work: P.TaskStep)
    requires P.TaskEnabled(hash, task, work)
    requires task.Retrying? ==> Free(task.d.promoteHref) && Free(task.d.errorHref)
    ensures var t := P.TaskAfter(cfg, hash, task, work);
            t.Retrying? ==> Free(t.d.promoteHref) && Free(t.d.errorHref)
  {
    if work.Snapshot? { DecisionSparesPath(Flatten(work.listing)); }
    hide Decide, P.LinkOf, Flatten;
  }

  lemma RetriesSparePathKept(cfg: P.Config, s: P.State, step: P.Step)
    requires P.Enabled(cfg, s, step) && RetriesSparePath(s)
    ensures RetriesSparePath(P.Next(cfg, s, step))
  {
    TasksAfter(cfg, s, step);
    if step.Down? { RetryingAfter(cfg, s.hash, s.tasks[step.t], step.work); }
    hide P.Next, P.TaskAfter, P.TaskEnabled;
  }

  /** Every href is complete only after a completion that counted. */
  ghost predicate CompleteIsFinal(s: P.State)
  {
    forall h :: IsHref(h) && Rank(s.hash, h) == COMPLETED ==> s.finals > 0
  }

  /** What the job protocol keeps that the paths depend on. */
  ghost predicate Sound(cfg: P.Config, s: P.State)
  {
    LinksOnly(cfg, s) && RetriesSparePath(s) && CompleteIsFinal(s) && MarkerOrder(s)
  }

  lemma WriteSparesPath(cfg: P.Config, s: P.State, step: P.Step)
    requires P.Enabled(cfg, s, step) && DistinctHrefs(cfg) && LinksOnly(cfg, s) && RetriesSparePath(s)
    requires P.HashWrite(cfg, s, step).Some?
    ensures SparesPath(P.HashWrite(cfg, s, step).value)
    ensures P.HashWrite(cfg, s, step).value.CompleteHref? ==> IsHref(P.HashWrite(cfg, s, step).value.href)
  {
    WriteIsKnown(cfg, s, step);
    OtherFields();
    hide IsHref, Free;
  }

  /** Completing something is a final outcome. */
  lemma CompletingCounts(cfg: P.Config, s: P.State, step: P.Step)
    requires P.Enabled(cfg, s, step)
    ensures P.Next(cfg, s, step).finals >= s.finals
    ensures P.HashWrite(cfg, s, step).Some? && P.HashWrite(cfg, s, step).value.CompleteHref? && P.HashWrite(cfg, s, step).value.href in s.hash ==>
            P.Next(cfg, s, step).finals == s.finals + 1
  {
    if step.Sub? { CandidateCounts(cfg, s, step.c, step.act); }
    else if step.Down? { TaskCounts(cfg, s, step.t, step.work); }
    else { OtherCounts(cfg, s, step); }
    hide P.Next, P.TaskEnabled, P.TaskAfter, P.CandidateEnabled;
  }

  lemma SoundKept(cfg: P.Config, s: P.State, step: P.Step)
    requires P.Enabled(cfg, s, step) && DistinctHrefs(cfg) && LinksAreHrefs(cfg) && Sound(cfg, s)
    ensures Sound(cfg, P.Next(cfg, s, step))
  {
    LinksOnlyKept(cfg, s, step);
    RetriesSparePathKept(cfg, s, step);
    MarkerOrderKept(cfg, s, step);
    PcsAfter(cfg, s, step);
    CompletingCounts(cfg, s, step);
    var t, w := P.Next(cfg, s, step), P.HashWrite(cfg, s, step);
    hide P.Next, P.Enabled, Apply, P.HashWrite, LinksOnly, RetriesSparePath, MarkerOrder;
    forall h | IsHref(h) && Rank(t.hash, h) == COMPLETED
      ensures t.finals > 0
    {
      if Rank(s.hash, h) != COMPLETED && w.Some? {
        CompletedAfter(s.hash, w.value, h);
        CompletesOnlyFields(s.hash, w.value);
      }
    }
  }

  lemma CompletesOnlyFields(m: Hash, op: HashOp)
    ensures op.CompleteHref? && op.href !in m ==> Apply(m, op) == m
  {
  }

  lemma {:induction false} SoundRun(cfg: P.Config, s: P.State, run: seq<P.Step>)
    requires P.Valid(cfg, s, run) && DistinctHrefs(cfg) && LinksAreHrefs(cfg) && Sound(cfg, s)
    ensures Sound(cfg, P.After(cfg, s, run))
    decreases |run|
  {
    hide P.Next, P.Enabled, Sound;
    if run != [] {
      SoundKept(cfg, s, run[0]);
      SoundRun(cfg, P.Next(cfg, s, run[0]), run[1..]);
    }
  }

  lemma {:induction false} FinalsGrow(cfg: P.Config, s: P.State, run: seq<P.Step>)
    requires P.Valid(cfg, s, run)
    ensures P.After(cfg, s, run).finals >= s.finals
    decreases |run|
  {
    hide P.Next, P.Enabled, P.HashWrite;
    if run != [] {
      CompletingCounts(cfg, s, run[0]);
      FinalsGrow(cfg, P.Next(cfg, s, run[0]), run[1..]);
    }
  }

  /** While nothing else comes to a final outcome, the recorded path stays. */
  lemma PathStays(cfg: P.Config, s: P.State, step: P.Step)
    requires P.Enabled(cfg, s, step) && DistinctHrefs(cfg) && Sound(cfg, s)
    requires step != P.ExpireHash && P.Next(cfg, s, step).finals == s.finals
    ensures ListedPath(P.Next(cfg, s, step).hash) == ListedPath(s.hash)
  {
    PcsAfter(cfg, s, step);
    CompletingCounts(cfg, s, step);
    var w := P.HashWrite(cfg, s, step);
    if w.Some? {
      WriteSparesPath(cfg, s, step);
      PathAfter(s.hash, w.value);
    }
    hide P.Next, P.Enabled, Apply, P.HashWrite, Sound, ListedPath, SparesPath;
  }

  lemma {:induction false} PathStaysRun(cfg: P.Config, s: P.State, run: seq<P.Step>)
    requires P.Valid(cfg, s, run) && DistinctHrefs(cfg) && LinksAreHrefs(cfg) && Sound(cfg, s)
    requires P.ExpireHash !in run && P.After(cfg, s, run).finals == s.finals
    ensures ListedPath(P.After(cfg, s, run).hash) == ListedPath(s.hash)
    decreases |run|
  {
    hide P.Next, P.Enabled, Sound, ListedPath;
    if run != [] {
      var t := P.Next(cfg, s, run[0]);
      CompletingCountsOnly(cfg, s, run[0]);
      FinalsGrow(cfg, t, run[1..]);
      SoundKept(cfg, s, run[0]);
      PathStays(cfg, s, run[0]);
      PathStaysRun(cfg, t, run[1..]);
    }
  }

  lemma CompletingCountsOnly(cfg: P.Config, s: P.State, step: P.Step)
    requires P.Enabled(cfg, s, step)
    ensures P.Next(cfg, s, step).finals >= s.finals
  {
    CompletingCounts(cfg, s, step);
    hide P.Next, P.Enabled, P.HashWrite;
  }

  lemma InitiallySound(cfg: P.Config)
    ensures Sound(cfg, P.Initial(cfg))
  {
    InitiallyInOrder(cfg);
    hide MarkerOrder;
  }

  /** A completion that answers, as a step of the protocol. */
  ghost predicate Answers(cfg: P.Config, s: P.State, t: nat, storedAt: string, link: string, localPath: string)
  {
    && P.Enabled(cfg, s, P.Down(t, P.RunComplete(storedAt, link, localPath)))
    && s.tasks[t].href in s.hash
  }

  /** The first final outcome writes its path. */
  lemma FirstWritesPath(cfg: P.Config, s: P.State, t: nat, storedAt: string, link: string, localPath: string)
    requires DistinctHrefs(cfg) && LinksAreHrefs(cfg) && Sound(cfg, s) && Answers(cfg, s, t, storedAt, link, localPath) && s.finals == 0
    ensures var e := P.Next(cfg, s, P.Down(t, P.RunComplete(storedAt, link, localPath)));
            ListedPath(e.hash) == localPath && e.finals == 1
  {
    var step := P.Down(t, P.RunComplete(storedAt, link, localPath));
    var href := s.tasks[t].href;
    assert P.HashWrite(cfg, s, step) == Some(CompleteHref(href, storedAt, link, localPath));
    PcsAfter(cfg, s, step);
    CompletingCounts(cfg, s, step);
    WriteSparesPath(cfg, s, step);
    PathAfter(s.hash, CompleteHref(href, storedAt, link, localPath));
    assert Rank(s.hash, href) != COMPLETED;
    hide P.Next, P.Enabled, Apply, P.HashWrite, ListedPath, SparesPath;
  }

  /** In a run of the protocol with a single job, every report of a completion lists its worker's own path,
      whatever else happens between the script and the read for the report, the record lasting. */
  lemma OneJobReportsOwn(cfg: P.Config, early: seq<P.Step>, t: nat, storedAt: string, link: string, localPath: string, late: seq<P.Step>)
    requires DistinctHrefs(cfg) && LinksAreHrefs(cfg) && P.Valid(cfg, P.Initial(cfg), early)
    requires var s := P.After(cfg, P.Initial(cfg), early); Answers(cfg, s, t, storedAt, link, localPath)
    requires var s := P.After(cfg, P.Initial(cfg), early);
             P.Valid(cfg, P.Next(cfg, s, P.Down(t, P.RunComplete(storedAt, link, localPath))), late) && P.ExpireHash !in late
    requires var s := P.After(cfg, P.Initial(cfg), early);
             P.After(cfg, P.Next(cfg, s, P.Down(t, P.RunComplete(storedAt, link, localPath))), late).queued <= 1
    ensures var s := P.After(cfg, P.Initial(cfg), early);
            ListedPath(P.After(cfg, P.Next(cfg, s, P.Down(t, P.RunComplete(storedAt, link, localPath))), late).hash) == localPath
  {
    var s := P.After(cfg, P.Initial(cfg), early);
    var step := P.Down(t, P.RunComplete(storedAt, link, localPath));
    InitiallySound(cfg);
    SoundRun(cfg, P.Initial(cfg), early);
    SoundKept(cfg, s, step);
    var m := P.Next(cfg, s, step);
    SoundRun(cfg, m, late);
    FinalsGrow(cfg, m, late);
    var e := P.After(cfg, m, late);
    assert e.finals <= 1 by { hide P.Next, P.After, P.Valid, LinksOnly, RetriesSparePath, CompleteIsFinal, HowMany; }
    OneMoreFinal(cfg, s, t, storedAt, link, localPath);
    FirstWritesPath(cfg, s, t, storedAt, link, localPath);
    PathStaysRun(cfg, m, late);
  }

  lemma OneMoreFinal(cfg: P.Config, s: P.State, t: nat, storedAt: string, link: string, localPath: string)
    requires Answers(cfg, s, t, storedAt, link, localPath)
    ensures P.Next(cfg, s, P.Down(t, P.RunComplete(storedAt, link, localPath))).finals == s.finals + 1
  {
    var step := P.Down(t, P.RunComplete(storedAt, link, localPath));
    assert P.HashWrite(cfg, s, step) == Some(CompleteHref(s.tasks[t].href, storedAt, link, localPath));
    CompletingCounts(cfg, s, step);
    hide P.Next, P.HashWrite;
  }

  /** So while no candidate wins on top of an earlier winner still at work, every completion is scheduled for
      eviction with its own path on its own worker, from whatever listing of the record it is reported. */
  lemma AloneReportsOwn(cfg: P.Config, early: seq<P.Step>, t: nat, storedAt: string, link: string, localPath: string, late: seq<P.Step>,
                        rec: Record, length: nat, worker: string, keepSeconds: Option<int>, now: int)
    requires DistinctHrefs(cfg) && LinksAreHrefs(cfg)
    requires P.Valid(cfg, P.Initial(cfg), early + ([P.Down(t, P.RunComplete(storedAt, link, localPath))] + late)) && P.ExpireHash !in late
    requires ClaimExpiry.NoSecondWin(cfg, P.Initial(cfg), early + ([P.Down(t, P.RunComplete(storedAt, link, localPath))] + late))
    requires P.Valid(cfg, P.Initial(cfg), early) && Answers(cfg, P.After(cfg, P.Initial(cfg), early), t, storedAt, link, localPath)
    requires AsMap(rec) == P.After(cfg, P.Initial(cfg), early + ([P.Down(t, P.RunComplete(storedAt, link, localPath))] + late)).hash
    ensures ScheduleOf(keepSeconds, RecordOf(CompletionReport(rec, length)), CleanerReporterKey(worker), now) ==
            Eviction(localPath, worker, keepSeconds, now)
  {
    var step := P.Down(t, P.RunComplete(storedAt, link, localPath));
    var s := P.After(cfg, P.Initial(cfg), early);
    assert ([step] + late)[1..] == late && ([step] + late)[0] == step;
    P.Concatenated(cfg, P.Initial(cfg), early, [step] + late);
    MarkerDisciplineAlone(cfg, early + ([step] + late));
    hide P.Next, P.Enabled, AsMap, ScheduleOf, RecordOf, CompletionReport, CleanerReporterKey, Eviction, ListedPath;
    OneJobReportsOwn(cfg, early, t, storedAt, link, localPath, late);
    CompletionIsScheduled(rec, length, worker, keepSeconds, now);
  }
}
