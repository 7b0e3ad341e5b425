/** The store commands of the job protocol and the code that issues them in order. Each command, or its
    failure, is one step of the protocol, so a call that nothing disturbs is a run of it; interleaved calls
    are other runs. */
module JobStore {
  import opened Text
  import opened Records
  import opened DownloaderHash
  import opened Retry
  import opened JobRecord
  import EvictionSchedule
  import JobSteps
  import P = JobProtocol

  /** An entry of the error stream. */
  datatype ErrorEntry = ErrorEntry(downloaderId: string, dataId: string, hashFound: bool, hash: seq<string>)

  /** What became of a dispatched notification. */
  datatype Dispatched = Handled | MarkerFailed | WritesFailed(jobWritten: bool, queued: bool) | WriteFailed

  class Store {
    const hash: HashKey
    const cfg: P.Config
    const downloaderId: string
    var claimed: bool               // downloaderClaimKey exists
    var complete: bool              // downloaderCompleteKey exists
    var marker: bool                // cacheMarkerKey exists
    var workQueue: seq<string>      // the href of every entry ever added
    var errors: seq<ErrorEntry>
    var reports: seq<seq<string>>   // what was published on the cleaner-reporter channel
    ghost var model: P.State

    ghost predicate Valid()
      reads this, hash
    {
      && claimed == model.claim.Some? && complete == model.complete && marker == model.marker
      && hash.fields == model.hash && |workQueue| == model.queued && |model.pcs| == |cfg.cands|
    }

    constructor (cfg: P.Config, downloaderId: string)
      ensures Valid() && fresh(hash) && model == P.Initial(cfg) && this.cfg == cfg && this.downloaderId == downloaderId
    {
      this.cfg, this.downloaderId := cfg, downloaderId;
      claimed, complete, marker, workQueue, errors, reports := false, false, false, [], [], [];
      hash := new HashKey();
      model := P.Initial(cfg);
    }

    /** The model got here from a state by these steps. */
    ghost predicate Ran(from: P.State, steps: seq<P.Step>)
      reads this`model
    {
      P.Valid(cfg, from, steps) && model == P.After(cfg, from, steps)
    }

    ghost method Advance(from: P.State, steps: seq<P.Step>, step: P.Step) returns (longer: seq<P.Step>)
      requires Ran(from, steps) && P.Enabled(cfg, model, step)
      modifies `model
      ensures longer == steps + [step] && Ran(from, longer) && model == P.Next(cfg, old(model), step)
    {
      P.Extend(cfg, from, steps, step);
      hide P.Valid, P.After, P.Next, P.Enabled;
      longer := steps + [step];
      model := P.Next(cfg, model, step);
    }

    /** The hash after a write, if any. */
    ghost function Written(m: Hash, op: Option<HashOp>): Hash
    {
      match op case Some(w) => Apply(m, w) case None => m
    }

    ghost method AdvanceTask(from: P.State, steps: seq<P.Step>, t: nat, work: P.TaskStep) returns (longer: seq<P.Step>)
      requires Ran(from, steps) && t < |model.tasks| && P.TaskEnabled(model.hash, model.tasks[t], work)
      modifies `model
      ensures longer == steps + [P.Down(t, work)] && Ran(from, longer)
      ensures var s := old(model);
              && model.tasks == s.tasks[t := P.TaskAfter(cfg, s.hash, s.tasks[t], work)] + (if work.StartRetry? then [P.Fetching] else [])
              && model.pcs == s.pcs && model.claim == s.claim && model.queued == s.queued
              && model.complete == (s.complete || work.Flag?)
              && model.marker == (s.marker && !work.Unmark? && !work.ErrorUnmark?)
              && model.hash == Written(s.hash, P.TaskWrite(s.tasks[t], work))
    {
      JobSteps.OtherStep(cfg, model, P.Down(t, work));
      JobSteps.TaskCounts(cfg, model, t, work);
      JobSteps.PcsAfter(cfg, model, P.Down(t, work));
      longer := Advance(from, steps, P.Down(t, work));
      hide P.Next, P.TaskAfter, P.TaskWrite, Apply, Ran;
    }

    ghost method AdvanceCandidate(from: P.State, steps: seq<P.Step>, c: nat, act: P.CandidateStep) returns (longer: seq<P.Step>)
      requires Ran(from, steps) && c < |model.pcs| == |cfg.cands| && P.CandidateEnabled(model.pcs[c], act)
      modifies `model
      ensures longer == steps + [P.Sub(c, act)] && Ran(from, longer)
      ensures var s := old(model);
              && model.pcs == s.pcs[c := P.CandidatePc(s, s.pcs[c], cfg.cands[c].nocache, cfg.globalCacheMode, act)]
              && JobSteps.ClaimMove(s, model, c, act) && model.complete == s.complete
              && model.queued == s.queued + (if act.Enqueue? then 1 else 0)
              && model.marker == (s.marker || act.SetMarker?)
              && model.hash == Written(s.hash, P.CandidateWrite(cfg.cands[c], act))
    {
      JobSteps.SubStep(cfg, model, c, act);
      JobSteps.CandidateCounts(cfg, model, c, act);
      JobSteps.PcsAfter(cfg, model, P.Sub(c, act));
      longer := Advance(from, steps, P.Sub(c, act));
      hide P.Next, P.CandidatePc, P.CandidateWrite, P.CandidateEnabled, Apply, Ran, JobSteps.ClaimMove;
    }

    lemma NotMoved()
      ensures Ran(model, [])
    {
    }

    ghost predicate Ready(c: nat, act: P.CandidateStep)
      reads this, hash
    {
      Valid() && c < |cfg.cands| && P.CandidateEnabled(model.pcs[c], act)
    }

    // -------------------------------------------------------------- src/redis/ioredis-store.ts

    /** EXISTS, then SET NX unless the content is complete. */
    method CheckAndClaimDownload(c: nat) returns (alreadyComplete: bool, won: bool, ghost steps: seq<P.Step>)
      requires Ready(c, P.Exists)
      modifies this
      ensures Valid() && alreadyComplete == old(complete) && won == (!old(complete) && !old(claimed))
      ensures complete == old(complete) && claimed == (old(claimed) || won) && marker == old(marker) && workQueue == old(workQueue)
      ensures Ran(old(model), steps)
      ensures P.AfterAction(P.DecideClaimAction(alreadyComplete, won, cfg.cands[c].nocache, cfg.globalCacheMode)) == model.pcs[c]
    {
      NotMoved();
      alreadyComplete := complete;
      steps := AdvanceCandidate(model, [], c, P.Exists);
      hide Ran;
      won := false;
      if !alreadyComplete {
        won := !claimed;
        steps := AdvanceCandidate(old(model), steps, c, P.SetNx);
        claimed := true;
      }
    }

    // -------------------------------------------------------------- src/subscriber/consumer.ts

    /** The job write, or its failure. */
    method WriteDownloadJob(c: nat, accepted: string, ghost from: P.State, ghost before: seq<P.Step>)
      returns (ok: bool, ghost steps: seq<P.Step>)
      requires Ready(c, P.WriteDownloadJob(accepted)) && Ran(from, before)
      modifies this`model, hash
      ensures Valid() && Ran(from, steps) && model.pcs == old(model).pcs[c := old(model).pcs[c].(jobPending := false)]
      ensures hash.fields == if ok then Apply(old(hash.fields), JobOf(c, accepted)) else old(hash.fields)
      ensures ok ==> HasJob(c, accepted)
    {
      ok := *;
      hide Ran, Apply;
      if ok {
        var k := cfg.cands[c];
        hash.WriteDownloadJob(k.href, k.source, k.wnm, k.topic, k.published, Some(k.dataId), accepted);
        steps := AdvanceCandidate(from, before, c, P.WriteDownloadJob(accepted));
      } else {
        steps := AdvanceCandidate(from, before, c, P.JobFails);
      }
    }

    /** The hash holds the candidate's job. */
    ghost predicate HasJob(c: nat, accepted: string)
      requires c < |cfg.cands|
      reads hash
    {
      var k := cfg.cands[c];
      HoldsJob(hash.fields, k.href, k.source, k.wnm, k.topic, k.published, k.dataId, accepted)
    }

    /** The write of the candidate's job. */
    ghost function JobOf(c: nat, accepted: string): HashOp
      requires c < |cfg.cands|
    {
      var k := cfg.cands[c];
      WriteJob(k.href, k.source, k.wnm, k.topic, k.published, k.dataId, accepted)
    }

    /** The XADD on the work queue, or its failure. */
    method EnqueueWork(c: nat, ghost from: P.State, ghost before: seq<P.Step>) returns (ok: bool, ghost steps: seq<P.Step>)
      requires Ready(c, P.Enqueue) && Ran(from, before)
      modifies this`model, this`workQueue
      ensures Valid() && Ran(from, steps) && model.pcs == old(model).pcs[c := old(model).pcs[c].(queuePending := false)]
      ensures workQueue == old(workQueue) + (if ok then [cfg.cands[c].href] else [])
    {
      ok := *;
      hide Ran;
      if ok {
        workQueue := workQueue + [cfg.cands[c].href];
        steps := AdvanceCandidate(from, before, c, P.Enqueue);
      } else {
        steps := AdvanceCandidate(from, before, c, P.EnqueueFails);
      }
    }

    /** `download`: the marker first, then job and queue entry together, ending in either order. */
    method DispatchDownload(c: nat, accepted: string, jobFirst: bool, ghost from: P.State, ghost before: seq<P.Step>)
      returns (r: Dispatched, ghost steps: seq<P.Step>)
      requires Ready(c, P.SetMarker) && Ran(from, before)
      modifies this`model, this`marker, this`workQueue, hash
      ensures Valid() && Ran(from, steps) && (r.Handled? || r.MarkerFailed? || r.WritesFailed?)
      ensures var jobWritten, queued := r.Handled? || (r.WritesFailed? && r.jobWritten), r.Handled? || (r.WritesFailed? && r.queued);
              && hash.fields == (if jobWritten then Apply(old(hash.fields), JobOf(c, accepted)) else old(hash.fields))
              && workQueue == old(workQueue) + (if queued then [cfg.cands[c].href] else [])
              && (r.WritesFailed? ==> !jobWritten || !queued)
              && (jobWritten ==> HasJob(c, accepted))
      ensures model.pcs[c] == (if r.MarkerFailed? then P.Failed(true) else P.Writing(false, false))
      ensures marker == (old(marker) || !r.MarkerFailed?)
    {
      hide Ran, Apply;
      var marked: bool := *;
      if !marked {
        steps := AdvanceCandidate(from, before, c, P.Crash);
        return MarkerFailed, steps;
      }
      marker := true;
      steps := AdvanceCandidate(from, before, c, P.SetMarker);
      hide P.Next;
      var jobWritten, queued;
      if jobFirst {
        jobWritten, steps := WriteDownloadJob(c, accepted, from, steps);
        queued, steps := EnqueueWork(c, from, steps);
      } else {
        queued, steps := EnqueueWork(c, from, steps);
        jobWritten, steps := WriteDownloadJob(c, accepted, from, steps);
      }
      r := if jobWritten && queued then Handled else WritesFailed(jobWritten, queued);
    }

    method DispatchWait(c: nat, ghost from: P.State, ghost before: seq<P.Step>) returns (r: Dispatched, ghost steps: seq<P.Step>)
      requires Ready(c, P.RecordWaitOf) && Ran(from, before)
      modifies this`model, hash
      ensures Valid() && Ran(from, steps) && (r.Handled? || r.WriteFailed?)
      ensures hash.fields == if r.Handled? then Apply(old(hash.fields), RecordWait(cfg.cands[c].href, cfg.cands[c].source)) else old(hash.fields)
      ensures model.pcs[c] == if r.Handled? then P.Ended(P.Wait) else P.Failed(false)
      ensures r.Handled? ==> Holds(hash.fields, "src:" + cfg.cands[c].href, cfg.cands[c].source)
                             && (IsHref(cfg.cands[c].href) ==> Holds(hash.fields, cfg.cands[c].href, "wait"))
    {
      hide Ran, Apply;
      var ok: bool := *;
      if ok {
        hash.RecordWaitHref(cfg.cands[c].href, cfg.cands[c].source);
        steps := AdvanceCandidate(from, before, c, P.RecordWaitOf);
      } else {
        steps := AdvanceCandidate(from, before, c, P.Crash);
      }
      r := if ok then Handled else WriteFailed;
    }

    /** `publish-only`, less the publications: they are isolated from the release. */
    method DispatchPublishOnly(c: nat, ghost from: P.State, ghost before: seq<P.Step>) returns (r: Dispatched, ghost steps: seq<P.Step>)
      requires Ready(c, P.InitAttemptOf) && Ran(from, before)
      modifies this`model, this`claimed, hash
      ensures Valid() && Ran(from, steps) && (r.Handled? || r.WriteFailed?)
      ensures r.Handled? ==> !claimed && model.pcs[c] == P.Ended(P.PublishOnly) && hash.fields == Apply(old(hash.fields), InitAttempt)
      ensures r.Handled? ==> hash.fields == old(hash.fields)["attempt" := "1"]
      ensures r.WriteFailed? ==>
              claimed == old(claimed) && model.pcs[c] == P.Failed(true) && hash.fields in {old(hash.fields), Apply(old(hash.fields), InitAttempt)}
    {
      hide Ran, P.Next, P.Enabled;
      var ok: bool := *;
      if !ok {
        steps := AdvanceCandidate(from, before, c, P.Crash);
        return WriteFailed, steps;
      }
      hash.HSet("attempt", "1");
      steps := AdvanceCandidate(from, before, c, P.InitAttemptOf);
      ok, steps := ReleaseClaim(c, from, steps);
      r := if ok then Handled else WriteFailed;
    }

    /** DEL of the claim key, or its failure. */
    method ReleaseClaim(c: nat, ghost from: P.State, ghost before: seq<P.Step>) returns (ok: bool, ghost steps: seq<P.Step>)
      requires Ready(c, P.ReleaseClaim) && Ran(from, before)
      modifies this`model, this`claimed
      ensures Valid() && Ran(from, steps)
      ensures claimed == (old(claimed) && !ok) && model.pcs[c] == if ok then P.Ended(P.PublishOnly) else P.Failed(true)
    {
      hide Ran, P.Next, P.Enabled;
      ok := *;
      if ok { claimed := false; }
      steps := AdvanceCandidate(from, before, c, if ok then P.ReleaseClaim else P.Crash);
    }

    /** The end of processEntry when nothing else acts meanwhile; any write may fail. */
    method Dispatch(c: nat, accepted: string, jobFirst: bool) returns (action: P.ClaimAction, r: Dispatched, ghost steps: seq<P.Step>)
      requires Ready(c, P.Exists)
      modifies this, hash
      ensures Valid() && Ran(old(model), steps)
      ensures action == P.DecideClaimAction(old(complete), !old(complete) && !old(claimed), cfg.cands[c].nocache, cfg.globalCacheMode)
      ensures action.Download? && r.Handled? ==>
              && model.pcs[c] == P.Writing(false, false) && marker && claimed
              && workQueue == old(workQueue) + [cfg.cands[c].href] && hash.fields == Apply(old(hash.fields), JobOf(c, accepted))
              && HasJob(c, accepted)
      ensures action.Download? && r.MarkerFailed? ==> model.pcs[c] == P.Failed(true) && workQueue == old(workQueue) && hash.fields == old(hash.fields)
      ensures action.Wait? && r.Handled? ==>
              model.pcs[c] == P.Ended(P.Wait) && hash.fields == Apply(old(hash.fields), RecordWait(cfg.cands[c].href, cfg.cands[c].source))
      ensures action.PublishOnly? && r.Handled? ==>
              model.pcs[c] == P.Ended(P.PublishOnly) && !claimed && hash.fields == Apply(old(hash.fields), InitAttempt)
      ensures action.AlreadyComplete? || action.Drop? ==> r.Handled? && hash.fields == old(hash.fields) && model.pcs[c] == P.Ended(action)
      ensures !action.Download? ==> marker == old(marker) && workQueue == old(workQueue)
      ensures !action.PublishOnly? ==> claimed == (old(claimed) || action.Download?)
    {
      hide Ran, Apply, P.CandidateEnabled;
      Branches(c, accepted);
      var alreadyComplete, won;
      alreadyComplete, won, steps := CheckAndClaimDownload(c);
      action := P.DecideClaimAction(alreadyComplete, won, cfg.cands[c].nocache, cfg.globalCacheMode);
      r := Handled;
      match action {
        case Download => r, steps := DispatchDownload(c, accepted, jobFirst, old(model), steps);
        case Wait => r, steps := DispatchWait(c, old(model), steps);
        case PublishOnly => r, steps := DispatchPublishOnly(c, old(model), steps);
        case _ =>
      }
    }

    /** What each branch starts with. */
    lemma Branches(c: nat, accepted: string)
      ensures P.CandidateEnabled(P.Marking, P.SetMarker) && P.CandidateEnabled(P.Waiting, P.RecordWaitOf)
      ensures P.CandidateEnabled(P.Initing, P.InitAttemptOf)
    {
    }

    // -------------------------------------------------------------- src/downloader/finishing.ts

    ghost predicate Doing(t: nat, work: P.TaskStep)
      reads this, hash
    {
      Valid() && t < |model.tasks| && P.TaskEnabled(model.hash, model.tasks[t], work)
    }

    /** EVAL LUA_COMPLETE. */
    method CompleteHref(t: nat, href: string, storedAt: string, link: string, localPath: string, ghost from: P.State, ghost before: seq<P.Step>)
      returns (answer: Option<string>, ghost steps: seq<P.Step>)
      requires Doing(t, P.RunComplete(storedAt, link, localPath)) && model.tasks[t] == P.Finishing(href) && Ran(from, before)
      modifies this`model, hash
      ensures Valid() && Ran(from, steps) && |model.tasks| == |old(model).tasks|
      ensures answer == if href in old(hash.fields) then Some("complete") else None
      ensures answer.Some? ==> model.tasks[t] == P.Unmarking
      ensures answer.None? ==> hash.fields == old(hash.fields)
      ensures answer.Some? && IsHref(href) ==> Holds(hash.fields, href, "complete")
      ensures answer.Some? && old(hash.fields)[href] != "complete" ==>
              Holds(hash.fields, "stored", storedAt) && Holds(hash.fields, "link", link) && Holds(hash.fields, "local-path", localPath)
      ensures hash.fields == Apply(old(hash.fields), DownloaderHash.CompleteHref(href, storedAt, link, localPath))
    {
      hide Ran;
      assert href !in hash.fields ==> Apply(hash.fields, DownloaderHash.CompleteHref(href, storedAt, link, localPath)) == hash.fields;
      hide Apply;
      answer := hash.EvalComplete(href, storedAt, link, localPath);
      steps := AdvanceTask(from, before, t, P.RunComplete(storedAt, link, localPath));
    }

    /** DEL of the deadline marker, SET of the complete key: each may fail without stopping the other. */
    method MarkDone(t: nat, ghost from: P.State, ghost before: seq<P.Step>) returns (unmarked: bool, flagged: bool, ghost steps: seq<P.Step>)
      requires Doing(t, P.Unmark) && Ran(from, before)
      modifies this`model, this`marker, this`complete
      ensures Valid() && Ran(from, steps)
      ensures marker == (old(marker) && !unmarked) && complete == (old(complete) || flagged)
    {
      hide Ran;
      unmarked := *;
      if unmarked { marker := false; }
      steps := AdvanceTask(from, before, t, if unmarked then P.Unmark else P.UnmarkFails);
      flagged := *;
      if flagged { complete := true; }
      steps := AdvanceTask(from, steps, t, if flagged then P.Flag else P.TaskCrash);
    }

    /** runFinishing, less the cache republication and the granule info. `listing` is the record as read again
        for the report, when others may have written to it. A href that is not in the record stops everything;
        after that no failure stops anything else. */
    method RunFinishing(t: nat, href: string, storedAt: string, link: string, localPath: string, listing: Record, length: nat)
      returns (completed: bool, unmarked: bool, flagged: bool, reported: bool, ghost steps: seq<P.Step>)
      requires Doing(t, P.RunComplete(storedAt, link, localPath)) && model.tasks[t] == P.Finishing(href)
      modifies this, hash
      ensures Valid() && Ran(old(model), steps)
      ensures completed <==> href in old(hash.fields)
      ensures hash.fields == Apply(old(hash.fields), DownloaderHash.CompleteHref(href, storedAt, link, localPath))
      ensures completed && IsHref(href) ==> Holds(hash.fields, href, "complete")
      ensures completed && old(hash.fields)[href] != "complete" ==>
              Holds(hash.fields, "stored", storedAt) && Holds(hash.fields, "link", link) && Holds(hash.fields, "local-path", localPath)
      ensures completed ==> marker == (old(marker) && !unmarked) && complete == (old(complete) || flagged)
      ensures reports == old(reports) + (if completed && reported then [Flatten(listing) + ["length", Decimal(length)]] else [])
      ensures !completed ==> hash.fields == old(hash.fields) && complete == old(complete) && marker == old(marker)
    {
      NotMoved();
      hide Ran, Flatten, Apply, P.Next;
      unmarked, flagged, reported := false, false, false;
      var transitioned;
      transitioned, steps := CompleteHref(t, href, storedAt, link, localPath, model, []);
      completed := transitioned == Some("complete");
      if completed {
        unmarked, flagged, steps := MarkDone(t, old(model), steps);
        reported := *;
        if reported { reports := reports + [Flatten(listing) + ["length", Decimal(length)]]; }
      }
    }

    // -------------------------------------------------------------- src/downloader/error-retry.ts

    /** RETRY_OK: the restart of the promoted href and LUA_RETRY are started together, end in either order and
        fail independently. */
    method Promote(t: nat, d: RetryResult, scriptFirst: bool, ghost from: P.State, ghost before: seq<P.Step>)
      returns (started: bool, scripted: bool, ghost steps: seq<P.Step>)
      requires Valid() && t < |model.tasks| && model.tasks[t] == P.Retrying(d, true, true) && Ran(from, before)
      modifies this`model, hash
      ensures Valid() && Ran(from, steps)
      ensures hash.fields == if scripted then Apply(old(hash.fields), RetryTransition(d.promoteHref, d.newAttempt, d.errorHref)) else old(hash.fields)
      ensures |model.tasks| == |old(model).tasks| + (if started then 1 else 0)
    {
      hide Apply, Ran;
      started, scripted, steps := *, *, before;
      if scripted { var _ := hash.EvalRetry(d.promoteHref, d.newAttempt, d.errorHref); }
      if scripted && scriptFirst { steps := AdvanceTask(from, steps, t, P.RunScript); }
      if started { steps := AdvanceTask(from, steps, t, P.StartRetry); }
      if scripted && !scriptFirst { steps := AdvanceTask(from, steps, t, P.RunScript); }
    }

    /** XADD on the error stream, then DEL of the deadline marker; a failure of the first stops the second. */
    method RecordError(t: nat, entry: ErrorEntry, ghost from: P.State, ghost before: seq<P.Step>)
      returns (recorded: bool, unmarked: bool, ghost steps: seq<P.Step>)
      requires Valid() && t < |model.tasks| && model.tasks[t] == P.Recording && Ran(from, before)
      modifies this`model, this`errors, this`marker
      ensures Valid() && Ran(from, steps) && |model.tasks| == |old(model).tasks| && (unmarked ==> recorded)
      ensures errors == old(errors) + (if recorded then [entry] else []) && marker == (old(marker) && !unmarked)
    {
      hide Ran, P.Next, P.Enabled;
      unmarked := false;
      recorded := *;
      if !recorded {
        steps := AdvanceTask(from, before, t, P.TaskCrash);
        return;
      }
      errors := errors + [entry];
      steps := AdvanceTask(from, before, t, P.RecordError);
      unmarked := *;
      if unmarked { marker := false; }
      steps := AdvanceTask(from, steps, t, if unmarked then P.ErrorUnmark else P.TaskCrash);
    }

    /** RETRY_NOK: the exhausted job goes to the error stream, its deadline marker is deleted and the failure
        is reported; whatever fails stops the rest. */
    method GiveUp(t: nat, payload: seq<string>, listing: Record, reason: Option<string>, failedAt: string,
                  ghost from: P.State, ghost before: seq<P.Step>)
      returns (recorded: bool, unmarked: bool, reported: bool, ghost steps: seq<P.Step>)
      requires Valid() && t < |model.tasks| && model.tasks[t] == P.Recording && Ran(from, before)
      modifies this`model, this`errors, this`marker, this`reports
      ensures Valid() && Ran(from, steps) && |model.tasks| == |old(model).tasks|
      ensures (reported ==> unmarked) && (unmarked ==> recorded)
      ensures errors == old(errors) + (if recorded then [ErrorEntry(downloaderId, DataIdOf(AsMap(listing)), listing != [], payload)] else [])
      ensures marker == (old(marker) && !unmarked)
      ensures reports == old(reports) + (if reported then [FailureReport(reason, failedAt, listing)] else [])
    {
      EntryMeans(payload, listing);
      recorded, unmarked, steps := RecordError(t, EntryFor(payload, listing), from, before);
      reported := *;
      reported := reported && unmarked;
      if reported {
        var rec := ParseFlatRecord(Flatten(listing));
        var fields := EvictionSchedule.FailedFields(downloaderId, reason, failedAt, rec);
        reports := reports + [fields];
      }
      hide Ran, ToMap, Flatten, EvictionSchedule.Chosen, EvictionSchedule.FailureHeader;
    }

    function EntryFor(payload: seq<string>, listing: Record): ErrorEntry
    {
      var rec := ToMap(Flatten(listing));
      ErrorEntry(downloaderId, if "data_id" in rec then rec["data_id"] else "", |Flatten(listing)| > 0, payload)
    }

    lemma EntryMeans(payload: seq<string>, listing: Record)
      ensures EntryFor(payload, listing) == ErrorEntry(downloaderId, DataIdOf(AsMap(listing)), listing != [], payload)
    {
      ToMapOfFlatten(listing);
      hide ToMap, Flatten, AsMap;
    }

    function FailureReport(reason: Option<string>, failedAt: string, listing: Record): seq<string>
    {
      EvictionSchedule.FailureHeader(downloaderId, reason, failedAt) +
      EvictionSchedule.Chosen(ToMap(Flatten(listing)), EvictionSchedule.FAILED_KEYS)
    }

    lemma FailureTold(reason: Option<string>, failedAt: string, listing: Record)
      ensures EvictionSchedule.TellsFailure(FailureReport(reason, failedAt, listing), downloaderId,
                                            if reason.Some? then reason.value else "", failedAt, AsMap(listing))
    {
      ToMapOfFlatten(listing);
      EvictionSchedule.FailureIsTold(downloaderId, reason, failedAt, AsMap(listing));
      hide ToMap, Flatten, AsMap, EvictionSchedule.TellsFailure, EvictionSchedule.Chosen, EvictionSchedule.FailureHeader;
    }

    /** runRetryDecision from its HGETALL on; `done` says whether all that the decision asks for succeeded. */
    method RunRetryDecision(t: nat, listing: Record, scriptFirst: bool, reason: Option<string>, failedAt: string)
      returns (decision: RetryResult, done: bool, ghost steps: seq<P.Step>)
      requires Doing(t, P.Snapshot(listing))
      modifies this, hash
      ensures Valid() && Ran(old(model), steps)
      ensures decision == Decide(Flatten(listing))
      ensures decision.retry == RetryOk && done ==>
              && hash.fields == Apply(old(hash.fields), RetryTransition(decision.promoteHref, decision.newAttempt, decision.errorHref))
              && |model.tasks| == |old(model).tasks| + 1
      ensures decision.retry != RetryNok ==> errors == old(errors) && marker == old(marker) && reports == old(reports)
      ensures decision.retry != RetryOk ==> hash.fields == old(hash.fields) && |model.tasks| == |old(model).tasks|
      ensures decision.retry == RetryNok && done ==>
              && errors == old(errors) + [ErrorEntry(downloaderId, DataIdOf(old(hash.fields)), old(hash.fields) != map[], decision.payload)]
              && !marker
              && reports == old(reports) + [FailureReport(reason, failedAt, listing)]
              && EvictionSchedule.TellsFailure(reports[|reports| - 1], downloaderId, if reason.Some? then reason.value else "", failedAt, old(hash.fields))
      ensures decision.retry == RetryNoNeed ==> done
    {
      EmptyHash(listing);
      FailureTold(reason, failedAt, listing);
      decision := DecideRetry(Flatten(listing));
      ghost var from := model;
      NotMoved();
      hide Decide, Flatten, Apply, Ran, EntryFor, FailureReport, EvictionSchedule.TellsFailure;
      steps := AdvanceTask(from, [], t, P.Snapshot(listing));
      Decided(cfg, from, t, listing);
      hide P.Next;
      done := true;
      match decision.retry {
        case RetryOk =>
          var started, scripted;
          started, scripted, steps := Promote(t, decision, scriptFirst, from, steps);
          done := started && scripted;
        case RetryNok =>
          var recorded, unmarked, reported;
          recorded, unmarked, reported, steps := GiveUp(t, decision.payload, listing, reason, failedAt, from, steps);
          done := reported;
        case RetryNoNeed =>
      }
    }
  }

  /** Only an empty hash is listed without pairs. */
  lemma EmptyHash(listing: Record)
    ensures listing == [] <==> AsMap(listing) == map[]
  {
    if listing != [] { assert listing[|listing| - 1].field in AsMap(listing); }
  }

  lemma Decided(cfg: P.Config, s: P.State, t: nat, listing: Record)
    requires P.Enabled(cfg, s, P.Down(t, P.Snapshot(listing)))
    ensures var after := P.Next(cfg, s, P.Down(t, P.Snapshot(listing)));
            after == s.(tasks := s.tasks[t := P.AfterDecision(Decide(Flatten(listing)))])
  {
    hide Decide, Flatten;
  }
}
