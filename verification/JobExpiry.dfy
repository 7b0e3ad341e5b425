/** What a claim key that expires too early breaks, by concrete runs. */
module JobExpiry {
  import opened Text
  import opened DownloaderHash
  import opened JobProtocol
  import opened ClaimSafety
  import opened JobSteps
  import opened Records

  lemma Act(cfg: Config, run: seq<Step>, c: nat, act: CandidateStep) returns (longer: seq<Step>)
    requires Valid(cfg, Initial(cfg), run)
    requires var s := After(cfg, Initial(cfg), run); c < |s.pcs| == |cfg.cands| && CandidateEnabled(s.pcs[c], act)
    ensures longer == run + [Sub(c, act)] && Valid(cfg, Initial(cfg), longer)
    ensures var s, t := After(cfg, Initial(cfg), run), After(cfg, Initial(cfg), longer);
            && ClaimMove(s, t, c, act)
            && t.pcs == s.pcs[c := CandidatePc(s, s.pcs[c], cfg.cands[c].nocache, cfg.globalCacheMode, act)]
            && t.complete == s.complete
  {
    longer := run + [Sub(c, act)];
    Extend(cfg, Initial(cfg), run, Sub(c, act));
    SubStep(cfg, After(cfg, Initial(cfg), run), c, act);
    hide CandidatePc, HashAfter, CandidateEnabled, Valid, After;
  }

  lemma Expire(cfg: Config, run: seq<Step>) returns (longer: seq<Step>)
    requires Valid(cfg, Initial(cfg), run) && After(cfg, Initial(cfg), run).claim.Some?
    ensures longer == run + [ExpireClaim] && Valid(cfg, Initial(cfg), longer)
    ensures var s, t := After(cfg, Initial(cfg), run), After(cfg, Initial(cfg), longer);
            t.claim == None && t.pcs == s.pcs && t.complete == s.complete
  {
    longer := run + [ExpireClaim];
    Extend(cfg, Initial(cfg), run, ExpireClaim);
    hide HashAfter, Valid, After;
  }

  lemma Begin(cfg: Config)
    ensures Valid(cfg, Initial(cfg), []) && After(cfg, Initial(cfg), []) == Initial(cfg)
  {
  }

  lemma LoseKeyWhilePublishing(cfg: Config) returns (run: seq<Step>)
    requires |cfg.cands| == 3 && cfg.globalCacheMode && cfg.cands[0].nocache
    ensures Valid(cfg, Initial(cfg), run)
    ensures After(cfg, Initial(cfg), run).claim == None && !After(cfg, Initial(cfg), run).complete
    ensures After(cfg, Initial(cfg), run).pcs == [Initing, Start, Start]
    ensures run == [Sub(0, Exists), Sub(0, SetNx), ExpireClaim]
  {
    Begin(cfg);
    hide Valid, After, ClaimSafety.Won, Enabled, Next;
    run := Act(cfg, [], 0, Exists);
    run := Act(cfg, run, 0, SetNx);
    run := Expire(cfg, run);
  }

  /** One key expires while its owner is publishing; the owner then deletes the next winner's live key, and a
      third candidate wins beside it: two downloads of the same content at once. */
  lemma StaleReleaseLetsTwoDownload(a: Candidate, b: Candidate, k: Candidate) returns (cfg: Config, run: seq<Step>)
    requires a.nocache && !b.nocache && !k.nocache
    ensures cfg.cands == [a, b, k] && cfg.globalCacheMode && Valid(cfg, Initial(cfg), run)
    ensures |run| > 2 && run[2] == ExpireClaim && ExpireClaim !in run[..2] + run[3..]
    ensures After(cfg, Initial(cfg), run).pcs == [Ended(PublishOnly), Marking, Marking]
  {
    cfg := Config([a, b, k], true, _ => None);
    run := LoseKeyWhilePublishing(cfg);
    hide Valid, After, ClaimSafety.Won, Enabled, Next, Initial;
    run := Act(cfg, run, 1, Exists);
    run := Act(cfg, run, 1, SetNx);
    run := Act(cfg, run, 0, InitAttemptOf);
    run := Act(cfg, run, 0, ReleaseClaim);
    run := Act(cfg, run, 2, Exists);
    run := Act(cfg, run, 2, SetNx);
  }

  // ---------------------------------------------------------------- the deadline marker

  /** A candidate step that does not write the hash. */
  lemma ActOn(cfg: Config, run: seq<Step>, c: nat, act: CandidateStep) returns (longer: seq<Step>)
    requires Valid(cfg, Initial(cfg), run)
    requires var s := After(cfg, Initial(cfg), run); c < |s.pcs| == |cfg.cands| && CandidateEnabled(s.pcs[c], act)
    requires CandidateWrite(cfg.cands[c], act) == None
    ensures Valid(cfg, Initial(cfg), longer)
    ensures var s, t := After(cfg, Initial(cfg), run), After(cfg, Initial(cfg), longer);
            && ClaimMove(s, t, c, act) && t.hash == s.hash
            && t.pcs == s.pcs[c := CandidatePc(s, s.pcs[c], cfg.cands[c].nocache, cfg.globalCacheMode, act)]
            && t.complete == s.complete && t.tasks == s.tasks && t.consumed == s.consumed && t.deletions == s.deletions
            && t.queued == s.queued + (if act.Enqueue? then 1 else 0)
            && t.marker == (s.marker || act.SetMarker?)
  {
    longer := Act(cfg, run, c, act);
    Extend(cfg, Initial(cfg), run, Sub(c, act));
    CandidateCounts(cfg, After(cfg, Initial(cfg), run), c, act);
    hide CandidatePc, CandidateEnabled, Valid, After, CandidateWrite, ClaimMove;
  }

  /** A step of the only task, when it neither writes the hash nor starts another. */
  lemma WorkOn(cfg: Config, run: seq<Step>, work: TaskStep) returns (longer: seq<Step>)
    requires Valid(cfg, Initial(cfg), run)
    requires var s := After(cfg, Initial(cfg), run); |s.tasks| == 1 && TaskEnabled(s.hash, s.tasks[0], work)
    requires !work.RunComplete? && !work.RunScript? && !work.StartRetry?
    ensures Valid(cfg, Initial(cfg), longer)
    ensures var s, t := After(cfg, Initial(cfg), run), After(cfg, Initial(cfg), longer);
            && t.hash == s.hash && t.pcs == s.pcs && t.claim == s.claim
            && t.tasks == [TaskAfter(cfg, s.hash, s.tasks[0], work)]
            && t.complete == (s.complete || work.Flag?)
            && t.deletions == s.deletions + (if work.Unmark? || work.ErrorUnmark? then 1 else 0)
  {
    longer := run + [Down(0, work)];
    var s := After(cfg, Initial(cfg), run);
    Extend(cfg, Initial(cfg), run, Down(0, work));
    OtherStep(cfg, s, Down(0, work));
    TaskCounts(cfg, s, 0, work);
    assert s.tasks[0 := TaskAfter(cfg, s.hash, s.tasks[0], work)] == [TaskAfter(cfg, s.hash, s.tasks[0], work)];
    hide TaskAfter, TaskEnabled, Valid, After;
  }

  lemma TakeJob(cfg: Config, run: seq<Step>) returns (longer: seq<Step>)
    requires Valid(cfg, Initial(cfg), run)
    requires var s := After(cfg, Initial(cfg), run); s.consumed < s.queued && s.tasks == []
    ensures Valid(cfg, Initial(cfg), longer)
    ensures var s, t := After(cfg, Initial(cfg), run), After(cfg, Initial(cfg), longer);
            t == s.(consumed := s.consumed + 1, tasks := [Fetching])
  {
    longer := run + [Consume];
    Extend(cfg, Initial(cfg), run, Consume);
    hide Valid, After;
  }

  /** A failed fetch with no record left to retry from ends in a recorded error. */
  lemma GiveUp(cfg: Config, none: Record)
    requires none == []
    ensures TaskEnabled(map[], Fetching, FetchFails) && TaskAfter(cfg, map[], Fetching, FetchFails) == Delaying
    ensures TaskEnabled(map[], Delaying, Snapshot(none)) && TaskAfter(cfg, map[], Delaying, Snapshot(none)) == Recording
    ensures TaskEnabled(map[], Recording, RecordError) && TaskAfter(cfg, map[], Recording, RecordError) == ErrorUnmarking
    ensures TaskEnabled(map[], ErrorUnmarking, ErrorUnmark)
  {
  }

  /** The first candidate wins and queues its job; its write to the hash fails. */
  lemma QueueJob(cfg: Config) returns (run: seq<Step>)
    requires |cfg.cands| >= 1 && !cfg.cands[0].nocache
    ensures Valid(cfg, Initial(cfg), run)
    ensures var e := After(cfg, Initial(cfg), run);
            && e.claim == Some(0) && e.pcs == Initial(cfg).pcs[0 := Writing(false, false)] && !e.complete && e.deletions == 0
            && e.hash == map[] && e.tasks == [] && e.consumed < e.queued
  {
    Begin(cfg);
    hide Valid, After, Enabled, Next, HashAfter;
    run := ActOn(cfg, [], 0, Exists);
    run := ActOn(cfg, run, 0, SetNx);
    run := ActOn(cfg, run, 0, SetMarker);
    run := ActOn(cfg, run, 0, JobFails);
    run := ActOn(cfg, run, 0, Enqueue);
  }

  /** A job taken from a state without record fails for good: first it finds nothing to retry from. */
  lemma NothingToRetry(cfg: Config, run: seq<Step>) returns (longer: seq<Step>)
    requires Valid(cfg, Initial(cfg), run)
    requires var s := After(cfg, Initial(cfg), run); s.hash == map[] && s.tasks == [Fetching] && s.deletions == 0
    ensures Valid(cfg, Initial(cfg), longer)
    ensures var s, t := After(cfg, Initial(cfg), run), After(cfg, Initial(cfg), longer);
            && t.hash == map[] && t.tasks == [Recording] && t.deletions == 0
            && t.claim == s.claim && t.pcs == s.pcs && t.complete == s.complete
  {
    var none: Record := [];
    GiveUp(cfg, none);
    hide Valid, After, Initial, TaskAfter, TaskEnabled;
    longer := WorkOn(cfg, run, FetchFails);
    longer := WorkOn(cfg, longer, Snapshot(none));
  }

  /** Then it records the error and deletes the marker. */
  lemma RecordFailure(cfg: Config, run: seq<Step>) returns (longer: seq<Step>)
    requires Valid(cfg, Initial(cfg), run)
    requires var s := After(cfg, Initial(cfg), run); s.hash == map[] && s.tasks == [Recording] && s.deletions == 0
    ensures Valid(cfg, Initial(cfg), longer)
    ensures var s, t := After(cfg, Initial(cfg), run), After(cfg, Initial(cfg), longer);
            t.claim == s.claim && t.pcs == s.pcs && t.complete == s.complete && t.deletions == 1
  {
    var none: Record := [];
    GiveUp(cfg, none);
    hide Valid, After, Initial, TaskAfter, TaskEnabled;
    longer := WorkOn(cfg, run, RecordError);
    longer := WorkOn(cfg, longer, ErrorUnmark);
  }

  /** The job of the first winner fails for good and its marker is deleted. */
  lemma FailForGood(cfg: Config) returns (run: seq<Step>)
    requires |cfg.cands| >= 1 && !cfg.cands[0].nocache
    ensures Valid(cfg, Initial(cfg), run)
    ensures var e := After(cfg, Initial(cfg), run);
            e.claim == Some(0) && e.pcs == Initial(cfg).pcs[0 := Writing(false, false)] && !e.complete && e.deletions == 1
  {
    hide Valid, After, Enabled, Next;
    run := QueueJob(cfg);
    run := TakeJob(cfg, run);
    run := NothingToRetry(cfg, run);
    run := RecordFailure(cfg, run);
  }

  /** Once the claim key expires, another candidate takes the job again and sets the marker after it was deleted. */
  lemma ExpiredClaimRevivesMarker(a: Candidate, b: Candidate) returns (cfg: Config, run: seq<Step>)
    requires !a.nocache && !b.nocache
    ensures cfg.cands == [a, b] && Valid(cfg, Initial(cfg), run)
    ensures After(cfg, Initial(cfg), run).marker && After(cfg, Initial(cfg), run).deletions > 0
  {
    cfg := Config([a, b], false, _ => None);
    run := FailForGood(cfg);
    hide Valid, After, Enabled, Next, HashAfter;
    run := ExpireOn(cfg, run);
    run := ActOn(cfg, run, 1, Exists);
    run := ActOn(cfg, run, 1, SetNx);
    run := ActOn(cfg, run, 1, SetMarker);
  }

  lemma ExpireOn(cfg: Config, run: seq<Step>) returns (longer: seq<Step>)
    requires Valid(cfg, Initial(cfg), run) && After(cfg, Initial(cfg), run).claim.Some?
    ensures Valid(cfg, Initial(cfg), longer)
    ensures var s, t := After(cfg, Initial(cfg), run), After(cfg, Initial(cfg), longer);
            t.claim == None && t.pcs == s.pcs && t.complete == s.complete && t.deletions == s.deletions
  {
    longer := Expire(cfg, run);
    Extend(cfg, Initial(cfg), run, ExpireClaim);
    hide HashAfter, Valid, After;
  }
}
