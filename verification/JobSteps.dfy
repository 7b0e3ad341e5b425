/** What each step of the job protocol does to the parts of the state, one group of fields at a time. */
module JobSteps {
  import opened Text
  import opened Records
  import opened DownloaderHash
  import opened JobProtocol
  import Retry

  // ---------------------------------------------------------------- the claim key

  /** What a candidate's step does to the claim key. */
  ghost predicate ClaimMove(s: State, t: State, c: nat, act: CandidateStep)
  {
    && |t.pcs| == |s.pcs|
    && t.expiries == s.expiries
    && (if act.SetNx? && s.claim.None? then t.claim == Some(c) && t.wins == s.wins + 1 && t.removals == s.removals && t.period == s.period[c := s.wins + 1]
        else if act.ReleaseClaim? && s.claim.Some? then t.claim == None && t.wins == s.wins && t.removals == s.removals + 1 && t.period == s.period
        else t.claim == s.claim && t.wins == s.wins && t.removals == s.removals && t.period == s.period)
  }

  lemma SubStep(cfg: Config, s: State, c: nat, act: CandidateStep)
    requires Enabled(cfg, s, Sub(c, act))
    ensures ClaimMove(s, Next(cfg, s, Sub(c, act)), c, act)
    ensures Next(cfg, s, Sub(c, act)).pcs == s.pcs[c := CandidatePc(s, s.pcs[c], cfg.cands[c].nocache, cfg.globalCacheMode, act)]
  {
    hide HashAfter, CandidatePc, CandidateEnabled;
  }

  lemma TaskKeysFrame(s: State, task: Task, work: TaskStep)
    ensures var t := TaskKeys(s, task, work);
            && t.pcs == s.pcs && t.wins == s.wins && t.period == s.period && t.claim == s.claim
            && t.removals == s.removals && t.expiries == s.expiries
  {
  }

  lemma OtherStep(cfg: Config, s: State, step: Step)
    requires Enabled(cfg, s, step) && !step.Sub?
    ensures var t := Next(cfg, s, step);
            && t.pcs == s.pcs && t.wins == s.wins && t.period == s.period
            && (if step == ExpireClaim then t.claim == None && t.removals == s.removals + 1 && t.expiries == s.expiries + 1
                else t.claim == s.claim && t.removals == s.removals && t.expiries == s.expiries)
  {
    if step.Down? { TaskKeysFrame(s, s.tasks[step.t], step.work); }
    hide HashAfter, TaskAfter, TaskKeys, TaskEnabled;
  }

  // ---------------------------------------------------------------- queue, tasks, complete key and marker

  lemma CandidateCounts(cfg: Config, s: State, c: nat, act: CandidateStep)
    requires Enabled(cfg, s, Sub(c, act))
    ensures var t := Next(cfg, s, Sub(c, act));
            && t.consumed == s.consumed && t.tasks == s.tasks && t.complete == s.complete
            && t.finals == s.finals && t.deletions == s.deletions
            && t.queued == s.queued + (if act.Enqueue? then 1 else 0)
            && t.markings == s.markings + (if act.SetMarker? then 1 else 0)
            && t.marker == (s.marker || act.SetMarker?)
  {
    hide HashAfter, CandidatePc, CandidateEnabled;
  }

  lemma OtherCounts(cfg: Config, s: State, step: Step)
    requires Enabled(cfg, s, step) && !step.Sub? && !step.Down?
    ensures var t := Next(cfg, s, step);
            && t.queued == s.queued && t.markings == s.markings && t.finals == s.finals && t.deletions == s.deletions
            && t.consumed == s.consumed + (if step.Consume? then 1 else 0)
            && t.tasks == s.tasks + (if step.Consume? then [Fetching] else [])
            && t.complete == (s.complete && step != ExpireComplete) && (t.marker ==> s.marker)
            && (step.Consume? ==> s.consumed < s.queued)
  {
    hide HashAfter, TaskAfter, TaskKeys, TaskEnabled;
  }

  lemma TaskCounts(cfg: Config, s: State, i: nat, work: TaskStep)
    requires Enabled(cfg, s, Down(i, work))
    ensures var t := Next(cfg, s, Down(i, work));
            && t.queued == s.queued && t.markings == s.markings && t.consumed == s.consumed
            && t.tasks == s.tasks[i := TaskAfter(cfg, s.hash, s.tasks[i], work)] + (if work.StartRetry? then [Fetching] else [])
            && t.finals == TaskKeys(s, s.tasks[i], work).finals
            && t.deletions == TaskKeys(s, s.tasks[i], work).deletions
            && t.complete == (s.complete || work.Flag?)
            && t.marker == (s.marker && !work.Unmark? && !work.ErrorUnmark?)
  {
    hide HashAfter, TaskAfter, TaskEnabled;
  }

  // ---------------------------------------------------------------- where a task goes

  /** A job waits for a retry decision only after a failed fetch or HASH_NOK, completes only what HASH_OK
      verified, works only on the first link of the stored notification, records an error only on RETRY_NOK and
      fetches again only on RETRY_OK. */
  lemma TaskRoutes(cfg: Config, hash: Hash, task: Task, work: TaskStep)
    requires TaskEnabled(hash, task, work)
    ensures var after := TaskAfter(cfg, hash, task, work);
            && (after.Delaying? <==> work.FetchFails? || work == Hashed(HashNok))
            && (after.Hashing? <==> work.FetchOk? && "wnm" in hash && cfg.linkOf(hash["wnm"]).Some?)
            && (after.Hashing? ==> Some(after.href) == cfg.linkOf(hash["wnm"]))
            && (after.Finishing? <==> work == Hashed(HashOk)) && (after.Finishing? ==> after.href == task.href)
            && (after.Unmarking? <==> work.RunComplete? && task.href in hash)
            && (after.Flagging? <==> work.Unmark? || work.UnmarkFails?)
            && (work.Snapshot? ==> (after.Recording? <==> Retry.Decide(Flatten(work.listing)).retry.RetryNok?)
                                   && (after.Retrying? <==> Retry.Decide(Flatten(work.listing)).retry.RetryOk?))
            && (after.Recording? ==> work.Snapshot?) && (after.ErrorUnmarking? <==> work.RecordError?)
            && (after.Retrying? ==> work.Snapshot? || task.Retrying?)
            && !after.Fetching?
  {
    hide Retry.Decide, Flatten;
  }

  // ---------------------------------------------------------------- the hash

  lemma QuietHash(cfg: Config, s: State, step: Step)
    requires !step.Sub? && !step.Down?
    ensures HashAfter(cfg, s, step) == if step == ExpireHash then map[] else s.hash
  {
  }

  lemma PcsAfter(cfg: Config, s: State, step: Step)
    requires Enabled(cfg, s, step)
    ensures var t := Next(cfg, s, step);
            && t.hash == HashAfter(cfg, s, step)
            && t.pcs == (if step.Sub? then s.pcs[step.c := CandidatePc(s, s.pcs[step.c], cfg.cands[step.c].nocache, cfg.globalCacheMode, step.act)]
                         else s.pcs)
  {
    if !step.Sub? && !step.Down? { QuietHash(cfg, s, step); }
    hide HashAfter, CandidatePc, TaskAfter, TaskEnabled, CandidateEnabled;
  }

  // ---------------------------------------------------------------- counting

  /** How many elements have a property. */
  function HowMany<T>(s: seq<T>, p: T -> bool): nat
  {
    if s == [] then 0 else HowMany(s[..|s| - 1], p) + (if p(s[|s| - 1]) then 1 else 0)
  }

  lemma {:induction false} HowManyUpdated<T>(s: seq<T>, i: nat, x: T, p: T -> bool)
    requires i < |s|
    ensures HowMany(s[i := x], p) == HowMany(s, p) - (if p(s[i]) then 1 else 0) + (if p(x) then 1 else 0)
  {
    var n := |s| - 1;
    if i < n {
      HowManyUpdated(s[..n], i, x, p);
      assert s[i := x][..n] == s[..n][i := x];
    } else {
      assert s[i := x][..n] == s[..n];
    }
  }

  lemma HowManyAppended<T>(s: seq<T>, x: T, p: T -> bool)
    ensures HowMany(s + [x], p) == HowMany(s, p) + (if p(x) then 1 else 0)
  {
    assert (s + [x])[..|s|] == s;
  }

  lemma {:induction false} HowManyNone<T>(s: seq<T>, p: T -> bool)
    ensures HowMany(s, p) == 0 <==> forall i :: 0 <= i < |s| ==> !p(s[i])
  {
    if s != [] {
      var n := |s| - 1;
      HowManyNone(s[..n], p);
      if forall i :: 0 <= i < n ==> !p(s[..n][i]) { assert forall i :: 0 <= i < n ==> !p(s[i]); }
      else { var i :| 0 <= i < n && p(s[..n][i]); assert p(s[i]); }
    }
  }

  /** One element has it exactly when some does and no other. */
  lemma HowManyOne<T>(s: seq<T>, i: nat, p: T -> bool)
    requires i < |s| && p(s[i])
    ensures HowMany(s, p) == 1 <==> forall j :: 0 <= j < |s| && j != i ==> !p(s[j])
    ensures HowMany(s, p) >= 1
  {
    if x: T :| !p(x) {
      HowManyUpdated(s, i, x, p);
      HowManyNone(s[i := x], p);
      assert forall j :: 0 <= j < |s| && j != i ==> s[i := x][j] == s[j];
    }
  }
}
