/** The deadline marker over whole runs: what holds of it whatever expires, exactly which step breaks the rest,
    and from which states it can be set again. */
module DeadlineMarker {
  import opened Text
  import opened JobProtocol
  import opened JobSteps
  import opened ClaimSafety
  import opened ClaimExpiry
  import Retry

  // ---------------------------------------------------------------- what needs no condition

  /** It set the marker: its job write and its enqueue were started. */
  predicate TookJob(pc: Pc) { pc.Writing? }

  predicate Queueing(pc: Pc) { pc.Writing? && pc.queuePending }

  /** About to delete the marker. */
  predicate Deleting(task: Task) { task.Unmarking? || task.ErrorUnmarking? }

  /** It may still come to a completion or a recorded error, itself or in the download it restarts. */
  predicate Live(task: Task)
  {
    task.Fetching? || task.Hashing? || task.Finishing? || task.Delaying? || (task.Retrying? && task.startPending) || task.Recording?
  }

  /** The marker was set once for every candidate that took the job; a job is queued after that; every
      completion or recorded error belongs to a consumed job of its own, and every deletion to one of those. */
  ghost predicate MarkerOrder(s: State)
  {
    && s.markings == HowMany(s.pcs, TookJob)
    && s.queued + HowMany(s.pcs, Queueing) <= s.markings
    && s.consumed <= s.queued
    && s.finals + HowMany(s.tasks, Live) <= s.consumed
    && s.deletions + HowMany(s.tasks, Deleting) <= s.finals
    && (s.marker ==> s.markings > 0)
  }

  lemma MarkedAt(s: State, pc: Pc, nocache: bool, globalCacheMode: bool, act: CandidateStep)
    requires CandidateEnabled(pc, act)
    ensures TookJob(CandidatePc(s, pc, nocache, globalCacheMode, act)) <==> TookJob(pc) || act.SetMarker?
    ensures act.SetMarker? ==> pc == Marking && !TookJob(pc) && !Queueing(pc)
    ensures act.Enqueue? ==> Queueing(pc)
    ensures Queueing(CandidatePc(s, pc, nocache, globalCacheMode, act)) <==>
            (Queueing(pc) && !act.Enqueue? && !act.EnqueueFails?) || act.SetMarker?
  {
  }

  lemma MarkerOrderBySub(cfg: Config, s: State, c: nat, act: CandidateStep)
    requires Enabled(cfg, s, Sub(c, act)) && MarkerOrder(s)
    ensures MarkerOrder(Next(cfg, s, Sub(c, act)))
  {
    var pc := CandidatePc(s, s.pcs[c], cfg.cands[c].nocache, cfg.globalCacheMode, act);
    SubStep(cfg, s, c, act);
    CandidateCounts(cfg, s, c, act);
    MarkedAt(s, s.pcs[c], cfg.cands[c].nocache, cfg.globalCacheMode, act);
    HowManyUpdated(s.pcs, c, pc, TookJob);
    HowManyUpdated(s.pcs, c, pc, Queueing);
    hide Next, CandidatePc, CandidateEnabled, HowMany, TookJob, Queueing;
  }

  lemma DeletingAt(cfg: Config, s: State, task: Task, work: TaskStep)
    requires TaskEnabled(s.hash, task, work)
    ensures var after, keys := TaskAfter(cfg, s.hash, task, work), TaskKeys(s, task, work);
            keys.deletions - s.deletions + (if Deleting(after) then 1 else 0) <=
            keys.finals - s.finals + (if Deleting(task) then 1 else 0)
    ensures TaskKeys(s, task, work).deletions >= s.deletions && TaskKeys(s, task, work).finals >= s.finals
    ensures TaskKeys(s, task, work).finals - s.finals + (if Live(TaskAfter(cfg, s.hash, task, work)) then 1 else 0)
            + (if work.StartRetry? then 1 else 0) <= if Live(task) then 1 else 0
  {
    hide Retry.Decide, LinkOf;
  }

  lemma MarkerOrderByTask(cfg: Config, s: State, i: nat, work: TaskStep)
    requires Enabled(cfg, s, Down(i, work)) && MarkerOrder(s)
    ensures MarkerOrder(Next(cfg, s, Down(i, work)))
  {
    var after := TaskAfter(cfg, s.hash, s.tasks[i], work);
    OtherStep(cfg, s, Down(i, work));
    TaskCounts(cfg, s, i, work);
    DeletingAt(cfg, s, s.tasks[i], work);
    HowManyUpdated(s.tasks, i, after, Deleting);
    HowManyAppended(s.tasks[i := after], Fetching, Deleting);
    HowManyUpdated(s.tasks, i, after, Live);
    HowManyAppended(s.tasks[i := after], Fetching, Live);
    assert !Deleting(Fetching) && Live(Fetching);
    hide Next, TaskAfter, TaskEnabled, TaskKeys, HowMany, Deleting, Live;
  }

  lemma MarkerOrderKept(cfg: Config, s: State, step: Step)
    requires Enabled(cfg, s, step) && MarkerOrder(s)
    ensures MarkerOrder(Next(cfg, s, step))
  {
    hide Next, Enabled, MarkerOrder;
    if step.Sub? {
      MarkerOrderBySub(cfg, s, step.c, step.act);
    } else if step.Down? {
      MarkerOrderByTask(cfg, s, step.t, step.work);
    } else {
      MarkerOrderByOther(cfg, s, step);
    }
  }

  lemma MarkerOrderByOther(cfg: Config, s: State, step: Step)
    requires Enabled(cfg, s, step) && MarkerOrder(s) && !step.Sub? && !step.Down?
    ensures MarkerOrder(Next(cfg, s, step))
  {
    OtherStep(cfg, s, step);
    OtherCounts(cfg, s, step);
    HowManyAppended(s.tasks, Fetching, Deleting);
    HowManyAppended(s.tasks, Fetching, Live);
    assert !Deleting(Fetching) && Live(Fetching);
    if !step.Consume? { assert s.tasks + [] == s.tasks; }
    hide Next, Enabled, HowMany, Deleting, Live, TookJob, Queueing;
  }

  lemma {:induction false} MarkerOrderRun(cfg: Config, s: State, run: seq<Step>)
    requires Valid(cfg, s, run) && MarkerOrder(s)
    ensures MarkerOrder(After(cfg, s, run))
    decreases |run|
  {
    if run != [] {
      hide Next, Enabled, MarkerOrder;
      MarkerOrderKept(cfg, s, run[0]);
      MarkerOrderRun(cfg, Next(cfg, s, run[0]), run[1..]);
    }
  }

  lemma InitiallyInOrder(cfg: Config)
    ensures MarkerOrder(Initial(cfg))
  {
    HowManyNone(Initial(cfg).pcs, TookJob);
    HowManyNone(Initial(cfg).pcs, Queueing);
  }

  /** In every run, whatever expires and whoever wins: no job is queued before the marker was set for it; no
      job, however often retried, comes to more than one successful completeHref or recorded final error; and
      each of those accounts for at most one deletion of the marker. */
  lemma MarkerCauses(cfg: Config, run: seq<Step>)
    requires Valid(cfg, Initial(cfg), run)
    ensures var e := After(cfg, Initial(cfg), run);
            && e.queued <= e.markings == HowMany(e.pcs, TookJob) && (e.marker ==> e.markings > 0)
            && e.deletions <= e.finals <= e.consumed <= e.queued
  {
    InitiallyInOrder(cfg);
    MarkerOrderRun(cfg, Initial(cfg), run);
  }

  // ---------------------------------------------------------------- never present after a deletion

  /** The marker is not there once it was deleted. */
  predicate StaysDeleted(s: State) { s.marker ==> s.deletions == 0 }

  /** The marker is set although it was deleted before. */
  predicate Revives(s: State, step: Step) { step.Sub? && step.act.SetMarker? && s.deletions > 0 }

  lemma MarkerAfter(cfg: Config, s: State, step: Step)
    requires Enabled(cfg, s, step)
    ensures var t := Next(cfg, s, step);
            && t.deletions >= s.deletions
            && (t.marker ==> s.marker || (step.Sub? && step.act.SetMarker?))
            && (step.Sub? ==> t.deletions == s.deletions && t.marker == (s.marker || step.act.SetMarker?))
            && (t.deletions > s.deletions ==> !t.marker)
  {
    if step.Sub? {
      CandidateCounts(cfg, s, step.c, step.act);
    } else if step.Down? {
      TaskCounts(cfg, s, step.t, step.work);
    } else {
      OtherCounts(cfg, s, step);
    }
    hide Next, TaskAfter, TaskEnabled;
  }

  lemma StaysDeletedStep(cfg: Config, s: State, step: Step)
    requires Enabled(cfg, s, step) && StaysDeleted(s)
    ensures StaysDeleted(Next(cfg, s, step)) <==> !Revives(s, step)
  {
    MarkerAfter(cfg, s, step);
    hide Next, Enabled;
  }

  ghost predicate AlwaysStaysDeleted(cfg: Config, s: State, run: seq<Step>)
    requires Valid(cfg, s, run)
    decreases |run|
  {
    StaysDeleted(s) && (run == [] || AlwaysStaysDeleted(cfg, Next(cfg, s, run[0]), run[1..]))
  }

  ghost predicate NeverRevived(cfg: Config, s: State, run: seq<Step>)
    requires Valid(cfg, s, run)
    decreases |run|
  {
    run == [] || (!Revives(s, run[0]) && NeverRevived(cfg, Next(cfg, s, run[0]), run[1..]))
  }

  /** In every state of a run the marker is absent once it was deleted, and so expires only before that,
      exactly if no candidate sets it after a deletion. */
  lemma {:induction false} StaysDeletedIff(cfg: Config, s: State, run: seq<Step>)
    requires Valid(cfg, s, run) && StaysDeleted(s)
    ensures AlwaysStaysDeleted(cfg, s, run) <==> NeverRevived(cfg, s, run)
    decreases |run|
  {
    hide Next, Enabled, StaysDeleted, Revives;
    if run != [] {
      StaysDeletedStep(cfg, s, run[0]);
      if !Revives(s, run[0]) {
        StaysDeletedIff(cfg, Next(cfg, s, run[0]), run[1..]);
      } else {
        assert !AlwaysStaysDeleted(cfg, Next(cfg, s, run[0]), run[1..]);
      }
    }
  }

  // ---------------------------------------------------------------- one marker, one job

  /** The job was queued at most once, after the marker was set, once; and the marker, deleted only after a
      final outcome, is absent from then on, so it expires only before. */
  predicate Disciplined(s: State)
  {
    && s.markings <= 1 && s.queued <= s.markings
    && (s.deletions > 0 ==> s.finals > 0 && !s.marker)
    && (s.marker ==> s.markings == 1 && s.deletions == 0)
  }

  predicate MarksAgain(s: State, step: Step) { step.Sub? && step.act.SetMarker? && s.markings > 0 }

  lemma DisciplinedStep(cfg: Config, s: State, step: Step)
    requires Enabled(cfg, s, step) && MarkerOrder(s) && Disciplined(s)
    ensures Disciplined(Next(cfg, s, step)) <==> !MarksAgain(s, step)
  {
    MarkerOrderKept(cfg, s, step);
    MarkerAfter(cfg, s, step);
    if step.Sub? { CandidateCounts(cfg, s, step.c, step.act); }
    else if step.Down? { TaskCounts(cfg, s, step.t, step.work); }
    else { OtherCounts(cfg, s, step); }
    hide Next, Enabled, HowMany, TaskAfter, TaskEnabled;
  }

  ghost predicate AlwaysDisciplined(cfg: Config, s: State, run: seq<Step>)
    requires Valid(cfg, s, run)
    decreases |run|
  {
    Disciplined(s) && (run == [] || AlwaysDisciplined(cfg, Next(cfg, s, run[0]), run[1..]))
  }

  ghost predicate NeverMarkedAgain(cfg: Config, s: State, run: seq<Step>)
    requires Valid(cfg, s, run)
    decreases |run|
  {
    run == [] || (!MarksAgain(s, run[0]) && NeverMarkedAgain(cfg, Next(cfg, s, run[0]), run[1..]))
  }

  lemma {:induction false} DisciplinedRun(cfg: Config, s: State, run: seq<Step>)
    requires Valid(cfg, s, run) && MarkerOrder(s) && Disciplined(s)
    ensures AlwaysDisciplined(cfg, s, run) <==> NeverMarkedAgain(cfg, s, run)
    ensures NeverMarkedAgain(cfg, s, run) ==> Disciplined(After(cfg, s, run))
    decreases |run|
  {
    hide Next, Enabled, MarkerOrder, Disciplined, MarksAgain;
    if run != [] {
      MarkerOrderKept(cfg, s, run[0]);
      DisciplinedStep(cfg, s, run[0]);
      if !MarksAgain(s, run[0]) {
        DisciplinedRun(cfg, Next(cfg, s, run[0]), run[1..]);
      } else {
        assert !AlwaysDisciplined(cfg, Next(cfg, s, run[0]), run[1..]);
      }
    }
  }

  /** A run is disciplined in every state exactly if no candidate sets the marker after another has. */
  lemma MarkerDiscipline(cfg: Config, run: seq<Step>)
    requires Valid(cfg, Initial(cfg), run)
    ensures AlwaysDisciplined(cfg, Initial(cfg), run) <==> NeverMarkedAgain(cfg, Initial(cfg), run)
  {
    InitiallyInOrder(cfg);
    DisciplinedRun(cfg, Initial(cfg), run);
  }

  /** A second marking takes a second win. */
  lemma {:induction false} AloneMarksOnce(cfg: Config, s: State, run: seq<Step>)
    requires Valid(cfg, s, run) && MarkerOrder(s) && Alone(s.pcs) && NoSecondWin(cfg, s, run)
    ensures NeverMarkedAgain(cfg, s, run)
    decreases |run|
  {
    hide Next, MarkerOrder, Alone, SecondWin, MarksAgain;
    if run != [] {
      MarkerOrderKept(cfg, s, run[0]);
      AloneStep(cfg, s, run[0]);
      if MarksAgain(s, run[0]) { SecondMarker(cfg, s, run[0]); }
      AloneMarksOnce(cfg, Next(cfg, s, run[0]), run[1..]);
    }
  }

  lemma SecondMarker(cfg: Config, s: State, step: Step)
    requires Enabled(cfg, s, step) && MarkerOrder(s) && MarksAgain(s, step)
    ensures !Alone(s.pcs)
  {
    HowManyNone(s.pcs, TookJob);
    var d: nat :| d < |s.pcs| && TookJob(s.pcs[d]);
    assert Holding(s.pcs[d]) && Holding(s.pcs[step.c]) && d != step.c;
  }

  /** So it is disciplined while no candidate wins on top of an earlier winner still at work, */
  lemma MarkerDisciplineAlone(cfg: Config, run: seq<Step>)
    requires Valid(cfg, Initial(cfg), run) && NoSecondWin(cfg, Initial(cfg), run)
    ensures AlwaysDisciplined(cfg, Initial(cfg), run) && Disciplined(After(cfg, Initial(cfg), run))
  {
    InitiallyInOrder(cfg);
    InitiallyAlone(cfg);
    AloneMarksOnce(cfg, Initial(cfg), run);
    DisciplinedRun(cfg, Initial(cfg), run);
  }

  /** and so while claim keys expire only when that is harmless. */
  lemma MarkerDisciplineHarmless(cfg: Config, run: seq<Step>)
    requires Valid(cfg, Initial(cfg), run) && HarmlessRun(cfg, Initial(cfg), run)
    ensures AlwaysDisciplined(cfg, Initial(cfg), run) && Disciplined(After(cfg, Initial(cfg), run))
  {
    InitiallyHeld(cfg);
    HarmlessIsAlone(cfg, Initial(cfg), run);
    MarkerDisciplineAlone(cfg, run);
  }

  // ---------------------------------------------------------------- who can still set it

  /** It publishes only when it wins. */
  predicate PublishesOnly(cfg: Config, c: nat)
    requires c < |cfg.cands|
  {
    cfg.globalCacheMode && cfg.cands[c].nocache
  }

  /** The candidate can still come to set the marker. */
  predicate MayMark(cfg: Config, complete: bool, c: nat, pc: Pc)
    requires c < |cfg.cands|
  {
    pc.Marking? || (!PublishesOnly(cfg, c) && (pc.Racing? || (pc.Start? && !complete)))
  }

  predicate NobodyMarks(cfg: Config, s: State)
    requires |s.pcs| == |cfg.cands|
  {
    forall c: nat :: c < |s.pcs| ==> !MayMark(cfg, s.complete, c, s.pcs[c])
  }

  lemma MayMarkAt(cfg: Config, s: State, c: nat, pc: Pc, act: CandidateStep)
    requires c < |cfg.cands| && CandidateEnabled(pc, act) && !MayMark(cfg, s.complete, c, pc)
    ensures !MayMark(cfg, s.complete, c, CandidatePc(s, pc, cfg.cands[c].nocache, cfg.globalCacheMode, act))
    ensures !act.SetMarker?
  {
  }

  lemma NobodyMarksKept(cfg: Config, s: State, step: Step)
    requires |s.pcs| == |cfg.cands| && Enabled(cfg, s, step) && NobodyMarks(cfg, s) && step != ExpireComplete && !s.marker
    ensures |Next(cfg, s, step).pcs| == |cfg.cands| && NobodyMarks(cfg, Next(cfg, s, step)) && !Next(cfg, s, step).marker
  {
    MarkerAfter(cfg, s, step);
    if step.Sub? {
      var c := step.c;
      SubStep(cfg, s, c, step.act);
      CandidateCounts(cfg, s, c, step.act);
      assert !MayMark(cfg, s.complete, c, s.pcs[c]);
      MayMarkAt(cfg, s, c, s.pcs[c], step.act);
      hide Next, CandidatePc, CandidateEnabled, MayMark;
    } else {
      OtherStep(cfg, s, step);
      CompleteAfter(cfg, s, step);
      hide Next;
    }
  }

  lemma {:induction false} NobodyMarksRun(cfg: Config, s: State, run: seq<Step>)
    requires Valid(cfg, s, run) && ExpireComplete !in run && |s.pcs| == |cfg.cands| && NobodyMarks(cfg, s) && !s.marker
    ensures !After(cfg, s, run).marker
    decreases |run|
  {
    hide Next, Enabled, NobodyMarks;
    if run != [] {
      NobodyMarksKept(cfg, s, run[0]);
      NobodyMarksRun(cfg, Next(cfg, s, run[0]), run[1..]);
    }
  }

  /** One more step, at the front of a run. */
  lemma First(cfg: Config, s: State, step: Step, rest: seq<Step>)
    requires Enabled(cfg, s, step) && Valid(cfg, Next(cfg, s, step), rest)
    ensures Valid(cfg, s, [step] + rest) && After(cfg, s, [step] + rest) == After(cfg, Next(cfg, s, step), rest)
  {
    assert ([step] + rest)[1..] == rest;
    hide Next, Enabled;
  }

  /** Whoever may mark does so in some run, once the claim key is out of the way. */
  lemma MarksFrom(cfg: Config, s: State, c: nat) returns (run: seq<Step>)
    requires |s.pcs| == |cfg.cands| && c < |s.pcs| && MayMark(cfg, s.complete, c, s.pcs[c])
    ensures Valid(cfg, s, run) && ExpireComplete !in run && After(cfg, s, run).marker
    decreases if s.pcs[c].Start? then 3 else if s.pcs[c].Marking? then 0 else if s.claim.Some? then 2 else 1
  {
    var step := if s.pcs[c].Marking? then Sub(c, SetMarker) else if s.pcs[c].Start? then Sub(c, Exists)
                else if s.claim.Some? then ExpireClaim else Sub(c, SetNx);
    var t := Next(cfg, s, step);
    if step.Sub? {
      SubStep(cfg, s, c, step.act);
      CandidateCounts(cfg, s, c, step.act);
    } else {
      OtherStep(cfg, s, step);
      OtherCounts(cfg, s, step);
    }
    hide Next, TaskEnabled;
    if s.pcs[c].Marking? {
      OneStep(cfg, s, step);
      run := [step];
    } else {
      var rest := MarksFrom(cfg, t, c);
      First(cfg, s, step, rest);
      run := [step] + rest;
    }
  }

  /** Where the marker is not there, it stays away in every future, the complete key lasting, exactly when no
      candidate is about to set it and none that could download is racing or will find the content incomplete.
      Once it was deleted this says when it is deleted for good. */
  lemma UnmarkedForGoodIff(cfg: Config, s: State)
    requires |s.pcs| == |cfg.cands| && !s.marker
    ensures NobodyMarks(cfg, s) <==>
            (forall run :: Valid(cfg, s, run) && ExpireComplete !in run ==> !After(cfg, s, run).marker)
  {
    if NobodyMarks(cfg, s) {
      forall run | Valid(cfg, s, run) && ExpireComplete !in run
        ensures !After(cfg, s, run).marker
      {
        NobodyMarksRun(cfg, s, run);
      }
    } else {
      var c: nat :| c < |s.pcs| && MayMark(cfg, s.complete, c, s.pcs[c]);
      var run := MarksFrom(cfg, s, c);
    }
  }
}
