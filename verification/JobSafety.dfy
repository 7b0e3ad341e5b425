/** Exactly one download per downloader_id over whole runs: exactly when no candidate wins while an earlier
    winner is still at work. */
module JobSafety {
  import opened Text
  import opened DownloaderHash
  import opened JobProtocol
  import opened ClaimSafety
  import opened ClaimExpiry
  import opened JobSteps
  import opened DeadlineMarker

  // ---------------------------------------------------------------- a job exists only after a win

  /** Traces of a win: somebody lost the race, or found the content complete, or a job was queued. */
  ghost predicate TracesOfWin(s: State)
  {
    && s.consumed <= s.queued
    && (s.complete ==> s.tasks != [])
    && (s.tasks != [] ==> s.consumed > 0)
    && (s.queued > 0 ==> s.wins > 0)
    && (forall c :: 0 <= c < |s.pcs| && (s.pcs[c].Waiting? || s.pcs[c].Ended?) ==> s.wins > 0)
  }

  /** The wins only grow, and a candidate that stops waiting to win leaves a trace. */
  lemma CandidateTraces(s: State, pc: Pc, nocache: bool, globalCacheMode: bool, act: CandidateStep, wins: nat)
    requires CandidateEnabled(pc, act)
    requires wins == s.wins + (if act.SetNx? && s.claim.None? then 1 else 0)
    requires (pc.Waiting? || Won(pc) || s.complete || s.claim.Some? || s.queued > 0) ==> s.wins > 0
    ensures CandidatePc(s, pc, nocache, globalCacheMode, act).Waiting? || CandidatePc(s, pc, nocache, globalCacheMode, act).Ended? ==> wins > 0
    ensures s.queued + (if act.Enqueue? then 1 else 0) > 0 ==> wins > 0
  {
  }

  lemma TracesKept(cfg: Config, s: State, step: Step)
    requires Enabled(cfg, s, step) && TracesOfWin(s) && Periods(s)
    ensures TracesOfWin(Next(cfg, s, step))
  {
    if step.Sub? {
      var c := step.c;
      CandidateCounts(cfg, s, c, step.act);
      SubStep(cfg, s, c, step.act);
      assert Won(s.pcs[c]) ==> c in s.period;
      CandidateTraces(s, s.pcs[c], cfg.cands[c].nocache, cfg.globalCacheMode, step.act, Next(cfg, s, step).wins);
      hide Next, Enabled, CandidatePc, CandidateEnabled, Won;
    } else if step.Down? {
      OtherStep(cfg, s, step);
      TaskCounts(cfg, s, step.t, step.work);
      hide Next, TaskAfter, TaskEnabled;
    } else {
      OtherStep(cfg, s, step);
      OtherCounts(cfg, s, step);
      hide Next;
    }
  }

  // ---------------------------------------------------------------- exactly one download

  ghost predicate NoNocache(cfg: Config) { forall c :: 0 <= c < |cfg.cands| ==> !cfg.cands[c].nocache }

  /** Where a candidate can be when nobody asks for no caching. */
  predicate Plain(pc: Pc)
  {
    !pc.Initing? && !pc.Releasing? && (pc.Ended? ==> pc.action == Wait || pc.action == AlreadyComplete)
  }

  lemma PlainKept(s: State, pc: Pc, globalCacheMode: bool, act: CandidateStep)
    requires CandidateEnabled(pc, act) && Plain(pc)
    ensures Plain(CandidatePc(s, pc, false, globalCacheMode, act)) && !act.ReleaseClaim?
  {
  }

  ghost predicate AllPlain(s: State) { forall c :: 0 <= c < |s.pcs| ==> Plain(s.pcs[c]) }

  lemma AllPlainKept(cfg: Config, s: State, step: Step)
    requires Enabled(cfg, s, step) && AllPlain(s) && NoNocache(cfg)
    ensures AllPlain(Next(cfg, s, step))
  {
    if step.Sub? {
      var c := step.c;
      SubStep(cfg, s, c, step.act);
      PlainKept(s, s.pcs[c], cfg.globalCacheMode, step.act);
      hide Next, CandidatePc, CandidateEnabled, Plain;
    } else {
      OtherStep(cfg, s, step);
      hide Next, Plain;
    }
  }

  /** The candidate's notification has been dealt with. */
  predicate Done(pc: Pc) { pc.Ended? || pc.Failed? || pc == Writing(false, false) }

  /** The winner: it started the job, unless it failed on the way. */
  predicate Downloader(pc: Pc) { pc == Writing(false, false) || pc == Failed(true) }

  predicate Standby(pc: Pc) { pc == Ended(Wait) || pc == Ended(AlreadyComplete) || pc == Failed(false) }

  /** A win leaves a candidate at work: without publish-only nobody releases. */
  ghost predicate WinHolds(s: State)
  {
    s.wins > 0 ==> exists c: nat :: c < |s.pcs| && Holding(s.pcs[c])
  }

  lemma WinHoldsKept(cfg: Config, s: State, step: Step)
    requires Enabled(cfg, s, step) && AllPlain(s) && NoNocache(cfg) && WinHolds(s)
    ensures WinHolds(Next(cfg, s, step))
  {
    if step.Sub? {
      var c := step.c;
      var t := Next(cfg, s, step);
      SubStep(cfg, s, c, step.act);
      HoldingAt(s, s.pcs[c], cfg.cands[c].nocache, cfg.globalCacheMode, step.act);
      PlainKept(s, s.pcs[c], cfg.globalCacheMode, step.act);
      hide Next, CandidatePc, CandidateEnabled, Holding, Plain;
      if s.wins > 0 {
        var d: nat :| d < |s.pcs| && Holding(s.pcs[d]);
        assert Holding(t.pcs[d]);
      } else if t.wins > 0 {
        assert Holding(t.pcs[c]);
      }
    } else {
      OtherStep(cfg, s, step);
      hide Next, Holding;
    }
  }

  ghost predicate Sound(s: State) { Periods(s) && TracesOfWin(s) && AllPlain(s) && WinHolds(s) }

  lemma {:induction false} SoundRun(cfg: Config, s: State, run: seq<Step>)
    requires Valid(cfg, s, run) && NoNocache(cfg) && Sound(s)
    ensures Sound(After(cfg, s, run))
    decreases |run|
  {
    hide Next, Enabled, Periods, TracesOfWin, AllPlain, WinHolds;
    if run != [] {
      PeriodsKept(cfg, s, run[0]);
      TracesKept(cfg, s, run[0]);
      AllPlainKept(cfg, s, run[0]);
      WinHoldsKept(cfg, s, run[0]);
      SoundRun(cfg, Next(cfg, s, run[0]), run[1..]);
    }
  }

  lemma InitiallySound(cfg: Config)
    ensures Sound(Initial(cfg))
  {
  }

  /** Some candidate took the job, and every other one waits, found the content complete or failed before it
      could win. */
  ghost predicate OneDownloads(pcs: seq<Pc>)
  {
    exists winner: nat :: winner < |pcs| && Downloader(pcs[winner]) && OthersStandBy(pcs, winner)
  }

  ghost predicate OthersStandBy(pcs: seq<Pc>, winner: nat)
  {
    forall c: nat :: c < |pcs| && c != winner ==> Standby(pcs[c])
  }

  lemma {:induction false} Survivors(e: State, survivor: nat)
    requires Sound(e) && Alone(e.pcs)
    requires (forall c :: 0 <= c < |e.pcs| ==> Done(e.pcs[c])) && survivor < |e.pcs| && e.pcs[survivor] != Failed(false)
    ensures OneDownloads(e.pcs)
  {
    assert Won(e.pcs[survivor]) ==> survivor in e.period;
    assert e.wins > 0;
    var winner: nat :| winner < |e.pcs| && Holding(e.pcs[winner]);
    assert Plain(e.pcs[winner]) && Done(e.pcs[winner]);
    forall c: nat | c < |e.pcs| && c != winner
      ensures Standby(e.pcs[c])
    {
      assert !Holding(e.pcs[c]);
      assert Plain(e.pcs[c]) && Done(e.pcs[c]);
    }
    assert OthersStandBy(e.pcs, winner);
  }

  lemma OneIsAlone(pcs: seq<Pc>)
    requires OneDownloads(pcs)
    ensures Alone(pcs)
  {
    assert forall pc: Pc :: Standby(pc) ==> !Holding(pc);
  }

  /** Without publish-only nobody ever lets go, so two winners at work stay two. */
  lemma StaysCrowded(cfg: Config, s: State, step: Step)
    requires Enabled(cfg, s, step) && NoNocache(cfg) && AllPlain(s) && !Alone(s.pcs)
    ensures !Alone(Next(cfg, s, step).pcs)
  {
    var c: nat, d: nat :| c < |s.pcs| && d < |s.pcs| && Holding(s.pcs[c]) && Holding(s.pcs[d]) && c != d;
    var t := Next(cfg, s, step);
    if step.Sub? {
      var k := step.c;
      SubStep(cfg, s, k, step.act);
      HoldingAt(s, s.pcs[k], cfg.cands[k].nocache, cfg.globalCacheMode, step.act);
      PlainKept(s, s.pcs[k], cfg.globalCacheMode, step.act);
    } else {
      OtherStep(cfg, s, step);
    }
    hide Next, Holding, Plain, CandidatePc, CandidateEnabled;
    assert Holding(t.pcs[c]) && Holding(t.pcs[d]);
  }

  lemma {:induction false} CrowdedRun(cfg: Config, s: State, run: seq<Step>)
    requires Valid(cfg, s, run) && NoNocache(cfg) && AllPlain(s) && !Alone(s.pcs)
    ensures !Alone(After(cfg, s, run).pcs)
    decreases |run|
  {
    hide Next, Enabled, AllPlain, Alone;
    if run != [] {
      AllPlainKept(cfg, s, run[0]);
      StaysCrowded(cfg, s, run[0]);
      CrowdedRun(cfg, Next(cfg, s, run[0]), run[1..]);
    }
  }

  /** So a run ends with one winner at work exactly when no win ever came on top of another. */
  lemma {:induction false} AloneAtTheEnd(cfg: Config, s: State, run: seq<Step>)
    requires Valid(cfg, s, run) && NoNocache(cfg) && AllPlain(s) && Alone(s.pcs)
    ensures Alone(After(cfg, s, run).pcs) <==> NoSecondWin(cfg, s, run)
    decreases |run|
  {
    hide Next, Enabled, AllPlain, Alone, SecondWin;
    if run != [] {
      AllPlainKept(cfg, s, run[0]);
      AloneStep(cfg, s, run[0]);
      if SecondWin(s, run[0]) {
        CrowdedRun(cfg, Next(cfg, s, run[0]), run[1..]);
      } else {
        AloneAtTheEnd(cfg, Next(cfg, s, run[0]), run[1..]);
      }
    }
  }

  ghost predicate AllDone(pcs: seq<Pc>) { forall c :: 0 <= c < |pcs| ==> Done(pcs[c]) }

  /** Once every candidate is done, exactly one of them took the job and all the others wait or found the
      content complete, however their EXISTS, SETNX and writes interleaved with each other and with the
      downloaders, exactly if no candidate won while an earlier winner was at work. */
  lemma ExactlyOneDownloads(cfg: Config, run: seq<Step>, survivor: nat)
    requires Valid(cfg, Initial(cfg), run) && NoNocache(cfg)
    requires var e := After(cfg, Initial(cfg), run); AllDone(e.pcs) && survivor < |e.pcs| && e.pcs[survivor] != Failed(false)
    ensures OneDownloads(After(cfg, Initial(cfg), run).pcs) <==> NoSecondWin(cfg, Initial(cfg), run)
  {
    InitiallySound(cfg);
    SoundRun(cfg, Initial(cfg), run);
    InitiallyAlone(cfg);
    AloneAtTheEnd(cfg, Initial(cfg), run);
    var e := After(cfg, Initial(cfg), run);
    hide After, Valid, Initial, Periods, TracesOfWin, WinHolds, AllPlain, Done, Alone, OneDownloads, NoSecondWin, NoNocache;
    if Alone(e.pcs) { Survivors(e, survivor); } else if OneDownloads(e.pcs) { OneIsAlone(e.pcs); }
  }

  /** In particular while claim keys expire only when nobody can still race for them. */
  lemma ExactlyOneWhenHarmless(cfg: Config, run: seq<Step>, survivor: nat)
    requires Valid(cfg, Initial(cfg), run) && HarmlessRun(cfg, Initial(cfg), run) && NoNocache(cfg)
    requires var e := After(cfg, Initial(cfg), run); AllDone(e.pcs) && survivor < |e.pcs| && e.pcs[survivor] != Failed(false)
    ensures OneDownloads(After(cfg, Initial(cfg), run).pcs)
  {
    InitiallyHeld(cfg);
    HarmlessIsAlone(cfg, Initial(cfg), run);
    ExactlyOneDownloads(cfg, run, survivor);
  }

  // ---------------------------------------------------------------- exactly one job

  /** No candidate stops and no write of a job fails. */
  predicate Smooth(step: Step)
  {
    step.Sub? ==> !step.act.Crash? && !step.act.JobFails? && !step.act.EnqueueFails?
  }

  /** Nobody failed, and every job begun is queued or still to be. */
  ghost predicate AllQueued(s: State)
  {
    && (forall c :: 0 <= c < |s.pcs| ==> !s.pcs[c].Failed?)
    && s.queued + HowMany(s.pcs, Queueing) == HowMany(s.pcs, TookJob)
  }

  lemma AllQueuedKept(cfg: Config, s: State, step: Step)
    requires Enabled(cfg, s, step) && AllQueued(s) && Smooth(step)
    ensures AllQueued(Next(cfg, s, step))
  {
    if step.Sub? {
      var c := step.c;
      var pc := CandidatePc(s, s.pcs[c], cfg.cands[c].nocache, cfg.globalCacheMode, step.act);
      SubStep(cfg, s, c, step.act);
      CandidateCounts(cfg, s, c, step.act);
      MarkedAt(s, s.pcs[c], cfg.cands[c].nocache, cfg.globalCacheMode, step.act);
      assert !pc.Failed?;
      HowManyUpdated(s.pcs, c, pc, Queueing);
      HowManyUpdated(s.pcs, c, pc, TookJob);
      hide Next, CandidatePc, HowMany, CandidateEnabled, Queueing, TookJob;
    } else if step.Down? {
      OtherStep(cfg, s, step);
      TaskCounts(cfg, s, step.t, step.work);
      hide Next, TaskAfter, TaskEnabled, TaskKeys, HowMany;
    } else {
      OtherStep(cfg, s, step);
      OtherCounts(cfg, s, step);
      hide Next, HowMany;
    }
  }

  lemma {:induction false} AllQueuedRun(cfg: Config, s: State, run: seq<Step>)
    requires Valid(cfg, s, run) && AllQueued(s) && forall i :: 0 <= i < |run| ==> Smooth(run[i])
    ensures AllQueued(After(cfg, s, run))
    decreases |run|
  {
    hide Next, Enabled, AllQueued, Smooth;
    if run != [] {
      AllQueuedKept(cfg, s, run[0]);
      AllQueuedRun(cfg, Next(cfg, s, run[0]), run[1..]);
    }
  }

  /** When everybody got through, at least one job was queued, and exactly one if and only if no candidate
      won while an earlier winner was at work. */
  lemma ExactlyOneJob(cfg: Config, run: seq<Step>)
    requires Valid(cfg, Initial(cfg), run) && NoNocache(cfg) && cfg.cands != []
    requires (forall i :: 0 <= i < |run| ==> Smooth(run[i])) && AllDone(After(cfg, Initial(cfg), run).pcs)
    ensures After(cfg, Initial(cfg), run).queued == 1 <==> NoSecondWin(cfg, Initial(cfg), run)
    ensures After(cfg, Initial(cfg), run).queued >= 1
  {
    var e := After(cfg, Initial(cfg), run);
    HowManyNone(Initial(cfg).pcs, Queueing);
    HowManyNone(Initial(cfg).pcs, TookJob);
    AllQueuedRun(cfg, Initial(cfg), run);
    InitiallySound(cfg);
    SoundRun(cfg, Initial(cfg), run);
    PcsLength(cfg, Initial(cfg), run);
    ExactlyOneDownloads(cfg, run, 0);
    HowManyNone(e.pcs, Queueing);
    hide After, Valid, Initial, Periods, TracesOfWin, NoSecondWin, HowMany, NoNocache;
    JobsOfWinners(e);
  }

  lemma {:induction false} PcsLength(cfg: Config, s: State, run: seq<Step>)
    requires Valid(cfg, s, run)
    ensures |After(cfg, s, run).pcs| == |s.pcs|
    decreases |run|
  {
    hide Next, CandidatePc, CandidateEnabled, TaskEnabled;
    if run != [] {
      PcsAfter(cfg, s, run[0]);
      PcsLength(cfg, Next(cfg, s, run[0]), run[1..]);
    }
  }

  /** With everybody done and nobody failed, those who took the job are the winners. */
  lemma JobsOfWinners(e: State)
    requires AllDone(e.pcs) && AllPlain(e) && WinHolds(e) && e.wins > 0 && forall c :: 0 <= c < |e.pcs| ==> !e.pcs[c].Failed?
    ensures HowMany(e.pcs, TookJob) >= 1
    ensures HowMany(e.pcs, TookJob) == 1 <==> OneDownloads(e.pcs)
  {
    assert forall c: nat :: c < |e.pcs| ==> (Plain(e.pcs[c]) && Done(e.pcs[c]) && !e.pcs[c].Failed?);
    var winner: nat :| winner < |e.pcs| && Holding(e.pcs[winner]);
    assert forall c: nat :: c < |e.pcs| ==> (TookJob(e.pcs[c]) <==> Downloader(e.pcs[c])) && (!TookJob(e.pcs[c]) <==> Standby(e.pcs[c]));
    HowManyOne(e.pcs, winner, TookJob);
    hide HowMany, Plain, Done, Holding, Downloader, Standby, TookJob;
    if HowMany(e.pcs, TookJob) == 1 { assert OthersStandBy(e.pcs, winner); }
    if OneDownloads(e.pcs) {
      var d: nat :| d < |e.pcs| && Downloader(e.pcs[d]) && OthersStandBy(e.pcs, d);
      HowManyOne(e.pcs, d, TookJob);
    }
  }
}
