/** Which expiries of the claim key matter: exactly when two winners can be at work at once. */
module ClaimExpiry {
  import opened Text
  import opened JobProtocol
  import opened JobSteps
  import opened ClaimSafety

  /** At most one candidate has won and is still on its download or publish-only path. */
  ghost predicate Alone(pcs: seq<Pc>)
  {
    forall c: nat, d: nat :: c < |pcs| && d < |pcs| && Holding(pcs[c]) && Holding(pcs[d]) ==> c == d
  }

  // ---------------------------------------------------------------- the exact step

  /** A candidate wins while an earlier winner is still at work. */
  ghost predicate SecondWin(s: State, step: Step)
  {
    step.Sub? && step.act.SetNx? && s.claim.None? && exists c: nat :: c < |s.pcs| && Holding(s.pcs[c])
  }

  lemma AloneStep(cfg: Config, s: State, step: Step)
    requires Enabled(cfg, s, step) && Alone(s.pcs)
    ensures Alone(Next(cfg, s, step).pcs) <==> !SecondWin(s, step)
  {
    if step.Sub? {
      var t := Next(cfg, s, step);
      SubStep(cfg, s, step.c, step.act);
      HoldingAt(s, s.pcs[step.c], cfg.cands[step.c].nocache, cfg.globalCacheMode, step.act);
      RacerHoldsNot(s.pcs[step.c], step.act);
      hide Next, CandidatePc, Holding, CandidateEnabled;
      if SecondWin(s, step) {
        var d: nat :| d < |s.pcs| && Holding(s.pcs[d]);
        assert Holding(t.pcs[d]) && Holding(t.pcs[step.c]) && d != step.c;
      }
    } else {
      OtherStep(cfg, s, step);
      hide Next, Holding;
    }
  }

  lemma RacerHoldsNot(pc: Pc, act: CandidateStep)
    requires CandidateEnabled(pc, act)
    ensures act.SetNx? ==> !Holding(pc)
  {
  }

  ghost predicate AlwaysAlone(cfg: Config, s: State, run: seq<Step>)
    requires Valid(cfg, s, run)
    decreases |run|
  {
    Alone(s.pcs) && (run == [] || AlwaysAlone(cfg, Next(cfg, s, run[0]), run[1..]))
  }

  ghost predicate NoSecondWin(cfg: Config, s: State, run: seq<Step>)
    requires Valid(cfg, s, run)
    decreases |run|
  {
    run == [] || (!SecondWin(s, run[0]) && NoSecondWin(cfg, Next(cfg, s, run[0]), run[1..]))
  }

  /** Whatever expires: at most one winner is at work in every state of a run exactly if none wins while
      another is. */
  lemma {:induction false} AloneIff(cfg: Config, s: State, run: seq<Step>)
    requires Valid(cfg, s, run) && Alone(s.pcs)
    ensures AlwaysAlone(cfg, s, run) <==> NoSecondWin(cfg, s, run)
    decreases |run|
  {
    hide Next, Enabled, Alone, SecondWin;
    if run != [] {
      AloneStep(cfg, s, run[0]);
      if !SecondWin(s, run[0]) {
        AloneIff(cfg, Next(cfg, s, run[0]), run[1..]);
      } else {
        assert !AlwaysAlone(cfg, Next(cfg, s, run[0]), run[1..]);
      }
    }
  }

  // ---------------------------------------------------------------- harmless expiries

  /** Nobody can race for the key any more: nobody is about to, and whoever still starts finds the content
      complete. */
  predicate Quiet(s: State)
  {
    (forall c :: 0 <= c < |s.pcs| ==> !s.pcs[c].Racing?) && (s.complete || forall c :: 0 <= c < |s.pcs| ==> !s.pcs[c].Start?)
  }

  /** The key expires only when nobody can race for it, and the complete key is not lost after that. */
  predicate Harmless(s: State, step: Step)
  {
    (step == ExpireClaim ==> Quiet(s)) && (step == ExpireComplete ==> s.expiries == 0)
  }

  ghost predicate HarmlessRun(cfg: Config, s: State, run: seq<Step>)
    requires Valid(cfg, s, run)
    decreases |run|
  {
    run == [] || (Harmless(s, run[0]) && HarmlessRun(cfg, Next(cfg, s, run[0]), run[1..]))
  }

  lemma RacingAt(s: State, pc: Pc, nocache: bool, globalCacheMode: bool, act: CandidateStep)
    requires CandidateEnabled(pc, act)
    ensures CandidatePc(s, pc, nocache, globalCacheMode, act).Racing? <==> act.Exists? && !s.complete
    ensures !CandidatePc(s, pc, nocache, globalCacheMode, act).Start?
    ensures act.Exists? ==> pc.Start?
    ensures act.SetNx? ==> pc.Racing?
  {
  }

  lemma CompleteAfter(cfg: Config, s: State, step: Step)
    requires Enabled(cfg, s, step)
    ensures step != ExpireComplete && s.complete ==> Next(cfg, s, step).complete
  {
    if step.Sub? { CandidateCounts(cfg, s, step.c, step.act); }
    else if step.Down? { TaskCounts(cfg, s, step.t, step.work); }
    else { OtherCounts(cfg, s, step); }
    hide Next, Enabled;
  }

  lemma QuietStays(cfg: Config, s: State, step: Step)
    requires Enabled(cfg, s, step) && Quiet(s) && step != ExpireComplete
    ensures Quiet(Next(cfg, s, step)) && !SecondWin(s, step)
  {
    CompleteAfter(cfg, s, step);
    if step.Sub? {
      SubStep(cfg, s, step.c, step.act);
      RacingAt(s, s.pcs[step.c], cfg.cands[step.c].nocache, cfg.globalCacheMode, step.act);
      hide Next, CandidatePc, CandidateEnabled, Holding;
    } else {
      OtherStep(cfg, s, step);
      hide Next;
    }
  }

  lemma InitiallyAlone(cfg: Config)
    ensures Alone(Initial(cfg).pcs)
  {
  }

  /** Either the key is with its holder, or it expired harmlessly. */
  ghost predicate HeldOrQuiet(s: State)
  {
    Alone(s.pcs) && (HeldBy(s.claim, s.pcs) || (s.expiries > 0 && s.claim.None? && Quiet(s)))
  }

  lemma HeldIsAlone(claim: Option<nat>, pcs: seq<Pc>)
    requires HeldBy(claim, pcs)
    ensures Alone(pcs)
  {
  }

  /** A quiet state without a key stays one. */
  lemma QuietClaim(cfg: Config, s: State, step: Step)
    requires Enabled(cfg, s, step) && s.claim.None? && Quiet(s)
    ensures Next(cfg, s, step).claim.None? && Next(cfg, s, step).expiries == s.expiries
  {
    if step.Sub? {
      SubStep(cfg, s, step.c, step.act);
      RacingAt(s, s.pcs[step.c], cfg.cands[step.c].nocache, cfg.globalCacheMode, step.act);
      hide Next, CandidatePc, CandidateEnabled;
    } else {
      OtherStep(cfg, s, step);
      hide Next, Quiet;
    }
  }

  lemma HeldOrQuietKept(cfg: Config, s: State, step: Step)
    requires Enabled(cfg, s, step) && HeldOrQuiet(s) && Harmless(s, step)
    ensures HeldOrQuiet(Next(cfg, s, step)) && !SecondWin(s, step)
  {
    hide Alone, HeldBy, Quiet, SecondWin;
    AloneStep(cfg, s, step);
    if step == ExpireClaim {
      QuietStays(cfg, s, step);
      OtherStep(cfg, s, step);
    } else if HeldBy(s.claim, s.pcs) {
      HolderKept(cfg, s, step);
      HeldIsAlone(Next(cfg, s, step).claim, Next(cfg, s, step).pcs);
    } else {
      QuietStays(cfg, s, step);
      QuietClaim(cfg, s, step);
    }
    hide Next, Enabled;
  }

  lemma {:induction false} HarmlessIsAlone(cfg: Config, s: State, run: seq<Step>)
    requires Valid(cfg, s, run) && HarmlessRun(cfg, s, run) && HeldBy(s.claim, s.pcs)
    ensures Alone(s.pcs) && NoSecondWin(cfg, s, run) && HeldOrQuiet(After(cfg, s, run))
  {
    HeldIsAlone(s.claim, s.pcs);
    HeldOrQuietRun(cfg, s, run);
  }

  lemma {:induction false} HeldOrQuietRun(cfg: Config, s: State, run: seq<Step>)
    requires Valid(cfg, s, run) && HarmlessRun(cfg, s, run) && HeldOrQuiet(s)
    ensures NoSecondWin(cfg, s, run) && HeldOrQuiet(After(cfg, s, run))
    decreases |run|
  {
    hide Next, Enabled, HeldOrQuiet, SecondWin, Harmless;
    if run != [] {
      HeldOrQuietKept(cfg, s, run[0]);
      HeldOrQuietRun(cfg, Next(cfg, s, run[0]), run[1..]);
    }
  }

  /** While keys expire only harmlessly, at most one candidate is on its download or publish-only path, and a
      key that is there is its own; until the first expiry it is always there. */
  lemma OneActsAtATime(cfg: Config, run: seq<Step>)
    requires Valid(cfg, Initial(cfg), run) && HarmlessRun(cfg, Initial(cfg), run)
    ensures var e := After(cfg, Initial(cfg), run);
            && Alone(e.pcs)
            && (forall c: nat :: e.claim == Some(c) ==> c < |e.pcs| && Holding(e.pcs[c]))
            && (e.expiries == 0 ==> forall c: nat :: e.claim == Some(c) <==> c < |e.pcs| && Holding(e.pcs[c]))
  {
    InitiallyHeld(cfg);
    HarmlessIsAlone(cfg, Initial(cfg), run);
    hide After, Valid, Initial, Holding, HarmlessRun, NoSecondWin;
  }

  // ---------------------------------------------------------------- every other expiry can do harm

  lemma {:induction false} QuietRun(cfg: Config, s: State, run: seq<Step>)
    requires Valid(cfg, s, run) && ExpireComplete !in run && Alone(s.pcs) && s.claim.None? && Quiet(s)
    ensures Alone(After(cfg, s, run).pcs)
    decreases |run|
  {
    hide Next, Enabled, Alone, Quiet, SecondWin;
    if run != [] {
      QuietStays(cfg, s, run[0]);
      QuietClaim(cfg, s, run[0]);
      AloneStep(cfg, s, run[0]);
      QuietRun(cfg, Next(cfg, s, run[0]), run[1..]);
    }
  }

  lemma RacerWins(cfg: Config, s: State, c: nat, h: nat)
    requires |s.pcs| == |cfg.cands| && c < |s.pcs| && h < |s.pcs| && s.pcs[c].Racing? && Holding(s.pcs[h]) && s.claim.None?
    ensures Enabled(cfg, s, Sub(c, SetNx)) && !Alone(Next(cfg, s, Sub(c, SetNx)).pcs)
  {
    var t := Next(cfg, s, Sub(c, SetNx));
    SubStep(cfg, s, c, SetNx);
    HoldingAt(s, s.pcs[c], cfg.cands[c].nocache, cfg.globalCacheMode, SetNx);
    assert h != c && t.pcs[h] == s.pcs[h];
    hide Next, CandidatePc, Holding;
    assert Holding(t.pcs[h]) && Holding(t.pcs[c]);
  }

  /** Once the holder's key is gone and somebody can still race for it, two winners may be at work. */
  lemma RaceAfterExpiry(cfg: Config, s: State, h: nat) returns (run: seq<Step>)
    requires |s.pcs| == |cfg.cands| && h < |s.pcs| && Holding(s.pcs[h]) && s.claim.None? && !Quiet(s)
    ensures Valid(cfg, s, run) && ExpireComplete !in run && !Alone(After(cfg, s, run).pcs)
  {
    if c :| 0 <= c < |s.pcs| && s.pcs[c].Racing? {
      RacerWins(cfg, s, c, h);
      run := [Sub(c, SetNx)];
      OneStep(cfg, s, run[0]);
    } else {
      var c: nat :| c < |s.pcs| && s.pcs[c].Start? && !s.complete;
      var t := Next(cfg, s, Sub(c, Exists));
      SubStep(cfg, s, c, Exists);
      RacingAt(s, s.pcs[c], cfg.cands[c].nocache, cfg.globalCacheMode, Exists);
      RacerWins(cfg, t, c, h);
      OneStep(cfg, s, Sub(c, Exists));
      run := [Sub(c, Exists)];
      Extend(cfg, s, run, Sub(c, SetNx));
      run := run + [Sub(c, SetNx)];
    }
    hide Next, CandidatePc;
  }

  /** The expiry of a key whose owner is at work is harmless in every future, the complete key lasting,
      exactly when nobody can race for the key. */
  lemma ExpiryHarmlessIff(cfg: Config, s: State)
    requires |s.pcs| == |cfg.cands| && s.claim.Some? && HeldBy(s.claim, s.pcs)
    ensures Quiet(s) <==>
            (forall run :: Valid(cfg, Next(cfg, s, ExpireClaim), run) && ExpireComplete !in run ==>
               Alone(After(cfg, Next(cfg, s, ExpireClaim), run).pcs))
  {
    var t := Next(cfg, s, ExpireClaim);
    OtherStep(cfg, s, ExpireClaim);
    CompleteAfter(cfg, s, ExpireClaim);
    HeldIsAlone(s.claim, s.pcs);
    assert t.complete == s.complete;
    hide Next, Enabled, Alone;
    if Quiet(s) {
      forall run | Valid(cfg, t, run) && ExpireComplete !in run
        ensures Alone(After(cfg, t, run).pcs)
      {
        QuietRun(cfg, t, run);
      }
    } else {
      assert Holding(s.pcs[s.claim.value]);
      var run := RaceAfterExpiry(cfg, t, s.claim.value);
    }
  }
}
