/** What every run of the job protocol keeps about the claim: who holds the key, and when. */
module ClaimSafety {
  import opened Text
  import opened DownloaderHash
  import opened JobProtocol
  import opened JobSteps

  /** The candidate's SETNX created the claim key. */
  predicate Won(pc: Pc)
  {
    pc.Marking? || pc.Writing? || pc.Initing? || pc.Releasing? || pc == Ended(PublishOnly) || pc == Failed(true)
  }

  /** It won and has not deleted the key. */
  predicate Holding(pc: Pc) { Won(pc) && !pc.Ended? }

  /** The winner's claim period: no removal of the key has ended it yet. */
  predicate Current(s: State, c: nat) { c in s.period && s.period[c] > s.removals }

  /** Only winners act, a winner of content not to be cached downloads only outside global-cache mode, and a
      loser waits unless there is nothing to wait for. */
  lemma DecisionMeaning(alreadyComplete: bool, claimed: bool, nocache: bool, globalCacheMode: bool)
    ensures var a := DecideClaimAction(alreadyComplete, claimed, nocache, globalCacheMode);
            && (a.Download? || a.PublishOnly? <==> claimed && !alreadyComplete)
            && (a.Wait? || a.Drop? <==> !claimed && !alreadyComplete)
            && (a.PublishOnly? ==> nocache && globalCacheMode) && (a.Download? ==> !(nocache && globalCacheMode))
            && (a.Drop? ==> nocache) && (a.Wait? ==> !nocache)
  {
  }

  // ---------------------------------------------------------------- claim periods, with any expiries

  ghost predicate Numbered(pcs: seq<Pc>, claim: Option<nat>, wins: nat, removals: nat, period: map<nat, nat>)
  {
    && wins == removals + (if claim.Some? then 1 else 0)
    && (forall c: nat :: c in period <==> c < |pcs| && Won(pcs[c]))
    && (forall c :: c in period ==> 1 <= period[c] <= wins)
    && (forall c, d :: c in period && d in period && period[c] == period[d] ==> c == d)
    && (claim.Some? ==> claim.value in period && period[claim.value] == wins)
  }

  /** Winners are numbered by their wins, and the holder of the key is the latest. */
  ghost predicate Periods(s: State) { Numbered(s.pcs, s.claim, s.wins, s.removals, s.period) }

  /** A candidate becomes a winner at its winning SETNX and at no other step, and stays one. */
  lemma WonAt(s: State, pc: Pc, nocache: bool, globalCacheMode: bool, act: CandidateStep)
    requires CandidateEnabled(pc, act)
    ensures Won(CandidatePc(s, pc, nocache, globalCacheMode, act)) <==> Won(pc) || (act.SetNx? && s.claim.None?)
    ensures act.SetNx? ==> !Won(pc)
  {
  }

  lemma NumberedMove(pcs: seq<Pc>, claim: Option<nat>, wins: nat, removals: nat, period: map<nat, nat>, c: nat, pc: Pc)
    requires Numbered(pcs, claim, wins, removals, period) && c < |pcs|
    ensures Won(pc) == Won(pcs[c]) ==> Numbered(pcs[c := pc], claim, wins, removals, period)
    ensures Won(pc) && !Won(pcs[c]) && claim.None? ==>
            Numbered(pcs[c := pc], Some(c), wins + 1, removals, period[c := wins + 1])
  {
    hide Won;
  }

  lemma NumberedRemove(pcs: seq<Pc>, claim: Option<nat>, wins: nat, removals: nat, period: map<nat, nat>)
    requires Numbered(pcs, claim, wins, removals, period) && claim.Some?
    ensures Numbered(pcs, None, wins, removals + 1, period)
  {
    hide Won;
  }

  lemma PeriodsKept(cfg: Config, s: State, step: Step)
    requires Enabled(cfg, s, step) && Periods(s)
    ensures Periods(Next(cfg, s, step))
    ensures forall k :: k in s.period ==> k in Next(cfg, s, step).period && Next(cfg, s, step).period[k] == s.period[k]
  {
    if step.Sub? { PeriodsKeptBySub(cfg, s, step.c, step.act); }
    else {
      OtherStep(cfg, s, step);
      if s.claim.Some? { NumberedRemove(s.pcs, s.claim, s.wins, s.removals, s.period); }
      hide Next, Numbered;
    }
  }

  lemma PeriodsKeptBySub(cfg: Config, s: State, c: nat, act: CandidateStep)
    requires Enabled(cfg, s, Sub(c, act)) && Periods(s)
    ensures var t := Next(cfg, s, Sub(c, act));
            && Periods(t)
            && (forall k :: k in s.period ==> k in t.period && t.period[k] == s.period[k])
  {
    var pc := CandidatePc(s, s.pcs[c], cfg.cands[c].nocache, cfg.globalCacheMode, act);
    SubStep(cfg, s, c, act);
    WonAt(s, s.pcs[c], cfg.cands[c].nocache, cfg.globalCacheMode, act);
    assert Won(s.pcs[c]) <==> c in s.period;
    NumberedMove(s.pcs, s.claim, s.wins, s.removals, s.period, c, pc);
    if act.ReleaseClaim? && s.claim.Some? {
      NumberedRemove(s.pcs, s.claim, s.wins, s.removals, s.period);
      NumberedMove(s.pcs, None, s.wins, s.removals + 1, s.period, c, pc);
    }
    hide Next, Numbered, CandidatePc, Won, CandidateEnabled;
  }

  lemma {:induction false} PeriodsRun(cfg: Config, s: State, run: seq<Step>)
    requires Valid(cfg, s, run) && Periods(s)
    ensures Periods(After(cfg, s, run))
    ensures forall c :: c in s.period ==> c in After(cfg, s, run).period && After(cfg, s, run).period[c] == s.period[c]
    decreases |run|
  {
    hide Next, Enabled, Periods;
    if run != [] {
      PeriodsKept(cfg, s, run[0]);
      PeriodsRun(cfg, Next(cfg, s, run[0]), run[1..]);
    }
  }

  /** In every reachable state, whatever expires, the claim key belongs to the one winner whose period no
      removal has ended yet, and no two candidates ever share a period: between a win and the removal of its
      key nobody else wins. */
  lemma ClaimExclusive(cfg: Config, run: seq<Step>)
    requires Valid(cfg, Initial(cfg), run)
    ensures var e := After(cfg, Initial(cfg), run);
            && (forall c: nat :: Current(e, c) <==> e.claim == Some(c))
            && (forall c: nat :: c in e.period <==> c < |e.pcs| && Won(e.pcs[c]))
            && (forall c, d :: c in e.period && d in e.period && c != d ==> e.period[c] != e.period[d])
            && e.wins == e.removals + (if e.claim.Some? then 1 else 0)
  {
    assert Periods(Initial(cfg));
    PeriodsRun(cfg, Initial(cfg), run);
    hide After, Valid, Initial, Won;
  }

  // ---------------------------------------------------------------- while no claim key expires

  /** The holder of the key is the candidate that won and has not released it. */
  ghost predicate HeldBy(claim: Option<nat>, pcs: seq<Pc>)
  {
    forall c: nat :: claim == Some(c) <==> c < |pcs| && Holding(pcs[c])
  }

  lemma HolderKept(cfg: Config, s: State, step: Step)
    requires Enabled(cfg, s, step) && HeldBy(s.claim, s.pcs) && step != ExpireClaim
    ensures HeldBy(Next(cfg, s, step).claim, Next(cfg, s, step).pcs)
  {
    if step.Sub? {
      SubStep(cfg, s, step.c, step.act);
      HoldingAt(s, s.pcs[step.c], cfg.cands[step.c].nocache, cfg.globalCacheMode, step.act);
      hide Next, CandidatePc, Holding, CandidateEnabled;
    } else {
      OtherStep(cfg, s, step);
      hide Next, HeldBy;
    }
  }

  lemma HoldingAt(s: State, pc: Pc, nocache: bool, globalCacheMode: bool, act: CandidateStep)
    requires CandidateEnabled(pc, act)
    ensures Holding(CandidatePc(s, pc, nocache, globalCacheMode, act)) <==>
            (Holding(pc) && !act.ReleaseClaim?) || (act.SetNx? && s.claim.None?)
    ensures act.ReleaseClaim? ==> Holding(pc)
  {
  }

  lemma InitiallyHeld(cfg: Config)
    ensures HeldBy(Initial(cfg).claim, Initial(cfg).pcs) && Initial(cfg).claim == None
  {
  }

  // ---------------------------------------------------------------- publish-only releases its own claim

  /** On the publish-only path, which ends in an unconditional DEL of the claim key. */
  predicate WillRelease(pc: Pc) { pc.Initing? || pc.Releasing? }

  ghost predicate ReleasesOwn(claim: Option<nat>, pcs: seq<Pc>)
  {
    forall c: nat :: c < |pcs| && WillRelease(pcs[c]) ==> claim == Some(c)
  }

  /** The claim key of a candidate on the publish-only path expires. */
  predicate ExpiresReleaser(s: State, step: Step)
  {
    step == ExpireClaim && s.claim.Some? && s.claim.value < |s.pcs| && WillRelease(s.pcs[s.claim.value])
  }

  lemma WillReleaseAt(s: State, pc: Pc, nocache: bool, globalCacheMode: bool, act: CandidateStep)
    requires CandidateEnabled(pc, act)
    ensures WillRelease(CandidatePc(s, pc, nocache, globalCacheMode, act)) ==>
            (WillRelease(pc) && !act.ReleaseClaim?) || (act.SetNx? && s.claim.None?)
    ensures act.ReleaseClaim? ==> WillRelease(pc)
  {
  }

  lemma ReleasesOwnStep(cfg: Config, s: State, step: Step)
    requires Enabled(cfg, s, step) && ReleasesOwn(s.claim, s.pcs)
    ensures ReleasesOwn(Next(cfg, s, step).claim, Next(cfg, s, step).pcs) <==> !ExpiresReleaser(s, step)
  {
    if step.Sub? {
      SubStep(cfg, s, step.c, step.act);
      WillReleaseAt(s, s.pcs[step.c], cfg.cands[step.c].nocache, cfg.globalCacheMode, step.act);
      hide Next, CandidatePc, WillRelease, CandidateEnabled;
    } else {
      OtherStep(cfg, s, step);
      hide Next, WillRelease;
    }
  }

  ghost predicate AlwaysReleasesOwn(cfg: Config, s: State, run: seq<Step>)
    requires Valid(cfg, s, run)
    decreases |run|
  {
    ReleasesOwn(s.claim, s.pcs) && (run == [] || AlwaysReleasesOwn(cfg, Next(cfg, s, run[0]), run[1..]))
  }

  ghost predicate SparesReleasers(cfg: Config, s: State, run: seq<Step>)
    requires Valid(cfg, s, run)
    decreases |run|
  {
    run == [] || (!ExpiresReleaser(s, run[0]) && SparesReleasers(cfg, Next(cfg, s, run[0]), run[1..]))
  }

  /** releaseClaim can only ever delete the caller's own key exactly in the runs in which no key expires
      while its owner is still on the publish-only path. */
  lemma {:induction false} ReleasesOwnIff(cfg: Config, s: State, run: seq<Step>)
    requires Valid(cfg, s, run) && ReleasesOwn(s.claim, s.pcs)
    ensures AlwaysReleasesOwn(cfg, s, run) <==> SparesReleasers(cfg, s, run)
    decreases |run|
  {
    hide Next, Enabled, ReleasesOwn, ExpiresReleaser;
    if run != [] {
      ReleasesOwnStep(cfg, s, run[0]);
      if !ExpiresReleaser(s, run[0]) {
        ReleasesOwnIff(cfg, Next(cfg, s, run[0]), run[1..]);
      } else {
        assert !AlwaysReleasesOwn(cfg, Next(cfg, s, run[0]), run[1..]);
      }
    }
  }
}
