/** The shared hash in the job protocol: every run of the protocol is a run of the hash writes that the
    status machine allows, so its invariants hold for every interleaving of candidates and downloaders. */
module JobHash {
  import opened Text
  import opened DownloaderHash
  import opened HrefStatus
  import opened JobProtocol
  import opened JobSteps
  import Retry

  /** The candidates announce different copies, each at an http(s) address. */
  ghost predicate DistinctHrefs(cfg: Config)
  {
    && (forall c :: 0 <= c < |cfg.cands| ==> IsHref(cfg.cands[c].href))
    && (forall c, d :: 0 <= c < d < |cfg.cands| ==> cfg.cands[c].href != cfg.cands[d].href)
  }

  /** The candidate has not written its href yet and still may. */
  predicate Unwritten(pc: Pc)
  {
    pc.Start? || pc.Racing? || pc.Marking? || pc.Waiting? || (pc.Writing? && pc.jobPending)
  }

  ghost predicate UnwrittenAbsent(cfg: Config, s: State)
  {
    && |s.pcs| == |cfg.cands|
    && forall c :: 0 <= c < |s.pcs| && Unwritten(s.pcs[c]) ==> cfg.cands[c].href !in s.hash
  }

  /** Only the two blind HSETs create a status field. */
  lemma NewHrefs(m: Hash, op: HashOp, h: string)
    requires IsHref(h) && h in Apply(m, op)
    ensures h in m || BlindTarget(op) == Some(h)
  {
    assert h[0] == 'h';
  }

  /** A candidate that writes its href has not done so before, and never does again. */
  lemma UnwrittenAt(s: State, k: Candidate, pc: Pc, globalCacheMode: bool, act: CandidateStep)
    requires CandidateEnabled(pc, act)
    ensures var w := CandidateWrite(k, act);
            && (w.Some? && BlindTarget(w.value).Some? ==>
                BlindTarget(w.value) == Some(k.href) && Unwritten(pc) && !Unwritten(CandidatePc(s, pc, k.nocache, globalCacheMode, act)))
    ensures Unwritten(CandidatePc(s, pc, k.nocache, globalCacheMode, act)) ==> Unwritten(pc)
  {
  }

  /** Every write the protocol makes names a new href where it is blind. */
  lemma WritesAreFresh(cfg: Config, s: State, step: Step)
    requires Enabled(cfg, s, step) && DistinctHrefs(cfg) && UnwrittenAbsent(cfg, s)
    ensures HashWrite(cfg, s, step).Some? ==> Fresh(s.hash, HashWrite(cfg, s, step).value)
    ensures UnwrittenAbsent(cfg, Next(cfg, s, step))
  {
    PcsAfter(cfg, s, step);
    hide Next, Apply, CandidatePc, CandidateEnabled, TaskEnabled;
    var w := HashWrite(cfg, s, step);
    if step.Sub? {
      assert s.pcs[step.c] == s.pcs[step.c];
      UnwrittenAt(s, cfg.cands[step.c], s.pcs[step.c], cfg.globalCacheMode, step.act);
    }
    var t := Next(cfg, s, step);
    forall c | 0 <= c < |t.pcs| && Unwritten(t.pcs[c])
      ensures cfg.cands[c].href !in t.hash
    {
      var h := cfg.cands[c].href;
      if h in t.hash && w.Some? { NewHrefs(s.hash, w.value, h); }
    }
  }

  /** The hash writes of a run, in order. */
  ghost function Writes(cfg: Config, s: State, run: seq<Step>): seq<HashOp>
    requires Valid(cfg, s, run)
    decreases |run|
  {
    if run == [] then []
    else
      var w := HashWrite(cfg, s, run[0]);
      (if w.Some? then [w.value] else []) + Writes(cfg, Next(cfg, s, run[0]), run[1..])
  }

  /** While the hash does not expire, a run of the protocol does to the hash what its writes do, one after
      the other, and those writes are ones the status machine allows. */
  lemma {:induction false} RunIsHashRun(cfg: Config, s: State, run: seq<Step>)
    requires Valid(cfg, s, run) && ExpireHash !in run && DistinctHrefs(cfg) && UnwrittenAbsent(cfg, s)
    ensures After(cfg, s, run).hash == Run(s.hash, Writes(cfg, s, run))
    ensures FreshRun(s.hash, Writes(cfg, s, run))
    decreases |run|
  {
    hide Next, Apply, Fresh, UnwrittenAbsent;
    if run != [] {
      PcsAfter(cfg, s, run[0]);
      WritesAreFresh(cfg, s, run[0]);
      var t := Next(cfg, s, run[0]);
      RunIsHashRun(cfg, t, run[1..]);
      var w := HashWrite(cfg, s, run[0]);
      if w.Some? { assert Writes(cfg, s, run)[1..] == Writes(cfg, t, run[1..]); }
      else { assert Writes(cfg, s, run) == Writes(cfg, t, run[1..]); }
    }
  }

  /** So in every run of the whole protocol, whatever interleaves and fails, a status only moves forward,
      `complete` is never left, and no more waits are promoted than were recorded. */
  lemma ProtocolStatuses(cfg: Config, early: seq<Step>, late: seq<Step>, h: string)
    requires DistinctHrefs(cfg) && IsHref(h) && ExpireHash !in early && ExpireHash !in late
    requires Valid(cfg, Initial(cfg), early) && Valid(cfg, After(cfg, Initial(cfg), early), late)
    ensures var m := After(cfg, Initial(cfg), early); var e := After(cfg, m, late);
            && Rank(m.hash, h) <= Rank(e.hash, h) <= COMPLETED
            && (Rank(m.hash, h) == COMPLETED ==> h in e.hash && e.hash[h] == "complete")
            && (Rank(m.hash, h) == ERRORED ==> Rank(e.hash, h) in {ERRORED, COMPLETED})
            && Count(map[], Writes(cfg, Initial(cfg), early)).promoted <= Count(map[], Writes(cfg, Initial(cfg), early)).recorded
  {
    var s := Initial(cfg);
    var m := After(cfg, s, early);
    RunIsHashRun(cfg, s, early);
    UnwrittenRun(cfg, s, early);
    RunIsHashRun(cfg, m, late);
    StatusOnlyAdvances(map[], Writes(cfg, s, early), h);
    StatusOnlyAdvances(m.hash, Writes(cfg, m, late), h);
    PromotionsBounded(Writes(cfg, s, early));
    hide After, Valid, Writes, Run, FreshRun, Count, Next;
  }

  lemma {:induction false} UnwrittenRun(cfg: Config, s: State, run: seq<Step>)
    requires Valid(cfg, s, run) && DistinctHrefs(cfg) && UnwrittenAbsent(cfg, s)
    ensures UnwrittenAbsent(cfg, After(cfg, s, run))
    decreases |run|
  {
    hide Next, UnwrittenAbsent, HashWrite, Fresh;
    if run != [] {
      WritesAreFresh(cfg, s, run[0]);
      UnwrittenRun(cfg, Next(cfg, s, run[0]), run[1..]);
    }
  }

  // ---------------------------------------------------------------- which href completes

  /** The notifications stored are JSON texts, and the address found in one is an http(s) address. */
  ghost predicate LinksAreHrefs(cfg: Config)
  {
    forall c :: 0 <= c < |cfg.cands| ==>
      (cfg.cands[c].wnm != "wait" && cfg.cands[c].wnm != "queue" &&
       (cfg.linkOf(cfg.cands[c].wnm).Some? ==> IsHref(cfg.linkOf(cfg.cands[c].wnm).value)))
  }

  /** The address in the first link of some candidate's notification. */
  ghost predicate IsLink(cfg: Config, h: string)
  {
    IsHref(h) && exists c :: 0 <= c < |cfg.cands| && cfg.linkOf(cfg.cands[c].wnm) == Some(h)
  }

  ghost predicate IsStored(cfg: Config, wnm: string)
  {
    exists c :: 0 <= c < |cfg.cands| && wnm == cfg.cands[c].wnm
  }

  predicate WorksOn(task: Task, h: string) { (task.Hashing? || task.Finishing?) && task.href == h }

  ghost predicate LinksOnly(cfg: Config, s: State)
  {
    && ("wnm" in s.hash ==> IsStored(cfg, s.hash["wnm"]))
    && (forall i, h :: 0 <= i < |s.tasks| && WorksOn(s.tasks[i], h) ==> IsLink(cfg, h))
    && (forall h :: IsHref(h) && Rank(s.hash, h) == COMPLETED ==> IsLink(cfg, h))
  }

  /** The stored notification changes only by a job write; a retry leaves it alone. */
  lemma WnmAfter(m: Hash, op: HashOp)
    requires BlindTarget(op).Some? ==> IsHref(BlindTarget(op).value)
    requires op.CompleteHref? ==> IsHref(op.href)
    requires "wnm" in m ==> m["wnm"] != "wait" && m["wnm"] != "queue"
    ensures "wnm" in Apply(m, op) <==> "wnm" in m || op.WriteJob?
    ensures "wnm" in Apply(m, op) ==> Apply(m, op)["wnm"] == if op.WriteJob? then op.wnm else m["wnm"]
  {
    assert "wnm"[0] == 'w';
    if BlindTarget(op).Some? { assert BlindTarget(op).value[0] == 'h' && ("src:" + BlindTarget(op).value)[0] == 's'; }
    if op.CompleteHref? { assert op.href[0] == 'h'; }
  }

  /** Nothing but a CompleteHref on an href completes it. */
  lemma CompletedAfter(m: Hash, op: HashOp, h: string)
    requires IsHref(h) && Rank(m, h) != COMPLETED && Rank(Apply(m, op), h) == COMPLETED
    ensures op.CompleteHref? && op.href == h
  {
    assert h[0] == 'h';
  }

  lemma TasksAfter(cfg: Config, s: State, step: Step)
    requires Enabled(cfg, s, step)
    ensures var t := Next(cfg, s, step);
            && (step.Down? ==>
                t.tasks == s.tasks[step.t := TaskAfter(cfg, s.hash, s.tasks[step.t], step.work)]
                           + (if step.work.StartRetry? then [Fetching] else []))
            && (!step.Down? ==> t.tasks == s.tasks + (if step.Consume? then [Fetching] else []))
  {
    hide HashAfter, CandidatePc, TaskAfter, TaskEnabled, CandidateEnabled;
  }

  /** A task starts to work on an address only by finding it in the stored notification. */
  lemma WorkedOn(cfg: Config, hash: Hash, task: Task, work: TaskStep, h: string)
    requires TaskEnabled(hash, task, work) && WorksOn(TaskAfter(cfg, hash, task, work), h)
    ensures WorksOn(task, h) || ("wnm" in hash && cfg.linkOf(hash["wnm"]) == Some(h))
  {
    hide Retry.Decide;
  }

  lemma TaskWrites(task: Task, work: TaskStep)
    requires TaskWrite(task, work).Some? && TaskWrite(task, work).value.CompleteHref?
    ensures WorksOn(task, TaskWrite(task, work).value.href)
  {
  }

  lemma WriteIsKnown(cfg: Config, s: State, step: Step)
    requires Enabled(cfg, s, step) && DistinctHrefs(cfg) && LinksOnly(cfg, s) && HashWrite(cfg, s, step).Some?
    ensures var op := HashWrite(cfg, s, step).value;
            && (BlindTarget(op).Some? ==> IsHref(BlindTarget(op).value))
            && (op.CompleteHref? ==> IsLink(cfg, op.href))
            && (op.WriteJob? ==> IsStored(cfg, op.wnm))
  {
    if step.Down? && HashWrite(cfg, s, step).value.CompleteHref? { TaskWrites(s.tasks[step.t], step.work); }
  }

  lemma LinksOnlyKept(cfg: Config, s: State, step: Step)
    requires Enabled(cfg, s, step) && DistinctHrefs(cfg) && LinksAreHrefs(cfg) && LinksOnly(cfg, s)
    ensures LinksOnly(cfg, Next(cfg, s, step))
  {
    PcsAfter(cfg, s, step);
    TasksAfter(cfg, s, step);
    var w := HashWrite(cfg, s, step);
    var t := Next(cfg, s, step);
    if w.Some? {
      WriteIsKnown(cfg, s, step);
      WnmAfter(s.hash, w.value);
    }
    hide Next, Apply, TaskAfter, TaskEnabled, CandidateEnabled, HashWrite, IsLink, Enabled;
    forall h | IsHref(h) && Rank(t.hash, h) == COMPLETED
      ensures IsLink(cfg, h)
    {
      if Rank(s.hash, h) != COMPLETED && w.Some? { CompletedAfter(s.hash, w.value, h); }
    }
    forall i, h | 0 <= i < |t.tasks| && WorksOn(t.tasks[i], h)
      ensures IsLink(cfg, h)
    {
      LinkWorkedOn(cfg, s, step, t, i, h);
    }
  }

  lemma LinkWorkedOn(cfg: Config, s: State, step: Step, t: State, i: nat, h: string)
    requires Enabled(cfg, s, step) && LinksAreHrefs(cfg) && LinksOnly(cfg, s) && t == Next(cfg, s, step)
    requires i < |t.tasks| && WorksOn(t.tasks[i], h)
    ensures IsLink(cfg, h)
  {
    TasksAfter(cfg, s, step);
    hide Next, TaskAfter, CandidateEnabled;
    if i < |s.tasks| && step.Down? && step.t == i {
      WorkedOn(cfg, s.hash, s.tasks[i], step.work, h);
    }
  }

  lemma {:induction false} LinksOnlyRun(cfg: Config, s: State, run: seq<Step>)
    requires Valid(cfg, s, run) && DistinctHrefs(cfg) && LinksAreHrefs(cfg) && LinksOnly(cfg, s)
    ensures LinksOnly(cfg, After(cfg, s, run))
    decreases |run|
  {
    hide Next, LinksOnly, Enabled;
    if run != [] {
      LinksOnlyKept(cfg, s, run[0]);
      LinksOnlyRun(cfg, Next(cfg, s, run[0]), run[1..]);
    }
  }

  /** Whatever was downloaded, and after however many retries, an href is only ever recorded as complete if it
      is the first link of a stored notification: a promoted alternative never is, unless it is that link. */
  lemma OnlyStoredLinksComplete(cfg: Config, run: seq<Step>, h: string)
    requires Valid(cfg, Initial(cfg), run) && DistinctHrefs(cfg) && LinksAreHrefs(cfg)
    requires IsHref(h) && Rank(After(cfg, Initial(cfg), run).hash, h) == COMPLETED
    ensures exists c :: 0 <= c < |cfg.cands| && cfg.linkOf(cfg.cands[c].wnm) == Some(h)
  {
    assert LinksOnly(cfg, Initial(cfg));
    LinksOnlyRun(cfg, Initial(cfg), run);
    hide After, Valid, Initial;
  }
}
