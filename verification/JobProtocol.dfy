/** One downloader_id as all workers see it: the claim key, the complete key, the deadline marker, the work
    queue and the shared hash. Subscriber candidates and downloader tasks act on them one store command at
    a time, in any order; any of them may stop for good at any point. */
module JobProtocol {
  import opened Text
  import opened Records
  import opened DownloaderHash
  import opened Retry

  // ---------------------------------------------------------------- src/subscriber/claim.ts

  datatype ClaimAction = AlreadyComplete | PublishOnly | Download | Wait | Drop

  function DecideClaimAction(alreadyComplete: bool, claimed: bool, nocache: bool, globalCacheMode: bool): ClaimAction
  {
    if alreadyComplete then AlreadyComplete
    else if claimed then (if globalCacheMode && nocache then PublishOnly else Download)
    else if nocache then Drop
    else Wait
  }

  // ---------------------------------------------------------------- state

  /** One notification that reached processEntry for this downloader_id. */
  datatype Candidate = Candidate(href: string, source: string, wnm: string, topic: string, published: string, dataId: string, nocache: bool)

  /** linkOf reads links[0].href out of a stored notification; None when it does not parse. */
  datatype Config = Config(cands: seq<Candidate>, globalCacheMode: bool, linkOf: string -> Option<string>)

  /** Where a candidate is in processEntry, named by what it does next. */
  datatype Pc =
    | Start                                        // EXISTS
    | Racing                                       // SETNX
    | Marking                                      // download: setCacheMarker
    | Writing(jobPending: bool, queuePending: bool) // download: writeDownloadJob and enqueueWork, both started
    | Waiting                                      // wait: recordWait
    | Initing                                      // publish-only: initAttempt
    | Releasing                                    // publish-only: publish, then releaseClaim
    | Ended(action: ClaimAction)
    | Failed(won: bool)

  datatype Task =
    | Fetching                                     // downloading; acknowledged when it ends
    | Hashing(href: string)                        // runComplete read the record: runHash
    | Finishing(href: string)                      // HASH_OK: completeHref
    | Unmarking                                    // completed: deleteCacheMarker
    | Flagging                                     // markDownloadComplete
    | Delaying                                     // 30 s before the retry decision
    | Retrying(d: RetryResult, startPending: bool, scriptPending: bool) // RETRY_OK: restart and retryTransition
    | Recording                                    // RETRY_NOK: recordError
    | ErrorUnmarking                               // recorded: deleteCacheMarker
    | Over

  datatype HashOutcome = HashOk | HashNok | HashFail

  datatype State = State(
    claim: Option<nat>,          // the candidate whose SETNX created the present claim key
    complete: bool,
    marker: bool,
    hash: Hash,
    queued: nat,                 // entries ever added to the work queue
    consumed: nat,               // entries handed to a worker
    pcs: seq<Pc>,
    tasks: seq<Task>,
    // history
    wins: nat,                   // SETNX wins so far
    removals: nat,               // times the claim key went away
    expiries: nat,               // of these, by TTL
    period: map<nat, nat>,       // the number of each winner's win
    markings: nat,               // times the marker was set
    finals: nat,                 // successful completeHref calls and recorded final errors
    deletions: nat)              // deleteCacheMarker calls

  function Initial(cfg: Config): State
  {
    State(None, false, false, map[], 0, 0, seq(|cfg.cands|, _ => Start), [], 0, 0, 0, map[], 0, 0, 0)
  }

  // ---------------------------------------------------------------- steps

  /** One store command of a candidate in src/subscriber/consumer.ts, or its failure. */
  datatype CandidateStep =
    | Exists | SetNx | SetMarker | WriteDownloadJob(accepted: string) | JobFails | Enqueue | EnqueueFails
    | RecordWaitOf | InitAttemptOf | ReleaseClaim | Crash

  /** One step of a downloader task in src/downloader. */
  datatype TaskStep =
    | FetchOk | FetchFails | Hashed(outcome: HashOutcome)
    | RunComplete(storedAt: string, link: string, localPath: string)
    | Unmark | UnmarkFails | Flag
    | Snapshot(listing: Record) | StartRetry | RunScript | RecordError | ErrorUnmark | TaskCrash

  datatype Step =
    | Sub(c: nat, act: CandidateStep)
    | Consume
    | Down(t: nat, work: TaskStep)
    | ExpireClaim | ExpireMarker | ExpireComplete | ExpireHash

  predicate CandidateEnabled(pc: Pc, act: CandidateStep)
  {
    match act
    case Exists => pc == Start
    case SetNx => pc == Racing
    case SetMarker => pc == Marking
    case WriteDownloadJob(_) => pc.Writing? && pc.jobPending
    case JobFails => pc.Writing? && pc.jobPending
    case Enqueue => pc.Writing? && pc.queuePending
    case EnqueueFails => pc.Writing? && pc.queuePending
    case RecordWaitOf => pc == Waiting
    case InitAttemptOf => pc == Initing
    case ReleaseClaim => pc == Releasing
    case Crash => !pc.Ended? && !pc.Failed? && !pc.Writing?
  }

  /** The retry decision works on one HGETALL listing of the hash. */
  ghost predicate TaskEnabled(hash: Hash, task: Task, work: TaskStep)
  {
    match work
    case FetchOk => task == Fetching
    case FetchFails => task == Fetching
    case Hashed(_) => task.Hashing?
    case RunComplete(_, _, _) => task.Finishing?
    case Unmark => task == Unmarking
    case UnmarkFails => task == Unmarking
    case Flag => task == Flagging
    case Snapshot(listing) => task == Delaying && Distinct(listing) && AsMap(listing) == hash
    case StartRetry => task.Retrying? && task.startPending
    case RunScript => task.Retrying? && task.scriptPending
    case RecordError => task == Recording
    case ErrorUnmark => task == ErrorUnmarking
    case TaskCrash => true
  }

  ghost predicate Enabled(cfg: Config, s: State, step: Step)
  {
    match step
    case Sub(c, act) => c < |s.pcs| == |cfg.cands| && CandidateEnabled(s.pcs[c], act)
    case Consume => s.consumed < s.queued
    case Down(t, work) => t < |s.tasks| && TaskEnabled(s.hash, s.tasks[t], work)
    case ExpireClaim => s.claim.Some?
    case ExpireMarker => s.marker
    case _ => true
  }

  /** How processEntry goes on once the action is decided. */
  function AfterAction(action: ClaimAction): Pc
  {
    match action
    case Download => Marking
    case Wait => Waiting
    case PublishOnly => Initing
    case _ => Ended(action)
  }

  function CandidatePc(s: State, pc: Pc, nocache: bool, globalCacheMode: bool, act: CandidateStep): Pc
    requires CandidateEnabled(pc, act)
  {
    match act
    case Exists => if s.complete then AfterAction(DecideClaimAction(true, false, nocache, globalCacheMode)) else Racing
    case SetNx => AfterAction(DecideClaimAction(false, s.claim.None?, nocache, globalCacheMode))
    case SetMarker => Writing(true, true)
    case WriteDownloadJob(_) => pc.(jobPending := false)
    case JobFails => pc.(jobPending := false)
    case Enqueue => pc.(queuePending := false)
    case EnqueueFails => pc.(queuePending := false)
    case RecordWaitOf => Ended(Wait)
    case InitAttemptOf => Releasing
    case ReleaseClaim => Ended(PublishOnly)
    case Crash => Failed(pc != Start && pc != Racing && pc != Waiting)
  }

  /** The key goes away: nothing changes when it is not there. */
  function RemoveClaim(s: State): State
  {
    if s.claim.Some? then s.(claim := None, removals := s.removals + 1) else s
  }

  function CandidateKeys(s: State, c: nat, act: CandidateStep): State
  {
    match act
    case SetNx => if s.claim.None? then s.(claim := Some(c), wins := s.wins + 1, period := s.period[c := s.wins + 1]) else s
    case SetMarker => s.(marker := true, markings := s.markings + 1)
    case Enqueue => s.(queued := s.queued + 1)
    case ReleaseClaim => RemoveClaim(s)
    case _ => s
  }

  /** How the retry decision goes on. */
  function AfterDecision(d: RetryResult): Task
  {
    match d.retry
    case RetryOk => Retrying(d, true, true)
    case RetryNok => Recording
    case RetryNoNeed => Over
  }

  function AfterHash(outcome: HashOutcome, href: string): Task
  {
    match outcome
    case HashOk => Finishing(href)
    case HashNok => Delaying
    case HashFail => Over
  }

  function LinkOf(cfg: Config, hash: Hash): Option<string>
  {
    if "wnm" in hash then cfg.linkOf(hash["wnm"]) else None
  }

  ghost function TaskAfter(cfg: Config, hash: Hash, task: Task, work: TaskStep): Task
    requires TaskEnabled(hash, task, work)
  {
    match work
    case FetchOk => (match LinkOf(cfg, hash) case Some(href) => Hashing(href) case None => Over)
    case FetchFails => Delaying
    case Hashed(outcome) => AfterHash(outcome, task.href)
    case RunComplete(_, _, _) => if task.href in hash then Unmarking else Over
    case Unmark => Flagging
    case UnmarkFails => Flagging
    case Flag => Over
    case Snapshot(listing) => AfterDecision(Decide(Flatten(listing)))
    case StartRetry => task.(startPending := false)
    case RunScript => task.(scriptPending := false)
    case RecordError => ErrorUnmarking
    case ErrorUnmark => Over
    case TaskCrash => Over
  }

  function TaskKeys(s: State, task: Task, work: TaskStep): State
  {
    match work
    case RunComplete(_, _, _) => if task.Finishing? && task.href in s.hash then s.(finals := s.finals + 1) else s
    case Unmark => s.(marker := false, deletions := s.deletions + 1)
    case Flag => s.(complete := true)
    case RecordError => s.(finals := s.finals + 1)
    case ErrorUnmark => s.(marker := false, deletions := s.deletions + 1)
    case _ => s
  }

  /** The write a step makes on the hash, if any. */
  function HashWrite(cfg: Config, s: State, step: Step): Option<HashOp>
  {
    match step
    case Sub(c, act) => if c < |cfg.cands| then CandidateWrite(cfg.cands[c], act) else None
    case Down(t, work) => if t < |s.tasks| then TaskWrite(s.tasks[t], work) else None
    case _ => None
  }

  function CandidateWrite(k: Candidate, act: CandidateStep): Option<HashOp>
  {
    match act
    case WriteDownloadJob(accepted) => Some(WriteJob(k.href, k.source, k.wnm, k.topic, k.published, k.dataId, accepted))
    case RecordWaitOf => Some(RecordWait(k.href, k.source))
    case InitAttemptOf => Some(InitAttempt)
    case _ => None
  }

  function TaskWrite(task: Task, work: TaskStep): Option<HashOp>
  {
    match work
    case RunComplete(storedAt, link, localPath) =>
      if task.Finishing? then Some(CompleteHref(task.href, storedAt, link, localPath)) else None
    case RunScript =>
      if task.Retrying? then Some(RetryTransition(task.d.promoteHref, task.d.newAttempt, task.d.errorHref)) else None
    case _ => None
  }

  function HashAfter(cfg: Config, s: State, step: Step): Hash
  {
    if step == ExpireHash then map[]
    else
      match HashWrite(cfg, s, step)
      case Some(op) => Apply(s.hash, op)
      case None => s.hash
  }

  ghost function Next(cfg: Config, s: State, step: Step): State
    requires Enabled(cfg, s, step)
  {
    var hash := HashAfter(cfg, s, step);
    match step
    case Sub(c, act) =>
      var pc := CandidatePc(s, s.pcs[c], cfg.cands[c].nocache, cfg.globalCacheMode, act);
      CandidateKeys(s, c, act).(hash := hash, pcs := s.pcs[c := pc])
    case Consume => s.(consumed := s.consumed + 1, tasks := s.tasks + [Fetching])
    case Down(t, work) =>
      var tasks := s.tasks[t := TaskAfter(cfg, s.hash, s.tasks[t], work)];
      TaskKeys(s, s.tasks[t], work).(hash := hash, tasks := if work.StartRetry? then tasks + [Fetching] else tasks)
    case ExpireClaim => RemoveClaim(s).(expiries := s.expiries + 1)
    case ExpireMarker => s.(marker := false)
    case ExpireComplete => s.(complete := false)
    case ExpireHash => s.(hash := hash)
  }

  // ---------------------------------------------------------------- runs

  ghost predicate Valid(cfg: Config, s: State, run: seq<Step>)
    decreases |run|
  {
    run == [] || (Enabled(cfg, s, run[0]) && Valid(cfg, Next(cfg, s, run[0]), run[1..]))
  }

  ghost function After(cfg: Config, s: State, run: seq<Step>): State
    requires Valid(cfg, s, run)
    decreases |run|
  {
    if run == [] then s else After(cfg, Next(cfg, s, run[0]), run[1..])
  }

  lemma {:induction false} Extend(cfg: Config, s: State, run: seq<Step>, step: Step)
    requires Valid(cfg, s, run) && Enabled(cfg, After(cfg, s, run), step)
    ensures Valid(cfg, s, run + [step]) && After(cfg, s, run + [step]) == Next(cfg, After(cfg, s, run), step)
    decreases |run|
  {
    hide Next, Enabled;
    if run == [] {
      assert (run + [step])[1..] == [];
    } else {
      assert (run + [step])[1..] == run[1..] + [step];
      Extend(cfg, Next(cfg, s, run[0]), run[1..], step);
    }
  }

  lemma {:induction false} Concatenated(cfg: Config, s: State, early: seq<Step>, late: seq<Step>)
    ensures Valid(cfg, s, early + late) <==> Valid(cfg, s, early) && Valid(cfg, After(cfg, s, early), late)
    ensures Valid(cfg, s, early + late) ==> After(cfg, s, early + late) == After(cfg, After(cfg, s, early), late)
    decreases |early|
  {
    hide Next, Enabled;
    if early == [] {
      assert early + late == late;
    } else {
      assert (early + late)[1..] == early[1..] + late;
      if Enabled(cfg, s, early[0]) { Concatenated(cfg, Next(cfg, s, early[0]), early[1..], late); }
    }
  }

  lemma OneStep(cfg: Config, s: State, step: Step)
    requires Enabled(cfg, s, step)
    ensures Valid(cfg, s, [step]) && After(cfg, s, [step]) == Next(cfg, s, step)
  {
    var next := Next(cfg, s, step);
    assert [step][1..] == [];
    hide Next, Enabled;
    assert Valid(cfg, next, []);
  }
}
