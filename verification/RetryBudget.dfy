/** The retry budget of one downloader_id: retry decisions taken one at a time, each from any listing of the
    hash, while waits keep being recorded, hrefs keep completing, and jobs and publications reset the counter. */
module RetryBudget {
  import opened Text
  import opened Records
  import opened DownloaderHash
  import opened HrefStatus
  import opened Retry
  import opened RetryReference
  import opened RetryTheorems

  const DECISION_DELAY_SECONDS := 30

  /** Every entry of the hash keeps its words in their slots. */
  ghost predicate SlottedHash(m: Hash)
  {
    forall f :: f in m ==> CleanPair(Pair(f, m[f]))
  }

  /** One of the orders HGETALL may list a hash in. */
  ghost predicate Lists(rec: Record, m: Hash) { Distinct(rec) && AsMap(rec) == m }

  /** What others may write meanwhile: fresh waits, completions, further jobs and counters set back by a
      publication, with clean words. */
  predicate Around(m: Hash, op: HashOp)
  {
    match op
    case RecordWait(href, source) => Fresh(m, op) && CleanPair(Pair("src:" + href, source))
    case CompleteHref(href, storedAt, link, localPath) =>
      IsHref(href) && CleanPair(Pair("stored", storedAt)) && CleanPair(Pair("link", link)) && CleanPair(Pair("local-path", localPath))
    case InitAttempt => true
    case WriteJob(href, source, wnm, topic, published, dataId, accepted) =>
      && Fresh(m, op) && CleanPair(Pair("src:" + href, source)) && CleanPair(Pair("wnm", wnm)) && CleanPair(Pair("topic", topic))
      && CleanPair(Pair("published", published)) && CleanPair(Pair("data_id", dataId)) && CleanPair(Pair("accepted", accepted))
    case RetryTransition(_, _, _) => false
  }

  /** The write sets the counter back to 1. */
  predicate Resetting(op: HashOp) { op.InitAttempt? || op.WriteJob? }

  function Resets(ops: seq<HashOp>): nat
  {
    if ops == [] then 0 else (if Resetting(ops[0]) then 1 else 0) + Resets(ops[1..])
  }

  predicate AllAround(m: Hash, ops: seq<HashOp>)
    decreases |ops|
  {
    ops == [] || (Around(m, ops[0]) && AllAround(Apply(m, ops[0]), ops[1..]))
  }

  /** One decision: writes before the snapshot, the listing read, writes before the script runs. */
  datatype Round = Round(before: seq<HashOp>, listing: Record, between: seq<HashOp>)

  function DecisionOf(r: Round): RetryResult { Decide(Flatten(r.listing)) }

  function AtSnapshot(m: Hash, r: Round): Hash { Run(m, r.before) }

  function AtScript(m: Hash, r: Round): Hash { Run(AtSnapshot(m, r), r.between) }

  ghost predicate ValidRound(m: Hash, r: Round)
  {
    && AllAround(m, r.before)
    && Lists(r.listing, AtSnapshot(m, r))
    && AllAround(AtSnapshot(m, r), r.between)
  }

  function AfterRound(m: Hash, r: Round): Hash
  {
    var d := DecisionOf(r);
    if d.retry == RetryOk then ScriptRetry(AtScript(m, r), d.promoteHref, d.newAttempt, d.errorHref).0 else AtScript(m, r)
  }

  /** The decision ended in a promotion. */
  predicate Promoting(m: Hash, r: Round)
  {
    var d := DecisionOf(r);
    d.retry == RetryOk && ScriptRetry(AtScript(m, r), d.promoteHref, d.newAttempt, d.errorHref).1 == 1
  }

  /** The seconds one decision waits: before the snapshot, and before applying a promotion. */
  function Seconds(r: Round): int
  {
    var d := DecisionOf(r);
    DECISION_DELAY_SECONDS + if d.retry == RetryOk && d.delaySeconds.Some? then d.delaySeconds.value else 0
  }

  ghost predicate ValidRounds(m: Hash, rounds: seq<Round>)
    decreases |rounds|
  {
    rounds == [] || (ValidRound(m, rounds[0]) && ValidRounds(AfterRound(m, rounds[0]), rounds[1..]))
  }

  function Final(m: Hash, rounds: seq<Round>): Hash
    decreases |rounds|
  {
    if rounds == [] then m else Final(AfterRound(m, rounds[0]), rounds[1..])
  }

  function Promotions(m: Hash, rounds: seq<Round>): nat
    decreases |rounds|
  {
    if rounds == [] then 0
    else (if Promoting(m, rounds[0]) then 1 else 0) + Promotions(AfterRound(m, rounds[0]), rounds[1..])
  }

  /** The seconds waited by the decisions that promoted. */
  function Waited(m: Hash, rounds: seq<Round>): int
    decreases |rounds|
  {
    if rounds == [] then 0
    else (if Promoting(m, rounds[0]) then Seconds(rounds[0]) else 0) + Waited(AfterRound(m, rounds[0]), rounds[1..])
  }

  /** The decision was to retry, but the href it chose no longer waited when the script ran. */
  predicate Missing(m: Hash, r: Round) { DecisionOf(r).retry == RetryOk && !Promoting(m, r) }

  /** The decisions to retry: each starts a download. */
  function Restarts(m: Hash, rounds: seq<Round>): nat
    decreases |rounds|
  {
    if rounds == [] then 0
    else (if DecisionOf(rounds[0]).retry == RetryOk then 1 else 0) + Restarts(AfterRound(m, rounds[0]), rounds[1..])
  }

  /** The seconds waited by all of them. */
  function Spent(m: Hash, rounds: seq<Round>): int
    decreases |rounds|
  {
    if rounds == [] then 0
    else (if DecisionOf(rounds[0]).retry == RetryOk then Seconds(rounds[0]) else 0) + Spent(AfterRound(m, rounds[0]), rounds[1..])
  }

  /** The waiting hrefs completed by others between a snapshot and its script. */
  function Overtaken(m: Hash, rounds: seq<Round>): nat
    decreases |rounds|
  {
    if rounds == [] then 0
    else Count(AtSnapshot(m, rounds[0]), rounds[0].between).completed + Overtaken(AfterRound(m, rounds[0]), rounds[1..])
  }

  /** How often the counter was set back. */
  function AllResets(rounds: seq<Round>): nat
  {
    if rounds == [] then 0 else Resets(rounds[0].before) + Resets(rounds[0].between) + AllResets(rounds[1..])
  }

  /** The seconds that promotions from attempt a up to attempt b take. */
  function Budget(a: int, b: int): int
    decreases b - a
  {
    if a >= b then 0 else DECISION_DELAY_SECONDS + 5 * a + Budget(a + 1, b)
  }

  // ---------------------------------------------------------------- what the others cannot change

  lemma AroundKeeps(m: Hash, op: HashOp)
    requires SlottedHash(m) && "attempt" in m && Around(m, op)
    ensures SlottedHash(Apply(m, op)) && "attempt" in Apply(m, op)
    ensures AttemptOf(Apply(m, op)) == if Resetting(op) then 1 else AttemptOf(m)
  {
    if op.InitAttempt? {
      ResetKeeps(m);
    } else if op.WriteJob? {
      JobKeeps(m, op);
    } else if op.RecordWait? {
      WaitKeeps(m, op);
    } else {
      CompletionKeeps(m, op);
    }
    hide SlottedHash, Apply, AttemptOf, CleanPair;
  }

  lemma WaitKeeps(m: Hash, op: HashOp)
    requires SlottedHash(m) && Around(m, op) && op.RecordWait?
    ensures SlottedHash(Apply(m, op)) && ("attempt" in m ==> "attempt" in Apply(m, op) && AttemptOf(Apply(m, op)) == AttemptOf(m))
  {
    CleanHref(op.href, "wait");
    hide SlottedHash, CleanPair, IntOrZero;
    ExtendKeeps(m, op.href, "wait");
    ExtendKeeps(m[op.href := "wait"], "src:" + op.href, op.source);
    assert op.href[0] == 'h' && "attempt"[0] == 'a' && ("src:" + op.href)[0] == 's';
  }

  lemma CompletionKeeps(m: Hash, op: HashOp)
    requires SlottedHash(m) && Around(m, op) && op.CompleteHref?
    ensures SlottedHash(Apply(m, op)) && ("attempt" in m ==> "attempt" in Apply(m, op) && AttemptOf(Apply(m, op)) == AttemptOf(m))
  {
    CleanHref(op.href, "complete");
    hide SlottedHash, CleanPair, IntOrZero;
    ExtendKeeps(m, op.href, "complete");
    ExtendKeeps(m[op.href := "complete"], "stored", op.storedAt);
    ExtendKeeps(m[op.href := "complete"]["stored" := op.storedAt], "link", op.link);
    ExtendKeeps(m[op.href := "complete"]["stored" := op.storedAt]["link" := op.link], "local-path", op.localPath);
    assert op.href[0] == 'h' && "attempt"[0] == 'a' && "stored"[0] == 's' && "link"[0] == 'l' && "local-path"[0] == 'l';
  }

  lemma ResetKeeps(m: Hash)
    requires SlottedHash(m)
    ensures SlottedHash(m["attempt" := "1"]) && AttemptOf(m["attempt" := "1"]) == 1
  {
    PrintOne();
    PrintIsClean(1);
    PrintRoundTrip(1);
  }

  lemma ExtendKeeps(m: Hash, field: string, value: string)
    requires SlottedHash(m) && CleanPair(Pair(field, value))
    ensures SlottedHash(m[field := value])
  {
  }

  lemma JobKeeps(m: Hash, op: HashOp)
    requires SlottedHash(m) && Around(m, op) && op.WriteJob?
    ensures SlottedHash(Apply(m, op)) && "attempt" in Apply(m, op) && AttemptOf(Apply(m, op)) == 1
  {
    hide SlottedHash, CleanPair;
    CleanHref(op.href, "queue");
    var a := m[op.href := "queue"]["src:" + op.href := op.source]["wnm" := op.wnm]["topic" := op.topic]["published" := op.published];
    ExtendKeeps(m, op.href, "queue");
    ExtendKeeps(m[op.href := "queue"], "src:" + op.href, op.source);
    ExtendKeeps(m[op.href := "queue"]["src:" + op.href := op.source], "wnm", op.wnm);
    ExtendKeeps(m[op.href := "queue"]["src:" + op.href := op.source]["wnm" := op.wnm], "topic", op.topic);
    ExtendKeeps(m[op.href := "queue"]["src:" + op.href := op.source]["wnm" := op.wnm]["topic" := op.topic], "published", op.published);
    ResetKeeps(a);
    ExtendKeeps(a["attempt" := "1"], "data_id", op.dataId);
    ExtendKeeps(a["attempt" := "1"]["data_id" := op.dataId], "accepted", op.accepted);
    assert "attempt"[0] == 'a' && "data_id"[0] == 'd' && "attempt"[1] == 't' && "accepted"[1] == 'c';
  }

  lemma {:induction false} AllAroundKeeps(m: Hash, ops: seq<HashOp>)
    requires SlottedHash(m) && "attempt" in m && AllAround(m, ops)
    ensures SlottedHash(Run(m, ops)) && "attempt" in Run(m, ops)
    ensures AttemptOf(Run(m, ops)) == if Resets(ops) > 0 then 1 else AttemptOf(m)
    decreases |ops|
  {
    hide SlottedHash, Around, Apply, AttemptOf;
    if ops != [] {
      AroundKeeps(m, ops[0]);
      AllAroundKeeps(Apply(m, ops[0]), ops[1..]);
    }
  }

  lemma ListingSlotted(rec: Record, m: Hash)
    requires Lists(rec, m) && SlottedHash(m)
    ensures Slotted(rec)
  {
    forall k | 0 <= k < |rec|
      ensures CleanPair(rec[k])
    {
      AsMapEntry(rec, k);
    }
  }

  lemma PrintIsClean(n: int)
    ensures CleanPair(Pair("attempt", Print(n)))
  {
    assert Print(n)[0] == '-' || IsDigit(Print(n)[0]);
    assert "attempt"[0] == 'a' && "src:"[0] == 's' && "complete"[0] == 'c';
  }

  // ---------------------------------------------------------------- one decision

  lemma DecisionFacts(rec: Record, m: Hash)
    requires SlottedHash(m) && Lists(rec, m) && "attempt" in m
    ensures var d := Decide(Flatten(rec));
            && (d.retry == RetryOk ==> AttemptOf(m) <= MAX_ATTEMPT && d.delaySeconds == Some(5 * AttemptOf(m)))
            && (d.retry == RetryOk ==> d.newAttempt == Print(AttemptOf(m) + 1) && IsHref(d.promoteHref))
            && (d.errorHref == "" || IsHref(d.errorHref))
  {
    ListingSlotted(rec, m);
    ScanRefinesReference(rec);
    WalkedStatus(rec, 0, Walked(false, None, None));
  }

  lemma DemoteKeeps(m: Hash, errorHref: string)
    requires SlottedHash(m) && "attempt" in m && (errorHref == "" || IsHref(errorHref))
    ensures var d := Demote(m, errorHref);
            SlottedHash(d) && "attempt" in d && d["attempt"] == m["attempt"]
  {
    assert errorHref == "" || (errorHref[0] == 'h' && "attempt"[0] == 'a');
    assert errorHref in m ==> CleanPair(Pair(errorHref, m[errorHref]));
    assert "error"[0] == 'e' && "src:"[0] == 's' && "attempt"[0] == 'a' && "complete"[0] == 'c';
  }

  lemma PromoteKeeps(d: Hash, promoteHref: string, n: int)
    requires SlottedHash(d) && IsHref(promoteHref)
    ensures var p := d[promoteHref := "queue"]["attempt" := Print(n)];
            SlottedHash(p) && AttemptOf(p) == n
  {
    assert promoteHref[0] == 'h' && "attempt"[0] == 'a';
    PrintIsClean(n);
    PrintRoundTrip(n);
    CleanHref(promoteHref, "queue");
  }

  lemma ScriptKeeps(m: Hash, promoteHref: string, n: int, errorHref: string)
    requires SlottedHash(m) && "attempt" in m && IsHref(promoteHref) && (errorHref == "" || IsHref(errorHref))
    ensures var s := ScriptRetry(m, promoteHref, Print(n), errorHref);
            && SlottedHash(s.0) && "attempt" in s.0
            && AttemptOf(s.0) == (if s.1 == 1 then n else AttemptOf(m))
  {
    hide SlottedHash, Demote;
    DemoteKeeps(m, errorHref);
    PromoteKeeps(Demote(m, errorHref), promoteHref, n);
  }

  lemma RoundSteps(m: Hash, r: Round)
    requires SlottedHash(m) && ValidRound(m, r) && "attempt" in m
    ensures SlottedHash(AfterRound(m, r)) && "attempt" in AfterRound(m, r)
    ensures SlottedHash(AtSnapshot(m, r)) && "attempt" in AtSnapshot(m, r)
    ensures AttemptOf(AtSnapshot(m, r)) == if Resets(r.before) > 0 then 1 else AttemptOf(m)
    ensures AttemptOf(AfterRound(m, r)) ==
            if Promoting(m, r) then AttemptOf(AtSnapshot(m, r)) + 1 else if Resets(r.between) > 0 then 1 else AttemptOf(AtSnapshot(m, r))
    ensures Promoting(m, r) ==> DecisionOf(r).retry == RetryOk
    ensures DecisionOf(r).retry == RetryOk ==>
            AttemptOf(AtSnapshot(m, r)) <= MAX_ATTEMPT && Seconds(r) == DECISION_DELAY_SECONDS + 5 * AttemptOf(AtSnapshot(m, r))
    ensures DecisionOf(r).retry != RetryOk ==> Seconds(r) == DECISION_DELAY_SECONDS
  {
    hide Decide, Run, AllAround, SlottedHash, AttemptOf, Lists, ScriptRetry;
    AllAroundKeeps(m, r.before);
    AllAroundKeeps(AtSnapshot(m, r), r.between);
    DecisionFacts(r.listing, AtSnapshot(m, r));
    var d := DecisionOf(r);
    if d.retry == RetryOk {
      ScriptKeeps(AtScript(m, r), d.promoteHref, AttemptOf(AtSnapshot(m, r)) + 1, d.errorHref);
    }
  }

  // ---------------------------------------------------------------- decisions that come too late

  lemma StaysOrCompletes(m: Hash, op: HashOp, h: string)
    requires Around(m, op) && h in Waiting(m)
    ensures h in Waiting(Apply(m, op)) || CompletedWaiting(m, op) == 1
  {
    assert h[0] == 'h';
  }

  /** While only waits and completions are written, a waiting href goes on waiting unless one completes. */
  lemma {:induction false} WaitsUnlessCompleted(m: Hash, ops: seq<HashOp>, h: string)
    requires AllAround(m, ops) && h in Waiting(m)
    ensures h in Waiting(Run(m, ops)) || Count(m, ops).completed >= 1
    decreases |ops|
  {
    if ops != [] {
      StaysOrCompletes(m, ops[0], h);
      hide Apply, Waiting, Around;
      if h in Waiting(Apply(m, ops[0])) { WaitsUnlessCompleted(Apply(m, ops[0]), ops[1..], h); }
    }
  }

  lemma PromotedWaits(rec: Record, m: Hash)
    requires SlottedHash(m) && Lists(rec, m) && Decide(Flatten(rec)).retry == RetryOk
    ensures Decide(Flatten(rec)).promoteHref in Waiting(m)
  {
    ListingSlotted(rec, m);
    ScanRefinesReference(rec);
    WalkedStatus(rec, 0, Walked(false, None, None));
    hide Decide, Flatten;
  }

  lemma ScriptPromotesWaiting(m: Hash, promoteHref: string, newAttempt: string, errorHref: string)
    requires promoteHref in Waiting(m)
    ensures ScriptRetry(m, promoteHref, newAttempt, errorHref).1 == 1
  {
    assert promoteHref[0] == 'h';
  }

  /** A decision that promotes nothing was overtaken by a completion. */
  lemma MissingIsOvertaken(m: Hash, r: Round)
    requires SlottedHash(m) && ValidRound(m, r) && "attempt" in m && Missing(m, r)
    ensures Count(AtSnapshot(m, r), r.between).completed >= 1
  {
    hide Decide, Flatten, Run, AllAround, SlottedHash, Lists, ScriptRetry, Waiting, Count;
    AllAroundKeeps(m, r.before);
    PromotedWaits(r.listing, AtSnapshot(m, r));
    var d := DecisionOf(r);
    WaitsUnlessCompleted(AtSnapshot(m, r), r.between, d.promoteHref);
    if d.promoteHref in Waiting(AtScript(m, r)) {
      ScriptPromotesWaiting(AtScript(m, r), d.promoteHref, d.newAttempt, d.errorHref);
    }
  }

  // ---------------------------------------------------------------- whole runs

  /** Every decision to retry promotes or was overtaken by a completion, and none waits over a minute. */
  lemma {:induction false} RestartsBounded(m: Hash, rounds: seq<Round>)
    requires SlottedHash(m) && "attempt" in m && ValidRounds(m, rounds)
    ensures Restarts(m, rounds) <= Promotions(m, rounds) + Overtaken(m, rounds)
    ensures Spent(m, rounds) <= Waited(m, rounds) + 60 * Overtaken(m, rounds)
    decreases |rounds|
  {
    hide Decide, DecisionOf, AfterRound, Promoting, Seconds, ValidRound, AttemptOf, SlottedHash, Count, AtSnapshot;
    if rounds != [] {
      var r, rest := rounds[0], rounds[1..];
      RoundSteps(m, r);
      if Missing(m, r) { MissingIsOvertaken(m, r); }
      RestartsBounded(AfterRound(m, r), rest);
    }
  }

  lemma {:induction false} BudgetSplits(a: int, b: int, c: int)
    requires a <= b <= c
    ensures Budget(a, c) == Budget(a, b) + Budget(b, c)
    decreases b - a
  {
    if a < b { BudgetSplits(a + 1, b, c); }
  }

  /** While nothing sets it back, the counter counts the promotions, never beyond 7, and the seconds waited for
      them are those of the attempts used up, however many waits were added meanwhile. */
  lemma {:induction false} PromotionsUseUpTheBudget(m: Hash, rounds: seq<Round>)
    requires SlottedHash(m) && "attempt" in m && ValidRounds(m, rounds) && AttemptOf(m) <= MAX_ATTEMPT + 1 && AllResets(rounds) == 0
    ensures AttemptOf(Final(m, rounds)) == AttemptOf(m) + Promotions(m, rounds) <= MAX_ATTEMPT + 1
    ensures Waited(m, rounds) == Budget(AttemptOf(m), AttemptOf(m) + Promotions(m, rounds))
    decreases |rounds|
  {
    hide Decide, DecisionOf, AfterRound, AtSnapshot, Promoting, Seconds, ValidRound, AttemptOf, SlottedHash, Resets;
    if rounds != [] {
      var r, rest := rounds[0], rounds[1..];
      RoundSteps(m, r);
      PromotionsUseUpTheBudget(AfterRound(m, r), rest);
      var a := AttemptOf(m);
      if Promoting(m, r) {
        BudgetSplits(a, a + 1, a + 1 + Promotions(AfterRound(m, r), rest));
      }
    }
  }

  /** Each reset gives back at most one whole budget. */
  lemma {:induction false} ResetsRenewTheBudget(m: Hash, rounds: seq<Round>)
    requires SlottedHash(m) && "attempt" in m && ValidRounds(m, rounds) && 1 <= AttemptOf(m) <= MAX_ATTEMPT + 1
    ensures Promotions(m, rounds) <= MAX_ATTEMPT + 1 - AttemptOf(m) + 6 * AllResets(rounds)
    ensures Waited(m, rounds) <= Budget(AttemptOf(m), MAX_ATTEMPT + 1) + 285 * AllResets(rounds)
    decreases |rounds|
  {
    hide Decide, DecisionOf, AfterRound, AtSnapshot, Promoting, Seconds, ValidRound, AttemptOf, SlottedHash, Resets, Budget;
    var a := AttemptOf(m);
    BudgetPositive(a, 7);
    BudgetAtMost(a);
    if rounds != [] {
      var r, rest := rounds[0], rounds[1..];
      RoundSteps(m, r);
      var b := AttemptOf(AtSnapshot(m, r));
      BudgetAtMost(b);
      if Promoting(m, r) { BudgetStep(b); }
      BudgetFromOne();
      ResetsRenewTheBudget(AfterRound(m, r), rest);
    }
  }

  lemma BudgetStep(a: int)
    requires a <= MAX_ATTEMPT
    ensures Budget(a, MAX_ATTEMPT + 1) == DECISION_DELAY_SECONDS + 5 * a + Budget(a + 1, MAX_ATTEMPT + 1)
  {
  }

  lemma BudgetAtMost(a: int)
    requires 1 <= a <= MAX_ATTEMPT + 1
    ensures 0 <= Budget(a, MAX_ATTEMPT + 1) <= 285
  {
    BudgetSplits(1, a, 7);
    BudgetPositive(1, a);
    BudgetPositive(a, 7);
    BudgetFromOne();
  }

  /** From the job's attempt 1, for each time the counter was set back and once more: at most six promotions and
      285 seconds of waiting for them, 315 with the decision that refuses. The retries that promote nothing are
      no more than the waiting hrefs that completed under them. Once the counter is at 7 every decision refuses
      after 30 seconds until it is set back. */
  lemma RetriesTerminate(m: Hash, rounds: seq<Round>)
    requires SlottedHash(m) && "attempt" in m && m["attempt"] == "1" && ValidRounds(m, rounds)
    ensures var budgets := 1 + AllResets(rounds);
            && Promotions(m, rounds) <= 6 * budgets && Waited(m, rounds) <= 285 * budgets
            && Restarts(m, rounds) <= 6 * budgets + Overtaken(m, rounds) && Spent(m, rounds) <= 285 * budgets + 60 * Overtaken(m, rounds)
    ensures AllResets(rounds) == 0 ==> Waited(m, rounds) + DECISION_DELAY_SECONDS <= 315
    ensures AllResets(rounds) == 0 && Promotions(m, rounds) == 6 ==>
              forall r :: ValidRound(Final(m, rounds), r) && Resets(r.before) == 0 ==>
                DecisionOf(r).retry != RetryOk && Seconds(r) == DECISION_DELAY_SECONDS
  {
    hide Decide, DecisionOf, AfterRound, AtSnapshot, Promoting, Seconds, ValidRound, SlottedHash, ValidRounds, Final, Promotions, Waited, Restarts, Spent, Overtaken, AllResets, Resets;
    RestartsBounded(m, rounds);
    PrintOne();
    PrintRoundTrip(1);
    BudgetFromOne();
    ResetsRenewTheBudget(m, rounds);
    if AllResets(rounds) == 0 && Promotions(m, rounds) == 6 {
      PromotionsUseUpTheBudget(m, rounds);
      var last := Final(m, rounds);
      FinalSlotted(m, rounds);
      forall r | ValidRound(last, r) && Resets(r.before) == 0
        ensures DecisionOf(r).retry != RetryOk && Seconds(r) == DECISION_DELAY_SECONDS
      {
        RoundSteps(last, r);
      }
    }
  }

  lemma BudgetFromOne()
    ensures Budget(1, 7) == 285
  {
    assert Budget(5, 7) == 115;
    assert Budget(3, 7) == 210;
  }

  lemma {:induction false} BudgetPositive(a: int, b: int)
    requires 0 <= a
    ensures Budget(a, b) >= 0
    decreases b - a
  {
    if a < b { BudgetPositive(a + 1, b); }
  }

  lemma {:induction false} FinalSlotted(m: Hash, rounds: seq<Round>)
    requires SlottedHash(m) && "attempt" in m && ValidRounds(m, rounds)
    ensures SlottedHash(Final(m, rounds)) && "attempt" in Final(m, rounds)
    decreases |rounds|
  {
    if rounds != [] {
      RoundSteps(m, rounds[0]);
      FinalSlotted(AfterRound(m, rounds[0]), rounds[1..]);
    }
  }
}
