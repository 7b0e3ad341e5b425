/** What every interleaving of writes keeps about the status of each href. Nothing is assumed of the
    arguments of the two scripts, so the retry arguments may come from an arbitrarily stale snapshot. */
module HrefStatus {
  import opened Text
  import opened DownloaderHash

  /** The status of an href, in the order it can only go up. */
  function Rank(m: Hash, h: string): nat
  {
    if h !in m then 0
    else if m[h] == "wait" then 1
    else if m[h] == "queue" then 2
    else if m[h] == "error" then 3
    else if m[h] == "complete" then 4
    else 5
  }

  const ABSENT := 0
  const WAITING := 1
  const QUEUED := 2
  const ERRORED := 3
  const COMPLETED := 4

  /** The status changes there are. */
  predicate Move(before: nat, after: nat)
  {
    || before == after
    || (before == ABSENT && (after == WAITING || after == QUEUED))
    || (before == WAITING && after == QUEUED)
    || (before == QUEUED && after == ERRORED)
    || (before != ABSENT && after == COMPLETED)
  }

  /** The two blind HSETs are given an href that is not a field yet. */
  predicate Fresh(m: Hash, op: HashOp)
  {
    match op
    case WriteJob(href, _, _, _, _, _, _) => IsHref(href) && href !in m
    case RecordWait(href, _) => IsHref(href) && href !in m
    case _ => true
  }

  predicate FreshRun(m: Hash, ops: seq<HashOp>)
    decreases |ops|
  {
    ops == [] || (Fresh(m, ops[0]) && FreshRun(Apply(m, ops[0]), ops[1..]))
  }

  function Run(m: Hash, ops: seq<HashOp>): Hash
    decreases |ops|
  {
    if ops == [] then m else Run(Apply(m, ops[0]), ops[1..])
  }

  lemma StepMoves(m: Hash, op: HashOp, h: string)
    requires Fresh(m, op) && IsHref(h)
    ensures Move(Rank(m, h), Rank(Apply(m, op), h))
    ensures Rank(m, h) == ABSENT && Rank(Apply(m, op), h) == QUEUED <==> op.WriteJob? && op.href == h
    ensures Rank(m, h) != WAITING && Rank(Apply(m, op), h) == WAITING <==> op.RecordWait? && op.href == h
    ensures Rank(m, h) == WAITING && Rank(Apply(m, op), h) == QUEUED <==>
            op.RetryTransition? && op.promoteHref == h && Rank(m, h) == WAITING
    ensures Rank(m, h) == QUEUED && Rank(Apply(m, op), h) == ERRORED <==>
            op.RetryTransition? && op.errorHref == h && Rank(m, h) == QUEUED
    ensures Rank(m, h) != COMPLETED && Rank(Apply(m, op), h) == COMPLETED <==>
            op.CompleteHref? && op.href == h && Rank(m, h) != ABSENT && Rank(m, h) != COMPLETED
  {
    assert h[0] == 'h';
  }

  /** Along any run the status of an href only moves forward, so `complete` is never left, an errored
      href is never queued again and a promoted one never waits again. */
  lemma {:induction false} StatusOnlyAdvances(m: Hash, ops: seq<HashOp>, h: string)
    requires FreshRun(m, ops) && IsHref(h) && Rank(m, h) <= COMPLETED
    ensures Rank(m, h) <= Rank(Run(m, ops), h) <= COMPLETED
    ensures Rank(m, h) == ERRORED ==> Rank(Run(m, ops), h) in {ERRORED, COMPLETED}
    ensures Rank(m, h) == COMPLETED ==> Run(m, ops)[h] == "complete"
    decreases |ops|
  {
    if ops != [] {
      StepMoves(m, ops[0], h);
      StatusOnlyAdvances(Apply(m, ops[0]), ops[1..], h);
    }
  }

  // ---------------------------------------------------------------- the freshness condition is exact

  /** The href a blind HSET names. */
  function BlindTarget(op: HashOp): Option<string>
  {
    match op
    case WriteJob(href, _, _, _, _, _, _) => Some(href)
    case RecordWait(href, _) => Some(href)
    case _ => None
  }

  /** A write keeps every completed href completed exactly when it is not a blind HSET on one of them. */
  lemma KeepsCompleteIff(m: Hash, op: HashOp)
    ensures (forall h :: IsHref(h) && Rank(m, h) == COMPLETED ==> Rank(Apply(m, op), h) == COMPLETED) <==>
            !(BlindTarget(op).Some? && IsHref(BlindTarget(op).value) && Rank(m, BlindTarget(op).value) == COMPLETED)
  {
    if BlindTarget(op).Some? {
      var t := BlindTarget(op).value;
      assert IsHref(t) ==> t[0] == 'h' && Rank(Apply(m, op), t) != COMPLETED;
    }
    forall h | IsHref(h) && Rank(m, h) == COMPLETED && BlindTarget(op) != Some(h)
      ensures Rank(Apply(m, op), h) == COMPLETED
    {
      assert h[0] == 'h';
    }
  }

  // ---------------------------------------------------------------- conservation of waits

  /** The hrefs waiting. */
  function Waiting(m: Hash): set<string>
  {
    set h | h in m && IsHref(h) && m[h] == "wait"
  }

  function Recorded(op: HashOp): nat { if op.RecordWait? then 1 else 0 }

  function Promoted(m: Hash, op: HashOp): nat
  {
    if op.RetryTransition? && op.promoteHref in Waiting(m) then 1 else 0
  }

  function CompletedWaiting(m: Hash, op: HashOp): nat
  {
    if op.CompleteHref? && op.href in Waiting(m) then 1 else 0
  }

  datatype Tally = Tally(recorded: nat, promoted: nat, completed: nat)

  function Count(m: Hash, ops: seq<HashOp>): Tally
    decreases |ops|
  {
    if ops == [] then Tally(0, 0, 0)
    else
      var t := Count(Apply(m, ops[0]), ops[1..]);
      Tally(t.recorded + Recorded(ops[0]), t.promoted + Promoted(m, ops[0]), t.completed + CompletedWaiting(m, ops[0]))
  }

  /** How often the retry script answered 1 along a run. */
  function Answers(m: Hash, ops: seq<HashOp>): nat
    decreases |ops|
  {
    if ops == [] then 0
    else
      (if ops[0].RetryTransition? then ScriptRetry(m, ops[0].promoteHref, ops[0].newAttempt, ops[0].errorHref).1 else 0)
      + Answers(Apply(m, ops[0]), ops[1..])
  }

  /** A retry decision names an href to promote or none. */
  predicate NamesHref(op: HashOp) { op.RetryTransition? ==> op.promoteHref == "" || IsHref(op.promoteHref) }

  /** LUA_RETRY answers 1 exactly when the href it was given was waiting. */
  lemma PromotedIsTheAnswer(m: Hash, op: HashOp)
    requires op.RetryTransition? && NamesHref(op)
    ensures ScriptRetry(m, op.promoteHref, op.newAttempt, op.errorHref).1 == Promoted(m, op)
  {
  }

  /** So the answers of the script count the promotions. */
  lemma {:induction false} AnswersCountPromotions(m: Hash, ops: seq<HashOp>)
    requires forall k :: 0 <= k < |ops| ==> NamesHref(ops[k])
    ensures Answers(m, ops) == Count(m, ops).promoted
    decreases |ops|
  {
    if ops != [] {
      if ops[0].RetryTransition? { PromotedIsTheAnswer(m, ops[0]); }
      AnswersCountPromotions(Apply(m, ops[0]), ops[1..]);
      hide Apply, ScriptRetry;
    }
  }

  lemma WaitingByRank(m: Hash, h: string)
    ensures h in Waiting(m) <==> IsHref(h) && Rank(m, h) == WAITING
  {
  }

  /** The href an operation takes out of the waiting set. */
  function Removed(m: Hash, op: HashOp): set<string>
  {
    if op.RetryTransition? && op.promoteHref in Waiting(m) then {op.promoteHref}
    else if op.CompleteHref? && op.href in Waiting(m) then {op.href}
    else {}
  }

  function Added(op: HashOp): set<string> { if op.RecordWait? then {op.href} else {} }

  lemma StepWaitingMember(m: Hash, op: HashOp, m': Hash, h: string)
    requires Fresh(m, op) && m' == Apply(m, op)
    ensures h in Waiting(m') <==> (h in Waiting(m) && h !in Removed(m, op)) || h in Added(op)
    ensures h in Added(op) ==> h !in Waiting(m)
  {
    WaitingByRank(m, h);
    WaitingByRank(m', h);
    if IsHref(h) { StepMoves(m, op, h); }
  }

  lemma StepWaiting(m: Hash, op: HashOp, m': Hash)
    requires Fresh(m, op) && m' == Apply(m, op)
    ensures |Waiting(m')| + Promoted(m, op) + CompletedWaiting(m, op) == |Waiting(m)| + Recorded(op)
  {
    var before, after, removed, added := Waiting(m), Waiting(m'), Removed(m, op), Added(op);
    forall h
      ensures h in after <==> h in before - removed + added
      ensures h in added ==> h !in before
    {
      StepWaitingMember(m, op, m', h);
    }
    assert after == (before - removed) + added;
    assert |removed| == Promoted(m, op) + CompletedWaiting(m, op);
  }

  /** Every recorded wait is still waiting, or was promoted once, or completed while it waited. */
  lemma {:induction false} WaitsAreConserved(m: Hash, ops: seq<HashOp>)
    requires FreshRun(m, ops)
    ensures var t := Count(m, ops);
            |Waiting(Run(m, ops))| + t.promoted + t.completed == |Waiting(m)| + t.recorded
    decreases |ops|
  {
    if ops != [] {
      StepWaiting(m, ops[0], Apply(m, ops[0]));
      WaitsAreConserved(Apply(m, ops[0]), ops[1..]);
    }
  }

  /** On a hash that starts empty, promotions, and so the script's answers 1, never exceed the waits recorded. */
  lemma PromotionsBounded(ops: seq<HashOp>)
    requires FreshRun(map[], ops)
    ensures Count(map[], ops).promoted <= Count(map[], ops).recorded
    ensures (forall k :: 0 <= k < |ops| ==> NamesHref(ops[k])) ==> Answers(map[], ops) <= Count(map[], ops).recorded
  {
    WaitsAreConserved(map[], ops);
    assert Waiting(map[]) == {};
    if forall k :: 0 <= k < |ops| ==> NamesHref(ops[k]) { AnswersCountPromotions(map[], ops); }
  }
}
