/** The bounds of the retry budget are reached: six promotions and 285 seconds do happen, and not one more. */
module RetryReached {
  import opened Text
  import opened Records
  import opened DownloaderHash
  import opened HrefStatus
  import opened Retry
  import opened RetryReference
  import opened RetryTheorems
  import opened RetryBudget
  import opened RetryListings

  /** The sixth attempt counted is the last that is granted another, the seventh is refused. */
  lemma SixIsTheLimit(rec: Record, n: int, a: int)
    requires Slotted(rec) && FirstWaiting(rec, n) && !CompleteBefore(rec, n)
    requires var m := AsMap(rec); "attempt" in m && m["attempt"] == Print(a) && "error-nocache" !in m && "error-nocache" !in m.Values
    ensures Decide(Flatten(rec)).retry == RetryOk <==> a <= 6
  {
    PrintRoundTrip(a);
    if Decide(Flatten(rec)).retry == RetryOk {
      RetryOkIff(rec, Decide(Flatten(rec)).promoteHref);
    }
    RetryOkIff(rec, rec[n].field);
    hide Decide, Flatten, AsMap, Print, IntOrZero, CompleteBefore;
  }

  // ---------------------------------------------------------------- one promotion after another

  /** Retries are possible: nothing is complete and caching was not refused. */
  ghost predicate Promising(m: Hash)
  {
    SlottedHash(m) && "attempt" in m && !Blocked(m) && !SomeCompleted(m)
  }

  lemma GrantedFrom(m: Hash, rec: Record)
    requires Promising(m) && AttemptOf(m) <= 6 && Lists(rec, m) && Waiting(m) != {}
    ensures Decide(Flatten(rec)).retry == RetryOk
  {
    ListingSlotted(rec, m);
    var n := HorizonOf(rec);
    var w :| w in Waiting(m);
    StatusInListing(rec, m, "wait");
    assert n < |rec|;
    forall i | 0 <= i < n
      ensures !HasStatus(rec[i], "complete")
    {
      AsMapEntry(rec, i);
    }
    RetryOkIff(rec, rec[n].field);
    hide Decide, Flatten, AsMap, IntOrZero;
  }

  lemma PromotionFrees(m: Hash, p: string, n: int, e: string)
    requires p in Waiting(m) && (e == "" || IsHref(e))
    ensures Waiting(ScriptRetry(m, p, Print(n), e).0) == Waiting(m) - {p}
  {
    assert p[0] == 'h' && "attempt"[0] == 'a';
    hide Print;
  }

  lemma PromotionCompletesNone(m: Hash, p: string, n: int, e: string)
    requires !SomeCompleted(m) && p in Waiting(m)
    ensures !SomeCompleted(ScriptRetry(m, p, Print(n), e).0)
  {
    var after := ScriptRetry(m, p, Print(n), e).0;
    assert |"error"| == 5 && |"queue"| == 5 && "attempt"[0] == 'a';
    hide Print;
    forall f | f in after && IsHref(f)
      ensures after[f] != "complete"
    {
      assert f[0] == 'h';
    }
  }

  lemma PromotionBlocksNone(m: Hash, p: string, n: int, e: string)
    requires !Blocked(m) && p in Waiting(m) && (e == "" || IsHref(e))
    ensures !Blocked(ScriptRetry(m, p, Print(n), e).0)
  {
    assert p[0] == 'h' && "attempt"[0] == 'a' && "error-nocache"[0] == 'e' && |"error"| == 5 && |"queue"| == 5;
    NotRefused(n);
    hide Print;
  }

  /** A promotion takes one href out of the waiting ones and completes or blocks nothing. */
  lemma PromotionKeeps(m: Hash, p: string, n: int, e: string)
    requires Promising(m) && p in Waiting(m) && (e == "" || IsHref(e))
    ensures var after := ScriptRetry(m, p, Print(n), e).0;
            Waiting(after) == Waiting(m) - {p} && !Blocked(after) && !SomeCompleted(after)
  {
    PromotionFrees(m, p, n, e);
    PromotionBlocksNone(m, p, n, e);
    PromotionCompletesNone(m, p, n, e);
    hide ScriptRetry, Waiting, Blocked, SomeCompleted, SlottedHash, Print;
  }

  lemma NotRefused(n: int)
    ensures Print(n) != "error-nocache"
  {
    assert Print(n)[0] == '-' || IsDigit(Print(n)[0]);
    assert "error-nocache"[0] == 'e';
  }

  /** As long as enough hrefs wait, promotions use the budget up to its end. */
  lemma {:induction false} BudgetReached(m: Hash) returns (rounds: seq<Round>)
    requires Promising(m) && 1 <= AttemptOf(m) <= 7 && |Waiting(m)| >= 7 - AttemptOf(m)
    ensures ValidRounds(m, rounds) && AllResets(rounds) == 0
    ensures Promotions(m, rounds) == 7 - AttemptOf(m) && Waited(m, rounds) == Budget(AttemptOf(m), 7)
    decreases 7 - AttemptOf(m)
  {
    if AttemptOf(m) == 7 {
      rounds := [];
    } else {
      var a := AttemptOf(m);
      var r, after := OnePromotion(m);
      var rest := BudgetReached(after);
      rounds := [r] + rest;
      assert rounds[1..] == rest;
      BudgetStep(a);
      hide AfterRound, ValidRound, Promoting, Seconds, Promising, Waiting, AttemptOf, Budget;
    }
  }

  lemma NoResets(m: Hash, r: Round)
    requires r.before == [] && r.between == []
    ensures Resets(r.before) == 0 && Resets(r.between) == 0 && AtSnapshot(m, r) == m
  {
  }

  lemma OnePromotion(m: Hash) returns (r: Round, after: Hash)
    requires Promising(m) && 1 <= AttemptOf(m) <= 6 && |Waiting(m)| >= 7 - AttemptOf(m)
    ensures ValidRound(m, r) && r.before == [] && r.between == [] && Promoting(m, r) && after == AfterRound(m, r)
    ensures Promising(after) && AttemptOf(after) == AttemptOf(m) + 1 && |Waiting(after)| >= 7 - AttemptOf(after)
    ensures Seconds(r) == DECISION_DELAY_SECONDS + 5 * AttemptOf(m)
  {
    hide Decide, Flatten, ScriptRetry, SlottedHash, AttemptOf, Waiting, Blocked, SomeCompleted, Lists, Resets;
    var rec := SomeListing(m);
    r := Round([], rec, []);
    assert Run(m, []) == m && AllAround(m, []);
    hide Run, AllAround;
    GrantedFrom(m, rec);
    PromotedWaits(rec, m);
    DecisionFacts(rec, m);
    var d := DecisionOf(r);
    ScriptPromotesWaiting(m, d.promoteHref, d.newAttempt, d.errorHref);
    RoundSteps(m, r);
    PromotionKeeps(m, d.promoteHref, AttemptOf(m) + 1, d.errorHref);
    after := AfterRound(m, r);
    NoResets(m, r);
  }

  /** From the job's attempt 1, with six or more hrefs waiting, nothing complete and caching not refused: the
      six promotions and 285 seconds that are never exceeded do happen. */
  lemma SixHappen(m: Hash) returns (rounds: seq<Round>)
    requires Promising(m) && m["attempt"] == "1" && |Waiting(m)| >= 6
    ensures ValidRounds(m, rounds) && AllResets(rounds) == 0 && Promotions(m, rounds) == 6 && Waited(m, rounds) == 285
  {
    PrintOne();
    PrintRoundTrip(1);
    BudgetFromOne();
    rounds := BudgetReached(m);
    hide ValidRounds, Promotions, Waited, Waiting;
  }
}
