/** What a decision of decideRetry means for the hash it was taken from. */
module RetryTheorems {
  import opened Text
  import opened Records
  import opened DownloaderHash
  import opened Retry
  import opened RetryReference

  // ---------------------------------------------------------------- the decision, by quantifiers

  /** Pair n is the first href in `wait`. */
  predicate FirstWaiting(rec: Record, n: int)
  {
    0 <= n < |rec| && HasStatus(rec[n], "wait") && forall i :: 0 <= i < n ==> !HasStatus(rec[i], "wait")
  }

  predicate NoneWaiting(rec: Record) { forall i :: 0 <= i < |rec| ==> !HasStatus(rec[i], "wait") }

  /** How far into the listing the decision looks. */
  predicate Horizon(rec: Record, n: int)
  {
    FirstWaiting(rec, n) || (n == |rec| && NoneWaiting(rec))
  }

  predicate CompleteBefore(rec: Record, n: int)
    requires n <= |rec|
  {
    exists i :: 0 <= i < n && HasStatus(rec[i], "complete")
  }

  lemma {:induction false} WalkMeaning(rec: Record, k: nat, acc: Walked) returns (n: nat)
    requires k <= |rec| && acc.waiting == None
    requires forall i :: 0 <= i < k ==> !HasStatus(rec[i], "wait")
    requires acc.complete == CompleteBefore(rec, k)
    ensures Horizon(rec, n)
    ensures var w := Walk(rec, k, acc);
            && w.complete == CompleteBefore(rec, n)
            && w.waiting == (if n == |rec| then None else Some(rec[n].field))
    decreases |rec| - k
  {
    if k == |rec| || HasStatus(rec[k], "wait") {
      n := k;
    } else {
      assert CompleteBefore(rec, k + 1) == (CompleteBefore(rec, k) || HasStatus(rec[k], "complete")) by {
        if CompleteBefore(rec, k + 1) {
          var i :| 0 <= i < k + 1 && HasStatus(rec[i], "complete");
          assert i < k ==> CompleteBefore(rec, k);
        }
      }
      n := WalkMeaning(rec, k + 1, Note(acc, rec[k]));
    }
  }

  lemma HorizonUnique(rec: Record, m: int, n: int)
    requires Horizon(rec, m) && Horizon(rec, n)
    ensures m == n
  {
  }

  /** The walk in terms of the horizon. */
  lemma HorizonOf(rec: Record) returns (n: nat)
    ensures Horizon(rec, n) && n <= |rec|
    ensures WalkAll(rec).complete == CompleteBefore(rec, n)
    ensures WalkAll(rec).waiting == (if n == |rec| then None else Some(rec[n].field))
    ensures forall m :: Horizon(rec, m) ==> m == n
    ensures forall m :: FirstWaiting(rec, m) ==> m == n
  {
    n := WalkMeaning(rec, 0, Walked(false, None, None));
    forall m | Horizon(rec, m) ensures m == n { HorizonUnique(rec, m, n); }
    assert forall m :: FirstWaiting(rec, m) ==> Horizon(rec, m);
  }

  /** A retry is granted exactly when some href waits, none listed before the first waiting one is
      complete, at most six attempts were counted and caching was not refused; it promotes that first
      waiting href. What is listed after that href plays no part. */
  lemma RetryOkIff(rec: Record, href: string)
    requires Slotted(rec)
    ensures var d := Decide(Flatten(rec));
            d.retry == RetryOk && d.promoteHref == href <==>
            (exists n :: FirstWaiting(rec, n) && rec[n].field == href && !CompleteBefore(rec, n)) && MayRetry(AsMap(rec))
  {
    ScanRefinesReference(rec);
    var n := HorizonOf(rec);
    hide IntOrZero;
  }

  /** At most six attempts counted, and no word that refuses caching. */
  predicate MayRetry(m: Hash)
  {
    ("attempt" in m ==> IntOrZero(m["attempt"]) <= 6) && "error-nocache" !in m && "error-nocache" !in m.Values
  }

  /** Pair n is the last queued href before pair end. */
  predicate LastQueued(rec: Record, n: int, end: int)
  {
    0 <= n < end <= |rec| && HasStatus(rec[n], "queue") && forall i :: n < i < end ==> !HasStatus(rec[i], "queue")
  }

  /** The walk ends with the last queued href before its end; q is the pair it has so far, -1 for none. */
  lemma {:induction false} WalkQueued(rec: Record, k: nat, acc: Walked, end: nat, q: int) returns (last: int)
    requires k <= end <= |rec| && Horizon(rec, end) && acc.waiting == None
    requires q == -1 || LastQueued(rec, q, k)
    requires q == -1 ==> forall i :: 0 <= i < k ==> !HasStatus(rec[i], "queue")
    requires acc.queued == if q == -1 then None else Some(rec[q].field)
    ensures last == -1 || LastQueued(rec, last, end)
    ensures last == -1 ==> forall i :: 0 <= i < end ==> !HasStatus(rec[i], "queue")
    ensures Walk(rec, k, acc).queued == if last == -1 then None else Some(rec[last].field)
    decreases |rec| - k
  {
    if k < end {
      assert !HasStatus(rec[k], "wait");
      var next := if HasStatus(rec[k], "queue") then k else q;
      last := WalkQueued(rec, k + 1, Note(acc, rec[k]), end, next);
    } else {
      last := q;
    }
  }

  /** The outputs of the reference in terms of the walk. */
  lemma OutputsCarry(m: Hash, w: Walked, payload: seq<string>)
    ensures var d := Outputs(m, w, payload);
            && (w.waiting.Some? && MayRetry(m) ==>
                && d.extracted == w.waiting && d.promoteHref == w.waiting.value
                && d.promoteSource == (if "src:" + w.waiting.value in m then m["src:" + w.waiting.value] else "")
                && d.newAttempt == Print((if "attempt" in m then IntOrZero(m["attempt"]) else 0) + 1)
                && d.delaySeconds == Some(if "attempt" in m then 5 * IntOrZero(m["attempt"]) else 5))
            && (w.waiting.None? || !MayRetry(m) ==>
                d.extracted == None && d.promoteHref == "" && d.promoteSource == "" && d.newAttempt == "" && d.delaySeconds == None)
            && d.errorHref == (if !w.complete && w.queued.Some? then w.queued.value else "")
            && d.errorSource == (if !w.complete && w.queued.Some? && "src:" + w.queued.value in m then m["src:" + w.queued.value] else "")
  {
    hide IntOrZero, Print;
  }

  /** What a decision carries: on RETRY_OK the first waiting href with its recorded source, the next attempt and
      five seconds for each one before; and, unless something is complete before that, the last queued href
      before it, with its source, as the failed one. */
  lemma DecisionCarries(rec: Record, end: nat)
    requires Slotted(rec) && Horizon(rec, end)
    ensures var d, m := Decide(Flatten(rec)), AsMap(rec);
            && (end < |rec| && MayRetry(m) ==>
                && d.extracted == Some(rec[end].field) && d.promoteHref == rec[end].field
                && d.promoteSource == (if "src:" + rec[end].field in m then m["src:" + rec[end].field] else "")
                && d.newAttempt == Print((if "attempt" in m then IntOrZero(m["attempt"]) else 0) + 1)
                && d.delaySeconds == Some(if "attempt" in m then 5 * IntOrZero(m["attempt"]) else 5))
            && (end == |rec| || !MayRetry(m) ==>
                d.extracted == None && d.promoteHref == "" && d.promoteSource == "" && d.newAttempt == "" && d.delaySeconds == None)
            && (d.errorHref != "" ==> !CompleteBefore(rec, end) && exists n :: LastQueued(rec, n, end) && rec[n].field == d.errorHref)
            && (d.errorHref == "" ==> CompleteBefore(rec, end) || forall i :: 0 <= i < end ==> !HasStatus(rec[i], "queue"))
            && d.errorSource == (if d.errorHref != "" && "src:" + d.errorHref in m then m["src:" + d.errorHref] else "")
  {
    ScanRefinesReference(rec);
    var n := HorizonOf(rec);
    assert n == end;
    var m, w := AsMap(rec), WalkAll(rec);
    var last := WalkQueued(rec, 0, Walked(false, None, None), end, -1);
    var payload := Flatten(Mutated(rec, Promotes(m, w), NextAttempt(m), Demotes(w)));
    OutputsCarry(m, w, payload);
    assert Decide(Flatten(rec)) == Outputs(m, w, payload);
    if last != -1 { assert IsHref(rec[last].field) && rec[last].field != ""; }
    hide Decide, Flatten, Mutated, Walk, IntOrZero, Print, Outputs, AsMap, MayRetry, HasStatus, IsHref, FirstWaiting, NoneWaiting, CompleteBefore;
  }

  /** On such records no retry is needed exactly when some href listed before the first waiting one is complete. */
  lemma NoNeedOfSlotted(rec: Record)
    requires Slotted(rec)
    ensures Decide(Flatten(rec)).retry == RetryNoNeed <==> exists n :: Horizon(rec, n) && n <= |rec| && CompleteBefore(rec, n)
  {
    ScanRefinesReference(rec);
    var n := HorizonOf(rec);
  }

  // ---------------------------------------------------------------- the local array and the atomic script

  /** With no write in between, the array decideRetry leaves behind is the hash after LUA_RETRY with the
      arguments decideRetry returns; the script promotes exactly when there is something to promote. */
  lemma LocalEqualsScript(rec: Record)
    requires Slotted(rec)
    ensures var d, m := Decide(Flatten(rec)), AsMap(rec);
            var s := ScriptRetry(m, d.promoteHref, d.newAttempt, d.errorHref);
            && ToMap(d.payload) == s.0
            && (s.1 == 1 <==> d.extracted.Some?)
            && (d.retry == RetryOk ==> s.1 == 1)
  {
    ScanRefinesReference(rec);
    var m, w := AsMap(rec), WalkAll(rec);
    var promote, demote := Promotes(m, w), Demotes(w);
    WalkedStatus(rec, 0, Walked(false, None, None));
    ToMapOfFlatten(Mutated(rec, promote, NextAttempt(m), demote));
    MutatedAsMap(rec, promote, NextAttempt(m), demote);
    ScriptAsUpdates(m, promote, NextAttempt(m), demote);
  }

  /** The hrefs a walk reports have the status it reports them for. */
  lemma {:induction false} WalkedStatus(rec: Record, k: nat, acc: Walked)
    requires Distinct(rec) && k <= |rec| && acc.waiting == None
    requires acc.queued.Some? ==> IsHref(acc.queued.value) && acc.queued.value in AsMap(rec) && AsMap(rec)[acc.queued.value] == "queue"
    ensures var w, m := Walk(rec, k, acc), AsMap(rec);
            && (w.queued.Some? ==> IsHref(w.queued.value) && w.queued.value in m && m[w.queued.value] == "queue")
            && (w.waiting.Some? ==> IsHref(w.waiting.value) && w.waiting.value in m && m[w.waiting.value] == "wait")
    decreases |rec| - k
  {
    if k < |rec| {
      AsMapEntry(rec, k);
      if !HasStatus(rec[k], "wait") {
        WalkedStatus(rec, k + 1, Note(acc, rec[k]));
      }
    }
  }

  function Updated(m: Hash, promote: Option<string>, newAttempt: string, demote: Option<string>): Hash
  {
    var a := if promote.Some? then m["attempt" := newAttempt][promote.value := "queue"] else m;
    if demote.Some? then a[demote.value := "error"] else a
  }

  lemma MutatedAsMap(rec: Record, promote: Option<string>, newAttempt: string, demote: Option<string>)
    requires Distinct(rec)
    ensures AsMap(Mutated(rec, promote, newAttempt, demote)) == Updated(AsMap(rec), promote, newAttempt, demote)
  {
    var a := rec;
    if promote.Some? {
      SetFieldAsMap(rec, "attempt", newAttempt);
      SetFieldAsMap(SetField(rec, "attempt", newAttempt), promote.value, "queue");
      a := SetField(SetField(rec, "attempt", newAttempt), promote.value, "queue");
    }
    if demote.Some? { SetFieldAsMap(a, demote.value, "error"); }
  }

  /** LUA_RETRY on fields in the status it expects. */
  lemma ScriptAsUpdates(m: Hash, promote: Option<string>, newAttempt: string, demote: Option<string>)
    requires promote.Some? ==> IsHref(promote.value) && promote.value in m && m[promote.value] == "wait"
    requires demote.Some? ==> IsHref(demote.value) && demote.value in m && m[demote.value] == "queue"
    ensures var s := ScriptRetry(m, if promote.Some? then promote.value else "",
                                 if promote.Some? then newAttempt else "", if demote.Some? then demote.value else "");
            s.0 == Updated(m, promote, newAttempt, demote) && (s.1 == 1 <==> promote.Some?)
  {
    if promote.Some? { assert promote.value[0] == 'h'; }
    if demote.Some? { assert demote.value[0] == 'h'; }
    if promote.Some? && demote.Some? { assert promote.value != demote.value; }
  }

  lemma CleanHref(href: string, status: string)
    requires IsHref(href) && IsStatusWord(status)
    ensures CleanPair(Pair(href, status))
  {
    assert href[0] == 'h' && "src:"[0] == 's' && status[0] != 's';
  }
}
