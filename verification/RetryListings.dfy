/** What the listing order and stray words do to decideRetry: for which hashes every listing gives the same
    decision, and when a `complete` that is no status is taken for one. */
module RetryListings {
  import opened Text
  import opened Records
  import opened DownloaderHash
  import opened Retry
  import opened RetryReference
  import opened RetryTheorems
  import opened RetryBudget

  // ---------------------------------------------------------------- listings with a chosen first pair

  lemma {:induction false} AsMapCons(p: Pair, rest: Record)
    requires forall i :: 0 <= i < |rest| ==> rest[i].field != p.field
    ensures AsMap([p] + rest) == AsMap(rest)[p.field := p.value]
  {
    var rec := [p] + rest;
    if rest == [] {
      assert rec[..0] == [];
    } else {
      AsMapCons(p, rest[..|rest| - 1]);
      assert rec[..|rec| - 1] == [p] + rest[..|rest| - 1];
    }
  }

  lemma {:induction false} SomeListing(m: Hash) returns (rec: Record)
    ensures Lists(rec, m)
    decreases |m|
  {
    if m == map[] {
      rec := [];
    } else {
      var f :| f in m;
      rec := ListingFrom(m, f);
    }
  }

  /** Every field can be the one listed first. */
  lemma {:induction false} ListingFrom(m: Hash, f: string) returns (rec: Record)
    requires f in m
    ensures Lists(rec, m) && rec != [] && rec[0] == Pair(f, m[f])
    decreases |m|, 0
  {
    var others := m - {f};
    assert others.Keys == m.Keys - {f};
    assert |others.Keys| < |m.Keys|;
    var rest := SomeListing(others);
    forall i | 0 <= i < |rest|
      ensures rest[i].field != f
    {
      AsMapEntry(rest, i);
    }
    AsMapCons(Pair(f, m[f]), rest);
    rec := [Pair(f, m[f])] + rest;
    assert others[f := m[f]] == m;
  }

  // ---------------------------------------------------------------- decisions on a hash

  ghost predicate SomeWaits(m: Hash) { exists f :: f in m && IsHref(f) && m[f] == "wait" }

  ghost predicate SomeCompleted(m: Hash) { exists f :: f in m && IsHref(f) && m[f] == "complete" }

  /** A status seen in a listing is one of the hash, and the other way round. */
  lemma StatusInListing(rec: Record, m: Hash, status: string)
    requires Lists(rec, m)
    ensures (exists i :: 0 <= i < |rec| && HasStatus(rec[i], status)) <==> (exists f :: f in m && IsHref(f) && m[f] == status)
  {
    if i :| 0 <= i < |rec| && HasStatus(rec[i], status) {
      AsMapEntry(rec, i);
      assert rec[i].field in m;
    }
    if f :| f in m && IsHref(f) && m[f] == status {
      AsMapDomain(rec, f);
      var i :| 0 <= i < |rec| && rec[i].field == f;
      AsMapEntry(rec, i);
      assert HasStatus(rec[i], status);
    }
  }

  /** The decision on one listing. */
  lemma DecisionAt(rec: Record, m: Hash) returns (n: nat)
    requires Lists(rec, m) && SlottedHash(m)
    ensures Horizon(rec, n) && n <= |rec|
    ensures Decide(Flatten(rec)).retry ==
            if CompleteBefore(rec, n) then RetryNoNeed else if n < |rec| && Retryable(m) then RetryOk else RetryNok
    ensures Decide(Flatten(rec)).promoteHref == if n < |rec| && Retryable(m) then rec[n].field else ""
  {
    ListingSlotted(rec, m);
    ScanRefinesReference(rec);
    n := HorizonOf(rec);
  }

  lemma FirstDecides(rec: Record, m: Hash)
    requires Lists(rec, m) && SlottedHash(m) && rec != []
    ensures HasStatus(rec[0], "wait") ==> Decide(Flatten(rec)).retry != RetryNoNeed
    ensures HasStatus(rec[0], "complete") ==> Decide(Flatten(rec)).retry == RetryNoNeed
    ensures HasStatus(rec[0], "wait") && Retryable(m) ==> Decide(Flatten(rec)).promoteHref == rec[0].field
  {
    var n := DecisionAt(rec, m);
    hide Decide, Flatten, Retryable;
    if HasStatus(rec[0], "wait") {
      assert n == 0;
    } else if HasStatus(rec[0], "complete") {
      assert n > 0;
      assert CompleteBefore(rec, n);
    }
  }

  /** Without both a waiting and a completed href the hash decides by itself. */
  lemma HashDecides(rec: Record, m: Hash)
    requires Lists(rec, m) && SlottedHash(m) && !(SomeWaits(m) && SomeCompleted(m))
    ensures Decide(Flatten(rec)).retry ==
            if SomeCompleted(m) then RetryNoNeed else if SomeWaits(m) && Retryable(m) then RetryOk else RetryNok
  {
    var n := DecisionAt(rec, m);
    StatusInListing(rec, m, "wait");
    StatusInListing(rec, m, "complete");
    hide Decide, Flatten, Retryable;
    if SomeCompleted(m) {
      assert n == |rec|;
    }
  }

  /** All listings of a hash are decided alike exactly when it does not hold both a waiting and a completed
      href. */
  lemma ListingsAgreeIff(m: Hash)
    requires SlottedHash(m)
    ensures (forall r1, r2 :: Lists(r1, m) && Lists(r2, m) ==> Decide(Flatten(r1)).retry == Decide(Flatten(r2)).retry) <==>
            !(SomeWaits(m) && SomeCompleted(m))
  {
    hide Decide, Flatten, Retryable, SlottedHash, Lists;
    if SomeWaits(m) && SomeCompleted(m) {
      var w :| w in m && IsHref(w) && m[w] == "wait";
      var c :| c in m && IsHref(c) && m[c] == "complete";
      var r1 := ListingFrom(m, w);
      var r2 := ListingFrom(m, c);
      FirstDecides(r1, m);
      FirstDecides(r2, m);
      assert Decide(Flatten(r1)).retry != Decide(Flatten(r2)).retry;
    } else {
      forall r1, r2 | Lists(r1, m) && Lists(r2, m)
        ensures Decide(Flatten(r1)).retry == Decide(Flatten(r2)).retry
      {
        HashDecides(r1, m);
        HashDecides(r2, m);
      }
    }
  }

  ghost predicate AtMostOneWaits(m: Hash)
  {
    forall f, g :: f in m && g in m && IsHref(f) && IsHref(g) && m[f] == "wait" && m[g] == "wait" ==> f == g
  }

  lemma OnlyWaiting(rec: Record, m: Hash, f: string)
    requires Lists(rec, m) && SlottedHash(m) && AtMostOneWaits(m) && Retryable(m)
    requires f in m && IsHref(f) && m[f] == "wait"
    ensures Decide(Flatten(rec)).promoteHref == f
  {
    var n := DecisionAt(rec, m);
    StatusInListing(rec, m, "wait");
    hide Decide, Flatten, Retryable;
    assert exists i :: 0 <= i < |rec| && HasStatus(rec[i], "wait");
    assert n < |rec|;
    AsMapEntry(rec, n);
  }

  lemma NothingPromoted(rec: Record, m: Hash)
    requires Lists(rec, m) && SlottedHash(m) && (!Retryable(m) || !SomeWaits(m))
    ensures Decide(Flatten(rec)).promoteHref == ""
  {
    var n := DecisionAt(rec, m);
    StatusInListing(rec, m, "wait");
    hide Decide, Flatten, Retryable;
  }

  /** All listings of a hash promote the same href exactly when at most one waits or none may be retried. */
  lemma PromotionsAgreeIff(m: Hash)
    requires SlottedHash(m)
    ensures (forall r1, r2 :: Lists(r1, m) && Lists(r2, m) ==> Decide(Flatten(r1)).promoteHref == Decide(Flatten(r2)).promoteHref) <==>
            AtMostOneWaits(m) || !Retryable(m)
  {
    hide Decide, Flatten, Retryable, SlottedHash, Lists;
    if AtMostOneWaits(m) || !Retryable(m) {
      forall r1, r2 | Lists(r1, m) && Lists(r2, m)
        ensures Decide(Flatten(r1)).promoteHref == Decide(Flatten(r2)).promoteHref
      {
        if Retryable(m) && SomeWaits(m) {
          var f :| f in m && IsHref(f) && m[f] == "wait";
          OnlyWaiting(r1, m, f);
          OnlyWaiting(r2, m, f);
        } else {
          NothingPromoted(r1, m);
          NothingPromoted(r2, m);
        }
      }
    } else {
      var f, g :| f in m && g in m && IsHref(f) && IsHref(g) && m[f] == "wait" && m[g] == "wait" && f != g;
      var r1 := ListingFrom(m, f);
      var r2 := ListingFrom(m, g);
      FirstDecides(r1, m);
      FirstDecides(r2, m);
      assert Decide(Flatten(r1)).promoteHref != Decide(Flatten(r2)).promoteHref;
    }
  }

  // ---------------------------------------------------------------- words that are not statuses

  /** No field is named like a status. */
  ghost predicate PlainNames(rec: Record) { forall i :: 0 <= i < |rec| ==> !IsStatusWord(rec[i].field) }

  lemma SlotIsPair(rec: Record, i: int)
    requires PlainNames(rec)
    ensures Slot(Flatten(rec), i, "wait") <==>
            (exists k :: 0 <= k < |rec| && i == 2 * k + 1 && HasStatus(rec[k], "wait"))
  {
    var flat := Flatten(rec);
    hide Flatten, IsHref;
    if 0 < i < |flat| {
      var k := PairAt(rec, i);
      FlattenAt(rec, k);
      if i == 2 * k {
        assert !IsStatusWord(rec[k].field);
      } else {
        assert flat[i - 1] == rec[k].field;
      }
    }
    if k :| 0 <= k < |rec| && i == 2 * k + 1 && HasStatus(rec[k], "wait") {
      FlattenAt(rec, k);
    }
  }

  /** The scan stops at the value of the first waiting pair. */
  lemma StopsAtHorizon(rec: Record, n: nat)
    requires PlainNames(rec) && Horizon(rec, n) && n <= |rec|
    ensures FirstWait(Flatten(rec), 0) == if n < |rec| then 2 * n + 1 else -1
  {
    var flat := Flatten(rec);
    var stop := FirstWait(flat, 0);
    hide Flatten, FirstWait, HasStatus, Slot;
    if n < |rec| {
      SlotIsPair(rec, 2 * n + 1);
      assert 2 * n + 1 < |flat|;
    }
    if stop != -1 { SlotIsPair(rec, stop); }
  }

  lemma CompleteSeen(rec: Record, n: nat, seen: nat)
    requires PlainNames(rec) && n <= |rec| && seen == (if n < |rec| then 2 * n + 1 else 2 * |rec|)
    ensures "complete" in Flatten(rec)[..seen] <==> exists i :: 0 <= i < n && rec[i].value == "complete"
  {
    var flat := Flatten(rec);
    hide Flatten;
    if "complete" in flat[..seen] {
      var i :| 0 <= i < seen && flat[i] == "complete";
      var k := PairAt(rec, i);
      assert !IsStatusWord(rec[k].field);
      assert rec[k].value == "complete" && k < n;
    }
    if i :| 0 <= i < n && rec[i].value == "complete" {
      FlattenAt(rec, i);
      assert flat[..seen][2 * i + 1] == "complete";
    }
  }

  /** On any record whose field names are no status words: no retry is needed exactly when some value before
      the first waiting href is `complete`, whatever its field. */
  lemma NoNeedIff(rec: Record, n: nat)
    requires PlainNames(rec) && Horizon(rec, n) && n <= |rec|
    ensures Decide(Flatten(rec)).retry == RetryNoNeed <==> exists i :: 0 <= i < n && rec[i].value == "complete"
  {
    StopsAtHorizon(rec, n);
    CompleteSeen(rec, n, Seen(Flatten(rec)));
    hide Flatten, FirstWait, Horizon, BumpAttempt, ShouldRetry, SourceOf;
  }

  /** The scan is misled, giving up retries although no href it looked at is complete, exactly when a field
      that is no href holds the word before the first waiting href and no href does. */
  lemma MisledIff(rec: Record, n: nat)
    requires PlainNames(rec) && Horizon(rec, n) && n <= |rec|
    ensures Decide(Flatten(rec)).retry == RetryNoNeed && !CompleteBefore(rec, n) <==>
            (exists i :: 0 <= i < n && rec[i].value == "complete" && !IsHref(rec[i].field)) &&
            (forall i :: 0 <= i < n && rec[i].value == "complete" ==> !IsHref(rec[i].field))
  {
    NoNeedIff(rec, n);
    hide Decide, Flatten, Horizon;
    if CompleteBefore(rec, n) {
      var i :| 0 <= i < n && HasStatus(rec[i], "complete");
      assert rec[i].value == "complete" && IsHref(rec[i].field);
    }
  }
}
