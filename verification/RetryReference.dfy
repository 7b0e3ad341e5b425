/** The flat scan of decideRetry against a reading of the hash as (field, value) pairs, and its local
    conclusion against the atomic script that acts on it. */
module RetryReference {
  import opened Text
  import opened Records
  import opened DownloaderHash
  import opened Retry

  // ---------------------------------------------------------------- well-formed records

  predicate IsStatusWord(s: string) { s == "complete" || s == "queue" || s == "wait" }

  /** A pair whose words cannot be mistaken for another slot's. */
  predicate CleanPair(p: Pair)
  {
    && !IsStatusWord(p.field)
    && p.value != "attempt"
    && !("src:" <= p.value)
    && (p.value == "complete" ==> IsHref(p.field))
  }

  /** Distinct fields, and no reserved word outside its own slot. */
  ghost predicate Slotted(rec: Record)
  {
    Distinct(rec) && forall k :: 0 <= k < |rec| ==> CleanPair(rec[k])
  }

  // ---------------------------------------------------------------- the reference

  datatype Walked = Walked(complete: bool, queued: Option<string>, waiting: Option<string>)

  /** Reads pairs from k on, up to the first href in `wait`. */
  function Walk(rec: Record, k: nat, acc: Walked): Walked
    requires k <= |rec|
    decreases |rec| - k
  {
    if k == |rec| then acc
    else if HasStatus(rec[k], "wait") then acc.(waiting := Some(rec[k].field))
    else Walk(rec, k + 1, Note(acc, rec[k]))
  }

  predicate HasStatus(p: Pair, status: string) { IsHref(p.field) && p.value == status }

  function Note(acc: Walked, p: Pair): Walked
  {
    if HasStatus(p, "complete") then acc.(complete := true)
    else if HasStatus(p, "queue") then acc.(queued := Some(p.field))
    else acc
  }

  function WalkAll(rec: Record): Walked { Walk(rec, 0, Walked(false, None, None)) }

  function Get(m: Hash, field: string, default: string): string
  {
    if field in m then m[field] else default
  }

  function AttemptOf(m: Hash): int
  {
    if "attempt" in m then IntOrZero(m["attempt"]) else 0
  }

  predicate Blocked(m: Hash) { "error-nocache" in m || "error-nocache" in m.Values }

  predicate Retryable(m: Hash) { AttemptOf(m) <= MAX_ATTEMPT && !Blocked(m) }

  /** The record a decision leaves behind: counter bumped, href promoted, href demoted. */
  function Mutated(rec: Record, promote: Option<string>, newAttempt: string, demote: Option<string>): Record
  {
    var a := if promote.Some? then SetField(SetField(rec, "attempt", newAttempt), promote.value, "queue") else rec;
    if demote.Some? then SetField(a, demote.value, "error") else a
  }

  function Promotes(m: Hash, w: Walked): Option<string> { if Retryable(m) then w.waiting else None }

  function Demotes(w: Walked): Option<string> { if w.complete then None else w.queued }

  function NextAttempt(m: Hash): string { Print(AttemptOf(m) + 1) }

  /** The outputs of a decision, read off the hash by field name only. */
  function Outputs(m: Hash, w: Walked, payload: seq<string>): RetryResult
  {
    var promote, demote := Promotes(m, w), Demotes(w);
    RetryResult(
      if w.complete then RetryNoNeed else if promote.Some? then RetryOk else RetryNok,
      payload,
      promote,
      if promote.None? then None else if "attempt" in m then Some(5 * AttemptOf(m)) else Some(5),
      if promote.Some? then promote.value else "",
      if promote.Some? then Get(m, "src:" + promote.value, "") else "",
      if promote.Some? then NextAttempt(m) else "",
      if demote.Some? then demote.value else "",
      if demote.Some? then Get(m, "src:" + demote.value, "") else "")
  }

  function Reference(rec: Record): RetryResult
  {
    var m, w := AsMap(rec), WalkAll(rec);
    Outputs(m, w, Flatten(Mutated(rec, Promotes(m, w), NextAttempt(m), Demotes(w))))
  }

  // ---------------------------------------------------------------- positions in the flat array

  lemma IndexOfField(rec: Record, field: string)
    requires forall k :: 0 <= k < |rec| ==> rec[k].value != field
    ensures IndexOf(Flatten(rec), field) == if Position(rec, field) == -1 then -1 else 2 * Position(rec, field)
  {
    var flat, p := Flatten(rec), Position(rec, field);
    forall i | 0 <= i < (if p == -1 then |flat| else 2 * p)
      ensures flat[i] != field
    {
      var k := PairAt(rec, i);
    }
    if p != -1 {
      FlattenAt(rec, p);
      assert FirstAt(flat, field, 2 * p);
    }
  }

  lemma FlattenUpdate(rec: Record, k: nat, p: Pair)
    requires k < |rec| && p.field == rec[k].field
    ensures Flatten(rec[k := p]) == Flatten(rec)[2 * k + 1 := p.value]
  {
    var a, b := Flatten(rec[k := p]), Flatten(rec)[2 * k + 1 := p.value];
    forall i | 0 <= i < 2 * |rec|
      ensures a[i] == b[i]
    {
      var j := PairAt(rec, i);
      FlattenAt(rec[k := p], j);
    }
  }

  /** HSET of an existing field changes just its value slot; of a new field appends the pair. */
  lemma FlattenSet(rec: Record, field: string, value: string)
    ensures var k := Position(rec, field);
            Flatten(SetField(rec, field, value)) ==
            if k == -1 then Flatten(rec) + [field, value] else Flatten(rec)[2 * k + 1 := value]
  {
    var k := Position(rec, field);
    if k == -1 {
      assert (rec + [Pair(field, value)])[..|rec|] == rec;
    } else {
      FlattenUpdate(rec, k, Pair(field, value));
    }
  }

  /** The element after a field name in the flat array is that field's value. */
  lemma AfterByField(rec: Record, field: string)
    requires Distinct(rec) && forall k :: 0 <= k < |rec| ==> rec[k].value != field
    ensures var m := AsMap(rec);
            After(Flatten(rec), field) == if field in m then Some(m[field]) else None
    ensures field in Flatten(rec) <==> field in AsMap(rec)
  {
    var flat, p := Flatten(rec), Position(rec, field);
    IndexOfField(rec, field);
    Lookup(rec, field);
    if p >= 0 { FlattenAt(rec, p); }
    AfterAt(flat, field, p, AsMap(rec));
  }

  lemma AfterAt(arr: seq<string>, word: string, p: int, m: Hash)
    requires -1 <= p && 2 * p + 1 < |arr| && IndexOf(arr, word) == if p == -1 then -1 else 2 * p
    requires (p >= 0) == (word in m) && (p >= 0 ==> m[word] == arr[2 * p + 1])
    ensures After(arr, word) == if word in m then Some(m[word]) else None
    ensures word in arr <==> word in m
  {
  }

  ghost predicate NoSourceValues(rec: Record)
  {
    forall k :: 0 <= k < |rec| ==> !("src:" <= rec[k].value)
  }

  lemma SourceByField(rec: Record, href: string)
    requires Distinct(rec) && NoSourceValues(rec)
    ensures SourceOf(Flatten(rec), href) == Get(AsMap(rec), "src:" + href, "")
  {
    var field := "src:" + href;
    assert "src:" <= field;
    AfterByField(rec, field);
  }

  lemma AttemptByField(rec: Record)
    requires Slotted(rec)
    ensures AttemptValue(Flatten(rec)) == AttemptOf(AsMap(rec))
    ensures "attempt" in Flatten(rec) <==> "attempt" in AsMap(rec)
  {
    assert forall k :: 0 <= k < |rec| ==> CleanPair(rec[k]);
    AfterByField(rec, "attempt");
  }

  lemma BlockedByField(rec: Record)
    requires Distinct(rec)
    ensures "error-nocache" in Flatten(rec) <==> Blocked(AsMap(rec))
  {
    var flat, word := Flatten(rec), "error-nocache";
    AsMapDomain(rec, word);
    if word in flat {
      var i :| 0 <= i < |flat| && flat[i] == word;
      var k := PairAt(rec, i);
      AsMapEntry(rec, k);
    }
    if word in AsMap(rec) {
      var k :| 0 <= k < |rec| && rec[k].field == word;
      FlattenAt(rec, k);
      assert flat[2 * k] in flat;
    }
    if word in AsMap(rec).Values {
      AsMapValues(rec, word);
      var k :| 0 <= k < |rec| && rec[k].value == word;
      FlattenAt(rec, k);
      assert flat[2 * k + 1] in flat;
    }
  }

  // ---------------------------------------------------------------- the scan follows the walk

  lemma InPrefix(arr: seq<string>, n: nat, word: string)
    requires n < |arr|
    ensures word in arr[..n + 1] <==> word in arr[..n] || arr[n] == word
  {
    assert arr[..n + 1] == arr[..n] + [arr[n]];
  }

  /** What the scan knows after n positions, against what the walk knows. */
  ghost predicate Agree(flat: seq<string>, n: nat, acc: Walked)
    requires n <= |flat|
  {
    && acc.complete == ("complete" in flat[..n])
    && acc.waiting == None
    && acc.queued == if LastQueue(flat, n) == -1 then None else Some(flat[LastQueue(flat, n) - 1])
  }

  /** A pair at positions n, n + 1: status words only count in its value slot. */
  lemma PairSlots(flat: seq<string>, n: nat, p: Pair, word: string)
    requires n + 1 < |flat| && flat[n] == p.field && flat[n + 1] == p.value && CleanPair(p) && IsStatusWord(word)
    ensures flat[n] != word && !Slot(flat, n, word)
    ensures Slot(flat, n + 1, word) <==> HasStatus(p, word)
  {
  }

  lemma AgreeField(flat: seq<string>, n: nat, p: Pair, acc: Walked)
    requires n + 1 < |flat| && flat[n] == p.field && flat[n + 1] == p.value && CleanPair(p) && Agree(flat, n, acc)
    ensures Agree(flat, n + 1, acc)
  {
    PairSlots(flat, n, p, "queue");
    PairSlots(flat, n, p, "complete");
    InPrefix(flat, n, "complete");
    assert LastQueue(flat, n + 1) == LastQueue(flat, n);
  }

  lemma AgreeValue(flat: seq<string>, n: nat, p: Pair, acc: Walked)
    requires n + 1 < |flat| && flat[n] == p.field && flat[n + 1] == p.value && CleanPair(p) && Agree(flat, n + 1, acc)
    ensures Agree(flat, n + 2, Note(acc, p))
  {
    PairSlots(flat, n, p, "queue");
    InPrefix(flat, n + 1, "complete");
    assert LastQueue(flat, n + 2) == if HasStatus(p, "queue") then n + 1 else LastQueue(flat, n + 1);
  }

  ghost predicate NoWaitBefore(flat: seq<string>, n: nat)
  {
    forall i :: 0 <= i < n ==> !Slot(flat, i, "wait")
  }

  /** The scan ends where the walk ends, knowing the same. */
  ghost predicate SameEnd(flat: seq<string>, w: Walked)
  {
    var e := Scan(flat);
    w == Walked(e.complete, if e.q == -1 then None else Some(flat[e.q - 1]), if e.stop == -1 then None else Some(flat[e.stop - 1]))
  }

  lemma AgreeAtStart(flat: seq<string>)
    ensures Agree(flat, 0, Walked(false, None, None))
  {
  }

  lemma NoWaitExtends(flat: seq<string>, n: nat)
    requires NoWaitBefore(flat, n) && !Slot(flat, n, "wait")
    ensures NoWaitBefore(flat, n + 1)
  {
  }

  lemma WaitEnds(flat: seq<string>, n: nat, acc: Walked, href: string)
    requires 0 < n < |flat| && NoWaitBefore(flat, n) && Slot(flat, n, "wait") && flat[n - 1] == href && Agree(flat, n, acc)
    ensures SameEnd(flat, acc.(waiting := Some(href)))
  {
    FirstWaitIs(flat, n);
    assert Seen(flat) == n;
  }

  lemma NoWaitAtAll(flat: seq<string>, acc: Walked)
    requires NoWaitBefore(flat, |flat|) && Agree(flat, |flat|, acc)
    ensures SameEnd(flat, acc)
  {
    assert FirstWait(flat, 0) == -1;
    assert Seen(flat) == |flat|;
  }

  /** One pair: either the scan stops here, or it goes on knowing what the walk knows. */
  lemma PairStep(flat: seq<string>, n: nat, p: Pair, acc: Walked)
    requires n + 1 < |flat| && flat[n] == p.field && flat[n + 1] == p.value && CleanPair(p)
    requires Agree(flat, n, acc) && NoWaitBefore(flat, n)
    ensures HasStatus(p, "wait") ==> SameEnd(flat, acc.(waiting := Some(p.field)))
    ensures !HasStatus(p, "wait") ==> Agree(flat, n + 2, Note(acc, p)) && NoWaitBefore(flat, n + 2)
  {
    PairSlots(flat, n, p, "wait");
    AgreeField(flat, n, p, acc);
    NoWaitExtends(flat, n);
    if HasStatus(p, "wait") {
      WaitEnds(flat, n + 1, acc, p.field);
    } else {
      AgreeValue(flat, n, p, acc);
      NoWaitExtends(flat, n + 1);
    }
  }

  lemma {:induction false} ScanFollowsWalk(rec: Record, flat: seq<string>, k: nat, acc: Walked)
    requires Slotted(rec) && flat == Flatten(rec) && k <= |rec| && Agree(flat, 2 * k, acc) && NoWaitBefore(flat, 2 * k)
    ensures SameEnd(flat, Walk(rec, k, acc))
    decreases |rec| - k
  {
    if k < |rec| {
      FlattenAt(rec, k);
      PairStep(flat, 2 * k, rec[k], acc);
      if !HasStatus(rec[k], "wait") {
        ScanFollowsWalk(rec, flat, k + 1, Note(acc, rec[k]));
      }
    } else {
      NoWaitAtAll(flat, acc);
    }
  }

  // ---------------------------------------------------------------- the refinement

  /** The pair at an odd position that holds a status word after an href. */
  lemma PairOfSlot(rec: Record, i: int, word: string) returns (k: nat)
    requires Slotted(rec) && IsStatusWord(word) && Slot(Flatten(rec), i, word)
    ensures k < |rec| && i == 2 * k + 1 && HasStatus(rec[k], word) && Flatten(rec)[i - 1] == rec[k].field
  {
    k := PairAt(rec, i);
    FlattenAt(rec, k);
    PairSlots(Flatten(rec), 2 * k, rec[k], word);
  }

  /** Setting a field other than a source label leaves every source label alone. */
  lemma SourceUnchanged(rec: Record, field: string, value: string, href: string)
    requires Distinct(rec) && NoSourceValues(rec) && field != "src:" + href && !("src:" <= value)
    ensures var upd := SetField(rec, field, value);
            && Distinct(upd) && NoSourceValues(upd)
            && Get(AsMap(upd), "src:" + href, "") == Get(AsMap(rec), "src:" + href, "")
  {
    SetFieldAsMap(rec, field, value);
  }

  lemma PositionUnique(rec: Record, k: nat)
    requires Distinct(rec) && k < |rec|
    ensures Position(rec, rec[k].field) == k
  {
    var j := Position(rec, rec[k].field);
    assert j >= 0 && rec[j].field == rec[k].field;
  }

  /** Setting the field at a known position. */
  lemma FlattenSetAt(rec: Record, k: nat, field: string, value: string)
    requires Distinct(rec) && k < |rec| && rec[k].field == field
    ensures Flatten(SetField(rec, field, value)) == Flatten(rec)[2 * k + 1 := value]
    ensures SetField(rec, field, value)[k] == Pair(field, value)
    ensures |SetField(rec, field, value)| == |rec|
    ensures forall j :: 0 <= j < |rec| ==> SetField(rec, field, value)[j].field == rec[j].field
    ensures Distinct(SetField(rec, field, value))
  {
    PositionUnique(rec, k);
    FlattenSet(rec, field, value);
  }

  lemma PrintStart(n: int)
    ensures Print(n) != "" && Print(n)[0] != 's'
  {
  }

  lemma BumpByField(rec: Record, newAttempt: string)
    requires Slotted(rec) && newAttempt == Print(AttemptOf(AsMap(rec)) + 1)
    ensures BumpAttempt(Flatten(rec)) == Flatten(SetField(rec, "attempt", newAttempt))
  {
    AttemptByField(rec);
    CounterPosition(rec);
    FlattenSet(rec, "attempt", newAttempt);
    PrintOne();
    hide IndexOf, Flatten, SetField, Position, AttemptValue, AttemptOf, AsMap, Print, Slotted;
  }

  /** The counter's name is at the place of its field, and its value after it. */
  lemma CounterPosition(rec: Record)
    requires Slotted(rec)
    ensures IndexOf(Flatten(rec), "attempt") == if Position(rec, "attempt") == -1 then -1 else 2 * Position(rec, "attempt")
    ensures Position(rec, "attempt") == -1 ==> AttemptOf(AsMap(rec)) == 0
  {
    assert forall k :: 0 <= k < |rec| ==> CleanPair(rec[k]);
    IndexOfField(rec, "attempt");
    AttemptByField(rec);
    hide IntOrZero;
  }

  /** Neither the counter nor a promotion touches a source label. */
  lemma PromotedSources(rec: Record, href: string, newAttempt: string, origin: string)
    requires Distinct(rec) && NoSourceValues(rec) && IsHref(href) && newAttempt != "" && newAttempt[0] != 's'
    ensures var rec1 := SetField(rec, "attempt", newAttempt);
            var rec2 := SetField(rec1, href, "queue");
            && SourceOf(Flatten(rec1), origin) == Get(AsMap(rec), "src:" + origin, "")
            && SourceOf(Flatten(rec2), origin) == Get(AsMap(rec), "src:" + origin, "")
  {
    var rec1 := SetField(rec, "attempt", newAttempt);
    assert ("src:" + origin)[0] == 's' && href[0] == 'h';
    SourceUnchanged(rec, "attempt", newAttempt, origin);
    SourceByField(rec1, origin);
    SourceUnchanged(rec1, href, "queue", origin);
    SourceByField(SetField(rec1, href, "queue"), origin);
  }

  /** The flat array after the counter and the promotion, as a record. */
  lemma PromotedRecord(rec: Record, j: nat, newAttempt: string)
    requires Slotted(rec) && j < |rec| && HasStatus(rec[j], "wait")
    requires newAttempt == Print(AttemptOf(AsMap(rec)) + 1)
    ensures var rec1 := SetField(rec, "attempt", newAttempt);
            var rec2 := SetField(rec1, rec[j].field, "queue");
            && BumpAttempt(Flatten(rec)) == Flatten(rec1)
            && Flatten(rec1)[2 * j + 1 := "queue"] == Flatten(rec2)
            && Distinct(rec2) && |rec2| >= |rec| && (forall i :: 0 <= i < |rec| ==> rec2[i].field == rec[i].field)
  {
    var rec1 := SetField(rec, "attempt", newAttempt);
    BumpByField(rec, newAttempt);
    SetFieldPositions(rec, "attempt", newAttempt);
    assert rec1[j].field == rec[j].field;
    FlattenSetAt(rec1, j, rec[j].field, "queue");
  }

  /** Demoting the queue slot the scan saw is demoting that href. */
  lemma DemotedRecord(rec: Record, middle: Record, q: int)
    requires Slotted(rec) && Slot(Flatten(rec), q, "queue")
    requires Distinct(middle) && |middle| >= |rec| && forall i :: 0 <= i < |rec| ==> middle[i].field == rec[i].field
    ensures q < |Flatten(middle)| && Flatten(middle)[q - 1] == Flatten(rec)[q - 1]
    ensures Flatten(middle)[q := "error"] == Flatten(SetField(middle, Flatten(rec)[q - 1], "error"))
  {
    var i := PairOfSlot(rec, q, "queue");
    FlattenAt(middle, i);
    FlattenSetAt(middle, i, rec[i].field, "error");
  }

  /** What the promotion leaves in the flat array, against the hash. */
  ghost predicate Promoted(flat: seq<string>, stop: int, m: Hash, middle: seq<string>)
    requires stop == -1 || 0 < stop < |flat|
  {
    var promoting := stop != -1 && ShouldRetry(flat);
    && AttemptValue(flat) == AttemptOf(m)
    && ("attempt" in flat <==> "attempt" in m)
    && ("error-nocache" in flat <==> Blocked(m))
    && middle == (if promoting then BumpAttempt(flat)[stop := "queue"] else flat)
    && (promoting ==> SourceOf(BumpAttempt(flat), flat[stop - 1]) == Get(m, "src:" + flat[stop - 1], ""))
    && (forall href :: SourceOf(middle, href) == Get(m, "src:" + href, ""))
  }

  /** The record in between, after the promotion if there is one. */
  lemma MiddleRecord(rec: Record, stop: int) returns (middle: Record)
    requires Slotted(rec) && (stop == -1 || Slot(Flatten(rec), stop, "wait"))
    ensures Promoted(Flatten(rec), stop, AsMap(rec), Flatten(middle))
    ensures middle == Mutated(rec, if stop != -1 && Retryable(AsMap(rec)) then Some(Flatten(rec)[stop - 1]) else None, NextAttempt(AsMap(rec)), None)
    ensures Distinct(middle) && |middle| >= |rec| && forall i :: 0 <= i < |rec| ==> middle[i].field == rec[i].field
  {
    AttemptByField(rec);
    BlockedByField(rec);
    assert NoSourceValues(rec) by { assert forall k :: 0 <= k < |rec| ==> CleanPair(rec[k]); }
    if stop != -1 && ShouldRetry(Flatten(rec)) {
      var j := PairOfSlot(rec, stop, "wait");
      var newAttempt := NextAttempt(AsMap(rec));
      PrintStart(AttemptOf(AsMap(rec)) + 1);
      PromotedRecord(rec, j, newAttempt);
      middle := SetField(SetField(rec, "attempt", newAttempt), rec[j].field, "queue");
      forall href
        ensures SourceOf(Flatten(middle), href) == Get(AsMap(rec), "src:" + href, "")
        ensures SourceOf(BumpAttempt(Flatten(rec)), href) == Get(AsMap(rec), "src:" + href, "")
      {
        PromotedSources(rec, rec[j].field, newAttempt, href);
      }
    } else {
      middle := rec;
      forall href ensures SourceOf(Flatten(rec), href) == Get(AsMap(rec), "src:" + href, "") { SourceByField(rec, href); }
    }
  }

  lemma AssembleIsOutputs(flat: seq<string>, stop: int, hasComplete: bool, q: int, m: Hash, w: Walked, middle: seq<string>, payload: seq<string>)
    requires (stop == -1 || 0 < stop < |flat|) && (q == -1 || 0 < q < |flat|)
    requires w == Walked(hasComplete, if q == -1 then None else Some(flat[q - 1]), if stop == -1 then None else Some(flat[stop - 1]))
    requires Promoted(flat, stop, m, middle)
    requires q != -1 ==> q < |middle| && middle[q - 1] == flat[q - 1]
    requires payload == if q != -1 && !hasComplete then middle[q := "error"] else middle
    ensures Assemble(flat, stop, hasComplete, q) == Outputs(m, w, payload)
  {
    hide BumpAttempt, SourceOf, AttemptOf, AttemptValue, Blocked, Get;
  }

  lemma AssembleIsReference(rec: Record, flat: seq<string>)
    requires Slotted(rec) && flat == Flatten(rec) && SameEnd(flat, WalkAll(rec))
    ensures Decide(flat) == Reference(rec)
  {
    var ScanEnd(stop, _, q) := Scan(flat);
    var m, w := AsMap(rec), WalkAll(rec);
    var middle := MiddleRecord(rec, stop);
    var last := middle;
    if q != -1 {
      DemotedRecord(rec, middle, q);
      if !w.complete { last := SetField(middle, flat[q - 1], "error"); }
    }
    assert last == Mutated(rec, Promotes(m, w), NextAttempt(m), Demotes(w));
    AssembleIsOutputs(flat, stop, w.complete, q, m, w, Flatten(middle), Flatten(last));
  }

  /** On every well-formed record the flat scan computes what the walk over pairs says, in every output
      and in the array it leaves behind. */
  lemma ScanRefinesReference(rec: Record)
    requires Slotted(rec)
    ensures Decide(Flatten(rec)) == Reference(rec)
  {
    var flat := Flatten(rec);
    AgreeAtStart(flat);
    ScanFollowsWalk(rec, flat, 0, Walked(false, None, None));
    AssembleIsReference(rec, flat);
  }
}
