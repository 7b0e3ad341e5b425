/** decideRetry: the scan of one flat HGETALL snapshot, mutated in place, that decides whether another
    href is worth trying. */
module Retry {
  import opened Text
  import opened DownloaderHash

  datatype Decision = RetryOk | RetryNok | RetryNoNeed

  datatype RetryResult = RetryResult(
    retry: Decision,
    payload: seq<string>,
    extracted: Option<string>,
    delaySeconds: Option<int>,
    promoteHref: string,
    promoteSource: string,
    newAttempt: string,
    errorHref: string,
    errorSource: string)

  const MAX_ATTEMPT := 6

  // ---------------------------------------------------------------- specification on the flat array

  /** Position i holds a status word right after something that looks like an href. */
  predicate Slot(arr: seq<string>, i: int, status: string)
  {
    0 < i < |arr| && arr[i] == status && IsHref(arr[i - 1])
  }

  /** The first position in [from, |arr|) with `wait` after an href, or -1. */
  function FirstWait(arr: seq<string>, from: nat): (r: int)
    requires from <= |arr|
    ensures r == -1 || (from <= r < |arr| && Slot(arr, r, "wait"))
    ensures forall i :: from <= i < (if r == -1 then |arr| else r) ==> !Slot(arr, i, "wait")
    decreases |arr| - from
  {
    if from == |arr| then -1 else if Slot(arr, from, "wait") then from else FirstWait(arr, from + 1)
  }

  /** The last position below n with `queue` after an href, or -1. */
  function LastQueue(arr: seq<string>, n: nat): (r: int)
    requires n <= |arr|
    ensures r == -1 || (0 < r < n && Slot(arr, r, "queue"))
    ensures forall i :: r < i < n ==> !Slot(arr, i, "queue")
  {
    if n == 0 then -1 else if Slot(arr, n - 1, "queue") then n - 1 else LastQueue(arr, n - 1)
  }

  /** The element right after the first occurrence of a word. */
  function After(arr: seq<string>, word: string): Option<string>
  {
    var idx := IndexOf(arr, word);
    if idx != -1 && idx + 1 < |arr| then Some(arr[idx + 1]) else None
  }

  function SourceOf(arr: seq<string>, href: string): string
  {
    var origin := After(arr, "src:" + href);
    if origin.Some? then origin.value else ""
  }

  function AttemptValue(arr: seq<string>): int
  {
    var counter := After(arr, "attempt");
    if counter.Some? then IntOrZero(counter.value) else 0
  }

  predicate ShouldRetry(arr: seq<string>)
  {
    AttemptValue(arr) <= MAX_ATTEMPT && "error-nocache" !in arr
  }

  /** The array after the attempt counter was bumped. A trailing "attempt" without a value gets one. */
  function BumpAttempt(arr: seq<string>): (bumped: seq<string>)
    ensures |bumped| >= |arr|
  {
    var idx := IndexOf(arr, "attempt");
    if idx == -1 then arr + ["attempt", "1"]
    else if idx + 1 < |arr| then arr[idx + 1 := Print(AttemptValue(arr) + 1)]
    else arr + [Print(AttemptValue(arr) + 1)]
  }

  /** The outcome, given where the scan stopped (-1: never), whether it saw `complete`, and the last queue
      position it saw. */
  function Assemble(arr: seq<string>, stop: int, hasComplete: bool, q: int): RetryResult
    requires stop == -1 || 0 < stop < |arr|
    requires q == -1 || 0 < q < |arr|
  {
    var promoting := stop != -1 && ShouldRetry(arr);
    var promoted := if promoting then BumpAttempt(arr)[stop := "queue"] else arr;
    var erring := q != -1 && !hasComplete;
    RetryResult(
      if hasComplete then RetryNoNeed else if promoting then RetryOk else RetryNok,
      if erring then promoted[q := "error"] else promoted,
      if promoting then Some(arr[stop - 1]) else None,
      if !promoting then None else if "attempt" in arr then Some(5 * AttemptValue(arr)) else Some(5),
      if promoting then arr[stop - 1] else "",
      if promoting then SourceOf(BumpAttempt(arr), arr[stop - 1]) else "",
      if promoting then Print(AttemptValue(arr) + 1) else "",
      if erring then promoted[q - 1] else "",
      if erring then SourceOf(promoted, promoted[q - 1]) else "")
  }

  /** The part of the array the scan looks at: everything before the first waiting href. */
  function Seen(arr: seq<string>): (n: nat)
    ensures n <= |arr|
  {
    var stop := FirstWait(arr, 0);
    if stop == -1 then |arr| else stop
  }

  datatype ScanEnd = ScanEnd(stop: int, complete: bool, q: int)

  /** What the scan has found when it ends. */
  function Scan(arr: seq<string>): (e: ScanEnd)
    ensures e.stop == -1 || Slot(arr, e.stop, "wait")
    ensures e.q == -1 || Slot(arr, e.q, "queue")
  {
    ScanEnd(FirstWait(arr, 0), "complete" in arr[..Seen(arr)], LastQueue(arr, Seen(arr)))
  }

  function Decide(arr: seq<string>): RetryResult
  {
    var e := Scan(arr);
    Assemble(arr, e.stop, e.complete, e.q)
  }

  // ---------------------------------------------------------------- the loop

  /** The branch taken at the first waiting href: position i of the scan. */
  method TryPromote(hashArray: seq<string>, i: nat) returns (ok: bool, arr: seq<string>, delay: int, source: string, newAttempt: string)
    requires Slot(hashArray, i, "wait")
    ensures ok == ShouldRetry(hashArray)
    ensures !ok ==> arr == hashArray
    ensures ok ==> arr == BumpAttempt(hashArray)[i := "queue"]
    ensures ok ==> delay == (if "attempt" in hashArray then 5 * AttemptValue(hashArray) else 5)
    ensures ok ==> source == SourceOf(BumpAttempt(hashArray), hashArray[i - 1])
    ensures ok ==> newAttempt == Print(AttemptValue(hashArray) + 1)
  {
    hide Print, IntOrZero, SourceOf;
    arr, delay, source, newAttempt := hashArray, 0, "", "";
    var waitHref := arr[i - 1];
    var attemptValue := 0;
    var attemptIndex := IndexOf(arr, "attempt");
    if attemptIndex != -1 && attemptIndex + 1 < |arr| {
      attemptValue := IntOrZero(arr[attemptIndex + 1]);
    }
    assert attemptValue == AttemptValue(hashArray);
    assert attemptIndex == IndexOf(hashArray, "attempt") && (attemptIndex != -1 <==> "attempt" in hashArray);
    var hasErrorNoCache := "error-nocache" in arr;
    ok := attemptValue <= MAX_ATTEMPT && !hasErrorNoCache;
    if ok {
      if attemptIndex != -1 {
        if attemptIndex + 1 < |arr| {
          arr := arr[attemptIndex + 1 := Print(attemptValue + 1)];
        } else {
          arr := arr + [Print(attemptValue + 1)];
        }
        delay := 5 * attemptValue;
      } else {
        arr := arr + ["attempt", "1"];
        delay := 5;
      }
      assert arr == BumpAttempt(hashArray);
      source := SourceOf(arr, waitHref);
      newAttempt := Print(attemptValue + 1);
      arr := arr[i := "queue"];
    }
  }

  method DecideRetry(hashArray: seq<string>) returns (result: RetryResult)
    ensures result == Decide(hashArray)
  {
    hide SourceOf, AttemptValue, ShouldRetry, BumpAttempt, Print, IntOrZero, IsHref, FirstWait;
    assert hashArray[..|hashArray|] == hashArray;
    var arr := hashArray;
    var retry := RetryNok;
    var extracted: Option<string> := None;
    var delaySeconds: Option<int> := None;
    var promoteHref, promoteSource, newAttempt, errorHref, errorSource := "", "", "", "", "";
    var queueIndex := -1;
    var hasComplete := false;
    ghost var stop := -1;
    var i := 0;
    while i < |arr|
      invariant stop == -1
      invariant 0 <= i <= |arr| && arr == hashArray
      invariant retry == RetryNok && extracted == None && delaySeconds == None
      invariant promoteHref == promoteSource == newAttempt == ""
      invariant forall j :: 0 <= j < i ==> !Slot(hashArray, j, "wait")
      invariant hasComplete == ("complete" in hashArray[..i])
      invariant queueIndex == LastQueue(hashArray, i)
    {
      var value := arr[i];
      assert hashArray[..i + 1] == hashArray[..i] + [value];
      if value == "complete" {
        hasComplete := true;
      }
      if value == "queue" {
        if i > 0 && IsHref(arr[i - 1]) {
          queueIndex := i;
        }
      } else if value == "wait" {
        if i > 0 && IsHref(arr[i - 1]) {
          stop := i;
          FirstWaitIs(hashArray, i);
          var ok, mutated, delay, source, attempt := TryPromote(arr, i);
          if ok {
            retry, delaySeconds, promoteHref, promoteSource := RetryOk, Some(delay), arr[i - 1], source;
            newAttempt, extracted := attempt, Some(arr[i - 1]);
            arr := mutated;
          }
          break;
        }
      }
      i := i + 1;
    }
    assert Scan(hashArray) == ScanEnd(stop, hasComplete, queueIndex);
    hide FirstWait, LastQueue, Slot, Scan;
    if hasComplete {
      retry := RetryNoNeed;
    }
    if queueIndex != -1 && !hasComplete {
      errorHref := arr[queueIndex - 1];
      errorSource := SourceOf(arr, arr[queueIndex - 1]);
      arr := arr[queueIndex := "error"];
    }
    result := RetryResult(retry, arr, extracted, delaySeconds, promoteHref, promoteSource, newAttempt, errorHref, errorSource);
    assert result == Assemble(hashArray, stop, hasComplete, queueIndex);
  }

  lemma FirstWaitIs(arr: seq<string>, i: nat)
    requires Slot(arr, i, "wait") && forall j :: 0 <= j < i ==> !Slot(arr, j, "wait")
    ensures FirstWait(arr, 0) == i
  {
  }
}
