/** The raw stream over whole runs: what is dispatched, what can be lost, and when the detector is right. */
module RawStreamRuns {
  import opened Text
  import opened StreamIds
  import opened RawStream

  ghost predicate Sound(cfg: Config, start: nat, s: State)
  {
    Cursor(s) && Anchored(cfg, s) && Accounted(start, s) && Bounded(cfg, s) && Alternating(s)
  }

  lemma InitiallySound(cfg: Config, s: State)
    requires Initial(cfg, s)
    ensures Sound(cfg, s.passed, s)
  {
  }

  lemma {:induction false} SoundRun(cfg: Config, start: nat, s: State, run: seq<Step>)
    requires Valid(cfg, s, run) && Sound(cfg, start, s)
    ensures Sound(cfg, start, After(cfg, s, run))
    decreases |run|
  {
    hide Next, Enabled, Cursor, Anchored, Accounted, Bounded, Alternating;
    if run != [] {
      CursorKept(cfg, s, run[0]);
      AccountedKept(cfg, start, s, run[0]);
      BoundedKept(cfg, s, run[0]);
      AlternatingKept(cfg, s, run[0]);
      SoundRun(cfg, start, Next(cfg, s, run[0]), run[1..]);
    }
  }

  // ---------------------------------------------------------------- dispatching

  /** Entries without topic or payload are skipped. */
  function NonEmpty(entries: seq<Entry>): seq<Entry>
  {
    if entries == [] then []
    else (if entries[0].topic != "" && entries[0].payload != "" then [entries[0]] else []) + NonEmpty(entries[1..])
  }

  function EntriesAt(appended: seq<Entry>, indices: seq<nat>): seq<Entry>
    requires forall k :: 0 <= k < |indices| ==> indices[k] < |appended|
  {
    seq(|indices|, k requires 0 <= k < |indices| => appended[indices[k]])
  }

  /** The entries handed to processEntry, in order. */
  function Dispatched(s: State): seq<Entry>
    requires forall k :: 0 <= k < |s.taken| ==> s.taken[k] < |s.appended|
  {
    NonEmpty(EntriesAt(s.appended, s.taken))
  }

  /** In every reachable state each entry behind the cursor was either read or evicted unread, and not both;
      nothing is read twice or out of order; the in-flight count is the size of the unsettled batches and
      below its bound; and the two loss events alternate. */
  lemma EntriesConserved(cfg: Config, s: State, run: seq<Step>)
    requires Initial(cfg, s) && Valid(cfg, s, run)
    ensures var e := After(cfg, s, run);
            && (forall i: nat :: s.passed <= i < e.passed ==> (i in e.taken <==> i !in e.lost))
            && (forall j, k :: 0 <= j < k < |e.taken| ==> e.taken[j] < e.taken[k])
            && |e.taken| + |e.lost| == From(e) - s.passed
            && e.inFlight == Sum(e.batches) && (e.inFlight == 0 || e.inFlight < cfg.maxInFlight + cfg.count)
            && Alternating(e)
  {
    InitiallySound(cfg, s);
    SoundRun(cfg, s.passed, s, run);
    hide After, Valid, Initial, Cursor;
  }

  // ---------------------------------------------------------------- exactly once

  /** The producer's cap never evicts an entry the consumer has not read. */
  predicate CapSparesUnread(cfg: Config, s: State, run: seq<Step>)
    requires Valid(cfg, s, run)
    decreases |run|
  {
    run == [] ||
    ((run[0].Append? ==> run[0].evicted == 0 || s.gone + run[0].evicted <= s.passed) &&
     CapSparesUnread(cfg, Next(cfg, s, run[0]), run[1..]))
  }

  lemma NoRange(lo: nat, hi: nat)
    requires hi <= lo
    ensures Range(lo, hi) == {}
  {
  }

  /** The consumer's own trim removes nothing it has not read. */
  lemma TrimRemovesOnlyRead(cfg: Config, s: State, removed: nat)
    requires Cursor(s) && Enabled(cfg, s, Trim(removed)) && cfg.marginMs >= 0
    ensures removed == 0 || s.gone + removed <= s.passed
    ensures Next(cfg, s, Trim(removed)).lost == s.lost
  {
    TrimSparesUnreadIff(s.lastId, cfg.marginMs);
    hide StreamIdMinusMs, ParseStreamId;
    assert removed > 0 ==> !Before(s.lastId, s.appended[s.gone + removed - 1].id);
    NoRange(From(s), s.gone + removed);
  }

  lemma LosslessStep(cfg: Config, s: State, step: Step)
    requires Enabled(cfg, s, step) && Cursor(s) && cfg.marginMs >= 0
    requires step.Append? ==> step.evicted == 0 || s.gone + step.evicted <= s.passed
    ensures Next(cfg, s, step).lost == s.lost
  {
    match step
    case Trim(removed) => TrimRemovesOnlyRead(cfg, s, removed);
    case Append(_, evicted) =>
      NoRange(From(s), s.gone + evicted);
    case _ =>
  }

  lemma {:induction false} NothingLost(cfg: Config, start: nat, s: State, run: seq<Step>)
    requires Valid(cfg, s, run) && Sound(cfg, start, s) && cfg.marginMs >= 0 && CapSparesUnread(cfg, s, run)
    ensures After(cfg, s, run).lost == s.lost
    decreases |run|
  {
    hide Next, Enabled, Cursor, Anchored, Accounted, Bounded, Alternating;
    if run != [] {
      SoundRun(cfg, start, s, [run[0]]);
      assert After(cfg, s, [run[0]]) == Next(cfg, s, run[0]);
      LosslessStep(cfg, s, run[0]);
      NothingLost(cfg, start, Next(cfg, s, run[0]), run[1..]);
    }
  }

  /** With a non-negative margin and a cap that spares unread entries, the consumer dispatches exactly the
      non-empty entries behind its cursor, each once, in the order they were appended. */
  lemma DispatchedExactlyOnce(cfg: Config, s: State, run: seq<Step>)
    requires Initial(cfg, s) && Valid(cfg, s, run) && cfg.marginMs >= 0 && CapSparesUnread(cfg, s, run)
    ensures var e := After(cfg, s, run);
            && s.passed <= e.passed <= |e.appended|
            && (forall k :: 0 <= k < |e.taken| ==> e.taken[k] < |e.appended|)
            && Dispatched(e) == NonEmpty(e.appended[s.passed..e.passed])
            && (e.passed == |e.appended| ==> Dispatched(e) == NonEmpty(e.appended[s.passed..]))
  {
    InitiallySound(cfg, s);
    hide After, Valid, CapSparesUnread, Initial, NonEmpty, Cursor, Accounted, Anchored, Bounded, Alternating, Dispatched;
    SoundRun(cfg, s.passed, s, run);
    NothingLost(cfg, s.passed, s, run);
    InitiallyLossless(cfg, s);
    LosslessDispatch(s.passed, After(cfg, s, run));
  }

  lemma InitiallyLossless(cfg: Config, s: State)
    requires Initial(cfg, s)
    ensures s.lost == {}
  {
  }

  /** Where nothing was lost, what was taken is everything up to the cursor. */
  lemma LosslessDispatch(start: nat, e: State)
    requires Cursor(e) && Accounted(start, e) && e.lost == {}
    ensures start <= e.passed <= |e.appended| && forall k :: 0 <= k < |e.taken| ==> e.taken[k] < |e.appended|
    ensures Dispatched(e) == NonEmpty(e.appended[start..e.passed])
    ensures e.passed == |e.appended| ==> Dispatched(e) == NonEmpty(e.appended[start..])
  {
    hide NonEmpty;
    assert |e.taken| == e.passed - start;
    assert EntriesAt(e.appended, e.taken) == e.appended[start..e.passed];
    if e.passed == |e.appended| { assert e.appended[start..] == e.appended[start..e.passed]; }
  }

  // ---------------------------------------------------------------- no false warning

  predicate CapNeverEvicts(run: seq<Step>)
  {
    forall k :: 0 <= k < |run| ==> run[k].Append? ==> run[k].evicted == 0
  }

  /** The entry at the cursor is still there once there is one. */
  predicate CursorEntryKept(cfg: Config, s: State) { s.lastId != cfg.startId ==> s.gone < s.passed }

  lemma CursorEntryStep(cfg: Config, s: State, step: Step)
    requires Enabled(cfg, s, step) && Cursor(s) && Anchored(cfg, s) && cfg.marginMs >= 0 && CursorEntryKept(cfg, s)
    requires step.Append? ==> step.evicted == 0
    ensures CursorEntryKept(cfg, Next(cfg, s, step))
    ensures !s.lossWarned ==> Next(cfg, s, step).events == s.events && !Next(cfg, s, step).lossWarned
  {
    if step.Trim? && step.removed > 0 {
      MinusMsIs(s.lastId, cfg.marginMs);
    }
    hide StreamIdMinusMs, ParseStreamId;
  }

  /** While only the consumer trims, the detector stays silent. */
  lemma {:induction false} NoFalseWarning(cfg: Config, start: nat, s: State, run: seq<Step>)
    requires Valid(cfg, s, run) && Sound(cfg, start, s) && cfg.marginMs >= 0 && CapNeverEvicts(run)
    requires CursorEntryKept(cfg, s) && !s.lossWarned
    ensures After(cfg, s, run).events == s.events
    decreases |run|
  {
    hide Next, Enabled, Cursor, Anchored, Accounted, Bounded, Alternating, CursorEntryKept;
    if run != [] {
      SoundRun(cfg, start, s, [run[0]]);
      assert After(cfg, s, [run[0]]) == Next(cfg, s, run[0]);
      CursorEntryStep(cfg, s, run[0]);
      NoFalseWarning(cfg, start, Next(cfg, s, run[0]), run[1..]);
    }
  }

  lemma NeverWarnsWithoutCap(cfg: Config, s: State, run: seq<Step>)
    requires Initial(cfg, s) && Valid(cfg, s, run) && cfg.marginMs >= 0 && CapNeverEvicts(run)
    ensures After(cfg, s, run).events == []
  {
    InitiallySound(cfg, s);
    NoFalseWarning(cfg, s.passed, s, run);
  }

  // ---------------------------------------------------------------- where the detector is wrong

  /** Entry i is evicted, and at some check of the run the warning is on while i is still ahead of the cursor. */
  predicate Reported(cfg: Config, s: State, run: seq<Step>, i: nat)
    requires Valid(cfg, s, run)
    decreases |run|
  {
    run != [] &&
    var t := Next(cfg, s, run[0]);
    (run[0].CheckLoss? && s.passed <= i < s.gone && t.lossWarned) || Reported(cfg, t, run[1..], i)
  }

  /** A check with something left in the stream comes before any read that finds something. */
  predicate CheckedInTime(cfg: Config, s: State, run: seq<Step>)
    requires Valid(cfg, s, run)
    decreases |run|
  {
    run != [] &&
    ((run[0].CheckLoss? && s.gone < |s.appended|) ||
     (!(run[0].Read? && From(s) < To(cfg, s)) && CheckedInTime(cfg, Next(cfg, s, run[0]), run[1..])))
  }

  lemma {:induction false} NeverReportedBehind(cfg: Config, s: State, run: seq<Step>, i: nat)
    requires Valid(cfg, s, run) && i < s.passed && Cursor(s) && Anchored(cfg, s)
    ensures !Reported(cfg, s, run, i)
    decreases |run|
  {
    if run != [] {
      CursorKept(cfg, s, run[0]);
      PassedGrows(cfg, s, run[0]);
      hide Next, Enabled, Cursor, Anchored;
      NeverReportedBehind(cfg, Next(cfg, s, run[0]), run[1..], i);
    }
  }

  lemma PassedGrows(cfg: Config, s: State, step: Step)
    requires Enabled(cfg, s, step)
    ensures Next(cfg, s, step).passed >= s.passed && Next(cfg, s, step).gone >= s.gone
    ensures Next(cfg, s, step).passed == if step.Read? && From(s) < To(cfg, s) then To(cfg, s) else s.passed
    ensures step.CheckLoss? ==> Next(cfg, s, step).lossWarned == Detects(s)
  {
    hide StreamIdMinusMs, ParseStreamId, Detects;
  }

  /** An entry evicted before it was read is reported in what follows exactly when a check, with something
      left in the stream, falls between its eviction and the next read that finds something. */
  lemma {:induction false} ReportedIff(cfg: Config, s: State, run: seq<Step>, i: nat)
    requires Valid(cfg, s, run) && Cursor(s) && Anchored(cfg, s) && s.passed <= i < s.gone
    ensures Reported(cfg, s, run, i) <==> CheckedInTime(cfg, s, run)
    decreases |run|
  {
    if run != [] {
      var t := Next(cfg, s, run[0]);
      CursorKept(cfg, s, run[0]);
      PassedGrows(cfg, s, run[0]);
      DetectsIff(s);
      hide Next, Enabled, Cursor, Anchored, Detects;
      if run[0].Read? && From(s) < To(cfg, s) {
        NeverReportedBehind(cfg, t, run[1..], i);
      } else {
        ReportedIff(cfg, t, run[1..], i);
      }
    }
  }

  /** A read hides every loss before it: the detector compares with the new cursor. So a loss is reported
      only if a check falls between the eviction and the next successful read. */
  lemma ReadHidesLoss(cfg: Config, s: State)
    requires Cursor(s) && Enabled(cfg, s, Read) && From(s) < To(cfg, s)
    ensures !Detects(Next(cfg, s, Read))
  {
  }

  function Sample(n: nat): Entry { Entry(Id(1, n), "t", "p") }

  function Empty(): State { State([], 0, Id(0, 0), [], 0, false, 0, [], {}, []) }

  /** One entry is read and then evicted by the cap when the next arrives: the detector fires although the
      new entry is there to be read. */
  lemma WarnsWithoutLoss() returns (cfg: Config, run: seq<Step>)
    ensures Initial(cfg, Empty()) && cfg.marginMs >= 0 && Valid(cfg, Empty(), run)
    ensures After(cfg, Empty(), run).events == [TrimmedUnread] && After(cfg, Empty(), run).lost == {}
  {
    cfg := Config(Id(0, 0), 900000, 500, 5000);
    run := [Append(Sample(1), 0), Read, Append(Sample(2), 1), CheckLoss];
    var s1 := Next(cfg, Empty(), run[0]);
    var s2 := Next(cfg, s1, run[1]);
    var s3 := Next(cfg, s2, run[2]);
    assert s3.gone == 1 && s3.appended == [Sample(1), Sample(2)];
    assert run[1..][0] == Read && run[1..][1..][0] == run[2] && run[1..][1..][1..] == [CheckLoss];
  }

  /** An unread entry is evicted between two reads and no check falls between them: it is never reported. */
  lemma MissesLoss() returns (cfg: Config, run: seq<Step>)
    ensures Initial(cfg, Empty()) && cfg.marginMs >= 0 && Valid(cfg, Empty(), run)
    ensures After(cfg, Empty(), run).lost != {} && After(cfg, Empty(), run).events == [] && run[|run| - 1] == CheckLoss
  {
    cfg := Config(Id(0, 0), 900000, 500, 5000);
    run := [Append(Sample(1), 0), Read] + [Append(Sample(2), 0), Append(Sample(3), 2), Read, CheckLoss];
    var s2 := AfterOneRead(cfg, run[2..]);
    var s3 := Next(cfg, s2, run[2]);
    assert s3.appended == [Sample(1), Sample(2)] && s3.gone == 0 && s3.lost == {};
    var s4 := Next(cfg, s3, run[3]);
    assert s4.appended == [Sample(1), Sample(2), Sample(3)] && s4.gone == 2 && 1 in s4.lost;
    var s5 := Next(cfg, s4, Read);
    assert s5.passed == 3 && !Detects(s5);
    FourSteps(cfg, s2, run[2], run[3]);
    assert run[2..] == [run[2], run[3], Read, CheckLoss];
  }

  /** One entry arrives and is read. */
  lemma AfterOneRead(cfg: Config, rest: seq<Step>) returns (s: State)
    requires cfg == Config(Id(0, 0), 900000, 500, 5000)
    ensures s == State([Sample(1)], 0, Id(1, 1), [1], 1, false, 1, [0], {}, [])
    ensures Valid(cfg, s, rest) ==>
            Valid(cfg, Empty(), [Append(Sample(1), 0), Read] + rest) && After(cfg, Empty(), [Append(Sample(1), 0), Read] + rest) == After(cfg, s, rest)
  {
    var run := [Append(Sample(1), 0), Read] + rest;
    var s1 := Next(cfg, Empty(), run[0]);
    assert s1 == State([Sample(1)], 0, Id(0, 0), [], 0, false, 0, [], {}, []);
    s := Next(cfg, s1, Read);
    assert run[1..][0] == Read && run[1..][1..] == rest;
    hide StreamIdMinusMs, ParseStreamId;
  }

  lemma FourSteps(cfg: Config, s: State, first: Step, second: Step)
    requires Enabled(cfg, s, first) && Enabled(cfg, Next(cfg, s, first), second)
    requires var t := Next(cfg, Next(cfg, s, first), second);
             Enabled(cfg, t, Read) && Enabled(cfg, Next(cfg, t, Read), CheckLoss)
    ensures Valid(cfg, s, [first, second, Read, CheckLoss])
    ensures After(cfg, s, [first, second, Read, CheckLoss]) == Next(cfg, Next(cfg, Next(cfg, Next(cfg, s, first), second), Read), CheckLoss)
  {
    hide Next, Enabled;
    var s1 := Next(cfg, s, first);
    var s2 := Next(cfg, s1, second);
    var s3 := Next(cfg, s2, Read);
    Prepend(cfg, s3, CheckLoss, []);
    Prepend(cfg, s2, Read, [CheckLoss]);
    Prepend(cfg, s1, second, [Read, CheckLoss]);
    Prepend(cfg, s, first, [second, Read, CheckLoss]);
    assert [CheckLoss] + [] == [CheckLoss];
    assert [Read] + [CheckLoss] == [Read, CheckLoss];
    assert [second] + [Read, CheckLoss] == [second, Read, CheckLoss];
    assert [first] + [second, Read, CheckLoss] == [first, second, Read, CheckLoss];
  }

  lemma Prepend(cfg: Config, s: State, step: Step, rest: seq<Step>)
    requires Enabled(cfg, s, step) && Valid(cfg, Next(cfg, s, step), rest)
    ensures Valid(cfg, s, [step] + rest) && After(cfg, s, [step] + rest) == After(cfg, Next(cfg, s, step), rest)
  {
    hide Next, Enabled;
    assert ([step] + rest)[1..] == rest;
  }
}
