/** The raw stream of one queue and its consumer loop, one atomic segment (between two awaits) at a time:
    the producer appends and its count cap evicts, the consumer trims behind its cursor, looks for losses,
    reads batches it does not wait for, and batches settle in any order. */
module RawStream {
  import opened Text
  import opened StreamIds

  datatype Entry = Entry(id: Id, topic: string, payload: string)

  datatype Event = TrimmedUnread | TrimmedUnreadCleared

  /** What never changes: the start cursor, the trim margin and the two bounds. */
  datatype Config = Config(startId: Id, marginMs: int, count: nat, maxInFlight: nat)

  datatype State = State(
    appended: seq<Entry>,  // every entry ever added
    gone: nat,             // how many of them, the oldest, the stream no longer holds
    lastId: Id,
    batches: seq<nat>,     // sizes of the batches dispatched and not settled
    inFlight: int,
    lossWarned: bool,
    // history
    passed: nat,           // how many entries are not newer than lastId
    taken: seq<nat>,       // the entries read, in order
    lost: set<nat>,        // the entries evicted before they were read
    events: seq<Event>)

  datatype Step =
    | Append(entry: Entry, evicted: nat)  // XADD MAXLEN ~
    | Trim(removed: nat)                  // XTRIM MINID ~; 0 also when it fails
    | CheckLoss
    | Read
    | Settle(k: nat)

  function Max(a: nat, b: nat): nat { if a < b then b else a }

  function Min(a: nat, b: nat): nat { if a < b then a else b }

  /** The indices in [lo, hi). */
  function Range(lo: nat, hi: nat): (r: set<nat>)
    ensures |r| == if lo <= hi then hi - lo else 0
    ensures forall i: nat :: i in r <==> lo <= i < hi
    decreases hi
  {
    if lo >= hi then {} else Range(lo, hi - 1) + {hi - 1}
  }

  // ---------------------------------------------------------------- steps

  /** Old entries leave the stream. */
  function Evict(s: State, n: nat): State
  {
    s.(gone := s.gone + n, lost := s.lost + Range(Max(s.passed, s.gone), s.gone + n))
  }

  /** getRawStreamOldestId against lastId. */
  predicate Detects(s: State)
  {
    s.gone < |s.appended| && Before(s.lastId, s.appended[s.gone].id)
  }

  /** Where XREAD starts: the oldest entry still there that is newer than lastId. */
  function From(s: State): nat { Max(s.passed, s.gone) }

  function To(cfg: Config, s: State): nat { Min(From(s) + cfg.count, |s.appended|) }

  predicate Enabled(cfg: Config, s: State, step: Step)
  {
    match step
    case Append(entry, evicted) =>
      && Before(cfg.startId, entry.id)
      && (s.appended != [] ==> Before(s.appended[|s.appended| - 1].id, entry.id))
      && s.gone + evicted <= |s.appended| + 1
    case Trim(removed) =>
      && s.gone + removed <= |s.appended|
      && forall i :: s.gone <= i < s.gone + removed ==>
           Before(s.appended[i].id, ParseStreamId(StreamIdMinusMs(PrintId(s.lastId), cfg.marginMs)))
    case CheckLoss => s.lastId != cfg.startId
    case Read => s.inFlight < cfg.maxInFlight && From(s) <= |s.appended|
    case Settle(k) => k < |s.batches|
  }

  function Next(cfg: Config, s: State, step: Step): State
    requires Enabled(cfg, s, step)
  {
    match step
    case Append(entry, evicted) => Evict(s.(appended := s.appended + [entry]), evicted)
    case Trim(removed) => Evict(s, removed)
    case CheckLoss =>
      if Detects(s) && !s.lossWarned then s.(lossWarned := true, events := s.events + [TrimmedUnread])
      else if !Detects(s) && s.lossWarned then s.(lossWarned := false, events := s.events + [TrimmedUnreadCleared])
      else s
    case Read =>
      var from, to := From(s), To(cfg, s);
      if from == to then s.(batches := s.batches + [0])
      else
        s.(lastId := s.appended[to - 1].id, batches := s.batches + [to - from], inFlight := s.inFlight + (to - from),
           passed := to, taken := s.taken + seq(to - from, k requires 0 <= k => from + k))
    case Settle(k) => s.(batches := s.batches[..k] + s.batches[k + 1..], inFlight := s.inFlight - s.batches[k])
  }

  predicate Valid(cfg: Config, s: State, run: seq<Step>)
    decreases |run|
  {
    run == [] || (Enabled(cfg, s, run[0]) && Valid(cfg, Next(cfg, s, run[0]), run[1..]))
  }

  function After(cfg: Config, s: State, run: seq<Step>): State
    requires Valid(cfg, s, run)
    decreases |run|
  {
    if run == [] then s else After(cfg, Next(cfg, s, run[0]), run[1..])
  }

  /** A consumer that starts on an empty stream or on whatever an earlier one left; start entries of it are
      not newer than the start cursor. */
  ghost predicate Initial(cfg: Config, s: State)
  {
    && Cursor(s) && s.gone <= |s.appended|
    && s.lastId == cfg.startId
    && s.batches == [] && s.inFlight == 0 && !s.lossWarned && s.events == []
    && s.taken == [] && s.lost == {} && s.gone <= s.passed
  }

  // ---------------------------------------------------------------- the cursor

  ghost predicate Ordered(appended: seq<Entry>)
  {
    forall i, j :: 0 <= i < j < |appended| ==> Before(appended[i].id, appended[j].id)
  }

  /** lastId separates the first `passed` entries from the rest. */
  ghost predicate Separates(lastId: Id, appended: seq<Entry>, passed: nat)
  {
    && passed <= |appended|
    && (forall i :: 0 <= i < passed ==> !Before(lastId, appended[i].id))
    && (forall i :: passed <= i < |appended| ==> Before(lastId, appended[i].id))
  }

  ghost predicate Cursor(s: State)
  {
    Ordered(s.appended) && s.gone <= |s.appended| && Separates(s.lastId, s.appended, s.passed)
  }

  /** Once something was read, lastId is the id of the entry just behind the cursor. */
  ghost predicate Anchored(cfg: Config, s: State)
  {
    && !Before(s.lastId, cfg.startId)
    && (s.lastId != cfg.startId ==> 0 < s.passed <= |s.appended| && s.appended[s.passed - 1].id == s.lastId)
  }

  lemma AppendOrdered(appended: seq<Entry>, entry: Entry)
    requires Ordered(appended) && (appended != [] ==> Before(appended[|appended| - 1].id, entry.id))
    ensures Ordered(appended + [entry])
  {
  }

  lemma ReadSeparates(appended: seq<Entry>, to: nat)
    requires Ordered(appended) && 0 < to <= |appended|
    ensures Separates(appended[to - 1].id, appended, to)
  {
  }

  lemma CursorKept(cfg: Config, s: State, step: Step)
    requires Enabled(cfg, s, step) && Cursor(s) && Anchored(cfg, s)
    ensures Cursor(Next(cfg, s, step)) && Anchored(cfg, Next(cfg, s, step))
  {
    hide StreamIdMinusMs, ParseStreamId, Detects, Ordered;
    match step
    case Append(entry, _) => AppendOrdered(s.appended, entry);
    case Read =>
      if From(s) < To(cfg, s) {
        ReadSeparates(s.appended, To(cfg, s));
        assert Before(s.lastId, s.appended[To(cfg, s) - 1].id);
      }
    case _ =>
  }

  // ---------------------------------------------------------------- nothing is read twice or skipped

  ghost predicate Accounted(start: nat, s: State)
  {
    && start <= s.passed
    && (forall k :: 0 <= k < |s.taken| ==> start <= s.taken[k] < s.passed)
    && (forall j, k :: 0 <= j < k < |s.taken| ==> s.taken[j] < s.taken[k])
    && (forall i: nat :: i in s.lost ==> start <= i < s.gone)
    && (forall i: nat :: start <= i < From(s) ==> (i in s.taken <==> i !in s.lost))
    && |s.taken| + |s.lost| == From(s) - start
    && (s.lost == {} ==> s.gone <= s.passed && forall k :: 0 <= k < |s.taken| ==> s.taken[k] == start + k)
  }

  lemma EvictCounts(start: nat, s: State, n: nat)
    requires Accounted(start, s)
    ensures var more := Range(From(s), s.gone + n);
            && |s.lost + more| == |s.lost| + |more|
            && |more| == From(Evict(s, n)) - From(s)
            && (s.lost + more == {} ==> s.gone + n <= s.passed)
  {
    var more := Range(From(s), s.gone + n);
    hide Range;
    assert s.lost !! more;
    if From(s) < s.gone + n {
      assert From(s) in s.lost + more;
    }
  }

  lemma EvictMember(start: nat, s: State, n: nat, i: nat)
    requires Accounted(start, s) && start <= i < From(Evict(s, n))
    ensures i in s.taken <==> i !in s.lost + Range(From(s), s.gone + n)
  {
    hide Range;
    if i >= From(s) {
      assert i !in s.taken;
    }
  }

  lemma EvictAccounted(start: nat, s: State, n: nat)
    requires Accounted(start, s)
    ensures Accounted(start, Evict(s, n))
  {
    hide Range, Evict, From;
    EvictCounts(start, s, n);
    EvictFrame(start, s, n);
    var t := Evict(s, n);
    forall i: nat | start <= i < From(t)
      ensures i in t.taken <==> i !in t.lost
    {
      EvictMember(start, s, n, i);
    }
    assert |t.taken| + |t.lost| == From(t) - start;
  }

  lemma EvictFrame(start: nat, s: State, n: nat)
    requires Accounted(start, s)
    ensures var t, more := Evict(s, n), Range(From(s), s.gone + n);
            && t.passed == s.passed && t.taken == s.taken && t.lost == s.lost + more && t.gone == s.gone + n
            && (forall i: nat :: i in t.lost ==> start <= i < t.gone)
            && (t.lost == {} ==> s.lost == {})
  {
    hide Range;
  }

  /** What a read changes, when it finds something. */
  lemma ReadTakes(cfg: Config, s: State)
    requires Enabled(cfg, s, Read) && Cursor(s)
    ensures var t, from, to := Next(cfg, s, Read), From(s), To(cfg, s);
            && from <= to <= |s.appended| && t.gone == s.gone && t.lost == s.lost && |t.taken| == |s.taken| + (to - from)
            && (from == to ==> t.taken == s.taken && t.passed == s.passed)
            && (from < to ==> t.passed == to && From(t) == to)
            && (forall k :: 0 <= k < |s.taken| ==> t.taken[k] == s.taken[k])
            && (forall k :: |s.taken| <= k < |t.taken| ==> t.taken[k] == from + (k - |s.taken|))
  {
    hide StreamIdMinusMs, ParseStreamId, Cursor;
  }

  /** The indices taken stay ordered and behind the cursor. */
  lemma TakenOrdered(start: nat, earlier: seq<nat>, taken: seq<nat>, passed: nat, from: nat, to: nat)
    requires |taken| == |earlier| + (to - from) && start <= passed <= from < to
    requires forall k :: 0 <= k < |earlier| ==> start <= earlier[k] < passed
    requires forall j, k :: 0 <= j < k < |earlier| ==> earlier[j] < earlier[k]
    requires forall k :: 0 <= k < |earlier| ==> taken[k] == earlier[k]
    requires forall k :: |earlier| <= k < |taken| ==> taken[k] == from + (k - |earlier|)
    ensures forall k :: 0 <= k < |taken| ==> start <= taken[k] < to
    ensures forall j, k :: 0 <= j < k < |taken| ==> taken[j] < taken[k]
    ensures forall i: nat :: i in taken <==> i in earlier || from <= i < to
  {
    forall i: nat
      ensures i in taken <==> i in earlier || from <= i < to
    {
      if i in taken {
        var k :| 0 <= k < |taken| && taken[k] == i;
        if k < |earlier| { assert earlier[k] == i; }
      }
      if i in earlier {
        var k :| 0 <= k < |earlier| && earlier[k] == i;
        assert taken[k] == i;
      }
      if from <= i < to { assert taken[|earlier| + (i - from)] == i; }
    }
  }

  lemma ReadAccounted(cfg: Config, start: nat, s: State)
    requires Enabled(cfg, s, Read) && Accounted(start, s) && Cursor(s)
    ensures Accounted(start, Next(cfg, s, Read))
  {
    hide StreamIdMinusMs, ParseStreamId, Cursor, Enabled, Next;
    ReadTakes(cfg, s);
    var t, from, to := Next(cfg, s, Read), From(s), To(cfg, s);
    if from < to {
      TakenOrdered(start, s.taken, t.taken, s.passed, from, to);
      assert forall i: nat :: i in s.lost ==> i < from;
    }
  }

  lemma AccountedKept(cfg: Config, start: nat, s: State, step: Step)
    requires Enabled(cfg, s, step) && Accounted(start, s) && Cursor(s)
    ensures Accounted(start, Next(cfg, s, step))
  {
    hide StreamIdMinusMs, ParseStreamId, Accounted;
    match step
    case Append(entry, evicted) =>
      var a := s.(appended := s.appended + [entry]);
      AppendAccounted(start, s, entry);
      EvictAccounted(start, a, evicted);
    case Trim(removed) => EvictAccounted(start, s, removed);
    case Read => ReadAccounted(cfg, start, s);
    case CheckLoss => QuietAccounted(start, s, Next(cfg, s, step));
    case Settle(k) => QuietAccounted(start, s, Next(cfg, s, step));
  }

  lemma AppendAccounted(start: nat, s: State, entry: Entry)
    requires Accounted(start, s)
    ensures Accounted(start, s.(appended := s.appended + [entry]))
  {
  }

  lemma QuietAccounted(start: nat, s: State, t: State)
    requires Accounted(start, s)
    requires t.passed == s.passed && t.gone == s.gone && t.taken == s.taken && t.lost == s.lost
    ensures Accounted(start, t)
  {
  }

  // ---------------------------------------------------------------- backpressure

  function Sum(sizes: seq<nat>): nat
  {
    if sizes == [] then 0 else sizes[0] + Sum(sizes[1..])
  }

  lemma {:induction false} SumAppend(a: seq<nat>, b: seq<nat>)
    ensures Sum(a + b) == Sum(a) + Sum(b)
  {
    if a == [] {
      assert a + b == b;
    } else {
      SumAppend(a[1..], b);
      assert (a + b)[1..] == a[1..] + b;
    }
  }

  ghost predicate Bounded(cfg: Config, s: State)
  {
    s.inFlight == Sum(s.batches) && (s.inFlight == 0 || s.inFlight < cfg.maxInFlight + cfg.count)
  }

  lemma BoundedKept(cfg: Config, s: State, step: Step)
    requires Enabled(cfg, s, step) && Bounded(cfg, s)
    ensures Bounded(cfg, Next(cfg, s, step))
  {
    BatchesMove(cfg, s, step);
    if step.Read? {
      SumAppend(s.batches, [To(cfg, s) - From(s)]);
      SumOne(To(cfg, s) - From(s));
    } else if step.Settle? {
      SumWithout(s.batches, step.k);
    }
    hide Next, Sum, From, To;
  }

  /** What a step does to the batches in flight. */
  lemma BatchesMove(cfg: Config, s: State, step: Step)
    requires Enabled(cfg, s, step)
    ensures var t := Next(cfg, s, step);
            match step
            case Read => 0 <= To(cfg, s) - From(s) <= cfg.count && s.inFlight < cfg.maxInFlight
                         && t.batches == s.batches + [To(cfg, s) - From(s)] && t.inFlight == s.inFlight + To(cfg, s) - From(s)
            case Settle(k) => k < |s.batches| && t.batches == s.batches[..k] + s.batches[k + 1..] && t.inFlight == s.inFlight - s.batches[k]
            case _ => t.batches == s.batches && t.inFlight == s.inFlight
  {
    hide StreamIdMinusMs, ParseStreamId, Detects;
  }

  lemma SumOne(n: nat)
    ensures Sum([n]) == n
  {
  }

  lemma SumWithout(b: seq<nat>, k: nat)
    requires k < |b|
    ensures Sum(b[..k] + b[k + 1..]) == Sum(b) - b[k]
  {
    SumAppend(b[..k], b[k..]);
    SumAppend(b[..k], b[k + 1..]);
    assert b[..k] + b[k..] == b && b[k..][1..] == b[k + 1..];
  }

  // ---------------------------------------------------------------- the loss detector

  /** The two events alternate, starting with a warning, and the flag says which comes next. */
  ghost predicate Alternating(s: State)
  {
    && (s.lossWarned <==> |s.events| % 2 == 1)
    && forall k :: 0 <= k < |s.events| ==> s.events[k] == if k % 2 == 0 then TrimmedUnread else TrimmedUnreadCleared
  }

  lemma AlternatingKept(cfg: Config, s: State, step: Step)
    requires Enabled(cfg, s, step) && Alternating(s)
    ensures Alternating(Next(cfg, s, step))
  {
    hide StreamIdMinusMs, ParseStreamId, Detects;
  }

  /** What the detector sees: it fires exactly when the entry at the cursor, the last one read, is gone and
      something is left. If it fires, an unread entry was evicted unless only that entry went. */
  lemma DetectsIff(s: State)
    requires Cursor(s)
    ensures Detects(s) <==> s.gone < |s.appended| && s.gone >= s.passed
  {
  }

  /** An unread entry that is gone is always noticed while the cursor has not moved past it. */
  lemma LossIsDetected(start: nat, s: State, i: nat)
    requires Cursor(s) && Accounted(start, s) && i in s.lost && i >= s.passed && s.gone < |s.appended|
    ensures Detects(s)
  {
  }

  /** The warning is right exactly when more than the last entry read is gone. */
  lemma WarningIsRightIff(start: nat, s: State)
    requires Cursor(s) && Accounted(start, s) && Detects(s)
    ensures (exists i: nat :: i in s.lost && i >= s.passed) <==> s.gone > s.passed
  {
    if s.gone > s.passed {
      assert s.passed !in s.taken;
      assert s.passed in s.lost;
    }
  }
}
