/** The 30-second statistics windows: their keys, and the loop that aggregates the window just ended. */
module StatsWindow {
  import opened Text
  import opened Metrics

  // ---------------------------------------------------------------- src/reporter/window.ts

  /** The local-time fields of a date. */
  datatype Local = Local(year: nat, month: nat, day: nat, hour: nat, minute: nat, second: nat)

  predicate Real(t: Local)
  {
    1 <= t.month <= 12 && 1 <= t.day <= 31 && t.hour < 24 && t.minute < 60 && t.second < 60
  }

  /** `padStart(2, '0')`. */
  function Pad2(n: nat): string { if |Decimal(n)| < 2 then "0" + Decimal(n) else Decimal(n) }

  function ComputeStatsWindowKey(t: Local): string { "wis2gc:stats:" + WindowDigits(t) }

  function WindowDigits(t: Local): string
  {
    Decimal(t.year) + (Pad2(t.month) + (Pad2(t.day) + (Pad2(t.hour) + (Pad2(t.minute) + Pad2(t.second / 30 * 30)))))
  }

  function MsUntilNextWindowBoundary(second: nat, millisecond: nat): int
  {
    (30 - second % 30) * 1000 - millisecond
  }

  lemma TwoDigits(n: nat)
    requires n < 100
    ensures |Pad2(n)| == 2 && AllDigits(Pad2(n)) && DigitsValue(Pad2(n)) == n
  {
    DecimalRoundTrip(n);
    if n < 10 {
      assert |Decimal(n)| == 1;
      assert Pad2(n)[..1] == "0" && ("0")[..0] == "";
      assert DigitsValue("0") == 0;
    } else {
      assert Decimal(n) == Decimal(n / 10) + [(n % 10 + '0' as int) as char];
      assert |Decimal(n / 10)| == 1;
    }
  }

  lemma Pad2Injective(m: nat, n: nat)
    requires m < 100 && n < 100 && Pad2(m) == Pad2(n)
    ensures m == n
  {
    TwoDigits(m);
    TwoDigits(n);
  }

  /** Peeling the fixed-width fields off two equal digit strings. */
  lemma SameTail(a: string, b: string, c: string, d: string)
    requires |b| == |d| && a + b == c + d
    ensures a == c && b == d
  {
    assert |a| == |c|;
    assert a == (a + b)[..|a|] && b == (a + b)[|a|..];
    assert c == (c + d)[..|c|] && d == (c + d)[|c|..];
  }

  lemma SameHead(a: string, b: string, c: string, d: string)
    requires |a| == |c| && a + b == c + d
    ensures a == c && b == d
  {
    assert |b| == |d|;
    SameTail(a, b, c, d);
  }

  predicate SameHalfMinute(s: Local, t: Local)
  {
    s.year == t.year && s.month == t.month && s.day == t.day && s.hour == t.hour && s.minute == t.minute &&
    s.second / 30 == t.second / 30
  }

  lemma DigitsSame(s: Local, t: Local)
    requires Real(s) && Real(t) && WindowDigits(s) == WindowDigits(t)
    ensures SameHalfMinute(s, t)
  {
    FieldWidths(s);
    FieldWidths(t);
    hide Pad2, Decimal;
    var s5, t5 := Pad2(s.second / 30 * 30), Pad2(t.second / 30 * 30);
    var s4, t4 := Pad2(s.minute) + s5, Pad2(t.minute) + t5;
    var s3, t3 := Pad2(s.hour) + s4, Pad2(t.hour) + t4;
    var s2, t2 := Pad2(s.day) + s3, Pad2(t.day) + t3;
    SameTail(Decimal(s.year), Pad2(s.month) + s2, Decimal(t.year), Pad2(t.month) + t2);
    SameHead(Pad2(s.month), s2, Pad2(t.month), t2);
    SameHead(Pad2(s.day), s3, Pad2(t.day), t3);
    SameHead(Pad2(s.hour), s4, Pad2(t.hour), t4);
    SameHead(Pad2(s.minute), s5, Pad2(t.minute), t5);
    DecimalInjective(s.year, t.year);
    Pad2Injective(s.month, t.month);
    Pad2Injective(s.day, t.day);
    Pad2Injective(s.hour, t.hour);
    Pad2Injective(s.minute, t.minute);
    Pad2Injective(s.second / 30 * 30, t.second / 30 * 30);
  }

  lemma FieldWidths(t: Local)
    requires Real(t)
    ensures |Pad2(t.month)| == 2 && |Pad2(t.day)| == 2 && |Pad2(t.hour)| == 2 && |Pad2(t.minute)| == 2
    ensures t.second / 30 * 30 < 100 && |Pad2(t.second / 30 * 30)| == 2
  {
    TwoDigits(t.month);
    TwoDigits(t.day);
    TwoDigits(t.hour);
    TwoDigits(t.minute);
    TwoDigits(t.second / 30 * 30);
  }

  /** Two dates share a window key exactly when they show the same local half minute. */
  lemma WindowKeysIff(s: Local, t: Local)
    requires Real(s) && Real(t)
    ensures ComputeStatsWindowKey(s) == ComputeStatsWindowKey(t) <==> SameHalfMinute(s, t)
  {
    if ComputeStatsWindowKey(s) == ComputeStatsWindowKey(t) {
      assert ComputeStatsWindowKey(s)[|"wis2gc:stats:"|..] == WindowDigits(s);
      assert ComputeStatsWindowKey(t)[|"wis2gc:stats:"|..] == WindowDigits(t);
      DigitsSame(s, t);
    }
  }

  lemma DigitsAreDigits(t: Local)
    requires Real(t)
    ensures AllDigits(WindowDigits(t))
  {
    TwoDigits(t.month);
    TwoDigits(t.day);
    TwoDigits(t.hour);
    TwoDigits(t.minute);
    TwoDigits(t.second / 30 * 30);
    hide Pad2, Decimal;
  }

  /** A combination's key, in the window of any date, reads back as its centre and subtopic. */
  lemma ComboOfWindow(t: Local, centreId: string, subtopic: string)
    requires Real(t) && ':' !in centreId
    ensures AfterWord(StatsComboKey(ComputeStatsWindowKey(t), centreId, subtopic), "combo") == (centreId, subtopic)
    ensures AfterWord(StatsSrcKey(ComputeStatsWindowKey(t), centreId, subtopic), "src") == (centreId, subtopic)
  {
    DigitsAreDigits(t);
    hide WindowDigits, AfterWord, StatsComboKey, StatsSrcKey;
    var digits := WindowDigits(t);
    assert "combo"[0] == 'c' && "src"[0] == 's' && "src"[1] == 'r' && "stats"[1] == 't';
    WindowKeyHasNoWord(digits, "combo");
    WindowKeyHasNoWord(digits, "src");
    ComboKeyRoundTrip("wis2gc:stats:" + digits, centreId, subtopic);
    SrcKeyRoundTrip("wis2gc:stats:" + digits, centreId, subtopic);
  }

  lemma AppendTwo(a: string, p: string)
    requires AllDigits(a) && AllDigits(p) && |p| == 2
    ensures AllDigits(a + p) && DigitsValue(a + p) == 100 * DigitsValue(a) + DigitsValue(p)
  {
    var one := a + [p[0]];
    assert (a + p)[..|a + p| - 1] == one && one[..|one| - 1] == a;
    assert p[..1] == [p[0]] && [p[0]][..0] == "";
    assert DigitsValue(p) == 10 * DigitsValue(p[..1]) + DigitValue(p[1]);
    assert DigitsValue(p[..1]) == DigitValue(p[0]);
  }

  lemma Reassociated(a: string, b: string, c: string, d: string, e: string, f: string)
    ensures a + (b + (c + (d + (e + f)))) == a + b + c + d + e + f
  {
    assert d + (e + f) == d + e + f;
    assert c + (d + e + f) == c + d + e + f;
    assert b + (c + d + e + f) == b + c + d + e + f;
  }

  lemma AppendThree(a: string, b: string, c: string, d: string)
    requires AllDigits(a) && AllDigits(b) && AllDigits(c) && AllDigits(d) && |b| == |c| == |d| == 2
    ensures AllDigits(a + b + c + d)
    ensures DigitsValue(a + b + c + d) == 1000000 * DigitsValue(a) + 10000 * DigitsValue(b) + 100 * DigitsValue(c) + DigitsValue(d)
  {
    hide AllDigits, DigitsValue;
    AppendTwo(a, b);
    AppendTwo(a + b, c);
    AppendTwo(a + b + c, d);
  }

  /** The digits of a window, as one number: year, month, day, hour, minute and the second its half minute began. */
  lemma WindowNumber(t: Local)
    requires Real(t)
    ensures AllDigits(WindowDigits(t))
    ensures DigitsValue(WindowDigits(t)) ==
            10000000000 * t.year + 100000000 * t.month + 1000000 * t.day + 10000 * t.hour + 100 * t.minute + (if t.second < 30 then 0 else 30)
  {
    var y, mo, d, h, mi, s := Decimal(t.year), Pad2(t.month), Pad2(t.day), Pad2(t.hour), Pad2(t.minute), Pad2(t.second / 30 * 30);
    DecimalRoundTrip(t.year);
    TwoDigits(t.month);
    TwoDigits(t.day);
    TwoDigits(t.hour);
    TwoDigits(t.minute);
    TwoDigits(t.second / 30 * 30);
    Reassociated(y, mo, d, h, mi, s);
    assert WindowDigits(t) == y + mo + d + h + mi + s;
    hide Pad2, Decimal, DigitsValue, AllDigits, WindowDigits;
    SixNumbers(y, mo, d, h, mi, s);
  }

  lemma SixNumbers(y: string, mo: string, d: string, h: string, mi: string, s: string)
    requires AllDigits(y) && AllDigits(mo) && AllDigits(d) && AllDigits(h) && AllDigits(mi) && AllDigits(s)
    requires |mo| == |d| == |h| == |mi| == |s| == 2
    ensures AllDigits(y + mo + d + h + mi + s)
    ensures DigitsValue(y + mo + d + h + mi + s) ==
            10000000000 * DigitsValue(y) + 100000000 * DigitsValue(mo) + 1000000 * DigitsValue(d) + 10000 * DigitsValue(h)
            + 100 * DigitsValue(mi) + DigitsValue(s)
  {
    hide AllDigits, DigitsValue;
    AppendThree(y, mo, d, h);
    AppendTwo(y + mo + d + h, mi);
    AppendTwo(y + mo + d + h + mi, s);
  }

  // ---------------------------------------------------------------- runHashStatLoop (src/reporter/run.ts)

  const WINDOW_MS := 30000

  /** The number of the window a time in epoch milliseconds falls in. */
  function WindowOf(at: nat): nat { at / WINDOW_MS }

  function WaitFrom(at: nat): int
  {
    var wait := MsUntilNextWindowBoundary(at / 1000 % 60, at % 1000);
    if wait < 0 then 0 else wait
  }

  lemma InWindow(at: nat, window: nat, rest: nat)
    requires at == 30000 * window + rest && rest < 30000
    ensures at / 30000 == window
  {
  }

  /** A time as windows, whole seconds into the window, and milliseconds. */
  lemma WindowParts(at: nat) returns (window: nat, second: nat, ms: nat)
    ensures at == WINDOW_MS * window + 1000 * second + ms && second < 30 && ms < 1000
    ensures WindowOf(at) == window && at / 1000 % 60 % 30 == second && at % 1000 == ms
  {
    var seconds, minute := at / 1000, at / 1000 / 60;
    var half := seconds % 60 / 30;
    window, second, ms := 2 * minute + half, seconds % 60 % 30, at % 1000;
    assert at == 1000 * seconds + ms && seconds == 60 * minute + seconds % 60 && seconds % 60 == 30 * half + second;
    InWindow(at, window, 1000 * second + ms);
  }

  /** The wait ends exactly at the next boundary. */
  lemma WaitEndsAtBoundary(at: nat)
    ensures at + WaitFrom(at) == (WindowOf(at) + 1) * WINDOW_MS
    ensures 0 < WaitFrom(at) <= WINDOW_MS
  {
    var window, second, ms := WindowParts(at);
  }

  /** One iteration: it starts at `begun`, its timer fires at `woken`, and it aggregates the window before. */
  datatype Tick = Tick(begun: nat, woken: nat)

  /** Timers never fire early, and an iteration starts after the one before woke. */
  predicate Punctual(ticks: seq<Tick>)
  {
    && (forall i :: 0 <= i < |ticks| ==> ticks[i].woken >= ticks[i].begun + WaitFrom(ticks[i].begun))
    && (forall i :: 0 <= i < |ticks| - 1 ==> ticks[i + 1].begun >= ticks[i].woken)
  }

  /** The window whose statistics the iteration reads. */
  function Aggregated(t: Tick): int { WindowOf(t.woken) as int - 1 }

  lemma WokenNextWindow(t: Tick)
    requires t.woken >= t.begun + WaitFrom(t.begun)
    ensures WindowOf(t.woken) >= WindowOf(t.begun) + 1
    ensures t.woken >= WINDOW_MS && Aggregated(t) == WindowOf(t.woken - WINDOW_MS)
  {
    WaitEndsAtBoundary(t.begun);
  }

  /** No window is ever aggregated twice: the windows of successive iterations strictly increase. */
  lemma {:induction false} WindowsIncrease(ticks: seq<Tick>, i: nat, j: nat)
    requires Punctual(ticks) && i < j < |ticks|
    ensures Aggregated(ticks[i]) < Aggregated(ticks[j])
    decreases j
  {
    WokenNextWindow(ticks[j]);
    assert ticks[j - 1 + 1].begun >= ticks[j - 1].woken;
    assert WindowOf(ticks[j].begun) >= WindowOf(ticks[j - 1].woken);
    if i < j - 1 {
      WindowsIncrease(ticks, i, j - 1);
    }
  }

  /** No window is skipped between two iterations exactly when the second wakes before the window after the
      one it waited for begins. The window that reports were written to meanwhile is then the one it reads. */
  lemma NoneSkippedIff(ticks: seq<Tick>, i: nat)
    requires Punctual(ticks) && i + 1 < |ticks|
    ensures Aggregated(ticks[i + 1]) == Aggregated(ticks[i]) + 1 <==> ticks[i + 1].woken < (WindowOf(ticks[i].woken) + 2) * WINDOW_MS
    ensures Aggregated(ticks[i + 1]) == WindowOf(ticks[i].woken) <==> ticks[i + 1].woken < (WindowOf(ticks[i].woken) + 2) * WINDOW_MS
  {
    WindowsIncrease(ticks, i, i + 1);
  }

  /** A clock: the local fields shown at each window. */
  ghost predicate ShowsRealDates(clock: nat -> Local) { forall w: nat :: Real(clock(w)) }

  /** A corollary of WindowKeysIff: as keys go, a window's statistics are read twice exactly if the local
      clock shows the half minute of an earlier window again, as it does in the hour repeated at the end of
      summer time. */
  lemma KeyRepeatsIff(clock: nat -> Local, ticks: seq<Tick>, i: nat, j: nat)
    requires ShowsRealDates(clock) && Punctual(ticks) && i < j < |ticks|
    ensures Aggregated(ticks[i]) >= 0 && Aggregated(ticks[j]) >= 0
    ensures ComputeStatsWindowKey(clock(Aggregated(ticks[i]))) == ComputeStatsWindowKey(clock(Aggregated(ticks[j]))) <==>
            SameHalfMinute(clock(Aggregated(ticks[i])), clock(Aggregated(ticks[j])))
    ensures Aggregated(ticks[i]) != Aggregated(ticks[j])
  {
    WokenNextWindow(ticks[i]);
    WokenNextWindow(ticks[j]);
    WindowsIncrease(ticks, i, j);
    WindowKeysIff(clock(Aggregated(ticks[i])), clock(Aggregated(ticks[j])));
  }

  /** The loop, given when each of its timers fires and how long each aggregation takes. */
  method RunHashStatLoop(start: nat, delays: seq<(nat, nat)>) returns (windows: seq<int>, ghost ticks: seq<Tick>)
    ensures Punctual(ticks) && |ticks| == |windows| == |delays|
    ensures forall i :: 0 <= i < |windows| ==> windows[i] == Aggregated(ticks[i])
    ensures forall i, j :: 0 <= i < j < |windows| ==> windows[i] < windows[j]
  {
    var now: nat := start;
    windows, ticks := [], [];
    var n := 0;
    while n < |delays|
      invariant 0 <= n <= |delays| && |ticks| == |windows| == n && Punctual(ticks)
      invariant n > 0 ==> now >= ticks[n - 1].woken
      invariant forall i :: 0 <= i < n ==> windows[i] == Aggregated(ticks[i])
    {
      var begun := now;
      WaitEndsAtBoundary(begun);
      now := now + WaitFrom(begun) + delays[n].0;
      windows := windows + [WindowOf(now) as int - 1];
      ticks := ticks + [Tick(begun, now)];
      now := now + delays[n].1;
      n := n + 1;
    }
    forall i, j | 0 <= i < j < |windows|
      ensures windows[i] < windows[j]
    {
      WindowsIncrease(ticks, i, j);
    }
  }
}
